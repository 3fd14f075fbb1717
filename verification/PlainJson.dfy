/** Copying a graph of Python containers into a JSON value: the `active` set of container
    identities on the current path is what tells a cycle from a shared part. */
module PlainJson {
  import opened Wrappers
  import opened CanonicalJson

  /** What an identity stands for; a float that is not finite is opaque. A key that is not
      a string is None. */
  datatype Node =
    | Scalar(v: Json)
    | Opaque
    | List(items: seq<nat>)
    | Dict(entries: seq<(Option<string>, nat)>)

  type Graph = map<nat, Node>

  predicate IsPlainText(s: string) {
    '\0' !in s
  }

  predicate IsPlainScalar(v: Json) {
    v.Null? || v.Bool? || v.Int? || v.Float? || (v.Str? && IsPlainText(v.s))
  }

  predicate ArePlainKeys(entries: seq<(Option<string>, nat)>) {
    && (forall i :: 0 <= i < |entries| ==> entries[i].0.Some? && IsPlainText(entries[i].0.value))
    && (forall i, j :: 0 <= i < j < |entries| ==> entries[i].0 != entries[j].0)
  }

  /** The value that the part of the graph below `ref` unfolds to, if it is finite. */
  ghost predicate Unfolds(g: Graph, ref: nat, v: Json)
    decreases v
  {
    ref in g && match g[ref]
      case Scalar(w) => v == w && IsPlainScalar(w)
      case Opaque => false
      case List(items) =>
        v.Arr? && |v.items| == |items| && forall i :: 0 <= i < |items| ==> Unfolds(g, items[i], v.items[i])
      case Dict(entries) =>
        && v.Obj? && ArePlainKeys(entries)
        && (forall k :: k in v.members <==> exists i :: 0 <= i < |entries| && entries[i].0 == Some(k))
        && (forall i :: 0 <= i < |entries| && entries[i].0.Some? && entries[i].0.value in v.members ==>
              Unfolds(g, entries[i].1, v.members[entries[i].0.value]))
  }

  lemma {:induction false} UnfoldingIsUnique(g: Graph, ref: nat, v: Json, w: Json)
    requires Unfolds(g, ref, v) && Unfolds(g, ref, w)
    ensures v == w
    decreases v
  {
    match g[ref]
    case Scalar(_) =>
    case List(items) =>
      forall i | 0 <= i < |items|
        ensures v.items[i] == w.items[i]
      {
        UnfoldingIsUnique(g, items[i], v.items[i], w.items[i]);
      }
    case Dict(entries) =>
      assert forall k :: k in v.members <==> k in w.members;
      forall k | k in v.members
        ensures v.members[k] == w.members[k]
      {
        var i :| 0 <= i < |entries| && entries[i].0 == Some(k);
        UnfoldingIsUnique(g, entries[i].1, v.members[k], w.members[k]);
      }
      assert v.members == w.members;
  }

  /** `v` holds, somewhere inside or as itself, the unfolding of an identity in `active`. */
  ghost predicate HoldsActive(g: Graph, v: Json, active: set<nat>) {
    exists a, w :: a in active && Unfolds(g, a, w) && (w == v || w < v)
  }

  /** An identity is never strictly inside its own unfolding. */
  lemma NotInsideItself(g: Graph, ref: nat, v: Json, inner: Json, active: set<nat>)
    requires Unfolds(g, ref, v) && inner < v && HoldsActive(g, inner, active + {ref})
    ensures HoldsActive(g, v, active)
  {
    var a, w :| a in active + {ref} && Unfolds(g, a, w) && (w == inner || w < inner);
    if a == ref {
      UnfoldingIsUnique(g, ref, v, w);
    } else {
      assert w < v;
    }
  }

  /** `members` is the copy of these entries. */
  ghost predicate IsCopied(g: Graph, entries: seq<(Option<string>, nat)>, members: map<string, Json>) {
    && ArePlainKeys(entries)
    && (forall k :: k in members <==> exists i :: 0 <= i < |entries| && entries[i].0 == Some(k))
    && (forall i :: 0 <= i < |entries| ==>
          entries[i].0.value in members && Unfolds(g, entries[i].1, members[entries[i].0.value]))
  }

  lemma CopiedOneMore(g: Graph, entries: seq<(Option<string>, nat)>, i: nat, members: map<string, Json>, v: Json)
    requires i < |entries| && IsCopied(g, entries[..i], members)
    requires entries[i].0.Some? && IsPlainText(entries[i].0.value) && entries[i].0.value !in members
    requires Unfolds(g, entries[i].1, v)
    ensures IsCopied(g, entries[..i + 1], members[entries[i].0.value := v])
  {
    var before, now := entries[..i], entries[..i + 1];
    var after := members[entries[i].0.value := v];
    assert now == before + [entries[i]];
    forall k
      ensures k in after <==> exists j :: 0 <= j < |now| && now[j].0 == Some(k)
    {
      if k in members {
        var j :| 0 <= j < |before| && before[j].0 == Some(k);
        assert now[j].0 == Some(k);
      }
      assert now[i].0 == entries[i].0;
    }
  }

  /** A key that is no plain string, or comes twice, keeps the dictionary from unfolding. */
  lemma KeyRefused(g: Graph, entries: seq<(Option<string>, nat)>, i: nat, members: map<string, Json>)
    requires i < |entries| && IsCopied(g, entries[..i], members)
    requires entries[i].0.None? || !IsPlainText(entries[i].0.value) || entries[i].0.value in members
    ensures !ArePlainKeys(entries)
  {
    if entries[i].0.Some? && entries[i].0.value in members {
      var j :| 0 <= j < i && entries[..i][j].0 == entries[i].0;
    }
  }

  /** An entry that cannot be copied keeps its dictionary from unfolding. */
  lemma EntryRefused(g: Graph, ref: nat, i: nat, active: set<nat>)
    requires ref in g && g[ref].Dict? && i < |g[ref].entries| && g[ref].entries[i].0.Some?
    requires forall v :: Unfolds(g, g[ref].entries[i].1, v) ==> HoldsActive(g, v, active + {ref})
    ensures forall v :: Unfolds(g, ref, v) ==> HoldsActive(g, v, active)
  {
    var key := g[ref].entries[i].0.value;
    forall v | Unfolds(g, ref, v)
      ensures HoldsActive(g, v, active)
    {
      assert key in v.members;
      NotInsideItself(g, ref, v, v.members[key], active);
    }
  }

  class Copier {
    const graph: Graph
    var active: set<nat>

    constructor (graph: Graph)
      ensures this.graph == graph && active == {}
    {
      this.graph, active := graph, {};
    }

    /** The copy, or None for a cycle, an unsupported part or a bad string. What is
        refused has no unfolding, unless an identity already active is inside it. */
    method Plain(ref: nat) returns (r: Option<Json>)
      modifies this
      ensures active == old(active)
      ensures r.Some? ==> Unfolds(graph, ref, r.value)
      ensures r.None? ==> forall v :: Unfolds(graph, ref, v) ==> HoldsActive(graph, v, active)
      decreases |graph.Keys - active|, 1
    {
      if ref !in graph {
        return None;
      }
      match graph[ref]
      case Opaque => return None;
      case Scalar(v) =>
        return if IsPlainScalar(v) then Some(v) else None;
      case List(items) =>
        if ref in active {
          return None;
        }
        Shrinks(graph.Keys, active, ref);
        ghost var before := active;
        active := active + {ref};
        var copied := CopyItems(ref, items, before);
        active := active - {ref};
        if copied.None? {
          return None;
        }
        return Some(Arr(copied.value));
      case Dict(entries) =>
        if ref in active {
          return None;
        }
        Shrinks(graph.Keys, active, ref);
        ghost var before := active;
        active := active + {ref};
        var copied := CopyEntries(ref, entries, before);
        active := active - {ref};
        if copied.None? {
          return None;
        }
        return Some(Obj(copied.value));
    }

    method CopyItems(ref: nat, items: seq<nat>, ghost before: set<nat>) returns (r: Option<seq<Json>>)
      requires ref in graph && graph[ref] == List(items) && ref !in before && active == before + {ref}
      modifies this
      ensures active == old(active)
      ensures r.Some? ==> Unfolds(graph, ref, Arr(r.value))
      ensures r.None? ==> forall v :: Unfolds(graph, ref, v) ==> HoldsActive(graph, v, before)
      decreases |graph.Keys - active|, 2
    {
      var result: seq<Json> := [];
      for i := 0 to |items|
        invariant active == old(active) && |result| == i
        invariant forall k :: 0 <= k < i ==> Unfolds(graph, items[k], result[k])
      {
        var item := Plain(items[i]);
        if item.None? {
          forall v | Unfolds(graph, ref, v)
            ensures HoldsActive(graph, v, before)
          {
            NotInsideItself(graph, ref, v, v.items[i], before);
          }
          return None;
        }
        result := result + [item.value];
      }
      return Some(result);
    }

    method CopyEntries(ref: nat, entries: seq<(Option<string>, nat)>, ghost before: set<nat>)
      returns (r: Option<map<string, Json>>)
      requires ref in graph && graph[ref] == Dict(entries) && ref !in before && active == before + {ref}
      modifies this
      ensures active == old(active)
      ensures r.Some? ==> Unfolds(graph, ref, Obj(r.value))
      ensures r.None? ==> forall v :: Unfolds(graph, ref, v) ==> HoldsActive(graph, v, before)
      decreases |graph.Keys - active|, 2
    {
      var result: map<string, Json> := map[];
      for i := 0 to |entries|
        invariant active == old(active)
        invariant IsCopied(graph, entries[..i], result)
      {
        var key := entries[i].0;
        if key.None? || !IsPlainText(key.value) || key.value in result {
          KeyRefused(graph, entries, i, result);
          return None;
        }
        var item := Plain(entries[i].1);
        if item.None? {
          EntryRefused(graph, ref, i, before);
          return None;
        }
        CopiedOneMore(graph, entries, i, result, item.value);
        result := result[key.value := item.value];
      }
      assert entries[..|entries|] == entries;
      return Some(result);
    }
  }

  lemma Shrinks(keys: set<nat>, active: set<nat>, ref: nat)
    requires ref in keys && ref !in active
    ensures |keys - (active + {ref})| < |keys - active|
  {
    assert keys - active == (keys - (active + {ref})) + {ref};
  }

  /** `_plain_json` on a whole value: it accepts exactly what unfolds to a finite JSON
      value, shared parts included, and returns that value. */
  method PlainCopy(graph: Graph, ref: nat) returns (r: Option<Json>)
    ensures r.Some? ==> Unfolds(graph, ref, r.value)
    ensures r.None? ==> forall v :: !Unfolds(graph, ref, v)
  {
    var copier := new Copier(graph);
    r := copier.Plain(ref);
    assert forall v :: !HoldsActive(graph, v, copier.active);
  }
}
