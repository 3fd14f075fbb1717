/** What configuring a deployment does to its two dotenv files: the user's file is cut
    down to the user's keys, and advanced settings move to a file of their own. */
module DeploymentConfiguration {
  import opened Sequences
  import opened PythonText
  import opened DotEnv

  datatype Section = Section(name: string, keys: seq<string>)

  /** The fixed tables: the lines above the user's settings, the sections of user keys,
      the advanced keys with their defaults, and the database fields with the one value
      each may have. */
  datatype Scheme = Scheme(
    preamble: seq<string>,
    sections: seq<Section>,
    defaults: seq<(string, string)>,
    fixed: seq<(string, string)>,
    verification: string)

  function UserKeys(sections: seq<Section>): seq<string> {
    if sections == [] then [] else sections[0].keys + UserKeys(sections[1..])
  }

  function KeysOf(pairs: seq<(string, string)>): (r: seq<string>)
    ensures |r| == |pairs|
    ensures forall i :: 0 <= i < |r| ==> r[i] == pairs[i].0
  {
    seq(|pairs|, i requires 0 <= i < |pairs| => pairs[i].0)
  }

  ghost predicate IsScheme(s: Scheme) {
    && (forall i :: 0 <= i < |s.preamble| ==> IsLine(s.preamble[i]) && IsBlankOrComment(s.preamble[i]))
    && s.sections != []
    && (forall i :: 0 <= i < |s.sections| ==> s.sections[i].keys != [] && IsLine(s.sections[i].name))
    && AreDistinct(UserKeys(s.sections))
    && (forall i :: 0 <= i < |UserKeys(s.sections)| ==> IsKey(UserKeys(s.sections)[i]))
    && AreDistinct(KeysOf(s.defaults))
    && (forall i :: 0 <= i < |s.defaults| ==> s.defaults[i].0 !in UserKeys(s.sections))
    && (forall i :: 0 <= i < |s.fixed| ==> s.fixed[i].0 !in UserKeys(s.sections))
    && s.verification !in UserKeys(s.sections)
  }

  // -------------------------------------------------------- the user's file

  /** All lines but the empty one after the last section. */
  function UserLines(sections: seq<Section>, m: Values): seq<string> {
    if sections == [] then []
    else
      var first := ["# " + sections[0].name] + Entries(sections[0].keys, m);
      if |sections| == 1 then first else first + [""] + UserLines(sections[1..], m)
  }

  /** What is written: rendering strips the end of the text, adds a newline, and writing
      cuts newlines off again. */
  function UserFile(s: Scheme, m: Values): string {
    RStripNewlines(RStrip(Join("\n", s.preamble + UserLines(s.sections, m) + [""])) + "\n")
  }

  // --------------------------------------------------------- advanced values

  /** Values of the legacy file that differ from their defaults replace stored ones. */
  function Overlay(defaults: seq<(string, string)>, legacy: Values, advanced: Values): Values
    decreases |defaults|
  {
    if defaults == [] then advanced
    else
      var (key, default) := defaults[0];
      Overlay(defaults[1..], legacy,
              if key in legacy && legacy[key] != default then advanced[key := legacy[key]] else advanced)
  }

  function NonEmpty(m: Values, keys: seq<string>): Values {
    map k | k in m && k in keys && m[k] != "" :: m[k]
  }

  function AdvancedValues(s: Scheme, legacy: Values, existing: Values): Outcome<Values> {
    if exists k :: k in existing && k !in KeysOf(s.defaults) then Rejected
    else Ok(NonEmpty(Overlay(s.defaults, legacy, existing), KeysOf(s.defaults)))
  }

  method ComputeAdvancedValues(s: Scheme, legacy: Values, existing: Values) returns (r: Outcome<Values>)
    ensures r == AdvancedValues(s, legacy, existing)
  {
    var advanced := existing;
    if exists k :: k in advanced.Keys && k !in KeysOf(s.defaults) {
      return Rejected;
    }
    for i := 0 to |s.defaults|
      invariant Overlay(s.defaults, legacy, existing) == Overlay(s.defaults[i..], legacy, advanced)
    {
      var (key, default) := s.defaults[i];
      assert s.defaults[i..][1..] == s.defaults[i + 1..];
      if key in legacy && legacy[key] != default {
        advanced := advanced[key := legacy[key]];
      }
    }
    return Ok(NonEmpty(advanced, KeysOf(s.defaults)));
  }

  function AdvancedFile(s: Scheme, m: Values): string {
    RStripNewlines(RenderEnv(KeysOf(s.defaults), m))
  }

  // ------------------------------------------------------------ configuring

  predicate IsCompatible(s: Scheme, legacy: Values) {
    && (forall i :: 0 <= i < |s.fixed| ==>
          s.fixed[i].0 in legacy ==> legacy[s.fixed[i].0] in {"", s.fixed[i].1})
    && (s.verification in legacy ==> FoldAll(legacy[s.verification]) in {"true", "1"})
  }

  datatype Files = Files(user: string, advanced: string, hasAdvanced: bool)

  function ReadAdvanced(f: Files): Outcome<Values> {
    if f.hasAdvanced then Read(f.advanced) else Ok(map[])
  }

  /** The two files after `configure_deployment`, or a refusal that changes neither. */
  function Configure(s: Scheme, f: Files): Outcome<Files> {
    var legacy := Read(f.user);
    if legacy.Rejected? then Rejected
    else if exists i :: 0 <= i < |UserKeys(s.sections)| && UserKeys(s.sections)[i] !in legacy.value then Rejected
    else if !IsCompatible(s, legacy.value) then Rejected
    else
      var existing := ReadAdvanced(f);
      if existing.Rejected? then Rejected
      else
        var advanced := AdvancedValues(s, legacy.value, existing.value);
        if advanced.Rejected? then Rejected
        else
          Ok(Files(UserFile(s, legacy.value),
                   if advanced.value == map[] then "" else AdvancedFile(s, advanced.value),
                   advanced.value != map[]))
  }

  // ------------------------------------------- reading the user's file back

  lemma {:induction false} ReadPreamble(values: Values, preamble: seq<string>, rest: seq<string>)
    requires forall i :: 0 <= i < |preamble| ==> IsBlankOrComment(preamble[i])
    ensures ReadLines(values, preamble + rest) == ReadLines(values, rest)
  {
    if preamble == [] {
      assert preamble + rest == rest;
    } else {
      assert (preamble + rest)[1..] == preamble[1..] + rest;
      ReadPreamble(values, preamble[1..], rest);
    }
  }

  lemma TitleIsComment(name: string)
    ensures IsBlankOrComment("# " + name)
    ensures IsLine(name) ==> IsLine("# " + name)
  {
    StripStartsWith("# " + name);
  }

  lemma BlankIsBlank()
    ensures IsBlankOrComment("")
  {
  }

  lemma SkipLine(values: Values, line: string, rest: seq<string>)
    requires IsBlankOrComment(line)
    ensures ReadLines(values, [line] + rest) == ReadLines(values, rest)
  {
    assert ([line] + rest)[1..] == rest;
  }

  lemma ReadSection(values: Values, section: Section, m: Values, rest: seq<string>)
    requires IsReadable(m) && AreDistinct(section.keys) && AreAbsent(section.keys, values)
    ensures ReadLines(values, ["# " + section.name] + Entries(section.keys, m) + rest) ==
            ReadLines(values + Restrict(m, section.keys), rest)
  {
    var title := "# " + section.name;
    TitleIsComment(section.name);
    assert [title] + Entries(section.keys, m) + rest == [title] + (Entries(section.keys, m) + rest);
    SkipLine(values, title, Entries(section.keys, m) + rest);
    ReadEntries(values, section.keys, m, rest);
  }

  lemma DistinctParts(a: seq<string>, b: seq<string>)
    requires AreDistinct(a + b)
    ensures AreDistinct(a) && AreDistinct(b)
    ensures forall k :: k in a ==> k !in b
  {
    assert forall i :: 0 <= i < |a| ==> (a + b)[i] == a[i];
    assert forall i :: 0 <= i < |b| ==> (a + b)[|a| + i] == b[i];
  }

  lemma AbsentParts(a: seq<string>, b: seq<string>, values: Values, m: Values)
    requires AreAbsent(a + b, values) && forall k :: k in a ==> k !in b
    ensures AreAbsent(a, values) && AreAbsent(b, values + Restrict(m, a))
  {
    assert forall i :: 0 <= i < |a| ==> (a + b)[i] == a[i];
    assert forall i :: 0 <= i < |b| ==> (a + b)[|a| + i] == b[i];
    forall i | 0 <= i < |b|
      ensures b[i] !in values + Restrict(m, a)
    {
      assert b[i] in b;
    }
  }

  lemma RestrictParts(a: seq<string>, b: seq<string>, values: Values, m: Values)
    ensures values + Restrict(m, a) + Restrict(m, b) == values + Restrict(m, a + b)
  {
  }

  lemma KeysSplit(sections: seq<Section>, values: Values, m: Values)
    requires sections != [] && AreDistinct(UserKeys(sections)) && AreAbsent(UserKeys(sections), values)
    ensures AreDistinct(sections[0].keys) && AreAbsent(sections[0].keys, values)
    ensures AreDistinct(UserKeys(sections[1..]))
    ensures AreAbsent(UserKeys(sections[1..]), values + Restrict(m, sections[0].keys))
    ensures values + Restrict(m, sections[0].keys) + Restrict(m, UserKeys(sections[1..])) ==
            values + Restrict(m, UserKeys(sections))
  {
    var front, rest := sections[0].keys, UserKeys(sections[1..]);
    DistinctParts(front, rest);
    AbsentParts(front, rest, values, m);
    RestrictParts(front, rest, values, m);
  }

  lemma ReadLastSection(values: Values, section: Section, m: Values)
    requires IsReadable(m) && AreDistinct(section.keys) && AreAbsent(section.keys, values)
    ensures ReadLines(values, UserLines([section], m)) == Ok(values + Restrict(m, section.keys))
  {
    ReadSection(values, section, m, []);
    assert UserLines([section], m) + [] == UserLines([section], m);
  }

  lemma ReadFirstSection(values: Values, sections: seq<Section>, m: Values)
    requires |sections| > 1 && IsReadable(m) && AreDistinct(sections[0].keys) && AreAbsent(sections[0].keys, values)
    ensures ReadLines(values, UserLines(sections, m)) ==
            ReadLines(values + Restrict(m, sections[0].keys), UserLines(sections[1..], m))
  {
    var first := ["# " + sections[0].name] + Entries(sections[0].keys, m);
    var rest := UserLines(sections[1..], m);
    ReadSection(values, sections[0], m, [""] + rest);
    assert first + [""] + rest == first + ([""] + rest);
    BlankIsBlank();
    SkipLine(values + Restrict(m, sections[0].keys), "", rest);
  }

  lemma {:induction false} ReadUserLines(values: Values, sections: seq<Section>, m: Values)
    requires sections != [] && IsReadable(m)
    requires AreDistinct(UserKeys(sections)) && AreAbsent(UserKeys(sections), values)
    ensures ReadLines(values, UserLines(sections, m)) == Ok(values + Restrict(m, UserKeys(sections)))
    decreases |sections|
  {
    KeysSplit(sections, values, m);
    if |sections| == 1 {
      assert sections == [sections[0]] && UserKeys(sections) == sections[0].keys;
      ReadLastSection(values, sections[0], m);
    } else {
      ReadFirstSection(values, sections, m);
      ReadUserLines(values + Restrict(m, sections[0].keys), sections[1..], m);
    }
  }

  lemma {:induction false} UserLinesAreLines(sections: seq<Section>, m: Values)
    requires IsReadable(m) && forall i :: 0 <= i < |sections| ==> IsLine(sections[i].name)
    ensures forall i :: 0 <= i < |UserLines(sections, m)| ==> IsLine(UserLines(sections, m)[i])
  {
    if sections != [] {
      TitleIsComment(sections[0].name);
      EntriesAreLines(sections[0].keys, m);
      UserLinesAreLines(sections[1..], m);
    }
  }

  // -------------------------------------------------- the end of the file

  function LastKey(sections: seq<Section>): string
    requires sections != [] && sections[|sections| - 1].keys != []
  {
    var keys := sections[|sections| - 1].keys;
    keys[|keys| - 1]
  }

  lemma {:induction false} EntriesEnd(keys: seq<string>, m: Values)
    requires keys != [] && keys[|keys| - 1] in m
    ensures Entries(keys, m) != []
    ensures var es := Entries(keys, m); es[|es| - 1] == Entry(keys[|keys| - 1], m[keys[|keys| - 1]])
  {
    if |keys| > 1 {
      EntriesEnd(keys[1..], m);
    }
  }

  lemma {:induction false} UserLinesEnd(sections: seq<Section>, m: Values)
    requires sections != [] && (forall i :: 0 <= i < |sections| ==> sections[i].keys != []) && LastKey(sections) in m
    ensures UserLines(sections, m) != []
    ensures var ls := UserLines(sections, m); ls[|ls| - 1] == Entry(LastKey(sections), m[LastKey(sections)])
  {
    if |sections| == 1 {
      EntriesEnd(sections[0].keys, m);
    } else {
      assert LastKey(sections[1..]) == LastKey(sections);
      UserLinesEnd(sections[1..], m);
    }
  }

  lemma {:induction false} SameEntries(keys: seq<string>, m: Values, n: Values)
    requires forall i :: 0 <= i < |keys| ==>
      (keys[i] in m <==> keys[i] in n) && (keys[i] in m ==> m[keys[i]] == n[keys[i]])
    ensures Entries(keys, m) == Entries(keys, n)
  {
    if keys != [] {
      SameEntries(keys[1..], m, n);
    }
  }

  lemma {:induction false} EntriesSnoc(keys: seq<string>, k: string, m: Values)
    ensures Entries(keys + [k], m) == Entries(keys, m) + if k in m then [Entry(k, m[k])] else []
  {
    if keys != [] {
      assert (keys + [k])[1..] == keys[1..] + [k];
      EntriesSnoc(keys[1..], k, m);
    }
  }

  /** Changing the last value changes the last line and no other. */
  lemma {:induction false} LastValueIsLastLine(sections: seq<Section>, m: Values, v: string)
    requires sections != [] && (forall i :: 0 <= i < |sections| ==> sections[i].keys != [])
    requires AreDistinct(UserKeys(sections)) && LastKey(sections) in m
    ensures UserLines(sections, m) != []
    ensures var ls := UserLines(sections, m);
      UserLines(sections, m[LastKey(sections) := v]) == ls[|ls| - 1 := Entry(LastKey(sections), v)]
  {
    var last := LastKey(sections);
    UserLinesEnd(sections, m);
    DistinctParts(sections[0].keys, UserKeys(sections[1..]));
    if |sections| == 1 {
      LastEntry(sections[0].keys, m, v);
    } else {
      assert LastKey(sections[1..]) == last;
      LastValueIsLastLine(sections[1..], m, v);
      LastKeyIsLater(sections);
      SameEntries(sections[0].keys, m, m[last := v]);
      LaterLines(sections, m, m[last := v]);
    }
  }

  /** Two maps that agree on the first section's keys give the same lines up to the second. */
  lemma LaterLines(sections: seq<Section>, m: Values, n: Values)
    requires |sections| > 1 && Entries(sections[0].keys, m) == Entries(sections[0].keys, n)
    ensures var first := ["# " + sections[0].name] + Entries(sections[0].keys, m) + [""];
      && UserLines(sections, m) == first + UserLines(sections[1..], m)
      && UserLines(sections, n) == first + UserLines(sections[1..], n)
  {
  }

  lemma LastEntry(keys: seq<string>, m: Values, v: string)
    requires keys != [] && AreDistinct(keys) && keys[|keys| - 1] in m
    ensures Entries(keys, m) != []
    ensures var es := Entries(keys, m);
      Entries(keys, m[keys[|keys| - 1] := v]) == es[|es| - 1 := Entry(keys[|keys| - 1], v)]
  {
    var front, last := keys[..|keys| - 1], keys[|keys| - 1];
    var n := m[last := v];
    assert keys == front + [last];
    EntriesSnoc(front, last, m);
    EntriesSnoc(front, last, n);
    SameEntries(front, m, n);
  }

  lemma LastKeyIsLater(sections: seq<Section>)
    requires |sections| > 1 && (forall i :: 0 <= i < |sections| ==> sections[i].keys != [])
    requires AreDistinct(UserKeys(sections))
    ensures LastKey(sections) !in sections[0].keys
  {
    LastKeyIsUserKey(sections[1..]);
    DistinctParts(sections[0].keys, UserKeys(sections[1..]));
  }

  lemma {:induction false} LastKeyIsUserKey(sections: seq<Section>)
    requires sections != [] && sections[|sections| - 1].keys != []
    ensures LastKey(sections) in UserKeys(sections)
  {
    if |sections| > 1 {
      LastKeyIsUserKey(sections[1..]);
    }
  }

  lemma {:induction false} RStripAfter(front: string, s: string)
    requires front != "" && !IsSpace(front[|front| - 1])
    ensures RStrip(front + s) == front + RStrip(s)
  {
    if s == "" {
      assert front + s == front;
    } else if IsSpace(s[|s| - 1]) {
      assert (front + s)[..|front + s| - 1] == front + s[..|s| - 1];
      RStripAfter(front, s[..|s| - 1]);
    }
  }

  lemma {:induction false} JoinSnoc(lines: seq<string>, line: string)
    ensures Join("\n", lines + [line]) == (if lines == [] then line else Join("\n", lines) + "\n" + line)
  {
    if lines != [] {
      assert (lines + [line])[1..] == lines[1..] + [line];
      JoinSnoc(lines[1..], line);
    }
  }

  /** The text ends with the last value, without the white space after it. */
  lemma TrimmedText(front: seq<string>, key: string, value: string)
    requires key != ""
    ensures RStripNewlines(RStrip(Join("\n", front + [Entry(key, value)] + [""])) + "\n")
            == Join("\n", front + [Entry(key, RStrip(value))])
  {
    EntryAtEnd(front, key, value);
    EntryAtEnd(front, key, RStrip(value));
    JoinSnoc(front + [Entry(key, value)], "");
    TrimEnd(Opening(front, key), value);
  }

  function Opening(front: seq<string>, key: string): string {
    (if front == [] then "" else Join("\n", front) + "\n") + key + "="
  }

  lemma EntryAtEnd(front: seq<string>, key: string, value: string)
    ensures Join("\n", front + [Entry(key, value)]) == Opening(front, key) + value
  {
    JoinSnoc(front, Entry(key, value));
  }

  lemma TrimEnd(open: string, value: string)
    requires open != "" && open[|open| - 1] == '='
    ensures RStripNewlines(RStrip((open + value) + "\n" + "") + "\n") == open + RStrip(value)
  {
    var r := open + RStrip(value);
    assert (open + value) + "\n" + "" == open + (value + "\n");
    TrimmedAfter(open, value);
    EndsVisibly(open, RStrip(value));
    CutOneNewline(r);
  }

  lemma TrimmedAfter(open: string, value: string)
    requires open != "" && open[|open| - 1] == '='
    ensures RStrip(open + (value + "\n")) == open + RStrip(value)
  {
    RStripAfter(open, value + "\n");
    assert (value + "\n")[..|value|] == value;
  }

  lemma EndsVisibly(open: string, rest: string)
    requires open != "" && open[|open| - 1] == '=' && (rest != "" ==> !IsSpace(rest[|rest| - 1]))
    ensures (open + rest) != "" && (open + rest)[|open + rest| - 1] != '\n'
  {
  }

  lemma RStripTwice(s: string)
    ensures RStrip(RStrip(s)) == RStrip(s)
  {
  }

  /** The values that the written file holds: the user's, the last one without the white
      space at its end. */
  function Kept(s: Scheme, m: Values): Values
    requires s.sections != [] && s.sections[|s.sections| - 1].keys != [] && LastKey(s.sections) in m
  {
    Restrict(m, UserKeys(s.sections))[LastKey(s.sections) := RStrip(m[LastKey(s.sections)])]
  }

  ghost predicate HasUserKeys(s: Scheme, m: Values) {
    forall k :: k in UserKeys(s.sections) ==> k in m
  }

  /** The lines of the kept values are the user's lines with the last one trimmed. */
  lemma KeptLines(s: Scheme, m: Values)
    requires IsScheme(s) && HasUserKeys(s, m)
    ensures LastKey(s.sections) in m && UserLines(s.sections, m) != []
    ensures var last, ls := LastKey(s.sections), UserLines(s.sections, m);
      && ls[|ls| - 1] == Entry(last, m[last])
      && UserLines(s.sections, Kept(s, m)) == ls[..|ls| - 1] + [Entry(last, RStrip(m[last]))]
  {
    LastKeyIsUserKey(s.sections);
    UserLinesEnd(s.sections, m);
    RestrictedUpdate(s.sections, m, RStrip(m[LastKey(s.sections)]));
  }

  lemma RestrictedUpdate(sections: seq<Section>, m: Values, v: string)
    requires sections != [] && (forall i :: 0 <= i < |sections| ==> sections[i].keys != [])
    requires AreDistinct(UserKeys(sections)) && LastKey(sections) in m
    ensures var last, ls := LastKey(sections), UserLines(sections, m);
      ls != [] && UserLines(sections, Restrict(m, UserKeys(sections))[last := v]) == ls[..|ls| - 1] + [Entry(last, v)]
  {
    var keys, ls := UserKeys(sections), UserLines(sections, m);
    LastKeyIsUserKey(sections);
    RestrictedLines(sections, m, keys);
    LastValueIsLastLine(sections, Restrict(m, keys), v);
    assert ls[|ls| - 1 := Entry(LastKey(sections), v)] == ls[..|ls| - 1] + [Entry(LastKey(sections), v)];
  }

  /** The text written for some lines whose last is an entry. */
  lemma WrittenText(preamble: seq<string>, lines: seq<string>, key: string, value: string)
    requires key != "" && lines != [] && lines[|lines| - 1] == Entry(key, value)
    ensures RStripNewlines(RStrip(Join("\n", preamble + lines + [""])) + "\n")
            == Join("\n", preamble + (lines[..|lines| - 1] + [Entry(key, RStrip(value))]))
  {
    var front := preamble + lines[..|lines| - 1];
    assert preamble + lines + [""] == front + [Entry(key, value)] + [""];
    assert preamble + (lines[..|lines| - 1] + [Entry(key, RStrip(value))]) == front + [Entry(key, RStrip(value))];
    TrimmedText(front, key, value);
  }

  /** The file's lines are those of the kept values. */
  lemma UserFileLines(s: Scheme, m: Values)
    requires IsScheme(s) && HasUserKeys(s, m)
    ensures LastKey(s.sections) in m
    ensures UserFile(s, m) == Join("\n", s.preamble + UserLines(s.sections, Kept(s, m)))
  {
    KeptLines(s, m);
    KeyIsFilled(s);
    WrittenText(s.preamble, UserLines(s.sections, m), LastKey(s.sections), m[LastKey(s.sections)]);
  }

  /** The written file is a fixpoint: the kept values are written as the same text. */
  lemma KeptWritesTheSame(s: Scheme, m: Values)
    requires IsScheme(s) && HasUserKeys(s, m)
    ensures LastKey(s.sections) in m && UserFile(s, Kept(s, m)) == UserFile(s, m)
  {
    KeptLines(s, m);
    KeyIsFilled(s);
    var last, ls := LastKey(s.sections), UserLines(s.sections, m);
    var kept := UserLines(s.sections, Kept(s, m));
    RStripTwice(m[last]);
    WrittenText(s.preamble, ls, last, m[last]);
    assert kept[..|kept| - 1] == ls[..|ls| - 1];
    WrittenText(s.preamble, kept, last, RStrip(m[last]));
  }

  lemma KeyIsFilled(s: Scheme)
    requires IsScheme(s)
    ensures LastKey(s.sections) != ""
  {
    LastKeyIsUserKey(s.sections);
    var i :| 0 <= i < |UserKeys(s.sections)| && UserKeys(s.sections)[i] == LastKey(s.sections);
    KeyCharacters(UserKeys(s.sections)[i]);
  }

  lemma {:induction false} RestrictedLines(sections: seq<Section>, m: Values, keys: seq<string>)
    requires forall k :: k in UserKeys(sections) ==> k in keys
    ensures UserLines(sections, Restrict(m, keys)) == UserLines(sections, m)
  {
    if sections != [] {
      assert UserKeys(sections) == sections[0].keys + UserKeys(sections[1..]);
      forall i | 0 <= i < |sections[0].keys|
        ensures sections[0].keys[i] in keys
      {
        assert sections[0].keys[i] in UserKeys(sections);
      }
      SameEntries(sections[0].keys, m, Restrict(m, keys));
      RestrictedLines(sections[1..], m, keys);
    }
  }

  /** Reading the written user file gives the kept values. */
  lemma UserFileReadsBack(s: Scheme, m: Values)
    requires IsScheme(s) && IsReadable(m) && HasUserKeys(s, m)
    ensures LastKey(s.sections) in m && Read(UserFile(s, m)) == Ok(Kept(s, m))
  {
    UserFileLines(s, m);
    KeptIsReadable(s, m);
    var kept := Kept(s, m);
    LinesReadBack(s, kept);
    LastKeyIsUserKey(s.sections);
    RestrictAll(kept, UserKeys(s.sections));
  }

  lemma RestrictAll(m: Values, keys: seq<string>)
    requires forall k :: k in m ==> k in keys
    ensures map[] + Restrict(m, keys) == m
  {
  }

  lemma LinesReadBack(s: Scheme, m: Values)
    requires IsScheme(s) && IsReadable(m) && LastKey(s.sections) in m
    ensures Read(Join("\n", s.preamble + UserLines(s.sections, m))) == Ok(map[] + Restrict(m, UserKeys(s.sections)))
  {
    var ls := UserLines(s.sections, m);
    UserLinesEnd(s.sections, m);
    UserLinesAreLines(s.sections, m);
    assert (s.preamble + ls)[|s.preamble + ls| - 1] == ls[|ls| - 1];
    SplitJoinLines(s.preamble + ls);
    ReadPreamble(map[], s.preamble, ls);
    ReadUserLines(map[], s.sections, m);
  }

  lemma KeptIsReadable(s: Scheme, m: Values)
    requires IsScheme(s) && IsReadable(m) && HasUserKeys(s, m) && LastKey(s.sections) in m
    ensures IsReadable(Kept(s, m))
  {
    var v := m[LastKey(s.sections)];
    assert IsValue(v) && RStrip(v) <= v;
  }

  // ------------------------------------------------------------ idempotence

  lemma {:induction false} OverlayNothing(defaults: seq<(string, string)>, legacy: Values, advanced: Values)
    requires forall i :: 0 <= i < |defaults| ==> defaults[i].0 !in legacy
    ensures Overlay(defaults, legacy, advanced) == advanced
    decreases |defaults|
  {
    if defaults != [] {
      OverlayNothing(defaults[1..], legacy, advanced);
    }
  }

  lemma {:induction false} OverlayReadable(defaults: seq<(string, string)>, legacy: Values, advanced: Values)
    requires IsReadable(legacy) && IsReadable(advanced)
    ensures IsReadable(Overlay(defaults, legacy, advanced))
    decreases |defaults|
  {
    if defaults != [] {
      var (key, default) := defaults[0];
      OverlayReadable(defaults[1..], legacy,
                      if key in legacy && legacy[key] != default then advanced[key := legacy[key]] else advanced);
    }
  }

  /** Recomputing the advanced values from the reduced user file changes nothing. */
  lemma AdvancedRecomputed(s: Scheme, legacy: Values, existing: Values, user: Values)
    requires IsScheme(s) && AdvancedValues(s, legacy, existing).Ok?
    requires forall k :: k in user ==> k in UserKeys(s.sections)
    ensures var advanced := AdvancedValues(s, legacy, existing).value;
      AdvancedValues(s, user, advanced) == Ok(advanced)
  {
    var advanced := AdvancedValues(s, legacy, existing).value;
    OverlayNothing(s.defaults, user, advanced);
    assert NonEmpty(advanced, KeysOf(s.defaults)) == advanced;
  }

  /** Reading back a written advanced file gives the advanced values. */
  lemma AdvancedReadsBack(s: Scheme, legacy: Values, existing: Values)
    requires IsScheme(s) && IsReadable(legacy) && IsReadable(existing)
    requires AdvancedValues(s, legacy, existing).Ok? && AdvancedValues(s, legacy, existing).value != map[]
    ensures var advanced := AdvancedValues(s, legacy, existing).value;
      Read(AdvancedFile(s, advanced)) == Ok(advanced)
  {
    OverlayReadable(s.defaults, legacy, existing);
    RenderedReadsBack(KeysOf(s.defaults), AdvancedValues(s, legacy, existing).value);
  }

  /** Configuring is idempotent: whatever a first run accepted, a second run accepts and
      writes both files again byte for byte. */
  lemma ConfigureTwice(s: Scheme, f: Files)
    requires IsScheme(s) && Configure(s, f).Ok?
    ensures Configure(s, Configure(s, f).value) == Configure(s, f)
  {
    var legacy, existing := Read(f.user).value, ReadAdvanced(f).value;
    var advanced := AdvancedValues(s, legacy, existing).value;
    ReadIsReadable(f.user);
    ReadIsReadable(f.advanced);
    UserFileReadsBack(s, legacy);
    KeptWritesTheSame(s, legacy);
    LastKeyIsUserKey(s.sections);
    AdvancedRecomputed(s, legacy, existing, Kept(s, legacy));
    if advanced != map[] {
      AdvancedReadsBack(s, legacy, existing);
    }
    KeptIsAccepted(s, legacy);
    ConfiguredFrom(s, Configure(s, f).value, Kept(s, legacy), advanced);
  }

  lemma KeptIsAccepted(s: Scheme, m: Values)
    requires IsScheme(s) && HasUserKeys(s, m) && LastKey(s.sections) in m
    ensures HasUserKeys(s, Kept(s, m)) && IsCompatible(s, Kept(s, m))
  {
    LastKeyIsUserKey(s.sections);
  }

  /** A run on files that hold `user` and, if any, `advanced`. */
  lemma ConfiguredFrom(s: Scheme, g: Files, user: Values, advanced: Values)
    requires Read(g.user) == Ok(user) && HasUserKeys(s, user) && IsCompatible(s, user)
    requires ReadAdvanced(g) == Ok(advanced) && AdvancedValues(s, user, advanced) == Ok(advanced)
    ensures Configure(s, g) ==
            Ok(Files(UserFile(s, user), if advanced == map[] then "" else AdvancedFile(s, advanced), advanced != map[]))
  {
  }

  // -------------------------------------------------------- stopped half way

  /** The legacy values that replace stored ones. */
  function Overrides(defaults: seq<(string, string)>, legacy: Values): Values {
    map k | k in legacy && exists i :: 0 <= i < |defaults| && defaults[i].0 == k && legacy[k] != defaults[i].1 ::
      legacy[k]
  }

  lemma OverridesStep(defaults: seq<(string, string)>, legacy: Values, advanced: Values)
    requires defaults != []
    ensures var (key, default) := defaults[0];
      advanced + Overrides(defaults, legacy) ==
      (if key in legacy && legacy[key] != default then advanced[key := legacy[key]] else advanced)
      + Overrides(defaults[1..], legacy)
  {
    var rest := defaults[1..];
    assert forall i :: 0 <= i < |rest| ==> rest[i] == defaults[i + 1];
    forall k | k in legacy
      ensures k in Overrides(defaults, legacy) <==>
              k in Overrides(rest, legacy) || (defaults[0].0 == k && legacy[k] != defaults[0].1)
    {
      if i :| 0 <= i < |defaults| && defaults[i].0 == k && legacy[k] != defaults[i].1 {
        assert i == 0 || rest[i - 1] == defaults[i];
      }
      if j :| 0 <= j < |rest| && rest[j].0 == k && legacy[k] != rest[j].1 {
        assert defaults[j + 1] == rest[j];
      }
    }
  }

  lemma {:induction false} OverlayIsSum(defaults: seq<(string, string)>, legacy: Values, advanced: Values)
    ensures Overlay(defaults, legacy, advanced) == advanced + Overrides(defaults, legacy)
    decreases |defaults|
  {
    if defaults != [] {
      var (key, default) := defaults[0];
      OverridesStep(defaults, legacy, advanced);
      OverlayIsSum(defaults[1..], legacy,
                   if key in legacy && legacy[key] != default then advanced[key := legacy[key]] else advanced);
    }
  }

  /** Recomputing the advanced values from the file they were computed from changes nothing. */
  lemma AdvancedRecomputedEarly(s: Scheme, legacy: Values, existing: Values)
    requires AdvancedValues(s, legacy, existing).Ok?
    ensures var advanced := AdvancedValues(s, legacy, existing).value;
      AdvancedValues(s, legacy, advanced) == Ok(advanced)
  {
    var keys, over := KeysOf(s.defaults), Overrides(s.defaults, legacy);
    OverlayIsSum(s.defaults, legacy, existing);
    var advanced := NonEmpty(existing + over, keys);
    OverlayIsSum(s.defaults, legacy, advanced);
    AddedTwice(existing, over, keys);
  }

  lemma AddedTwice(m: Values, over: Values, keys: seq<string>)
    ensures var sum := NonEmpty(m + over, keys); NonEmpty(sum + over, keys) == sum
  {
  }

  /** The files after the first of the two writes. */
  function HalfWritten(f: Files, done: Files): Files {
    done.(user := f.user)
  }

  /** A run stopped before, between or after its two writes leaves files that configure to
      what the whole run would have written. */
  lemma StoppedRunResumes(s: Scheme, f: Files, g: Files)
    requires IsScheme(s) && Configure(s, f).Ok?
    requires g in {f, HalfWritten(f, Configure(s, f).value), Configure(s, f).value}
    ensures Configure(s, g) == Configure(s, f)
  {
    var done := Configure(s, f).value;
    ConfigureTwice(s, f);
    if g == HalfWritten(f, done) {
      var legacy, existing := Read(f.user).value, ReadAdvanced(f).value;
      var advanced := AdvancedValues(s, legacy, existing).value;
      ReadIsReadable(f.user);
      ReadIsReadable(f.advanced);
      AdvancedRecomputedEarly(s, legacy, existing);
      if advanced != map[] {
        AdvancedReadsBack(s, legacy, existing);
      }
      ConfiguredFrom(s, g, legacy, advanced);
    }
  }

  /** The two files on disk. Each write replaces its file in one step. */
  class Deployment {
    const scheme: Scheme
    var files: Files

    constructor (scheme: Scheme, files: Files)
      ensures this.scheme == scheme && this.files == files
    {
      this.scheme, this.files := scheme, files;
    }

    /** A run, which the process may not survive; true when it got to its end. A refusal
        writes nothing, and wherever the run stops the next one writes what it would have. */
    method Run() returns (finished: bool)
      requires IsScheme(scheme)
      modifies this
      ensures Configure(scheme, old(files)).Rejected? ==> !finished && files == old(files)
      ensures Configure(scheme, old(files)).Ok? ==> Configure(scheme, files) == Configure(scheme, old(files))
      ensures finished ==> Configure(scheme, old(files)) == Ok(files)
    {
      var legacy := ReadEnvFile(files.user);
      var missing := legacy.Ok? &&
        exists i :: 0 <= i < |UserKeys(scheme.sections)| && UserKeys(scheme.sections)[i] !in legacy.value;
      if legacy.Rejected? || missing || !IsCompatible(scheme, legacy.value) {
        return false;
      }
      var existing: Outcome<Values> := Ok(map[]);
      if files.hasAdvanced {
        existing := ReadEnvFile(files.advanced);
      }
      if existing.Rejected? {
        return false;
      }
      var advanced := ComputeAdvancedValues(scheme, legacy.value, existing.value);
      if advanced.Rejected? {
        return false;
      }
      ghost var before := files;
      ghost var done := Configure(scheme, before).value;
      StoppedRunResumes(scheme, before, HalfWritten(before, done));
      StoppedRunResumes(scheme, before, done);
      if * {
        return false;
      }
      if advanced.value != map[] {
        files := files.(advanced := AdvancedFile(scheme, advanced.value), hasAdvanced := true);
      } else {
        files := files.(advanced := "", hasAdvanced := false);
      }
      assert files == HalfWritten(before, done);
      if * {
        return false;
      }
      files := files.(user := UserFile(scheme, legacy.value));
      assert files == done;
      finished := true;
    }
  }
}
