/** The byte-bounded, plain-text form of a daily digest: normalised lines packed into
    messages that each open with a header naming the window and the part. */
module DigestRender {
  import opened Sequences
  import opened PythonText
  import opened Utf8

  // ------------------------------------------------------------- safe text

  const ELLIPSIS := "…"
  const PLACEHOLDER := "未知"

  /** The front of `s` up to its first white space. */
  function FirstWord(s: string): (w: string)
    ensures w <= s
    ensures forall i :: 0 <= i < |w| ==> !IsSpace(w[i])
    ensures |w| < |s| ==> IsSpace(s[|w|])
  {
    if s == "" || IsSpace(s[0]) then "" else [s[0]] + FirstWord(s[1..])
  }

  /** `str.split()`. */
  function Words(s: string): (ws: seq<string>)
    ensures forall i :: 0 <= i < |ws| ==> IsWord(ws[i])
    decreases |s|
  {
    if s == "" then []
    else if IsSpace(s[0]) then Words(s[1..])
    else [FirstWord(s)] + Words(s[|FirstWord(s)|..])
  }

  predicate IsWord(w: string) {
    w != "" && forall i :: 0 <= i < |w| ==> !IsSpace(w[i])
  }

  /** Words with single spaces between them. */
  ghost predicate IsCompact(s: string) {
    exists ws :: ws != [] && (forall i :: 0 <= i < |ws| ==> IsWord(ws[i])) && s == Join(" ", ws)
  }

  /** Line breaks as spaces. */
  function Unbroken(s: string): (r: string)
    ensures |r| == |s|
  {
    seq(|s|, i requires 0 <= i < |s| => if s[i] == '\r' || s[i] == '\n' then ' ' else s[i])
  }

  function CompactText(s: string): string {
    var compact := Join(" ", Words(Unbroken(s)));
    if compact == "" then PLACEHOLDER else compact
  }

  function SafeText(s: string, maxBytes: int): string {
    var compact := CompactText(s);
    if Size(compact) <= maxBytes then compact
    else Clip(compact, if maxBytes < 3 then 0 else maxBytes - 3) + ELLIPSIS
  }

  lemma EllipsisSize()
    ensures Size(ELLIPSIS) == 3
  {
    assert EncodeChar(ELLIPSIS[0]) == [0xE2, 0x80, 0xA6];
  }

  /** A safe text fits its limit as soon as the limit has room for the ellipsis. */
  lemma SafeTextFits(s: string, maxBytes: int)
    requires maxBytes >= 3
    ensures Size(SafeText(s, maxBytes)) <= maxBytes
  {
    var compact := CompactText(s);
    ClipProperties(compact, maxBytes - 3);
    SizeConcat(Clip(compact, maxBytes - 3), ELLIPSIS);
    EllipsisSize();
  }

  lemma {:induction false} JoinOfWords(ws: seq<string>)
    requires ws != [] && forall i :: 0 <= i < |ws| ==> IsWord(ws[i])
    ensures var s := Join(" ", ws); s != "" && !IsSpace(s[0]) && forall c :: c in s && IsSpace(c) ==> c == ' '
  {
    if |ws| > 1 {
      JoinOfWords(ws[1..]);
      assert Join(" ", ws) == ws[0] + " " + Join(" ", ws[1..]);
    }
  }

  lemma {:induction false} SplitJoin(ws: seq<string>)
    requires ws != [] && forall i :: 0 <= i < |ws| ==> IsWord(ws[i])
    ensures Words(Join(" ", ws)) == ws
  {
    var s := Join(" ", ws);
    JoinOfWords(ws);
    if |ws| == 1 {
      FirstWordIs(s, ws[0]);
      assert s[|ws[0]|..] == "";
      assert Words(s) == [ws[0]] + Words("");
    } else {
      var rest := Join(" ", ws[1..]);
      assert s == ws[0] + " " + rest;
      assert s[|ws[0]|] == ' ';
      FirstWordIs(s, ws[0]);
      assert s[|ws[0]|..] == " " + rest;
      assert (" " + rest)[1..] == rest;
      SplitJoin(ws[1..]);
      assert Words(s) == [ws[0]] + Words(" " + rest);
    }
  }

  lemma {:induction false} FirstWordIs(s: string, w: string)
    requires w <= s && (forall i :: 0 <= i < |w| ==> !IsSpace(w[i]))
    requires |w| < |s| ==> IsSpace(s[|w|])
    ensures FirstWord(s) == w
  {
    if w != "" {
      FirstWordIs(s[1..], w[1..]);
      assert w == [w[0]] + w[1..];
    }
  }

  /** A compact text that fits is left alone. */
  lemma SafeTextKeeps(s: string, maxBytes: int)
    requires IsCompact(s) && Size(s) <= maxBytes
    ensures SafeText(s, maxBytes) == s
  {
    var ws :| ws != [] && (forall i :: 0 <= i < |ws| ==> IsWord(ws[i])) && s == Join(" ", ws);
    JoinOfWords(ws);
    assert Unbroken(s) == s by {
      forall i | 0 <= i < |s|
        ensures Unbroken(s)[i] == s[i]
      {
        assert s[i] in s;
      }
    }
    SplitJoin(ws);
  }

  lemma CompactTextIsCompact(s: string)
    ensures IsCompact(CompactText(s))
  {
    var ws := Words(Unbroken(s));
    if Join(" ", ws) == "" {
      assert PLACEHOLDER == Join(" ", [PLACEHOLDER]);
      assert IsWord(PLACEHOLDER);
      assert forall i :: 0 <= i < |[PLACEHOLDER]| ==> IsWord([PLACEHOLDER][i]);
    } else {
      assert ws != [];
    }
  }

  lemma {:induction false} CompactCut(ws: seq<string>, p: string)
    requires ws != [] && (forall i :: 0 <= i < |ws| ==> IsWord(ws[i])) && p <= Join(" ", ws)
    ensures IsCompact(p + ELLIPSIS)
    decreases |ws|
  {
    assert IsWord(ELLIPSIS);
    var s := Join(" ", ws);
    if |p| <= |ws[0]| {
      assert p <= ws[0];
      var w := p + ELLIPSIS;
      assert IsWord(w);
      assert forall i :: 0 <= i < |[w]| ==> IsWord([w][i]);
      assert w == Join(" ", [w]);
    } else {
      var rest := Join(" ", ws[1..]);
      assert s == ws[0] + " " + rest;
      var q := p[|ws[0]| + 1..];
      assert q <= rest;
      CompactCut(ws[1..], q);
      var us :| us != [] && (forall i :: 0 <= i < |us| ==> IsWord(us[i])) && q + ELLIPSIS == Join(" ", us);
      var vs := [ws[0]] + us;
      assert vs[1..] == us;
      assert p == ws[0] + " " + q;
      assert p + ELLIPSIS == ws[0] + " " + (q + ELLIPSIS) == Join(" ", vs);
    }
  }

  /** Making a text safe twice, as the rows of a digest are, is making it safe once, and
      the result holds no line break. */
  lemma SafeTextTwice(s: string, maxBytes: int)
    requires maxBytes >= 3
    ensures SafeText(SafeText(s, maxBytes), maxBytes) == SafeText(s, maxBytes)
    ensures '\n' !in SafeText(s, maxBytes) && '\r' !in SafeText(s, maxBytes)
  {
    SafeTextIsCompact(s, maxBytes);
    var r := SafeText(s, maxBytes);
    SafeTextFits(s, maxBytes);
    SafeTextKeeps(r, maxBytes);
    var ws :| ws != [] && (forall i :: 0 <= i < |ws| ==> IsWord(ws[i])) && r == Join(" ", ws);
    JoinOfWords(ws);
    assert IsSpace('\n') && IsSpace('\r');
  }

  lemma SafeTextIsCompact(s: string, maxBytes: int)
    requires maxBytes >= 3
    ensures IsCompact(SafeText(s, maxBytes))
  {
    CompactTextIsCompact(s);
    ClippedIsCompact(CompactText(s), if maxBytes < 3 then 0 else maxBytes - 3);
  }

  lemma ClippedIsCompact(compact: string, n: nat)
    requires IsCompact(compact)
    ensures IsCompact(Clip(compact, n) + ELLIPSIS)
  {
    var ws :| ws != [] && (forall i :: 0 <= i < |ws| ==> IsWord(ws[i])) && compact == Join(" ", ws);
    ClipProperties(compact, n);
    CompactCut(ws, Clip(compact, n));
  }

  // --------------------------------------------------------------- packing

  datatype Outcome<+T> = Ok(value: T) | ValueError(reason: string)

  function LineLimit(budget: int): int {
    if budget - 8 > 32 then budget - 8 else 32
  }

  function Normalised(lines: seq<string>, budget: int): (r: seq<string>)
    ensures |r| == |lines|
  {
    seq(|lines|, i requires 0 <= i < |lines| => SafeText(lines[i], LineLimit(budget)))
  }

  function Body(chunk: seq<string>): string {
    Join("\n", chunk)
  }

  /** The width of the lines joined by a one-byte separator, when `w` gives the width of
      each line. */
  ghost function Width(w: string -> nat, chunk: seq<string>): nat {
    if chunk == [] then 0
    else if |chunk| == 1 then w(chunk[0])
    else w(chunk[0]) + 1 + Width(w, chunk[1..])
  }

  /** No chunk is empty or too large, and none could have taken the line after it. */
  ghost predicate Packed(w: string -> nat, chunks: seq<seq<string>>, budget: int) {
    && (forall i :: 0 <= i < |chunks| ==> chunks[i] != [] && Width(w, chunks[i]) <= budget)
    && (forall i :: 0 < i < |chunks| ==> Width(w, chunks[i - 1]) + 1 + w(chunks[i][0]) > budget)
  }

  /** In bytes, the width of a chunk is the size of its body. */
  lemma {:induction false} WidthIsBodySize(chunk: seq<string>)
    ensures Width(Size, chunk) == Size(Body(chunk))
  {
    if |chunk| > 1 {
      WidthIsBodySize(chunk[1..]);
      SizeConcat(chunk[0] + "\n", Body(chunk[1..]));
      SizeConcat(chunk[0], "\n");
      assert Size("\n") == 1;
    }
  }

  lemma {:induction false} WidthSnoc(w: string -> nat, chunk: seq<string>, line: string)
    ensures Width(w, chunk + [line]) == Width(w, chunk) + w(line) + (if chunk == [] then 0 else 1)
  {
    if chunk != [] {
      assert (chunk + [line])[1..] == chunk[1..] + [line];
      WidthSnoc(w, chunk[1..], line);
    }
  }

  lemma FlattenGrows(chunks: seq<seq<string>>, line: string)
    requires chunks != []
    ensures Flatten(chunks[|chunks| - 1 := chunks[|chunks| - 1] + [line]]) == Flatten(chunks) + [line]
  {
    var n := |chunks| - 1;
    assert chunks[n := chunks[n] + [line]][..n] == chunks[..n];
  }

  /** Packs lines greedily. Fails exactly on a budget below 256; otherwise the chunks
      are the normalised lines in order, packed as tightly as their order allows. */
  method ChunkLines(lines: seq<string>, budget: int) returns (r: Outcome<seq<seq<string>>>)
    ensures r.ValueError? <==> budget < 256
    ensures r.Ok? ==> Flatten(r.value) == Normalised(lines, budget)
    ensures r.Ok? ==> Packed(Size, r.value, budget)
  {
    if budget < 256 {
      return ValueError("daily_digest_message_limit_too_small");
    }
    var limit := LineLimit(budget);
    forall i | 0 <= i < |lines|
      ensures Size(Normalised(lines, budget)[i]) <= budget
    {
      SafeTextFits(lines[i], limit);
    }
    var chunks := PackLines(Size, lines, line => SafeText(line, limit), Normalised(lines, budget), budget);
    return Ok(chunks);
  }

  /** The packing loop, for any way to normalise a line and any way to measure it. */
  method PackLines(w: string -> nat, lines: seq<string>, safe: string -> string, ghost normal: seq<string>, budget: int)
    returns (chunks: seq<seq<string>>)
    requires |normal| == |lines|
    requires forall i :: 0 <= i < |lines| ==> normal[i] == safe(lines[i])
    requires forall i :: 0 <= i < |normal| ==> w(normal[i]) <= budget
    ensures Flatten(chunks) == normal && Packed(w, chunks, budget)
  {
    chunks := [[]];
    var size := 0;
    assert Flatten(chunks) == [];
    for i := 0 to |lines|
      invariant chunks != [] && Flatten(chunks) == normal[..i]
      invariant size == Width(w, chunks[|chunks| - 1])
      invariant if i == 0 then chunks == [[]] else Packed(w, chunks, budget)
    {
      chunks, size := Place(w, chunks, size, safe(lines[i]), budget);
    }
    assert normal[..|lines|] == normal;
    if chunks[|chunks| - 1] == [] {
      chunks := [];
    }
  }

  /** One turn of the packing loop: the line joins the last chunk or opens a new one. */
  method Place(w: string -> nat, chunks: seq<seq<string>>, size: nat, line: string, budget: int)
    returns (chunks': seq<seq<string>>, size': nat)
    requires chunks == [[]] || (chunks != [] && Packed(w, chunks, budget))
    requires size == Width(w, chunks[|chunks| - 1]) && w(line) <= budget
    ensures chunks' != [] && Flatten(chunks') == Flatten(chunks) + [line]
    ensures Packed(w, chunks', budget) && size' == Width(w, chunks'[|chunks'| - 1])
  {
    var last := chunks[|chunks| - 1];
    var lineSize := w(line) + if last != [] then 1 else 0;
    if last != [] && size + lineSize > budget {
      OpenedChunk(w, chunks, line, budget);
      return chunks + [[line]], w(line);
    }
    JoinedChunk(w, chunks, line, budget);
    return chunks[|chunks| - 1 := last + [line]], size + lineSize;
  }

  lemma OpenedChunk(w: string -> nat, chunks: seq<seq<string>>, line: string, budget: int)
    requires chunks != [] && Packed(w, chunks, budget) && w(line) <= budget
    requires Width(w, chunks[|chunks| - 1]) + 1 + w(line) > budget
    ensures Packed(w, chunks + [[line]], budget)
    ensures Flatten(chunks + [[line]]) == Flatten(chunks) + [line]
  {
    FlattenSnoc(chunks, [line]);
  }

  lemma JoinedChunk(w: string -> nat, chunks: seq<seq<string>>, line: string, budget: int)
    requires chunks == [[]] || (chunks != [] && Packed(w, chunks, budget))
    requires var last := chunks[|chunks| - 1];
      Width(w, last) + w(line) + (if last == [] then 0 else 1) <= budget
    ensures var last := chunks[|chunks| - 1];
      var after := chunks[|chunks| - 1 := last + [line]];
      && Packed(w, after, budget)
      && Flatten(after) == Flatten(chunks) + [line]
      && Width(w, last + [line]) == Width(w, last) + w(line) + (if last == [] then 0 else 1)
  {
    WidthSnoc(w, chunks[|chunks| - 1], line);
    FlattenGrows(chunks, line);
  }

  function FlattenLeft(chunks: seq<seq<string>>): seq<string> {
    if chunks == [] then [] else chunks[0] + FlattenLeft(chunks[1..])
  }

  lemma {:induction false} FlattenBothWays(chunks: seq<seq<string>>)
    ensures Flatten(chunks) == FlattenLeft(chunks)
    decreases |chunks|
  {
    if |chunks| == 1 {
      assert chunks[..0] == [] && chunks[1..] == [];
    } else if |chunks| > 1 {
      var n := |chunks| - 1;
      FlattenBothWays(chunks[..n]);
      FlattenBothWays(chunks[1..]);
      FlattenBothWays(chunks[1..n]);
      assert chunks[..n][1..] == chunks[1..n];
      assert chunks[1..][..n - 1] == chunks[1..n];
    }
  }

  /** Packing is determined: two packings of the same lines within one budget are equal. */
  lemma PackingIsUnique(w: string -> nat, a: seq<seq<string>>, b: seq<seq<string>>, budget: int)
    requires Packed(w, a, budget) && Packed(w, b, budget) && Flatten(a) == Flatten(b)
    ensures a == b
  {
    FlattenBothWays(a);
    FlattenBothWays(b);
    SamePacking(w, a, b, budget);
  }

  lemma {:induction false} SamePacking(w: string -> nat, a: seq<seq<string>>, b: seq<seq<string>>, budget: int)
    requires Packed(w, a, budget) && Packed(w, b, budget) && FlattenLeft(a) == FlattenLeft(b)
    ensures a == b
  {
    if a != [] && b != [] {
      FirstChunkIsLongest(w, a, b, budget);
      FirstChunkIsLongest(w, b, a, budget);
      assert a[0] == FlattenLeft(a)[..|a[0]|];
      assert b[0] == FlattenLeft(b)[..|b[0]|];
      assert FlattenLeft(a[1..]) == FlattenLeft(a)[|a[0]|..];
      assert FlattenLeft(b[1..]) == FlattenLeft(b)[|b[0]|..];
      SamePacking(w, a[1..], b[1..], budget);
      assert a == [a[0]] + a[1..];
    }
  }

  lemma FirstChunkIsLongest(w: string -> nat, a: seq<seq<string>>, b: seq<seq<string>>, budget: int)
    requires Packed(w, a, budget) && Packed(w, b, budget) && FlattenLeft(a) == FlattenLeft(b)
    requires a != [] && b != []
    ensures |b[0]| <= |a[0]|
  {
    var lines := FlattenLeft(a);
    FirstChunkIsFront(b);
    if |a| == 1 {
      assert lines == a[0] + [];
    } else {
      NextLineIsTooMuch(w, a, budget);
      if |b[0]| > |a[0]| {
        FrontsGrow(w, lines, |a[0]| + 1, |b[0]|);
      }
    }
  }

  lemma FirstChunkIsFront(chunks: seq<seq<string>>)
    requires chunks != []
    ensures |chunks[0]| <= |FlattenLeft(chunks)| && chunks[0] == FlattenLeft(chunks)[..|chunks[0]|]
  {
  }

  lemma FrontsGrow(w: string -> nat, lines: seq<string>, i: nat, j: nat)
    requires i <= j <= |lines|
    ensures Width(w, lines[..i]) <= Width(w, lines[..j])
  {
    assert lines[..j] == lines[..i] + lines[i..j];
    WidthGrows(w, lines[..i], lines[i..j]);
  }

  lemma NextLineIsTooMuch(w: string -> nat, a: seq<seq<string>>, budget: int)
    requires Packed(w, a, budget) && |a| > 1
    ensures |a[0]| < |FlattenLeft(a)|
    ensures Width(w, FlattenLeft(a)[..|a[0]| + 1]) > budget
  {
    var lines, next := FlattenLeft(a), a[1][0];
    assert FlattenLeft(a[1..]) == a[1] + FlattenLeft(a[1..][1..]);
    assert lines[|a[0]|] == next;
    assert lines[..|a[0]| + 1] == a[0] + [next];
    WidthSnoc(w, a[0], next);
  }

  lemma {:induction false} WidthGrows(w: string -> nat, front: seq<string>, rest: seq<string>)
    ensures Width(w, front) <= Width(w, front + rest)
    decreases |rest|
  {
    if rest == [] {
      assert front + rest == front;
    } else {
      WidthSnoc(w, front, rest[0]);
      assert front + rest == (front + [rest[0]]) + rest[1..];
      WidthGrows(w, front + [rest[0]], rest[1..]);
    }
  }
}
