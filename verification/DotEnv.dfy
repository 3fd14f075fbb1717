/** Reading and printing dotenv files: one `KEY=value` a line, nothing expanded. */
module DotEnv {
  import opened Sequences
  import opened PythonText

  datatype Outcome<+T> = Ok(value: T) | Rejected

  type Values = map<string, string>

  // ----------------------------------------------------------------- lines

  function LineLength(s: string): (n: nat)
    ensures n <= |s|
    ensures forall i :: 0 <= i < n ==> !IsLineBreak(s[i])
    ensures n < |s| ==> IsLineBreak(s[n])
  {
    if s == "" || IsLineBreak(s[0]) then 0 else 1 + LineLength(s[1..])
  }

  /** `str.splitlines`. */
  function SplitLines(s: string): seq<string>
    decreases |s|
  {
    if s == "" then []
    else
      var n := LineLength(s);
      if n == |s| then [s]
      else if s[n] == '\r' && n + 1 < |s| && s[n + 1] == '\n' then [s[..n]] + SplitLines(s[n + 2..])
      else [s[..n]] + SplitLines(s[n + 1..])
  }

  predicate IsLine(s: string) {
    forall i :: 0 <= i < |s| ==> !IsLineBreak(s[i])
  }

  lemma {:induction false} LineLengthIs(line: string, rest: string)
    requires IsLine(line) && (rest == "" || IsLineBreak(rest[0]))
    ensures LineLength(line + rest) == |line|
  {
    if line == "" {
      assert line + rest == rest;
    } else {
      assert (line + rest)[1..] == line[1..] + rest;
      LineLengthIs(line[1..], rest);
    }
  }

  /** Lines joined by newlines split into the same lines, unless the last is empty. */
  lemma {:induction false} SplitJoinLines(lines: seq<string>)
    requires lines != [] && lines[|lines| - 1] != ""
    requires forall i :: 0 <= i < |lines| ==> IsLine(lines[i])
    ensures SplitLines(Join("\n", lines)) == lines
  {
    var s := Join("\n", lines);
    if |lines| == 1 {
      LineLengthIs(lines[0], "");
      assert s == lines[0] + "";
    } else {
      var rest := Join("\n", lines[1..]);
      assert s == lines[0] + ("\n" + rest);
      LineLengthIs(lines[0], "\n" + rest);
      assert s[|lines[0]|] == '\n';
      assert s[..|lines[0]|] == lines[0] && s[|lines[0]| + 1..] == rest;
      SplitJoinLines(lines[1..]);
      assert lines == [lines[0]] + lines[1..];
    }
  }

  // ------------------------------------------------------------------ keys

  /** `casefold`, on the characters that fold to an identifier character. Of the others,
      those that are their own upper case fold to something outside `a-z0-9_`. */
  function Fold(c: char): string {
    if 'A' <= c <= 'Z' then [(c as int + 32) as char]
    else if c as int == 0x212A then "k"
    else if c as int == 0x1E9E then "ss"
    else [c]
  }

  function FoldAll(s: string): string {
    if s == "" then "" else Fold(s[0]) + FoldAll(s[1..])
  }

  predicate IsUpper(s: string) {
    forall i :: 0 <= i < |s| ==> !('a' <= s[i] <= 'z')
  }

  predicate IsIdentifier(s: string) {
    && 1 <= |s| <= 63
    && ('a' <= s[0] <= 'z' || s[0] == '_')
    && forall i :: 0 <= i < |s| ==> 'a' <= s[i] <= 'z' || IsDigit(s[i]) || s[i] == '_'
  }

  /** What the reader takes for a key: besides ASCII capitals, digits and underscores,
      the Kelvin sign and the capital sharp s pass its test. */
  predicate IsKey(key: string) {
    IsIdentifier(FoldAll(key)) && IsUpper(key)
  }

  lemma {:induction false} FoldAllHolds(key: string, i: nat)
    requires i < |key| && |Fold(key[i])| == 1
    ensures Fold(key[i])[0] in FoldAll(key)
  {
    if i > 0 {
      FoldAllHolds(key[1..], i - 1);
    }
  }

  /** A key holds no white space, no equals sign and no comment sign. */
  lemma KeyCharacters(key: string)
    requires IsKey(key)
    ensures key != ""
    ensures forall i :: 0 <= i < |key| ==> !IsSpace(key[i]) && key[i] != '=' && key[i] != '#'
  {
    forall i | 0 <= i < |key|
      ensures !IsSpace(key[i]) && key[i] != '=' && key[i] != '#'
    {
      if |Fold(key[i])| == 1 {
        FoldAllHolds(key, i);
        var f := FoldAll(key);
        var j :| 0 <= j < |f| && f[j] == Fold(key[i])[0];
      }
    }
  }

  // --------------------------------------------------------------- reading

  predicate IsBlankOrComment(line: string) {
    Strip(line) == "" || Strip(line)[0] == '#'
  }

  /** One turn of the reader. */
  function ReadLine(values: Values, line: string): Outcome<Values> {
    if IsBlankOrComment(line) then Ok(values)
    else
      var n := IndexOf(line, '=');
      if n == |line| then Rejected
      else
        var key, value := Strip(line[..n]), line[n + 1..];
        if !IsKey(key) || key in values || '\0' in value || '\r' in value || '\n' in value then Rejected
        else Ok(values[key := value])
  }

  function ReadLines(values: Values, lines: seq<string>): Outcome<Values>
    decreases |lines|
  {
    if lines == [] then Ok(values)
    else match ReadLine(values, lines[0])
      case Rejected => Rejected
      case Ok(next) => ReadLines(next, lines[1..])
  }

  function Read(raw: string): Outcome<Values> {
    ReadLines(map[], SplitLines(raw))
  }

  method ReadEnvFile(raw: string) returns (r: Outcome<Values>)
    ensures r == Read(raw)
  {
    var values: Values := map[];
    var lines := SplitLines(raw);
    for i := 0 to |lines|
      invariant ReadLines(map[], lines) == ReadLines(values, lines[i..])
    {
      var line := lines[i];
      assert lines[i..][1..] == lines[i + 1..];
      if IsBlankOrComment(line) {
        continue;
      }
      var n := IndexOf(line, '=');
      if n == |line| {
        return Rejected;
      }
      var key, value := Strip(line[..n]), line[n + 1..];
      if !IsKey(key) || key in values || '\0' in value || '\r' in value || '\n' in value {
        return Rejected;
      }
      values := values[key := value];
    }
    return Ok(values);
  }

  /** What a value in a file that was read can hold. */
  predicate IsValue(v: string) {
    IsLine(v) && '\0' !in v
  }

  ghost predicate IsReadable(m: Values) {
    forall k :: k in m ==> IsKey(k) && IsValue(m[k])
  }

  lemma {:induction false} LinesAreLines(s: string)
    ensures forall i :: 0 <= i < |SplitLines(s)| ==> IsLine(SplitLines(s)[i])
    decreases |s|
  {
    var n := LineLength(s);
    if s != "" && n < |s| {
      LinesAreLines(s[n + 1..]);
      if n + 1 < |s| {
        LinesAreLines(s[n + 2..]);
      }
    }
  }

  lemma TailIsLine(line: string, n: nat)
    requires IsLine(line) && n <= |line|
    ensures IsLine(line[n..])
  {
  }

  /** A line that is neither blank nor a comment adds one entry. */
  lemma ReadLineAdds(values: Values, line: string) returns (key: string, value: string)
    requires IsLine(line) && ReadLine(values, line).Ok?
    ensures ReadLine(values, line).value == values ||
      (IsKey(key) && IsValue(value) && ReadLine(values, line).value == values[key := value])
  {
    key, value := "", "";
    if !IsBlankOrComment(line) {
      var n := IndexOf(line, '=');
      key, value := Strip(line[..n]), line[n + 1..];
      TailIsLine(line, n + 1);
    }
  }

  lemma ReadLineReadable(values: Values, line: string)
    requires IsReadable(values) && IsLine(line) && ReadLine(values, line).Ok?
    ensures IsReadable(ReadLine(values, line).value)
  {
    var key, value := ReadLineAdds(values, line);
    AddedReadable(values, key, value);
  }

  lemma AddedReadable(values: Values, key: string, value: string)
    requires IsReadable(values)
    ensures IsKey(key) && IsValue(value) ==> IsReadable(values[key := value])
  {
  }

  lemma {:induction false} ReadLinesReadable(values: Values, lines: seq<string>)
    requires IsReadable(values) && forall i :: 0 <= i < |lines| ==> IsLine(lines[i])
    ensures ReadLines(values, lines).Ok? ==> IsReadable(ReadLines(values, lines).value)
    decreases |lines|
  {
    if lines != [] && ReadLine(values, lines[0]).Ok? {
      ReadLineReadable(values, lines[0]);
      ReadLinesReadable(ReadLine(values, lines[0]).value, lines[1..]);
    }
  }

  /** Everything read has the form of a key and a one-line value. */
  lemma ReadIsReadable(raw: string)
    ensures Read(raw).Ok? ==> IsReadable(Read(raw).value)
  {
    LinesAreLines(raw);
    ReadLinesReadable(map[], SplitLines(raw));
  }

  // -------------------------------------------------------------- printing

  function Entry(key: string, value: string): string {
    key + "=" + value
  }

  lemma StripStartsWith(s: string)
    requires s != "" && !IsSpace(s[0])
    ensures Strip(s) != "" && Strip(s)[0] == s[0]
  {
    assert LStrip(s) == s;
  }

  lemma StripKeeps(s: string)
    requires s != "" && !IsSpace(s[0]) && !IsSpace(s[|s| - 1])
    ensures Strip(s) == s
  {
    assert LStrip(s) == s;
    assert RStrip(s) == s;
  }

  /** A printed entry is read as what was printed. */
  lemma ReadEntry(values: Values, key: string, value: string)
    requires IsKey(key) && IsValue(value) && key !in values
    ensures ReadLine(values, Entry(key, value)) == Ok(values[key := value])
  {
    var line := Entry(key, value);
    KeyCharacters(key);
    StripStartsWith(line);
    assert line[0] == key[0];
    assert line == key + (['='] + value);
    IndexOfIs(key, '=', ['='] + value);
    var n := |key|;
    assert line[..n] == key && line[n + 1..] == value;
    StripKeeps(key);
    assert '\r' !in value && '\n' !in value;
  }

  lemma EntryIsLine(key: string, value: string)
    requires IsKey(key) && IsValue(value)
    ensures IsLine(Entry(key, value)) && Entry(key, value) != ""
  {
    var line := Entry(key, value);
    KeyCharacters(key);
    forall i | 0 <= i < |line|
      ensures !IsLineBreak(line[i])
    {
      if i < |key| {
        assert line[i] == key[i];
      } else if i > |key| {
        assert line[i] == value[i - |key| - 1];
      }
    }
  }

  /** The entries of the keys that `m` holds, in the given order. */
  function Entries(keys: seq<string>, m: Values): seq<string> {
    if keys == [] then []
    else (if keys[0] in m then [Entry(keys[0], m[keys[0]])] else []) + Entries(keys[1..], m)
  }

  function Restrict(m: Values, keys: seq<string>): Values {
    map k | k in m && k in keys :: m[k]
  }

  lemma ReadNextEntry(values: Values, key: string, value: string, tail: seq<string>)
    requires IsKey(key) && IsValue(value) && key !in values
    ensures ReadLines(values, [Entry(key, value)] + tail) == ReadLines(values[key := value], tail)
  {
    ReadEntry(values, key, value);
    var lines := [Entry(key, value)] + tail;
    assert lines[0] == Entry(key, value) && lines[1..] == tail;
  }

  lemma {:induction false} EntriesAreLines(keys: seq<string>, m: Values)
    requires IsReadable(m)
    ensures forall i :: 0 <= i < |Entries(keys, m)| ==> IsLine(Entries(keys, m)[i]) && Entries(keys, m)[i] != ""
  {
    if keys != [] {
      EntriesAreLines(keys[1..], m);
      if keys[0] in m {
        EntryIsLine(keys[0], m[keys[0]]);
      }
    }
  }

  ghost predicate AreAbsent(keys: seq<string>, values: Values) {
    forall i :: 0 <= i < |keys| ==> keys[i] !in values
  }

  lemma StillAbsent(keys: seq<string>, values: Values, value: string)
    requires keys != [] && AreDistinct(keys) && AreAbsent(keys, values)
    ensures AreDistinct(keys[1..]) && AreAbsent(keys[1..], values) && AreAbsent(keys[1..], values[keys[0] := value])
  {
    forall i | 0 <= i < |keys[1..]|
      ensures keys[1..][i] !in values[keys[0] := value]
    {
      assert keys[1..][i] == keys[i + 1];
    }
  }

  lemma ReadFirstEntry(values: Values, keys: seq<string>, m: Values, rest: seq<string>)
    requires keys != [] && keys[0] in m && keys[0] !in values
    requires IsKey(keys[0]) && IsValue(m[keys[0]])
    ensures ReadLines(values, Entries(keys, m) + rest) ==
            ReadLines(values[keys[0] := m[keys[0]]], Entries(keys[1..], m) + rest)
  {
    var k, tail := keys[0], Entries(keys[1..], m) + rest;
    assert Entries(keys, m) + rest == [Entry(k, m[k])] + tail;
    ReadNextEntry(values, k, m[k], tail);
  }

  /** Printed entries are read into the values they were printed from. */
  lemma {:induction false} ReadEntries(values: Values, keys: seq<string>, m: Values, rest: seq<string>)
    requires IsReadable(m) && AreDistinct(keys) && AreAbsent(keys, values)
    ensures ReadLines(values, Entries(keys, m) + rest) == ReadLines(values + Restrict(m, keys), rest)
    decreases |keys|
  {
    if keys == [] {
      assert Entries(keys, m) + rest == rest;
      assert values + Restrict(m, keys) == values;
    } else {
      var k, others := keys[0], keys[1..];
      RestrictStep(values, keys, m);
      if k in m {
        StillAbsent(keys, values, m[k]);
        ReadFirstEntry(values, keys, m, rest);
        ReadEntries(values[k := m[k]], others, m, rest);
      } else {
        StillAbsent(keys, values, "");
        assert Entries(keys, m) == Entries(others, m);
        ReadEntries(values, others, m, rest);
      }
    }
  }

  lemma RestrictStep(values: Values, keys: seq<string>, m: Values)
    requires keys != []
    ensures values + Restrict(m, keys) ==
            (if keys[0] in m then values[keys[0] := m[keys[0]]] else values) + Restrict(m, keys[1..])
  {
    assert forall k :: k in keys <==> k == keys[0] || k in keys[1..];
  }

  /** `_render_env`, one entry a line, and the trailing newline that writing cuts off. */
  function RenderEnv(keys: seq<string>, m: Values): string {
    Unlines(Entries(keys, m))
  }

  function Unlines(lines: seq<string>): string {
    if lines == [] then "" else lines[0] + "\n" + Unlines(lines[1..])
  }

  function RStripNewlines(s: string): string {
    if s != "" && s[|s| - 1] == '\n' then RStripNewlines(s[..|s| - 1]) else s
  }

  lemma {:induction false} UnlinesIsJoin(lines: seq<string>)
    ensures lines != [] ==> Unlines(lines) == Join("\n", lines) + "\n"
  {
    if |lines| > 1 {
      UnlinesIsJoin(lines[1..]);
      assert Unlines(lines) == lines[0] + "\n" + Join("\n", lines[1..]) + "\n";
    }
  }

  lemma {:induction false} JoinEnds(lines: seq<string>)
    requires lines != [] && lines[|lines| - 1] != ""
    ensures Join("\n", lines) != ""
    ensures var s := Join("\n", lines); s[|s| - 1] == lines[|lines| - 1][|lines[|lines| - 1]| - 1]
  {
    if |lines| > 1 {
      JoinEnds(lines[1..]);
    }
  }

  lemma CutOneNewline(s: string)
    requires s != "" && s[|s| - 1] != '\n'
    ensures RStripNewlines(s + "\n") == s
  {
    assert (s + "\n")[..|s|] == s;
  }

  /** A map that a reader can produce, printed without the trailing newline and read
      back, is the map. */
  lemma RenderedReadsBack(keys: seq<string>, m: Values)
    requires IsReadable(m) && AreDistinct(keys) && m != map[]
    requires forall k :: k in m ==> k in keys
    ensures Read(RStripNewlines(RenderEnv(keys, m))) == Ok(m)
  {
    RenderedLines(keys, m);
    EntriesAreLines(keys, m);
    SplitJoinLines(Entries(keys, m));
    ReadAllEntries(keys, m);
  }

  lemma ReadAllEntries(keys: seq<string>, m: Values)
    requires IsReadable(m) && AreDistinct(keys) && forall k :: k in m ==> k in keys
    ensures ReadLines(map[], Entries(keys, m)) == Ok(m)
  {
    ReadEntries(map[], keys, m, []);
    assert Entries(keys, m) + [] == Entries(keys, m);
    assert map[] + Restrict(m, keys) == m;
  }

  lemma RenderedLines(keys: seq<string>, m: Values)
    requires IsReadable(m) && exists k :: k in m && k in keys
    ensures Entries(keys, m) != []
    ensures RStripNewlines(RenderEnv(keys, m)) == Join("\n", Entries(keys, m))
  {
    var lines := Entries(keys, m);
    SomeEntry(keys, m);
    EntriesAreLines(keys, m);
    UnlinesIsJoin(lines);
    JoinEnds(lines);
    assert IsLine(lines[|lines| - 1]);
    CutOneNewline(Join("\n", lines));
  }

  lemma {:induction false} SomeEntry(keys: seq<string>, m: Values)
    requires exists k :: k in m && k in keys
    ensures Entries(keys, m) != []
  {
    var k :| k in m && k in keys;
    if keys[0] !in m {
      assert k in keys[1..];
      SomeEntry(keys[1..], m);
    }
  }
}
