/** The canonical JSON text of a value: sorted keys, no white space, and the string
    escapes of section 7 of RFC 8259. */
module CanonicalJson {
  import opened PythonText
  import Utf8

  /** `repr` of a finite float, which names one float: a sign or digit first, then digits,
      signs, a point and an exponent, with a point or an exponent somewhere. */
  type FloatRepr = s: string | IsFloatRepr(s) witness ['0', '.', '0']

  predicate IsFloatRepr(s: string) {
    && s != "" && (s[0] == '-' || IsDigit(s[0]))
    && (forall i :: 0 <= i < |s| ==> IsNumberCharacter(s[i]))
    && ('.' in s || 'e' in s)
  }

  predicate IsNumberCharacter(c: char) {
    IsDigit(c) || c == '-' || c == '+' || c == '.' || c == 'e'
  }

  datatype Json =
    | Null
    | Bool(b: bool)
    | Int(i: int)
    | Float(repr: FloatRepr)
    | Str(s: string)
    | Arr(items: seq<Json>)
    | Obj(members: map<string, Json>)

  // --------------------------------------------------------------- scalars

  function HexDigit(n: nat): char
    requires n < 16
  {
    if n < 10 then ('0' as int + n) as char else ('a' as int + n - 10) as char
  }

  /** Quote, backslash and control characters are escaped; all else stands for itself. */
  function EscapeChar(c: char): (r: string)
    ensures r != ""
  {
    if c == '"' then ['\\', '"']
    else if c == '\\' then ['\\', '\\']
    else if c == '\n' then ['\\', 'n']
    else if c == '\r' then ['\\', 'r']
    else if c == '\t' then ['\\', 't']
    else if c as int == 0x08 then ['\\', 'b']
    else if c as int == 0x0C then ['\\', 'f']
    else if c as int < 0x20 then ['\\', 'u', '0', '0', HexDigit(c as int / 16), HexDigit(c as int % 16)]
    else [c]
  }

  function Escape(s: string): string {
    if s == "" then "" else EscapeChar(s[0]) + Escape(s[1..])
  }

  function Quote(s: string): string {
    ['"'] + Escape(s) + ['"']
  }

  function Numeral(n: int): string {
    if n < 0 then ['-'] + Decimal(-n) else Decimal(n)
  }

  // ----------------------------------------------------------- sorted keys

  /** Order by code point, as Python compares strings. */
  predicate Before(s: string, t: string) {
    if t == "" then false
    else if s == "" then true
    else s[0] < t[0] || (s[0] == t[0] && Before(s[1..], t[1..]))
  }

  lemma {:induction false} BeforeIsStrict(s: string, t: string)
    ensures s == t ==> !Before(s, t)
    ensures s != t ==> Before(s, t) != Before(t, s)
  {
    if s != "" && t != "" && s[0] == t[0] {
      BeforeIsStrict(s[1..], t[1..]);
      assert s == [s[0]] + s[1..] && t == [t[0]] + t[1..];
    }
  }

  lemma {:induction false} BeforeIsTransitive(s: string, t: string, u: string)
    requires Before(s, t) && Before(t, u)
    ensures Before(s, u)
  {
    if s != "" && s[0] == t[0] == u[0] {
      BeforeIsTransitive(s[1..], t[1..], u[1..]);
    }
  }

  ghost predicate IsSorted(keys: seq<string>) {
    forall i, j :: 0 <= i < j < |keys| ==> Before(keys[i], keys[j])
  }

  /** Inserts a key into a sorted list. */
  function Insert(key: string, keys: seq<string>): seq<string> {
    if keys == [] then [key]
    else if Before(keys[0], key) then [keys[0]] + Insert(key, keys[1..])
    else [key] + keys
  }

  lemma {:induction false} InsertSorts(key: string, keys: seq<string>)
    requires IsSorted(keys) && key !in keys
    ensures IsSorted(Insert(key, keys))
    ensures forall k :: k in Insert(key, keys) <==> k == key || k in keys
    ensures |Insert(key, keys)| == |keys| + 1
  {
    if keys != [] {
      var rest := keys[1..];
      BeforeIsStrict(keys[0], key);
      if Before(keys[0], key) {
        InsertSorts(key, rest);
        var after := Insert(key, rest);
        forall j | 0 <= j < |after|
          ensures Before(keys[0], after[j])
        {
          if after[j] != key {
            assert after[j] in rest;
            var i :| 0 <= i < |rest| && rest[i] == after[j];
            assert rest[i] == keys[i + 1];
          }
        }
        assert Insert(key, keys) == [keys[0]] + after;
      } else {
        forall j | 0 <= j < |keys|
          ensures Before(key, keys[j])
        {
          if j > 0 {
            BeforeIsTransitive(key, keys[0], keys[j]);
          }
        }
      }
    }
  }

  /** The keys of an object in the order they are written. A set has one sorted list,
      so taking its members in any order gives the same text. */
  ghost function SortedKeys(keys: set<string>): seq<string> {
    if keys == {} then []
    else
      var k :| k in keys;
      Insert(k, SortedKeys(keys - {k}))
  }

  lemma {:induction false} SortedKeysAreSorted(keys: set<string>)
    ensures IsSorted(SortedKeys(keys))
    ensures forall k :: k in SortedKeys(keys) <==> k in keys
  {
    if keys != {} {
      var k :| k in keys && SortedKeys(keys) == Insert(k, SortedKeys(keys - {k}));
      SortedKeysAreSorted(keys - {k});
      InsertSorts(k, SortedKeys(keys - {k}));
    }
  }

  // ------------------------------------------------------------------ text

  ghost function Text(v: Json): string
    decreases v, 0
  {
    match v
    case Null => "null"
    case Bool(b) => if b then "true" else "false"
    case Int(i) => Numeral(i)
    case Float(repr) => repr
    case Str(s) => Quote(s)
    case Arr(items) => ['['] + Items(items, v) + [']']
    case Obj(members) =>
      SortedKeysAreSorted(members.Keys);
      ['{'] + Members(SortedKeys(members.Keys), members, v) + ['}']
  }

  ghost function Items(items: seq<Json>, whole: Json): string
    requires forall i :: 0 <= i < |items| ==> items[i] < whole
    decreases whole, 0, |items|
  {
    if items == [] then ""
    else if |items| == 1 then Text(items[0])
    else Text(items[0]) + [','] + Items(items[1..], whole)
  }

  ghost function Members(keys: seq<string>, members: map<string, Json>, whole: Json): string
    requires forall i :: 0 <= i < |keys| ==> keys[i] in members
    requires forall k :: k in members ==> members[k] < whole
    decreases whole, 0, |keys|
  {
    if keys == [] then ""
    else if |keys| == 1 then Member(keys[0], members, whole)
    else Member(keys[0], members, whole) + [','] + Members(keys[1..], members, whole)
  }

  ghost function Member(key: string, members: map<string, Json>, whole: Json): string
    requires key in members && members[key] < whole
    decreases whole, 0, 0
  {
    Quote(key) + [':'] + Text(members[key])
  }

  // --------------------------------------------------- reading a text back

  /** The character that one escape unit stands for, and what follows it. */
  function UnescapeFirst(t: string): (r: (char, string))
    requires t != "" && (t[0] == '\\' ==> |t| > 1 && (t[1] == 'u' ==> |t| > 5))
  {
    if t[0] != '\\' then (t[0], t[1..])
    else if t[1] == 'n' then ('\n', t[2..])
    else if t[1] == 'r' then ('\r', t[2..])
    else if t[1] == 't' then ('\t', t[2..])
    else if t[1] == 'b' then (0x08 as char, t[2..])
    else if t[1] == 'f' then (0x0C as char, t[2..])
    else if t[1] == 'u' then (HexValue(t[4], t[5]) as char, t[6..])
    else (t[1], t[2..])
  }

  function HexValue(high: char, low: char): (n: nat)
    ensures n < 0x100
  {
    (HexDigitValue(high) * 16 + HexDigitValue(low)) % 0x100
  }

  function HexDigitValue(c: char): nat {
    if '0' <= c <= '9' then c as int - '0' as int
    else if 'a' <= c <= 'f' then c as int - 'a' as int + 10
    else 0
  }

  lemma UnescapeOfEscape(c: char, rest: string)
    ensures var t := EscapeChar(c) + rest;
      && (t[0] == '\\' ==> |t| > 1 && (t[1] == 'u' ==> |t| > 5))
      && UnescapeFirst(t) == (c, rest)
      && t[0] != '"'
  {
    var t := EscapeChar(c) + rest;
    assert forall i :: 0 <= i < |EscapeChar(c)| ==> t[i] == EscapeChar(c)[i];
    assert t[|EscapeChar(c)|..] == rest;
    if c as int < 0x20 {
      assert HexDigitValue(HexDigit(c as int / 16)) == c as int / 16;
      assert HexDigitValue(HexDigit(c as int % 16)) == c as int % 16;
    }
  }

  lemma EscapeStep(a: string, r: string)
    requires a != ""
    ensures var t := Escape(a) + (['"'] + r);
      && (t[0] == '\\' ==> |t| > 1 && (t[1] == 'u' ==> |t| > 5))
      && UnescapeFirst(t) == (a[0], Escape(a[1..]) + (['"'] + r))
      && t[0] != '"'
  {
    var rest := Escape(a[1..]) + (['"'] + r);
    assert Escape(a) + (['"'] + r) == EscapeChar(a[0]) + rest;
    UnescapeOfEscape(a[0], rest);
  }

  /** A quoted string ends where its text says, so what follows it is determined. */
  lemma {:induction false} EscapePrefixFree(a: string, b: string, r: string, s: string)
    requires Escape(a) + (['"'] + r) == Escape(b) + (['"'] + s)
    ensures a == b && r == s
  {
    if a != "" {
      EscapeStep(a, r);
    }
    if b != "" {
      EscapeStep(b, s);
    }
    if a == "" || b == "" {
      assert "" + (['"'] + r) == ['"'] + r;
      assert "" + (['"'] + s) == ['"'] + s;
      SameFront(['"'], r, s);
    } else {
      EscapePrefixFree(a[1..], b[1..], r, s);
      assert a == [a[0]] + a[1..] && b == [b[0]] + b[1..];
    }
  }

  lemma QuotePrefixFree(a: string, b: string, r: string, s: string)
    requires Quote(a) + r == Quote(b) + s
    ensures a == b && r == s
  {
    Opened('"', Escape(a), '"', r);
    Opened('"', Escape(b), '"', s);
    EscapePrefixFree(a, b, r, s);
  }

  /** What may follow a value: nothing that continues a number. */
  predicate Ends(r: string) {
    r == "" || !IsNumberCharacter(r[0])
  }

  function LeadingNumber(t: string): string {
    if t == "" || !IsNumberCharacter(t[0]) then "" else [t[0]] + LeadingNumber(t[1..])
  }

  lemma {:induction false} NumberRun(a: string, r: string)
    requires Ends(r) && forall i :: 0 <= i < |a| ==> IsNumberCharacter(a[i])
    ensures LeadingNumber(a + r) == a && (a + r)[|a|..] == r
  {
    if a == "" {
      assert a + r == r;
    } else {
      assert (a + r)[1..] == a[1..] + r;
      NumberRun(a[1..], r);
    }
  }

  /** The text of a number, whole or not. */
  function NumberText(v: Json): string
    requires v.Int? || v.Float?
  {
    if v.Int? then Numeral(v.i) else v.repr
  }

  lemma NumeralCharacters(i: int)
    ensures Numeral(i) != "" && (Numeral(i)[0] == '-' <==> i < 0)
    ensures forall k :: 0 <= k < |Numeral(i)| ==> IsDigit(Numeral(i)[k]) || Numeral(i)[k] == '-'
  {
    DecimalIsDigits(if i < 0 then -i else i);
    var d := Decimal(if i < 0 then -i else i);
    assert forall k :: 0 <= k < |d| ==> d[k] in d;
  }

  lemma NumeralInjective(i: int, j: int)
    requires Numeral(i) == Numeral(j)
    ensures i == j
  {
    NumeralCharacters(i);
    NumeralCharacters(j);
    if i < 0 {
      assert Decimal(-i) == Numeral(i)[1..] == Decimal(-j);
      DecimalInjective(-i, -j);
    } else {
      DecimalInjective(i, j);
    }
  }

  /** A number's text names the number, and a float's text is no integer's. */
  lemma NumberTextInjective(v: Json, w: Json)
    requires (v.Int? || v.Float?) && (w.Int? || w.Float?) && NumberText(v) == NumberText(w)
    ensures v == w
  {
    if v.Int? {
      NumeralCharacters(v.i);
    }
    if w.Int? {
      NumeralCharacters(w.i);
    }
    if v.Int? && w.Int? {
      NumeralInjective(v.i, w.i);
    }
  }

  lemma NumberPrefixFree(v: Json, w: Json, r: string, s: string)
    requires (v.Int? || v.Float?) && (w.Int? || w.Float?)
    requires NumberText(v) + r == NumberText(w) + s && Ends(r) && Ends(s)
    ensures v == w && r == s
  {
    if v.Int? {
      NumeralCharacters(v.i);
    }
    if w.Int? {
      NumeralCharacters(w.i);
    }
    NumberRun(NumberText(v), r);
    NumberRun(NumberText(w), s);
    NumberTextInjective(v, w);
  }

  /** The first character of a text names the kind of value. */
  predicate Starts(v: Json, c: char) {
    match v
    case Null => c == 'n'
    case Bool(b) => c == if b then 't' else 'f'
    case Int(_) => c == '-' || IsDigit(c)
    case Float(_) => c == '-' || IsDigit(c)
    case Str(_) => c == '"'
    case Arr(_) => c == '['
    case Obj(_) => c == '{'
  }

  lemma TextStarts(v: Json)
    ensures Text(v) != "" && Starts(v, Text(v)[0])
    ensures Text(v)[0] !in {']', '}', ',', ':'}
  {
    if v.Int? {
      NumeralCharacters(v.i);
    }
  }

  lemma SameKind(v: Json, w: Json, r: string, s: string)
    requires Text(v) + r == Text(w) + s
    ensures v.Null? == w.Null? && v.Bool? == w.Bool? && (v.Int? || v.Float?) == (w.Int? || w.Float?)
    ensures v.Str? == w.Str? && v.Arr? == w.Arr? && v.Obj? == w.Obj?
    ensures v.Bool? ==> v == w
  {
    TextStarts(v);
    TextStarts(w);
    var c := Text(v)[0];
    assert c == (Text(v) + r)[0] == (Text(w) + s)[0] == Text(w)[0];
    assert Starts(v, c) && Starts(w, c);
  }

  /** A value's text ends where it says: no text of a value is the front of another's. */
  lemma {:induction false} TextPrefixFree(v: Json, w: Json, r: string, s: string)
    requires Text(v) + r == Text(w) + s && Ends(r) && Ends(s)
    ensures v == w && r == s
    decreases v, 2, 0
  {
    SameKind(v, w, r, s);
    match v
    case Null => SameFront("null", r, s);
    case Bool(_) => SameFront(Text(v), r, s);
    case Int(_) => NumberPrefixFree(v, w, r, s);
    case Float(_) => NumberPrefixFree(v, w, r, s);
    case Str(a) => QuotePrefixFree(a, w.s, r, s);
    case Arr(items) =>
      Opened('[', Items(items, v), ']', r);
      Opened('[', Items(w.items, w), ']', s);
      ItemsPrefixFree(items, w.items, v, w, r, s);
    case Obj(_) => ObjPrefixFree(v, w, r, s);
  }

  lemma ObjPrefixFree(v: Json, w: Json, r: string, s: string)
    requires v.Obj? && w.Obj? && Text(v) + r == Text(w) + s
    ensures v == w && r == s
    decreases v, 1, 0
  {
    var keys, keys' := SortedKeys(v.members.Keys), SortedKeys(w.members.Keys);
    SortedKeysAreSorted(v.members.Keys);
    SortedKeysAreSorted(w.members.Keys);
    Opened('{', Members(keys, v.members, v), '}', r);
    Opened('{', Members(keys', w.members, w), '}', s);
    MembersPrefixFree(keys, keys', v.members, w.members, v, w, r, s);
    assert forall k :: k in v.members <==> k in w.members;
    forall k | k in v.members
      ensures v.members[k] == w.members[k]
    {
      assert k in keys;
    }
    assert v.members == w.members;
  }

  lemma Opened(open: char, inner: string, close: char, r: string)
    ensures ([open] + inner + [close] + r)[1..] == inner + ([close] + r)
  {
  }

  lemma SameFront(front: string, r: string, s: string)
    requires front + r == front + s
    ensures r == s
  {
    assert r == (front + r)[|front|..];
    assert s == (front + s)[|front|..];
  }

  lemma ItemsStart(items: seq<Json>, whole: Json, r: string)
    requires forall i :: 0 <= i < |items| ==> items[i] < whole
    ensures items == [] <==> (Items(items, whole) + ([']'] + r))[0] == ']'
    ensures items == [] ==> Items(items, whole) + ([']'] + r) == [']'] + r
  {
    if items != [] {
      TextStarts(items[0]);
      assert Items(items, whole)[0] == Text(items[0])[0];
    }
  }

  lemma MembersStart(keys: seq<string>, members: map<string, Json>, whole: Json, r: string)
    requires forall i :: 0 <= i < |keys| ==> keys[i] in members
    requires forall k :: k in members ==> members[k] < whole
    ensures keys == [] <==> (Members(keys, members, whole) + (['}'] + r))[0] == '}'
    ensures keys == [] ==> Members(keys, members, whole) + (['}'] + r) == ['}'] + r
  {
    if keys != [] {
      assert Member(keys[0], members, whole)[0] == '"';
      assert Members(keys, members, whole)[0] == '"';
    }
  }

  lemma {:induction false} ItemsPrefixFree(a: seq<Json>, b: seq<Json>, v: Json, w: Json, r: string, s: string)
    requires forall i :: 0 <= i < |a| ==> a[i] < v
    requires forall i :: 0 <= i < |b| ==> b[i] < w
    requires Items(a, v) + ([']'] + r) == Items(b, w) + ([']'] + s)
    ensures a == b && r == s
    decreases v, 0, |a|
  {
    if a == [] || b == [] {
      ItemsStart(a, v, r);
      ItemsStart(b, w, s);
      SameFront([']'], r, s);
    } else {
      var ra, rb := AfterItem(a, v, r), AfterItem(b, w, s);
      ItemsStep(a, v, r);
      ItemsStep(b, w, s);
      TextPrefixFree(a[0], b[0], ra, rb);
      if |a| == 1 {
        SameFront([']'], r, s);
      } else {
        SameFront([','], Items(a[1..], v) + ([']'] + r), Items(b[1..], w) + ([']'] + s));
        ItemsPrefixFree(a[1..], b[1..], v, w, r, s);
        assert a == [a[0]] + a[1..] && b == [b[0]] + b[1..];
      }
    }
  }

  /** What follows the first item. */
  ghost function AfterItem(items: seq<Json>, whole: Json, r: string): (t: string)
    requires items != [] && forall i :: 0 <= i < |items| ==> items[i] < whole
    ensures t != "" && t[0] == (if |items| == 1 then ']' else ',') && Ends(t)
  {
    if |items| == 1 then [']'] + r else [','] + (Items(items[1..], whole) + ([']'] + r))
  }

  lemma ItemsStep(items: seq<Json>, whole: Json, r: string)
    requires items != [] && forall i :: 0 <= i < |items| ==> items[i] < whole
    ensures Items(items, whole) + ([']'] + r) == Text(items[0]) + AfterItem(items, whole, r)
  {
    if |items| > 1 {
      Regrouped(Text(items[0]), ',', Items(items[1..], whole), [']'] + r);
    }
  }

  lemma {:induction false} MembersPrefixFree(a: seq<string>, b: seq<string>, m: map<string, Json>, n: map<string, Json>,
                                             v: Json, w: Json, r: string, s: string)
    requires forall i :: 0 <= i < |a| ==> a[i] in m
    requires forall i :: 0 <= i < |b| ==> b[i] in n
    requires forall k :: k in m ==> m[k] < v
    requires forall k :: k in n ==> n[k] < w
    requires Members(a, m, v) + (['}'] + r) == Members(b, n, w) + (['}'] + s)
    ensures a == b && r == s
    ensures forall i :: 0 <= i < |a| ==> m[a[i]] == n[a[i]]
    decreases v, 0, |a|
  {
    if a == [] || b == [] {
      MembersStart(a, m, v, r);
      MembersStart(b, n, w, s);
      SameFront(['}'], r, s);
    } else {
      var ra, rb := AfterMember(a, m, v, r), AfterMember(b, n, w, s);
      MembersStep(a, m, v, r);
      MembersStep(b, n, w, s);
      QuotePrefixFree(a[0], b[0], [':'] + (Text(m[a[0]]) + ra), [':'] + (Text(n[b[0]]) + rb));
      SameFront([':'], Text(m[a[0]]) + ra, Text(n[b[0]]) + rb);
      TextPrefixFree(m[a[0]], n[b[0]], ra, rb);
      if |a| == 1 {
        SameFront(['}'], r, s);
      } else {
        SameFront([','], Members(a[1..], m, v) + (['}'] + r), Members(b[1..], n, w) + (['}'] + s));
        MembersPrefixFree(a[1..], b[1..], m, n, v, w, r, s);
        assert a == [a[0]] + a[1..] && b == [b[0]] + b[1..];
      }
    }
  }

  /** What follows the first member's value. */
  ghost function AfterMember(keys: seq<string>, members: map<string, Json>, whole: Json, r: string): (t: string)
    requires keys != [] && forall i :: 0 <= i < |keys| ==> keys[i] in members
    requires forall k :: k in members ==> members[k] < whole
    ensures t != "" && t[0] == (if |keys| == 1 then '}' else ',') && Ends(t)
  {
    if |keys| == 1 then ['}'] + r else [','] + (Members(keys[1..], members, whole) + (['}'] + r))
  }

  lemma MembersStep(keys: seq<string>, members: map<string, Json>, whole: Json, r: string)
    requires keys != [] && forall i :: 0 <= i < |keys| ==> keys[i] in members
    requires forall k :: k in members ==> members[k] < whole
    ensures Members(keys, members, whole) + (['}'] + r) ==
            Quote(keys[0]) + ([':'] + (Text(members[keys[0]]) + AfterMember(keys, members, whole, r)))
  {
    var q, t := Quote(keys[0]), Text(members[keys[0]]);
    if |keys| == 1 {
      Regrouped(q, ':', t, ['}'] + r);
    } else {
      var rest := Members(keys[1..], members, whole);
      Regrouped(q + [':'] + t, ',', rest, ['}'] + r);
      Regrouped(q, ':', t, [','] + (rest + (['}'] + r)));
    }
  }

  lemma Regrouped(a: string, c: char, b: string, r: string)
    ensures (a + [c] + b) + r == a + ([c] + (b + r))
  {
  }

  // -------------------------------------------------------- canonical bytes

  ghost function CanonicalBytes(v: Json): seq<Utf8.Byte> {
    Utf8.Encode(Text(v))
  }

  /** The canonical bytes name one value: two values have the same bytes exactly when
      they are equal, whatever order their members were written in. */
  lemma CanonicalBytesInjective(v: Json, w: Json)
    ensures CanonicalBytes(v) == CanonicalBytes(w) <==> v == w
  {
    if CanonicalBytes(v) == CanonicalBytes(w) {
      Utf8.EncodeInjective(Text(v), Text(w));
      assert Text(v) + "" == Text(v) && Text(w) + "" == Text(w);
      TextPrefixFree(v, w, "", "");
    }
  }
}
