/** The byte caps that the graph checkpoint puts on text and on identifier lists. */
module StateFactory {
  import opened Utf8

  const MAX_TOKENS := 32
  const MAX_ID_BYTES := 512

  datatype Checked<+T> = Accepted(value: T) | ValueError

  /** `truncate_utf8` on text. */
  function TruncateUtf8(text: string, maxBytes: int): Checked<string> {
    if maxBytes < 0 then ValueError
    else if Size(text) <= maxBytes then Accepted(text)
    else Accepted(DecodeIgnoringErrors(Encode(text)[..maxBytes]))
  }

  /** Truncation fails exactly on a negative limit; otherwise it yields the one prefix
      that fits and has every fitting prefix as its own prefix, and truncating again
      changes nothing. */
  lemma TruncateIsLongestPrefix(text: string, maxBytes: int)
    ensures TruncateUtf8(text, maxBytes) == ValueError <==> maxBytes < 0
    ensures maxBytes >= 0 ==>
      var r := TruncateUtf8(text, maxBytes).value;
      && r <= text && Size(r) <= maxBytes
      && (forall p :: p <= text && Size(p) <= maxBytes ==> p <= r)
      && TruncateUtf8(r, maxBytes) == Accepted(r)
  {
    if maxBytes >= 0 {
      ClipProperties(text, maxBytes);
    }
  }

  /** A shorter limit applied after a longer one is the shorter limit. */
  lemma TruncateTwice(text: string, short: nat, long: nat)
    requires short <= long
    ensures TruncateUtf8(TruncateUtf8(text, long).value, short) == TruncateUtf8(text, short)
  {
    var inner := TruncateUtf8(text, long).value;
    TruncateIsLongestPrefix(text, long);
    TruncateIsLongestPrefix(text, short);
    TruncateIsLongestPrefix(inner, short);
    var a, b := TruncateUtf8(inner, short).value, TruncateUtf8(text, short).value;
    assert a <= text;
    assert b <= inner;
    assert a <= b && b <= a;
    assert a == b;
  }

  predicate IsIdentifier(s: string, maxBytes: nat) {
    s != "" && Size(s) <= maxBytes
  }

  /** `cap_identifier_list` on a list of strings. */
  function CappedIdentifiers(values: seq<string>, maxItems: nat, maxItemBytes: nat, rejectExcess: bool)
    : Checked<seq<string>>
  {
    var kept := if |values| > maxItems then values[..maxItems] else values;
    if rejectExcess && |values| > maxItems then ValueError
    else if forall v :: v in kept ==> IsIdentifier(v, maxItemBytes) then Accepted(kept)
    else ValueError
  }

  method CapIdentifierList(values: seq<string>, maxItems: nat, maxItemBytes: nat, rejectExcess: bool)
    returns (r: Checked<seq<string>>)
    ensures r == CappedIdentifiers(values, maxItems, maxItemBytes, rejectExcess)
  {
    if rejectExcess && |values| > maxItems {
      return ValueError;
    }
    var result: seq<string> := [];
    var n := if |values| > maxItems then maxItems else |values|;
    for i := 0 to n
      invariant result == values[..i]
      invariant forall v :: v in result ==> IsIdentifier(v, maxItemBytes)
    {
      if !IsIdentifier(values[i], maxItemBytes) {
        assert values[i] in values[..n];
        return ValueError;
      }
      result := result + [values[i]];
    }
    assert values[..n] == if |values| > maxItems then values[..maxItems] else values;
    return Accepted(result);
  }

  /** The token part of `sanitize_graph_delta`: a list past the cap is refused, not cut. */
  function SanitizedTokens(tokens: seq<string>): Checked<seq<string>> {
    CappedIdentifiers(tokens, MAX_TOKENS, MAX_ID_BYTES, true)
  }
}
