/** Rendering a digest: one message when everything fits, otherwise numbered parts. */
module DigestMessages {
  import opened Sequences
  import opened PythonText
  import opened Utf8
  import opened DigestRender

  // --------------------------------------------------------------- headers

  /** A wall-clock minute in the reporting zone. */
  datatype RawStamp = Stamp(year: nat, month: nat, day: nat, hour: nat, minute: nat)

  type Stamp = s: RawStamp |
      1 <= s.year <= 9999 && 1 <= s.month <= 12 && 1 <= s.day <= 31 && s.hour < 24 && s.minute < 60
    witness Stamp(1970, 1, 1, 0, 0)

  function TwoDigits(n: nat): string
    requires n < 100
  {
    [Digit(n / 10), Digit(n % 10)]
  }

  function StampText(s: Stamp): string {
    Decimal(s.year) + "-" + TwoDigits(s.month) + "-" + TwoDigits(s.day)
    + " " + TwoDigits(s.hour) + ":" + TwoDigits(s.minute)
  }

  function Label(start: Stamp, end: Stamp): string {
    StampText(start) + "~" + StampText(end)
  }

  datatype PartNumber = Whole | Part(index: nat, total: nat)

  const OPENING := "【邮件日报 "
  const CLOSING := "】"
  const PART := "（第 "
  const PART_END := " 部分）"

  function Front(title: string): string {
    OPENING + title + CLOSING + PART
  }

  function Header(title: string, part: PartNumber): string {
    match part
    case Whole => OPENING + title + CLOSING
    case Part(index, total) => Numbered(Front(title), Decimal(index), Decimal(total), PART_END)
  }

  function Numbered(front: string, index: string, total: string, rest: string): string {
    front + index + "/" + total + rest
  }

  predicate IsLabel(title: string) {
    |title| <= 33 && '\n' !in title
  }

  lemma StampTextShape(s: Stamp)
    ensures |StampText(s)| <= 16 && '\n' !in StampText(s)
  {
    assert Power10(4) == 10000 by {
      assert Power10(3) == 10 * Power10(2);
    }
    DecimalLength(s.year, 4);
    DecimalIsDigits(s.year);
  }

  lemma LabelShape(start: Stamp, end: Stamp)
    ensures IsLabel(Label(start, end))
  {
    StampTextShape(start);
    StampTextShape(end);
  }

  lemma HeaderHasNoBreak(title: string, part: PartNumber)
    requires '\n' !in title
    ensures '\n' !in Header(title, part)
  {
    if part.Part? {
      DecimalIsDigits(part.index);
      DecimalIsDigits(part.total);
    }
  }

  lemma NumberedInjective(front: string, a: string, b: string, total: string, rest: string)
    requires Numbered(front, a, total, rest) == Numbered(front, b, total, rest)
    ensures a == b
  {
    var h := Numbered(front, a, total, rest);
    assert |a| == |b|;
    assert a == h[|front|..|front| + |a|] == b;
  }

  /** The parts of one bundle have different headers. */
  lemma HeadersDiffer(title: string, i: nat, j: nat, total: nat)
    requires Header(title, Part(i, total)) == Header(title, Part(j, total))
    ensures i == j
  {
    NumberedInjective(Front(title), Decimal(i), Decimal(j), Decimal(total), PART_END);
    DecimalInjective(i, j);
  }

  lemma NumberedSize(front: string, index: string, total: string, rest: string)
    requires forall c :: c in index ==> IsDigit(c)
    requires forall c :: c in total ==> IsDigit(c)
    ensures Size(Numbered(front, index, total, rest)) == Size(front) + |index| + Size("/") + |total| + Size(rest)
  {
    SizeConcat(front + index + "/" + total, rest);
    SizeConcat(front + index + "/", total);
    SizeConcat(front + index, "/");
    SizeConcat(front, index);
    AsciiSize(index);
    AsciiSize(total);
  }

  /** No header of a bundle is longer than the one with the widest part marker. */
  lemma HeaderFitsReserve(title: string, i: nat, total: nat)
    requires i <= 999 && total <= 999
    ensures Size(Header(title, Part(i, total))) <= Size(Header(title, Part(999, 999)))
  {
    var front := Front(title);
    DecimalIsDigits(i);
    DecimalIsDigits(total);
    DecimalIsDigits(999);
    ThreeDigits(i);
    ThreeDigits(total);
    NumberedSize(front, Decimal(i), Decimal(total), PART_END);
    NumberedSize(front, Decimal(999), Decimal(999), PART_END);
  }

  lemma ThreeDigits(n: nat)
    requires n <= 999
    ensures |Decimal(n)| <= 3 == |Decimal(999)|
  {
    assert Power10(3) == 1000 by {
      assert Power10(2) == 100;
    }
    DecimalLength(n, 3);
    assert Decimal(999) == Decimal(99) + [Digit(9)];
  }

  // -------------------------------------------------------------- messages

  datatype Message = Message(header: string, text: string)

  const MIN_BYTES := 1024
  const MAX_BYTES := 64000
  const MAX_PARTS := 999

  function Budget(title: string, maxBytes: int): int {
    maxBytes - Size(Header(title, Part(999, 999))) - 1
  }

  function WholeText(title: string, lines: seq<string>): string {
    Header(title, Whole) + "\n" + Join("\n", lines)
  }

  function PartMessage(title: string, chunks: seq<seq<string>>, i: nat): Message
    requires i < |chunks|
  {
    var header := Header(title, Part(i + 1, |chunks|));
    Message(header, header + "\n" + Body(chunks[i]))
  }

  /** The chunks a bundle is made of, whatever way they were found. */
  ghost predicate IsPacking(title: string, lines: seq<string>, maxBytes: int, chunks: seq<seq<string>>) {
    && Flatten(chunks) == Normalised(lines, Budget(title, maxBytes))
    && Packed(Size, chunks, Budget(title, maxBytes))
  }

  ghost predicate IsBundle(title: string, lines: seq<string>, maxBytes: int, messages: seq<Message>) {
    if Size(WholeText(title, lines)) <= maxBytes then
      messages == [Message(Header(title, Whole), WholeText(title, lines))]
    else
      IsSplit(title, lines, maxBytes, messages)
  }

  ghost predicate IsSplit(title: string, lines: seq<string>, maxBytes: int, messages: seq<Message>) {
    exists chunks ::
      IsPacking(title, lines, maxBytes, chunks) && |chunks| <= MAX_PARTS && messages == PartMessages(title, chunks)
  }

  lemma BudgetIsEnough(title: string, maxBytes: int)
    requires IsLabel(title) && maxBytes >= MIN_BYTES
    ensures Budget(title, maxBytes) >= 256
  {
    var h := Header(title, Part(999, 999));
    ThreeDigits(999);
    assert |OPENING| + |CLOSING| + |PART| + |PART_END| < 20;
    SizeBounds(h);
  }

  /** The numbered parts of lines that do not fit one message. */
  method RenderParts(title: string, lines: seq<string>, maxBytes: int) returns (r: Outcome<seq<Message>>)
    requires IsLabel(title) && maxBytes >= MIN_BYTES
    ensures r.Ok? ==> IsSplit(title, lines, maxBytes, r.value)
    ensures r.ValueError? ==> forall chunks :: IsPacking(title, lines, maxBytes, chunks) ==> |chunks| > MAX_PARTS
  {
    BudgetIsEnough(title, maxBytes);
    var budget := Budget(title, maxBytes);
    var packed := ChunkLines(lines, budget);
    var chunks := packed.value;
    if |chunks| > MAX_PARTS {
      forall other | IsPacking(title, lines, maxBytes, other)
        ensures |other| > MAX_PARTS
      {
        PackingIsUnique(Size, chunks, other, budget);
      }
      return ValueError("daily_digest_too_many_parts");
    }
    assert IsPacking(title, lines, maxBytes, chunks);
    return Ok(PartMessages(title, chunks));
  }

  function PartMessages(title: string, chunks: seq<seq<string>>): (r: seq<Message>)
    ensures |r| == |chunks|
  {
    seq(|chunks|, i requires 0 <= i < |chunks| => PartMessage(title, chunks, i))
  }

  /** Rendering refuses a limit out of range and a bundle of more than 999 parts, and
      nothing else. */
  method Render(start: Stamp, end: Stamp, lines: seq<string>, maxBytes: int) returns (r: Outcome<seq<Message>>)
    ensures r.Ok? ==> MIN_BYTES <= maxBytes <= MAX_BYTES && IsBundle(Label(start, end), lines, maxBytes, r.value)
    ensures r.ValueError? ==>
      || !(MIN_BYTES <= maxBytes <= MAX_BYTES)
      || (&& Size(WholeText(Label(start, end), lines)) > maxBytes
          && forall chunks :: IsPacking(Label(start, end), lines, maxBytes, chunks) ==> |chunks| > MAX_PARTS)
  {
    if !(MIN_BYTES <= maxBytes <= MAX_BYTES) {
      return ValueError("daily_digest_message_limit_invalid");
    }
    var title := Label(start, end);
    var single := WholeText(title, lines);
    if Size(single) <= maxBytes {
      return Ok([Message(Header(title, Whole), single)]);
    }
    LabelShape(start, end);
    r := RenderParts(title, lines, maxBytes);
  }

  /** The first line of a text, which is what a chat search compares with a header. */
  function FirstLine(s: string): string {
    if s == "" || s[0] == '\n' then "" else [s[0]] + FirstLine(s[1..])
  }

  lemma {:induction false} FirstLineIs(header: string, rest: string)
    requires '\n' !in header
    ensures FirstLine(header + "\n" + rest) == header
  {
    var s := header + "\n" + rest;
    if header != "" {
      assert s[0] == header[0] && s[0] in header;
      assert s[1..] == header[1..] + "\n" + rest;
      FirstLineIs(header[1..], rest);
    } else {
      assert s[0] == '\n';
    }
  }

  /** Every message of a bundle fits the limit, opens with its own header, and no two
      headers are equal. */
  lemma BundleFits(start: Stamp, end: Stamp, lines: seq<string>, maxBytes: int, messages: seq<Message>)
    requires MIN_BYTES <= maxBytes <= MAX_BYTES && IsBundle(Label(start, end), lines, maxBytes, messages)
    ensures forall i :: 0 <= i < |messages| ==>
      Size(messages[i].text) <= maxBytes && FirstLine(messages[i].text) == messages[i].header
    ensures forall i, j :: 0 <= i < j < |messages| ==> messages[i].header != messages[j].header
  {
    var title := Label(start, end);
    LabelShape(start, end);
    if Size(WholeText(title, lines)) <= maxBytes {
      HeaderHasNoBreak(title, Whole);
      FirstLineIs(Header(title, Whole), Join("\n", lines));
    } else {
      SplitFits(title, lines, maxBytes, messages);
    }
  }

  lemma SplitFits(title: string, lines: seq<string>, maxBytes: int, messages: seq<Message>)
    requires '\n' !in title && IsSplit(title, lines, maxBytes, messages)
    ensures forall i :: 0 <= i < |messages| ==>
      Size(messages[i].text) <= maxBytes && FirstLine(messages[i].text) == messages[i].header
    ensures forall i, j :: 0 <= i < j < |messages| ==> messages[i].header != messages[j].header
  {
    var chunks :|
      IsPacking(title, lines, maxBytes, chunks) && |chunks| <= MAX_PARTS && messages == PartMessages(title, chunks);
    forall i | 0 <= i < |messages|
      ensures Size(messages[i].text) <= maxBytes && FirstLine(messages[i].text) == messages[i].header
    {
      PartFits(title, chunks, i, maxBytes);
    }
    forall i, j | 0 <= i < j < |messages|
      ensures messages[i].header != messages[j].header
    {
      PartHeadersDiffer(title, chunks, i, j);
    }
  }

  lemma PartHeadersDiffer(title: string, chunks: seq<seq<string>>, i: nat, j: nat)
    requires i < j < |chunks|
    ensures PartMessage(title, chunks, i).header != PartMessage(title, chunks, j).header
  {
    if Header(title, Part(i + 1, |chunks|)) == Header(title, Part(j + 1, |chunks|)) {
      HeadersDiffer(title, i + 1, j + 1, |chunks|);
    }
  }

  lemma PartFits(title: string, chunks: seq<seq<string>>, i: nat, maxBytes: int)
    requires i < |chunks| <= MAX_PARTS && '\n' !in title
    requires Width(Size, chunks[i]) <= Budget(title, maxBytes)
    ensures Size(PartMessage(title, chunks, i).text) <= maxBytes
    ensures FirstLine(PartMessage(title, chunks, i).text) == PartMessage(title, chunks, i).header
  {
    var header := Header(title, Part(i + 1, |chunks|));
    HeaderFitsReserve(title, i + 1, |chunks|);
    SizeConcat(header + "\n", Body(chunks[i]));
    SizeConcat(header, "\n");
    assert Size("\n") == 1;
    WidthIsBodySize(chunks[i]);
    HeaderHasNoBreak(title, Part(i + 1, |chunks|));
    FirstLineIs(header, Body(chunks[i]));
  }

  /** A bundle of some lines has a message, and no header or text in it is empty. */
  lemma BundleIsFilled(title: string, lines: seq<string>, maxBytes: int, messages: seq<Message>)
    requires lines != [] && IsBundle(title, lines, maxBytes, messages)
    ensures messages != []
    ensures forall i :: 0 <= i < |messages| ==> messages[i].header != "" && messages[i].text != ""
  {
    assert |OPENING| > 0;
    if Size(WholeText(title, lines)) > maxBytes {
      BodiesAreTheLines(title, lines, maxBytes, messages);
      var chunks :|
        IsPacking(title, lines, maxBytes, chunks) && |chunks| <= MAX_PARTS && messages == PartMessages(title, chunks);
      forall i | 0 <= i < |messages|
        ensures messages[i].header != "" && messages[i].text != ""
      {
        assert messages[i] == PartMessage(title, chunks, i);
      }
    }
  }

  /** Nothing is lost, added or reordered by splitting: put back together, the bodies
      are the normalised lines. */
  lemma BodiesAreTheLines(title: string, lines: seq<string>, maxBytes: int, messages: seq<Message>)
    requires IsBundle(title, lines, maxBytes, messages) && Size(WholeText(title, lines)) > maxBytes
    ensures lines != [] ==> messages != []
    ensures Join("\n", Bodies(messages)) == Join("\n", Normalised(lines, Budget(title, maxBytes)))
  {
    var chunks :|
      IsPacking(title, lines, maxBytes, chunks) && |chunks| <= MAX_PARTS && messages == PartMessages(title, chunks);
    BodiesOfParts(title, chunks);
    JoinOfBodies(chunks, Bodies(messages));
    FlattenBothWays(chunks);
    assert |Normalised(lines, Budget(title, maxBytes))| == |lines|;
  }

  lemma BodiesOfParts(title: string, chunks: seq<seq<string>>)
    ensures |Bodies(PartMessages(title, chunks))| == |chunks|
    ensures forall i :: 0 <= i < |chunks| ==> Bodies(PartMessages(title, chunks))[i] == Body(chunks[i])
  {
    forall i | 0 <= i < |chunks|
      ensures Bodies(PartMessages(title, chunks))[i] == Body(chunks[i])
    {
      var header := Header(title, Part(i + 1, |chunks|));
      RestIs(header, Body(chunks[i]));
    }
  }

  lemma RestIs(header: string, body: string)
    ensures Rest(Message(header, header + "\n" + body)) == body
  {
  }

  /** The text of a message after its header and the line break. */
  function Rest(m: Message): string {
    if |m.header| + 1 <= |m.text| then m.text[|m.header| + 1..] else ""
  }

  function Bodies(messages: seq<Message>): seq<string> {
    seq(|messages|, i requires 0 <= i < |messages| => Rest(messages[i]))
  }

  lemma {:induction false} JoinConcat(a: seq<string>, b: seq<string>)
    requires a != [] && b != []
    ensures Join("\n", a + b) == Join("\n", a) + "\n" + Join("\n", b)
  {
    if |a| == 1 {
      assert (a + b)[1..] == b;
    } else {
      assert (a + b)[1..] == a[1..] + b;
      JoinConcat(a[1..], b);
    }
  }

  lemma {:induction false} JoinOfBodies(chunks: seq<seq<string>>, bodies: seq<string>)
    requires |bodies| == |chunks|
    requires forall i :: 0 <= i < |chunks| ==> chunks[i] != [] && bodies[i] == Body(chunks[i])
    ensures Join("\n", bodies) == Join("\n", FlattenLeft(chunks))
  {
    if |chunks| == 1 {
      assert chunks[1..] == [] && FlattenLeft(chunks) == chunks[0] + [] == chunks[0];
      assert Join("\n", bodies) == bodies[0] == Body(chunks[0]);
    } else if |chunks| > 1 {
      JoinOfBodies(chunks[1..], bodies[1..]);
      assert FlattenLeft(chunks[1..]) == chunks[1] + FlattenLeft(chunks[1..][1..]);
      JoinConcat(chunks[0], FlattenLeft(chunks[1..]));
    }
  }
}
