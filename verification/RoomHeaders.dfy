/**
 * The text of a group room's inputs, line by line: the envelope that heads a post with its number and hops, the age
 * lines of posts that waited, and the pattern by which the reader finds the headers again. No line holds a newline.
 */
module RoomHeaders {
  import opened Decimals
  import opened Options

  function PostMark(): string {
    "· post "
  }

  function FromMark(): (mark: string)
    ensures mark != "" && !IsDigit(mark[0])
  {
    " from "
  }

  function HopsMark(): (mark: string)
    ensures mark != "" && !IsDigit(mark[|mark| - 1])
  {
    " · hops "
  }

  predicate Starts(text: string, head: string) {
    |head| <= |text| && text[..|head|] == head
  }

  predicate Ends(text: string, tail: string) {
    |tail| <= |text| && text[|text| - |tail|..] == tail
  }

  lemma StartsMeans(text: string, head: string, rest: string)
    ensures Starts(head + rest, head) && (head + rest)[|head|..] == rest
    ensures Starts(text, head) ==> text == head + text[|head|..]
  {
    assert (head + rest)[..|head|] == head;
  }

  lemma EndsMeans(text: string, lead: string, tail: string)
    ensures Ends(lead + tail, tail) && (lead + tail)[..|lead|] == lead
    ensures Ends(text, tail) ==> |tail| <= |text| && text == text[..|text| - |tail|] + tail
  {
    assert (lead + tail)[|lead|..] == tail;
  }

  /* ---- The header pattern ---- */

  /** The pattern `· post (\d+) from [^\n]* · hops (\d+)\]$`, with the hops it captures. */
  ghost predicate Matches(line: string, hops: nat) {
    exists lead, number, middle, count ::
      && line == lead + PostMark() + number + FromMark() + middle + HopsMark() + count + "]"
      && AllDigits(number) && AllDigits(count) && Value(count) == hops
  }

  /** Where the digits at a text's end begin. */
  function DigitsFrom(text: string): (at: nat)
    ensures at <= |text| && forall k :: at <= k < |text| ==> IsDigit(text[k])
    ensures at > 0 ==> !IsDigit(text[at - 1])
  {
    if text == "" || !IsDigit(text[|text| - 1]) then |text| else DigitsFrom(text[..|text| - 1])
  }

  /** Where the digits at a text's start end. */
  function DigitsTo(text: string): (at: nat)
    ensures at <= |text| && forall k :: 0 <= k < at ==> IsDigit(text[k])
    ensures at < |text| ==> !IsDigit(text[at])
  {
    if text == "" || !IsDigit(text[0]) then 0 else 1 + DigitsTo(text[1..])
  }

  predicate NamesPost(text: string) {
    && Starts(text, PostMark())
    && var rest := text[|PostMark()|..];
       DigitsTo(rest) > 0 && Starts(rest[DigitsTo(rest)..], FromMark())
  }

  predicate NamesSomePost(text: string) {
    exists i :: 0 <= i <= |text| && NamesPost(text[i..])
  }

  /** The hops at the end of a header without its bracket. */
  function HopsAtEnd(body: string): Option<nat> {
    var at := DigitsFrom(body);
    if at == |body| || !Ends(body[..at], HopsMark()) then None
    else if NamesSomePost(body[..at - |HopsMark()|]) then Some(Value(body[at..]))
    else None
  }

  /** The hops a line names when it has the form of a header. */
  function HopsOf(line: string): Option<nat> {
    if Ends(line, "]") then HopsAtEnd(line[..|line| - 1]) else None
  }

  lemma DigitsFromAt(lead: string, digits: string)
    requires lead != "" && !IsDigit(lead[|lead| - 1]) && AllDigits(digits)
    ensures DigitsFrom(lead + digits) == |lead|
  {
    var text, at := lead + digits, DigitsFrom(lead + digits);
    assert text[|lead| - 1] == lead[|lead| - 1];
    assert forall k :: |lead| <= k < |text| ==> text[k] == digits[k - |lead|];
  }

  lemma DigitsToAt(digits: string, tail: string)
    requires AllDigits(digits) && tail != "" && !IsDigit(tail[0])
    ensures DigitsTo(digits + tail) == |digits|
  {
    var text, at := digits + tail, DigitsTo(digits + tail);
    assert text[|digits|] == tail[0];
    assert forall k :: 0 <= k < |digits| ==> text[k] == digits[k];
  }

  lemma NamesPostMeans(text: string)
    requires NamesPost(text)
    ensures exists number, middle :: text == PostMark() + number + FromMark() + middle && AllDigits(number)
  {
    hide PostMark, FromMark, HopsMark;
    var rest := text[|PostMark()|..];
    var at := DigitsTo(rest);
    var number, middle := rest[..at], rest[at..][|FromMark()|..];
    StartsMeans(text, PostMark(), "");
    StartsMeans(rest[at..], FromMark(), "");
    assert rest == number + (FromMark() + middle);
    assert text == PostMark() + number + FromMark() + middle;
  }

  lemma PostIsNamed(number: string, middle: string)
    requires AllDigits(number)
    ensures NamesPost(PostMark() + number + FromMark() + middle)
  {
    hide PostMark, FromMark, HopsMark, Starts;
    var rest := number + (FromMark() + middle);
    assert PostMark() + number + FromMark() + middle == PostMark() + rest;
    StartsMeans("", PostMark(), rest);
    DigitsToAt(number, FromMark() + middle);
    StartsMeans("", number, FromMark() + middle);
    StartsMeans("", FromMark(), middle);
  }

  lemma EndParts(body: string) returns (before: string, count: string)
    requires HopsAtEnd(body).Some?
    ensures body == before + HopsMark() + count
    ensures NamesSomePost(before) && AllDigits(count) && HopsAtEnd(body) == Some(Value(count))
  {
    hide PostMark, FromMark, HopsMark, Starts, Ends, NamesSomePost, Value, DigitsFrom;
    var at := DigitsFrom(body);
    EndsMeans(body[..at], "", HopsMark());
    before, count := body[..at][..at - |HopsMark()|], body[at..];
    assert body[..at - |HopsMark()|] == before;
    assert body == body[..at] + count == before + HopsMark() + count;
  }

  lemma HeaderMatches(line: string)
    requires HopsOf(line).Some?
    ensures Matches(line, HopsOf(line).value)
  {
    hide PostMark, FromMark, HopsMark, HopsAtEnd, Matches, NamesPost, Value;
    EndsMeans(line, "", "]");
    var before, count := EndParts(line[..|line| - 1]);
    var i :| 0 <= i <= |before| && NamesPost(before[i..]);
    NamesPostMeans(before[i..]);
    var number, middle :| before[i..] == PostMark() + number + FromMark() + middle && AllDigits(number);
    assert before == before[..i] + before[i..];
    Joined(before[..i], number, middle, count);
    MatchFound(line, before[..i], number, middle, count);
  }

  lemma MatchFound(line: string, lead: string, number: string, middle: string, count: string)
    requires line == lead + PostMark() + number + FromMark() + middle + HopsMark() + count + "]"
    requires AllDigits(number) && AllDigits(count)
    ensures Matches(line, Value(count))
  {
  }

  /** The parts of a header line, bracketed as they are read from its end. */
  lemma Joined(lead: string, number: string, middle: string, count: string)
    ensures lead + PostMark() + number + FromMark() + middle + HopsMark() + count + "]" ==
            ((lead + (PostMark() + number + FromMark() + middle)) + HopsMark() + count) + "]"
  {
    hide PostMark, FromMark, HopsMark;
    assert lead + PostMark() + number + FromMark() + middle == lead + (PostMark() + number + FromMark() + middle);
  }

  lemma MatchIsHeader(line: string, lead: string, number: string, middle: string, count: string)
    requires line == lead + PostMark() + number + FromMark() + middle + HopsMark() + count + "]"
    requires AllDigits(number) && AllDigits(count)
    ensures HopsOf(line) == Some(Value(count))
  {
    hide *;
    var named := PostMark() + number + FromMark() + middle;
    var before := lead + named;
    Joined(lead, number, middle, count);
    PostIsNamed(number, middle);
    assert before[|lead|..] == named;
    BodyReads(before, count, |lead|);
  }

  lemma BodyReads(before: string, count: string, i: nat)
    requires AllDigits(count) && i <= |before| && NamesPost(before[i..])
    ensures HopsOf(before + HopsMark() + count + "]") == Some(Value(count))
  {
    hide HopsAtEnd, HopsMark, NamesPost, Value;
    EndReads(before, count, i);
    EndsMeans("", before + HopsMark() + count, "]");
  }

  lemma EndReads(before: string, count: string, i: nat)
    requires AllDigits(count) && i <= |before| && NamesPost(before[i..])
    ensures HopsAtEnd(before + HopsMark() + count) == Some(Value(count))
  {
    hide PostMark, FromMark, HopsMark, Starts, NamesPost, Value, DigitsFrom;
    var body := before + HopsMark() + count;
    DigitsFromAt(before + HopsMark(), count);
    StartsMeans("", before + HopsMark(), count);
    EndsMeans("", before, HopsMark());
    assert body[..|before + HopsMark()|] == before + HopsMark();
    assert body[..|before|] == before;
  }

  /** A line is read as a header exactly when it matches the pattern, and the hops are the ones captured. */
  lemma HeaderExactly(line: string, hops: nat)
    ensures HopsOf(line) == Some(hops) <==> Matches(line, hops)
  {
    hide HopsOf;
    if HopsOf(line).Some? {
      HeaderMatches(line);
    }
    if Matches(line, hops) {
      var lead, number, middle, count :|
        && line == lead + PostMark() + number + FromMark() + middle + HopsMark() + count + "]"
        && AllDigits(number) && AllDigits(count) && Value(count) == hops;
      MatchIsHeader(line, lead, number, middle, count);
    }
  }

  /* ---- Writing ---- */

  /**
   * A post as an input shows it: its number, hops and lines, the room's label, the author's name as shown, how long it
   * waited, and the lines of earlier posts that a channel's envelope adds.
   */
  datatype Part = Part(number: nat, hops: nat, text: seq<string>, frame: Frame)

  datatype Frame = Frame(room: string, name: string, age: string, context: seq<string>)

  function HeaderLine(part: Part): string {
    "[" + part.frame.room + " " + PostMark() + Decimal(part.number) + FromMark() + part.frame.name + HopsMark() +
        Decimal(part.hops) + "]"
  }

  function Envelope(part: Part): seq<string> {
    [HeaderLine(part), ""] + part.text + part.frame.context
  }

  datatype Form =
    /** A post sent at once. */
    | AtOnce
    /** A post that waited for its box. */
    | Aged
    /** Posts that waited together. */
    | Bundled

  function WrittenMark(): string {
    "[written "
  }

  function CountMark(): (mark: string)
    ensures mark != "" && !IsDigit(mark[0])
  {
    " posts in "
  }

  /** How the lines that open a waiting post, and a bundle, end. */
  function AgeEnd(): (end: string)
    ensures |end| >= 2 && !IsDigit(end[|end| - 2])
  {
    " was offline]"
  }

  function CountEnd(): (end: string)
    ensures |end| >= 2 && !IsDigit(end[|end| - 2])
  {
    " was offline and go together in this one input, oldest first]"
  }

  function AgeLine(part: Part): string {
    WrittenMark() + part.frame.age + AgeEnd()
  }

  function PlaceLine(part: Part, place: nat, count: nat): string {
    "[" + Decimal(place) + " of " + Decimal(count) + ", written " + part.frame.age + AgeEnd()
  }

  function CountLine(part: Part, count: nat): string {
    "[" + Decimal(count) + CountMark() + part.frame.room + CountEnd()
  }

  /** The members of a bundle from one on, each under a line with its place and age. */
  function Members(parts: seq<Part>, from: nat): seq<string>
    requires from <= |parts|
    decreases |parts| - from
  {
    if from == |parts| then []
    else ["", PlaceLine(parts[from], from + 1, |parts|), ""] + Envelope(parts[from]) + Members(parts, from + 1)
  }

  function Input(form: Form, parts: seq<Part>): seq<string>
    requires parts != []
  {
    match form
    case AtOnce => Envelope(parts[0])
    case Aged => [AgeLine(parts[0]), ""] + Envelope(parts[0])
    case Bundled => [CountLine(parts[0], |parts|)] + Members(parts, 0)
  }

  /* ---- Reading ---- */

  /** A first line that says the posts waited. */
  predicate SaysWaited(line: string) {
    || Starts(line, WrittenMark())
    || (Starts(line, "[") && DigitsTo(line[1..]) > 0 && Starts(line[1..][DigitsTo(line[1..])..], CountMark()))
  }

  function AllHops(lines: seq<string>): seq<nat> {
    if lines == [] then []
    else
      var hops := HopsOf(lines[0]);
      (if hops.Some? then [hops.value] else []) + AllHops(lines[1..])
  }

  /**
   * The hops of the headers the reader finds: the first line's, or every one in an input that says its posts waited.
   */
  function Headers(lines: seq<string>): seq<nat> {
    if lines == [] then []
    else
      var hops := HopsOf(lines[0]);
      if hops.Some? then [hops.value] else if SaysWaited(lines[0]) then AllHops(lines) else []
  }

  function Top(hops: seq<nat>): (top: nat)
    ensures forall h :: h in hops ==> h <= top
    ensures if hops == [] then top == 0 else top in hops
  {
    if hops == [] then 0
    else
      var rest := Top(hops[1..]);
      assert hops == [hops[0]] + hops[1..];
      if hops[0] >= rest then hops[0] else rest
  }

  /* ---- What the reader finds ---- */

  /** A line of the post's own text, or of the posts shown with it, that has a header's form. */
  ghost predicate Quotes(part: Part, hops: nat) {
    exists line :: line in part.text + part.frame.context && HopsOf(line) == Some(hops)
  }

  lemma HeaderLineReads(part: Part)
    ensures HopsOf(HeaderLine(part)) == Some(part.hops)
  {
    hide HopsOf;
    DecimalValue(part.hops);
    MatchIsHeader(HeaderLine(part), "[" + part.frame.room + " ", Decimal(part.number), part.frame.name,
        Decimal(part.hops));
  }

  /** A line whose last character before the bracket is no digit is no header. */
  lemma NoHops(lead: string, end: string)
    requires |end| >= 2 && !IsDigit(end[|end| - 2])
    ensures HopsOf(lead + end) == None
  {
    hide HopsMark, NamesSomePost, Value;
    var line := lead + end;
    assert line[|line| - 2] == end[|end| - 2];
    assert Ends(line, "]") ==> line[..|line| - 1][|line| - 2] == line[|line| - 2];
  }

  lemma {:induction false} AllHopsExactly(lines: seq<string>, hops: nat)
    ensures hops in AllHops(lines) <==> exists line :: line in lines && HopsOf(line) == Some(hops)
  {
    hide HopsOf;
    if lines != [] {
      AllHopsExactly(lines[1..], hops);
      assert lines == [lines[0]] + lines[1..];
    }
  }

  lemma AllHopsConcat(a: seq<string>, b: seq<string>, hops: nat)
    ensures hops in AllHops(a + b) <==> hops in AllHops(a) || hops in AllHops(b)
  {
    hide HopsOf, AllHops;
    AllHopsExactly(a, hops);
    AllHopsExactly(b, hops);
    AllHopsExactly(a + b, hops);
  }

  lemma EnvelopeHops(part: Part, hops: nat)
    ensures hops in AllHops(Envelope(part)) <==> hops == part.hops || Quotes(part, hops)
  {
    hide HopsOf, AllHops, HeaderLine;
    EmptyIsNoHeader();
    AllHopsExactly(Envelope(part), hops);
    HeaderLineReads(part);
    assert Envelope(part) == [HeaderLine(part), ""] + (part.text + part.frame.context);
  }

  lemma {:induction false} MembersHops(parts: seq<Part>, from: nat, hops: nat)
    requires from <= |parts|
    ensures hops in AllHops(Members(parts, from)) <==>
            exists k :: from <= k < |parts| && (hops == parts[k].hops || Quotes(parts[k], hops))
    decreases |parts| - from
  {
    hide HopsOf, AllHops, Quotes, Envelope, PlaceLine;
    if from == |parts| {
      AllHopsExactly([], hops);
    } else {
      var lines := ["", PlaceLine(parts[from], from + 1, |parts|), ""];
      PlaceIsNoHeader(parts[from], from + 1, |parts|);
      AllHopsExactly(lines, hops);
      EnvelopeHops(parts[from], hops);
      MembersHops(parts, from + 1, hops);
      AllHopsConcat(lines, Envelope(parts[from]), hops);
      AllHopsConcat(lines + Envelope(parts[from]), Members(parts, from + 1), hops);
    }
  }

  lemma EmptyIsNoHeader()
    ensures HopsOf("") == None
  {
  }

  lemma PlaceIsNoHeader(part: Part, place: nat, count: nat)
    ensures HopsOf(PlaceLine(part, place, count)) == None && HopsOf("") == None
  {
    hide AgeEnd, Decimal, HopsOf;
    NoHops("[" + Decimal(place) + " of " + Decimal(count) + ", written " + part.frame.age, AgeEnd());
    EmptyIsNoHeader();
  }

  /**
   * A post sent at once shows the reader its own hops. In an input whose posts waited, the reader finds each post's
   * hops and, as well, those of every line of their texts and context that has a header's form.
   */
  lemma InputHeaders(form: Form, parts: seq<Part>, hops: nat)
    requires parts != [] && (form != Bundled ==> |parts| == 1)
    ensures hops in Headers(Input(form, parts)) <==>
            exists k :: 0 <= k < |parts| && (hops == parts[k].hops || (form != AtOnce && Quotes(parts[k], hops)))
  {
    hide HopsOf, AllHops, Quotes, HeaderLine, AgeLine, CountLine, PlaceLine, SaysWaited;
    var lines := Input(form, parts);
    match form {
      case AtOnce =>
        HeaderLineReads(parts[0]);
      case Aged =>
        FirstLines(parts[0], |parts|);
        AllHopsExactly([AgeLine(parts[0]), ""], hops);
        AllHopsConcat([AgeLine(parts[0]), ""], Envelope(parts[0]), hops);
        EnvelopeHops(parts[0], hops);
        assert Headers(lines) == AllHops(lines);
      case Bundled =>
        FirstLines(parts[0], |parts|);
        AllHopsExactly([CountLine(parts[0], |parts|)], hops);
        AllHopsConcat([CountLine(parts[0], |parts|)], Members(parts, 0), hops);
        MembersHops(parts, 0, hops);
        assert Headers(lines) == AllHops(lines);
    }
  }

  lemma FirstLines(part: Part, count: nat)
    ensures HopsOf(AgeLine(part)) == None && SaysWaited(AgeLine(part)) && HopsOf("") == None
    ensures HopsOf(CountLine(part, count)) == None && SaysWaited(CountLine(part, count))
  {
    hide AgeEnd, CountEnd, Decimal, HopsOf, WrittenMark, CountMark, SaysWaited;
    EmptyIsNoHeader();
    NoHops(WrittenMark() + part.frame.age, AgeEnd());
    AgeSaysWaited(part.frame.age + AgeEnd());
    assert AgeLine(part) == WrittenMark() + (part.frame.age + AgeEnd());
    NoHops("[" + Decimal(count) + CountMark() + part.frame.room, CountEnd());
    CountSaysWaited(count, part.frame.room + CountEnd());
    assert CountLine(part, count) == "[" + (Decimal(count) + (CountMark() + (part.frame.room + CountEnd())));
  }

  lemma AgeSaysWaited(tail: string)
    ensures SaysWaited(WrittenMark() + tail)
  {
    hide WrittenMark, Starts;
    StartsMeans("", WrittenMark(), tail);
  }

  lemma CountSaysWaited(count: nat, tail: string)
    ensures SaysWaited("[" + (Decimal(count) + (CountMark() + tail)))
  {
    hide WrittenMark, CountMark, Starts, Decimal;
    var digits := Decimal(count);
    StartsMeans("", "[", digits + (CountMark() + tail));
    DigitsToAt(digits, CountMark() + tail);
    StartsMeans("", digits, CountMark() + tail);
    StartsMeans("", CountMark(), tail);
  }
}
