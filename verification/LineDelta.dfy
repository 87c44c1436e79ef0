/**
 * The relay's line deltas: the encoder sends a session's update line as a delta against its previous one when that is
 * shorter, and the decoder rebuilds the bytes. Both are `LineTransform` streams that keep one base text per session.
 */
module LineDelta {
  import opened Utf8
  import opened LineDiff
  import opened LineTransform

  const QUOTE: CodeUnit := 0x22
  const BACKSLASH: CodeUnit := 0x5C

  ghost predicate IsAscii(text: Text) {
    forall i :: 0 <= i < |text| ==> 0x20 <= text[i] < 0x80
  }

  /** A literal of printable ASCII characters. */
  function Ascii(s: string): (text: Text)
    ensures |text| == |s| && IsAscii(text)
    ensures forall i :: 0 <= i < |s| && ' ' <= s[i] < '\U{80}' ==> text[i] == s[i] as int
  {
    seq(|s|, i requires 0 <= i < |s| => if ' ' <= s[i] < '\U{80}' then s[i] as int else 0x3F)
  }

  // The heads the two regular expressions read

  function SessionStart(): (text: Text)
    ensures IsAscii(text) && |text| == 43
  {
    Ascii("{\"type\":\"session_event\",\"activeSessionId\":\"")
  }

  function SessionMiddle(): (text: Text)
    ensures IsAscii(text) && |text| == 19
  {
    Ascii("\",\"event\":{\"type\":\"")
  }

  function UpdateType(): (text: Text)
    ensures IsAscii(text) && |text| == 14
  {
    Ascii("message_update")
  }

  function EndType(): (text: Text)
    ensures IsAscii(text) && |text| == 11
  {
    Ascii("message_end")
  }

  function DeltaStart(): (text: Text)
    ensures IsAscii(text) && |text| == 52
  {
    Ascii("{\"type\":\"prime_relay_line_delta\",\"activeSessionId\":\"")
  }


  datatype SessionHead = NoSession | Session(id: Text, ends: bool)

  /** Where a run of units other than `"` and `\` from `at` on stops. */
  function IdEnd(text: Text, at: nat): (end: nat)
    requires at <= |text|
    ensures at <= end <= |text|
    ensures forall i :: at <= i < end ==> text[i] != QUOTE && text[i] != BACKSLASH
    ensures end < |text| ==> text[end] == QUOTE || text[end] == BACKSLASH
    decreases |text| - at
  {
    if at == |text| || text[at] == QUOTE || text[at] == BACKSLASH then at else IdEnd(text, at + 1)
  }

  function SessionOf(head: Text): SessionHead {
    if !(SessionStart() <= head) then NoSession
    else
      var end := IdEnd(head, |SessionStart()|);
      var id, rest := head[|SessionStart()|..end], head[end..];
      if id == [] then NoSession
      else if SessionMiddle() + UpdateType() <= rest then Session(id, false)
      else if SessionMiddle() + EndType() <= rest then Session(id, true)
      else NoSession
  }

  predicate IsDelta(head: Text) {
    DeltaStart() <= head
    && var end := IdEnd(head, |DeltaStart()|);
       end > |DeltaStart()| && end < |head| && head[end] == QUOTE
  }

  predicate DeltaHeaded(line: Bytes) {
    IsDelta(Decode(Head(line))) && SessionOf(Decode(Head(line))).NoSession?
  }

  // `JSON.stringify` of a delta

  function HexDigit(d: nat): CodeUnit
    requires d < 16
  {
    if d < 10 then 0x30 + d else 0x61 + (d - 10)
  }

  function UnicodeEscape(u: CodeUnit): (text: Text)
    ensures |text| == 6 && text[0] == BACKSLASH && forall i :: 0 <= i < 6 ==> 0x20 <= text[i] < 0x80
  {
    [BACKSLASH, 0x75, HexDigit(u / 0x1000), HexDigit(u / 0x100 % 16), HexDigit(u / 0x10 % 16), HexDigit(u % 16)]
  }

  function ShortEscape(u: CodeUnit): (letter: CodeUnit)
    ensures letter < 0x80
  {
    if u == 8 then 0x62 else if u == 9 then 0x74 else if u == 10 then 0x6E
    else if u == 12 then 0x66 else if u == 13 then 0x72
    else if u == QUOTE || u == BACKSLASH then u else 0
  }

  function EscapeUnit(u: CodeUnit): (text: Text)
    ensures text != []
    ensures u < 0x20 ==> text[0] == BACKSLASH
    ensures u >= 0x20 && u != QUOTE && u != BACKSLASH && !IsHigh(u) && !IsLow(u) ==> text == [u]
  {
    if ShortEscape(u) != 0 then [BACKSLASH, ShortEscape(u)]
    else if u < 0x20 || IsHigh(u) || IsLow(u) then UnicodeEscape(u)
    else [u]
  }

  /** A surrogate pair stays, and a surrogate alone is escaped. */
  function Escaped(text: Text): Text {
    if text == [] then []
    else if StartsWithPair(text) then text[..2] + Escaped(text[2..])
    else EscapeUnit(text[0]) + Escaped(text[1..])
  }

  function Quoted(text: Text): Text {
    [QUOTE] + Escaped(text) + [QUOTE]
  }

  function Decimal(n: nat): Text {
    if n < 10 then [0x30 + n] else Decimal(n / 10) + [0x30 + n % 10]
  }

  function OpJson(op: DeltaOp): Text {
    match op
    case Insert(text) => Quoted(text)
    case Copy(start, length) => Ascii("[") + Decimal(start) + Ascii(",") + Decimal(length) + Ascii("]")
  }

  function OpsJson(ops: seq<DeltaOp>): Text {
    if ops == [] then []
    else if |ops| == 1 then OpJson(ops[0])
    else OpJson(ops[0]) + Ascii(",") + OpsJson(ops[1..])
  }

  function Stringify(id: Text, ops: seq<DeltaOp>): Text {
    DeltaStart() + Escaped(id) + [QUOTE] + Ascii(",\"ops\":[") + OpsJson(ops) + Ascii("]}")
  }

  /** What a parse of a delta line's text gives: its session and operations, or nothing usable, which throws. */
  datatype Parsed = Unusable | Delta(id: Text, ops: seq<DeltaOp>)

  /**
   * `JSON.parse` is not modelled, only that it reads back what `JSON.stringify` wrote, with the line's newline after
   * it.
   */
  ghost predicate ReadsBack(parse: Text -> Parsed) {
    forall id, ops :: parse(Stringify(id, ops) + [NEWLINE]) == Delta(id, ops)
  }

  // The encoder and the decoder

  type Bases = map<Text, Text>

  function EncodeSwap(bases: Bases, line: Bytes): Swapped<Bases> {
    var session := SessionOf(Decode(Head(line)));
    var id := if session.Session? then session.id else [];
    if line == [] || line[|line| - 1] != NEWLINE || (session.Session? && session.ends) then Sent(bases - {id}, line)
    else
      var body := line[..|line| - 1];
      var text := Decode(body);
      var next := bases[id := text];
      if id !in bases || Encode(text) != body then Sent(next, line)
      else
        var ops := Diff(bases[id], text);
        var delta := Stringify(id, ops);
        Sent(next, if |delta| < |text| && Rebuilt(bases[id], ops) == text then Encode(delta + [NEWLINE]) else line)
  }

  function Encoder(): Rules<Bases> {
    Rules((head: Bytes) => SessionOf(Decode(head)).Session?, EncodeSwap)
  }

  function DecodeSwap(parse: Text -> Parsed, bases: Bases, line: Bytes): Swapped<Bases> {
    match SessionOf(Decode(Head(line)))
    case Session(id, ends) =>
      Sent(if line == [] || line[|line| - 1] != NEWLINE || ends then bases - {id}
           else bases[id := Decode(line[..|line| - 1])],
           line)
    case NoSession =>
      match parse(Decode(line))
      case Unusable => Threw
      case Delta(id, ops) =>
        if id !in bases then Threw
        else
          var text := Rebuilt(bases[id], ops);
          Sent(bases[id := text], Encode(text + [NEWLINE]))
  }

  function Decoder(parse: Text -> Parsed): Rules<Bases> {
    Rules((head: Bytes) => IsDelta(Decode(head)) || SessionOf(Decode(head)).Session?,
          (bases: Bases, line: Bytes) => DecodeSwap(parse, bases, line))
  }
}
