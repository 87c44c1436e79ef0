/**
 * A reader of delta lines, as much of JSON as `JSON.stringify` writes of one. It shows that a parse which reads back
 * every delta line exists: no two deltas are written alike.
 */
module DeltaReader {
  import opened Utf8
  import opened LineDiff
  import opened LineTransform
  import opened LineDelta
  import opened LineDeltaRoundTrip
  import opened Options

  const LETTER_U: CodeUnit := 0x75
  const COMMA: CodeUnit := 0x2C
  const OPEN: CodeUnit := 0x5B
  const CLOSE: CodeUnit := 0x5D

  /** A value read, and the text after it. */
  datatype Reading<T> = Nothing | Read(value: T, rest: Text)

  // Strings

  function HexValue(u: CodeUnit): Option<nat> {
    if 0x30 <= u <= 0x39 then Some(u - 0x30) else if 0x61 <= u <= 0x66 then Some(u - 0x61 + 10) else None
  }

  function Unescaped(letter: CodeUnit): Option<CodeUnit> {
    if letter == 0x62 then Some(8) else if letter == 0x74 then Some(9) else if letter == 0x6E then Some(10)
    else if letter == 0x66 then Some(12) else if letter == 0x72 then Some(13)
    else if letter == QUOTE || letter == BACKSLASH then Some(letter) else None
  }

  /** Four hexadecimal digits. */
  function ReadHex(text: Text): (read: Reading<CodeUnit>)
    ensures read.Read? ==> |read.rest| < |text|
  {
    if |text| < 4 then Nothing
    else
      var a, b, c, d := HexValue(text[0]), HexValue(text[1]), HexValue(text[2]), HexValue(text[3]);
      if a == None || b == None || c == None || d == None then Nothing
      else Read(a.value * 0x1000 + b.value * 0x100 + c.value * 0x10 + d.value, text[4..])
  }

  function ReadUnit(text: Text): (read: Reading<CodeUnit>)
    ensures read.Read? ==> |read.rest| < |text|
  {
    if text == [] || text[0] < 0x20 then Nothing
    else if text[0] != BACKSLASH then Read(text[0], text[1..])
    else if |text| == 1 then Nothing
    else if text[1] == LETTER_U then ReadHex(text[2..])
    else if Unescaped(text[1]).Some? then Read(Unescaped(text[1]).value, text[2..])
    else Nothing
  }

  /** The rest of a string whose opening quote is read. */
  function ReadString(text: Text): (read: Reading<Text>)
    ensures read.Read? ==> |read.rest| < |text|
    decreases |text|
  {
    if text == [] then Nothing
    else if text[0] == QUOTE then Read([], text[1..])
    else
      var first := ReadUnit(text);
      if first.Nothing? then Nothing
      else
        var more := ReadString(first.rest);
        if more.Nothing? then Nothing else Read([first.value] + more.value, more.rest)
  }

  lemma HexReads(u: CodeUnit, tail: Text)
    ensures ReadHex(UnicodeEscape(u)[2..] + tail) == Read(u, tail)
  {
    var a, b, c, d := u / 0x1000, u / 0x100 % 16, u / 0x10 % 16, u % 16;
    HexDigitReads(a);
    HexDigitReads(b);
    HexDigitReads(c);
    HexDigitReads(d);
    HexDigitsAdd(u);
    assert UnicodeEscape(u)[2..] == [HexDigit(a), HexDigit(b), HexDigit(c), HexDigit(d)];
    hide HexDigit, HexValue, UnicodeEscape;
    var text := [HexDigit(a), HexDigit(b), HexDigit(c), HexDigit(d)] + tail;
    assert text[4..] == tail;
  }

  lemma HexDigitsAdd(u: CodeUnit)
    ensures u / 0x1000 < 16
    ensures u == u / 0x1000 * 0x1000 + u / 0x100 % 16 * 0x100 + u / 0x10 % 16 * 0x10 + u % 16
  {
    assert u / 0x100 == u / 0x1000 * 16 + u / 0x100 % 16;
    assert u / 0x10 == u / 0x100 * 16 + u / 0x10 % 16;
    assert u == u / 0x10 * 16 + u % 16;
  }

  lemma HexDigitReads(d: nat)
    requires d < 16
    ensures HexValue(HexDigit(d)) == Some(d)
  {
  }

  lemma UnitReads(u: CodeUnit, tail: Text)
    ensures ReadUnit(EscapeUnit(u) + tail) == Read(u, tail)
  {
    hide UnicodeEscape, ReadHex;
    var text := EscapeUnit(u) + tail;
    assert text[0] == EscapeUnit(u)[0];
    if EscapeUnit(u) == [u] {
      assert text[1..] == tail;
    } else if ShortEscape(u) != 0 {
      assert text[1] == ShortEscape(u) && text[2..] == tail;
    } else {
      UnicodeOpens(u);
      assert text[1] == LETTER_U && text[2..] == UnicodeEscape(u)[2..] + tail;
      HexReads(u, tail);
    }
  }

  lemma UnicodeOpens(u: CodeUnit)
    ensures UnicodeEscape(u)[0] == BACKSLASH && UnicodeEscape(u)[1] == LETTER_U
  {
  }

  lemma PlainReads(u: CodeUnit, tail: Text)
    requires u >= 0x20 && u != BACKSLASH
    ensures ReadUnit([u] + tail) == Read(u, tail)
  {
    assert ([u] + tail)[1..] == tail;
  }

  lemma StringStep(text: Text, u: CodeUnit, tail: Text, more: Text, rest: Text)
    requires text != [] && text[0] != QUOTE && ReadUnit(text) == Read(u, tail) && ReadString(tail) == Read(more, rest)
    ensures ReadString(text) == Read([u] + more, rest)
  {
  }

  lemma EscapeOpens(u: CodeUnit)
    ensures EscapeUnit(u)[0] != QUOTE
  {
  }

  /** A string written comes back, whatever units it holds. */
  lemma {:induction false} StringReads(value: Text, rest: Text)
    ensures ReadString(Escaped(value) + [QUOTE] + rest) == Read(value, rest)
    decreases |value|
  {
    hide ReadUnit, EscapeUnit, ReadString;
    if value == [] {
      EmptyReads(rest);
      assert Escaped(value) + [QUOTE] + rest == [QUOTE] + rest;
    } else if StartsWithPair(value) {
      var more := Escaped(value[2..]) + [QUOTE] + rest;
      StringReads(value[2..], rest);
      PlainReads(value[1], more);
      StringStep([value[1]] + more, value[1], more, value[2..], rest);
      PlainReads(value[0], [value[1]] + more);
      StringStep([value[0]] + ([value[1]] + more), value[0], [value[1]] + more, [value[1]] + value[2..], rest);
      assert Escaped(value) + [QUOTE] + rest == [value[0]] + ([value[1]] + more);
      assert [value[0]] + ([value[1]] + value[2..]) == value;
    } else {
      var more := Escaped(value[1..]) + [QUOTE] + rest;
      StringReads(value[1..], rest);
      UnitReads(value[0], more);
      EscapeOpens(value[0]);
      StringStep(EscapeUnit(value[0]) + more, value[0], more, value[1..], rest);
      assert Escaped(value) + [QUOTE] + rest == EscapeUnit(value[0]) + more;
      assert [value[0]] + value[1..] == value;
    }
  }

  lemma EmptyReads(rest: Text)
    ensures ReadString([QUOTE] + rest) == Read([], rest)
  {
    assert ([QUOTE] + rest)[1..] == rest;
  }

  // Numbers

  predicate IsDigit(u: CodeUnit) {
    0x30 <= u <= 0x39
  }

  /** A run of digits, after those that made `so`. */
  function ReadNumber(text: Text, so: nat): (read: Reading<nat>)
    ensures read.Read? && |read.rest| <= |text|
  {
    if text == [] || !IsDigit(text[0]) then Read(so, text) else ReadNumber(text[1..], so * 10 + (text[0] - 0x30))
  }

  function Shifted(so: nat, n: nat): nat {
    if n < 10 then so * 10 + n else Shifted(so, n / 10) * 10 + n % 10
  }

  lemma {:induction false} ShiftedNothing(n: nat)
    ensures Shifted(0, n) == n
  {
    if n >= 10 {
      ShiftedNothing(n / 10);
    }
  }

  lemma DigitReads(d: nat, so: nat, rest: Text)
    requires d < 10
    ensures ReadNumber([0x30 + d] + rest, so) == ReadNumber(rest, so * 10 + d)
  {
    assert ([0x30 + d] + rest)[1..] == rest;
  }

  lemma {:induction false} DigitsRead(n: nat, so: nat, rest: Text)
    ensures ReadNumber(Decimal(n) + rest, so) == ReadNumber(rest, Shifted(so, n))
  {
    hide ReadNumber;
    if n < 10 {
      DigitReads(n, so, rest);
    } else {
      var digit := [0x30 + n % 10];
      DigitsRead(n / 10, so, digit + rest);
      DigitReads(n % 10, Shifted(so, n / 10), rest);
      assert Decimal(n) + rest == Decimal(n / 10) + (digit + rest);
    }
  }

  lemma NumberReads(n: nat, rest: Text)
    requires rest != [] && !IsDigit(rest[0])
    ensures ReadNumber(Decimal(n) + rest, 0) == Read(n, rest)
  {
    DigitsRead(n, 0, rest);
    ShiftedNothing(n);
  }

  // Operations

  function ReadOp(text: Text): (read: Reading<DeltaOp>)
    ensures read.Read? ==> |read.rest| < |text|
  {
    if text == [] then Nothing
    else if text[0] == QUOTE then
      var inserted := ReadString(text[1..]);
      if inserted.Read? then Read(Insert(inserted.value), inserted.rest) else Nothing
    else if text[0] == OPEN then
      var start := ReadNumber(text[1..], 0);
      if start.rest == [] || start.rest[0] != COMMA then Nothing
      else
        var length := ReadNumber(start.rest[1..], 0);
        if length.rest == [] || length.rest[0] != CLOSE then Nothing
            else Read(Copy(start.value, length.value), length.rest[1..])
    else Nothing
  }

  /** Operations with commas between them, to the bracket that closes them. */
  function ReadOps(text: Text): (read: Reading<seq<DeltaOp>>)
    ensures read.Read? ==> |read.rest| < |text|
    decreases |text|
  {
    var first := ReadOp(text);
    if first.Nothing? || first.rest == [] then Nothing
    else if first.rest[0] == CLOSE then Read([first.value], first.rest[1..])
    else if first.rest[0] == COMMA then
      var more := ReadOps(first.rest[1..]);
      if more.Read? then Read([first.value] + more.value, more.rest) else Nothing
    else Nothing
  }

  lemma OpReads(op: DeltaOp, rest: Text)
    ensures ReadOp(OpJson(op) + rest) == Read(op, rest)
  {
    match op
    case Insert(text) =>
      InsertReads(text, rest);
    case Copy(start, length) =>
      CopyReads(start, length, rest);
  }

  lemma InsertReads(text: Text, rest: Text)
    ensures ReadOp(OpJson(Insert(text)) + rest) == Read(Insert(text), rest)
  {
    hide ReadString, Escaped;
    StringReads(text, rest);
    var all := OpJson(Insert(text)) + rest;
    assert all[1..] == Escaped(text) + [QUOTE] + rest;
  }

  lemma CopyReads(start: nat, length: nat, rest: Text)
    ensures ReadOp(OpJson(Copy(start, length)) + rest) == Read(Copy(start, length), rest)
  {
    var close, comma := [CLOSE] + rest, [COMMA] + (Decimal(length) + ([CLOSE] + rest));
    CopyJson(start, length, rest);
    NumberReads(length, close);
    NumberReads(start, comma);
    hide ReadNumber, Decimal;
    var all := [OPEN] + (Decimal(start) + comma);
    assert all[1..] == Decimal(start) + comma && comma[1..] == Decimal(length) + close && close[1..] == rest;
  }

  lemma CopyJson(start: nat, length: nat, rest: Text)
    ensures OpJson(Copy(start, length)) + rest ==
        [OPEN] + (Decimal(start) + ([COMMA] + (Decimal(length) + ([CLOSE] + rest))))
  {
    Brackets();
    hide Decimal, Ascii;
    assert OpJson(Copy(start, length)) == [OPEN] + Decimal(start) + [COMMA] + Decimal(length) + [CLOSE];
    Bracketed([OPEN], Decimal(start), [COMMA], Decimal(length), [CLOSE], rest);
  }

  lemma Bracketed(a: Text, b: Text, c: Text, d: Text, e: Text, rest: Text)
    ensures a + b + c + d + e + rest == a + (b + (c + (d + (e + rest))))
  {
    assert a + b + c + d + e + rest == a + b + c + d + (e + rest);
    assert a + b + c + d + (e + rest) == a + b + c + (d + (e + rest));
  }

  lemma Brackets()
    ensures Ascii("[") == [OPEN] && Ascii(",") == [COMMA] && Ascii("]") == [CLOSE]
  {
  }

  lemma {:induction false} OpsRead(ops: seq<DeltaOp>, rest: Text)
    requires ops != []
    ensures ReadOps(OpsJson(ops) + [CLOSE] + rest) == Read(ops, rest)
    decreases |ops|
  {
    hide *;
    var tail := [CLOSE] + rest;
    if |ops| == 1 {
      OpReads(ops[0], tail);
      LastRead(OpJson(ops[0]) + tail, ops[0], rest);
      OneOp(ops);
      assert OpJson(ops[0]) + [CLOSE] + rest == OpJson(ops[0]) + tail;
    } else {
      var more := OpsJson(ops[1..]) + [CLOSE] + rest;
      OpReads(ops[0], [COMMA] + more);
      OpsRead(ops[1..], rest);
      MoreRead(OpJson(ops[0]) + ([COMMA] + more), ops[0], more, ops[1..], rest);
      MoreOps(ops);
      Bracketed(OpJson(ops[0]), [COMMA], OpsJson(ops[1..]), [CLOSE], [], rest);
      assert [CLOSE] + ([] + rest) == tail && OpsJson(ops[1..]) + tail == more;
      assert OpJson(ops[0]) + [COMMA] + OpsJson(ops[1..]) + [CLOSE] + [] ==
          OpJson(ops[0]) + [COMMA] + OpsJson(ops[1..]) + [CLOSE];
    }
  }

  lemma LastRead(text: Text, op: DeltaOp, rest: Text)
    requires ReadOp(text) == Read(op, [CLOSE] + rest)
    ensures ReadOps(text) == Read([op], rest)
  {
    assert ([CLOSE] + rest)[1..] == rest;
  }

  lemma MoreRead(text: Text, op: DeltaOp, more: Text, ops: seq<DeltaOp>, rest: Text)
    requires ReadOp(text) == Read(op, [COMMA] + more) && ReadOps(more) == Read(ops, rest)
    ensures ReadOps(text) == Read([op] + ops, rest)
  {
    hide ReadOp;
    assert ([COMMA] + more)[1..] == more;
  }

  lemma OneOp(ops: seq<DeltaOp>)
    requires |ops| == 1
    ensures OpsJson(ops) == OpJson(ops[0]) && ops == [ops[0]]
  {
  }

  lemma MoreOps(ops: seq<DeltaOp>)
    requires |ops| > 1
    ensures OpsJson(ops) == OpJson(ops[0]) + [COMMA] + OpsJson(ops[1..]) && ops == [ops[0]] + ops[1..]
  {
    Brackets();
    hide OpJson, Ascii;
  }

  lemma OpsOpen(ops: seq<DeltaOp>)
    requires ops != []
    ensures OpsJson(ops) != [] && OpsJson(ops)[0] != CLOSE
  {
    Brackets();
    hide Ascii, Decimal, Escaped;
    assert OpJson(ops[0]) != [] && OpJson(ops[0])[0] != CLOSE;
  }

  // A whole line

  function ReadList(text: Text): Reading<seq<DeltaOp>> {
    if text != [] && text[0] == CLOSE then Read([], text[1..]) else ReadOps(text)
  }

  function Between(): Text {
    Ascii(",\"ops\":[")
  }

  function Closing(): Text {
    Ascii("}") + [NEWLINE]
  }

  function ParseDelta(line: Text): Parsed {
    if !(DeltaStart() <= line) then Unusable
    else
      var id := ReadString(line[|DeltaStart()|..]);
      if id.Nothing? || !(Between() <= id.rest) then Unusable
      else
        var ops := ReadList(id.rest[|Between()|..]);
        if ops.Read? && ops.rest == Closing() then Delta(id.value, ops.value) else Unusable
  }

  lemma ListReads(ops: seq<DeltaOp>, rest: Text)
    ensures ReadList(OpsJson(ops) + [CLOSE] + rest) == Read(ops, rest)
  {
    hide ReadOps, OpsJson;
    if ops == [] {
      NoOps();
      assert [] + [CLOSE] + rest == [CLOSE] + rest && ([CLOSE] + rest)[1..] == rest;
    } else {
      OpsOpen(ops);
      OpsRead(ops, rest);
    }
  }

  lemma NoOps()
    ensures OpsJson([]) == []
  {
  }

  lemma WholeLine(id: Text, ops: seq<DeltaOp>)
    ensures Stringify(id, ops) + [NEWLINE]
            == DeltaStart() + (Escaped(id) + [QUOTE] + (Between() + (OpsJson(ops) + [CLOSE] + Closing())))
  {
    hide DeltaStart, Escaped, OpsJson;
    assert Ascii("]}") == [CLOSE] + Ascii("}");
  }

  lemma LineReads(id: Text, ops: seq<DeltaOp>)
    ensures ParseDelta(Stringify(id, ops) + [NEWLINE]) == Delta(id, ops)
  {
    hide *;
    WholeLine(id, ops);
    var list := OpsJson(ops) + [CLOSE] + Closing();
    StringReads(id, Between() + list);
    ListReads(ops, Closing());
    PartsRead(id, ops, list);
  }

  lemma PartsRead(id: Text, ops: seq<DeltaOp>, list: Text)
    requires ReadString(Escaped(id) + [QUOTE] + (Between() + list)) == Read(id, Between() + list)
    requires ReadList(list) == Read(ops, Closing())
    ensures ParseDelta(DeltaStart() + (Escaped(id) + [QUOTE] + (Between() + list))) == Delta(id, ops)
  {
    hide ReadString, ReadList, DeltaStart, Between, Escaped;
    var body := Escaped(id) + [QUOTE] + (Between() + list);
    assert (DeltaStart() + body)[|DeltaStart()|..] == body;
    assert (Between() + list)[|Between()|..] == list;
  }

  /** There is a parse that reads back what is written, for every session id and all operations. */
  lemma ReadsItBack()
    ensures ReadsBack(ParseDelta)
  {
    forall id, ops
      ensures ParseDelta(Stringify(id, ops) + [NEWLINE]) == Delta(id, ops)
    {
      LineReads(id, ops);
    }
  }

  /** With that reader for `JSON.parse` the round trip holds with nothing assumed. */
  lemma ReaderRoundTrip(stream: Bytes)
    requires NoDeltaHeads(Lines(stream))
    ensures var sent := Whole(Encoder(), map[], stream);
            var got := Whole(Decoder(ParseDelta), map[], sent.out);
            !sent.threw && !got.threw && (got.out == stream <==> NoneGarbled(Lines(stream)))
  {
    hide *;
    ReadsItBack();
    RoundTrip(ParseDelta, stream);
  }
}
