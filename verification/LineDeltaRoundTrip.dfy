/**
 * Why a client can rebuild the exact bytes of a stream from its line deltas, and the one kind of session id for which
 * it cannot.
 */
module LineDeltaRoundTrip {
  import opened Utf8
  import opened LineDiff
  import opened LineTransform
  import opened LineDelta

  // JSON text: printable, and an id stands in it as it is up to its first control character

  ghost predicate Printable(text: Text) {
    WellFormed(text) && forall i :: 0 <= i < |text| ==> text[i] >= 0x20
  }

  lemma {:induction false} WellFormedEnd(text: Text)
    requires WellFormed(text) && text != []
    ensures !IsHigh(text[|text| - 1])
  {
    var rest := text[Width(text)..];
    if rest != [] {
      WellFormedEnd(rest);
    }
  }

  lemma PrintableConcat(left: Text, right: Text)
    requires Printable(left) && Printable(right)
    ensures Printable(left + right)
  {
    if left != [] {
      WellFormedEnd(left);
    }
    EncodeConcat(left, right);
  }

  lemma PrintableAscii(text: Text)
    requires IsAscii(text)
    ensures Printable(text)
  {
    EncodeAscii(text);
  }

  lemma {:induction false} EscapedIsPrintable(text: Text)
    ensures Printable(Escaped(text))
  {
    if text == [] {
    } else if StartsWithPair(text) {
      EscapedIsPrintable(text[2..]);
      assert WellFormed(text[..2]) by {
        assert text[..2][2..] == [];
      }
      PrintableConcat(text[..2], Escaped(text[2..]));
    } else {
      EscapedIsPrintable(text[1..]);
      var escape := EscapeUnit(text[0]);
      if |escape| > 1 {
        PrintableAscii(escape);
      } else {
        assert escape[1..] == [];
      }
      PrintableConcat(escape, Escaped(text[1..]));
    }
  }

  lemma QuotedIsPrintable(text: Text)
    ensures Printable(Quoted(text))
  {
    EscapedIsPrintable(text);
    PrintableAscii([QUOTE]);
    PrintableConcat([QUOTE], Escaped(text));
    PrintableConcat([QUOTE] + Escaped(text), [QUOTE]);
  }

  lemma {:induction false} DecimalIsAscii(n: nat)
    ensures IsAscii(Decimal(n))
  {
    if n >= 10 {
      DecimalIsAscii(n / 10);
    }
  }

  lemma OpJsonIsPrintable(op: DeltaOp)
    ensures Printable(OpJson(op))
  {
    match op
    case Insert(text) => QuotedIsPrintable(text);
    case Copy(start, length) =>
      DecimalIsAscii(start);
      DecimalIsAscii(length);
      PrintableAscii(OpJson(op));
  }

  lemma {:induction false} OpsJsonIsPrintable(ops: seq<DeltaOp>)
    ensures Printable(OpsJson(ops))
  {
    if ops != [] {
      OpJsonIsPrintable(ops[0]);
      if |ops| > 1 {
        OpsJsonIsPrintable(ops[1..]);
        PrintableAscii(Ascii(","));
        PrintableConcat(OpJson(ops[0]), Ascii(","));
        PrintableConcat(OpJson(ops[0]) + Ascii(","), OpsJson(ops[1..]));
      }
    }
  }

  lemma StringifyIsPrintable(id: Text, ops: seq<DeltaOp>)
    ensures Printable(Stringify(id, ops)) && NEWLINE !in Stringify(id, ops)
  {
    assert forall text: Text :: Printable(text) ==> NEWLINE !in text;
    var opens, closes := Ascii(",\"ops\":["), Ascii("]}");
    PrintableAscii(DeltaStart());
    EscapedIsPrintable(id);
    PrintableAscii([QUOTE]);
    PrintableAscii(opens);
    OpsJsonIsPrintable(ops);
    PrintableAscii(closes);
    hide *;
    PrintableConcat(DeltaStart(), Escaped(id));
    PrintableConcat(DeltaStart() + Escaped(id), [QUOTE]);
    PrintableConcat(DeltaStart() + Escaped(id) + [QUOTE], opens);
    PrintableConcat(DeltaStart() + Escaped(id) + [QUOTE] + opens, OpsJson(ops));
    PrintableConcat(DeltaStart() + Escaped(id) + [QUOTE] + opens + OpsJson(ops), closes);
    StringifyParts(id, ops);
  }

  lemma StringifyParts(id: Text, ops: seq<DeltaOp>)
    ensures Stringify(id, ops) ==
        DeltaStart() + Escaped(id) + [QUOTE] + Ascii(",\"ops\":[") + OpsJson(ops) + Ascii("]}")
  {
  }

  /** An id the two regular expressions read: no quote, no backslash, and taken from well-formed text. */
  ghost predicate IsId(id: Text) {
    id != [] && WellFormed(id) && forall i :: 0 <= i < |id| ==> id[i] != QUOTE && id[i] != BACKSLASH
  }

  /** No control character, which JSON text would hold only as an escape. */
  ghost predicate Plain(id: Text) {
    forall i :: 0 <= i < |id| ==> id[i] >= 0x20
  }

  /** How many units an id has before its first control character. */
  function PlainLength(id: Text): (n: nat)
    ensures n <= |id| && Plain(id[..n]) && (n < |id| ==> id[n] < 0x20)
    ensures n == |id| <==> Plain(id)
  {
    if id == [] then 0
    else if id[0] < 0x20 then 0
    else
      var n := PlainLength(id[1..]);
      assert id[..n + 1] == [id[0]] + id[1..][..n];
      n + 1
  }

  /** JSON text holds an id as it is up to its first control character, which opens with a backslash. */
  lemma {:induction false} EscapedId(id: Text)
    requires WellFormed(id) && forall i :: 0 <= i < |id| ==> id[i] != QUOTE && id[i] != BACKSLASH
    ensures var n := PlainLength(id);
            if n == |id| then Escaped(id) == id else id[..n] + [BACKSLASH] <= Escaped(id)
  {
    hide *;
    if id == [] || id[0] < 0x20 {
      EscapedIdStop(id);
    } else {
      var w := Width(id);
      WellFormedRest(id);
      EscapedId(id[w..]);
      EscapedIdStep(id, w);
      Joined(id, w, PlainLength(id[w..]), Escaped(id[w..]));
    }
  }

  lemma Joined(id: Text, w: nat, n: nat, rest: Text)
    requires w <= |id| && n <= |id| - w
    requires if n == |id| - w then rest == id[w..] else id[w..][..n] + [BACKSLASH] <= rest
    ensures if w + n == |id| then id[..w] + rest == id else id[..w + n] + [BACKSLASH] <= id[..w] + rest
  {
    if w + n == |id| {
      assert id[..w] + id[w..] == id;
    } else {
      assert id[..w + n] + [BACKSLASH] == id[..w] + (id[w..][..n] + [BACKSLASH]);
    }
  }

  lemma WellFormedRest(text: Text)
    requires WellFormed(text) && text != []
    ensures WellFormed(text[Width(text)..])
  {
  }

  lemma EscapedIdStop(id: Text)
    requires id == [] || id[0] < 0x20
    ensures PlainLength(id) == 0
    ensures if id == [] then Escaped(id) == id else id[..0] + [BACKSLASH] <= Escaped(id)
  {
    hide EscapeUnit;
  }

  lemma EscapedIdStep(id: Text, w: nat)
    requires id != [] && WellFormed(id) && w == Width(id) && id[0] >= 0x20 && id[0] != QUOTE && id[0] != BACKSLASH
    ensures Escaped(id) == id[..w] + Escaped(id[w..])
    ensures PlainLength(id) == w + PlainLength(id[w..])
    ensures id == id[..w] + id[w..] && id[..PlainLength(id)] == id[..w] + id[w..][..PlainLength(id[w..])]
  {
    hide EscapeUnit;
    EscapedOnce(id, w);
    PlainOnce(id, w);
    hide *;
    TakeInTwo(id, w, |id|);
    TakeInTwo(id, w, PlainLength(id));
    assert id[..|id|] == id && id[w..][..|id| - w] == id[w..];
  }

  lemma EscapedOnce(id: Text, w: nat)
    requires id != [] && WellFormed(id) && w == Width(id) && id[0] >= 0x20 && id[0] != QUOTE && id[0] != BACKSLASH
    ensures Escaped(id) == id[..w] + Escaped(id[w..])
  {
    if w == 1 {
      EscapedUnit(id[0]);
      assert id[..w] == [id[0]];
    }
    hide EscapeUnit, PlainLength;
  }

  lemma EscapedUnit(u: CodeUnit)
    requires u >= 0x20 && u != QUOTE && u != BACKSLASH && !IsHigh(u) && !IsLow(u)
    ensures EscapeUnit(u) == [u]
  {
  }

  lemma PlainOnce(id: Text, w: nat)
    requires id != [] && w == Width(id) && id[0] >= 0x20
    ensures PlainLength(id) == w + PlainLength(id[w..])
  {
    hide Escaped, EscapeUnit, WellFormed;
    if w == 2 {
      assert id[1..][1..] == id[2..];
    }
  }

  // The head of a session line, and the head of a delta for the same session

  ghost function SessionText(id: Text): Text {
    SessionStart() + id + (SessionMiddle() + UpdateType())
  }

  /**
   * What a delta line for `id` opens with: as the decoder's expression wants it for a plain id, and a backslash too
   * early for any other.
   */
  ghost function DeltaOpening(id: Text): Text {
    var n := PlainLength(id);
    DeltaStart() + id[..n] + [if n == |id| then QUOTE else BACKSLASH]
  }

  lemma SessionHeadText(head: Text)
    requires SessionOf(head).Session? && !SessionOf(head).ends
    ensures SessionText(SessionOf(head).id) <= head
    ensures var id := SessionOf(head).id;
            id != [] && forall i :: 0 <= i < |id| ==> id[i] != QUOTE && id[i] != BACKSLASH
  {
    hide SessionOf, SessionStart, SessionMiddle, UpdateType, EndType;
    SessionHeadOpens(head);
  }

  ghost function Kind(ends: bool): Text {
    SessionMiddle() + (if ends then EndType() else UpdateType())
  }

  /** The session pattern's match, its id and its type, in a head and nowhere else. */
  lemma SessionHeadExactly(head: Text, id: Text, ends: bool)
    ensures SessionOf(head) == Session(id, ends) <==>
            && id != [] && (forall i :: 0 <= i < |id| ==> id[i] != QUOTE && id[i] != BACKSLASH)
            && SessionStart() + id + Kind(ends) <= head
  {
    hide SessionOf, SessionStart, Kind;
    if SessionOf(head) == Session(id, ends) {
      SessionHeadOpens(head);
    }
    if id != [] && (forall i :: 0 <= i < |id| ==> id[i] != QUOTE && id[i] != BACKSLASH) &&
        SessionStart() + id + Kind(ends) <= head {
      SessionHeadRead(head, id, ends);
    }
  }

  lemma SessionHeadOpens(head: Text)
    requires SessionOf(head).Session?
    ensures var session := SessionOf(head);
            && session.id != [] &&
                (forall i :: 0 <= i < |session.id| ==> session.id[i] != QUOTE && session.id[i] != BACKSLASH)
            && SessionStart() + session.id + Kind(session.ends) <= head
  {
    hide SessionStart, SessionMiddle, UpdateType, EndType, IdEnd;
    var s := |SessionStart()|;
    var id, rest := SessionOf(head).id, head[s + |SessionOf(head).id|..];
    SplitAt(head, s, s + |id|);
    assert Kind(SessionOf(head).ends) <= rest;
    Continues(SessionStart() + id, Kind(SessionOf(head).ends), rest);
  }

  lemma Continues(lead: Text, front: Text, whole: Text)
    requires front <= whole
    ensures lead + front <= lead + whole
  {
  }

  lemma SplitAt(text: Text, i: nat, j: nat)
    requires i <= j <= |text|
    ensures text == text[..i] + text[i..j] + text[j..]
  {
  }

  lemma SessionHeadRead(head: Text, id: Text, ends: bool)
    requires id != [] && (forall i :: 0 <= i < |id| ==> id[i] != QUOTE && id[i] != BACKSLASH)
    requires SessionStart() + id + Kind(ends) <= head
    ensures SessionOf(head) == Session(id, ends)
  {
    var s, kind := |SessionStart()|, Kind(ends);
    MiddleOpens();
    KindsDiffer(head[s + |id|..]);
    hide SessionStart, SessionMiddle, UpdateType, EndType;
    assert kind[0] == QUOTE;
    InPlace(SessionStart(), id, kind, head);
    IdEndAt(head, s, id);
  }

  lemma InPlace(lead: Text, id: Text, kind: Text, head: Text)
    requires lead + id + kind <= head
    ensures var s, e := |lead|, |lead| + |id|;
            && lead <= head && head[s..e] == id && kind <= head[e..]
            && (forall i :: 0 <= i < |id| ==> head[s + i] == id[i])
            && (kind != [] ==> e < |head| && head[e] == kind[0])
  {
    var opening := lead + id + kind;
    assert forall i :: 0 <= i < |opening| ==> head[i] == opening[i];
    assert head[|lead| + |id|..][..|kind|] == opening[|lead| + |id|..] == kind;
    assert lead == opening[..|lead|];
  }

  lemma MiddleOpens()
    ensures SessionMiddle()[0] == QUOTE
  {
    var middle := "\",\"event\":{\"type\":\"";
    assert middle[0] == '\"';
    assert Ascii(middle)[0] == '\"' as int;
  }

  lemma {:induction false} IdEndAt(text: Text, at: nat, id: Text)
    requires at + |id| < |text| &&
        (forall i :: 0 <= i < |id| ==> text[at + i] == id[i] && id[i] != QUOTE && id[i] != BACKSLASH)
    requires text[at + |id|] == QUOTE
    ensures IdEnd(text, at) == at + |id|
    decreases |id|
  {
    if id != [] {
      assert text[at] == id[0];
      forall i | 0 <= i < |id[1..]|
        ensures text[at + 1 + i] == id[1..][i] && id[1..][i] != QUOTE && id[1..][i] != BACKSLASH
      {
        assert id[1..][i] == id[i + 1] && text[at + (i + 1)] == id[i + 1];
      }
      IdEndAt(text, at + 1, id[1..]);
    }
  }

  /** No text goes on as both types. */
  lemma KindsDiffer(rest: Text)
    ensures !(SessionMiddle() + UpdateType() <= rest && SessionMiddle() + EndType() <= rest)
  {
    var update, end := "message_update", "message_end";
    assert update[8] == 'u' && end[8] == 'e';
    assert Ascii(update)[8] == 'u' as int && Ascii(end)[8] == 'e' as int;
    if SessionMiddle() + UpdateType() <= rest {
      assert rest[27] == (SessionMiddle() + UpdateType())[27] == UpdateType()[8];
    }
    if SessionMiddle() + EndType() <= rest {
      assert rest[27] == (SessionMiddle() + EndType())[27] == EndType()[8];
    }
  }

  lemma TypesDiffer()
    ensures SessionStart()[9] != DeltaStart()[9]
  {
    var session, delta := "{\"type\":\"session_event\",\"activeSessionId\":\"",
        "{\"type\":\"prime_relay_line_delta\",\"activeSessionId\":\"";
    assert session[9] == 's' && delta[9] == 'p';
    assert Ascii(session)[9] == 's' as int && Ascii(delta)[9] == 'p' as int;
  }

  lemma DeltaHead(head: Text, id: Text)
    requires IsId(id) && DeltaOpening(id) <= head
    ensures SessionOf(head).NoSession?
    ensures IsDelta(head) <==> Plain(id)
  {
    var n := PlainLength(id);
    var s, opening := |DeltaStart()|, DeltaOpening(id);
    TypesDiffer();
    assert head[9] == opening[9];
    assert head[s + n] == opening[s + n];
    forall i | s <= i < s + n ensures head[i] != QUOTE && head[i] != BACKSLASH {
      assert head[i] == opening[i] == id[i - s];
    }
    assert IdEnd(head, s) == s + n;
    assert DeltaStart() <= head;
  }

  lemma Regroup(start: Text, before: Text, mark: Text, after: Text, rest: Text)
    ensures start + (before + mark + after) + rest == (start + before + mark) + (after + rest)
  {
  }

  lemma DeltaOpens(id: Text, ops: seq<DeltaOp>)
    requires IsId(id)
    ensures DeltaOpening(id) <= Stringify(id, ops)
  {
    EscapedId(id);
    DeltaOpeningParts(id);
    var n, escaped := PlainLength(id), Escaped(id);
    var rest := Ascii(",\"ops\":[") + OpsJson(ops) + Ascii("]}");
    StringifySplit(id, ops, rest);
    hide *;
    if n == |id| {
      assert id[..n] == escaped;
      assert Stringify(id, ops) == DeltaOpening(id) + rest;
    } else {
      var after := escaped[n + 1..];
      assert escaped == id[..n] + [BACKSLASH] + after;
      Regroup(DeltaStart(), id[..n], [BACKSLASH], after, [QUOTE] + rest);
      assert Stringify(id, ops) == DeltaOpening(id) + (after + ([QUOTE] + rest));
    }
  }

  lemma StringifySplit(id: Text, ops: seq<DeltaOp>, rest: Text)
    requires rest == Ascii(",\"ops\":[") + OpsJson(ops) + Ascii("]}")
    ensures Stringify(id, ops) == DeltaStart() + Escaped(id) + [QUOTE] + rest
    ensures Stringify(id, ops) == DeltaStart() + Escaped(id) + ([QUOTE] + rest)
  {
    hide Escaped, OpsJson, Ascii;
  }

  lemma DeltaOpeningParts(id: Text)
    ensures DeltaOpening(id)
            == DeltaStart() + id[..PlainLength(id)] + [if PlainLength(id) == |id| then QUOTE else BACKSLASH]
  {
  }

  // Lengths

  lemma EncodedLength3(a: Text, b: Text, c: Text)
    requires IsAscii(a) && IsAscii(c)
    ensures |Encode(a + b + c)| == |a| + |Encode(b)| + |c|
    ensures WellFormed(a + b + c) <==> WellFormed(b)
  {
    EncodeAscii(a);
    EncodeAscii(c);
    EncodeConcat(a, b);
    EncodeConcat(a + b, c);
  }

  lemma PrefixLength(text: Text, k: nat)
    requires k <= |text| && WellFormed(text) && (k == 0 || k == |text| || text[k - 1] < 0x80 || text[k] < 0x80)
    ensures WellFormed(text[..k]) && |Encode(text[..k])| <= |Encode(text)|
  {
    EncodeConcat(text[..k], text[k..]);
    assert text == text[..k] + text[k..];
  }

  /** An opening that ends in an ASCII character and fits in the first bytes of a text is in what they read as. */
  lemma OpeningInHead(text: Text, opening: Text)
    requires WellFormed(text) && opening <= text && opening != [] && opening[|opening| - 1] < 0x80
    requires |Encode(opening)| <= HEAD_BYTES
    ensures opening <= Decode(Head(Encode(text)))
  {
    hide Encode, Decode, WellFormed;
    var n := if |Encode(text)| <= HEAD_BYTES then |Encode(text)| else HEAD_BYTES;
    assert Head(Encode(text)) == Encode(text)[..n];
    PrefixLength(text, |opening|);
    assert text[..|opening|] == opening;
    var k, tail := DecodeCut(text, n);
    assert Fits(text, |opening|, n);
    assert opening <= text[..k];
  }

  /** And what they read as, up to an ASCII character, is in the text and fits in those bytes. */
  lemma HeadInText(text: Text, opening: Text)
    requires WellFormed(text) && opening != [] && opening[|opening| - 1] < 0x80
    requires opening <= Decode(Head(Encode(text)))
    ensures opening <= text && |Encode(opening)| <= HEAD_BYTES && WellFormed(opening)
  {
    var n := if |Encode(text)| <= HEAD_BYTES then |Encode(text)| else HEAD_BYTES;
    assert Head(Encode(text)) == Encode(text)[..n];
    var k, tail := DecodeCut(text, n);
    hide Encode, Decode;
    BeforeTail(text, k, tail, opening);
    var m := |opening|;
    assert opening[m - 1] == text[..k][m - 1] && opening == text[..k][..m];
    PrefixLength(text[..k], m);
  }

  lemma BeforeTail(text: Text, k: nat, tail: Text, opening: Text)
    requires k <= |text| && (tail == [] || tail == [REPLACEMENT])
    requires opening != [] && opening[|opening| - 1] < 0x80 && opening <= text[..k] + tail
    ensures |opening| <= k && opening <= text[..k] && opening <= text
  {
    var m := |opening|;
    assert opening[m - 1] == (text[..k] + tail)[m - 1];
  }

  // One line through both sides

  /** What the encoder sends for a line, given its bases, and the bases it keeps. */
  ghost function EncodeLine(bases: Bases, line: Bytes): (sent: Swapped<Bases>)
    ensures sent.Sent?
  {
    if SessionOf(Decode(Head(line))).Session? then EncodeSwap(bases, line) else Sent(bases, line)
  }

  /** The session a line's head names, if any. */
  ghost function SessionId(line: Bytes): Text {
    var session := SessionOf(Decode(Head(line)));
    if session.Session? then session.id else []
  }

  ghost predicate SentAsDelta(bases: Bases, line: Bytes) {
    EncodeLine(bases, line).bytes != line
  }

  /** A delta went out for a session whose id holds a control character. */
  ghost predicate Garbled(bases: Bases, line: Bytes) {
    SentAsDelta(bases, line) && !Plain(SessionId(line))
  }

  /** Both sides hold the same base for every plain session id. */
  ghost predicate SameBases(encoder: Bases, decoder: Bases) {
    forall id: Text :: Plain(id) ==>
        (id in encoder <==> id in decoder) && (id in encoder ==> encoder[id] == decoder[id])
  }

  /** What is known of a line the encoder sent as a delta. */
  lemma DeltaSent(bases: Bases, line: Bytes) returns (id: Text, text: Text, ops: seq<DeltaOp>)
    requires IsLine(line) && SentAsDelta(bases, line)
    ensures SessionOf(Decode(Head(line))) == Session(id, false) && id in bases
    ensures WellFormed(text) && line == Encode(text) + [NEWLINE] && Rebuilt(bases[id], ops) == text
    ensures EncodeLine(bases, line) == Sent(bases[id := text], Encode(Stringify(id, ops) + [NEWLINE]))
  {
    hide Decode, Encode, SessionOf, Diff, Stringify, Rebuilt, WellFormed;
    id := SessionOf(Decode(Head(line))).id;
    text := Decode(line[..|line| - 1]);
    ops := Diff(bases[id], text);
    DecodedIsWellFormed(line[..|line| - 1]);
    assert line == line[..|line| - 1] + [NEWLINE];
  }

  lemma AddNewline(text: Text)
    requires WellFormed(text) || Printable(text)
    ensures Encode(text + [NEWLINE]) == Encode(text) + [NEWLINE] && WellFormed(text + [NEWLINE])
    ensures NEWLINE !in text ==> IsLine(Encode(text + [NEWLINE]))
  {
    EncodeConcat(text, [NEWLINE]);
    EncodeAscii([NEWLINE]);
    assert Encode([NEWLINE]) == [NEWLINE];
    var bytes := Encode(text) + [NEWLINE];
    assert bytes[..|bytes| - 1] == Encode(text);
    if NEWLINE in Encode(text) {
      EncodedNewline(text);
    }
  }

  lemma SessionIdFits(text: Text, id: Text)
    requires WellFormed(text) && SessionOf(Decode(Head(Encode(text)))) == Session(id, false)
    ensures IsId(id) && |Encode(id)| <= HEAD_BYTES - |SessionStart()| - |SessionMiddle() + UpdateType()|
  {
    SessionHeadText(Decode(Head(Encode(text))));
    SessionTextParts(id);
    hide *;
    HeadInText(text, SessionText(id));
    EncodedLength3(SessionStart(), id, SessionMiddle() + UpdateType());
    IdFromParts(id);
  }

  lemma SessionTextParts(id: Text)
    ensures SessionText(id) == SessionStart() + id + (SessionMiddle() + UpdateType())
    ensures IsAscii(SessionStart()) && IsAscii(SessionMiddle() + UpdateType())
    ensures var text := SessionText(id); text != [] && text[|text| - 1] < 0x80
  {
    hide SessionStart, SessionMiddle, UpdateType;
    var middle := SessionMiddle() + UpdateType();
    assert SessionText(id)[|SessionText(id)| - 1] == middle[|middle| - 1];
  }

  lemma IdFromParts(id: Text)
    requires id != [] && WellFormed(id) && forall i :: 0 <= i < |id| ==> id[i] != QUOTE && id[i] != BACKSLASH
    ensures IsId(id)
  {
  }

  lemma DeltaOpeningFits(id: Text)
    requires IsId(id) && |Encode(id)| <= HEAD_BYTES - |SessionStart()| - |SessionMiddle() + UpdateType()|
    ensures |Encode(DeltaOpening(id))| <= HEAD_BYTES
    ensures var opening := DeltaOpening(id); opening != [] && opening[|opening| - 1] < 0x80
  {
    var n := PlainLength(id);
    var mark: Text := [if n == |id| then QUOTE else BACKSLASH];
    PrefixLength(id, n);
    EncodedLength3(DeltaStart(), id[..n], mark);
  }

  /** The decoder reads a delta as one exactly when its session's id is plain. */
  lemma DeltaIsRead(bases: Bases, line: Bytes)
    requires IsLine(line) && SentAsDelta(bases, line)
    ensures var bytes := EncodeLine(bases, line).bytes;
            && IsLine(bytes)
            && SessionOf(Decode(Head(bytes))).NoSession?
            && (IsDelta(Decode(Head(bytes))) <==> Plain(SessionId(line)))
  {
    var id, text, ops := DeltaSent(bases, line);
    hide *;
    AddNewline(text);
    SessionIdFits(text + [NEWLINE], id);
    DeltaTextIsRead(id, ops);
  }

  lemma DeltaTextIsRead(id: Text, ops: seq<DeltaOp>)
    requires IsId(id) && |Encode(id)| <= HEAD_BYTES - |SessionStart()| - |SessionMiddle() + UpdateType()|
    ensures var bytes := Encode(Stringify(id, ops) + [NEWLINE]);
            && IsLine(bytes)
            && SessionOf(Decode(Head(bytes))).NoSession?
            && (IsDelta(Decode(Head(bytes))) <==> Plain(id))
  {
    hide *;
    var delta := Stringify(id, ops);
    DeltaOpeningFits(id);
    DeltaOpens(id, ops);
    StringifyIsPrintable(id, ops);
    AddNewline(delta);
    OpeningInHead(delta + [NEWLINE], DeltaOpening(id));
    DeltaHead(Decode(Head(Encode(delta + [NEWLINE]))), id);
  }

  ghost function DecodeLine(parse: Text -> Parsed, bases: Bases, line: Bytes): Swapped<Bases> {
    var head := Decode(Head(line));
    if IsDelta(head) || SessionOf(head).Session? then DecodeSwap(parse, bases, line) else Sent(bases, line)
  }

  /**
   * One line through the encoder and its output through the decoder: the decoder never throws, both sides keep the same
   * bases, and the line comes out as it went in unless its delta was garbled, when the delta itself comes out.
   */
  lemma LineComesBack(parse: Text -> Parsed, encoder: Bases, decoder: Bases, line: Bytes)
    requires ReadsBack(parse) && IsLine(line) && !DeltaHeaded(line) && SameBases(encoder, decoder)
    ensures var sent := EncodeLine(encoder, line);
            var got := DecodeLine(parse, decoder, sent.bytes);
            && IsLine(sent.bytes)
            && got.Sent? && SameBases(sent.state, got.state)
            && got.bytes == (if Garbled(encoder, line) then sent.bytes else line)
            && (encoder == decoder && !Garbled(encoder, line) ==> got.state == sent.state)
  {
    hide Decode, Encode, SessionOf, IsDelta, EncodeLine, DecodeLine, DecodeSwap, IsLine;
    if SentAsDelta(encoder, line) {
      DeltaIsRead(encoder, line);
      if Plain(SessionId(line)) {
        DeltaComesBack(parse, encoder, decoder, line);
      } else {
        GarbledComesThrough(parse, encoder, decoder, line);
      }
    } else {
      WholeLineComesBack(parse, encoder, decoder, line);
    }
  }

  lemma WholeLineComesBack(parse: Text -> Parsed, encoder: Bases, decoder: Bases, line: Bytes)
    requires IsLine(line) && !DeltaHeaded(line) && SameBases(encoder, decoder) && !SentAsDelta(encoder, line)
    ensures var sent := EncodeLine(encoder, line);
            var got := DecodeLine(parse, decoder, sent.bytes);
            && got.Sent? && got.bytes == line && SameBases(sent.state, got.state)
            && (encoder == decoder ==> got.state == sent.state)
  {
    hide Decode, Encode, SessionOf, IsDelta, Diff, Stringify, Rebuilt;
  }

  lemma DeltaComesBack(parse: Text -> Parsed, encoder: Bases, decoder: Bases, line: Bytes)
    requires ReadsBack(parse) && IsLine(line) && SameBases(encoder, decoder)
    requires SentAsDelta(encoder, line) && Plain(SessionId(line))
    ensures var sent := EncodeLine(encoder, line);
            var got := DecodeLine(parse, decoder, sent.bytes);
            && got.Sent? && got.bytes == line && SameBases(sent.state, got.state)
            && (encoder == decoder ==> got.state == sent.state)
  {
    hide Encode, Decode, SessionOf, IsDelta, Stringify, Rebuilt, EncodeLine, IsLine;
    var id, text, ops := DeltaSent(encoder, line);
    DeltaIsRead(encoder, line);
    StringifyIsPrintable(id, ops);
    AddNewline(Stringify(id, ops));
    AddNewline(text);
    DecodeEncode(Stringify(id, ops) + [NEWLINE]);
  }

  lemma GarbledComesThrough(parse: Text -> Parsed, encoder: Bases, decoder: Bases, line: Bytes)
    requires IsLine(line) && Garbled(encoder, line) && SameBases(encoder, decoder)
    ensures var sent := EncodeLine(encoder, line);
            var got := DecodeLine(parse, decoder, sent.bytes);
            got.Sent? && got.bytes == sent.bytes && SameBases(sent.state, got.state)
  {
    hide Encode, Decode, SessionOf, IsDelta, Stringify, Rebuilt, EncodeLine, IsLine;
    var id, text, ops := DeltaSent(encoder, line);
    DeltaIsRead(encoder, line);
  }

  // A whole stream through both sides

  ghost function EncodeBases(lines: seq<Bytes>): Bases {
    if lines == [] then map[] else EncodeLine(EncodeBases(lines[..|lines| - 1]), lines[|lines| - 1]).state
  }

  /** The lines the encoder sends, one for each line it got. */
  ghost function SentLines(lines: seq<Bytes>): (sent: seq<Bytes>)
    ensures |sent| == |lines|
  {
    if lines == [] then []
    else
      var front := lines[..|lines| - 1];
      SentLines(front) + [EncodeLine(EncodeBases(front), lines[|lines| - 1]).bytes]
  }

  ghost predicate GarbledAt(lines: seq<Bytes>, k: nat)
    requires k < |lines|
  {
    Garbled(EncodeBases(lines[..k]), lines[k])
  }

  /** The lines that come out of the decoder: the garbled ones as they were sent, every other one as it was. */
  ghost function GotLines(lines: seq<Bytes>): (got: seq<Bytes>)
    ensures |got| == |lines|
  {
    seq(|lines|, k requires 0 <= k < |lines| => if GarbledAt(lines, k) then SentLines(lines)[k] else lines[k])
  }

  ghost predicate NoDeltaHeads(lines: seq<Bytes>) {
    forall k :: 0 <= k < |lines| ==> !DeltaHeaded(lines[k])
  }

  lemma {:induction false} EncoderRuns(lines: seq<Bytes>)
    ensures RunLines(Encoder(), map[], lines) == Run(EncodeBases(lines), Flat(SentLines(lines)), false)
  {
    hide EncodeSwap, SessionOf, Decode;
    if lines != [] {
      var front, last := lines[..|lines| - 1], lines[|lines| - 1];
      EncoderRuns(front);
      FlatSnoc(SentLines(front), EncodeLine(EncodeBases(front), last).bytes);
    }
  }

  ghost predicate NoneGarbled(lines: seq<Bytes>) {
    forall k :: 0 <= k < |lines| ==> !GarbledAt(lines, k)
  }

  /** The decoder over what the encoder sent: what it has put out and kept after these lines. */
  ghost predicate Decodes(parse: Text -> Parsed, lines: seq<Bytes>) {
    var run := RunLines(Decoder(parse), map[], SentLines(lines));
    && AllLines(SentLines(lines))
    && run.out == Flat(GotLines(lines)) && !run.threw
    && SameBases(EncodeBases(lines), run.state)
    && (NoneGarbled(lines) ==> run.state == EncodeBases(lines))
  }

  lemma {:induction false} DecoderRuns(parse: Text -> Parsed, lines: seq<Bytes>)
    requires ReadsBack(parse) && AllLines(lines) && NoDeltaHeads(lines)
    ensures Decodes(parse, lines)
  {
    if lines == [] {
      DecodesNothing(parse);
    } else {
      var n := |lines| - 1;
      assert IsLine(lines[n]) && !DeltaHeaded(lines[n]);
      assert AllLines(lines[..n]) && NoDeltaHeads(lines[..n]);
      assert lines[..n] + [lines[n]] == lines;
      hide *;
      DecoderRuns(parse, lines[..n]);
      DecoderStep(parse, lines[..n], lines[n]);
    }
  }

  lemma DecodesNothing(parse: Text -> Parsed)
    ensures Decodes(parse, [])
  {
    assert GotLines([]) == [] && SentLines([]) == [];
    hide DecodeSwap;
  }

  lemma AddLine(lines: seq<Bytes>, line: Bytes)
    ensures var all, sent := lines + [line], EncodeLine(EncodeBases(lines), line);
            && EncodeBases(all) == sent.state
            && SentLines(all) == SentLines(lines) + [sent.bytes]
            && GotLines(all) == GotLines(lines) + [if Garbled(EncodeBases(lines), line) then sent.bytes else line]
            && (NoneGarbled(all) ==> NoneGarbled(lines) && !Garbled(EncodeBases(lines), line))
  {
    hide EncodeLine, Garbled;
    var all := lines + [line];
    assert all[..|lines|] == lines;
    forall k | 0 <= k < |lines| ensures GarbledAt(all, k) == GarbledAt(lines, k) {
      assert all[..k] == lines[..k];
    }
    if NoneGarbled(all) {
      assert !GarbledAt(all, |lines|);
    }
  }

  lemma DecoderStep(parse: Text -> Parsed, lines: seq<Bytes>, line: Bytes)
    requires ReadsBack(parse) && IsLine(line) && !DeltaHeaded(line) && Decodes(parse, lines)
    ensures Decodes(parse, lines + [line])
  {
    hide SessionOf, Decode, DecodeSwap, EncodeLine, IsLine, Garbled, SameBases, SentLines, GotLines, NoneGarbled,
        EncodeBases, Flat,
      ReadsBack, DeltaHeaded, IsDelta, RunLines;
    var before := RunLines(Decoder(parse), map[], SentLines(lines));
    var sent := EncodeLine(EncodeBases(lines), line);
    LineComesBack(parse, EncodeBases(lines), before.state, line);
    AddLine(lines, line);
    RunLinesSnoc(Decoder(parse), map[], SentLines(lines), sent.bytes);
    FlatSnoc(GotLines(lines), if Garbled(EncodeBases(lines), line) then sent.bytes else line);
  }

  /**
   * Encoding a stream and decoding the result, however either is cut into chunks: nothing throws, and the decoder's
   * bytes are the stream's exactly when no delta was sent for a session whose id holds a control character. Then both
   * sides also end with the same bases.
   */
  lemma RoundTrip(parse: Text -> Parsed, stream: Bytes)
    requires ReadsBack(parse) && NoDeltaHeads(Lines(stream))
    ensures var sent := Whole(Encoder(), map[], stream);
            var got := Whole(Decoder(parse), map[], sent.out);
            var clean := NoneGarbled(Lines(stream));
            && !sent.threw && !got.threw
            && (got.out == stream <==> clean)
            && (clean ==> got.state == sent.state)
  {
    var lines, rest := Lines(stream), Rest(stream);
    SplitIsExact(stream);
    EncoderRuns(lines);
    DecoderRuns(parse, lines);
    hide SessionOf, Decode, Encoder, Decoder, EncodeLine, IsLine, GarbledAt, SameBases, RunLines, Flat, Lines, Rest,
      GotLines, SentLines, NoneGarbled, EncodeBases, ReadsBack;
    SplitIsUnique(SentLines(lines), rest);
    GotWhole(lines);
    if !NoneGarbled(lines) {
      GarbledShows(parse, lines, rest);
    }
  }

  lemma GotWhole(lines: seq<Bytes>)
    ensures NoneGarbled(lines) ==> GotLines(lines) == lines
  {
    hide GarbledAt, SentLines;
  }

  /** A garbled line reaches the client as another line, so the bytes differ. */
  lemma GarbledShows(parse: Text -> Parsed, lines: seq<Bytes>, rest: Bytes)
    requires AllLines(lines) && AllLines(SentLines(lines)) && NEWLINE !in rest
    requires !NoneGarbled(lines)
    ensures Flat(GotLines(lines)) + rest != Flat(lines) + rest
  {
    hide Lines, Rest, Flat, IsLine, EncodeLine, Plain, SessionId;
    var k :| 0 <= k < |lines| && GarbledAt(lines, k);
    var got := GotLines(lines);
    SentLineAt(lines, k);
    assert got[k] != lines[k];
    hide GarbledAt, SentLines, GotLines;
    SplitIsUnique(got, rest);
    SplitIsUnique(lines, rest);
  }

  lemma {:induction false} SentLineAt(lines: seq<Bytes>, k: nat)
    requires k < |lines|
    ensures SentLines(lines)[k] == EncodeLine(EncodeBases(lines[..k]), lines[k]).bytes
  {
    hide EncodeLine, EncodeBases;
    var front := lines[..|lines| - 1];
    if k < |front| {
      SentLineAt(front, k);
      assert front[..k] == lines[..k];
    }
  }

  /**
   * With plain session ids, the client always rebuilds the exact bytes and never meets a delta with no earlier update.
   */
  lemma PlainIdsRoundTrip(parse: Text -> Parsed, stream: Bytes)
    requires ReadsBack(parse) && NoDeltaHeads(Lines(stream))
    requires forall line :: line in Lines(stream) ==> Plain(SessionId(line))
    ensures var sent := Whole(Encoder(), map[], stream);
            var got := Whole(Decoder(parse), map[], sent.out);
            got.out == stream && !got.threw && got.state == sent.state
  {
    var lines := Lines(stream);
    RoundTrip(parse, stream);
    forall k | 0 <= k < |lines| ensures !GarbledAt(lines, k) {
      assert lines[k] in lines;
    }
  }

  /** Two streams of the same bytes look the same to the other side, so chunking on either side changes nothing. */
  method SendAndReceive(parse: Text -> Parsed, chunks: seq<Bytes>, cut: Bytes -> seq<Bytes>) returns (got: Run<Bases>)
    requires ReadsBack(parse) && NoDeltaHeads(Lines(Flat(chunks)))
    requires forall bytes :: Flat(cut(bytes)) == bytes
    requires NoneGarbled(Lines(Flat(chunks)))
    ensures !got.threw && got.out == Flat(chunks)
  {
    var sent := Pump(Encoder(), map[], chunks);
    RoundTrip(parse, Flat(chunks));
    got := Pump(Decoder(parse), map[], cut(sent.out));
  }

  /** Why source lines with a delta's head are left out: a stream that opens with one is refused by the decoder. */
  lemma ForgedDeltaThrows(parse: Text -> Parsed, line: Bytes, rest: Bytes)
    requires IsLine(line) && DeltaHeaded(line) && NEWLINE !in rest
    ensures var sent := Whole(Encoder(), map[], line + rest);
            sent.out == line + rest && Whole(Decoder(parse), map[], sent.out).threw
  {
    OneLine(line, rest);
    hide *;
    OneLineRuns(Encoder(), map[], line, rest);
    OneLineRuns(Decoder(parse), map[], line, rest);
    HeadPasses(line);
    HeadThrows(parse, line);
  }

  lemma HeadPasses(line: Bytes)
    requires DeltaHeaded(line)
    ensures StepLine(Encoder(), Run(map[], [], false), line) == Run(map[], line, false)
  {
    hide SessionOf, Decode, IsDelta, EncodeSwap;
    assert [] + line == line;
  }

  lemma HeadThrows(parse: Text -> Parsed, line: Bytes)
    requires DeltaHeaded(line)
    ensures StepLine(Decoder(parse), Run(map[], [], false), line) == Run(map[], [], true)
  {
    hide SessionOf, Decode, IsDelta, Rebuilt, Encode;
  }

  lemma OneLine(line: Bytes, rest: Bytes)
    requires IsLine(line) && NEWLINE !in rest
    ensures Lines(line + rest) == [line] && Rest(line + rest) == rest
  {
    SplitIsUnique([line], rest);
    FlatSnoc([], line);
    assert [] + [line] == [line] && Flat([]) + line == line;
  }

  lemma OneLineRuns<S>(rules: Rules<S>, start: S, line: Bytes, rest: Bytes)
    requires Lines(line + rest) == [line] && Rest(line + rest) == rest
    ensures var run := StepLine(rules, Run(start, [], false), line);
            Whole(rules, start, line + rest) == (if run.threw then run else run.(out := run.out + rest))
  {
    RunLinesSnoc(rules, start, [], line);
    assert [] + [line] == [line];
    hide StepLine, Lines, Rest;
  }

  // The lines that are lost

  /**
   * An update sent twice under an id with a control character is garbled the second time, when one copy is shorter than
   * it.
   */
  lemma RepeatIsGarbled(bases: Bases, text: Text, id: Text)
    requires WellFormed(text) && SessionOf(Decode(Head(Encode(text) + [NEWLINE]))) == Session(id, false) && !Plain(id)
    requires |Stringify(id, [Copy(0, |text|)])| < |text|
    ensures var line := Encode(text) + [NEWLINE];
            Garbled(EncodeLine(bases, line).state, line)
  {
    hide Encode, Decode, SessionOf, Diff, Stringify, WellFormed;
    var line, delta := Encode(text) + [NEWLINE], Stringify(id, [Copy(0, |text|)]);
    DecodeEncode(text);
    assert line[..|line| - 1] == Encode(text);
    var next := EncodeLine(bases, line).state;
    assert next == bases[id := text];
    DiffOfSame(text);
    DiffRebuilds(text, text);
    assert EncodeLine(next, line).bytes == Encode(delta + [NEWLINE]);
    StringifyIsPrintable(id, [Copy(0, |text|)]);
    AddNewline(delta);
    AddNewline(text);
    DecodeEncode(delta + [NEWLINE]);
    DecodeEncode(text + [NEWLINE]);
    assert Encode(delta + [NEWLINE]) == line ==> |delta + [NEWLINE]| == |text + [NEWLINE]|;
  }

  /** An update of a session whose id is one control character, with enough text after its head. */
  ghost function OddUpdate(): Text {
    SessionText([1]) + seq(200, i => 0x78)
  }

  /** A long line of ASCII characters that opens as a session's update is read as one. */
  lemma AsciiUpdate(text: Text, id: Text)
    requires (forall i :: 0 <= i < |text| ==> text[i] < 0x80) && |text| >= HEAD_BYTES
    requires id != [] && (forall i :: 0 <= i < |id| ==> id[i] != QUOTE && id[i] != BACKSLASH)
    requires SessionText(id) <= text && |SessionText(id)| <= HEAD_BYTES
    ensures SessionOf(Decode(Head(Encode(text) + [NEWLINE]))) == Session(id, false)
  {
    hide SessionOf, Decode, Encode;
    var head := Head(Encode(text) + [NEWLINE]);
    EncodeAscii(text);
    EncodeAscii(text[..HEAD_BYTES]);
    assert Encode(text[..HEAD_BYTES]) == text[..HEAD_BYTES] == head;
    DecodeEncode(text[..HEAD_BYTES]);
    assert Kind(false) == SessionMiddle() + UpdateType() && SessionText(id) == SessionStart() + id + Kind(false);
    assert SessionText(id) <= text[..HEAD_BYTES];
    SessionHeadExactly(text[..HEAD_BYTES], id, false);
  }

  lemma OddUpdateIsUpdate()
    ensures |OddUpdate()| == 277 && WellFormed(OddUpdate()) && NEWLINE !in OddUpdate() && !Plain([1])
    ensures SessionOf(Decode(Head(Encode(OddUpdate()) + [NEWLINE]))) == Session([1], false)
  {
    hide SessionOf, Decode, Encode, WellFormed, SessionStart, SessionMiddle, UpdateType;
    var text, head := OddUpdate(), SessionText([1]);
    assert |head| == 77;
    forall i | 0 <= i < 277
      ensures text[i] < 0x80 && text[i] != NEWLINE
    {
      if i < 77 {
        assert text[i] == head[i];
      }
    }
    EncodeAscii(text);
    AsciiUpdate(text, [1]);
    var id: Text := [1];
    assert id[0] < 0x20;
  }

  lemma OddDeltaIsShort()
    ensures |Stringify([1], [Copy(0, 277)])| < 277
  {
    var id: Text := [1];
    assert id[1..] == [];
    assert |Escaped(id)| == 6;
    assert |Decimal(277)| == 3 by {
      assert Decimal(2) == [0x32] && Decimal(27) == Decimal(2) + [0x37] && Decimal(277) == Decimal(27) + [0x37];
    }
    assert |OpJson(Copy(0, 277))| == 7;
    assert OpsJson([Copy(0, 277)]) == OpJson(Copy(0, 277));
  }

  ghost function OddLine(): Bytes {
    Encode(OddUpdate()) + [NEWLINE]
  }

  /** The client gets other bytes than the encoder was given. */
  ghost predicate Lost(parse: Text -> Parsed, stream: Bytes) {
    Whole(Decoder(parse), map[], Whole(Encoder(), map[], stream).out).out != stream
  }

  /** So there is a stream, one update sent twice, whose bytes the client does not rebuild. */
  lemma AnUpdateIsLost(parse: Text -> Parsed)
    requires ReadsBack(parse)
    ensures Lost(parse, OddLine() + OddLine())
  {
    hide *;
    TwiceIsLost();
    GarbledIsLost(parse, OddLine() + OddLine());
  }

  lemma GarbledIsLost(parse: Text -> Parsed, stream: Bytes)
    requires ReadsBack(parse) && NoDeltaHeads(Lines(stream)) && !NoneGarbled(Lines(stream))
    ensures Lost(parse, stream)
  {
    hide NoDeltaHeads, Lines, NoneGarbled, ReadsBack, Encoder, Decoder, Whole;
    RoundTrip(parse, stream);
  }

  lemma TwiceIsLost()
    ensures NoDeltaHeads(Lines(OddLine() + OddLine())) && !NoneGarbled(Lines(OddLine() + OddLine()))
  {
    OddLineIs();
    hide *;
    OddUpdateIsUpdate();
    OddDeltaIsShort();
    RepeatIsGarbled(map[], OddUpdate(), [1]);
    AddNewline(OddUpdate());
    SessionIsNoDelta(OddLine());
    TwoLines(OddLine());
    TwiceIsGarbled(OddLine());
  }

  lemma OddLineIs()
    ensures OddLine() == Encode(OddUpdate()) + [NEWLINE]
  {
  }

  lemma SessionIsNoDelta(line: Bytes)
    ensures SessionOf(Decode(Head(line))).Session? ==> !DeltaHeaded(line)
  {
  }

  lemma TwiceIsGarbled(line: Bytes)
    requires Garbled(EncodeLine(map[], line).state, line) && !DeltaHeaded(line)
    ensures !NoneGarbled([line, line]) && NoDeltaHeads([line, line])
  {
    hide Garbled, EncodeLine, DeltaHeaded;
    var lines := [line, line];
    assert lines[..1] == [line] && [line][..0] == [];
    assert EncodeBases([]) == map[] && EncodeBases([line]) == EncodeLine(map[], line).state;
    assert GarbledAt(lines, 1);
  }

  lemma TwoLines(line: Bytes)
    requires IsLine(line)
    ensures Lines(line + line) == [line, line]
  {
    FlatSnoc([line], line);
    FlatSnoc([], line);
    assert [] + [line] == [line] && [line] + [line] == [line, line] && Flat([]) + line == line;
    assert Flat([line, line]) + [] == line + line;
    SplitIsUnique([line, line], []);
  }
}
