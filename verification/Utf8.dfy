/** UTF-16 text and its UTF-8 bytes, as Node's `Buffer.from(text)` and `buffer.toString("utf8")` convert them. */
module Utf8 {
  type CodeUnit = u: int | 0 <= u < 0x1_0000
  type Byte = b: int | 0 <= b < 0x100
  type Scalar = c: int | 0 <= c < 0xD800 || 0xE000 <= c < 0x11_0000

  type Text = seq<CodeUnit>
  type Bytes = seq<Byte>

  const REPLACEMENT: CodeUnit := 0xFFFD
  const NEWLINE: int := 10

  predicate IsHigh(u: CodeUnit) { 0xD800 <= u < 0xDC00 }

  predicate IsLow(u: CodeUnit) { 0xDC00 <= u < 0xE000 }

  predicate StartsWithPair(text: Text) {
    |text| >= 2 && IsHigh(text[0]) && IsLow(text[1])
  }

  /** No surrogate stands alone. */
  predicate WellFormed(text: Text) {
    text == [] ||
    if StartsWithPair(text) then WellFormed(text[2..])
    else !IsHigh(text[0]) && !IsLow(text[0]) && WellFormed(text[1..])
  }

  function Units(c: Scalar): (units: Text)
    ensures 1 <= |units| <= 2
  {
    if c < 0x1_0000 then [c] else [0xD800 + (c - 0x1_0000) / 0x400, 0xDC00 + (c - 0x1_0000) % 0x400]
  }

  /** The character `text` opens with; a surrogate alone reads as the replacement character. */
  function First(text: Text): Scalar
    requires text != []
  {
    if StartsWithPair(text) then 0x1_0000 + (text[0] - 0xD800) * 0x400 + (text[1] - 0xDC00)
    else if IsHigh(text[0]) || IsLow(text[0]) then REPLACEMENT
    else text[0]
  }

  function Width(text: Text): (w: nat)
    requires text != []
    ensures 1 <= w <= |text|
  {
    if StartsWithPair(text) then 2 else 1
  }

  function EncodeScalar(c: Scalar): (bytes: Bytes)
    ensures 1 <= |bytes| <= 4
  {
    if c < 0x80 then [c]
    else if c < 0x800 then [0xC0 + c / 0x40, 0x80 + c % 0x40]
    else if c < 0x1_0000 then [0xE0 + c / 0x40 / 0x40, 0x80 + c / 0x40 % 0x40, 0x80 + c % 0x40]
    else [0xF0 + c / 0x40 / 0x40 / 0x40, 0x80 + c / 0x40 / 0x40 % 0x40, 0x80 + c / 0x40 % 0x40, 0x80 + c % 0x40]
  }

  function Encode(text: Text): Bytes {
    if text == [] then [] else EncodeScalar(First(text)) + Encode(text[Width(text)..])
  }

  predicate IsContinuation(b: Byte) { 0x80 <= b < 0xC0 }

  /** The second bytes that may follow `lead`, so no overlong form, surrogate or value past U+10FFFF is read. */
  predicate IsSecond(lead: Byte, b: Byte) {
    IsContinuation(b)
    && (lead == 0xE0 ==> b >= 0xA0) && (lead == 0xED ==> b < 0xA0)
    && (lead == 0xF0 ==> b >= 0x90) && (lead == 0xF4 ==> b < 0x90)
  }

  /** How many of the bytes read as one character, or as one replacement character when they start no whole one. */
  function Consumed(bytes: Bytes): (n: nat)
    requires bytes != []
    ensures 1 <= n <= |bytes| && n <= 4
  {
    var lead := bytes[0];
    if lead < 0xC2 || lead > 0xF4 || |bytes| == 1 || !IsSecond(lead, bytes[1]) then 1
    else if lead < 0xE0 then 2
    else if |bytes| == 2 || !IsContinuation(bytes[2]) then 2
    else if lead < 0xF0 then 3
    else if |bytes| == 3 || !IsContinuation(bytes[3]) then 3
    else 4
  }

  function DecodeScalar(bytes: Bytes): Scalar
    requires bytes != []
  {
    var lead, n := bytes[0], Consumed(bytes);
    if lead < 0x80 then lead
    else if 0xC2 <= lead < 0xE0 && n == 2 then (lead - 0xC0) * 0x40 + (bytes[1] - 0x80)
    else if 0xE0 <= lead < 0xF0 && n == 3 then (lead - 0xE0) * 0x1000 + (bytes[1] - 0x80) * 0x40 + (bytes[2] - 0x80)
    else if 0xF0 <= lead && n == 4 then
      (lead - 0xF0) * 0x4_0000 + (bytes[1] - 0x80) * 0x1000 + (bytes[2] - 0x80) * 0x40 + (bytes[3] - 0x80)
    else REPLACEMENT
  }

  function Decode(bytes: Bytes): Text {
    if bytes == [] then [] else Units(DecodeScalar(bytes)) + Decode(bytes[Consumed(bytes)..])
  }

  // Round trips

  lemma UnitsOfFirst(text: Text)
    requires text != [] && WellFormed(text)
    ensures Units(First(text)) == text[..Width(text)]
    ensures WellFormed(text[Width(text)..])
  {
    if StartsWithPair(text) {
      var hi: int, lo: int := text[0] - 0xD800, text[1] - 0xDC00;
      assert (hi * 0x400 + lo) / 0x400 == hi && (hi * 0x400 + lo) % 0x400 == lo;
    }
  }

  lemma DecodeOneScalar(c: Scalar, rest: Bytes)
    ensures Consumed(EncodeScalar(c) + rest) == |EncodeScalar(c)|
    ensures DecodeScalar(EncodeScalar(c) + rest) == c
  {
    var bytes := EncodeScalar(c) + rest;
    if c < 0x80 {
      assert bytes[0] == c;
    } else if c < 0x800 {
      assert bytes[0] == 0xC0 + c / 0x40 && bytes[1] == 0x80 + c % 0x40;
    } else if c < 0x1_0000 {
      ThreeByteScalar(c, bytes);
    } else {
      FourByteScalar(c, bytes);
    }
  }

  lemma ThreeByteScalar(c: Scalar, bytes: Bytes)
    requires 0x800 <= c < 0x1_0000 && |bytes| >= 3 && bytes[..3] == EncodeScalar(c)
    ensures Consumed(bytes) == 3 && DecodeScalar(bytes) == c
  {
    var high, mid, low := c / 0x40 / 0x40, c / 0x40 % 0x40, c % 0x40;
    assert bytes[0] == bytes[..3][0] && bytes[1] == bytes[..3][1] && bytes[2] == bytes[..3][2];
    assert c == high * 0x1000 + mid * 0x40 + low;
  }

  lemma FourByteScalar(c: Scalar, bytes: Bytes)
    requires 0x1_0000 <= c && |bytes| >= 4 && bytes[..4] == EncodeScalar(c)
    ensures Consumed(bytes) == 4 && DecodeScalar(bytes) == c
  {
    assert EncodeScalar(c)[0] == 0xF0 + c / 0x40 / 0x40 / 0x40 && EncodeScalar(c)[1] == 0x80 + c / 0x40 / 0x40 % 0x40
      && EncodeScalar(c)[2] == 0x80 + c / 0x40 % 0x40 && EncodeScalar(c)[3] == 0x80 + c % 0x40;
    hide EncodeScalar;
    Digits(c);
    assert bytes[0] == bytes[..4][0] && bytes[1] == bytes[..4][1] && bytes[2] == bytes[..4][2] &&
        bytes[3] == bytes[..4][3];
  }

  lemma Digits(c: int)
    requires 0 <= c < 0x11_0000
    ensures c == c / 0x40 / 0x40 / 0x40 * 0x4_0000 + c / 0x40 / 0x40 % 0x40 * 0x1000 + c / 0x40 % 0x40 * 0x40 + c % 0x40
    ensures 0x1_0000 <= c ==> 0 < c / 0x40 / 0x40 / 0x40 || 0x10 <= c / 0x40 / 0x40 % 0x40
    ensures c / 0x40 / 0x40 / 0x40 <= 4 && (c / 0x40 / 0x40 / 0x40 == 4 ==> c / 0x40 / 0x40 % 0x40 < 0x10)
  {
  }

  lemma TakeInTwo(text: Text, w: nat, j: nat)
    requires w <= j <= |text|
    ensures text[..j] == text[..w] + text[w..][..j - w]
    ensures text[..j][w..] == text[w..][..j - w]
  {
  }

  lemma TakePast(head: Bytes, rest: Bytes, n: nat)
    requires |head| <= n <= |head| + |rest|
    ensures (head + rest)[..n] == head + rest[..n - |head|]
    ensures (head + rest)[..n][|head|..] == rest[..n - |head|]
  {
  }

  lemma {:induction false} DecodeEncode(text: Text)
    requires WellFormed(text)
    ensures Decode(Encode(text)) == text
  {
    hide EncodeScalar, DecodeScalar, Consumed, First, Units, WellFormed, Width, Decode, Encode;
    if text == [] {
      NothingComesBack();
    } else {
      var w := Width(text);
      UnitsOfFirst(text);
      EncodeOnce(text);
      DecodeOnce(First(text), Encode(text[w..]));
      DecodeEncode(text[w..]);
      assert text == text[..w] + text[w..];
    }
  }

  lemma NothingComesBack()
    ensures Decode(Encode([])) == []
  {
  }

  lemma EncodeOnce(text: Text)
    requires text != []
    ensures Encode(text) == EncodeScalar(First(text)) + Encode(text[Width(text)..])
  {
  }

  lemma DecodeOnce(c: Scalar, rest: Bytes)
    ensures Decode(EncodeScalar(c) + rest) == Units(c) + Decode(rest)
  {
    hide EncodeScalar, DecodeScalar, Consumed, Units;
    DecodeOneScalar(c, rest);
    TakePast(EncodeScalar(c), rest, |EncodeScalar(c) + rest|);
    assert (EncodeScalar(c) + rest)[|EncodeScalar(c)|..] == rest;
  }

  lemma {:induction false} DecodedIsWellFormed(bytes: Bytes)
    ensures WellFormed(Decode(bytes))
  {
    if bytes != [] {
      var units, rest := Units(DecodeScalar(bytes)), Decode(bytes[Consumed(bytes)..]);
      DecodedIsWellFormed(bytes[Consumed(bytes)..]);
      assert (units + rest)[|units|..] == rest;
    }
  }

  // Concatenation, newlines and plain text

  /** `left` and `right` meet between two characters, not inside a surrogate pair. */
  predicate MeetCleanly(left: Text, right: Text) {
    left == [] || right == [] || !IsHigh(left[|left| - 1]) || !IsLow(right[0])
  }

  lemma FirstOfBoth(left: Text, right: Text)
    requires left != [] && MeetCleanly(left, right)
    ensures var both, w := left + right, Width(left);
            && Width(both) == w && First(both) == First(left) && StartsWithPair(both) == StartsWithPair(left)
            && both[0] == left[0] && both[w..] == left[w..] + right && MeetCleanly(left[w..], right)
  {
    var both := left + right;
    assert both[0] == left[0] && (|left| > 1 ==> both[1] == left[1]) &&
        (|left| == 1 && right != [] ==> both[1] == right[0]);
  }

  lemma {:induction false} EncodedBoth(left: Text, right: Text)
    requires MeetCleanly(left, right)
    ensures Encode(left + right) == Encode(left) + Encode(right)
  {
    hide EncodeScalar, First, MeetCleanly, Width, WellFormed;
    if left == [] {
      assert left + right == right;
    } else {
      FirstOfBoth(left, right);
      EncodedBoth(left[Width(left)..], right);
    }
  }

  lemma {:induction false} WellFormedBoth(left: Text, right: Text)
    requires MeetCleanly(left, right)
    ensures WellFormed(left + right) <==> WellFormed(left) && WellFormed(right)
  {
    hide EncodeScalar, First, MeetCleanly, Encode;
    if left == [] {
      assert left + right == right;
    } else {
      FirstOfBoth(left, right);
      WellFormedBoth(left[Width(left)..], right);
    }
  }

  lemma EncodeConcat(left: Text, right: Text)
    requires MeetCleanly(left, right)
    ensures Encode(left + right) == Encode(left) + Encode(right)
    ensures WellFormed(left + right) <==> WellFormed(left) && WellFormed(right)
  {
    hide *;
    EncodedBoth(left, right);
    WellFormedBoth(left, right);
  }

  lemma {:induction false} EncodeAscii(text: Text)
    requires forall i :: 0 <= i < |text| ==> text[i] < 0x80
    ensures |Encode(text)| == |text| && WellFormed(text)
    ensures forall i :: 0 <= i < |text| ==> Encode(text)[i] == text[i]
  {
    if text != [] {
      EncodeAscii(text[1..]);
    }
  }

  /** A newline byte stands in the bytes of a text exactly when a newline character stands in the text. */
  lemma {:induction false} EncodedNewline(text: Text)
    ensures NEWLINE in Encode(text) <==> NEWLINE in text
  {
    if text != [] {
      var w := Width(text);
      EncodedNewline(text[w..]);
      assert text == text[..w] + text[w..];
      assert NEWLINE in EncodeScalar(First(text)) <==> First(text) == NEWLINE;
      assert NEWLINE in text[..w] <==> text[0] == NEWLINE;
    }
  }

  /** And in what bytes read as exactly when it stands in the bytes, valid or not. */
  lemma {:induction false} DecodedNewline(bytes: Bytes)
    ensures NEWLINE in Decode(bytes) <==> NEWLINE in bytes
  {
    if bytes != [] {
      var n := Consumed(bytes);
      DecodedNewline(bytes[n..]);
      assert bytes == bytes[..n] + bytes[n..];
      assert forall i :: 0 < i < n ==> IsContinuation(bytes[i]);
      assert NEWLINE in bytes[..n] <==> bytes[0] == NEWLINE;
      assert NEWLINE in Units(DecodeScalar(bytes)) <==> DecodeScalar(bytes) == NEWLINE;
    }
  }

  // Reading the first bytes of a text

  lemma TruncatedScalar(c: Scalar, n: nat)
    requires 0 < n < |EncodeScalar(c)|
    ensures Decode(EncodeScalar(c)[..n]) == [REPLACEMENT]
  {
    var bytes := EncodeScalar(c)[..n];
    assert Consumed(bytes) == n;
    assert Decode(bytes[n..]) == [];
  }

  /** The first `j` units of `text` are whole characters that take at most `n` bytes. */
  predicate Fits(text: Text, j: nat, n: int) {
    j <= |text| && WellFormed(text[..j]) && |Encode(text[..j])| <= n
  }

  lemma EncodeStep(text: Text, j: nat)
    requires text != [] && WellFormed(text) && Width(text) <= j <= |text|
    ensures text[..j] == text[..Width(text)] + text[Width(text)..][..j - Width(text)]
    ensures Encode(text[..j]) == EncodeScalar(First(text)) + Encode(text[Width(text)..][..j - Width(text)])
    ensures WellFormed(text[..j]) <==> WellFormed(text[Width(text)..][..j - Width(text)])
  {
    hide EncodeScalar;
    var w, start := Width(text), text[..j];
    assert start[0] == text[0] && (j > 1 ==> start[1] == text[1]);
    assert Width(start) == w && First(start) == First(text);
    TakeInTwo(text, w, j);
  }

  lemma FitsStep(text: Text, j: nat, n: int)
    requires text != [] && WellFormed(text) && 0 < j <= |text|
    ensures Fits(text, j, n) <==>
            j >= Width(text) && Fits(text[Width(text)..], j - Width(text), n - |EncodeScalar(First(text))|)
  {
    if j < Width(text) {
      assert text[..j] == [text[0]];
    } else {
      EncodeStep(text, j);
    }
  }

  /**
   * The first `n` bytes of a text read as the whole characters they hold, followed at most by one replacement character
   * for a character cut short: `k` units of the text, the longest well-formed beginning that fits.
   */
  lemma {:induction false} DecodeCut(text: Text, n: nat) returns (k: nat, tail: Text)
    requires WellFormed(text) && n <= |Encode(text)|
    ensures Fits(text, k, n) && Decode(Encode(text)[..n]) == text[..k] + tail
    ensures tail == [] || tail == [REPLACEMENT]
    ensures forall j :: k < j <= |text| ==> !Fits(text, j, n)
  {
    if text == [] {
      k, tail := 0, [];
    } else if n < |EncodeScalar(First(text))| {
      k, tail := CutInFirst(text, n);
    } else {
      var w := Width(text);
      UnitsOfFirst(text);
      var j: nat;
      j, tail := DecodeCut(text[w..], n - |EncodeScalar(First(text))|);
      CutPastFirst(text, n, j, tail);
      k := j + w;
    }
  }

  lemma CutInFirst(text: Text, n: nat) returns (k: nat, tail: Text)
    requires text != [] && WellFormed(text) && n < |EncodeScalar(First(text))|
    ensures k == 0 && Fits(text, k, n) && Decode(Encode(text)[..n]) == tail
    ensures tail == [] || tail == [REPLACEMENT]
    ensures forall j :: k < j <= |text| ==> !Fits(text, j, n)
  {
    hide *;
    k := 0;
    FitsBounds(text, 0, n);
    tail := CutShort(text, n);
    forall j | 0 < j <= |text| ensures !Fits(text, j, n) {
      FitsStep(text, j, n);
      if j >= Width(text) {
        FitsBounds(text[Width(text)..], j - Width(text), n - |EncodeScalar(First(text))|);
      }
    }
  }

  lemma CutPastFirst(text: Text, n: nat, j: nat, tail: Text)
    requires text != [] && WellFormed(text) && |EncodeScalar(First(text))| <= n <= |Encode(text)|
    requires var rest, left := text[Width(text)..], n - |EncodeScalar(First(text))|;
             Fits(rest, j, left) && left <= |Encode(rest)| && Decode(Encode(rest)[..left]) == rest[..j] + tail
             && forall i :: j < i <= |rest| ==> !Fits(rest, i, left)
    ensures Fits(text, j + Width(text), n)
    ensures Decode(Encode(text)[..n]) == text[..j + Width(text)] + tail
    ensures forall i :: j + Width(text) < i <= |text| ==> !Fits(text, i, n)
  {
    hide *;
    var w := Width(text);
    var rest, left := text[w..], n - |EncodeScalar(First(text))|;
    FitsBounds(rest, j, left);
    FitsStep(text, j + w, n);
    DecodeStep(text, n, rest[..j] + tail);
    assert text[..j + w] + tail == text[..w] + (rest[..j] + tail);
    forall i | j + w < i <= |text| ensures !Fits(text, i, n) {
      FitsStep(text, i, n);
    }
  }

  lemma FitsBounds(text: Text, j: nat, n: int)
    ensures Fits(text, j, n) ==> j <= |text| && 0 <= n
    ensures 0 <= n ==> Fits(text, 0, n)
  {
  }

  lemma CutShort(text: Text, n: nat) returns (tail: Text)
    requires text != [] && n < |EncodeScalar(First(text))|
    ensures Decode(Encode(text)[..n]) == tail && (tail == [] || tail == [REPLACEMENT])
  {
    assert Encode(text)[..n] == EncodeScalar(First(text))[..n];
    if n == 0 {
      tail := [];
    } else {
      TruncatedScalar(First(text), n);
      tail := [REPLACEMENT];
    }
  }

  lemma DecodeStep(text: Text, n: nat, after: Text)
    requires text != [] && WellFormed(text) && |EncodeScalar(First(text))| <= n <= |Encode(text)|
    requires Decode(Encode(text[Width(text)..])[..n - |EncodeScalar(First(text))|]) == after
    ensures Decode(Encode(text)[..n]) == text[..Width(text)] + after
  {
    hide *;
    var w, head := Width(text), EncodeScalar(First(text));
    EncodeOnce(text);
    UnitsOfFirst(text);
    TakePast(head, Encode(text[w..]), n);
    DecodeOnce(First(text), Encode(text[w..])[..n - |head|]);
  }
}
