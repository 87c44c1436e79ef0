/**
 * A newline-framed byte stream that swaps the lines it wants and passes every other byte as it came, fed in chunks of
 * any size. `LineStream` is the stream with its three modes; `Whole` is what it must send for the bytes it got, however
 * they were cut.
 */
module LineTransform {
  import opened Utf8

  const HEAD_BYTES: nat := 160

  datatype Swapped<S> = Sent(state: S, bytes: Bytes) | Threw

  /**
   * Which lines are picked by their first bytes, and what replaces a picked line given what earlier lines left in `S`.
   */
  datatype Rules<!S> = Rules(wants: Bytes -> bool, swap: (S, Bytes) -> Swapped<S>)

  /** What went out, what the swaps left behind, and whether one threw, which ends the stream. */
  datatype Run<S> = Run(state: S, out: Bytes, threw: bool)

  // The specification: a fold over the lines

  function Flat(chunks: seq<Bytes>): Bytes {
    if chunks == [] then [] else Flat(chunks[..|chunks| - 1]) + chunks[|chunks| - 1]
  }

  function Head(line: Bytes): Bytes {
    if |line| <= HEAD_BYTES then line else line[..HEAD_BYTES]
  }

  function StepLine<S>(rules: Rules<S>, run: Run<S>, line: Bytes): Run<S> {
    if run.threw then run
    else if !rules.wants(Head(line)) then run.(out := run.out + line)
    else
      match rules.swap(run.state, line)
      case Sent(state, bytes) => Run(state, run.out + bytes, false)
      case Threw => run.(threw := true)
  }

  function RunLines<S>(rules: Rules<S>, start: S, lines: seq<Bytes>): Run<S> {
    if lines == [] then Run(start, [], false)
    else StepLine(rules, RunLines(rules, start, lines[..|lines| - 1]), lines[|lines| - 1])
  }

  predicate IsLine(bytes: Bytes) {
    bytes != [] && bytes[|bytes| - 1] == NEWLINE && NEWLINE !in bytes[..|bytes| - 1]
  }

  /** The lines of `stream`, newlines included, and what follows the last newline. */
  function Lines(stream: Bytes): seq<Bytes> {
    if stream == [] then []
    else
      var lines, rest := Lines(stream[..|stream| - 1]), Rest(stream[..|stream| - 1]);
      if stream[|stream| - 1] == NEWLINE then lines + [rest + [NEWLINE]] else lines
  }

  function Rest(stream: Bytes): Bytes {
    if stream == [] || stream[|stream| - 1] == NEWLINE then []
    else Rest(stream[..|stream| - 1]) + [stream[|stream| - 1]]
  }

  function Whole<S>(rules: Rules<S>, start: S, stream: Bytes): Run<S> {
    var run := RunLines(rules, start, Lines(stream));
    if run.threw then run else run.(out := run.out + Rest(stream))
  }

  // Facts about lines

  ghost predicate AllLines(lines: seq<Bytes>) {
    forall k :: 0 <= k < |lines| ==> IsLine(lines[k])
  }

  lemma {:induction false} SplitIsExact(stream: Bytes)
    ensures Flat(Lines(stream)) + Rest(stream) == stream
    ensures AllLines(Lines(stream)) && NEWLINE !in Rest(stream)
  {
    hide Flat;
    if stream == [] {
      FlatOfNone();
    } else {
      var n := |stream| - 1;
      var lines, rest := Lines(stream[..n]), Rest(stream[..n]);
      SplitIsExact(stream[..n]);
      assert stream == stream[..n] + [stream[n]];
      if stream[n] == NEWLINE {
        var line := rest + [NEWLINE];
        assert line[..|rest|] == rest;
        FlatSnoc(lines, line);
        assert Flat(lines) + rest + [NEWLINE] == Flat(lines) + line;
      } else {
        assert Flat(lines) + rest + [stream[n]] == Flat(lines) + (rest + [stream[n]]);
      }
    }
  }

  lemma FlatOfNone()
    ensures Flat([]) == []
  {
  }

  lemma FlatSnoc(chunks: seq<Bytes>, chunk: Bytes)
    ensures Flat(chunks + [chunk]) == Flat(chunks) + chunk
  {
    assert (chunks + [chunk])[..|chunks|] == chunks;
  }

  lemma RunLinesSnoc<S>(rules: Rules<S>, start: S, lines: seq<Bytes>, line: Bytes)
    ensures RunLines(rules, start, lines + [line]) == StepLine(rules, RunLines(rules, start, lines), line)
  {
    assert (lines + [line])[..|lines|] == lines;
  }

  lemma BothEnd(stream: Bytes, piece: Bytes)
    requires piece != []
    ensures var both, front := stream + piece, piece[..|piece| - 1];
            && both[..|both| - 1] == stream + front
            && both[|both| - 1] == piece[|piece| - 1]
            && piece == front + [piece[|piece| - 1]]
  {
  }

  lemma {:induction false} SplitPiece(stream: Bytes, piece: Bytes)
    requires NEWLINE !in piece
    ensures Lines(stream + piece) == Lines(stream) && Rest(stream + piece) == Rest(stream) + piece
  {
    var both := stream + piece;
    if piece == [] {
      assert both == stream;
    } else {
      var front := piece[..|piece| - 1];
      var last := piece[|piece| - 1];
      BothEnd(stream, piece);
      assert last in piece && NEWLINE !in front;
      SplitPiece(stream, front);
      Rejoined(Rest(stream), front, last);
    }
  }

  lemma Rejoined(rest: Bytes, front: Bytes, last: Byte)
    ensures rest + front + [last] == rest + (front + [last])
  {
  }

  lemma SplitLineEnd(stream: Bytes, piece: Bytes)
    requires IsLine(piece)
    ensures Lines(stream + piece) == Lines(stream) + [Rest(stream) + piece] && Rest(stream + piece) == []
  {
    var front := piece[..|piece| - 1];
    SplitPiece(stream, front);
    BothEnd(stream, piece);
    Rejoined(Rest(stream), front, NEWLINE);
  }

  /** There is one way to cut a stream into lines and a rest. */
  lemma {:induction false} SplitIsUnique(lines: seq<Bytes>, rest: Bytes)
    requires AllLines(lines) && NEWLINE !in rest
    ensures Lines(Flat(lines) + rest) == lines && Rest(Flat(lines) + rest) == rest
  {
    SplitPiece(Flat(lines), rest);
    if lines == [] {
      assert [] + rest == rest;
    } else {
      var front, last := lines[..|lines| - 1], lines[|lines| - 1];
      SplitIsUnique(front, []);
      assert Flat(front) + [] == Flat(front);
      SplitLineEnd(Flat(front), last);
      assert lines == front + [last];
      assert [] + last == last && [] + rest == rest;
    }
  }

  lemma PieceOf(data: Bytes, at: nat, stop: nat)
    requires at < stop <= |data|
    ensures data[at..stop][..stop - at - 1] == data[at..stop - 1] && data[..at] + data[at..stop] == data[..stop]
  {
  }

  lemma Fed(fed: Bytes, start: Bytes, before: Bytes, piece: Bytes, after: Bytes)
    requires fed == start + before && before + piece == after
    ensures fed + piece == start + after
  {
  }

  function IndexOfNewline(data: Bytes, from: nat): (found: int)
    ensures found == -1 || from <= found < |data|
    ensures found >= 0 ==> data[found] == NEWLINE && NEWLINE !in data[from..found]
    ensures found == -1 && from <= |data| ==> NEWLINE !in data[from..]
    decreases |data| - from
  {
    if from >= |data| then
      assert from == |data| ==> data[from..] == [];
      -1
    else if data[from] == NEWLINE then
      assert data[from..from] == [];
      from
    else
      var found := IndexOfNewline(data, from + 1);
      assert data[from..] == [data[from]] + data[from + 1..];
      assert found >= 0 ==> data[from..found] == [data[from]] + data[from + 1..found];
      found
  }

  // The stream

  datatype Mode = Start | Pass | Hold

  class LineStream<S> {
    const rules: Rules<S>
    var state: S
    var mode: Mode
    var pending: seq<Bytes>
    var pendingBytes: nat
    var out: Bytes
    var threw: bool

    ghost const start: S
    ghost var fed: Bytes

    /** What the stream holds and has sent, given every byte it was fed. */
    ghost predicate Valid()
      reads this
    {
      var run, rest := RunLines(rules, start, Lines(fed)), Rest(fed);
      && threw == run.threw
      && pendingBytes == |Flat(pending)|
      && (threw ==> out == run.out && state == run.state)
      && (!threw ==> state == run.state && Tells(run.out, rest))
    }

    ghost predicate Tells(sent: Bytes, rest: Bytes)
      reads this
    {
      match mode
      case Start => Flat(pending) == rest && |rest| < HEAD_BYTES && out == sent
      case Hold => Flat(pending) == rest && |rest| >= HEAD_BYTES && rules.wants(Head(rest)) && out == sent
      case Pass => pending == [] && |rest| >= HEAD_BYTES && !rules.wants(Head(rest)) && out == sent + rest
    }

    constructor (rules: Rules<S>, start: S)
      ensures Valid() && fed == [] && !threw && this.rules == rules && this.start == start
    {
      this.rules := rules;
      this.start := start;
      state, mode, pending, pendingBytes, out, threw := start, Start, [], 0, [], false;
      fed := [];
    }

    method Take() returns (all: Bytes)
      modifies this`pending, this`pendingBytes
      ensures all == old(Flat(pending)) && pending == [] && pendingBytes == 0
    {
      all := Flat(pending);
      pending, pendingBytes := [], 0;
    }

    method Keep(piece: Bytes)
      requires pendingBytes == |Flat(pending)|
      modifies this`pending, this`pendingBytes
      ensures Flat(pending) == old(Flat(pending)) + piece && pendingBytes == |Flat(pending)|
    {
      FlatSnoc(pending, piece);
      pending, pendingBytes := pending + [piece], pendingBytes + |piece|;
    }

    /** One piece: up to and with a newline, or the chunk's end with none. */
    method Piece(piece: Bytes, ended: bool)
      requires Valid() && !threw && piece != []
      requires if ended then IsLine(piece) else NEWLINE !in piece
      modifies this
      ensures Valid() && fed == old(fed) + piece
    {
      hide Lines, Rest, RunLines, Flat, IsLine;
      FlatOfNone();
      ghost var before, rest := RunLines(rules, start, Lines(fed)), Rest(fed);
      ghost var whole := rest + piece;
      assert |rest| >= HEAD_BYTES ==> Head(whole) == Head(rest);
      if ended {
        SplitLineEnd(fed, piece);
        RunLinesSnoc(rules, start, Lines(fed), whole);
      } else {
        SplitPiece(fed, piece);
      }
      fed := fed + piece;
      if mode == Pass {
        out := out + piece;
        if ended {
          mode := Start;
        }
        assert before.out + rest + piece == before.out + whole;
        return;
      }
      Keep(piece);
      if ended {
        var line := Take();
        if mode == Hold || rules.wants(Head(line)) {
          match rules.swap(state, line)
          case Threw =>
            threw := true;
            return;
          case Sent(next, bytes) =>
            state, out := next, out + bytes;
        } else {
          out := out + line;
        }
        mode := Start;
      } else if mode == Start && pendingBytes >= HEAD_BYTES {
        var head := Take();
        if rules.wants(Head(head)) {
          pending, pendingBytes, mode := [head], |head|, Hold;
          FlatSnoc([], head);
          assert [] + [head] == [head];
        } else {
          out, mode := out + head, Pass;
        }
      }
    }

    /** Takes a chunk; a swap that throws ends the stream with the rest of the chunk unread. */
    method Transform(data: Bytes)
      requires Valid() && !threw
      modifies this
      ensures Valid() && fed == old(fed) + data
    {
      var at := 0;
      while at < |data| && !threw
        invariant at <= |data| && Valid() && fed == old(fed) + data[..at]
      {
        var end := IndexOfNewline(data, at);
        var stop := if end < 0 then |data| else end + 1;
        var piece := data[at..stop];
        PieceOf(data, at, stop);
        ghost var was := fed;
        assert end >= 0 ==> piece[|piece| - 1] == NEWLINE;
        Piece(piece, end >= 0);
        Fed(was, old(fed), data[..at], piece, data[..stop]);
        at := stop;
      }
      if threw {
        Unread(data[at..]);
        assert data[..at] + data[at..] == data;
      } else {
        assert data[..at] == data;
      }
    }

    ghost method Unread(bytes: Bytes)
      requires Valid() && threw
      modifies this`fed
      ensures Valid() && fed == old(fed) + bytes
    {
      ThrownStays(rules, start, fed, bytes);
      fed := fed + bytes;
    }

    method Flush()
      requires Valid() && !threw
      modifies this
      ensures Run(state, out, threw) == Whole(rules, start, old(fed))
    {
      if pendingBytes > 0 {
        var all := Take();
        out := out + all;
      }
    }
  }

  lemma {:induction false} ThrownStays<S>(rules: Rules<S>, start: S, stream: Bytes, more: Bytes)
    requires RunLines(rules, start, Lines(stream)).threw
    ensures RunLines(rules, start, Lines(stream + more)) == RunLines(rules, start, Lines(stream))
  {
    if more == [] {
      assert stream + more == stream;
    } else {
      var front := more[..|more| - 1];
      ThrownStays(rules, start, stream, front);
      assert (stream + more)[..|stream + more| - 1] == stream + front;
      var lines := Lines(stream + front);
      RunLinesSnoc(rules, start, lines, Rest(stream + front) + [NEWLINE]);
    }
  }

  /** What a reader of the stream gets does not depend on where its input was cut. */
  method Pump<S>(rules: Rules<S>, start: S, chunks: seq<Bytes>) returns (run: Run<S>)
    ensures run == Whole(rules, start, Flat(chunks))
  {
    var stream := new LineStream(rules, start);
    for i := 0 to |chunks|
      invariant stream.Valid() && stream.rules == rules && stream.start == start && stream.fed == Flat(chunks[..i])
      invariant !stream.threw
    {
      assert chunks[..i + 1][..i] == chunks[..i];
      stream.Transform(chunks[i]);
      if stream.threw {
        FlatSplit(chunks, i + 1);
        stream.Unread(Flat(chunks[i + 1..]));
        return Run(stream.state, stream.out, true);
      }
    }
    assert chunks[..|chunks|] == chunks;
    stream.Flush();
    run := Run(stream.state, stream.out, stream.threw);
  }

  lemma {:induction false} FlatSplit(chunks: seq<Bytes>, k: nat)
    requires k <= |chunks|
    ensures Flat(chunks) == Flat(chunks[..k]) + Flat(chunks[k..])
  {
    if k == |chunks| {
      assert chunks[..k] == chunks;
    } else {
      var n := |chunks| - 1;
      FlatSplit(chunks[..n], k);
      assert chunks[..n][..k] == chunks[..k] && chunks[..n][k..] == chunks[k..][..n - k];
    }
  }
}
