/** What every step of the write queue keeps, from any start and in any order. */
module DiskRuns {
  import opened Options
  import opened DiskQueue

  /* ---- Chains under the steps ---- */

  lemma BlockFrame<T>(op: Op<T>, calls: seq<Call<T>>, call: Call<T>)
    requires Block(op, calls)
    ensures Block(op, calls + [call])
  {
    TextFrame(calls, [call], op.first, op.past);
  }

  lemma ChainMoreCalls<T>(ops: seq<Op<T>>, calls: seq<Call<T>>, dropped: set<nat>, lo: nat, hi: nat, call: Call<T>)
    requires Chain(ops, calls, dropped, lo, hi)
    ensures Chain(ops, calls + [call], dropped, lo, hi)
  {
    hide Block;
    forall i | 0 <= i < |ops|
      ensures Block(ops[i], calls + [call])
    {
      BlockFrame(ops[i], calls, call);
    }
  }

  lemma ChainAdd<T>(ops: seq<Op<T>>, calls: seq<Call<T>>, dropped: set<nat>, lo: nat, hi: nat, op: Op<T>)
    requires Chain(ops, calls, dropped, lo, hi) && hi + 1 <= |calls|
    requires Block(op, calls) && op.first == hi && op.past == hi + 1 && hi !in dropped
    ensures Chain(ops + [op], calls, dropped, lo, hi + 1)
  {
    hide Block;
    var more := ops + [op];
    forall n: nat | lo <= n < hi + 1
      ensures n in dropped <==> !Covered(more, n)
    {
      if n == hi {
        assert more[|ops|] == op;
      } else {
        if Covered(ops, n) {
          var i :| 0 <= i < |ops| && ops[i].first <= n < ops[i].past;
          assert more[i] == ops[i];
        }
        if Covered(more, n) {
          var i :| 0 <= i < |more| && more[i].first <= n < more[i].past;
          assert i < |ops| && more[i] == ops[i];
        }
      }
    }
  }

  lemma CoveredWithout<T>(ops: seq<Op<T>>, at: nat, n: nat)
    requires at < |ops| && (forall i, j :: 0 <= i < j < |ops| ==> ops[i].past <= ops[j].first)
    requires forall i :: 0 <= i < |ops| ==> ops[i].first < ops[i].past
    ensures Covered(ops[..at] + ops[at + 1..], n) <==> Covered(ops, n) && !(ops[at].first <= n < ops[at].past)
  {
    var rest := ops[..at] + ops[at + 1..];
    if Covered(rest, n) {
      var i :| 0 <= i < |rest| && rest[i].first <= n < rest[i].past;
      var j := if i < at then i else i + 1;
      assert ops[j] == rest[i];
      assert j < at ==> ops[j].past <= ops[at].first;
      assert at < j ==> ops[at].past <= ops[j].first;
    }
    if Covered(ops, n) && !(ops[at].first <= n < ops[at].past) {
      CoveredElsewhere(ops, at, n);
    }
  }

  lemma CoveredElsewhere<T>(ops: seq<Op<T>>, at: nat, n: nat)
    requires at < |ops| && Covered(ops, n) && !(ops[at].first <= n < ops[at].past)
    ensures Covered(ops[..at] + ops[at + 1..], n)
  {
    var rest := ops[..at] + ops[at + 1..];
    var i :| 0 <= i < |ops| && ops[i].first <= n < ops[i].past;
    var j := if i < at then i else i - 1;
    assert rest[j] == ops[i];
  }

  lemma ChainDrop<T>(ops: seq<Op<T>>, calls: seq<Call<T>>, dropped: set<nat>, lo: nat, hi: nat, at: nat)
    requires Chain(ops, calls, dropped, lo, hi) && at < |ops| && ops[at].kind == Replace
    ensures Chain(ops[..at] + ops[at + 1..], calls, dropped + {ops[at].first}, lo, hi)
  {
    hide Block, Covered;
    var rest := ops[..at] + ops[at + 1..];
    forall i | 0 <= i < |ops|
      ensures ops[i].first < ops[i].past
    {
      BlockEnds(ops[i], calls);
    }
    BlockEnds(ops[at], calls);
    forall n: nat | lo <= n < hi
      ensures n in dropped + {ops[at].first} <==> !Covered(rest, n)
    {
      CoveredWithout(ops, at, n);
      CoveredAt(ops, at);
    }
  }

  lemma CoveredAt<T>(ops: seq<Op<T>>, at: nat)
    requires at < |ops|
    ensures forall n: nat :: ops[at].first <= n < ops[at].past ==> Covered(ops, n)
  {
  }

  lemma ChainGrow<T>(ops: seq<Op<T>>, calls: seq<Call<T>>, dropped: set<nat>, lo: nat, hi: nat, op: Op<T>)
    requires Chain(ops, calls, dropped, lo, hi) && ops != [] && hi + 1 <= |calls| && hi !in dropped
    requires Block(op, calls) && op.first == ops[|ops| - 1].first && op.past == hi + 1
    requires ops[|ops| - 1].past == hi
    ensures Chain(ops[..|ops| - 1] + [op], calls, dropped, lo, hi + 1)
  {
    hide Block;
    ChainFront(ops, calls, dropped, lo, hi);
    var k := |ops| - 1;
    var more := ops[..k] + [op];
    assert more[k] == op;
    forall n: nat | lo <= n < hi + 1
      ensures n in dropped <==> !Covered(more, n)
    {
      if Covered(ops[..k], n) {
        var i :| 0 <= i < k && ops[..k][i].first <= n < ops[..k][i].past;
        assert more[i] == ops[..k][i];
      }
      if Covered(more, n) {
        var i :| 0 <= i < |more| && more[i].first <= n < more[i].past;
        if i < k {
          assert ops[..k][i] == more[i];
        }
      }
      if op.first <= n {
        assert Covered(more, n);
      }
    }
  }

  lemma ChainTail<T>(ops: seq<Op<T>>, calls: seq<Call<T>>, dropped: set<nat>, lo: nat, hi: nat)
    requires Chain(ops, calls, dropped, lo, hi) && ops != []
    ensures Block(ops[0], calls) && lo <= ops[0].first < ops[0].past <= hi
    ensures Chain(ops[1..], calls, dropped, ops[0].past, hi)
    ensures forall n: nat :: lo <= n < ops[0].first ==> n in dropped
    ensures forall n: nat :: ops[0].first <= n < ops[0].past ==> n !in dropped
  {
    hide Block;
    BlockEnds(ops[0], calls);
    forall n: nat | lo <= n < ops[0].first
      ensures n in dropped
    {
      assert !Covered(ops, n);
    }
    forall n: nat | ops[0].first <= n < ops[0].past
      ensures n !in dropped
    {
      assert Covered(ops, n);
    }
    forall n: nat | ops[0].past <= n < hi
      ensures n in dropped <==> !Covered(ops[1..], n)
    {
      if Covered(ops, n) {
        var i :| 0 <= i < |ops| && ops[i].first <= n < ops[i].past;
        assert ops[1..][i - 1] == ops[i];
      }
      if Covered(ops[1..], n) {
        var i :| 0 <= i < |ops[1..]| && ops[1..][i].first <= n < ops[1..][i].past;
        assert ops[i + 1] == ops[1..][i];
      }
    }
  }

  /* ---- History after each step ---- */

  function Called<T>(h: History<T>, call: Call<T>): History<T> {
    h.(calls := h.calls + [call])
  }

  /** A replace drops the one of its path that still waits. */
  function AfterReplace<T>(s: State<T>, h: History<T>, path: Path, text: seq<T>): History<T> {
    var at := ReplaceAt(s.queue, path);
    Called(h, Call(Replace, path, text)).(dropped := h.dropped + (if at < |s.queue| then {s.queue[at].first} else {}))
  }

  function AfterAppend<T>(h: History<T>, path: Path, text: seq<T>): History<T> {
    Called(h, Call(Append, path, text))
  }

  function AfterFinish<T>(s: State<T>, h: History<T>): History<T>
    requires s.current.Some?
  {
    h.(decided := s.current.value.past)
  }

  function Span(first: nat, past: nat): (span: set<nat>)
    ensures forall i: nat :: i in span <==> first <= i < past
    decreases past - first
  {
    if first >= past then {} else {first} + Span(first + 1, past)
  }

  /** At most the first `n` lines, and none for a negative `n`. */
  function Clip<T>(text: seq<T>, n: int): seq<T> {
    if n <= 0 then [] else if n >= |text| then text else text[..n]
  }

  function CutCall<T>(calls: seq<Call<T>>, first: nat, past: nat, n: nat, i: nat): Call<T>
    requires i < |calls|
  {
    if first <= i < past then calls[i].(text := Clip(calls[i].text, n - |Text(calls, first, i)|)) else calls[i]
  }

  /** Calls `first` up to `past` cut to the first `n` lines of their joined texts. */
  function Cut<T>(calls: seq<Call<T>>, first: nat, past: nat, n: nat): (cut: seq<Call<T>>)
    ensures |cut| == |calls| && forall i :: 0 <= i < |calls| ==> cut[i] == CutCall(calls, first, past, n, i)
  {
    seq(|calls|, (i: int) requires 0 <= i < |calls| => CutCall(calls, first, past, n, i))
  }

  /**
   * The write failed: before it touched its file, or with the lines on disk that had landed, to which its calls are
   * then cut.
   */
  function AfterFail<T>(s: State<T>, h: History<T>): History<T>
    requires s.current.Some?
  {
    var first, past := s.current.value.first, s.current.value.past;
    if s.landing == None then h.(decided := past, failed := h.failed + Span(first, past))
    else h.(decided := past, calls := Cut(h.calls, first, past, s.landing.value))
  }

  /* ---- The core under each step ---- */

  lemma SupersededMore<T>(h: History<T>, call: Call<T>, i: nat, m: nat)
    requires Superseded(h.calls, h.dropped, i, m) && m <= |h.calls|
    ensures Superseded(h.calls + [call], h.dropped, i, m)
    ensures Superseded(h.calls + [call], h.dropped, i, m + 1)
  {
    var k: nat :| i < k < m && Replaces(h.calls, k, h.calls[i].path) && k !in h.dropped;
    assert Replaces(h.calls + [call], k, (h.calls + [call])[i].path);
  }

  /** A new last call leaves what is on disk what it was. */
  lemma FilesStay<T>(s: State<T>, h: History<T>, t: State<T>, g: History<T>)
    requires h.decided <= |h.calls| && FilesMatch(s, h)
    requires g.decided == h.decided && g.start == h.start && g.failed == h.failed && h.calls <= g.calls
    requires forall i: nat :: i < h.decided ==> (i in g.dropped <==> i in h.dropped)
    requires t.files == s.files && t.current == s.current && t.landing == s.landing
    ensures FilesMatch(t, g)
  {
    hide Played;
    forall path
      ensures Base(g, path) == Base(h, path)
    {
      PlayedFrame(Read(h.start, path), h.calls, g.calls, h.dropped + h.failed, g.dropped + g.failed, h.decided, path);
    }
  }

  /** The last waiting write stands for the last call, for a dropped call has a standing one after it. */
  lemma TailTouches<T>(s: State<T>, h: History<T>)
    requires Core(s, h) && Pending(s) != []
    ensures Pending(s)[|Pending(s)| - 1].past == |h.calls|
  {
    hide Block, Played, FilesMatch;
    var ops, n := Pending(s), |h.calls|;
    var past := ops[|ops| - 1].past;
    ChainFront(ops, h.calls, h.dropped, h.decided, n);
    assert past < n ==> past in h.dropped && Superseded(h.calls, h.dropped, past, n);
  }

  lemma AppendPending<T>(s: State<T>, path: Path, text: seq<T>)
    ensures var t := Appended(s, path, text);
            && t.queue != []
            && (if Joins(s, path)
                then && Pending(s) != [] && Pending(s)[|Pending(s)| - 1] == s.queue[|s.queue| - 1]
                     && Pending(t) == Pending(s)[..|Pending(s)| - 1] + [t.queue[|t.queue| - 1]]
                else Pending(t) == Pending(s) + [t.queue[|t.queue| - 1]])
  {
    var t, k, running := Appended(s, path, text), |s.queue| - 1, Running(s);
    assert Running(t) == running;
    if Joins(s, path) {
      var tail := t.queue[k];
      assert t.queue == s.queue[..k] + [tail];
      assert (running + s.queue)[..|running| + k] == running + s.queue[..k];
      assert running + (s.queue[..k] + [tail]) == running + s.queue[..k] + [tail];
    } else {
      var tail := t.queue[k + 1];
      assert t.queue == s.queue + [tail];
      assert running + (s.queue + [tail]) == running + s.queue + [tail];
    }
  }

  /** What a replace leaves waiting before itself. */
  function Others<T>(s: State<T>, path: Path): seq<Op<T>> {
    var at, lead := ReplaceAt(s.queue, path), |Running(s)|;
    if at < |s.queue| then Pending(s)[..lead + at] + Pending(s)[lead + at + 1..] else Pending(s)
  }

  lemma ReplacePending<T>(s: State<T>, path: Path, text: seq<T>)
    ensures var t := Replaced(s, path, text); t.queue != [] && Pending(t) == Others(s, path) + [t.queue[|t.queue| - 1]]
  {
    hide ReplaceAt;
    var t, at, running := Replaced(s, path, text), ReplaceAt(s.queue, path), Running(s);
    var rest := if at < |s.queue| then s.queue[..at] + s.queue[at + 1..] else s.queue;
    var last := t.queue[|t.queue| - 1];
    assert t.queue == rest + [last] && Running(t) == running;
    hide *;
    if at < |s.queue| {
      WithoutOne(running, s.queue, at);
    }
    assert running + (rest + [last]) == running + rest + [last];
  }

  lemma WithoutOne<T>(lead: seq<T>, items: seq<T>, at: nat)
    requires at < |items|
    ensures var all, i := lead + items, |lead| + at;
            all[..i] + all[i + 1..] == lead + (items[..at] + items[at + 1..])
  {
    assert (lead + items)[..|lead| + at] == lead + items[..at];
    assert (lead + items)[|lead| + at + 1..] == items[at + 1..];
  }

  lemma QueuedIsPending<T>(s: State<T>, at: nat)
    requires at < |s.queue|
    ensures |Running(s)| + at < |Pending(s)| && Pending(s)[|Running(s)| + at] == s.queue[at]
  {
  }

  lemma AppendChain<T>(s: State<T>, h: History<T>, path: Path, text: seq<T>)
    requires Core(s, h)
    ensures var g := AfterAppend(h, path, text);
            Chain(Pending(Appended(s, path, text)), g.calls, g.dropped, g.decided, |g.calls|)
  {
    hide Block, Played, Chain, FilesMatch, Superseded, Pending, Running;
    var n, t, g := |h.calls|, Appended(s, path, text), AfterAppend(h, path, text);
    var call := Call(Append, path, text);
    AppendPending(s, path, text);
    ChainMoreCalls(Pending(s), h.calls, h.dropped, h.decided, n, call);
    if Joins(s, path) {
      TailTouches(s, h);
      TailBlock(s, h);
      var grown := t.queue[|t.queue| - 1];
      GrownBlock(s.queue[|s.queue| - 1], h.calls, call);
      ChainGrow(Pending(s), g.calls, g.dropped, h.decided, n, grown);
    } else {
      var op := t.queue[|t.queue| - 1];
      NewBlock(op, h.calls, call);
      ChainAdd(Pending(s), g.calls, g.dropped, h.decided, n, op);
    }
  }

  lemma AppendCore<T>(s: State<T>, h: History<T>, path: Path, text: seq<T>)
    requires Core(s, h)
    ensures Core(Appended(s, path, text), AfterAppend(h, path, text))
  {
    hide Block, Played, Chain, FilesMatch, Superseded, Pending;
    var n, t, g := |h.calls|, Appended(s, path, text), AfterAppend(h, path, text);
    AppendChain(s, h, path, text);
    forall i | i in g.dropped
      ensures Superseded(g.calls, g.dropped, i, n + 1)
    {
      SupersededMore(h, Call(Append, path, text), i, n);
    }
    FilesStay(s, h, t, g);
  }

  lemma NewBlock<T>(op: Op<T>, calls: seq<Call<T>>, call: Call<T>)
    requires op.first == |calls| && op.past == op.first + 1 && op.first in op.settles
    requires op.kind == call.kind && op.path == call.path && op.text == call.text
    ensures Block(op, calls + [call])
  {
    var n := |calls|;
    assert Text(calls + [call], n, n + 1) == Text(calls + [call], n, n) + call.text == call.text;
  }

  lemma GrownBlock<T>(op: Op<T>, calls: seq<Call<T>>, call: Call<T>)
    requires Block(op, calls) && op.kind == Append && op.past == |calls| && call.kind == Append && call.path == op.path
    ensures Block(op.(text := op.text + call.text, past := op.past + 1), calls + [call])
  {
    TextFrame(calls, [call], op.first, op.past);
  }

  lemma TailBlock<T>(s: State<T>, h: History<T>)
    requires Core(s, h) && Pending(s) != []
    ensures Block(Pending(s)[|Pending(s)| - 1], h.calls)
  {
  }

  lemma ReplaceChain<T>(s: State<T>, h: History<T>, path: Path, text: seq<T>)
    requires Core(s, h)
    ensures var g := AfterReplace(s, h, path, text);
            Chain(Pending(Replaced(s, path, text)), g.calls, g.dropped, g.decided, |g.calls|)
  {
    hide Block, Played, Chain, FilesMatch, Superseded, Pending, Running;
    var n, t, g := |h.calls|, Replaced(s, path, text), AfterReplace(s, h, path, text);
    var call := Call(Replace, path, text);
    var at := ReplaceAt(s.queue, path);
    var op := t.queue[|t.queue| - 1];
    ReplacePending(s, path, text);
    NewBlock(op, h.calls, call);
    ChainMoreCalls(Pending(s), h.calls, h.dropped, h.decided, n, call);
    if at < |s.queue| {
      QueuedIsPending(s, at);
      ChainDrop(Pending(s), g.calls, h.dropped, h.decided, n, |Running(s)| + at);
      ReplacedFirst(s, h, |Running(s)| + at);
    } else {
      assert g.dropped == h.dropped;
    }
    ChainAdd(Others(s, path), g.calls, g.dropped, h.decided, n, op);
  }

  lemma ReplaceCore<T>(s: State<T>, h: History<T>, path: Path, text: seq<T>)
    requires Core(s, h)
    ensures Core(Replaced(s, path, text), AfterReplace(s, h, path, text))
  {
    hide Block, Played, Chain, FilesMatch, Superseded, Pending;
    var n, t, g, at := |h.calls|, Replaced(s, path, text), AfterReplace(s, h, path, text), ReplaceAt(s.queue, path);
    ReplaceChain(s, h, path, text);
    forall i | i in g.dropped
      ensures i < n && g.calls[i].kind == Replace && Superseded(g.calls, g.dropped, i, n + 1)
    {
      DroppedByLater(s, h, path, text, i);
    }
    if at < |s.queue| {
      QueuedIsPending(s, at);
      ReplacedFirst(s, h, |Running(s)| + at);
    }
    FilesStay(s, h, t, g);
    OneReplaceKept(s, path, text);
  }

  lemma ReplacedFirst<T>(s: State<T>, h: History<T>, i: nat)
    requires Core(s, h) && i < |Pending(s)| && Pending(s)[i].kind == Replace
    ensures var op := Pending(s)[i];
            h.decided <= op.first < |h.calls| && op.first !in h.dropped && Replaces(h.calls, op.first, op.path)
  {
    hide Played, FilesMatch, Superseded;
    var op := Pending(s)[i];
    BlockEnds(op, h.calls);
    assert Covered(Pending(s), op.first);
  }

  /** A dropped call's standing successor is either still there or the new call. */
  lemma DroppedByLater<T>(s: State<T>, h: History<T>, path: Path, text: seq<T>, i: nat)
    requires Core(s, h) && i in AfterReplace(s, h, path, text).dropped
    ensures var g := AfterReplace(s, h, path, text);
            i < |h.calls| && g.calls[i].kind == Replace && Superseded(g.calls, g.dropped, i, |h.calls| + 1)
  {
    hide Block, Played, Chain, FilesMatch;
    var n, g, at, lead := |h.calls|, AfterReplace(s, h, path, text), ReplaceAt(s.queue, path), |Running(s)|;
    var r := if at < |s.queue| then s.queue[at].first else n;
    if at < |s.queue| {
      assert Pending(s)[lead + at] == s.queue[at];
      ReplacedFirst(s, h, lead + at);
    }
    assert g.calls[n] == Call(Replace, path, text);
    assert n !in h.dropped;
    if i != r {
      var k: nat :| i < k < n && Replaces(h.calls, k, h.calls[i].path) && k !in h.dropped;
      if k == r {
        assert Replaces(g.calls, n, g.calls[i].path) && n !in g.dropped;
      } else {
        assert Replaces(g.calls, k, g.calls[i].path) && k !in g.dropped;
      }
    } else {
      assert Replaces(g.calls, n, g.calls[i].path) && n !in g.dropped;
    }
  }

  lemma OneReplaceKept<T>(s: State<T>, path: Path, text: seq<T>)
    requires OneReplaceEach(s.queue)
    ensures OneReplaceEach(Replaced(s, path, text).queue)
  {
    var at, q := ReplaceAt(s.queue, path), Replaced(s, path, text).queue;
    forall i, j | 0 <= i < j < |q| && q[i].kind == Replace && q[j].kind == Replace
      ensures q[i].path != q[j].path
    {
      assert q[i] == s.queue[if i < at then i else i + 1];
      if j < |q| - 1 {
        assert q[j] == s.queue[if j < at then j else j + 1];
      }
    }
  }

  lemma WakeCore<T>(s: State<T>, h: History<T>)
    requires Core(s, h) && s.scheduled > 0
    ensures Core(Woken(s), h)
  {
    hide Block, Played, Chain, Superseded;
    assert Pending(Woken(s)) == Pending(s);
  }

  lemma LandCore<T>(s: State<T>, h: History<T>, n: nat)
    requires Core(s, h) && CanLand(s, n)
    ensures Core(Landed(s, n), h)
  {
    hide Block, Chain, Superseded, Base;
    var t, op := Landed(s, n), s.current.value;
    assert Pending(t) == Pending(s);
    forall path
      ensures Read(t.files, path) ==
          (if op.path == path then Some(Do(Base(h, path), op.kind, op.text[..n])) else Base(h, path))
    {
      var from := if s.landing.Some? then s.landing.value else 0;
      var now := Read(s.files, path);
      DoInTwo(Base(h, path), op.kind, op.text, from, n);
    }
  }

  /** An append in two parts is one append, and a part from the start is the whole of it. */
  lemma DoInTwo<T>(base: Option<seq<T>>, kind: Kind, text: seq<T>, from: nat, n: nat)
    requires from <= n <= |text|
    ensures Do(Some(Do(base, Append, text[..from])), Append, text[from..n]) == Do(base, Append, text[..n])
    ensures from == 0 ==> text[from..n] == text[..n]
  {
    assert text[..n] == text[..from] + text[from..n];
    if base.Some? {
      assert (base.value + text[..from]) + text[from..n] == base.value + (text[..from] + text[from..n]);
    }
  }

  /** The running write is at an end when all of it landed. */
  predicate Whole<T>(s: State<T>) {
    s.current.Some? && s.landing == Some(|s.current.value.text|)
  }

  lemma FinishCore<T>(s: State<T>, h: History<T>)
    requires Core(s, h) && Whole(s)
    ensures Core(Finished(s), AfterFinish(s, h))
  {
    hide Block, Played, Chain, Superseded;
    var t, g, op := Finished(s), AfterFinish(s, h), s.current.value;
    assert Pending(s)[0] == op && Pending(s)[1..] == s.queue == Pending(t);
    ChainTail(Pending(s), h.calls, h.dropped, h.decided, |h.calls|);
    BlockEnds(op, h.calls);
    forall path
      ensures Read(t.files, path) == Base(g, path)
    {
      assert op.text[..|op.text|] == op.text;
      var skip := h.dropped + h.failed;
      PlayedSkipping(Read(h.start, path), h.calls, skip, h.decided, op.first, path);
      PlayedBlock(Read(h.start, path), h.calls, skip, op, op.past, path);
    }
    QueueTail(s);
  }

  lemma QueueTail<T>(s: State<T>)
    requires OneReplaceEach(s.queue) && s.current.Some?
    ensures OneReplaceEach(Finished(s).queue)
  {
  }

  lemma FailCore<T>(s: State<T>, h: History<T>)
    requires Core(s, h) && s.current.Some? && s.landing == None
    ensures Core(Finished(s), AfterFail(s, h))
  {
    hide Block, Played, Chain, Superseded;
    var t, g, op := Finished(s), AfterFail(s, h), s.current.value;
    assert Pending(s)[0] == op && Pending(s)[1..] == s.queue == Pending(t);
    ChainTail(Pending(s), h.calls, h.dropped, h.decided, |h.calls|);
    forall path
      ensures Read(t.files, path) == Base(g, path)
    {
      assert Read(s.files, path) == Base(h, path);
      PlayedSkipping(Read(h.start, path), h.calls, h.dropped + g.failed, h.decided, op.past, path);
      PlayedFrame(Read(h.start, path), h.calls, h.calls, h.dropped + h.failed, h.dropped + g.failed, h.decided, path);
    }
    QueueTail(s);
  }

  /* ---- lastFor and the promises under each step ---- */

  lemma {:induction false} LastFirstWithout<T>(ops: seq<Op<T>>, at: nat, path: Path)
    requires at < |ops| && ops[at].path != path
    ensures LastFirst(ops[..at] + ops[at + 1..], path) == LastFirst(ops, path)
  {
    var rest := ops[..at] + ops[at + 1..];
    var k := |ops| - 1;
    if at < k {
      assert rest[|rest| - 1] == ops[k];
      assert ops[..k][..at] == ops[..at];
      assert rest[..|rest| - 1] == ops[..k][..at] + ops[..k][at + 1..];
      LastFirstWithout(ops[..k], at, path);
    } else {
      assert rest == ops[..k];
    }
  }

  /** Without its first write, a path's last write is the same, unless it was that one. */
  lemma {:induction false} LastFirstTail<T>(ops: seq<Op<T>>, path: Path)
    requires ops != [] && forall i :: 0 < i < |ops| ==> ops[i].first != ops[0].first
    ensures LastFirst(ops[1..], path) ==
        (if LastFirst(ops, path) == Some(ops[0].first) then None else LastFirst(ops, path))
    ensures ops[0].path == path ==> LastFirst(ops, path).Some?
    ensures LastFirst(ops, path) == Some(ops[0].first) ==> ops[0].path == path
  {
    var k := |ops| - 1;
    if k > 0 {
      assert ops[1..][|ops[1..]| - 1] == ops[k];
      assert ops[1..][..|ops[1..]| - 1] == ops[..k][1..];
      if ops[k].path != path {
        LastFirstTail(ops[..k], path);
      } 
    } else {
      assert ops[1..] == [] && ops[..k] == [];
    }
  }

  lemma LastFirstSnoc<T>(ops: seq<Op<T>>, op: Op<T>, path: Path)
    ensures LastFirst(ops + [op], path) == (if op.path == path then Some(op.first) else LastFirst(ops, path))
  {
    assert (ops + [op])[..|ops|] == ops;
  }

  lemma AppendNames<T>(s: State<T>, path: Path, text: seq<T>)
    requires LastForIsLast(s)
    ensures LastForIsLast(Appended(s, path, text))
  {
    hide LastFirst, Pending, Running;
    var t := Appended(s, path, text);
    AppendPending(s, path, text);
    var k := |Pending(s)| - 1;
    var op := t.queue[|t.queue| - 1];
    forall p
      ensures LastFor(t, p) == LastFirst(Pending(t), p)
    {
      assert LastFor(s, p) == LastFirst(Pending(s), p);
      if Joins(s, path) {
        LastFirstSnoc(Pending(s)[..k], Pending(s)[k], p);
        assert Pending(s) == Pending(s)[..k] + [Pending(s)[k]];
        LastFirstSnoc(Pending(s)[..k], op, p);
      } else {
        LastFirstSnoc(Pending(s), op, p);
      }
    }
  }

  lemma ReplaceNames<T>(s: State<T>, path: Path, text: seq<T>)
    requires LastForIsLast(s)
    ensures LastForIsLast(Replaced(s, path, text))
  {
    hide Pending, Running, LastFirst;
    var t, at, lead := Replaced(s, path, text), ReplaceAt(s.queue, path), |Running(s)|;
    ReplacePending(s, path, text);
    forall p
      ensures LastFor(t, p) == LastFirst(Pending(t), p)
    {
      LastFirstSnoc(Others(s, path), t.queue[|t.queue| - 1], p);
      assert LastFor(s, p) == LastFirst(Pending(s), p);
      if p != path && at < |s.queue| {
        QueuedIsPending(s, at);
        LastFirstWithout(Pending(s), lead + at, p);
      }
    }
  }

  lemma WakeNames<T>(s: State<T>)
    requires LastForIsLast(s) && s.scheduled > 0
    ensures LastForIsLast(Woken(s)) && Pending(Woken(s)) == Pending(s)
  {
    var t := Woken(s);
    assert Pending(t) == Pending(s);
    forall p
      ensures LastFor(t, p) == LastFirst(Pending(t), p)
    {
      assert LastFor(s, p) == LastFirst(Pending(s), p);
    }
  }

  lemma FirstsDiffer<T>(ops: seq<Op<T>>, calls: seq<Call<T>>, dropped: set<nat>, lo: nat, hi: nat)
    requires Chain(ops, calls, dropped, lo, hi)
    ensures forall i :: 0 < i < |ops| ==> ops[i].first != ops[0].first
  {
    hide Block, Covered;
    if ops != [] {
      BlockEnds(ops[0], calls);
    }
  }

  lemma FinishNames<T>(s: State<T>, h: History<T>)
    requires Core(s, h) && LastForIsLast(s) && s.current.Some?
    ensures LastForIsLast(Finished(s))
  {
    hide Block, FilesMatch, Superseded, Chain;
    var t, op := Finished(s), s.current.value;
    assert Pending(s)[0] == op && Pending(s)[1..] == s.queue == Pending(t);
    FirstsDiffer(Pending(s), h.calls, h.dropped, h.decided, |h.calls|);
    forall p
      ensures LastFor(t, p) == LastFirst(Pending(t), p)
    {
      assert LastFor(s, p) == LastFirst(Pending(s), p);
      LastFirstTail(Pending(s), p);
    }
  }

  /* ---- Promises under each step ---- */

  /** Writes that take over the promises of others one for one, but for new ones, are apart as those are. */
  lemma ApartBy<T>(ops: seq<Op<T>>, settled: set<nat>, next: nat, others: seq<Op<T>>, from: seq<int>)
    requires PromisesApart(ops, settled, next) && |from| == |others|
    requires forall i :: 0 <= i < |others| ==> -1 <= from[i] < |ops|
    requires forall i, id :: 0 <= i < |others| && id in others[i].settles ==>
               (id == next && i == |others| - 1) || (from[i] >= 0 && id in ops[from[i]].settles)
    requires forall i, j :: 0 <= i < j < |others| && from[i] == from[j] ==> from[i] == -1
    ensures PromisesApart(others, settled, next + 1)
  {
    forall i, j, id | 0 <= i < |others| && 0 <= j < |others| && id in others[i].settles && id in others[j].settles
      ensures i == j
    {
      if id != next {
        assert from[i] >= 0 && from[j] >= 0 && id in ops[from[i]].settles && id in ops[from[j]].settles;
      }
    }
    forall i, id | 0 <= i < |others| && id in others[i].settles
      ensures id < next + 1 && id !in settled
    {
      assert next !in settled;
    }
  }

  lemma ApartAdd<T>(ops: seq<Op<T>>, settled: set<nat>, next: nat, op: Op<T>)
    requires PromisesApart(ops, settled, next) && op.settles == {next}
    ensures PromisesApart(ops + [op], settled, next + 1)
  {
    hide PromisesApart;
    ApartBy(ops, settled, next, ops + [op], seq(|ops| + 1, i => if i < |ops| then i else -1));
  }

  lemma ApartMove<T>(ops: seq<Op<T>>, settled: set<nat>, next: nat, at: nat, op: Op<T>)
    requires PromisesApart(ops, settled, next) && at < |ops| && op.settles == {next} + ops[at].settles
    ensures PromisesApart(ops[..at] + ops[at + 1..] + [op], settled, next + 1)
  {
    hide PromisesApart;
    var n := |ops|;
    ApartBy(ops, settled, next, ops[..at] + ops[at + 1..] + [op],
        seq(n, i => if i < at then i else if i < n - 1 then i + 1 else at));
  }

  lemma ApartGrown<T>(ops: seq<Op<T>>, settled: set<nat>, next: nat, op: Op<T>)
    requires PromisesApart(ops, settled, next) && ops != [] && op.settles == ops[|ops| - 1].settles
    ensures PromisesApart(ops[..|ops| - 1] + [op], settled, next + 1)
  {
    hide PromisesApart;
    ApartBy(ops, settled, next, ops[..|ops| - 1] + [op], seq(|ops|, i => i));
  }

  lemma ApartTail<T>(ops: seq<Op<T>>, settled: set<nat>, next: nat)
    requires PromisesApart(ops, settled, next) && ops != []
    ensures PromisesApart(ops[1..], settled + ops[0].settles, next)
  {
    var rest := ops[1..];
    forall i, j, id | 0 <= i < |rest| && 0 <= j < |rest| && id in rest[i].settles && id in rest[j].settles
      ensures i == j
    {
      assert rest[i] == ops[i + 1] && rest[j] == ops[j + 1];
    }
    forall i, id | 0 <= i < |rest| && id in rest[i].settles
      ensures id < next && id !in settled + ops[0].settles
    {
      assert rest[i] == ops[i + 1];
      assert id in ops[i + 1].settles && id !in ops[0].settles;
    }
    forall id | id in settled + ops[0].settles
      ensures id < next
    {
      assert id in settled || id in ops[0].settles;
    }
  }

  lemma ApartAppended<T>(s: State<T>, path: Path, text: seq<T>)
    requires PromisesApart(Pending(s), s.settled, s.next)
    ensures var t := Appended(s, path, text); PromisesApart(Pending(t), t.settled, t.next)
  {
    hide PromisesApart, Pending;
    var t := Appended(s, path, text);
    var op := t.queue[|t.queue| - 1];
    AppendPending(s, path, text);
    if Joins(s, path) {
      ApartGrown(Pending(s), s.settled, s.next, op);
    } else {
      ApartAdd(Pending(s), s.settled, s.next, op);
    }
  }

  lemma ApartReplaced<T>(s: State<T>, path: Path, text: seq<T>)
    requires PromisesApart(Pending(s), s.settled, s.next)
    ensures var t := Replaced(s, path, text); PromisesApart(Pending(t), t.settled, t.next)
  {
    hide PromisesApart, Pending, Running;
    ReplacePending(s, path, text);
    var t, at := Replaced(s, path, text), ReplaceAt(s.queue, path);
    var op := t.queue[|t.queue| - 1];
    if at < |s.queue| {
      QueuedIsPending(s, at);
      ApartMove(Pending(s), s.settled, s.next, |Running(s)| + at, op);
    } else {
      assert op.settles == {s.next};
      ApartAdd(Pending(s), s.settled, s.next, op);
    }
  }

  lemma ApartFinished<T>(s: State<T>)
    requires PromisesApart(Pending(s), s.settled, s.next) && s.current.Some?
    ensures var t := Finished(s); PromisesApart(Pending(t), t.settled, t.next)
  {
    hide PromisesApart;
    assert Pending(s)[0] == s.current.value && Pending(s)[1..] == s.queue == Pending(Finished(s));
    ApartTail(Pending(s), s.settled, s.next);
  }

  lemma CoversMore<T>(h: History<T>, call: Call<T>, p: Promise, m: nat)
    requires Covers(h, p, m) && (forall i :: i in h.dropped ==> i < |h.calls|)
    ensures Covers(Called(h, call), p, m)
  {
    var g := Called(h, call);
    forall i: nat | i < p.upto && g.calls[i].path == p.path
      ensures i < m && (i in g.dropped ==> Superseded(g.calls, g.dropped, i, m))
    {
      assert h.calls[i].path == p.path;
      if i in h.dropped {
        var k: nat :| i < k < m && Replaces(h.calls, k, h.calls[i].path) && k !in h.dropped;
        assert Replaces(g.calls, k, g.calls[i].path);
      }
    }
  }

  /** Dropping a replace at or after the cut leaves every promise up to the cut as it was. */
  lemma CoversDrop<T>(h: History<T>, p: Promise, m: nat, r: nat)
    requires Covers(h, p, m) && r < |h.calls| && (m <= r || h.calls[r].path != p.path)
    ensures Covers(h.(dropped := h.dropped + {r}), p, m)
  {
    var g := h.(dropped := h.dropped + {r});
    forall i: nat | i < p.upto && g.calls[i].path == p.path
      ensures i < m && (i in g.dropped ==> Superseded(g.calls, g.dropped, i, m))
    {
      assert h.calls[i].path == p.path;
      if i in g.dropped {
        var k: nat :| i < k < m && Replaces(h.calls, k, h.calls[i].path) && k !in h.dropped;
        assert k !in g.dropped;
      }
    }
  }

  /** A new replace covers every promise made before it. */
  lemma CoversAll<T>(h: History<T>, p: Promise, n: nat)
    requires n + 1 == |h.calls| && p.upto <= n && Replaces(h.calls, n, p.path) && n !in h.dropped
    ensures Covers(h, p, n + 1)
  {
  }

  lemma AppendBacked<T>(s: State<T>, h: History<T>, path: Path, text: seq<T>, p: Promise)
    requires Core(s, h) && Backed(s, h, p)
    ensures Backed(Appended(s, path, text), AfterAppend(h, path, text), p)
  {
    hide Covers, Chain, FilesMatch, Superseded, OneReplaceEach, Pending, Running;
    var t, g := Appended(s, path, text), AfterAppend(h, path, text);
    var m: nat :| Covers(h, p, m) && ((Answered(s, p) && m <= h.decided) || exists i :: Owes(s, p, m, i));
    CoversMore(h, Call(Append, path, text), p, m);
    if !(Answered(s, p) && m <= h.decided) {
      var i :| Owes(s, p, m, i);
      if Joins(s, path) {
        AppendPending(s, path, text);
        TailTouches(s, h);
      }
      AppendOwes(s, path, text, p, m, i);
    }
  }

  lemma AppendOwes<T>(s: State<T>, path: Path, text: seq<T>, p: Promise, m: nat, i: int)
    requires Owes(s, p, m, i) && (Joins(s, path) ==> s.queue[|s.queue| - 1].past <= s.next)
    ensures Owes(Appended(s, path, text), p, m, i)
  {
    hide Pending, Running;
    var t := Appended(s, path, text);
    AppendPending(s, path, text);
    forall j | 0 <= j < |t.queue| && t.queue[j].kind == Replace
      ensures j < |s.queue| && t.queue[j] == s.queue[j]
    {
    }
  }

  /** Where a waiting write stands after a replace: moved up if one before it was dropped. */
  function Moved<T>(s: State<T>, path: Path, i: int): int {
    var at := ReplaceAt(s.queue, path);
    if at < |s.queue| && i > |Running(s)| + at then i - 1 else i
  }

  lemma ReplaceKeeps<T>(s: State<T>, path: Path, text: seq<T>, i: int)
    requires 0 <= i < |Pending(s)|
    requires ReplaceAt(s.queue, path) < |s.queue| ==> i != |Running(s)| + ReplaceAt(s.queue, path)
    ensures 0 <= Moved(s, path, i) < |Pending(Replaced(s, path, text))|
    ensures Pending(Replaced(s, path, text))[Moved(s, path, i)] == Pending(s)[i]
  {
    hide Pending, Running;
    var at := ReplaceAt(s.queue, path);
    ReplacePending(s, path, text);
    if at < |s.queue| {
      QueuedIsPending(s, at);
    }
  }

  /** What waits after a replace, other than itself, waited before and is no replace of its path. */
  lemma ReplaceQueue<T>(s: State<T>, path: Path, text: seq<T>, j: int)
    requires OneReplaceEach(s.queue) && 0 <= j < |Replaced(s, path, text).queue| - 1
    ensures var q := Replaced(s, path, text).queue;
            var i := if j < ReplaceAt(s.queue, path) then j else j + 1;
            i < |s.queue| && q[j] == s.queue[i] && !(q[j].kind == Replace && q[j].path == path)
  {
  }

  /** The promise of a dropped replace goes to the one that took its place. */
  lemma ReplaceTakesOver<T>(s: State<T>, path: Path, text: seq<T>, p: Promise)
    requires OneReplaceEach(s.queue) && ReplaceAt(s.queue, path) < |s.queue| && p.path == path
    requires p.id.Some? && p.id.value in s.queue[ReplaceAt(s.queue, path)].settles
    ensures var t := Replaced(s, path, text); Owes(t, p, s.next + 1, |Pending(t)| - 1)
  {
    hide Pending, Running;
    var t := Replaced(s, path, text);
    ReplacePending(s, path, text);
    forall j | 0 <= j < |t.queue| - 1
      ensures !(t.queue[j].kind == Replace && t.queue[j].path == path)
    {
      ReplaceQueue(s, path, text, j);
    }
  }

  lemma ReplaceOwes<T>(s: State<T>, path: Path, text: seq<T>, p: Promise, m: nat, i: int)
    requires OneReplaceEach(s.queue) && Owes(s, p, m, i) && m <= s.next
    requires var at := ReplaceAt(s.queue, path); at < |s.queue| ==> p.id.value !in s.queue[at].settles || path != p.path
    ensures Owes(Replaced(s, path, text), p, m, Moved(s, path, i))
  {
    hide Pending, Running;
    var t, at := Replaced(s, path, text), ReplaceAt(s.queue, path);
    if at < |s.queue| {
      QueuedIsPending(s, at);
    }
    ReplaceKeeps(s, path, text, i);
    forall j | 0 <= j < |t.queue| && t.queue[j].kind == Replace && t.queue[j].path == p.path &&
        p.id.value !in t.queue[j].settles
      ensures m <= t.queue[j].first
    {
      if j < |t.queue| - 1 {
        ReplaceQueue(s, path, text, j);
      }
    }
  }

  lemma ReplaceBacked<T>(s: State<T>, h: History<T>, path: Path, text: seq<T>, p: Promise)
    requires Core(s, h) && Backed(s, h, p)
    ensures Backed(Replaced(s, path, text), AfterReplace(s, h, path, text), p)
  {
    hide Covers, Chain, FilesMatch, Superseded, OneReplaceEach, Pending, Running, Owes;
    var n, t, g, at := |h.calls|, Replaced(s, path, text), AfterReplace(s, h, path, text), ReplaceAt(s.queue, path);
    var call := Call(Replace, path, text);
    var m: nat :| Covers(h, p, m) && ((Answered(s, p) && m <= h.decided) || exists i :: Owes(s, p, m, i));
    if at < |s.queue| {
      QueuedIsPending(s, at);
      ReplacedFirst(s, h, |Running(s)| + at);
    } else {
      assert g.dropped == h.dropped;
    }
    CoversMore(h, call, p, m);
    if Answered(s, p) && m <= h.decided {
      if at < |s.queue| {
        CoversDrop(Called(h, call), p, m, s.queue[at].first);
      }
      assert Covers(g, p, m) && Answered(t, p);
    } else {
      var i :| Owes(s, p, m, i);
      OwedBounds(s, h, p, m, i);
      if at < |s.queue| && path == p.path && p.id.value in s.queue[at].settles {
        ReplaceTakesOver(s, path, text, p);
        CoversUpto(h, p, m);
        CoversAll(g, p, n);
      } else {
        if at < |s.queue| {
          OwedBeforeReplace(s, p, m, i, at);
          CoversDrop(Called(h, call), p, m, s.queue[at].first);
        }
        ReplaceOwes(s, path, text, p, m, i);
      }
    }
  }

  lemma OwedBounds<T>(s: State<T>, h: History<T>, p: Promise, m: nat, i: int)
    requires Core(s, h) && Owes(s, p, m, i)
    ensures m <= s.next && p.id.Some?
  {
    hide Block, Pending, FilesMatch, Superseded, Covered;
    BlockEnds(Pending(s)[i], h.calls);
  }

  lemma CoversUpto<T>(h: History<T>, p: Promise, m: nat)
    requires Covers(h, p, m)
    ensures p.upto <= |h.calls|
  {
  }

  lemma OwedBeforeReplace<T>(s: State<T>, p: Promise, m: nat, i: int, at: nat)
    requires Owes(s, p, m, i) && at < |s.queue| && s.queue[at].kind == Replace
    ensures p.path == s.queue[at].path && p.id.value !in s.queue[at].settles ==> m <= s.queue[at].first
  {
  }

  /** A run that ends or fails answers its own promises and leaves the others to the writes they wait for. */
  lemma FinishBacked<T>(s: State<T>, h: History<T>, g: History<T>, p: Promise)
    requires Core(s, h) && Backed(s, h, p) && s.current.Some?
    requires g.calls == h.calls && g.dropped == h.dropped && g.decided == s.current.value.past
    ensures Backed(Finished(s), g, p)
  {
    hide Chain, FilesMatch, Superseded, OneReplaceEach, Block;
    var t, op := Finished(s), s.current.value;
    assert Pending(s)[0] == op && Pending(s)[1..] == s.queue == Pending(t);
    ChainTail(Pending(s), h.calls, h.dropped, h.decided, |h.calls|);
    var m: nat :| Covers(h, p, m) && ((Answered(s, p) && m <= h.decided) || exists i :: Owes(s, p, m, i));
    assert Covers(g, p, m);
    if !(Answered(s, p) && m <= h.decided) {
      var i :| Owes(s, p, m, i);
      if i == 0 {
        assert Answered(t, p) && m <= g.decided;
      } else {
        FinishOwes(s, p, m, i);
      }
    }
  }

  lemma FinishOwes<T>(s: State<T>, p: Promise, m: nat, i: int)
    requires Owes(s, p, m, i) && i > 0 && s.current.Some?
    ensures Owes(Finished(s), p, m, i - 1)
  {
    var t := Finished(s);
    assert Pending(s)[1..] == s.queue == Pending(t);
    assert Pending(t)[i - 1] == Pending(s)[i];
    forall j | 0 <= j < |t.queue|
      ensures t.queue[j] == s.queue[j + 1]
    {
    }
  }

  lemma WakeBacked<T>(s: State<T>, h: History<T>, p: Promise)
    requires Backed(s, h, p) && s.scheduled > 0
    ensures Backed(Woken(s), h, p)
  {
    hide Covers;
    var t := Woken(s);
    assert Pending(t) == Pending(s);
    var m: nat :| Covers(h, p, m) && ((Answered(s, p) && m <= h.decided) || exists i :: Owes(s, p, m, i));
    if !(Answered(s, p) && m <= h.decided) {
      var i :| Owes(s, p, m, i);
      assert forall j :: 0 <= j < |t.queue| ==> t.queue[j] in s.queue;
      assert Owes(t, p, m, i);
    }
  }

  lemma LandBacked<T>(s: State<T>, h: History<T>, n: nat, p: Promise)
    requires Backed(s, h, p) && CanLand(s, n)
    ensures Backed(Landed(s, n), h, p)
  {
    hide Covers;
    var t := Landed(s, n);
    assert Pending(t) == Pending(s);
    var m: nat :| Covers(h, p, m) && ((Answered(s, p) && m <= h.decided) || exists i :: Owes(s, p, m, i));
    if !(Answered(s, p) && m <= h.decided) {
      var i :| Owes(s, p, m, i);
      assert Owes(t, p, m, i);
    }
  }

  /* ---- A new promise ---- */

  /** No replace of the path can be dropped from before the write the promise waits for. */
  predicate Plain<T>(s: State<T>, path: Path) {
    var at := ReplaceAt(s.queue, path);
    at < |s.queue| ==> path in s.lastFor && s.lastFor[path] == s.queue[at].first
  }

  function Promised<T>(s: State<T>, path: Path): Promise {
    Promise(path, s.next, LastFor(s, path))
  }

  /** Where a path's last waiting write stands, and that every call for the path came before its end. */
  lemma {:induction false} LastStands<T>(ops: seq<Op<T>>, path: Path) returns (i: int)
    ensures LastFirst(ops, path) == None ==> i == -1 && forall j :: 0 <= j < |ops| ==> ops[j].path != path
    ensures LastFirst(ops, path).Some? ==>
        0 <= i < |ops| && ops[i].path == path && ops[i].first == LastFirst(ops, path).value
    ensures LastFirst(ops, path).Some? ==> forall j :: i < j < |ops| ==> ops[j].path != path
  {
    if ops == [] {
      i := -1;
    } else if ops[|ops| - 1].path == path {
      i := |ops| - 1;
    } else {
      i := LastStands(ops[..|ops| - 1], path);
    }
  }

  /** A call that stands belongs to a waiting write of its path, or is decided. */
  lemma StandingCall<T>(s: State<T>, h: History<T>, k: nat)
    requires Core(s, h) && k < |h.calls| && k !in h.dropped
    ensures || k < h.decided
            || exists j :: 0 <= j < |Pending(s)| && Pending(s)[j].first <= k < Pending(s)[j].past &&
                Pending(s)[j].path == h.calls[k].path
  {
    hide Block, FilesMatch, Superseded, Pending;
    if k >= h.decided {
      assert Covered(Pending(s), k);
      var j :| 0 <= j < |Pending(s)| && Pending(s)[j].first <= k < Pending(s)[j].past;
      BlockEnds(Pending(s)[j], h.calls);
    }
  }

  /** Every standing call of a path is before the end of its last waiting write, or decided when none waits. */
  lemma StandingBefore<T>(s: State<T>, h: History<T>, path: Path, i: int, k: nat)
    requires Core(s, h) && k < |h.calls| && k !in h.dropped && h.calls[k].path == path
    requires -1 <= i < |Pending(s)| && forall j :: i < j < |Pending(s)| ==> Pending(s)[j].path != path
    ensures k < (if i < 0 then h.decided else Pending(s)[i].past)
  {
    hide Block, FilesMatch, Superseded, Pending, Covered;
    StandingCall(s, h, k);
    if i >= 0 {
      BlockEnds(Pending(s)[i], h.calls);
    }
    if k >= h.decided {
      var j :| 0 <= j < |Pending(s)| && Pending(s)[j].first <= k < Pending(s)[j].past &&
          Pending(s)[j].path == h.calls[k].path;
      assert j <= i;
    }
  }

  lemma PromiseCovers<T>(s: State<T>, h: History<T>, path: Path, i: int)
    requires Core(s, h)
    requires -1 <= i < |Pending(s)| && forall j :: i < j < |Pending(s)| ==> Pending(s)[j].path != path
    ensures Covers(h, Promised(s, path), if i < 0 then h.decided else Pending(s)[i].past)
  {
    hide Block, FilesMatch, Pending, Chain, Superseded;
    var m := if i < 0 then h.decided else Pending(s)[i].past;
    forall c: nat | c < |h.calls| && h.calls[c].path == path
      ensures c < m && (c in h.dropped ==> Superseded(h.calls, h.dropped, c, m))
    {
      if c in h.dropped {
        SupersededBefore(s, h, path, i, c);
      } else {
        StandingBefore(s, h, path, i, c);
      }
    }
  }

  lemma SupersededBefore<T>(s: State<T>, h: History<T>, path: Path, i: int, c: nat)
    requires Core(s, h) && c in h.dropped && h.calls[c].path == path
    requires -1 <= i < |Pending(s)| && forall j :: i < j < |Pending(s)| ==> Pending(s)[j].path != path
    ensures var m := if i < 0 then h.decided else Pending(s)[i].past; c < m && Superseded(h.calls, h.dropped, c, m)
  {
    hide Block, FilesMatch, Pending, Chain;
    var k: nat :| c < k < |h.calls| && Replaces(h.calls, k, h.calls[c].path) && k !in h.dropped;
    StandingBefore(s, h, path, i, k);
  }

  lemma PromiseBacked<T>(s: State<T>, h: History<T>, path: Path)
    requires Core(s, h) && LastForIsLast(s) && Plain(s, path)
    ensures Backed(s, h, Promised(s, path))
  {
    hide Block, FilesMatch, Pending, Chain, Superseded, Covers, LastFirst;
    var p := Promised(s, path);
    assert LastFor(s, path) == LastFirst(Pending(s), path);
    var i := LastStands(Pending(s), path);
    PromiseCovers(s, h, path, i);
    if i >= 0 {
      PromiseOwed(s, h, path, i);
    }
  }

  lemma PromiseOwed<T>(s: State<T>, h: History<T>, path: Path, i: int)
    requires Core(s, h) && Plain(s, path) && 0 <= i < |Pending(s)|
    requires Pending(s)[i].path == path && LastFor(s, path) == Some(Pending(s)[i].first)
    ensures Owes(s, Promised(s, path), Pending(s)[i].past, i)
  {
    hide FilesMatch, Superseded, Covered, Block;
    BlockEnds(Pending(s)[i], h.calls);
    var p := Promised(s, path);
    forall j | 0 <= j < |s.queue| && s.queue[j].kind == Replace && s.queue[j].path == path
      ensures p.id.value in s.queue[j].settles
    {
      var at := ReplaceAt(s.queue, path);
      assert j == at;
      assert Pending(s)[|Running(s)| + j] == s.queue[j];
      BlockEnds(s.queue[j], h.calls);
    }
  }

  /* ---- The invariant under each step ---- */

  lemma AppendKeeps<T>(s: State<T>, h: History<T>, path: Path, text: seq<T>)
    requires Inv(s, h)
    ensures Inv(Appended(s, path, text), AfterAppend(h, path, text))
  {
    hide Core, LastForIsLast, PromisesApart, Backed, Pending;
    AppendCore(s, h, path, text);
    AppendNames(s, path, text);
    ApartAppended(s, path, text);
    forall p | p in h.promises
      ensures Backed(Appended(s, path, text), AfterAppend(h, path, text), p)
    {
      AppendBacked(s, h, path, text, p);
    }
  }

  lemma ReplaceKeepsInv<T>(s: State<T>, h: History<T>, path: Path, text: seq<T>)
    requires Inv(s, h)
    ensures Inv(Replaced(s, path, text), AfterReplace(s, h, path, text))
  {
    hide Core, LastForIsLast, PromisesApart, Backed, Pending;
    ReplaceCore(s, h, path, text);
    ReplaceNames(s, path, text);
    ApartReplaced(s, path, text);
    forall p | p in h.promises
      ensures Backed(Replaced(s, path, text), AfterReplace(s, h, path, text), p)
    {
      ReplaceBacked(s, h, path, text, p);
    }
  }

  lemma WakeKeeps<T>(s: State<T>, h: History<T>)
    requires Inv(s, h) && s.scheduled > 0
    ensures Inv(Woken(s), h)
  {
    hide Core, LastForIsLast, PromisesApart, Backed, Pending;
    WakeCore(s, h);
    WakeNames(s);
    forall p | p in h.promises
      ensures Backed(Woken(s), h, p)
    {
      WakeBacked(s, h, p);
    }
  }

  lemma LandKeeps<T>(s: State<T>, h: History<T>, n: nat)
    requires Inv(s, h) && CanLand(s, n)
    ensures Inv(Landed(s, n), h)
  {
    hide Core, LastForIsLast, PromisesApart, Backed;
    LandCore(s, h, n);
    assert Pending(Landed(s, n)) == Pending(s);
    LandNames(s, n);
    forall p | p in h.promises
      ensures Backed(Landed(s, n), h, p)
    {
      LandBacked(s, h, n, p);
    }
  }

  lemma LandNames<T>(s: State<T>, n: nat)
    requires LastForIsLast(s) && CanLand(s, n)
    ensures LastForIsLast(Landed(s, n))
  {
    var t := Landed(s, n);
    assert Pending(t) == Pending(s);
    forall p
      ensures LastFor(t, p) == LastFirst(Pending(t), p)
    {
      assert LastFor(s, p) == LastFirst(Pending(s), p);
    }
  }

  lemma FinishKeeps<T>(s: State<T>, h: History<T>)
    requires Inv(s, h) && Whole(s)
    ensures Inv(Finished(s), AfterFinish(s, h))
  {
    hide Core, LastForIsLast, PromisesApart, Backed, Pending;
    FinishCore(s, h);
    FinishNames(s, h);
    ApartFinished(s);
    forall p | p in h.promises
      ensures Backed(Finished(s), AfterFinish(s, h), p)
    {
      FinishBacked(s, h, AfterFinish(s, h), p);
    }
  }

  /* ---- A write that fails part-landed ---- */

  lemma CutShape<T>(calls: seq<Call<T>>, first: nat, past: nat, n: nat)
    ensures var cut := Cut(calls, first, past, n);
            && (forall i :: 0 <= i < |calls| ==> cut[i].kind == calls[i].kind && cut[i].path == calls[i].path)
            && (forall i :: 0 <= i < |calls| && !(first <= i < past) ==> cut[i] == calls[i])
  {
    hide Cut, Text, Clip;
  }

  lemma ClipJoined<T>(a: seq<T>, b: seq<T>, n: nat)
    ensures Clip(a + b, n) == Clip(a, n) + Clip(b, n - |a|)
  {
  }

  lemma {:induction false} CutText<T>(calls: seq<Call<T>>, first: nat, past: nat, n: nat, k: nat)
    requires first <= k <= past <= |calls|
    ensures Text(Cut(calls, first, past, n), first, k) == Clip(Text(calls, first, k), n)
    decreases k
  {
    hide Cut, Clip;
    if k == first {
      ClipNothing<T>(n);
    } else {
      CutText(calls, first, past, n, k - 1);
      ClipJoined(Text(calls, first, k - 1), calls[k - 1].text, n);
      assert Cut(calls, first, past, n)[k - 1] == CutCall(calls, first, past, n, k - 1);
    }
  }

  lemma ClipNothing<T>(n: nat)
    ensures Clip<T>([], n) == []
  {
  }

  lemma {:induction false} CutElsewhere<T>(calls: seq<Call<T>>, first: nat, past: nat, n: nat, lo: nat, hi: nat)
    requires lo <= hi <= |calls| && (hi <= first || past <= lo)
    ensures Text(Cut(calls, first, past, n), lo, hi) == Text(calls, lo, hi)
    decreases hi
  {
    hide Cut, CutCall;
    CutShape(calls, first, past, n);
    if lo < hi {
      CutElsewhere(calls, first, past, n, lo, hi - 1);
    }
  }

  /** The running write as if its text were no more than what landed. */
  function Shorn<T>(s: State<T>): State<T>
    requires s.current.Some? && s.landing.Some? && s.landing.value <= |s.current.value.text|
  {
    s.(current := Some(s.current.value.(text := s.current.value.text[..s.landing.value])))
  }

  function Torn<T>(s: State<T>, h: History<T>): History<T>
    requires s.current.Some? && s.landing.Some?
  {
    h.(calls := Cut(h.calls, s.current.value.first, s.current.value.past, s.landing.value))
  }

  lemma ShornPending<T>(s: State<T>)
    requires s.current.Some? && s.landing.Some? && s.landing.value <= |s.current.value.text|
    ensures var ops, cut := Pending(s), Pending(Shorn(s));
            && |cut| == |ops| > 0 && cut[0] == Shorn(s).current.value && ops[0] == s.current.value
            && (forall i :: 0 < i < |ops| ==> cut[i] == ops[i])
            && (forall i :: 0 <= i < |ops| ==> cut[i].kind == ops[i].kind && cut[i].path == ops[i].path)
            && (forall i :: 0 <= i < |ops| ==> cut[i].first == ops[i].first && cut[i].past == ops[i].past)
            && (forall i :: 0 <= i < |ops| ==> cut[i].settles == ops[i].settles)
  {
  }

  lemma CutSuperseded<T>(calls: seq<Call<T>>, cut: seq<Call<T>>, dropped: set<nat>, i: nat, m: nat)
    requires |cut| == |calls| && forall k :: 0 <= k < |calls| ==>
        cut[k].kind == calls[k].kind && cut[k].path == calls[k].path
    ensures Superseded(cut, dropped, i, m) <==> Superseded(calls, dropped, i, m)
  {
    if Superseded(calls, dropped, i, m) {
      var k: nat :| i < k < m && Replaces(calls, k, calls[i].path) && k !in dropped;
      assert Replaces(cut, k, cut[i].path);
    }
    if Superseded(cut, dropped, i, m) {
      var k: nat :| i < k < m && Replaces(cut, k, cut[i].path) && k !in dropped;
      assert Replaces(calls, k, calls[i].path);
    }
  }

  lemma CutCovered<T>(ops: seq<Op<T>>, cut: seq<Op<T>>, n: nat)
    requires |cut| == |ops| && forall i :: 0 <= i < |ops| ==> cut[i].first == ops[i].first && cut[i].past == ops[i].past
    ensures Covered(cut, n) <==> Covered(ops, n)
  {
    if Covered(ops, n) {
      var i :| 0 <= i < |ops| && ops[i].first <= n < ops[i].past;
      assert cut[i].first <= n < cut[i].past;
    }
  }

  lemma ShornBlock<T>(s: State<T>, h: History<T>, i: int)
    requires Core(s, h) && s.current.Some? && s.landing.Some? && 0 <= i < |Pending(s)|
    ensures Block(Pending(Shorn(s))[i], Torn(s, h).calls)
  {
    hide Covered, Superseded, FilesMatch, Cut, CutCall, Text, Pending;
    ShornPending(s);
    CutShape(h.calls, s.current.value.first, s.current.value.past, s.landing.value);
    var op, first, past, n := Pending(s)[i], s.current.value.first, s.current.value.past, s.landing.value;
    assert Block(op, h.calls) && Block(s.current.value, h.calls);
    if i == 0 {
      CutText(h.calls, first, past, n, past);
      assert Clip(s.current.value.text, n) == s.current.value.text[..n];
    } else {
      CutElsewhere(h.calls, first, past, n, op.first, op.past);
    }
  }

  lemma ShornChain<T>(s: State<T>, h: History<T>)
    requires Core(s, h) && s.current.Some? && s.landing.Some?
    ensures Chain(Pending(Shorn(s)), Torn(s, h).calls, h.dropped, h.decided, |h.calls|)
  {
    hide Covered, Superseded, FilesMatch, Cut, Text, Block, Pending;
    var ops, cut := Pending(s), Pending(Shorn(s));
    ShornPending(s);
    forall i | 0 <= i < |cut|
      ensures Block(cut[i], Torn(s, h).calls)
    {
      ShornBlock(s, h, i);
    }
    forall n: nat | h.decided <= n < |h.calls|
      ensures Covered(cut, n) <==> Covered(ops, n)
    {
      CutCovered(ops, cut, n);
    }
  }

  lemma ShornFiles<T>(s: State<T>, h: History<T>)
    requires Core(s, h) && s.current.Some? && s.landing.Some?
    ensures FilesMatch(Shorn(s), Torn(s, h))
  {
    hide Covered, Superseded, Cut, CutCall, Text, Played, Block;
    CutShape(h.calls, s.current.value.first, s.current.value.past, s.landing.value);
    var op, g := s.current.value, Torn(s, h);
    assert Pending(s)[0] == op;
    assert h.decided <= op.first;
    assert op.text[..s.landing.value] == op.text[..s.landing.value][..s.landing.value];
    forall path
      ensures Base(g, path) == Base(h, path)
    {
      assert h.calls[..h.decided] == g.calls[..h.decided];
      PlayedFrame(Read(h.start, path), h.calls, g.calls, h.dropped + h.failed, h.dropped + h.failed, h.decided, path);
    }
  }

  lemma ShornCore<T>(s: State<T>, h: History<T>)
    requires Core(s, h) && s.current.Some? && s.landing.Some?
    ensures Core(Shorn(s), Torn(s, h))
  {
    hide FilesMatch, Superseded, Cut, CutCall, Chain, Pending;
    CutShape(h.calls, s.current.value.first, s.current.value.past, s.landing.value);
    ShornChain(s, h);
    ShornFiles(s, h);
    forall i | i in h.dropped
      ensures i < |h.calls| && Torn(s, h).calls[i].kind == Replace &&
          Superseded(Torn(s, h).calls, h.dropped, i, |h.calls|)
    {
      CutSuperseded(h.calls, Torn(s, h).calls, h.dropped, i, |h.calls|);
    }
  }

  lemma {:induction false} LastFirstSame<T>(ops: seq<Op<T>>, cut: seq<Op<T>>, path: Path)
    requires |cut| == |ops| && forall i :: 0 <= i < |ops| ==> cut[i].path == ops[i].path && cut[i].first == ops[i].first
    ensures LastFirst(cut, path) == LastFirst(ops, path)
  {
    if ops != [] {
      LastFirstSame(ops[..|ops| - 1], cut[..|cut| - 1], path);
    }
  }

  lemma ShornNames<T>(s: State<T>)
    requires LastForIsLast(s) && s.current.Some? && s.landing.Some? && s.landing.value <= |s.current.value.text|
    ensures LastForIsLast(Shorn(s))
  {
    hide Pending, LastFirst;
    ShornPending(s);
    forall path
      ensures LastFor(Shorn(s), path) == LastFirst(Pending(Shorn(s)), path)
    {
      LastFirstSame(Pending(s), Pending(Shorn(s)), path);
      assert LastFor(s, path) == LastFirst(Pending(s), path);
    }
  }

  lemma ShornApart<T>(s: State<T>)
    requires s.current.Some? && s.landing.Some? && s.landing.value <= |s.current.value.text|
    requires PromisesApart(Pending(s), s.settled, s.next)
    ensures PromisesApart(Pending(Shorn(s)), s.settled, s.next)
  {
    hide Pending;
    ShornPending(s);
  }

  lemma ShornBacked<T>(s: State<T>, h: History<T>, p: Promise)
    requires Core(s, h) && Backed(s, h, p) && s.current.Some? && s.landing.Some?
    ensures Backed(Shorn(s), Torn(s, h), p)
  {
    hide Cut, CutCall, Superseded, Chain, FilesMatch, Pending, OneReplaceEach;
    CutShape(h.calls, s.current.value.first, s.current.value.past, s.landing.value);
    var t, g := Shorn(s), Torn(s, h);
    var m: nat :| Covers(h, p, m) && ((Answered(s, p) && m <= h.decided) || exists i :: Owes(s, p, m, i));
    forall i: nat | i < p.upto && i in h.dropped && g.calls[i].path == p.path
      ensures Superseded(g.calls, g.dropped, i, m)
    {
      CutSuperseded(h.calls, g.calls, h.dropped, i, m);
    }
    assert Covers(g, p, m);
    if !(Answered(s, p) && m <= h.decided) {
      var i :| Owes(s, p, m, i);
      ShornPending(s);
      assert Owes(t, p, m, i);
    }
  }

  /** A write that fails with lines in its file leaves what a whole write of just those lines would. */
  lemma TornKeeps<T>(s: State<T>, h: History<T>)
    requires Inv(s, h) && s.current.Some? && s.landing.Some?
    ensures Inv(Finished(s), AfterFail(s, h))
  {
    hide Core, LastForIsLast, PromisesApart, Backed, Pending, Cut;
    TornFits(s, h);
    ShornCore(s, h);
    ShornNames(s);
    ShornApart(s);
    forall p | p in h.promises
      ensures Backed(Shorn(s), Torn(s, h), p)
    {
      ShornBacked(s, h, p);
    }
    FinishKeeps(Shorn(s), Torn(s, h));
  }

  lemma TornFits<T>(s: State<T>, h: History<T>)
    requires Core(s, h) && s.current.Some? && s.landing.Some?
    ensures s.landing.value <= |s.current.value.text|
  {
  }

  /** A write that fails, whatever it left in its file, keeps the invariant, and only what it had not landed is lost. */
  lemma FailKeeps<T>(s: State<T>, h: History<T>)
    requires Inv(s, h) && s.current.Some?
    ensures Inv(Finished(s), AfterFail(s, h))
  {
    hide Core, LastForIsLast, PromisesApart, Backed, Pending;
    if s.landing.Some? {
      TornKeeps(s, h);
      return;
    }
    FailCore(s, h);
    FinishNames(s, h);
    ApartFinished(s);
    forall p | p in h.promises
      ensures Backed(Finished(s), AfterFail(s, h), p)
    {
      FinishBacked(s, h, AfterFail(s, h), p);
    }
  }

  lemma AskKeeps<T>(s: State<T>, h: History<T>, path: Path)
    requires Inv(s, h) && Plain(s, path)
    ensures Inv(s, h.(promises := h.promises + {Promised(s, path)}))
  {
    hide LastForIsLast, PromisesApart, Pending, Chain, FilesMatch, Superseded;
    var g := h.(promises := h.promises + {Promised(s, path)});
    PromiseBacked(s, h, path);
    forall p | p in g.promises
      ensures Backed(s, g, p)
    {
      BackedFrame(s, h, g, p);
    }
    FilesStay(s, h, s, g);
  }

  lemma BackedFrame<T>(s: State<T>, h: History<T>, g: History<T>, p: Promise)
    requires Backed(s, h, p) && g.calls == h.calls && g.dropped == h.dropped && g.decided == h.decided
    ensures Backed(s, g, p)
  {
    hide Owes, Superseded;
    var m: nat :| Covers(h, p, m) && ((Answered(s, p) && m <= h.decided) || exists i :: Owes(s, p, m, i));
    assert Covers(g, p, m);
  }

  /* ---- What it means ---- */

  /** A settled promise: every call it was for was decided, and a dropped one lost to a replace that was decided too. */
  lemma SettledIsWritten<T>(s: State<T>, h: History<T>, p: Promise)
    requires Inv(s, h) && p in h.promises && Answered(s, p)
    ensures Covers(h, p, h.decided)
  {
    hide Core, Chain, LastForIsLast, Superseded;
    var m: nat :| Covers(h, p, m) && ((Answered(s, p) && m <= h.decided) || exists i :: Owes(s, p, m, i));
    assert forall i :: Owes(s, p, m, i) ==> !Answered(s, p);
    CoversLater(h, p, m, h.decided);
  }

  lemma CoversLater<T>(h: History<T>, p: Promise, m: nat, d: nat)
    requires Covers(h, p, m) && m <= d
    ensures Covers(h, p, d)
  {
    forall i: nat | i < p.upto && h.calls[i].path == p.path
      ensures i < d && (i in h.dropped ==> Superseded(h.calls, h.dropped, i, d))
    {
      if i in h.dropped {
        var k: nat :| i < k < m && Replaces(h.calls, k, h.calls[i].path) && k !in h.dropped;
      }
    }
  }
}
