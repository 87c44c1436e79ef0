/**
 * The chat server's queue of file writes: replaces and appends asked for at once, written one at a time later, merged
 * where they can be. Texts are sequences of whole lines.
 */
module DiskQueue {
  import opened Options

  type Path = string

  datatype Kind = Replace | Append

  /** One call of `replaceLater` or `appendLater`. */
  datatype Call<T> = Call(kind: Kind, path: Path, text: seq<T>)

  /**
   * One queued write. It stands for the calls numbered `first` up to `past`, and `first` also names its promise;
   * `settles` are the promises that settle with it, its own and those of the replaces it took the place of.
   */
  datatype Op<T> = Op(kind: Kind, path: Path, text: seq<T>, first: nat, past: nat, settles: set<nat>)

  type Files<T> = map<Path, seq<T>>

  function Read<T>(files: Files<T>, path: Path): Option<seq<T>> {
    if path in files then Some(files[path]) else None
  }

  /** A file's content after one write. */
  function Do<T>(now: Option<seq<T>>, kind: Kind, text: seq<T>): seq<T> {
    if kind == Replace then text else if now.Some? then now.value + text else text
  }

  /** A file's content after some queued writes. */
  function After<T>(now: Option<seq<T>>, ops: seq<Op<T>>, path: Path): Option<seq<T>> {
    if ops == [] then now
    else
      var before := After(now, ops[..|ops| - 1], path);
      var last := ops[|ops| - 1];
      if last.path == path then Some(Do(before, last.kind, last.text)) else before
  }

  /** A file's content after the first `n` calls made one by one, less those in `skip`. */
  function Played<T>(start: Option<seq<T>>, calls: seq<Call<T>>, skip: set<nat>, n: nat, path: Path): Option<seq<T>>
    requires n <= |calls|
  {
    if n == 0 then start
    else
      var before := Played(start, calls, skip, n - 1, path);
      if calls[n - 1].path != path || n - 1 in skip then before
      else Some(Do(before, calls[n - 1].kind, calls[n - 1].text))
  }

  /** The texts of calls `first` up to `past`, joined. */
  function Text<T>(calls: seq<Call<T>>, first: nat, past: nat): seq<T>
    requires first <= past <= |calls|
    decreases past
  {
    if first == past then [] else Text(calls, first, past - 1) + calls[past - 1].text
  }

  /**
   * The module's state: the files, the queue, the running write and how many of its lines are on disk, the last write
   * per path, the settled promises, and how many wake-ups are scheduled.
   */
  datatype State<T> = State(
    files: Files<T>,
    queue: seq<Op<T>>,
    current: Option<Op<T>>,
    landing: Option<nat>,
    lastFor: map<Path, nat>,
    settled: set<nat>,
    scheduled: nat,
    next: nat)

  /** A promise `written` handed out for the calls so far; none when nothing was queued for the path. */
  datatype Promise = Promise(path: Path, upto: nat, id: Option<nat>)

  /**
   * What happened so far: every call, those dropped because a later replace took their place, those whose write failed,
   * how many are past waiting, and the promises handed out while no other replace of their path waited.
   */
  datatype History<T> = History(
    start: Files<T>,
    calls: seq<Call<T>>,
    dropped: set<nat>,
    failed: set<nat>,
    decided: nat,
    promises: set<Promise>)

  function Running<T>(s: State<T>): seq<Op<T>> {
    if s.current.Some? then [s.current.value] else []
  }

  function Pending<T>(s: State<T>): seq<Op<T>> {
    Running(s) + s.queue
  }

  /* ---- The operations ---- */

  /** Where the queue holds a replace of a path; its length when it holds none. */
  function ReplaceAt<T>(queue: seq<Op<T>>, path: Path): (at: nat)
    ensures at <= |queue|
    ensures at < |queue| ==> queue[at].kind == Replace && queue[at].path == path
    ensures forall k :: 0 <= k < at ==> !(queue[k].kind == Replace && queue[k].path == path)
  {
    if queue == [] then 0
    else if queue[0].kind == Replace && queue[0].path == path then 0
    else 1 + ReplaceAt(queue[1..], path)
  }

  function Replaced<T>(s: State<T>, path: Path, text: seq<T>): State<T> {
    var at := ReplaceAt(s.queue, path);
    var given := if at < |s.queue| then s.queue[at].settles else {};
    var rest := if at < |s.queue| then s.queue[..at] + s.queue[at + 1..] else s.queue;
    s.(queue := rest + [Op(Replace, path, text, s.next, s.next + 1, {s.next} + given)],
       lastFor := s.lastFor[path := s.next], scheduled := s.scheduled + 1, next := s.next + 1)
  }

  predicate Joins<T>(s: State<T>, path: Path) {
    s.queue != [] && s.queue[|s.queue| - 1].kind == Append && s.queue[|s.queue| - 1].path == path
  }

  function Appended<T>(s: State<T>, path: Path, text: seq<T>): State<T> {
    if Joins(s, path) then
      var tail := s.queue[|s.queue| - 1];
      s.(queue := s.queue[..|s.queue| - 1] + [tail.(text := tail.text + text, past := s.next + 1)], next := s.next + 1)
    else
      s.(queue := s.queue + [Op(Append, path, text, s.next, s.next + 1, {s.next})],
         lastFor := s.lastFor[path := s.next], scheduled := s.scheduled + 1, next := s.next + 1)
  }

  predicate Waits<T>(queue: seq<Op<T>>, path: Path, at: nat) {
    at < |queue| && queue[at].kind == Replace && queue[at].path == path
  }

  /**
   * A replace goes to the end and is the path's last write; the one of its path that waited, if any, is gone from the
   * queue, its promises now settle with this one, and every other write keeps its place among the rest.
   */
  lemma ReplacedIs<T>(s: State<T>, path: Path, text: seq<T>)
    requires forall i, j :: Waits(s.queue, path, i) && Waits(s.queue, path, j) ==> i == j
    ensures var t := Replaced(s, path, text);
            && t.queue != []
            && var last, rest := t.queue[|t.queue| - 1], t.queue[..|t.queue| - 1];
               && last.kind == Replace && last.path == path && last.text == text && last.first == s.next
               && last.past == s.next + 1 && s.next in last.settles
               && t == s.(queue := t.queue, lastFor := s.lastFor[path := s.next], scheduled := s.scheduled + 1,
                          next := s.next + 1)
               && (forall at: nat :: Waits(s.queue, path, at) ==>
                     rest == s.queue[..at] + s.queue[at + 1..] && last.settles == {s.next} + s.queue[at].settles)
               && ((forall at: nat :: !Waits(s.queue, path, at)) ==> rest == s.queue && last.settles == {s.next})
  {
    var at, t := ReplaceAt(s.queue, path), Replaced(s, path, text);
    assert at < |s.queue| ==> Waits(s.queue, path, at);
    assert t.queue[..|t.queue| - 1] == if at < |s.queue| then s.queue[..at] + s.queue[at + 1..] else s.queue;
  }

  /** An append joins the last waiting write when that is an append of its path, and else goes to the end. */
  lemma AppendedIs<T>(s: State<T>, path: Path, text: seq<T>)
    ensures var t, n := Appended(s, path, text), |s.queue|;
            if n > 0 && s.queue[n - 1].kind == Append && s.queue[n - 1].path == path
            then
              && t == s.(queue := t.queue, next := s.next + 1) && |t.queue| == n && t.queue[..n - 1] == s.queue[..n - 1]
              && t.queue[n - 1] == s.queue[n - 1].(text := s.queue[n - 1].text + text, past := s.next + 1)
            else
              && |t.queue| == n + 1 && t.queue[..n] == s.queue
              && t.queue[n] == Op(Append, path, text, s.next, s.next + 1, {s.next})
              && t == s.(queue := t.queue, lastFor := s.lastFor[path := s.next], scheduled := s.scheduled + 1,
                         next := s.next + 1)
  {
  }

  /** The running write takes the head of the queue. */
  function Shifted<T>(s: State<T>): State<T> {
    if s.queue == [] then s.(current := None, landing := None)
    else s.(current := Some(s.queue[0]), landing := None, queue := s.queue[1..])
  }

  /** A scheduled wake-up comes. */
  function Woken<T>(s: State<T>): State<T>
    requires s.scheduled > 0
  {
    var awake := s.(scheduled := s.scheduled - 1);
    if s.current.Some? then awake else Shifted(awake)
  }

  /**
   * Whether `n` lines of the running write can be on disk next: an append grows, a replace lands whole by its rename.
   */
  predicate CanLand<T>(s: State<T>, n: nat) {
    && s.current.Some? && n <= |s.current.value.text|
    && (s.landing.Some? ==> s.landing.value <= n && s.current.value.kind == Append)
    && (s.current.value.kind == Replace ==> n == |s.current.value.text|)
  }

  function Landed<T>(s: State<T>, n: nat): State<T>
    requires CanLand(s, n)
  {
    var op := s.current.value;
    var from := if s.landing.Some? then s.landing.value else 0;
    s.(files := s.files[op.path := Do(Read(s.files, op.path), op.kind, op.text[from..n])], landing := Some(n))
  }

  /** The running write is over, and the loop in `run` takes the next one. */
  function Finished<T>(s: State<T>): State<T>
    requires s.current.Some?
  {
    var op := s.current.value;
    var last := if op.path in s.lastFor && s.lastFor[op.path] == op.first then s.lastFor - {op.path} else s.lastFor;
    Shifted(s.(lastFor := last, settled := s.settled + op.settles))
  }

  /** What `readLatest` answers. */
  function Latest<T>(s: State<T>, path: Path): Option<seq<T>> {
    After(Read(s.files, path), Pending(s), path)
  }

  /* ---- What every run keeps ---- */

  ghost predicate Block<T>(op: Op<T>, calls: seq<Call<T>>) {
    && op.first < op.past <= |calls|
    && op.first in op.settles
    && (op.kind == Replace ==> op.past == op.first + 1)
    && (forall i :: op.first <= i < op.past ==> calls[i].kind == op.kind && calls[i].path == op.path)
    && op.text == Text(calls, op.first, op.past)
  }

  ghost predicate Covered<T>(ops: seq<Op<T>>, n: nat) {
    exists i :: 0 <= i < |ops| && ops[i].first <= n < ops[i].past
  }

  /** The writes stand, in order, for exactly those calls from `lo` up to `hi` that were not dropped. */
  ghost predicate Chain<T>(ops: seq<Op<T>>, calls: seq<Call<T>>, dropped: set<nat>, lo: nat, hi: nat) {
    && lo <= hi <= |calls|
    && (forall i :: 0 <= i < |ops| ==> Block(ops[i], calls) && lo <= ops[i].first && ops[i].past <= hi)
    && (forall i, j :: 0 <= i < j < |ops| ==> ops[i].past <= ops[j].first)
    && (forall n: nat :: lo <= n < hi ==> (n in dropped <==> !Covered(ops, n)))
  }

  predicate Replaces<T>(calls: seq<Call<T>>, i: nat, path: Path) {
    i < |calls| && calls[i].kind == Replace && calls[i].path == path
  }

  /** A later replace of the same path stands. */
  ghost predicate Superseded<T>(calls: seq<Call<T>>, dropped: set<nat>, i: nat, m: nat) {
    i < |calls| && exists k: nat :: i < k < m && Replaces(calls, k, calls[i].path) && k !in dropped
  }

  function Base<T>(h: History<T>, path: Path): Option<seq<T>>
    requires h.decided <= |h.calls|
  {
    Played(Read(h.start, path), h.calls, h.dropped + h.failed, h.decided, path)
  }

  /**
   * Each file is the replay of the decided calls, less the dropped and the failed, plus what the running write has
   * landed.
   */
  ghost predicate FilesMatch<T>(s: State<T>, h: History<T>)
    requires h.decided <= |h.calls|
  {
    forall path :: Read(s.files, path) ==
      (if s.current.Some? && s.landing.Some? && s.current.value.path == path &&
          s.landing.value <= |s.current.value.text|
       then Some(Do(Base(h, path), s.current.value.kind, s.current.value.text[..s.landing.value]))
       else Base(h, path))
  }

  ghost predicate OneReplaceEach<T>(queue: seq<Op<T>>) {
    forall i, j :: 0 <= i < j < |queue| && queue[i].kind == Replace && queue[j].kind == Replace ==>
        queue[i].path != queue[j].path
  }

  /** The name of the last write of a path. */
  function LastFirst<T>(ops: seq<Op<T>>, path: Path): Option<nat> {
    if ops == [] then None
    else if ops[|ops| - 1].path == path then Some(ops[|ops| - 1].first)
    else LastFirst(ops[..|ops| - 1], path)
  }

  function LastFor<T>(s: State<T>, path: Path): Option<nat> {
    if path in s.lastFor then Some(s.lastFor[path]) else None
  }

  /** `lastFor` names the last waiting write of each path that has one, and no other. */
  ghost predicate LastForIsLast<T>(s: State<T>) {
    forall path :: LastFor(s, path) == LastFirst(Pending(s), path)
  }

  /** No promise belongs to two waiting writes, and none of a waiting write has settled. */
  ghost predicate PromisesApart<T>(ops: seq<Op<T>>, settled: set<nat>, next: nat) {
    && (forall i, j, id: nat :: 0 <= i < |ops| && 0 <= j < |ops| && id in ops[i].settles && id in ops[j].settles ==>
        i == j)
    && (forall i, id: nat {:trigger id in ops[i].settles} :: 0 <= i < |ops| && id in ops[i].settles ==>
        id < next && id !in settled)
    && (forall id: nat :: id in settled ==> id < next)
  }

  /** Every call a promise is for comes before `m`, and so does the replace that took its place if it was dropped. */
  ghost predicate Covers<T>(h: History<T>, p: Promise, m: nat) {
    p.upto <= |h.calls| && forall i: nat :: i < p.upto && h.calls[i].path == p.path ==>
      i < m && (i in h.dropped ==> Superseded(h.calls, h.dropped, i, m))
  }

  predicate Answered<T>(s: State<T>, p: Promise) {
    p.id == None || p.id.value in s.settled
  }

  /** The waiting write `i` settles the promise, and no other replace of the path can be dropped from before `m`. */
  ghost predicate Owes<T>(s: State<T>, p: Promise, m: nat, i: int) {
    && 0 <= i < |Pending(s)|
    && p.id.Some? && p.id.value in Pending(s)[i].settles
    && Pending(s)[i].path == p.path && m <= Pending(s)[i].past
    && (forall j ::
          && 0 <= j < |s.queue| && s.queue[j].kind == Replace && s.queue[j].path == p.path
          && p.id.value !in s.queue[j].settles
          ==> m <= s.queue[j].first)
  }

  ghost predicate Backed<T>(s: State<T>, h: History<T>, p: Promise) {
    exists m: nat :: Covers(h, p, m) && ((Answered(s, p) && m <= h.decided) || exists i :: Owes(s, p, m, i))
  }

  ghost predicate Core<T>(s: State<T>, h: History<T>) {
    && s.next == |h.calls|
    && h.decided <= |h.calls|
    && Chain(Pending(s), h.calls, h.dropped, h.decided, |h.calls|)
    && (forall i :: i in h.failed ==> i < h.decided)
    && (forall i :: i in h.dropped ==>
        i < |h.calls| && h.calls[i].kind == Replace && Superseded(h.calls, h.dropped, i, |h.calls|))
    && (s.landing.Some? ==> s.current.Some? && s.landing.value <= |s.current.value.text|)
    && (s.landing.Some? && s.current.value.kind == Replace ==> s.landing.value == |s.current.value.text|)
    && FilesMatch(s, h)
    && OneReplaceEach(s.queue)
  }

  /** A queue that is not empty has a write running or a wake-up on its way. */
  predicate Awake<T>(s: State<T>) {
    s.queue != [] ==> s.scheduled > 0 || s.current.Some?
  }

  ghost predicate Inv<T>(s: State<T>, h: History<T>) {
    Core(s, h) && LastForIsLast(s) && PromisesApart(Pending(s), s.settled, s.next) && Awake(s) &&
        forall p :: p in h.promises ==> Backed(s, h, p)
  }

  /* ---- Replays ---- */

  lemma PlayedFrame<T>(start: Option<seq<T>>, calls: seq<Call<T>>, others: seq<Call<T>>, skip: set<nat>, less: set<nat>,
      n: nat, path: Path)
    requires n <= |calls| && n <= |others| && calls[..n] == others[..n]
    requires forall i: nat :: i < n ==> (i in skip <==> i in less)
    ensures Played(start, calls, skip, n, path) == Played(start, others, less, n, path)
  {
    if n > 0 {
      assert calls[n - 1] == calls[..n][n - 1] == others[..n][n - 1] == others[n - 1];
      assert calls[..n - 1] == calls[..n][..n - 1] == others[..n][..n - 1] == others[..n - 1];
      PlayedFrame(start, calls, others, skip, less, n - 1, path);
    }
  }

  lemma TextFrame<T>(calls: seq<Call<T>>, more: seq<Call<T>>, first: nat, past: nat)
    requires first <= past <= |calls|
    ensures Text(calls + more, first, past) == Text(calls, first, past)
    decreases past
  {
    if first < past {
      TextFrame(calls, more, first, past - 1);
    }
  }

  lemma {:induction false} PlayedSkipping<T>(start: Option<seq<T>>, calls: seq<Call<T>>, skip: set<nat>, lo: nat,
      hi: nat, path: Path)
    requires lo <= hi <= |calls| && forall i: nat :: lo <= i < hi ==> i in skip
    ensures Played(start, calls, skip, hi, path) == Played(start, calls, skip, lo, path)
  {
    if lo < hi {
      PlayedSkipping(start, calls, skip, lo, hi - 1, path);
    }
  }

  /** A write does to its file what the calls it stands for do one by one. */
  lemma {:induction false} PlayedBlock<T>(start: Option<seq<T>>, calls: seq<Call<T>>, skip: set<nat>, op: Op<T>, n: nat,
      path: Path)
    requires Block(op, calls) && op.first < n <= op.past && forall i: nat :: op.first <= i < op.past ==> i !in skip
    ensures Played(start, calls, skip, n, path) ==
            (if op.path == path then Some(Do(Played(start, calls, skip, op.first, path), op.kind,
                Text(calls, op.first, n)))
             else Played(start, calls, skip, op.first, path))
  {
    if n == op.first + 1 {
      assert Text(calls, op.first, n) == Text(calls, op.first, op.first) + calls[op.first].text == calls[op.first].text;
    } else {
      PlayedBlock(start, calls, skip, op, n - 1, path);
      assert Block(op, calls) && op.kind == Append;
      var before := Played(start, calls, skip, op.first, path);
      var text := Text(calls, op.first, n - 1);
      if op.path == path && before.Some? {
        assert (before.value + text) + calls[n - 1].text == before.value + (text + calls[n - 1].text);
      }
    }
  }

  lemma BlockEnds<T>(op: Op<T>, calls: seq<Call<T>>)
    requires Block(op, calls)
    ensures op.first < op.past <= |calls| && op.first in op.settles && op.text == Text(calls, op.first, op.past)
    ensures op.kind == Replace ==> op.past == op.first + 1
    ensures calls[op.first].kind == op.kind && calls[op.first].path == op.path
    ensures forall i :: op.first <= i < op.past ==> calls[i].kind == op.kind && calls[i].path == op.path
  {
  }

  /** A chain without its last write, and what the last one leaves. */
  lemma ChainFront<T>(ops: seq<Op<T>>, calls: seq<Call<T>>, dropped: set<nat>, lo: nat, hi: nat)
    requires Chain(ops, calls, dropped, lo, hi) && ops != []
    ensures var last := ops[|ops| - 1];
            && Block(last, calls)
            && lo <= last.first < last.past <= hi
            && Chain(ops[..|ops| - 1], calls, dropped, lo, last.first)
            && (forall n: nat :: last.past <= n < hi ==> n in dropped)
            && (forall n: nat :: last.first <= n < last.past ==> n !in dropped)
  {
    hide Block;
    var k := |ops| - 1;
    var last, rest := ops[k], ops[..k];
    BlockEnds(last, calls);
    forall n: nat | last.past <= n < hi
      ensures n in dropped
    {
      assert !Covered(ops, n);
    }
    forall n: nat | last.first <= n < last.past
      ensures n !in dropped
    {
      assert Covered(ops, n);
    }
    forall n: nat | lo <= n < last.first
      ensures Covered(ops, n) <==> Covered(rest, n)
    {
      if Covered(ops, n) {
        var i :| 0 <= i < |ops| && ops[i].first <= n < ops[i].past;
        assert rest[i] == ops[i];
      }
      if Covered(rest, n) {
        var i :| 0 <= i < |rest| && rest[i].first <= n < rest[i].past;
        assert rest[i] == ops[i];
      }
    }
  }

  /** The waiting writes take a replay of the calls before them to a replay of all the calls. */
  lemma {:induction false} AfterIsPlayed<T>(start: Option<seq<T>>, calls: seq<Call<T>>, dropped: set<nat>,
      skip: set<nat>,
                                            ops: seq<Op<T>>, lo: nat, hi: nat, path: Path)
    requires Chain(ops, calls, dropped, lo, hi)
    requires forall i: nat :: lo <= i < hi ==> (i in skip <==> i in dropped)
    ensures After(Played(start, calls, skip, lo, path), ops, path) == Played(start, calls, skip, hi, path)
    decreases |ops|
  {
    hide Block, Played;
    if ops == [] {
      assert forall n: nat :: !Covered(ops, n);
      PlayedSkipping(start, calls, skip, lo, hi, path);
    } else {
      var k := |ops| - 1;
      ChainFront(ops, calls, dropped, lo, hi);
      AfterIsPlayed(start, calls, dropped, skip, ops[..k], lo, ops[k].first, path);
      BlockEnds(ops[k], calls);
      PlayedBlock(start, calls, skip, ops[k], ops[k].past, path);
      PlayedSkipping(start, calls, skip, ops[k].past, hi, path);
    }
  }
}
