/** The write queue itself, and what reading, waiting, crashing and exiting can rely on. */
module DiskWrites {
  import opened Options
  import opened DiskQueue
  import opened DiskRuns

  /* ---- Reading through the queue ---- */

  /** What appends alone add to a file. */
  function Added<T>(ops: seq<Op<T>>, path: Path): seq<T> {
    if ops == [] then []
    else Added(ops[..|ops| - 1], path) + (if ops[|ops| - 1].path == path then ops[|ops| - 1].text else [])
  }

  predicate NoReplace<T>(ops: seq<Op<T>>, path: Path) {
    forall k :: 0 <= k < |ops| ==> !(ops[k].kind == Replace && ops[k].path == path)
  }

  lemma {:induction false} AppendsAdd<T>(text: seq<T>, ops: seq<Op<T>>, path: Path)
    requires NoReplace(ops, path)
    ensures After(Some(text), ops, path) == Some(text + Added(ops, path))
  {
    if ops == [] {
      assert text + Added(ops, path) == text;
    } else {
      var k := |ops| - 1;
      var front, more := ops[..k], if ops[k].path == path then ops[k].text else [];
      AppendsAdd(text, front, path);
      assert ops[k].path == path ==> ops[k].kind == Append;
      assert Added(ops, path) == Added(front, path) + more;
      assert (text + Added(front, path)) + more == text + (Added(front, path) + more);
      assert more == [] ==> text + Added(front, path) + more == text + Added(front, path);
    }
  }

  /** Once a file is replaced, what it held before does not matter. */
  lemma {:induction false} ReplaceForgets<T>(a: Option<seq<T>>, b: Option<seq<T>>, ops: seq<Op<T>>, path: Path)
    requires !NoReplace(ops, path)
    ensures After(a, ops, path) == After(b, ops, path) && After(a, ops, path).Some?
  {
    var k := |ops| - 1;
    if !(ops[k].kind == Replace && ops[k].path == path) {
      var i :| 0 <= i < |ops| && ops[i].kind == Replace && ops[i].path == path;
      assert ops[..k][i] == ops[i];
      ReplaceForgets(a, b, ops[..k], path);
    }
  }

  lemma {:induction false} AfterHead<T>(now: Option<seq<T>>, op: Op<T>, ops: seq<Op<T>>, path: Path)
    ensures After(now, [op] + ops, path) ==
        After(if op.path == path then Some(Do(now, op.kind, op.text)) else now, ops, path)
  {
    var all := [op] + ops;
    if ops == [] {
      assert all[..0] == [];
    } else {
      assert all[|all| - 1] == ops[|ops| - 1];
      assert all[..|all| - 1] == [op] + ops[..|ops| - 1];
      AfterHead(now, op, ops[..|ops| - 1], path);
    }
  }

  /** The running append has lines on disk, and no waiting replace will hide them. */
  predicate Doubled<T>(s: State<T>, path: Path) {
    && s.current.Some? && s.current.value.kind == Append && s.current.value.path == path
    && s.landing.Some? && s.landing.value > 0
    && NoReplace(s.queue, path)
  }

  lemma PendingPlayed<T>(s: State<T>, h: History<T>, path: Path)
    requires Core(s, h)
    ensures After(Base(h, path), Pending(s), path) ==
        Played(Read(h.start, path), h.calls, h.dropped + h.failed, |h.calls|, path)
  {
    hide Chain, FilesMatch, Superseded;
    AfterIsPlayed(Read(h.start, path), h.calls, h.dropped, h.dropped + h.failed, Pending(s), h.decided, |h.calls|,
        path);
  }

  /**
   * `readLatest` answers the calls made one by one, less the failed ones, except exactly when the running append has
   * lines on disk that no waiting replace hides: those lines then read twice.
   */
  lemma LatestIsEveryCall<T>(s: State<T>, h: History<T>, path: Path)
    requires Inv(s, h)
    ensures Latest(s, path) == Played(Read(h.start, path), h.calls, h.dropped + h.failed, |h.calls|, path) <==>
        !Doubled(s, path)
  {
    hide Chain, Superseded, LastForIsLast, PromisesApart, Backed, Played;
    PendingPlayed(s, h, path);
    var base := Base(h, path);
    if s.current.Some? && s.current.value.path == path && s.landing.Some? {
      var op, n := s.current.value, s.landing.value;
      assert Read(s.files, path) == Some(Do(base, op.kind, op.text[..n]));
      AfterHead(base, op, s.queue, path);
      AfterHead(Read(s.files, path), op, s.queue, path);
      if op.kind == Append {
        var right, seen := Do(base, Append, op.text), Do(base, Append, op.text[..n]) + op.text;
        assert n == 0 ==> right == seen;
        if NoReplace(s.queue, path) {
          AppendsAdd(right, s.queue, path);
          AppendsAdd(seen, s.queue, path);
          assert |seen| == |right| + n;
        } else {
          ReplaceForgets(Some(right), Some(seen), s.queue, path);
        }
      }
    } else {
      assert Read(s.files, path) == base;
    }
  }

  /**
   * What such a reading holds: everything before the running append, some of its lines, all of them, and what waits.
   */
  lemma DoubledReading<T>(s: State<T>, h: History<T>, path: Path)
    requires Inv(s, h) && Doubled(s, path)
    ensures var before := (if Base(h, path).Some? then Base(h, path).value else []);
            var op := s.current.value;
            && Latest(s, path) == Some(before + op.text[..s.landing.value] + op.text + Added(s.queue, path))
            && Played(Read(h.start, path), h.calls, h.dropped + h.failed, |h.calls|, path) ==
                Some(before + op.text + Added(s.queue, path))
  {
    hide Chain, Superseded, LastForIsLast, PromisesApart, Backed, Played;
    PendingPlayed(s, h, path);
    var base, op, n := Base(h, path), s.current.value, s.landing.value;
    var before := if base.Some? then base.value else [];
    assert Do(base, Append, op.text) == before + op.text && Do(base, Append, op.text[..n]) == before + op.text[..n];
    assert Read(s.files, path) == Some(Do(base, op.kind, op.text[..n]));
    AfterHead(base, op, s.queue, path);
    AfterHead(Read(s.files, path), op, s.queue, path);
    AppendsAdd(Do(base, Append, op.text), s.queue, path);
    AppendsAdd(Do(base, Append, op.text[..n]) + op.text, s.queue, path);
  }

  function LastReplace<T>(calls: seq<Call<T>>, n: nat, path: Path): (at: Option<nat>)
    requires n <= |calls|
    ensures at.Some? ==> at.value < n && Replaces(calls, at.value, path) && forall k: nat :: at.value < k < n ==>
        !Replaces(calls, k, path)
    ensures at == None ==> forall k: nat :: k < n ==> !Replaces(calls, k, path)
  {
    if n == 0 then None
    else if calls[n - 1].kind == Replace && calls[n - 1].path == path then Some(n - 1)
    else LastReplace(calls, n - 1, path)
  }

  lemma {:induction false} PlayedSince<T>(start: Option<seq<T>>, calls: seq<Call<T>>, skip: set<nat>, k: nat, n: nat,
      path: Path)
    requires k < n <= |calls| && Replaces(calls, k, path) && k !in skip
    requires forall i: nat :: k < i < n && calls[i].path == path ==> i !in skip
    ensures Played(start, calls, skip, n, path) == Played(start, calls, {}, n, path)
  {
    if n > k + 1 {
      PlayedSince(start, calls, skip, k, n - 1, path);
    }
  }

  lemma {:induction false} PlayedUnskipped<T>(start: Option<seq<T>>, calls: seq<Call<T>>, skip: set<nat>, n: nat,
      path: Path)
    requires n <= |calls| && forall i: nat :: i < n && calls[i].path == path ==> i !in skip
    ensures Played(start, calls, skip, n, path) == Played(start, calls, {}, n, path)
  {
    if n > 0 {
      PlayedUnskipped(start, calls, skip, n - 1, path);
    }
  }

  /** Dropping a replace that a later one supersedes changes nothing in the end. */
  lemma DroppedDoNotMatter<T>(s: State<T>, h: History<T>, path: Path)
    requires Inv(s, h)
    ensures Played(Read(h.start, path), h.calls, h.dropped, |h.calls|, path) ==
        Played(Read(h.start, path), h.calls, {}, |h.calls|, path)
  {
    hide Chain, LastForIsLast, PromisesApart, Backed, Played, FilesMatch, Pending;
    var n := |h.calls|;
    var last := LastReplace(h.calls, n, path);
    forall i: nat | i < n && h.calls[i].path == path && i in h.dropped
      ensures last.Some? && i < last.value
    {
      var k: nat :| i < k < n && Replaces(h.calls, k, h.calls[i].path) && k !in h.dropped;
    }
    if last.Some? {
      PlayedSince(Read(h.start, path), h.calls, h.dropped, last.value, n, path);
    } else {
      PlayedUnskipped(Read(h.start, path), h.calls, h.dropped, n, path);
    }
  }

  /* ---- Crashing ---- */

  predicate OnDisk<T>(h: History<T>, i: nat) {
    i < h.decided && i !in h.dropped && i !in h.failed
  }

  /** Call `i` is one of those the running write stands for, and that write is in its file in part. */
  predicate Landing<T>(s: State<T>, h: History<T>, i: nat) {
    s.current.Some? && s.landing.Some? && s.current.value.first <= i < s.current.value.past <= |h.calls|
  }

  /** Call `i` has come to its file: it is on disk, or the lines of the running write got to its own. */
  predicate Begun<T>(s: State<T>, h: History<T>, i: nat) {
    || OnDisk(h, i)
    || (Landing(s, h, i) &&
        (s.current.value.kind == Replace || |Text(h.calls, s.current.value.first, i)| < s.landing.value))
  }

  /** Call `i` is in its file to its last line. */
  predicate Entire<T>(s: State<T>, h: History<T>, i: nat) {
    OnDisk(h, i) || (Landing(s, h, i) && |Text(h.calls, s.current.value.first, i + 1)| <= s.landing.value)
  }

  lemma {:induction false} TextGrows<T>(calls: seq<Call<T>>, first: nat, k: nat, n: nat)
    requires first <= k <= n <= |calls|
    ensures |Text(calls, first, k)| <= |Text(calls, first, n)|
    decreases n
  {
    if k < n {
      TextGrows(calls, first, k, n - 1);
    }
  }

  /** A call that is neither decided nor waiting was dropped for a later replace. */
  lemma BeforeRunning<T>(s: State<T>, h: History<T>, i: nat)
    requires Inv(s, h) && s.current.Some? && h.decided <= i < s.current.value.first
    ensures i < |h.calls| && h.calls[i].kind == Replace && Superseded(h.calls, h.dropped, i, |h.calls|)
  {
    hide LastForIsLast, PromisesApart, Backed, Superseded, FilesMatch;
    assert Pending(s)[0] == s.current.value;
    assert !Covered(Pending(s), i);
  }

  /**
   * At every moment each file holds the replay of the calls that are on disk, and some lines of the running append; and
   * when a call has come to its file, be it as part of the running write, every earlier one is in its file to the last
   * line, unless its write failed or a later replace of its file took its place.
   */
  lemma CrashIsInOrder<T>(s: State<T>, h: History<T>, path: Path, i: nat, j: nat)
    requires Inv(s, h) && i < j && Begun(s, h, j)
    ensures Entire(s, h, i) || i in h.failed ||
        (h.calls[i].kind == Replace && Superseded(h.calls, h.dropped, i, |h.calls|))
    ensures || Read(s.files, path) == Base(h, path)
            || (Whole(s) && Read(s.files, path) == Some(Do(Base(h, path), s.current.value.kind, s.current.value.text)))
            || (s.landing.Some? && s.landing.value < |s.current.value.text|
                && Read(s.files, path) ==
                    Some(Do(Base(h, path), s.current.value.kind, s.current.value.text[..s.landing.value])))
  {
    hide Chain, LastForIsLast, PromisesApart, Backed, Played, Pending, Superseded, Text;
    if Whole(s) {
      assert s.current.value.text[..|s.current.value.text|] == s.current.value.text;
    }
    if !OnDisk(h, j) && h.decided <= i {
      var op := s.current.value;
      if i < op.first {
        BeforeRunning(s, h, i);
      } else {
        RunningBlock(s, h);
        TextGrows(h.calls, op.first, i + 1, j);
      }
    }
  }

  lemma RunningBlock<T>(s: State<T>, h: History<T>)
    requires Inv(s, h) && s.current.Some?
    ensures Block(s.current.value, h.calls)
  {
    hide LastForIsLast, PromisesApart, Backed, Superseded, FilesMatch, Block;
    assert Pending(s)[0] == s.current.value;
  }

  /* ---- Exiting ---- */

  /** What is left of the running write. */
  function Rest<T>(s: State<T>): seq<T> {
    if s.current.Some? && s.landing.Some? && s.landing.value <= |s.current.value.text|
        then s.current.value.text[s.landing.value..]
    else if s.current.Some? then s.current.value.text
    else []
  }

  /** What a file ends with: its content, or a content with a gap that nothing wrote. */
  datatype End<T> = Holds(content: Option<seq<T>>) | Gapped

  /** Lines written at a place of an open file, over what is there. */
  function Overlaid<T>(under: seq<T>, at: nat, lines: seq<T>): End<T> {
    if lines == [] then Holds(Some(under))
    else if at > |under| then Gapped
    else if at + |lines| >= |under| then Holds(Some(under[..at] + lines))
    else Holds(Some(under[..at] + lines + under[at + |lines|..]))
  }

  /** The running write still has something to do on a path. */
  predicate Unfinished<T>(s: State<T>, path: Path) {
    s.current.Some? && s.current.value.path == path && (s.current.value.kind == Append || s.landing == None)
  }

  /** The lines a running replace has not put in its temporary file, `temp` of which are in it. */
  function Unwritten<T>(s: State<T>, temp: nat): seq<T>
    requires s.current.Some?
  {
    if temp <= |s.current.value.text| then s.current.value.text[temp..] else []
  }

  /**
   * A file after `flushSync` wrote the queue and then the write still running ended on its own. `temp` is how many
   * lines of a running replace are in its temporary file, none when it is not opened. A waiting replace of the path
   * uses the same temporary file: it empties it, fills it and renames it to the path, so lines still to come land in
   * the path's new file and the running replace has nothing left to rename. An append that began before such a rename
   * goes on in the file the path no longer names.
   */
  function Exited<T>(s: State<T>, path: Path, temp: Option<nat>): End<T> {
    var flushed := After(Read(s.files, path), s.queue, path);
    if !Unfinished(s, path) then Holds(flushed)
    else if s.current.value.kind == Append then
      if s.landing.Some? && !NoReplace(s.queue, path) then Holds(flushed) else Holds(Some(Do(flushed, Append, Rest(s))))
    else if temp.Some? && flushed.Some? && !NoReplace(s.queue, path) then
      Overlaid(flushed.value, temp.value, Unwritten(s, temp.value))
    else Holds(Some(s.current.value.text))
  }

  /** What is left of the running replace lies in the flushed file where it will be written. */
  ghost predicate FitsOver<T>(flushed: seq<T>, at: nat, lines: seq<T>) {
    lines == [] || (at + |lines| <= |flushed| && flushed[at..at + |lines|] == lines)
  }

  /**
   * The queue may overtake the running write on this path: nothing of its own is to come, or what is left commutes with
   * it, or goes to a file that is replaced, or changes nothing in the file that is there.
   */
  ghost predicate MayOvertake<T>(s: State<T>, path: Path, temp: Option<nat>) {
    || !Unfinished(s, path)
    || (if s.current.value.kind == Append
        then if NoReplace(s.queue, path) then Rest(s) + Added(s.queue, path) == Added(s.queue, path) + Rest(s)
             else s.landing.Some? || Rest(s) == []
        else if NoReplace(s.queue, path) then Added(s.queue, path) == []
        else if temp == None then After(None, s.queue, path) == Some(s.current.value.text)
        else After(None, s.queue, path).Some?
             && FitsOver(After(None, s.queue, path).value, temp.value, Unwritten(s, temp.value)))
  }

  lemma {:induction false} AppendsAddNone<T>(ops: seq<Op<T>>, path: Path)
    requires NoReplace(ops, path)
    ensures After(None, ops, path) == Some(Added(ops, path)) ||
        (After(None, ops, path) == None && Added(ops, path) == [])
  {
    if ops != [] {
      var k := |ops| - 1;
      AppendsAddNone(ops[..k], path);
      assert ops[k].path == path ==> ops[k].kind == Append;
      assert [] + ops[k].text == ops[k].text && Added(ops[..k], path) + [] == Added(ops[..k], path);
    }
  }

  lemma SameAfter<T>(lead: seq<T>, a: seq<T>, b: seq<T>)
    ensures lead + a == lead + b <==> a == b
  {
    if lead + a == lead + b {
      assert a == (lead + a)[|lead|..] == (lead + b)[|lead|..] == b;
    }
  }

  /** Waiting writes that land before the rest of a running append. */
  lemma OvertakenAppend<T>(now: Option<seq<T>>, rest: seq<T>, ops: seq<Op<T>>, path: Path)
    ensures var text := (if now.Some? then now.value else []) + rest;
            var added := Added(ops, path);
            After(Some(text), ops, path) == Some(Do(After(now, ops, path), Append, rest)) <==>
            (if NoReplace(ops, path) then rest + added == added + rest else rest == [])
  {
    var lead := if now.Some? then now.value else [];
    var added := Added(ops, path);
    if NoReplace(ops, path) {
      AppendsAdd(lead + rest, ops, path);
      AppendsAddNone(ops, path);
      AppendsAdd(lead, ops, path);
      assert lead + rest + added == lead + (rest + added);
      assert lead + added + rest == lead + (added + rest);
      SameAfter(lead, rest + added, added + rest);
      assert Do(After(now, ops, path), Append, rest) == lead + added + rest;
    } else {
      ReplaceForgets(Some(lead + rest), now, ops, path);
      var end := After(now, ops, path).value;
      assert rest == [] ==> end + rest == end;
      assert end == end + rest ==> |rest| == 0;
    }
  }

  lemma LandedThenRest<T>(s: State<T>, base: Option<seq<T>>)
    requires s.current.Some? && s.landing.Some? && s.landing.value <= |s.current.value.text|
    ensures Do(base, Append, s.current.value.text[..s.landing.value]) + Rest(s) ==
        Do(base, Append, s.current.value.text)
  {
    var text, n := s.current.value.text, s.landing.value;
    assert text == text[..n] + text[n..];
    if base.Some? {
      assert base.value + text[..n] + text[n..] == base.value + (text[..n] + text[n..]);
    }
  }

  lemma OverlaidSame<T>(under: seq<T>, at: nat, lines: seq<T>)
    ensures Overlaid(under, at, lines) == Holds(Some(under)) <==> FitsOver(under, at, lines)
  {
    if lines != [] && at <= |under| {
      var end := at + |lines|;
      if end <= |under| {
        var whole := under[..at] + lines + under[end..];
        assert whole[at..end] == lines;
        assert under == under[..at] + under[at..end] + under[end..];
        assert end == |under| ==> under[..at] + lines == whole;
      } else {
        assert |under[..at] + lines| > |under|;
      }
    }
  }

  lemma ExitDuringAppend<T>(s: State<T>, h: History<T>, path: Path, temp: Option<nat>)
    requires Inv(s, h) && Unfinished(s, path) && s.current.value.kind == Append
    ensures Exited(s, path, temp) == Holds(After(Base(h, path), Pending(s), path)) <==> MayOvertake(s, path, temp)
  {
    hide Chain, Superseded, LastForIsLast, PromisesApart, Backed, Played, Base;
    var base, op := Base(h, path), s.current.value;
    AfterHead(base, op, s.queue, path);
    if s.landing.Some? {
      assert Read(s.files, path) == Some(Do(base, op.kind, op.text[..s.landing.value]));
      LandedThenRest(s, base);
    } else {
      assert Read(s.files, path) == base && [] + op.text == op.text;
    }
    if s.landing.Some? && !NoReplace(s.queue, path) {
      ReplaceForgets(Read(s.files, path), Some(Do(base, Append, op.text)), s.queue, path);
    } else {
      OvertakenAppend(Read(s.files, path), Rest(s), s.queue, path);
    }
  }

  lemma ExitDuringReplace<T>(s: State<T>, h: History<T>, path: Path, temp: Option<nat>)
    requires Inv(s, h) && Unfinished(s, path) && s.current.value.kind == Replace
    ensures Exited(s, path, temp) == Holds(After(Base(h, path), Pending(s), path)) <==> MayOvertake(s, path, temp)
  {
    hide Chain, Superseded, LastForIsLast, PromisesApart, Backed, Played, Base, Overlaid, FitsOver;
    var text := s.current.value.text;
    AfterHead(Base(h, path), s.current.value, s.queue, path);
    if NoReplace(s.queue, path) {
      AppendsAdd(text, s.queue, path);
      SameAfter(text, Added(s.queue, path), []);
      assert text + [] == text;
    } else {
      ReplaceForgets(None, Some(text), s.queue, path);
      ReplaceForgets(None, Read(s.files, path), s.queue, path);
      if temp.Some? {
        OverlaidSame(After(None, s.queue, path).value, temp.value, Unwritten(s, temp.value));
      }
    }
  }

  lemma ExitWhenDone<T>(s: State<T>, h: History<T>, path: Path, temp: Option<nat>)
    requires Inv(s, h) && !Unfinished(s, path)
    ensures Exited(s, path, temp) == Holds(After(Base(h, path), Pending(s), path))
  {
    hide Chain, Superseded, LastForIsLast, PromisesApart, Backed, Played, Base;
    if s.current.Some? {
      AfterHead(Base(h, path), s.current.value, s.queue, path);
      if s.current.value.path == path {
        assert s.current.value.text[..s.landing.value] == s.current.value.text;
        assert Read(s.files, path) == Some(Do(Base(h, path), Replace, s.current.value.text));
      } else {
        assert Read(s.files, path) == Base(h, path);
      }
    } else {
      assert Pending(s) == s.queue && Read(s.files, path) == Base(h, path);
    }
  }

  /**
   * An exit that flushes leaves every call in order on a path exactly when the queue may overtake the running write
   * there.
   */
  lemma ExitKeepsOrder<T>(s: State<T>, h: History<T>, path: Path, temp: Option<nat>)
    requires Inv(s, h)
    ensures Exited(s, path, temp) ==
            Holds(Played(Read(h.start, path), h.calls, h.dropped + h.failed, |h.calls|, path))
            <==> MayOvertake(s, path, temp)
  {
    hide Inv, Exited, MayOvertake, Played, After;
    InvCore(s, h);
    PendingPlayed(s, h, path);
    if !Unfinished(s, path) {
      ExitWhenDone(s, h, path, temp);
      NothingToOvertake(s, path, temp);
    } else if s.current.value.kind == Append {
      ExitDuringAppend(s, h, path, temp);
    } else {
      ExitDuringReplace(s, h, path, temp);
    }
  }

  lemma InvCore<T>(s: State<T>, h: History<T>)
    requires Inv(s, h)
    ensures Core(s, h)
  {
  }

  lemma NothingToOvertake<T>(s: State<T>, path: Path, temp: Option<nat>)
    requires !Unfinished(s, path)
    ensures MayOvertake(s, path, temp)
  {
  }

  /* ---- The module's own state ---- */

  lemma AfterNone<T>(now: Option<seq<T>>, path: Path)
    ensures After(now, [], path) == now
  {
  }

  lemma AfterStep<T>(now: Option<seq<T>>, ops: seq<Op<T>>, k: nat, path: Path)
    requires k < |ops|
    ensures var before := After(now, ops[..k], path);
            After(now, ops[..k + 1], path) ==
            (if ops[k].path != path then before
             else if ops[k].kind == Replace then Some(ops[k].text)
             else Some((if before.Some? then before.value else []) + ops[k].text))
  {
    assert ops[..k + 1][..k] == ops[..k] && [] + ops[k].text == ops[k].text;
  }

  lemma Starts<T>(files: Files<T>)
    ensures Inv(State(files, [], None, None, map[], {}, 0, 0), History(files, [], {}, {}, 0, {}))
  {
    var s, h := State(files, [], None, None, map[], {}, 0, 0), History(files, [], {}, {}, 0, {});
    assert Pending(s) == [];
    assert FilesMatch(s, h);
    assert Chain(Pending(s), h.calls, h.dropped, 0, 0);
    assert LastForIsLast(s);
  }

  class WriteQueue<T(==)> {
    var files: Files<T>
    var queue: seq<Op<T>>
    var current: Option<Op<T>>
    var landing: Option<nat>
    var lastFor: map<Path, nat>
    var settled: set<nat>
    var scheduled: nat
    var next: nat
    ghost var history: History<T>

    function Now(): State<T>
      reads this
    {
      State(files, queue, current, landing, lastFor, settled, scheduled, next)
    }

    ghost predicate Valid()
      reads this
    {
      Inv(Now(), history)
    }

    constructor (files: Files<T>)
      ensures Valid() && this.files == files && queue == [] && current == None
      ensures history.start == files && history.calls == [] && history.failed == {}
    {
      this.files := files;
      queue, current, landing, lastFor, settled, scheduled, next := [], None, None, map[], {}, 0, 0;
      history := History(files, [], {}, {}, 0, {});
      new;
      Starts(files);
      assert Now() == State(files, [], None, None, map[], {}, 0, 0);
    }

    method ReplaceLater(path: Path, text: seq<T>)
      requires Valid()
      modifies this
      ensures Valid() && Now() == Replaced(old(Now()), path, text)
      ensures history == AfterReplace(old(Now()), old(history), path, text)
    {
      hide Inv, ReplaceAt;
      ReplaceKeepsInv(Now(), history, path, text);
      history := AfterReplace(Now(), history, path, text);
      var at := 0;
      while at < |queue| && !(queue[at].kind == Replace && queue[at].path == path)
        invariant 0 <= at <= |queue|
        invariant forall k :: 0 <= k < at ==> !(queue[k].kind == Replace && queue[k].path == path)
      {
        at := at + 1;
      }
      assert at == ReplaceAt(queue, path);
      var settles := {next} + {};
      if at < |queue| {
        settles := {next} + queue[at].settles;
        queue := queue[..at] + queue[at + 1..];
      }
      queue := queue + [Op(Replace, path, text, next, next + 1, settles)];
      lastFor := lastFor[path := next];
      scheduled, next := scheduled + 1, next + 1;
    }

    method AppendLater(path: Path, text: seq<T>)
      requires Valid()
      modifies this
      ensures Valid() && Now() == Appended(old(Now()), path, text)
      ensures history == AfterAppend(old(history), path, text)
    {
      hide Inv;
      AppendKeeps(Now(), history, path, text);
      history := AfterAppend(history, path, text);
      var last := |queue| - 1;
      if last >= 0 && queue[last].kind == Append && queue[last].path == path {
        queue := queue[..last] + [queue[last].(text := queue[last].text + text, past := next + 1)];
        next := next + 1;
        return;
      }
      queue := queue + [Op(Append, path, text, next, next + 1, {next})];
      lastFor := lastFor[path := next];
      scheduled, next := scheduled + 1, next + 1;
    }

    /**
     * The file with every waiting write for it, in order: each call made so far, unless lines of the running append
     * read twice.
     */
    method ReadLatest(path: Path) returns (text: Option<seq<T>>)
      requires Valid()
      ensures text == Latest(Now(), path)
      ensures text == Played(Read(history.start, path), history.calls, history.dropped + history.failed,
          |history.calls|, path)
              <==> !Doubled(Now(), path)
    {
      hide Inv, Played, Doubled, After;
      var ops := Pending(Now());
      text := Read(files, path);
      AfterNone(text, path);
      for k := 0 to |ops|
        invariant text == After(Read(files, path), ops[..k], path)
      {
        AfterStep(Read(files, path), ops, k, path);
        if ops[k].path == path {
          text := if ops[k].kind == Replace then Some(ops[k].text)
                  else Some((if text.Some? then text.value else []) + ops[k].text);
        }
      }
      assert ops[..|ops|] == ops;
      LatestIsEveryCall(Now(), history, path);
    }

    /** The promise that everything queued for the path so far is written; None is a settled one. */
    method Written(path: Path) returns (id: Option<nat>)
      requires Valid()
      modifies this`history
      ensures Valid() && id == LastFor(Now(), path)
      ensures Plain(Now(), path) ==> Promised(Now(), path) in history.promises
      ensures history == old(history).(promises := history.promises) && old(history).promises <= history.promises
    {
      hide Inv;
      id := if path in lastFor then Some(lastFor[path]) else None;
      if Plain(Now(), path) {
        AskKeeps(Now(), history, path);
        history := history.(promises := history.promises + {Promised(Now(), path)});
      }
    }

    /** A scheduled microtask starts the writing, unless it runs already. */
    method Wake()
      requires Valid() && scheduled > 0
      modifies this
      ensures Valid() && Now() == Woken(old(Now())) && history == old(history)
      ensures scheduled == old(scheduled) - 1 && (old(current).Some? ==> current == old(current) && queue == old(queue))
    {
      hide Inv;
      WakeKeeps(Now(), history);
      scheduled := scheduled - 1;
      if current == None {
        Shift();
      }
    }

    method Shift()
      modifies this
      ensures Now() == Shifted(old(Now())) && history == old(history)
    {
      landing := None;
      if queue == [] {
        current := None;
      } else {
        current, queue := Some(queue[0]), queue[1..];
      }
    }

    /** The running write gets as far as `n` lines. */
    method Land(n: nat)
      requires Valid() && CanLand(Now(), n)
      modifies this
      ensures Valid() && Now() == Landed(old(Now()), n) && history == old(history)
    {
      hide Inv;
      LandKeeps(Now(), history, n);
      var op := current.value;
      var from := if landing.Some? then landing.value else 0;
      files := files[op.path := Do(Read(files, op.path), op.kind, op.text[from..n])];
      landing := Some(n);
    }

    /** The running write ends, whole on disk or failed; a failed one leaves in its file what had landed. */
    method Finish()
      requires Valid() && current.Some?
      modifies this
      ensures Valid() && Now() == Finished(old(Now()))
      ensures history == if old(Whole(Now())) then AfterFinish(old(Now()), old(history))
          else AfterFail(old(Now()), old(history))
    {
      hide Inv;
      if Whole(Now()) {
        FinishKeeps(Now(), history);
        history := AfterFinish(Now(), history);
      } else {
        FailKeeps(Now(), history);
        history := AfterFail(Now(), history);
      }
      var op := current.value;
      if op.path in lastFor && lastFor[op.path] == op.first {
        lastFor := lastFor - {op.path};
      }
      settled := settled + op.settles;
      Shift();
    }

    /** The exit's sync pass over what waits; the running write, if any, is left to end on its own. */
    method FlushSync()
      modifies this
      ensures forall path :: Read(files, path) == After(Read(old(files), path), old(queue), path)
      ensures queue == [] && current == old(current) && landing == old(landing)
      ensures forall op :: op in old(queue) ==> op.settles <= settled
    {
      hide After;
      var ops := queue;
      queue := [];
      forall path
        ensures After(Read(files, path), ops[..0], path) == Read(files, path)
      {
        AfterNone(Read(files, path), path);
      }
      for k := 0 to |ops|
        invariant queue == [] && current == old(current) && landing == old(landing)
        invariant forall path :: Read(files, path) == After(Read(old(files), path), ops[..k], path)
        invariant forall j :: 0 <= j < k ==> ops[j].settles <= settled
      {
        var op := ops[k];
        forall path
          ensures Read(files[op.path := Do(Read(files, op.path), op.kind, op.text)], path) ==
              After(Read(old(files), path), ops[..k + 1], path)
        {
          AfterStep(Read(old(files), path), ops, k, path);
          assert [] + op.text == op.text;
        }
        files := files[op.path := Do(Read(files, op.path), op.kind, op.text)];
        settled := settled + op.settles;
      }
      assert ops[..|ops|] == ops;
    }

    /** The running write lands whole and ends. */
    method End()
      requires Valid() && current.Some?
      modifies this
      ensures Valid() && Pending(Now()) == Pending(old(Now()))[1..]
      ensures settled == old(settled) + old(current).value.settles
      ensures history == old(history).(decided := old(current).value.past)
      ensures current.Some? || queue == []
    {
      hide Inv, Landed, Finished, Pending, Played;
      if !Whole(Now()) {
        RoomToLand(Now(), history);
        LandedPending(Now(), |current.value.text|);
        Land(|current.value.text|);
      }
      FinishedPending(Now());
      Finish();
    }

    /**
     * `drained`: the writing goes on until nothing waits, and then every call is on disk that was not dropped and did
     * not fail.
     */
    method Drained()
      requires Valid()
      modifies this
      ensures Valid() && queue == [] && current == None
      ensures history == old(history).(decided := |old(history).calls|)
      ensures forall path :: Read(files, path) ==
                Played(Read(history.start, path), history.calls, history.dropped + history.failed, |history.calls|,
                    path)
    {
      hide Inv;
      while current.Some? || queue != []
        invariant Valid() && history == old(history).(decided := history.decided)
        decreases |Pending(Now())|, current == None
      {
        if current == None {
          WokenUp(Now(), history);
          assert Pending(Woken(Now())) == Pending(Now());
          Wake();
        } else {
          End();
        }
      }
      forall path
        ensures Read(files, path) ==
            Played(Read(history.start, path), history.calls, history.dropped + history.failed, |history.calls|, path)
      {
        AllDecided(Now(), history, path);
      }
      AllDecided(Now(), history, "");
    }
  }

  lemma LandedPending<T>(s: State<T>, n: nat)
    requires CanLand(s, n)
    ensures var t := Landed(s, n); Pending(t) == Pending(s) && t.settled == s.settled && t.current == s.current
  {
  }

  lemma FinishedPending<T>(s: State<T>)
    requires s.current.Some?
    ensures var t := Finished(s);
            && Pending(s) != [] && Pending(t) == Pending(s)[1..]
            && t.settled == s.settled + s.current.value.settles
            && (t.current.Some? || t.queue == [])
  {
    assert Pending(s)[1..] == s.queue == Pending(Finished(s));
  }

  lemma RoomToLand<T>(s: State<T>, h: History<T>)
    requires Inv(s, h) && s.current.Some? && !Whole(s)
    ensures CanLand(s, |s.current.value.text|) && Whole(Landed(s, |s.current.value.text|))
  {
  }

  lemma WokenUp<T>(s: State<T>, h: History<T>)
    requires Inv(s, h) && s.queue != [] && s.current == None
    ensures s.scheduled > 0
  {
  }

  lemma AllDecided<T>(s: State<T>, h: History<T>, path: Path)
    requires Inv(s, h) && s.queue == [] && s.current == None
    ensures Read(s.files, path) == Played(Read(h.start, path), h.calls, h.dropped + h.failed, |h.calls|, path)
    ensures h.decided == |h.calls|
  {
    hide LastForIsLast, PromisesApart, Backed, Played;
    PendingPlayed(s, h, path);
    assert Pending(s) == [];
    assert forall n: nat :: !Covered(Pending(s), n);
    assert h.decided < |h.calls| ==> Superseded(h.calls, h.dropped, h.decided, |h.calls|);
  }

  /* ---- A promise that settles early ---- */

  /** After the only waiting replace of a path no other replace of it stands. */
  lemma NoLaterReplace<T>(s: State<T>, h: History<T>, path: Path, k: nat)
    requires Inv(s, h) && ReplaceAt(s.queue, path) < |s.queue|
    requires s.queue[ReplaceAt(s.queue, path)].first < k && Replaces(h.calls, k, path)
    ensures k in h.dropped
  {
    hide Inv, ReplaceAt, Replaces, Core, Pending, Running;
    var at := |Running(s)| + ReplaceAt(s.queue, path);
    QueuedIsPending(s, ReplaceAt(s.queue, path));
    LaterCall(s, h, at, k, path);
    forall j: nat | j < |Pending(s)|
      ensures Pending(s)[j].path == path ==> !(Pending(s)[j].first <= k < Pending(s)[j].past)
    {
      StandsAfter(s, h, at, j, k);
      OthersBehind(s, h, at, j);
    }
    if k !in h.dropped {
      StandingCall(s, h, k);
    }
  }

  lemma LaterCall<T>(s: State<T>, h: History<T>, i: nat, k: nat, path: Path)
    requires Inv(s, h) && i < |Pending(s)| && Pending(s)[i].first < k && Replaces(h.calls, k, path)
    ensures Core(s, h) && h.decided < k < |h.calls| && h.calls[k].path == path
  {
    hide FilesMatch, LastForIsLast, PromisesApart, Backed, Block, Superseded, Pending, Covered;
  }

  /** Among the waiting writes one stands for a later replace only if it is a replace itself and comes after. */
  lemma StandsAfter<T>(s: State<T>, h: History<T>, i: nat, j: nat, k: nat)
    requires Inv(s, h) && i < |Pending(s)| && j < |Pending(s)| && Pending(s)[i].kind == Replace
    requires Pending(s)[i].first < k
    ensures Pending(s)[j].first <= k < Pending(s)[j].past && Replaces(h.calls, k, Pending(s)[j].path)
            ==> i < j && Pending(s)[j].kind == Replace
  {
    hide FilesMatch, LastForIsLast, PromisesApart, Backed, Block, Superseded, Pending, Covered;
    BlockEnds(Pending(s)[i], h.calls);
    BlockEnds(Pending(s)[j], h.calls);
  }

  lemma OthersBehind<T>(s: State<T>, h: History<T>, i: nat, j: nat)
    requires Inv(s, h) && |Running(s)| <= i < |Pending(s)| && j < |Pending(s)| && Pending(s)[i].kind == Replace
    ensures i < j && Pending(s)[j].kind == Replace ==> Pending(s)[j].path != Pending(s)[i].path
  {
    hide Chain, FilesMatch, LastForIsLast, PromisesApart, Backed, Superseded;
    var lead := |Running(s)|;
    assert Pending(s)[i] == s.queue[i - lead];
    assert i < j ==> Pending(s)[j] == s.queue[j - lead];
  }

  /** After one more replace, the write the path's promise waits for still goes before it. */
  lemma AskedGoesFirst<T>(s: State<T>, h: History<T>, path: Path, text: seq<T>) returns (e: int)
    requires Inv(s, h) && !Plain(s, path)
    ensures var t := Replaced(s, path, text);
            && LastFor(s, path).Some?
            && 0 <= e < |Pending(t)| - 1 && LastFor(s, path).value in Pending(t)[e].settles
  {
    hide FilesMatch, PromisesApart, Backed, Block, Superseded, Pending, Running, LastFirst, Covered;
    var at := ReplaceAt(s.queue, path);
    QueuedIsPending(s, at);
    assert LastFor(s, path) == LastFirst(Pending(s), path);
    var i := LastStands(Pending(s), path);
    BlockEnds(Pending(s)[i], h.calls);
    ReplaceKeeps(s, path, text, i);
    ReplacePending(s, path, text);
    e := Moved(s, path, i);
  }

  lemma DecidedBeforeLast<T>(s: State<T>, h: History<T>)
    requires Inv(s, h) && Pending(s) != []
    ensures h.decided <= Pending(s)[|Pending(s)| - 1].first
  {
  }

  lemma WaitingWakes<T>(s: State<T>, h: History<T>)
    requires Inv(s, h) && Pending(s) != [] && s.current == None
    ensures s.scheduled > 0
    ensures var t := Woken(s); Pending(t) == Pending(s) && t.settled == s.settled && t.current.Some?
  {
    hide Core, LastForIsLast, PromisesApart, Backed;
    assert Pending(s) == s.queue;
  }

  lemma NewestIsLast<T>(s: State<T>, path: Path, text: seq<T>)
    ensures var t := Replaced(s, path, text); Pending(t) != [] && Pending(t)[|Pending(t)| - 1].first == s.next
  {
    ReplacePending(s, path, text);
  }

  lemma CallsCounted<T>(s: State<T>, h: History<T>)
    requires Inv(s, h)
    ensures s.next == |h.calls|
  {
  }

  lemma RunningIsFirst<T>(s: State<T>)
    requires s.current.Some?
    ensures Pending(s) != [] && Pending(s)[0] == s.current.value
  {
  }

  /**
   * The dropped replace is not on disk, and neither is one that stands in its place, while only calls before the newest
   * are decided.
   */
  lemma EarlyIsUncovered<T>(s: State<T>, h: History<T>, path: Path, text: seq<T>, g: History<T>, p: Promise)
    requires Inv(s, h) && !Plain(s, path) && p.path == path && p.upto == s.next
    requires g.calls == AfterReplace(s, h, path, text).calls && g.dropped == AfterReplace(s, h, path, text).dropped
    requires g.decided <= |h.calls|
    ensures !Covers(g, p, g.decided)
  {
    hide FilesMatch, PromisesApart, Backed, Block, Pending, Running, LastForIsLast, Chain;
    var at := ReplaceAt(s.queue, path);
    var r := s.queue[at].first;
    QueuedIsPending(s, at);
    ReplacedFirst(s, h, |Running(s)| + at);
    forall k: nat | r < k < g.decided && Replaces(g.calls, k, path)
      ensures k in g.dropped
    {
      assert Replaces(h.calls, k, path);
      NoLaterReplace(s, h, path, k);
    }
    assert g.calls[r].path == path && r in g.dropped && !Superseded(g.calls, g.dropped, r, g.decided);
  }

  /** The writing goes on until a promise settles that an earlier waiting write than the last one answers. */
  method WriteUntil<T(==)>(q: WriteQueue<T>, id: nat, ghost e: int)
    requires q.Valid() && 0 <= e < |Pending(q.Now())| - 1 && id in Pending(q.Now())[e].settles
    modifies q
    ensures q.Valid() && id in q.settled
    ensures q.history == old(q.history).(decided := q.history.decided)
    ensures var waiting := old(Pending(q.Now()));
            Pending(q.Now()) != [] && Pending(q.Now())[|Pending(q.Now())| - 1] == waiting[|waiting| - 1]
  {
    hide Inv, Pending, Finished, Shifted;
    ghost var waiting, d := Pending(q.Now()), 0;
    while id !in q.settled
      invariant q.Valid() && 0 <= d <= e + 1 && Pending(q.Now()) == waiting[d..]
      invariant forall i :: 0 <= i < d ==> waiting[i].settles <= q.settled
      invariant q.history == old(q.history).(decided := q.history.decided)
      decreases e + 1 - d, q.current == None
    {
      if q.current == None {
        WaitingWakes(q.Now(), q.history);
        q.Wake();
      } else {
        RunningIsFirst(q.Now());
        q.End();
        assert waiting[d..][1..] == waiting[d + 1..];
        d := d + 1;
      }
    }
  }

  /**
   * Whenever a path has a waiting replace and then an append, what `written` answers then can settle before the file
   * has anything of that replace: one more replace drops it, and the append lands first.
   */
  method SettlesEarly<T(==)>(q: WriteQueue<T>, path: Path, text: seq<T>) returns (id: Option<nat>)
    requires q.Valid() && !Plain(q.Now(), path)
    modifies q
    ensures q.Valid() && id == old(LastFor(q.Now(), path))
    ensures Answered(q.Now(), Promise(path, old(q.next), id))
    ensures !Covers(q.history, Promise(path, old(q.next), id), q.history.decided)
  {
    hide Inv, Replaced, Pending, Finished, Shifted, Block, Superseded, Covers, ReplaceAt;
    id := q.Written(path);
    ghost var asked, before := q.Now(), q.history;
    ghost var e := AskedGoesFirst(asked, before, path, text);
    q.ReplaceLater(path, text);
    ghost var waiting := Pending(q.Now());
    WriteUntil(q, id.value, e);
    NewestIsLast(asked, path, text);
    DecidedBeforeLast(q.Now(), q.history);
    assert Pending(q.Now())[|Pending(q.Now())| - 1] == waiting[|waiting| - 1];
    assert q.history.decided <= asked.next == |before.calls| by {
      CallsCounted(asked, before);
    }
    EarlyIsUncovered(asked, before, path, text, q.history, Promise(path, asked.next, id));
  }

  /* ---- Each of these is reached ---- */

  /** From every idle queue, a new one among them: an append that has landed and not yet ended reads twice. */
  method ReadsTwice<T(==)>(q: WriteQueue<T>, path: Path, text: seq<T>)
    requires q.Valid() && q.current == None && q.queue == [] && text != []
    modifies q
    ensures q.Valid() && Doubled(q.Now(), path)
    ensures q.history == AfterAppend(old(q.history), path, text)
  {
    hide Inv;
    q.AppendLater(path, text);
    q.Wake();
    q.Land(|text|);
  }

  lemma OneReplaceWaits<T>(s: State<T>, h: History<T>, i: nat)
    requires Inv(s, h) && i < |s.queue| && s.queue[i].kind == Replace
    ensures ReplaceAt(s.queue, s.queue[i].path) == i
  {
  }

  /**
   * From every queue, idle or not: a replace and then an append of one path leave a state in which its promise can
   * settle early.
   */
  method WaitsUnplain<T(==)>(q: WriteQueue<T>, path: Path, text: seq<T>, more: seq<T>)
    requires q.Valid()
    modifies q
    ensures q.Valid() && !Plain(q.Now(), path)
    ensures q.history == AfterAppend(AfterReplace(old(q.Now()), old(q.history), path, text), path, more)
  {
    hide Inv;
    q.ReplaceLater(path, text);
    q.AppendLater(path, more);
    OneReplaceWaits(q.Now(), q.history, |q.queue| - 2);
  }

  /**
   * From every idle queue: two appends of which the first runs are put on disk in the other order by an exit, unless
   * they commute.
   */
  method ExitSwaps<T(==)>(q: WriteQueue<T>, path: Path, text: seq<T>, more: seq<T>)
    requires q.Valid() && q.current == None && q.queue == [] && text + more != more + text
    modifies q
    ensures q.Valid() && forall temp :: !MayOvertake(q.Now(), path, temp)
    ensures q.history == AfterAppend(AfterAppend(old(q.history), path, text), path, more)
  {
    hide Inv;
    q.AppendLater(path, text);
    q.Wake();
    q.AppendLater(path, more);
    assert Added(q.queue, path) == more;
  }

  /**
   * From every idle queue: a replace that has part of its temporary file written, and another of the path that waits,
   * leave lines of both in the file, unless what was still to write happens to be there.
   */
  method ExitMixes<T(==)>(q: WriteQueue<T>, path: Path, text: seq<T>, more: seq<T>, temp: nat)
    requires q.Valid() && q.current == None && q.queue == [] && temp < |text| && !FitsOver(more, temp, text[temp..])
    modifies q
    ensures q.Valid() && !MayOvertake(q.Now(), path, Some(temp))
    ensures Exited(q.Now(), path, Some(temp)) == Overlaid(more, temp, text[temp..]) != Holds(Some(more))
  {
    hide Inv, FitsOver, Overlaid, Exited, MayOvertake, After;
    q.ReplaceLater(path, text);
    q.Wake();
    q.ReplaceLater(path, more);
    TwoReplaces(q.Now(), path, temp);
    OverlaidSame(more, temp, text[temp..]);
  }

  lemma TwoReplaces<T>(s: State<T>, path: Path, temp: nat)
    requires s.current.Some? && s.current.value.kind == Replace && s.current.value.path == path && s.landing == None
    requires |s.queue| == 1 && s.queue[0].kind == Replace && s.queue[0].path == path
    ensures Exited(s, path, Some(temp)) == Overlaid(s.queue[0].text, temp, Unwritten(s, temp))
    ensures MayOvertake(s, path, Some(temp)) <==> FitsOver(s.queue[0].text, temp, Unwritten(s, temp))
  {
    hide Overlaid, FitsOver;
    assert s.queue[..0] == [];
  }
}
