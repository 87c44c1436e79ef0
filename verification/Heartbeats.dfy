/**
 * The watchdog's re-arming of a session's heartbeats: the snapshot it keeps, the jobs file the session and the daemon
 * also write, and what any sequence of cycles, crashes and outside changes can lead to.
 */
module Heartbeats {
  import opened Options

  const REARM_ATTEMPTS := 3
  const FORGET_S := 604800.0

  datatype Status = Active | Paused | Cancelled | Ended

  /** What two jobs must share to count as the same heartbeat. */
  datatype Key = Key(name: string, schedule: string)

  /**
   * A scheduled job; `heartbeat` tells an rlm heartbeat from other jobs, `whole` that all fields a new job needs are
   * there.
   */
  datatype Job = Job(key: Key, heartbeat: bool, status: Status, whole: bool)

  predicate Armed(job: Job) {
    job.heartbeat && job.status in {Active, Paused}
  }

  function ArmedOf(jobs: seq<Job>): (armed: seq<Job>)
    ensures forall job :: job in armed <==> job in jobs && Armed(job)
  {
    if jobs == [] then []
    else
      assert jobs == [jobs[0]] + jobs[1..];
      (if Armed(jobs[0]) then [jobs[0]] else []) + ArmedOf(jobs[1..])
  }

  function CountArmed(jobs: seq<Job>, key: Key): nat {
    if jobs == [] then 0
    else CountArmed(jobs[..|jobs| - 1], key) + (if Armed(jobs[|jobs| - 1]) && jobs[|jobs| - 1].key == key then 1 else 0)
  }

  datatype Loss = Loss(attempts: nat, done: bool)

  /** The snapshot of a session: its armed heartbeats when last seen, and the loss found since, if any. */
  datatype Snap = Snap(entries: seq<Job>, lastSeen: real, loss: Option<Loss>)

  /** What stands in the way of one re-creation, and whether the daemon resumes the job. */
  datatype Try = Try(blocked: bool, raises: bool, resumed: bool)

  datatype Outcome = Exists | Rearmed | StayedPaused | Error

  /**
   * One cycle's view of the session; `deleted` is whether its transcript deleted heartbeats since, none when
   * unreadable.
   */
  datatype View = View(now: real, live: bool, active: bool, deleted: Option<bool>, tries: nat -> Try)

  function NewJob(entry: Job): Job {
    Job(entry.key, true, Paused, entry.whole)
  }

  /** Whether an armed job has the key. */
  predicate HasArmed(jobs: seq<Job>, key: Key) {
    exists k :: 0 <= k < |jobs| && Armed(jobs[k]) && jobs[k].key == key
  }

  /** `recreate_heartbeat`: what it answers and the jobs file it leaves. */
  function Recreate(jobs: seq<Job>, entry: Job, active: bool, try: Try): (Outcome, seq<Job>) {
    if !entry.whole || !active || try.blocked then (Error, jobs)
    else if HasArmed(jobs, entry.key) then (Exists, jobs)
    else
      var outcome := if try.raises then Error else if try.resumed then Rearmed else StayedPaused;
      (outcome, Resume(jobs + [NewJob(entry)], try))
  }

  /** The daemon resumes the new job, or leaves it paused. */
  function Resume(jobs: seq<Job>, try: Try): seq<Job> {
    if try.resumed && !try.raises && jobs != [] then jobs[|jobs| - 1 := jobs[|jobs| - 1].(status := Active)] else jobs
  }

  /** The first `n` heartbeats of a snapshot re-created one after the other. */
  function RecreateAll(jobs: seq<Job>, entries: seq<Job>, view: View, n: nat): (seq<Outcome>, seq<Job>)
    requires n <= |entries|
  {
    if n == 0 then ([], jobs)
    else
      var (done, file) := RecreateAll(jobs, entries, view, n - 1);
      var (outcome, more) := Recreate(file, entries[n - 1], view.active, view.tries(n - 1));
      (done + [outcome], more)
  }

  predicate AllFailed(outcomes: seq<Outcome>) {
    forall k :: 0 <= k < |outcomes| ==> outcomes[k] == Error
  }

  lemma NothingRecreated(jobs: seq<Job>, entries: seq<Job>, view: View)
    ensures RecreateAll(jobs, entries, view, 0) == ([], jobs) && AllFailed([])
  {
  }

  lemma OneMore(jobs: seq<Job>, entries: seq<Job>, view: View, k: nat)
    requires k < |entries|
    ensures var (was, file) := RecreateAll(jobs, entries, view, k);
            var (outcome, more) := Recreate(file, entries[k], view.active, view.tries(k));
            && RecreateAll(jobs, entries, view, k + 1) == (was + [outcome], more)
            && (AllFailed(was + [outcome]) <==> AllFailed(was) && outcome == Error)
  {
    hide Recreate;
    var was := RecreateAll(jobs, entries, view, k).0;
    var all := RecreateAll(jobs, entries, view, k + 1).0;
    assert all[|was|] == all[|all| - 1] && forall j :: 0 <= j < |was| ==> all[j] == was[j];
  }

  /** The watchdog's saved snapshot and the session's jobs file, none when it cannot be read. */
  datatype State = State(saved: Option<Snap>, file: Option<seq<Job>>)

  /** Whether a cycle finds a loss to act on. */
  predicate Acts(s: State, view: View) {
    && view.live && s.file.Some? && ArmedOf(s.file.value) == []
    && s.saved.Some? && s.saved.value.entries != []
    && (s.saved.value.loss.None? || !s.saved.value.loss.value.done)
    && view.deleted == Some(false)
  }

  function Attempts(snap: Snap): nat {
    if snap.loss.Some? then snap.loss.value.attempts else 0
  }

  /** A snapshot not seen for a week is forgotten. */
  function Forget(saved: Option<Snap>, now: real): Option<Snap> {
    if saved.Some? && saved.value.lastSeen < now - FORGET_S then None else saved
  }

  /** Whether a cycle finds that the session deleted its heartbeats itself. */
  predicate OwnDeletion(s: State, view: View) {
    s.saved.Some? && s.saved.value.entries != [] && (s.saved.value.loss.None? || !s.saved.value.loss.value.done) &&
        view.deleted == Some(true)
  }

  function Cycle(s: State, view: View): State {
    if !view.live || s.file.None? then s.(saved := Forget(s.saved, view.now))
    else if ArmedOf(s.file.value) != [] then State(Some(Snap(ArmedOf(s.file.value), view.now, None)), s.file)
    else if Acts(s, view) then
      var snap := s.saved.value;
      var (outcomes, file) := RecreateAll(s.file.value, snap.entries, view, |snap.entries|);
      var attempts := Attempts(snap) + 1;
      var done := !(AllFailed(outcomes) && attempts < REARM_ATTEMPTS);
      State(Forget(Some(snap.(loss := Some(Loss(attempts, done)))), view.now), Some(file))
    else if OwnDeletion(s, view) then s.(saved := None)
    else s.(saved := Forget(s.saved, view.now))
  }

  /** One pass over the session, as the watchdog makes it. */
  method Rearm(saved: Option<Snap>, jobs: Option<seq<Job>>, view: View) returns (next: Option<Snap>,
      file: Option<seq<Job>>)
    ensures State(next, file) == Cycle(State(saved, jobs), view)
  {
    hide RecreateAll, Recreate, ArmedOf, AllFailed;
    next, file := saved, jobs;
    if view.live && jobs.Some? {
      var armed := ArmedOf(jobs.value);
      if armed != [] {
        return Some(Snap(armed, view.now, None)), file;
      }
      if saved.Some? && saved.value.entries != [] && !(saved.value.loss.Some? && saved.value.loss.value.done) {
        var snap := saved.value;
        if view.deleted == Some(true) {
          return None, file;
        }
        if view.deleted == Some(false) {
          var current, failed := jobs.value, true;
          NothingRecreated(jobs.value, snap.entries, view);
          for k := 0 to |snap.entries|
            invariant current == RecreateAll(jobs.value, snap.entries, view, k).1
            invariant failed == AllFailed(RecreateAll(jobs.value, snap.entries, view, k).0)
          {
            var (outcome, more) := Recreate(current, snap.entries[k], view.active, view.tries(k));
            OneMore(jobs.value, snap.entries, view, k);
            current, failed := more, failed && outcome == Error;
          }
          var attempts := (if snap.loss.Some? then snap.loss.value.attempts else 0) + 1;
          next := Some(snap.(loss := Some(Loss(attempts, !(failed && attempts < REARM_ATTEMPTS)))));
          file := Some(current);
        }
      }
    }
    if next.Some? && next.value.lastSeen < view.now - FORGET_S {
      next := None;
    }
  }

  /* ---- No second armed job ---- */

  lemma {:induction false} CountedIfArmed(jobs: seq<Job>, key: Key)
    ensures HasArmed(jobs, key) <==> CountArmed(jobs, key) > 0
  {
    if jobs != [] {
      var k := |jobs| - 1;
      CountedIfArmed(jobs[..k], key);
      assert jobs == jobs[..k] + [jobs[k]];
      if HasArmed(jobs[..k], key) {
        var i :| 0 <= i < k && Armed(jobs[..k][i]) && jobs[..k][i].key == key;
        assert jobs[i] == jobs[..k][i];
      }
      if HasArmed(jobs, key) && !(Armed(jobs[k]) && jobs[k].key == key) {
        var i :| 0 <= i < |jobs| && Armed(jobs[i]) && jobs[i].key == key;
        assert jobs[..k][i] == jobs[i];
      }
    }
  }

  /**
   * One re-creation adds an armed job only under a key that had none, and the entry's key has one after it unless it
   * failed.
   */
  lemma RecreateAddsOne(jobs: seq<Job>, entry: Job, active: bool, try: Try, key: Key)
    ensures var (outcome, more) := Recreate(jobs, entry, active, try);
            && CountArmed(jobs, key) <= CountArmed(more, key)
            && (CountArmed(more, key) > CountArmed(jobs, key) ==>
                CountArmed(jobs, key) == 0 && CountArmed(more, key) == 1 && key == entry.key)
            && (outcome != Error ==> CountArmed(more, entry.key) > 0)
  {
    var (outcome, more) := Recreate(jobs, entry, active, try);
    CountedIfArmed(jobs, key);
    CountedIfArmed(jobs, entry.key);
    if more != jobs {
      assert more[..|more| - 1] == jobs;
    }
  }

  /**
   * Whatever fails, and wherever a crash cuts the pass short, re-arming never makes a second armed job of one label and
   * schedule: a key's armed jobs are as many as before, or one where there was none.
   */
  lemma {:induction false} NoSecondArmed(jobs: seq<Job>, entries: seq<Job>, view: View, n: nat, key: Key)
    requires n <= |entries|
    ensures var file := RecreateAll(jobs, entries, view, n).1;
            && CountArmed(jobs, key) <= CountArmed(file, key)
            && (CountArmed(file, key) > CountArmed(jobs, key) ==>
                CountArmed(jobs, key) == 0 && CountArmed(file, key) == 1)
  {
    if n > 0 {
      NoSecondArmed(jobs, entries, view, n - 1, key);
      RecreateAddsOne(RecreateAll(jobs, entries, view, n - 1).1, entries[n - 1], view.active, view.tries(n - 1), key);
    }
  }

  /** Every heartbeat whose re-creation did not fail is armed at the end of the pass. */
  lemma {:induction false} RecreatedAreArmed(jobs: seq<Job>, entries: seq<Job>, view: View, n: nat, k: nat)
    requires k < n <= |entries|
    ensures var (outcomes, file) := RecreateAll(jobs, entries, view, n);
            |outcomes| == n && (outcomes[k] != Error ==> HasArmed(file, entries[k].key))
  {
    var (before, mid) := RecreateAll(jobs, entries, view, n - 1);
    RecreateAddsOne(mid, entries[n - 1], view.active, view.tries(n - 1), entries[k].key);
    OutcomeCount(jobs, entries, view, n - 1);
    if k < n - 1 {
      RecreatedAreArmed(jobs, entries, view, n - 1, k);
      CountedIfArmed(mid, entries[k].key);
    }
    CountedIfArmed(RecreateAll(jobs, entries, view, n).1, entries[k].key);
  }

  lemma {:induction false} OutcomeCount(jobs: seq<Job>, entries: seq<Job>, view: View, n: nat)
    requires n <= |entries|
    ensures |RecreateAll(jobs, entries, view, n).0| == n
  {
    if n > 0 {
      OutcomeCount(jobs, entries, view, n - 1);
    }
  }

  /* ---- What comes back ---- */

  /**
   * Nothing stands in the way of a heartbeat's job: its fields are there, the session runs, and the file can be
   * written.
   */
  ghost predicate CanWrite(entries: seq<Job>, view: View, k: nat)
    requires k < |entries|
  {
    entries[k].whole && view.active && !view.tries(k).blocked
  }

  /** One of the first `n` heartbeats has the key and can be written. */
  ghost predicate CanWriteKey(entries: seq<Job>, view: View, n: nat, key: Key)
    requires n <= |entries|
  {
    exists j :: 0 <= j < n && entries[j].key == key && CanWrite(entries, view, j)
  }

  /**
   * One re-creation: nothing is written when something stands in its way or the heartbeat is there; else one job more,
   * which runs when the daemon resumed it and is paused when not.
   */
  lemma RecreateDoes(jobs: seq<Job>, entry: Job, active: bool, try: Try)
    ensures var (outcome, more) := Recreate(jobs, entry, active, try);
            if !entry.whole || !active || try.blocked then outcome == Error && more == jobs
            else if exists k :: 0 <= k < |jobs| && Armed(jobs[k]) && jobs[k].key == entry.key
            then outcome == Exists && more == jobs
            else
              && |more| == |jobs| + 1 && more[..|jobs|] == jobs
              && more[|jobs|].key == entry.key && more[|jobs|].heartbeat && more[|jobs|].whole
              && (if try.resumed && !try.raises then more[|jobs|].status == Active && outcome == Rearmed
                  else more[|jobs|].status == Paused && outcome == if try.raises then Error else StayedPaused)
  {
  }

  lemma ArmedIn(jobs: seq<Job>, more: seq<Job>, key: Key)
    requires |more| == |jobs| + 1 && more[..|jobs|] == jobs
    ensures HasArmed(more, key) <==> HasArmed(jobs, key) || (Armed(more[|jobs|]) && more[|jobs|].key == key)
  {
    if k :| 0 <= k < |jobs| && Armed(jobs[k]) && jobs[k].key == key {
      assert more[k] == more[..|jobs|][k];
    }
    if k :| 0 <= k < |jobs| && Armed(more[k]) && more[k].key == key {
      assert jobs[k] == more[k];
    }
  }

  /** A key is armed after a pass exactly when it was before, or some heartbeat with it could be written. */
  lemma {:induction false} ArmedAfter(jobs: seq<Job>, entries: seq<Job>, view: View, n: nat, key: Key)
    requires n <= |entries|
    ensures HasArmed(RecreateAll(jobs, entries, view, n).1, key) <==>
              HasArmed(jobs, key) || CanWriteKey(entries, view, n, key)
    ensures jobs <= RecreateAll(jobs, entries, view, n).1
  {
    if n > 0 {
      ArmedAfter(jobs, entries, view, n - 1, key);
      var file := RecreateAll(jobs, entries, view, n - 1).1;
      var more := RecreateAll(jobs, entries, view, n).1;
      RecreateDoes(file, entries[n - 1], view.active, view.tries(n - 1));
      if |more| == |file| + 1 {
        ArmedIn(file, more, key);
      }
      assert CanWriteKey(entries, view, n, key) <==>
        CanWriteKey(entries, view, n - 1, key) || (entries[n - 1].key == key && CanWrite(entries, view, n - 1));
    }
  }

  /** A re-creation fails exactly when nothing was written for it, or its own write was and the daemon's call raised. */
  lemma {:induction false} FailsExactlyWhen(jobs: seq<Job>, entries: seq<Job>, view: View, n: nat, k: nat)
    requires k < n <= |entries| && ArmedOf(jobs) == []
    ensures var outcomes := RecreateAll(jobs, entries, view, n).0;
            && |outcomes| == n
            && (outcomes[k] == Error <==>
                  || !CanWrite(entries, view, k)
                  || (view.tries(k).raises && !CanWriteKey(entries, view, k, entries[k].key)))
  {
    OutcomeCount(jobs, entries, view, n - 1);
    if k < n - 1 {
      FailsExactlyWhen(jobs, entries, view, n - 1, k);
    } else {
      ArmedAfter(jobs, entries, view, k, entries[k].key);
      NoneArmed(jobs, entries[k].key);
      RecreateDoes(RecreateAll(jobs, entries, view, k).1, entries[k], view.active, view.tries(k));
    }
  }

  lemma NoneArmed(jobs: seq<Job>, key: Key)
    requires ArmedOf(jobs) == []
    ensures !HasArmed(jobs, key)
  {
    assert forall k :: 0 <= k < |jobs| && Armed(jobs[k]) ==> jobs[k] in ArmedOf(jobs);
  }

  /**
   * The session runs and has no armed heartbeat, the snapshot has some, and its transcript did not delete any since;
   * and the loss was not handled yet.
   */
  ghost predicate LossFound(s: State, view: View) {
    && view.live && s.file.Some? && (forall k :: 0 <= k < |s.file.value| ==> !IsArmed(s.file.value[k]))
    && s.saved.Some? && |s.saved.value.entries| > 0 && view.deleted == Some(false)
    && match s.saved.value.loss
       case Some(loss) => !loss.done
       case None => true
  }

  ghost predicate IsArmed(job: Job) {
    job.heartbeat && (job.status == Active || job.status == Paused)
  }

  lemma ActsExactlyWhen(s: State, view: View)
    ensures Acts(s, view) <==> LossFound(s, view)
  {
    if s.file.Some? && ArmedOf(s.file.value) != [] {
      assert ArmedOf(s.file.value)[0] in ArmedOf(s.file.value);
    }
    assert s.file.Some? ==> forall k :: 0 <= k < |s.file.value| && Armed(s.file.value[k]) ==>
      s.file.value[k] in ArmedOf(s.file.value);
  }

  /** A heartbeat of the snapshot came back for the session: written, or found written, with no failure of its own. */
  ghost predicate CameBack(entries: seq<Job>, view: View, k: nat)
    requires k < |entries|
  {
    && CanWrite(entries, view, k)
    && (view.tries(k).raises ==> CanWriteKey(entries, view, k, entries[k].key))
  }

  /**
   * A cycle that acts on a loss arms a lost heartbeat's key exactly when some heartbeat with it can be written, and
   * keeps every job in the file. It is the last one for this loss exactly when a heartbeat came back or it was the
   * third, unless the snapshot is a week old.
   */
  lemma LossIsRearmed(s: State, view: View)
    requires LossFound(s, view)
    ensures var snap, t := s.saved.value, Cycle(s, view);
            && t.file.Some? && s.file.value <= t.file.value
            && (forall key :: HasArmed(t.file.value, key) <==> CanWriteKey(snap.entries, view, |snap.entries|, key))
            && (t.saved == None <==> snap.lastSeen < view.now - FORGET_S)
            && (t.saved.Some? ==>
                  var tried := 1 + if snap.loss.Some? then snap.loss.value.attempts else 0;
                  var last := tried >= REARM_ATTEMPTS ||
                    exists k :: 0 <= k < |snap.entries| && CameBack(snap.entries, view, k);
                  t.saved == Some(snap.(loss := Some(Loss(tried, last)))))
  {
    hide RecreateAll, ArmedOf, LossFound;
    ActsExactlyWhen(s, view);
    var snap, jobs := s.saved.value, s.file.value;
    var n := |snap.entries|;
    var outcomes := RecreateAll(jobs, snap.entries, view, n).0;
    ArmedAfter(jobs, snap.entries, view, n, Key("", ""));
    forall key
      ensures HasArmed(RecreateAll(jobs, snap.entries, view, n).1, key) <==> CanWriteKey(snap.entries, view, n, key)
    {
      ArmedAfter(jobs, snap.entries, view, n, key);
      NoneArmed(jobs, key);
    }
    OutcomeCount(jobs, snap.entries, view, n);
    forall k | 0 <= k < n ensures outcomes[k] != Error <==> CameBack(snap.entries, view, k) {
      FailsExactlyWhen(jobs, snap.entries, view, n, k);
    }
  }

  /**
   * What a cycle that acts on no loss leaves: the armed jobs it lists, else the snapshot, if not a week old or deleted.
   */
  lemma OtherCycles(s: State, view: View)
    requires !LossFound(s, view)
    ensures var t := Cycle(s, view);
            && t.file == s.file
            && if view.live && s.file.Some? && exists k :: 0 <= k < |s.file.value| && IsArmed(s.file.value[k])
               then
                 && t.saved.Some? && t.saved.value.lastSeen == view.now && t.saved.value.loss == None
                 && forall job :: job in t.saved.value.entries <==> job in s.file.value && IsArmed(job)
               else if s.saved == None || s.saved.value.lastSeen < view.now - FORGET_S || Removed(s, view)
               then t.saved == None
               else t.saved == s.saved
  {
    hide ArmedOf, LossFound, RecreateAll, Armed, IsArmed;
    ActsExactlyWhen(s, view);
    if s.file.Some? {
      ArmedExactly(s.file.value);
    }
  }

  lemma ArmedExactly(jobs: seq<Job>)
    ensures ArmedOf(jobs) != [] <==> exists k :: 0 <= k < |jobs| && IsArmed(jobs[k])
    ensures forall job :: job in ArmedOf(jobs) <==> job in jobs && IsArmed(job)
  {
    assert forall k :: 0 <= k < |jobs| && Armed(jobs[k]) ==> jobs[k] in ArmedOf(jobs);
    if ArmedOf(jobs) != [] {
      assert ArmedOf(jobs)[0] in ArmedOf(jobs);
    }
  }

  /** The session has no armed job left, deleted them itself, and the loss was not handled before. */
  ghost predicate Removed(s: State, view: View) {
    && view.live && s.file.Some? && view.deleted == Some(true)
    && s.saved.Some? && s.saved.value.entries != []
    && (s.saved.value.loss.Some? ==> !s.saved.value.loss.value.done)
  }

  /* ---- Over runs ---- */

  datatype Step =
    /** A cycle that saves its state. */
    | Complete(view: View)
    /** A cycle that dies after it re-created the first `n` heartbeats. */
    | Crash(view: View, n: nat)
    /** The session or the daemon changes the jobs file. */
    | Outside(file: Option<seq<Job>>)

  function Next(s: State, step: Step): State {
    match step
    case Complete(view) => Cycle(s, view)
    case Crash(view, n) =>
      if Acts(s, view) && n <= |s.saved.value.entries|
          then s.(file := Some(RecreateAll(s.file.value, s.saved.value.entries, view, n).1)) else s
    case Outside(file) => s.(file := file)
  }

  /** A completed cycle saw armed jobs: a new snapshot. */
  predicate Relists(s: State, step: Step) {
    step.Complete? && step.view.live && s.file.Some? && ArmedOf(s.file.value) != []
  }

  function Run(s: State, steps: seq<Step>): State
    decreases |steps|
  {
    if steps == [] then s else Run(Next(s, steps[0]), steps[1..])
  }

  predicate NoRelisting(s: State, steps: seq<Step>)
    decreases |steps|
  {
    steps == [] || (!Relists(s, steps[0]) && NoRelisting(Next(s, steps[0]), steps[1..]))
  }

  /** How many completed cycles act on a loss. */
  function Tries(s: State, steps: seq<Step>): nat
    decreases |steps|
  {
    if steps == [] then 0
    else (if steps[0].Complete? && Acts(s, steps[0].view) then 1 else 0) + Tries(Next(s, steps[0]), steps[1..])
  }

  /** How many more times a loss may be acted on. */
  function TriesLeft(saved: Option<Snap>): nat {
    if saved.None? || (saved.value.loss.Some? && saved.value.loss.value.done) || Attempts(saved.value) >= REARM_ATTEMPTS
        then 0
    else REARM_ATTEMPTS - Attempts(saved.value)
  }

  ghost predicate Sane(saved: Option<Snap>) {
    saved.Some? && saved.value.loss.Some? && !saved.value.loss.value.done ==>
        saved.value.loss.value.attempts < REARM_ATTEMPTS
  }

  lemma {:induction false} LossIsTriedThrice(s: State, steps: seq<Step>)
    requires Sane(s.saved) && NoRelisting(s, steps)
    ensures Tries(s, steps) <= TriesLeft(s.saved) <= REARM_ATTEMPTS
    decreases |steps|
  {
    hide RecreateAll, AllFailed;
    if steps != [] {
      LossIsTriedThrice(Next(s, steps[0]), steps[1..]);
    }
  }

  /** A step that leaves the snapshot's loss and the jobs file alone, but for what others write. */
  ghost predicate LeftAlone(s: State, step: Step) {
    && (Next(s, step).saved == s.saved || Next(s, step).saved == None)
    && (!step.Outside? ==> Next(s, step).file == s.file)
  }

  ghost predicate Idle(s: State, steps: seq<Step>)
    decreases |steps|
  {
    steps == [] || (LeftAlone(s, steps[0]) && Idle(Next(s, steps[0]), steps[1..]))
  }

  /**
   * After a loss was handled, and after a session's heartbeats were forgotten, nothing is re-armed until a cycle lists
   * jobs again.
   */
  lemma {:induction false} HandledLossWaits(s: State, steps: seq<Step>)
    requires s.saved.Some? ==> s.saved.value.loss.Some? && s.saved.value.loss.value.done
    requires NoRelisting(s, steps)
    ensures Idle(s, steps)
    decreases |steps|
  {
    hide RecreateAll, AllFailed, ArmedOf;
    if steps != [] {
      HandledLossWaits(Next(s, steps[0]), steps[1..]);
    }
  }

  /**
   * A session that deleted its heartbeats itself is forgotten by the cycle that sees the loss, and never re-armed
   * after.
   */
  lemma OwnDeletionIsFinal(s: State, view: View, steps: seq<Step>)
    requires view.live && view.deleted == Some(true) && s.file.Some? && ArmedOf(s.file.value) == []
    requires s.saved.Some? && s.saved.value.entries != [] &&
        (s.saved.value.loss.Some? ==> !s.saved.value.loss.value.done)
    requires NoRelisting(Cycle(s, view), steps)
    ensures Cycle(s, view) == State(None, s.file) && Idle(Cycle(s, view), steps)
  {
    HandledLossWaits(Cycle(s, view), steps);
  }

  /**
   * Some heartbeats of a loss came back and some did not: whether the next cycle that sees the file still knows an
   * entry.
   */
  lemma NextSnapshotKnows(s: State, view: View, later: View, entry: Job)
    requires Acts(s, view) && later.live && entry in s.saved.value.entries
    requires ArmedOf(Cycle(s, view).file.value) != []
    ensures var after := Cycle(Cycle(s, view), later).saved;
            after.Some? && ((exists e :: e in after.value.entries && e.key == entry.key) <==>
                HasArmed(Cycle(s, view).file.value, entry.key))
  {
    var file := Cycle(s, view).file.value;
    if HasArmed(file, entry.key) {
      var k :| 0 <= k < |file| && Armed(file[k]) && file[k].key == entry.key;
      assert file[k] in ArmedOf(file);
    }
  }
}
