/**
 * Many boxes and one shared state moved by compare-and-swap pushes: the steps of their sync runs in any order, with
 * edits, lost races, skipped runs and crashes between them.
 */
module SyncRuns {
  import opened Options
  import opened SyncMerge

  /** Where a box is in a run: nothing under way, the shared state fetched, or the merge written to its own files. */
  datatype Run = Idle | Fetched(remote: Files, version: nat) | Merged(remote: Files, version: nat, merged: Files)

  /** `holds` are the parts whose files the box has; for the others it hands the shared state on. */
  datatype Box = Box(holds: set<Part>, local: Files, base: Option<Files>, run: Run)

  /** `version` counts the pushes; 0 means the shared branch does not exist yet. */
  datatype System = System(boxes: seq<Box>, remote: Files, version: nat)

  datatype Action =
    | Edit(i: nat, local: Files)
    | Fetch(i: nat)
    | WriteMerge(i: nat)
    | Finish(i: nat)
    /** The run stops before it wrote anything: a held lock, a tripped limit, a crash. */
    | Skip(i: nat)
    /**
     * The run stops after it wrote the merge of some parts: a lock held, a file rewritten, a limit tripped or a crash
     * then.
     */
    | SkipLate(i: nat, written: set<Part>)
    /** The run stops after it wrote the whole merge, before or after its push, and its base does not move. */
    | Stop(i: nat, pushed: bool)

  predicate Holds(box: Box, path: Path) {
    path.part in box.holds
  }

  function Only(files: Files, parts: set<Part>): Files {
    map path | path in files && path.part in parts :: files[path]
  }

  /** What the run would push: the merge of each part the box holds, and the shared state's files of the rest. */
  function MergeRun(box: Box, remote: Files): Files {
    var merged := Merge(box.local, box.base, remote);
    map path | path in merged.Keys + remote.Keys && (if Holds(box, path) then path in merged else path in remote)
      :: if Holds(box, path) then merged[path] else remote[path]
  }

  predicate Enabled(s: System, action: Action) {
    action.i < |s.boxes| &&
    match action
    case Edit(i, local) => forall path :: path in local ==> Holds(s.boxes[i], path)
    case Fetch(i) => s.boxes[i].run.Idle?
    case WriteMerge(i) => s.boxes[i].run.Fetched?
    case Finish(i) => s.boxes[i].run.Merged?
    case Skip(i) => s.boxes[i].run.Fetched?
    case SkipLate(i, _) => s.boxes[i].run.Fetched?
    case Stop(i, pushed) =>
        s.boxes[i].run.Merged? && (pushed ==> Pushes(s.boxes[i]) && s.boxes[i].run.version == s.version)
  }

  /** Whether a finishing run has something to push. */
  predicate Pushes(box: Box) {
    box.run.Merged? && box.run.merged != box.run.remote
  }

  /** Whether a finishing run completes: with nothing to push, or with a push that no other box beat. */
  predicate Completes(s: System, i: nat)
    requires i < |s.boxes|
  {
    var box := s.boxes[i];
    box.run.Merged? && (!Pushes(box) || box.run.version == s.version)
  }

  function Next(s: System, action: Action): System
    requires Enabled(s, action)
  {
    var i := action.i;
    var box := s.boxes[i];
    match action
    case Edit(_, local) => s.(boxes := s.boxes[i := box.(local := local)])
    case Fetch(_) => s.(boxes := s.boxes[i := box.(run := Fetched(s.remote, s.version))])
    case Skip(_) => s.(boxes := s.boxes[i := box.(run := Idle)])
    case WriteMerge(_) =>
      var merged := MergeRun(box, box.run.remote);
      s.(boxes := s.boxes[i :=
          box.(local := Only(merged, box.holds), run := Merged(box.run.remote, box.run.version, merged))])
    case SkipLate(_, written) =>
      var merged := MergeRun(box, box.run.remote);
      var parts := box.holds * written;
      var local := Only(box.local, box.holds - parts) + Only(merged, parts);
      s.(boxes := s.boxes[i := box.(local := local, run := Idle)])
    case Stop(_, pushed) =>
      if pushed then System(s.boxes[i := box.(run := Idle)], box.run.merged, s.version + 1)
      else s.(boxes := s.boxes[i := box.(run := Idle)])
    case Finish(_) =>
      if !Completes(s, i) then s.(boxes := s.boxes[i := box.(run := Idle)])
      else if Pushes(box) then
        System(s.boxes[i := box.(base := Some(box.run.merged), run := Idle)], box.run.merged, s.version + 1)
      else
        // With no shared branch yet and nothing to put on it, there is no commit for the base to name.
        var base := if box.run.version > 0 then Some(box.run.merged) else box.base;
        s.(boxes := s.boxes[i := box.(base := base, run := Idle)])
  }

  predicate CanRun(s: System, actions: seq<Action>)
    decreases |actions|
  {
    actions == [] || (Enabled(s, actions[0]) && CanRun(Next(s, actions[0]), actions[1..]))
  }

  function After(s: System, actions: seq<Action>): System
    requires CanRun(s, actions)
    decreases |actions|
  {
    if actions == [] then s else After(Next(s, actions[0]), actions[1..])
  }

  /**
   * What every reachable state keeps: an empty shared state before the first push, and files only of parts a box holds.
   */
  ghost predicate Sound(s: System) {
    && (s.version == 0 ==> s.remote == map[])
    && forall i :: 0 <= i < |s.boxes| ==> BoxSound(s.boxes[i], s.remote, s.version)
  }

  ghost predicate BoxSound(box: Box, remote: Files, version: nat) {
    && (forall path :: path in box.local ==> Holds(box, path))
    && (box.base.Some? ==> version > 0)
    && (!box.run.Idle? ==> box.run.version <= version && (box.run.version == version ==> box.run.remote == remote))
    && (!box.run.Idle? && box.run.version == 0 ==> box.run.remote == map[] && box.base == None)
  }

  // A settled box

  /** What a box's base holds at a path. */
  function BaseAt(box: Box, path: Path): Option<Data> {
    if box.base.Some? then Get(box.base.value, path) else None
  }

  /** The box's files agree with its base, so it has nothing of its own to push. */
  ghost predicate Clean(box: Box) {
    forall path :: Holds(box, path) ==> Get(box.local, path) == BaseAt(box, path)
  }

  ghost predicate Adopted(box: Box) {
    box.run.Merged? && box.run.merged == box.run.remote
    && forall path :: Holds(box, path) ==> Get(box.local, path) == Get(box.run.merged, path)
  }

  ghost predicate Settled(box: Box) {
    if box.run.Merged? then Adopted(box) else Clean(box)
  }

  ghost predicate AllSettled(s: System) {
    forall i :: 0 <= i < |s.boxes| ==> Settled(s.boxes[i])
  }

  lemma MergeRunAt(box: Box, remote: Files, path: Path)
    ensures Get(MergeRun(box, remote), path)
            == (if Holds(box, path)
                then Pick(Get(box.local, path), PriorAt(box.local, box.base, remote, path), Get(remote, path))
                else Get(remote, path))
  {
    MergeAt(box.local, box.base, remote, path);
    assert path in Merge(box.local, box.base, remote) <==> Get(Merge(box.local, box.base, remote), path).Some?;
  }

  /**
   * What a run makes of a path: for a part it does not hold what it fetched; on a first sync what it fetched, else its
   * own file; then the side that changed since the base, of an edit and a deletion the edit, of two edits the newer.
   */
  ghost predicate Makes(box: Box, path: Path, after: Option<Data>)
    requires !box.run.Idle?
  {
    var mine, theirs := Get(box.local, path), Get(box.run.remote, path);
    if path.part !in box.holds then after == theirs
    else if box.base == None then after == if theirs != None then theirs else mine
    else
      var prior := Get(box.base.value, path);
      if mine == prior then after == theirs
      else if theirs == prior then after == mine
      else if mine == None then after == theirs
      else if theirs == None then after == mine
      else after == if mine.value.stamp > theirs.value.stamp then mine else theirs
  }

  lemma MergeMakes(box: Box, path: Path)
    requires !box.run.Idle?
    ensures Makes(box, path, Get(MergeRun(box, box.run.remote), path))
  {
    MergeRunAt(box, box.run.remote, path);
  }

  /** What each step is: which box may take it, what it leaves of that box, and what of the shared state. */
  ghost predicate IsStep(s: System, action: Action, t: System) {
    && action.i < |s.boxes| == |t.boxes|
    && (forall j :: 0 <= j < |s.boxes| && j != action.i ==> t.boxes[j] == s.boxes[j])
    && var box, now := s.boxes[action.i], t.boxes[action.i];
       && now.holds == box.holds
       && match action
          case Edit(_, local) =>
            && (forall path :: path in local ==> path.part in box.holds)
            && now == box.(local := local) && t == s.(boxes := t.boxes)
          case Fetch(_) =>
            box.run == Idle && now == box.(run := Fetched(s.remote, s.version)) && t == s.(boxes := t.boxes)
          case Skip(_) => box.run.Fetched? && now == box.(run := Idle) && t == s.(boxes := t.boxes)
          case WriteMerge(_) =>
            && box.run.Fetched? && now.base == box.base && t == s.(boxes := t.boxes)
            && now.run.Merged? && now.run.remote == box.run.remote && now.run.version == box.run.version
            && (forall path :: Makes(box, path, Get(now.run.merged, path)))
            && (forall path: Path :: path.part in box.holds ==> Get(now.local, path) == Get(now.run.merged, path))
            && (forall path :: path in now.local ==> path.part in box.holds)
          case SkipLate(_, written) =>
            && box.run.Fetched? && now.base == box.base && now.run == Idle && t == s.(boxes := t.boxes)
            && (forall path: Path :: path.part in box.holds && path.part in written ==>
                  Makes(box, path, Get(now.local, path)))
            && (forall path: Path :: path.part in box.holds && path.part !in written ==>
                  Get(now.local, path) == Get(box.local, path))
            && (forall path :: path in now.local ==> path.part in box.holds)
          case Stop(_, pushed) =>
            && box.run.Merged? && now == box.(run := Idle)
            && if pushed
               then box.run.merged != box.run.remote && box.run.version == s.version
                    && t.remote == box.run.merged && t.version == s.version + 1
               else t == s.(boxes := t.boxes)
          case Finish(_) =>
            && box.run.Merged? && now.local == box.local && now.run == Idle
            && if box.run.merged == box.run.remote
               then t == s.(boxes := t.boxes)
                    && now.base == if box.run.version > 0 then Some(box.run.merged) else box.base
               else if box.run.version == s.version
               then t.remote == box.run.merged && t.version == s.version + 1 && now.base == Some(box.run.merged)
               else t == s.(boxes := t.boxes) && now.base == box.base
  }

  lemma NextIsStep(s: System, action: Action)
    requires Sound(s) && Enabled(s, action)
    ensures IsStep(s, action, Next(s, action))
  {
    hide MergeRun, Makes, Only;
    if action.WriteMerge? || action.SkipLate? {
      MergeIsWritten(s, action);
    }
  }

  lemma MergeIsWritten(s: System, action: Action)
    requires Sound(s) && Enabled(s, action) && (action.WriteMerge? || action.SkipLate?)
    ensures var box, now := s.boxes[action.i], Next(s, action).boxes[action.i];
            && (forall path :: Makes(box, path, Get(MergeRun(box, box.run.remote), path)))
            && (forall path :: path in now.local ==> path.part in box.holds)
            && (forall path: Path :: path.part in box.holds ==>
                  if action.WriteMerge? || path.part in action.written
                  then Get(now.local, path) == Get(MergeRun(box, box.run.remote), path)
                  else Get(now.local, path) == Get(box.local, path))
  {
    hide MergeRun, Makes;
    var box := s.boxes[action.i];
    forall path ensures Makes(box, path, Get(MergeRun(box, box.run.remote), path)) {
      MergeMakes(box, path);
    }
  }

  /** A step is enabled exactly when something can be one. */
  lemma EnabledExactly(s: System, action: Action)
    requires Sound(s)
    ensures Enabled(s, action) <==> exists t :: IsStep(s, action, t)
  {
    if Enabled(s, action) {
      NextIsStep(s, action);
    }
  }

  lemma CleanMergesToRemote(box: Box, remote: Files)
    requires Clean(box) && forall path :: path in box.local ==> Holds(box, path)
    ensures MergeRun(box, remote) == remote
  {
    forall path ensures Get(MergeRun(box, remote), path) == Get(remote, path) {
      MergeRunAt(box, remote, path);
    }
    SameFiles(MergeRun(box, remote), remote);
  }

  lemma NextIsSound(s: System, action: Action)
    requires Sound(s) && Enabled(s, action)
    ensures Sound(Next(s, action)) && |Next(s, action).boxes| == |s.boxes|
  {
    hide MergeRun;
  }

  lemma {:induction false} RunIsSound(s: System, actions: seq<Action>)
    requires Sound(s) && CanRun(s, actions)
    ensures Sound(After(s, actions)) && |After(s, actions).boxes| == |s.boxes|
    decreases |actions|
  {
    if actions != [] {
      NextIsSound(s, actions[0]);
      RunIsSound(Next(s, actions[0]), actions[1..]);
    }
  }

  lemma OnlyHeld(box: Box, files: Files)
    ensures forall path :: Holds(box, path) ==> Get(Only(files, box.holds), path) == Get(files, path)
  {
  }

  /** A stop after files were written and before the base moved. */
  predicate Late(action: Action) {
    action.SkipLate? || action.Stop?
  }

  predicate Writes(action: Action, path: Path) {
    action.Stop? || (action.SkipLate? && path.part in action.written)
  }

  /** What the run fetched is what the box's base holds, wherever the stopped run wrote. */
  ghost predicate FetchedIsBase(s: System, action: Action)
    requires Enabled(s, action) && Late(action)
  {
    var box := s.boxes[action.i];
    forall path :: Holds(box, path) && Writes(action, path) ==> Get(box.run.remote, path) == BaseAt(box, path)
  }

  /** A late stop leaves a settled box with nothing of its own exactly when it wrote nothing its base does not hold. */
  lemma LateStopIsCleanExactlyWhen(s: System, action: Action)
    requires Sound(s) && Enabled(s, action) && Late(action) && Settled(s.boxes[action.i])
    ensures Clean(Next(s, action).boxes[action.i]) <==> FetchedIsBase(s, action)
  {
    hide MergeRun;
    var box := s.boxes[action.i];
    var next := Next(s, action).boxes[action.i];
    if action.SkipLate? {
      CleanMergesToRemote(box, box.run.remote);
    }
    forall path | Holds(box, path)
      ensures Get(next.local, path) ==
          (if Writes(action, path) then Get(box.run.remote, path) else Get(box.local, path))
      ensures BaseAt(next, path) == BaseAt(box, path)
    {
    }
  }

  /**
   * A step that can leave a settled box with something to push: an edit, or a late stop that wrote what its base does
   * not hold.
   */
  ghost predicate Unsettles(s: System, action: Action)
    requires Enabled(s, action)
  {
    action.Edit? || (Late(action) && !FetchedIsBase(s, action))
  }

  /** A settled box stays settled and pushes nothing, whatever it and the others do, but for such a step of its own. */
  lemma SettledStays(s: System, action: Action, i: nat)
    requires Sound(s) && Enabled(s, action) && i < |s.boxes| && Settled(s.boxes[i]) &&
        !(action.i == i && Unsettles(s, action))
    ensures Settled(Next(s, action).boxes[i])
    ensures action.i == i ==> Next(s, action).remote == s.remote && Next(s, action).version == s.version
  {
    var box := s.boxes[i];
    if action.i == i && action.WriteMerge? {
      CleanMergesToRemote(box, box.run.remote);
      OnlyHeld(box, box.run.remote);
    } else if action.i == i && Late(action) {
      LateStopIsCleanExactlyWhen(s, action);
    }
  }

  // Runs that began and completed

  /** How far a box's latest run has come: the last is a run that completed, with nothing since to unsettle the box. */
  datatype Mark = Before | HasFetched | HasMerged | Completed

  ghost function NextMark(s: System, action: Action, i: nat, mark: Mark): Mark
    requires Enabled(s, action)
  {
    if action.i != i then mark
    else if mark == Completed then if Unsettles(s, action) then Before else Completed
    else
      match action
      case Fetch(_) => HasFetched
      case WriteMerge(_) => if mark == HasFetched then HasMerged else Before
      case Finish(_) => if mark == HasMerged && Completes(s, i) then Completed else Before
      case Skip(_) | SkipLate(_, _) | Stop(_, _) | Edit(_, _) => Before
  }

  ghost function MarkAfter(s: System, actions: seq<Action>, i: nat, mark: Mark): Mark
    requires CanRun(s, actions)
    decreases |actions|
  {
    if actions == [] then mark
    else MarkAfter(Next(s, actions[0]), actions[1..], i, NextMark(s, actions[0], i, mark))
  }

  /** Each box began a run within `actions` and completed it, and nothing it did since unsettled it. */
  ghost predicate EachCompletes(s: System, actions: seq<Action>)
    requires CanRun(s, actions)
  {
    forall i :: 0 <= i < |s.boxes| ==> MarkAfter(s, actions, i, Before) == Completed
  }

  /** What a mark says of the box. */
  ghost predicate MarkHolds(box: Box, mark: Mark) {
    match mark
    case Before => true
    case HasFetched => box.run.Fetched?
    case HasMerged => box.run.Merged? &&
        (forall path :: Holds(box, path) ==> Get(box.local, path) == Get(box.run.merged, path))
    case Completed => Settled(box)
  }

  lemma MarkStep(s: System, action: Action, i: nat, mark: Mark)
    requires Sound(s) && Enabled(s, action) && i < |s.boxes| && MarkHolds(s.boxes[i], mark)
    ensures MarkHolds(Next(s, action).boxes[i], NextMark(s, action, i, mark))
  {
    if mark == Completed {
      if !(action.i == i && Unsettles(s, action)) {
        SettledStays(s, action, i);
      }
    } else if action.i == i && action.WriteMerge? {
      OnlyHeld(s.boxes[i], MergeRun(s.boxes[i], s.boxes[i].run.remote));
    }
  }

  /** At every point of every run, edits and late stops included, a mark says what its box holds. */
  lemma {:induction false} MarksHold(s: System, actions: seq<Action>, i: nat, mark: Mark)
    requires Sound(s) && CanRun(s, actions) && i < |s.boxes| && MarkHolds(s.boxes[i], mark)
    ensures Sound(After(s, actions)) && |After(s, actions).boxes| == |s.boxes|
    ensures MarkHolds(After(s, actions).boxes[i], MarkAfter(s, actions, i, mark))
    decreases |actions|
  {
    if actions != [] {
      NextIsSound(s, actions[0]);
      MarkStep(s, actions[0], i, mark);
      MarksHold(Next(s, actions[0]), actions[1..], i, NextMark(s, actions[0], i, mark));
    }
  }

  // Convergence

  /** When each box's last unsettling step was before a run it completed, no box has anything to push. */
  lemma OneRunEachSettles(s: System, actions: seq<Action>)
    requires Sound(s) && CanRun(s, actions) && EachCompletes(s, actions)
    ensures Sound(After(s, actions)) && |After(s, actions).boxes| == |s.boxes| && AllSettled(After(s, actions))
  {
    RunIsSound(s, actions);
    forall i | 0 <= i < |s.boxes| ensures Settled(After(s, actions).boxes[i]) {
      MarksHold(s, actions, i, Before);
    }
  }

  // A shared state that stands still

  /**
   * What a box holds at a path gives way to the shared state there: it is the same, or the base's, or a change that a
   * newer change at the shared state beats.
   */
  predicate Yields(box: Box, path: Path, mine: Option<Data>, theirs: Option<Data>) {
    if box.base == None then theirs.Some? || mine == None
    else
      || mine == theirs
      || mine == BaseAt(box, path)
      || (theirs != BaseAt(box, path) && theirs.Some? && (mine == None || mine.value.stamp <= theirs.value.stamp))
  }

  lemma YieldsMeansPicked(box: Box, remote: Files, path: Path)
    ensures Yields(box, path, Get(box.local, path), Get(remote, path))
            <==> Pick(Get(box.local, path), PriorAt(box.local, box.base, remote, path), Get(remote, path))
                 == Get(remote, path)
  {
  }

  /** A box's next whole run would push nothing onto the shared state exactly when all it holds gives way. */
  lemma NothingToPushExactlyWhen(box: Box, remote: Files)
    ensures MergeRun(box, remote) == remote
            <==> forall path :: Holds(box, path) ==> Yields(box, path, Get(box.local, path), Get(remote, path))
  {
    forall path
      ensures Get(MergeRun(box, remote), path) == Get(remote, path)
              <==> (Holds(box, path) ==> Yields(box, path, Get(box.local, path), Get(remote, path)))
    {
      MergeRunAt(box, remote, path);
      YieldsMeansPicked(box, remote, path);
    }
    if forall path :: Holds(box, path) ==> Yields(box, path, Get(box.local, path), Get(remote, path)) {
      SameFiles(MergeRun(box, remote), remote);
    }
  }

  /** Nothing a box has under way or on disk will change this shared state. */
  ghost predicate Calm(box: Box, remote: Files) {
    match box.run
    case Idle => MergeRun(box, remote) == remote
    case Fetched(fetched, _) => Clean(box) || (fetched == remote && MergeRun(box, remote) == remote)
    case Merged(_, _, _) => Adopted(box)
  }

  ghost predicate AllCalm(s: System) {
    forall i :: 0 <= i < |s.boxes| ==> Calm(s.boxes[i], s.remote)
  }

  lemma SettledIsCalm(s: System)
    requires Sound(s) && AllSettled(s)
    ensures AllCalm(s)
  {
    forall i | 0 <= i < |s.boxes| ensures Calm(s.boxes[i], s.remote) {
      if s.boxes[i].run.Idle? {
        CleanMergesToRemote(s.boxes[i], s.remote);
      }
    }
  }

  /** All that a late stop wrote gives way to the shared state as it is now. */
  ghost predicate Harmless(s: System, action: Action)
    requires Enabled(s, action) && Late(action)
  {
    var box := s.boxes[action.i];
    forall path :: Holds(box, path) && Writes(action, path) ==>
        Yields(box, path, Get(box.run.remote, path), Get(s.remote, path))
  }

  /** A run that fetched the shared state as it is, or one that its base already holds, can stop anywhere. */
  lemma StopsThatAreHarmless(s: System, action: Action)
    requires Sound(s) && Enabled(s, action) && Late(action)
    requires s.boxes[action.i].run.version == s.version || (s.boxes[action.i].base.Some? && FetchedIsBase(s, action))
    ensures Harmless(s, action)
  {
    var box := s.boxes[action.i];
    if box.run.version == s.version {
      assert box.run.remote == s.remote;
    }
  }

  /** No edit, and every late stop harmless. */
  ghost predicate Steady(s: System, actions: seq<Action>)
    requires CanRun(s, actions)
    decreases |actions|
  {
    actions == [] ||
    (&& !actions[0].Edit?
     && (Late(actions[0]) ==> Harmless(s, actions[0]))
     && Steady(Next(s, actions[0]), actions[1..]))
  }

  /** What a calm box's run merges is what it fetched. */
  lemma CalmMergesToFetched(box: Box, remote: Files)
    requires Calm(box, remote) && box.run.Fetched? && forall path :: path in box.local ==> Holds(box, path)
    ensures MergeRun(box, box.run.remote) == box.run.remote
  {
    if Clean(box) {
      CleanMergesToRemote(box, box.run.remote);
    }
  }

  /** What a late stop of a box that merges nothing of its own leaves of its files. */
  lemma LateStopFiles(s: System, action: Action, path: Path)
    requires Enabled(s, action) && Late(action) && Holds(s.boxes[action.i], path)
    requires var box := s.boxes[action.i]; if box.run.Fetched? then MergeRun(box, box.run.remote) == box.run.remote
        else Adopted(box)
    ensures var box, next := s.boxes[action.i], Next(s, action).boxes[action.i];
            && next.run == Idle && next.base == box.base && next.holds == box.holds
            && Get(next.local, path) ==
                (if Writes(action, path) then Get(box.run.remote, path) else Get(box.local, path))
  {
    hide MergeRun;
  }

  /** A late stop of a calm box leaves it calm exactly when it is harmless. */
  lemma LateStopIsCalmExactlyWhen(s: System, action: Action)
    requires Sound(s) && Enabled(s, action) && Late(action) && Calm(s.boxes[action.i], s.remote)
    ensures Next(s, action).remote == s.remote && Next(s, action).version == s.version
    ensures Calm(Next(s, action).boxes[action.i], s.remote) <==> Harmless(s, action)
  {
    hide MergeRun, Yields;
    var box := s.boxes[action.i];
    var next := Next(s, action).boxes[action.i];
    if action.SkipLate? {
      CalmMergesToFetched(box, s.remote);
      if Clean(box) {
        CleanMergesToRemote(box, s.remote);
      }
      NothingToPushExactlyWhen(box, s.remote);
    }
    NothingToPushExactlyWhen(next, s.remote);
    forall path | Holds(box, path)
      ensures Get(next.local, path) ==
          (if Writes(action, path) then Get(box.run.remote, path) else Get(box.local, path))
      ensures next.run == Idle && Holds(next, path)
      ensures forall mine, theirs :: Yields(next, path, mine, theirs) == Yields(box, path, mine, theirs)
    {
      LateStopFiles(s, action, path);
      YieldsByBase(box, next, path);
    }
  }

  lemma YieldsByBase(box: Box, other: Box, path: Path)
    requires box.base == other.base
    ensures forall mine, theirs :: Yields(box, path, mine, theirs) == Yields(other, path, mine, theirs)
  {
  }

  lemma SameMergeRun(box: Box, other: Box, remote: Files)
    ensures other.holds == box.holds && other.local == box.local && other.base == box.base ==>
              MergeRun(other, remote) == MergeRun(box, remote)
  {
  }

  lemma CalmStays(s: System, action: Action)
    requires Sound(s) && AllCalm(s) && Enabled(s, action) && !action.Edit? && (Late(action) ==> Harmless(s, action))
    ensures AllCalm(Next(s, action)) && Next(s, action).remote == s.remote && Next(s, action).version == s.version
  {
    hide MergeRun, Harmless;
    var i := action.i;
    var box := s.boxes[i];
    if Late(action) {
      LateStopIsCalmExactlyWhen(s, action);
    } else if action.WriteMerge? {
      CalmMergesToFetched(box, s.remote);
      OnlyHeld(box, box.run.remote);
    } else if box.run.Fetched? && Clean(box) {
      CleanMergesToRemote(box, s.remote);
    } else if action.Finish? {
      CleanMergesToRemote(Next(s, action).boxes[i], s.remote);
    }
    SameMergeRun(box, Next(s, action).boxes[i], s.remote);
    assert Calm(Next(s, action).boxes[i], s.remote);
  }

  /**
   * From a calm system on, the shared state never changes, in any order of any steps, while no late stop is harmful.
   */
  lemma {:induction false} SettledRemoteStays(s: System, actions: seq<Action>)
    requires Sound(s) && AllCalm(s) && CanRun(s, actions) && Steady(s, actions)
    ensures After(s, actions).remote == s.remote && After(s, actions).version == s.version
    ensures AllCalm(After(s, actions))
    decreases |actions|
  {
    if actions != [] {
      NextIsSound(s, actions[0]);
      CalmStays(s, actions[0]);
      SettledRemoteStays(Next(s, actions[0]), actions[1..]);
    }
  }

  function Sync(i: nat): seq<Action> {
    [Fetch(i)] + ([WriteMerge(i)] + ([Finish(i)] + []))
  }

  lemma FirstAction(s: System, action: Action, rest: seq<Action>)
    requires Enabled(s, action) && CanRun(Next(s, action), rest)
    ensures CanRun(s, [action] + rest) && After(s, [action] + rest) == After(Next(s, action), rest)
    ensures forall i, mark ::
        MarkAfter(s, [action] + rest, i, mark) == MarkAfter(Next(s, action), rest, i, NextMark(s, action, i, mark))
    ensures !action.Edit? && !Late(action) && Steady(Next(s, action), rest) ==> Steady(s, [action] + rest)
  {
    assert ([action] + rest)[1..] == rest;
  }

  /** A whole run of an idle box with nothing between its steps makes the shared state what it merges. */
  lemma WholeRun(s: System, i: nat)
    requires i < |s.boxes| && s.boxes[i].run.Idle?
    ensures CanRun(s, Sync(i)) && Steady(s, Sync(i)) && After(s, Sync(i)).remote == MergeRun(s.boxes[i], s.remote)
    ensures MarkAfter(s, Sync(i), i, Before) == Completed
  {
    var box := s.boxes[i];
    hide MergeRun;
    var a := Next(s, Fetch(i));
    SameMergeRun(box, a.boxes[i], s.remote);
    var b := Next(a, WriteMerge(i));
    assert CanRun(Next(b, Finish(i)), []) && Steady(Next(b, Finish(i)), []);
    FirstAction(b, Finish(i), []);
    FirstAction(a, WriteMerge(i), [Finish(i)] + []);
    FirstAction(s, Fetch(i), [WriteMerge(i)] + ([Finish(i)] + []));
  }

  /**
   * A late stop in a calm system can never come to change the shared state exactly when it is harmless: otherwise the
   * box's own next run does.
   */
  lemma LateStopIsHarmlessExactlyWhen(s: System, action: Action)
    requires Sound(s) && AllCalm(s) && Enabled(s, action) && Late(action)
    ensures Harmless(s, action) <==>
            forall actions :: CanRun(Next(s, action), actions) && Steady(Next(s, action), actions) ==>
              After(Next(s, action), actions).remote == s.remote
  {
    hide Harmless, Steady, CanRun, After, Calm;
    var next := Next(s, action);
    NextIsSound(s, action);
    LateStopIsCalmExactlyWhen(s, action);
    if Harmless(s, action) {
      CalmStays(s, action);
      forall actions | CanRun(next, actions) && Steady(next, actions) ensures After(next, actions).remote == s.remote {
        SettledRemoteStays(next, actions);
      }
    } else {
      WholeRun(next, action.i);
      IdleCalm(next.boxes[action.i], s.remote);
    }
  }

  lemma IdleCalm(box: Box, remote: Files)
    requires box.run.Idle?
    ensures Calm(box, remote) <==> MergeRun(box, remote) == remote
  {
  }

  /** The box's files and base are the shared state. */
  ghost predicate InStep(box: Box, remote: Files, version: nat) {
    && (forall path :: Holds(box, path) ==> Get(box.local, path) == Get(remote, path))
    && (version > 0 ==> box.base == Some(remote))
  }

  /** What a mark says of a calm box while the shared state stands still. */
  ghost predicate StillMark(box: Box, mark: Mark, remote: Files, version: nat) {
    match mark
    case Before => true
    case HasFetched => box.run == Fetched(remote, version)
    case HasMerged => box.run == Merged(remote, version, remote)
    case Completed =>
      && InStep(box, remote, version)
      && (!box.run.Idle? ==> box.run.remote == remote && box.run.version == version)
  }

  lemma StillStep(s: System, action: Action, i: nat, mark: Mark)
    requires Sound(s) && Enabled(s, action) && AllCalm(s) && i < |s.boxes| && !action.Edit?
    requires StillMark(s.boxes[i], mark, s.remote, s.version)
    ensures StillMark(Next(s, action).boxes[i], NextMark(s, action, i, mark), s.remote, s.version)
  {
    hide MergeRun;
    var box := s.boxes[i];
    if action.i == i && box.run.Fetched? {
      CalmMergesToFetched(box, s.remote);
      OnlyHeld(box, box.run.remote);
    }
  }

  lemma {:induction false} StillMarks(s: System, actions: seq<Action>, i: nat, mark: Mark)
    requires Sound(s) && CanRun(s, actions) && Steady(s, actions) && AllCalm(s) && i < |s.boxes|
    requires StillMark(s.boxes[i], mark, s.remote, s.version)
    ensures |After(s, actions).boxes| == |s.boxes|
    ensures StillMark(After(s, actions).boxes[i], MarkAfter(s, actions, i, mark), s.remote, s.version)
    decreases |actions|
  {
    if actions != [] {
      NextIsSound(s, actions[0]);
      StillStep(s, actions[0], i, mark);
      CalmStays(s, actions[0]);
      StillMarks(Next(s, actions[0]), actions[1..], i, NextMark(s, actions[0], i, mark));
    }
  }

  /**
   * Convergence: once each box completed a run after its last edit and its last stop that left it something to push,
   * and then each completes one more with no edit and no harmful stop, in any order and with any lost races and skipped
   * runs in between, every box's files and base are the shared state.
   */
  lemma TwoRunsEachConverge(s: System, first: seq<Action>, second: seq<Action>)
    requires Sound(s) && CanRun(s, first) && EachCompletes(s, first)
    requires CanRun(After(s, first), second) && Steady(After(s, first), second) &&
        EachCompletes(After(s, first), second)
    ensures var settled, end := After(s, first), After(After(s, first), second);
            && end.remote == settled.remote && |end.boxes| == |s.boxes|
            && forall i :: 0 <= i < |s.boxes| ==> InStep(end.boxes[i], end.remote, end.version)
  {
    var settled := After(s, first);
    OneRunEachSettles(s, first);
    SettledIsCalm(settled);
    SettledRemoteStays(settled, second);
    RunIsSound(settled, second);
    var end := After(settled, second);
    forall i | 0 <= i < |s.boxes| ensures InStep(end.boxes[i], end.remote, end.version) {
      StillMarks(settled, second, i, Before);
    }
  }

  // A harmful stop

  const ENTRY: Path := Path(Harness, "harness/skills/s1.json")

  function Entry(data: Option<Data>): Files {
    if data.Some? then map[ENTRY := data.value] else map[]
  }

  /** An idle box, and a shared state, in which only the one entry is in play. */
  function Holding(local: Option<Data>, base: Option<Data>): Box {
    Box({Harness}, Entry(local), Some(Entry(base)), Idle)
  }

  lemma MergeRunOfEntry(box: Box, local: Option<Data>, base: Option<Data>, remote: Option<Data>)
    requires box.(run := Idle) == Holding(local, base)
    ensures MergeRun(box, Entry(remote)) == Entry(Pick(local, base, remote))
    ensures Only(Entry(Pick(local, base, remote)), {Harness}) == Entry(Pick(local, base, remote))
  {
    var expected := Entry(Pick(local, base, remote));
    var merged := Merge(box.local, box.base, Entry(remote));
    forall path ensures Get(MergeRun(box, Entry(remote)), path) == Get(expected, path) {
      MergeAt(box.local, box.base, Entry(remote), path);
      assert path in merged <==> Get(merged, path).Some?;
    }
    SameFiles(MergeRun(box, Entry(remote)), expected);
  }

  function SyncLate(i: nat): seq<Action> {
    [Fetch(i)] + ([SkipLate(i, {Harness})] + [])
  }

  lemma FetchStep(s: System, i: nat)
    requires i < |s.boxes| && s.boxes[i].run.Idle?
    ensures Enabled(s, Fetch(i))
    ensures Next(s, Fetch(i)) == s.(boxes := s.boxes[i := s.boxes[i].(run := Fetched(s.remote, s.version))])
  {
  }

  lemma MergeStep(s: System, i: nat, local: Option<Data>, base: Option<Data>, remote: Option<Data>)
    requires i < |s.boxes| && s.boxes[i] == Holding(local, base).(run := Fetched(Entry(remote), s.version))
    ensures var pick := Pick(local, base, remote);
            && Enabled(s, WriteMerge(i))
            && Next(s, WriteMerge(i)).boxes
               == s.boxes[i := Holding(pick, base).(run := Merged(Entry(remote), s.version, Entry(pick)))]
            && Next(s, WriteMerge(i)) == s.(boxes := Next(s, WriteMerge(i)).boxes)
  {
    MergeRunOfEntry(s.boxes[i], local, base, remote);
    hide MergeRun, Only, Pick, Entry;
  }

  lemma FinishStep(s: System, i: nat, pick: Option<Data>, base: Option<Data>, remote: Option<Data>)
    requires i < |s.boxes| && s.version > 0
    requires s.boxes[i] == Holding(pick, base).(run := Merged(Entry(remote), s.version, Entry(pick)))
    requires s.remote == Entry(remote)
    ensures Enabled(s, Finish(i)) && Completes(s, i)
    ensures Next(s, Finish(i))
            == System(s.boxes[i := Holding(pick, pick)], Entry(pick), if pick == remote then s.version
                else s.version + 1)
  {
    assert Entry(pick) == Entry(remote) <==> pick == remote by {
      assert Get(Entry(pick), ENTRY) == pick && Get(Entry(remote), ENTRY) == remote;
    }
    hide Entry;
  }

  lemma LateStep(s: System, i: nat, local: Option<Data>, base: Option<Data>, remote: Option<Data>)
    requires i < |s.boxes| && s.boxes[i] == Holding(local, base).(run := Fetched(Entry(remote), s.version))
    ensures Enabled(s, SkipLate(i, {Harness}))
    ensures Next(s, SkipLate(i, {Harness})) == s.(boxes := s.boxes[i := Holding(Pick(local, base, remote), base)])
  {
    hide MergeRun, Only, Pick, Entry;
    MergeRunOfEntry(s.boxes[i], local, base, remote);
    OnlyWritten(Entry(local), Entry(Pick(local, base, remote)));
  }

  lemma OnlyWritten(local: Files, merged: Files)
    ensures {Harness} * {Harness} == {Harness}
    ensures Only(local, {Harness} - {Harness}) + Only(merged, {Harness}) == Only(merged, {Harness})
  {
  }

  lemma Twice<T>(items: seq<T>, i: nat, a: T, b: T)
    requires i < |items|
    ensures items[i := a][i := b] == items[i := b] && items[i := a][i] == a && |items[i := a]| == |items|
  {
  }

  /** A whole run of one box with nothing between its steps. */
  lemma SyncAlone(s: System, i: nat, local: Option<Data>, base: Option<Data>, remote: Option<Data>)
    requires i < |s.boxes| && s.boxes[i] == Holding(local, base) && s.remote == Entry(remote) && s.version > 0
    ensures var pick := Pick(local, base, remote);
            && CanRun(s, Sync(i)) && MarkAfter(s, Sync(i), i, Before) == Completed
            && After(s, Sync(i))
               == System(s.boxes[i := Holding(pick, pick)], Entry(pick), if pick == remote then s.version
                   else s.version + 1)
  {
    hide Next, Enabled, MergeRun, Only, Pick, Entry, Completes, Unsettles;
    var pick := Pick(local, base, remote);
    var fetched := s.boxes[i].(run := Fetched(s.remote, s.version));
    var merged := Holding(pick, base).(run := Merged(Entry(remote), s.version, Entry(pick)));
    FetchStep(s, i);
    var a := Next(s, Fetch(i));
    Twice(s.boxes, i, fetched, merged);
    MergeStep(a, i, local, base, remote);
    var b := Next(a, WriteMerge(i));
    Twice(s.boxes, i, merged, Holding(pick, pick));
    FinishStep(b, i, pick, base, remote);
    FirstAction(b, Finish(i), []);
    FirstAction(a, WriteMerge(i), [Finish(i)] + []);
    FirstAction(s, Fetch(i), [WriteMerge(i)] + ([Finish(i)] + []));
  }

  lemma SyncLateAlone(s: System, i: nat, local: Option<Data>, base: Option<Data>, remote: Option<Data>)
    requires i < |s.boxes| && s.boxes[i] == Holding(local, base) && s.remote == Entry(remote)
    ensures var pick := Pick(local, base, remote);
            CanRun(s, SyncLate(i)) && After(s, SyncLate(i)) == s.(boxes := s.boxes[i := Holding(pick, base)])
  {
    hide Next, Enabled, MergeRun, Only, Pick, Entry;
    var pick := Pick(local, base, remote);
    FetchStep(s, i);
    var a := Next(s, Fetch(i));
    Twice(s.boxes, i, s.boxes[i].(run := Fetched(s.remote, s.version)), Holding(pick, base));
    LateStep(a, i, local, base, remote);
    FirstAction(a, SkipLate(i, {Harness}), []);
    FirstAction(s, Fetch(i), [SkipLate(i, {Harness})] + []);
  }

  /**
   * Three boxes when edits stop: the second put older bytes back, and the third, which still has those as its base,
   * deleted the entry.
   */
  function Start(older: Data, newer: Data): System {
    System([Holding(Some(newer), Some(newer)), Holding(Some(older), Some(newer)), Holding(None, Some(older))],
        Entry(Some(newer)), 2)
  }

  ghost predicate Leads(s: System, actions: seq<Action>, t: System) {
    CanRun(s, actions) && t == After(s, actions)
  }

  /** A whole run of one box, which the box completes. */
  ghost predicate LeadsWhole(s: System, i: nat, t: System) {
    CanRun(s, Sync(i)) && MarkAfter(s, Sync(i), i, Before) == Completed && t == After(s, Sync(i))
  }

  /**
   * A box whose run stops between writing its files and moving its base can still change the shared state after every
   * box has completed a run: here it brings a deleted entry back.
   */
  lemma LateSkipRevives(older: Data, newer: Data)
    returns (s1: System, s2: System, s3: System, s4: System, s5: System)
    requires older != newer
    ensures Sound(Start(older, newer))
    ensures LeadsWhole(Start(older, newer), 0, s1) && LeadsWhole(s1, 1, s2)
    ensures Leads(s2, SyncLate(0), s3)
    ensures LeadsWhole(s3, 2, s4) && s4.remote == map[]
    ensures Leads(s4, Sync(0), s5) && s5.remote == Entry(Some(older))
  {
    var s := Start(older, newer);
    hide Sync, SyncLate, CanRun, After, MarkAfter;
    SyncAlone(s, 0, Some(newer), Some(newer), Some(newer));
    s1 := After(s, Sync(0));
    SyncAlone(s1, 1, Some(older), Some(newer), Some(newer));
    s2 := After(s1, Sync(1));
    SyncLateAlone(s2, 0, Some(newer), Some(newer), Some(older));
    s3 := After(s2, SyncLate(0));
    SyncAlone(s3, 2, None, Some(older), Some(older));
    s4 := After(s3, Sync(2));
    SyncAlone(s4, 0, Some(older), Some(newer), None);
    s5 := After(s4, Sync(0));
  }
}
