/**
 * The two runs of the installer, apply and rollback, and what any history of them leaves after any number of crashes.
 */
module InstallerRuns {
  import opened Installer

  /** The checks before a run: whether every operation's files are as its state in the receipt has them. */
  method ValidateReceipt(m: Machine, receipt: Receipt, rollback: bool) returns (o: Outcome)
    requires Sized(m.plan, m.disk) && |receipt.changes| == |m.plan|
    ensures o == Done || o == Refused
    ensures o == Done <==> AllExpected(m.plan, m.disk, receipt.changes, rollback)
  {
    hide Expected, PhysicalState, Allowed, TempFits;
    for i := 0 to |m.plan|
      invariant forall j :: 0 <= j < i ==>
        Expected(m.plan[j], m.disk.targets[j], m.disk.backups[j], m.disk.temps[j], receipt.changes[j], rollback)
    {
      var op, change := m.plan[i], receipt.changes[i];
      ExpectedExactly(op, m.disk.targets[i], m.disk.backups[i], m.disk.temps[i], change, rollback);
      if change == Unchanged {
        if !rollback && m.disk.targets[i] != op.after {
          return Refused;
        }
        continue;
      }
      if !TempFits(op, m.disk.temps[i]) || !Allowed(change, PhysicalState(op, m.disk.targets[i], m.disk.backups[i])) {
        return Refused;
      }
    }
    return Done;
  }

  /** What passed the checks is held, whoever wrote it. */
  lemma ExpectedIsHeld(m: Machine, rollback: bool)
    requires m.Ready() && m.disk.saved.Saved?
    requires AllExpected(m.plan, m.disk, m.disk.saved.receipt.changes, rollback)
    ensures m.Valid()
  {
    var changes := m.disk.saved.receipt.changes;
    forall i | 0 <= i < |m.plan| && !m.alone
      ensures OpSafe(false, m.plan[i], m.disk.targets[i], m.disk.backups[i], m.disk.temps[i], changes[i])
    {
      ExpectedExactly(m.plan[i], m.disk.targets[i], m.disk.backups[i], m.disk.temps[i], changes[i], rollback);
    }
  }

  /** A directory and everything above it is there when anything below it is. */
  lemma {:induction false} AncestorsIn(dirs: set<Path>, path: Path, k: nat)
    requires path in dirs && k <= |path| && forall p :: p in dirs ==> Parent(p) in dirs
    ensures path[..k] in dirs
    decreases |path|
  {
    if k == |path| {
      assert path[..k] == path;
    } else {
      AncestorsIn(dirs, Parent(path), k);
      assert Parent(path)[..k] == path[..k];
    }
  }

  lemma RecordedInOrder(home: set<Path>, dirs: set<Path>, created: seq<Path>, path: Path)
    requires DirsSafe(home, dirs, created) && path != [] && path !in created && path !in dirs && Parent(path) in dirs
    ensures DirsSafe(home, dirs, created + [path])
  {
    var longer := created + [path];
    forall j | 0 <= j < |longer| ensures Parent(longer[j]) in home || Parent(longer[j]) in longer[..j] {
      assert longer[..j] == if j < |created| then created[..j] else created;
    }
  }

  /** The receipt may name one more directory, missing below one that is there. */
  lemma RecordIsSafe(alone: bool, plan: seq<Operation>, home: set<Path>, disk: Disk, path: Path)
    requires Held(alone, plan, home, disk) && disk.saved.Saved?
    requires var created := disk.saved.receipt.created;
             path != [] && path !in created && path !in disk.dirs && Parent(path) in disk.dirs
    ensures var receipt := disk.saved.receipt;
            Held(alone, plan, home, disk.(saved := Saved(receipt.(created := receipt.created + [path]))))
  {
    hide DirsSafe, OpSafe;
    if alone {
      RecordedInOrder(home, disk.dirs, disk.saved.receipt.created, path);
    }
  }

  /** A directory the saved receipt names may be made below one that is there. */
  lemma MakingIsSafe(alone: bool, plan: seq<Operation>, home: set<Path>, disk: Disk, path: Path)
    requires Held(alone, plan, home, disk) && disk.saved.Saved?
    requires path in disk.saved.receipt.created && Parent(path) in disk.dirs
    ensures Held(alone, plan, home, disk.(dirs := disk.dirs + {path}))
  {
    hide OpSafe;
  }

  lemma DirsAreATree(m: Machine)
    requires m.Valid()
    ensures [] in m.disk.dirs && forall path :: path in m.disk.dirs ==> Parent(path) in m.disk.dirs
  {
  }

  lemma ValidIsReady(m: Machine)
    requires m.Valid()
    ensures m.Ready() && OnDisk(m.plan, m.disk) && Sized(m.plan, m.disk)
  {
  }

  /** The files of every operation but one stand. */
  ghost predicate OthersStand(was: Disk, disk: Disk, i: nat) {
    && |disk.targets| == |disk.backups| == |disk.temps| == |was.targets| == |was.backups| == |was.temps|
    && forall j :: 0 <= j < |was.targets| && j != i ==>
         disk.targets[j] == was.targets[j] && disk.backups[j] == was.backups[j] && disk.temps[j] == was.temps[j]
  }

  /** Records each missing directory above a target, then makes it, outermost first. */
  method EnsureParents(m: Machine, i: nat, receipt: Receipt) returns (o: Outcome, saved: Receipt)
    requires m.Valid() && m.disk.saved == Saved(receipt) && i < |m.plan|
    modifies m
    ensures m.Valid()
    ensures m.disk.saved.Saved? && m.disk.saved.receipt.phase == receipt.phase
    ensures m.disk == old(m.disk).(dirs := m.disk.dirs, saved := m.disk.saved)
    ensures o == Done ==>
      && saved == receipt.(created := saved.created) && m.disk.saved == Saved(saved)
      && ParentsIn(m.plan[i].target, m.disk.dirs)
    ensures o != Done ==> o == Crashed && old(m.power) != Never
    ensures old(m.power) == Never ==> m.power == Never
  {
    hide Held, OnDisk, OpSafe, Operation.Unchanging, ParentsIn;
    DirsAreATree(m);
    OpIsSafe(m.alone, m.plan, m.home, m.disk, i);
    var target := m.plan[i].target;
    var depth := |target| - 1;
    while target[..depth] !in m.disk.dirs
      invariant 0 <= depth < |target|
      invariant depth < |target| - 1 ==> target[..depth + 1] !in m.disk.dirs
      decreases depth
    {
      depth := depth - 1;
    }
    forall k | 0 <= k <= depth ensures target[..k] in m.disk.dirs {
      AncestorsIn(m.disk.dirs, target[..depth], k);
      assert target[..depth][..k] == target[..k];
    }
    o, saved := Done, receipt;
    var k := depth + 1;
    while k < |target|
      invariant o == Done && depth < k <= |target|
      invariant m.Valid() && m.disk == old(m.disk).(dirs := m.disk.dirs, saved := Saved(saved))
      invariant saved == receipt.(created := saved.created)
      invariant forall j :: 0 <= j < k ==> target[..j] in m.disk.dirs
      invariant k < |target| ==> target[..k] !in m.disk.dirs
      invariant old(m.power) == Never ==> m.power == Never
    {
      var directory := target[..k];
      DirsAreATree(m);
      assert Parent(directory) == target[..k - 1];
      assert k + 1 < |target| ==> Parent(target[..k + 1]) == directory;
      if directory !in saved.created {
        RecordIsSafe(m.alone, m.plan, m.home, m.disk, directory);
        var next := saved.(created := saved.created + [directory]);
        o := m.Save(next);
        if o != Done {
          return;
        }
        saved := next;
      }
      MakingIsSafe(m.alone, m.plan, m.home, m.disk, directory);
      o := m.MakeDirectory(directory);
      if o != Done {
        return;
      }
      k := k + 1;
    }
    ParentsStand(target, m.disk.dirs);
  }

  lemma ParentsStand(target: Path, dirs: set<Path>)
    requires forall j :: 0 <= j < |target| ==> target[..j] in dirs
    ensures ParentsIn(target, dirs)
  {
  }

  /** The receipt with one operation's state changed. */
  function WithChange(receipt: Receipt, i: nat, change: Change): Receipt
    requires i < |receipt.changes|
  {
    receipt.(changes := receipt.changes[i := change])
  }

  lemma OpIsSafe(alone: bool, plan: seq<Operation>, home: set<Path>, disk: Disk, i: nat)
    requires Held(alone, plan, home, disk) && disk.saved.Saved? && i < |plan|
    ensures OnDisk(plan, disk) && plan[i].Planned()
    ensures disk.saved.receipt.changes[i] == Unchanged <==> plan[i].Unchanging()
    ensures OpSafe(alone, plan[i], disk.targets[i], disk.backups[i], disk.temps[i], disk.saved.receipt.changes[i])
    ensures disk.targets[i] != Missing || disk.temps[i] != NoTemp ==> ParentsIn(plan[i].target, disk.dirs)
  {
  }

  /** A new state for one operation, once its files fit that state. */
  lemma ChangeIsSafe(alone: bool, plan: seq<Operation>, home: set<Path>, disk: Disk, i: nat, change: Change)
    requires Held(alone, plan, home, disk) && disk.saved.Saved? && i < |plan|
    requires OpSafe(alone, plan[i], disk.targets[i], disk.backups[i], disk.temps[i], change)
    requires change != Unchanged && disk.saved.receipt.changes[i] != Unchanged
    requires disk.saved.receipt.phase != RolledBack
    requires change in {Restoring, Restored} ==> disk.saved.receipt.phase == RollingBack
    ensures Held(alone, plan, home, disk.(saved := Saved(WithChange(disk.saved.receipt, i, change))))
  {
    hide OpSafe;
    var receipt := disk.saved.receipt;
    var changes := receipt.changes[i := change];
    assert forall c :: c in changes ==> c == change || c in receipt.changes;
  }

  /** New files for one operation, fit for the state it has. */
  lemma FilesAreSafe(alone: bool, plan: seq<Operation>, home: set<Path>, disk: Disk, i: nat, target: Fingerprint,
      backup: Fingerprint, temp: Temp)
    requires Held(alone, plan, home, disk) && disk.saved.Saved? && i < |plan|
    requires OpSafe(alone, plan[i], target, backup, temp, disk.saved.receipt.changes[i])
    requires target != Missing || temp != NoTemp ==> ParentsIn(plan[i].target, disk.dirs)
    ensures Held(alone, plan, home,
        disk.(targets := disk.targets[i := target], backups := disk.backups[i := backup],
        temps := disk.temps[i := temp]))
  {
    hide OpSafe;
  }

  lemma Unmoved<T>(items: seq<T>, i: nat)
    requires i < |items|
    ensures items[i := items[i]] == items
  {
  }

  /** Writes what the plan wants at a target that is not there, a generated file by way of a temporary one. */
  method Publish(m: Machine, i: nat, receipt: Receipt) returns (o: Outcome)
    requires m.Valid() && m.disk.saved == Saved(receipt) && i < |m.plan| && receipt.changes[i] == Prepared
    requires m.disk.targets[i] == Missing && m.disk.backups[i] == m.plan[i].before &&
        ParentsIn(m.plan[i].target, m.disk.dirs)
    modifies m
    ensures m.Valid() && OthersStand(old(m.disk), m.disk, i)
    ensures m.disk.saved.Saved? && m.disk.saved.receipt.phase == receipt.phase
    ensures o == Done ==>
        m.disk == old(m.disk).(targets := old(m.disk.targets)[i := m.plan[i].after], temps := m.disk.temps)
    ensures o != Done ==> o == Crashed && old(m.power) != Never
    ensures old(m.power) == Never ==> m.power == Never
  {
    hide Held, ParentsIn;
    ValidIsReady(m);
    OpIsSafe(m.alone, m.plan, m.home, m.disk, i);
    match m.plan[i].kind
    case Remove =>
      assert m.disk.targets[i := Missing] == m.disk.targets;
      return Done;
    case Link(_) =>
      MadeIsHeld(m, i, receipt);
      o := m.Make(i);
    case Generated(value) =>
      o := WriteTemp(m, i, receipt, value);
      if o != Done {
        return;
      }
      MadeIsHeld(m, i, receipt);
      o := m.Make(i);
      if o != Done {
        return;
      }
      TempMayGo(m, i);
      o := m.SetTemp(i, NoTemp);
  }

  lemma MadeIsHeld(m: Machine, i: nat, receipt: Receipt)
    requires m.Valid() && m.disk.saved == Saved(receipt) && i < |m.plan| && receipt.changes[i] == Prepared
    requires m.disk.targets[i] == Missing && m.disk.backups[i] == m.plan[i].before &&
        ParentsIn(m.plan[i].target, m.disk.dirs)
    ensures Published(m.plan[i]) == m.plan[i].after
    ensures Held(m.alone, m.plan, m.home, m.disk.(targets := m.disk.targets[i := m.plan[i].after]))
  {
    OpIsSafe(m.alone, m.plan, m.home, m.disk, i);
    FilesAreSafe(m.alone, m.plan, m.home, m.disk, i, m.plan[i].after, m.disk.backups[i], m.disk.temps[i]);
    Unmoved(m.disk.backups, i);
    Unmoved(m.disk.temps, i);
  }

  /** The temporary file grows from nothing to the whole value, so a crash leaves a beginning of it. */
  method WriteTemp(m: Machine, i: nat, receipt: Receipt, value: Bytes) returns (o: Outcome)
    requires m.Valid() && m.disk.saved == Saved(receipt) && i < |m.plan| && receipt.changes[i] == Prepared
    requires m.plan[i].kind == Generated(value) && ParentsIn(m.plan[i].target, m.disk.dirs)
    modifies m
    ensures m.Valid() && OthersStand(old(m.disk), m.disk, i)
    ensures m.disk.saved.Saved? && m.disk.saved.receipt.phase == receipt.phase
    ensures o == Done ==> m.disk == old(m.disk).(temps := old(m.disk.temps)[i := TempFile(value)])
    ensures o != Done ==> o == Crashed && old(m.power) != Never
    ensures old(m.power) == Never ==> m.power == Never
  {
    hide Held, ParentsIn;
    ValidIsReady(m);
    TempMayBe(m, i, receipt, []);
    o := m.SetTemp(i, TempFile([]));
    if o != Done {
      return;
    }
    assert value[..0] == [];
    for n := 0 to |value|
      invariant o == Done && m.Valid() && m.disk == old(m.disk).(temps := old(m.disk.temps)[i := TempFile(value[..n])])
      invariant old(m.power) == Never ==> m.power == Never
    {
      assert value[..n] + [value[n]] == value[..n + 1];
      TempMayBe(m, i, receipt, value[..n + 1]);
      o := m.SetTemp(i, TempFile(value[..n + 1]));
      if o != Done {
        return;
      }
    }
    assert value[..|value|] == value;
  }

  lemma TempMayBe(m: Machine, i: nat, receipt: Receipt, bytes: Bytes)
    requires m.Valid() && m.disk.saved == Saved(receipt) && i < |m.plan| && receipt.changes[i] == Prepared
    requires m.plan[i].kind.Generated? && bytes <= m.plan[i].kind.value && ParentsIn(m.plan[i].target, m.disk.dirs)
    ensures Held(m.alone, m.plan, m.home, m.disk.(temps := m.disk.temps[i := TempFile(bytes)]))
  {
    OpIsSafe(m.alone, m.plan, m.home, m.disk, i);
    FilesAreSafe(m.alone, m.plan, m.home, m.disk, i, m.disk.targets[i], m.disk.backups[i], TempFile(bytes));
    Unmoved(m.disk.targets, i);
    Unmoved(m.disk.backups, i);
  }

  /** One operation of an apply, from whatever an earlier apply left of it. */
  method InstallOne(m: Machine, i: nat, receipt: Receipt) returns (o: Outcome, saved: Receipt)
    requires m.Valid() && m.disk.saved == Saved(receipt) && i < |m.plan|
    requires receipt.phase in {Applying, AllApplied} && receipt.changes[i] in {Pending, Prepared}
    modifies m
    ensures m.Valid() && OthersStand(old(m.disk), m.disk, i)
    ensures m.disk.saved.Saved? && m.disk.saved.receipt.phase == receipt.phase
    ensures o == Done ==> m.disk.saved == Saved(saved) && saved.phase == receipt.phase
                          && saved.changes == receipt.changes[i := Applied]
    ensures o != Done ==> o == Crashed && old(m.power) != Never
    ensures old(m.power) == Never ==> m.power == Never
  {
    hide Held, OnDisk, OpSafe, PhysicalState;
    ValidIsReady(m);
    var physical := PhysicalState(m.plan[i], m.disk.targets[i], m.disk.backups[i]);
    saved := WithChange(receipt, i, Prepared);
    MayBePrepared(m, i);
    o := m.Save(saved);
    if o != Done {
      return;
    }
    o, saved := EnsureParents(m, i, saved);
    if o != Done {
      return;
    }
    o := FillTarget(m, i, saved, physical);
    if o != Done {
      return;
    }
    IsApplied(m, i);
    saved := WithChange(saved, i, Applied);
    o := m.Save(saved);
  }

  lemma MayBePrepared(m: Machine, i: nat)
    requires m.Valid() && m.disk.saved.Saved? && i < |m.plan| == |m.disk.saved.receipt.changes|
    requires m.disk.saved.receipt.phase in {Applying, AllApplied}
    requires m.disk.saved.receipt.changes[i] in {Pending, Prepared}
    ensures Held(m.alone, m.plan, m.home, m.disk.(saved := Saved(WithChange(m.disk.saved.receipt, i, Prepared))))
  {
    OpIsSafe(m.alone, m.plan, m.home, m.disk, i);
    ChangeIsSafe(m.alone, m.plan, m.home, m.disk, i, Prepared);
  }

  lemma IsApplied(m: Machine, i: nat)
    requires m.Valid() && m.disk.saved.Saved? && i < |m.plan| == |m.disk.saved.receipt.changes|
    requires m.disk.saved.receipt.phase in {Applying, AllApplied} && m.disk.saved.receipt.changes[i] == Prepared
    requires Sized(m.plan, m.disk) && PhysicalState(m.plan[i], m.disk.targets[i], m.disk.backups[i]) == Installed
    ensures Held(m.alone, m.plan, m.home, m.disk.(saved := Saved(WithChange(m.disk.saved.receipt, i, Applied))))
  {
    OpIsSafe(m.alone, m.plan, m.home, m.disk, i);
    ChangeIsSafe(m.alone, m.plan, m.home, m.disk, i, Applied);
  }

  /** From what stands at the target and in the backup to the target as planned. */
  method FillTarget(m: Machine, i: nat, receipt: Receipt, before: Physical) returns (o: Outcome)
    requires m.Valid() && m.disk.saved == Saved(receipt) && i < |m.plan| && receipt.changes[i] == Prepared
    requires ParentsIn(m.plan[i].target, m.disk.dirs)
    requires before == PhysicalState(m.plan[i], m.disk.targets[i], m.disk.backups[i])
    modifies m
    ensures m.Valid() && OthersStand(old(m.disk), m.disk, i)
    ensures m.disk.saved.Saved? && m.disk.saved.receipt.phase == receipt.phase
    ensures o == Done ==> m.disk.saved == Saved(receipt) && Sized(m.plan, m.disk)
                          && PhysicalState(m.plan[i], m.disk.targets[i], m.disk.backups[i]) == Installed
    ensures o != Done ==> o == Crashed && old(m.power) != Never
    ensures old(m.power) == Never ==> m.power == Never
  {
    hide Held, OnDisk;
    OpIsSafe(m.alone, m.plan, m.home, m.disk, i);
    ValidIsReady(m);
    var op, physical := m.plan[i], before;
    if physical == Original && op.before != Missing {
      FilesAreSafe(m.alone, m.plan, m.home, m.disk, i, Missing, op.before, m.disk.temps[i]);
      Unmoved(m.disk.temps, i);
      o := m.MoveToBackup(i);
      if o != Done {
        return;
      }
      physical := BackedUp;
    }
    if physical != Installed {
      assert m.disk.targets[i] == Missing;
      o := Publish(m, i, receipt);
      if o == Done {
        OpIsSafe(m.alone, m.plan, m.home, m.disk, i);
      }
    } else {
      o := Done;
    }
  }

  // Apply

  function FirstReceipt(plan: seq<Operation>): Receipt {
    Receipt(Applying, seq(|plan|, i requires 0 <= i < |plan| => if plan[i].Unchanging() then Unchanged else Pending),
        [])
  }

  /** What an apply asks of the disk before it does anything. */
  ghost predicate CanApply(plan: seq<Operation>, disk: Disk)
    requires Sized(plan, disk)
  {
    match disk.saved
    case NoReceipt => forall i :: 0 <= i < |plan| ==> disk.targets[i] == plan[i].before
    case Saved(receipt) => receipt.phase in {Applying, AllApplied} && AllExpected(plan, disk, receipt.changes, false)
  }

  /** An operation that changes nothing, with a temporary file that is not the installer's. */
  ghost predicate StrayTemp(plan: seq<Operation>, disk: Disk, i: nat)
    requires Sized(plan, disk)
  {
    i < |plan| && plan[i].Unchanging() && !TempFits(plan[i], disk.temps[i])
  }

  /** The checks of a first apply: every target is as the plan found it. */
  method TargetsAreAsPlanned(m: Machine) returns (o: Outcome)
    requires Sized(m.plan, m.disk)
    ensures o == Done || o == Refused
    ensures o == Done <==> forall i :: 0 <= i < |m.plan| ==> m.disk.targets[i] == m.plan[i].before
  {
    for i := 0 to |m.plan|
      invariant forall j :: 0 <= j < i ==> m.disk.targets[j] == m.plan[j].before
    {
      if m.disk.targets[i] != m.plan[i].before {
        return Refused;
      }
    }
    return Done;
  }

  /**
   * Installs the plan, or goes on with an apply that crashed. A disk that somebody else changed is refused as it is; a
   * stray temporary file under an operation that changes nothing is found at the end only. Whatever step it crashes at,
   * what is on disk is ready for the next run.
   */
  method Apply(m: Machine) returns (o: Outcome)
    requires m.Ready()
    modifies m
    ensures m.Ready()
    ensures !old(CanApply(m.plan, m.disk)) ==> o == Refused && m.disk == old(m.disk)
    ensures o == Refused && old(CanApply(m.plan, m.disk)) ==> exists i :: old(StrayTemp(m.plan, m.disk, i))
    ensures (exists i :: old(StrayTemp(m.plan, m.disk, i))) ==> o != Done
    ensures o != Refused ==> m.Valid()
    ensures m.disk.saved.Saved? && o != Refused ==> m.disk.saved.receipt.phase in {Applying, AllApplied}
    ensures o == Done ==> InPlace(m.plan, m.disk) && (m.alone ==> AllInstalled(m.plan, m.disk))
    ensures o == Crashed ==> old(m.power) != Never
  {
    hide Held, AllExpected, InPlace;
    var receipt: Receipt;
    match m.disk.saved {
      case Saved(saved) =>
        if saved.phase in {RollingBack, RolledBack} {
          return Refused;
        }
        receipt := saved;
        o := ValidateReceipt(m, receipt, false);
        if o != Done {
          return;
        }
        ExpectedIsHeld(m, false);
        UnchangedAsPlanned(m.plan, m.disk);
      case NoReceipt =>
        o := TargetsAreAsPlanned(m);
        if o != Done {
          return;
        }
        receipt := FirstReceipt(m.plan);
        FirstIsHeld(m);
        o := m.Save(receipt);
        if o != Done {
          return;
        }
        ValidIsReady(m);
    }
    o := ApplyAll(m, receipt);
    ValidIsReady(m);
  }
  method ApplyAll(m: Machine, receipt: Receipt) returns (o: Outcome)
    requires m.Valid() && m.disk.saved == Saved(receipt) && receipt.phase in {Applying, AllApplied}
    requires forall i :: 0 <= i < |m.plan| && m.plan[i].Unchanging() ==> m.disk.targets[i] == m.plan[i].after
    modifies m
    ensures m.Valid()
    ensures m.disk.saved.Saved? && m.disk.saved.receipt.phase in {Applying, AllApplied}
    ensures o == Done ==> InPlace(m.plan, m.disk) && (m.alone ==> AllInstalled(m.plan, m.disk))
    ensures o == Refused ==> exists i :: old(StrayTemp(m.plan, m.disk, i))
    ensures (exists i :: old(StrayTemp(m.plan, m.disk, i))) ==> o != Done
    ensures o == Crashed ==> old(m.power) != Never
  {
    hide Held, OnDisk, OpSafe, TempFits, Operation.Unchanging;
    var saved := receipt;
    o := Done;
    ValidIsReady(m);
    for i := 0 to |m.plan|
      invariant o == Done && m.Valid() && m.disk.saved == Saved(saved) && saved.phase in {Applying, AllApplied}
      invariant |saved.changes| == |m.plan| && forall j :: 0 <= j < i ==> saved.changes[j] in {Unchanged, Applied}
      invariant Sized(m.plan, m.disk)
      invariant forall j :: 0 <= j < |m.plan| && m.plan[j].Unchanging() ==> SameFiles(old(m.disk), m.disk, j)
      invariant old(m.power) == Never ==> m.power == Never
    {
      if saved.changes[i] in {Unchanged, Applied} {
        continue;
      }
      StateInApply(m, i);
      o, saved := InstallOne(m, i, saved);
      if o != Done {
        return;
      }
      ValidIsReady(m);
    }
    ghost var ended := m.disk;
    o := DropTemps(m, saved);
    if o == Refused {
      ghost var i :| StrayTemp(m.plan, ended, i);
      assert SameFiles(old(m.disk), ended, i);
      assert old(StrayTemp(m.plan, m.disk, i));
    }
    if o != Done {
      return;
    }
    forall i | old(StrayTemp(m.plan, m.disk, i)) ensures StrayTemp(m.plan, ended, i) {
      assert SameFiles(old(m.disk), ended, i);
    }
    EndIsInPlace(m);
    saved := saved.(phase := AllApplied);
    o := m.Save(saved);
  }

  /** An operation of an apply that has not ended is pending or prepared, and changes something. */
  lemma StateInApply(m: Machine, i: nat)
    requires m.Valid() && m.disk.saved.Saved? && i < |m.plan|
    requires m.disk.saved.receipt.phase in {Applying, AllApplied}
    ensures |m.disk.saved.receipt.changes| == |m.plan|
    ensures m.disk.saved.receipt.changes[i] in {Unchanged, Pending, Prepared, Applied}
    ensures m.disk.saved.receipt.changes[i] == Unchanged <==> m.plan[i].Unchanging()
  {
    assert m.disk.saved.receipt.changes[i] in m.disk.saved.receipt.changes;
  }

  lemma EndIsInPlace(m: Machine)
    requires m.Valid() && m.disk.saved.Saved? && m.disk.saved.receipt.phase in {Applying, AllApplied}
    requires forall i :: 0 <= i < |m.plan| ==> m.disk.saved.receipt.changes[i] in {Unchanged, Applied}
    requires forall i :: 0 <= i < |m.plan| && m.plan[i].kind.Generated? ==> m.disk.temps[i] == NoTemp
    requires forall i :: 0 <= i < |m.plan| && m.plan[i].Unchanging() ==> m.disk.targets[i] == m.plan[i].after
    ensures var disk := m.disk.(saved := Saved(m.disk.saved.receipt.(phase := AllApplied)));
            && Held(m.alone, m.plan, m.home, disk) && InPlace(m.plan, disk)
            && (m.alone ==> AllInstalled(m.plan, disk))
  {
    forall i | 0 <= i < |m.plan|
      ensures m.disk.targets[i] == m.plan[i].after
      ensures !m.plan[i].Unchanging() ==> m.disk.backups[i] == m.plan[i].before
    {
      OpIsSafe(m.alone, m.plan, m.home, m.disk, i);
    }
  }

  /** Takes the temporary files away, and stops at one that is not a beginning of what the plan writes. */
  method DropTemps(m: Machine, saved: Receipt) returns (o: Outcome)
    requires m.Valid() && m.disk.saved == Saved(saved)
    modifies m
    ensures m.Valid()
    ensures m.disk == old(m.disk).(temps := m.disk.temps)
    ensures o == Done ==> Sized(m.plan, m.disk) && forall i :: 0 <= i < |m.plan| ==>
        m.disk.temps[i] == if m.plan[i].kind.Generated? then NoTemp else old(m.disk.temps[i])
    ensures o == Refused ==> exists i :: old(StrayTemp(m.plan, m.disk, i))
    ensures (exists i :: old(StrayTemp(m.plan, m.disk, i))) ==> o != Done
    ensures o == Crashed ==> old(m.power) != Never
    ensures old(m.power) == Never ==> m.power == Never
  {
    o := Done;
    for i := 0 to |m.plan|
      invariant o == Done && m.Valid() && m.disk == old(m.disk).(temps := m.disk.temps)
      invariant forall j :: i <= j < |m.plan| ==> m.disk.temps[j] == old(m.disk.temps[j])
      invariant forall j :: 0 <= j < i ==>
        && TempFits(m.plan[j], old(m.disk.temps[j]))
        && m.disk.temps[j] == (if m.plan[j].kind.Generated? then NoTemp else old(m.disk.temps[j]))
      invariant old(m.power) == Never ==> m.power == Never
    {
      if m.plan[i].kind.Generated? && m.disk.temps[i] != NoTemp {
        OpIsSafe(m.alone, m.plan, m.home, m.disk, i);
        if !TempFits(m.plan[i], m.disk.temps[i]) {
          assert old(StrayTemp(m.plan, m.disk, i));
          return Refused;
        }
        TempMayGo(m, i);
        o := m.SetTemp(i, NoTemp);
        if o != Done {
          return;
        }
      }
    }
  }

  lemma TempMayGo(m: Machine, i: nat)
    requires m.Valid() && m.disk.saved.Saved? && i < |m.plan|
    ensures Held(m.alone, m.plan, m.home, m.disk.(temps := m.disk.temps[i := NoTemp]))
  {
    OpIsSafe(m.alone, m.plan, m.home, m.disk, i);
    FilesAreSafe(m.alone, m.plan, m.home, m.disk, i, m.disk.targets[i], m.disk.backups[i], NoTemp);
    Unmoved(m.disk.targets, i);
    Unmoved(m.disk.backups, i);
  }

  lemma UnchangedAsPlanned(plan: seq<Operation>, disk: Disk)
    requires OnDisk(plan, disk) && disk.saved.Saved? && AllExpected(plan, disk, disk.saved.receipt.changes, false)
    ensures forall i :: 0 <= i < |plan| && plan[i].Unchanging() ==> disk.targets[i] == plan[i].after
  {
    forall i | 0 <= i < |plan| && plan[i].Unchanging() ensures disk.targets[i] == plan[i].after {
      assert Expected(plan[i], disk.targets[i], disk.backups[i], disk.temps[i], disk.saved.receipt.changes[i], false);
    }
  }

  lemma FirstIsHeld(m: Machine)
    requires m.Ready() && m.disk.saved.NoReceipt?
    requires forall i :: 0 <= i < |m.plan| ==> m.disk.targets[i] == m.plan[i].before
    ensures m.Valid() && Held(m.alone, m.plan, m.home, m.disk.(saved := Saved(FirstReceipt(m.plan))))
  {
  }

  /** With nobody else about, only a rolled back plan is refused. */
  lemma AloneCanApply(m: Machine)
    requires m.Ready() && m.alone
    ensures CanApply(m.plan, m.disk) <==> (m.disk.saved.Saved? ==> m.disk.saved.receipt.phase in {Applying, AllApplied})
    ensures forall i :: !StrayTemp(m.plan, m.disk, i)
  {
    if m.disk.saved.Saved? {
      SafeIsAccepted(m.plan, m.home, m.disk, false);
      forall i | 0 <= i < |m.plan| ensures !StrayTemp(m.plan, m.disk, i) {
        OpIsSafe(true, m.plan, m.home, m.disk, i);
      }
    }
  }

  // Rollback

  /** What a rollback asks of the disk before it does anything. */
  ghost predicate CanRollback(plan: seq<Operation>, disk: Disk)
    requires Sized(plan, disk)
  {
    disk.saved.Saved? && AllExpected(plan, disk, disk.saved.receipt.changes, true)
  }

  /** A saved file whose directory somebody has taken away: the rename back to it fails. */
  ghost predicate Homeless(plan: seq<Operation>, disk: Disk, i: nat)
    requires Sized(plan, disk)
  {
    && i < |plan| && !plan[i].Unchanging() && plan[i].before != Missing
    && disk.targets[i] == Missing && !ParentsIn(plan[i].target, disk.dirs)
  }

  method RestoreOne(m: Machine, i: nat, receipt: Receipt) returns (o: Outcome)
    requires m.Valid() && m.disk.saved == Saved(receipt) && i < |m.plan|
    requires receipt.phase == RollingBack && receipt.changes[i] !in {Unchanged, Restored}
    modifies m
    ensures m.Valid() && OthersStand(old(m.disk), m.disk, i) && m.disk.dirs == old(m.disk.dirs)
    ensures o == Done ==> m.disk.saved == Saved(WithChange(receipt, i, Restored))
    ensures o == Done ==> !old(Homeless(m.plan, m.disk, i)) && (m.plan[i].kind.Generated? ==> m.disk.temps[i] == NoTemp)
    ensures o == Refused ==> old(Homeless(m.plan, m.disk, i))
    ensures o == Crashed ==> old(m.power) != Never
    ensures old(m.power) == Never ==> m.power == Never
  {
    hide Held, OnDisk;
    OpIsSafe(m.alone, m.plan, m.home, m.disk, i);
    ValidIsReady(m);
    var physical := PhysicalState(m.plan[i], m.disk.targets[i], m.disk.backups[i]);
    ChangeIsSafe(m.alone, m.plan, m.home, m.disk, i, Restoring);
    o := m.Save(WithChange(receipt, i, Restoring));
    if o != Done {
      return;
    }
    o := PutBack(m, i, WithChange(receipt, i, Restoring), physical);
    if o != Done {
      return;
    }
    ChangeIsSafe(m.alone, m.plan, m.home, m.disk, i, Restored);
    assert receipt.changes[i := Restoring][i := Restored] == receipt.changes[i := Restored];
    o := m.Save(WithChange(receipt, i, Restored));
  }

  /** From whatever stands there to the target as it was, with its backup place and temporary file empty. */
  method PutBack(m: Machine, i: nat, receipt: Receipt, found: Physical) returns (o: Outcome)
    requires m.Valid() && m.disk.saved == Saved(receipt) && i < |m.plan| && receipt.changes[i] == Restoring
    requires found == PhysicalState(m.plan[i], m.disk.targets[i], m.disk.backups[i])
    modifies m
    ensures m.Valid() && OthersStand(old(m.disk), m.disk, i)
    ensures m.disk.saved == Saved(receipt) && m.disk.dirs == old(m.disk.dirs)
    ensures o == Done ==>
      && Sized(m.plan, m.disk) && (m.plan[i].kind.Generated? ==> m.disk.temps[i] == NoTemp)
      && OpSafe(m.alone, m.plan[i], m.disk.targets[i], m.disk.backups[i], m.disk.temps[i], Restored)
      && !old(Homeless(m.plan, m.disk, i))
    ensures o == Refused ==> old(Homeless(m.plan, m.disk, i))
    ensures o == Crashed ==> old(m.power) != Never
    ensures old(m.power) == Never ==> m.power == Never
  {
    hide Held, OnDisk, ParentsIn, PhysicalState, OpSafe;
    FoundIs(m, i);
    ValidIsReady(m);
    var op, physical := m.plan[i], found;
    if physical == Installed {
      if !op.kind.Remove? {
        MayUnlink(m, i);
        o := m.Unlink(i);
        if o != Done {
          return;
        }
      }
      physical := if op.before != Missing then BackedUp else Original;
    }
    if physical == BackedUp {
      if !ParentsIn(op.target, m.disk.dirs) {
        return Refused;
      }
      MayMoveBack(m, i);
      o := m.MoveBack(i);
      if o != Done {
        return;
      }
    }
    o := Done;
    if op.kind.Generated? && m.disk.temps[i] != NoTemp {
      TempMayGo(m, i);
      o := m.SetTemp(i, NoTemp);
    }
    if o == Done {
      IsRestored(m, i);
    }
  }

  /** What the physical state found says of an operation that is being restored. */
  lemma FoundIs(m: Machine, i: nat)
    requires m.Valid() && m.disk.saved.Saved? && i < |m.plan|
    requires m.disk.saved.receipt.changes[i] == Restoring
    ensures Sized(m.plan, m.disk) && !m.plan[i].Unchanging()
    ensures var op, target, backup := m.plan[i], m.disk.targets[i], m.disk.backups[i];
            && (match PhysicalState(op, target, backup)
                case Original => target == op.before && backup == Missing
                case Installed => target == op.after && backup == op.before
                case BackedUp => target == Missing && backup == op.before && op.before != Missing
                case Drift => false)
            && (op.kind.Remove? ==> op.after == Missing)
            && (target != Missing ==> ParentsIn(op.target, m.disk.dirs))
  {
    OpIsSafe(m.alone, m.plan, m.home, m.disk, i);
  }

  lemma MayUnlink(m: Machine, i: nat)
    requires m.Valid() && m.disk.saved.Saved? && i < |m.plan|
    requires m.disk.saved.receipt.changes[i] == Restoring && m.disk.backups[i] == m.plan[i].before
    ensures Held(m.alone, m.plan, m.home, m.disk.(targets := m.disk.targets[i := Missing]))
  {
    OpIsSafe(m.alone, m.plan, m.home, m.disk, i);
    FilesAreSafe(m.alone, m.plan, m.home, m.disk, i, Missing, m.disk.backups[i], m.disk.temps[i]);
    Unmoved(m.disk.backups, i);
    Unmoved(m.disk.temps, i);
  }

  lemma MayMoveBack(m: Machine, i: nat)
    requires m.Valid() && m.disk.saved.Saved? && i < |m.plan|
    requires m.disk.saved.receipt.changes[i] == Restoring && ParentsIn(m.plan[i].target, m.disk.dirs)
    ensures Held(m.alone, m.plan, m.home,
        m.disk.(targets := m.disk.targets[i := m.plan[i].before], backups := m.disk.backups[i := Missing]))
  {
    OpIsSafe(m.alone, m.plan, m.home, m.disk, i);
    FilesAreSafe(m.alone, m.plan, m.home, m.disk, i, m.plan[i].before, Missing, m.disk.temps[i]);
    Unmoved(m.disk.temps, i);
  }

  lemma IsRestored(m: Machine, i: nat)
    requires m.Valid() && m.disk.saved.Saved? && i < |m.plan|
    requires m.disk.saved.receipt.changes[i] == Restoring
    requires m.disk.targets[i] == m.plan[i].before && m.disk.backups[i] == Missing
    requires m.plan[i].kind.Generated? ==> m.disk.temps[i] == NoTemp
    ensures Sized(m.plan, m.disk)
    ensures OpSafe(m.alone, m.plan[i], m.disk.targets[i], m.disk.backups[i], m.disk.temps[i], Restored)
  {
    OpIsSafe(m.alone, m.plan, m.home, m.disk, i);
  }

  /**
   * Undoes whatever an apply or an earlier rollback left, last operation first, then the directories made. A disk that
   * somebody else changed is refused as it is, and one whose directories somebody took away when a saved file should go
   * back there. Whatever step it crashes at, what is on disk is ready for the next rollback.
   */
  method Rollback(m: Machine) returns (o: Outcome)
    requires m.Ready()
    modifies m
    ensures m.Ready()
    ensures !old(CanRollback(m.plan, m.disk)) ==> o == Refused && m.disk == old(m.disk)
    ensures o == Refused && old(CanRollback(m.plan, m.disk)) ==> exists i :: old(Homeless(m.plan, m.disk, i))
    ensures (exists i :: old(Homeless(m.plan, m.disk, i))) ==> o != Done
    ensures o == Done ==> PutAllBack(m.plan, old(m.disk), m.disk)
    ensures o == Done && m.alone ==> AllBack(m.plan, m.home, m.disk)
    ensures o == Crashed ==> old(m.power) != Never
  {
    hide Held, OnDisk, AllExpected, PutAllBack, Homeless;
    ReadyIsSized(m);
    if m.disk.saved.NoReceipt? {
      return Refused;
    }
    var receipt := m.disk.saved.receipt;
    o := ValidateReceipt(m, receipt, true);
    if o != Done {
      return;
    }
    ExpectedIsHeld(m, true);
    RollingIsHeld(m);
    receipt := receipt.(phase := RollingBack);
    o := m.Save(receipt);
    if o != Done {
      return;
    }
    SameHomes(m.plan, old(m.disk), m.disk);
    o, receipt := RestoreAll(m, receipt);
    if o != Done {
      ValidIsReady(m);
      return;
    }
    ghost var restored := m.disk;
    o := RemoveDirectories(m, receipt);
    ValidIsReady(m);
    if o != Done {
      return;
    }
    EndIsBack(m, old(m.disk), restored);
    o := m.Save(receipt.(phase := RolledBack));
    ValidIsReady(m);
  }

  lemma ReadyIsSized(m: Machine)
    requires m.Ready()
    ensures Sized(m.plan, m.disk)
  {
  }

  lemma SameHomes(plan: seq<Operation>, was: Disk, disk: Disk)
    requires Sized(plan, was) && Sized(plan, disk) && was.targets == disk.targets && was.dirs == disk.dirs
    ensures forall i :: Homeless(plan, was, i) == Homeless(plan, disk, i)
  {
  }

  lemma RollingIsHeld(m: Machine)
    requires m.Valid() && m.disk.saved.Saved?
    ensures Held(m.alone, m.plan, m.home, m.disk.(saved := Saved(m.disk.saved.receipt.(phase := RollingBack))))
  {
    hide OpSafe;
  }

  /** From operation `i` on, what a rollback undid has lost its temporary file, and the rest stands. */
  ghost predicate RestoredFrom(plan: seq<Operation>, was: Disk, disk: Disk, changes: seq<Change>, i: nat)
    requires Sized(plan, was) && Sized(plan, disk) && |changes| == |plan|
  {
    forall j :: 0 <= j < |plan| ==>
      if j < i || changes[j] in {Unchanged, Restored} then SameFiles(was, disk, j)
      else plan[j].kind.Generated? ==> disk.temps[j] == NoTemp
  }

  method RestoreAll(m: Machine, receipt: Receipt) returns (o: Outcome, saved: Receipt)
    requires m.Valid() && m.disk.saved == Saved(receipt) && receipt.phase == RollingBack
    modifies m
    ensures m.Valid() && Sized(m.plan, m.disk)
    ensures o == Done ==>
      && m.disk.saved == Saved(saved) && saved.phase == RollingBack
      && (forall change :: change in saved.changes ==> change in {Unchanged, Restored})
      && |receipt.changes| == |m.plan| && RestoredFrom(m.plan, old(m.disk), m.disk, receipt.changes, 0)
    ensures o == Refused ==> exists i :: old(Homeless(m.plan, m.disk, i))
    ensures (exists i :: old(Homeless(m.plan, m.disk, i))) ==> o != Done
    ensures o == Crashed ==> old(m.power) != Never
    ensures old(m.power) == Never ==> m.power == Never
  {
    hide Held, OnDisk, Operation.Unchanging, ParentsIn;
    saved := receipt;
    o := Done;
    ValidIsReady(m);
    for i := |m.plan| downto 0
      invariant o == Done && m.Valid() && m.disk.saved == Saved(saved) && saved.phase == RollingBack
      invariant Sized(m.plan, m.disk) && m.disk.dirs == old(m.disk.dirs)
      invariant RestoredFrom(m.plan, old(m.disk), m.disk, receipt.changes, i)
      invariant forall j :: 0 <= j < i ==> saved.changes[j] == receipt.changes[j]
      invariant forall j :: i <= j < |m.plan| ==>
        saved.changes[j] in {Unchanged, Restored} && !old(Homeless(m.plan, m.disk, j))
      invariant old(m.power) == Never ==> m.power == Never
    {
      assert SameFiles(old(m.disk), m.disk, i);
      if saved.changes[i] in {Unchanged, Restored} {
        StandsAtHome(m, i);
        continue;
      }
      o := RestoreOne(m, i, saved);
      ValidIsReady(m);
      if o == Refused {
        assert old(Homeless(m.plan, m.disk, i));
      }
      if o != Done {
        return;
      }
      saved := WithChange(saved, i, Restored);
    }
  }

  /** What changes nothing, or is restored, has nothing to put back. */
  lemma StandsAtHome(m: Machine, i: nat)
    requires m.Valid() && m.disk.saved.Saved? && i < |m.plan|
    requires |m.disk.saved.receipt.changes| == |m.plan| && m.disk.saved.receipt.changes[i] in {Unchanged, Restored}
    ensures Sized(m.plan, m.disk) && !Homeless(m.plan, m.disk, i)
  {
    OpIsSafe(m.alone, m.plan, m.home, m.disk, i);
  }

  /** Removes the directories the installer made, the last one first; one that is not empty stays. */
  method RemoveDirectories(m: Machine, receipt: Receipt) returns (o: Outcome)
    requires m.Valid() && m.disk.saved == Saved(receipt) && receipt.phase == RollingBack
    requires forall change :: change in receipt.changes ==> change in {Unchanged, Restored}
    modifies m
    ensures m.Valid() && m.disk == old(m.disk).(dirs := m.disk.dirs)
    ensures o == Done && m.alone ==> Sized(m.plan, m.disk) && Untouched(m.plan, m.home, m.disk)
    ensures o != Done ==> o == Crashed && old(m.power) != Never
    ensures old(m.power) == Never ==> m.power == Never
  {
    hide Held, OnDisk, ParentsIn, Machine.IsEmpty;
    ValidIsReady(m);
    if m.alone {
      UndoneFiles(m.plan, m.home, m.disk);
      MadeDirectories(m.plan, m.home, m.disk);
    }
    o := Done;
    for j := |receipt.created| downto 0
      invariant o == Done && m.Valid() && m.disk == old(m.disk).(dirs := m.disk.dirs)
      invariant m.alone ==> forall path :: path in m.disk.dirs ==> path in m.home || path in receipt.created[..j]
      invariant old(m.power) == Never ==> m.power == Never
    {
      var path := receipt.created[j];
      if m.alone {
        LastMadeIsEmpty(m, receipt, j);
        LastOf(receipt.created, j);
      }
      if path in m.disk.dirs && m.IsEmpty(path) {
        RemovalIsSafe(m, path);
      }
      o := m.RemoveDirectory(path);
      if o != Done {
        return;
      }
    }
    if m.alone {
      MadeDirectories(m.plan, m.home, m.disk);
    }
  }

  lemma MadeDirectories(plan: seq<Operation>, home: set<Path>, disk: Disk)
    requires Safe(plan, home, disk) && disk.saved.Saved?
    ensures Sized(plan, disk) && home <= disk.dirs
    ensures var created := disk.saved.receipt.created;
            && (forall path :: path in disk.dirs ==> path in home || path in created[..|created|])
            && (forall path :: path in created ==> path !in home)
  {
    assert disk.saved.receipt.created[..|disk.saved.receipt.created|] == disk.saved.receipt.created;
  }

  lemma LastOf(paths: seq<Path>, j: nat)
    requires j < |paths|
    ensures forall path :: path in paths[..j + 1] ==> path in paths[..j] || path == paths[j]
  {
  }

  /** An empty directory that the receipt names may go. */
  lemma RemovalIsSafe(m: Machine, path: Path)
    requires m.Valid() && m.disk.saved.Saved? && path in m.disk.saved.receipt.created
    requires Sized(m.plan, m.disk) && m.IsEmpty(path)
    ensures Held(m.alone, m.plan, m.home, m.disk.(dirs := m.disk.dirs - {path}))
  {
    hide CreatedInOrder, PhaseSafe, OpSafe;
    var dirs := m.disk.dirs - {path};
    forall i | 0 <= i < |m.plan| && (m.disk.targets[i] != Missing || m.disk.temps[i] != NoTemp)
      ensures ParentsIn(m.plan[i].target, dirs)
    {
      EmptyIsNoParent(m, path, i);
    }
    if m.alone {
      MadeDirectories(m.plan, m.home, m.disk);
    }
  }

  lemma EmptyIsNoParent(m: Machine, path: Path, i: nat)
    requires Sized(m.plan, m.disk) && m.IsEmpty(path) && i < |m.plan|
    requires m.disk.targets[i] != Missing || m.disk.temps[i] != NoTemp
    requires ParentsIn(m.plan[i].target, m.disk.dirs)
    ensures ParentsIn(m.plan[i].target, m.disk.dirs - {path})
  {
    var target := m.plan[i].target;
    forall k | 0 <= k < |target| ensures target[..k] != path {
      if k + 1 < |target| {
        assert Parent(target[..k + 1]) == target[..k];
      } else {
        assert Parent(target) == target[..k];
      }
    }
  }

  lemma UndoneFiles(plan: seq<Operation>, home: set<Path>, disk: Disk)
    requires Safe(plan, home, disk) && disk.saved.Saved?
    requires forall change :: change in disk.saved.receipt.changes ==> change in {Unchanged, Restored}
    ensures forall i :: 0 <= i < |plan| ==>
      disk.targets[i] == plan[i].before && disk.backups[i] == Missing && disk.temps[i] == NoTemp
  {
    forall i | 0 <= i < |plan|
      ensures disk.targets[i] == plan[i].before && disk.backups[i] == Missing && disk.temps[i] == NoTemp
    {
      assert disk.saved.receipt.changes[i] in disk.saved.receipt.changes;
      OpIsSafe(true, plan, home, disk, i);
    }
  }

  /** With everything undone and nobody else about, each made directory is empty when its turn comes. */
  lemma LastMadeIsEmpty(m: Machine, receipt: Receipt, j: nat)
    requires m.Valid() && m.alone && m.disk.saved == Saved(receipt) && j < |receipt.created|
    requires forall i :: 0 <= i < |m.plan| ==> m.disk.targets[i] == m.plan[i].before && m.disk.temps[i] == NoTemp
    requires forall path :: path in m.disk.dirs ==> path in m.home || path in receipt.created[..j + 1]
    ensures receipt.created[j] in m.disk.dirs ==> m.IsEmpty(receipt.created[j])
  {
    var path := receipt.created[j];
    forall other | other in m.disk.dirs && other != [] && Parent(other) == path ensures false {
    }
    forall i | 0 <= i < |m.plan| && m.disk.targets[i] != Missing ensures Parent(m.plan[i].target) != path {
      var target := m.plan[i].target;
      assert Parent(target) == target[..|target| - 1];
    }
  }

  lemma EndIsBack(m: Machine, was: Disk, restored: Disk)
    requires m.Valid() && m.disk.saved.Saved? && m.disk.saved.receipt.phase == RollingBack
    requires m.disk == restored.(dirs := m.disk.dirs) && Sized(m.plan, restored)
    requires Sized(m.plan, was) && was.saved.Saved?
    requires forall change :: change in m.disk.saved.receipt.changes ==> change in {Unchanged, Restored}
    requires RestoredFrom(m.plan, was, restored, was.saved.receipt.changes, 0)
    ensures var disk := m.disk.(saved := Saved(m.disk.saved.receipt.(phase := RolledBack)));
            Held(m.alone, m.plan, m.home, disk) && PutAllBack(m.plan, was, disk)
  {
    forall i | 0 <= i < |m.plan|
      ensures !m.plan[i].Unchanging() ==> m.disk.targets[i] == m.plan[i].before && m.disk.backups[i] == Missing
    {
      OpIsSafe(m.alone, m.plan, m.home, m.disk, i);
      assert m.disk.saved.receipt.changes[i] in m.disk.saved.receipt.changes;
    }
  }

  /** With nobody else about, only a plan with no receipt is refused. */
  lemma AloneCanRollback(m: Machine)
    requires m.Ready() && m.alone
    ensures CanRollback(m.plan, m.disk) <==> m.disk.saved.Saved?
    ensures m.disk.saved.Saved? ==> forall i :: !Homeless(m.plan, m.disk, i)
  {
    if m.disk.saved.Saved? {
      SafeIsAccepted(m.plan, m.home, m.disk, true);
    }
  }

  // Histories

  datatype Command = Install(power: Power) | Undo(power: Power)

  /**
   * Any runs, each with the power failing after any number of steps or not at all: the disk is ready for the next one
   * throughout, and safe when nobody else writes to it.
   */
  method AnyHistory(m: Machine, commands: seq<Command>)
    requires m.Ready()
    modifies m
    ensures m.Ready()
  {
    hide OnDisk, Held, CanApply, CanRollback, StrayTemp, Homeless, PutAllBack;
    for i := 0 to |commands|
      invariant m.Ready()
    {
      m.power := commands[i].power;
      if commands[i].Install? {
        var o := Apply(m);
      } else {
        var o := Rollback(m);
      }
    }
  }

  /**
   * Applies that crash anywhere, as often as they like, then one that does not: everything is installed, with what it
   * replaced kept.
   */
  method CrashesThenInstalled(m: Machine, powers: seq<Power>)
    requires m.Ready() && m.alone
    requires m.disk.saved.Saved? ==> m.disk.saved.receipt.phase in {Applying, AllApplied}
    modifies m
    ensures m.Ready() && AllInstalled(m.plan, m.disk)
  {
    hide OnDisk, Held, CanApply, StrayTemp, InPlace;
    for i := 0 to |powers|
      invariant m.Ready() && (m.disk.saved.Saved? ==> m.disk.saved.receipt.phase in {Applying, AllApplied})
    {
      m.power := powers[i];
      AloneCanApply(m);
      var o := Apply(m);
    }
    m.power := Never;
    AloneCanApply(m);
    var o := Apply(m);
  }

  /** Any history, crashes included, then a rollback that does not crash: everything is as before the first run. */
  method HistoryThenBack(m: Machine, commands: seq<Command>)
    requires m.Ready() && m.alone
    modifies m
    ensures m.Ready() &&
        (if m.disk.saved.Saved? then AllBack(m.plan, m.home, m.disk) else Untouched(m.plan, m.home, m.disk))
  {
    AnyHistory(m, commands);
    m.power := Never;
    AloneCanRollback(m);
    var o := Rollback(m);
  }
}
