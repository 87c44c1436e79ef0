/**
 * The crash-safe installer: a receipt written before each step, backups by rename, and a rollback in reverse. Every
 * durable step is a place where the power can fail; what is on disk then is all the next run has.
 */
module Installer {
  /** A path below the home directory, as its parts; the home directory itself is []. */
  type Path = seq<string>
  type Bytes = seq<nat>

  datatype Fingerprint = Missing | LinkTo(source: string) | File(bytes: Bytes) | Other(id: nat)

  datatype Kind = Link(source: string) | Generated(value: Bytes) | Remove

  datatype Operation = Operation(kind: Kind, target: Path, before: Fingerprint, after: Fingerprint) {
    /** What `specifications` and `make_plan` write: a seed-only file that is there already keeps what it holds. */
    predicate Planned() {
      && target != []
      && match kind
         case Link(source) => after == LinkTo(source)
         case Generated(value) => after == File(value) || (before != Missing && after == before)
         case Remove => after == Missing
    }

    predicate Unchanging() {
      before == after
    }
  }

  datatype Change = Unchanged | Pending | Prepared | Applied | Restoring | Restored

  datatype Phase = Applying | AllApplied | RollingBack | RolledBack

  datatype Receipt = Receipt(phase: Phase, changes: seq<Change>, created: seq<Path>)

  datatype Saved = NoReceipt | Saved(receipt: Receipt)

  datatype Temp = NoTemp | TempFile(bytes: Bytes)

  /** Everything that outlives a run, one target, backup and temporary file per operation. */
  datatype Disk = Disk(targets: seq<Fingerprint>, backups: seq<Fingerprint>, temps: seq<Temp>, dirs: set<Path>,
      saved: Saved)

  datatype Outcome = Done | Crashed | Refused {
    predicate IsFailure() {
      !Done?
    }

    function PropagateFailure(): Outcome {
      this
    }
  }

  // What a run reads off the disk

  datatype Physical = Original | Installed | BackedUp | Drift

  function PhysicalState(op: Operation, target: Fingerprint, backup: Fingerprint): Physical {
    if target == op.before && backup == Missing then Original
    else if target == op.after && backup == op.before then Installed
    else if op.before != Missing && target == Missing && backup == op.before then BackedUp
    else Drift
  }

  predicate Allowed(change: Change, physical: Physical) {
    match change
    case Unchanged => true
    case Pending | Restored => physical == Original
    case Applied => physical == Installed
    case Prepared | Restoring => physical != Drift
  }

  predicate TempFits(op: Operation, temp: Temp) {
    op.kind.Generated? && temp.TempFile? ==> temp.bytes <= op.kind.value
  }

  // When a run is refused

  /**
   * What stands at a target and in its backup, as an operation that has not begun, is half done, or is done leaves it.
   */
  ghost predicate AsBefore(op: Operation, target: Fingerprint, backup: Fingerprint) {
    target == op.before && backup == Missing
  }

  ghost predicate MovedAside(op: Operation, target: Fingerprint, backup: Fingerprint) {
    target == Missing && backup == op.before && op.before != Missing
  }

  ghost predicate Replaced(op: Operation, target: Fingerprint, backup: Fingerprint) {
    target == op.after && backup == op.before && !AsBefore(op, target, backup)
  }

  /**
   * What a run asks of one operation's files before it does anything. Anything else is drift: somebody has changed the
   * target, the backup or the temporary file since.
   */
  ghost predicate Expected(op: Operation, target: Fingerprint, backup: Fingerprint, temp: Temp, change: Change,
      rollback: bool) {
    && (change != Unchanged && op.kind.Generated? && temp.TempFile? ==> temp.bytes <= op.kind.value)
    && match change
       case Unchanged => rollback || target == op.after
       case Pending | Restored => AsBefore(op, target, backup)
       case Applied => Replaced(op, target, backup)
       case Prepared | Restoring =>
         AsBefore(op, target, backup) || MovedAside(op, target, backup) || Replaced(op, target, backup)
  }

  ghost predicate AllExpected(plan: seq<Operation>, disk: Disk, changes: seq<Change>, rollback: bool)
    requires |disk.targets| == |disk.backups| == |disk.temps| == |plan| == |changes|
  {
    forall i :: 0 <= i < |plan| ==>
      Expected(plan[i], disk.targets[i], disk.backups[i], disk.temps[i], changes[i], rollback)
  }

  // What holds of any disk

  predicate ParentsIn(target: Path, dirs: set<Path>) {
    forall k :: 0 <= k < |target| ==> target[..k] in dirs
  }

  function Parent(path: Path): Path {
    if path == [] then [] else path[..|path| - 1]
  }

  predicate Sized(plan: seq<Operation>, disk: Disk) {
    |disk.targets| == |disk.backups| == |disk.temps| == |plan|
    && (disk.saved.Saved? ==> |disk.saved.receipt.changes| == |plan|)
  }

  ghost predicate PhaseSafe(receipt: Receipt) {
    match receipt.phase
    case Applying | AllApplied => Restoring !in receipt.changes && Restored !in receipt.changes
    case RollingBack => true
    case RolledBack => forall change :: change in receipt.changes ==> change in {Unchanged, Restored}
  }

  /** A receipt that an installer wrote for this plan. */
  ghost predicate ReceiptOf(plan: seq<Operation>, receipt: Receipt) {
    && |receipt.changes| == |plan|
    && (forall i :: 0 <= i < |plan| ==> (receipt.changes[i] == Unchanged <==> plan[i].Unchanging()))
    && [] !in receipt.created
    && PhaseSafe(receipt)
  }

  /** No file without its directories. */
  ghost predicate FilesInDirs(plan: seq<Operation>, disk: Disk)
    requires |disk.targets| == |disk.temps| == |plan|
  {
    forall i :: 0 <= i < |plan| && (disk.targets[i] != Missing || disk.temps[i] != NoTemp) ==>
      ParentsIn(plan[i].target, disk.dirs)
  }

  /**
   * A disk with a plan, whoever else wrote to it: directories are a tree, and only the installer writes receipts. With
   * no receipt yet, the backup places and temporary names, which carry the plan's id, are not in use.
   */
  ghost predicate OnDisk(plan: seq<Operation>, disk: Disk) {
    && Sized(plan, disk)
    && (forall i :: 0 <= i < |plan| ==> plan[i].Planned())
    && [] in disk.dirs && (forall path :: path in disk.dirs ==> Parent(path) in disk.dirs)
    && FilesInDirs(plan, disk)
    && match disk.saved
       case NoReceipt => forall i :: 0 <= i < |plan| ==> disk.backups[i] == Missing && disk.temps[i] == NoTemp
       case Saved(receipt) => ReceiptOf(plan, receipt)
  }

  // What holds at every crash point

  /**
   * One operation's files, for the state the saved receipt gives it. With `alone`, nobody but the installer has written
   * them.
   */
  ghost predicate OpSafe(alone: bool, op: Operation, target: Fingerprint, backup: Fingerprint, temp: Temp,
      change: Change) {
    && (change != Unchanged ==> Allowed(change, PhysicalState(op, target, backup)) && TempFits(op, temp))
    && (alone ==>
          && (change == Unchanged ==> target == op.before && backup == Missing)
          && (!op.kind.Generated? || change in {Unchanged, Pending, Restored} ==> temp == NoTemp))
  }

  ghost predicate OpsSafe(alone: bool, plan: seq<Operation>, disk: Disk, changes: seq<Change>)
    requires |disk.targets| == |disk.backups| == |disk.temps| == |plan| == |changes|
  {
    forall i :: 0 <= i < |plan| ==>
      OpSafe(alone, plan[i], disk.targets[i], disk.backups[i], disk.temps[i], changes[i])
  }

  /** The directories a receipt says the installer made: none was there before, and each stands after its parent. */
  ghost predicate CreatedInOrder(home: set<Path>, created: seq<Path>) {
    && (forall j :: 0 <= j < |created| ==> created[j] != [] && created[j] !in home)
    && (forall i, j :: 0 <= i < j < |created| ==> created[i] != created[j])
    && (forall j :: 0 <= j < |created| ==> Parent(created[j]) in home || Parent(created[j]) in created[..j])
  }

  /** `home` is the set of directories before the first run: a tree, with every file the plan found in it. */
  ghost predicate HomeOf(plan: seq<Operation>, home: set<Path>) {
    && [] in home
    && (forall path :: path in home ==> Parent(path) in home)
    && (forall i :: 0 <= i < |plan| ==> (plan[i].before != Missing ==> ParentsIn(plan[i].target, home)))
  }

  ghost predicate Untouched(plan: seq<Operation>, home: set<Path>, disk: Disk)
    requires Sized(plan, disk)
  {
    && disk.dirs == home
    && forall i :: 0 <= i < |plan| ==>
        disk.targets[i] == plan[i].before && disk.backups[i] == Missing && disk.temps[i] == NoTemp
  }

  ghost predicate DirsSafe(home: set<Path>, dirs: set<Path>, created: seq<Path>) {
    && CreatedInOrder(home, created)
    && home <= dirs
    && (forall path :: path in dirs ==> path in home || path in created)
  }

  ghost predicate HomeSafe(plan: seq<Operation>, home: set<Path>, disk: Disk)
    requires Sized(plan, disk)
  {
    && HomeOf(plan, home)
    && match disk.saved
       case NoReceipt => Untouched(plan, home, disk)
       case Saved(receipt) => DirsSafe(home, disk.dirs, receipt.created)
  }

  /** A disk on which every operation is where its receipt says, and with `alone` one that only the installer wrote. */
  ghost predicate Held(alone: bool, plan: seq<Operation>, home: set<Path>, disk: Disk) {
    && OnDisk(plan, disk)
    && (disk.saved.Saved? ==> OpsSafe(alone, plan, disk, disk.saved.receipt.changes))
    && (alone ==> HomeSafe(plan, home, disk))
  }

  ghost predicate Safe(plan: seq<Operation>, home: set<Path>, disk: Disk) {
    Held(true, plan, home, disk)
  }

  // What an operator wants to know

  /** Whatever was at a target before stands in exactly one place: at the target, or in the backup. */
  lemma BeforeIsInOnePlace(plan: seq<Operation>, home: set<Path>, disk: Disk, i: nat)
    requires Safe(plan, home, disk) && i < |plan| && plan[i].before != Missing
    ensures (disk.targets[i] == plan[i].before) != (disk.backups[i] == plan[i].before)
  {
    if disk.saved.Saved? {
      var change := disk.saved.receipt.changes[i];
      assert OpSafe(true, plan[i], disk.targets[i], disk.backups[i], disk.temps[i], change);
    }
  }

  /** The table of states and the physical states say what the words of `Expected` say. */
  lemma ExpectedExactly(op: Operation, target: Fingerprint, backup: Fingerprint, temp: Temp, change: Change,
      rollback: bool)
    ensures Expected(op, target, backup, temp, change, rollback) <==>
      if change == Unchanged then rollback || target == op.after
      else TempFits(op, temp) && Allowed(change, PhysicalState(op, target, backup))
  {
  }

  /** The checks of a later run refuse no disk that only this installer wrote. */
  lemma SafeIsAccepted(plan: seq<Operation>, home: set<Path>, disk: Disk, rollback: bool)
    requires Safe(plan, home, disk) && disk.saved.Saved?
    ensures AllExpected(plan, disk, disk.saved.receipt.changes, rollback)
  {
    forall i | 0 <= i < |plan|
      ensures Expected(plan[i], disk.targets[i], disk.backups[i], disk.temps[i], disk.saved.receipt.changes[i],
          rollback)
    {
      var change := disk.saved.receipt.changes[i];
      assert OpSafe(true, plan[i], disk.targets[i], disk.backups[i], disk.temps[i], change);
      ExpectedExactly(plan[i], disk.targets[i], disk.backups[i], disk.temps[i], change, rollback);
    }
  }

  /** Every operation that changes anything is done, with what it replaced kept; the others are as planned anyway. */
  ghost predicate InPlace(plan: seq<Operation>, disk: Disk) {
    && Sized(plan, disk)
    && disk.saved.Saved? && disk.saved.receipt.phase == AllApplied
    && forall i :: 0 <= i < |plan| ==>
         && disk.targets[i] == plan[i].after
         && (plan[i].kind.Generated? ==> disk.temps[i] == NoTemp)
         && (!plan[i].Unchanging() ==> disk.backups[i] == plan[i].before)
  }

  /** Every target as the plan wants it, and whatever it replaced kept in its backup. */
  ghost predicate AllInstalled(plan: seq<Operation>, disk: Disk) {
    && InPlace(plan, disk)
    && forall i :: 0 <= i < |plan| ==>
         disk.temps[i] == NoTemp && (plan[i].Unchanging() ==> disk.backups[i] == Missing)
  }

  /**
   * Every operation that changes anything is undone, and nothing else is written: what changes nothing, or was restored
   * before, stands.
   */
  ghost predicate PutAllBack(plan: seq<Operation>, was: Disk, disk: Disk)
    requires Sized(plan, was) && was.saved.Saved?
  {
    && Sized(plan, disk)
    && disk.saved.Saved? && disk.saved.receipt.phase == RolledBack
    && forall i :: 0 <= i < |plan| ==>
         && (!plan[i].Unchanging() ==> disk.targets[i] == plan[i].before && disk.backups[i] == Missing)
         && if was.saved.receipt.changes[i] in {Unchanged, Restored} then SameFiles(was, disk, i)
            else plan[i].kind.Generated? ==> disk.temps[i] == NoTemp
  }

  ghost predicate SameFiles(was: Disk, disk: Disk, i: nat)
    requires i < |was.targets| == |was.backups| == |was.temps|
    requires i < |disk.targets| == |disk.backups| == |disk.temps|
  {
    disk.targets[i] == was.targets[i] && disk.backups[i] == was.backups[i] && disk.temps[i] == was.temps[i]
  }

  /** Every target, backup, temporary file and directory as it was before the first run. */
  ghost predicate AllBack(plan: seq<Operation>, home: set<Path>, disk: Disk) {
    && Sized(plan, disk) && Untouched(plan, home, disk)
    && disk.saved.Saved? && disk.saved.receipt.phase == RolledBack
  }

  // The machine

  datatype Power = Never | After(steps: nat)

  class Machine {
    const plan: seq<Operation>
    ghost const home: set<Path>
    /** Whether nobody but the installer has written its files since the first run. */
    ghost const alone: bool
    var disk: Disk
    /** How many more durable steps the power lasts. */
    var power: Power

    /** What a run starts from. */
    ghost predicate Ready()
      reads this
    {
      OnDisk(plan, disk) && (alone ==> Safe(plan, home, disk))
    }

    /** What a run that passed its checks keeps at every step. */
    ghost predicate Valid()
      reads this
    {
      Held(alone, plan, home, disk)
    }

    constructor (plan: seq<Operation>, disk: Disk, ghost home: set<Path>, ghost alone: bool)
      requires OnDisk(plan, disk) && (alone ==> Safe(plan, home, disk))
      ensures this.plan == plan && this.disk == disk && this.home == home && this.alone == alone && Ready()
    {
      this.plan, this.disk, this.power := plan, disk, Never;
      this.home, this.alone := home, alone;
    }

    method Spend() returns (o: Outcome)
      modifies this`power
      ensures o == Done || (o == Crashed && old(power) != Never)
      ensures old(power) == Never ==> power == Never
    {
      match power
      case Never => o := Done;
      case After(n) =>
        if n == 0 {
          o := Crashed;
        } else {
          power := After(n - 1);
          o := Done;
        }
    }

    /** Replaces the receipt in one rename. */
    method Save(receipt: Receipt) returns (o: Outcome)
      modifies this
      ensures o == Done ==> disk == old(disk).(saved := Saved(receipt))
      ensures o != Done ==> o == Crashed && old(power) != Never && disk == old(disk)
      ensures old(power) == Never ==> power == Never
    {
      o := Done;
      :- Spend();
      disk := disk.(saved := Saved(receipt));
      o := Done;
    }

    /** Moves what the plan found at the target to the empty backup place. */
    method MoveToBackup(i: nat) returns (o: Outcome)
      requires Sized(plan, disk) && i < |plan|
      requires disk.targets[i] == plan[i].before != Missing && disk.backups[i] == Missing
      modifies this
      ensures o == Done ==>
          disk == old(disk).(targets := old(disk.targets)[i := Missing],
          backups := old(disk.backups)[i := plan[i].before])
      ensures o != Done ==> o == Crashed && old(power) != Never && disk == old(disk)
      ensures old(power) == Never ==> power == Never
    {
      o := Done;
      :- Spend();
      disk := disk.(targets := disk.targets[i := Missing], backups := disk.backups[i := disk.targets[i]]);
      o := Done;
    }

    /** Moves the backup to the empty target. */
    method MoveBack(i: nat) returns (o: Outcome)
      requires Sized(plan, disk) && i < |plan|
      requires disk.backups[i] == plan[i].before != Missing && disk.targets[i] == Missing
      modifies this
      ensures o == Done ==>
          disk == old(disk).(targets := old(disk.targets)[i := plan[i].before],
          backups := old(disk.backups)[i := Missing])
      ensures o != Done ==> o == Crashed && old(power) != Never && disk == old(disk)
      ensures old(power) == Never ==> power == Never
    {
      o := Done;
      :- Spend();
      disk := disk.(targets := disk.targets[i := disk.backups[i]], backups := disk.backups[i := Missing]);
      o := Done;
    }

    /** Makes a target that is not there: the link, or the whole temporary file under its second name. */
    method Make(i: nat) returns (o: Outcome)
      requires Sized(plan, disk) && i < |plan| && disk.targets[i] == Missing
      requires ParentsIn(plan[i].target, disk.dirs)
      requires plan[i].kind.Generated? ==> disk.temps[i] == TempFile(plan[i].kind.value)
      requires !plan[i].kind.Remove?
      modifies this
      ensures o == Done ==> disk == old(disk).(targets := old(disk.targets)[i := Published(plan[i])])
      ensures o != Done ==> o == Crashed && old(power) != Never && disk == old(disk)
      ensures old(power) == Never ==> power == Never
    {
      o := Done;
      :- Spend();
      var made := match plan[i].kind
                  case Link(source) => LinkTo(source)
                  case Generated(_) => File(disk.temps[i].bytes)
                  case Remove => Missing;
      disk := disk.(targets := disk.targets[i := made]);
      o := Done;
    }

    /** Only what the plan put there is ever unlinked. */
    method Unlink(i: nat) returns (o: Outcome)
      requires Sized(plan, disk) && i < |plan| && disk.targets[i] == plan[i].after != plan[i].before
      modifies this
      ensures o == Done ==> disk == old(disk).(targets := old(disk.targets)[i := Missing])
      ensures o != Done ==> o == Crashed && old(power) != Never && disk == old(disk)
      ensures old(power) == Never ==> power == Never
    {
      o := Done;
      :- Spend();
      disk := disk.(targets := disk.targets[i := Missing]);
      o := Done;
    }

    method SetTemp(i: nat, temp: Temp) returns (o: Outcome)
      requires Sized(plan, disk) && i < |plan| && plan[i].kind.Generated?
      modifies this
      ensures o == Done ==> disk == old(disk).(temps := old(disk.temps)[i := temp])
      ensures o != Done ==> o == Crashed && old(power) != Never && disk == old(disk)
      ensures old(power) == Never ==> power == Never
    {
      o := Done;
      :- Spend();
      disk := disk.(temps := disk.temps[i := temp]);
      o := Done;
    }

    /** A directory is made only when the saved receipt names it. */
    method MakeDirectory(path: Path) returns (o: Outcome)
      requires path in disk.dirs || (disk.saved.Saved? && path in disk.saved.receipt.created)
      modifies this
      ensures o == Done ==> disk == old(disk).(dirs := old(disk.dirs) + {path})
      ensures o != Done ==> o == Crashed && old(power) != Never && disk == old(disk)
      ensures old(power) == Never ==> power == Never
    {
      o := Done;
      :- Spend();
      disk := disk.(dirs := disk.dirs + {path});
      o := Done;
    }

    /** `rmdir`, which leaves a directory that is not there or not empty alone. */
    method RemoveDirectory(path: Path) returns (o: Outcome)
      requires Sized(plan, disk)
      modifies this
      ensures o == Done ==>
          disk == old(disk).(dirs := old(if path in disk.dirs && IsEmpty(path) then disk.dirs - {path} else disk.dirs))
      ensures o != Done ==> o == Crashed && old(power) != Never && disk == old(disk)
      ensures old(power) == Never ==> power == Never
    {
      o := Done;
      :- Spend();
      if path in disk.dirs && IsEmpty(path) {
        disk := disk.(dirs := disk.dirs - {path});
      }
      o := Done;
    }

    predicate IsEmpty(path: Path)
      requires Sized(plan, disk)
      reads this
    {
      && (forall other :: other in disk.dirs && other != [] ==> Parent(other) != path)
      && (forall i :: 0 <= i < |plan| && (disk.targets[i] != Missing || disk.temps[i] != NoTemp) ==>
          Parent(plan[i].target) != path)
    }
  }

  function Published(op: Operation): Fingerprint {
    match op.kind
    case Link(source) => LinkTo(source)
    case Generated(value) => File(value)
    case Remove => Missing
  }
}
