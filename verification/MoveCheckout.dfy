/**
 * Moving a checkout's main branch to a newer commit while keeping every live edit: a ref, an index and a worktree
 * changed step by step, with an undo when git refuses.
 */
module MoveCheckout {
  import opened Options

  type Path = string
  type Bytes = seq<nat>

  datatype Mode = Regular | Executable | Symlink | Folder

  datatype Entry = Entry(mode: Mode, bytes: Bytes)

  type Tree = map<Path, Entry>

  function At(tree: Tree, path: Path): Option<Entry> {
    if path in tree then Some(tree[path]) else None
  }

  function With(tree: Tree, path: Path, entry: Option<Entry>): Tree {
    if entry.Some? then tree[path := entry.value] else tree - {path}
  }

  lemma WithAt(tree: Tree, path: Path, entry: Option<Entry>)
    ensures forall other :: At(With(tree, path, entry), other) == (if other == path then entry else At(tree, other))
  {
  }

  /** What `write_file` leaves for a mode and bytes: a regular file, executable or not. */
  function Written(mode: Mode, bytes: Bytes): Entry {
    Entry(if mode == Executable then Executable else Regular, bytes)
  }

  /**
   * `git merge-file`, with or without keeping the live side of a clash, and whether a file is older than the commit
   * that changed it.
   */
  datatype Tools = Tools(mergeFile: (Bytes, Bytes, Bytes, bool) -> Option<Bytes>, superseded: Path -> bool)

  function Carry(tools: Tools, disk: Option<Entry>, head: Option<Entry>, target: Option<Entry>,
      ours: bool): Option<Bytes> {
    if disk == None || head == None || target == None
       || Symlink in {disk.value.mode, head.value.mode, target.value.mode}
       || disk.value.mode !in {head.value.mode, target.value.mode}
    then None
    else tools.mergeFile(disk.value.bytes, head.value.bytes, target.value.bytes, ours)
  }

  /** What becomes of a path the move changes. */
  datatype Fate =
    /** No live edit: git moves it. */
    | Moves
    /** A staged edit that is neither on disk nor in the target, or a folder in a file's place, holds the whole move. */
    | Holds
    /** The disk has the target's bytes already. */
    | There
    | Carried(merged: Bytes)
    | Superseded
    | Kept

  function FateOf(tools: Tools, path: Path, live: bool,
                  disk: Option<Entry>, staged: Option<Entry>, head: Option<Entry>, target: Option<Entry>): Fate {
    if !live && (head != None || disk == None) then Moves
    else if staged !in {head, target, disk} || (disk.Some? && disk.value.mode == Folder) then Holds
    else if disk == head && staged == head then Moves
    else if disk == target then There
    else
      var merged := Carry(tools, disk, head, target, false);
      if merged.Some? then Carried(merged.value)
      else if target != None && disk != None && disk.value.mode != Symlink && tools.superseded(path) then Superseded
      else
        var ours := Carry(tools, disk, head, target, true);
        if ours.Some? then Carried(ours.value) else Kept
  }

  predicate Rewrites(fate: Fate) {
    fate.Carried? || fate.Superseded?
  }

  predicate Presets(fate: Fate) {
    fate != Moves && fate != Holds
  }

  /** One path the move changes, as the run found it. */
  datatype Row = Row(path: Path, disk: Option<Entry>, staged: Option<Entry>, head: Option<Entry>, target: Option<Entry>,
      fate: Fate)

  datatype Result = Moved | Skipped

  /** What the run works from: the two trees, the paths they differ on, and the paths git lists as changed on disk. */
  datatype Plan = Plan(head: string, target: string, headTree: Tree, targetTree: Tree, changed: seq<Path>,
      live: set<Path>)

  ghost predicate Distinct(rows: seq<Row>) {
    forall i, j :: 0 <= i < j < |rows| ==> rows[i].path != rows[j].path
  }

  ghost predicate Apart(rows: seq<Row>, path: Path) {
    forall i :: 0 <= i < |rows| ==> rows[i].path != path
  }

  /** A rewritten path has a file to write and one to save, which is neither a link nor a folder. */
  ghost predicate Sound(row: Row) {
    && (Rewrites(row.fate) ==> row.target.Some? && row.disk.Some? && row.disk.value.mode in {Regular, Executable})
    && (row.fate == There ==> row.disk == row.target)
    && (row.fate == Kept ==> row.disk != row.target)
  }

  /** The target's bytes as `write_file` leaves them. */
  function Draft(row: Row): Option<Entry> {
    if row.target.Some? then Some(Written(row.target.value.mode, row.target.value.bytes)) else None
  }

  /** What the last pass over the rewritten files leaves: the merged text, or the saved copy. */
  function Back(row: Row, merged: bool, now: Option<Entry>): Option<Entry> {
    if merged && row.fate.Carried? && row.target.Some? then Some(Written(row.target.value.mode, row.fate.merged))
    else if !merged && Rewrites(row.fate) then row.disk
    else now
  }

  /** What a finished move leaves on disk for one path. */
  function Landed(row: Row): Option<Entry> {
    match row.fate
    case Moves => if row.staged == row.target then row.disk else row.target
    case There => row.target
    case Carried(merged) => if row.target.Some? then Some(Written(row.target.value.mode, merged)) else None
    case Superseded => Draft(row)
    case Kept => row.disk
    case Holds => row.disk
  }

  /**
   * A path after a finished move: staged as the target, its file as the row's fate says, and a rewritten file's bytes
   * saved.
   */
  ghost predicate Shifted(row: Row, disk: Tree, index: Tree, saved: Tree) {
    && At(index, row.path) == row.target
    && At(disk, row.path) == Landed(row)
    && (Rewrites(row.fate) ==> At(saved, row.path) == row.disk)
  }

  /** A path's index entry after an unfinished move: head's where the run had staged the target, else what it was. */
  ghost predicate Undone(row: Row, index: Tree) {
    At(index, row.path) == (if Presets(row.fate) then row.head else row.staged)
  }

  /** Git moves the rest when each path left to it is staged as one of the two trees has it. */
  ghost predicate Clear(rows: seq<Row>) {
    forall k :: 0 <= k < |rows| ==>
      && rows[k].fate != Holds
      && (rows[k].fate == Moves ==> rows[k].staged == rows[k].head || rows[k].staged == rows[k].target)
  }

  ghost predicate Held(rows: seq<Row>) {
    exists k :: 0 <= k < |rows| && rows[k].fate == Holds
  }

  /**
   * The three versions of a path can be merged as text: each is there, none is a link, and the file on disk has the
   * mode of one of the two commits.
   */
  ghost predicate MergesAsText(disk: Option<Entry>, head: Option<Entry>, target: Option<Entry>) {
    && disk.Some? && head.Some? && target.Some?
    && disk.value.mode != Symlink && head.value.mode != Symlink && target.value.mode != Symlink
    && (disk.value.mode == head.value.mode || disk.value.mode == target.value.mode)
  }

  /** The file is `bytes`, executable when the target is. */
  ghost predicate IsFile(after: Option<Entry>, target: Option<Entry>, bytes: Bytes) {
    && target.Some? && after.Some? && after.value.bytes == bytes
    && after.value.mode == if target.value.mode == Executable then Executable else Regular
  }

  /**
   * What a finished move leaves of a live edit that is neither head's nor the target's: the clean merge of disk over
   * target; else the target's bytes if the file is older than the commit that changed it; else the merge that keeps the
   * live side of a clash; else the edit as it was.
   */
  ghost predicate EditLands(tools: Tools, path: Path, disk: Option<Entry>, head: Option<Entry>, target: Option<Entry>,
      after: Option<Entry>) {
    var draft := target.Some? && disk.Some? && disk.value.mode != Symlink && tools.superseded(path);
    if !MergesAsText(disk, head, target) then
      if draft then IsFile(after, target, target.value.bytes) else after == disk
    else
      var mine, base, theirs := disk.value.bytes, head.value.bytes, target.value.bytes;
      match tools.mergeFile(mine, base, theirs, false)
      case Some(clean) => IsFile(after, target, clean)
      case None =>
        if draft then IsFile(after, target, theirs)
        else match tools.mergeFile(mine, base, theirs, true)
          case Some(ours) => IsFile(after, target, ours)
          case None => after == disk
  }

  /**
   * What a finished move leaves at a path it changes: one with no live edit is git's, which leaves the file alone when
   * the target is staged already.
   */
  ghost predicate Lands(tools: Tools, path: Path, untouched: bool, disk: Option<Entry>, staged: Option<Entry>,
      head: Option<Entry>, target: Option<Entry>, after: Option<Entry>) {
    if untouched || (disk == head && staged == head) then after == if staged == target then disk else target
    else if disk == target then after == target
    else EditLands(tools, path, disk, head, target, after)
  }

  lemma EditsLand(tools: Tools, row: Row, live: bool)
    requires row.fate == FateOf(tools, row.path, live, row.disk, row.staged, row.head, row.target) && row.fate != Holds
    ensures Lands(tools, row.path, !live && (row.head.Some? || row.disk == None), row.disk, row.staged, row.head,
        row.target, Landed(row))
  {
  }

  /** A finished move loses no bytes: what the disk held is what head held, is still there, or is saved. */
  lemma NothingIsLost(row: Row, disk: Tree, index: Tree, saved: Tree)
    requires Sound(row) && row.fate != Holds && (row.fate == Moves ==> row.disk == row.head)
    requires Shifted(row, disk, index, saved)
    ensures row.disk in {row.head, At(disk, row.path), At(saved, row.path)}
  {
    if row.fate == There {
      assert Landed(row) == row.target;
    }
  }

  /** What a row's end, moved or undone, says of the trees. */
  lemma RowEnds(row: Row, tools: Tools, live: bool, disk: Tree, index: Tree, saved: Tree)
    requires row.fate == FateOf(tools, row.path, live, row.disk, row.staged, row.head, row.target)
    requires Sound(row) && row.fate != Holds && (row.fate == Moves ==> row.disk == row.head)
    ensures var untouched := !live && (row.head.Some? || row.disk == None);
            && (Undone(row, index) ==> At(index, row.path) == (if untouched then row.staged else row.head))
            && (Shifted(row, disk, index, saved) ==>
                  && Lands(tools, row.path, untouched, row.disk, row.staged, row.head, row.target, At(disk, row.path))
                  && At(index, row.path) == row.target
                  && row.disk in {row.head, At(disk, row.path), At(saved, row.path)})
  {
    EditsLand(tools, row, live);
    if Shifted(row, disk, index, saved) {
      NothingIsLost(row, disk, index, saved);
    }
  }

  /**
   * Which finished paths show as changed afterwards, file and staged entry being apart: one left to git that was staged
   * as the target over head's file, a rewritten one whose text or kind is not the target's, and every kept edit.
   */
  lemma CleanExactlyWhen(row: Row, disk: Tree, index: Tree, saved: Tree)
    requires Sound(row) && row.fate != Holds && Shifted(row, disk, index, saved)
    requires row.fate == Moves ==> row.disk == row.head && row.head != row.target
    ensures At(disk, row.path) == At(index, row.path) <==>
              match row.fate
              case Moves => row.staged != row.target
              case There => true
              case Carried(merged) => merged == row.target.value.bytes && row.target.value.mode in {Regular, Executable}
              case Superseded => row.target.value.mode in {Regular, Executable}
              case Kept => false
  {
  }

  lemma SameTree(a: Tree, b: Tree)
    requires forall path :: At(a, path) == At(b, path)
    ensures a == b
  {
    forall path
      ensures (path in a <==> path in b) && (path in a ==> a[path] == b[path])
    {
      assert At(a, path) == At(b, path);
    }
  }

  class Checkout {
    var main: string
    var disk: Tree
    var index: Tree
    /** The copies under `carried/`. */
    var saved: Tree

    constructor (main: string, disk: Tree, index: Tree, saved: Tree)
      ensures this.main == main && this.disk == disk && this.index == index && this.saved == saved
    {
      this.main, this.disk, this.index, this.saved := main, disk, index, saved;
    }

    /**
     * The lists of paths come from git: each changed path once, and every tracked path whose disk differs from head.
     */
    ghost predicate Matches(plan: Plan)
      reads this
    {
      && (forall path :: path in plan.changed <==> At(plan.headTree, path) != At(plan.targetTree, path))
      && (forall i, j :: 0 <= i < j < |plan.changed| ==> plan.changed[i] != plan.changed[j])
      && (forall path :: path in plan.changed && path !in plan.live && path in plan.headTree ==>
          At(disk, path) == At(plan.headTree, path))
    }

    function RowFor(plan: Plan, tools: Tools, path: Path): Row
      reads this
    {
      var d, s, h, t := At(disk, path), At(index, path), At(plan.headTree, path), At(plan.targetTree, path);
      Row(path, d, s, h, t, FateOf(tools, path, path in plan.live, d, s, h, t))
    }

    ghost function Rows(plan: Plan, tools: Tools): seq<Row>
      reads this
    {
      seq(|plan.changed|, k requires 0 <= k < |plan.changed| reads this => RowFor(plan, tools, plan.changed[k]))
    }

    /** The run must settle the path itself: its file differs from head's, or lies where head has none. */
    predicate Touched(plan: Plan, path: Path)
      reads this
    {
      path in plan.live || (path !in plan.headTree && path in disk)
    }

    /** A touched path holds the move when no version of it is what is staged, or a folder is in its place. */
    predicate Blocks(plan: Plan, path: Path)
      reads this
    {
      && Touched(plan, path)
      && (|| At(index, path) !in {At(plan.headTree, path), At(plan.targetTree, path), At(disk, path)}
          || (path in disk && disk[path].mode == Folder))
    }

    /** Git takes a path it alone moves when one of the two commits has what is staged. */
    predicate Fits(plan: Plan, path: Path)
      reads this
    {
      Touched(plan, path) || At(index, path) in {At(plan.headTree, path), At(plan.targetTree, path)}
    }

    ghost predicate Stuck(plan: Plan)
      reads this
    {
      exists path :: path in plan.changed && Blocks(plan, path)
    }

    ghost predicate CanMove(plan: Plan)
      reads this
    {
      forall path :: path in plan.changed ==> !Blocks(plan, path) && Fits(plan, path)
    }

    /** What the rows say of holding and clearing is what the trees say. */
    lemma RowsAgree(plan: Plan, tools: Tools)
      ensures Held(Rows(plan, tools)) <==> Stuck(plan)
      ensures Clear(Rows(plan, tools)) <==> CanMove(plan)
    {
      var rows := Rows(plan, tools);
      forall k | 0 <= k < |rows|
        ensures rows[k].fate == Holds <==> Blocks(plan, plan.changed[k])
        ensures Fits(plan, plan.changed[k]) <==>
                  rows[k].fate == Moves ==> rows[k].staged == rows[k].head || rows[k].staged == rows[k].target
      {
      }
      if Stuck(plan) {
        var path :| path in plan.changed && Blocks(plan, path);
        var k :| 0 <= k < |plan.changed| && plan.changed[k] == path;
        assert rows[k].fate == Holds;
      }
    }

    method ReadRows(plan: Plan, tools: Tools) returns (rows: seq<Row>)
      ensures |rows| == |plan.changed| && forall k :: 0 <= k < |rows| ==>
          rows[k] == RowFor(plan, tools, plan.changed[k])
    {
      rows := [];
      for k := 0 to |plan.changed|
        invariant |rows| == k && forall j :: 0 <= j < k ==> rows[j] == RowFor(plan, tools, plan.changed[j])
      {
        rows := rows + [RowFor(plan, tools, plan.changed[k])];
      }
    }

    /** Saves the old bytes of every file the run will rewrite. */
    method SaveCopies(rows: seq<Row>)
      requires Distinct(rows) && forall k :: 0 <= k < |rows| ==> Sound(rows[k])
      modifies this`saved
      ensures forall k :: 0 <= k < |rows| && Rewrites(rows[k].fate) ==> At(saved, rows[k].path) == rows[k].disk
    {
      for k := 0 to |rows|
        invariant forall j :: 0 <= j < k && Rewrites(rows[j].fate) ==> At(saved, rows[j].path) == rows[j].disk
      {
        if Rewrites(rows[k].fate) {
          saved := saved[rows[k].path := rows[k].disk.value];
        }
      }
    }

    /** Puts the target's bytes under every file the run rewrites. */
    method WriteTargets(rows: seq<Row>)
      requires Distinct(rows) && forall k :: 0 <= k < |rows| ==> Sound(rows[k])
      modifies this`disk
      ensures forall k :: 0 <= k < |rows| ==>
        At(disk, rows[k].path) == (if Rewrites(rows[k].fate) then Draft(rows[k]) else At(old(disk), rows[k].path))
      ensures forall path :: Apart(rows, path) ==> At(disk, path) == At(old(disk), path)
    {
      for k := 0 to |rows|
        invariant forall j :: 0 <= j < k ==>
          At(disk, rows[j].path) == (if Rewrites(rows[j].fate) then Draft(rows[j]) else At(old(disk), rows[j].path))
        invariant forall j :: k <= j < |rows| ==> At(disk, rows[j].path) == At(old(disk), rows[j].path)
        invariant forall path :: Apart(rows, path) ==> At(disk, path) == At(old(disk), path)
      {
        if Rewrites(rows[k].fate) {
          disk := disk[rows[k].path := Written(rows[k].target.value.mode, rows[k].target.value.bytes)];
        }
      }
    }

    /** Stages the target, or head again, for every path git must leave alone. */
    method SetIndex(rows: seq<Row>, toTarget: bool)
      requires Distinct(rows)
      modifies this`index
      ensures forall k :: 0 <= k < |rows| ==>
        At(index, rows[k].path) == (if !Presets(rows[k].fate) then At(old(index), rows[k].path)
                                   else if toTarget then rows[k].target else rows[k].head)
      ensures forall path :: Apart(rows, path) ==> At(index, path) == At(old(index), path)
    {
      for k := 0 to |rows|
        invariant forall j :: 0 <= j < k ==>
          At(index, rows[j].path) == (if !Presets(rows[j].fate) then At(old(index), rows[j].path)
                                     else if toTarget then rows[j].target else rows[j].head)
        invariant forall j :: k <= j < |rows| ==> At(index, rows[j].path) == At(old(index), rows[j].path)
        invariant forall path :: Apart(rows, path) ==> At(index, path) == At(old(index), path)
      {
        if Presets(rows[k].fate) {
          index := With(index, rows[k].path, if toTarget then rows[k].target else rows[k].head);
        }
      }
    }

    /** Whether git may move a path: it is staged as the target, or staged and on disk as head. */
    predicate GitMoves(row: Row)
      reads this
    {
      At(index, row.path) == row.target || (At(index, row.path) == row.head && At(disk, row.path) == row.head)
    }

    /**
     * `git read-tree -m -u head target`, assumed to move all paths or none; it may also refuse for reasons of its own.
     */
    method ReadTree(rows: seq<Row>, willing: bool) returns (moved: bool)
      requires Distinct(rows)
      modifies this`disk, this`index
      ensures moved <==> willing && forall k :: 0 <= k < |rows| ==> old(GitMoves(rows[k]))
      ensures !moved ==> disk == old(disk) && index == old(index)
      ensures moved ==> forall k :: 0 <= k < |rows| ==>
        && At(index, rows[k].path) == rows[k].target
        && At(disk, rows[k].path) ==
            (if At(old(index), rows[k].path) == rows[k].target then At(old(disk), rows[k].path) else rows[k].target)
      ensures moved ==> forall path :: Apart(rows, path) ==>
          At(disk, path) == At(old(disk), path) && At(index, path) == At(old(index), path)
    {
      hide At, With;
      moved := willing && forall k :: 0 <= k < |rows| ==> GitMoves(rows[k]);
      if !moved {
        return;
      }
      for k := 0 to |rows|
        invariant forall j :: 0 <= j < k ==>
          && At(index, rows[j].path) == rows[j].target
          && At(disk, rows[j].path) ==
              (if At(old(index), rows[j].path) == rows[j].target then At(old(disk), rows[j].path) else rows[j].target)
        invariant forall j :: k <= j < |rows| ==>
          At(index, rows[j].path) == At(old(index), rows[j].path) &&
              At(disk, rows[j].path) == At(old(disk), rows[j].path)
        invariant forall path :: Apart(rows, path) ==>
            At(disk, path) == At(old(disk), path) && At(index, path) == At(old(index), path)
      {
        if At(index, rows[k].path) != rows[k].target {
          WithAt(index, rows[k].path, rows[k].target);
          WithAt(disk, rows[k].path, rows[k].target);
          index := With(index, rows[k].path, rows[k].target);
          disk := With(disk, rows[k].path, rows[k].target);
        }
      }
    }

    /** Writes the merged text over the target's, or the saved copies back. */
    method WriteBack(rows: seq<Row>, merged: bool)
      requires Distinct(rows)
      requires forall k :: 0 <= k < |rows| ==>
          Sound(rows[k]) && (Rewrites(rows[k].fate) ==> At(saved, rows[k].path) == rows[k].disk)
      modifies this`disk
      ensures forall k :: 0 <= k < |rows| ==>
          At(disk, rows[k].path) == Back(rows[k], merged, At(old(disk), rows[k].path))
      ensures forall path :: Apart(rows, path) ==> At(disk, path) == At(old(disk), path)
    {
      for k := 0 to |rows|
        invariant forall j :: 0 <= j < k ==>
            At(disk, rows[j].path) == Back(rows[j], merged, At(old(disk), rows[j].path))
        invariant forall j :: k <= j < |rows| ==> At(disk, rows[j].path) == At(old(disk), rows[j].path)
        invariant forall path :: Apart(rows, path) ==> At(disk, path) == At(old(disk), path)
      {
        var row := rows[k];
        if merged && row.fate.Carried? {
          disk := disk[row.path := Written(row.target.value.mode, row.fate.merged)];
        } else if !merged && Rewrites(row.fate) {
          disk := disk[row.path := Written(row.disk.value.mode, saved[row.path].bytes)];
        }
      }
    }

    /**
     * What the run read of each path: a rewritten one is a file on both sides, and one left to git has head's bytes on
     * disk.
     */
    lemma RowIsSound(plan: Plan, tools: Tools, path: Path)
      requires Matches(plan) && path in plan.changed
      ensures Sound(RowFor(plan, tools, path))
      ensures RowFor(plan, tools, path).fate == Moves ==>
          RowFor(plan, tools, path).disk == RowFor(plan, tools, path).head
    {
    }

    /** Puts the run's own steps back: the index entries to head's values, the rewritten files to their saved copies. */
    method Undo(rows: seq<Row>, ghost found: Tree)
      requires Distinct(rows)
      requires forall k :: 0 <= k < |rows| ==>
          Sound(rows[k]) && (Rewrites(rows[k].fate) ==> At(saved, rows[k].path) == rows[k].disk)
      requires forall k :: 0 <= k < |rows| ==> rows[k].disk == At(found, rows[k].path)
      requires forall k :: 0 <= k < |rows| && !Rewrites(rows[k].fate) ==>
          At(disk, rows[k].path) == At(found, rows[k].path)
      requires forall path :: Apart(rows, path) ==> At(disk, path) == At(found, path)
      modifies this`disk, this`index
      ensures disk == found
      ensures forall k :: 0 <= k < |rows| ==>
        At(index, rows[k].path) == (if Presets(rows[k].fate) then rows[k].head else At(old(index), rows[k].path))
      ensures forall path :: Apart(rows, path) ==> At(index, path) == At(old(index), path)
    {
      SetIndex(rows, false);
      WriteBack(rows, false);
      forall path
        ensures At(disk, path) == At(found, path)
      {
        if !Apart(rows, path) {
          var k :| 0 <= k < |rows| && rows[k].path == path;
        }
      }
      SameTree(disk, found);
    }

    /** The rows are what the checkout holds now. */
    ghost predicate Fresh(rows: seq<Row>)
      reads this
    {
      && Distinct(rows)
      && forall k :: 0 <= k < |rows| ==>
           && Sound(rows[k]) && rows[k].fate != Holds
           && rows[k].disk == At(disk, rows[k].path) && rows[k].staged == At(index, rows[k].path)
           && (rows[k].fate == Moves ==> rows[k].disk == rows[k].head)
    }

    lemma RowsAreFresh(plan: Plan, tools: Tools, rows: seq<Row>)
      requires Matches(plan) && rows == Rows(plan, tools) && !Held(rows)
      ensures Fresh(rows)
      ensures forall k :: 0 <= k < |rows| ==>
        Sound(rows[k]) && rows[k].fate != Holds && (rows[k].fate == Moves ==> rows[k].disk == rows[k].head)
    {
      hide FateOf, Carry;
      forall k | 0 <= k < |rows|
        ensures Sound(rows[k]) && (rows[k].fate == Moves ==> rows[k].disk == rows[k].head)
      {
        RowIsSound(plan, tools, plan.changed[k]);
      }
    }

    /** Saves, writes and stages what git must not touch, and says so of every row. */
    method Stage(rows: seq<Row>)
      requires Fresh(rows)
      modifies this`disk, this`index, this`saved
      ensures forall k :: 0 <= k < |rows| ==>
        && At(disk, rows[k].path) == (if Rewrites(rows[k].fate) then Draft(rows[k]) else rows[k].disk)
        && At(index, rows[k].path) == (if Presets(rows[k].fate) then rows[k].target else rows[k].staged)
        && (Rewrites(rows[k].fate) ==> At(saved, rows[k].path) == rows[k].disk)
      ensures forall path :: Apart(rows, path) ==>
          At(disk, path) == At(old(disk), path) && At(index, path) == At(old(index), path)
    {
      SaveCopies(rows);
      WriteTargets(rows);
      SetIndex(rows, true);
    }

    /** The part of a move after its paths are read and none of them holds it. */
    method MoveRows(rows: seq<Row>, plan: Plan, rival: Option<string>, willing: bool) returns (result: Result)
      requires Fresh(rows) && main == plan.head
      modifies this
      ensures result == Moved <==> Clear(rows) && willing && (rival == None || rival.value == plan.head)
      ensures main == (if result == Moved then plan.target else if rival.Some? then rival.value else plan.head)
      ensures result == Skipped ==> disk == old(disk)
      ensures result == Skipped ==> forall k :: 0 <= k < |rows| ==> Undone(rows[k], index)
      ensures result == Moved ==> forall k :: 0 <= k < |rows| ==> Shifted(rows[k], disk, index, saved)
      ensures forall path :: Apart(rows, path) ==>
          At(disk, path) == At(old(disk), path) && At(index, path) == At(old(index), path)
    {
      hide At, Written, Distinct;
      ghost var found := disk;
      Stage(rows);
      if rival.Some? {
        main := rival.value;
      }
      if main != plan.head {
        Undo(rows, found);
        return Skipped;
      }
      main := plan.target;
      var moved := ReadTree(rows, willing);
      if !moved {
        main := plan.head;
        Undo(rows, found);
        return Skipped;
      }
      WriteBack(rows, true);
      return Moved;
    }

    /**
     * One move. `rival` is a commit some other process put on main while the run read the files; `willing` is whether
     * git has no reason of its own to refuse. The move is made exactly when no path the run must settle holds it and
     * each path left to git is staged as one of the two commits has it. A finished move leaves main and every entry it
     * changed at the target and every other path alone; an unfinished one leaves main and every file's bytes as they
     * were.
     */
    method Move(plan: Plan, tools: Tools, rival: Option<string>, willing: bool) returns (result: Result)
      requires Matches(plan) && main == plan.head
      modifies this
      ensures result == Moved <==> old(CanMove(plan)) && willing && (rival == None || rival.value == plan.head)
      ensures main == (if result == Moved then plan.target
                       else if rival.Some? && !old(Stuck(plan)) then rival.value
                       else plan.head)
      ensures result == Skipped ==> disk == old(disk)
      ensures result == Skipped && old(Stuck(plan)) ==> index == old(index) && saved == old(saved)
      ensures result == Skipped && !old(Stuck(plan)) ==> forall path :: path in plan.changed ==>
        At(index, path) == (if old(Touched(plan, path)) then At(plan.headTree, path) else At(old(index), path))
      ensures result == Moved ==> forall path :: path in plan.changed ==>
        && At(index, path) == At(plan.targetTree, path)
        && Lands(tools, path, old(!Touched(plan, path)), At(old(disk), path), At(old(index), path),
                 At(plan.headTree, path), At(plan.targetTree, path), At(disk, path))
        && At(old(disk), path) in {At(plan.headTree, path), At(disk, path), At(saved, path)}
      ensures forall path :: path !in plan.changed ==>
          At(disk, path) == At(old(disk), path) && At(index, path) == At(old(index), path)
    {
      hide FateOf, Carry, Written, With, Landed, Shifted, Undone, Stuck, CanMove, Lands;
      var rows := ReadRows(plan, tools);
      assert rows == Rows(plan, tools);
      RowsAgree(plan, tools);
      if exists k :: 0 <= k < |rows| && rows[k].fate == Holds {
        return Skipped;
      }
      RowsAreFresh(plan, tools, rows);
      hide Fresh, Sound;
      result := MoveRows(rows, plan, rival, willing);
      forall k | 0 <= k < |rows|
        ensures result == Skipped ==>
          At(index, plan.changed[k]) == (if old(Touched(plan, plan.changed[k])) then rows[k].head else rows[k].staged)
        ensures result == Moved ==>
          && Lands(tools, plan.changed[k], old(!Touched(plan, plan.changed[k])), rows[k].disk, rows[k].staged,
                   rows[k].head, rows[k].target, At(disk, plan.changed[k]))
          && At(index, plan.changed[k]) == rows[k].target
          && rows[k].disk in {rows[k].head, At(disk, plan.changed[k]), At(saved, plan.changed[k])}
      {
        RowEnds(rows[k], tools, plan.changed[k] in plan.live, disk, index, saved);
      }
      forall path | path !in plan.changed
        ensures Apart(rows, path)
      {
      }
    }
  }
}
