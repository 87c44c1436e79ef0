/**
 * A box's busy cores split by cgroup and process holder between two readings: leaves, ended processes, ended units, a
 * remainder and a rescale, in exact arithmetic with the rounding at the end made explicit.
 */
module CpuGroups {
  import opened Options

  /** A cgroup path as its components; the root is the empty path. */
  type Path = seq<string>

  type Group = string

  datatype Holder = Holder(id: Group, name: string)

  datatype Leaf = ByProcess | Held(holder: Holder)

  datatype Proc = Proc(pid: nat, leaf: Path, start: nat, ticks: nat)

  /** A reading; `leaves` are those whose usage was read, each once. */
  datatype Snapshot = Snapshot(at: real, usage: map<Path, nat>, leaves: seq<Path>, procs: seq<Proc>)

  /** Who holds a leaf or a path under a parent, and a process of a by-process leaf. */
  datatype Classifier = Classifier(leafHolder: Path -> Leaf, processHolder: Proc -> Holder)

  datatype Item = Item(holder: Holder, seconds: real)

  const TICK_HZ := 100.0
  const KERNEL := Holder("system", "Kernel and interrupts")
  const ENDED_PROCESSES := Holder("jobs", "Processes that ended in the window")

  /** A name's `\\x2d` read as a dash. */
  function Unescaped(name: string): string {
    if |name| >= 4 && name[..4] == "\\x2d" then "-" + Unescaped(name[4..])
    else if name == "" then ""
    else [name[0]] + Unescaped(name[1..])
  }

  function EndedUnits(parent: Path): string {
    "Units that ended under " + (if parent == [] then "" else Unescaped(parent[|parent| - 1]))
  }

  predicate Numbered(part: string, lead: string, end: string) {
    && |part| > |lead| + |end| && part[..|lead|] == lead && part[|part| - |end|..] == end
    && forall k :: |lead| <= k < |part| - |end| ==> '0' <= part[k] <= '9'
  }

  /** A user's slice, its user manager or that one's app.slice, where jobs start transient units. */
  predicate HoldsJobs(parent: Path) {
    && 2 <= |parent| <= 4
    && parent[0] == "user.slice" && Numbered(parent[1], "user-", ".slice")
    && (|parent| > 2 ==> Numbered(parent[2], "user@", ".service"))
    && (|parent| > 3 ==> parent[3] == "app.slice")
  }

  lemma OnlyOne(live: set<Group>)
    requires |live| == 1
    ensures forall a, b :: a in live && b in live ==> a == b
  {
    forall a, b | a in live && b in live
      ensures a == b
    {
      assert |live - {a}| == 0;
    }
  }

  function Sole(live: set<Group>): (only: Group)
    requires |live| == 1
    ensures live == {only}
  {
    OnlyOne(live);
    var only :| only in live;
    only
  }

  /** Who holds the units that ended under a parent, given the groups of its live leaves. */
  function EndedHolder(classify: Classifier, parent: Path, live: set<Group>): Holder {
    var name := EndedUnits(parent);
    if HoldsJobs(parent) then Holder("jobs", name)
    else if |live| == 1 then Holder(Sole(live), name)
    else
      match classify.leafHolder(parent + [""])
      case ByProcess => Holder("jobs", name)
      case Held(holder) => Holder(holder.id, name)
  }

  /** What both readings and the window give. */
  datatype Window = Window(before: Snapshot, after: Snapshot, cores: real)

  function Seconds(w: Window): real {
    (w.after.at - w.before.at) / 1000.0
  }

  function Parent(path: Path): Path {
    if path == [] then [] else path[..|path| - 1]
  }

  /** The CPU seconds a cgroup used in the window; a counter that went back counts its new value. */
  function Grown(w: Window, path: Path): (time: real)
    ensures time >= 0.0
  {
    if path !in w.after.usage then 0.0
    else
      var end := w.after.usage[path];
      if path !in w.before.usage then
        if end as real <= (w.after.at - w.before.at) * 1000.0 * w.cores then end as real / 1000000.0 else 0.0
      else
        var start := w.before.usage[path];
        if end >= start then (end - start) as real / 1000000.0 else end as real / 1000000.0
  }

  function Was(procs: seq<Proc>, pid: nat): Option<Proc> {
    if procs == [] then None else if procs[|procs| - 1].pid == pid then Some(procs[|procs| - 1])
        else Was(procs[..|procs| - 1], pid)
  }

  /** A process alive at both ends counts its ticks between them, one started in the window all of them. */
  function ProcTime(w: Window, proc: Proc): (time: real)
    ensures time >= 0.0
  {
    var was := Was(w.before.procs, proc.pid);
    if was.Some? && was.value.start == proc.start
    then if proc.ticks >= was.value.ticks then (proc.ticks - was.value.ticks) as real / TICK_HZ else 0.0
    else proc.ticks as real / TICK_HZ
  }

  /* ---- Sums ---- */

  function Total(items: seq<Item>): real {
    if items == [] then 0.0 else Total(items[..|items| - 1]) + items[|items| - 1].seconds
  }

  /** A time under a key: a process under its leaf, or a cgroup under its parent. */
  datatype Part = Part(key: Path, time: real)

  function Whole(parts: seq<Part>): real {
    if parts == [] then 0.0 else Whole(parts[..|parts| - 1]) + parts[|parts| - 1].time
  }

  function Under(parts: seq<Part>, key: Path): real {
    if parts == [] then 0.0
    else Under(parts[..|parts| - 1], key) + (if parts[|parts| - 1].key == key then parts[|parts| - 1].time else 0.0)
  }

  function UnderAll(parts: seq<Part>, keys: seq<Path>): real {
    if keys == [] then 0.0 else UnderAll(parts, keys[..|keys| - 1]) + Under(parts, keys[|keys| - 1])
  }

  ghost predicate Distinct(paths: seq<Path>) {
    forall i, j :: 0 <= i < j < |paths| ==> paths[i] != paths[j]
  }

  lemma {:induction false} NothingUnder(parts: seq<Part>, key: Path)
    requires forall i :: 0 <= i < |parts| ==> parts[i].key != key
    ensures Under(parts, key) == 0.0
  {
    if parts != [] {
      NothingUnder(parts[..|parts| - 1], key);
    }
  }

  lemma {:induction false} OnePartMore(parts: seq<Part>, part: Part, keys: seq<Path>)
    requires Distinct(keys)
    ensures UnderAll(parts + [part], keys) == UnderAll(parts, keys) + (if part.key in keys then part.time else 0.0)
  {
    if keys != [] {
      var k := |keys| - 1;
      OnePartMore(parts, part, keys[..k]);
      assert (parts + [part])[..|parts|] == parts;
      assert keys == keys[..k] + [keys[k]];
    }
  }

  /** Summed key by key or all at once, each part counts once. */
  lemma {:induction false} EachPartOnce(parts: seq<Part>, keys: seq<Path>)
    requires Distinct(keys) && forall i :: 0 <= i < |parts| ==> parts[i].key in keys
    ensures UnderAll(parts, keys) == Whole(parts)
  {
    if parts == [] {
      NothingInAll(parts, keys);
    } else {
      var k := |parts| - 1;
      EachPartOnce(parts[..k], keys);
      assert parts == parts[..k] + [parts[k]];
      OnePartMore(parts[..k], parts[k], keys);
    }
  }

  lemma {:induction false} NothingInAll(parts: seq<Part>, keys: seq<Path>)
    requires parts == []
    ensures UnderAll(parts, keys) == 0.0
  {
    if keys != [] {
      NothingInAll(parts, keys[..|keys| - 1]);
    }
  }

  function ProcParts(w: Window, procs: seq<Proc>): (parts: seq<Part>)
    ensures |parts| == |procs| && forall i :: 0 <= i < |parts| ==>
        parts[i] == Part(procs[i].leaf, ProcTime(w, procs[i]))
  {
    seq(|procs|, (i: int) requires 0 <= i < |procs| => Part(procs[i].leaf, ProcTime(w, procs[i])))
  }

  function ChildParts(w: Window, paths: seq<Path>): (parts: seq<Part>)
    ensures |parts| == |paths| && forall i :: 0 <= i < |parts| ==>
        parts[i] == Part(Parent(paths[i]), Grown(w, paths[i]))
  {
    seq(|paths|, (i: int) requires 0 <= i < |paths| => Part(Parent(paths[i]), Grown(w, paths[i])))
  }

  function Live(w: Window, leaf: Path): real {
    Under(ProcParts(w, w.after.procs), leaf)
  }

  function Positive(time: real): (positive: real)
    ensures positive >= 0.0 && positive >= time && (positive == time || positive == 0.0)
  {
    if time > 0.0 then time else 0.0
  }

  /** What a leaf counts beyond its processes. */
  function LeafShare(w: Window, classify: Classifier, leaf: Path): real {
    if classify.leafHolder(leaf) == ByProcess then Positive(Grown(w, leaf) - Live(w, leaf)) else Grown(w, leaf)
  }

  function LeafShares(w: Window, classify: Classifier, leaves: seq<Path>): real {
    if leaves == [] then 0.0
        else LeafShares(w, classify, leaves[..|leaves| - 1]) + LeafShare(w, classify, leaves[|leaves| - 1])
  }

  /** What a parent counts beyond its children: its ended units. */
  function EndedShare(w: Window, paths: seq<Path>, parent: Path): real {
    Positive(Grown(w, parent) - Under(ChildParts(w, paths), parent))
  }

  function EndedShares(w: Window, paths: seq<Path>, parents: seq<Path>): real {
    if parents == [] then 0.0
        else EndedShares(w, paths, parents[..|parents| - 1]) + EndedShare(w, paths, parents[|parents| - 1])
  }

  /** All the cgroups' items: the live processes, the leaves and the ended units. */
  function Counted(w: Window, classify: Classifier, parents: seq<Path>): real {
    Whole(ProcParts(w, w.after.procs)) + LeafShares(w, classify, w.after.leaves) +
        EndedShares(w, w.after.leaves + parents, parents)
  }

  /* ---- Where the time goes ---- */

  /** The time of the items whose holder passes: of one holder, of one group, or of all. */
  function Where(items: seq<Item>, of: Holder -> bool): real {
    if items == [] then 0.0
    else Where(items[..|items| - 1], of) + (if of(items[|items| - 1].holder) then items[|items| - 1].seconds else 0.0)
  }

  lemma WhereSnoc(items: seq<Item>, item: Item, of: Holder -> bool)
    ensures Where(items + [item], of) == Where(items, of) + (if of(item.holder) then item.seconds else 0.0)
  {
    assert (items + [item])[..|items|] == items;
  }

  /** Each process's time goes to the process's holder. */
  function ProcShares(w: Window, classify: Classifier, procs: seq<Proc>): seq<Item> {
    if procs == [] then []
    else
      var k := |procs| - 1;
      ProcShares(w, classify, procs[..k]) + [Item(classify.processHolder(procs[k]), ProcTime(w, procs[k]))]
  }

  /** A by-process leaf's own share is that of its ended processes. */
  function LeafKeeper(classify: Classifier, leaf: Path): Holder {
    match classify.leafHolder(leaf)
    case ByProcess => ENDED_PROCESSES
    case Held(holder) => holder
  }

  function LeafItems(w: Window, classify: Classifier, leaves: seq<Path>): seq<Item> {
    if leaves == [] then []
    else
      var k := |leaves| - 1;
      LeafItems(w, classify, leaves[..k]) + [Item(LeafKeeper(classify, leaves[k]), LeafShare(w, classify, leaves[k]))]
  }

  /** The groups of a parent's live leaves. */
  function LiveGroups(classify: Classifier, leaves: seq<Path>, parent: Path): set<Group> {
    if leaves == [] then {}
    else
      var k := |leaves| - 1;
      LiveGroups(classify, leaves[..k], parent) +
          (if Parent(leaves[k]) == parent then {LeafKeeper(classify, leaves[k]).id} else {})
  }

  /** Each parent's ended units go to the holder its live leaves or its place give. */
  function EndedItems(w: Window, classify: Classifier, paths: seq<Path>, parents: seq<Path>): seq<Item> {
    if parents == [] then []
    else
      var k := |parents| - 1;
      EndedItems(w, classify, paths, parents[..k])
      + [Item(EndedHolder(classify, parents[k], LiveGroups(classify, w.after.leaves, parents[k])),
          EndedShare(w, paths, parents[k]))]
  }

  /** Every share of the window's time, with its holder. */
  function Shares(w: Window, classify: Classifier, parents: seq<Path>): seq<Item> {
    ProcShares(w, classify, w.after.procs) + LeafItems(w, classify, w.after.leaves)
    + EndedItems(w, classify, w.after.leaves + parents, parents)
  }

  /** Items that hold the time of some shares: each holder has one, with all that goes to it. */
  ghost predicate Hold(items: seq<Item>, shares: seq<Item>) {
    && (forall of: Holder -> bool :: Where(items, of) == Where(shares, of))
    && (forall i, j :: 0 <= i < j < |items| ==> items[i].holder != items[j].holder)
    && (forall i :: 0 <= i < |items| ==> items[i].seconds > 0.0)
  }

  lemma {:induction false} WhereOne(items: seq<Item>, i: nat)
    requires i < |items| && forall j :: 0 <= j < |items| && j != i ==> items[j].holder != items[i].holder
    ensures Where(items, holder => holder == items[i].holder) == items[i].seconds
  {
    var k := |items| - 1;
    var of := (holder: Holder) => holder == items[i].holder;
    if i < k {
      WhereOne(items[..k], i);
      SameWhere(items[..k], of, holder => holder == items[..k][i].holder);
    } else {
      NoneWhere(items[..k], of);
    }
    SameWhere(items, of, holder => holder == items[i].holder);
  }

  lemma {:induction false} SameWhere(items: seq<Item>, of: Holder -> bool, other: Holder -> bool)
    requires forall holder :: of(holder) == other(holder)
    ensures Where(items, of) == Where(items, other)
  {
    if items != [] {
      SameWhere(items[..|items| - 1], of, other);
    }
  }

  lemma {:induction false} NoneWhere(items: seq<Item>, of: Holder -> bool)
    requires forall j :: 0 <= j < |items| ==> !of(items[j].holder)
    ensures Where(items, of) == 0.0
  {
    if items != [] {
      NoneWhere(items[..|items| - 1], of);
    }
  }

  /** So an item's seconds are all the time that goes to its holder. */
  lemma ItemIsItsHolders(items: seq<Item>, shares: seq<Item>, i: nat)
    requires Hold(items, shares) && i < |items|
    ensures items[i].seconds == Where(shares, holder => holder == items[i].holder)
  {
    WhereOne(items, i);
  }

  /* ---- Telescoping ---- */

  /** Every cgroup's parents were read too, and no leaf is the parent of another cgroup. */
  ghost predicate AncestorsRead(paths: seq<Path>, parents: seq<Path>) {
    forall q :: q in paths ==> q != [] && (|q| == 1 || Parent(q) in parents)
  }

  /** No residual is negative, and processes were read of by-process leaves only. */
  ghost predicate Consistent(w: Window, classify: Classifier, paths: seq<Path>, parents: seq<Path>) {
    && (forall p :: p in parents ==> Under(ChildParts(w, paths), p) <= Grown(w, p))
    && (forall leaf :: leaf in w.after.leaves && classify.leafHolder(leaf) == ByProcess ==>
        Live(w, leaf) <= Grown(w, leaf))
    && (forall i :: 0 <= i < |w.after.procs| ==>
        w.after.procs[i].leaf in w.after.leaves && classify.leafHolder(w.after.procs[i].leaf) == ByProcess)
  }

  function Growths(w: Window, paths: seq<Path>): real {
    if paths == [] then 0.0 else Growths(w, paths[..|paths| - 1]) + Grown(w, paths[|paths| - 1])
  }

  lemma {:induction false} WholeIsGrowths(w: Window, paths: seq<Path>)
    ensures Whole(ChildParts(w, paths)) == Growths(w, paths)
  {
    if paths != [] {
      var k := |paths| - 1;
      WholeIsGrowths(w, paths[..k]);
      assert ChildParts(w, paths)[..k] == ChildParts(w, paths[..k]);
    }
  }

  lemma {:induction false} GrowthsOf(w: Window, a: seq<Path>, b: seq<Path>)
    ensures Growths(w, a + b) == Growths(w, a) + Growths(w, b)
  {
    if b == [] {
      assert a + b == a;
    } else {
      assert (a + b)[..|a + b| - 1] == a + b[..|b| - 1];
      GrowthsOf(w, a, b[..|b| - 1]);
    }
  }

  lemma {:induction false} LeavesWithLive(w: Window, classify: Classifier, leaves: seq<Path>)
    requires forall leaf :: leaf in leaves && classify.leafHolder(leaf) == ByProcess ==> Live(w, leaf) <= Grown(w, leaf)
    requires forall leaf :: leaf in leaves && classify.leafHolder(leaf) != ByProcess ==> Live(w, leaf) == 0.0
    ensures LeafShares(w, classify, leaves) + UnderAll(ProcParts(w, w.after.procs), leaves) == Growths(w, leaves)
  {
    if leaves != [] {
      LeavesWithLive(w, classify, leaves[..|leaves| - 1]);
    }
  }

  lemma {:induction false} ParentsWithChildren(w: Window, paths: seq<Path>, parents: seq<Path>)
    requires forall p :: p in parents ==> Under(ChildParts(w, paths), p) <= Grown(w, p)
    ensures EndedShares(w, paths, parents) + UnderAll(ChildParts(w, paths), parents) == Growths(w, parents)
  {
    if parents != [] {
      ParentsWithChildren(w, paths, parents[..|parents| - 1]);
    }
  }

  /**
   * When every parent was read and no residual is negative, the leaves, the live processes and the ended units
   * telescope to the growth of the cgroups right below the root.
   */
  lemma ItemsTelescope(w: Window, classify: Classifier, parents: seq<Path>)
    requires Distinct(w.after.leaves) && Distinct(parents)
    requires var paths := w.after.leaves + parents;
             AncestorsRead(paths, parents) && Consistent(w, classify, paths, parents)
    ensures Counted(w, classify, parents) == Under(ChildParts(w, w.after.leaves + parents), [])
  {
    var leaves, paths, procs := w.after.leaves, w.after.leaves + parents, ProcParts(w, w.after.procs);
    forall leaf | leaf in leaves && classify.leafHolder(leaf) != ByProcess
      ensures Live(w, leaf) == 0.0
    {
      NothingUnder(procs, leaf);
    }
    LeavesWithLive(w, classify, leaves);
    EachPartOnce(procs, leaves);
    ParentsWithChildren(w, paths, parents);
    TopAndParents(w, paths, parents);
    WholeIsGrowths(w, paths);
    GrowthsOf(w, leaves, parents);
  }

  lemma TopAndParents(w: Window, paths: seq<Path>, parents: seq<Path>)
    requires Distinct(parents) && AncestorsRead(paths, parents) && forall p :: p in parents ==> p != []
    ensures UnderAll(ChildParts(w, paths), parents) + Under(ChildParts(w, paths), []) == Whole(ChildParts(w, paths))
  {
    var parts, keys := ChildParts(w, paths), parents + [[]];
    assert keys[..|parents|] == parents;
    assert forall i :: 0 <= i < |parents| ==> keys[i] == parents[i] && parents[i] in parents;
    forall i | 0 <= i < |parts|
      ensures parts[i].key in keys
    {
      assert paths[i] in paths;
      assert keys[|parents|] == [];
    }
    EachPartOnce(parts, keys);
  }

  /* ---- The count ---- */

  /** The cgroups above the leaves, each once, deepest first. */
  ghost predicate Above(w: Window, parents: seq<Path>) {
    && Distinct(parents)
    && (forall p :: p in parents <==> p in w.after.usage && p !in w.after.leaves)
    && (forall i, j :: 0 <= i < j < |parents| ==> |parents[i]| >= |parents[j]|)
  }

  function Get(times: map<Path, real>, path: Path): real {
    if path in times then times[path] else 0.0
  }

  /** Adds a positive time to its holder's item. */
  method Add(items: seq<Item>, ghost shares: seq<Item>, holder: Holder, time: real) returns (more: seq<Item>)
    requires Hold(items, shares)
    ensures Hold(more, shares + [Item(holder, Positive(time))])
    ensures Total(more) == Total(items) + Positive(time)
  {
    more := items;
    ghost var all := shares + [Item(holder, Positive(time))];
    forall of: Holder -> bool
      ensures Where(all, of) == Where(items, of) + (if of(holder) then Positive(time) else 0.0)
    {
      WhereSnoc(shares, Item(holder, Positive(time)), of);
    }
    if time <= 0.0 {
      return;
    }
    for k := 0 to |items|
      invariant more == items && forall j :: 0 <= j < k ==> items[j].holder != holder
    {
      if items[k].holder == holder {
        var grown := items[k].(seconds := items[k].seconds + time);
        TotalUpdated(items, k, grown);
        more := items[k := grown];
        forall of: Holder -> bool
          ensures Where(more, of) == Where(all, of)
        {
          WhereUpdated(items, k, grown, of);
        }
        return;
      }
    }
    more := items + [Item(holder, time)];
    assert more[..|items|] == items;
    forall of: Holder -> bool
      ensures Where(more, of) == Where(all, of)
    {
      WhereSnoc(items, Item(holder, time), of);
    }
  }

  lemma {:induction false} WhereUpdated(items: seq<Item>, i: nat, item: Item, of: Holder -> bool)
    requires i < |items| && item.holder == items[i].holder
    ensures Where(items[i := item], of) ==
        Where(items, of) + (if of(item.holder) then item.seconds - items[i].seconds else 0.0)
  {
    var k := |items| - 1;
    if i < k {
      assert items[i := item][..k] == items[..k][i := item];
      WhereUpdated(items[..k], i, item, of);
    } else {
      assert items[i := item][..k] == items[..k];
    }
  }

  lemma {:induction false} TotalUpdated(items: seq<Item>, i: nat, item: Item)
    requires i < |items|
    ensures Total(items[i := item]) == Total(items) - items[i].seconds + item.seconds
  {
    var k := |items| - 1;
    if i < k {
      assert items[i := item][..k] == items[..k][i := item];
      TotalUpdated(items[..k], i, item);
    } else {
      assert items[i := item][..k] == items[..k];
    }
  }

  lemma UnderSnoc(parts: seq<Part>, k: nat, key: Path)
    requires k < |parts|
    ensures Under(parts[..k + 1], key) == Under(parts[..k], key) + (if parts[k].key == key then parts[k].time else 0.0)
    ensures Whole(parts[..k + 1]) == Whole(parts[..k]) + parts[k].time
  {
    assert parts[..k + 1][..k] == parts[..k];
  }

  /** The processes' items, and each leaf's share of them. */
  method CountProcs(w: Window, classify: Classifier) returns (items: seq<Item>, live: map<Path, real>)
    ensures Hold(items, ProcShares(w, classify, w.after.procs))
    ensures Total(items) == Whole(ProcParts(w, w.after.procs))
    ensures forall leaf :: Get(live, leaf) == Live(w, leaf)
  {
    hide Total, Under, Whole, Hold, Where;
    var procs := w.after.procs;
    ghost var parts := ProcParts(w, procs);
    items, live := [], map[];
    NoneYet(parts);
    for k := 0 to |procs|
      invariant Hold(items, ProcShares(w, classify, procs[..k]))
      invariant Total(items) == Whole(parts[..k])
      invariant forall leaf :: Get(live, leaf) == Under(parts[..k], leaf)
    {
      assert procs[..k + 1][..k] == procs[..k];
      var proc := procs[k];
      var time := ProcTime(w, proc);
      UnderSnoc(parts, k, []);
      items := Add(items, ProcShares(w, classify, procs[..k]), classify.processHolder(proc), time);
      ghost var was := live;
      live := live[proc.leaf := Get(live, proc.leaf) + time];
      forall leaf
        ensures Get(live, leaf) == Under(parts[..k + 1], leaf)
      {
        UnderSnoc(parts, k, leaf);
        assert Get(was, leaf) == Under(parts[..k], leaf);
      }
    }
    assert parts[..|procs|] == parts && procs[..|procs|] == procs;
  }

  lemma NoneYet(parts: seq<Part>)
    ensures Hold([], []) && Total([]) == 0.0 && Whole(parts[..0]) == 0.0 && forall key :: Under(parts[..0], key) == 0.0
  {
  }

  /** What a cgroup used, under its parent. */
  function Charged(w: Window, children: map<Path, real>, path: Path): map<Path, real> {
    if Parent(path) == [] then children else children[Parent(path) := Get(children, Parent(path)) + Grown(w, path)]
  }

  /** The map of children's times holds those of the cgroups seen so far. */
  ghost predicate ChargedFor(w: Window, children: map<Path, real>, paths: seq<Path>) {
    forall p :: p != [] ==> Get(children, p) == Under(ChildParts(w, paths), p)
  }

  lemma ChargeOne(w: Window, children: map<Path, real>, paths: seq<Path>, path: Path)
    requires ChargedFor(w, children, paths)
    ensures ChargedFor(w, Charged(w, children, path), paths + [path])
  {
    hide Under;
    var more := paths + [path];
    var parts := ChildParts(w, more);
    forall p | p != []
      ensures Get(Charged(w, children, path), p) == Under(parts, p)
    {
      UnderSnoc(parts, |paths|, p);
      assert parts[..|paths|] == ChildParts(w, paths) && parts[..|paths| + 1] == parts;
    }
  }

  function GroupsAt(groups: map<Path, set<Group>>, parent: Path): set<Group> {
    if parent in groups then groups[parent] else {}
  }

  /** The leaves' items, on top of the processes'. */
  method CountLeaves(w: Window, classify: Classifier, items: seq<Item>, ghost shares: seq<Item>, live: map<Path, real>)
    returns (more: seq<Item>, children: map<Path, real>, liveGroups: map<Path, set<Group>>)
    requires forall leaf :: Get(live, leaf) == Live(w, leaf)
    requires Hold(items, shares)
    ensures Hold(more, shares + LeafItems(w, classify, w.after.leaves))
    ensures Total(more) == Total(items) + LeafShares(w, classify, w.after.leaves)
    ensures ChargedFor(w, children, w.after.leaves)
    ensures forall parent :: GroupsAt(liveGroups, parent) == LiveGroups(classify, w.after.leaves, parent)
  {
    hide Total, Under, Live, Grown, ChargedFor, Charged, Hold, Where;
    var leaves := w.after.leaves;
    more, children, liveGroups := items, map[], map[];
    NoneCharged(w, leaves);
    assert shares + LeafItems(w, classify, leaves[..0]) == shares;
    for k := 0 to |leaves|
      invariant Hold(more, shares + LeafItems(w, classify, leaves[..k]))
      invariant Total(more) == Total(items) + LeafShares(w, classify, leaves[..k])
      invariant ChargedFor(w, children, leaves[..k])
      invariant forall parent :: GroupsAt(liveGroups, parent) == LiveGroups(classify, leaves[..k], parent)
    {
      assert leaves[..k + 1] == leaves[..k] + [leaves[k]] && leaves[..k + 1][..k] == leaves[..k];
      var leaf := leaves[k];
      var time, held := Grown(w, leaf), classify.leafHolder(leaf);
      ChargeOne(w, children, leaves[..k], leaf);
      children := Charged(w, children, leaf);
      var id := if held == ByProcess then "jobs" else held.holder.id;
      ghost var was, all := liveGroups, shares + LeafItems(w, classify, leaves[..k]);
      liveGroups := liveGroups[Parent(leaf) := GroupsAt(liveGroups, Parent(leaf)) + {id}];
      forall parent
        ensures GroupsAt(liveGroups, parent) == LiveGroups(classify, leaves[..k + 1], parent)
      {
        assert GroupsAt(was, parent) == LiveGroups(classify, leaves[..k], parent);
      }
      assert shares + LeafItems(w, classify, leaves[..k + 1]) ==
          all + [Item(LeafKeeper(classify, leaf), LeafShare(w, classify, leaf))];
      if held == ByProcess {
        more := Add(more, all, ENDED_PROCESSES, time - Get(live, leaf));
      } else {
        more := Add(more, all, held.holder, time);
      }
    }
    assert leaves[..|leaves|] == leaves;
  }

  lemma NoneCharged(w: Window, leaves: seq<Path>)
    ensures ChargedFor(w, map[], leaves[..0])
  {
  }

  lemma {:induction false} UnderWithout(w: Window, a: seq<Path>, b: seq<Path>, p: Path)
    requires forall i :: 0 <= i < |b| ==> Parent(b[i]) != p
    ensures Under(ChildParts(w, a + b), p) == Under(ChildParts(w, a), p)
  {
    if b == [] {
      assert a + b == a;
    } else {
      var k := |b| - 1;
      UnderWithout(w, a, b[..k], p);
      assert ChildParts(w, a + b)[..|a| + k] == ChildParts(w, a + b[..k]);
    }
  }

  /** The ended units' items, deepest parents first, so that each parent's children were all charged to it before. */
  method CountEnded(w: Window, classify: Classifier, parents: seq<Path>, items: seq<Item>, ghost shares: seq<Item>,
                    leafChildren: map<Path, real>, liveGroups: map<Path, set<Group>>)
    returns (more: seq<Item>)
    requires Above(w, parents) && [] !in w.after.usage && ChargedFor(w, leafChildren, w.after.leaves)
    requires forall parent :: GroupsAt(liveGroups, parent) == LiveGroups(classify, w.after.leaves, parent)
    requires Hold(items, shares)
    ensures Hold(more, shares + EndedItems(w, classify, w.after.leaves + parents, parents))
    ensures Total(more) == Total(items) + EndedShares(w, w.after.leaves + parents, parents)
  {
    hide *;
    var leaves, children := w.after.leaves, leafChildren;
    more := items;
    assert leaves + parents[..0] == leaves;
    NoneEnded(w, classify, leaves + parents, parents);
    assert shares + [] == shares;
    for k := 0 to |parents|
      invariant Hold(more, shares + EndedItems(w, classify, leaves + parents, parents[..k]))
      invariant Total(more) == Total(items) + EndedShares(w, leaves + parents, parents[..k])
      invariant ChargedFor(w, children, leaves + parents[..k])
    {
      var parent := parents[k];
      ChildrenComplete(w, children, parents, k);
      EndedMore(w, classify, leaves + parents, parents, k);
      assert leaves + parents[..k + 1] == leaves + parents[..k] + [parent];
      ghost var all := shares + EndedItems(w, classify, leaves + parents, parents[..k]);
      var holder, time := EndedHolder(classify, parent, GroupsAt(liveGroups, parent)),
          Grown(w, parent) - Get(children, parent);
      more := Add(more, all, holder, time);
      assert shares + (EndedItems(w, classify, leaves + parents, parents[..k]) + [Item(holder, Positive(time))])
          == all + [Item(holder, Positive(time))];
      ChargeOne(w, children, leaves + parents[..k], parent);
      children := Charged(w, children, parent);
    }
    assert parents[..|parents|] == parents;
  }

  lemma NoneEnded(w: Window, classify: Classifier, paths: seq<Path>, parents: seq<Path>)
    ensures EndedShares(w, paths, parents[..0]) == 0.0 && EndedItems(w, classify, paths, parents[..0]) == []
  {
  }

  lemma EndedMore(w: Window, classify: Classifier, paths: seq<Path>, parents: seq<Path>, k: nat)
    requires k < |parents|
    ensures var holder := EndedHolder(classify, parents[k], LiveGroups(classify, w.after.leaves, parents[k]));
            EndedItems(w, classify, paths, parents[..k + 1]) == EndedItems(w, classify, paths, parents[..k])
            + [Item(holder, Positive(Grown(w, parents[k]) - Under(ChildParts(w, paths), parents[k])))]
    ensures EndedShares(w, paths, parents[..k + 1]) ==
            EndedShares(w, paths, parents[..k]) +
                Positive(Grown(w, parents[k]) - Under(ChildParts(w, paths), parents[k]))
  {
    hide Positive, Grown, Under, ChildParts, EndedHolder, LiveGroups;
    assert parents[..k + 1][..k] == parents[..k];
  }

  /** No cgroup after a parent in the order is its child. */
  lemma ChildrenComplete(w: Window, children: map<Path, real>, parents: seq<Path>, k: nat)
    requires Above(w, parents) && [] !in w.after.usage && k < |parents| &&
        ChargedFor(w, children, w.after.leaves + parents[..k])
    ensures Get(children, parents[k]) == Under(ChildParts(w, w.after.leaves + parents), parents[k])
  {
    hide Under, Grown;
    var leaves, parent := w.after.leaves, parents[k];
    assert parent in parents;
    forall i | 0 <= i < |parents[k..]|
      ensures Parent(parents[k..][i]) != parent
    {
      assert parents[k..][i] == parents[k + i] && parents[k + i] in parents;
    }
    UnderWithout(w, leaves + parents[..k], parents[k..], parent);
    assert leaves + parents[..k] + parents[k..] == leaves + parents;
  }

  /* ---- The remainder, the scale and the groups ---- */

  datatype Shown = Shown(id: Group, cores: real)

  /** JavaScript's rounding to the nearest integer, halves up. */
  function Round(x: real): int {
    (x + 0.5).Floor
  }

  /** Cores over the window, before rounding. */
  function Exact(w: Window, scale: real, time: real): real
    requires w.after.at > w.before.at
  {
    time * scale / Seconds(w)
  }

  /** Cores to two decimals. */
  function ToCores(w: Window, scale: real, time: real): real
    requires w.after.at > w.before.at
  {
    Round(100.0 * Exact(w, scale, time)) as real / 100.0
  }

  /** The remainder goes to the kernel's item, or every item shrinks by one share: exactly the busy time is left. */
  method Balance(items: seq<Item>, ghost shares: seq<Item>, busy: real) returns (all: seq<Item>, scale: real)
    requires busy >= 0.0 && Hold(items, shares)
    ensures Hold(all, shares + [Item(KERNEL, Positive(busy - Total(items)))])
    ensures Total(all) * scale == busy && 0.0 <= scale <= 1.0
    ensures Total(items) <= busy ==> scale == 1.0
    ensures Total(all) == Total(items) + Positive(busy - Total(items))
  {
    hide Where;
    TotalPositive(items);
    all := Add(items, shares, KERNEL, busy - Total(items));
    var total := Total(all);
    scale := if total > busy && total > 0.0 then busy / total else 1.0;
    if total > busy {
      Shrunk(busy, total);
    }
  }

  lemma Shrunk(busy: real, total: real)
    requires 0.0 <= busy < total
    ensures total * (busy / total) == busy && 0.0 <= busy / total <= 1.0
  {
    var share := busy / total;
    assert share * total == busy;
    assert share > 1.0 ==> share * total > total;
    assert share < 0.0 ==> share * total < 0.0;
  }

  lemma {:induction false} TotalPositive(items: seq<Item>)
    requires forall k :: 0 <= k < |items| ==> items[k].seconds > 0.0
    ensures Total(items) >= 0.0
  {
    if items != [] {
      TotalPositive(items[..|items| - 1]);
    }
  }

  function InGroup(id: Group): Holder -> bool {
    (holder: Holder) => holder.id == id
  }

  lemma OfNoGroup(items: seq<Item>, id: Group)
    requires forall k :: 0 <= k < |items| ==> items[k].holder.id != id
    ensures Where(items, InGroup(id)) == 0.0
  {
    NoneWhere(items, InGroup(id));
  }

  /** Groups that hold the time of some items: each group once, with all of its items'. */
  ghost predicate Grouped(groups: seq<Item>, items: seq<Item>) {
    && Total(groups) == Total(items)
    && (forall i, j :: 0 <= i < j < |groups| ==> groups[i].holder.id != groups[j].holder.id)
    && (forall k :: 0 <= k < |groups| ==>
        groups[k].seconds > 0.0 && groups[k].seconds == Where(items, InGroup(groups[k].holder.id)))
    && (forall k :: 0 <= k < |items| ==> HasGroup(groups, items[k].holder.id))
  }

  ghost predicate HasGroup(groups: seq<Item>, id: Group) {
    exists g :: 0 <= g < |groups| && groups[g].holder.id == id
  }

  lemma GroupMore(groups: seq<Item>, items: seq<Item>, item: Item, g: nat, grown: seq<Item>)
    requires Grouped(groups, items) && item.seconds > 0.0 && g <= |groups|
    requires if g < |groups|
             then && groups[g].holder.id == item.holder.id
                  && grown == groups[g := groups[g].(seconds := groups[g].seconds + item.seconds)]
             else && !HasGroup(groups, item.holder.id)
                  && grown == groups + [Item(Holder(item.holder.id, ""), item.seconds)]
    ensures Grouped(grown, items + [item])
  {
    hide Where, InGroup, Total;
    forall id
      ensures Where(items + [item], InGroup(id)) ==
          Where(items, InGroup(id)) + (if item.holder.id == id then item.seconds else 0.0)
    {
      WhereSnoc(items, item, InGroup(id));
      InGroupMeans(id, item.holder);
    }
    TotalSnoc(items, item);
    if g < |groups| {
      TotalUpdated(groups, g, grown[g]);
    } else {
      TotalSnoc(groups, grown[g]);
      forall k | 0 <= k < |items|
        ensures items[k].holder.id != item.holder.id
      {
        assert HasGroup(groups, items[k].holder.id);
      }
      OfNoGroup(items, item.holder.id);
    }
    assert grown[g].holder.id == item.holder.id;
    forall k | 0 <= k < |items|
      ensures HasGroup(grown, items[k].holder.id)
    {
      var i :| 0 <= i < |groups| && groups[i].holder.id == items[k].holder.id;
      assert grown[i].holder.id == groups[i].holder.id;
    }
  }

  lemma InGroupMeans(id: Group, holder: Holder)
    ensures InGroup(id)(holder) <==> holder.id == id
  {
  }

  lemma TotalSnoc(items: seq<Item>, item: Item)
    ensures Total(items + [item]) == Total(items) + item.seconds
  {
    assert (items + [item])[..|items|] == items;
  }

  /** One entry per group, in order of first appearance, with its items' time. */
  method ByGroup(items: seq<Item>) returns (groups: seq<Item>)
    requires forall k :: 0 <= k < |items| ==> items[k].seconds > 0.0
    ensures Grouped(groups, items)
  {
    groups := [];
    for k := 0 to |items|
      invariant Grouped(groups, items[..k])
    {
      hide Grouped;
      var g := 0;
      while g < |groups| && groups[g].holder.id != items[k].holder.id
        invariant 0 <= g <= |groups| && forall i :: 0 <= i < g ==> groups[i].holder.id != items[k].holder.id
      {
        g := g + 1;
      }
      ghost var was := groups;
      if g < |groups| {
        groups := groups[g := groups[g].(seconds := groups[g].seconds + items[k].seconds)];
      } else {
        groups := groups + [Item(Holder(items[k].holder.id, ""), items[k].seconds)];
      }
      GroupMore(was, items[..k], items[k], g, groups);
      assert items[..k + 1] == items[..k] + [items[k]];
    }
    assert items[..|items|] == items;
  }

  function ShownTotal(shown: seq<Shown>): real {
    if shown == [] then 0.0 else ShownTotal(shown[..|shown| - 1]) + shown[|shown| - 1].cores
  }

  lemma RoundedOff(x: real)
    requires x >= 0.0
    ensures var r := Round(100.0 * x) as real / 100.0; -0.005 < r - x <= 0.005 && r >= 0.0
  {
    var y := 100.0 * x + 0.5;
    assert y - 1.0 < y.Floor as real <= y;
  }

  /** Each group that rounds to more than nothing, with its rounded cores. */
  function Displayed(w: Window, scale: real, groups: seq<Item>): seq<Shown>
    requires w.after.at > w.before.at
  {
    if groups == [] then []
    else
      var k := |groups| - 1;
      var cores := ToCores(w, scale, groups[k].seconds);
      Displayed(w, scale, groups[..k]) + (if cores > 0.0 then [Shown(groups[k].holder.id, cores)] else [])
  }

  method Show(w: Window, groups: seq<Item>, scale: real) returns (shown: seq<Shown>)
    requires w.after.at > w.before.at
    ensures shown == Displayed(w, scale, groups)
  {
    shown := [];
    for k := 0 to |groups|
      invariant shown == Displayed(w, scale, groups[..k])
    {
      assert groups[..k + 1][..k] == groups[..k];
      var cores := ToCores(w, scale, groups[k].seconds);
      if cores > 0.0 {
        shown := shown + [Shown(groups[k].holder.id, cores)];
      }
    }
    assert groups[..|groups|] == groups;
  }

  /** Rounding loses at most half a hundredth of a core per group, and shows no group at nothing. */
  lemma {:induction false} RoundingLoses(w: Window, scale: real, groups: seq<Item>)
    requires w.after.at > w.before.at && scale >= 0.0 && forall k :: 0 <= k < |groups| ==> groups[k].seconds > 0.0
    ensures var shown := Displayed(w, scale, groups);
            && -0.005 * |groups| as real <= ShownTotal(shown) - Exact(w, scale, Total(groups)) <=
                0.005 * |groups| as real
            && |shown| <= |groups| && forall k :: 0 <= k < |shown| ==> shown[k].cores > 0.0
  {
    hide Exact, Round, Total, ShownTotal, Seconds;
    if groups == [] {
      Nothing(w, scale, groups);
      assert groups[..0] == groups;
    } else {
      var k := |groups| - 1;
      RoundingLoses(w, scale, groups[..k]);
      OneGroupMore(w, scale, groups, k);
      assert groups[..k + 1] == groups;
      RoundedOff(Exact(w, scale, groups[k].seconds));
      var before, cores := Displayed(w, scale, groups[..k]), ToCores(w, scale, groups[k].seconds);
      OneShownMore(before, Shown(groups[k].holder.id, cores));
      assert |groups[..k]| == k && |groups| as real == k as real + 1.0;
      var shown := Displayed(w, scale, groups);
      assert shown == before + (if cores > 0.0 then [Shown(groups[k].holder.id, cores)] else []);
      assert ShownTotal(shown) == ShownTotal(before) + cores by {
        if cores <= 0.0 {
          assert shown == before;
        }
      }
    }
  }

  lemma Nothing(w: Window, scale: real, groups: seq<Item>)
    requires w.after.at > w.before.at
    ensures Exact(w, scale, Total(groups[..0])) == 0.0 && ShownTotal([]) == 0.0
  {
  }

  lemma OneShownMore(shown: seq<Shown>, one: Shown)
    ensures ShownTotal(shown + [one]) == ShownTotal(shown) + one.cores
  {
    assert (shown + [one])[..|shown|] == shown;
  }

  lemma OneGroupMore(w: Window, scale: real, groups: seq<Item>, k: nat)
    requires w.after.at > w.before.at && scale >= 0.0 && k < |groups| && groups[k].seconds >= 0.0
    ensures Exact(w, scale, Total(groups[..k + 1])) ==
        Exact(w, scale, Total(groups[..k])) + Exact(w, scale, groups[k].seconds)
    ensures Exact(w, scale, groups[k].seconds) >= 0.0
  {
    assert groups[..k + 1][..k] == groups[..k];
    var a, b := Total(groups[..k]), groups[k].seconds;
    assert (a + b) * scale == a * scale + b * scale;
    assert b * scale >= 0.0;
  }

  /** What is shown: each group once, with all the time of its holders rounded, and no group that rounds to nothing. */
  ghost predicate Exactly(w: Window, scale: real, items: seq<Item>, shown: seq<Shown>)
    requires w.after.at > w.before.at
  {
    && (forall k :: 0 <= k < |shown| ==>
        shown[k].cores > 0.0 && shown[k].cores == ToCores(w, scale, Where(items, InGroup(shown[k].id))))
    && OnceEach(shown)
    && (forall k :: 0 <= k < |items| && ToCores(w, scale, Where(items, InGroup(items[k].holder.id))) > 0.0 ==>
          exists j :: 0 <= j < |shown| && shown[j].id == items[k].holder.id)
  }

  ghost predicate OnceEach(shown: seq<Shown>) {
    forall i, j :: 0 <= i < j < |shown| ==> shown[i].id != shown[j].id
  }

  ghost predicate ShownOf(w: Window, scale: real, groups: seq<Item>, one: Shown)
    requires w.after.at > w.before.at
  {
    exists g :: 0 <= g < |groups| && one == Shown(groups[g].holder.id, ToCores(w, scale, groups[g].seconds)) &&
        one.cores > 0.0
  }

  /**
   * What is displayed comes from the groups, each group at most once, and none that rounds above nothing is left out.
   */
  lemma {:induction false} DisplayedFrom(w: Window, scale: real, groups: seq<Item>)
    requires w.after.at > w.before.at
    requires forall i, j :: 0 <= i < j < |groups| ==> groups[i].holder.id != groups[j].holder.id
    ensures forall one :: one in Displayed(w, scale, groups) ==> ShownOf(w, scale, groups, one)
    ensures OnceEach(Displayed(w, scale, groups))
    ensures forall g :: 0 <= g < |groups| && ToCores(w, scale, groups[g].seconds) > 0.0 ==>
              Shown(groups[g].holder.id, ToCores(w, scale, groups[g].seconds)) in Displayed(w, scale, groups)
  {
    hide ToCores;
    if groups != [] {
      var k := |groups| - 1;
      DisplayedFrom(w, scale, groups[..k]);
      var before, shown := Displayed(w, scale, groups[..k]), Displayed(w, scale, groups);
      forall i | 0 <= i < |before|
        ensures ShownOf(w, scale, groups, before[i]) && before[i].id != groups[k].holder.id
      {
        assert before[i] in before;
        var g :| 0 <= g < k && before[i] == Shown(groups[..k][g].holder.id, ToCores(w, scale, groups[..k][g].seconds))
                 && before[i].cores > 0.0;
        assert groups[g] == groups[..k][g];
      }
      assert forall i :: 0 <= i < |before| ==> shown[i] == before[i];
      forall i, j | 0 <= i < j < |shown|
        ensures shown[i].id != shown[j].id
      {
        if j < |before| {
          assert before[i].id != before[j].id;
        } else {
          assert shown[j].id == groups[k].holder.id && shown[i] == before[i];
        }
      }
      forall one | one in shown
        ensures ShownOf(w, scale, groups, one)
      {
        if one in before {
          var i :| 0 <= i < |before| && before[i] == one;
          assert ShownOf(w, scale, groups, before[i]);
        } else {
          assert one == Shown(groups[k].holder.id, ToCores(w, scale, groups[k].seconds)) && one.cores > 0.0;
        }
      }
      forall g | 0 <= g < |groups| && ToCores(w, scale, groups[g].seconds) > 0.0
        ensures Shown(groups[g].holder.id, ToCores(w, scale, groups[g].seconds)) in shown
      {
        if g < k {
          assert groups[..k][g] == groups[g];
        }
      }
    }
  }

  lemma ShownExactly(w: Window, scale: real, items: seq<Item>, groups: seq<Item>)
    requires w.after.at > w.before.at && Grouped(groups, items)
    ensures Exactly(w, scale, items, Displayed(w, scale, groups))
  {
    hide ToCores, Where, Displayed, InGroup, Total;
    DisplayedFrom(w, scale, groups);
    var shown := Displayed(w, scale, groups);
    forall k | 0 <= k < |shown|
      ensures shown[k].cores > 0.0 && shown[k].cores == ToCores(w, scale, Where(items, InGroup(shown[k].id)))
    {
      assert shown[k] in shown;
    }
    forall k | 0 <= k < |items| && ToCores(w, scale, Where(items, InGroup(items[k].holder.id))) > 0.0
      ensures exists j :: 0 <= j < |shown| && shown[j].id == items[k].holder.id
    {
      assert HasGroup(groups, items[k].holder.id);
      var g :| 0 <= g < |groups| && groups[g].holder.id == items[k].holder.id;
      assert groups[g].seconds == Where(items, InGroup(groups[g].holder.id));
      assert ToCores(w, scale, groups[g].seconds) > 0.0;
      var j :| 0 <= j < |shown| && shown[j] == Shown(groups[g].holder.id, ToCores(w, scale, groups[g].seconds));
    }
  }

  /**
   * The whole count. Each item holds all the time that goes to its holder, and each group shown all of its items. The
   * items, rescaled, add up to the busy cores over the window exactly; the groups shown miss it by at most half a
   * hundredth of a core for each group, shown or rounded away.
   */
  method CountGroups(w: Window, classify: Classifier, parents: seq<Path>, busyCores: real)
    returns (items: seq<Item>, scale: real, groups: nat, shown: Option<seq<Shown>>)
    requires Above(w, parents) && [] !in w.after.usage && busyCores >= 0.0
    ensures shown.Some? <==> w.after.at > w.before.at
    ensures shown.Some? ==>
              Hold(items, Shares(w, classify, parents) +
                  [Item(KERNEL, Positive(busyCores * Seconds(w) - Counted(w, classify, parents)))])
    ensures shown.Some? ==> Exactly(w, scale, items, shown.value)
    ensures shown.Some? ==> Total(items) * scale == busyCores * Seconds(w)
    ensures shown.Some? ==>
        Total(items) == Counted(w, classify, parents) + Positive(busyCores * Seconds(w) - Counted(w, classify, parents))
    ensures shown.Some? ==> -0.005 * groups as real <= ShownTotal(shown.value) - busyCores <= 0.005 * groups as real
    ensures shown.Some? ==> |shown.value| <= groups && forall k :: 0 <= k < |shown.value| ==> shown.value[k].cores > 0.0
  {
    hide *;
    if w.after.at <= w.before.at {
      return [], 1.0, 0, None;
    }
    var procs, live := CountProcs(w, classify);
    ghost var ofProcs, ofLeaves := ProcShares(w, classify, w.after.procs), LeafItems(w, classify, w.after.leaves);
    var leaves, children, liveGroups := CountLeaves(w, classify, procs, ofProcs, live);
    var ended := CountEnded(w, classify, parents, leaves, ofProcs + ofLeaves, children, liveGroups);
    CountedIs(w, classify, parents);
    var busy := busyCores * Seconds(w);
    Product(w, busyCores);
    items, scale := Balance(ended, Shares(w, classify, parents), busy);
    HoldPositive(items, Shares(w, classify, parents) + [Item(KERNEL, Positive(busy - Total(ended)))]);
    var byGroup := ByGroup(items);
    GroupedParts(byGroup, items);
    groups := |byGroup|;
    var list := Show(w, byGroup, scale);
    RoundingLoses(w, scale, byGroup);
    ExactIs(w, scale, Total(byGroup));
    ShownExactly(w, scale, items, byGroup);
    shown := Some(list);
  }

  lemma GroupedParts(groups: seq<Item>, items: seq<Item>)
    requires Grouped(groups, items)
    ensures Total(groups) == Total(items) && forall k :: 0 <= k < |groups| ==> groups[k].seconds > 0.0
  {
  }

  lemma HoldPositive(items: seq<Item>, shares: seq<Item>)
    requires Hold(items, shares)
    ensures forall k :: 0 <= k < |items| ==> items[k].seconds > 0.0
  {
  }

  lemma CountedIs(w: Window, classify: Classifier, parents: seq<Path>)
    ensures Shares(w, classify, parents) ==
        ProcShares(w, classify, w.after.procs) + LeafItems(w, classify, w.after.leaves)
            + EndedItems(w, classify, w.after.leaves + parents, parents)
    ensures Counted(w, classify, parents) ==
            Whole(ProcParts(w, w.after.procs)) + LeafShares(w, classify, w.after.leaves) +
                EndedShares(w, w.after.leaves + parents, parents)
  {
  }

  lemma ExactIs(w: Window, scale: real, time: real)
    requires w.after.at > w.before.at
    ensures Exact(w, scale, time) == time * scale / Seconds(w)
  {
  }

  lemma Product(w: Window, cores: real)
    requires cores >= 0.0 && w.after.at > w.before.at
    ensures Seconds(w) > 0.0 && cores * Seconds(w) >= 0.0 && cores * Seconds(w) / Seconds(w) == cores
  {
  }

  /* ---- Which cgroups are read ---- */

  ghost predicate IsAbove(path: Path, leaves: seq<Path>) {
    exists i, n :: 0 <= i < |leaves| && 0 < n < |leaves[i]| && leaves[i][..n] == path
  }

  /** Each leaf's ancestors below the root, each once. */
  method ParentsOf(leaves: seq<Path>) returns (parents: seq<Path>)
    ensures Distinct(parents) && forall path :: path in parents <==> IsAbove(path, leaves)
  {
    parents := [];
    for i := 0 to |leaves|
      invariant Distinct(parents) && forall path :: path in parents <==> IsAbove(path, leaves[..i])
    {
      var leaf := leaves[i];
      var n := 1;
      while n < |leaf|
        invariant 1 <= n && (|leaf| > 0 ==> n <= |leaf|) && Distinct(parents)
        invariant forall path :: path in parents <==>
            IsAbove(path, leaves[..i]) || exists m :: 0 < m < n && m <= |leaf| && leaf[..m] == path
      {
        if leaf[..n] !in parents {
          parents := parents + [leaf[..n]];
        }
        n := n + 1;
      }
      forall path
        ensures IsAbove(path, leaves[..i + 1]) <==>
            IsAbove(path, leaves[..i]) || exists m :: 0 < m < |leaf| && leaf[..m] == path
      {
        AboveOneMore(leaves, i, path);
      }
    }
    assert leaves[..|leaves|] == leaves;
  }

  lemma AboveOneMore(leaves: seq<Path>, i: nat, path: Path)
    requires i < |leaves|
    ensures IsAbove(path, leaves[..i + 1]) <==>
        IsAbove(path, leaves[..i]) || exists m :: 0 < m < |leaves[i]| && leaves[i][..m] == path
  {
    if IsAbove(path, leaves[..i + 1]) {
      var k, n :| 0 <= k < i + 1 && 0 < n < |leaves[..i + 1][k]| && leaves[..i + 1][k][..n] == path;
      assert k < i ==> leaves[..i][k] == leaves[..i + 1][k];
    }
    if IsAbove(path, leaves[..i]) {
      var k, n :| 0 <= k < i && 0 < n < |leaves[..i][k]| && leaves[..i][k][..n] == path;
      assert leaves[..i + 1][k] == leaves[..i][k];
    }
    if exists m :: 0 < m < |leaves[i]| && leaves[i][..m] == path {
      var m :| 0 < m < |leaves[i]| && leaves[i][..m] == path;
      assert leaves[..i + 1][i] == leaves[i];
    }
  }

  /** When all of them were read, and no leaf is above another, nothing in the reading lacks its parent. */
  lemma AllAncestorsRead(w: Window, parents: seq<Path>)
    requires Above(w, parents) && [] !in w.after.leaves
    requires forall path :: path in parents <==> IsAbove(path, w.after.leaves)
    ensures AncestorsRead(w.after.leaves + parents, parents)
  {
    var leaves := w.after.leaves;
    forall q | q in leaves + parents
      ensures q != [] && (|q| == 1 || Parent(q) in parents)
    {
      if q in leaves {
        var i :| 0 <= i < |leaves| && leaves[i] == q;
        if |q| > 1 {
          assert leaves[i][..|q| - 1] == Parent(q);
          assert IsAbove(Parent(q), leaves);
        }
      } else {
        var i, n :| 0 <= i < |leaves| && 0 < n < |leaves[i]| && leaves[i][..n] == q;
        if n > 1 {
          assert leaves[i][..n - 1] == Parent(q);
          assert IsAbove(Parent(q), leaves);
        }
      }
    }
  }

  /* ---- What each share is, by the two readings ---- */

  /** What a cgroup used in the window, in seconds: its counter reads microseconds. */
  ghost predicate Used(w: Window, path: Path, time: real) {
    if path !in w.after.usage then time == 0.0
    else
      var end := w.after.usage[path];
      if path in w.before.usage && w.before.usage[path] <= end
      then w.before.usage[path] as real + 1000000.0 * time == end as real
      else if path in w.before.usage || end as real <= 1000000.0 * Seconds(w) * w.cores
      then 1000000.0 * time == end as real
      else time == 0.0
  }

  ghost predicate PidsOnce(procs: seq<Proc>) {
    forall i, j :: 0 <= i < j < |procs| ==> procs[i].pid != procs[j].pid
  }

  ghost predicate SameProcess(a: Proc, b: Proc) {
    a.pid == b.pid && a.start == b.start
  }

  /** What a process ran in the window, in seconds: its counter reads ticks, a hundred a second. */
  ghost predicate Ran(w: Window, proc: Proc, time: real) {
    if exists i :: 0 <= i < |w.before.procs| && SameProcess(w.before.procs[i], proc)
    then forall i :: 0 <= i < |w.before.procs| && SameProcess(w.before.procs[i], proc) ==>
           if w.before.procs[i].ticks <= proc.ticks
           then w.before.procs[i].ticks as real + 100.0 * time == proc.ticks as real
           else time == 0.0
    else 100.0 * time == proc.ticks as real
  }

  lemma {:induction false} WasIs(procs: seq<Proc>, pid: nat)
    requires PidsOnce(procs)
    ensures match Was(procs, pid)
            case Some(was) => was in procs && was.pid == pid && forall i :: 0 <= i < |procs| && procs[i].pid == pid ==>
                procs[i] == was
            case None => forall i :: 0 <= i < |procs| ==> procs[i].pid != pid
  {
    if procs != [] && procs[|procs| - 1].pid != pid {
      WasIs(procs[..|procs| - 1], pid);
    }
  }

  lemma GrownIs(w: Window, path: Path)
    ensures Used(w, path, Grown(w, path))
  {
  }

  lemma ProcTimeIs(w: Window, proc: Proc)
    requires PidsOnce(w.before.procs)
    ensures Ran(w, proc, ProcTime(w, proc))
  {
    WasIs(w.before.procs, proc.pid);
  }

  /**
   * The windows between three readings: a cgroup whose counter never goes back used in both what it used in the whole.
   */
  lemma UsedAddsUp(a: Snapshot, b: Snapshot, c: Snapshot, cores: real, path: Path, first: real, second: real, all: real)
    requires Used(Window(a, b, cores), path, first) && Used(Window(b, c, cores), path, second)
    requires Used(Window(a, c, cores), path, all)
    requires path in b.usage && path in c.usage && b.usage[path] <= c.usage[path]
    requires if path in a.usage then a.usage[path] <= b.usage[path]
             else b.usage[path] as real <= 1000.0 * (b.at - a.at) * cores
                  && c.usage[path] as real <= 1000.0 * (c.at - a.at) * cores
    ensures first + second == all
  {
  }

  /** So does a process, whether it lived at the first reading or started later. */
  lemma RanAddsUp(a: Snapshot, b: Snapshot, c: Snapshot, cores: real, mid: Proc, late: Proc, first: real, second: real,
      all: real)
    requires PidsOnce(a.procs) && PidsOnce(b.procs) && mid in b.procs && SameProcess(mid, late)
    requires Ran(Window(a, b, cores), mid, first) && Ran(Window(b, c, cores), late, second)
    requires Ran(Window(a, c, cores), late, all)
    requires mid.ticks <= late.ticks && forall was :: was in a.procs && SameProcess(was, mid) ==> was.ticks <= mid.ticks
    ensures first + second == all
  {
  }

  /** The time of the processes of one leaf. */
  function RanIn(procs: seq<Proc>, leaf: Path, ran: Proc -> real): real {
    if procs == [] then 0.0
    else
      var k := |procs| - 1;
      RanIn(procs[..k], leaf, ran) + if procs[k].leaf == leaf then ran(procs[k]) else 0.0
  }

  /** The time of the cgroups right below one. */
  function UsedBelow(paths: seq<Path>, parent: Path, used: Path -> real): real {
    if paths == [] then 0.0
    else
      var k := |paths| - 1;
      UsedBelow(paths[..k], parent, used) + if Parent(paths[k]) == parent then used(paths[k]) else 0.0
  }

  ghost predicate Digits(text: string) {
    text != "" && forall k :: 0 <= k < |text| ==> '0' <= text[k] <= '9'
  }

  /** `user.slice/user-<uid>.slice`, or below it `user@<uid>.service`, or below that `app.slice`. */
  ghost predicate IsJobsPlace(parent: Path) {
    exists uid: string :: Digits(uid) && InSliceOf(parent, uid)
  }

  ghost predicate InSliceOf(parent: Path, uid: string) {
    var slice := ["user.slice", "user-" + uid + ".slice"];
    parent == slice ||
    (exists manager: string :: Digits(manager) && InManager(parent, slice, "user@" + manager + ".service"))
  }

  ghost predicate InManager(parent: Path, slice: Path, service: string) {
    parent == slice + [service] || parent == slice + [service, "app.slice"]
  }

  lemma NumberedIs(part: string, lead: string, end: string)
    ensures Numbered(part, lead, end) <==> exists uid: string :: Digits(uid) && part == lead + uid + end
  {
    if Numbered(part, lead, end) {
      var uid := part[|lead|..|part| - |end|];
      assert Digits(uid) && part == lead + uid + end;
    }
    if uid: string :| Digits(uid) && part == lead + uid + end {
      assert part[..|lead|] == lead && part[|part| - |end|..] == end;
      assert part[|lead|..|part| - |end|] == uid;
      forall k | |lead| <= k < |part| - |end| ensures '0' <= part[k] <= '9' {
        assert part[k] == uid[k - |lead|];
      }
    }
  }

  lemma HoldsJobsExactly(parent: Path)
    ensures HoldsJobs(parent) <==> IsJobsPlace(parent)
  {
    hide Numbered, Digits;
    if HoldsJobs(parent) {
      NumberedIs(parent[1], "user-", ".slice");
      var uid: string :| Digits(uid) && parent[1] == "user-" + uid + ".slice";
      if |parent| > 2 {
        NumberedIs(parent[2], "user@", ".service");
        var manager: string :| Digits(manager) && parent[2] == "user@" + manager + ".service";
        assert InManager(parent, ["user.slice", parent[1]], parent[2]);
      }
      assert InSliceOf(parent, uid);
    }
    if IsJobsPlace(parent) {
      var uid: string :| Digits(uid) && InSliceOf(parent, uid);
      NumberedIs("user-" + uid + ".slice", "user-", ".slice");
      if |parent| > 2 {
        var manager: string :| Digits(manager) &&
          InManager(parent, ["user.slice", "user-" + uid + ".slice"], "user@" + manager + ".service");
        NumberedIs("user@" + manager + ".service", "user@", ".service");
      }
    }
  }

  /** Dashes as systemd writes them in a unit's name. */
  function Escaped(name: string): string {
    if name == "" then ""
    else (if name[0] == '-' then "\\x2d" else [name[0]]) + Escaped(name[1..])
  }

  /** The label shows the name the unit was given. */
  lemma {:induction false} UnescapedIs(name: string)
    requires '\\' !in name
    ensures Unescaped(Escaped(name)) == name
  {
    if name != "" {
      UnescapedIs(name[1..]);
      var rest := Escaped(name[1..]);
      if name[0] == '-' {
        assert ("\\x2d" + rest)[..4] == "\\x2d" && ("\\x2d" + rest)[4..] == rest;
      } else {
        assert ([name[0]] + rest)[0] == name[0] && ([name[0]] + rest)[1..] == rest;
      }
      assert [name[0]] + name[1..] == name;
    }
  }

  /** The group of a leaf: a by-process leaf counts as jobs. */
  ghost predicate LeafIn(classify: Classifier, leaf: Path, g: Group) {
    match classify.leafHolder(leaf)
    case ByProcess => g == "jobs"
    case Held(holder) => g == holder.id
  }

  /** A parent has live leaves, and all are in one group. */
  ghost predicate AllLiveIn(classify: Classifier, leaves: seq<Path>, parent: Path, g: Group) {
    && (exists k :: 0 <= k < |leaves| && Parent(leaves[k]) == parent)
    && (forall k :: 0 <= k < |leaves| && Parent(leaves[k]) == parent ==> LeafIn(classify, leaves[k], g))
  }

  /**
   * Whose the units are that ended under a parent: jobs' in the users' slices, else its live leaves', else its place's.
   */
  ghost predicate EndedIn(classify: Classifier, leaves: seq<Path>, parent: Path, g: Group) {
    if IsJobsPlace(parent) then g == "jobs"
    else if exists one :: AllLiveIn(classify, leaves, parent, one) then AllLiveIn(classify, leaves, parent, g)
    else LeafIn(classify, parent + [""], g)
  }

  lemma {:induction false} LiveGroupsAre(classify: Classifier, leaves: seq<Path>, parent: Path)
    ensures forall g :: g in LiveGroups(classify, leaves, parent) <==>
              exists k :: 0 <= k < |leaves| && Parent(leaves[k]) == parent && LeafIn(classify, leaves[k], g)
  {
    if leaves != [] {
      var n := |leaves| - 1;
      LiveGroupsAre(classify, leaves[..n], parent);
      forall g
        ensures g in LiveGroups(classify, leaves, parent) <==>
                  exists k :: 0 <= k < |leaves| && Parent(leaves[k]) == parent && LeafIn(classify, leaves[k], g)
      {
        if k :| 0 <= k < n && Parent(leaves[k]) == parent && LeafIn(classify, leaves[k], g) {
          assert leaves[..n][k] == leaves[k];
        }
        if k :| 0 <= k < n && Parent(leaves[..n][k]) == parent && LeafIn(classify, leaves[..n][k], g) {
          assert leaves[..n][k] == leaves[k];
        }
      }
    }
  }

  lemma OneGroup(classify: Classifier, leaves: seq<Path>, parent: Path, g: Group)
    ensures AllLiveIn(classify, leaves, parent, g) <==> LiveGroups(classify, leaves, parent) == {g}
  {
    hide LiveGroups, LeafIn, Parent;
    LiveGroupsAre(classify, leaves, parent);
    var live := LiveGroups(classify, leaves, parent);
    forall k | 0 <= k < |leaves| && Parent(leaves[k]) == parent
      ensures LeafKeeper(classify, leaves[k]).id in live
      ensures forall one :: LeafIn(classify, leaves[k], one) <==> one == LeafKeeper(classify, leaves[k]).id
    {
      LeafInOne(classify, leaves[k]);
    }
    if AllLiveIn(classify, leaves, parent, g) {
      forall one ensures one in live <==> one == g {
      }
    }
    if live == {g} {
      assert g in live;
    }
  }

  lemma LeafInOne(classify: Classifier, leaf: Path)
    ensures forall one :: LeafIn(classify, leaf, one) <==> one == LeafKeeper(classify, leaf).id
  {
  }

  lemma EndedHolderIs(classify: Classifier, leaves: seq<Path>, parent: Path)
    ensures EndedIn(classify, leaves, parent, EndedHolder(classify, parent, LiveGroups(classify, leaves, parent)).id)
  {
    hide HoldsJobs, IsJobsPlace, LiveGroups, AllLiveIn;
    HoldsJobsExactly(parent);
    var live := LiveGroups(classify, leaves, parent);
    if |live| == 1 {
      OneGroup(classify, leaves, parent, Sole(live));
    } else {
      forall g ensures !AllLiveIn(classify, leaves, parent, g) {
        OneGroup(classify, leaves, parent, g);
      }
    }
  }

  lemma EndedName(classify: Classifier, parent: Path, live: set<Group>)
    ensures EndedHolder(classify, parent, live).name
            == "Units that ended under " + if parent == [] then "" else Unescaped(parent[|parent| - 1])
  {
  }

  /**
   * What the shares of a window's time are, of the readings alone: `used` is what each cgroup used and `ran` what each
   * process ran. A process counts what it ran; a held leaf what it used, and a by-process leaf what it used beyond its
   * processes; a parent what it used beyond the cgroups right below it. What `CountGroups` holds are these.
   */
  lemma SharesAre(w: Window, classify: Classifier, parents: seq<Path>, used: Path -> real, ran: Proc -> real)
    requires PidsOnce(w.before.procs)
    requires (forall path :: Used(w, path, used(path))) && (forall proc :: Ran(w, proc, ran(proc)))
    ensures var shares, p, l := Shares(w, classify, parents), |w.after.procs|, |w.after.leaves|;
            && |shares| == p + l + |parents|
            && (forall i :: 0 <= i < p ==>
                  shares[i] == Item(classify.processHolder(w.after.procs[i]), ran(w.after.procs[i])))
            && (forall i :: 0 <= i < l ==> IsLeafShare(w, classify, w.after.leaves[i], used, ran, shares[p + i]))
            && (forall i :: 0 <= i < |parents| ==>
                  IsEndedShare(w, classify, w.after.leaves + parents, parents[i], used, shares[p + l + i]))
  {
    hide Used, Ran, IsLeafShare, IsEndedShare, ProcShares, LeafItems, EndedItems;
    ProcSharesAre(w, classify, w.after.procs, ran);
    LeafItemsAre(w, classify, w.after.leaves, used, ran);
    EndedItemsAre(w, classify, w.after.leaves + parents, parents, used);
  }

  ghost predicate IsLeafShare(w: Window, classify: Classifier, leaf: Path, used: Path -> real, ran: Proc -> real,
      share: Item) {
    match classify.leafHolder(leaf)
    case Held(holder) => share == Item(holder, used(leaf))
    case ByProcess =>
      && share.holder == Holder("jobs", "Processes that ended in the window")
      && share.seconds == if used(leaf) > RanIn(w.after.procs, leaf, ran)
                          then used(leaf) - RanIn(w.after.procs, leaf, ran) else 0.0
  }

  ghost predicate IsEndedShare(w: Window, classify: Classifier, paths: seq<Path>, parent: Path, used: Path -> real,
      share: Item) {
    && EndedIn(classify, w.after.leaves, parent, share.holder.id)
    && share.holder.name == "Units that ended under " + (if parent == [] then "" else Unescaped(parent[|parent| - 1]))
    && share.seconds == if used(parent) > UsedBelow(paths, parent, used)
                        then used(parent) - UsedBelow(paths, parent, used) else 0.0
  }

  lemma OneUsed(w: Window, path: Path, used: Path -> real)
    requires Used(w, path, used(path))
    ensures used(path) == Grown(w, path)
  {
  }

  lemma OneRan(w: Window, proc: Proc, ran: Proc -> real)
    requires PidsOnce(w.before.procs) && Ran(w, proc, ran(proc))
    ensures ran(proc) == ProcTime(w, proc)
  {
    WasIs(w.before.procs, proc.pid);
  }

  lemma {:induction false} ProcSharesAre(w: Window, classify: Classifier, procs: seq<Proc>, ran: Proc -> real)
    requires PidsOnce(w.before.procs) && forall proc :: Ran(w, proc, ran(proc))
    ensures var shares := ProcShares(w, classify, procs);
            |shares| == |procs| && forall i :: 0 <= i < |procs| ==>
              shares[i] == Item(classify.processHolder(procs[i]), ran(procs[i]))
  {
    hide Ran, ProcTime;
    if procs != [] {
      var k := |procs| - 1;
      ProcSharesAre(w, classify, procs[..k], ran);
      OneRan(w, procs[k], ran);
    }
  }

  lemma {:induction false} RanInIs(w: Window, procs: seq<Proc>, leaf: Path, ran: Proc -> real)
    requires PidsOnce(w.before.procs) && forall proc :: Ran(w, proc, ran(proc))
    ensures Under(ProcParts(w, procs), leaf) == RanIn(procs, leaf, ran)
  {
    hide Ran, ProcTime;
    if procs != [] {
      var k := |procs| - 1;
      RanInIs(w, procs[..k], leaf, ran);
      OneRan(w, procs[k], ran);
      assert ProcParts(w, procs)[..k] == ProcParts(w, procs[..k]);
    }
  }

  lemma {:induction false} UsedBelowIs(w: Window, paths: seq<Path>, parent: Path, used: Path -> real)
    requires forall path :: Used(w, path, used(path))
    ensures Under(ChildParts(w, paths), parent) == UsedBelow(paths, parent, used)
  {
    hide Used, Grown;
    if paths != [] {
      var k := |paths| - 1;
      UsedBelowIs(w, paths[..k], parent, used);
      OneUsed(w, paths[k], used);
      assert ChildParts(w, paths)[..k] == ChildParts(w, paths[..k]);
    }
  }

  lemma {:induction false} LeafItemsAre(w: Window, classify: Classifier, leaves: seq<Path>, used: Path -> real,
      ran: Proc -> real)
    requires PidsOnce(w.before.procs)
    requires (forall path :: Used(w, path, used(path))) && (forall proc :: Ran(w, proc, ran(proc)))
    ensures var shares := LeafItems(w, classify, leaves);
            |shares| == |leaves| && forall i :: 0 <= i < |leaves| ==>
              IsLeafShare(w, classify, leaves[i], used, ran, shares[i])
  {
    hide Used, Ran, Grown, ProcTime, ProcParts;
    if leaves != [] {
      var k := |leaves| - 1;
      LeafItemsAre(w, classify, leaves[..k], used, ran);
      OneUsed(w, leaves[k], used);
      RanInIs(w, w.after.procs, leaves[k], ran);
    }
  }

  lemma {:induction false} EndedItemsAre(w: Window, classify: Classifier, paths: seq<Path>, parents: seq<Path>,
      used: Path -> real)
    requires forall path :: Used(w, path, used(path))
    ensures var shares := EndedItems(w, classify, paths, parents);
            |shares| == |parents| && forall i :: 0 <= i < |parents| ==>
              IsEndedShare(w, classify, paths, parents[i], used, shares[i])
  {
    hide Used, IsEndedShare, EndedHolder, EndedShare, LiveGroups;
    if parents != [] {
      var k := |parents| - 1;
      EndedItemsAre(w, classify, paths, parents[..k], used);
      EndedItemIs(w, classify, paths, parents[k], used);
    }
  }

  lemma EndedItemIs(w: Window, classify: Classifier, paths: seq<Path>, parent: Path, used: Path -> real)
    requires forall path :: Used(w, path, used(path))
    ensures var holder := EndedHolder(classify, parent, LiveGroups(classify, w.after.leaves, parent));
            IsEndedShare(w, classify, paths, parent, used, Item(holder, EndedShare(w, paths, parent)))
  {
    hide Used, Grown, Under, EndedIn, EndedHolder, LiveGroups, ChildParts, Unescaped, UsedBelow;
    OneUsed(w, parent, used);
    UsedBelowIs(w, paths, parent, used);
    EndedHolderIs(classify, w.after.leaves, parent);
    EndedName(classify, parent, LiveGroups(classify, w.after.leaves, parent));
  }
}
