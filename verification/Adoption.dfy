/**
 * The spawn edges a moved chat's subagents lack: reading the ledger, walking the session folders, and naming each child
 * so that names stay unique under a parent.
 */
module Adoption {
  import opened Decimals
  import opened Options

  /** Resolved file paths. */
  type Path = string

  datatype Key = Key(childId: string, child: Path)

  datatype Edge = Edge(parent: Path, depth: nat, name: string, deleted: bool)

  datatype Line =
    | Spawn(key: Key, parent: Path, depth: nat, name: string)
    | Rename(key: Key, name: string)
    | Delete(key: Key)

  type Edges = map<Key, Edge>

  function Apply(edges: Edges, line: Line): Edges {
    match line
    case Spawn(key, parent, depth, name) => edges[key := Edge(parent, depth, name, false)]
    case Rename(key, name) => if key in edges then edges[key := edges[key].(name := name)] else edges
    case Delete(key) => if key in edges then edges[key := edges[key].(deleted := true)] else edges
  }

  function ReadFrom(edges: Edges, lines: seq<Line>): Edges {
    if lines == [] then edges else Apply(ReadFrom(edges, lines[..|lines| - 1]), lines[|lines| - 1])
  }

  predicate Spawns(line: Line, key: Key) {
    line.Spawn? && line.key == key
  }

  predicate GivesName(line: Line, key: Key) {
    !line.Delete? && line.key == key
  }

  ghost predicate LastSpawn(lines: seq<Line>, key: Key, k: nat) {
    k < |lines| && Spawns(lines[k], key) && forall j :: k < j < |lines| ==> !Spawns(lines[j], key)
  }

  ghost predicate LastName(lines: seq<Line>, key: Key, k: nat) {
    k < |lines| && GivesName(lines[k], key) && forall j :: k < j < |lines| ==> !GivesName(lines[j], key)
  }

  ghost predicate DeletedAfter(lines: seq<Line>, key: Key, k: nat) {
    exists j :: k < j < |lines| && lines[j] == Delete(key)
  }

  /**
   * An edge as a ledger tells it: its last spawn, under the last name given, deleted if a delete follows that spawn.
   */
  ghost predicate Tells(lines: seq<Line>, key: Key, edge: Edge) {
    exists s: nat, n: nat ::
      && LastSpawn(lines, key, s) && LastName(lines, key, n)
      && edge == Edge(lines[s].parent, lines[s].depth, lines[n].name, DeletedAfter(lines, key, s))
  }

  /** The edges are those the ledger spawns, each as it tells it. */
  ghost predicate Ledger(lines: seq<Line>, edges: Edges) {
    && (forall key :: key in edges <==> exists k :: 0 <= k < |lines| && Spawns(lines[k], key))
    && (forall key :: key in edges ==> Tells(lines, key, edges[key]))
  }

  /** One more line moves a key's last spawn, its last name or its deletion, as its kind says. */
  lemma TellsOn(lines: seq<Line>, line: Line, key: Key, edge: Edge)
    requires Tells(lines, key, edge)
    ensures Tells(lines + [line], key,
                  if line.key != key then edge
                  else match line
                       case Spawn(_, parent, depth, name) => Edge(parent, depth, name, false)
                       case Rename(_, name) => edge.(name := name)
                       case Delete(_) => edge.(deleted := true))
  {
    var s: nat, n: nat :| LastSpawn(lines, key, s) && LastName(lines, key, n)
      && edge == Edge(lines[s].parent, lines[s].depth, lines[n].name, DeletedAfter(lines, key, s));
    var more, last := lines + [line], |lines|;
    assert more[last] == line && forall k :: 0 <= k < last ==> more[k] == lines[k];
    assert LastSpawn(more, key, if Spawns(line, key) then last else s);
    assert LastName(more, key, if GivesName(line, key) then last else n);
    if line == Delete(key) {
      assert DeletedAfter(more, key, s);
    } else if DeletedAfter(lines, key, s) {
      var d :| s < d < |lines| && lines[d] == Delete(key);
      assert more[d] == Delete(key);
      assert !Spawns(line, key) ==> DeletedAfter(more, key, s);
    }
  }

  lemma TellsNew(lines: seq<Line>, line: Line)
    requires line.Spawn?
    ensures Tells(lines + [line], line.key, Edge(line.parent, line.depth, line.name, false))
  {
    var more, last := lines + [line], |lines|;
    assert LastSpawn(more, line.key, last) && LastName(more, line.key, last);
  }

  lemma LedgerOn(lines: seq<Line>, line: Line, edges: Edges)
    requires Ledger(lines, edges)
    ensures Ledger(lines + [line], Apply(edges, line))
  {
    hide Tells;
    var more, now := lines + [line], Apply(edges, line);
    assert more[|lines|] == line && forall k :: 0 <= k < |lines| ==> more[k] == lines[k];
    forall key
      ensures key in now <==> exists k :: 0 <= k < |more| && Spawns(more[k], key)
    {
      if exists k :: 0 <= k < |lines| && Spawns(lines[k], key) {
        var k :| 0 <= k < |lines| && Spawns(lines[k], key);
        assert Spawns(more[k], key);
      } else if Spawns(line, key) {
        assert Spawns(more[|lines|], key);
      }
    }
    forall key | key in now
      ensures Tells(more, key, now[key])
    {
      if key in edges {
        TellsOn(lines, line, key, edges[key]);
      } else {
        TellsNew(lines, line);
      }
    }
  }

  lemma EmptyLedger()
    ensures Ledger([], map[])
  {
  }

  /**
   * The loop reads the ledger: an edge for each key spawned and no other, with the parent and depth of its last spawn,
   * the last name a spawn or rename gave it, and deleted exactly when a delete comes after that spawn.
   */
  method ReadLedger(lines: seq<Line>) returns (edges: Edges)
    ensures Ledger(lines, edges)
    ensures edges == ReadFrom(map[], lines)
  {
    edges := map[];
    EmptyLedger();
    hide Ledger, Apply;
    for k := 0 to |lines|
      invariant Ledger(lines[..k], edges)
      invariant edges == ReadFrom(map[], lines[..k])
    {
      assert lines[..k + 1][..k] == lines[..k] && lines[..k] + [lines[k]] == lines[..k + 1];
      LedgerOn(lines[..k], lines[k], edges);
      edges := Apply(edges, lines[k]);
    }
    assert lines[..|lines|] == lines;
  }

  /* ---- The folders ---- */

  /**
   * A `sub-*` folder in sorted order: its child's file, none when its record cannot be read, names no one file or is
   * deleted; its id and name, none when the record has none; and the folders inside it.
   */
  datatype Folder = Folder(child: Option<Path>, childId: string, name: Option<string>, subs: seq<Folder>)

  /** A child with no edge, as the walk meets it. */
  datatype Missing = Missing(key: Key, parent: Path, depth: nat, name: string)

  function NameOf(folder: Folder): string {
    if folder.name.Some? && folder.name.value != "" then folder.name.value else folder.childId
  }

  /** All children without an edge under a parent, each parent before its children. */
  function Unknown(known: set<Path>, parent: Path, folders: seq<Folder>, depth: nat): seq<Missing>
    decreases folders
  {
    if folders == [] then []
    else UnknownOf(known, parent, folders[0], depth) + Unknown(known, parent, folders[1..], depth)
  }

  function UnknownOf(known: set<Path>, parent: Path, folder: Folder, depth: nat): seq<Missing>
    decreases folder
  {
    if folder.child.None? then []
    else
      var child := folder.child.value;
      (if child in known then [] else [Missing(Key(folder.childId, child), parent, depth, NameOf(folder))])
      + Unknown(known, child, folder.subs, depth + 1)
  }

  lemma UnknownFrom(known: set<Path>, parent: Path, folders: seq<Folder>, k: nat, depth: nat)
    requires k < |folders|
    ensures Unknown(known, parent, folders[k..], depth) ==
            UnknownOf(known, parent, folders[k], depth) + Unknown(known, parent, folders[k + 1..], depth)
  {
    assert folders[k..][0] == folders[k] && folders[k..][1..] == folders[k + 1..];
  }

  function Known(edges: Edges): set<Path> {
    set key | key in edges :: key.child
  }

  /* ---- Free names ---- */

  const SUFFIX := " before move"

  /** The names tried in turn: the name, with the suffix, then with 2, 3 and so on after it. */
  function Candidate(name: string, k: nat): string {
    if k == 0 then name else if k == 1 then name + SUFFIX else name + SUFFIX + " " + Decimal(k)
  }

  lemma CandidatesDiffer(name: string, j: nat, k: nat)
    requires j < k
    ensures Candidate(name, j) != Candidate(name, k)
  {
    DecimalValue(j);
    DecimalValue(k);
    var base := name + SUFFIX + " ";
    if j >= 2 {
      assert Candidate(name, j)[|base|..] == Decimal(j);
      assert Candidate(name, k)[|base|..] == Decimal(k);
    } else {
      assert |Candidate(name, j)| < |Candidate(name, k)|;
    }
  }

  lemma {:induction false} SubsetSize(part: set<string>, whole: set<string>)
    requires part <= whole
    ensures |part| <= |whole|
    decreases |part|
  {
    if part != {} {
      var x :| x in part;
      SubsetSize(part - {x}, whole - {x});
    }
  }

  lemma FirstCandidate(name: string)
    ensures Candidate(name, 0) == name
  {
  }

  ghost function Tried(name: string, k: nat): set<string> {
    if k == 0 then {} else Tried(name, k - 1) + {Candidate(name, k - 1)}
  }

  lemma {:induction false} TriedDiffer(name: string, k: nat)
    ensures |Tried(name, k)| == k
    ensures forall t :: t in Tried(name, k) ==> exists j: nat :: j < k && t == Candidate(name, j)
  {
    hide Candidate;
    if k > 0 {
      TriedDiffer(name, k - 1);
      if Candidate(name, k - 1) in Tried(name, k - 1) {
        var j: nat :| j < k - 1 && Candidate(name, k - 1) == Candidate(name, j);
        CandidatesDiffer(name, j, k - 1);
      }
    }
  }

  /** No more names were tried in vain than are taken. */
  lemma TriedAreTaken(name: string, k: nat, taken: set<string>)
    requires forall j: nat :: j < k ==> Candidate(name, j) in taken
    ensures k <= |taken|
  {
    hide Candidate;
    TriedDiffer(name, k);
    SubsetSize(Tried(name, k), taken);
  }

  /** The first of them that is free; the search ends because no two are the same and only so many names are taken. */
  method FreeName(wanted: string, taken: set<string>) returns (name: string, ghost k: nat)
    ensures name == Candidate(wanted, k) && name !in taken
    ensures forall j: nat :: j < k ==> Candidate(wanted, j) in taken
  {
    name, k := wanted, 0;
    if name !in taken {
      return;
    }
    var base := name + SUFFIX;
    name, k := base, 1;
    var n := 2;
    while name in taken
      invariant 1 <= k && n == k + 1 && name == Candidate(wanted, k)
      invariant forall j: nat :: j < k ==> Candidate(wanted, j) in taken
      decreases |taken| - k
    {
      TriedAreTaken(wanted, k + 1, taken);
      name := base + " " + Decimal(n);
      n, k := n + 1, k + 1;
    }
  }

  /* ---- The walk ---- */

  /** What the walk makes of what it meets: the same children, in the same order, each under a name of its own. */
  ghost predicate Named(out: seq<Missing>, met: seq<Missing>) {
    |out| == |met| && forall i :: 0 <= i < |out| ==> out[i] == met[i].(name := out[i].name)
  }

  /** A name is taken under a parent: before the walk, or by one of the first `n` children given theirs. */
  ghost predicate IsTaken(first: map<Path, set<string>>, out: seq<Missing>, n: nat, parent: Path, name: string)
    requires n <= |out|
  {
    || (parent in first && name in first[parent])
    || exists i :: 0 <= i < n && out[i].parent == parent && out[i].name == name
  }

  /** The names to try for a child: its own, that one before the move, and so on with a number from 2. */
  ghost predicate IsTry(wanted: string, k: nat, name: string) {
    match k
    case 0 => name == wanted
    case 1 => name == wanted + " before move"
    case _ => exists digits: string :: AllDigits(digits) && Value(digits) == k && digits[0] != '0'
                                       && name == wanted + " before move " + digits
  }

  /** Child `i` got the first of the names to try that was free when its turn came. */
  ghost predicate FirstFree(first: map<Path, set<string>>, out: seq<Missing>, i: nat, wanted: string)
    requires i < |out|
  {
    exists k: nat ::
      && IsTry(wanted, k, out[i].name) && !IsTaken(first, out, i, out[i].parent, out[i].name)
      && forall j: nat, name: string :: j < k && IsTry(wanted, j, name) ==> IsTaken(first, out, i, out[i].parent, name)
  }

  /** Each child as it was met, under the first free name in its turn. */
  ghost predicate NamedInTurn(first: map<Path, set<string>>, out: seq<Missing>, met: seq<Missing>) {
    Named(out, met) && forall i :: 0 <= i < |out| ==> FirstFree(first, out, i, met[i].name)
  }

  lemma NamedOneMore(first: map<Path, set<string>>, out: seq<Missing>, met: seq<Missing>, more: seq<Missing>,
      missing: Missing)
    requires NamedInTurn(first, out, met) && |more| == |out| + 1 && more[..|out|] == out
    requires more[|out|] == missing.(name := more[|out|].name) && FirstFree(first, more, |out|, missing.name)
    ensures NamedInTurn(first, more, met + [missing])
  {
    forall i | 0 <= i < |out| ensures FirstFree(first, more, i, met[i].name) {
      EarlierStands(first, out, more, i, met[i].name);
    }
    assert forall i :: 0 <= i < |out| ==> more[i] == out[i];
  }

  lemma EarlierStands(first: map<Path, set<string>>, out: seq<Missing>, more: seq<Missing>, i: nat, wanted: string)
    requires i < |out| <= |more| && more[..|out|] == out && FirstFree(first, out, i, wanted)
    ensures FirstFree(first, more, i, wanted)
  {
    hide IsTry;
    assert forall j :: 0 <= j < |out| ==> more[j] == out[j];
    forall name ensures IsTaken(first, more, i, out[i].parent, name) <==> IsTaken(first, out, i, out[i].parent, name) {
    }
  }

  lemma CandidateIs(wanted: string, k: nat, name: string)
    ensures IsTry(wanted, k, name) <==> name == Candidate(wanted, k)
  {
    hide Decimal, Value;
    if k >= 2 {
      DecimalValue(k);
      DecimalLeads(k);
      assert wanted + SUFFIX + " " == wanted + " before move ";
      forall digits: string | AllDigits(digits) && Value(digits) == k && digits[0] != '0' ensures digits == Decimal(k) {
        OneDecimal(digits);
      }
    }
  }

  class Walk {
    const known: set<Path>
    var names: map<Path, set<string>>
    var out: seq<Missing>

    /** The children met so far, with the names they wanted. */
    ghost var met: seq<Missing>

    /** The names taken under each parent before the walk. */
    ghost const first: map<Path, set<string>>

    function Taken(parent: Path): set<string>
      reads this
    {
      if parent in names then names[parent] else {}
    }

    ghost function FirstTaken(parent: Path): set<string> {
      if parent in first then first[parent] else {}
    }

    /** A parent's taken names are those it had and those given; no name is given that was taken, nor twice. */
    ghost predicate Valid()
      reads this
    {
      && (forall parent, name :: name in Taken(parent) <==>
            name in FirstTaken(parent) || exists i :: 0 <= i < |out| && out[i].parent == parent && out[i].name == name)
      && (forall i :: 0 <= i < |out| ==> out[i].name !in FirstTaken(out[i].parent))
      && (forall i, j :: 0 <= i < j < |out| && out[i].parent == out[j].parent ==> out[i].name != out[j].name)
      && NamedInTurn(first, out, met)
    }

    constructor (known: set<Path>, names: map<Path, set<string>>)
      ensures Valid() && met == [] && this.known == known && first == names
    {
      this.known, this.names, out, first, met := known, names, [], names, [];
    }

    lemma NamesAreFresh(edges: Edges)
      requires Valid() && first == Names(edges)
      ensures FreshNames(edges, out)
    {
      forall parent
        ensures FirstTaken(parent) == LiveNames(edges, parent)
      {
      }
      forall a, b | a in out && b in out && a != b && a.parent == b.parent
        ensures a.name != b.name
      {
        var i :| 0 <= i < |out| && out[i] == a;
        var j :| 0 <= j < |out| && out[j] == b;
      }
    }

    /** One child without an edge: it takes its name, or the first free one after it. */
    method Adopt(missing: Missing)
      requires Valid()
      modifies this
      ensures Valid() && met == old(met) + [missing]
    {
      hide Candidate, FirstFree, NamedInTurn;
      FirstCandidate(missing.name);
      var taken := Taken(missing.parent);
      var name, k := FreeName(missing.name, taken);
      ghost var was, before := out, met;
      assert forall text :: text in taken <==> IsTaken(first, out, |out|, missing.parent, text);
      names := names[missing.parent := taken + {name}];
      out := out + [missing.(name := name)];
      met := met + [missing];
      assert out[|was|].parent == missing.parent && out[|was|].name == name && out[..|was|] == was;
      assert forall i :: 0 <= i < |was| ==> out[i] == was[i];
      IsFirstFree(first, was, out, missing.name, k, taken);
      NamedOneMore(first, was, before, out, missing);
    }

    /** One folder's child, and below. */
    method VisitOne(parent: Path, folder: Folder, depth: nat)
      requires Valid()
      modifies this
      ensures Valid() && met == old(met) + UnknownOf(known, parent, folder, depth)
      decreases folder
    {
      hide Valid;
      if folder.child.None? {
        assert met + [] == met;
        return;
      }
      var child := folder.child.value;
      ghost var own := [];
      if child !in known {
        var missing := Missing(Key(folder.childId, child), parent, depth, NameOf(folder));
        Adopt(missing);
        own := [missing];
      }
      assert met == old(met) + own;
      Visit(child, folder.subs, depth + 1);
      assert old(met) + own + Unknown(known, child, folder.subs, depth + 1)
        == old(met) + (own + Unknown(known, child, folder.subs, depth + 1));
    }

    /** The folders of one parent, and below. */
    method Visit(parent: Path, folders: seq<Folder>, depth: nat)
      requires Valid()
      modifies this
      ensures Valid() && met == old(met) + Unknown(known, parent, folders, depth)
      decreases folders
    {
      hide Valid, Unknown;
      ghost var was, all := met, Unknown(known, parent, folders, depth);
      assert folders[0..] == folders;
      for k := 0 to |folders|
        invariant Valid() && met + Unknown(known, parent, folders[k..], depth) == was + all
      {
        UnknownFrom(known, parent, folders, k, depth);
        ghost var here := met;
        VisitOne(parent, folders[k], depth);
        ghost var one, rest := UnknownOf(known, parent, folders[k], depth),
            Unknown(known, parent, folders[k + 1..], depth);
        assert here + (one + rest) == here + one + rest;
      }
      NothingLeft(known, parent, folders, depth);
    }
  }

  lemma IsFirstFree(first: map<Path, set<string>>, was: seq<Missing>, out: seq<Missing>, wanted: string, k: nat,
      taken: set<string>)
    requires |out| == |was| + 1 && out[..|was|] == was
    requires out[|was|].name == Candidate(wanted, k) && out[|was|].name !in taken
    requires forall j: nat :: j < k ==> Candidate(wanted, j) in taken
    requires forall text :: text in taken <==> IsTaken(first, was, |was|, out[|was|].parent, text)
    ensures FirstFree(first, out, |was|, wanted)
  {
    hide Candidate, IsTry;
    var parent := out[|was|].parent;
    assert forall i :: 0 <= i < |was| ==> out[i] == was[i];
    forall text ensures IsTaken(first, out, |was|, parent, text) <==> IsTaken(first, was, |was|, parent, text) {
    }
    CandidateIs(wanted, k, out[|was|].name);
    forall j: nat, name: string | j < k && IsTry(wanted, j, name) ensures IsTaken(first, out, |was|, parent, name) {
      CandidateIs(wanted, j, name);
    }
  }

  lemma NothingLeft(known: set<Path>, parent: Path, folders: seq<Folder>, depth: nat)
    ensures Unknown(known, parent, folders[|folders|..], depth) == []
  {
  }

  /* ---- A whole run ---- */

  /** A root session's file and its folders. */
  datatype Root = Root(file: Path, folders: seq<Folder>)

  function UnknownOfRoots(known: set<Path>, roots: seq<Root>): seq<Missing> {
    if roots == [] then []
    else
      UnknownOfRoots(known, roots[..|roots| - 1])
      + Unknown(known, roots[|roots| - 1].file, roots[|roots| - 1].folders, 1)
  }

  function LiveNames(edges: Edges, parent: Path): set<string> {
    set key | key in edges && !edges[key].deleted && edges[key].parent == parent :: edges[key].name
  }

  function Names(edges: Edges): map<Path, set<string>> {
    map parent | parent in (set key | key in edges && !edges[key].deleted :: edges[key].parent) ::
        LiveNames(edges, parent)
  }

  /** The names taken under a parent before the walk are those of its edges that are not deleted. */
  lemma NamesExactly(edges: Edges, parent: Path, name: string)
    ensures (parent in Names(edges) && name in Names(edges)[parent]) <==>
              exists key :: key in edges && !edges[key].deleted && edges[key].parent == parent &&
                  edges[key].name == name
  {
  }

  function OfDepth(out: seq<Missing>, depth: nat): (some: seq<Missing>)
    ensures forall m :: m in some <==> m in out && m.depth == depth
  {
    if out == [] then []
    else
      assert out == out[..|out| - 1] + [out[|out| - 1]];
      OfDepth(out[..|out| - 1], depth) + (if out[|out| - 1].depth == depth then [out[|out| - 1]] else [])
  }

  /** The stable sort by depth: all of the first depth in order, then all of the next. */
  function SortedTo(out: seq<Missing>, depth: nat): (sorted: seq<Missing>)
    ensures forall m :: m in sorted <==> m in out && m.depth < depth
    ensures forall i, j :: 0 <= i < j < |sorted| ==> sorted[i].depth <= sorted[j].depth
  {
    if depth == 0 then []
    else
      var lower, level := SortedTo(out, depth - 1), OfDepth(out, depth - 1);
      assert forall i :: 0 <= i < |lower| ==> lower[i] in lower;
      assert forall i :: 0 <= i < |level| ==> level[i] in level;
      lower + level
  }

  function Deepest(out: seq<Missing>): (depth: nat)
    ensures forall m :: m in out ==> m.depth <= depth
  {
    if out == [] then 0
    else
      var rest, last := Deepest(out[..|out| - 1]), out[|out| - 1].depth;
      assert out == out[..|out| - 1] + [out[|out| - 1]];
      if last > rest then last else rest
  }

  function Sorted(out: seq<Missing>): (sorted: seq<Missing>)
    ensures forall m :: m in sorted <==> m in out
    ensures forall i, j :: 0 <= i < j < |sorted| ==> sorted[i].depth <= sorted[j].depth
  {
    SortedTo(out, Deepest(out) + 1)
  }

  /** Each child given its name: free in the ledger, and given once under a parent. */
  ghost predicate FreshNames(edges: Edges, out: seq<Missing>) {
    && (forall m :: m in out ==> m.name !in LiveNames(edges, m.parent))
    && (forall a, b :: a in out && b in out && a != b && a.parent == b.parent ==> a.name != b.name)
  }

  /** The edges to append: what the walk met, under names of its own, sorted by depth. */
  ghost predicate Adopts(edges: Edges, roots: seq<Root>, todo: seq<Missing>) {
    exists out :: AdoptsAs(edges, roots, todo, out)
  }

  ghost predicate AdoptsAs(edges: Edges, roots: seq<Root>, todo: seq<Missing>, out: seq<Missing>) {
    && NamedInTurn(Names(edges), out, UnknownOfRoots(Known(edges), roots)) && FreshNames(edges, out)
    && todo == Sorted(out)
  }

  lemma NoRoots(known: set<Path>)
    ensures UnknownOfRoots(known, []) == []
  {
  }

  lemma RootsSnoc(known: set<Path>, roots: seq<Root>, k: nat)
    requires k < |roots|
    ensures UnknownOfRoots(known, roots[..k + 1]) ==
            UnknownOfRoots(known, roots[..k]) + Unknown(known, roots[k].file, roots[k].folders, 1)
  {
    hide Unknown;
    assert roots[..k + 1][..k] == roots[..k];
  }

  method MissingEdges(edges: Edges, roots: seq<Root>) returns (todo: seq<Missing>)
    ensures Adopts(edges, roots, todo)
  {
    hide UnknownOfRoots, Unknown, FreshNames, Sorted, Names, Known;
    var walk := new Walk(Known(edges), Names(edges));
    NoRoots(Known(edges));
    for k := 0 to |roots|
      invariant walk.Valid() && walk.known == Known(edges) && walk.first == Names(edges) && fresh(walk)
      invariant walk.met == UnknownOfRoots(Known(edges), roots[..k])
    {
      RootsSnoc(Known(edges), roots, k);
      walk.Visit(roots[k].file, roots[k].folders, 1);
    }
    assert roots[..|roots|] == roots;
    walk.NamesAreFresh(edges);
    todo := Sorted(walk.out);
    assert AdoptsAs(edges, roots, todo, walk.out);
  }

  /* ---- Whom the walk meets, and in which order ---- */

  /** The folder at a path of places, each inside the one before, is a child's: `m`, by what its record says. */
  ghost predicate IsAt(parent: Path, folders: seq<Folder>, depth: nat, place: seq<nat>, m: Missing)
    decreases |place|
  {
    && place != [] && place[0] < |folders| && folders[place[0]].child.Some?
    && var folder := folders[place[0]];
       if |place| > 1 then IsAt(folder.child.value, folder.subs, depth + 1, place[1..], m)
       else
         && m.key == Key(folder.childId, folder.child.value) && m.parent == parent && m.depth == depth
         && m.name == match folder.name
                      case Some(name) => if name == "" then folder.childId else name
                      case None => folder.childId
  }

  /** A folder before those inside it, and those inside it before the next one. */
  ghost predicate Before(a: seq<nat>, b: seq<nat>)
    decreases |a|
  {
    b != [] && (a == [] || a[0] < b[0] || (a[0] == b[0] && Before(a[1..], b[1..])))
  }

  /** Children whose file no edge has, each at its place. */
  ghost predicate AtPlaces(known: set<Path>, parent: Path, folders: seq<Folder>, depth: nat, met: seq<Missing>,
      places: seq<seq<nat>>) {
    && |places| == |met|
    && forall i :: 0 <= i < |met| ==> IsAt(parent, folders, depth, places[i], met[i]) && met[i].key.child !in known
  }

  ghost predicate InPlaceOrder(places: seq<seq<nat>>) {
    forall i, j :: 0 <= i < j < |places| ==> Before(places[i], places[j])
  }

  /** All children below some folders whose file no edge has, in order. */
  ghost predicate InOrder(known: set<Path>, parent: Path, folders: seq<Folder>, depth: nat, met: seq<Missing>,
      places: seq<seq<nat>>) {
    && AtPlaces(known, parent, folders, depth, met, places) && InPlaceOrder(places)
    && forall place, m :: IsAt(parent, folders, depth, place, m) && m.key.child !in known ==> place in places
  }

  function Within(k: nat, places: seq<seq<nat>>): (inside: seq<seq<nat>>)
    ensures |inside| == |places| && forall i :: 0 <= i < |places| ==> inside[i] == [k] + places[i]
  {
    seq(|places|, (i: int) requires 0 <= i < |places| => [k] + places[i])
  }

  function Shifted(places: seq<seq<nat>>): (later: seq<seq<nat>>)
    requires forall i :: 0 <= i < |places| ==> places[i] != []
    ensures |later| == |places| && forall i :: 0 <= i < |places| ==> later[i] == [places[i][0] + 1] + places[i][1..]
  {
    seq(|places|, (i: int) requires 0 <= i < |places| => [places[i][0] + 1] + places[i][1..])
  }

  predicate IsOn(place: seq<nat>, head: bool) {
    place != [] && ((place[0] == 0) == head)
  }

  /** Places of the first folder, or of the others only. */
  ghost predicate OnSide(places: seq<seq<nat>>, head: bool) {
    forall place :: place in places ==> IsOn(place, head)
  }

  /** Children in order, all of the first folder or all of the others. */
  ghost predicate Side(known: set<Path>, parent: Path, folders: seq<Folder>, depth: nat, met: seq<Missing>,
      places: seq<seq<nat>>, head: bool) {
    && AtPlaces(known, parent, folders, depth, met, places) && InPlaceOrder(places) && OnSide(places, head)
    && forall place, m ::
         IsAt(parent, folders, depth, place, m) && m.key.child !in known && IsOn(place, head) ==> place in places
  }

  lemma PlacesJoin(known: set<Path>, parent: Path, folders: seq<Folder>, depth: nat, a: seq<Missing>,
      p: seq<seq<nat>>, b: seq<Missing>, q: seq<seq<nat>>)
    requires AtPlaces(known, parent, folders, depth, a, p) && AtPlaces(known, parent, folders, depth, b, q)
    ensures AtPlaces(known, parent, folders, depth, a + b, p + q)
  {
    hide IsAt;
  }

  lemma OrderJoins(p: seq<seq<nat>>, q: seq<seq<nat>>)
    requires InPlaceOrder(p) && InPlaceOrder(q)
    requires forall i, j :: 0 <= i < |p| && 0 <= j < |q| ==> Before(p[i], q[j])
    ensures InPlaceOrder(p + q)
  {
    hide Before;
  }

  /** A place inside the first folder. */
  lemma OneInside(parent: Path, folders: seq<Folder>, depth: nat, place: seq<nat>, m: Missing)
    requires folders != [] && folders[0].child.Some? && place != []
    ensures IsAt(parent, folders, depth, [0] + place, m)
            <==> IsAt(folders[0].child.value, folders[0].subs, depth + 1, place, m)
  {
    assert ([0] + place)[1..] == place;
  }

  /** A place among the folders after the first is one later among all. */
  lemma OneLater(parent: Path, folders: seq<Folder>, depth: nat, place: seq<nat>, later: seq<nat>, m: Missing)
    requires folders != [] && place != [] && later == [place[0] + 1] + place[1..]
    ensures IsAt(parent, folders[1..], depth, place, m) <==> IsAt(parent, folders, depth, later, m)
  {
    assert later[1..] == place[1..];
    assert place[0] + 1 < |folders| ==> folders[1..][place[0]] == folders[later[0]];
  }

  lemma StillBefore(a: seq<nat>, b: seq<nat>)
    requires Before(a, b)
    ensures forall k: nat :: Before([k] + a, [k] + b)
    ensures a != [] ==> Before([a[0] + 1] + a[1..], [b[0] + 1] + b[1..])
  {
    forall k: nat ensures Before([k] + a, [k] + b) {
      assert ([k] + a)[1..] == a && ([k] + b)[1..] == b;
    }
    if a != [] {
      assert ([a[0] + 1] + a[1..])[1..] == a[1..] && ([b[0] + 1] + b[1..])[1..] == b[1..];
    }
  }

  lemma InsideInOrder(places: seq<seq<nat>>)
    requires InPlaceOrder(places)
    ensures InPlaceOrder(Within(0, places))
    ensures (forall i :: 0 <= i < |places| ==> places[i] != []) ==> InPlaceOrder(Shifted(places))
  {
    hide Before;
    forall i, j | 0 <= i < j < |places| ensures Before(Within(0, places)[i], Within(0, places)[j]) {
      StillBefore(places[i], places[j]);
    }
    if forall i :: 0 <= i < |places| ==> places[i] != [] {
      forall i, j | 0 <= i < j < |places| ensures Before(Shifted(places)[i], Shifted(places)[j]) {
        StillBefore(places[i], places[j]);
      }
    }
  }

  /** The first folder's own child, if it has no edge. */
  lemma OwnSide(known: set<Path>, parent: Path, folders: seq<Folder>, depth: nat)
    requires folders != [] && folders[0].child.Some?
    ensures var folder, child := folders[0], folders[0].child.value;
            && IsAt(parent, folders, depth, [0], Missing(Key(folder.childId, child), parent, depth, NameOf(folder)))
            && forall m :: IsAt(parent, folders, depth, [0], m) ==>
                 m == Missing(Key(folder.childId, child), parent, depth, NameOf(folder))
  {
  }

  lemma PlaceIsNot(parent: Path, folders: seq<Folder>, depth: nat, place: seq<nat>, m: Missing)
    requires IsAt(parent, folders, depth, place, m)
    ensures place != [] && (place[0] == 0 ==> folders != [] && folders[0].child.Some?)
  {
  }

  lemma OwnIsFirst(own: seq<seq<nat>>, places: seq<seq<nat>>)
    requires own == [] || own == [[0]]
    requires InPlaceOrder(places) && forall i :: 0 <= i < |places| ==> places[i] != []
    ensures InPlaceOrder(own + Within(0, places)) && OnSide(own + Within(0, places), true)
  {
    forall i | 0 <= i < |places| ensures Before([0], Within(0, places)[i]) {
      assert ([0] + places[i])[1..] == places[i];
    }
    InsideInOrder(places);
    OrderJoins(own, Within(0, places));
  }

  lemma InsidePlaces(known: set<Path>, parent: Path, folders: seq<Folder>, depth: nat, below: seq<Missing>,
      subs: seq<seq<nat>>)
    requires folders != [] && folders[0].child.Some?
    requires AtPlaces(known, folders[0].child.value, folders[0].subs, depth + 1, below, subs)
    ensures AtPlaces(known, parent, folders, depth, below, Within(0, subs))
    ensures forall i :: 0 <= i < |subs| ==> subs[i] != []
  {
    hide IsAt;
    forall i | 0 <= i < |below|
      ensures subs[i] != [] && IsAt(parent, folders, depth, Within(0, subs)[i], below[i])
    {
      PlaceIsNot(folders[0].child.value, folders[0].subs, depth + 1, subs[i], below[i]);
      OneInside(parent, folders, depth, subs[i], below[i]);
    }
  }

  lemma HeadSide(known: set<Path>, parent: Path, folders: seq<Folder>, depth: nat, subs: seq<seq<nat>>)
    requires folders != [] && folders[0].child.Some?
    requires var child := folders[0].child.value;
             InOrder(known, child, folders[0].subs, depth + 1, Unknown(known, child, folders[0].subs, depth + 1), subs)
    ensures var own := if folders[0].child.value in known then [] else [[0]];
            Side(known, parent, folders, depth, UnknownOf(known, parent, folders[0], depth), own + Within(0, subs),
                true)
  {
    hide Unknown, IsAt, NameOf, AtPlaces, InPlaceOrder, OnSide;
    var folder, child := folders[0], folders[0].child.value;
    var own := if child in known then [] else [[0]];
    var below, inside := Unknown(known, child, folder.subs, depth + 1), Within(0, subs);
    var first := if child in known then [] else [Missing(Key(folder.childId, child), parent, depth, NameOf(folder))];
    OwnPlaces(known, parent, folders, depth);
    InsidePlaces(known, parent, folders, depth, below, subs);
    PlacesJoin(known, parent, folders, depth, first, own, below, inside);
    OwnIsFirst(own, subs);
    forall place, m | IsAt(parent, folders, depth, place, m) && m.key.child !in known && IsOn(place, true)
      ensures place in own + inside
    {
      HeadHas(known, parent, folders, depth, subs, place, m);
    }
  }

  lemma OwnPlaces(known: set<Path>, parent: Path, folders: seq<Folder>, depth: nat)
    requires folders != [] && folders[0].child.Some?
    ensures var folder, child := folders[0], folders[0].child.value;
            var own := if child in known then [] else [[0]];
            var first := if child in known then []
                         else [Missing(Key(folder.childId, child), parent, depth, NameOf(folder))];
            AtPlaces(known, parent, folders, depth, first, own)
  {
    OwnSide(known, parent, folders, depth);
  }

  lemma HeadHas(known: set<Path>, parent: Path, folders: seq<Folder>, depth: nat, subs: seq<seq<nat>>,
      place: seq<nat>, m: Missing)
    requires folders != [] && folders[0].child.Some?
    requires var child := folders[0].child.value;
             InOrder(known, child, folders[0].subs, depth + 1, Unknown(known, child, folders[0].subs, depth + 1), subs)
    requires place != [] && place[0] == 0 && IsAt(parent, folders, depth, place, m) && m.key.child !in known
    ensures place in (if folders[0].child.value in known then [] else [[0]]) + Within(0, subs)
  {
    hide Unknown, IsAt, NameOf, AtPlaces, InPlaceOrder;
    if |place| == 1 {
      assert place == [0];
      OwnSide(known, parent, folders, depth);
    } else {
      assert place == [0] + place[1..];
      OneInside(parent, folders, depth, place[1..], m);
      var i :| 0 <= i < |subs| && subs[i] == place[1..];
      assert Within(0, subs)[i] == place;
    }
  }

  lemma TailSide(known: set<Path>, parent: Path, folders: seq<Folder>, depth: nat, rest: seq<seq<nat>>)
    requires folders != []
    requires InOrder(known, parent, folders[1..], depth, Unknown(known, parent, folders[1..], depth), rest)
    ensures forall i :: 0 <= i < |rest| ==> rest[i] != []
    ensures Side(known, parent, folders, depth, Unknown(known, parent, folders[1..], depth), Shifted(rest), false)
  {
    hide Unknown, IsAt, InPlaceOrder;
    var met := Unknown(known, parent, folders[1..], depth);
    forall i | 0 <= i < |rest| ensures rest[i] != [] {
      PlaceIsNot(parent, folders[1..], depth, rest[i], met[i]);
    }
    var places := Shifted(rest);
    InsideInOrder(rest);
    forall i | 0 <= i < |met| ensures IsAt(parent, folders, depth, places[i], met[i]) {
      OneLater(parent, folders, depth, rest[i], places[i], met[i]);
    }
    forall place, m | IsAt(parent, folders, depth, place, m) && m.key.child !in known && IsOn(place, false)
      ensures place in places
    {
      var one := [place[0] - 1] + place[1..];
      assert place == [one[0] + 1] + one[1..];
      OneLater(parent, folders, depth, one, place, m);
      var i :| 0 <= i < |rest| && rest[i] == one;
      assert places[i] == place;
    }
  }

  lemma BothSides(known: set<Path>, parent: Path, folders: seq<Folder>, depth: nat, a: seq<Missing>,
      head: seq<seq<nat>>, b: seq<Missing>, tail: seq<seq<nat>>)
    requires Side(known, parent, folders, depth, a, head, true) && Side(known, parent, folders, depth, b, tail, false)
    ensures InOrder(known, parent, folders, depth, a + b, head + tail)
  {
    hide IsAt, AtPlaces, InPlaceOrder;
    PlacesJoin(known, parent, folders, depth, a, head, b, tail);
    forall i, j | 0 <= i < |head| && 0 <= j < |tail| ensures Before(head[i], tail[j]) {
      assert head[i] in head && tail[j] in tail;
      HeadFirst(head[i], tail[j]);
    }
    OrderJoins(head, tail);
    forall place, m | IsAt(parent, folders, depth, place, m) && m.key.child !in known ensures place in head + tail {
      PlaceIsNot(parent, folders, depth, place, m);
      assert IsOn(place, true) || IsOn(place, false);
      assert place in head || place in tail;
    }
  }

  lemma HeadFirst(a: seq<nat>, b: seq<nat>)
    requires a != [] && b != [] && a[0] == 0 && b[0] != 0
    ensures Before(a, b)
  {
  }

  /** The walk meets exactly the children whose file no edge has, each folder before those inside it and after it. */
  lemma {:induction false} WalkInOrder(known: set<Path>, parent: Path, folders: seq<Folder>, depth: nat)
    returns (places: seq<seq<nat>>)
    ensures InOrder(known, parent, folders, depth, Unknown(known, parent, folders, depth), places)
    decreases folders
  {
    hide InOrder, Side;
    if folders == [] {
      places := [];
      NoFolders(known, parent, depth);
    } else {
      var rest := WalkInOrder(known, parent, folders[1..], depth);
      TailSide(known, parent, folders, depth, rest);
      var head := [];
      if folders[0].child.Some? {
        var child := folders[0].child.value;
        var subs := WalkInOrder(known, child, folders[0].subs, depth + 1);
        HeadSide(known, parent, folders, depth, subs);
        head := (if child in known then [] else [[0]]) + Within(0, subs);
      } else {
        NoHead(known, parent, folders, depth);
      }
      BothSides(known, parent, folders, depth, UnknownOf(known, parent, folders[0], depth), head,
        Unknown(known, parent, folders[1..], depth), Shifted(rest));
      places := head + Shifted(rest);
    }
  }

  lemma NoFolders(known: set<Path>, parent: Path, depth: nat)
    ensures InOrder(known, parent, [], depth, Unknown(known, parent, [], depth), [])
  {
  }

  lemma NoHead(known: set<Path>, parent: Path, folders: seq<Folder>, depth: nat)
    requires folders != [] && folders[0].child.None?
    ensures Side(known, parent, folders, depth, UnknownOf(known, parent, folders[0], depth), [], true)
  {
  }

  /** The children met under each root in turn, each root's from one cut to the next. */
  ghost predicate InRoots(known: set<Path>, roots: seq<Root>, met: seq<Missing>, cuts: seq<nat>) {
    && |cuts| == |roots| + 1 && cuts[0] == 0 && cuts[|roots|] == |met|
    && (forall r :: 0 <= r < |roots| ==> cuts[r] <= cuts[r + 1])
    && (forall r :: 0 <= r <= |roots| ==> cuts[r] <= |met|)
    && forall r :: 0 <= r < |roots| ==> InRoot(known, roots[r], met[cuts[r]..cuts[r + 1]])
  }

  ghost predicate InRoot(known: set<Path>, root: Root, met: seq<Missing>) {
    exists places :: InOrder(known, root.file, root.folders, 1, met, places)
  }

  lemma {:induction false} RootsInOrder(known: set<Path>, roots: seq<Root>) returns (cuts: seq<nat>)
    ensures InRoots(known, roots, UnknownOfRoots(known, roots), cuts)
  {
    hide Unknown, InOrder;
    if roots == [] {
      cuts := [0];
    } else {
      var k := |roots| - 1;
      var before := RootsInOrder(known, roots[..k]);
      var places := WalkInOrder(known, roots[k].file, roots[k].folders, 1);
      var front, last := UnknownOfRoots(known, roots[..k]), Unknown(known, roots[k].file, roots[k].folders, 1);
      cuts := before + [|front + last|];
      assert (front + last)[cuts[k]..cuts[k + 1]] == last;
      forall r | 0 <= r < k ensures InRoot(known, roots[r], (front + last)[cuts[r]..cuts[r + 1]]) {
        assert (front + last)[cuts[r]..cuts[r + 1]] == front[before[r]..before[r + 1]];
        assert roots[..k][r] == roots[r];
      }
    }
  }

  /** A list sorted by depth, those of one depth in the order they had; `order` says where each came from. */
  ghost predicate InStableOrder(out: seq<Missing>, todo: seq<Missing>, order: seq<nat>) {
    && |order| == |todo|
    && (forall k :: 0 <= k < |todo| ==> order[k] < |out| && todo[k] == out[order[k]])
    && (forall i :: 0 <= i < |out| ==> i in order)
    && (forall j, k :: 0 <= j < k < |todo| ==>
          todo[j].depth < todo[k].depth || (todo[j].depth == todo[k].depth && order[j] < order[k]))
  }

  /** Where the children of some depths came from. */
  ghost predicate ComesFrom(out: seq<Missing>, part: seq<Missing>, order: seq<nat>, low: nat, high: nat) {
    && |order| == |part|
    && (forall k :: 0 <= k < |part| ==> order[k] < |out| && part[k] == out[order[k]] && low <= part[k].depth < high)
    && (forall i :: 0 <= i < |out| && low <= out[i].depth < high ==> i in order)
    && (forall j, k :: 0 <= j < k < |part| ==>
          part[j].depth < part[k].depth || (part[j].depth == part[k].depth && order[j] < order[k]))
  }

  lemma {:induction false} LevelComesFrom(out: seq<Missing>, depth: nat) returns (order: seq<nat>)
    ensures ComesFrom(out, OfDepth(out, depth), order, depth, depth + 1)
  {
    if out == [] {
      order := [];
    } else {
      hide ComesFrom;
      var k := |out| - 1;
      var before := LevelComesFrom(out[..k], depth);
      order := before + if out[k].depth == depth then [k] else [];
      if out[k].depth == depth {
        OneMoreFrom(out, OfDepth(out[..k], depth), before, depth);
      } else {
        NoneMoreFrom(out, OfDepth(out[..k], depth), before, depth);
        assert before + [] == before && OfDepth(out[..k], depth) + [] == OfDepth(out[..k], depth);
      }
    }
  }

  lemma OneMoreFrom(out: seq<Missing>, part: seq<Missing>, order: seq<nat>, depth: nat)
    requires out != [] && ComesFrom(out[..|out| - 1], part, order, depth, depth + 1) && out[|out| - 1].depth == depth
    ensures ComesFrom(out, part + [out[|out| - 1]], order + [|out| - 1], depth, depth + 1)
  {
    StillFrom(out, part, order, depth);
    var k := |out| - 1;
    var more := order + [k];
    assert more[|order|] == k;
    forall i | 0 <= i < |out| && out[i].depth == depth ensures i in more {
      if i < k {
        assert out[..k][i] == out[i];
        assert i in order;
      }
    }
  }

  lemma StillFrom(out: seq<Missing>, part: seq<Missing>, order: seq<nat>, depth: nat)
    requires out != [] && ComesFrom(out[..|out| - 1], part, order, depth, depth + 1)
    ensures |order| == |part| && forall k :: 0 <= k < |part| ==> order[k] < |out| - 1 && part[k] == out[order[k]]
  {
  }

  lemma NoneMoreFrom(out: seq<Missing>, part: seq<Missing>, order: seq<nat>, depth: nat)
    requires out != [] && ComesFrom(out[..|out| - 1], part, order, depth, depth + 1) && out[|out| - 1].depth != depth
    ensures ComesFrom(out, part, order, depth, depth + 1)
  {
    StillFrom(out, part, order, depth);
    var k := |out| - 1;
    forall i | 0 <= i < |out| && out[i].depth == depth ensures i in order {
      assert out[..k][i] == out[i];
    }
  }

  lemma {:induction false} LevelsComeFrom(out: seq<Missing>, depth: nat) returns (order: seq<nat>)
    ensures ComesFrom(out, SortedTo(out, depth), order, 0, depth)
  {
    hide ComesFrom, OfDepth, SortedTo;
    if depth == 0 {
      order := [];
      NothingSorted(out);
    } else {
      SortedOneMore(out, depth);
      var lower := LevelsComeFrom(out, depth - 1);
      var level := LevelComesFrom(out, depth - 1);
      JoinLevels(out, SortedTo(out, depth - 1), lower, OfDepth(out, depth - 1), level, depth - 1);
      order := lower + level;
    }
  }

  lemma NothingSorted(out: seq<Missing>)
    ensures ComesFrom(out, SortedTo(out, 0), [], 0, 0)
  {
  }

  lemma SortedOneMore(out: seq<Missing>, depth: nat)
    requires depth > 0
    ensures SortedTo(out, depth) == SortedTo(out, depth - 1) + OfDepth(out, depth - 1)
  {
  }

  lemma JoinLevels(out: seq<Missing>, a: seq<Missing>, lower: seq<nat>, b: seq<Missing>, level: seq<nat>, depth: nat)
    requires ComesFrom(out, a, lower, 0, depth) && ComesFrom(out, b, level, depth, depth + 1)
    ensures ComesFrom(out, a + b, lower + level, 0, depth + 1)
  {
  }

  lemma SortedIsStable(out: seq<Missing>) returns (order: seq<nat>)
    ensures InStableOrder(out, Sorted(out), order)
  {
    hide SortedTo;
    order := LevelsComeFrom(out, Deepest(out) + 1);
    forall i | 0 <= i < |out| ensures i in order {
      assert out[i] in out;
    }
  }

  /**
   * What a run appends, by the folders and the ledger alone: the children whose file no edge has, root after root and
   * each folder before those inside it and after it; each under the first name that is free in its turn; sorted by
   * depth, those of one depth in the order met.
   */
  lemma AdoptsExactly(edges: Edges, roots: seq<Root>, todo: seq<Missing>, known: set<Path>)
    returns (out: seq<Missing>, met: seq<Missing>, cuts: seq<nat>, order: seq<nat>)
    requires Adopts(edges, roots, todo)
    requires forall file :: file in known <==> exists key :: key in edges && key.child == file
    ensures InRoots(known, roots, met, cuts) && NamedInTurn(Names(edges), out, met) && InStableOrder(out, todo, order)
  {
    hide InRoots, NamedInTurn, InStableOrder, Sorted, Names, UnknownOfRoots;
    assert known == Known(edges);
    out := Met(edges, roots, todo);
    met := UnknownOfRoots(Known(edges), roots);
    cuts := RootsInOrder(Known(edges), roots);
    order := SortedIsStable(out);
  }

  /* ---- Appending the edges ---- */

  function LineOf(m: Missing): Line {
    Spawn(m.key, m.parent, m.depth, m.name)
  }

  function LinesOf(out: seq<Missing>): seq<Line> {
    if out == [] then [] else LinesOf(out[..|out| - 1]) + [LineOf(out[|out| - 1])]
  }

  lemma {:induction false} ReadOn(edges: Edges, a: seq<Line>, b: seq<Line>)
    ensures ReadFrom(edges, a + b) == ReadFrom(ReadFrom(edges, a), b)
  {
    if b == [] {
      assert a + b == a;
    } else {
      assert (a + b)[..|a + b| - 1] == a + b[..|b| - 1];
      ReadOn(edges, a, b[..|b| - 1]);
    }
  }

  /** What the ledger holds after the edges are appended: the old ones, and for each new key one of its children. */
  lemma {:induction false} Appended(edges: Edges, out: seq<Missing>)
    ensures var more := ReadFrom(edges, LinesOf(out));
            && (forall m :: m in out ==> m.key in more)
            && (forall key :: key in more ==>
                  || (key in edges && more[key] == edges[key])
                  || exists m :: m in out && m.key == key && more[key] == Edge(m.parent, m.depth, m.name, false))
            && (forall key :: key in edges ==> key in more)
  {
    if out == [] {
      NothingAppended(edges);
    } else {
      var k := |out| - 1;
      Appended(edges, out[..k]);
      LastAppended(edges, out);
      assert out == out[..k] + [out[k]];
      hide ReadFrom, LinesOf;
    }
  }

  lemma NothingAppended(edges: Edges)
    ensures ReadFrom(edges, LinesOf([])) == edges
  {
  }

  lemma LastAppended(edges: Edges, out: seq<Missing>)
    requires out != []
    ensures ReadFrom(edges, LinesOf(out)) == Apply(ReadFrom(edges, LinesOf(out[..|out| - 1])), LineOf(out[|out| - 1]))
  {
    hide LineOf, Apply;
    var front, last := LinesOf(out[..|out| - 1]), LineOf(out[|out| - 1]);
    assert (front + [last])[..|front|] == front;
  }

  /** The children reachable by the walk. */
  function Files(folders: seq<Folder>): set<Path>
    decreases folders
  {
    if folders == [] then {}
    else
      (if folders[0].child.None? then {} else {folders[0].child.value} + Files(folders[0].subs))
      + Files(folders[1..])
  }

  lemma {:induction false} UnknownCovers(known: set<Path>, parent: Path, folders: seq<Folder>, depth: nat, file: Path)
    requires file in Files(folders)
    ensures file in known || exists m :: m in Unknown(known, parent, folders, depth) && m.key.child == file
    decreases folders
  {
    var folder := folders[0];
    if folder.child.Some? && file == folder.child.value {
      if file !in known {
        var m := Missing(Key(folder.childId, file), parent, depth, NameOf(folder));
        assert m in UnknownOf(known, parent, folder, depth);
        assert m in Unknown(known, parent, folders, depth);
      }
    } else if folder.child.Some? && file in Files(folder.subs) {
      UnknownCovers(known, folder.child.value, folder.subs, depth + 1, file);
      if file !in known {
        var m :| m in Unknown(known, folder.child.value, folder.subs, depth + 1) && m.key.child == file;
        assert m in UnknownOf(known, parent, folder, depth);
        assert m in Unknown(known, parent, folders, depth);
      }
    } else {
      UnknownCovers(known, parent, folders[1..], depth, file);
      if file !in known {
        var m :| m in Unknown(known, parent, folders[1..], depth) && m.key.child == file;
        assert m in Unknown(known, parent, folders, depth);
      }
    }
  }

  lemma {:induction false} AllKnown(known: set<Path>, parent: Path, folders: seq<Folder>, depth: nat)
    requires Files(folders) <= known
    ensures Unknown(known, parent, folders, depth) == []
    decreases folders
  {
    if folders != [] {
      if folders[0].child.Some? {
        AllKnown(known, folders[0].child.value, folders[0].subs, depth + 1);
      }
      AllKnown(known, parent, folders[1..], depth);
    }
  }

  lemma {:induction false} RootsCovered(known: set<Path>, more: set<Path>, roots: seq<Root>)
    requires known <= more && forall m :: m in UnknownOfRoots(known, roots) ==> m.key.child in more
    ensures UnknownOfRoots(more, roots) == []
  {
    if roots != [] {
      var k := |roots| - 1;
      var root := roots[k];
      forall m | m in UnknownOfRoots(known, roots[..k]) || m in Unknown(known, root.file, root.folders, 1)
        ensures m in UnknownOfRoots(known, roots)
      {
      }
      RootsCovered(known, more, roots[..k]);
      forall file | file in Files(root.folders)
        ensures file in more
      {
        UnknownCovers(known, root.file, root.folders, 1, file);
      }
      AllKnown(more, root.file, root.folders, 1);
    }
  }

  /** No two live edges under one parent share a name. */
  ghost predicate UniqueNames(edges: Edges) {
    forall a, b :: a in edges && b in edges && a != b && !edges[a].deleted && !edges[b].deleted &&
        edges[a].parent == edges[b].parent
      ==> edges[a].name != edges[b].name
  }

  lemma NamesStayUnique(edges: Edges, out: seq<Missing>, todo: seq<Missing>)
    requires UniqueNames(edges) && FreshNames(edges, out) && forall m :: m in todo ==> m in out
    ensures UniqueNames(ReadFrom(edges, LinesOf(todo)))
  {
    var more := ReadFrom(edges, LinesOf(todo));
    Appended(edges, todo);
    forall a, b | a in more && b in more && a != b && !more[a].deleted && !more[b].deleted &&
        more[a].parent == more[b].parent
      ensures more[a].name != more[b].name
    {
      if a in edges && more[a] == edges[a] {
        if b in edges && more[b] == edges[b] {
        } else {
          assert more[a].name in LiveNames(edges, more[a].parent);
        }
      } else if b in edges && more[b] == edges[b] {
        assert more[b].name in LiveNames(edges, more[b].parent);
      }
    }
  }

  /**
   * Running again appends nothing, and neither run breaks the uniqueness of live names. Each run reads the ledger as
   * the last left it.
   */
  method RunTwice(lines: seq<Line>, roots: seq<Root>) returns (first: seq<Missing>, second: seq<Missing>)
    ensures second == []
    ensures forall m :: m in first ==> m.key !in ReadFrom(map[], lines)
    ensures UniqueNames(ReadFrom(map[], lines)) ==> UniqueNames(ReadFrom(map[], lines + LinesOf(first)))
  {
    hide *;
    var edges := ReadLedger(lines);
    first := MissingEdges(edges, roots);
    ghost var out := Met(edges, roots, first);
    ReadOn(map[], lines, LinesOf(first));
    var again := ReadLedger(lines + LinesOf(first));
    if UniqueNames(edges) {
      NamesStayUnique(edges, out, first);
    }
    UnknownIsUnknown(edges, roots, out);
    NothingLeftToAdopt(edges, roots, out, first);
    second := MissingEdges(again, roots);
    ghost var none := Met(again, roots, second);
    NamedNothing(none);
    HasFirst(second);
  }

  lemma HasFirst(todo: seq<Missing>)
    ensures todo != [] ==> exists m :: m in todo
  {
    if todo != [] {
      assert todo[0] in todo;
    }
  }

  lemma Met(edges: Edges, roots: seq<Root>, todo: seq<Missing>) returns (out: seq<Missing>)
    requires Adopts(edges, roots, todo)
    ensures Named(out, UnknownOfRoots(Known(edges), roots)) && FreshNames(edges, out) && todo == Sorted(out)
    ensures NamedInTurn(Names(edges), out, UnknownOfRoots(Known(edges), roots))
    ensures forall m :: m in todo <==> m in out
  {
    out :| AdoptsAs(edges, roots, todo, out);
  }

  lemma NamedNothing(out: seq<Missing>)
    ensures Named(out, []) ==> forall m :: m !in out
  {
  }

  lemma NothingLeftToAdopt(edges: Edges, roots: seq<Root>, out: seq<Missing>, first: seq<Missing>)
    requires Named(out, UnknownOfRoots(Known(edges), roots)) && forall m :: m in first <==> m in out
    ensures UnknownOfRoots(Known(ReadFrom(edges, LinesOf(first))), roots) == []
  {
    var again := ReadFrom(edges, LinesOf(first));
    Appended(edges, first);
    forall m | m in UnknownOfRoots(Known(edges), roots)
      ensures m.key.child in Known(again)
    {
      var i :| 0 <= i < |out| && UnknownOfRoots(Known(edges), roots)[i] == m;
      assert out[i] in first && out[i].key == m.key;
    }
    assert Known(edges) <= Known(again);
    RootsCovered(Known(edges), Known(again), roots);
  }

  /** The walk meets only children that no edge names. */
  lemma {:induction false} UnknownIsUnknown(edges: Edges, roots: seq<Root>, out: seq<Missing>)
    requires Named(out, UnknownOfRoots(Known(edges), roots))
    ensures forall m :: m in out ==> m.key !in edges
  {
    forall m | m in out
      ensures m.key !in edges
    {
      var i :| 0 <= i < |out| && out[i] == m;
      RootsUnknown(Known(edges), roots, UnknownOfRoots(Known(edges), roots)[i]);
    }
  }

  lemma {:induction false} RootsUnknown(known: set<Path>, roots: seq<Root>, m: Missing)
    requires m in UnknownOfRoots(known, roots)
    ensures m.key.child !in known
  {
    var k := |roots| - 1;
    if m in UnknownOfRoots(known, roots[..k]) {
      RootsUnknown(known, roots[..k], m);
    } else {
      FoldersUnknown(known, roots[k].file, roots[k].folders, 1, m);
    }
  }

  lemma {:induction false} FoldersUnknown(known: set<Path>, parent: Path, folders: seq<Folder>, depth: nat, m: Missing)
    requires m in Unknown(known, parent, folders, depth)
    ensures m.key.child !in known
    decreases folders
  {
    if m in Unknown(known, parent, folders[1..], depth) {
      FoldersUnknown(known, parent, folders[1..], depth, m);
    } else {
      var folder := folders[0];
      assert m in UnknownOf(known, parent, folder, depth);
      if m in Unknown(known, folder.child.value, folder.subs, depth + 1) {
        FoldersUnknown(known, folder.child.value, folder.subs, depth + 1, m);
      }
    }
  }

  /* ---- Parents before children ---- */

  /** No two folders name one file. */
  predicate OneFileEach(folders: seq<Folder>)
    decreases folders
  {
    folders == [] ||
    (&& OneFileEach(folders[1..])
     && (folders[0].child.Some? ==>
           && OneFileEach(folders[0].subs)
           && folders[0].child.value !in Files(folders[0].subs) + Files(folders[1..])
           && Files(folders[0].subs) !! Files(folders[1..])))
  }

  predicate OneFileEachRoot(roots: seq<Root>) {
    roots == [] ||
    var k := |roots| - 1;
    && OneFileEachRoot(roots[..k])
    && OneFileEach(roots[k].folders)
    && FilesOf(roots[..k]) !! Files(roots[k].folders)
  }

  function FilesOf(roots: seq<Root>): set<Path> {
    if roots == [] then {} else FilesOf(roots[..|roots| - 1]) + Files(roots[|roots| - 1].folders)
  }

  /** How deep each child is. */
  function Depths(folders: seq<Folder>, depth: nat): (depths: map<Path, nat>)
    ensures depths.Keys == Files(folders)
    decreases folders
  {
    if folders == [] then map[]
    else
      (if folders[0].child.None? then map[]
          else map[folders[0].child.value := depth] + Depths(folders[0].subs, depth + 1))
      + Depths(folders[1..], depth)
  }

  function DepthsOf(roots: seq<Root>): (depths: map<Path, nat>)
    ensures depths.Keys == FilesOf(roots)
  {
    if roots == [] then map[] else DepthsOf(roots[..|roots| - 1]) + Depths(roots[|roots| - 1].folders, 1)
  }

  /** A child is as deep as the walk says, and one deeper than its parent. */
  ghost predicate Placed(depths: map<Path, nat>, m: Missing, top: Path, depth: nat) {
    && m.key.child in depths && m.depth == depths[m.key.child]
    && ((m.parent == top && m.depth == depth) || (m.parent in depths && m.depth == depths[m.parent] + 1))
  }

  lemma {:induction false} WalkPlaces(known: set<Path>, parent: Path, folders: seq<Folder>, depth: nat, m: Missing)
    requires OneFileEach(folders) && m in Unknown(known, parent, folders, depth)
    ensures Placed(Depths(folders, depth), m, parent, depth)
    decreases folders
  {
    if m in Unknown(known, parent, folders[1..], depth) {
      WalkPlaces(known, parent, folders[1..], depth, m);
    } else {
      var folder := folders[0];
      assert m in UnknownOf(known, parent, folder, depth);
      if m in Unknown(known, folder.child.value, folder.subs, depth + 1) {
        WalkPlaces(known, folder.child.value, folder.subs, depth + 1, m);
      }
    }
  }

  lemma {:induction false} RootsPlace(known: set<Path>, roots: seq<Root>, m: Missing)
    requires OneFileEachRoot(roots) && m in UnknownOfRoots(known, roots)
    ensures exists r :: 0 <= r < |roots| && Placed(DepthsOf(roots), m, roots[r].file, 1)
  {
    var k := |roots| - 1;
    if m in UnknownOfRoots(known, roots[..k]) {
      RootsPlace(known, roots[..k], m);
      var r :| 0 <= r < k && Placed(DepthsOf(roots[..k]), m, roots[..k][r].file, 1);
      assert roots[r] == roots[..k][r];
      assert Placed(DepthsOf(roots), m, roots[r].file, 1);
    } else {
      WalkPlaces(known, roots[k].file, roots[k].folders, 1, m);
      assert Placed(DepthsOf(roots), m, roots[k].file, 1);
    }
  }

  /** A child lies right under the top, or under a child that is known or that the walk met one level higher. */
  ghost predicate Hangs(known: set<Path>, met: seq<Missing>, m: Missing, top: Path, depth: nat) {
    || (m.parent == top && m.depth == depth)
    || m.parent in known
    || exists p :: p in met && p.key.child == m.parent && p.depth < m.depth
  }

  lemma {:induction false} WalkHangs(known: set<Path>, parent: Path, folders: seq<Folder>, depth: nat, m: Missing)
    requires m in Unknown(known, parent, folders, depth)
    ensures Hangs(known, Unknown(known, parent, folders, depth), m, parent, depth) && depth <= m.depth
    decreases folders
  {
    var all := Unknown(known, parent, folders, depth);
    assert all == UnknownOf(known, parent, folders[0], depth) + Unknown(known, parent, folders[1..], depth);
    if m in Unknown(known, parent, folders[1..], depth) {
      WalkHangs(known, parent, folders[1..], depth, m);
    } else {
      var folder := folders[0];
      assert m in UnknownOf(known, parent, folder, depth);
      if m in Unknown(known, folder.child.value, folder.subs, depth + 1) {
        var child := folder.child.value;
        WalkHangs(known, child, folder.subs, depth + 1, m);
        if m.parent == child && child !in known {
          assert UnknownOf(known, parent, folder, depth)[0].key.child == child;
          assert all[0].key.child == m.parent && all[0].depth < m.depth;
        }
      }
    }
  }

  /** Met under a root, a child lies under the root's file, a known one, or one met higher up. */
  ghost predicate Reached(known: set<Path>, roots: seq<Root>, met: seq<Missing>, m: Missing) {
    || (exists r :: r in roots && r.file == m.parent)
    || m.parent in known
    || exists p :: p in met && p.key.child == m.parent && p.depth < m.depth
  }

  lemma {:induction false} RootsReach(known: set<Path>, roots: seq<Root>, m: Missing)
    requires m in UnknownOfRoots(known, roots)
    ensures Reached(known, roots, UnknownOfRoots(known, roots), m)
  {
    var k := |roots| - 1;
    var front, last := UnknownOfRoots(known, roots[..k]), Unknown(known, roots[k].file, roots[k].folders, 1);
    assert UnknownOfRoots(known, roots) == front + last;
    if m in front {
      RootsReach(known, roots[..k], m);
    } else {
      WalkHangs(known, roots[k].file, roots[k].folders, 1, m);
      assert roots[k] in roots;
    }
  }

  /**
   * Parents before children: in the order appended, every edge's parent is a root session, has an edge in the ledger,
   * or got one earlier.
   */
  lemma ParentsFirst(edges: Edges, roots: seq<Root>, todo: seq<Missing>, j: nat)
    requires Adopts(edges, roots, todo) && j < |todo|
    ensures || (exists r :: r in roots && r.file == todo[j].parent)
            || todo[j].parent in Known(edges)
            || exists i :: 0 <= i < j && todo[i].key.child == todo[j].parent
  {
    hide UnknownOfRoots, Sorted, Adopts;
    var out := Met(edges, roots, todo);
    var all := UnknownOfRoots(Known(edges), roots);
    assert todo[j] in out;
    var k :| 0 <= k < |out| && out[k] == todo[j];
    RootsReach(Known(edges), roots, all[k]);
    hide Known, FreshNames;
    if p :| p in all && p.key.child == all[k].parent && p.depth < all[k].depth {
      var l :| 0 <= l < |all| && all[l] == p;
      EarlierInOrder(out, out[l], todo, j);
    }
  }

  lemma EarlierInOrder(out: seq<Missing>, p: Missing, todo: seq<Missing>, j: nat)
    requires todo == Sorted(out) && j < |todo| && p in out && p.depth < todo[j].depth
    ensures exists i :: 0 <= i < j && todo[i] == p
  {
    hide Sorted;
    assert p in todo;
    var i :| 0 <= i < |todo| && todo[i] == p;
  }

  /** When each folder names a file of its own, no edge of a parent comes after one of its child. */
  lemma NoParentComesLate(edges: Edges, roots: seq<Root>, todo: seq<Missing>, i: nat, j: nat)
    requires OneFileEachRoot(roots) && forall r :: 0 <= r < |roots| ==> roots[r].file !in FilesOf(roots)
    requires Adopts(edges, roots, todo)
    requires i < |todo| && j < |todo| && todo[j].parent == todo[i].key.child
    ensures i < j
  {
    hide *;
    var out := Met(edges, roots, todo);
    assert todo[i] in out && todo[j] in out;
    ChildIsDeeper(edges, roots, out, todo[i], todo[j]);
  }

  lemma ChildIsDeeper(edges: Edges, roots: seq<Root>, out: seq<Missing>, a: Missing, b: Missing)
    requires OneFileEachRoot(roots) && forall r :: 0 <= r < |roots| ==> roots[r].file !in FilesOf(roots)
    requires Named(out, UnknownOfRoots(Known(edges), roots))
    requires a in out && b in out && b.parent == a.key.child
    ensures b.depth == a.depth + 1
  {
    hide OneFileEachRoot, UnknownOfRoots, Named, FilesOf, Known;
    OutPlaced(edges, roots, out, a);
    OutPlaced(edges, roots, out, b);
  }

  lemma OutPlaced(edges: Edges, roots: seq<Root>, out: seq<Missing>, m: Missing)
    requires OneFileEachRoot(roots) && Named(out, UnknownOfRoots(Known(edges), roots)) && m in out
    ensures exists r :: 0 <= r < |roots| && Placed(DepthsOf(roots), m, roots[r].file, 1)
  {
    var k :| 0 <= k < |out| && out[k] == m;
    var met := UnknownOfRoots(Known(edges), roots)[k];
    RootsPlace(Known(edges), roots, met);
    var r :| 0 <= r < |roots| && Placed(DepthsOf(roots), met, roots[r].file, 1);
    assert Placed(DepthsOf(roots), m, roots[r].file, 1);
  }
}
