/**
 * How a box's harness state and corrections ledger become the files the sync merges, one per entry, and come back. A
 * run writes the state made from the merged files, and the next run must read the same files out of it.
 */
module StateFiles {
  import opened Options
  import opened SyncMerge

  /** An entry, a refinement event or a correction: the fields that name and order it, and the rest. */
  datatype Value = Value(id: string, createdAt: string, stamp: int, body: string)

  /** The harness state; an entry kind's records and the refinements keep an order, which no file shows. */
  datatype State = State(entries: map<string, map<string, Value>>, refinements: seq<Value>)

  /**
   * `canonical`, `json.loads` and the key hash of a refinement's name are not modelled, only that what is printed reads
   * back.
   */
  datatype Codec = Codec(print_: Value -> string, parse: string -> Value, key: Value -> string)

  ghost predicate ReadsBack(codec: Codec) {
    forall value :: codec.parse(codec.print_(value)) == value
  }

  const REFINEMENTS := "refinements"

  // Names

  function EntryName(kind: string, id: string): string {
    "harness/" + kind + "/" + id + ".json"
  }

  function RefinementName(codec: Codec, event: Value): string {
    EntryName(REFINEMENTS, event.id + "-" + codec.key(event))
  }

  function SlashFrom(name: string, at: nat): (end: nat)
    requires at <= |name|
    ensures at <= end <= |name| && '/' !in name[at..end] && (end < |name| ==> name[end] == '/')
    decreases |name| - at
  {
    if at == |name| || name[at] == '/' then at
    else
      var end := SlashFrom(name, at + 1);
      assert name[at..end] == [name[at]] + name[at + 1..end];
      end
  }

  /** The middle part of `path.split("/", 2)` for a path below `harness/`. */
  function KindOf(name: string): string {
    if |name| < 8 then "" else name[8..SlashFrom(name, 8)]
  }

  /** The last part, without `.json`. */
  function IdOf(name: string): string {
    if |name| < 8 then ""
    else
      var start := SlashFrom(name, 8) + 1;
      if start + 5 > |name| then "" else name[start..|name| - 5]
  }

  lemma NameReads(kind: string, id: string)
    requires '/' !in kind
    ensures KindOf(EntryName(kind, id)) == kind && IdOf(EntryName(kind, id)) == id
  {
    var name := EntryName(kind, id);
    var end := 8 + |kind|;
    assert name[8..end] == kind && name[end] == '/';
    assert name[end + 1..|name| - 5] == id;
  }

  // Harness files

  function FileOf(codec: Codec, value: Value): Data {
    Data(codec.print_(value), value.stamp)
  }

  function Named(name: string): Path {
    Path(Harness, name)
  }

  ghost function EntryFiles(codec: Codec, entries: map<string, map<string, Value>>): Files {
    map path: Path | path in EntryPaths(entries) :: FileOf(codec, entries[KindOf(path.name)][IdOf(path.name)])
  }

  ghost function EntryPaths(entries: map<string, map<string, Value>>): set<Path> {
    set kind, id | kind in entries && id in entries[kind] && KindOf(EntryName(kind, id)) == kind &&
        IdOf(EntryName(kind, id)) == id
      :: Named(EntryName(kind, id))
  }

  /** Later events of the list overwrite earlier ones of the same name. */
  function RefinementFiles(codec: Codec, events: seq<Value>): Files {
    if events == [] then map[]
    else
      var last := events[|events| - 1];
      RefinementFiles(codec, events[..|events| - 1])[Named(RefinementName(codec, last)) := FileOf(codec, last)]
  }

  ghost function HarnessFiles(codec: Codec, state: State): Files {
    EntryFiles(codec, state.entries) + RefinementFiles(codec, state.refinements)
  }

  /** Some listing of a set, as `sorted` gives one. */
  ghost function Listed<T(!new)>(items: set<T>): (list: seq<T>)
    ensures forall item :: item in list <==> item in items
  {
    if items == {} then []
    else
      var item :| item in items;
      [item] + Listed(items - {item})
  }

  ghost function HarnessFrom(codec: Codec, files: Files, current: State): State {
    var kinds := current.entries.Keys +
        (set path | path in files && KindOf(path.name) != REFINEMENTS :: KindOf(path.name));
    State(
      map kind | kind in kinds :: RecordsOf(codec, files, kind),
      Listed(set path | path in files && KindOf(path.name) == REFINEMENTS :: codec.parse(files[path].bytes)))
  }

  ghost function RecordsOf(codec: Codec, files: Files, kind: string): map<string, Value> {
    if kind == REFINEMENTS then map[]
    else
      map id | id in (set path | path in files && KindOf(path.name) == kind :: IdOf(path.name)) &&
          Named(EntryName(kind, id)) in files
        :: codec.parse(files[Named(EntryName(kind, id))].bytes)
  }

  // What every box's files look like

  ghost predicate WellNamed(codec: Codec, path: Path, data: Data) {
    && path.part == Harness
    && data == FileOf(codec, codec.parse(data.bytes))
    && path.name == if KindOf(path.name) == REFINEMENTS then RefinementName(codec, codec.parse(data.bytes))
                    else EntryName(KindOf(path.name), IdOf(path.name))
  }

  ghost predicate AllWellNamed(codec: Codec, files: Files) {
    forall path :: path in files ==> WellNamed(codec, path, files[path])
  }

  /** No entry kind takes the refinements' folder or holds a slash. */
  ghost predicate KindsApart(state: State) {
    forall kind :: kind in state.entries ==> kind != REFINEMENTS && '/' !in kind
  }

  lemma {:induction false} RefinementsWellNamed(codec: Codec, events: seq<Value>)
    requires ReadsBack(codec)
    ensures AllWellNamed(codec, RefinementFiles(codec, events))
    ensures forall path :: path in RefinementFiles(codec, events) ==> KindOf(path.name) == REFINEMENTS
  {
    if events != [] {
      var last := events[|events| - 1];
      RefinementsWellNamed(codec, events[..|events| - 1]);
      NameReads(REFINEMENTS, last.id + "-" + codec.key(last));
    }
  }

  /**
   * Whatever a state holds, its files are well named; a merge takes each file from one side, so merged files are too.
   */
  lemma HarnessFilesWellNamed(codec: Codec, state: State)
    requires ReadsBack(codec) && KindsApart(state)
    ensures AllWellNamed(codec, HarnessFiles(codec, state))
  {
    RefinementsWellNamed(codec, state.refinements);
  }

  lemma {:induction false} RefinementFilesAt(codec: Codec, events: seq<Value>, path: Path)
    ensures path in RefinementFiles(codec, events) <==>
        exists event :: event in events && path == Named(RefinementName(codec, event))
    ensures path in RefinementFiles(codec, events) ==>
      exists event :: event in events && path == Named(RefinementName(codec, event))
                      && RefinementFiles(codec, events)[path] == FileOf(codec, event)
  {
    if events != [] {
      var front, last := events[..|events| - 1], events[|events| - 1];
      RefinementFilesAt(codec, front, path);
      assert events == front + [last];
      assert last in events;
    }
  }

  lemma KindHasNoSlash(name: string)
    ensures '/' !in KindOf(name)
  {
  }

  lemma EntriesComeBack(codec: Codec, files: Files, current: State, path: Path)
    requires ReadsBack(codec) && AllWellNamed(codec, files) && KindsApart(current)
    ensures var entries := EntryFiles(codec, HarnessFrom(codec, files, current).entries);
            && (path in entries <==> path in files && KindOf(path.name) != REFINEMENTS)
            && (path in entries ==> entries[path] == files[path])
  {
    hide Listed, RefinementName, KindOf, IdOf, EntryName;
    var state := HarnessFrom(codec, files, current);
    var kind, id := KindOf(path.name), IdOf(path.name);
    if path in files && kind != REFINEMENTS {
      assert WellNamed(codec, path, files[path]);
      assert kind in state.entries && id in state.entries[kind];
      KindHasNoSlash(path.name);
      NameReads(kind, id);
      assert path in EntryPaths(state.entries);
    }
    if path in EntryPaths(state.entries) {
      assert id in state.entries[kind];
      assert path == Named(EntryName(kind, id));
      assert kind != REFINEMENTS;
      assert WellNamed(codec, path, files[path]);
    }
  }

  lemma RefinementsComeBack(codec: Codec, files: Files, current: State, path: Path)
    requires ReadsBack(codec) && AllWellNamed(codec, files)
    ensures var events := RefinementFiles(codec, HarnessFrom(codec, files, current).refinements);
            && (path in events <==> path in files && KindOf(path.name) == REFINEMENTS)
            && (path in events ==> events[path] == files[path])
  {
    var listed := HarnessFrom(codec, files, current).refinements;
    RefinementFilesAt(codec, listed, path);
    if path in files && KindOf(path.name) == REFINEMENTS {
      assert WellNamed(codec, path, files[path]);
      assert codec.parse(files[path].bytes) in listed;
    }
    forall event | event in listed && path == Named(RefinementName(codec, event))
      ensures path in files && KindOf(path.name) == REFINEMENTS && files[path] == FileOf(codec, event)
    {
      var from :| from in files && KindOf(from.name) == REFINEMENTS && codec.parse(files[from].bytes) == event;
      assert WellNamed(codec, from, files[from]);
      assert from == path;
    }
  }

  /** The state made from merged files gives back exactly those files, whatever the box held before. */
  lemma HarnessRoundTrip(codec: Codec, files: Files, current: State)
    requires ReadsBack(codec) && AllWellNamed(codec, files) && KindsApart(current)
    ensures HarnessFiles(codec, HarnessFrom(codec, files, current)) == files
    ensures KindsApart(HarnessFrom(codec, files, current))
  {
    var state := HarnessFrom(codec, files, current);
    forall path ensures Get(HarnessFiles(codec, state), path) == Get(files, path) {
      EntriesComeBack(codec, files, current, path);
      RefinementsComeBack(codec, files, current, path);
    }
    SameFiles(HarnessFiles(codec, state), files);
  }

  /** Where a kind takes the refinements' folder, its entries come back as refinements under other names. */
  lemma KindInRefinementsFolder(codec: Codec, value: Value)
    requires ReadsBack(codec)
    ensures var state := State(map[REFINEMENTS := map["x" := value]], []);
            var files := HarnessFiles(codec, state);
            && files == map[Named(EntryName(REFINEMENTS, "x")) := FileOf(codec, value)]
            && HarnessFrom(codec, files, state).entries == map[REFINEMENTS := map[]]
            && value in HarnessFrom(codec, files, state).refinements
  {
    hide Listed, KindOf, IdOf, FileOf;
    var state := State(map[REFINEMENTS := map["x" := value]], []);
    var path := Named(EntryName(REFINEMENTS, "x"));
    OneFile(codec, value);
    var files := HarnessFiles(codec, state);
    NameReads(REFINEMENTS, "x");
    var kinds := state.entries.Keys + (set p | p in files && KindOf(p.name) != REFINEMENTS :: KindOf(p.name));
    assert kinds == {REFINEMENTS};
    assert HarnessFrom(codec, files, state).entries == map[REFINEMENTS := map[]];
    assert files[path].bytes == codec.print_(value) by {
      PrintedBytes(codec, value);
    }
    assert codec.parse(files[path].bytes) == value;
  }

  lemma PrintedBytes(codec: Codec, value: Value)
    ensures FileOf(codec, value).bytes == codec.print_(value)
  {
  }

  lemma OneFile(codec: Codec, value: Value)
    ensures HarnessFiles(codec, State(map[REFINEMENTS := map["x" := value]], []))
            == map[Named(EntryName(REFINEMENTS, "x")) := FileOf(codec, value)]
  {
    hide KindOf, IdOf, FileOf;
    var state := State(map[REFINEMENTS := map["x" := value]], []);
    var path := Named(EntryName(REFINEMENTS, "x"));
    NameReads(REFINEMENTS, "x");
    assert state.entries[REFINEMENTS]["x"] == value;
    assert path in EntryPaths(state.entries);
    forall other | other in EntryPaths(state.entries)
      ensures other == path
    {
    }
  }

  // The corrections ledger

  function CorrectionPath(value: Value): Path {
    Path(Corrections, "corrections/" + value.id + ".json")
  }

  function LedgerFiles(codec: Codec, corrections: seq<Value>): Files {
    if corrections == [] then map[]
    else
      var last := corrections[|corrections| - 1];
      LedgerFiles(codec, corrections[..|corrections| - 1])[CorrectionPath(last) := FileOf(codec, last)]
  }

  ghost function LedgerFrom(codec: Codec, files: Files): seq<Value> {
    Listed(set path | path in files :: codec.parse(files[path].bytes))
  }

  ghost predicate AllCorrections(codec: Codec, files: Files) {
    forall path :: path in files ==>
      var value := codec.parse(files[path].bytes);
      path == CorrectionPath(value) && files[path] == FileOf(codec, value)
  }

  lemma {:induction false} LedgerFilesAt(codec: Codec, corrections: seq<Value>, path: Path)
    ensures path in LedgerFiles(codec, corrections) <==>
        exists value :: value in corrections && path == CorrectionPath(value)
    ensures path in LedgerFiles(codec, corrections) ==>
      exists value :: value in corrections && path == CorrectionPath(value) &&
          LedgerFiles(codec, corrections)[path] == FileOf(codec, value)
  {
    if corrections != [] {
      var front, last := corrections[..|corrections| - 1], corrections[|corrections| - 1];
      LedgerFilesAt(codec, front, path);
      assert corrections == front + [last];
      assert last in corrections;
    }
  }

  lemma LedgerRoundTrip(codec: Codec, files: Files)
    requires ReadsBack(codec) && AllCorrections(codec, files)
    ensures LedgerFiles(codec, LedgerFrom(codec, files)) == files
  {
    var listed := LedgerFrom(codec, files);
    var back := LedgerFiles(codec, listed);
    forall path ensures Get(back, path) == Get(files, path) {
      LedgerFilesAt(codec, listed, path);
      if path in files {
        assert codec.parse(files[path].bytes) in listed;
      }
      forall value | value in listed && path == CorrectionPath(value)
        ensures path in files && files[path] == FileOf(codec, value)
      {
        var from :| from in files && codec.parse(files[from].bytes) == value;
        assert from == path;
      }
    }
    SameFiles(back, files);
  }

  lemma {:induction false} LedgerFilesAreCorrections(codec: Codec, corrections: seq<Value>)
    requires ReadsBack(codec)
    ensures AllCorrections(codec, LedgerFiles(codec, corrections))
  {
    if corrections != [] {
      LedgerFilesAreCorrections(codec, corrections[..|corrections| - 1]);
    }
  }

  // A whole run

  /** What a box shares: its harness files and its corrections. */
  ghost function BoxFiles(codec: Codec, state: State, corrections: seq<Value>): Files {
    HarnessFiles(codec, state) + LedgerFiles(codec, corrections)
  }

  function Of(files: Files, part: Part): Files {
    map path | path in files && path.part == part :: files[path]
  }

  /** Every file of either part is named as a box names it. */
  ghost predicate AllNamed(codec: Codec, files: Files) {
    AllWellNamed(codec, Of(files, Harness)) && AllCorrections(codec, Of(files, Corrections))
  }

  lemma BoxFilesNamed(codec: Codec, state: State, corrections: seq<Value>)
    requires ReadsBack(codec) && KindsApart(state)
    ensures AllNamed(codec, BoxFiles(codec, state, corrections))
  {
    hide HarnessFiles, LedgerFiles, FileOf;
    var harness, ledger := HarnessFiles(codec, state), LedgerFiles(codec, corrections);
    HarnessFilesWellNamed(codec, state);
    LedgerFilesAreCorrections(codec, corrections);
    assert forall path :: path in harness ==> WellNamed(codec, path, harness[path]);
    assert Of(harness + ledger, Harness) == harness && Of(harness + ledger, Corrections) == ledger;
  }

  lemma MergedFrom(local: Files, base: Option<Files>, remote: Files, path: Path)
    requires path in Merge(local, base, remote)
    ensures var data := Merge(local, base, remote)[path];
            (path in local && data == local[path]) || (path in remote && data == remote[path])
  {
    MergeAt(local, base, remote, path);
    hide Merge;
    assert Get(Merge(local, base, remote), path) == Some(Merge(local, base, remote)[path]);
  }

  /** A merge takes each file from one side, so merged files are named as both sides' are. */
  lemma MergedNamed(codec: Codec, local: Files, base: Option<Files>, remote: Files)
    requires AllNamed(codec, local) && AllNamed(codec, remote)
    ensures AllNamed(codec, Merge(local, base, remote))
  {
    hide WellNamed, Merge, CorrectionPath, FileOf;
    var merged := Merge(local, base, remote);
    forall path | path in merged
      ensures (path in local && merged[path] == local[path]) || (path in remote && merged[path] == remote[path])
    {
      MergedFrom(local, base, remote, path);
    }
    forall path, part | path in Of(merged, part)
      ensures (path in Of(local, part) && merged[path] == Of(local, part)[path])
           || (path in Of(remote, part) && merged[path] == Of(remote, part)[path])
    {
    }
  }

  /**
   * A run right after a run: the box reads back the harness files and the corrections it wrote, and merging them again
   * changes nothing and pushes nothing.
   */
  lemma NextRunIsStill(codec: Codec, state: State, corrections: seq<Value>, base: Option<Files>, remote: Files)
    requires ReadsBack(codec) && KindsApart(state) && AllNamed(codec, remote)
    ensures var merged := Merge(BoxFiles(codec, state, corrections), base, remote);
            var after, ledger := HarnessFrom(codec, Of(merged, Harness), state),
                LedgerFrom(codec, Of(merged, Corrections));
            && BoxFiles(codec, after, ledger) == merged
            && Merge(BoxFiles(codec, after, ledger), Some(merged), merged) == merged
  {
    hide HarnessFiles, LedgerFiles, HarnessFrom, LedgerFrom, Merge, AllWellNamed, AllCorrections, KindsApart;
    var local := BoxFiles(codec, state, corrections);
    var merged := Merge(local, base, remote);
    BoxFilesNamed(codec, state, corrections);
    MergedNamed(codec, local, base, remote);
    HarnessRoundTrip(codec, Of(merged, Harness), state);
    LedgerRoundTrip(codec, Of(merged, Corrections));
    assert Of(merged, Harness) + Of(merged, Corrections) == merged by {
      forall path ensures Get(Of(merged, Harness) + Of(merged, Corrections), path) == Get(merged, path) {
        assert path.part == Harness || path.part == Corrections;
      }
      SameFiles(Of(merged, Harness) + Of(merged, Corrections), merged);
    }
    UneditedAdopts(merged, merged);
  }
}
