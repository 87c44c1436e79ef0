/** The three-way merge that the boxes' state sync runs per path, and what it keeps. */
module SyncMerge {
  import opened Options

  datatype Part = Harness | Corrections

  datatype Path = Path(part: Part, name: string)

  /** A file's bytes, with the newest time stamp they hold. */
  datatype Data = Data(bytes: string, stamp: int)

  type Files = map<Path, Data>

  function Get(files: Files, path: Path): Option<Data> {
    if path in files then Some(files[path]) else None
  }

  /** One path: a side that changed since the base wins, an edit beats a deletion, and of two edits the newer. */
  function Pick(mine: Option<Data>, prior: Option<Data>, theirs: Option<Data>): Option<Data> {
    if mine == theirs || theirs == prior then mine
    else if mine == prior then theirs
    else if mine == None || theirs == None then if mine != None then mine else theirs
    else if mine.value.stamp > theirs.value.stamp then mine
    else theirs
  }

  /** What a box that never synced takes as its base: its own files at the paths the shared state holds. */
  function JoinBase(local: Files, remote: Files): Files {
    map path | path in local && path in remote :: local[path]
  }

  function Merge(local: Files, base: Option<Files>, remote: Files): Files {
    var prior := if base.Some? then base.value else JoinBase(local, remote);
    map path | path in local.Keys + remote.Keys + prior.Keys &&
        Pick(Get(local, path), Get(prior, path), Get(remote, path)).Some?
      :: Pick(Get(local, path), Get(prior, path), Get(remote, path)).value
  }

  function PriorAt(local: Files, base: Option<Files>, remote: Files, path: Path): Option<Data> {
    if base.Some? then Get(base.value, path) else if path in remote then Get(local, path) else None
  }

  lemma SameFiles(left: Files, right: Files)
    requires forall path :: Get(left, path) == Get(right, path)
    ensures left == right
  {
    forall path ensures path in left <==> path in right {
      assert Get(left, path) == Get(right, path);
    }
    forall path | path in left ensures left[path] == right[path] {
      assert Get(left, path) == Get(right, path);
    }
  }

  lemma MergeAt(local: Files, base: Option<Files>, remote: Files, path: Path)
    ensures Get(Merge(local, base, remote), path)
            == Pick(Get(local, path), PriorAt(local, base, remote, path), Get(remote, path))
  {
  }

  /**
   * What a merge leaves at a path: the side that changed since the base; of an edit and a deletion the edit; of two
   * edits the one with the newer stamp, the shared state's when they tie.
   */
  lemma MergeSays(local: Files, base: Files, remote: Files, path: Path)
    ensures var mine, prior, theirs := Get(local, path), Get(base, path), Get(remote, path);
            var after := Get(Merge(local, Some(base), remote), path);
            && (mine == prior ==> after == theirs)
            && (theirs == prior ==> after == mine)
            && (mine != prior && theirs != prior ==>
                  match (mine, theirs)
                  case (None, None) => after == None
                  case (Some(edit), None) => after == Some(edit)
                  case (None, Some(edit)) => after == Some(edit)
                  case (Some(a), Some(b)) => after == Some(if a == b || a.stamp > b.stamp then a else b))
  {
    MergeAt(local, Some(base), remote, path);
  }

  // Joining

  /**
   * A first sync deletes nothing: it holds every path of either side, with the shared state's bytes where both hold
   * one.
   */
  lemma JoinIsUnion(local: Files, remote: Files)
    ensures Merge(local, None, remote) == local + remote
  {
    forall path ensures Get(Merge(local, None, remote), path) == Get(local + remote, path) {
      MergeAt(local, None, remote, path);
    }
    SameFiles(Merge(local, None, remote), local + remote);
  }

  // The two sides

  /** Both sides edited the path to different bytes with the same stamp. */
  predicate Tie(mine: Option<Data>, prior: Option<Data>, theirs: Option<Data>) {
    mine.Some? && theirs.Some? && mine != theirs && mine != prior && theirs != prior &&
        mine.value.stamp == theirs.value.stamp
  }

  /** Which side a box is on matters exactly where two edits tie. */
  lemma MergeIsSymmetric(left: Files, base: Files, right: Files)
    ensures Merge(left, Some(base), right) == Merge(right, Some(base), left)
            <==> forall path :: !Tie(Get(left, path), Get(base, path), Get(right, path))
  {
    var one, other := Merge(left, Some(base), right), Merge(right, Some(base), left);
    forall path
      ensures Get(one, path) == Get(other, path) <==> !Tie(Get(left, path), Get(base, path), Get(right, path))
    {
      MergeAt(left, Some(base), right, path);
      MergeAt(right, Some(base), left, path);
    }
    if forall path :: !Tie(Get(left, path), Get(base, path), Get(right, path)) {
      SameFiles(one, other);
    }
  }

  /** A path leaves a merge only where one side deleted it and the other left it alone. */
  lemma OnlyUneditedPathsGo(local: Files, base: Files, remote: Files, path: Path)
    requires path in local || path in remote
    ensures path !in Merge(local, Some(base), remote)
            <==> || (path !in local && Get(remote, path) == Get(base, path))
                 || (path !in remote && Get(local, path) == Get(base, path))
  {
    MergeAt(local, Some(base), remote, path);
    assert path in Merge(local, Some(base), remote) <==> Get(Merge(local, Some(base), remote), path).Some?;
  }

  // Merging again

  /** A box whose files are its base takes the shared state as it is. */
  lemma UneditedAdopts(base: Files, remote: Files)
    ensures Merge(base, Some(base), remote) == remote
  {
    forall path ensures Get(Merge(base, Some(base), remote), path) == Get(remote, path) {
      MergeAt(base, Some(base), remote, path);
    }
    SameFiles(Merge(base, Some(base), remote), remote);
  }

  /**
   * A push that lost its race leaves the merge on disk and the base behind it; with the remote as it was, the next run
   * ends the same.
   */
  lemma RetryIsIdempotent(local: Files, base: Files, remote: Files)
    ensures var merged := Merge(local, Some(base), remote); Merge(merged, Some(base), remote) == merged
  {
    var merged := Merge(local, Some(base), remote);
    forall path ensures Get(Merge(merged, Some(base), remote), path) == Get(merged, path) {
      MergeAt(local, Some(base), remote, path);
      MergeAt(merged, Some(base), remote, path);
    }
    SameFiles(Merge(merged, Some(base), remote), merged);
  }

  /**
   * After a lost race, a deletion at the remote of a path this box never touched survives exactly when the race brought
   * no edit of that path: an edit taken then is this box's own by the next run, and an edit beats a deletion.
   */
  lemma DeletionAfterLostRace(local: Files, base: Files, raced: Files, remote: Files, path: Path)
    requires path in base && Get(local, path) == Get(base, path) && path !in remote
    ensures var merged := Merge(local, Some(base), raced);
            path !in Merge(merged, Some(base), remote) <==> Get(raced, path) == Get(base, path) || path !in raced
  {
    var merged := Merge(local, Some(base), raced);
    MergeAt(local, Some(base), raced, path);
    MergeAt(merged, Some(base), remote, path);
    assert path in Merge(merged, Some(base), remote) <==> Get(Merge(merged, Some(base), remote), path).Some?;
  }

  // The limit on deletions

  function Removed(remote: Files, merged: Files): set<Path> {
    set path | path in remote && path !in merged
  }

  /** Whether the run stops before it writes: more than half of the shared entries would go. */
  predicate GuardTrips(remote: Files, merged: Files) {
    remote != map[] && |Removed(remote, merged)| * 2 > |remote|
  }

  /** The guard lets a merge through exactly when it keeps at least half of the shared entries. */
  lemma GuardKeepsHalf(remote: Files, merged: Files)
    ensures !GuardTrips(remote, merged) <==> |remote.Keys * merged.Keys| * 2 >= |remote|
  {
    assert remote.Keys == Removed(remote, merged) + remote.Keys * merged.Keys;
    assert |remote.Keys| == |Removed(remote, merged)| + |remote.Keys * merged.Keys|;
  }
}
