/**
 * A room's posts: an append-only log of lines, the list they replay to, and the store that keeps that list in memory
 * while the queue writes the lines.
 */
module PostLog {
  import opened Options
  import opened DiskQueue
  import DiskRuns
  import opened DiskWrites

  /**
   * A post as the store keeps it; `id` is the number in its `p<seq>`, `number` its seq, `body` every field a patch may
   * change.
   */
  datatype Post<V> = Post(id: nat, number: nat, requestId: string, body: map<string, V>)

  datatype Line<V> = Added(post: Post<V>) | Changed(id: nat, patch: map<string, V>)

  /* ---- Replay ---- */

  /** Where the list holds a post; its length when it does not. */
  function PlaceOf<V>(list: seq<Post<V>>, id: nat): (at: nat)
    ensures at <= |list| && (at < |list| ==> list[at].id == id)
    ensures forall k :: 0 <= k < at ==> list[k].id != id
  {
    if list == [] || list[0].id == id then 0 else 1 + PlaceOf(list[1..], id)
  }

  /** `Object.assign` of a patch onto the post at a place. */
  function Patch<V>(list: seq<Post<V>>, at: nat, patch: map<string, V>): seq<Post<V>>
    requires at < |list|
  {
    list[at := list[at].(body := list[at].body + patch)]
  }

  function Step<V>(list: seq<Post<V>>, line: Line<V>): seq<Post<V>> {
    match line
    case Added(post) => if PlaceOf(list, post.id) < |list| then list else list + [post]
    case Changed(id, patch) =>
      var at := PlaceOf(list, id);
      if at < |list| then Patch(list, at, patch) else list
  }

  function Replay<V>(lines: seq<Line<V>>): seq<Post<V>> {
    if lines == [] then [] else Step(Replay(lines[..|lines| - 1]), lines[|lines| - 1])
  }

  lemma ReplayNothing<V>(lines: seq<Line<V>>)
    ensures Replay(lines[..0]) == []
  {
  }

  lemma ReplaySnoc<V>(lines: seq<Line<V>>, k: nat)
    requires k < |lines|
    ensures Replay(lines[..k + 1]) == Step(Replay(lines[..k]), lines[k])
  {
    assert lines[..k + 1][..k] == lines[..k];
  }

  /** The replay the code makes: one pass with a map of the posts seen so far. */
  method ReplayLines<V>(lines: seq<Line<V>>) returns (list: seq<Post<V>>)
    ensures list == Replay(lines)
  {
    hide Replay, PlaceOf;
    ReplayNothing(lines);
    list := [];
    var byId: map<nat, nat> := map[];
    for k := 0 to |lines|
      invariant list == Replay(lines[..k])
      invariant forall i, j :: 0 <= i < j < |list| ==> list[i].id != list[j].id
      invariant forall id :: id in byId ==> byId[id] < |list| && list[byId[id]].id == id
      invariant forall i :: 0 <= i < |list| ==> list[i].id in byId
    {
      ReplaySnoc(lines, k);
      var line := lines[k];
      match line
      case Added(post) =>
        if post.id !in byId {
          byId := byId[post.id := |list|];
          list := list + [post];
        }
      case Changed(id, patch) =>
        if id in byId {
          var at := byId[id];
          assert at == PlaceOf(list, id);
          list := Patch(list, at, patch);
        }
    }
    assert lines[..|lines|] == lines;
  }

  /* ---- The logs this store writes ---- */

  /** Each post line is the next seq under a new requestId, and each change is of a post already there. */
  ghost predicate Sound<V>(lines: seq<Line<V>>) {
    lines == [] ||
    var front, last := lines[..|lines| - 1], lines[|lines| - 1];
    Sound(front) &&
    (match last
     case Added(post) =>
       && post.id == post.number == |Replay(front)| + 1
       && forall i :: 0 <= i < |Replay(front)| ==> Replay(front)[i].requestId != post.requestId
     case Changed(id, patch) => 1 <= id <= |Replay(front)|)
  }

  /** Seqs and ids are 1 to n with no gap, and no requestId comes twice. */
  ghost predicate WellFormed<V>(list: seq<Post<V>>) {
    && (forall i :: 0 <= i < |list| ==> list[i].id == list[i].number == i + 1)
    && (forall i, j :: 0 <= i < j < |list| ==> list[i].requestId != list[j].requestId)
  }

  lemma {:induction false} SoundIsWellFormed<V>(lines: seq<Line<V>>)
    requires Sound(lines)
    ensures WellFormed(Replay(lines))
  {
    if lines != [] {
      SoundIsWellFormed(lines[..|lines| - 1]);
    }
  }

  lemma {:induction false} SoundPrefix<V>(lines: seq<Line<V>>, n: nat)
    requires Sound(lines) && n <= |lines|
    ensures Sound(lines[..n])
  {
    if n < |lines| {
      assert lines[..|lines| - 1][..n] == lines[..n];
      SoundPrefix(lines[..|lines| - 1], n);
    } else {
      assert lines[..n] == lines;
    }
  }

  /* ---- Lines read twice ---- */

  /** The posts as first added, in order. */
  function Firsts<V>(lines: seq<Line<V>>): seq<Post<V>> {
    if lines == [] then []
    else
      var front, last := Firsts(lines[..|lines| - 1]), lines[|lines| - 1];
      if last.Added? && PlaceOf(front, last.post.id) == |front| then front + [last.post] else front
  }

  /** All patches of a post, a later one over an earlier one. */
  function Patches<V>(lines: seq<Line<V>>, id: nat): map<string, V> {
    if lines == [] then map[]
    else
      var front, last := Patches(lines[..|lines| - 1], id), lines[|lines| - 1];
      if last.Changed? && last.id == id then front + last.patch else front
  }

  /** Every change is of a post in `known` or added before it. */
  ghost predicate Refers<V>(known: set<nat>, lines: seq<Line<V>>) {
    lines == [] ||
    var front, last := lines[..|lines| - 1], lines[|lines| - 1];
    Refers(known, front) && (last.Changed? ==> last.id in known + Ids(front))
  }

  function Ids<V>(lines: seq<Line<V>>): set<nat> {
    if lines == [] then {}
    else Ids(lines[..|lines| - 1]) + (if lines[|lines| - 1].Added? then {lines[|lines| - 1].post.id} else {})
  }

  lemma {:induction false} FirstsIds<V>(lines: seq<Line<V>>, id: nat)
    ensures id in Ids(lines) <==> PlaceOf(Firsts(lines), id) < |Firsts(lines)|
    ensures forall i, j :: 0 <= i < j < |Firsts(lines)| ==> Firsts(lines)[i].id != Firsts(lines)[j].id
  {
    if lines != [] {
      var front, last := lines[..|lines| - 1], lines[|lines| - 1];
      FirstsIds(front, id);
      if last.Added? && last.post.id == id && PlaceOf(Firsts(front), id) == |Firsts(front)| {
        assert Firsts(lines)[|Firsts(front)|].id == id;
      }
      if PlaceOf(Firsts(front), id) < |Firsts(front)| {
        assert Firsts(lines)[PlaceOf(Firsts(front), id)].id == id;
      }
    }
  }

  /** The replay of a log whose changes refer back: each post as first added, under all of its patches. */
  ghost predicate Patched<V>(lines: seq<Line<V>>, list: seq<Post<V>>) {
    && |list| == |Firsts(lines)|
    && forall i :: 0 <= i < |list| ==>
        list[i] == Firsts(lines)[i].(body := Firsts(lines)[i].body + Patches(lines, Firsts(lines)[i].id))
  }

  lemma {:induction false} ReplayIsPatched<V>(lines: seq<Line<V>>)
    requires Refers({}, lines)
    ensures Patched(lines, Replay(lines))
  {
    if lines != [] {
      var front, last := lines[..|lines| - 1], lines[|lines| - 1];
      ReplayIsPatched(front);
      match last
      case Added(post) => PatchedByPost(lines, front, post);
      case Changed(id, patch) => PatchedByChange(lines, front, id, patch);
    }
  }

  lemma PatchedByPost<V>(lines: seq<Line<V>>, front: seq<Line<V>>, post: Post<V>)
    requires lines == front + [Added(post)] && Refers({}, front) && Patched(front, Replay(front))
    ensures Patched(lines, Replay(lines))
  {
    assert lines[..|lines| - 1] == front;
    var before, firsts := Replay(front), Firsts(front);
    assert forall i :: 0 <= i < |firsts| ==> before[i].id == firsts[i].id;
    assert PlaceOf(before, post.id) == PlaceOf(firsts, post.id);
    assert forall id :: Patches(lines, id) == Patches(front, id);
    if PlaceOf(firsts, post.id) == |firsts| {
      FirstsIds(front, post.id);
      NoPatchYet(front, post.id);
      assert post.body + map[] == post.body;
    }
  }

  lemma PatchedByChange<V>(lines: seq<Line<V>>, front: seq<Line<V>>, id: nat, patch: map<string, V>)
    requires lines == front + [Changed(id, patch)] && id in Ids(front) && Patched(front, Replay(front))
    ensures Patched(lines, Replay(lines))
  {
    LastChange(lines, front, id, patch);
    FirstsIds(front, id);
    hide Ids, Replay, Firsts, Patches;
    var before, firsts := Replay(front), Firsts(front);
    assert forall i :: 0 <= i < |firsts| ==> before[i].id == firsts[i].id;
    var at := PlaceOf(before, id);
    assert at == PlaceOf(firsts, id);
    Overlaid(firsts[at].body, Patches(front, id), patch);
    forall i | 0 <= i < |firsts|
      ensures Replay(lines)[i] == firsts[i].(body := firsts[i].body + Patches(lines, firsts[i].id))
    {
      if i != at {
        assert firsts[i].id != id;
      }
    }
  }

  lemma LastChange<V>(lines: seq<Line<V>>, front: seq<Line<V>>, id: nat, patch: map<string, V>)
    requires lines == front + [Changed(id, patch)]
    ensures Replay(lines) == Step(Replay(front), Changed(id, patch)) && Firsts(lines) == Firsts(front)
    ensures forall other ::
      Patches(lines, other) == (if other == id then Patches(front, id) + patch else Patches(front, other))
  {
    hide Step;
    assert lines[..|lines| - 1] == front;
  }

  lemma Overlaid<V>(a: map<string, V>, b: map<string, V>, c: map<string, V>)
    ensures a + b + c == a + (b + c)
  {
  }

  lemma {:induction false} NoPatchYet<V>(lines: seq<Line<V>>, id: nat)
    requires Refers({}, lines) && id !in Ids(lines)
    ensures Patches(lines, id) == map[]
  {
    if lines != [] {
      NoPatchYet(lines[..|lines| - 1], id);
    }
  }

  lemma Front<V>(a: seq<Line<V>>, b: seq<Line<V>>)
    requires b != []
    ensures (a + b)[..|a + b| - 1] == a + b[..|b| - 1] && (a + b)[|a + b| - 1] == b[|b| - 1]
  {
  }

  lemma {:induction false} IdsOf<V>(a: seq<Line<V>>, b: seq<Line<V>>)
    ensures Ids(a + b) == Ids(a) + Ids(b)
  {
    if b == [] {
      assert a + b == a;
    } else {
      Front(a, b);
      IdsOf(a, b[..|b| - 1]);
    }
  }

  lemma {:induction false} PatchesOf<V>(a: seq<Line<V>>, b: seq<Line<V>>, id: nat)
    ensures Patches(a + b, id) == Patches(a, id) + Patches(b, id)
  {
    if b == [] {
      assert a + b == a;
    } else {
      Front(a, b);
      PatchesOf(a, b[..|b| - 1], id);
    }
  }

  lemma {:induction false} RefersOf<V>(known: set<nat>, a: seq<Line<V>>, b: seq<Line<V>>)
    ensures Refers(known, a + b) <==> Refers(known, a) && Refers(known + Ids(a), b)
  {
    if b == [] {
      assert a + b == a;
    } else {
      Front(a, b);
      RefersOf(known, a, b[..|b| - 1]);
      IdsOf(a, b[..|b| - 1]);
    }
  }

  lemma {:induction false} RefersMore<V>(known: set<nat>, more: set<nat>, lines: seq<Line<V>>)
    requires Refers(known, lines) && known <= more
    ensures Refers(more, lines)
  {
    if lines != [] {
      RefersMore(known, more, lines[..|lines| - 1]);
    }
  }

  lemma {:induction false} FirstsAbsorb<V>(a: seq<Line<V>>, b: seq<Line<V>>)
    requires Ids(b) <= Ids(a)
    ensures Firsts(a + b) == Firsts(a)
  {
    if b == [] {
      assert a + b == a;
    } else {
      Front(a, b);
      FirstsAbsorb(a, b[..|b| - 1]);
      var last := b[|b| - 1];
      if last.Added? {
        FirstsIds(a, last.post.id);
      }
    }
  }

  lemma {:induction false} FirstsCongruent<V>(a: seq<Line<V>>, b: seq<Line<V>>, c: seq<Line<V>>)
    requires Firsts(a) == Firsts(b)
    ensures Firsts(a + c) == Firsts(b + c)
  {
    if c == [] {
      assert a + c == a && b + c == b;
    } else {
      Front(a, c);
      Front(b, c);
      FirstsCongruent(a, b, c[..|c| - 1]);
    }
  }

  lemma SameReplay<V>(a: seq<Line<V>>, b: seq<Line<V>>)
    requires Refers({}, a) && Refers({}, b) && Firsts(a) == Firsts(b) && forall id :: Patches(a, id) == Patches(b, id)
    ensures Replay(a) == Replay(b)
  {
    ReplayIsPatched(a);
    ReplayIsPatched(b);
  }

  /** A log that holds some of a block of lines, then all of it, replays as if it held the block once. */
  lemma RepeatIsNoOp<V>(before: seq<Line<V>>, block: seq<Line<V>>, n: nat, rest: seq<Line<V>>)
    requires n <= |block| && Refers({}, before + block + rest)
    ensures Refers({}, before + block[..n] + block + rest)
    ensures Replay(before + block[..n] + block + rest) == Replay(before + block + rest)
  {
    hide *;
    var part, tail := block[..n], block[n..];
    assert block == part + tail;
    RepeatRefers(before, part, tail, rest);
    RepeatFirsts(before, part, tail);
    FirstsCongruent(before + part + block, before + block, rest);
    forall id
      ensures Patches(before + part + block + rest, id) == Patches(before + block + rest, id)
    {
      RepeatPatches(before, part, tail, rest, id);
    }
    SameReplay(before + part + block + rest, before + block + rest);
  }

  lemma RepeatRefers<V>(before: seq<Line<V>>, part: seq<Line<V>>, tail: seq<Line<V>>, rest: seq<Line<V>>)
    requires Refers({}, before + (part + tail) + rest)
    ensures Refers({}, before + part + (part + tail) + rest)
  {
    hide *;
    var block := part + tail;
    RefersOf({}, before + block, rest);
    RefersOf({}, before, block);
    RefersOf({} + Ids(before), part, tail);
    RefersOf({}, before, part);
    IdsOf(before, part);
    RefersMore({} + Ids(before), {} + Ids(before + part), block);
    RefersOf({}, before + part, block);
    IdsOf(before, block);
    IdsOf(before + part, block);
    IdsOf(part, tail);
    assert {} + Ids(before + part + block) == {} + Ids(before + block);
    RefersOf({}, before + part + block, rest);
  }

  lemma RepeatPatches<V>(before: seq<Line<V>>, part: seq<Line<V>>, tail: seq<Line<V>>, rest: seq<Line<V>>, id: nat)
    ensures Patches(before + part + (part + tail) + rest, id) == Patches(before + (part + tail) + rest, id)
  {
    hide *;
    var block := part + tail;
    PatchesOf(before + part + block, rest, id);
    PatchesOf(before + block, rest, id);
    PatchesOf(before + part, block, id);
    PatchesOf(before, part, id);
    PatchesOf(before, block, id);
    PatchesOf(part, tail, id);
    var b, p, t := Patches(before, id), Patches(part, id), Patches(tail, id);
    assert b + p + (p + t) == b + (p + t);
  }

  lemma RepeatFirsts<V>(before: seq<Line<V>>, part: seq<Line<V>>, tail: seq<Line<V>>)
    ensures Firsts(before + part + (part + tail)) == Firsts(before + (part + tail))
  {
    hide *;
    IdsOf(before, part);
    FirstsAbsorb(before + part, part);
    FirstsCongruent(before + part + part, before + part, tail);
    assert before + part + part + tail == before + part + (part + tail);
    assert before + part + tail == before + (part + tail);
  }

  lemma {:induction false} SoundRefers<V>(lines: seq<Line<V>>)
    requires Sound(lines)
    ensures Refers({}, lines)
  {
    if lines != [] {
      var front, last := lines[..|lines| - 1], lines[|lines| - 1];
      SoundRefers(front);
      if last.Changed? {
        SoundIsWellFormed(front);
        ReplayIsPatched(front);
        FirstsIds(front, last.id);
        assert Replay(front)[last.id - 1].id == Firsts(front)[last.id - 1].id;
      }
    }
  }

  /**
   * Without that, a repeat can change the replay: a change that came before its post is skipped once and then applied.
   */
  lemma RepeatCanMatter()
    ensures var block := [Changed(1, map["text" := 2]), Added(Post(1, 1, "r", map["text" := 1]))];
            Replay(block + block) != Replay(block)
  {
    var change, add := Changed(1, map["text" := 2]), Added(Post(1, 1, "r", map["text" := 1]));
    var block := [change, add];
    var post := Post(1, 1, "r", map["text" := 1]);
    assert block[..1] == [change] && [change][..0] == [];
    assert Replay([change]) == [];
    assert Replay(block) == [post];
    assert (block + block)[..3] == [change, add, change] && [change, add, change][..2] == block;
    var list := Replay([change, add, change]);
    assert list == Step([post], change);
    assert list[0].body["text"] == 2;
    assert Replay(block + block) == Step(list, add);
  }

  /* ---- A log in the write queue ---- */

  type RoomId = string

  predicate Word(c: char) {
    'a' <= c <= 'z' || 'A' <= c <= 'Z' || '0' <= c <= '9' || c == '_' || c == '.' || c == '-'
  }

  function Clean(room: RoomId): (name: string)
    ensures |name| == |room|
  {
    if room == "" then "" else [if Word(room[0]) then room[0] else '_'] + Clean(room[1..])
  }

  function LogFile(room: RoomId): Path {
    "rooms/" + Clean(room) + ".jsonl"
  }

  /** The ids the server makes: `dm_`, `ch_` and `so_` with letters, digits and dashes, which name one file each. */
  predicate PlainRoom(room: RoomId) {
    Clean(room) == room
  }

  /** A file name can hold the character: a letter, a digit, a dot or a dash. */
  ghost predicate Holdable(c: char) {
    || 'a' <= c <= 'z' || 'A' <= c <= 'Z' || '0' <= c <= '9'
    || c == '.' || c == '-'
  }

  lemma {:induction false} CleanAt(room: RoomId, k: nat)
    requires k < |room|
    ensures Clean(room)[k] == if Holdable(room[k]) then room[k] else '_'
  {
    if k > 0 {
      CleanAt(room[1..], k - 1);
    }
  }

  /** A room's id is its file's name exactly when it has no character but letters, digits, `_`, `.` and `-`. */
  lemma PlainExactly(room: RoomId)
    ensures PlainRoom(room) <==> forall c :: c in room ==> Holdable(c) || c == '_'
  {
    hide Clean, Holdable;
    forall k | 0 <= k < |room| ensures Clean(room)[k] == if Holdable(room[k]) then room[k] else '_' {
      CleanAt(room, k);
    }
    if forall c :: c in room ==> Holdable(c) || c == '_' {
      assert Clean(room) == room;
    }
  }

  /** Two rooms share a log file exactly when their ids are the same up to characters the name cannot hold. */
  lemma FilesApart(a: RoomId, b: RoomId)
    ensures LogFile(a) == LogFile(b) <==>
              |a| == |b| && forall k :: 0 <= k < |a| ==> a[k] == b[k] || (!Holdable(a[k]) && !Holdable(b[k]))
  {
    hide Clean, Holdable;
    forall k | 0 <= k < |a| ensures Clean(a)[k] == if Holdable(a[k]) then a[k] else '_' {
      CleanAt(a, k);
    }
    forall k | 0 <= k < |b| ensures Clean(b)[k] == if Holdable(b[k]) then b[k] else '_' {
      CleanAt(b, k);
    }
    UnderscoreIsNot();
    SameClean(a, b);
    assert Clean(a) == Clean(b) ==> forall k :: 0 <= k < |a| ==> Clean(a)[k] == Clean(b)[k];
    if |a| == |b| && forall k :: 0 <= k < |a| ==> a[k] == b[k] || (!Holdable(a[k]) && !Holdable(b[k])) {
      assert Clean(a) == Clean(b);
    }
  }

  lemma UnderscoreIsNot()
    ensures !Holdable('_')
  {
  }

  lemma SameClean(a: RoomId, b: RoomId)
    ensures LogFile(a) == LogFile(b) <==> Clean(a) == Clean(b)
  {
    if LogFile(a) == LogFile(b) {
      assert |Clean(a)| == |LogFile(a)| - 12 == |LogFile(b)| - 12 == |Clean(b)|;
      assert LogFile(a)[6..6 + |Clean(a)|] == Clean(a);
      assert LogFile(b)[6..6 + |Clean(b)|] == Clean(b);
    }
  }

  function Lines<T>(text: Option<seq<T>>): seq<T> {
    if text.Some? then text.value else []
  }

  /** What a file holds once every call so far is written. */
  function LogOf<T>(h: History<T>, path: Path): seq<T> {
    Lines(Played(Read(h.start, path), h.calls, h.dropped + h.failed, |h.calls|, path))
  }

  ghost predicate OnlyAppends<T>(calls: seq<Call<T>>, path: Path) {
    forall i :: 0 <= i < |calls| && calls[i].path == path ==> calls[i].kind == Append
  }

  lemma LogGrows<T>(h: History<T>, path: Path, text: seq<T>, other: Path)
    requires forall i :: i in h.dropped + h.failed ==> i < |h.calls|
    ensures LogOf(DiskRuns.AfterAppend(h, path, text), other) ==
        (if other == path then LogOf(h, path) + text else LogOf(h, other))
  {
    var g := DiskRuns.AfterAppend(h, path, text);
    var n := |h.calls|;
    PlayedFrame(Read(h.start, other), h.calls, g.calls, h.dropped + h.failed, g.dropped + g.failed, n, other);
    assert n !in g.dropped + g.failed;
    assert [] + text == text;
  }

  /** The lines of a path that the running write has not put on disk. */
  function Unlanded<T>(s: State<T>, path: Path): seq<T> {
    if s.current.Some? && s.current.value.path == path then Rest(s) else []
  }

  lemma LogOfRunning<T>(s: State<T>, h: History<T>, path: Path)
    requires Inv(s, h) && OnlyAppends(h.calls, path) && s.current.Some? && s.current.value.path == path
    ensures LogOf(h, path) == Lines(Read(s.files, path)) + Rest(s) + DiskWrites.Added(s.queue, path)
  {
    hide Chain, Superseded, LastForIsLast, PromisesApart, Backed, Played, Base;
    var base, text := Base(h, path), s.current.value.text;
    PendingPlayed(s, h, path);
    NoReplaceQueued(s, h, path);
    RunningAppends(s, h, path);
    AfterHead(base, s.current.value, s.queue, path);
    AppendsAdd(Do(base, Append, text), s.queue, path);
    if s.landing.Some? {
      LandedThenRest(s, base);
      assert Read(s.files, path) == Some(Do(base, Append, text[..s.landing.value]));
    } else {
      assert Read(s.files, path) == base && [] + text == text;
    }
  }

  lemma LogOfWaiting<T>(s: State<T>, h: History<T>, path: Path)
    requires Inv(s, h) && OnlyAppends(h.calls, path) && (s.current.Some? ==> s.current.value.path != path)
    ensures LogOf(h, path) == Lines(Read(s.files, path)) + DiskWrites.Added(s.queue, path)
  {
    hide Chain, Superseded, LastForIsLast, PromisesApart, Backed, Played, Base;
    var base := Base(h, path);
    PendingPlayed(s, h, path);
    NoReplaceQueued(s, h, path);
    if s.current.Some? {
      AfterHead(base, s.current.value, s.queue, path);
    } else {
      assert Pending(s) == s.queue;
    }
    assert Read(s.files, path) == base;
    if base.Some? {
      AppendsAdd(base.value, s.queue, path);
    } else {
      AppendsAddNone(s.queue, path);
    }
  }

  /** A log is what its file holds, then what is left of the running write, then what waits. */
  lemma LogIs<T>(s: State<T>, h: History<T>, path: Path)
    requires Inv(s, h) && OnlyAppends(h.calls, path)
    ensures LogOf(h, path) == Lines(Read(s.files, path)) + Unlanded(s, path) + DiskWrites.Added(s.queue, path)
  {
    hide Inv, LogOf;
    if s.current.Some? && s.current.value.path == path {
      LogOfRunning(s, h, path);
    } else {
      LogOfWaiting(s, h, path);
      assert Lines(Read(s.files, path)) + [] == Lines(Read(s.files, path));
    }
  }

  /** At every moment an append-only file holds a prefix of its calls' lines, so a crash leaves one. */
  lemma CrashLeavesAPrefix<T>(s: State<T>, h: History<T>, path: Path)
    requires Inv(s, h) && OnlyAppends(h.calls, path)
    ensures Lines(Read(s.files, path)) <= LogOf(h, path)
  {
    hide *;
    LogIs(s, h, path);
  }

  lemma RunningAppends<T>(s: State<T>, h: History<T>, path: Path)
    requires Inv(s, h) && OnlyAppends(h.calls, path) && s.current.Some? && s.current.value.path == path
    ensures s.current.value.kind == Append
  {
    assert Pending(s)[0] == s.current.value;
    BlockEnds(s.current.value, h.calls);
  }

  lemma NoReplaceQueued<T>(s: State<T>, h: History<T>, path: Path)
    requires Inv(s, h) && OnlyAppends(h.calls, path)
    ensures NoReplace(s.queue, path)
  {
    hide LastForIsLast, PromisesApart, Backed, Played, FilesMatch, Superseded, Covered, Block;
    forall k | 0 <= k < |s.queue|
      ensures !(s.queue[k].kind == Replace && s.queue[k].path == path)
    {
      DiskRuns.QueuedIsPending(s, k);
      BlockEnds(s.queue[k], h.calls);
    }
  }

  /** A log that misses a stretch of lines. */
  ghost predicate Lacks<T>(log: seq<T>, now: seq<T>, lost: seq<T>) {
    exists i :: 0 <= i <= |log| - |lost| && log[i..i + |lost|] == lost && now == log[..i] + log[i + |lost|..]
  }

  /** When the running write fails, its log loses the lines that had not landed, and no other. */
  lemma FailedLog<T>(s: State<T>, h: History<T>, path: Path)
    requires Inv(s, h) && s.current.Some? && OnlyAppends(h.calls, path)
    ensures Lacks(LogOf(h, path), LogOf(DiskRuns.AfterFail(s, h), path), Unlanded(s, path))
  {
    hide *;
    var t, g := Finished(s), DiskRuns.AfterFail(s, h);
    DiskRuns.FailKeeps(s, h);
    LogIs(s, h, path);
    StillAppends(s, h, path);
    LogIs(t, g, path);
    NextTaken(s, path);
    var left, right := Lines(Read(s.files, path)), DiskWrites.Added(s.queue, path);
    assert left + Unlanded(t, path) + DiskWrites.Added(t.queue, path) == left + right;
    LacksBetween(left, Unlanded(s, path), right);
  }

  lemma LacksBetween<T>(left: seq<T>, lost: seq<T>, right: seq<T>)
    ensures Lacks(left + lost + right, left + right, lost)
  {
    var log, i := left + lost + right, |left|;
    assert log[i..i + |lost|] == lost && log[..i] == left && log[i + |lost|..] == right;
  }

  lemma LacksMeans<T>(log: seq<T>, now: seq<T>, lost: seq<T>) returns (left: seq<T>, right: seq<T>)
    requires Lacks(log, now, lost)
    ensures log == left + lost + right && now == left + right
  {
    var i :| 0 <= i <= |log| - |lost| && log[i..i + |lost|] == lost && now == log[..i] + log[i + |lost|..];
    left, right := log[..i], log[i + |lost|..];
    assert log == log[..i] + log[i..i + |lost|] + log[i + |lost|..];
  }

  lemma StillAppends<T>(s: State<T>, h: History<T>, path: Path)
    requires s.current.Some? && OnlyAppends(h.calls, path)
    ensures OnlyAppends(DiskRuns.AfterFail(s, h).calls, path)
  {
    if s.landing.Some? {
      DiskRuns.CutShape(h.calls, s.current.value.first, s.current.value.past, s.landing.value);
    }
    hide DiskRuns.Cut;
  }

  lemma NextTaken<T>(s: State<T>, path: Path)
    requires s.current.Some?
    ensures Finished(s).files == s.files
    ensures Unlanded(Finished(s), path) + DiskWrites.Added(Finished(s).queue, path) == DiskWrites.Added(s.queue, path)
  {
    if s.queue != [] {
      assert s.queue == [s.queue[0]] + s.queue[1..];
      AddedHead(s.queue[0], s.queue[1..], path);
    }
  }

  lemma {:induction false} AddedHead<T>(op: Op<T>, ops: seq<Op<T>>, path: Path)
    ensures DiskWrites.Added([op] + ops, path) ==
        (if op.path == path then op.text else []) + DiskWrites.Added(ops, path)
  {
    var all := [op] + ops;
    if ops == [] {
      assert all[..0] == [];
    } else {
      assert all[|all| - 1] == ops[|ops| - 1] && all[..|all| - 1] == [op] + ops[..|ops| - 1];
      AddedHead(op, ops[..|ops| - 1], path);
    }
  }

  /* ---- The posts of lost lines ---- */

  function ListIds<V>(list: seq<Post<V>>): set<nat> {
    set k | 0 <= k < |list| :: list[k].id
  }

  /** A replay lists every post a line adds, and no other. */
  lemma {:induction false} ReplayIds<V>(lines: seq<Line<V>>)
    ensures ListIds(Replay(lines)) == Ids(lines)
  {
    if lines != [] {
      var front, last := lines[..|lines| - 1], lines[|lines| - 1];
      ReplayIds(front);
      StepIds(Replay(front), last);
    }
  }

  lemma StepIds<V>(list: seq<Post<V>>, line: Line<V>)
    ensures ListIds(Step(list, line)) == ListIds(list) + (if line.Added? then {line.post.id} else {})
  {
    var next := Step(list, line);
    if line.Added? && PlaceOf(list, line.post.id) == |list| {
      assert next[|list|].id == line.post.id && forall k :: 0 <= k < |list| ==> next[k] == list[k];
    }
    if line.Added? && PlaceOf(list, line.post.id) < |list| {
      assert list[PlaceOf(list, line.post.id)].id == line.post.id;
    }
    if line.Changed? && PlaceOf(list, line.id) < |list| {
      assert forall k :: 0 <= k < |list| ==> next[k].id == list[k].id;
    }
  }

  /** In a log the store wrote no post is added twice. */
  lemma {:induction false} AddedOnce<V>(a: seq<Line<V>>, b: seq<Line<V>>)
    requires Sound(a + b)
    ensures Ids(a) !! Ids(b)
  {
    if b != [] {
      var front, last := b[..|b| - 1], b[|b| - 1];
      Front(a, b);
      AddedOnce(a, front);
      if last.Added? {
        SoundIsWellFormed(a + front);
        ReplayIds(a + front);
        IdsOf(a, front);
        assert last.post.id !in ListIds(Replay(a + front));
      }
    }
  }

  /** After lines are lost the log's list lacks exactly the posts those lines added; a list in memory still has them. */
  lemma LostPosts<V>(log: seq<Line<V>>, now: seq<Line<V>>, lost: seq<Line<V>>)
    requires Sound(log) && Lacks(log, now, lost)
    ensures ListIds(Replay(now)) == ListIds(Replay(log)) - Ids(lost)
    ensures Ids(lost) <= ListIds(Replay(log))
  {
    hide Sound, Replay, Ids, ListIds, Lacks;
    var left, right := LacksMeans(log, now, lost);
    ReplayIds(log);
    ReplayIds(now);
    IdsOf(left + lost, right);
    IdsOf(left, lost);
    IdsOf(left, right);
    AddedOnce(left + lost, right);
    SoundPrefix(log, |left + lost|);
    assert log[..|left + lost|] == left + lost;
    AddedOnce(left, lost);
  }

  /** Reading a log through the queue replays to the same list as the log itself, whatever is half written. */
  lemma LatestReplays<V>(s: State<Line<V>>, h: History<Line<V>>, path: Path)
    requires Inv(s, h) && Refers({}, LogOf(h, path))
    ensures Replay(Lines(Latest(s, path))) == Replay(LogOf(h, path))
  {
    hide Inv, Played, Latest, Replay, Refers, NoReplace;
    if Doubled(s, path) {
      DoubledReading(s, h, path);
      var op, n := s.current.value, s.landing.value;
      RunningFits(s, h);
      var before := Lines(Base(h, path));
      RepeatIsNoOp(before, op.text, n, DiskWrites.Added(s.queue, path));
    } else {
      LatestIsEveryCall(s, h, path);
    }
  }

  lemma RunningFits<T>(s: State<T>, h: History<T>)
    requires Inv(s, h) && s.current.Some? && s.landing.Some?
    ensures s.landing.value <= |s.current.value.text| && h.decided <= |h.calls|
  {
  }

  /* ---- The store ---- */

  /** What the store relies on of a room's log: it wrote every line of it. */
  ghost predicate Kept<V>(h: History<Line<V>>, path: Path) {
    OnlyAppends(h.calls, path) && Sound(LogOf(h, path))
  }

  datatype DiskStep = Wakes | Lands(n: nat) | Ends

  predicate CanGo<T>(s: State<T>, step: DiskStep) {
    match step
    case Wakes => s.scheduled > 0
    case Lands(n) => CanLand(s, n)
    case Ends => DiskRuns.Whole(s)
  }

  class AgentStore<V(==)> {
    const disk: WriteQueue<Line<V>>
    var posts: map<RoomId, seq<Post<V>>>

    ghost function Log(room: RoomId): seq<Line<V>>
      reads disk
    {
      LogOf(disk.history, LogFile(room))
    }

    /** Each list in memory is what its room's log replays to. */
    ghost predicate Valid()
      reads this, disk
    {
      && disk.Valid()
      && (forall room :: room in posts ==> PlainRoom(room) && posts[room] == Replay(Log(room)))
      && (forall room :: PlainRoom(room) ==> Kept(disk.history, LogFile(room)))
    }

    constructor (files: Files<Line<V>>)
      requires forall room :: PlainRoom(room) ==> Sound(Lines(Read(files, LogFile(room))))
      ensures Valid() && fresh(disk) && posts == map[]
      ensures forall room :: Log(room) == Lines(Read(files, LogFile(room)))
    {
      hide Replay, Sound, Inv, LogFile, Clean;
      disk := new WriteQueue(files);
      posts := map[];
    }

    method PostsOf(room: RoomId) returns (list: seq<Post<V>>)
      requires Valid() && PlainRoom(room)
      modifies this`posts
      ensures Valid() && list == Replay(Log(room)) && posts == old(posts)[room := list]
      ensures WellFormed(list)
    {
      hide Replay, Sound, Inv, Played;
      SoundIsWellFormed(Log(room));
      if room in posts {
        return posts[room];
      }
      SoundRefers(Log(room));
      LatestReplays(disk.Now(), disk.history, LogFile(room));
      var text := disk.ReadLatest(LogFile(room));
      list := ReplayLines(Lines(text));
      posts := posts[room := list];
    }

    method ByRequestId(room: RoomId, requestId: string) returns (post: Option<Post<V>>)
      requires Valid() && PlainRoom(room)
      modifies this`posts
      ensures Valid() && room in posts && posts[room] == Replay(Log(room))
      ensures post.Some? ==> post.value in posts[room] && post.value.requestId == requestId
      ensures post == None ==> forall p :: p in posts[room] ==> p.requestId != requestId
    {
      hide Replay, Kept, Inv, LogOf, LogFile, Clean, WellFormed;
      var list := PostsOf(room);
      for k := 0 to |list|
        invariant forall j :: 0 <= j < k ==> list[j].requestId != requestId
      {
        if list[k].requestId == requestId {
          return Some(list[k]);
        }
      }
      post := None;
    }

    /** Adds a post with the next seq, or answers the post that has its requestId. */
    method Append(room: RoomId, requestId: string, body: map<string, V>) returns (post: Post<V>, created: bool)
      requires Valid() && PlainRoom(room)
      modifies this`posts, disk
      ensures Valid() && room in posts && post in posts[room] && post.requestId == requestId
      ensures created <==> forall p :: p in old(Replay(Log(room))) ==> p.requestId != requestId
      ensures !created ==> Log(room) == old(Log(room)) && posts[room] == old(Replay(Log(room)))
      ensures created ==> post == Post(|old(Replay(Log(room)))| + 1, |old(Replay(Log(room)))| + 1, requestId, body)
      ensures created ==> posts[room] == old(Replay(Log(room))) + [post] && Log(room) == old(Log(room)) + [Added(post)]
      ensures forall other :: PlainRoom(other) && other != room ==> Log(other) == old(Log(other))
    {
      hide Replay, Sound, Inv, LogOf, LogFile, Clean, OnlyAppends;
      var existing := ByRequestId(room, requestId);
      if existing.Some? {
        return existing.value, false;
      }
      var list := PostsOf(room);
      var seqNo := (if list == [] then 0 else list[|list| - 1].number) + 1;
      post, created := Post(seqNo, seqNo, requestId, body), true;
      PostKeeps(Log(room), post);
      Write(room, Added(post), list + [post]);
    }

    /** Patches a post of the list in place and logs the patch. */
    method Set(room: RoomId, id: nat, patch: map<string, V>)
      requires Valid() && PlainRoom(room) && room in posts && 1 <= id <= |posts[room]|
      modifies this`posts, disk
      ensures Valid() && Log(room) == old(Log(room)) + [Changed(id, patch)]
      ensures posts == old(posts)[room := Patch(old(posts)[room], id - 1, patch)]
      ensures forall other :: PlainRoom(other) && other != room ==> Log(other) == old(Log(other))
    {
      hide Replay, Sound, Inv, Played, LogFile, LogOf, Patch, PlaceOf, OnlyAppends, Clean;
      var list := posts[room];
      ChangeKeeps(Log(room), id, patch);
      Write(room, Changed(id, patch), Patch(list, id - 1, patch));
    }

    /** Whatever the disk does next: a wake-up, lines of the running write, or its end when it is whole. */
    method Goes(step: DiskStep)
      requires Valid() && CanGo(disk.Now(), step)
      modifies disk
      ensures Valid() && forall room :: Log(room) == old(Log(room))
    {
      hide Inv, Replay, Sound, LogFile, Clean;
      match step
      case Wakes => disk.Wake();
      case Lands(n) => disk.Land(n);
      case Ends => disk.Finish();
    }

    /**
     * The running write fails. The lists in memory stay what the logs replayed to before, while the log it was for now
     * lacks the lines that had not landed: a list in memory keeps the posts they added, and a replay does not have
     * them.
     */
    method Fails()
      requires Valid() && disk.current.Some? && !DiskRuns.Whole(disk.Now())
      modifies disk
      ensures disk.Valid()
      ensures forall room :: room in posts ==> posts[room] == Replay(old(Log(room)))
      ensures forall room :: PlainRoom(room) ==>
        Lacks(old(Log(room)), Log(room), Unlanded(old(disk.Now()), LogFile(room)))
      ensures forall room :: room in posts ==>
        var lost := Ids(Unlanded(old(disk.Now()), LogFile(room)));
        lost <= ListIds(posts[room]) && ListIds(Replay(Log(room))) == ListIds(posts[room]) - lost
    {
      hide Inv, Replay, Sound, LogFile, Clean, LogOf, Lacks, Ids, ListIds, Unlanded;
      ghost var s, h := disk.Now(), disk.history;
      disk.Finish();
      forall room | PlainRoom(room)
        ensures Lacks(LogOf(h, LogFile(room)), Log(room), Unlanded(s, LogFile(room)))
      {
        FailedLog(s, h, LogFile(room));
      }
      forall room | room in posts
        ensures Ids(Unlanded(s, LogFile(room))) <= ListIds(posts[room])
        ensures ListIds(Replay(Log(room))) == ListIds(posts[room]) - Ids(Unlanded(s, LogFile(room)))
      {
        LostPosts(LogOf(h, LogFile(room)), Log(room), Unlanded(s, LogFile(room)));
      }
    }

    /** Keeps the new list and queues its line. */
    method Write(room: RoomId, line: Line<V>, list: seq<Post<V>>)
      requires Valid() && PlainRoom(room) && Sound(Log(room) + [line]) && list == Replay(Log(room) + [line])
      modifies this`posts, disk
      ensures Valid() && Log(room) == old(Log(room)) + [line] && posts == old(posts)[room := list]
      ensures forall other :: PlainRoom(other) && other != room ==> Log(other) == old(Log(other))
    {
      hide Replay, Sound, Inv, Played, LogFile, LogOf, Clean;
      ghost var h := disk.history;
      CallsBound(disk.Now(), h);
      disk.AppendLater(LogFile(room), [line]);
      posts := posts[room := list];
      forall other | PlainRoom(other)
        ensures Log(other) == (if other == room then old(Log(other)) + [line] else old(Log(other)))
        ensures Kept(disk.history, LogFile(other))
      {
        SameClean(room, other);
        LogGrows(h, LogFile(room), [line], LogFile(other));
      }
    }
  }

  lemma CallsBound<T>(s: State<T>, h: History<T>)
    requires Inv(s, h)
    ensures forall i :: i in h.dropped + h.failed ==> i < |h.calls|
  {
  }

  lemma PostKeeps<V>(lines: seq<Line<V>>, post: Post<V>)
    requires Sound(lines) && post.id == post.number == |Replay(lines)| + 1
    requires forall p :: p in Replay(lines) ==> p.requestId != post.requestId
    ensures Sound(lines + [Added(post)]) && Replay(lines + [Added(post)]) == Replay(lines) + [post]
  {
    assert (lines + [Added(post)])[..|lines|] == lines;
    SoundIsWellFormed(lines);
  }

  lemma PlaceInOrder<V>(list: seq<Post<V>>, id: nat)
    requires WellFormed(list) && 1 <= id <= |list|
    ensures PlaceOf(list, id) == id - 1
  {
    assert list[id - 1].id == id;
  }

  lemma ChangeKeeps<V>(lines: seq<Line<V>>, id: nat, patch: map<string, V>)
    requires Sound(lines) && 1 <= id <= |Replay(lines)|
    ensures Sound(lines + [Changed(id, patch)])
    ensures Replay(lines + [Changed(id, patch)]) == Patch(Replay(lines), id - 1, patch)
  {
    hide PlaceOf, Patch, WellFormed;
    assert (lines + [Changed(id, patch)])[..|lines|] == lines;
    SoundIsWellFormed(lines);
    PlaceInOrder(Replay(lines), id);
  }

  /**
   * A server that starts on the files a crash left, at any moment, reads in each room the list some prefix of the old
   * server's calls had made, with seqs from 1 and requestIds once each.
   */
  method Restart<V(==)>(store: AgentStore<V>) returns (again: AgentStore<V>)
    requires store.Valid()
    ensures again.Valid() && fresh(again)
    ensures forall room :: PlainRoom(room) ==> again.Log(room) <= store.Log(room)
    ensures forall room :: PlainRoom(room) ==>
        exists n :: 0 <= n <= |store.Log(room)| && Replay(again.Log(room)) == Replay(store.Log(room)[..n])
  {
    hide Replay, Sound, Inv, Played, LogFile;
    var files := store.disk.files;
    forall room | PlainRoom(room)
      ensures Sound(Lines(Read(files, LogFile(room)))) && Lines(Read(files, LogFile(room))) <= store.Log(room)
    {
      CrashLeavesAPrefix(store.disk.Now(), store.disk.history, LogFile(room));
      var n := |Lines(Read(files, LogFile(room)))|;
      assert store.Log(room)[..n] == Lines(Read(files, LogFile(room)));
      SoundPrefix(store.Log(room), n);
    }
    again := new AgentStore(files);
    forall room | PlainRoom(room)
      ensures exists n :: 0 <= n <= |store.Log(room)| && Replay(again.Log(room)) == Replay(store.Log(room)[..n])
    {
      var n := |again.Log(room)|;
      assert again.Log(room) == Lines(Read(files, LogFile(room))) <= store.Log(room);
      assert store.Log(room)[..n] == again.Log(room);
    }
  }
}
