/**
 * The Mac's agent that ends ssh sessions whose client is gone: what one run decides from the saved state and what it
 * sees, and what its decisions mean over all completed runs.
 */
module SessionReaper {
  import opened Options

  const DEAD_FOR_S := 600.0
  const INTERVAL_S := 300.0
  const SLEPT_S := 30.0

  datatype Endpoint = Endpoint(host: string, port: string)

  datatype Tcp = Established | Other(name: string)

  datatype Sock = Sock(here: Endpoint, peer: Endpoint, tcp: Tcp)

  const NO_SOCK := Sock(Endpoint("", ""), Endpoint("", ""), Other("NONE"))

  /** A session as the state names it. */
  datatype Key = Key(pid: nat, peer: Endpoint)

  /** Its received bytes, none when netstat lists no such connection, and since when they are the same. */
  datatype Entry = Entry(rx: Option<nat>, since: real)

  type State = map<Key, Entry>

  /**
   * What a run sees: the time, the sessions, their sockets, the received bytes, the peers that can be asked, and what
   * each says it holds toward a local address.
   */
  datatype Seen = Seen(
    now: real,
    pids: seq<nat>,
    socks: map<nat, Sock>,
    received: map<(Endpoint, Endpoint), nat>,
    peers: set<string>,
    ports: (string, string) -> Option<set<string>>)

  function SockOf(seen: Seen, pid: nat): Sock {
    if pid in seen.socks then seen.socks[pid] else NO_SOCK
  }

  function KeyOf(seen: Seen, pid: nat): Key {
    Key(pid, SockOf(seen, pid).peer)
  }

  function RxOf(seen: Seen, pid: nat): Option<nat> {
    var sock := SockOf(seen, pid);
    if (sock.here, sock.peer) in seen.received then Some(seen.received[(sock.here, sock.peer)]) else None
  }

  function SinceOf(state: State, seen: Seen, pid: nat): real {
    var key := KeyOf(seen, pid);
    if key in state && state[key].rx == RxOf(seen, pid) then state[key].since else seen.now
  }

  /** A host that can be asked answers; any other says nothing. */
  function Held(seen: Seen, peer: string, here: string): Option<set<string>> {
    if peer in seen.peers then seen.ports(peer, here) else None
  }

  function Asked(state: State, seen: Seen, pid: nat): bool {
    SinceOf(state, seen, pid) < seen.now && SockOf(seen, pid).tcp == Established
  }

  /** Whether a session looks dead: no established socket, or quiet and a peer that answered without its port. */
  function LooksDead(state: State, seen: Seen, pid: nat): bool {
    var sock := SockOf(seen, pid);
    if sock.tcp != Established then true
    else
      var held := Held(seen, sock.peer.host, sock.here.host);
      Asked(state, seen, pid) && held.Some? && sock.peer.port !in held.value
  }

  function Ends(state: State, seen: Seen, pid: nat): bool {
    LooksDead(state, seen, pid) && seen.now - SinceOf(state, seen, pid) >= DEAD_FOR_S
  }

  /** One view of the first loop. */
  datatype View = View(pid: nat, key: Key, here: Endpoint, tcp: Tcp, rx: Option<nat>, since: real)

  function ViewOf(state: State, seen: Seen, pid: nat): View {
    var sock := SockOf(seen, pid);
    View(pid, KeyOf(seen, pid), sock.here, sock.tcp, RxOf(seen, pid), SinceOf(state, seen, pid))
  }

  ghost predicate Distinct(pids: seq<nat>) {
    forall i, j :: 0 <= i < j < |pids| ==> pids[i] != pids[j]
  }

  /** The state a run saves: each session it saw and did not end, with its bytes and their age. */
  ghost predicate Saves(state: State, seen: Seen, pids: seq<nat>, next: State) {
    && (forall pid :: pid in pids && !Ends(state, seen, pid) ==>
          KeyOf(seen, pid) in next && next[KeyOf(seen, pid)] == Entry(RxOf(seen, pid), SinceOf(state, seen, pid)))
    && (forall key :: key in next ==> key.pid in pids && key == KeyOf(seen, key.pid) && !Ends(state, seen, key.pid))
  }

  /* ---- What a run does, by what it reads ---- */

  /** A session's connection, none when it has no socket. */
  ghost predicate IsBetween(seen: Seen, pid: nat, here: Endpoint, peer: Endpoint) {
    if pid in seen.socks then here == seen.socks[pid].here && peer == seen.socks[pid].peer
    else here == Endpoint("", "") && peer == Endpoint("", "")
  }

  /** netstat lists that many received bytes on a session's connection to a peer, or lists no such connection. */
  ghost predicate Reads(seen: Seen, pid: nat, peer: Endpoint, rx: Option<nat>) {
    exists here :: IsBetween(seen, pid, here, peer) && ListsBytes(seen, here, peer, rx)
  }

  ghost predicate ListsBytes(seen: Seen, here: Endpoint, peer: Endpoint, rx: Option<nat>) {
    match rx
    case Some(bytes) => (here, peer) in seen.received && seen.received[(here, peer)] == bytes
    case None => (here, peer) !in seen.received
  }

  /** No established socket, or a peer that can be asked and says it does not hold the connection. */
  ghost predicate IsGone(seen: Seen, pid: nat) {
    || pid !in seen.socks
    || seen.socks[pid].tcp != Established
    || (var sock := seen.socks[pid];
        && sock.peer.host in seen.peers
        && match seen.ports(sock.peer.host, sock.here.host)
           case Some(ports) => sock.peer.port !in ports
           case None => false)
  }

  /** The state has the session with the bytes it has now, since `since`. */
  ghost predicate QuietSince(state: State, seen: Seen, pid: nat, since: real) {
    exists peer, rx :: Reads(seen, pid, peer, rx) && Key(pid, peer) in state &&
        state[Key(pid, peer)] == Entry(rx, since)
  }

  /** A run ends a session that is gone and was quiet for `DEAD_FOR_S`. */
  ghost predicate Ended(state: State, seen: Seen, pid: nat) {
    IsGone(seen, pid) && exists since :: QuietSince(state, seen, pid, since) && seen.now - since >= DEAD_FOR_S
  }

  /**
   * What a run ends and what it saves: every session it did not end, with its bytes and since when they are the same.
   */
  ghost predicate Reaped(state: State, seen: Seen, dead: seq<nat>, next: State) {
    && (forall pid :: pid in dead <==> pid in seen.pids && Ended(state, seen, pid))
    && (forall key :: key in next <==> key.pid in seen.pids && key.pid !in dead && IsPeer(seen, key.pid, key.peer))
    && (forall key :: key in next ==>
          && Reads(seen, key.pid, key.peer, next[key].rx)
          && (QuietSince(state, seen, key.pid, next[key].since) ||
              (next[key].since == seen.now && forall since :: !QuietSince(state, seen, key.pid, since))))
  }

  ghost predicate IsPeer(seen: Seen, pid: nat, peer: Endpoint) {
    exists here :: IsBetween(seen, pid, here, peer)
  }

  lemma ReadsExactly(seen: Seen, pid: nat, peer: Endpoint, rx: Option<nat>)
    ensures Reads(seen, pid, peer, rx) <==> KeyOf(seen, pid) == Key(pid, peer) && RxOf(seen, pid) == rx
    ensures IsPeer(seen, pid, peer) <==> KeyOf(seen, pid) == Key(pid, peer)
  {
    assert IsBetween(seen, pid, SockOf(seen, pid).here, SockOf(seen, pid).peer);
  }

  lemma QuietExactly(state: State, seen: Seen, pid: nat, since: real)
    ensures QuietSince(state, seen, pid, since) <==>
              var key := KeyOf(seen, pid); key in state && state[key] == Entry(RxOf(seen, pid), since)
  {
    hide Reads;
    ReadsExactly(seen, pid, KeyOf(seen, pid).peer, RxOf(seen, pid));
    forall peer, rx | Reads(seen, pid, peer, rx) ensures KeyOf(seen, pid) == Key(pid, peer) && RxOf(seen, pid) == rx {
      ReadsExactly(seen, pid, peer, rx);
    }
  }

  lemma EndsExactly(state: State, seen: Seen, pid: nat)
    ensures Ends(state, seen, pid) <==> Ended(state, seen, pid)
  {
    hide QuietSince;
    forall since
      ensures QuietSince(state, seen, pid, since) <==>
                var key := KeyOf(seen, pid); key in state && state[key] == Entry(RxOf(seen, pid), since)
    {
      QuietExactly(state, seen, pid, since);
    }
    assert Ends(state, seen, pid) ==> QuietSince(state, seen, pid, SinceOf(state, seen, pid));
  }

  lemma ReapedExactly(state: State, seen: Seen, dead: seq<nat>, next: State)
    requires forall pid :: pid in dead <==> pid in seen.pids && Ends(state, seen, pid)
    requires Saves(state, seen, seen.pids, next)
    ensures Reaped(state, seen, dead, next)
  {
    hide Ends, Ended, QuietSince, Reads, IsPeer, RxOf;
    forall pid ensures Ends(state, seen, pid) <==> Ended(state, seen, pid) {
      EndsExactly(state, seen, pid);
    }
    forall key: Key
      ensures IsPeer(seen, key.pid, key.peer) <==> key == KeyOf(seen, key.pid)
      ensures key == KeyOf(seen, key.pid) ==> Reads(seen, key.pid, key.peer, RxOf(seen, key.pid))
    {
      ReadsExactly(seen, key.pid, key.peer, RxOf(seen, key.pid));
    }
    forall pid, since
      ensures QuietSince(state, seen, pid, since) <==>
                var key := KeyOf(seen, pid); key in state && state[key] == Entry(RxOf(seen, pid), since)
    {
      QuietExactly(state, seen, pid, since);
    }
  }

  /**
   * An established session that was quiet since an earlier run has its peer asked for its connections to this address.
   */
  ghost predicate IsToAsk(seen: Seen, view: View, ask: (string, string)) {
    view.since < seen.now && view.tcp == Established && ask == (view.key.peer.host, view.here.host)
  }

  /** The run's first two loops: each session's view, and what every peer to ask says. */
  method Look(state: State, seen: Seen) returns (views: seq<View>, held: map<(string, string), Option<set<string>>>)
    ensures |views| == |seen.pids| && forall k :: 0 <= k < |views| ==> views[k] == ViewOf(state, seen, seen.pids[k])
    ensures forall k, ask :: 0 <= k < |views| && IsToAsk(seen, views[k], ask) ==> ask in held
    ensures forall ask :: ask in held ==> held[ask] == Held(seen, ask.0, ask.1)
    ensures forall ask :: ask in held ==> exists k :: 0 <= k < |views| && IsToAsk(seen, views[k], ask)
  {
    views, held := [], map[];
    for k := 0 to |seen.pids|
      invariant |views| == k && forall j :: 0 <= j < k ==> views[j] == ViewOf(state, seen, seen.pids[j])
      invariant forall j, ask :: 0 <= j < k && IsToAsk(seen, views[j], ask) ==> ask in held
      invariant forall ask :: ask in held ==> held[ask] == Held(seen, ask.0, ask.1)
      invariant forall ask :: ask in held ==> exists j :: 0 <= j < k && IsToAsk(seen, views[j], ask)
    {
      var view := ViewOf(state, seen, seen.pids[k]);
      ghost var was := views;
      views := views + [view];
      assert forall j :: 0 <= j < k ==> views[j] == was[j];
      if view.since < seen.now && view.tcp == Established {
        var ask := (view.key.peer.host, view.here.host);
        held := held[ask := Held(seen, ask.0, ask.1)];
        assert IsToAsk(seen, views[k], ask);
      }
    }
  }

  /** One run: whom it ends, in the order seen, and the state it saves. */
  method Reap(state: State, seen: Seen) returns (dead: seq<nat>, next: State)
    requires Distinct(seen.pids)
    ensures Reaped(state, seen, dead, next) && Saves(state, seen, seen.pids, next)
  {
    var views, held := Look(state, seen);
    dead, next := [], map[];
    for k := 0 to |views|
      invariant forall pid :: pid in dead <==> pid in seen.pids[..k] && Ends(state, seen, pid)
      invariant Saves(state, seen, seen.pids[..k], next)
    {
      var view := views[k];
      assert seen.pids[..k + 1] == seen.pids[..k] + [view.pid];
      var gone := view.tcp != Established;
      if !gone && view.since < seen.now {
        assert IsToAsk(seen, view, (view.key.peer.host, view.here.host));
        var ports := held[(view.key.peer.host, view.here.host)];
        gone := ports.Some? && view.key.peer.port !in ports.value;
      }
      assert gone == LooksDead(state, seen, view.pid);
      if gone && seen.now - view.since >= DEAD_FOR_S {
        dead := dead + [view.pid];
      } else {
        next := next[view.key := Entry(view.rx, view.since)];
      }
    }
    assert seen.pids[..|views|] == seen.pids;
    ReapedExactly(state, seen, dead, next);
  }

  /* ---- Over all completed runs ---- */

  /** The states a sequence of completed runs saved, each from the one before; the first is empty or lost. */
  ghost predicate History(runs: seq<Seen>, states: seq<State>) {
    && |states| == |runs| + 1 && states[0] == map[]
    && forall n :: 0 <= n < |runs| ==> Distinct(runs[n].pids) && Saves(states[n], runs[n], runs[n].pids, states[n + 1])
  }

  /** A run saw a session with this peer and these bytes. */
  predicate Saw(seen: Seen, key: Key, rx: Option<nat>) {
    key.pid in seen.pids && KeyOf(seen, key.pid) == key && RxOf(seen, key.pid) == rx
  }

  /**
   * The first run of the unbroken row up to run `n` that all saw the session with the same peer and bytes, and did not
   * end it.
   */
  ghost function RowStart(runs: seq<Seen>, states: seq<State>, n: nat, key: Key, rx: Option<nat>): (m: nat)
    requires n <= |runs| && n <= |states|
    ensures m <= n
  {
    if n > 0 && Saw(runs[n - 1], key, rx) && !Ends(states[n - 1], runs[n - 1], key.pid)
        then RowStart(runs, states, n - 1, key, rx) else n
  }

  lemma {:induction false} RowStartIs(runs: seq<Seen>, states: seq<State>, n: nat, key: Key, rx: Option<nat>)
    requires n <= |runs| && n <= |states|
    ensures var m := RowStart(runs, states, n, key, rx);
            && (forall k :: m <= k < n ==> Saw(runs[k], key, rx) && !Ends(states[k], runs[k], key.pid))
            && (m > 0 ==> !Saw(runs[m - 1], key, rx) || Ends(states[m - 1], runs[m - 1], key.pid))
  {
    if n > 0 && Saw(runs[n - 1], key, rx) && !Ends(states[n - 1], runs[n - 1], key.pid) {
      RowStartIs(runs, states, n - 1, key, rx);
    }
  }

  /** A state's entry is the age of the row of runs behind it. */
  lemma {:induction false} EntryIsRow(runs: seq<Seen>, states: seq<State>, n: nat, key: Key, rx: Option<nat>)
    requires History(runs, states) && n <= |runs|
    ensures var m := RowStart(runs, states, n, key, rx);
            (key in states[n] && states[n][key].rx == rx <==> m < n) && (m < n ==> states[n][key].since == runs[m].now)
  {
    if n > 0 {
      EntryIsRow(runs, states, n - 1, key, rx);
      assert Saves(states[n - 1], runs[n - 1], runs[n - 1].pids, states[n]);
    }
  }

  /** A completed run saw the session with the same peer and bytes as another, and kept it. */
  ghost predicate SawTheSame(run: Seen, saved: State, seen: Seen, pid: nat) {
    exists peer, rx ::
      pid in run.pids && Reads(run, pid, peer, rx) && Reads(seen, pid, peer, rx) && Key(pid, peer) in saved
  }

  lemma SawExactly(state: State, run: Seen, saved: State, seen: Seen, pid: nat)
    requires Saves(state, run, run.pids, saved)
    ensures SawTheSame(run, saved, seen, pid) <==>
              Saw(run, KeyOf(seen, pid), RxOf(seen, pid)) && !Ends(state, run, pid)
  {
    hide Reads, Ends, RxOf;
    ReadsExactly(seen, pid, KeyOf(seen, pid).peer, RxOf(seen, pid));
    ReadsExactly(run, pid, KeyOf(seen, pid).peer, RxOf(seen, pid));
    forall peer, rx | Reads(run, pid, peer, rx) && Reads(seen, pid, peer, rx)
      ensures KeyOf(seen, pid) == KeyOf(run, pid) == Key(pid, peer) && RxOf(seen, pid) == RxOf(run, pid) == rx
    {
      ReadsExactly(run, pid, peer, rx);
      ReadsExactly(seen, pid, peer, rx);
    }
  }

  ghost predicate SawAt(runs: seq<Seen>, states: seq<State>, seen: Seen, pid: nat, k: nat)
    requires k < |runs| && k + 1 < |states|
  {
    SawTheSame(runs[k], states[k + 1], seen, pid)
  }

  /** Run `m` is the first of the completed runs up to the last that all saw the session as it is, and kept it. */
  ghost predicate RowFrom(runs: seq<Seen>, states: seq<State>, seen: Seen, pid: nat, m: nat)
    requires |states| == |runs| + 1
  {
    && m < |runs|
    && (forall k: nat :: m <= k < |runs| ==> SawAt(runs, states, seen, pid, k))
    && (m == 0 || !SawAt(runs, states, seen, pid, m - 1))
  }

  /**
   * A run, whether it completes or not, ends a session exactly when the session is gone and the completed runs right
   * before it, back to one `DEAD_FOR_S` earlier, all saw the same pid, peer and received bytes; of such a row its first
   * run counts, since the clock may go back.
   */
  lemma EndsExactlyWhen(runs: seq<Seen>, states: seq<State>, seen: Seen, pid: nat)
    requires History(runs, states)
    ensures Ended(states[|runs|], seen, pid) <==>
              IsGone(seen, pid) &&
              exists m: nat :: RowFrom(runs, states, seen, pid, m) && seen.now - runs[m].now >= DEAD_FOR_S
  {
    hide SawAt, Saw, Ends, Ended, IsGone, RxOf, RowFrom;
    var key, rx, n := KeyOf(seen, pid), RxOf(seen, pid), |runs|;
    EntryIsRow(runs, states, n, key, rx);
    EndedByRow(states[n], seen, pid);
    forall m: nat
      ensures RowFrom(runs, states, seen, pid, m) <==> m < n && m == RowStart(runs, states, n, key, rx)
    {
      RowIsFrom(runs, states, seen, pid, m);
    }
  }

  lemma RowIsFrom(runs: seq<Seen>, states: seq<State>, seen: Seen, pid: nat, m: nat)
    requires History(runs, states)
    ensures RowFrom(runs, states, seen, pid, m) <==>
              m < |runs| && m == RowStart(runs, states, |runs|, KeyOf(seen, pid), RxOf(seen, pid))
  {
    hide SawTheSame, Saves, Saw, Ends, RxOf;
    var key, rx, n := KeyOf(seen, pid), RxOf(seen, pid), |runs|;
    RowStartIs(runs, states, n, key, rx);
    forall k: nat | k < n
      ensures SawAt(runs, states, seen, pid, k) <==> Saw(runs[k], key, rx) && !Ends(states[k], runs[k], pid)
    {
      SawExactly(states[k], runs[k], states[k + 1], seen, pid);
    }
    hide SawAt;
    var first := RowStart(runs, states, n, key, rx);
    assert forall k: nat :: first <= k < n ==> SawAt(runs, states, seen, pid, k);
    assert first == 0 || !SawAt(runs, states, seen, pid, first - 1);
  }

  lemma EndedByRow(state: State, seen: Seen, pid: nat)
    ensures Ended(state, seen, pid) <==>
              var key := KeyOf(seen, pid);
              IsGone(seen, pid) && key in state && state[key].rx == RxOf(seen, pid)
              && seen.now - state[key].since >= DEAD_FOR_S
  {
    hide QuietSince;
    forall since
      ensures QuietSince(state, seen, pid, since) <==>
                var key := KeyOf(seen, pid); key in state && state[key] == Entry(RxOf(seen, pid), since)
    {
      QuietExactly(state, seen, pid, since);
    }
    var key := KeyOf(seen, pid);
    assert key in state ==> (QuietSince(state, seen, pid, state[key].since) <==> state[key].rx == RxOf(seen, pid));
  }

  /** So an ended session was seen quiet by some completed run `DEAD_FOR_S` or more before, and by every one since. */
  lemma EndedWasQuiet(runs: seq<Seen>, states: seq<State>, seen: Seen, pid: nat)
    requires History(runs, states) && Ended(states[|runs|], seen, pid)
    ensures exists m :: 0 <= m < |runs| && seen.now - runs[m].now >= DEAD_FOR_S
                        && forall k :: m <= k < |runs| ==> SawAt(runs, states, seen, pid, k)
  {
    hide Ended, SawAt;
    EndsExactlyWhen(runs, states, seen, pid);
  }

  /** New bytes keep a session, and so does a peer that holds the connection or cannot be asked. */
  lemma KeptWhile(state: State, seen: Seen, pid: nat)
    requires || (pid in seen.socks && seen.socks[pid].tcp == Established &&
                 var sock := seen.socks[pid];
                 || sock.peer.host !in seen.peers
                 || match seen.ports(sock.peer.host, sock.here.host)
                    case Some(ports) => sock.peer.port in ports
                    case None => true)
             || forall since :: !QuietSince(state, seen, pid, since)
    ensures !Ended(state, seen, pid)
  {
  }

  /* ---- When a run is due ---- */

  datatype Why = Wake | AfterWake | Interval

  function Plan(asleep: real, sinceRun: real, catchingUp: bool): (Option<Why>, bool) {
    if asleep > SLEPT_S then (Some(Wake), true)
    else if catchingUp then (Some(AfterWake), true)
    else if sinceRun >= INTERVAL_S then (Some(Interval), false)
    else (None, false)
  }

  datatype Clock = Clock(wall: real, mono: real, run: real, catchingUp: bool)

  /** One tick; `unreached` is what a run answers if one is due, none when it raises. */
  function Tick(state: Clock, wall: real, mono: real, unreached: Option<nat>): Clock {
    var (why, catching) := Plan((wall - state.wall) - (mono - state.mono), wall - state.run, state.catchingUp);
    if why == None then Clock(wall, mono, state.run, catching)
    else Clock(wall, mono, wall, if unreached.Some? then catching && unreached.value > 0 else catching)
  }

  datatype Beat = Beat(wall: real, mono: real, unreached: Option<nat>)

  ghost predicate Ticks(clocks: seq<Clock>, beats: seq<Beat>) {
    |clocks| == |beats| + 1 && forall k :: 0 <= k < |beats| ==>
        clocks[k + 1] == Tick(clocks[k], beats[k].wall, beats[k].mono, beats[k].unreached)
  }

  predicate Slept(clocks: seq<Clock>, beats: seq<Beat>, k: nat)
    requires k < |beats| && k < |clocks|
  {
    (beats[k].wall - clocks[k].wall) - (beats[k].mono - clocks[k].mono) > SLEPT_S
  }

  /**
   * After a sleep, a run starts on every tick up to and with the first one that reaches all hosts it asks; and a tick
   * starts none only when the last run started less than an interval ago by the wall clock.
   */
  lemma {:induction false} CatchesUp(clocks: seq<Clock>, beats: seq<Beat>, from: nat, to: nat)
    requires Ticks(clocks, beats) && from <= to < |beats| && Slept(clocks, beats, from)
    requires forall k :: from <= k < to ==> beats[k].unreached == None || beats[k].unreached.value > 0
    ensures clocks[to + 1].run == beats[to].wall
    ensures clocks[to + 1].catchingUp <==> beats[to].unreached == None || beats[to].unreached.value > 0
  {
    assert clocks[to + 1] == Tick(clocks[to], beats[to].wall, beats[to].mono, beats[to].unreached);
    if from < to {
      CatchesUp(clocks, beats, from, to - 1);
    }
  }

  /** A run is on its way to catch up: a tick up to `k` found a sleep, and no run since reached all it asked. */
  ghost predicate StillBehind(clocks: seq<Clock>, beats: seq<Beat>, k: nat)
    requires k < |beats| && k < |clocks|
  {
    exists j :: 0 <= j <= k && SleptAndMissed(clocks, beats, j, k)
  }

  ghost predicate SleptAndMissed(clocks: seq<Clock>, beats: seq<Beat>, j: nat, k: nat)
    requires j <= k < |beats| && k < |clocks|
  {
    Slept(clocks, beats, j) && forall i :: j <= i <= k ==> beats[i].unreached == None || beats[i].unreached.value > 0
  }

  /** From a clock that is not catching up, each tick is left catching up exactly when it is still behind a sleep. */
  lemma {:induction false} CatchingExactly(clocks: seq<Clock>, beats: seq<Beat>, k: nat)
    requires Ticks(clocks, beats) && !clocks[0].catchingUp && k < |beats|
    ensures clocks[k + 1].catchingUp <==> StillBehind(clocks, beats, k)
  {
    assert clocks[k + 1] == Tick(clocks[k], beats[k].wall, beats[k].mono, beats[k].unreached);
    var missed := beats[k].unreached == None || beats[k].unreached.value > 0;
    if k > 0 {
      CatchingExactly(clocks, beats, k - 1);
      if StillBehind(clocks, beats, k - 1) && missed {
        var j :| 0 <= j <= k - 1 && SleptAndMissed(clocks, beats, j, k - 1);
        assert SleptAndMissed(clocks, beats, j, k);
      }
      if j :| 0 <= j <= k - 1 && SleptAndMissed(clocks, beats, j, k) {
        assert SleptAndMissed(clocks, beats, j, k - 1);
      }
    }
    if Slept(clocks, beats, k) && missed {
      assert SleptAndMissed(clocks, beats, k, k);
    }
  }

  /**
   * A tick starts a run exactly when the Mac slept since the last one, a catch-up is on, or the last run started an
   * interval ago by the wall clock.
   */
  lemma RunsExactlyWhen(state: Clock, wall: real, mono: real, unreached: Option<nat>)
    ensures var next := Tick(state, wall, mono, unreached);
            var slept := (wall - state.wall) - (mono - state.mono);
            && next.wall == wall && next.mono == mono
            && next.run == if slept > SLEPT_S || state.catchingUp || wall - state.run >= INTERVAL_S then wall
                else state.run
  {
  }

  lemma NoRunMeansRecent(state: Clock, wall: real, mono: real, unreached: Option<nat>)
    ensures var next := Tick(state, wall, mono, unreached);
            next.run == wall || (next.run == state.run && wall - state.run < INTERVAL_S && !state.catchingUp &&
                !next.catchingUp)
  {
  }
}
