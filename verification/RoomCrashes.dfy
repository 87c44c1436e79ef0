/**
 * Crashes of the group rooms' server: the deliveries are what a beginning of the post log gives, while the host keeps
 * what it was sent.
 */
module RoomCrashes {
  import opened Options
  import opened RoomBundles

  /** The rooms now, and the deliveries after each line of the log so far; a crash can leave any of those. */
  datatype Server = Server(now: State, past: seq<Posts>)

  datatype Event = Live(action: Action) | Crash(n: nat)

  /** The deliveries after each line of a change: a new post is one line, and other posts change one by one. */
  function Trail(before: Posts, after: Posts): (trail: seq<Posts>)
    ensures |after| == |before| ==>
              |trail| == |before| && forall k :: 0 <= k < |trail| ==> trail[k] == after[..k + 1] + before[k + 1..]
    ensures |after| != |before| ==> trail == [after]
  {
    if |after| == |before|
    then seq(|before|, (k: int) requires 0 <= k < |before| && |after| == |before| => after[..k + 1] + before[k + 1..])
    else [after]
  }

  predicate CanHappen(v: Server, e: Event) {
    match e
    case Live(action) => Can(v.now, action)
    case Crash(n) => n < |v.past|
  }

  function Happen(v: Server, e: Event): Server
    requires CanHappen(v, e)
  {
    match e
    case Live(action) =>
      var next := Next(v.now, action);
      Server(next, v.past + Trail(v.now.posts, next.posts))
    case Crash(n) => Server(v.now.(posts := v.past[n], inflight := map[]), v.past[..n + 1])
  }

  predicate AllHappen(v: Server, events: seq<Event>)
    decreases |events|
  {
    events == [] || (CanHappen(v, events[0]) && AllHappen(Happen(v, events[0]), events[1..]))
  }

  function End(v: Server, events: seq<Event>): Server
    requires AllHappen(v, events)
    decreases |events|
  {
    if events == [] then v else End(Happen(v, events[0]), events[1..])
  }

  function Boot(): Server {
    Server(Start(), [[]])
  }

  /* ---- What every run keeps ---- */

  /**
   * A release cut off between two lines of its bundle: some members hold it, the first among them, and all still wait
   * or go.
   */
  ghost predicate Torn(posts: Posts, bundle: seq<nat>) {
    && bundle != []
    && (forall i, j :: 0 <= i < j < |bundle| ==> bundle[i] < bundle[j])
    && BundleOf(posts, bundle[0]) == Some(bundle)
    && forall m :: m in bundle ==>
         && m < |posts| && posts[m].Some? && posts[m].value.status == Sending
         && (BundleOf(posts, m) == None || BundleOf(posts, m) == Some(bundle))
  }

  /** Each bundle the log names is one all its members hold, or a torn one. */
  ghost predicate Saved(posts: Posts) {
    forall p: nat :: BundleOf(posts, p).Some? ==>
      && p in BundleOf(posts, p).value
      && (HeldByAll(posts, BundleOf(posts, p).value) || Torn(posts, BundleOf(posts, p).value))
  }

  ghost predicate Whole(v: Server) {
    && Inv(v.now)
    && v.past != [] && v.past[|v.past| - 1] == v.now.posts
    && (forall i, j :: 0 <= i <= j < |v.past| ==> Keeps(v.past[i], v.past[j]))
    && (forall k :: 0 <= k < |v.past| ==> Saved(v.past[k]))
  }

  /**
   * A crash that loses no bundle that matters: each bundle the log still names is whole, and each post of a bundle that
   * was sent still holds it, or is over for good.
   */
  ghost predicate KeepsSent(v: Server, n: nat)
    requires n < |v.past|
  {
    var posts := v.past[n];
    && (forall p: nat :: BundleOf(posts, p).Some? ==> HeldByAll(posts, BundleOf(posts, p).value))
    && (forall key, m :: key in v.now.wire && key.Bundle? && m in key.members ==>
          BundleOf(posts, m) == Some(key.members) || Spent(posts, m))
  }

  lemma KeepsBoth(a: Posts, b: Posts, c: Posts)
    requires Keeps(a, b) && Keeps(b, c)
    ensures Keeps(a, c)
  {
  }

  /** Each state between two lines keeps what was and is kept by what comes. */
  lemma TrailKeeps(before: Posts, after: Posts, j: nat, k: nat)
    requires Keeps(before, after) && j <= k < |Trail(before, after)|
    ensures Keeps(before, Trail(before, after)[j]) && Keeps(Trail(before, after)[j], after)
    ensures Keeps(Trail(before, after)[j], Trail(before, after)[k])
  {
    var trail := Trail(before, after);
    if |after| == |before| {
      forall p | 0 <= p < |before|
        ensures trail[j][p] == (if p <= j then after[p] else before[p])
        ensures trail[k][p] == (if p <= k then after[p] else before[p])
      {
      }
    }
  }

  /** Between two lines of one step, bundles are whole, or the step's new one is torn. */
  lemma TrailIsSaved(s: State, a: Action, k: nat)
    requires Inv(s) && Can(s, a) && k < |Trail(s.posts, Next(s, a).posts)|
    ensures Saved(Trail(s.posts, Next(s, a).posts)[k])
  {
    hide Inv, Fresh, Released, Next, Can;
    var after := Next(s, a).posts;
    var mid := Trail(s.posts, after)[k];
    StepKeeps(s, a);
    InvKept(s, a);
    TrailKeeps(s.posts, after, k, k);
    forall p: nat | BundleOf(mid, p).Some?
      ensures p in BundleOf(mid, p).value
      ensures HeldByAll(mid, BundleOf(mid, p).value) || Torn(mid, BundleOf(mid, p).value)
    {
      if BundleOf(s.posts, p).Some? {
        WholeBundle(s, p);
        HeldStays(s.posts, mid, BundleOf(s.posts, p).value);
      } else {
        NewBundle(s, a, p);
        if |after| == |s.posts| {
          MidRelease(s, a, k, p);
        } else {
          assert mid == after;
        }
      }
    }
  }

  lemma WholeBundle(s: State, p: nat)
    requires Inv(s) && BundleOf(s.posts, p).Some?
    ensures p in BundleOf(s.posts, p).value && HeldByAll(s.posts, BundleOf(s.posts, p).value)
  {
  }

  lemma MidRelease(s: State, a: Action, k: nat, p: nat)
    requires Inv(s) && a == Release && k < |s.posts| && |Next(s, a).posts| == |s.posts|
    requires BundleOf(s.posts, p) == None && |Fresh(s.posts)| > 1 && p in Fresh(s.posts)
    requires BundleOf(Trail(s.posts, Next(s, a).posts)[k], p).Some?
    ensures BundleOf(Trail(s.posts, Next(s, a).posts)[k], p) == Some(Fresh(s.posts))
    ensures Torn(Trail(s.posts, Next(s, a).posts)[k], Fresh(s.posts))
  {
    hide FreshBefore;
    var bundle, after := Fresh(s.posts), Next(s, a).posts;
    var mid := Trail(s.posts, after)[k];
    forall m: nat | m < |s.posts|
      ensures mid[m] == (if m <= k then after[m] else s.posts[m])
    {
    }
    assert p <= k;
    assert bundle[0] in bundle && bundle[0] <= p;
  }

  lemma WholeKept(v: Server, e: Event)
    requires Whole(v) && CanHappen(v, e) && (e.Crash? ==> KeepsSent(v, e.n))
    ensures Whole(Happen(v, e))
  {
    hide Inv, Keeps, Saved;
    match e
    case Live(action) =>
      WholeAfter(v, action);
    case Crash(n) =>
      CrashKeepsInv(v, n);
  }

  lemma WholeAfter(v: Server, action: Action)
    requires Whole(v) && Can(v.now, action)
    ensures Whole(Happen(v, Live(action)))
  {
    hide Inv, Keeps, Saved, Next, Can, Trail;
    var w := Happen(v, Live(action));
    InvKept(v.now, action);
    StepKeeps(v.now, action);
    forall i, j | 0 <= i <= j < |w.past|
      ensures Keeps(w.past[i], w.past[j])
    {
      if j >= |v.past| {
        TrailKeeps(v.now.posts, w.now.posts, if i < |v.past| then 0 else i - |v.past|, j - |v.past|);
        if i < |v.past| {
          TrailKeeps(v.now.posts, w.now.posts, j - |v.past|, j - |v.past|);
          KeepsBoth(v.past[i], v.now.posts, w.past[j]);
        }
      }
    }
    forall k | 0 <= k < |w.past|
      ensures Saved(w.past[k])
    {
      if k >= |v.past| {
        TrailIsSaved(v.now, action, k - |v.past|);
      }
    }
    TrailEnds(v.now.posts, w.now.posts);
  }

  lemma TrailEnds(before: Posts, after: Posts)
    ensures var trail := Trail(before, after); if trail == [] then before == after else trail[|trail| - 1] == after
  {
    if |before| == |after| && before != [] {
      assert after[..|before|] + before[|before|..] == after;
    }
  }

  lemma CrashKeepsInv(v: Server, n: nat)
    requires Whole(v) && n < |v.past| && KeepsSent(v, n)
    ensures Inv(Happen(v, Crash(n)).now)
  {
    var t := Happen(v, Crash(n)).now;
    assert Saved(t.posts);
    forall key | key in t.wire
      ensures SentWell(t, key)
    {
      if key.Bundle? {
        assert SentWell(v.now, key) && key.members != [];
        if m :| m in key.members && BundleOf(t.posts, m) == Some(key.members) {
          assert HeldByAll(t.posts, key.members);
        } else {
          assert AllSpent(t, key.members);
        }
      }
    }
  }

  /* ---- Once at the host, crashes included ---- */

  /** Releases bundle only posts never tried alone, and crashes lose no bundle that was sent. */
  ghost predicate Careful(v: Server, events: seq<Event>)
    requires AllHappen(v, events)
    decreases |events|
  {
    events == [] ||
    (&& (events[0] == Live(Release) ==> CleanRelease(v.now))
     && (events[0].Crash? ==> KeepsSent(v, events[0].n))
     && Careful(Happen(v, events[0]), events[1..]))
  }

  lemma ApartOver(v: Server, e: Event)
    requires Whole(v) && Apart(v.now) && CanHappen(v, e) && (e == Live(Release) ==> CleanRelease(v.now))
    ensures Apart(Happen(v, e).now)
  {
    match e
    case Live(action) => ApartKept(v.now, action);
    case Crash(n) =>
      var t := Happen(v, e).now;
      assert Keeps(v.past[n], v.past[|v.past| - 1]);
      forall p: nat | BundleOf(t.posts, p).Some?
        ensures Untried(t, p)
      {
        assert Untried(v.now, p);
      }
      forall key, p | key in t.wire && key.Bundle? && p in key.members
        ensures Untried(t, p)
      {
        assert Untried(v.now, p);
      }
  }

  /**
   * A host that keeps each key once takes each post at most once, over failures, outages, restarts and such crashes.
   */
  lemma {:induction false} TakenOnceOver(v: Server, events: seq<Event>, p: nat)
    requires Whole(v) && Apart(v.now) && AllHappen(v, events) && Careful(v, events)
    ensures !TakenTwice(End(v, events).now, p)
    decreases |events|
  {
    hide Whole, Apart, TakenTwice, KeepsSent;
    if events == [] {
      ByInv(v);
      OnceWhileApart(v.now, p);
    } else {
      WholeKept(v, events[0]);
      ApartOver(v, events[0]);
      TakenOnceOver(Happen(v, events[0]), events[1..], p);
    }
  }

  lemma ByInv(v: Server)
    requires Whole(v)
    ensures Inv(v.now)
  {
  }

  /** A delivery whose bundle was sent keeps it, or is over for good, whatever happens but a crash that loses it. */
  lemma {:induction false} SentBundleStays(v: Server, events: seq<Event>, key: Key, m: nat)
    requires Whole(v) && AllHappen(v, events) && Careful(v, events) && key in v.now.wire && key.Bundle? &&
        m in key.members
    ensures var t := End(v, events).now;
            && key in t.wire
            && (BundleOf(t.posts, m) == Some(key.members) || Spent(t.posts, m))
            && forall other :: other in t.wire && other.Bundle? && m in other.members ==> other == key
    decreases |events|
  {
    if events == [] {
      SentIsHeld(v, key, m);
    } else {
      WholeKept(v, events[0]);
      WireGrows(v, events[0]);
      hide Whole, Happen, CanHappen, KeepsSent, Spent, BundleOf;
      SentBundleStays(Happen(v, events[0]), events[1..], key, m);
    }
  }

  lemma SentIsHeld(v: Server, key: Key, m: nat)
    requires Whole(v) && key in v.now.wire && key.Bundle? && m in key.members
    ensures BundleOf(v.now.posts, m) == Some(key.members) || Spent(v.now.posts, m)
    ensures forall other :: other in v.now.wire && other.Bundle? && m in other.members ==> other == key
  {
    assert SentWell(v.now, key);
  }

  lemma WireGrows(v: Server, e: Event)
    requires CanHappen(v, e)
    ensures v.now.wire <= Happen(v, e).now.wire
  {
  }

  /* ---- And only then ---- */

  function Lives(actions: seq<Action>): (events: seq<Event>)
    ensures |events| == |actions| && forall k :: 0 <= k < |events| ==> events[k] == Live(actions[k])
  {
    seq(|actions|, (k: int) requires 0 <= k < |actions| => Live(actions[k]))
  }

  /** Actions with no release are a careful run of the server. */
  lemma {:induction false} LiveRun(v: Server, actions: seq<Action>)
    requires Runs(v.now, actions) && NoRelease(actions)
    ensures AllHappen(v, Lives(actions)) && Careful(v, Lives(actions)) &&
        End(v, Lives(actions)).now == After(v.now, actions)
    decreases |actions|
  {
    if actions != [] {
      assert Lives(actions)[1..] == Lives(actions[1..]);
      LiveRun(Happen(v, Live(actions[0])), actions[1..]);
    }
  }

  /** A delivery that is sending and in no bundle goes out alone and is taken. */
  lemma GoAlone(s: State, m: nat) returns (actions: seq<Action>)
    requires Startable(s, m) && BundleOf(s.posts, m) == None
    ensures Runs(s, actions) && NoRelease(actions)
    ensures Single(m) in After(s, actions).taken && s.taken <= After(s, actions).taken
  {
    var begun := s.(inflight := s.inflight[m := Single(m)]);
    assert Next(s, Begin(m, None)) == begun;
    OneStep(s, Begin(m, None));
    TwoSteps(begun, Send(m), Take(Single(m)));
    RunsOn(s, [Begin(m, None)], [Send(m), Take(Single(m))]);
    actions := [Begin(m, None)] + [Send(m), Take(Single(m))];
  }

  /** The same for a failed delivery, which the owner tries again, and for a number that a lost post gave back. */
  lemma {:induction false} GoAloneLater(s: State, m: nat) returns (actions: seq<Action>)
    requires s.inflight == map[] && BundleOf(s.posts, m) == None
    requires m < |s.posts| ==> s.posts[m].Some? && s.posts[m].value.status in {Sending, Failed}
    ensures Runs(s, actions) && NoRelease(actions)
    ensures Single(m) in After(s, actions).taken && s.taken <= After(s, actions).taken
    decreases if m < |s.posts| then 0
        else 1 + m - |s.posts|, m < |s.posts| && s.posts[m].Some? && s.posts[m].value.status == Failed
  {
    if Startable(s, m) {
      actions := GoAlone(s, m);
    } else {
      var first := if m < |s.posts| then TryAgain(m) else Write(Some(Sending));
      OneStep(s, first);
      var rest := GoAloneLater(Next(s, first), m);
      RunsOn(s, [first], rest);
      actions := [first] + rest;
    }
  }

  /** A torn bundle: its first post goes with all of them, and a member that lost it goes alone. */
  lemma TornDoubles(s: State, bundle: seq<nat>, m: nat) returns (actions: seq<Action>)
    requires s.inflight == map[] && Torn(s.posts, bundle) && m in bundle && BundleOf(s.posts, m) == None
    ensures Runs(s, actions) && NoRelease(actions) && TakenTwice(After(s, actions), m)
  {
    var h := bundle[0];
    assert h in bundle && HeadOf(s.posts, h) == h && Startable(s, h);
    var begun := s.(inflight := map[h := Bundle(bundle)]);
    assert Next(s, Begin(h, None)) == begun;
    OneStep(s, Begin(h, None));
    TwoSteps(begun, Send(h), Take(Bundle(bundle)));
    RunsOn(s, [Begin(h, None)], [Send(h), Take(Bundle(bundle))]);
    var lead := [Begin(h, None)] + [Send(h), Take(Bundle(bundle))];
    var mid := After(s, lead);
    var alone := GoAlone(mid, m);
    RunsOn(s, lead, alone);
    actions := lead + alone;
    TwoKeys(After(s, actions), Single(m), Bundle(bundle), m);
  }

  lemma TwoKeys(s: State, a: Key, b: Key, p: nat)
    requires a in s.taken && b in s.taken && a != b && p in Members(a) && p in Members(b)
    ensures TakenTwice(s, p)
  {
  }

  /** A post of a bundle that was sent, out of it again and not over: the host takes the bundle and the post alone. */
  lemma LostDoubles(s: State, key: Key, m: nat) returns (actions: seq<Action>)
    requires s.inflight == map[] && key in s.wire && key.Bundle? && m in key.members && BundleOf(s.posts, m) == None
    requires m < |s.posts| ==> s.posts[m].Some? && s.posts[m].value.status in {Sending, Failed}
    ensures Runs(s, actions) && NoRelease(actions) && TakenTwice(After(s, actions), m)
  {
    var first := Take(key);
    OneStep(s, first);
    var alone := GoAloneLater(Next(s, first), m);
    RunsOn(s, [first], alone);
    actions := [first] + alone;
    TwoKeys(After(s, actions), key, Single(m), m);
  }

  lemma LostIsLoose(v: Server, n: nat, key: Key, m: nat)
    requires Whole(v) && n < |v.past| && key in v.now.wire && key.Bundle? && m in key.members
    requires BundleOf(v.past[n], m) != Some(key.members) && !Spent(v.past[n], m)
    ensures BundleOf(v.past[n], m) == None
    ensures m < |v.past[n]| ==> v.past[n][m].Some? && v.past[n][m].value.status in {Sending, Failed}
  {
    assert SentWell(v.now, key);
    assert Keeps(v.past[n], v.past[|v.past| - 1]);
    assert v.past[|v.past| - 1] == v.now.posts;
    assert BundleOf(v.past[n], m).Some? ==> BundleOf(v.now.posts, m) == BundleOf(v.past[n], m);
    assert Spent(v.now.posts, m) || BundleOf(v.now.posts, m) == Some(key.members);
    assert m < |v.now.posts| && v.now.posts[m].Some?;
    if m < |v.past[n]| {
      assert v.past[n][m].Some?;
      var status := v.past[n][m].value.status;
      assert status == Sending || status == Failed || status == Delivered || status == Stopped;
    }
  }

  /** The same of posts that the log still has; a post that was lost itself is not asked for. */
  ghost predicate KeepsHeld(v: Server, n: nat)
    requires n < |v.past|
  {
    var posts := v.past[n];
    && (forall p: nat :: BundleOf(posts, p).Some? ==> HeldByAll(posts, BundleOf(posts, p).value))
    && (forall key, m :: key in v.now.wire && key.Bundle? && m in key.members && m < |posts| ==>
          BundleOf(posts, m) == Some(key.members) || Spent(posts, m))
  }

  /**
   * A crash after which a post the log still has is out of a bundle it was sent in: the host can take that post twice.
   */
  lemma CrashDoubles(v: Server, n: nat) returns (actions: seq<Action>, m: nat)
    requires Whole(v) && n < |v.past| && !KeepsHeld(v, n)
    ensures m < |v.past[n]|
    ensures var t := Happen(v, Crash(n)).now; Runs(t, actions) && NoRelease(actions) && TakenTwice(After(t, actions), m)
  {
    var t := Happen(v, Crash(n)).now;
    assert Saved(t.posts) && Keeps(t.posts, v.past[|v.past| - 1]);
    if p: nat :| BundleOf(t.posts, p).Some? && !HeldByAll(t.posts, BundleOf(t.posts, p).value) {
      var bundle := BundleOf(t.posts, p).value;
      assert Torn(t.posts, bundle);
      m :| m in bundle && BundleOf(t.posts, m) != Some(bundle);
      assert BundleOf(t.posts, m) == None;
      actions := TornDoubles(t, bundle, m);
    } else {
      var key, lost: nat :| key in v.now.wire && key.Bundle? && lost in key.members && lost < |t.posts|
                            && BundleOf(t.posts, lost) != Some(key.members) && !Spent(t.posts, lost);
      m := lost;
      LostIsLoose(v, n, key, m);
      actions := LostDoubles(t, key, m);
    }
  }

  /**
   * A crash that loses a post of a sent bundle, and keeps that bundle of no post the log still has: no other post of
   * the bundle is on its way, and the host can take the number twice, the second time for the new post that is given
   * it.
   */
  lemma NumberComesBack(v: Server, n: nat) returns (actions: seq<Action>, key: Key, m: nat)
    requires Whole(v) && n < |v.past| && KeepsHeld(v, n) && !KeepsSent(v, n)
    ensures key in v.now.wire && key.Bundle? && m in key.members && m >= |v.past[n]|
    ensures forall other :: other in key.members ==> other >= |v.past[n]| || Spent(v.past[n], other)
    ensures var t := Happen(v, Crash(n)).now; Runs(t, actions) && NoRelease(actions) && TakenTwice(After(t, actions), m)
  {
    var posts := v.past[n];
    key, m :| key in v.now.wire && key.Bundle? && m in key.members
              && BundleOf(posts, m) != Some(key.members) && !Spent(posts, m);
    LostIsLoose(v, n, key, m);
    assert !HeldByAll(posts, key.members);
    assert forall other :: other in key.members ==> BundleOf(posts, other) != Some(key.members);
    actions := LostDoubles(Happen(v, Crash(n)).now, key, m);
  }

  lemma CrashCounts(v: Server, n: nat) returns (actions: seq<Action>, m: nat)
    requires Whole(v) && n < |v.past| && !KeepsSent(v, n)
    ensures var t := Happen(v, Crash(n)).now; Runs(t, actions) && NoRelease(actions) && TakenTwice(After(t, actions), m)
  {
    hide *;
    if KeepsHeld(v, n) {
      var key;
      actions, key, m := NumberComesBack(v, n);
    } else {
      actions, m := CrashDoubles(v, n);
    }
  }

  /**
   * The crash's own condition: the host takes no post's number twice in any careful run after it exactly when it tears
   * no bundle and every post of a bundle that was sent still holds it or is over for good. The number of a lost post
   * goes to a new one; `CrashDoubles` and `NumberComesBack` tell the two cases apart.
   */
  lemma CrashIsSafeExactlyWhen(v: Server, n: nat)
    requires Whole(v) && Apart(v.now) && n < |v.past|
    ensures KeepsSent(v, n) <==>
            forall events, p :: AllHappen(Happen(v, Crash(n)), events) && Careful(Happen(v, Crash(n)), events) ==>
              !TakenTwice(End(Happen(v, Crash(n)), events).now, p)
  {
    hide Whole, Apart, TakenTwice, KeepsSent, Careful, AllHappen;
    var w := Happen(v, Crash(n));
    if KeepsSent(v, n) {
      WholeKept(v, Crash(n));
      ApartOver(v, Crash(n));
      forall events, p | AllHappen(w, events) && Careful(w, events)
        ensures !TakenTwice(End(w, events).now, p)
      {
        TakenOnceOver(w, events, p);
      }
    } else {
      var actions, m := CrashCounts(v, n);
      LiveRun(w, actions);
      assert TakenTwice(End(w, Lives(actions)).now, m);
    }
  }

  /**
   * The submit does not wait for the bundle's lines, so a crash right after it can lose them: from every clean release
   * on.
   */
  lemma SubmitBeforeSaved(v: Server) returns (sent: Server)
    requires Whole(v) && Apart(v.now) && CleanRelease(v.now) && |Fresh(v.now.posts)| > 1 && v.now.inflight == map[]
    ensures var h := Fresh(v.now.posts)[0];
            var events := [Live(Release), Live(Begin(h, None)), Live(Send(h))];
            AllHappen(v, events) && Careful(v, events) && sent == End(v, events)
    ensures Whole(sent) && |v.past| <= |sent.past| && !KeepsSent(sent, |v.past| - 1)
  {
    hide *;
    var bundle := Fresh(v.now.posts);
    var h := bundle[0];
    assert h in bundle;
    ReleaseLeaves(v);
    WholeKept(v, Live(Release));
    var a := Happen(v, Live(Release));
    HeadGoes(a, bundle);
    var b := Happen(a, Live(Begin(h, None)));
    WholeKept(a, Live(Begin(h, None)));
    SendsKey(b, h);
    WholeKept(b, Live(Send(h)));
    sent := Happen(b, Live(Send(h)));
    SameEnd(v, Release, Begin(h, None), Send(h));
    LogsGrow(v, Release);
    LogsGrow(a, Begin(h, None));
    LogsGrow(b, Send(h));
    LastIsNow(v);
    NotYetBundled(v.now.posts, h);
    LosesSent(sent, |v.past| - 1, bundle);
  }

  lemma ReleaseLeaves(v: Server)
    requires Whole(v) && |Fresh(v.now.posts)| > 1 && v.now.inflight == map[]
    ensures CanHappen(v, Live(Release))
    ensures var a, bundle := Happen(v, Live(Release)).now, Fresh(v.now.posts);
            && a.inflight == map[] && HeldByAll(a.posts, bundle) && Startable(a, bundle[0])
  {
    hide Inv, FreshBefore;
    ByInv(v);
    FreshRelease(v.now);
    assert Fresh(v.now.posts)[0] in Fresh(v.now.posts);
  }

  lemma HeadGoes(a: Server, bundle: seq<nat>)
    requires HeldByAll(a.now.posts, bundle) && Startable(a.now, bundle[0]) && a.now.inflight == map[]
    ensures CanHappen(a, Live(Begin(bundle[0], None)))
    ensures var b := Happen(a, Live(Begin(bundle[0], None)));
            b.now.inflight == map[bundle[0] := Bundle(bundle)] && CanHappen(b, Live(Send(bundle[0])))
  {
    HeldHead(a.now, bundle);
  }

  lemma SendsKey(b: Server, h: nat)
    requires CanHappen(b, Live(Send(h)))
    ensures h in b.now.inflight && b.now.inflight[h] in Happen(b, Live(Send(h))).now.wire
  {
  }

  lemma LogsGrow(v: Server, a: Action)
    requires CanHappen(v, Live(a))
    ensures v.past <= Happen(v, Live(a)).past
  {
  }

  lemma LastIsNow(v: Server)
    requires Whole(v)
    ensures v.past != [] && v.past[|v.past| - 1] == v.now.posts
  {
  }

  lemma NotYetBundled(posts: Posts, h: nat)
    requires h in Fresh(posts)
    ensures BundleOf(posts, h) == None && !Spent(posts, h)
  {
  }

  lemma LosesSent(v: Server, n: nat, bundle: seq<nat>)
    requires n < |v.past| && bundle != [] && Bundle(bundle) in v.now.wire
    requires BundleOf(v.past[n], bundle[0]) == None && !Spent(v.past[n], bundle[0])
    ensures !KeepsSent(v, n)
  {
    assert bundle[0] in bundle;
  }

  lemma HeldHead(s: State, bundle: seq<nat>)
    requires HeldByAll(s.posts, bundle)
    ensures bundle != [] && BundleOf(s.posts, bundle[0]) == Some(bundle) && HeadOf(s.posts, bundle[0]) == bundle[0]
  {
    assert bundle[0] in bundle;
  }

  lemma SameEnd(v: Server, a: Action, b: Action, c: Action)
    requires CanHappen(v, Live(a)) && CanHappen(Happen(v, Live(a)), Live(b))
    requires CanHappen(Happen(Happen(v, Live(a)), Live(b)), Live(c))
    requires (a == Release ==> CleanRelease(v.now)) && b != Release && c != Release
    ensures var events := [Live(a), Live(b), Live(c)];
            AllHappen(v, events) && Careful(v, events) &&
                End(v, events) == Happen(Happen(Happen(v, Live(a)), Live(b)), Live(c))
  {
    hide Happen, CanHappen, CleanRelease;
    var w := Happen(v, Live(a));
    var x := Happen(w, Live(b));
    EventThen(x, c, []);
    EventThen(w, b, [Live(c)]);
    EventThen(v, a, [Live(b), Live(c)]);
    assert [Live(c)] + [] == [Live(c)] && [Live(b)] + [Live(c)] == [Live(b), Live(c)];
    assert [Live(a)] + [Live(b), Live(c)] == [Live(a), Live(b), Live(c)];
  }

  lemma EventThen(v: Server, a: Action, rest: seq<Event>)
    requires CanHappen(v, Live(a)) && AllHappen(Happen(v, Live(a)), rest) && Careful(Happen(v, Live(a)), rest)
    requires a == Release ==> CleanRelease(v.now)
    ensures var events := [Live(a)] + rest;
            AllHappen(v, events) && Careful(v, events) && End(v, events) == End(Happen(v, Live(a)), rest)
  {
    assert ([Live(a)] + rest)[1..] == rest;
  }

  /** A server's first start is a state all of this is about: nothing written, nothing sent. */
  lemma BootIsWhole()
    ensures Whole(Boot()) && Apart(Boot().now)
  {
  }
}
