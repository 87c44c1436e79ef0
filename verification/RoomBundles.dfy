/**
 * One member's deliveries in a group room: submits under idempotency keys, failures, an offline box, restarts, and the
 * bundle that posts which waited for the box go in.
 */
module RoomBundles {
  import opened Options

  datatype Status = Sending | Delivered | Failed | Stopped

  /**
   * A post's delivery to the member; `bundle` lists the posts that go with it, oldest first, once it is in a bundle.
   */
  datatype Delivery = Delivery(status: Status, away: bool, bundle: Option<seq<nat>>)

  /** A submit's requestId, which the host keeps once: `d:` of one post, or `b:` of a bundle. */
  datatype Key = Single(post: nat) | Bundle(members: seq<nat>)

  function Members(key: Key): seq<nat> {
    match key
    case Single(post) => [post]
    case Bundle(members) => members
  }

  type Posts = seq<Option<Delivery>>

  /**
   * The member's delivery of each post by number, none where the post does not wake it; the submits in progress by the
   * post they went out as; the submits sent, any of which may reach the host later; and those the host took.
   */
  datatype State = State(posts: Posts, inflight: map<nat, Key>, wire: set<Key>, taken: set<Key>)

  predicate Has(s: State, p: nat) {
    p < |s.posts| && s.posts[p].Some?
  }

  function BundleOf(posts: Posts, p: nat): Option<seq<nat>> {
    if p < |posts| && posts[p].Some? then posts[p].value.bundle else None
  }

  /** The post a delivery goes as: its bundle's first. */
  function HeadOf(posts: Posts, p: nat): nat {
    var bundle := BundleOf(posts, p);
    if bundle.Some? && bundle.value != [] && bundle.value[0] < |posts| then bundle.value[0] else p
  }

  function KeyOf(posts: Posts, p: nat): Key {
    var bundle := BundleOf(posts, p);
    if bundle.Some? then Bundle(bundle.value) else Single(p)
  }

  /** What a submit's outcome does to each member's delivery. */
  datatype Outcome = Landed | Away | Dead | Again

  function Settle(d: Delivery, outcome: Outcome): Delivery {
    match outcome
    case Landed => d.(status := Delivered, away := false)
    case Away => d.(away := true)
    case Dead => d.(status := Failed)
    case Again => d.(away := false)
  }

  /** A change of every listed post that has a delivery. */
  function SetAll(posts: Posts, members: seq<nat>, f: Delivery -> Delivery): (r: Posts)
    ensures |r| == |posts|
    ensures forall p :: 0 <= p < |posts| ==>
        r[p] == (if p in members && posts[p].Some? then Some(f(posts[p].value)) else posts[p])
  {
    seq(|posts|, (p: int) requires 0 <= p < |posts| =>
        if p in members && posts[p].Some? then Some(f(posts[p].value)) else posts[p])
  }

  predicate Waits(posts: Posts, p: nat) {
    p < |posts| && posts[p].Some? && posts[p].value.status == Sending && posts[p].value.away
  }

  /** The waiting posts no bundle holds yet, oldest first. */
  function FreshBefore(posts: Posts, n: nat): (found: seq<nat>)
    requires n <= |posts|
    ensures forall p: nat :: p in found <==> p < n && Waits(posts, p) && BundleOf(posts, p) == None
    ensures forall i, j :: 0 <= i < j < |found| ==> found[i] < found[j]
  {
    if n == 0 then []
    else
      var before := FreshBefore(posts, n - 1);
      assert forall i :: 0 <= i < |before| ==> before[i] in before;
      before + (if Waits(posts, n - 1) && BundleOf(posts, n - 1) == None then [n - 1] else [])
  }

  function Fresh(posts: Posts): seq<nat> {
    FreshBefore(posts, |posts|)
  }

  /** A waiting delivery once the box is back; it joins the new bundle if it is in none and at least two are. */
  function Let(posts: Posts, p: nat): Option<Delivery>
    requires p < |posts|
  {
    if !Waits(posts, p) then posts[p]
    else
      var d := posts[p].value.(away := false);
      Some(if d.bundle == None && |Fresh(posts)| > 1 then d.(bundle := Some(Fresh(posts))) else d)
  }

  function Released(posts: Posts): (r: Posts)
    ensures |r| == |posts| && forall p :: 0 <= p < |posts| ==> r[p] == Let(posts, p)
  {
    seq(|posts|, (p: int) requires 0 <= p < |posts| => Let(posts, p))
  }

  /** What can happen, in any order and any number of times. */
  datatype Action =
    /** A new post, which wakes the member or not, and is stopped at once at the hop limit. */
    | Write(delivery: Option<Status>)
    /**
     * A timer, a restart, a retry or a release starts a delivery; `refused` says the room or agent is closed or gone.
     */
    | Begin(p: nat, refused: Option<Status>)
    /** The submit in progress goes out. */
    | Send(p: nat)
    /** The host takes a submit that was sent. */
    | Take(key: Key)
    | Answer(p: nat, outcome: Outcome)
    /** The box's link is back. */
    | Release
    /** The server stops, with its log written, and starts again. */
    | Restart
    /** The owner tries a failed delivery again, or deletes the post. */
    | TryAgain(p: nat)
    | Delete(p: nat)

  predicate Startable(s: State, q: nat) {
    Has(s, q) && s.posts[q].value.status == Sending && q !in s.inflight
  }

  predicate Can(s: State, a: Action) {
    match a
    case Write(delivery) => delivery == None || delivery.value in {Sending, Stopped}
    case Begin(p, refused) => refused == None || refused.value in {Stopped, Failed}
    case Send(p) => p in s.inflight
    case Take(key) => key in s.wire
    case Answer(p, outcome) => p in s.inflight && (outcome == Landed ==> s.inflight[p] in s.taken)
    case Release => true
    case Restart => true
    case TryAgain(p) => true
    case Delete(p) => true
  }

  function Next(s: State, a: Action): State
    requires Can(s, a)
  {
    match a
    case Write(delivery) =>
        s.(posts := s.posts + [if delivery.Some? then Some(Delivery(delivery.value, false, None)) else None])
    case Begin(p, refused) =>
      var q := HeadOf(s.posts, p);
      if !Startable(s, q) then s
      else if refused.Some?
          then s.(posts := SetAll(s.posts, Members(KeyOf(s.posts, q)), (d: Delivery) => d.(status := refused.value)))
      else s.(inflight := s.inflight[q := KeyOf(s.posts, q)])
    case Send(p) => s.(wire := s.wire + {s.inflight[p]})
    case Take(key) => s.(taken := s.taken + {key})
    case Answer(p, outcome) =>
      s.(posts := SetAll(s.posts, Members(s.inflight[p]), (d: Delivery) => Settle(d, outcome)),
          inflight := s.inflight - {p})
    case Release => s.(posts := Released(s.posts))
    case Restart => s.(inflight := map[])
    case TryAgain(p) => s.(posts :=
        SetAll(s.posts, [p], (d: Delivery) => if d.status == Failed then d.(status := Sending) else d))
    case Delete(p) => s.(posts :=
        SetAll(s.posts, [p], (d: Delivery) => if d.status == Sending then d.(status := Stopped) else d))
  }

  function Start(): State {
    State([], map[], {}, {})
  }

  /** A sequence of actions that can happen one after the other. */
  predicate Runs(s: State, actions: seq<Action>)
    decreases |actions|
  {
    actions == [] || (Can(s, actions[0]) && Runs(Next(s, actions[0]), actions[1..]))
  }

  function After(s: State, actions: seq<Action>): State
    requires Runs(s, actions)
    decreases |actions|
  {
    if actions == [] then s else After(Next(s, actions[0]), actions[1..])
  }

  /* ---- What every run keeps ---- */

  /** All members of a bundle hold it. */
  ghost predicate HeldByAll(posts: Posts, bundle: seq<nat>) {
    && bundle != []
    && (forall i, j :: 0 <= i < j < |bundle| ==> bundle[i] < bundle[j])
    && forall m :: m in bundle ==> BundleOf(posts, m) == Some(bundle)
  }

  /** A key in progress names posts that have a delivery, and a bundle's key names one that all its members hold. */
  ghost predicate Backed(posts: Posts, key: Key) {
    match key
    case Single(p) => p < |posts| && posts[p].Some?
    case Bundle(members) => HeldByAll(posts, members)
  }

  /** A delivery that is in no bundle and over for good: nothing submits it again. */
  predicate Spent(posts: Posts, p: nat) {
    p < |posts| && posts[p].Some? && posts[p].value.status in {Delivered, Stopped} && posts[p].value.bundle == None
  }

  /** A bundle whose members all lost it and are over for good. */
  predicate AllSpent(s: State, members: seq<nat>) {
    members != [] && forall m :: m in members ==> Spent(s.posts, m) && m !in s.inflight
  }

  /** A bundle that was sent is held by all its members, or by none of them ever again. */
  ghost predicate SentWell(s: State, key: Key) {
    key.Bundle? ==> HeldByAll(s.posts, key.members) || AllSpent(s, key.members)
  }

  ghost predicate Inv(s: State) {
    && (forall p: nat :: BundleOf(s.posts, p).Some? ==>
        p in BundleOf(s.posts, p).value && HeldByAll(s.posts, BundleOf(s.posts, p).value))
    && (forall q :: q in s.inflight ==> Backed(s.posts, s.inflight[q]) && Members(s.inflight[q])[0] == q)
    && (forall key :: key in s.wire ==> SentWell(s, key))
    && OneBundleEach(s.wire)
    && s.taken <= s.wire
  }

  /** No two bundles that were sent share a post. */
  ghost predicate OneBundleEach(wire: set<Key>) {
    forall a, b, p :: a in wire && b in wire && a.Bundle? && b.Bundle? && p in a.members && p in b.members ==> a == b
  }

  /** A step keeps every bundle as it is. */
  ghost predicate Keeps(posts: Posts, after: Posts) {
    && |posts| <= |after|
    && (forall p :: 0 <= p < |posts| ==> (posts[p].Some? <==> after[p].Some?))
    && (forall p: nat :: BundleOf(posts, p).Some? ==> BundleOf(after, p) == BundleOf(posts, p))
  }

  lemma StepKeeps(s: State, a: Action)
    requires Can(s, a)
    ensures Keeps(s.posts, Next(s, a).posts)
  {
  }

  lemma HeldStays(posts: Posts, after: Posts, bundle: seq<nat>)
    requires Keeps(posts, after) && HeldByAll(posts, bundle)
    ensures HeldByAll(after, bundle)
  {
  }

  lemma BackedStays(posts: Posts, after: Posts, key: Key)
    requires Keeps(posts, after) && Backed(posts, key)
    ensures Backed(after, key)
  {
    if key.Bundle? {
      HeldStays(posts, after, key.members);
    }
  }

  /** Only a release makes a bundle, and it makes one that all its members hold. */
  lemma NewBundle(s: State, a: Action, p: nat)
    requires Can(s, a) && BundleOf(s.posts, p) == None && BundleOf(Next(s, a).posts, p).Some?
    ensures a == Release && |Fresh(s.posts)| > 1 && p in Fresh(s.posts)
    ensures BundleOf(Next(s, a).posts, p) == Some(Fresh(s.posts)) && HeldByAll(Next(s, a).posts, Fresh(s.posts))
  {
  }

  lemma KeyIsBacked(s: State, q: nat)
    requires Inv(s) && Has(s, q)
    ensures Backed(s.posts, KeyOf(s.posts, q))
  {
  }

  /** The head of a bundle has it too, so it goes as itself. */
  lemma HeadIsFirst(s: State, p: nat)
    requires Inv(s)
    ensures var q := HeadOf(s.posts, p); Has(s, p) ==>
        Has(s, q) && Members(KeyOf(s.posts, q))[0] == q && KeyOf(s.posts, q) == KeyOf(s.posts, p)
    ensures Has(s, HeadOf(s.posts, p)) ==> Has(s, p)
  {
    var bundle := BundleOf(s.posts, p);
    if bundle.Some? {
      assert HeldByAll(s.posts, bundle.value);
      assert bundle.value[0] in bundle.value;
    }
  }

  lemma SpentStays(s: State, a: Action, m: nat)
    requires Inv(s) && Can(s, a) && Spent(s.posts, m) && m !in s.inflight
    ensures Spent(Next(s, a).posts, m) && m !in Next(s, a).inflight
  {
    hide Released;
    if a.Begin? {
      HeadIsFirst(s, a.p);
      var q := HeadOf(s.posts, a.p);
      if Startable(s, q) {
        KeyIsBacked(s, q);
        NotInKey(s, KeyOf(s.posts, q), m);
      }
    } else if a.Answer? {
      NotInKey(s, s.inflight[a.p], m);
    }
  }

  lemma NotInKey(s: State, key: Key, m: nat)
    requires Backed(s.posts, key) && Spent(s.posts, m)
    ensures m in Members(key) ==> key == Single(m)
  {
  }

  lemma SentWellStays(s: State, a: Action, key: Key)
    requires Inv(s) && Can(s, a) && SentWell(s, key)
    ensures SentWell(Next(s, a), key)
  {
    hide Inv, HeldByAll, Next, Can;
    StepKeeps(s, a);
    if key.Bundle? {
      if HeldByAll(s.posts, key.members) {
        HeldStays(s.posts, Next(s, a).posts, key.members);
      } else {
        forall m | m in key.members
          ensures Spent(Next(s, a).posts, m) && m !in Next(s, a).inflight
        {
          SpentStays(s, a, m);
        }
      }
    }
  }

  /** A bundle going out is the only one sent that its members are in. */
  lemma SendKeepsOneEach(s: State, key: Key)
    requires Inv(s) && Backed(s.posts, key)
    ensures OneBundleEach(s.wire + {key})
  {
    forall b, p | b in s.wire && b.Bundle? && key.Bundle? && p in b.members && p in key.members
      ensures b == key
    {
      assert SentWell(s, b);
    }
  }

  lemma InvKept(s: State, a: Action)
    requires Inv(s) && Can(s, a)
    ensures Inv(Next(s, a))
  {
    hide HeldByAll, Released, Fresh, Settle, OneBundleEach, SentWell;
    var t := Next(s, a);
    StepKeeps(s, a);
    forall p: nat | BundleOf(t.posts, p).Some?
      ensures p in BundleOf(t.posts, p).value && HeldByAll(t.posts, BundleOf(t.posts, p).value)
    {
      if BundleOf(s.posts, p).Some? {
        HeldStays(s.posts, t.posts, BundleOf(s.posts, p).value);
      } else {
        NewBundle(s, a, p);
      }
    }
    forall key | key in s.inflight.Values
      ensures Backed(t.posts, key)
    {
      BackedStays(s.posts, t.posts, key);
    }
    forall key | key in s.wire
      ensures SentWell(t, key)
    {
      SentWellStays(s, a, key);
    }
    if a.Begin? {
      HeadIsFirst(s, a.p);
      var q := HeadOf(s.posts, a.p);
      if Startable(s, q) && a.refused == None {
        KeyIsBacked(s, q);
        BackedStays(s.posts, t.posts, KeyOf(s.posts, q));
      }
    } else if a.Send? {
      SendKeepsOneEach(s, s.inflight[a.p]);
      HeldIsSentWell(t, s.inflight[a.p]);
    }
  }

  lemma HeldIsSentWell(s: State, key: Key)
    requires Backed(s.posts, key)
    ensures SentWell(s, key)
  {
  }

  lemma {:induction false} InvAlways(s: State, actions: seq<Action>)
    requires Inv(s) && Runs(s, actions)
    ensures Inv(After(s, actions))
    decreases |actions|
  {
    if actions != [] {
      InvKept(s, actions[0]);
      InvAlways(Next(s, actions[0]), actions[1..]);
    }
  }

  /* ---- Bundles are for good ---- */

  /**
   * A delivery that is in a bundle stays in that one, over any failures, outages and restarts that lose no log line.
   */
  lemma {:induction false} BundleForever(s: State, actions: seq<Action>, p: nat)
    requires Runs(s, actions) && BundleOf(s.posts, p).Some?
    ensures BundleOf(After(s, actions).posts, p) == BundleOf(s.posts, p)
    decreases |actions|
  {
    if actions != [] {
      StepKeeps(s, actions[0]);
      BundleForever(Next(s, actions[0]), actions[1..], p);
    }
  }

  /**
   * Every submit started for a delivery after it joined a bundle goes under that bundle's key with its members, and no
   * submit ever sent names two different bundles for one post.
   */
  lemma BundledSubmits(s: State, actions: seq<Action>, p: nat)
    requires Inv(s) && Runs(s, actions) && BundleOf(s.posts, p).Some?
    ensures var t, bundle := After(s, actions), BundleOf(s.posts, p).value;
            && p in bundle && HeadOf(t.posts, p) == bundle[0]
            && (Startable(t, bundle[0]) ==>
                  Next(t, Begin(p, None)).inflight == t.inflight[bundle[0] := Bundle(bundle)])
            && (!Startable(t, bundle[0]) ==> Next(t, Begin(p, None)) == t)
            && forall key :: key in t.wire && key.Bundle? && p in key.members ==> key.members == bundle
  {
    BundleForever(s, actions, p);
    InvAlways(s, actions);
    var t, bundle := After(s, actions), BundleOf(s.posts, p).value;
    assert HeldByAll(t.posts, bundle);
    assert bundle[0] in bundle;
    forall key | key in t.wire && key.Bundle? && p in key.members
      ensures key.members == bundle
    {
      assert SentWell(t, key);
    }
  }

  /* ---- Once at the host ---- */

  /** The host took the post under two keys. */
  ghost predicate TakenTwice(s: State, p: nat) {
    exists a, b :: a in s.taken && b in s.taken && a != b && p in Members(a) && p in Members(b)
  }

  /** No submit of the post alone is in progress or was ever sent. */
  predicate Untried(s: State, p: nat) {
    Single(p) !in s.wire && Single(p) !in s.inflight.Values
  }

  /** A release that makes a bundle only of posts never tried alone. */
  predicate CleanRelease(s: State) {
    |Fresh(s.posts)| > 1 ==> forall p :: p in Fresh(s.posts) ==> Untried(s, p)
  }

  predicate ReleasesClean(s: State, actions: seq<Action>)
    requires Runs(s, actions)
    decreases |actions|
  {
    actions == [] ||
    ((actions[0] == Release ==> CleanRelease(s)) && ReleasesClean(Next(s, actions[0]), actions[1..]))
  }

  /** No post that is in a bundle, or was sent in one, has been tried alone. */
  ghost predicate Apart(s: State) {
    && (forall p: nat :: BundleOf(s.posts, p).Some? ==> Untried(s, p))
    && (forall key, p :: key in s.wire && key.Bundle? && p in key.members ==> Untried(s, p))
  }

  lemma ApartKept(s: State, a: Action)
    requires Inv(s) && Apart(s) && Can(s, a) && (a == Release ==> CleanRelease(s))
    ensures Apart(Next(s, a))
  {
    hide HeldByAll, Released, Fresh, Settle, OneBundleEach;
    var t := Next(s, a);
    StepKeeps(s, a);
    forall p: nat | BundleOf(t.posts, p).Some?
      ensures Untried(t, p)
    {
      if BundleOf(s.posts, p) == None {
        NewBundle(s, a, p);
      }
      if a.Begin? {
        HeadIsFirst(s, a.p);
      }
      assert Untried(s, p);
    }
    forall key, p | key in t.wire && key.Bundle? && p in key.members
      ensures Untried(t, p)
    {
      SentStaysUntried(s, a, key, p);
    }
  }

  lemma SentStaysUntried(s: State, a: Action, key: Key, p: nat)
    requires Inv(s) && Apart(s) && Can(s, a) && key in Next(s, a).wire && key.Bundle? && p in key.members
    ensures Untried(Next(s, a), p)
  {
    hide Released, Fresh, Settle, OneBundleEach;
    if key !in s.wire {
      assert Backed(s.posts, key);
      assert BundleOf(s.posts, p) == Some(key.members);
    } else {
      assert SentWell(s, key);
    }
    assert Untried(s, p);
    if a.Begin? {
      HeadIsFirst(s, a.p);
    }
  }

  lemma OnceWhileApart(s: State, p: nat)
    requires Inv(s) && Apart(s)
    ensures !TakenTwice(s, p)
  {
    hide HeldByAll, SentWell;
    forall a, b | a in s.taken && b in s.taken && p in Members(a) && p in Members(b)
      ensures a == b
    {
      if a.Bundle? || b.Bundle? {
        assert Untried(s, p);
      }
    }
  }

  /**
   * A host that keeps each key once takes each post at most once, when every release bundles only posts never tried
   * alone.
   */
  lemma {:induction false} TakenOnce(s: State, actions: seq<Action>, p: nat)
    requires Inv(s) && Apart(s) && Runs(s, actions) && ReleasesClean(s, actions)
    ensures !TakenTwice(After(s, actions), p)
    decreases |actions|
  {
    if actions == [] {
      OnceWhileApart(s, p);
    } else {
      InvKept(s, actions[0]);
      ApartKept(s, actions[0]);
      TakenOnce(Next(s, actions[0]), actions[1..], p);
    }
  }

  /* ---- And only then ---- */

  lemma {:induction false} RunsOn(s: State, a: seq<Action>, b: seq<Action>)
    requires Runs(s, a) && Runs(After(s, a), b)
    ensures Runs(s, a + b) && After(s, a + b) == After(After(s, a), b)
    decreases |a|
  {
    if a == [] {
      assert a + b == b;
    } else {
      assert (a + b)[1..] == a[1..] + b;
      RunsOn(Next(s, a[0]), a[1..], b);
    }
  }

  lemma OneStep(s: State, a: Action)
    requires Can(s, a)
    ensures Runs(s, [a]) && After(s, [a]) == Next(s, a)
  {
    assert [a][1..] == [];
  }

  lemma TwoSteps(s: State, a: Action, b: Action)
    requires Can(s, a) && Can(Next(s, a), b)
    ensures Runs(s, [a, b]) && After(s, [a, b]) == Next(Next(s, a), b)
  {
    OneStep(Next(s, a), b);
    assert [a, b][1..] == [b];
  }

  predicate NoRelease(actions: seq<Action>) {
    forall k :: 0 <= k < |actions| ==> actions[k] != Release
  }

  lemma {:induction false} NoReleaseIsClean(s: State, actions: seq<Action>)
    requires Runs(s, actions) && NoRelease(actions)
    ensures ReleasesClean(s, actions)
    decreases |actions|
  {
    if actions != [] {
      NoReleaseIsClean(Next(s, actions[0]), actions[1..]);
    }
  }

  /** The host can still take a post alone that was tried alone. */
  lemma TakeAlone(s: State, p: nat) returns (actions: seq<Action>)
    requires Inv(s) && !Untried(s, p)
    ensures Runs(s, actions) && NoRelease(actions)
    ensures var t := After(s, actions); t.posts == s.posts && t.inflight == s.inflight && Single(p) in t.taken && Inv(t)
  {
    if Single(p) in s.wire {
      actions := [Take(Single(p))];
      OneStep(s, actions[0]);
    } else {
      var q :| q in s.inflight && s.inflight[q] == Single(p);
      assert q == p;
      actions := [Send(p), Take(Single(p))];
      TwoSteps(s, actions[0], actions[1]);
    }
    InvAlways(s, actions);
  }

  /** A bundle whose first post is sending goes out and is taken, once the try of that post alone has failed. */
  lemma TakeTogether(s: State, bundle: seq<nat>) returns (actions: seq<Action>)
    requires Inv(s) && HeldByAll(s.posts, bundle) && Has(s, bundle[0]) && s.posts[bundle[0]].value.status == Sending
    requires bundle[0] in s.inflight ==> s.inflight[bundle[0]] == Single(bundle[0])
    ensures Runs(s, actions) && NoRelease(actions)
    ensures Bundle(bundle) in After(s, actions).taken && s.taken <= After(s, actions).taken
  {
    var h := bundle[0];
    assert h in bundle && BundleOf(s.posts, h) == Some(bundle);
    var free := s;
    var lead := [];
    if h in s.inflight {
      lead := [Answer(h, Again)];
      OneStep(s, lead[0]);
      free := After(s, lead);
    }
    assert Startable(free, h) && BundleOf(free.posts, h) == Some(bundle) && HeadOf(free.posts, h) == h;
    var begun := Next(free, Begin(h, None));
    assert begun == free.(inflight := free.inflight[h := Bundle(bundle)]);
    OneStep(free, Begin(h, None));
    TwoSteps(begun, Send(h), Take(Bundle(bundle)));
    RunsOn(free, [Begin(h, None)], [Send(h), Take(Bundle(bundle))]);
    RunsOn(s, lead, [Begin(h, None)] + [Send(h), Take(Bundle(bundle))]);
    actions := lead + ([Begin(h, None)] + [Send(h), Take(Bundle(bundle))]);
  }

  /** A release that bundles a post tried alone can be followed by the host taking that post twice. */
  lemma UncleanDoubles(s: State, p: nat) returns (actions: seq<Action>)
    requires Inv(s) && |Fresh(s.posts)| > 1 && p in Fresh(s.posts) && !Untried(s, p)
    ensures var t := Next(s, Release); Runs(t, actions) && NoRelease(actions) && TakenTwice(After(t, actions), p)
  {
    hide Fresh;
    var t, bundle := Next(s, Release), Fresh(s.posts);
    InvKept(s, Release);
    FreshRelease(s);
    assert !Untried(t, p);
    var alone := TakeAlone(t, p);
    var u := After(t, alone);
    assert u.posts == t.posts;
    var h := bundle[0];
    if h in s.inflight {
      AloneWhileUnbundled(s, h);
    }
    var together := TakeTogether(u, bundle);
    RunsOn(t, alone, together);
    actions := alone + together;
    var end := After(t, actions);
    assert Single(p) in end.taken && Bundle(bundle) in end.taken;
    assert p in Members(Single(p)) && p in Members(Bundle(bundle));
  }

  lemma AloneWhileUnbundled(s: State, h: nat)
    requires Inv(s) && h in s.inflight && BundleOf(s.posts, h) == None
    ensures s.inflight[h] == Single(h)
  {
    assert Backed(s.posts, s.inflight[h]);
  }

  lemma FreshRelease(s: State)
    requires Inv(s) && |Fresh(s.posts)| > 1
    ensures HeldByAll(Next(s, Release).posts, Fresh(s.posts))
    ensures forall p :: p in Fresh(s.posts) ==>
              && BundleOf(s.posts, p) == None
              && Next(s, Release).posts[p].Some? && Next(s, Release).posts[p].value.status == Sending
  {
  }

  /**
   * The release's guard: the host takes no post twice in any run after it whose later releases are clean too, exactly
   * when this release bundles no post that was tried alone.
   */
  lemma ReleaseIsSafeExactlyWhen(s: State)
    requires Inv(s) && Apart(s)
    ensures CleanRelease(s) <==>
      forall actions, p :: Runs(Next(s, Release), actions) && ReleasesClean(Next(s, Release), actions)
                           ==> !TakenTwice(After(Next(s, Release), actions), p)
  {
    hide TakenTwice, Apart, Fresh, ReleasesClean;
    if CleanRelease(s) {
      InvKept(s, Release);
      ApartKept(s, Release);
      forall actions, p | Runs(Next(s, Release), actions) && ReleasesClean(Next(s, Release), actions)
        ensures !TakenTwice(After(Next(s, Release), actions), p)
      {
        TakenOnce(Next(s, Release), actions, p);
      }
    } else {
      var p :| p in Fresh(s.posts) && !Untried(s, p);
      var actions := UncleanDoubles(s, p);
      NoReleaseIsClean(Next(s, Release), actions);
    }
  }

  lemma StepThen(s: State, a: Action, t: State, rest: seq<Action>)
    requires Can(s, a) && Next(s, a) == t && Runs(t, rest)
    ensures Runs(s, [a] + rest) && After(s, [a] + rest) == After(t, rest)
  {
    assert ([a] + rest)[1..] == rest;
  }

  const FINE := Some(Delivery(Sending, false, None))
  const WAITS := Some(Delivery(Sending, true, None))

  /**
   * The host took the first try and its answer was lost, the second try found the box away, and so did the next post's.
   */
  lemma LostAnswerThenAway() returns (actions: seq<Action>)
    ensures Runs(Start(), actions) && After(Start(), actions) == State([WAITS, WAITS], map[], {Single(0)}, {Single(0)})
  {
    var first := LostAnswer();
    var second := AwayTwice();
    RunsOn(Start(), first, second);
    actions := first + second;
  }

  lemma LostAnswer() returns (actions: seq<Action>)
    ensures Runs(Start(), actions) && After(Start(), actions) == State([FINE], map[], {Single(0)}, {Single(0)})
  {
    var d := {Single(0)};
    var s1, s2 := State([FINE], map[], {}, {}), State([FINE], map[0 := Single(0)], {}, {});
    var s3, s4 := State([FINE], map[0 := Single(0)], d, {}), State([FINE], map[0 := Single(0)], d, d);
    OneStep(s4, Answer(0, Again));
    actions := [Answer(0, Again)];
    StepThen(s3, Take(Single(0)), s4, actions);
    actions := [Take(Single(0))] + actions;
    StepThen(s2, Send(0), s3, actions);
    actions := [Send(0)] + actions;
    StepThen(s1, Begin(0, None), s2, actions);
    actions := [Begin(0, None)] + actions;
    StepThen(Start(), Write(Some(Sending)), s1, actions);
    actions := [Write(Some(Sending))] + actions;
  }

  lemma AwayTwice() returns (actions: seq<Action>)
    ensures var d := {Single(0)};
            && Runs(State([FINE], map[], d, d), actions)
            && After(State([FINE], map[], d, d), actions) == State([WAITS, WAITS], map[], d, d)
  {
    var d := {Single(0)};
    var s5, s6 := State([FINE], map[], d, d), State([FINE], map[0 := Single(0)], d, d);
    var s7, s8 := State([WAITS], map[], d, d), State([WAITS, FINE], map[], d, d);
    var s9 := State([WAITS, FINE], map[1 := Single(1)], d, d);
    OneStep(s9, Answer(1, Away));
    actions := [Answer(1, Away)];
    StepThen(s8, Begin(1, None), s9, actions);
    actions := [Begin(1, None)] + actions;
    StepThen(s7, Write(Some(Sending)), s8, actions);
    actions := [Write(Some(Sending))] + actions;
    StepThen(s6, Answer(0, Away), s7, actions);
    actions := [Answer(0, Away)] + actions;
    StepThen(s5, Begin(0, None), s6, actions);
    actions := [Begin(0, None)] + actions;
  }

  lemma BothWait(posts: Posts)
    requires posts == [WAITS, WAITS]
    ensures Fresh(posts) == [0, 1]
  {
    assert FreshBefore(posts, 0) == [];
    assert FreshBefore(posts, 1) == [] + [0];
    assert FreshBefore(posts, 2) == [0] + [1];
  }

  /** So the host takes the first post twice though the box was away each time a failure said so. */
  lemma AwayFailuresAreNotEnough() returns (actions: seq<Action>)
    ensures Runs(Start(), actions) && TakenTwice(After(Start(), actions), 0)
  {
    var lead := LostAnswerThenAway();
    var t := After(Start(), lead);
    InvAlways(Start(), lead);
    BothWait(t.posts);
    var rest := UncleanDoubles(t, 0);
    StepThen(t, Release, Next(t, Release), rest);
    RunsOn(Start(), lead, [Release] + rest);
    actions := lead + ([Release] + rest);
  }

  /* ---- What is over ---- */

  /** What a submit's outcome makes of one of its posts. */
  ghost predicate Settled(d: Delivery, outcome: Outcome, r: Delivery) {
    && r.bundle == d.bundle
    && match outcome
       case Landed => r.status == Delivered && !r.away
       case Dead => r.status == Failed && r.away == d.away
       case Away => r.status == d.status && r.away
       case Again => r.status == d.status && !r.away
  }

  /** The posts of a submit are settled by its outcome, and all others stand. */
  ghost predicate AnswerLeaves(posts: Posts, key: Key, outcome: Outcome, after: Posts) {
    && |after| == |posts|
    && forall m :: 0 <= m < |posts| ==>
         if posts[m].Some? && m in Members(key) then after[m].Some? && Settled(posts[m].value, outcome, after[m].value)
         else after[m] == posts[m]
  }

  /** A release lets every waiting post go: alone, in the bundle it has, or with all the others that have none. */
  ghost predicate ReleaseLeaves(posts: Posts, after: Posts) {
    |after| == |posts| && forall p :: 0 <= p < |posts| ==> LetGo(posts, p, after[p])
  }

  ghost predicate LetGo(posts: Posts, p: nat, after: Option<Delivery>)
    requires p < |posts|
  {
    if posts[p] == None || posts[p].value.status != Sending || !posts[p].value.away then after == posts[p]
    else
      && after.Some? && after.value.status == Sending && !after.value.away
      && if posts[p].value.bundle.Some? then after.value.bundle == posts[p].value.bundle
         else if OthersAreLoose(posts, p)
         then after.value.bundle.Some? && AreTheLoose(posts, after.value.bundle.value)
         else after.value.bundle == None
  }

  ghost predicate OthersAreLoose(posts: Posts, p: nat) {
    exists other: nat :: other != p && Loose(posts, other)
  }

  /** A post that waits for the box and is in no bundle. */
  ghost predicate Loose(posts: Posts, p: nat) {
    p < |posts| && posts[p].Some? && posts[p].value == Delivery(Sending, true, None)
  }

  ghost predicate AreTheLoose(posts: Posts, list: seq<nat>) {
    && (forall p :: p in list <==> Loose(posts, p))
    && (forall i, j :: 0 <= i < j < |list| ==> list[i] < list[j])
  }

  /** What is left of the posts by each step that no submit's answer and no release makes. */
  lemma StepDoes(s: State, a: Action)
    requires Inv(s) && Can(s, a)
    ensures a.Write? || |Next(s, a).posts| == |s.posts|
    ensures match a
            case Write(delivery) =>
              Next(s, a) == s.(posts := s.posts + [if delivery == None then None
                                                   else Some(Delivery(delivery.value, false, None))])
            case Begin(p, refused) =>
              var q := HeadOf(s.posts, p);
              if !StatusIs(s, q, Sending) || q in s.inflight then Next(s, a) == s
              else if refused == None then Next(s, a) == s.(inflight := s.inflight[q := KeyOf(s.posts, q)])
              else
                && Next(s, a) == s.(posts := Next(s, a).posts)
                && forall m :: 0 <= m < |s.posts| ==>
                     Next(s, a).posts[m] ==
                       if s.posts[m] != None && (m == q || HeadOf(s.posts, m) == q)
                       then Some(s.posts[m].value.(status := refused.value)) else s.posts[m]
            case Send(p) => Next(s, a) == s.(wire := s.wire + {s.inflight[p]})
            case Take(key) => Next(s, a) == s.(taken := s.taken + {key})
            case Answer(p, outcome) =>
              && AnswerLeaves(s.posts, s.inflight[p], outcome, Next(s, a).posts)
              && Next(s, a) == s.(posts := Next(s, a).posts, inflight := s.inflight - {p})
            case Release => ReleaseLeaves(s.posts, Next(s, a).posts) && Next(s, a) == s.(posts := Next(s, a).posts)
            case Restart => Next(s, a) == s.(inflight := map[])
            case TryAgain(p) => Changed(s, p, Failed, Sending, Next(s, a))
            case Delete(p) => Changed(s, p, Sending, Stopped, Next(s, a))
  {
    if a == Release {
      ReleaseDoes(s);
    } else if a.Begin? {
      var q := HeadOf(s.posts, a.p);
      if StatusIs(s, q, Sending) {
        forall m | 0 <= m < |s.posts| && s.posts[m] != None
          ensures m in Members(KeyOf(s.posts, q)) <==> m == q || HeadOf(s.posts, m) == q
        {
          GoesAs(s, a.p, m);
        }
      }
    }
  }

  /** The posts that go as `q` are those of its key. */
  lemma GoesAs(s: State, p: nat, m: nat)
    requires Inv(s) && Has(s, m) && Has(s, HeadOf(s.posts, p))
    ensures var q := HeadOf(s.posts, p);
            m in Members(KeyOf(s.posts, q)) <==> m == q || HeadOf(s.posts, m) == q
  {
    HeadIsFirst(s, p);
    HeadIsFirst(s, m);
  }

  /** A delivery in one state takes another, and nothing else changes. */
  ghost predicate Changed(s: State, p: nat, was: Status, now: Status, t: State) {
    t == s.(posts := if StatusIs(s, p, was) then s.posts[p := Some(s.posts[p].value.(status := now))] else s.posts)
  }

  lemma LooseAreFound(posts: Posts)
    ensures AreTheLoose(posts, Fresh(posts))
  {
  }

  lemma OthersAreFound(posts: Posts, p: nat)
    requires Loose(posts, p)
    ensures |Fresh(posts)| > 1 <==> OthersAreLoose(posts, p)
  {
    hide Fresh, Loose;
    LooseAreFound(posts);
    var found := Fresh(posts);
    assert p in found;
    if |found| > 1 {
      var other := if found[0] == p then found[1] else found[0];
      assert other in found && Loose(posts, other);
    }
    forall other: nat | other != p && Loose(posts, other) ensures |found| > 1 {
      assert other in found;
    }
  }

  lemma LetDoes(posts: Posts, p: nat)
    requires p < |posts|
    ensures LetGo(posts, p, Let(posts, p))
  {
    hide Fresh, AreTheLoose, OthersAreLoose;
    LooseAreFound(posts);
    if Loose(posts, p) {
      OthersAreFound(posts, p);
    }
  }

  lemma ReleaseDoes(s: State)
    ensures ReleaseLeaves(s.posts, Next(s, Release).posts)
    ensures Next(s, Release) == s.(posts := Next(s, Release).posts)
  {
    hide Let, LetGo;
    forall p | 0 <= p < |s.posts| ensures LetGo(s.posts, p, Released(s.posts)[p]) {
      LetDoes(s.posts, p);
    }
  }

  predicate StatusIs(s: State, p: nat, status: Status) {
    p < |s.posts| && s.posts[p].Some? && s.posts[p].value.status == status
  }

  /** A delivered post that nothing can submit again: neither it nor the post it goes as is on its way or can start. */
  ghost predicate Over(s: State, m: nat) {
    var h := HeadOf(s.posts, m);
    && StatusIs(s, m, Delivered) && m !in s.inflight
    && h !in s.inflight && (StatusIs(s, h, Delivered) || StatusIs(s, h, Stopped))
  }

  predicate InFlight(s: State, m: nat) {
    exists q :: q in s.inflight && m in Members(s.inflight[q])
  }

  lemma OverIsOut(s: State, m: nat)
    requires Inv(s) && Over(s, m)
    ensures !InFlight(s, m)
    ensures var h := HeadOf(s.posts, m); HeadOf(s.posts, h) == h && !InFlight(s, h)
  {
    HeadIsFirst(s, m);
    var h := HeadOf(s.posts, m);
    assert BundleOf(s.posts, m) == None ==> h == m;
    forall q | q in s.inflight ensures m !in Members(s.inflight[q]) && h !in Members(s.inflight[q]) {
      assert Backed(s.posts, s.inflight[q]) && Members(s.inflight[q])[0] == q;
    }
  }

  lemma OverKept(s: State, a: Action, m: nat)
    requires Inv(s) && Can(s, a) && Over(s, m)
    ensures Over(Next(s, a), m)
  {
    hide Fresh, FreshBefore, HeldByAll;
    OverIsOut(s, m);
    StepKeeps(s, a);
    var h := HeadOf(s.posts, m);
    HeadStays(s, a, m);
    if a.Begin? {
      var q := HeadOf(s.posts, a.p);
      if Startable(s, q) {
        GoesAs(s, a.p, m);
        GoesAs(s, a.p, h);
      }
    }
  }

  lemma HeadStays(s: State, a: Action, m: nat)
    requires Inv(s) && Can(s, a) && Over(s, m)
    ensures HeadOf(Next(s, a).posts, m) == HeadOf(s.posts, m)
  {
    StepKeeps(s, a);
    HeadIsFirst(s, m);
    if BundleOf(s.posts, m) == None && BundleOf(Next(s, a).posts, m).Some? {
      NewBundle(s, a, m);
    }
  }

  lemma {:induction false} OverStays(s: State, actions: seq<Action>, m: nat)
    requires Inv(s) && Over(s, m) && Runs(s, actions)
    ensures Over(After(s, actions), m) && !InFlight(After(s, actions), m)
    decreases |actions|
  {
    if actions == [] {
      OverIsOut(s, m);
    } else {
      InvKept(s, actions[0]);
      OverKept(s, actions[0], m);
      OverStays(Next(s, actions[0]), actions[1..], m);
    }
  }

  /**
   * A post that landed while no release had bundled one tried alone stays delivered, and no later step submits it
   * again.
   */
  lemma LandedForGood(s: State, p: nat, actions: seq<Action>, m: nat)
    requires Inv(s) && Apart(s) && Can(s, Answer(p, Landed)) && m in Members(s.inflight[p])
    requires Runs(Next(s, Answer(p, Landed)), actions)
    ensures var t := After(Next(s, Answer(p, Landed)), actions); StatusIs(t, m, Delivered) && !InFlight(t, m)
  {
    InvKept(s, Answer(p, Landed));
    LandedIsOver(s, p, m);
    OverStays(Next(s, Answer(p, Landed)), actions, m);
  }

  lemma LandedIsOver(s: State, p: nat, m: nat)
    requires Inv(s) && Apart(s) && Can(s, Answer(p, Landed)) && m in Members(s.inflight[p])
    ensures Over(Next(s, Answer(p, Landed)), m)
  {
    var key := s.inflight[p];
    assert Backed(s.posts, key) && Members(key)[0] == p;
    StepKeeps(s, Answer(p, Landed));
    HeadStaysLanded(s, p, m);
    assert p in Members(key);
    if m in s.inflight {
      OnlyItsHead(s, m);
    }
  }

  lemma OnlyItsHead(s: State, m: nat)
    requires Inv(s) && Apart(s) && m in s.inflight
    ensures HeadOf(s.posts, m) == m
  {
    assert Backed(s.posts, s.inflight[m]) && Members(s.inflight[m])[0] == m;
    assert s.inflight[m] in s.inflight.Values;
    assert BundleOf(s.posts, m).Some? ==> Untried(s, m);
  }

  lemma HeadStaysLanded(s: State, p: nat, m: nat)
    requires Inv(s) && Apart(s) && Can(s, Answer(p, Landed)) && m in Members(s.inflight[p])
    ensures HeadOf(s.posts, m) == p && HeadOf(Next(s, Answer(p, Landed)).posts, m) == p
  {
    var key := s.inflight[p];
    StepKeeps(s, Answer(p, Landed));
    assert Backed(s.posts, key) && Members(key)[0] == p;
    assert key.Single? ==> m == p;
    assert BundleOf(s.posts, m).Some? && key.Single? ==> Untried(s, m);
    HeadIsFirst(s, m);
  }

  /** A head that can start makes a delivered post fail when the room has gone. */
  lemma HeadFails(s: State, m: nat)
    requires Inv(s) && Has(s, m) && Startable(s, HeadOf(s.posts, m))
    ensures StatusIs(Next(s, Begin(HeadOf(s.posts, m), Some(Failed))), m, Failed)
  {
    HeadIsFirst(s, m);
    HeadIsFirst(s, HeadOf(s.posts, m));
    GoesAs(s, m, m);
  }

  /** From a delivered post that is not over to a run after which it is not delivered. */
  lemma OpenAgain(s: State, m: nat) returns (actions: seq<Action>)
    requires Inv(s) && StatusIs(s, m, Delivered) && !Over(s, m)
    ensures Runs(s, actions) && StatusIs(After(s, actions), m, Failed)
  {
    HeadIsFirst(s, m);
    var h := HeadOf(s.posts, m);
    if m in s.inflight {
      actions := [Answer(m, Dead)];
      OneStep(s, actions[0]);
    } else if h in s.inflight {
      InvKept(s, Answer(h, Dead));
      var t := Next(s, Answer(h, Dead));
      StepKeeps(s, Answer(h, Dead));
      assert StatusIs(t, h, Failed) && h !in t.inflight;
      if StatusIs(t, m, Failed) {
        actions := [Answer(h, Dead)];
        OneStep(s, actions[0]);
      } else {
        actions := FailedHeadOpens(t, m);
        StepThen(s, Answer(h, Dead), t, actions);
        actions := [Answer(h, Dead)] + actions;
      }
    } else if StatusIs(s, h, Failed) {
      actions := FailedHeadOpens(s, m);
    } else {
      HeadFails(s, m);
      actions := [Begin(h, Some(Failed))];
      OneStep(s, actions[0]);
    }
  }

  lemma FailedHeadOpens(s: State, m: nat) returns (actions: seq<Action>)
    requires Inv(s) && Has(s, m)
    requires var h := HeadOf(s.posts, m); StatusIs(s, h, Failed) && h !in s.inflight
    ensures Runs(s, actions) && StatusIs(After(s, actions), m, Failed)
  {
    var h := HeadOf(s.posts, m);
    InvKept(s, TryAgain(h));
    StepKeeps(s, TryAgain(h));
    var t := Next(s, TryAgain(h));
    assert HeadOf(t.posts, m) == h && StatusIs(t, h, Sending);
    HeadFails(t, m);
    actions := [TryAgain(h), Begin(h, Some(Failed))];
    TwoSteps(s, actions[0], actions[1]);
  }

  /**
   * A delivered post stays delivered, and is in no submit in progress, in every run exactly when neither it nor the
   * post it goes as is on its way and the latter cannot start.
   */
  lemma OverExactlyWhen(s: State, m: nat)
    requires Inv(s) && StatusIs(s, m, Delivered)
    ensures Over(s, m) <==> forall actions :: Runs(s, actions) ==>
              StatusIs(After(s, actions), m, Delivered) && !InFlight(After(s, actions), m)
  {
    if Over(s, m) {
      forall actions | Runs(s, actions)
        ensures StatusIs(After(s, actions), m, Delivered) && !InFlight(After(s, actions), m)
      {
        OverStays(s, actions, m);
      }
    } else {
      var actions := OpenAgain(s, m);
      assert !StatusIs(After(s, actions), m, Delivered);
    }
  }

  /* ---- The rooms' own state ---- */

  lemma FreshSnoc(posts: Posts, p: nat)
    requires p <= |posts|
    ensures FreshBefore(posts, 0) == []
    ensures p < |posts| ==>
              (FreshBefore(posts, p + 1) ==
                  FreshBefore(posts, p) + (if Waits(posts, p) && BundleOf(posts, p) == None then [p] else []))
  {
  }

  class MemberDeliveries {
    var posts: Posts
    var inflight: map<nat, Key>
    ghost var wire: set<Key>
    ghost var taken: set<Key>

    ghost function Now(): State
      reads this
    {
      State(posts, inflight, wire, taken)
    }

    constructor ()
      ensures Now() == Start()
    {
      posts, inflight, wire, taken := [], map[], {}, {};
    }

    /** `set`: a change of each member's delivery, one by one. */
    method SetMembers(members: seq<nat>, f: Delivery -> Delivery)
      requires forall i, j :: 0 <= i < j < |members| ==> members[i] != members[j]
      modifies this`posts
      ensures posts == SetAll(old(posts), members, f)
    {
      for k := 0 to |members|
        invariant posts == SetAll(old(posts), members[..k], f)
      {
        assert members[k] !in members[..k];
        if members[k] < |posts| && posts[members[k]].Some? {
          posts := posts[members[k] := Some(f(posts[members[k]].value))];
        }
      }
      assert members[..|members|] == members;
    }

    /** `deliver` up to the submit. */
    method Deliver(p: nat, refused: Option<Status>)
      requires Inv(Now()) && Can(Now(), Begin(p, refused))
      modifies this
      ensures Inv(Now()) && Now() == Next(old(Now()), Begin(p, refused))
    {
      InvKept(Now(), Begin(p, refused));
      var bundle := BundleOf(posts, p);
      var q := p;
      if bundle.Some? && bundle.value != [] && bundle.value[0] != p && bundle.value[0] < |posts| {
        q := bundle.value[0];
      }
      assert q == HeadOf(posts, p);
      if q >= |posts| || posts[q].None? || posts[q].value.status != Sending || q in inflight {
        return;
      }
      var key := KeyOf(posts, q);
      KeyIsBacked(Now(), q);
      if refused.Some? {
        SetMembers(Members(key), (d: Delivery) => d.(status := refused.value));
        assert forall k :: 0 <= k < |posts| ==> posts[k] == Next(old(Now()), Begin(p, refused)).posts[k];
      } else {
        inflight := inflight[q := key];
      }
    }

    /** The submit goes to the host. */
    method Submit(p: nat)
      requires Inv(Now()) && p in inflight
      modifies this`wire
      ensures Inv(Now()) && Now() == Next(old(Now()), Send(p))
    {
      InvKept(Now(), Send(p));
      wire := wire + {inflight[p]};
    }

    /** `deliver` from the submit's answer on. */
    method Answered(p: nat, outcome: Outcome)
      requires Inv(Now()) && Can(Now(), Answer(p, outcome))
      modifies this
      ensures Inv(Now()) && Now() == Next(old(Now()), Answer(p, outcome))
      ensures AnswerLeaves(old(posts), old(inflight[p]), outcome, posts) && inflight == old(inflight) - {p}
    {
      InvKept(Now(), Answer(p, outcome));
      assert Backed(posts, inflight[p]);
      var members := Members(inflight[p]);
      SetMembers(members, (d: Delivery) => Settle(d, outcome));
      inflight := inflight - {p};
    }

    /** The waiting posts that are in no bundle, oldest first. */
    method Unbundled() returns (waiting: seq<nat>)
      ensures waiting == Fresh(posts)
    {
      hide FreshBefore;
      waiting := [];
      FreshSnoc(posts, 0);
      for p := 0 to |posts|
        invariant waiting == FreshBefore(posts, p)
      {
        FreshSnoc(posts, p);
        if posts[p].Some? && posts[p].value.status == Sending && posts[p].value.away && posts[p].value.bundle == None {
          waiting := waiting + [p];
        }
      }
    }

    /** `release` up to the deliveries it starts. */
    method Back()
      requires Inv(Now())
      modifies this`posts
      ensures Inv(Now()) && Now() == Next(old(Now()), Release)
      ensures ReleaseLeaves(old(posts), posts)
    {
      hide Inv, FreshBefore;
      InvKept(Now(), Release);
      var waiting := Unbundled();
      var bundle := if |waiting| > 1 then Some(waiting) else None;
      for p := 0 to |posts|
        invariant |posts| == |old(posts)|
        invariant forall k :: 0 <= k < |posts| ==> posts[k] == (if k < p then Let(old(posts), k) else old(posts)[k])
      {
        if posts[p].Some? && posts[p].value.status == Sending && posts[p].value.away {
          var d := posts[p].value.(away := false);
          posts := posts[p := Some(if p in waiting && bundle.Some? then d.(bundle := bundle) else d)];
        }
      }
      assert posts == Released(old(posts));
      ReleaseDoes(old(Now()));
    }
  }
}
