/**
 * Posts, the members they wake and the agents' replies in a group room: how far a conversation between agents can go
 * with no post from the owner.
 */
module RoomHops {
  import opened Options
  import opened RoomHeaders

  const MAX_HOPS := 6

  /** Agents are numbered; the registered ones and the members vary from step to step. */
  type Agent = nat

  datatype Author = Owner | By(agent: Agent)

  datatype Member = Member(agent: Agent, all: bool)

  datatype Room = Room(members: seq<Member>, registered: set<Agent>, open: bool)

  datatype Status = Sending | Delivered | Failed | Stopped

  datatype Delivery = Delivery(target: Agent, status: Status)

  /** `text` is the post's text, line by line. */
  datatype Post = Post(author: Author, hops: nat, deliveries: seq<Delivery>, text: seq<string>)

  /** The turn an agent is in: the hops of the input that started it, and how many posts it still makes. */
  datatype Turn = Turn(hops: nat, left: nat)

  datatype State = State(posts: seq<Post>, turns: seq<Turn>)

  /* ---- Whom a post wakes ---- */

  function Woken(members: seq<Member>, registered: set<Agent>, author: Author): seq<Agent> {
    if members == [] then []
    else
      var m := members[0];
      (if By(m.agent) != author && m.all && m.agent in registered then [m.agent] else []) +
          Woken(members[1..], registered, author)
  }

  predicate IsMember(members: seq<Member>, agent: Agent) {
    exists k :: 0 <= k < |members| && members[k].agent == agent
  }

  function Outside(room: Room, author: Author, mentions: seq<Author>): seq<Agent> {
    if mentions == [] then []
    else
      var m := mentions[0];
      (if m.By? && m != author && !IsMember(room.members, m.agent) && m.agent in room.registered then [m.agent] else [])
      + Outside(room, author, mentions[1..])
  }

  function Wakes(room: Room, author: Author, mentions: seq<Author>): seq<Agent> {
    Woken(room.members, room.registered, author) + Outside(room, author, mentions)
  }

  function Addressed(targets: seq<Agent>, status: Status): (deliveries: seq<Delivery>)
    ensures |deliveries| == |targets|
    ensures forall k :: 0 <= k < |deliveries| ==> deliveries[k] == Delivery(targets[k], status)
  {
    if targets == [] then [] else [Delivery(targets[0], status)] + Addressed(targets[1..], status)
  }

  function DeliveriesFor(room: Room, author: Author, mentions: seq<Author>, hops: nat): seq<Delivery> {
    if !room.open then [] else Addressed(Wakes(room, author, mentions), if hops >= MAX_HOPS then Stopped else Sending)
  }

  lemma {:induction false} WokenExactly(members: seq<Member>, registered: set<Agent>, author: Author, agent: Agent)
    ensures agent in Woken(members, registered, author) <==>
            && By(agent) != author && agent in registered
            && exists k :: 0 <= k < |members| && members[k] == Member(agent, true)
  {
    if members != [] {
      WokenExactly(members[1..], registered, author, agent);
      if exists k :: 0 <= k < |members| && members[k] == Member(agent, true) {
        var k :| 0 <= k < |members| && members[k] == Member(agent, true);
        assert k > 0 ==> members[1..][k - 1] == members[k];
      }
      if exists k :: 0 <= k < |members[1..]| && members[1..][k] == Member(agent, true) {
        var k :| 0 <= k < |members[1..]| && members[1..][k] == Member(agent, true);
        assert members[k + 1] == members[1..][k];
      }
    }
  }

  lemma {:induction false} OutsideExactly(room: Room, author: Author, mentions: seq<Author>, agent: Agent)
    ensures agent in Outside(room, author, mentions) <==>
            By(agent) in mentions && By(agent) != author && agent in room.registered && !IsMember(room.members, agent)
  {
    if mentions != [] {
      OutsideExactly(room, author, mentions[1..], agent);
    }
  }

  /**
   * A post wakes exactly the registered agents that are unmuted members or mentioned from outside, and never its
   * author.
   */
  lemma WakesExactly(room: Room, author: Author, mentions: seq<Author>, agent: Agent)
    ensures agent in Wakes(room, author, mentions) <==>
            && By(agent) != author && agent in room.registered
            && if IsMember(room.members, agent) then Member(agent, true) in room.members else By(agent) in mentions
  {
    WokenExactly(room.members, room.registered, author, agent);
    OutsideExactly(room, author, mentions, agent);
  }

  /* ---- The steps ---- */

  /**
   * An input takes in the agent's deliveries of some posts, each under an envelope, and starts a turn of `speaks`
   * posts.
   */
  datatype Action =
    | Deliver(posts: seq<nat>, agent: Agent, form: Form, frames: seq<Frame>, speaks: nat)
    /** The room closed, the agent is gone, or the host refused for good. */
    | Settle(posts: seq<nat>, agent: Agent, status: Status)
    /** The agent posts in the room as it is then. */
    | Speak(agent: Agent, room: Room, mentions: seq<Author>, text: seq<string>)
    /** The owner posts, edits a post of theirs, or tries failed deliveries of a post again. */
    | OwnerPost(room: Room, mentions: seq<Author>, text: seq<string>)
    | Edit(post: nat, text: seq<string>)
    | TryAgain(post: nat)

  predicate OpenTo(post: Post, agent: Agent) {
    Delivery(agent, Sending) in post.deliveries
  }

  predicate Taking(s: State, posts: seq<nat>, agent: Agent) {
    && posts != []
    && forall k :: 0 <= k < |posts| ==> posts[k] < |s.posts| && OpenTo(s.posts[posts[k]], agent)
  }

  predicate Can(s: State, a: Action) {
    match a
    case Deliver(posts, agent, form, frames, speaks) =>
      Taking(s, posts, agent) && agent < |s.turns| && |frames| == |posts| && (form != Bundled ==> |posts| == 1)
    case Settle(posts, agent, status) => Taking(s, posts, agent) && status in {Stopped, Failed}
    case Speak(agent, room, mentions, text) => agent < |s.turns| && s.turns[agent].left > 0
    case OwnerPost(room, mentions, text) => true
    case Edit(post, text) => post < |s.posts| && s.posts[post].author == Owner
    case TryAgain(post) => post < |s.posts|
  }

  /** Which steps can happen: an input and an end need deliveries on their way, a post a turn with posts to make. */
  lemma CanExactly(s: State, a: Action)
    ensures Can(s, a) <==>
              match a
              case Deliver(posts, agent, form, frames, _) =>
                && posts != [] && (forall p :: p in posts ==> InReach(s, p, agent))
                && agent < |s.turns| && |frames| == |posts| && (form == Bundled || |posts| == 1)
              case Settle(posts, agent, status) =>
                posts != [] && (forall p :: p in posts ==> InReach(s, p, agent)) &&
                    (status == Stopped || status == Failed)
              case Speak(agent, _, _, _) => agent < |s.turns| && s.turns[agent].left > 0
              case OwnerPost(_, _, _) => true
              case Edit(post, _) => post < |s.posts| && s.posts[post].author == Owner
              case TryAgain(post) => post < |s.posts|
  {
    if a.Deliver? || a.Settle? {
      assert forall k :: 0 <= k < |a.posts| ==> a.posts[k] in a.posts;
      assert Taking(s, a.posts, a.agent) <==> a.posts != [] && forall p :: p in a.posts ==> InReach(s, p, a.agent);
    }
  }

  ghost predicate InReach(s: State, p: nat, agent: Agent) {
    p < |s.posts| && Delivery(agent, Sending) in s.posts[p].deliveries
  }

  function Mark(deliveries: seq<Delivery>, agent: Agent, status: Status): (marked: seq<Delivery>)
    ensures |marked| == |deliveries|
    ensures forall k :: 0 <= k < |marked| ==>
              marked[k] == (if deliveries[k] == Delivery(agent, Sending) then Delivery(agent, status)
                  else deliveries[k])
  {
    if deliveries == [] then []
    else
      [if deliveries[0] == Delivery(agent, Sending) then Delivery(agent, status) else deliveries[0]]
      + Mark(deliveries[1..], agent, status)
  }

  function Retried(deliveries: seq<Delivery>): (tried: seq<Delivery>)
    ensures |tried| == |deliveries|
    ensures forall k :: 0 <= k < |tried| ==>
        tried[k] == (if deliveries[k].status == Failed then deliveries[k].(status := Sending) else deliveries[k])
  {
    if deliveries == [] then []
    else
      [if deliveries[0].status == Failed then deliveries[0].(status := Sending) else deliveries[0]]
      + Retried(deliveries[1..])
  }

  function MarkAll(all: seq<Post>, posts: seq<nat>, agent: Agent, status: Status): (marked: seq<Post>)
    ensures |marked| == |all|
    ensures forall p: nat :: p < |all| ==>
              marked[p] == (if p in posts then all[p].(deliveries := Mark(all[p].deliveries, agent, status))
                  else all[p])
  {
    seq(|all|, (p: int) requires 0 <= p < |all| =>
        if p in posts then all[p].(deliveries := Mark(all[p].deliveries, agent, status)) else all[p])
  }

  predicate AnyByOwner(s: State, posts: seq<nat>)
    requires forall k :: 0 <= k < |posts| ==> posts[k] < |s.posts|
  {
    exists p :: p in posts && s.posts[p].author == Owner
  }

  function Parts(s: State, posts: seq<nat>, frames: seq<Frame>): (parts: seq<Part>)
    requires |frames| == |posts| && forall k :: 0 <= k < |posts| ==> posts[k] < |s.posts|
    ensures |parts| == |posts|
    ensures forall k :: 0 <= k < |parts| ==>
              parts[k] == Part(posts[k] + 1, s.posts[posts[k]].hops, s.posts[posts[k]].text, frames[k])
  {
    seq(|posts|, (k: int) requires 0 <= k < |posts| =>
      Part(posts[k] + 1, s.posts[posts[k]].hops, s.posts[posts[k]].text, frames[k]))
  }

  /** The hops of the turn an input starts: none when the owner is in it, else the highest its headers name. */
  function TurnHops(s: State, a: Action): nat
    requires Can(s, a) && a.Deliver?
  {
    if AnyByOwner(s, a.posts) then 0 else Top(Headers(Input(a.form, Parts(s, a.posts, a.frames))))
  }

  function Next(s: State, a: Action): State
    requires Can(s, a)
  {
    match a
    case Deliver(posts, agent, form, frames, speaks) =>
      State(MarkAll(s.posts, posts, agent, Delivered), s.turns[agent := Turn(TurnHops(s, a), speaks)])
    case Settle(posts, agent, status) => s.(posts := MarkAll(s.posts, posts, agent, status))
    case Speak(agent, room, mentions, text) =>
      var turn := s.turns[agent];
      State(s.posts + [Post(By(agent), turn.hops + 1, DeliveriesFor(room, By(agent), mentions, turn.hops + 1), text)],
            s.turns[agent := turn.(left := turn.left - 1)])
    case OwnerPost(room, mentions, text) =>
        s.(posts := s.posts + [Post(Owner, 0, DeliveriesFor(room, Owner, mentions, 0), text)])
    case Edit(post, text) => s.(posts := s.posts[post := s.posts[post].(text := text)])
    case TryAgain(post) => s.(posts := s.posts[post := s.posts[post].(deliveries := Retried(s.posts[post].deliveries))])
  }

  function Start(agents: nat): State {
    State([], seq(agents, k => Turn(0, 0)))
  }

  /**
   * A post an agent or the owner writes has a delivery to each agent it wakes and to no other, none in a room that
   * takes no posts; they are on their way below the hop limit, and stopped at once from it on. All that was there
   * stands, but for the one post the agent's turn has less.
   */
  lemma PostWakes(s: State, a: Action, agent: Agent, status: Status)
    requires Can(s, a) && (a.Speak? || a.OwnerPost?)
    ensures var t := Next(s, a);
            && |t.posts| == |s.posts| + 1 && t.posts[..|s.posts|] == s.posts
            && var post := t.posts[|s.posts|];
               && post.text == a.text
               && (if a.Speak? then post.author == By(a.agent) && post.hops == s.turns[a.agent].hops + 1
                   else post.author == Owner && post.hops == 0)
               && (Delivery(agent, status) in post.deliveries <==>
                     && a.room.open && By(agent) != post.author && agent in a.room.registered
                     && (if exists k :: 0 <= k < |a.room.members| && a.room.members[k].agent == agent
                         then Member(agent, true) in a.room.members
                         else By(agent) in a.mentions)
                     && status == if post.hops < 6 then Sending else Stopped)
    ensures var t := Next(s, a);
            |t.turns| == |s.turns| && forall i :: 0 <= i < |s.turns| ==>
              t.turns[i] == if a.Speak? && i == a.agent then Turn(s.turns[i].hops, s.turns[i].left - 1) else s.turns[i]
  {
    hide Wakes, DeliveriesFor, IsMember, Next;
    var author := if a.Speak? then By(a.agent) else Owner;
    OnePostMore(s, a);
    DeliveriesExactly(a.room, author, a.mentions, if a.Speak? then s.turns[a.agent].hops + 1 else 0, agent, status);
  }

  lemma OnePostMore(s: State, a: Action)
    requires Can(s, a) && (a.Speak? || a.OwnerPost?)
    ensures var t, author := Next(s, a), if a.Speak? then By(a.agent) else Owner;
            var hops := if a.Speak? then s.turns[a.agent].hops + 1 else 0;
            && t.posts == s.posts + [Post(author, hops, DeliveriesFor(a.room, author, a.mentions, hops), a.text)]
            && t.turns == if a.Speak? then s.turns[a.agent := Turn(hops - 1, s.turns[a.agent].left - 1)] else s.turns
  {
    hide DeliveriesFor, Mark, MarkAll, Retried, TurnHops, Taking, OpenTo;
  }

  lemma DeliveriesExactly(room: Room, author: Author, mentions: seq<Author>, hops: nat, agent: Agent, status: Status)
    ensures Delivery(agent, status) in DeliveriesFor(room, author, mentions, hops) <==>
              && room.open && By(agent) != author && agent in room.registered
              && (if exists k :: 0 <= k < |room.members| && room.members[k].agent == agent
                  then Member(agent, true) in room.members
                  else By(agent) in mentions)
              && status == if hops < 6 then Sending else Stopped
  {
    hide Wakes;
    WakesExactly(room, author, mentions, agent);
    AddressedExactly(Wakes(room, author, mentions), if hops < 6 then Sending else Stopped, agent);
  }

  lemma AddressedExactly(targets: seq<Agent>, status: Status, agent: Agent)
    ensures forall d :: d in Addressed(targets, status) && d.target == agent ==> d == Delivery(agent, status)
    ensures Delivery(agent, status) in Addressed(targets, status) <==> agent in targets
  {
    var all := Addressed(targets, status);
    if agent in targets {
      var k :| 0 <= k < |targets| && targets[k] == agent;
      assert all[k] in all;
    }
  }

  /** A delivery of a post that an input takes in, or that is settled, is marked so; no other delivery changes. */
  ghost predicate Marked(was: Post, now: Post, agent: Agent, status: Status) {
    && now == was.(deliveries := now.deliveries) && |now.deliveries| == |was.deliveries|
    && forall k :: 0 <= k < |was.deliveries| ==>
         now.deliveries[k] == if was.deliveries[k] == Delivery(agent, Sending) then Delivery(agent, status)
                              else was.deliveries[k]
  }

  /** What the other steps leave of the posts. */
  lemma StepLeaves(s: State, a: Action, p: nat)
    requires Can(s, a) && !a.Speak? && !a.OwnerPost? && p < |s.posts|
    ensures var t := Next(s, a);
            && |t.posts| == |s.posts| && (!a.Deliver? ==> t.turns == s.turns)
            && match a
               case Deliver(posts, agent, _, _, speaks) =>
                 && (if p in posts then Marked(s.posts[p], t.posts[p], agent, Delivered) else t.posts[p] == s.posts[p])
                 && t.turns == s.turns[agent := Turn(t.turns[agent].hops, speaks)]
               case Settle(posts, agent, status) =>
                 if p in posts then Marked(s.posts[p], t.posts[p], agent, status) else t.posts[p] == s.posts[p]
               case Edit(post, text) => t.posts[p] == if p == post then s.posts[p].(text := text) else s.posts[p]
               case TryAgain(post) =>
                 if p != post then t.posts[p] == s.posts[p]
                 else
                   && t.posts[p] == s.posts[p].(deliveries := t.posts[p].deliveries)
                   && |t.posts[p].deliveries| == |s.posts[p].deliveries|
                   && forall k :: 0 <= k < |s.posts[p].deliveries| ==>
                        t.posts[p].deliveries[k] == if s.posts[p].deliveries[k].status == Failed
                                                    then s.posts[p].deliveries[k].(status := Sending)
                                                    else s.posts[p].deliveries[k]
  {
    hide Mark, Retried, TurnHops;
  }

  /* ---- Safety ---- */

  /** The owner's posts carry no hops, and a post at the limit has only stopped deliveries. */
  ghost predicate Inv(s: State) {
    forall p :: 0 <= p < |s.posts| ==> SoundPost(s.posts[p])
  }

  ghost predicate SoundPost(post: Post) {
    && (post.author == Owner ==> post.hops == 0)
    && (post.hops >= MAX_HOPS ==> forall k :: 0 <= k < |post.deliveries| ==> post.deliveries[k].status == Stopped)
  }

  lemma InvKept(s: State, a: Action)
    requires Inv(s) && Can(s, a)
    ensures Inv(Next(s, a))
  {
    hide Mark, MarkAll, Retried, TurnHops, OpenTo, Wakes;
    forall p | 0 <= p < |Next(s, a).posts|
      ensures SoundPost(Next(s, a).posts[p])
    {
    }
  }

  /** A post at the hop limit is never submitted: no input takes it in. */
  lemma LimitIsNeverSubmitted(s: State, a: Action)
    requires Inv(s) && Can(s, a) && a.Deliver?
    ensures forall k :: 0 <= k < |a.posts| ==> s.posts[a.posts[k]].hops < MAX_HOPS
  {
    forall k | 0 <= k < |a.posts|
      ensures s.posts[a.posts[k]].hops < MAX_HOPS
    {
      assert OpenTo(s.posts[a.posts[k]], a.agent);
    }
  }

  /**
   * An input's turn is past no fewer hops than any of its posts, nor than any header line that a reader of it finds in
   * them.
   */
  lemma TurnHopsMeans(s: State, a: Action)
    requires Can(s, a) && a.Deliver? && !AnyByOwner(s, a.posts)
    ensures var parts, top := Parts(s, a.posts, a.frames), TurnHops(s, a);
            && (forall k :: 0 <= k < |parts| ==> parts[k].hops <= top)
            && (a.form != AtOnce ==> forall k, hops: nat :: 0 <= k < |parts| && Quotes(parts[k], hops) ==> hops <= top)
            && (exists k :: 0 <= k < |parts| && (top == parts[k].hops || (a.form != AtOnce && Quotes(parts[k], top))))
  {
    hide Quotes, Input, Headers;
    var parts := Parts(s, a.posts, a.frames);
    var headers := Headers(Input(a.form, parts));
    forall k | 0 <= k < |parts|
      ensures parts[k].hops in headers && parts[k].hops <= Top(headers)
    {
      InputHeaders(a.form, parts, parts[k].hops);
    }
    forall k, hops: nat | 0 <= k < |parts| && a.form != AtOnce && Quotes(parts[k], hops)
      ensures hops <= Top(headers)
    {
      InputHeaders(a.form, parts, hops);
      assert hops in headers;
    }
    assert parts[0].hops in headers;
    InputHeaders(a.form, parts, Top(headers));
    assert TurnHops(s, a) == Top(headers);
  }

  /** No line of the texts an input shows reads as a header, or the reader looks at the first line only. */
  ghost predicate Quoteless(s: State, a: Action)
    requires Can(s, a) && a.Deliver?
  {
    a.form == AtOnce || forall k, hops: nat :: 0 <= k < |a.posts| ==> !Quotes(Parts(s, a.posts, a.frames)[k], hops)
  }

  /** How far a reply to an input may be from the owner. */
  ghost predicate OneHopOn(s: State, a: Action, hops: nat)
    requires Can(s, a) && a.Deliver?
  {
    if AnyByOwner(s, a.posts) then hops == 1
    else
      && (forall k :: 0 <= k < |a.posts| ==> s.posts[a.posts[k]].hops < hops)
      && (Quoteless(s, a) ==> exists k :: 0 <= k < |a.posts| && hops == s.posts[a.posts[k]].hops + 1)
  }

  lemma ReplyIs(s: State, a: Action, room: Room, mentions: seq<Author>, text: seq<string>)
    requires Can(s, a) && a.Deliver? && a.speaks > 0
    ensures Can(Next(s, a), Speak(a.agent, room, mentions, text))
    ensures var u := Next(Next(s, a), Speak(a.agent, room, mentions, text));
            && |u.posts| == |s.posts| + 1
            && u.posts[|s.posts|].author == By(a.agent) && u.posts[|s.posts|].hops == TurnHops(s, a) + 1
  {
    hide Mark, DeliveriesFor, TurnHops;
    assert Next(s, a).turns[a.agent] == Turn(TurnHops(s, a), a.speaks);
  }

  /**
   * An agent's next post is one hop from the owner when the owner is in the input that started its turn; else it is
   * past every post of that input, and one hop past the farthest when no text in it reads as a header.
   */
  lemma ReplyHops(s: State, a: Action, room: Room, mentions: seq<Author>, text: seq<string>)
    requires Can(s, a) && a.Deliver? && a.speaks > 0
    ensures Can(Next(s, a), Speak(a.agent, room, mentions, text))
    ensures var t := Next(Next(s, a), Speak(a.agent, room, mentions, text));
            |t.posts| == |s.posts| + 1 && t.posts[|s.posts|].author == By(a.agent) &&
                OneHopOn(s, a, t.posts[|s.posts|].hops)
  {
    hide Mark, DeliveriesFor, Wakes, OpenTo, Quotes, TurnHops, AnyByOwner, Next;
    ReplyIs(s, a, room, mentions, text);
    if !AnyByOwner(s, a.posts) {
      TurnHopsMeans(s, a);
      assert forall k :: 0 <= k < |a.posts| ==> Parts(s, a.posts, a.frames)[k].hops == s.posts[a.posts[k]].hops;
    } else {
      OwnerTurn(s, a);
    }
  }

  /** No post and no turn is past the limit. */
  ghost predicate Bounded(s: State) {
    && (forall p :: 0 <= p < |s.posts| ==> s.posts[p].hops <= MAX_HOPS)
    && (forall t :: 0 <= t < |s.turns| ==> s.turns[t].hops < MAX_HOPS)
  }

  /** Every line that has a header's form names hops below the limit. */
  ghost predicate Tame(lines: seq<string>) {
    forall line :: line in lines && HopsOf(line).Some? ==> HopsOf(line).value < MAX_HOPS
  }

  /** The texts and context lines of an input whose posts waited are tame. */
  ghost predicate QuotesBelow(s: State, a: Action)
    requires Can(s, a)
  {
    a.Deliver? && a.form != AtOnce ==>
      forall k :: 0 <= k < |a.posts| ==> Tame(s.posts[a.posts[k]].text + a.frames[k].context)
  }

  lemma TameQuotes(part: Part)
    ensures Tame(part.text + part.frame.context) <==> forall hops: nat :: Quotes(part, hops) ==> hops < MAX_HOPS
  {
    hide HopsOf;
    if !Tame(part.text + part.frame.context) {
      var line :| line in part.text + part.frame.context && HopsOf(line).Some? && HopsOf(line).value >= MAX_HOPS;
      assert Quotes(part, HopsOf(line).value);
    }
  }

  /**
   * A step keeps all hops within the limit exactly when its input is sent at once, or shows no line of header form at
   * or past the limit in its posts' texts and context, or has an owner post.
   */
  lemma BoundedExactlyWhen(s: State, a: Action)
    requires Inv(s) && Bounded(s) && Can(s, a)
    ensures Bounded(Next(s, a)) <==> QuotesBelow(s, a) || (a.Deliver? && AnyByOwner(s, a.posts))
  {
    hide Inv, Mark, MarkAll, DeliveriesFor, Retried, OpenTo, AnyByOwner, TurnHops;
    if a.Deliver? {
      DeliverBounded(s, a);
    }
  }

  lemma DeliverBounded(s: State, a: Action)
    requires Inv(s) && Bounded(s) && Can(s, a) && a.Deliver?
    ensures Bounded(Next(s, a)) <==> TurnHops(s, a) < MAX_HOPS
    ensures TurnHops(s, a) < MAX_HOPS <==> QuotesBelow(s, a) || AnyByOwner(s, a.posts)
  {
    hide Inv, Mark, MarkAll, DeliveriesFor, Retried, OpenTo, AnyByOwner, Tame, Quotes, TurnHops;
    var t, turn := Next(s, a), Turn(TurnHops(s, a), a.speaks);
    assert t.turns[a.agent] == turn && forall i :: 0 <= i < |s.turns| && i != a.agent ==> t.turns[i] == s.turns[i];
    assert |t.posts| == |s.posts| && forall p :: 0 <= p < |s.posts| ==> t.posts[p].hops == s.posts[p].hops;
    if AnyByOwner(s, a.posts) {
      OwnerTurn(s, a);
    } else {
      TurnBounded(s, a);
    }
  }

  lemma OwnerTurn(s: State, a: Action)
    requires Can(s, a) && a.Deliver? && AnyByOwner(s, a.posts)
    ensures TurnHops(s, a) == 0
  {
  }

  lemma TurnBounded(s: State, a: Action)
    requires Inv(s) && Can(s, a) && a.Deliver? && !AnyByOwner(s, a.posts)
    ensures TurnHops(s, a) < MAX_HOPS <==> QuotesBelow(s, a)
  {
    hide Inv, OpenTo, AnyByOwner, Tame, Quotes, TurnHops;
    var parts := Parts(s, a.posts, a.frames);
    LimitIsNeverSubmitted(s, a);
    TurnHopsMeans(s, a);
    forall k | 0 <= k < |parts|
      ensures Tame(s.posts[a.posts[k]].text + a.frames[k].context) <==>
          forall hops: nat :: Quotes(parts[k], hops) ==> hops < MAX_HOPS
    {
      TameQuotes(parts[k]);
    }
  }

  /** Any header line at or past the limit, quoted in an agent's post that waited, takes the turn past the limit. */
  lemma QuotedHeaderCounts(s: State, a: Action, k: nat, quoted: Part)
    requires Inv(s) && Bounded(s) && Can(s, a) && a.Deliver? && a.form != AtOnce && !AnyByOwner(s, a.posts)
    requires k < |a.posts| && HeaderLine(quoted) in s.posts[a.posts[k]].text && quoted.hops >= MAX_HOPS
    ensures !Bounded(Next(s, a))
  {
    hide Inv, Bounded, Next, HopsOf, HeaderLine, AnyByOwner;
    HeaderLineReads(quoted);
    BoundedExactlyWhen(s, a);
    assert HeaderLine(quoted) in s.posts[a.posts[k]].text + a.frames[k].context;
  }

  predicate Runs(s: State, actions: seq<Action>)
    decreases |actions|
  {
    actions == [] || (Can(s, actions[0]) && Runs(Next(s, actions[0]), actions[1..]))
  }

  function After(s: State, actions: seq<Action>): State
    requires Runs(s, actions)
    decreases |actions|
  {
    if actions == [] then s else After(Next(s, actions[0]), actions[1..])
  }

  ghost predicate AllQuoteBelow(s: State, actions: seq<Action>)
    requires Runs(s, actions)
    decreases |actions|
  {
    actions == [] || (QuotesBelow(s, actions[0]) && AllQuoteBelow(Next(s, actions[0]), actions[1..]))
  }

  /**
   * Over any run whose waiting inputs show no line of header form at or past the limit, every post has at most
   * `MAX_HOPS` hops.
   */
  lemma {:induction false} HopsAtMostSix(s: State, actions: seq<Action>)
    requires Inv(s) && Bounded(s) && Runs(s, actions) && AllQuoteBelow(s, actions)
    ensures Inv(After(s, actions)) && Bounded(After(s, actions))
    decreases |actions|
  {
    hide Inv, Bounded, QuotesBelow, Next;
    if actions != [] {
      InvKept(s, actions[0]);
      BoundedExactlyWhen(s, actions[0]);
      HopsAtMostSix(Next(s, actions[0]), actions[1..]);
    }
  }

  ghost predicate TameTexts(s: State) {
    forall p :: 0 <= p < |s.posts| ==> Tame(s.posts[p].text)
  }

  /** What an action writes or shows besides the posts there are is tame. */
  ghost predicate TameAction(a: Action) {
    match a
    case Deliver(_, _, _, frames, _) => forall k :: 0 <= k < |frames| ==> Tame(frames[k].context)
    case Speak(_, _, _, text) => Tame(text)
    case OwnerPost(_, _, text) => Tame(text)
    case Edit(_, text) => Tame(text)
    case _ => true
  }

  /** So it is when nobody ever writes such a line. */
  lemma {:induction false} TameWritersStayBelow(s: State, actions: seq<Action>)
    requires Runs(s, actions) && TameTexts(s) && forall k :: 0 <= k < |actions| ==> TameAction(actions[k])
    ensures AllQuoteBelow(s, actions)
    decreases |actions|
  {
    hide Tame, Mark, DeliveriesFor, Retried, TurnHops, OpenTo;
    if actions != [] {
      var a := actions[0];
      if a.Deliver? {
        forall k | 0 <= k < |a.posts|
          ensures Tame(s.posts[a.posts[k]].text + a.frames[k].context)
        {
          TameConcat(s.posts[a.posts[k]].text, a.frames[k].context);
        }
      }
      TameWritersStayBelow(Next(s, a), actions[1..]);
    }
  }

  lemma TameConcat(a: seq<string>, b: seq<string>)
    requires Tame(a) && Tame(b)
    ensures Tame(a + b)
  {
    hide HopsOf;
  }

  /* ---- Every conversation ends ---- */

  /** Deliveries still on their way. */
  function Count(deliveries: seq<Delivery>): nat {
    if deliveries == [] then 0 else (if deliveries[0].status == Sending then 1 else 0) + Count(deliveries[1..])
  }

  function PostOpen(post: Post, hops: nat): nat {
    if post.hops == hops then Count(post.deliveries) else 0
  }

  /** The open deliveries of all posts with some hops. */
  function Open(posts: seq<Post>, hops: nat): nat {
    if posts == [] then 0 else Open(posts[..|posts| - 1], hops) + PostOpen(posts[|posts| - 1], hops)
  }

  function Level(hops: nat): nat {
    if hops < MAX_HOPS then hops else MAX_HOPS
  }

  function TurnLeft(turn: Turn, level: nat): nat {
    if Level(turn.hops) == level then turn.left else 0
  }

  /** The posts all turns of a level still make. */
  function Left(turns: seq<Turn>, level: nat): nat {
    if turns == [] then 0 else Left(turns[..|turns| - 1], level) + TurnLeft(turns[|turns| - 1], level)
  }

  lemma {:induction false} CountMarked(deliveries: seq<Delivery>, agent: Agent, status: Status)
    requires status != Sending
    ensures Count(Mark(deliveries, agent, status)) <= Count(deliveries)
    ensures Delivery(agent, Sending) in deliveries ==> Count(Mark(deliveries, agent, status)) < Count(deliveries)
  {
    if deliveries != [] {
      var first, rest := deliveries[0], deliveries[1..];
      CountMarked(rest, agent, status);
      var marked := Mark(deliveries, agent, status);
      assert marked[1..] == Mark(rest, agent, status);
      assert Count(marked) == (if marked[0].status == Sending then 1 else 0) + Count(Mark(rest, agent, status));
      assert deliveries == [first] + rest;
    }
  }

  lemma {:induction false} OpenBelow(before: seq<Post>, after: seq<Post>, hops: nat)
    requires |before| == |after| && forall p :: 0 <= p < |before| ==>
        PostOpen(after[p], hops) <= PostOpen(before[p], hops)
    ensures Open(after, hops) <= Open(before, hops)
    ensures (exists p :: 0 <= p < |before| && PostOpen(after[p], hops) < PostOpen(before[p], hops)) ==>
        Open(after, hops) < Open(before, hops)
    ensures (forall p :: 0 <= p < |before| ==> PostOpen(after[p], hops) == PostOpen(before[p], hops)) ==>
        Open(after, hops) == Open(before, hops)
  {
    if before != [] {
      OpenBelow(before[..|before| - 1], after[..|after| - 1], hops);
    }
  }

  lemma {:induction false} LeftUpdated(turns: seq<Turn>, i: nat, turn: Turn, level: nat)
    requires i < |turns|
    ensures Left(turns[i := turn], level) == Left(turns, level) - TurnLeft(turns[i], level) + TurnLeft(turn, level)
    ensures Left(turns, level) >= TurnLeft(turns[i], level)
  {
    var k := |turns| - 1;
    if i < k {
      assert turns[i := turn][..k] == turns[..k][i := turn];
      LeftUpdated(turns[..k], i, turn, level);
    } else {
      assert turns[i := turn][..k] == turns[..k];
    }
  }

  /** A rank per hop level: its open deliveries, then the posts its turns still make. */
  function Rank(s: State, k: nat): nat {
    if k % 2 == 0 && k < 12 then Open(s.posts, k / 2) else Left(s.turns, k / 2)
  }

  /** What agents and their host do alone; the rest is the owner's. */
  predicate Alone(a: Action) {
    a.Deliver? || a.Settle? || a.Speak?
  }

  /** The first rank that differs, if any, is smaller; and rank `k` is. */
  ghost predicate Descends(s: State, t: State, k: nat) {
    k <= 12 && Rank(t, k) < Rank(s, k) && forall j: nat :: j < k ==> Rank(t, j) <= Rank(s, j)
  }

  lemma MarkedPost(s: State, posts: seq<nat>, agent: Agent, status: Status, p: nat, hops: nat)
    requires status != Sending && p < |s.posts|
    ensures var after := MarkAll(s.posts, posts, agent, status);
            && PostOpen(after[p], hops) <= PostOpen(s.posts[p], hops)
            && (p in posts && OpenTo(s.posts[p], agent) && s.posts[p].hops == hops ==>
                PostOpen(after[p], hops) < PostOpen(s.posts[p], hops))
  {
    CountMarked(s.posts[p].deliveries, agent, status);
  }

  /** Taking deliveries in leaves no level more open, and the taken post's level less. */
  lemma MarkedOpen(s: State, posts: seq<nat>, agent: Agent, status: Status, k: nat, hops: nat)
    requires status != Sending && Taking(s, posts, agent) && k < |posts|
    ensures var after := MarkAll(s.posts, posts, agent, status);
            && Open(after, hops) <= Open(s.posts, hops)
            && (s.posts[posts[k]].hops == hops ==> Open(after, hops) < Open(s.posts, hops))
  {
    hide PostOpen, OpenTo;
    var after := MarkAll(s.posts, posts, agent, status);
    forall p: nat | p < |s.posts|
      ensures PostOpen(after[p], hops) <= PostOpen(s.posts[p], hops)
    {
      MarkedPost(s, posts, agent, status, p, hops);
    }
    MarkedPost(s, posts, agent, status, posts[k], hops);
    OpenBelow(s.posts, after, hops);
  }

  /** A post of the input whose hops are no more than those of the turn it starts. */
  lemma TurnIsNoLower(s: State, a: Action) returns (k: nat)
    requires Inv(s) && Can(s, a) && a.Deliver?
    ensures k < |a.posts| && a.posts[k] < |s.posts|
    ensures s.posts[a.posts[k]].hops <= TurnHops(s, a) && s.posts[a.posts[k]].hops < MAX_HOPS
  {
    hide TurnHops, OpenTo;
    LimitIsNeverSubmitted(s, a);
    k := 0;
    if AnyByOwner(s, a.posts) {
      k :| 0 <= k < |a.posts| && s.posts[a.posts[k]].author == Owner;
    } else {
      TurnHopsMeans(s, a);
      assert Parts(s, a.posts, a.frames)[0].hops == s.posts[a.posts[0]].hops;
    }
  }

  lemma DeliverDescends(s: State, a: Action) returns (k: nat)
    requires Inv(s) && Can(s, a) && a.Deliver?
    ensures Descends(s, Next(s, a), k)
  {
    hide Inv, Mark, MarkAll, Taking, TurnHops, Open, Left;
    var t := Next(s, a);
    var i := TurnIsNoLower(s, a);
    var level := s.posts[a.posts[i]].hops;
    k := 2 * level;
    forall j: nat | j <= k
      ensures Rank(t, j) <= Rank(s, j) && (j == k ==> Rank(t, j) < Rank(s, j))
    {
      MarkedOpen(s, a.posts, a.agent, Delivered, i, j / 2);
      LeftUpdated(s.turns, a.agent, t.turns[a.agent], j / 2);
    }
  }

  lemma OpenIsBelow(s: State, posts: seq<nat>, agent: Agent)
    requires Inv(s) && Taking(s, posts, agent)
    ensures posts != [] && posts[0] < |s.posts| && s.posts[posts[0]].hops < MAX_HOPS
  {
    assert OpenTo(s.posts[posts[0]], agent);
  }

  lemma SettleDescends(s: State, a: Action) returns (k: nat)
    requires Inv(s) && Can(s, a) && a.Settle?
    ensures Descends(s, Next(s, a), k)
  {
    hide Inv, Mark, MarkAll, Taking, OpenTo, Open, Left;
    var t := Next(s, a);
    OpenIsBelow(s, a.posts, a.agent);
    var level := s.posts[a.posts[0]].hops;
    k := 2 * level;
    forall j: nat | j <= k
      ensures Rank(t, j) <= Rank(s, j) && (j == k ==> Rank(t, j) < Rank(s, j))
    {
      MarkedOpen(s, a.posts, a.agent, a.status, 0, j / 2);
    }
  }

  lemma SpeakDescends(s: State, a: Action) returns (k: nat)
    requires Can(s, a) && a.Speak?
    ensures Descends(s, Next(s, a), k)
  {
    hide DeliveriesFor, Left, Count;
    var t := Next(s, a);
    var level := Level(s.turns[a.agent].hops);
    k := if level < MAX_HOPS then 2 * level + 1 else 12;
    assert t.posts[..|t.posts| - 1] == s.posts;
    forall j: nat | j <= k
      ensures Rank(t, j) <= Rank(s, j) && (j == k ==> Rank(t, j) < Rank(s, j))
    {
      LeftUpdated(s.turns, a.agent, t.turns[a.agent], j / 2);
    }
  }

  lemma StepDescends(s: State, a: Action) returns (k: nat)
    requires Inv(s) && Can(s, a) && Alone(a)
    ensures Descends(s, Next(s, a), k)
  {
    hide Descends, Inv, Can, Next;
    if a.Deliver? {
      k := DeliverDescends(s, a);
    } else if a.Settle? {
      k := SettleDescends(s, a);
    } else {
      k := SpeakDescends(s, a);
    }
  }

  /** An endless run: a state and an action for every moment. */
  ghost predicate Moves(run: nat -> State, acts: nat -> Action, n: nat) {
    Can(run(n), acts(n)) && run(n + 1) == Next(run(n), acts(n))
  }

  /** However many posts each turn makes, no run goes on for ever without the owner. */
  lemma {:induction false} OwnerActsAgain(run: nat -> State, acts: nat -> Action, n: nat)
    requires Inv(run(n)) && forall m :: Moves(run, acts, m)
    ensures exists m :: n <= m && !Alone(acts(m))
    decreases Rank(run(n), 0), Rank(run(n), 1), Rank(run(n), 2), Rank(run(n), 3), Rank(run(n), 4), Rank(run(n), 5),
        Rank(run(n), 6),
              Rank(run(n), 7), Rank(run(n), 8), Rank(run(n), 9), Rank(run(n), 10), Rank(run(n), 11), Rank(run(n), 12)
  {
    hide Rank, Inv, Can, Next, Alone;
    assert Moves(run, acts, n);
    if Alone(acts(n)) {
      InvKept(run(n), acts(n));
      var k := StepDescends(run(n), acts(n));
      OwnerActsAgain(run, acts, n + 1);
    }
  }
}
