/** The tribe's promises end to end: gossip events, duplicate check, handlers and retry loop
together (mgmt/tribe/tribe.go), and the ways in which they fail. */
module TribeTheorems {
  import opened Wrappers
  import opened LamportClock
  import opened TribeTypes
  import B = Inbox
  import opened Intents
  import opened Convergence
  import S = Spinning

  /** A node's life: clock and handler events, and the matching history of its book. */
  ghost predicate Life(es: seq<B.Event>, os: seq<Occasion>) {
    B.Runs(B.Empty(), es) && Messages(os) == B.Accepted(B.Empty(), es)
  }

  lemma {:induction false} SameSetSameMultiset(s: seq<Msg>, t: seq<Msg>)
    requires NoRepeats(s) && NoRepeats(t) && forall m :: m in s <==> m in t
    ensures multiset(s) == multiset(t)
  {
    forall m ensures multiset(s)[m] == multiset(t)[m] {
      OnceEach(s, m);
      OnceEach(t, m);
    }
  }

  lemma {:induction false} OnceEach(s: seq<Msg>, m: Msg)
    requires NoRepeats(s)
    ensures multiset(s)[m] == if m in s then 1 else 0
  {
    if s != [] {
      assert s == s[..|s| - 1] + [s[|s| - 1]];
      OnceEach(s[..|s| - 1], m);
    }
  }

  lemma {:induction false} SameElements(s: seq<Msg>, t: seq<Msg>)
    requires UniqueIds(s) && B.DistinctTimes(s) && forall m | m in t :: m in s
    ensures UniqueIds(t) && B.DistinctTimes(t)
  {
    forall i, j | 0 <= i < |t| && 0 <= j < |t| && (t[i].uuid == t[j].uuid || t[i].ltime == t[j].ltime)
      ensures t[i] == t[j]
    {
      assert t[i] in s && t[j] in s;
      var a :| 0 <= a < |s| && s[a] == t[i];
      var b :| 0 <= b < |s| && s[b] == t[j];
    }
  }

  lemma {:induction false} AcceptsOnce(es: seq<B.Event>, os: seq<Occasion>)
    requires Life(es, os) && B.Steady(B.Empty(), es) && UniqueIds(Messages(os)) && B.DistinctTimes(Messages(os))
    ensures NoRepeats(Messages(os))
  {
    B.AppliedAtMostOnce(es);
  }

  /** When no two messages share a time and no clock is set back, two nodes that accepted the same messages, however the
      channel reordered and repeated them, agree on every agreement and every item. */
  lemma {:induction false} GossipConverges(es1: seq<B.Event>, os1: seq<Occasion>, es2: seq<B.Event>,
      os2: seq<Occasion>, n: string, x: Item)
    requires Life(es1, os1) && Life(es2, os2) && Run(os1).Done? && Run(os2).Done?
    requires B.Steady(B.Empty(), es1) && B.Steady(B.Empty(), es2)
    requires UniqueIds(Messages(os1)) && B.DistinctTimes(Messages(os1)) && NoAgreementRemoved(Messages(os1))
    requires forall m :: m in Messages(os1) <==> m in Messages(os2)
    ensures n in Run(os1).book.agreements <==> n in Run(os2).book.agreements
    ensures Present(Run(os1).book, n, x) <==> Present(Run(os2).book, n, x)
  {
    SameElements(Messages(os1), Messages(os2));
    AcceptsOnce(es1, os1);
    AcceptsOnce(es2, os2);
    SameSetSameMultiset(Messages(os1), Messages(os2));
    Converges(os1, os2, n, x);
  }

  // ---- Ties and falls defeat the duplicate check ----

  lemma {:induction false} EventsSnoc(es: seq<B.Event>, e: B.Event)
    ensures var b := B.After(B.Empty(), es);
            && B.After(B.Empty(), es + [e]) == B.Step(b, e)
            && (B.Runs(B.Empty(), es + [e]) <==> B.Runs(B.Empty(), es) && B.Enabled(b, es, e))
            && B.Accepted(B.Empty(), es + [e]) ==
                 B.Accepted(B.Empty(), es) + if e.Body? && !B.IsDuplicate(b, e.m) then [e.m] else []
  {
    assert (es + [e])[..|es|] == es;
  }

  /** A delivery: the handler's clock update and the rest of the handler. */
  function Deliver(es: seq<B.Event>, m: Msg): seq<B.Event> {
    es + [B.Advance(m.ltime)] + [B.Body(m)]
  }

  /** After es, the node accepted ms, its clock is at now and the given slot holds seen. */
  ghost predicate Stands(es: seq<B.Event>, ms: seq<Msg>, now: LTime, slot: nat, seen: Option<Msg>)
    requires slot < B.SLOTS
  {
    var b := B.After(B.Empty(), es);
    B.Runs(B.Empty(), es) && B.Accepted(B.Empty(), es) == ms && b.clock == now && b.seen[slot] == seen
  }

  /** A delivery of a message that is neither old nor in its slot, as that slot sees it. */
  lemma {:induction false} DeliverOwn(es: seq<B.Event>, ms: seq<Msg>, now: LTime, m: Msg, slot: nat, seen: Option<Msg>)
    requires slot == m.ltime % B.SLOTS && Stands(es, ms, now, slot, seen) && !B.Old(Updated(now, m.ltime), m.ltime)
    requires seen.None? || seen.value.uuid != m.uuid
    ensures Stands(Deliver(es, m), ms + [m], Updated(now, m.ltime), slot, Some(m))
  {
    EventsSnoc(es, B.Advance(m.ltime));
    EventsSnoc(es + [B.Advance(m.ltime)], B.Body(m));
  }

  /** And as another slot sees it. */
  lemma {:induction false} DeliverOther(es: seq<B.Event>, ms: seq<Msg>, now: LTime, m: Msg, slot: nat,
      seen: Option<Msg>, at: nat, kept: Option<Msg>)
    requires slot == m.ltime % B.SLOTS && Stands(es, ms, now, slot, seen) && !B.Old(Updated(now, m.ltime), m.ltime)
    requires seen.None? || seen.value.uuid != m.uuid
    requires at < B.SLOTS && at != slot && Stands(es, ms, now, at, kept)
    ensures Stands(Deliver(es, m), ms + [m], Updated(now, m.ltime), at, kept)
  {
    EventsSnoc(es, B.Advance(m.ltime));
    EventsSnoc(es + [B.Advance(m.ltime)], B.Body(m));
  }

  function Accepts(ms: seq<Msg>): (os: seq<Occasion>)
    ensures Messages(os) == ms
  {
    if ms == [] then []
    else
      var os := Accepts(ms[..|ms| - 1]) + [Accept(ms[|ms| - 1])];
      assert os[..|os| - 1] == Accepts(ms[..|ms| - 1]);
      os
  }

  lemma {:induction false} NetNext(ms: seq<Msg>, m: Msg, n: string, x: Item)
    ensures Net(ms + [m], n, x) == Net(ms, n, x) + Shift(m, n, x)
  {
    CountLast(ms, m, true, n, x);
    CountLast(ms, m, false, n, x);
  }

  /** The creation of an agreement, an add and a message of another kind. */
  ghost predicate Opening(ms: seq<Msg>, c: Msg, a: Msg, other: Msg) {
    && c.AddAgreement? && a.AddItem? && other.StartTask? && a.agr == c.agr
    && |ms| == 3 && ms[0] == c && ms[1] == a && ms[2] == other
  }

  lemma {:induction false} OpeningNet(ms: seq<Msg>, c: Msg, a: Msg, other: Msg)
    requires Opening(ms, c, a, other)
    ensures Net(ms, a.agr, a.item) == 1 && Simple(ms)
  {
    NetNext([], c, a.agr, a.item);
    NetNext([] + [c], a, a.agr, a.item);
    NetNext([] + [c] + [a], other, a.agr, a.item);
    assert ms == [] + [c] + [a] + [other];
  }

  /** A node that accepted the add of an opening once and a node that accepted it twice, each of which
      then accepts the remove: only the second one still lists the item. */
  lemma {:induction false} RepeatSplits(twice: seq<Msg>, once: seq<Msg>, c: Msg, a: Msg, other: Msg, r: Msg)
    requires Opening(once, c, a, other) && twice == once + [a] && r.RemoveItem? && r.agr == a.agr && r.item == a.item
    ensures var ms1, ms2 := twice + [r], once + [r];
      && (forall m :: m in ms1 <==> m in ms2)
      && Run(Accepts(ms1)).Done? && Present(Run(Accepts(ms1)).book, a.agr, a.item)
      && Run(Accepts(ms2)).Done? && !Present(Run(Accepts(ms2)).book, a.agr, a.item)
      && Split(ms1, ms2, a.agr, a.item)
  {
    OpeningNet(once, c, a, other);
    NetNext(once, a, a.agr, a.item);
    NetNext(once, r, a.agr, a.item);
    NetNext(twice, r, a.agr, a.item);
    assert a in once;
    SplitShows(twice + [r], once + [r], c, a.item);
  }

  /** A node is delivered an opening whose add and third message share a time. */
  lemma {:induction false} TieDelivered(c: Msg, a: Msg, other: Msg) returns (es: seq<B.Event>, ms: seq<Msg>)
    requires c.AddAgreement? && a.AddItem? && other.StartTask? && a.agr == c.agr
    requires c.ltime == 1 && a.ltime == 2 && other.ltime == 2 && a.uuid != other.uuid
    ensures Stands(es, ms, 3, 2, Some(other)) && Stands(es, ms, 3, 3, None) && Opening(ms, c, a, other)
  {
    es, ms := [], [];
    DeliverOther(es, ms, 0, c, 1, None, 2, None);
    DeliverOther(es, ms, 0, c, 1, None, 3, None);
    es, ms := Deliver(es, c), ms + [c];
    DeliverOwn(es, ms, 2, a, 2, None);
    DeliverOther(es, ms, 2, a, 2, None, 3, None);
    es, ms := Deliver(es, a), ms + [a];
    DeliverOwn(es, ms, 3, other, 2, Some(a));
    DeliverOther(es, ms, 3, other, 2, Some(a), 3, None);
    es, ms := Deliver(es, other), ms + [other];
  }

  /** When two messages share a time, a repeated delivery can be accepted twice and the nodes part:
      both accepted the same four messages, the first node one of them, an add, twice, and only that
      node still lists the item after the remove. */
  lemma {:induction false} TieSplitsTribe(c: Msg, a: Msg, other: Msg, r: Msg)
    returns (es1: seq<B.Event>, ms1: seq<Msg>, es2: seq<B.Event>, ms2: seq<Msg>)
    requires c.AddAgreement? && a.AddItem? && other.StartTask? && r.RemoveItem?
    requires c.ltime == 1 && a.ltime == 2 && other.ltime == 2 && r.ltime == 3
    requires a.agr == c.agr == r.agr && a.item == r.item && a.uuid != other.uuid
    ensures Life(es1, Accepts(ms1)) && Life(es2, Accepts(ms2)) && forall m :: m in ms1 <==> m in ms2
    ensures Run(Accepts(ms1)).Done? && Present(Run(Accepts(ms1)).book, a.agr, a.item)
    ensures Run(Accepts(ms2)).Done? && !Present(Run(Accepts(ms2)).book, a.agr, a.item)
    ensures Split(ms1, ms2, a.agr, a.item)
  {
    var es, ms := TieDelivered(c, a, other);
    DeliverOther(es, ms, 3, a, 2, Some(other), 3, None);
    DeliverOwn(es, ms, 3, r, 3, None);
    DeliverOwn(Deliver(es, a), ms + [a], 3, r, 3, None);
    es1, ms1 := Deliver(Deliver(es, a), r), ms + [a] + [r];
    es2, ms2 := Deliver(es, r), ms + [r];
    RepeatSplits(ms + [a], ms, c, a, other, r);
  }

  /** A merge with a fresh node finds the clock at zero; before it updates the clock, an opening is
      delivered whose third message is a whole ring after its add. */
  lemma {:induction false} RingDelivered(c: Msg, a: Msg, other: Msg) returns (es: seq<B.Event>, ms: seq<Msg>)
    requires c.AddAgreement? && a.AddItem? && other.StartTask? && a.agr == c.agr
    requires c.ltime == 1 && a.ltime == 5 && other.ltime == 517 && a.uuid != other.uuid
    ensures Stands(es, ms, 518, 5, Some(other)) && Stands(es, ms, 518, 6, None) && Opening(ms, c, a, other)
    ensures es != [] && es[0] == B.MergeCheck(0)
  {
    EventsSnoc([], B.MergeCheck(0));
    es, ms := [] + [B.MergeCheck(0)], [];
    DeliverOther(es, ms, 0, c, 1, None, 5, None);
    DeliverOther(es, ms, 0, c, 1, None, 6, None);
    es, ms := Deliver(es, c), ms + [c];
    DeliverOwn(es, ms, 2, a, 5, None);
    DeliverOther(es, ms, 2, a, 5, None, 6, None);
    es, ms := Deliver(es, a), ms + [a];
    DeliverOwn(es, ms, 6, other, 5, Some(a));
    DeliverOther(es, ms, 6, other, 5, Some(a), 6, None);
    es, ms := Deliver(es, other), ms + [other];
  }

  /** Then the merge sets the clock back to zero, and the ring is left as it was. */
  lemma {:induction false} SetBack(es: seq<B.Event>, ms: seq<Msg>, now: LTime, slot: nat, seen: Option<Msg>)
    requires slot < B.SLOTS && Stands(es, ms, now, slot, seen) && B.MergeCheck(0) in es
    ensures Stands(es + [B.MergeUpdate(0)], ms, 0, slot, seen)
  {
    EventsSnoc(es, B.MergeUpdate(0));
  }

  /** So the add is accepted again, and the remove after it. */
  lemma {:induction false} AcceptedAgain(es: seq<B.Event>, ms: seq<Msg>, a: Msg, other: Msg, r: Msg)
    requires Stands(es, ms, 518, 5, Some(other)) && Stands(es, ms, 518, 6, None) && B.MergeCheck(0) in es
    requires a.ltime == 5 && r.ltime == 6 && a.uuid != other.uuid
    ensures Life(Deliver(Deliver(es + [B.MergeUpdate(0)], a), r), Accepts(ms + [a] + [r]))
  {
    SetBack(es, ms, 518, 5, Some(other));
    SetBack(es, ms, 518, 6, None);
    var back := es + [B.MergeUpdate(0)];
    DeliverOther(back, ms, 0, a, 5, Some(other), 6, None);
    DeliverOwn(Deliver(back, a), ms + [a], 6, r, 6, None);
  }

  lemma {:induction false} DistinctOf(ms: seq<Msg>, c: Msg, a: Msg, other: Msg, r: Msg)
    requires Opening(ms, c, a, other) && c.ltime == 1 && a.ltime == 5 && other.ltime == 517 && r.ltime == 6
    requires UniqueIds([c, a, other, r])
    ensures UniqueIds(ms + [a] + [r]) && B.DistinctTimes(ms + [a] + [r])
  {
    var four := [c, a, other, r];
    assert c in four && a in four && other in four && r in four;
    SameElements(four, ms + [a] + [r]);
  }

  /** When a merge sets the clock back, a repeated delivery can be accepted twice although all times are
      distinct, and the nodes part in the same way. */
  lemma {:induction false} FallSplitsTribe(c: Msg, a: Msg, other: Msg, r: Msg)
    returns (es1: seq<B.Event>, ms1: seq<Msg>, es2: seq<B.Event>, ms2: seq<Msg>)
    requires c.AddAgreement? && a.AddItem? && other.StartTask? && r.RemoveItem?
    requires c.ltime == 1 && a.ltime == 5 && other.ltime == 517 && r.ltime == 6
    requires a.agr == c.agr == r.agr && a.item == r.item && UniqueIds([c, a, other, r])
    ensures Life(es1, Accepts(ms1)) && Life(es2, Accepts(ms2)) && forall m :: m in ms1 <==> m in ms2
    ensures UniqueIds(ms1) && B.DistinctTimes(ms1)
    ensures Run(Accepts(ms1)).Done? && Present(Run(Accepts(ms1)).book, a.agr, a.item)
    ensures Run(Accepts(ms2)).Done? && !Present(Run(Accepts(ms2)).book, a.agr, a.item)
    ensures Split(ms1, ms2, a.agr, a.item)
  {
    assert [c, a, other, r][1] == a && [c, a, other, r][2] == other;
    var es, ms := RingDelivered(c, a, other);
    DeliverOwn(es, ms, 518, r, 6, None);
    es2, ms2 := Deliver(es, r), ms + [r];
    AcceptedAgain(es, ms, a, other, r);
    es1, ms1 := Deliver(Deliver(es + [B.MergeUpdate(0)], a), r), ms + [a] + [r];
    DistinctOf(ms, c, a, other, r);
    RepeatSplits(ms + [a], ms, c, a, other, r);
  }

  lemma {:induction false} SplitShows(ms1: seq<Msg>, ms2: seq<Msg>, c: Msg, x: Item)
    requires |ms1| > 0 && |ms2| > 0 && ms1[0] == c && ms2[0] == c && c.AddAgreement?
    requires Simple(ms1) && Simple(ms2) && Net(ms1, c.agr, x) == 1 && Net(ms2, c.agr, x) == 0
    ensures Run(Accepts(ms1)).Done? && Present(Run(Accepts(ms1)).book, c.agr, x)
    ensures Run(Accepts(ms2)).Done? && !Present(Run(Accepts(ms2)).book, c.agr, x)
    ensures Split(ms1, ms2, c.agr, x)
  {
    assert Created(ms1, c.agr) && Created(ms2, c.agr);
    BalanceIsNet(ms1, c.agr, x);
    BalanceIsNet(ms2, c.agr, x);
  }

  /** Two logs that create an agreement, take no joins and differ by one add of an item. */
  ghost predicate Split(ms1: seq<Msg>, ms2: seq<Msg>, n: string, x: Item) {
    && Simple(ms1) && Simple(ms2) && Created(ms1, n) && Created(ms2, n)
    && Net(ms1, n, x) == Net(ms2, n, x) + 1
  }

  ghost predicate Simple(ms: seq<Msg>) {
    forall m | m in ms :: !m.JoinAgreement? && !m.RemoveAgreement?
  }

  lemma {:induction false} CreatedBefore(ms: seq<Msg>, ks: seq<Msg>, n: string)
    requires Created(ms, n)
    ensures Created(ms + ks, n)
  {
    var i :| 0 <= i < |ms| && ms[i].AddAgreement? && ms[i].agr == n;
    assert (ms + ks)[i] == ms[i];
  }

  lemma {:induction false} BalanceIsNet(ms: seq<Msg>, n: string, x: Item)
    requires Simple(ms) && Created(ms, n)
    ensures Run(Accepts(ms)).Done? && Balance(Run(Accepts(ms)).book, n, x) == Net(ms, n, x)
    ensures Present(Run(Accepts(ms)).book, n, x) <==> Net(ms, n, x) > 0
  {
    S.NoJoinNeverHangs(Accepts(ms));
    RunReflects(Accepts(ms));
    ListedIffNetPositive(Accepts(ms), n, x);
  }

  lemma {:induction false} NetSum(ms: seq<Msg>, ks: seq<Msg>, n: string, x: Item)
    ensures Net(ms + ks, n, x) == Net(ms, n, x) + Net(ks, n, x)
  {
    CountSum(ms, ks, true, n, x);
    CountSum(ms, ks, false, n, x);
  }

  /** The split stays under every common continuation. */
  lemma {:induction false} SplitContinues(ms1: seq<Msg>, ms2: seq<Msg>, ks: seq<Msg>, n: string, x: Item)
    requires Split(ms1, ms2, n, x) && Simple(ks)
    ensures Split(ms1 + ks, ms2 + ks, n, x)
  {
    CreatedBefore(ms1, ks, n);
    CreatedBefore(ms2, ks, n);
    NetSum(ms1, ks, n, x);
    NetSum(ms2, ks, n, x);
  }

  /** So it never heals: whatever both accept afterwards, the balances stay one apart, and the two nodes
      list the item differently exactly when the second one's adds and removes cancel out. */
  lemma {:induction false} SplitStays(ms1: seq<Msg>, ms2: seq<Msg>, ks: seq<Msg>, n: string, x: Item)
    requires Split(ms1, ms2, n, x) && Simple(ks)
    ensures Run(Accepts(ms1 + ks)).Done? && Run(Accepts(ms2 + ks)).Done?
    ensures var b1, b2 := Run(Accepts(ms1 + ks)).book, Run(Accepts(ms2 + ks)).book;
      && Balance(b1, n, x) == Balance(b2, n, x) + 1
      && ((Present(b1, n, x) <==> Present(b2, n, x)) <==> Net(ms2 + ks, n, x) != 0)
  {
    SplitContinues(ms1, ms2, ks, n, x);
    BalanceIsNet(ms1 + ks, n, x);
    BalanceIsNet(ms2 + ks, n, x);
  }

  // ---- A second join hangs the node ----

  lemma {:induction false} QuietOverLeaves(b: Book, p: Pass)
    requires Valid(b) && forall m | m in b.intents :: m.LeaveAgreement?
    ensures Quiet(b, p)
  {
    forall i | 0 <= i < |b.intents|
      ensures !Hits(b, p, b.intents[i])
    {
      assert b.intents[i] in b.intents;
    }
  }

  /** With nothing parked but leaves there is nothing to retry. */
  lemma {:induction false} NothingParked(b: Book)
    requires Valid(b) && forall m | m in b.intents :: m.LeaveAgreement?
    ensures Settle(b) == Done(b)
  {
    var q := SweepBy(b, 0);
    if q < |PASSES| {
      QuietOverLeaves(b, PASSES[q]);
    }
  }

  lemma {:induction false} RunNext(os: seq<Occasion>, o: Occasion)
    requires Run(os).Done?
    ensures Run(os + [o]) == Apply(Run(os).book, o)
  {
    assert (os + [o])[..|os|] == os;
  }

  /** A handler that takes effect on a book without intents to retry. */
  lemma {:induction false} AppliedAlone(b: Book, m: Msg, b': Book)
    requires Valid(b) && TakesEffect(b, m) && b' == Direct(b, m)
    requires forall k | k in b'.intents :: k.LeaveAgreement?
    ensures Apply(b, Accept(m)) == Done(b')
  {
    DirectValid(b, m);
    NothingParked(b');
  }

  /** One agreement with one plugin, and the given members. */
  function OnePlugin(n: string, p: Item, joined: set<string>, members: map<string, Member>): Book {
    Book(map[n := 0], [Agreement(n, [p], [], joined)], members, [])
  }

  lemma {:induction false} PluginListed(n: string, p: Item) returns (os: seq<Occasion>)
    requires p.PluginItem?
    ensures Run(os) == Done(OnePlugin(n, p, {}, map[]))
  {
    var m1, m2 := AddAgreement(1, "a", n), AddItem(2, "b", n, p);
    var b1 := Book(map[n := 0], [New(n)], map[], []);
    assert Bind(EMPTY, n) == b1;
    AppliedAlone(EMPTY, m1, b1);
    RunNext([], Accept(m1));
    assert [] + [p] == [p];
    AppliedAlone(b1, m2, OnePlugin(n, p, {}, map[]));
    RunNext([] + [Accept(m1)], Accept(m2));
    os := [] + [Accept(m1)] + [Accept(m2)];
  }

  lemma {:induction false} MemberKnown(os: seq<Occasion>, n: string, p: Item, x: string)
    requires p.PluginItem? && Run(os) == Done(OnePlugin(n, p, {}, map[]))
    ensures Run(os + [MemberUp(x)]) == Done(OnePlugin(n, p, {}, map[x := Member(None, {})]))
  {
    assert map[][x := Member(None, {})] == map[x := Member(None, {})];
    NothingParked(OnePlugin(n, p, {}, map[x := Member(None, {})]));
    RunNext(os, MemberUp(x));
  }

  lemma {:induction false} MemberJoined(os: seq<Occasion>, n: string, p: Item, x: string, m: Msg)
    requires p.PluginItem? && Run(os) == Done(OnePlugin(n, p, {}, map[x := Member(None, {})]))
    requires m.JoinAgreement? && m.agr == n && m.member == x
    ensures Run(os + [Accept(m)]) == Done(OnePlugin(n, p, {x}, map[x := Member(Some(0), {n})]))
  {
    var b, b' := OnePlugin(n, p, {}, map[x := Member(None, {})]), OnePlugin(n, p, {x}, map[x := Member(Some(0), {n})]);
    assert {} + {x} == {x} && {} + {n} == {n} && Join(b, n, x).members == b'.members
        && Join(b, n, x).objects == b'.objects;
    AppliedAlone(b, m, b');
    RunNext(os, Accept(m));
  }

  /** The only parked request is a join by a member of an agreement that lists p. */
  lemma {:induction false} JoinerIsLaden(b: Book, n: string, p: Item, m: Msg)
    requires Valid(b) && p.PluginItem? && Present(b, n, p) && m.JoinAgreement? && b.intents == [m]
    requires m.member in b.members && b.members[m.member].pluginAgreement == Some(b.agreements[n])
    ensures m.member in S.Laden(b) && NoRemovalParked(b)
  {
    assert [] + [m] == [m];
    CountLast([], m, true, n, p);
    CountLast([], m, false, n, p);
    assert S.IsRich(b, n) && S.IsBound(b, b.agreements[n]);
  }

  /** The failing family is reachable: when a member of an agreement with a plugin asks to join
      again it is refused, and the next report from memberlist hangs the node. */
  lemma {:induction false} SecondJoinHangs(n: string, p: Item, x: string) returns (os: seq<Occasion>)
    requires p.PluginItem?
    ensures Run(os).Spinning?
  {
    var m1, m2 := JoinAgreement(3, "c", n, x), JoinAgreement(4, "d", n, x);
    os := PluginListed(n, p);
    MemberKnown(os, n, p, x);
    os := os + [MemberUp(x)];
    MemberJoined(os, n, p, x, m1);
    os := os + [Accept(m1)];
    var b := OnePlugin(n, p, {x}, map[x := Member(Some(0), {n})]);
    assert Apply(b, Accept(m2)) == Done(Park(b, m2));
    JoinerIsLaden(Park(b, m2), n, p, m2);
    S.LadenJoinHangs(Park(b, m2), 0);
    RunNext(os, Accept(m2));
    os := os + [Accept(m2)];
    RunNext(os, MemberUp(x));
    os := os + [MemberUp(x)];
  }

  // ---- A member of a removed agreement goes ----

  /** Removing an agreement leaves its members pointing at it; when one of them goes, the node panics. */
  lemma {:induction false} LeaverPanics(n: string, p: Item, x: string) returns (os: seq<Occasion>)
    requires p.PluginItem?
    ensures Run(os).Panicked?
  {
    var join, remove := JoinAgreement(3, "c", n, x), RemoveAgreement(4, "d", n);
    os := PluginListed(n, p);
    MemberKnown(os, n, p, x);
    os := os + [MemberUp(x)];
    MemberJoined(os, n, p, x, join);
    os := os + [Accept(join)];
    var b := OnePlugin(n, p, {x}, map[x := Member(Some(0), {n})]);
    AppliedAlone(b, remove, Unbind(b, n));
    RunNext(os, Accept(remove));
    os := os + [Accept(remove)];
    assert n in NamesOf(Unbind(b, n), x);
    RunNext(os, MemberDown(x));
    os := os + [MemberDown(x)];
  }

  // ---- A parked leave is never carried out ----

  /** A leave is parked before its agreement is known, and then the agreement is created. */
  lemma {:induction false} LeaveParked(n: string, m: Msg) returns (os: seq<Occasion>)
    requires m.LeaveAgreement? && m.agr == n
    ensures Run(os) == Done(Book(map[n := 0], [New(n)], map[], [m]))
  {
    var b1 := Book(map[], [], map[], [m]);
    assert Park(EMPTY, m) == b1;
    RunNext([], Accept(m));
    os := [] + [Accept(m)];
    var m2, b2 := AddAgreement(1, "a", n), Book(map[n := 0], [New(n)], map[], [m]);
    assert Bind(b1, n) == b2;
    AppliedAlone(b1, m2, b2);
    RunNext(os, Accept(m2));
    os := os + [Accept(m2)];
  }

  /** When the member then joins the agreement, the leave is possible, and still parked. */
  lemma {:induction false} ParkedLeaveIgnored(n: string, x: string, m: Msg) returns (os: seq<Occasion>)
    requires m.LeaveAgreement? && m.agr == n && m.member == x
    ensures Run(os).Done? && m in Run(os).book.intents && CanLeave(Run(os).book, n, x)
  {
    os := LeaveParked(n, m);
    var b := Book(map[n := 0], [New(n)], map[x := Member(None, {})], [m]);
    assert map[][x := Member(None, {})] == b.members;
    NothingParked(b);
    RunNext(os, MemberUp(x));
    os := os + [MemberUp(x)];
    var join := JoinAgreement(2, "b", n, x);
    AppliedAlone(b, join, Join(b, n, x));
    RunNext(os, Accept(join));
    os := os + [Accept(join)];
  }
}
