/** Who belongs to which agreement (mgmt/tribe/tribe.go): what joining, leaving, creating, removing and
going away change, what every history keeps, and how a member can get stuck in an agreement. */
module Membership {
  import opened Wrappers
  import opened TribeTypes
  import opened Intents
  import opened Convergence
  import S = Spinning
  import T = TribeTheorems

  /** The agreement counts x among its members. */
  predicate Belongs(b: Book, n: string, x: string)
    requires Valid(b)
  {
    n in b.agreements && x in Obj(b, n).members
  }

  /** The member x counts n among its agreements. */
  predicate Knows(b: Book, n: string, x: string) {
    x in b.members && n in b.members[x].taskAgreements
  }

  // ---- What the effects change ----

  /** A join makes the one member belong to the one agreement, points it there, and changes no other
      membership. */
  lemma {:induction false} JoinJoins(b: Book, n: string, x: string)
    requires Valid(b) && CanJoin(b, n, x) && Valid(Join(b, n, x))
    ensures var b' := Join(b, n, x);
      && b'.agreements == b.agreements && b'.intents == b.intents && b'.members.Keys == b.members.Keys
      && b'.members[x].pluginAgreement == Some(b.agreements[n])
      && (forall y | y in b.members && y != x :: b'.members[y] == b.members[y])
      && (forall k, y :: Belongs(b', k, y) <==> Belongs(b, k, y) || (k == n && y == x))
      && (forall k, y :: Knows(b', k, y) <==> Knows(b, k, y) || (k == n && y == x))
      && (forall k | k in b.agreements :: CanLeave(b', k, x))
  {
  }

  /** A leave takes the one member out of the one agreement and its plugin agreement from it, whichever
      that is, and changes no other membership. Then the member can join again, and can leave nothing. */
  lemma {:induction false} LeaveLeaves(b: Book, n: string, x: string)
    requires Valid(b) && CanLeave(b, n, x) && Valid(Leave(b, n, x))
    ensures var b' := Leave(b, n, x);
      && b'.agreements == b.agreements && b'.intents == b.intents && b'.members.Keys == b.members.Keys
      && b'.members[x].pluginAgreement == None
      && (forall y | y in b.members && y != x :: b'.members[y] == b.members[y])
      && (forall k, y :: Belongs(b', k, y) <==> Belongs(b, k, y) && !(k == n && y == x))
      && (forall k, y :: Knows(b', k, y) <==> Knows(b, k, y) && !(k == n && y == x))
      && (forall k :: !CanLeave(b', k, x))
      && (forall k | k in b.agreements :: CanJoin(b', k, x))
  {
  }

  /** Creating an agreement adds an empty one and leaves the others alone. */
  lemma {:induction false} BindAdds(b: Book, n: string)
    requires Valid(b) && n !in b.agreements && Valid(Bind(b, n))
    ensures var b' := Bind(b, n);
      && b'.members == b.members && b'.intents == b.intents
      && b'.agreements.Keys == b.agreements.Keys + {n} && Obj(b', n) == New(n)
      && (forall k | k in b.agreements :: Obj(b', k) == Obj(b, k))
  {
  }

  /** Removing an agreement drops that one and no other. */
  lemma {:induction false} UnbindDrops(b: Book, n: string)
    requires Valid(b)
    ensures var b' := Unbind(b, n);
      && Valid(b') && b'.objects == b.objects && b'.members == b.members && b'.intents == b.intents
      && b'.agreements.Keys == b.agreements.Keys - {n}
      && (forall k | k in b.agreements && k != n :: Obj(b', k) == Obj(b, k))
      && (forall k, x :: Present(b', k, x) <==> Present(b, k, x) && k != n)
  {
  }

  /** A member that goes is unknown afterwards and no longer belongs to the agreements it knew of; all
      other members and memberships stay. */
  lemma {:induction false} GoneIsGone(b: Book, x: string)
    requires Valid(b) && x in b.members && Valid(StruckOff(b, x))
    ensures var b' := StruckOff(b, x);
      && b'.agreements == b.agreements && b'.intents == b.intents
      && b'.members.Keys == b.members.Keys - {x} && (forall y | y in b'.members :: b'.members[y] == b.members[y])
      && (forall k, y :: Belongs(b', k, y) <==> Belongs(b, k, y) && !(y == x && k in NamesOf(b, x)))
  {
  }

  // ---- What every history keeps ----

  /** Agreements and members tell the same story: a member belongs to the agreements it knows of and to no
      others, strangers belong to none, every record is bound to its name, and a member's plugin
      agreement is one it knows of. */
  ghost predicate Linked(b: Book) {
    && Sound(b)
    && (forall n, x | n in b.agreements :: Belongs(b, n, x) <==> Knows(b, n, x))
    && (forall i | 0 <= i < |b.objects| :: b.agreements[b.objects[i].name] == i)
    && (forall x | x in b.members && b.members[x].pluginAgreement.Some? ::
          b.objects[b.members[x].pluginAgreement.value].name in b.members[x].taskAgreements)
  }

  /** A change of lists or intents keeps them linked. */
  lemma {:induction false} ListsLinked(b: Book, b': Book)
    requires Linked(b) && Sound(b') && b'.agreements == b.agreements && b'.members == b.members
    requires |b'.objects| == |b.objects|
    requires forall i | 0 <= i < |b.objects| ::
               b'.objects[i].name == b.objects[i].name && b'.objects[i].members == b.objects[i].members
    ensures Linked(b')
  {
    forall n, x | n in b'.agreements
      ensures Belongs(b', n, x) <==> Knows(b', n, x)
    {
      assert Belongs(b', n, x) == Belongs(b, n, x) && Knows(b', n, x) == Knows(b, n, x);
    }
  }

  lemma {:induction false} JoinLinked(b: Book, n: string, x: string)
    requires Linked(b) && CanJoin(b, n, x) && Sound(Join(b, n, x))
    ensures Linked(Join(b, n, x))
  {
    JoinJoins(b, n, x);
  }

  lemma {:induction false} LeaveLinked(b: Book, n: string, x: string)
    requires Linked(b) && CanLeave(b, n, x) && Sound(Leave(b, n, x))
    ensures Linked(Leave(b, n, x))
  {
    LeaveLeaves(b, n, x);
  }

  lemma {:induction false} BindLinked(b: Book, n: string)
    requires Linked(b) && n !in b.agreements && Sound(Bind(b, n))
    ensures Linked(Bind(b, n))
  {
    var b' := Bind(b, n);
    BindAdds(b, n);
    forall k, x | k in b'.agreements
      ensures Belongs(b', k, x) <==> Knows(b', k, x)
    {
      assert k in b.agreements ==> Belongs(b', k, x) == Belongs(b, k, x);
    }
  }

  lemma {:induction false} GoneLinked(b: Book, x: string)
    requires Linked(b) && x in b.members && Sound(StruckOff(b, x))
    ensures Linked(StruckOff(b, x)) && forall n :: !Belongs(StruckOff(b, x), n, x)
  {
    var b' := StruckOff(b, x);
    GoneIsGone(b, x);
    forall n, y | n in b'.agreements
      ensures Belongs(b', n, y) <==> Knows(b', n, y)
    {
      assert Belongs(b, n, y) <==> Knows(b, n, y);
    }
  }

  lemma {:induction false} DirectLinked(b: Book, m: Msg)
    requires Linked(b) && TakesEffect(b, m) && !m.RemoveAgreement?
    ensures Linked(Direct(b, m))
  {
    DirectSound(b, m);
    match m
    case AddItem(_, _, _, _) => ListsLinked(b, Direct(b, m));
    case RemoveItem(_, _, _, _) => ListsLinked(b, Direct(b, m));
    case AddAgreement(_, _, n) => BindLinked(b, n);
    case JoinAgreement(_, _, n, x) => JoinLinked(b, n, x);
    case LeaveAgreement(_, _, n, x) => LeaveLinked(b, n, x);
  }

  lemma {:induction false} FiringLinked(b: Book, p: Pass, i: nat)
    requires Linked(b) && i < |b.intents| && Hits(b, p, b.intents[i]) && FireAt(b, p, i).Fired?
    ensures Linked(FireAt(b, p, i).book)
  {
    var m, c := b.intents[i], FireAt(b, p, i).book;
    FiringSound(b, p, i);
    EffectSound(b, p, m);
    if p.Joins? {
      JoinLinked(b, m.agr, m.member);
      ListsLinked(Join(b, m.agr, m.member), c);
    } else if p.Leaves? {
      LeaveLinked(b, m.agr, m.member);
      ListsLinked(Leave(b, m.agr, m.member), c);
    } else {
      ListsLinked(b, c);
    }
  }

  lemma {:induction false} EffectSound(b: Book, p: Pass, m: Msg)
    requires Sound(b) && Hits(b, p, m) && !Refuses(b, p, m) && !p.RemoveAgreements? && !p.AddAgreements?
    ensures Sound(Effect(b, p, m))
  {
    EffectValid(b, p, m);
    EffectFrame(b, p, m);
    FramedSound(b, Effect(b, p, m), m.agr, false);
  }

  lemma {:induction false} SettleLinked(b: Book)
    requires Linked(b)
    ensures Linked(Settle(b).book)
    decreases |b.intents|
  {
    var q := SweepBy(b, 0);
    if q < |PASSES| && SweepFrom(b, 0).Fired? {
      FiringLinked(b, PASSES[q], FirstHit(b, PASSES[q], 0));
      SettleLinked(SweepFrom(b, 0).book);
    }
  }

  lemma {:induction false} ParkLinked(b: Book, m: Msg)
    requires Linked(b) && !m.RemoveAgreement? && !TakesEffect(b, m)
    ensures Linked(Park(b, m))
  {
    ListsLinked(b, Park(b, m));
  }

  lemma {:induction false} ComerLinked(b: Book, x: string)
    requires Linked(b) && x !in b.members
    ensures Linked(b.(members := b.members[x := Member(None, {})]))
  {
    var b' := b.(members := b.members[x := Member(None, {})]);
    forall n, y | n in b'.agreements
      ensures Belongs(b', n, y) <==> Knows(b', n, y)
    {
      assert Belongs(b, n, y) <==> Knows(b, n, y);
    }
  }

  lemma {:induction false} ApplyLinked(b: Book, o: Occasion)
    requires Linked(b) && (o.Accept? ==> !o.m.RemoveAgreement?)
    ensures !Apply(b, o).Panicked? && Linked(Apply(b, o).book)
  {
    match o
    case Accept(m) =>
      if TakesEffect(b, m) {
        DirectLinked(b, m);
        SettleLinked(Direct(b, m));
      } else if Parks(m) {
        ParkLinked(b, m);
      }
    case MemberUp(x) =>
      if x in b.members {
        SettleLinked(b);
      } else {
        ComerLinked(b, x);
        SettleLinked(b.(members := b.members[x := Member(None, {})]));
      }
    case MemberDown(x) =>
      if x in b.members {
        StruckOffSound(b, x);
        GoneLinked(b, x);
      }
  }

  /** Over every history without agreement removal, hanging ones included, agreements and members stay
      linked. */
  lemma {:induction false} RunLinked(os: seq<Occasion>)
    requires NoAgreementRemoved(Messages(os))
    ensures !Run(os).Panicked? && Linked(Run(os).book)
    decreases |os|
  {
    if os != [] {
      var init, o := os[..|os| - 1], os[|os| - 1];
      assert forall m | m in Messages(init) :: m in Messages(os);
      RunLinked(init);
      if o.Accept? {
        assert o.m in Messages(os);
      }
      if Run(init).Done? {
        ApplyLinked(Run(init).book, o);
      }
    }
  }

  /** In such a history a member that goes belongs to nothing afterwards. */
  lemma {:induction false} LeaverForgotten(os: seq<Occasion>, x: string, n: string)
    requires NoAgreementRemoved(Messages(os)) && Run(os).Done?
    ensures Run(os + [MemberDown(x)]).Done?
    ensures x !in Run(os + [MemberDown(x)]).book.members && !Belongs(Run(os + [MemberDown(x)]).book, n, x)
  {
    var b := Run(os).book;
    RunLinked(os);
    T.RunNext(os, MemberDown(x));
    if x in b.members {
      StruckOffSound(b, x);
      GoneLinked(b, x);
      GoneIsGone(b, x);
    }
  }

  // ---- The retry loop and memberships ----

  /** A join of x to n is parked. */
  predicate JoinParked(ms: seq<Msg>, n: string, x: string) {
    exists m :: m in ms && m.JoinAgreement? && m.agr == n && m.member == x
  }

  lemma {:induction false} ParkedWithout(ms: seq<Msg>, i: nat, n: string, x: string)
    requires i < |ms|
    ensures JoinParked(ms, n, x) <==>
              JoinParked(RemoveAt(ms, i), n, x) || (ms[i].JoinAgreement? && ms[i].agr == n && ms[i].member == x)
  {
    S.ElementsWithout(ms, i);
  }

  lemma {:induction false} EffectMembers(b: Book, p: Pass, m: Msg, n: string, x: string)
    requires Valid(b) && Hits(b, p, m) && !Refuses(b, p, m) && !p.Leaves? && !p.RemoveAgreements?
    ensures var c := Effect(b, p, m);
      && Valid(c) && c.members.Keys == b.members.Keys && b.agreements.Keys <= c.agreements.Keys
      && (Belongs(c, n, x) <==> Belongs(b, n, x) || (p.Joins? && m.agr == n && m.member == x))
  {
    EffectValid(b, p, m);
    if p.Joins? {
      JoinJoins(b, m.agr, m.member);
    } else if p.AddAgreements? {
      BindAdds(b, m.agr);
    }
  }

  /** One intent is taken out: a join brings its member in, any other changes no membership. */
  lemma {:induction false} FiringMembers(b: Book, p: Pass, i: nat, n: string, x: string)
    requires NoRemovalParked(b) && i < |b.intents| && Hits(b, p, b.intents[i]) && FireAt(b, p, i).Fired? && !p.Leaves?
    ensures var c, m := FireAt(b, p, i).book, b.intents[i];
      var joined := p.Joins? && m.agr == n && m.member == x;
      && NoRemovalParked(c) && c.members.Keys == b.members.Keys && b.agreements.Keys <= c.agreements.Keys
      && (joined ==> x in b.members && n in b.agreements)
      && (Belongs(c, n, x) <==> Belongs(b, n, x) || joined)
      && (JoinParked(b.intents, n, x) <==> JoinParked(c.intents, n, x) || joined)
  {
    var m := b.intents[i];
    EffectMembers(b, p, m, n, x);
    ParkedWithout(b.intents, i, n, x);
    S.FiringFrame(b, p, i);
  }

  lemma {:induction false} NoneJoinable(b: Book, n: string, x: string)
    requires Valid(b) && Quiet(b, Joins)
    ensures !(JoinParked(b.intents, n, x) && x in b.members && n in b.agreements)
  {
  }

  /** The pass that takes an intent out is not the leave pass. */
  lemma {:induction false} FiredBy(b: Book) returns (p: Pass, i: nat)
    requires Valid(b) && SweepFrom(b, 0).Fired?
    ensures !p.Leaves? && i < |b.intents| && Hits(b, p, b.intents[i]) && SweepFrom(b, 0) == FireAt(b, p, i)
  {
    var q := SweepBy(b, 0);
    assert PASSES[4] == Joins && PASSES[5] == Leaves;
    p, i := PASSES[q], FirstHit(b, PASSES[q], 0);
    if q == 5 {
      S.LeavePassNeverFires(b);
    }
  }

  lemma {:induction false} SettledJoins(b: Book)
    requires Valid(b) && SweepFrom(b, 0).Settled?
    ensures Quiet(b, Joins)
  {
    var q := SweepBy(b, 0);
    assert PASSES[4] == Joins;
  }

  /** Exactly who belongs where once the loop has returned: who belonged before, and every known member
      with a parked join to an agreement that is known by then. Even if the loop never returns, nobody
      is lost, and nobody comes in without a parked join. */
  lemma {:induction false} SettleMembers(b: Book, n: string, x: string)
    requires NoRemovalParked(b)
    ensures var b' := Settle(b).book;
      && NoRemovalParked(b') && b'.members.Keys == b.members.Keys && b.agreements.Keys <= b'.agreements.Keys
      && (Belongs(b, n, x) ==> Belongs(b', n, x))
      && (Belongs(b', n, x) ==> Belongs(b, n, x) || JoinParked(b.intents, n, x))
      && (Settle(b).Done? ==>
            (Belongs(b', n, x) <==>
               Belongs(b, n, x) || (JoinParked(b.intents, n, x) && x in b.members && n in b'.agreements)))
    decreases |b.intents|
  {
    var r := SweepFrom(b, 0);
    if r.Settled? {
      SettledJoins(b);
      NoneJoinable(b, n, x);
    } else if r.Fired? {
      var p, i := FiredBy(b);
      FiringMembers(b, p, i, n, x);
      SettleMembers(r.book, n, x);
    }
  }

  // ---- Accepted joins and leaves ----

  /** After any history, a join that is possible when it is accepted makes its member belong, whatever is
      retried afterwards. */
  lemma {:induction false} JoinTakesEffect(os: seq<Occasion>, m: Msg)
    requires Run(os).Done? && m.JoinAgreement? && CanJoin(Run(os).book, m.agr, m.member)
    ensures !Run(os + [Accept(m)]).Panicked? && Belongs(Run(os + [Accept(m)]).book, m.agr, m.member)
  {
    var b := Run(os).book;
    T.RunNext(os, Accept(m));
    S.RunParks(os);
    DirectValid(b, m);
    JoinJoins(b, m.agr, m.member);
    SettleMembers(Direct(b, m), m.agr, m.member);
  }

  /** After any history, a leave that is possible when it is accepted takes its member out, exactly if no
      join of that member to that agreement is parked; for then the retry loop brings the member back, if
      it ever returns. */
  lemma {:induction false} LeaveTakesEffectIff(os: seq<Occasion>, m: Msg)
    requires Run(os).Done? && m.LeaveAgreement? && CanLeave(Run(os).book, m.agr, m.member)
    ensures var r, parked := Run(os + [Accept(m)]), JoinParked(Run(os).book.intents, m.agr, m.member);
      && !r.Panicked?
      && (!parked ==> !Belongs(r.book, m.agr, m.member))
      && (r.Done? ==> (Belongs(r.book, m.agr, m.member) <==> parked))
  {
    var b := Run(os).book;
    T.RunNext(os, Accept(m));
    S.RunParks(os);
    DirectValid(b, m);
    LeaveLeaves(b, m.agr, m.member);
    SettleMembers(Direct(b, m), m.agr, m.member);
  }

  // ---- A leave that is undone ----

  /** A member of an agreement with a plugin asks to join it again and is parked. */
  lemma {:induction false} SecondJoinParked(n: string, p: Item, x: string, again: Msg) returns (os: seq<Occasion>)
    requires p.PluginItem? && again.JoinAgreement? && again.agr == n && again.member == x
    ensures Run(os) == Done(Park(T.OnePlugin(n, p, {x}, map[x := Member(Some(0), {n})]), again))
  {
    var join := JoinAgreement(3, "c", n, x);
    os := T.PluginListed(n, p);
    T.MemberKnown(os, n, p, x);
    os := os + [MemberUp(x)];
    T.MemberJoined(os, n, p, x, join);
    os := os + [Accept(join)];
    T.RunNext(os, Accept(again));
    os := os + [Accept(again)];
  }

  lemma {:induction false} OneJoin(ms: seq<Msg>, known: set<string>, bound: set<string>, rich: iset<string>,
      laden: iset<string>)
    requires |ms| == 1 && ms[0].JoinAgreement? && (ms[0].member in known ==> ms[0].member !in laden)
    ensures !S.SomeJoinRefused(ms, known, bound, rich, laden)
  {
    var more := if ms[0].agr in rich then laden + iset{ms[0].member} else laden;
    assert !S.SomeJoinRefused(ms[1..], known, bound, rich, more);
    assert !S.SomeJoinRefused(ms[1..], known, bound, rich, laden);
  }

  /** A single parked join of a member that has no plugin agreement does not hold up the loop. */
  lemma {:induction false} RejoinReturns(b: Book, m: Msg)
    requires Valid(b) && b.intents == [m] && m.JoinAgreement?
    requires m.member in b.members ==> b.members[m.member].pluginAgreement == None
    ensures Settle(b).Done?
  {
    OneJoin(b.intents, b.members.Keys, S.Names(b), S.Rich(b), S.Laden(b));
    S.SpinsIff(b);
  }

  /** When that member then leaves, the retry loop makes it a member again. */
  lemma {:induction false} LeaveUndone(n: string, p: Item, x: string, leave: Msg) returns (os: seq<Occasion>)
    requires p.PluginItem? && leave.LeaveAgreement? && leave.agr == n && leave.member == x
    ensures Run(os).Done? && CanLeave(Run(os).book, n, x)
    ensures Run(os + [Accept(leave)]).Done? && Belongs(Run(os + [Accept(leave)]).book, n, x)
  {
    var again := JoinAgreement(4, "d", n, x);
    os := SecondJoinParked(n, p, x, again);
    var b := Run(os).book;
    LeavePresent(b, n, x);
    LeaveLeaves(b, n, x);
    RejoinReturns(Leave(b, n, x), again);
    T.RunNext(os, Accept(leave));
    assert again in b.intents;
    LeaveTakesEffectIff(os, leave);
  }

  // ---- Stuck in an agreement ----

  /** A member of two agreements that leaves one of them can not leave the other. */
  lemma {:induction false} LeftBehind(b: Book, n: string, k: string, x: string)
    requires Valid(b) && CanLeave(b, n, x) && Valid(Leave(b, n, x)) && k != n && Belongs(b, k, x)
    ensures Belongs(Leave(b, n, x), k, x) && !CanLeave(Leave(b, n, x), k, x)
  {
    LeaveLeaves(b, n, x);
  }

  /** Two empty agreements and one member of neither. */
  function TwoAgreements(k: string, n: string, x: string): Book {
    Book(map[k := 0, n := 1], [New(k), New(n)], map[x := Member(None, {})], [])
  }

  lemma {:induction false} TwoAgreementsReached(k: string, n: string, x: string) returns (os: seq<Occasion>)
    requires k != n
    ensures Run(os) == Done(TwoAgreements(k, n, x))
  {
    var m1, m2 := AddAgreement(1, "a", k), AddAgreement(2, "b", n);
    var b1, b2 := Bind(EMPTY, k), Bind(Bind(EMPTY, k), n);
    T.AppliedAlone(EMPTY, m1, b1);
    T.RunNext([], Accept(m1));
    T.AppliedAlone(b1, m2, b2);
    os := [] + [Accept(m1)];
    T.RunNext(os, Accept(m2));
    os := os + [Accept(m2)];
    assert b2.(members := b2.members[x := Member(None, {})]) == TwoAgreements(k, n, x);
    T.NothingParked(TwoAgreements(k, n, x));
    T.RunNext(os, MemberUp(x));
    os := os + [MemberUp(x)];
  }

  /** A member joins two agreements and leaves the second. Its request to leave the first is parked, and it
      still belongs there. */
  lemma {:induction false} StrandedReached(k: string, n: string, x: string, leave: Msg) returns (os: seq<Occasion>)
    requires k != n && leave.LeaveAgreement? && leave.agr == k && leave.member == x
    ensures Run(os).Done? && Belongs(Run(os).book, k, x) && leave in Run(os).book.intents
  {
    os := TwoAgreementsReached(k, n, x);
    var b := TwoAgreements(k, n, x);
    var m1, m2, m3 := JoinAgreement(3, "c", k, x), JoinAgreement(4, "d", n, x), LeaveAgreement(5, "e", n, x);
    T.AppliedAlone(b, m1, Join(b, k, x));
    T.RunNext(os, Accept(m1));
    os := os + [Accept(m1)];
    JoinJoins(b, k, x);
    b := Join(b, k, x);
    T.AppliedAlone(b, m2, Join(b, n, x));
    T.RunNext(os, Accept(m2));
    os := os + [Accept(m2)];
    JoinJoins(b, n, x);
    b := Join(b, n, x);
    T.AppliedAlone(b, m3, Leave(b, n, x));
    T.RunNext(os, Accept(m3));
    os := os + [Accept(m3)];
    LeftBehind(b, n, k, x);
    T.RunNext(os, Accept(leave));
    os := os + [Accept(leave)];
  }
}
