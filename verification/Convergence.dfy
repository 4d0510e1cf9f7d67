/** The handlers' effect on a node's agreements, histories of accepted messages, and the
theorem the tribe exists for: nodes that accept the same messages, in any order, list the same
plugins and tasks (mgmt/tribe/tribe.go). */
module Convergence {
  import opened Wrappers
  import opened TribeTypes
  import opened Intents

  /** What can happen to a node's book: an accepted message is applied, or memberlist reports a
      member coming or going. */
  datatype Occasion = Accept(m: Msg) | MemberUp(name: string) | MemberDown(name: string)

  function Park(b: Book, m: Msg): Book {
    b.(intents := b.intents + [m])
  }

  /** Can m take effect at once? */
  predicate TakesEffect(b: Book, m: Msg)
    requires Valid(b)
  {
    match m
    case AddItem(_, _, n, x) => n in b.agreements && !Present(b, n, x)
    case RemoveItem(_, _, n, x) => Present(b, n, x)
    case AddAgreement(_, _, n) => n !in b.agreements
    case RemoveAgreement(_, _, n) => n in b.agreements
    case JoinAgreement(_, _, n, member) => CanJoin(b, n, member)
    case LeaveAgreement(_, _, n, member) => CanLeave(b, n, member)
    case _ => false
  }

  /** The change m itself makes. */
  function Direct(b: Book, m: Msg): Book
    requires Valid(b) && TakesEffect(b, m)
  {
    match m
    case AddItem(_, _, n, x) => Append(b, n, x)
    case RemoveItem(_, _, n, x) => RotateOut(b, n, x)
    case AddAgreement(_, _, n) => Bind(b, n)
    case RemoveAgreement(_, _, n) => Unbind(b, n)
    case JoinAgreement(_, _, n, member) => Join(b, n, member)
    case LeaveAgreement(_, _, n, member) => Leave(b, n, member)
  }

  lemma {:induction false} DirectValid(b: Book, m: Msg)
    requires Valid(b) && TakesEffect(b, m)
    ensures Valid(Direct(b, m))
  {
    match m
    case AddItem(_, _, n, x) => AppendPresent(b, n, x);
    case RemoveItem(_, _, n, x) => RotateOutPresent(b, n, x);
    case AddAgreement(_, _, n) => BindPresent(b, n);
    case RemoveAgreement(_, _, n) =>
    case JoinAgreement(_, _, n, member) => JoinPresent(b, n, member);
    case LeaveAgreement(_, _, n, member) => LeavePresent(b, n, member);
  }

  /** Messages that are parked when they cannot take effect; the others are dropped. */
  predicate Parks(m: Msg) {
    m.AddItem? || m.RemoveItem? || m.AddAgreement? || m.JoinAgreement? || m.LeaveAgreement?
  }

  /** The part of each handler that follows the duplicate check. */
  function ApplyMsg(b: Book, m: Msg): (r: Outcome)
    requires Valid(b)
    ensures !r.Panicked? && Valid(r.book)
  {
    if TakesEffect(b, m) then DirectValid(b, m); Settle(Direct(b, m))
    else if Parks(m) then Done(Park(b, m))
    else Done(b)
  }

  /** The names under which a member is to be struck off when it goes. */
  function NamesOf(b: Book, name: string): set<string>
    requires Valid(b) && name in b.members
  {
    var m := b.members[name];
    m.taskAgreements + if m.pluginAgreement.Some? then {b.objects[m.pluginAgreement.value].name} else {}
  }

  /** The records after the member is struck off under the given names. */
  function Struck(b: Book, names: set<string>, name: string): (objects: seq<Agreement>)
    ensures |objects| == |b.objects|
  {
    seq(|b.objects|, i requires 0 <= i < |b.objects| =>
      var a := b.objects[i];
      if a.name in names && a.name in b.agreements && b.agreements[a.name] == i
      then a.(members := a.members - {name}) else a)
  }

  function StruckOff(b: Book, name: string): Book
    requires Valid(b) && name in b.members
  {
    b.(objects := Struck(b, NamesOf(b, name), name), members := b.members - {name})
  }

  function Apply(b: Book, o: Occasion): (r: Outcome)
    requires Valid(b)
    ensures !r.Panicked? ==> Valid(r.book)
  {
    match o
    case Accept(m) => ApplyMsg(b, m)
    case MemberUp(name) =>
      Settle(if name in b.members then b else b.(members := b.members[name := Member(None, {})]))
    case MemberDown(name) =>
      if name !in b.members then Done(b)
      else if NamesOf(b, name) <= b.agreements.Keys then Done(StruckOff(b, name))
      else Panicked
  }

  /** A history from a given book; a node that spins or panics stays there. */
  function RunFrom(b: Book, os: seq<Occasion>): (r: Outcome)
    requires Valid(b)
    ensures !r.Panicked? ==> Valid(r.book)
    decreases |os|
  {
    if os == [] then Done(b)
    else
      var r := RunFrom(b, os[..|os| - 1]);
      if r.Done? then Apply(r.book, os[|os| - 1]) else r
  }

  /** A history from an empty node. */
  function Run(os: seq<Occasion>): (r: Outcome)
    ensures !r.Panicked? ==> Valid(r.book)
  {
    RunFrom(EMPTY, os)
  }

  /** The messages of a history. */
  function Messages(os: seq<Occasion>): seq<Msg> {
    if os == [] then []
    else if os[|os| - 1].Accept? then Messages(os[..|os| - 1]) + [os[|os| - 1].m]
    else Messages(os[..|os| - 1])
  }

  ghost predicate NoAgreementRemoved(ms: seq<Msg>) {
    forall m | m in ms :: !m.RemoveAgreement?
  }

  /** Adds minus removes. */
  function Net(ms: seq<Msg>, n: string, x: Item): int {
    Count(ms, true, n, x) - Count(ms, false, n, x)
  }

  ghost predicate Created(ms: seq<Msg>, n: string) {
    exists i :: 0 <= i < |ms| && ms[i].AddAgreement? && ms[i].agr == n
  }

  /** A book is at rest and holds exactly what its messages add up to. */
  ghost predicate Reflects(b: Book, ms: seq<Msg>) {
    && Sound(b)
    && (forall n :: n in b.agreements <==> Created(ms, n))
    && (forall n, x :: AtRest(b, n, x) && Balance(b, n, x) == Net(ms, n, x))
  }

  lemma {:induction false} CountLast(ms: seq<Msg>, m: Msg, add: bool, n: string, x: Item)
    ensures Count(ms + [m], add, n, x) == Count(ms, add, n, x) + if Asks(m, add, n, x) then 1 else 0
  {
    assert (ms + [m])[..|ms|] == ms;
  }

  lemma {:induction false} CreatedLast(ms: seq<Msg>, m: Msg, n: string)
    ensures Created(ms + [m], n) <==> Created(ms, n) || (m.AddAgreement? && m.agr == n)
  {
    var ms' := ms + [m];
    assert ms'[|ms|] == m;
    if Created(ms, n) {
      var i :| 0 <= i < |ms| && ms[i].AddAgreement? && ms[i].agr == n;
      assert ms'[i] == ms[i];
    }
  }

  /** How much m shifts the balance of x in agreement n. */
  function Shift(m: Msg, n: string, x: Item): int {
    (if Asks(m, true, n, x) then 1 else 0) - if Asks(m, false, n, x) then 1 else 0
  }

  /** Parking a request that cannot take effect now shifts the balance by that request. */
  lemma {:induction false} ParkBalance(b: Book, m: Msg, n: string, x: Item)
    requires Valid(b)
    ensures Balance(Park(b, m), n, x) == Balance(b, n, x) + Shift(m, n, x)
    ensures AtRest(b, n, x) && !(n in b.agreements && Asks(m, !Present(b, n, x), n, x)) ==> AtRest(Park(b, m), n, x)
  {
    CountLast(b.intents, m, true, n, x);
    CountLast(b.intents, m, false, n, x);
  }

  lemma {:induction false} DirectFrame(b: Book, m: Msg)
    requires Valid(b) && TakesEffect(b, m) && !m.RemoveAgreement?
    ensures Framed(b, Direct(b, m), m.agr, m.AddAgreement?)
  {
    match m
    case AddItem(_, _, n, x) => ListFrame(b, n, x, Items(Obj(b, n), x) + [x]);
    case RemoveItem(_, _, n, x) => RotateOutFrame(b, n, x);
    case AddAgreement(_, _, _) =>
    case JoinAgreement(_, _, n, member) => JoinFrame(b, n, member);
    case LeaveAgreement(_, _, n, member) => LeaveFrame(b, n, member);
  }

  lemma {:induction false} RotateOutFrame(b: Book, n: string, x: Item)
    requires Valid(b) && Present(b, n, x)
    ensures Framed(b, RotateOut(b, n, x), n, false)
  {
    var s := Items(Obj(b, n), x);
    ListFrame(b, n, x, s[IndexOf(s, x) + 1..] + s[..IndexOf(s, x)]);
  }

  lemma {:induction false} DirectSound(b: Book, m: Msg)
    requires Sound(b) && TakesEffect(b, m) && !m.RemoveAgreement?
    ensures Sound(Direct(b, m))
    ensures Direct(b, m).agreements.Keys == b.agreements.Keys + if m.AddAgreement? then {m.agr} else {}
  {
    DirectValid(b, m);
    DirectFrame(b, m);
    FramedSound(b, Direct(b, m), m.agr, m.AddAgreement?);
  }

  lemma {:induction false} DirectPresent(b: Book, m: Msg, n: string, x: Item)
    requires Valid(b) && TakesEffect(b, m) && !m.RemoveAgreement? && Valid(Direct(b, m))
    ensures One(Present(Direct(b, m), n, x)) == One(Present(b, n, x)) + Shift(m, n, x)
  {
    match m
    case AddItem(_, _, k, y) => AppendPresent(b, k, y);
    case RemoveItem(_, _, k, y) => RotateOutPresent(b, k, y);
    case AddAgreement(_, _, k) => BindPresent(b, k);
    case JoinAgreement(_, _, k, member) => JoinPresent(b, k, member);
    case LeaveAgreement(_, _, k, member) => LeavePresent(b, k, member);
  }

  lemma {:induction false} DirectBalance(b: Book, m: Msg, n: string, x: Item)
    requires Valid(b) && TakesEffect(b, m) && !m.RemoveAgreement? && Valid(Direct(b, m))
    ensures Balance(Direct(b, m), n, x) == Balance(b, n, x) + Shift(m, n, x)
  {
    DirectPresent(b, m, n, x);
    DirectFrame(b, m);
  }

  /** Accepting m keeps the book sound and at rest and shifts every balance by m. */
  lemma {:induction false} AcceptShifts(b: Book, m: Msg, n: string, x: Item)
    requires Sound(b) && AtRest(b, n, x) && !m.RemoveAgreement? && ApplyMsg(b, m).Done?
    ensures Balance(ApplyMsg(b, m).book, n, x) == Balance(b, n, x) + Shift(m, n, x)
    ensures AtRest(ApplyMsg(b, m).book, n, x)
  {
    if TakesEffect(b, m) {
      DirectSound(b, m);
      DirectBalance(b, m, n, x);
      SettleKeepsBalance(Direct(b, m));
    } else if Parks(m) {
      ParkBalance(b, m, n, x);
    }
  }

  lemma {:induction false} AcceptSound(b: Book, m: Msg)
    requires Sound(b) && !m.RemoveAgreement? && ApplyMsg(b, m).Done?
    ensures Sound(ApplyMsg(b, m).book)
    ensures ApplyMsg(b, m).book.agreements.Keys == b.agreements.Keys + if m.AddAgreement? then {m.agr} else {}
  {
    if TakesEffect(b, m) {
      DirectSound(b, m);
      SettleKeepsBalance(Direct(b, m));
    }
  }

  lemma {:induction false} AcceptReflects(b: Book, ms: seq<Msg>, m: Msg)
    requires Reflects(b, ms) && !m.RemoveAgreement? && ApplyMsg(b, m).Done?
    ensures Reflects(ApplyMsg(b, m).book, ms + [m])
  {
    var b' := ApplyMsg(b, m).book;
    AcceptSound(b, m);
    forall n ensures n in b'.agreements <==> Created(ms + [m], n) { CreatedLast(ms, m, n); }
    forall n, x ensures AtRest(b', n, x) && Balance(b', n, x) == Net(ms + [m], n, x) {
      assert AtRest(b, n, x);
      AcceptShifts(b, m, n, x);
      CountLast(ms, m, true, n, x);
      CountLast(ms, m, false, n, x);
    }
  }

  /** Books that list the same items, with the same intents, are equally at rest. */
  lemma {:induction false} SameListsReflect(b: Book, b': Book, ms: seq<Msg>)
    requires Reflects(b, ms) && Sound(b') && b'.agreements == b.agreements && b'.intents == b.intents
    requires |b'.objects| == |b.objects|
    requires forall i | 0 <= i < |b.objects| ::
               b'.objects[i].plugins == b.objects[i].plugins && b'.objects[i].tasks == b.objects[i].tasks
    ensures Reflects(b', ms)
  {
    forall n, x ensures AtRest(b', n, x) && Balance(b', n, x) == Net(ms, n, x) {
      assert AtRest(b, n, x) && Present(b', n, x) == Present(b, n, x);
    }
  }

  lemma {:induction false} MemberUpReflects(b: Book, ms: seq<Msg>, name: string)
    requires Reflects(b, ms) && Apply(b, MemberUp(name)).Done?
    ensures Reflects(Apply(b, MemberUp(name)).book, ms)
  {
    var b' := if name in b.members then b else b.(members := b.members[name := Member(None, {})]);
    SameListsReflect(b, b', ms);
    SettleKeepsBalance(b');
  }

  lemma {:induction false} StruckOffSound(b: Book, name: string)
    requires Sound(b) && name in b.members
    ensures NamesOf(b, name) <= b.agreements.Keys && Sound(StruckOff(b, name))
    ensures forall i | 0 <= i < |b.objects| ::
              && StruckOff(b, name).objects[i].plugins == b.objects[i].plugins
              && StruckOff(b, name).objects[i].tasks == b.objects[i].tasks
  {
    var b' := StruckOff(b, name);
    assert forall i | 0 <= i < |b.objects| ::
      b'.objects[i] == b.objects[i].(members := b'.objects[i].members);
  }

  lemma {:induction false} MemberDownReflects(b: Book, ms: seq<Msg>, name: string)
    requires Reflects(b, ms)
    ensures Apply(b, MemberDown(name)).Done? && Reflects(Apply(b, MemberDown(name)).book, ms)
  {
    if name in b.members {
      StruckOffSound(b, name);
      SameListsReflect(b, StruckOff(b, name), ms);
    }
  }

  lemma {:induction false} ApplyReflects(b: Book, ms: seq<Msg>, o: Occasion)
    requires Reflects(b, ms) && (o.Accept? ==> !o.m.RemoveAgreement?)
    ensures !Apply(b, o).Panicked?
    ensures Apply(b, o).Done? ==> Reflects(Apply(b, o).book, if o.Accept? then ms + [o.m] else ms)
  {
    if Apply(b, o).Done? {
      match o
      case Accept(m) => AcceptReflects(b, ms, m);
      case MemberUp(name) => MemberUpReflects(b, ms, name);
      case MemberDown(name) => MemberDownReflects(b, ms, name);
    } else if o.MemberDown? {
      MemberDownReflects(b, ms, o.name);
    }
  }

  /** From a book that reflects some messages, every history without RemoveAgreement that does not end
      up spinning reflects those and its own. It never panics. */
  lemma {:induction false} RunFromReflects(b: Book, ms: seq<Msg>, os: seq<Occasion>)
    requires Reflects(b, ms) && NoAgreementRemoved(Messages(os))
    ensures !RunFrom(b, os).Panicked?
    ensures RunFrom(b, os).Done? ==> Reflects(RunFrom(b, os).book, ms + Messages(os))
    decreases |os|
  {
    if os == [] {
      assert ms + [] == ms;
    } else {
      var init, o := os[..|os| - 1], os[|os| - 1];
      RunFromReflects(b, ms, init);
      if o.Accept? {
        assert Messages(os)[|Messages(init)|] == o.m;
        assert ms + Messages(os) == (ms + Messages(init)) + [o.m];
      }
      if RunFrom(b, init).Done? {
        ApplyReflects(RunFrom(b, init).book, ms + Messages(init), o);
      }
    }
  }

  lemma {:induction false} NothingReflected()
    ensures Reflects(EMPTY, [])
  {
  }

  /** Every history without RemoveAgreement that does not end up spinning reflects its messages.
      It never panics. */
  lemma {:induction false} RunReflects(os: seq<Occasion>)
    requires NoAgreementRemoved(Messages(os))
    ensures !Run(os).Panicked?
    ensures Run(os).Done? ==> Reflects(Run(os).book, Messages(os))
  {
    NothingReflected();
    RunFromReflects(EMPTY, [], os);
    assert [] + Messages(os) == Messages(os);
  }

  /** The closed form: in an agreement that was created, an item is listed exactly when it was
      added more often than removed, and the requests still parked are the surplus. */
  lemma {:induction false} ListedIffNetPositive(os: seq<Occasion>, n: string, x: Item)
    requires NoAgreementRemoved(Messages(os)) && Run(os).Done?
    ensures var b, net := Run(os).book, Net(Messages(os), n, x);
            && (n in b.agreements <==> Created(Messages(os), n))
            && (n in b.agreements ==>
                  && (Present(b, n, x) <==> net > 0)
                  && Count(b.intents, true, n, x) == (if net > 1 then net - 1 else 0)
                  && Count(b.intents, false, n, x) == (if net < 0 then -net else 0))
  {
    RunReflects(os);
    var b := Run(os).book;
    assert AtRest(b, n, x) && Balance(b, n, x) == Net(Messages(os), n, x);
    if n in b.agreements {
      RestReadsBalance(b, n, x);
    }
  }

  lemma {:induction false} RemovedMultiset(t: seq<Msg>, i: nat)
    requires i < |t|
    ensures multiset(RemoveAt(t, i)) == multiset(t) - multiset{t[i]}
  {
    assert t == t[..i] + [t[i]] + t[i + 1..];
  }

  lemma {:induction false} CountPermuted(s: seq<Msg>, t: seq<Msg>, add: bool, n: string, x: Item)
    requires multiset(s) == multiset(t)
    ensures Count(s, add, n, x) == Count(t, add, n, x)
    decreases |s|
  {
    if s == [] {
      assert |multiset(t)| == 0;
    } else {
      var k := |s| - 1;
      assert s[k] in multiset(t);
      var i := IndexOf(t, s[k]);
      RemovedMultiset(s, k);
      RemovedMultiset(t, i);
      CountRemoved(s, k, add, n, x);
      CountRemoved(t, i, add, n, x);
      CountPermuted(RemoveAt(s, k), RemoveAt(t, i), add, n, x);
    }
  }

  lemma {:induction false} CreatedPermuted(s: seq<Msg>, t: seq<Msg>, n: string)
    requires multiset(s) == multiset(t)
    ensures Created(s, n) ==> Created(t, n)
  {
    if Created(s, n) {
      var i :| 0 <= i < |s| && s[i].AddAgreement? && s[i].agr == n;
      assert s[i] in multiset(t);
    }
  }

  /** Order-independent convergence. Two nodes that accepted the same messages, in any two orders
      and whatever memberlist told each of them, know the same agreements, list the same items and
      have the same requests parked. */
  lemma {:induction false} Converges(os1: seq<Occasion>, os2: seq<Occasion>, n: string, x: Item)
    requires NoAgreementRemoved(Messages(os1)) && multiset(Messages(os1)) == multiset(Messages(os2))
    requires Run(os1).Done? && Run(os2).Done?
    ensures n in Run(os1).book.agreements <==> n in Run(os2).book.agreements
    ensures Present(Run(os1).book, n, x) <==> Present(Run(os2).book, n, x)
    ensures n in Run(os1).book.agreements ==> forall add ::
              Count(Run(os1).book.intents, add, n, x) == Count(Run(os2).book.intents, add, n, x)
  {
    assert forall m | m in Messages(os2) :: m in multiset(Messages(os1));
    CountPermuted(Messages(os1), Messages(os2), true, n, x);
    CountPermuted(Messages(os1), Messages(os2), false, n, x);
    CreatedPermuted(Messages(os1), Messages(os2), n);
    CreatedPermuted(Messages(os2), Messages(os1), n);
    ListedIffNetPositive(os1, n, x);
    ListedIffNetPositive(os2, n, x);
  }
}
