/** Agreements, members and parked intents of one tribe node, and the loop that retries the
intents (mgmt/tribe/tribe.go, mgmt/tribe/agreement/agreement.go).

An agreement record is reached by pointer from the agreements map and from the members that
joined it, and survives the removal of its name; here a pointer is an index into `objects`.
*/
module Intents {
  import opened Wrappers
  import opened TribeTypes

  datatype Agreement = Agreement(name: string, plugins: seq<Item>, tasks: seq<Item>, members: set<string>)

  datatype Member = Member(pluginAgreement: Option<nat>, taskAgreements: set<string>)

  datatype Book = Book(
    agreements: map<string, nat>,
    objects: seq<Agreement>,
    members: map<string, Member>,
    intents: seq<Msg>)

  const EMPTY: Book := Book(map[], [], map[], [])

  function New(name: string): Agreement {
    Agreement(name, [], [], {})
  }

  /** The list an item belongs to. */
  function Items(a: Agreement, x: Item): seq<Item> {
    if x.PluginItem? then a.plugins else a.tasks
  }

  function WithItems(a: Agreement, x: Item, items: seq<Item>): Agreement {
    if x.PluginItem? then a.(plugins := items) else a.(tasks := items)
  }

  /** Pointers lead to records, names are bound to their own records, lists hold no repeats and
      only items of their kind. */
  ghost predicate Valid(b: Book) {
    && (forall n | n in b.agreements :: b.agreements[n] < |b.objects| && b.objects[b.agreements[n]].name == n)
    && (forall m | m in b.members && b.members[m].pluginAgreement.Some? ::
        b.members[m].pluginAgreement.value < |b.objects|)
    && (forall i | 0 <= i < |b.objects| :: GoodLists(b.objects[i]))
  }

  ghost predicate GoodLists(a: Agreement) {
    && NoRepeats(a.plugins) && (forall x | x in a.plugins :: x.PluginItem?)
    && NoRepeats(a.tasks) && (forall x | x in a.tasks :: x.TaskItem?)
  }

  function IndexOf<T(==)>(s: seq<T>, x: T): (i: nat)
    requires x in s
    ensures i < |s| && s[i] == x && x !in s[..i]
  {
    if s[0] == x then 0 else 1 + IndexOf(s[1..], x)
  }

  function RemoveAt<T>(s: seq<T>, i: nat): (r: seq<T>)
    requires i < |s|
    ensures |r| == |s| - 1
  {
    s[..i] + s[i + 1..]
  }

  /** The record bound to a name. */
  function Obj(b: Book, n: string): Agreement
    requires Valid(b) && n in b.agreements
  {
    b.objects[b.agreements[n]]
  }

  function WithObj(b: Book, n: string, a: Agreement): Book
    requires Valid(b) && n in b.agreements
  {
    b.(objects := b.objects[b.agreements[n] := a])
  }

  /** Is x listed in the agreement named n? */
  predicate Present(b: Book, n: string, x: Item)
    requires Valid(b)
  {
    n in b.agreements && x in Items(Obj(b, n), x)
  }

  // ---- Effects ----

  function Append(b: Book, n: string, x: Item): Book
    requires Valid(b) && n in b.agreements
  {
    WithObj(b, n, WithItems(Obj(b, n), x, Items(Obj(b, n), x) + [x]))
  }

  /** The retry loop cuts the item out of its list. */
  function CutOut(b: Book, n: string, x: Item): Book
    requires Valid(b) && Present(b, n, x)
  {
    var s := Items(Obj(b, n), x);
    WithObj(b, n, WithItems(Obj(b, n), x, RemoveAt(s, IndexOf(s, x))))
  }

  /** The agreement's own Remove puts what followed the item in front of what preceded it. */
  function RotateOut(b: Book, n: string, x: Item): Book
    requires Valid(b) && Present(b, n, x)
  {
    var s := Items(Obj(b, n), x);
    var i := IndexOf(s, x);
    WithObj(b, n, WithItems(Obj(b, n), x, s[i + 1..] + s[..i]))
  }

  function Bind(b: Book, n: string): Book {
    b.(agreements := b.agreements[n := |b.objects|], objects := b.objects + [New(n)])
  }

  function Unbind(b: Book, n: string): Book {
    b.(agreements := b.agreements - {n})
  }

  /** A member whose plugin agreement lists plugins may not join another agreement. */
  predicate Loaded(b: Book, m: string)
    requires Valid(b)
  {
    m in b.members && b.members[m].pluginAgreement.Some? && |b.objects[b.members[m].pluginAgreement.value].plugins| > 0
  }

  predicate CanJoin(b: Book, n: string, m: string)
    requires Valid(b)
  {
    n in b.agreements && m in b.members && !Loaded(b, m)
  }

  function Join(b: Book, n: string, m: string): Book
    requires Valid(b) && CanJoin(b, n, m)
  {
    var member := Member(Some(b.agreements[n]), b.members[m].taskAgreements + {n});
    WithObj(b, n, Obj(b, n).(members := Obj(b, n).members + {m})).(members := b.members[m := member])
  }

  predicate CanLeave(b: Book, n: string, m: string) {
    n in b.agreements && m in b.members && b.members[m].pluginAgreement.Some?
  }

  function Leave(b: Book, n: string, m: string): Book
    requires Valid(b) && CanLeave(b, n, m)
  {
    var member := Member(None, b.members[m].taskAgreements - {n});
    WithObj(b, n, Obj(b, n).(members := Obj(b, n).members - {m})).(members := b.members[m := member])
  }

  // ---- Who is listed after an effect ----

  lemma {:induction false} AppendPresent(b: Book, n: string, x: Item)
    requires Valid(b) && n in b.agreements && !Present(b, n, x)
    ensures Valid(Append(b, n, x))
    ensures forall n', x' :: Present(Append(b, n, x), n', x') <==> Present(b, n', x') || (n' == n && x' == x)
  {
  }

  lemma {:induction false} OutPresent(b: Book, n: string, x: Item, rest: seq<Item>)
    requires Valid(b) && Present(b, n, x)
    requires NoRepeats(rest) && forall y :: y in rest <==> y in Items(Obj(b, n), x) && y != x
    ensures var b' := WithObj(b, n, WithItems(Obj(b, n), x, rest));
            Valid(b') && forall n', x' :: Present(b', n', x') <==> Present(b, n', x') && !(n' == n && x' == x)
  {
  }

  lemma {:induction false} SplitAround<T>(s: seq<T>, x: T)
    requires NoRepeats(s) && x in s
    ensures var i := IndexOf(s, x);
            && NoRepeats(RemoveAt(s, i)) && (forall y :: y in RemoveAt(s, i) <==> y in s && y != x)
            && NoRepeats(s[i + 1..] + s[..i]) && (forall y :: y in s[i + 1..] + s[..i] <==> y in s && y != x)
  {
    var i := IndexOf(s, x);
    assert s == s[..i] + [s[i]] + s[i + 1..];
  }

  lemma {:induction false} CutOutPresent(b: Book, n: string, x: Item)
    requires Valid(b) && Present(b, n, x)
    ensures Valid(CutOut(b, n, x))
    ensures forall n', x' :: Present(CutOut(b, n, x), n', x') <==> Present(b, n', x') && !(n' == n && x' == x)
  {
    var s := Items(Obj(b, n), x);
    SplitAround(s, x);
    OutPresent(b, n, x, RemoveAt(s, IndexOf(s, x)));
  }

  lemma {:induction false} RotateOutPresent(b: Book, n: string, x: Item)
    requires Valid(b) && Present(b, n, x)
    ensures Valid(RotateOut(b, n, x))
    ensures forall n', x' :: Present(RotateOut(b, n, x), n', x') <==> Present(b, n', x') && !(n' == n && x' == x)
  {
    var s := Items(Obj(b, n), x);
    SplitAround(s, x);
    OutPresent(b, n, x, s[IndexOf(s, x) + 1..] + s[..IndexOf(s, x)]);
  }

  /** What becomes of the order: the retry loop closes the gap, the agreement's own Remove puts what
      followed in front of what preceded. */
  lemma {:induction false} OutOrders(b: Book, n: string, x: Item, before: seq<Item>, after: seq<Item>)
    requires Valid(b) && Present(b, n, x) && Items(Obj(b, n), x) == before + [x] + after
    ensures Valid(CutOut(b, n, x)) && Items(Obj(CutOut(b, n, x), n), x) == before + after
    ensures Valid(RotateOut(b, n, x)) && Items(Obj(RotateOut(b, n, x), n), x) == after + before
  {
    var s := Items(Obj(b, n), x);
    CutOutPresent(b, n, x);
    RotateOutPresent(b, n, x);
    assert s[|before|] == x && IndexOf(s, x) == |before|;
    assert s[..|before|] == before && s[|before| + 1..] == after;
  }

  lemma {:induction false} BindPresent(b: Book, n: string)
    requires Valid(b) && n !in b.agreements
    ensures Valid(Bind(b, n))
    ensures forall n', x' :: Present(Bind(b, n), n', x') <==> Present(b, n', x')
  {
  }

  lemma {:induction false} JoinPresent(b: Book, n: string, m: string)
    requires Valid(b) && CanJoin(b, n, m)
    ensures Valid(Join(b, n, m))
    ensures forall n', x' :: Present(Join(b, n, m), n', x') <==> Present(b, n', x')
  {
  }

  lemma {:induction false} LeavePresent(b: Book, n: string, m: string)
    requires Valid(b) && CanLeave(b, n, m)
    ensures Valid(Leave(b, n, m))
    ensures forall n', x' :: Present(Leave(b, n, m), n', x') <==> Present(b, n', x')
  {
  }

  // ---- The retry loop ----

  /** The eight passes of one iteration, in the order the loop makes them. */
  datatype Pass =
    | AddPlugins | RemovePlugins | AddAgreements | RemoveAgreements | Joins | Leaves | AddTasks | RemoveTasks

  const PASSES: seq<Pass> :=
    [AddPlugins, RemovePlugins, AddAgreements, RemoveAgreements, Joins, Leaves, AddTasks, RemoveTasks]

  /** Does the pass stop at this intent? The leave pass looks for join messages, as the source does. */
  predicate Hits(b: Book, p: Pass, m: Msg)
    requires Valid(b)
  {
    match p
    case AddPlugins => m.AddItem? && m.item.PluginItem? && m.agr in b.agreements && !Present(b, m.agr, m.item)
    case RemovePlugins => m.RemoveItem? && m.item.PluginItem? && Present(b, m.agr, m.item)
    case AddAgreements => m.AddAgreement? && m.agr !in b.agreements
    case RemoveAgreements => m.RemoveAgreement? && m.agr in b.agreements
    case Joins => m.JoinAgreement? && m.member in b.members && m.agr in b.agreements
    case Leaves => m.JoinAgreement? && m.member in b.members && m.agr in b.agreements
        && m.member in Obj(b, m.agr).members
    case AddTasks => m.AddItem? && m.item.TaskItem? && m.agr in b.agreements && !Present(b, m.agr, m.item)
    case RemoveTasks => m.RemoveItem? && m.item.TaskItem? && Present(b, m.agr, m.item)
  }

  /** The agreement refuses the intent, which then stays parked. */
  predicate Refuses(b: Book, p: Pass, m: Msg)
    requires Valid(b) && Hits(b, p, m)
  {
    match p
    case Joins => !CanJoin(b, m.agr, m.member)
    case Leaves => !CanLeave(b, m.agr, m.member)
    case _ => false
  }

  function Effect(b: Book, p: Pass, m: Msg): Book
    requires Valid(b) && Hits(b, p, m) && !Refuses(b, p, m)
  {
    match p
    case AddPlugins => Append(b, m.agr, m.item)
    case RemovePlugins => CutOut(b, m.agr, m.item)
    case AddAgreements => Bind(b, m.agr)
    case RemoveAgreements => Unbind(b, m.agr)
    case Joins => Join(b, m.agr, m.member)
    case Leaves => Leave(b, m.agr, m.member)
    case AddTasks => Append(b, m.agr, m.item)
    case RemoveTasks => CutOut(b, m.agr, m.item)
  }

  /** The first intent at or after position k at which the pass stops, or the number of intents. */
  function FirstHit(b: Book, p: Pass, k: nat): (i: nat)
    requires Valid(b) && k <= |b.intents|
    ensures k <= i <= |b.intents|
    ensures i < |b.intents| ==> Hits(b, p, b.intents[i])
    ensures forall j | k <= j < i :: !Hits(b, p, b.intents[j])
    decreases |b.intents| - k
  {
    if k == |b.intents| || Hits(b, p, b.intents[k]) then k else FirstHit(b, p, k + 1)
  }

  predicate Quiet(b: Book, p: Pass)
    requires Valid(b)
  {
    FirstHit(b, p, 0) == |b.intents|
  }

  lemma {:induction false} EffectValid(b: Book, p: Pass, m: Msg)
    requires Valid(b) && Hits(b, p, m) && !Refuses(b, p, m)
    ensures Valid(Effect(b, p, m)) && Effect(b, p, m).intents == b.intents
  {
    match p
    case AddPlugins => AppendPresent(b, m.agr, m.item);
    case RemovePlugins => CutOutPresent(b, m.agr, m.item);
    case AddAgreements => BindPresent(b, m.agr);
    case RemoveAgreements =>
    case Joins => JoinPresent(b, m.agr, m.member);
    case Leaves => LeavePresent(b, m.agr, m.member);
    case AddTasks => AppendPresent(b, m.agr, m.item);
    case RemoveTasks => CutOutPresent(b, m.agr, m.item);
  }

  /** A change that concerns agreement n alone: it may touch the record bound to n and what members say
      about n, and binds a new record to n only if told so. */
  ghost predicate Framed(b: Book, b': Book, n: string, binds: bool) {
    && b'.intents == b.intents
    && b'.agreements == (if binds then b.agreements[n := |b.objects|] else b.agreements)
    && |b'.objects| == |b.objects| + (if binds then 1 else 0)
    && (binds ==> b'.objects[|b.objects|] == New(n))
    && (forall j | 0 <= j < |b.objects| :: b'.objects[j].name == b.objects[j].name)
    && (forall j | 0 <= j < |b.objects| && !(n in b.agreements && b.agreements[n] == j) ::
          b'.objects[j] == b.objects[j])
    && b'.members.Keys == b.members.Keys
    && (forall x | x in b'.members :: b'.members[x].taskAgreements <= b.members[x].taskAgreements + {n})
  }

  lemma {:induction false} ListFrame(b: Book, n: string, x: Item, items: seq<Item>)
    requires Valid(b) && n in b.agreements
    ensures Framed(b, WithObj(b, n, WithItems(Obj(b, n), x, items)), n, false)
  {
  }

  lemma {:induction false} JoinFrame(b: Book, n: string, m: string)
    requires Valid(b) && CanJoin(b, n, m)
    ensures Framed(b, Join(b, n, m), n, false)
  {
    assert Join(b, n, m).members.Keys == b.members.Keys;
  }

  lemma {:induction false} LeaveFrame(b: Book, n: string, m: string)
    requires Valid(b) && CanLeave(b, n, m)
    ensures Framed(b, Leave(b, n, m), n, false)
  {
    assert Leave(b, n, m).members.Keys == b.members.Keys;
  }

  lemma {:induction false} EffectFrame(b: Book, p: Pass, m: Msg)
    requires Valid(b) && Hits(b, p, m) && !Refuses(b, p, m) && !p.RemoveAgreements?
    ensures Framed(b, Effect(b, p, m), m.agr, p.AddAgreements?)
    ensures !p.Joins? && !p.Leaves? ==> Effect(b, p, m).members == b.members
  {
    match p
    case AddAgreements =>
    case Joins => JoinFrame(b, m.agr, m.member);
    case Leaves => LeaveFrame(b, m.agr, m.member);
    case AddPlugins => ListFrame(b, m.agr, m.item, Items(Obj(b, m.agr), m.item) + [m.item]);
    case AddTasks => ListFrame(b, m.agr, m.item, Items(Obj(b, m.agr), m.item) + [m.item]);
    case RemovePlugins => CutOutFrame(b, m.agr, m.item);
    case RemoveTasks => CutOutFrame(b, m.agr, m.item);
  }

  lemma {:induction false} CutOutFrame(b: Book, n: string, x: Item)
    requires Valid(b) && Present(b, n, x)
    ensures Framed(b, CutOut(b, n, x), n, false)
  {
    var s := Items(Obj(b, n), x);
    ListFrame(b, n, x, RemoveAt(s, IndexOf(s, x)));
  }

  datatype Sweep = Settled | Fired(book: Book) | Stuck

  /** The pass stops at intent i: the intent takes effect and leaves the buffer, or is refused. */
  function FireAt(b: Book, p: Pass, i: nat): (r: Sweep)
    requires Valid(b) && i < |b.intents| && Hits(b, p, b.intents[i])
    ensures r.Fired? ==> Valid(r.book) && |r.book.intents| == |b.intents| - 1
  {
    if Refuses(b, p, b.intents[i]) then Stuck
    else
      EffectValid(b, p, b.intents[i]);
      Fired(Effect(b, p, b.intents[i]).(intents := RemoveAt(b.intents, i)))
  }

  /** One iteration of the loop, from pass k on: the first pass that stops decides. */
  function SweepFrom(b: Book, k: nat): (r: Sweep)
    requires Valid(b) && k <= |PASSES|
    ensures r.Fired? ==> Valid(r.book) && |r.book.intents| == |b.intents| - 1
    decreases |PASSES| - k, |b.intents|
  {
    if k == |PASSES| then Settled
    else if Quiet(b, PASSES[k]) then SweepFrom(b, k + 1)
    else FireAt(b, PASSES[k], FirstHit(b, PASSES[k], 0))
  }

  /** How a handler ends: with a new book, by spinning for ever with the lock held, or by
      following a nil agreement pointer. */
  datatype Outcome = Done(book: Book) | Spinning(book: Book) | Panicked

  /** processIntents. A refused join changes nothing, so the next iteration is the same again. */
  function Settle(b: Book): (r: Outcome)
    requires Valid(b)
    ensures !r.Panicked? && Valid(r.book)
    decreases |b.intents|
  {
    match SweepFrom(b, 0)
    case Settled => Done(b)
    case Stuck => Spinning(b)
    case Fired(b') => Settle(b')
  }

  /** The loop returns within n further iterations. */
  predicate ReturnsWithin(b: Book, n: nat)
    requires Valid(b)
    decreases n
  {
    match SweepFrom(b, 0)
    case Settled => true
    case Stuck => n > 0 && ReturnsWithin(b, n - 1)
    case Fired(b') => n > 0 && ReturnsWithin(b', n - 1)
  }

  lemma {:induction false} DoneReturns(b: Book)
    requires Valid(b) && Settle(b).Done?
    ensures ReturnsWithin(b, |b.intents|)
    decreases |b.intents|
  {
    var r := SweepFrom(b, 0);
    if r.Fired? {
      DoneReturns(r.book);
    }
  }

  lemma {:induction false} SpinningStays(b: Book, n: nat)
    requires Valid(b) && Settle(b).Spinning?
    ensures !ReturnsWithin(b, n)
    decreases n
  {
    var r := SweepFrom(b, 0);
    if n > 0 {
      if r.Fired? {
        SpinningStays(r.book, n - 1);
      } else {
        SpinningStays(b, n - 1);
      }
    }
  }

  /** `Done` and `Spinning` are what they say: the loop returns exactly when Settle says Done, and
      then within one iteration per parked intent. */
  lemma {:induction false} ReturnsIffDone(b: Book)
    requires Valid(b)
    ensures Settle(b).Done? ==> ReturnsWithin(b, |b.intents|)
    ensures Settle(b).Spinning? ==> forall n: nat :: !ReturnsWithin(b, n)
  {
    if Settle(b).Done? {
      DoneReturns(b);
    } else {
      forall n: nat
        ensures !ReturnsWithin(b, n)
      {
        SpinningStays(b, n);
      }
    }
  }

  // ---- Balance ----

  /** Is m a request to add (or to remove) item x in agreement n? */
  predicate Asks(m: Msg, add: bool, n: string, x: Item) {
    (if add then m.AddItem? else m.RemoveItem?) && m.agr == n && m.item == x
  }

  function Count(ms: seq<Msg>, add: bool, n: string, x: Item): nat {
    if ms == [] then 0
    else Count(ms[..|ms| - 1], add, n, x) + if Asks(ms[|ms| - 1], add, n, x) then 1 else 0
  }

  lemma {:induction false} CountSum(s: seq<Msg>, t: seq<Msg>, add: bool, n: string, x: Item)
    ensures Count(s + t, add, n, x) == Count(s, add, n, x) + Count(t, add, n, x)
  {
    if t == [] {
      assert s + t == s;
    } else {
      assert (s + t)[..|s + t| - 1] == s + t[..|t| - 1];
      CountSum(s, t[..|t| - 1], add, n, x);
    }
  }

  lemma {:induction false} CountRemoved(s: seq<Msg>, i: nat, add: bool, n: string, x: Item)
    requires i < |s|
    ensures Count(RemoveAt(s, i), add, n, x) + (if Asks(s[i], add, n, x) then 1 else 0) == Count(s, add, n, x)
  {
    assert s == s[..i] + ([s[i]] + s[i + 1..]);
    CountSum(s[..i], [s[i]] + s[i + 1..], add, n, x);
    CountSum([s[i]], s[i + 1..], add, n, x);
    CountSum(s[..i], s[i + 1..], add, n, x);
  }

  function One(b: bool): int {
    if b then 1 else 0
  }

  /** What an item's adds and removes come to: listed or not, plus the adds still parked, minus
      the removes still parked. */
  function Balance(b: Book, n: string, x: Item): int
    requires Valid(b)
  {
    One(Present(b, n, x)) + Count(b.intents, true, n, x) - Count(b.intents, false, n, x)
  }

  /** The effect of an intent on a listing makes up for the intent. */
  lemma {:induction false} EffectPresent(b: Book, p: Pass, m: Msg, n: string, x: Item)
    requires Valid(b) && Hits(b, p, m) && !Refuses(b, p, m) && !p.RemoveAgreements? && Valid(Effect(b, p, m))
    ensures One(Present(Effect(b, p, m), n, x)) ==
              One(Present(b, n, x)) + One(Asks(m, true, n, x)) - One(Asks(m, false, n, x))
  {
    match p
    case AddPlugins => AppendPresent(b, m.agr, m.item);
    case RemovePlugins => CutOutPresent(b, m.agr, m.item);
    case AddAgreements => BindPresent(b, m.agr);
    case Joins => JoinPresent(b, m.agr, m.member);
    case Leaves => LeavePresent(b, m.agr, m.member);
    case AddTasks => AppendPresent(b, m.agr, m.item);
    case RemoveTasks => CutOutPresent(b, m.agr, m.item);
  }

  lemma {:induction false} FiringKeepsBalance(b: Book, p: Pass, i: nat, n: string, x: Item)
    requires Valid(b) && i < |b.intents| && Hits(b, p, b.intents[i]) && FireAt(b, p, i).Fired?
    requires !p.RemoveAgreements?
    ensures Balance(FireAt(b, p, i).book, n, x) == Balance(b, n, x)
  {
    var m := b.intents[i];
    CountRemoved(b.intents, i, true, n, x);
    CountRemoved(b.intents, i, false, n, x);
    EffectValid(b, p, m);
    EffectPresent(b, p, m, n, x);
    assert Present(FireAt(b, p, i).book, n, x) == Present(Effect(b, p, m), n, x);
  }

  lemma {:induction false} CountFound(ms: seq<Msg>, add: bool, n: string, x: Item)
    requires Count(ms, add, n, x) > 0
    ensures exists i :: 0 <= i < |ms| && Asks(ms[i], add, n, x)
  {
    if !Asks(ms[|ms| - 1], add, n, x) {
      CountFound(ms[..|ms| - 1], add, n, x);
    }
  }

  /** Nothing more to do for x in agreement n: no parked remove of a listed item and no parked
      add of an unlisted one. */
  predicate AtRest(b: Book, n: string, x: Item)
    requires Valid(b)
  {
    n in b.agreements ==> Count(b.intents, !Present(b, n, x), n, x) == 0
  }

  lemma {:induction false} QuietAtRest(b: Book, n: string, x: Item)
    requires Valid(b)
    requires Quiet(b, if x.PluginItem? then AddPlugins else AddTasks)
    requires Quiet(b, if x.PluginItem? then RemovePlugins else RemoveTasks)
    ensures AtRest(b, n, x)
  {
    var add := !Present(b, n, x);
    if n in b.agreements && Count(b.intents, add, n, x) > 0 {
      CountFound(b.intents, add, n, x);
    }
  }

  /** At rest the balance alone tells whether the item is listed and how many requests wait. */
  lemma {:induction false} RestReadsBalance(b: Book, n: string, x: Item)
    requires Valid(b) && n in b.agreements && AtRest(b, n, x)
    ensures Present(b, n, x) <==> Balance(b, n, x) > 0
    ensures Count(b.intents, true, n, x) == if Balance(b, n, x) > 1 then Balance(b, n, x) - 1 else 0
    ensures Count(b.intents, false, n, x) == if Balance(b, n, x) < 0 then -Balance(b, n, x) else 0
  {
  }

  /** The pass that decides an iteration: all passes before it are quiet. */
  lemma {:induction false} SweepBy(b: Book, k: nat) returns (q: nat)
    requires Valid(b) && k <= |PASSES|
    ensures k <= q <= |PASSES| && forall j | k <= j < q :: Quiet(b, PASSES[j])
    ensures q == |PASSES| <==> SweepFrom(b, k).Settled?
    ensures q < |PASSES| ==> !Quiet(b, PASSES[q]) && SweepFrom(b, k) == FireAt(b, PASSES[q], FirstHit(b, PASSES[q], 0))
    decreases |PASSES| - k, |b.intents|
  {
    q := k;
    if k < |PASSES| && Quiet(b, PASSES[k]) {
      q := SweepBy(b, k + 1);
    }
  }

  /** When processIntents returns, no pass has anything left to stop at, and every iteration before
      the last took exactly one intent out of the buffer. */
  lemma {:induction false} SettledQuiet(b: Book, k: nat)
    requires Valid(b) && Settle(b).Done? && k < |PASSES|
    ensures Quiet(Settle(b).book, PASSES[k])
    decreases |b.intents|
  {
    var q := SweepBy(b, 0);
    if q < |PASSES| {
      SettledQuiet(SweepFrom(b, 0).book, k);
    }
  }

  /** No agreement removal is parked: handlers never park one. */
  ghost predicate NoRemovalParked(b: Book) {
    Valid(b) && forall i | 0 <= i < |b.intents| :: !b.intents[i].RemoveAgreement?
  }

  // ---- Books without removed agreements ----

  /** What every history without RemoveAgreement keeps: no removal is parked, every name a record or a
      member mentions is bound, and an agreement is asked for again only when it exists. */
  ghost predicate Sound(b: Book) {
    && Valid(b)
    && (forall i | 0 <= i < |b.intents| :: !b.intents[i].RemoveAgreement?
          && (b.intents[i].AddAgreement? ==> b.intents[i].agr in b.agreements))
    && (forall i | 0 <= i < |b.objects| :: b.objects[i].name in b.agreements)
    && (forall m | m in b.members :: b.members[m].taskAgreements <= b.agreements.Keys)
  }

  /** Such a change keeps a book sound if the agreement is known, or becomes so. */
  lemma {:induction false} FramedSound(b: Book, b': Book, n: string, binds: bool)
    requires Sound(b) && Valid(b') && Framed(b, b', n, binds) && (binds || n in b.agreements)
    ensures Sound(b')
  {
  }

  lemma {:induction false} ShorterSound(b: Book, i: nat)
    requires Sound(b) && i < |b.intents|
    ensures Sound(b.(intents := RemoveAt(b.intents, i)))
  {
    var b' := b.(intents := RemoveAt(b.intents, i));
    assert forall j | 0 <= j < |b'.intents| :: b'.intents[j] == b.intents[if j < i then j else j + 1];
  }

  lemma {:induction false} FiringSound(b: Book, p: Pass, i: nat)
    requires Sound(b) && i < |b.intents| && Hits(b, p, b.intents[i]) && FireAt(b, p, i).Fired?
    ensures !p.RemoveAgreements? && !p.AddAgreements?
    ensures Sound(FireAt(b, p, i).book) && FireAt(b, p, i).book.agreements == b.agreements
    ensures FireAt(b, p, i).book.members.Keys == b.members.Keys
  {
    var m := b.intents[i];
    var c := Effect(b, p, m);
    EffectValid(b, p, m);
    EffectFrame(b, p, m);
    FramedSound(b, c, m.agr, false);
    ShorterSound(c, i);
  }

  /** processIntents keeps every balance and, when it returns, leaves everything at rest. */
  lemma {:induction false} SettleKeepsBalance(b: Book)
    requires Sound(b)
    ensures Sound(Settle(b).book) && Settle(b).book.agreements == b.agreements
    ensures forall n, x :: Balance(Settle(b).book, n, x) == Balance(b, n, x)
    ensures Settle(b).Done? ==> forall n, x :: AtRest(Settle(b).book, n, x)
    decreases |b.intents|
  {
    var q := SweepBy(b, 0);
    if q == |PASSES| {
      assert PASSES[0] == AddPlugins && PASSES[1] == RemovePlugins && PASSES[6] == AddTasks && PASSES[7] == RemoveTasks;
      forall n, x ensures AtRest(b, n, x) { QuietAtRest(b, n, x); }
    } else if SweepFrom(b, 0).Fired? {
      var i := FirstHit(b, PASSES[q], 0);
      FiringSound(b, PASSES[q], i);
      forall n, x ensures Balance(SweepFrom(b, 0).book, n, x) == Balance(b, n, x) {
        FiringKeepsBalance(b, PASSES[q], i, n, x);
      }
      SettleKeepsBalance(SweepFrom(b, 0).book);
    }
  }
}
