/** When processIntents never returns (mgmt/tribe/tribe.go).

A join that the agreement refuses stays parked, changes nothing and restarts the loop. This
module decides, from the book as it is when the loop is entered, whether that will happen. */
module Spinning {
  import opened Wrappers
  import opened TribeTypes
  import opened Intents
  import opened Convergence

  /** Will the agreement list a plugin once every request is settled? */
  ghost predicate IsRich(b: Book, n: string)
    requires Valid(b)
  {
    exists x: Item :: x.PluginItem? && Balance(b, n, x) > 0
  }

  ghost function Rich(b: Book): iset<string>
    requires Valid(b)
  {
    iset n | IsRich(b, n)
  }

  /** Is the record the one its name leads to? */
  predicate IsBound(b: Book, id: nat)
    requires id < |b.objects|
  {
    b.objects[id].name in b.agreements && b.agreements[b.objects[id].name] == id
  }

  /** Members whose record will then list a plugin. A record whose name was removed no longer
      changes. */
  ghost function Laden(b: Book): iset<string>
    requires Valid(b)
  {
    iset m | m in b.members && b.members[m].pluginAgreement.Some? &&
      var id := b.members[m].pluginAgreement.value;
      if IsBound(b, id) then b.objects[id].name in Rich(b) else |b.objects[id].plugins| > 0
  }

  /** The names that are bound or will be by a parked AddAgreement. */
  function Names(b: Book): set<string> {
    b.agreements.Keys + set m | m in b.intents && m.AddAgreement? :: m.agr
  }

  /** A parked join that names a known member and a known agreement. */
  predicate Joinable(m: Msg, known: set<string>, bound: set<string>) {
    m.JoinAgreement? && m.member in known && m.agr in bound
  }

  /** Take the joinable intents in the order they are parked. A member that is laden when its turn
      comes will be refused; otherwise it becomes laden by joining a rich agreement. */
  ghost predicate SomeJoinRefused(ms: seq<Msg>, known: set<string>, bound: set<string>, rich: iset<string>,
      laden: iset<string>) {
    if ms == [] then false
    else if !Joinable(ms[0], known, bound) then SomeJoinRefused(ms[1..], known, bound, rich, laden)
    else ms[0].member in laden ||
         SomeJoinRefused(ms[1..], known, bound, rich, if ms[0].agr in rich then laden + iset{ms[0].member} else laden)
  }

  ghost predicate WillSpin(b: Book)
    requires Valid(b)
  {
    SomeJoinRefused(b.intents, b.members.Keys, Names(b), Rich(b), Laden(b))
  }

  lemma {:induction false} SkipPrefix(ms: seq<Msg>, i: nat, known: set<string>, bound: set<string>,
      rich: iset<string>, laden: iset<string>)
    requires i <= |ms| && forall j | 0 <= j < i :: !Joinable(ms[j], known, bound)
    ensures SomeJoinRefused(ms, known, bound, rich, laden) <==> SomeJoinRefused(ms[i..], known, bound, rich, laden)
  {
    if i > 0 {
      SkipPrefix(ms[1..], i - 1, known, bound, rich, laden);
      assert ms[1..][i - 1..] == ms[i..];
    } else {
      assert ms[0..] == ms;
    }
  }

  lemma {:induction false} DropOther(ms: seq<Msg>, i: nat, known: set<string>, bound: set<string>,
      rich: iset<string>, laden: iset<string>)
    requires i < |ms| && !ms[i].JoinAgreement?
    ensures SomeJoinRefused(ms, known, bound, rich, laden) <==>
        SomeJoinRefused(RemoveAt(ms, i), known, bound, rich, laden)
    decreases i
  {
    if i == 0 {
      assert RemoveAt(ms, 0) == ms[1..];
    } else {
      assert RemoveAt(ms, i)[1..] == RemoveAt(ms[1..], i - 1);
      var laden' := if Joinable(ms[0], known, bound) && ms[0].agr in rich then laden + iset{ms[0].member} else laden;
      DropOther(ms[1..], i - 1, known, bound, rich, laden');
    }
  }

  lemma {:induction false} RichKept(b: Book, b': Book)
    requires Valid(b) && Valid(b') && forall n, x :: Balance(b', n, x) == Balance(b, n, x)
    ensures Rich(b') == Rich(b)
  {
    forall n ensures n in Rich(b') <==> n in Rich(b) {
      assert forall x :: Balance(b', n, x) == Balance(b, n, x);
    }
  }

  /** When the plugin passes are quiet, rich means listing a plugin now. */
  lemma {:induction false} RichNow(b: Book, n: string)
    requires Valid(b) && n in b.agreements && Quiet(b, AddPlugins) && Quiet(b, RemovePlugins)
    ensures n in Rich(b) <==> |Obj(b, n).plugins| > 0
  {
    if n in Rich(b) {
      var x: Item :| x.PluginItem? && Balance(b, n, x) > 0;
      QuietAtRest(b, n, x);
      RestReadsBalance(b, n, x);
    }
    if |Obj(b, n).plugins| > 0 {
      var x := Obj(b, n).plugins[0];
      QuietAtRest(b, n, x);
      RestReadsBalance(b, n, x);
    }
  }

  lemma {:induction false} LadenNow(b: Book, m: string)
    requires Valid(b) && m in b.members && Quiet(b, AddPlugins) && Quiet(b, RemovePlugins)
    ensures m in Laden(b) <==> Loaded(b, m)
  {
    if b.members[m].pluginAgreement.Some? && IsBound(b, b.members[m].pluginAgreement.value) {
      RichNow(b, b.objects[b.members[m].pluginAgreement.value].name);
    }
  }

  /** What a firing pass leaves alone. */
  lemma {:induction false} FiringFrame(b: Book, p: Pass, i: nat)
    requires NoRemovalParked(b) && i < |b.intents| && Hits(b, p, b.intents[i]) && FireAt(b, p, i).Fired?
    ensures var b' := FireAt(b, p, i).book;
            && NoRemovalParked(b') && b'.members.Keys == b.members.Keys && |b.objects| <= |b'.objects|
            && (forall j | 0 <= j < |b.objects| ::
                  && b'.objects[j].name == b.objects[j].name
                  && (IsBound(b', j) <==> IsBound(b, j))
                  && (!IsBound(b, j) ==> b'.objects[j].plugins == b.objects[j].plugins))
            && (!p.Joins? && !p.Leaves? ==> b'.members == b.members)
  {
    var b', m := FireAt(b, p, i).book, b.intents[i];
    assert forall j | 0 <= j < |b'.intents| :: b'.intents[j] == b.intents[if j < i then j else j + 1];
    assert !p.RemoveAgreements?;
    EffectFrame(b, p, m);
    FramedBound(b, Effect(b, p, m), m.agr, p.AddAgreements?);
  }

  lemma {:induction false} FramedBound(b: Book, b': Book, n: string, binds: bool)
    requires Valid(b) && Framed(b, b', n, binds) && (binds ==> n !in b.agreements)
    ensures forall j | 0 <= j < |b.objects| ::
              (IsBound(b', j) <==> IsBound(b, j)) && (!IsBound(b, j) ==> b'.objects[j].plugins == b.objects[j].plugins)
  {
  }

  lemma {:induction false} EffectNames(b: Book, p: Pass, m: Msg)
    requires Valid(b) && Hits(b, p, m) && !Refuses(b, p, m) && !p.RemoveAgreements?
    ensures Effect(b, p, m).agreements.Keys == b.agreements.Keys + if p.AddAgreements? then {m.agr} else {}
  {
    EffectFrame(b, p, m);
  }

  lemma {:induction false} ElementsWithout(s: seq<Msg>, i: nat)
    requires i < |s|
    ensures forall x :: x in s <==> x in RemoveAt(s, i) || x == s[i]
  {
    assert s == s[..i] + [s[i]] + s[i + 1..];
  }

  lemma {:induction false} FiringNames(b: Book, p: Pass, i: nat)
    requires NoRemovalParked(b) && i < |b.intents| && Hits(b, p, b.intents[i]) && FireAt(b, p, i).Fired?
    ensures Names(FireAt(b, p, i).book) == Names(b)
  {
    EffectNames(b, p, b.intents[i]);
    ElementsWithout(b.intents, i);
  }

  lemma {:induction false} FiringRich(b: Book, p: Pass, i: nat)
    requires NoRemovalParked(b) && i < |b.intents| && Hits(b, p, b.intents[i]) && FireAt(b, p, i).Fired?
    ensures Rich(FireAt(b, p, i).book) == Rich(b)
  {
    var b' := FireAt(b, p, i).book;
    forall n, x ensures Balance(b', n, x) == Balance(b, n, x) { FiringKeepsBalance(b, p, i, n, x); }
    RichKept(b, b');
  }

  /** A firing pass other than a join does not change the verdict. */
  lemma {:induction false} OtherFiringKeeps(b: Book, p: Pass, i: nat)
    requires NoRemovalParked(b) && i < |b.intents| && Hits(b, p, b.intents[i]) && FireAt(b, p, i).Fired?
        && !p.Joins? && !p.Leaves?
    ensures WillSpin(FireAt(b, p, i).book) <==> WillSpin(b)
  {
    FiringFrame(b, p, i);
    FiringNames(b, p, i);
    FiringRich(b, p, i);
    assert Laden(FireAt(b, p, i).book) == Laden(b);
    DropOther(b.intents, i, b.members.Keys, Names(b), Rich(b), Laden(b));
  }

  /** Joining makes the member laden exactly when the agreement is rich. */
  lemma {:induction false} JoinLades(b: Book, i: nat)
    requires NoRemovalParked(b) && i < |b.intents| && Hits(b, Joins, b.intents[i]) && FireAt(b, Joins, i).Fired?
    requires b.intents[i].member !in Laden(b)
    ensures Laden(FireAt(b, Joins, i).book) ==
            if b.intents[i].agr in Rich(b) then Laden(b) + iset{b.intents[i].member} else Laden(b)
  {
    FiringFrame(b, Joins, i);
    FiringRich(b, Joins, i);
  }

  /** The first joinable intent, met with quiet plugin and agreement passes: refused exactly when
      its member is laden, and otherwise the verdict is that of the rest. */
  lemma {:induction false} JoinFiringKeeps(b: Book, i: nat)
    requires NoRemovalParked(b) && Quiet(b, AddPlugins) && Quiet(b, RemovePlugins) && Names(b) == b.agreements.Keys
    requires i < |b.intents| && i == FirstHit(b, Joins, 0) && Hits(b, Joins, b.intents[i])
    ensures FireAt(b, Joins, i).Stuck? ==> WillSpin(b)
    ensures FireAt(b, Joins, i).Fired? ==> (WillSpin(FireAt(b, Joins, i).book) <==> WillSpin(b))
  {
    var ms, known, bound, rich, laden := b.intents, b.members.Keys, Names(b), Rich(b), Laden(b);
    var m := ms[i];
    SkipPrefix(ms, i, known, bound, rich, laden);
    assert ms[i..][0] == m && ms[i..][1..] == ms[i + 1..];
    LadenNow(b, m.member);
    if FireAt(b, Joins, i).Fired? {
      FiringFrame(b, Joins, i);
      FiringNames(b, Joins, i);
      FiringRich(b, Joins, i);
      JoinLades(b, i);
      var laden' := if m.agr in rich then laden + iset{m.member} else laden;
      assert forall j | 0 <= j < i :: RemoveAt(ms, i)[j] == ms[j];
      SkipPrefix(RemoveAt(ms, i), i, known, bound, rich, laden');
      assert RemoveAt(ms, i)[i..] == ms[i + 1..];
    }
  }

  lemma {:induction false} QuietNames(b: Book)
    requires Valid(b) && Quiet(b, AddAgreements)
    ensures Names(b) == b.agreements.Keys
  {
  }

  lemma {:induction false} QuietJoins(b: Book)
    requires Valid(b) && Quiet(b, Joins) && Names(b) == b.agreements.Keys
    ensures !WillSpin(b)
  {
    SkipPrefix(b.intents, |b.intents|, b.members.Keys, Names(b), Rich(b), Laden(b));
  }

  /** When the leave pass is reached it never stops: every intent it looks for would have stopped
      the join pass before it. A parked leave is therefore never carried out. */
  lemma {:induction false} LeavePassNeverFires(b: Book)
    requires Valid(b) && Quiet(b, Joins)
    ensures Quiet(b, Leaves)
  {
  }

  /** No pass stops at a parked leave, so firing any other intent keeps it. */
  lemma {:induction false} FiringKeepsLeave(b: Book, p: Pass, i: nat, m: Msg)
    requires Valid(b) && i < |b.intents| && Hits(b, p, b.intents[i]) && FireAt(b, p, i).Fired?
    requires m.LeaveAgreement? && m in b.intents
    ensures m in FireAt(b, p, i).book.intents
  {
    ElementsWithout(b.intents, i);
  }

  lemma {:induction false} SettleKeepsLeave(b: Book, m: Msg)
    requires Valid(b) && m.LeaveAgreement? && m in b.intents
    ensures m in Settle(b).book.intents
    decreases |b.intents|
  {
    var q := SweepBy(b, 0);
    if SweepFrom(b, 0).Fired? {
      FiringKeepsLeave(b, PASSES[q], FirstHit(b, PASSES[q], 0), m);
      SettleKeepsLeave(SweepFrom(b, 0).book, m);
    }
  }

  lemma {:induction false} DirectParked(b: Book, m: Msg)
    requires Valid(b) && TakesEffect(b, m)
    ensures Valid(Direct(b, m)) && Direct(b, m).intents == b.intents
  {
    DirectValid(b, m);
  }

  lemma {:induction false} ApplyKeepsLeave(b: Book, o: Occasion, m: Msg)
    requires Valid(b) && m.LeaveAgreement? && m in b.intents && !Apply(b, o).Panicked?
    ensures m in Apply(b, o).book.intents
  {
    match o
    case Accept(k) =>
      if TakesEffect(b, k) {
        DirectParked(b, k);
        SettleKeepsLeave(Direct(b, k), m);
      }
    case MemberUp(name) =>
      SettleKeepsLeave(if name in b.members then b else b.(members := b.members[name := Member(None, {})]), m);
    case MemberDown(name) =>
  }

  /** A leave that was ever parked stays parked: whatever happens later, it is never carried out. */
  lemma {:induction false} ParkedLeaveStays(os: seq<Occasion>, k: nat, m: Msg)
    requires k <= |os| && !Run(os).Panicked? && !Run(os[..k]).Panicked?
    requires m.LeaveAgreement? && m in Run(os[..k]).book.intents
    ensures m in Run(os).book.intents
    decreases |os|
  {
    if k == |os| {
      assert os[..k] == os;
    } else {
      var init := os[..|os| - 1];
      assert os[..k] == init[..k];
      assert !Run(init).Panicked?;
      ParkedLeaveStays(init, k, m);
      if Run(init).Done? {
        ApplyKeepsLeave(Run(init).book, os[|os| - 1], m);
      }
    }
  }

  /** The exact condition: processIntents spins if and only if some parked join will be refused,
      as computed from the book on entry. */
  lemma {:induction false} SpinsIff(b: Book)
    requires NoRemovalParked(b)
    ensures Settle(b).Spinning? <==> WillSpin(b)
    decreases |b.intents|
  {
    var q := SweepBy(b, 0);
    assert PASSES[0] == AddPlugins && PASSES[1] == RemovePlugins && PASSES[2] == AddAgreements
        && PASSES[4] == Joins && PASSES[5] == Leaves;
    if q > 2 {
      QuietNames(b);
    }
    if q > 4 {
      QuietJoins(b);
      LeavePassNeverFires(b);
    }
    if q < |PASSES| {
      var i := FirstHit(b, PASSES[q], 0);
      if q == 4 {
        JoinFiringKeeps(b, i);
      } else {
        OtherFiringKeeps(b, PASSES[q], i);
      }
      if SweepFrom(b, 0).Fired? {
        FiringFrame(b, PASSES[q], i);
        SpinsIff(SweepFrom(b, 0).book);
      }
    }
  }

  // ---- Histories ----

  lemma {:induction false} SettleParksNothing(b: Book)
    requires Valid(b)
    ensures forall m | m in Settle(b).book.intents :: m in b.intents
    decreases |b.intents|
  {
    if SweepFrom(b, 0).Fired? {
      var q := SweepBy(b, 0);
      var i := FirstHit(b, PASSES[q], 0);
      assert forall m | m in RemoveAt(b.intents, i) :: m in b.intents;
      SettleParksNothing(SweepFrom(b, 0).book);
    }
  }

  /** Only accepted messages are ever parked, and never the removal of an agreement. */
  lemma {:induction false} RunParks(os: seq<Occasion>)
    requires !Run(os).Panicked?
    ensures forall m | m in Run(os).book.intents :: Parks(m) && m in Messages(os)
    ensures NoRemovalParked(Run(os).book)
  {
    if os != [] {
      var init, o := os[..|os| - 1], os[|os| - 1];
      RunParks(init);
      if Run(init).Done? {
        var b := Run(init).book;
        match o
        case Accept(m) =>
          if TakesEffect(b, m) {
            DirectValid(b, m);
            SettleParksNothing(Direct(b, m));
          }
        case MemberUp(name) =>
          SettleParksNothing(if name in b.members then b else b.(members := b.members[name := Member(None, {})]));
        case MemberDown(name) =>
      }
    }
    ParkableOnly(Run(os).book);
  }

  /** After any history, a message that can not take effect is parked behind the others, unless it removes
      an agreement or is about running tasks; then it is dropped. Nothing else changes. */
  lemma {:induction false} IneffectiveParkedIff(os: seq<Occasion>, m: Msg)
    requires Run(os).Done? && !TakesEffect(Run(os).book, m)
    ensures var b := Run(os).book;
      Run(os + [Accept(m)]) == Done(b.(intents := b.intents +
        if m.RemoveAgreement? || m.StartTask? || m.StopTask? || m.TaskStateQuery? then [] else [m]))
  {
    var b := Run(os).book;
    assert (os + [Accept(m)])[..|os|] == os;
    assert b.intents + [] == b.intents && b.(intents := b.intents) == b;
  }

  lemma {:induction false} ParkableOnly(b: Book)
    requires Valid(b) && forall m | m in b.intents :: Parks(m)
    ensures NoRemovalParked(b)
  {
    forall i | 0 <= i < |b.intents| ensures !b.intents[i].RemoveAgreement? {
      assert b.intents[i] in b.intents;
    }
  }

  /** The book on which a handler calls processIntents, if it does. */
  function Retried(b: Book, o: Occasion): Option<Book>
    requires Valid(b)
  {
    match o
    case Accept(m) => if TakesEffect(b, m) then Some(Direct(b, m)) else None
    case MemberUp(name) => Some(if name in b.members then b else b.(members := b.members[name := Member(None, {})]))
    case MemberDown(_) => None
  }

  lemma {:induction false} RetriedParksNothing(b: Book, o: Occasion)
    requires Valid(b) && Retried(b, o).Some?
    ensures Valid(Retried(b, o).value) && Retried(b, o).value.intents == b.intents
    ensures Apply(b, o) == Settle(Retried(b, o).value)
  {
    if o.Accept? {
      DirectValid(b, o.m);
    }
  }

  lemma {:induction false} ApplyHangsIff(b: Book, o: Occasion)
    requires NoRemovalParked(b)
    ensures Retried(b, o).Some? ==> Valid(Retried(b, o).value)
    ensures Apply(b, o).Spinning? <==> Retried(b, o).Some? && WillSpin(Retried(b, o).value)
  {
    if Retried(b, o).Some? {
      RetriedParksNothing(b, o);
      SpinsIff(Retried(b, o).value);
    }
  }

  /** After any history, the next handler hangs if and only if it retries a book on which some
      parked join will be refused. */
  lemma {:induction false} HandlerHangsIff(os: seq<Occasion>, o: Occasion)
    ensures Run(os).Done? ==>
              var b := Run(os).book;
              && (Retried(b, o).Some? ==> Valid(Retried(b, o).value))
              && (Run(os + [o]).Spinning? <==> Retried(b, o).Some? && WillSpin(Retried(b, o).value))
  {
    if Run(os).Done? {
      var os' := os + [o];
      assert os'[..|os'| - 1] == os && os'[|os'| - 1] == o;
      assert Run(os') == Apply(Run(os).book, o);
      RunParks(os);
      ApplyHangsIff(Run(os).book, o);
    }
  }

  lemma {:induction false} NoJoins(ms: seq<Msg>, known: set<string>, bound: set<string>, rich: iset<string>,
      laden: iset<string>)
    requires forall m | m in ms :: !m.JoinAgreement?
    ensures !SomeJoinRefused(ms, known, bound, rich, laden)
  {
    SkipPrefix(ms, |ms|, known, bound, rich, laden);
  }

  lemma {:induction false} NoJoinParkedNoHang(b: Book, o: Occasion)
    requires NoRemovalParked(b) && forall m | m in b.intents :: !m.JoinAgreement?
    ensures !Apply(b, o).Spinning?
  {
    ApplyHangsIff(b, o);
    if Retried(b, o).Some? {
      var b' := Retried(b, o).value;
      RetriedParksNothing(b, o);
      NoJoins(b'.intents, b'.members.Keys, Names(b'), Rich(b'), Laden(b'));
    }
  }

  /** A history that accepts no join message never hangs. */
  lemma {:induction false} NoJoinNeverHangs(os: seq<Occasion>)
    requires forall m | m in Messages(os) :: !m.JoinAgreement?
    ensures !Run(os).Spinning?
  {
    if os != [] {
      var init := os[..|os| - 1];
      NoJoinNeverHangs(init);
      if Run(init).Done? {
        RunParks(init);
        NoJoinParkedNoHang(Run(init).book, os[|os| - 1]);
      }
    }
  }

  lemma {:induction false} LadenJoinRefused(ms: seq<Msg>, k: nat, known: set<string>, bound: set<string>,
      rich: iset<string>, laden: iset<string>)
    requires k < |ms| && Joinable(ms[k], known, bound) && ms[k].member in laden
    ensures SomeJoinRefused(ms, known, bound, rich, laden)
  {
    if k > 0 {
      var laden' := if Joinable(ms[0], known, bound) && ms[0].agr in rich then laden + iset{ms[0].member} else laden;
      LadenJoinRefused(ms[1..], k - 1, known, bound, rich, laden');
    }
  }

  /** A join parked for a member that will still belong to an agreement with plugins makes every
      later retry hang. */
  lemma {:induction false} LadenJoinHangs(b: Book, k: nat)
    requires NoRemovalParked(b) && k < |b.intents| && b.intents[k].JoinAgreement?
    requires b.intents[k].agr in b.agreements && b.intents[k].member in Laden(b)
    ensures Settle(b).Spinning?
  {
    LadenJoinRefused(b.intents, k, b.members.Keys, Names(b), Rich(b), Laden(b));
    SpinsIff(b);
  }
}
