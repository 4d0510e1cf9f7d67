/** The pool of running instances of one plugin: its growth with subscriptions, its shrinking with
unsubscriptions and the restart of dead instances (control/strategy/pool.go, control/runner.go,
control/subscription_group.go), with least-recently-used, sticky and config-based routing
(control/strategy/lru.go, control/strategy/sticky.go, control/strategy/config_based.go). */
module PluginPool {
  import opened Wrappers
  import Remainders

  const ID_SPACE: nat := 0x1_0000_0000

  /** A running plugin process with the id the pool gave it. */
  datatype Instance = Instance(process: nat, id: nat)

  datatype Routing = LeastRecentlyUsed | StickyRouting | ConfigRouting | UnknownRouting

  /** What a plugin declares about itself; the same for all instances in a pool. */
  datatype Meta = Meta(validType: bool, exclusive: bool, concurrency: int, routing: Routing)

  /** Sticky routing binds tasks to instances; config-based routing binds configurations to them in the
      same way. */
  datatype Strategy =
    | Unset
    | Lru
    | Sticky(bound: map<string, Instance>)
    | ConfigBased(bound: map<string, Instance>)

  predicate Binds(st: Strategy) {
    st.Sticky? || st.ConfigBased?
  }

  datatype Pool = Pool(
    subs: set<string>,
    plugins: map<nat, Instance>,
    pidCounter: nat,
    max: int,
    concurrency: int,
    strategy: Strategy,
    restarts: nat)

  function New(max: int): Pool {
    Pool({}, map[], 0, max, 1, Unset, 0)
  }

  /** Adopting the first instance's declarations, and a new strategy with them. */
  function WithMeta(p: Pool, m: Meta): Pool {
    var q := p.(max := if m.exclusive then 1 else p.max, concurrency := m.concurrency);
    match m.routing
    case LeastRecentlyUsed => q.(strategy := Lru)
    case StickyRouting => q.(strategy := Sticky(map[]), concurrency := 1)
    case ConfigRouting => q.(strategy := ConfigBased(map[]))
    case UnknownRouting => q
  }

  predicate Insertable(p: Pool, m: Meta) {
    m.validType && (p.plugins == map[] ==> !m.routing.UnknownRouting?)
  }

  /** Ids are 32 bits wide. */
  function NextId(pidCounter: nat): nat {
    (pidCounter + 1) % ID_SPACE
  }

  function Inserted(p: Pool, process: nat, m: Meta): Pool {
    if !m.validType then p else
    var q := if p.plugins == map[] then WithMeta(p, m) else p;
    if p.plugins == map[] && m.routing.UnknownRouting? then q else
    var id := NextId(q.pidCounter);
    q.(pidCounter := id, plugins := q.plugins[id := Instance(process, id)])
  }

  predicate Eligible(p: Pool) {
    |p.plugins| < p.max && |p.subs| > p.concurrency * |p.plugins|
  }

  /** Growing by a new instance, if the pool may and the process could be started. */
  function Grown(p: Pool, started: Option<nat>, m: Meta): Pool {
    if Eligible(p) && started.Some? then Inserted(p, started.value, m) else p
  }

  function HitOf(hits: map<Instance, int>, x: Instance): int {
    if x in hits then hits[x] else 0
  }

  /** The first of the instances in `order` no task is bound to. */
  function FirstFree(order: seq<Instance>, bound: map<string, Instance>): Option<Instance>
    decreases |order|
  {
    if order == [] then None
    else if order[0] !in bound.Values then Some(order[0])
    else FirstFree(order[1..], bound)
  }

  /** What sticky routing answers for a task. */
  function StickyChoice(order: seq<Instance>, bound: map<string, Instance>, task: string): Option<Instance> {
    if task in bound then Some(bound[task]) else FirstFree(order, bound)
  }

  function StickySelected(order: seq<Instance>, bound: map<string, Instance>, task: string): map<string, Instance> {
    var x := StickyChoice(order, bound, task);
    if x.Some? then bound[task := x.value] else bound
  }

  /** The position of the first of the least recently hit instances. */
  predicate IsLeastRecent(order: seq<Instance>, hits: map<Instance, int>, i: nat) {
    && i < |order|
    && (forall k :: 0 <= k < |order| ==> HitOf(hits, order[i]) <= HitOf(hits, order[k]))
    && (forall k :: 0 <= k < i ==> HitOf(hits, order[i]) < HitOf(hits, order[k]))
  }

  function LeastRecent(order: seq<Instance>, hits: map<Instance, int>): (i: nat)
    requires order != []
    ensures IsLeastRecent(order, hits, i)
    decreases |order|
  {
    if |order| == 1 then 0 else
    var i := LeastRecent(order[1..], hits);
    if HitOf(hits, order[0]) <= HitOf(hits, order[1..][i]) then 0 else i + 1
  }

  /** The instance SelectAndKill settles on, and the strategy afterwards. */
  function Victim(p: Pool, task: string, order: seq<Instance>, hits: map<Instance, int>): Option<Instance> {
    match p.strategy
    case Unset => None
    case Lru => if order == [] then None else Some(order[LeastRecent(order, hits)])
    case Sticky(bound) => StickyChoice(order, bound, task)
    case ConfigBased(bound) => StickyChoice(order, bound, task)
  }

  function KilledFor(p: Pool, task: string, order: seq<Instance>, hits: map<Instance, int>): Pool {
    var x := Victim(p, task, order, hits);
    if x.None? then p else
    p.(plugins := p.plugins - {x.value.id},
       strategy := if Binds(p.strategy) then p.strategy.(bound := p.strategy.bound - {task}) else p.strategy)
  }

  datatype Event =
    | Subscribe(task: string, started: Option<nat>)
    | Unsubscribe(task: string, order: seq<Instance>, hits: map<Instance, int>)
    | Dead(id: nat, started: Option<nat>)
    | Use(key: string, order: seq<Instance>)        // SelectAP, by task or by configuration

  /** How the pool is configured from outside: the plugin's declarations and the restart limit. */
  datatype Setup = Setup(meta: Meta, maxRestarts: int)

  /** `order` is some iteration order of the pool's instances. */
  predicate Enumerates(order: seq<Instance>, plugins: map<nat, Instance>) {
    (forall x :: x in order ==> x in plugins.Values) && (forall id :: id in plugins ==> plugins[id] in order)
  }

  predicate MayRestart(p: Pool, s: Setup) {
    p.restarts < s.maxRestarts || s.maxRestarts == -1
  }

  predicate Can(p: Pool, e: Event) {
    match e
    case Unsubscribe(_, order, _) => Enumerates(order, p.plugins)
    case Use(_, order) => Enumerates(order, p.plugins)
    case _ => true
  }

  /** Where an event finds the pool when it comes to growing it. */
  function Prepared(p: Pool, e: Event): Pool {
    match e
    case Subscribe(task, _) => p.(subs := p.subs + {task})
    case Unsubscribe(task, _, _) => p.(subs := p.subs - {task})
    case Dead(id, _) => p.(plugins := p.plugins - {id})
    case Use(_, _) => p
  }

  function Next(p: Pool, e: Event, s: Setup): Pool
    requires Can(p, e)
  {
    var q := Prepared(p, e);
    match e
    case Subscribe(_, started) => Grown(q, started, s.meta)
    case Unsubscribe(task, order, hits) =>
      if |q.subs| < |q.plugins| then KilledFor(q, task, order, hits) else q
    case Dead(_, started) =>
      if Restarts(p, e, s) then Grown(q, started, s.meta).(restarts := q.restarts + 1) else q
    case Use(key, order) =>
      if Binds(q.strategy)
      then q.(strategy := q.strategy.(bound := StickySelected(order, q.strategy.bound, key))) else q
  }

  /** The event starts a process. */
  predicate Starts(p: Pool, e: Event, s: Setup)
    requires Can(p, e)
  {
    (e.Subscribe? || (e.Dead? && MayRestart(p, s))) && e.started.Some? && Eligible(Prepared(p, e))
  }

  predicate Restarts(p: Pool, e: Event, s: Setup)
    requires Can(p, e)
  {
    e.Dead? && Starts(p, e, s)
  }

  predicate Runs(p: Pool, es: seq<Event>, s: Setup)
    decreases |es|
  {
    es == [] || (Can(p, es[0]) && Runs(Next(p, es[0], s), es[1..], s))
  }

  function After(p: Pool, es: seq<Event>, s: Setup): Pool
    requires Runs(p, es, s)
    decreases |es|
  {
    if es == [] then p else After(Next(p, es[0], s), es[1..], s)
  }

  // Every run keeps the bounds.

  /** Each instance in the pool is filed under the id it was given. */
  predicate Filed(p: Pool) {
    forall id :: id in p.plugins ==> p.plugins[id].id == id
  }

  predicate Bounded(p: Pool, s: Setup, max: int) {
    && Filed(p)
    && |p.plugins| <= |p.subs|
    && (p.plugins == map[] || |p.plugins| <= p.max)
    && p.max <= max
    && (s.meta.exclusive && p.plugins != map[] ==> p.max == 1)
    && p.concurrency >= 1
    && (p.plugins == map[] || p.strategy.Lru?)
    && (s.maxRestarts == -1 || p.restarts == 0 || p.restarts <= s.maxRestarts)
  }

  lemma {:induction false} OneMore(m: map<nat, Instance>, id: nat, a: Instance)
    ensures |m[id := a]| <= |m| + 1
  {
    assert m[id := a].Keys == m.Keys + {id};
  }

  lemma {:induction false} OneLess(m: map<nat, Instance>, id: nat)
    ensures |m - {id}| == if id in m then |m| - 1 else |m|
  {
    assert (m - {id}).Keys == m.Keys - {id};
  }

  /** Growing keeps the bounds, for plugins routed by recent use that serve at least one task each. */
  lemma {:induction false} GrownBounded(p: Pool, started: Option<nat>, s: Setup, max: int)
    requires Bounded(p, s, max) && s.meta.routing.LeastRecentlyUsed? && s.meta.concurrency >= 1
    ensures Bounded(Grown(p, started, s.meta), s, max)
  {
    if Eligible(p) && started.Some? && s.meta.validType {
      OneMore(p.plugins, NextId(p.pidCounter), Instance(started.value, NextId(p.pidCounter)));
      assert p.concurrency * |p.plugins| >= |p.plugins|;
    }
  }

  /** Routing by recent use always finds an instance to kill in a pool that has one. */
  lemma {:induction false} LruKills(p: Pool, task: string, order: seq<Instance>, hits: map<Instance, int>)
    requires Filed(p) && p.strategy.Lru? && p.plugins != map[] && Enumerates(order, p.plugins)
    ensures var q := KilledFor(p, task, order, hits);
      q == p.(plugins := q.plugins) && |q.plugins| == |p.plugins| - 1 && Filed(q)
  {
    var id :| id in p.plugins;
    assert p.plugins[id] in order;
    var x := order[LeastRecent(order, hits)];
    assert x in order;
    OneLess(p.plugins, x.id);
  }

  lemma {:induction false} KilledBounded(p: Pool, e: Event, s: Setup, max: int)
    requires Bounded(p, s, max) && e.Unsubscribe? && Can(p, e)
    ensures Bounded(Next(p, e, s), s, max)
  {
    OneTaskLess(p.subs, e.task);
    if |p.subs - {e.task}| < |p.plugins| {
      LruKills(Prepared(p, e), e.task, e.order, e.hits);
    }
  }

  lemma {:induction false} SubsetSize(a: set<string>, b: set<string>)
    requires a <= b
    ensures |a| <= |b|
  {
    if a != {} {
      var x :| x in a;
      SubsetSize(a - {x}, b - {x});
    }
  }

  lemma {:induction false} OneTaskLess(subs: set<string>, task: string)
    ensures |subs| - 1 <= |subs - {task}| <= |subs|
  {
    SubsetSize(subs - {task}, subs);
    SubsetSize(subs, (subs - {task}) + {task});
  }

  lemma {:induction false} NextBounded(p: Pool, e: Event, s: Setup, max: int)
    requires Bounded(p, s, max) && Can(p, e)
    requires s.meta.routing.LeastRecentlyUsed? && s.meta.concurrency >= 1
    ensures Bounded(Next(p, e, s), s, max)
  {
    match e
    case Subscribe(_, _) => SubscribeBounded(p, e, s, max);
    case Unsubscribe(_, _, _) => KilledBounded(p, e, s, max);
    case Dead(_, _) => DeadBounded(p, e, s, max);
    case Use(_, _) =>
  }

  lemma {:induction false} SubscribeBounded(p: Pool, e: Event, s: Setup, max: int)
    requires Bounded(p, s, max) && Can(p, e) && e.Subscribe?
    requires s.meta.routing.LeastRecentlyUsed? && s.meta.concurrency >= 1
    ensures Bounded(Next(p, e, s), s, max)
  {
    SubsetSize(p.subs, p.subs + {e.task});
    GrownBounded(Prepared(p, e), e.started, s, max);
  }

  lemma {:induction false} DeadBounded(p: Pool, e: Event, s: Setup, max: int)
    requires Bounded(p, s, max) && Can(p, e) && e.Dead?
    requires s.meta.routing.LeastRecentlyUsed? && s.meta.concurrency >= 1
    ensures Bounded(Next(p, e, s), s, max)
  {
    var q := Prepared(p, e);
    OneLess(p.plugins, e.id);
    assert Bounded(q, s, max);
    GrownBounded(q, e.started, s, max);
  }

  lemma {:induction false} RunBounded(p: Pool, es: seq<Event>, s: Setup, max: int)
    requires Bounded(p, s, max) && Runs(p, es, s)
    requires s.meta.routing.LeastRecentlyUsed? && s.meta.concurrency >= 1
    ensures Bounded(After(p, es, s), s, max)
    decreases |es|
  {
    if es != [] {
      NextBounded(p, es[0], s, max);
      RunBounded(Next(p, es[0], s), es[1..], s, max);
    }
  }

  /** In every run of a pool routed by recent use: no more instances than the limit, than one if the
      plugin is exclusive, and than subscriptions; no more restarts than allowed. */
  lemma {:induction false} PoolBounds(max: nat, es: seq<Event>, s: Setup)
    requires Runs(New(max), es, s)
    requires s.meta.routing.LeastRecentlyUsed? && s.meta.concurrency >= 1
    ensures var p := After(New(max), es, s);
      && |p.plugins| <= max
      && (s.meta.exclusive ==> |p.plugins| <= 1)
      && |p.plugins| <= |p.subs|
      && (s.maxRestarts != -1 ==> p.restarts == 0 || p.restarts <= s.maxRestarts)
  {
    RunBounded(New(max), es, s, max);
  }

  // Ids.

  predicate Issues(p: Pool, e: Event, s: Setup)
    requires Can(p, e)
  {
    Starts(p, e, s) && Insertable(Prepared(p, e), s.meta)
  }

  /** The ids given out in a run, in order. */
  function Issued(p: Pool, es: seq<Event>, s: Setup): seq<nat>
    requires Runs(p, es, s)
    decreases |es|
  {
    if es == [] then [] else
    var q := Next(p, es[0], s);
    (if Issues(p, es[0], s) then [q.pidCounter] else []) + Issued(q, es[1..], s)
  }

  lemma {:induction false} GrownCounts(p: Pool, started: Option<nat>, m: Meta)
    ensures Grown(p, started, m).pidCounter ==
      if started.Some? && Eligible(p) && Insertable(p, m) then NextId(p.pidCounter) else p.pidCounter
  {
  }

  /** The counter moves exactly with the ids given out. */
  lemma {:induction false} NextCounts(p: Pool, e: Event, s: Setup)
    requires Can(p, e)
    ensures Next(p, e, s).pidCounter == if Issues(p, e, s) then NextId(p.pidCounter) else p.pidCounter
  {
    if e.Subscribe? || e.Dead? {
      GrownCounts(Prepared(p, e), e.started, s.meta);
    }
  }

  /** The ids that follow a value of the counter. */
  function Following(pid: nat, n: nat): seq<nat>
    decreases n
  {
    if n == 0 then [] else [NextId(pid)] + Following(NextId(pid), n - 1)
  }

  lemma {:induction false} IssuedFollow(p: Pool, es: seq<Event>, s: Setup)
    requires Runs(p, es, s)
    ensures Issued(p, es, s) == Following(p.pidCounter, |Issued(p, es, s)|)
    decreases |es|
  {
    if es != [] {
      NextCounts(p, es[0], s);
      IssuedFollow(Next(p, es[0], s), es[1..], s);
    }
  }

  lemma {:induction false} WrapOnce(x: int, k: int, n: nat)
    requires n > 0
    ensures (x % n + k) % n == (x + k) % n
  {
    assert x == n * (x / n) + x % n;
    Remainders.AddMultiple(x % n + k, n, x / n);
  }

  lemma {:induction false} SameRemainderIff(x: int, y: int, n: nat)
    requires n > 0
    ensures x % n == y % n <==> (y - x) % n == 0
  {
    if x % n == y % n {
      MultipleApart(n, x / n, y / n, x % n);
      Remainders.QuotientUnique(y - x, n, y / n - x / n, 0);
    }
    if (y - x) % n == 0 {
      Remainders.AddMultiple(x, n, (y - x) / n);
    }
  }

  lemma {:induction false} MultipleApart(n: int, q: int, q': int, r: int)
    ensures (n * q' + r) - (n * q + r) == n * (q' - q)
  {
  }

  lemma {:induction false} FollowingAt(pid: nat, n: nat, i: nat)
    requires i < n
    ensures |Following(pid, n)| == n && Following(pid, n)[i] == (pid + 1 + i) % ID_SPACE
    decreases n
  {
    if i > 0 {
      FollowingAt(NextId(pid), n - 1, i - 1);
      WrapOnce(pid + 1, i, ID_SPACE);
    } else if n > 1 {
      FollowingAt(NextId(pid), n - 1, 0);
    }
  }

  lemma {:induction false} FollowingRepeatsIff(pid: nat, n: nat, i: nat, j: nat)
    requires i <= j < n
    ensures |Following(pid, n)| == n
    ensures Following(pid, n)[i] == Following(pid, n)[j] <==> (j - i) % ID_SPACE == 0
  {
    FollowingAt(pid, n, i);
    FollowingAt(pid, n, j);
    SameRemainderIff(pid + 1 + i, pid + 1 + j, ID_SPACE);
  }

  /** An id is given out again exactly after a multiple of 2^32 ids. */
  lemma {:induction false} IdReusedIff(p: Pool, es: seq<Event>, s: Setup, i: nat, j: nat)
    requires Runs(p, es, s) && i <= j < |Issued(p, es, s)|
    ensures Issued(p, es, s)[i] == Issued(p, es, s)[j] <==> (j - i) % ID_SPACE == 0
  {
    var ids := Issued(p, es, s);
    IssuedFollow(p, es, s);
    FollowingRepeatsIff(p.pidCounter, |ids|, i, j);
  }

  // Sticky routing.

  predicate Injective(bound: map<string, Instance>) {
    forall t, u :: t in bound && u in bound && bound[t] == bound[u] ==> t == u
  }

  /** The instances tasks are bound to. */
  function Bound(p: Pool): map<string, Instance> {
    if Binds(p.strategy) then p.strategy.bound else map[]
  }

  lemma {:induction false} FirstFreeIs(order: seq<Instance>, bound: map<string, Instance>)
    ensures var x := FirstFree(order, bound);
      if x.Some? then x.value in order && x.value !in bound.Values
      else forall y :: y in order ==> y in bound.Values
    decreases |order|
  {
    if order != [] {
      FirstFreeIs(order[1..], bound);
    }
  }

  lemma {:induction false} SelectedInjective(order: seq<Instance>, bound: map<string, Instance>, task: string)
    requires Injective(bound)
    ensures Injective(StickySelected(order, bound, task))
  {
    FirstFreeIs(order, bound);
    forall t | t in bound
      ensures bound[t] in bound.Values
    {
    }
  }

  lemma {:induction false} GrownBinds(p: Pool, started: Option<nat>, m: Meta)
    ensures Bound(Grown(p, started, m)) ==
      if started.Some? && Eligible(p) && Insertable(p, m) && p.plugins == map[] then map[] else Bound(p)
  {
  }

  /** No two tasks are ever bound to one instance. */
  lemma {:induction false} NextInjective(p: Pool, e: Event, s: Setup)
    requires Can(p, e) && Injective(Bound(p))
    ensures Injective(Bound(Next(p, e, s)))
  {
    match e
    case Subscribe(_, started) => GrownBinds(Prepared(p, e), started, s.meta);
    case Dead(_, started) => GrownBinds(Prepared(p, e), started, s.meta);
    case Unsubscribe(_, _, _) =>
    case Use(key, order) =>
      if Binds(p.strategy) {
        SelectedInjective(order, p.strategy.bound, key);
      }
  }

  lemma {:induction false} RunInjective(p: Pool, es: seq<Event>, s: Setup)
    requires Runs(p, es, s) && Injective(Bound(p))
    ensures Injective(Bound(After(p, es, s)))
    decreases |es|
  {
    if es != [] {
      NextInjective(p, es[0], s);
      RunInjective(Next(p, es[0], s), es[1..], s);
    }
  }

  /** An unsubscription that ends in a kill takes the task's binding with it. */
  predicate Releases(p: Pool, e: Event, task: string) {
    e.Unsubscribe? && e.task == task && |p.subs - {task}| < |p.plugins|
  }

  /** An instance started in an empty pool brings a new strategy. */
  predicate Renews(p: Pool, e: Event, s: Setup)
    requires Can(p, e)
  {
    Issues(p, e, s) && Prepared(p, e).plugins == map[]
  }

  predicate StillBound(p: Pool, q: Pool, task: string) {
    task in Bound(p) && task in Bound(q) && Bound(q)[task] == Bound(p)[task]
  }

  /** A task keeps its instance, dead or alive, exactly until one of the two. */
  lemma {:induction false} KeepsInstanceIff(p: Pool, e: Event, s: Setup, task: string)
    requires Can(p, e) && task in Bound(p)
    ensures StillBound(p, Next(p, e, s), task) <==> !Releases(p, e, task) && !Renews(p, e, s)
  {
    match e
    case Subscribe(_, started) => GrownBinds(Prepared(p, e), started, s.meta);
    case Dead(_, started) => GrownBinds(Prepared(p, e), started, s.meta);
    case Unsubscribe(_, order, hits) => ReleaseIff(p, e, s, task);
    case Use(_, _) => UseKeeps(p, e, s, task);
  }

  lemma {:induction false} UseKeeps(p: Pool, e: Event, s: Setup, task: string)
    requires Can(p, e) && task in Bound(p) && e.Use?
    ensures StillBound(p, Next(p, e, s), task)
  {
  }

  lemma {:induction false} ReleaseIff(p: Pool, e: Event, s: Setup, task: string)
    requires Can(p, e) && task in Bound(p) && e.Unsubscribe?
    ensures StillBound(p, Next(p, e, s), task) <==> !Releases(p, e, task)
  {
  }

  predicate Undisturbed(p: Pool, es: seq<Event>, s: Setup, task: string)
    requires Runs(p, es, s)
    decreases |es|
  {
    es == [] || (!Releases(p, es[0], task) && !Renews(p, es[0], s) && Undisturbed(Next(p, es[0], s), es[1..], s, task))
  }

  lemma {:induction false} KeepsInstanceThroughout(p: Pool, es: seq<Event>, s: Setup, task: string)
    requires Runs(p, es, s) && task in Bound(p) && Undisturbed(p, es, s, task)
    ensures StillBound(p, After(p, es, s), task)
    decreases |es|
  {
    if es != [] {
      KeepsInstanceIff(p, es[0], s, task);
      KeepsInstanceThroughout(Next(p, es[0], s), es[1..], s, task);
    }
  }

  predicate Here(p: Pool, x: Instance) {
    x.id in p.plugins && p.plugins[x.id] == x
  }

  /** Every bound instance is in the pool, and every id in use has been given out by the counter. */
  predicate AllHere(p: Pool) {
    && Filed(p)
    && Injective(Bound(p))
    && (forall t :: t in Bound(p) ==> Here(p, Bound(p)[t]))
    && (forall id :: id in p.plugins ==> id <= p.pidCounter)
  }

  lemma {:induction false} GrownHere(p: Pool, started: Option<nat>, m: Meta)
    requires AllHere(p)
    requires started.Some? && Eligible(p) && Insertable(p, m) ==> p.pidCounter + 1 < ID_SPACE
    ensures AllHere(Grown(p, started, m))
  {
  }

  lemma {:induction false} KilledHere(p: Pool, task: string, order: seq<Instance>, hits: map<Instance, int>)
    requires AllHere(p) && Enumerates(order, p.plugins)
    ensures AllHere(KilledFor(p, task, order, hits))
  {
    if Binds(p.strategy) {
      FirstFreeIs(order, p.strategy.bound);
      forall t | t in Bound(p)
        ensures Bound(p)[t] in p.strategy.bound.Values
      {
      }
    }
  }

  lemma {:induction false} SelectedHere(p: Pool, e: Event, s: Setup)
    requires AllHere(p) && Can(p, e) && e.Use?
    ensures AllHere(Next(p, e, s))
  {
    if Binds(p.strategy) {
      SelectedInjective(e.order, p.strategy.bound, e.key);
      FirstFreeIs(e.order, p.strategy.bound);
    }
  }

  /** Unless an instance dies or the ids run out, tasks are bound to instances in the pool. */
  lemma {:induction false} NextHere(p: Pool, e: Event, s: Setup)
    requires AllHere(p) && Can(p, e) && !e.Dead?
    requires Issues(p, e, s) ==> p.pidCounter + 1 < ID_SPACE
    ensures AllHere(Next(p, e, s))
  {
    match e
    case Subscribe(_, started) => GrownHere(Prepared(p, e), started, s.meta);
    case Unsubscribe(task, order, hits) => KilledHere(Prepared(p, e), task, order, hits);
    case Use(_, _) => SelectedHere(p, e, s);
  }

  /** The event is the death of an instance something is bound to, and no new strategy comes with it. */
  predicate Bereaves(p: Pool, e: Event, s: Setup)
    requires Can(p, e)
  {
    e.Dead? && !Renews(p, e, s) && exists t :: t in Bound(p) && Bound(p)[t].id == e.id
  }

  /** A task whose instance died stays bound to it although it is no longer in the pool. */
  lemma {:induction false} DeadStaysBound(p: Pool, e: Event, s: Setup, task: string)
    requires Can(p, e) && e.Dead? && !Renews(p, e, s)
    requires Filed(p) && task in Bound(p) && e.id == Bound(p)[task].id <= p.pidCounter
    requires Issues(p, e, s) ==> p.pidCounter + 1 < ID_SPACE
    ensures StillBound(p, Next(p, e, s), task) && !Here(Next(p, e, s), Bound(p)[task])
  {
    KeepsInstanceIff(p, e, s, task);
  }

  lemma {:induction false} RemovedHere(p: Pool, id: nat)
    requires AllHere(p) && forall t :: t in Bound(p) ==> Bound(p)[t].id != id
    ensures AllHere(p.(plugins := p.plugins - {id}))
  {
    var q := p.(plugins := p.plugins - {id});
    forall t | t in Bound(q)
      ensures Here(q, Bound(q)[t])
    {
      assert Here(p, Bound(p)[t]);
    }
  }

  /** A new strategy binds nothing yet. */
  lemma {:induction false} RenewedHere(p: Pool, started: Option<nat>, m: Meta)
    requires started.Some? && Eligible(p) && Insertable(p, m) && p.plugins == map[]
    ensures AllHere(Grown(p, started, m))
  {
    GrownBinds(p, started, m);
  }

  lemma {:induction false} RestartsKeepHere(p: Pool, n: nat)
    requires AllHere(p)
    ensures AllHere(p.(restarts := n))
  {
  }

  lemma {:induction false} DeathHere(p: Pool, e: Event, s: Setup)
    requires AllHere(p) && Can(p, e) && e.Dead? && !Bereaves(p, e, s)
    requires Issues(p, e, s) ==> p.pidCounter + 1 < ID_SPACE
    ensures AllHere(Next(p, e, s))
  {
    var q := Prepared(p, e);
    if Renews(p, e, s) {
      RenewedHere(q, e.started, s.meta);
    } else {
      RemovedHere(p, e.id);
      if Starts(p, e, s) {
        GrownHere(q, e.started, s.meta);
      }
    }
    if Starts(p, e, s) {
      RestartsKeepHere(Grown(q, e.started, s.meta), q.restarts + 1);
    }
  }

  /** Exactly when a step keeps every bound instance in the pool, while ids are left. */
  lemma {:induction false} HereIff(p: Pool, e: Event, s: Setup)
    requires AllHere(p) && Can(p, e)
    requires Issues(p, e, s) ==> p.pidCounter + 1 < ID_SPACE
    ensures AllHere(Next(p, e, s)) <==> !Bereaves(p, e, s)
  {
    if Bereaves(p, e, s) {
      var t :| t in Bound(p) && Bound(p)[t].id == e.id;
      assert Here(p, Bound(p)[t]);
      DeadStaysBound(p, e, s, t);
      assert !Here(Next(p, e, s), Bound(Next(p, e, s))[t]);
    } else if e.Dead? {
      DeathHere(p, e, s);
    } else {
      NextHere(p, e, s);
    }
  }

  lemma {:induction false} NoWrapYet(pid: nat)
    requires pid + 1 < ID_SPACE
    ensures NextId(pid) == pid + 1
  {
  }

  /** Ids left for a run are left for its first step and, after it, for the rest. */
  lemma {:induction false} IdsLeft(p: Pool, es: seq<Event>, s: Setup)
    requires Runs(p, es, s) && es != [] && p.pidCounter + |Issued(p, es, s)| < ID_SPACE
    ensures Issues(p, es[0], s) ==> p.pidCounter + 1 < ID_SPACE
    ensures Next(p, es[0], s).pidCounter + |Issued(Next(p, es[0], s), es[1..], s)| < ID_SPACE
  {
    NextCounts(p, es[0], s);
    if Issues(p, es[0], s) {
      NoWrapYet(p.pidCounter);
    }
  }

  /** Every bound instance is in the pool at all times of the run. */
  predicate AlwaysHere(p: Pool, es: seq<Event>, s: Setup)
    requires Runs(p, es, s)
    decreases |es|
  {
    AllHere(p) && (es == [] || AlwaysHere(Next(p, es[0], s), es[1..], s))
  }

  predicate NeverBereaved(p: Pool, es: seq<Event>, s: Setup)
    requires Runs(p, es, s)
    decreases |es|
  {
    es == [] || (!Bereaves(p, es[0], s) && NeverBereaved(Next(p, es[0], s), es[1..], s))
  }

  /** In every run that does not use up the ids: bound instances are in the pool throughout exactly if
      none of them dies, unless its death brings a new strategy. Deaths of other instances do no harm. */
  lemma {:induction false} AlwaysHereIff(p: Pool, es: seq<Event>, s: Setup)
    requires Runs(p, es, s)
    ensures AllHere(p) && p.pidCounter + |Issued(p, es, s)| < ID_SPACE ==>
              (AlwaysHere(p, es, s) <==> NeverBereaved(p, es, s))
    decreases |es|
  {
    if es != [] && AllHere(p) && p.pidCounter + |Issued(p, es, s)| < ID_SPACE {
      IdsLeft(p, es, s);
      HereIff(p, es[0], s);
      if !Bereaves(p, es[0], s) {
        AlwaysHereIff(Next(p, es[0], s), es[1..], s);
      }
    }
  }

  predicate NobodyDies(es: seq<Event>) {
    forall e :: e in es ==> !e.Dead?
  }

  lemma {:induction false} NobodyBereaved(p: Pool, es: seq<Event>, s: Setup)
    requires Runs(p, es, s) && NobodyDies(es)
    ensures NeverBereaved(p, es, s)
    decreases |es|
  {
    if es != [] {
      assert es[0] in es;
      NobodyBereaved(Next(p, es[0], s), es[1..], s);
    }
  }

  /** In particular in every run that removes instances only through SelectAndKill. */
  lemma {:induction false} BoundInPool(max: int, es: seq<Event>, s: Setup)
    requires Runs(New(max), es, s) && NobodyDies(es)
    requires |Issued(New(max), es, s)| < ID_SPACE
    ensures AlwaysHere(New(max), es, s)
  {
    NobodyBereaved(New(max), es, s);
    AlwaysHereIff(New(max), es, s);
  }

  /** Nobody unsubscribes under the given name. */
  predicate NeverNamed(es: seq<Event>, key: string) {
    forall e :: e in es ==> !(e.Unsubscribe? && e.task == key)
  }

  /** What is bound under a name that no task has stays bound and stays in the pool, whoever unsubscribes,
      until it dies. Unsubscriptions go by task, and config-based routing binds by configuration: no
      unsubscription ever releases an instance that was used under it. */
  lemma {:induction false} OutlivesSubscriptions(p: Pool, es: seq<Event>, s: Setup, key: string)
    requires Runs(p, es, s) && AllHere(p) && key in Bound(p) && NobodyDies(es) && NeverNamed(es, key)
    requires p.pidCounter + |Issued(p, es, s)| < ID_SPACE
    ensures StillBound(p, After(p, es, s), key) && Here(After(p, es, s), Bound(p)[key])
    decreases |es|
  {
    assert Here(p, Bound(p)[key]);
    if es != [] {
      assert es[0] in es;
      IdsLeft(p, es, s);
      HereIff(p, es[0], s);
      KeepsInstanceIff(p, es[0], s, key);
      OutlivesSubscriptions(Next(p, es[0], s), es[1..], s, key);
    }
  }

  /** No unsubscription of the task removes anything: it is bound to an instance that is gone, or it is
      not bound and every instance is. */
  predicate Stuck(p: Pool, task: string) {
    if task in Bound(p) then Bound(p)[task].id !in p.plugins
    else forall id :: id in p.plugins ==> p.plugins[id] in Bound(p).Values
  }

  /** With sticky or config-based routing an unsubscription keeps instances within subscriptions
      exactly if it need not remove an instance or the task is not stuck. */
  lemma {:induction false} StickyShrinksIff(p: Pool, e: Event, s: Setup)
    requires Filed(p) && Binds(p.strategy) && Can(p, e) && e.Unsubscribe? && |p.plugins| <= |p.subs|
    ensures var q := Next(p, e, s);
      |q.plugins| <= |q.subs| <==> !(|p.subs - {e.task}| < |p.plugins| && Stuck(p, e.task))
  {
    OneTaskLess(p.subs, e.task);
    FirstFreeIs(e.order, Bound(p));
    var x := StickyChoice(e.order, Bound(p), e.task);
    if x.Some? {
      OneLess(p.plugins, x.value.id);
    }
  }

  predicate Outgrows(p: Pool, e: Event) {
    e.Unsubscribe? && |p.subs - {e.task}| < |p.plugins| && Stuck(p, e.task)
  }

  /** No more instances than subscriptions, in a pool whose strategy binds. */
  predicate Fits(p: Pool) {
    && Filed(p)
    && |p.plugins| <= |p.subs|
    && p.concurrency >= 1
    && (p.plugins == map[] || Binds(p.strategy))
  }

  predicate BindingSetup(s: Setup) {
    s.meta.routing.StickyRouting? || (s.meta.routing.ConfigRouting? && s.meta.concurrency >= 1)
  }

  lemma {:induction false} GrownFits(p: Pool, started: Option<nat>, s: Setup)
    requires Fits(p) && BindingSetup(s)
    ensures Fits(Grown(p, started, s.meta))
  {
    if Eligible(p) && started.Some? && s.meta.validType {
      OneMore(p.plugins, NextId(p.pidCounter), Instance(started.value, NextId(p.pidCounter)));
      assert p.concurrency * |p.plugins| >= |p.plugins|;
    }
  }

  lemma {:induction false} KilledKeeps(p: Pool, e: Event, s: Setup)
    requires Filed(p) && Can(p, e) && e.Unsubscribe?
    ensures var q := Next(p, e, s);
      Filed(q) && q.plugins.Keys <= p.plugins.Keys && q.concurrency == p.concurrency
      && (Binds(q.strategy) <==> Binds(p.strategy))
  {
  }

  lemma {:induction false} ShrinksFit(p: Pool, e: Event, s: Setup)
    requires Fits(p) && Can(p, e) && e.Unsubscribe?
    ensures Fits(Next(p, e, s)) <==> !Outgrows(p, e)
  {
    KilledKeeps(p, e, s);
    if p.plugins != map[] {
      StickyShrinksIff(p, e, s);
    }
  }

  /** With sticky or config-based routing a step keeps the pool fitting exactly if it is not such an
      unsubscription. */
  lemma {:induction false} FitsIff(p: Pool, e: Event, s: Setup)
    requires Fits(p) && BindingSetup(s) && Can(p, e)
    ensures Fits(Next(p, e, s)) <==> !Outgrows(p, e)
  {
    match e
    case Subscribe(task, started) =>
      SubsetSize(p.subs, p.subs + {task});
      GrownFits(Prepared(p, e), started, s);
    case Unsubscribe(_, _, _) => ShrinksFit(p, e, s);
    case Dead(id, started) =>
      OneLess(p.plugins, id);
      GrownFits(Prepared(p, e), started, s);
    case Use(_, _) =>
  }

  predicate AlwaysFits(p: Pool, es: seq<Event>, s: Setup)
    requires Runs(p, es, s)
    decreases |es|
  {
    Fits(p) && (es == [] || AlwaysFits(Next(p, es[0], s), es[1..], s))
  }

  predicate NeverOutgrows(p: Pool, es: seq<Event>, s: Setup)
    requires Runs(p, es, s)
    decreases |es|
  {
    es == [] || (!Outgrows(p, es[0]) && NeverOutgrows(Next(p, es[0], s), es[1..], s))
  }

  /** In every run with such routing, instances stay within subscriptions throughout exactly if no
      unsubscription that would have to shrink the pool is stuck. */
  lemma {:induction false} AlwaysFitsIff(p: Pool, es: seq<Event>, s: Setup)
    requires Fits(p) && BindingSetup(s) && Runs(p, es, s)
    ensures AlwaysFits(p, es, s) <==> NeverOutgrows(p, es, s)
    decreases |es|
  {
    if es != [] {
      FitsIff(p, es[0], s);
      if !Outgrows(p, es[0]) {
        AlwaysFitsIff(Next(p, es[0], s), es[1..], s);
      }
    }
  }

  // The pool grows when, and only when, it has to.

  /** Only subscriptions, and every process asked for can be started. */
  predicate OnlySubscribes(es: seq<Event>) {
    forall e :: e in es ==> e.Subscribe? && e.started.Some?
  }

  /** How many tasks one instance serves. */
  function Serves(m: Meta): int {
    if m.routing.StickyRouting? then 1 else m.concurrency
  }

  /** How many instances the pool may have. */
  function Allowance(max: int, m: Meta): int {
    if max <= 0 then 0 else if m.exclusive then 1 else max
  }

  /** The instances are just enough for the subscriptions, or as many as allowed. */
  predicate JustEnough(p: Pool, s: Setup, max: int) {
    var n := |p.plugins|;
    && n <= Allowance(max, s.meta)
    && (n < Allowance(max, s.meta) ==> |p.subs| <= Serves(s.meta) * n)
    && (n > 0 ==> Serves(s.meta) * (n - 1) < |p.subs|)
  }

  /** A pool that has only ever grown. */
  predicate Growing(p: Pool, s: Setup, max: int) {
    && (forall id :: id in p.plugins ==> id <= p.pidCounter)
    && (if p.plugins == map[] then p.concurrency == 1 && p.max == max
        else p.concurrency == Serves(s.meta) && p.max == Allowance(max, s.meta))
  }

  lemma {:induction false} MoreSubs(subs: set<string>, task: string)
    ensures |subs + {task}| == |subs| + if task in subs then 0 else 1
  {
    if task in subs {
      assert subs + {task} == subs;
    }
  }

  lemma {:induction false} FreshId(p: Pool, a: Instance)
    requires forall id :: id in p.plugins ==> id <= p.pidCounter
    ensures |p.plugins[p.pidCounter + 1 := a]| == |p.plugins| + 1
  {
    assert p.plugins[p.pidCounter + 1 := a].Keys == p.plugins.Keys + {p.pidCounter + 1};
  }

  lemma {:induction false} ServedMore(c: int, n: int)
    ensures c * (n + 1) == c * n + c
  {
  }

  /** One more instance for a subscription too many is just enough again. */
  lemma {:induction false} GrownJustEnough(p: Pool, q: Pool, process: nat, s: Setup, max: int)
    requires Growing(p, s, max) && q == p.(subs := q.subs) && p.pidCounter + 1 < ID_SPACE
    requires s.meta.validType && !s.meta.routing.UnknownRouting? && Serves(s.meta) >= 1
    requires |p.plugins| < Allowance(max, s.meta)
    requires Serves(s.meta) * |p.plugins| < |q.subs| <= Serves(s.meta) * |p.plugins| + 1
    ensures var r := Inserted(q, process, s.meta);
      Growing(r, s, max) && JustEnough(r, s, max) && r.pidCounter == p.pidCounter + 1 && r.subs == q.subs
  {
    ServedMore(Serves(s.meta), |p.plugins|);
    NoWrapYet(p.pidCounter);
    FreshId(p, Instance(process, p.pidCounter + 1));
  }

  /** The pool is found eligible exactly for a subscription that its instances can not serve while one more
      is allowed. */
  lemma {:induction false} EligibleIff(p: Pool, q: Pool, s: Setup, max: int)
    requires Growing(p, s, max) && q == p.(subs := q.subs)
    ensures Eligible(q) <==> |p.plugins| < Allowance(max, s.meta) && Serves(s.meta) * |p.plugins| < |q.subs|
  {
    if p.plugins == map[] {
      assert Serves(s.meta) * |p.plugins| == 0;
    }
  }

  lemma {:induction false} SubscribeGrows(p: Pool, e: Event, s: Setup, max: int)
    requires e.Subscribe? && e.started.Some? && Growing(p, s, max) && JustEnough(p, s, max)
    requires s.meta.validType && !s.meta.routing.UnknownRouting? && Serves(s.meta) >= 1 && p.pidCounter + 1 < ID_SPACE
    ensures var q := Next(p, e, s);
      Growing(q, s, max) && JustEnough(q, s, max) && q.pidCounter <= p.pidCounter + 1 && q.subs == p.subs + {e.task}
  {
    var q := Prepared(p, e);
    MoreSubs(p.subs, e.task);
    EligibleIff(p, q, s, max);
    if Eligible(q) {
      GrownJustEnough(p, q, e.started.value, s, max);
    }
  }

  lemma {:induction false} GrowsOn(p: Pool, es: seq<Event>, s: Setup, max: int)
    requires Runs(p, es, s) && OnlySubscribes(es) && Growing(p, s, max) && JustEnough(p, s, max)
    requires s.meta.validType && !s.meta.routing.UnknownRouting? && Serves(s.meta) >= 1
    requires p.pidCounter + |es| < ID_SPACE
    ensures JustEnough(After(p, es, s), s, max) && After(p, es, s).subs == p.subs + Subscribers(es)
    decreases |es|
  {
    if es != [] {
      assert es[0] in es;
      SubscribeGrows(p, es[0], s, max);
      GrowsOn(Next(p, es[0], s), es[1..], s, max);
      assert p.subs + {es[0].task} + Subscribers(es[1..]) == p.subs + Subscribers(es);
    }
  }

  function Subscribers(es: seq<Event>): set<string>
    requires OnlySubscribes(es)
  {
    if es == [] then {} else assert es[0] in es; {es[0].task} + Subscribers(es[1..])
  }

  /** Over every run of subscriptions to a new pool there are just as many instances as the subscribers
      need, counted by how many one instance serves, up to the allowance. */
  lemma {:induction false} GrowsAsNeeded(max: int, es: seq<Event>, s: Setup)
    requires Runs(New(max), es, s) && OnlySubscribes(es) && |es| < ID_SPACE
    requires s.meta.validType && !s.meta.routing.UnknownRouting? && Serves(s.meta) >= 1
    ensures JustEnough(After(New(max), es, s), s, max) && After(New(max), es, s).subs == Subscribers(es)
  {
    GrowsOn(New(max), es, s, max);
  }

  // The failures are reached from a new pool.

  lemma {:induction false} RunNext(p: Pool, es: seq<Event>, e: Event, s: Setup)
    requires Runs(p, es, s) && Can(After(p, es, s), e)
    ensures Runs(p, es + [e], s) && After(p, es + [e], s) == Next(After(p, es, s), e, s)
    decreases |es|
  {
    if es == [] {
      assert ([] + [e])[1..] == [];
    } else {
      RunNext(Next(p, es[0], s), es[1..], e, s);
      assert (es + [e])[1..] == es[1..] + [e];
    }
  }

  predicate PlainSticky(s: Setup) {
    s.meta.validType && !s.meta.exclusive && s.meta.routing.StickyRouting?
  }

  /** One task, bound to the pool's only instance. */
  lemma {:induction false} FirstBound(max: nat, a: string, s: Setup, x: Instance) returns (es: seq<Event>)
    requires max > 0 && PlainSticky(s) && x.id == 1
    ensures Runs(New(max), es, s)
    ensures After(New(max), es, s) == Pool({a}, map[1 := x], 1, max, 1, Sticky(map[a := x]), 0)
  {
    var p, e1 := New(max), Subscribe(a, Some(x.process));
    RunNext(p, [], e1, s);
    var q := After(p, [] + [e1], s);
    assert q == Pool({a}, map[1 := x], 1, max, 1, Sticky(map[]), 0);
    var e2 := Use(a, [x]);
    assert q.plugins[1] in q.plugins.Values;
    RunNext(p, [] + [e1], e2, s);
    assert FirstFree([x], map[]) == Some(x);
    es := [] + [e1] + [e2];
  }

  /** An instance dies and its task stays bound to it. */
  lemma {:induction false} DeadBoundReached(max: nat, a: string, s: Setup) returns (es: seq<Event>)
    requires max > 0 && PlainSticky(s)
    ensures Runs(New(max), es, s) && !AllHere(After(New(max), es, s))
  {
    var x := Instance(0, 1);
    es := FirstBound(max, a, s, x);
    var p := After(New(max), es, s);
    var e := Dead(1, None);
    assert p.plugins - {1} == map[];
    RunNext(New(max), es, e, s);
    es := es + [e];
    var q := After(New(max), es, s);
    assert Bound(q) == map[a := x] && q.plugins == map[];
    assert Bound(q)[a] == x && !Here(q, x);
  }

  /** A task that cannot be given an instance leaves a stuck pool. */
  lemma {:induction false} StuckLeaves(p: Pool, e: Event, s: Setup)
    requires Can(p, e) && e.Unsubscribe? && Binds(p.strategy) && e.task !in Bound(p) && Stuck(p, e.task)
    ensures Next(p, e, s) == p.(subs := p.subs - {e.task})
  {
    FirstFreeIs(e.order, Bound(p));
  }

  /** A second task is turned away, the bound one leaves without a kill, and then nothing can be picked
      for the second: one instance is left without a subscription. */
  lemma {:induction false} StuckReached(a: string, b: string, s: Setup) returns (es: seq<Event>)
    requires PlainSticky(s) && a != b
    ensures Runs(New(1), es, s)
    ensures After(New(1), es, s).subs == {} && |After(New(1), es, s).plugins| == 1
  {
    var x := Instance(0, 1);
    es := FirstBound(1, a, s, x);
    var p := After(New(1), es, s);
    assert p.plugins[1] in p.plugins.Values && Bound(p)[a] in Bound(p).Values;
    var d, e, f := Subscribe(b, None), Unsubscribe(a, [x], map[]), Unsubscribe(b, [x], map[]);
    RunNext(New(1), es, d, s);
    es := es + [d];
    assert ({a} + {b}) - {a} == {b};
    RunNext(New(1), es, e, s);
    es := es + [e];
    assert {b} - {b} == {};
    StuckLeaves(p.(subs := {b}), f, s);
    RunNext(New(1), es, f, s);
    es := es + [f];
  }

  predicate PlainConfigBased(s: Setup) {
    s.meta.validType && !s.meta.exclusive && s.meta.routing.ConfigRouting?
  }

  /** With config-based routing one task suffices: it subscribes, its configuration is given the instance,
      and it unsubscribes. The instance is left without a subscription. */
  lemma {:induction false} ConfigStuckReached(max: nat, task: string, config: string, s: Setup) returns (es: seq<Event>)
    requires max > 0 && PlainConfigBased(s) && task != config
    ensures Runs(New(max), es, s)
    ensures After(New(max), es, s).subs == {} && |After(New(max), es, s).plugins| == 1
  {
    var x := Instance(0, 1);
    var d, e, f := Subscribe(task, Some(x.process)), Use(config, [x]), Unsubscribe(task, [x], map[]);
    RunNext(New(max), [], d, s);
    es := [] + [d];
    var p := After(New(max), es, s);
    assert p == Pool({task}, map[1 := x], 1, max, s.meta.concurrency, ConfigBased(map[]), 0);
    assert p.plugins[1] in p.plugins.Values && FirstFree([x], map[]) == Some(x);
    RunNext(New(max), es, e, s);
    es := es + [e];
    var q := After(New(max), es, s);
    assert Bound(q) == map[config := x] && Bound(q)[config] in Bound(q).Values;
    StuckLeaves(q, f, s);
    RunNext(New(max), es, f, s);
    es := es + [f];
  }

  /** Two instances, the first of them bound. */
  lemma {:induction false} TwoInstances(max: nat, a: string, b: string, s: Setup, x: Instance, y: Instance)
    returns (es: seq<Event>)
    requires max > 1 && PlainSticky(s) && a != b && x.id == 1 && y.id == 2
    ensures Runs(New(max), es, s)
    ensures After(New(max), es, s) == Pool({a, b}, map[1 := x, 2 := y], 2, max, 1, Sticky(map[a := x]), 0)
  {
    es := FirstBound(max, a, s, x);
    var e := Subscribe(b, Some(y.process));
    assert {a} + {b} == {a, b};
    RunNext(New(max), es, e, s);
    es := es + [e];
  }

  /** A dead instance is replaced by a new one. */
  lemma {:induction false} Replaced(p: Pool, y: Instance, z: Instance, s: Setup)
    requires p.plugins - {1} == map[2 := y] && |p.subs| == 2 && p.max > 1 && p.concurrency == 1
    requires s.meta.validType && MayRestart(p, s) && p.pidCounter == 2 && z.id == 3
    ensures Next(p, Dead(1, Some(z.process)), s) ==
      p.(plugins := map[2 := y, 3 := z], pidCounter := 3, restarts := p.restarts + 1)
  {
    assert map[2 := y][3 := z] == map[2 := y, 3 := z];
  }

  /** The instance a leaving task is bound to is gone already. */
  lemma {:induction false} GoneLeaves(p: Pool, e: Event, s: Setup)
    requires Can(p, e) && e.Unsubscribe? && Binds(p.strategy) && e.task in Bound(p) && Stuck(p, e.task)
    ensures Next(p, e, s).subs == p.subs - {e.task} && Next(p, e, s).plugins == p.plugins
  {
    assert p.plugins - {Bound(p)[e.task].id} == p.plugins;
  }

  /** A bound instance dies and is replaced; when its task leaves, the dead one is picked to be removed:
      two instances are left with one subscription. */
  lemma {:induction false} DeadStuckReached(max: nat, a: string, b: string, s: Setup) returns (es: seq<Event>)
    requires max > 1 && PlainSticky(s) && a != b && (s.maxRestarts > 0 || s.maxRestarts == -1)
    ensures Runs(New(max), es, s)
    ensures After(New(max), es, s).subs == {b} && |After(New(max), es, s).plugins| == 2
  {
    var x, y, z := Instance(0, 1), Instance(1, 2), Instance(2, 3);
    es := TwoInstances(max, a, b, s, x, y);
    var p := After(New(max), es, s);
    var e, f := Dead(1, Some(z.process)), Unsubscribe(a, [y, z], map[]);
    assert p.plugins - {1} == map[2 := y];
    Replaced(p, y, z, s);
    RunNext(New(max), es, e, s);
    es := es + [e];
    var q := After(New(max), es, s);
    assert q.plugins[2] in q.plugins.Values && q.plugins[3] in q.plugins.Values;
    assert {a, b} - {a} == {b};
    GoneLeaves(q, f, s);
    RunNext(New(max), es, f, s);
    es := es + [f];
  }

  // The code itself.

  /** The least recently hit instance, the first of several. */
  method LruSelect(aps: seq<Instance>, hits: map<Instance, int>, now: int) returns (x: Option<Instance>)
    ensures x == if aps == [] then None else Some(aps[LeastRecent(aps, hits)])
  {
    var t, index := now, -1;
    for i := 0 to |aps|
      invariant i == 0 <==> index == -1
      invariant i > 0 ==> 0 <= index < i && t == HitOf(hits, aps[index]) && IsLeastRecent(aps[..i], hits, index)
    {
      if HitOf(hits, aps[i]) < t || index == -1 {
        index := i;
        t := HitOf(hits, aps[i]);
      }
      assert forall k :: 0 <= k < i ==> aps[..i + 1][k] == aps[..i][k];
    }
    assert aps[..|aps|] == aps;
    if index == -1 {
      return None;
    }
    OneLeastRecent(aps, hits, index, LeastRecent(aps, hits));
    return Some(aps[index]);
  }

  lemma {:induction false} OneLeastRecent(aps: seq<Instance>, hits: map<Instance, int>, i: nat, j: nat)
    requires IsLeastRecent(aps, hits, i) && IsLeastRecent(aps, hits, j)
    ensures i == j
  {
    assert HitOf(hits, aps[i]) <= HitOf(hits, aps[j]) && HitOf(hits, aps[j]) <= HitOf(hits, aps[i]);
  }

  /** What is picked by recent use, to be used and to be killed, as hit times are after the epoch: an
      instance that was never hit before any that was, and else the one hit longest ago. */
  lemma {:induction false} LeastRecentFirst(p: Pool, task: string, order: seq<Instance>, hits: map<Instance, int>,
      y: Instance)
    requires p.strategy.Lru? && y in order && forall x :: x in hits ==> hits[x] > 0
    ensures Victim(p, task, order, hits) == Some(order[LeastRecent(order, hits)])
    ensures var x := order[LeastRecent(order, hits)];
      && (y !in hits ==> x !in hits)
      && (y in hits && x in hits ==> hits[x] <= hits[y])
  {
    var k :| 0 <= k < |order| && order[k] == y;
    var x := order[LeastRecent(order, hits)];
    assert HitOf(hits, x) <= HitOf(hits, order[k]);
  }

  /** Select and Remove of sticky and of configBased, which are the same code. */
  class StickyRouter {
    var plugins: map<string, Instance>

    constructor ()
      ensures plugins == map[]
    {
      plugins := map[];
    }

    /** Whether no task is bound to the instance. */
    method IsFree(ap: Instance) returns (free: bool)
      ensures free <==> ap !in plugins.Values
    {
      free := true;
      var rest := plugins.Items;
      while rest != {}
        invariant rest <= plugins.Items
        invariant free <==> forall pair :: pair in plugins.Items - rest ==> pair.1 != ap
        decreases |rest|
      {
        var pair :| pair in rest;
        if pair.1 == ap {
          free := false;
        }
        rest := rest - {pair};
      }
      assert forall pair :: pair in plugins.Items - rest <==> pair in plugins.Items;
      if ap in plugins.Values {
        var task :| task in plugins && plugins[task] == ap;
        assert (task, plugins[task]) in plugins.Items;
      }
    }

    method SelectPlugin(aps: seq<Instance>, task: string) returns (x: Option<Instance>)
      requires task !in plugins
      modifies this
      ensures x == StickyChoice(aps, old(plugins), task)
      ensures plugins == StickySelected(aps, old(plugins), task)
    {
      for i := 0 to |aps|
        invariant plugins == old(plugins)
        invariant FirstFree(aps, plugins) == FirstFree(aps[i..], plugins)
      {
        var available := IsFree(aps[i]);
        if available {
          plugins := plugins[task := aps[i]];
          return Some(aps[i]);
        }
        assert aps[i..][1..] == aps[i + 1..];
      }
      return None;
    }

    method Select(aps: seq<Instance>, task: string) returns (x: Option<Instance>)
      modifies this
      ensures x == StickyChoice(aps, old(plugins), task)
      ensures plugins == StickySelected(aps, old(plugins), task)
    {
      if task in plugins {
        assert plugins == plugins[task := plugins[task]];
        return Some(plugins[task]);
      }
      x := SelectPlugin(aps, task);
    }

    method Remove(aps: seq<Instance>, task: string) returns (x: Option<Instance>)
      modifies this
      ensures x == StickyChoice(aps, old(plugins), task)
      ensures plugins == if x.Some? then old(plugins) - {task} else old(plugins)
    {
      x := Select(aps, task);
      if x.Some? {
        plugins := plugins - {task};
        assert plugins == old(plugins) - {task};
      }
    }
  }

  class RunningPool {
    var subs: set<string>
    var plugins: map<nat, Instance>
    var pidCounter: nat
    var max: int
    var concurrencyCount: int
    var lru: bool
    var router: StickyRouter?
    var byConfig: bool
    var restartCount: nat

    constructor (max: int)
      ensures View() == New(max) && router == null
    {
      subs, plugins, pidCounter := {}, map[], 0;
      this.max, concurrencyCount := max, 1;
      lru, router, byConfig, restartCount := false, null, false, 0;
    }

    ghost function Routers(): set<object>
      reads this
    {
      if router == null then {} else {router}
    }

    ghost function Routed(): Strategy
      reads this, Routers()
    {
      if router == null then if lru then Lru else Unset
      else if byConfig then ConfigBased(router.plugins)
      else Sticky(router.plugins)
    }

    ghost function View(): Pool
      reads this, Routers()
    {
      Pool(subs, plugins, pidCounter, max, concurrencyCount,
           Routed(),
           restartCount)
    }

    method ApplyPluginMeta(m: Meta) returns (ok: bool)
      modifies this
      ensures View() == WithMeta(old(View()), m) && (ok <==> !m.routing.UnknownRouting?)
      ensures router == null || router == old(router) || fresh(router)
    {
      if m.exclusive {
        max := 1;
      }
      concurrencyCount := m.concurrency;
      match m.routing
      case LeastRecentlyUsed =>
        lru, router := true, null;
        return true;
      case StickyRouting =>
        router := new StickyRouter();
        byConfig := false;
        concurrencyCount := 1;
        return true;
      case ConfigRouting =>
        router := new StickyRouter();
        byConfig := true;
        return true;
      case UnknownRouting =>
        return false;
    }

    method Insert(process: nat, m: Meta) returns (ok: bool)
      modifies this
      ensures View() == Inserted(old(View()), process, m) && (ok <==> Insertable(old(View()), m))
      ensures router == null || router == old(router) || fresh(router)
    {
      if !m.validType {
        return false;
      }
      if |plugins| == 0 {
        var applied := ApplyPluginMeta(m);
        if !applied {
          return false;
        }
      }
      pidCounter := NextId(pidCounter);
      plugins := plugins[pidCounter := Instance(process, pidCounter)];
      return true;
    }

    method MayGrow() returns (eligible: bool)
      ensures eligible <==> Eligible(View())
    {
      if |plugins| >= max {
        return false;
      }
      if |subs| > concurrencyCount * |plugins| {
        return true;
      }
      return false;
    }

    method Kill(id: nat)
      modifies this
      ensures View() == old(View()).(plugins := old(plugins) - {id}) && router == old(router)
    {
      if id in plugins {
        plugins := plugins - {id};
      }
      assert plugins == old(plugins) - {id};
    }

    method SelectAndKill(task: string, order: seq<Instance>, hits: map<Instance, int>, now: int)
      requires Enumerates(order, plugins)
      modifies this, Routers()
      ensures View() == KilledFor(old(View()), task, order, hits) && router == old(router)
    {
      var x: Option<Instance>;
      if router != null {
        x := router.Remove(order, task);
      } else if lru {
        x := LruSelect(order, hits, now);
      } else {
        x := None;
      }
      if x.None? {
        return;
      }
      Kill(x.value.id);
    }

    /** An instance for a collection, by task or by configuration as the strategy has it. */
    method SelectAP(task: string, config: string, order: seq<Instance>, hits: map<Instance, int>, now: int, s: Setup)
      returns (x: Option<Instance>)
      requires Enumerates(order, plugins)
      modifies Routers()
      ensures var key := if old(View()).strategy.ConfigBased? then config else task;
        View() == Next(old(View()), Use(key, order), s) && x == Victim(old(View()), key, order, hits)
    {
      if router != null {
        x := router.Select(order, if byConfig then config else task);
      } else if lru {
        x := LruSelect(order, hits, now);
      } else {
        x := None;
      }
    }

    /** The subscribe path for a local plugin. */
    method SubscribeAndGrow(task: string, started: Option<nat>, s: Setup)
      modifies this
      ensures View() == Next(old(View()), Subscribe(task, started), s)
    {
      subs := subs + {task};
      var eligible := MayGrow();
      if eligible && started.Some? {
        var ok := Insert(started.value, s.meta);
      }
    }

    /** The unsubscribe path: drop the subscription and shrink the pool if it has become too large. */
    method HandleUnsubscription(task: string, order: seq<Instance>, hits: map<Instance, int>, now: int, s: Setup)
      requires Enumerates(order, plugins)
      modifies this, Routers()
      ensures View() == Next(old(View()), Unsubscribe(task, order, hits), s)
    {
      ghost var e := Unsubscribe(task, order, hits);
      subs := subs - {task};
      ghost var q := View();
      assert q == Prepared(old(View()), e);
      if |subs| < |plugins| {
        SelectAndKill(task, order, hits, now);
        assert View() == KilledFor(q, task, order, hits);
      }
    }

    /** Starting a new instance in place of a dead one, if the pool may grow and restarts are left. */
    method Restart(started: Option<nat>, s: Setup)
      modifies this
      ensures View() ==
        if Eligible(old(View())) && MayRestart(old(View()), s) && started.Some?
        then Inserted(old(View()), started.value, s.meta).(restarts := old(restartCount) + 1) else old(View())
    {
      var eligible := MayGrow();
      if eligible {
        if restartCount < s.maxRestarts || s.maxRestarts == -1 {
          if started.None? {
            return;
          }
          var ok := Insert(started.value, s.meta);
          restartCount := restartCount + 1;
        }
      }
    }

    /** Handling of a dead plugin. */
    method HandleDead(id: nat, started: Option<nat>, s: Setup)
      modifies this
      ensures View() == Next(old(View()), Dead(id, started), s)
    {
      Kill(id);
      Restart(started, s);
    }
  }
}
