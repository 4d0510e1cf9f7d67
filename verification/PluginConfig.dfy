/** Configuration of plugins in layers: global, per plugin type, per plugin, per plugin version
(control/config.go, core/cdata/node.go), and the cache of merged results. */
module PluginConfig {
  import opened Wrappers
  import Namespaces

  datatype Value = IntValue(i: int) | StrValue(s: string) | FloatValue(f: real) | BoolValue(b: bool)

  type Table = map<string, Value>

  /** Items of `u` on top of those of `t`; an item without a name is dropped. */
  function Merged(t: Table, u: Table): Table {
    t + (u - {""})
  }

  function Find(t: Table, k: string): Option<Value> {
    if k in t then Some(t[k]) else None
  }

  lemma {:induction false} MergedFind(t: Table, u: Table, k: string)
    ensures Find(Merged(t, u), k) == if k != "" && k in u then Some(u[k]) else Find(t, k)
  {
  }

  lemma {:induction false} SameTable(t: Table, u: Table)
    requires forall k :: Find(t, k) == Find(u, k)
    ensures t == u
  {
    forall k
      ensures k in t <==> k in u
      ensures k in t ==> t[k] == u[k]
    {
      assert Find(t, k) == Find(u, k);
    }
  }

  lemma {:induction false} Smaller(t: Table, k: string)
    requires k in t
    ensures |t - {k}| < |t|
  {
    assert (t - {k}).Keys == t.Keys - {k};
  }

  lemma {:induction false} MergedNothing(t: Table)
    ensures Merged(t, map[]) == t
  {
  }

  lemma {:induction false} MergedNext(t: Table, rest: Table, k: string)
    requires k in rest
    ensures Merged(t, rest) == Merged(if k == "" then t else t[k := rest[k]], rest - {k})
  {
    var u, less := if k == "" then t else t[k := rest[k]], rest - {k};
    forall j
      ensures Find(Merged(t, rest), j) == Find(Merged(u, less), j)
    {
      MergedFind(t, rest, j);
      MergedFind(u, less, j);
    }
    SameTable(Merged(t, rest), Merged(u, less));
  }

  class ConfigDataNode {
    var table: Table

    constructor ()
      ensures table == map[]
    {
      table := map[];
    }

    method AddItem(k: string, v: Value)
      modifies this
      ensures table == if k == "" then old(table) else old(table)[k := v]
    {
      if k == "" {
        return;
      }
      table := table[k := v];
    }

    /** The items may come in any order. */
    method Merge(n: ConfigDataNode)
      modifies this
      ensures table == Merged(old(table), old(n.table))
    {
      var rest := n.table;
      while rest != map[]
        invariant Merged(table, rest) == Merged(old(table), old(n.table))
        decreases |rest|
      {
        var k :| k in rest;
        MergedNext(table, rest, k);
        Smaller(rest, k);
        AddItem(k, rest[k]);
        rest := rest - {k};
      }
      MergedNothing(table);
    }

    method DeleteItem(k: string)
      modifies this
      ensures table == old(table) - {k}
    {
      table := table - {k};
    }
  }

  datatype Plugin = Plugin(node: Table, versions: map<int, Table>)

  datatype TypeItem = TypeItem(plugins: map<string, Plugin>, all: Table)

  datatype Kind = Collector | Processor | Publisher

  datatype Config = Config(all: Table, collector: TypeItem, processor: TypeItem, publisher: TypeItem)

  /** Plugin types are numbers; streaming collectors share the collectors' configuration. */
  function KindOf(pluginType: int): Option<Kind> {
    if pluginType == 0 || pluginType == 3 then Some(Collector)
    else if pluginType == 1 then Some(Processor)
    else if pluginType == 2 then Some(Publisher)
    else None
  }

  function ItemOf(c: Config, kind: Kind): TypeItem {
    match kind
    case Collector => c.collector
    case Processor => c.processor
    case Publisher => c.publisher
  }

  function WithItem(c: Config, kind: Kind, item: TypeItem): Config {
    match kind
    case Collector => c.(collector := item)
    case Processor => c.(processor := item)
    case Publisher => c.(publisher := item)
  }

  /** The layers a plugin type adds to the global one, most general first. */
  function ItemLayers(item: TypeItem, name: string, ver: int): (ls: seq<Table>)
    ensures |ls| > 0
  {
    [item.all]
    + if name !in item.plugins then [] else
      [item.plugins[name].node]
      + if ver !in item.plugins[name].versions then [] else [item.plugins[name].versions[ver]]
  }

  function Folded(ls: seq<Table>): Table {
    if ls == [] then map[] else Merged(Folded(ls[..|ls| - 1]), ls[|ls| - 1])
  }

  /** The value of a key in the most specific layer that has it. */
  function Nearest(ls: seq<Table>, k: string): Option<Value> {
    if ls == [] || k == "" then None
    else if k in ls[|ls| - 1] then Some(ls[|ls| - 1][k])
    else Nearest(ls[..|ls| - 1], k)
  }

  /** Merging layers means: the most specific layer wins, key by key. */
  lemma {:induction false} FoldedIsNearest(ls: seq<Table>, k: string)
    ensures Find(Folded(ls), k) == Nearest(ls, k)
  {
    if ls != [] {
      FoldedIsNearest(ls[..|ls| - 1], k);
    } else {
      assert k !in Folded(ls);
    }
  }

  // Cache keys.

  function Digit(d: nat): char
    requires d < 10
  {
    "0123456789"[d]
  }

  function Digits(n: nat): string {
    if n < 10 then [Digit(n)] else Digits(n / 10) + [Digit(n % 10)]
  }

  function Decimal(n: int): string {
    if n < 0 then "-" + Digits(-n) else Digits(n)
  }

  function Key(pluginType: int, name: string, ver: int): string {
    Decimal(pluginType) + [Namespaces.SEPARATOR] + name + [Namespaces.SEPARATOR] + Decimal(ver)
  }

  lemma {:induction false} DigitsPlain(n: nat)
    ensures Digits(n) != [] && forall c :: c in Digits(n) ==> c in "0123456789"
  {
    if n >= 10 {
      DigitsPlain(n / 10);
    }
  }

  lemma {:induction false} DigitsInjective(m: nat, n: nat)
    requires Digits(m) == Digits(n)
    ensures m == n
  {
    var s := Digits(m);
    if m >= 10 {
      DigitsPlain(m / 10);
    }
    if n >= 10 {
      DigitsPlain(n / 10);
    }
    assert s[|s| - 1] == Digit(m % 10) == Digit(n % 10);
    if m >= 10 && n >= 10 {
      assert Digits(m / 10) == s[..|s| - 1] == Digits(n / 10);
      DigitsInjective(m / 10, n / 10);
    }
  }

  lemma {:induction false} Unsigned(n: nat)
    ensures Digits(n) != [] && Digits(n)[0] != '-'
  {
    DigitsPlain(n);
    assert Digits(n)[0] in Digits(n);
  }

  lemma {:induction false} SignShows(n: int)
    ensures Decimal(n) != [] && (Decimal(n)[0] == '-' <==> n < 0)
  {
    Unsigned(if n < 0 then -n else n);
  }

  lemma {:induction false} SameAfterSign(s: string, t: string)
    requires "-" + s == "-" + t
    ensures s == t
  {
    assert s == ("-" + s)[1..] && t == ("-" + t)[1..];
  }

  lemma {:induction false} DecimalInjective(m: int, n: int)
    requires Decimal(m) == Decimal(n)
    ensures m == n
  {
    SignShows(m);
    SignShows(n);
    if m < 0 {
      SameAfterSign(Digits(-m), Digits(-n));
      DigitsInjective(-m, -n);
    } else {
      DigitsInjective(m, n);
    }
  }

  lemma {:induction false} DecimalPlain(n: int)
    ensures Namespaces.SEPARATOR !in Decimal(n)
  {
    DigitsPlain(if n < 0 then -n else n);
  }

  lemma {:induction false} FirstSeparator(a: string, x: string, b: string, y: string, sep: char)
    requires a + [sep] + x == b + [sep] + y && sep !in a && sep !in b
    ensures a == b && x == y
  {
    var s := a + [sep] + x;
    assert s[|a|] == sep && s[|b|] == sep;
    assert |a| == |b|;
    assert a == s[..|a|] == b;
    assert x == s[|a| + 1..] == y;
  }

  lemma {:induction false} LastSeparator(x: string, a: string, y: string, b: string, sep: char)
    requires x + [sep] + a == y + [sep] + b && sep !in a && sep !in b
    ensures x == y && a == b
  {
    var s := x + [sep] + a;
    assert s[|x|] == sep && s[|y|] == sep;
    assert |x| == |y|;
    assert x == s[..|x|] == y;
    assert a == s[|x| + 1..] == b;
  }

  /** Different plugins never share a cache key, whatever is in their names. */
  lemma {:induction false} KeyInjective(t: int, name: string, ver: int, t': int, name': string, ver': int)
    requires Key(t, name, ver) == Key(t', name', ver')
    ensures t == t' && name == name' && ver == ver'
  {
    var sep := Namespaces.SEPARATOR;
    DecimalPlain(t);
    DecimalPlain(t');
    DecimalPlain(ver);
    DecimalPlain(ver');
    assert Key(t, name, ver) == Decimal(t) + [sep] + (name + [sep] + Decimal(ver));
    assert Key(t', name', ver') == Decimal(t') + [sep] + (name' + [sep] + Decimal(ver'));
    FirstSeparator(Decimal(t), name + [sep] + Decimal(ver), Decimal(t'), name' + [sep] + Decimal(ver'), sep);
    LastSeparator(name, Decimal(ver), name', Decimal(ver'), sep);
    DecimalInjective(t, t');
    DecimalInjective(ver, ver');
  }

  // Operations.

  /** The configuration and the cache of results. */
  datatype State = State(config: Config, cache: map<string, Table>)

  /** The layers of a result; of an unknown plugin type, only the global one. */
  function LayersOf(c: Config, pluginType: int, name: string, ver: int): seq<Table> {
    var kind := KindOf(pluginType);
    [c.all] + if kind.None? then [] else ItemLayers(ItemOf(c, kind.value), name, ver)
  }

  function ItemMerged(item: TypeItem, name: string, ver: int, cdn: Table): TypeItem {
    if name in item.plugins then
      var p := item.plugins[name];
      var q := if ver in p.versions then p.(versions := p.versions[ver := Merged(p.versions[ver], cdn)])
               else p.(node := Merged(p.node, cdn));
      item.(plugins := item.plugins[name := q])
    else if name != "" then
      var q := if ver > 0 then Plugin(map[], map[ver := Merged(map[], cdn)]) else Plugin(Merged(map[], cdn), map[]);
      item.(plugins := item.plugins[name := q])
    else item.(all := Merged(item.all, cdn))
  }

  function ItemDeleted(item: TypeItem, name: string, ver: int, key: string): TypeItem {
    if name in item.plugins then
      var p := item.plugins[name];
      var q := if ver in p.versions then p.(versions := p.versions[ver := p.versions[ver] - {key}])
               else p.(node := p.node - {key});
      item.(plugins := item.plugins[name := q])
    else item.(all := item.all - {key})
  }

  datatype Op =
    | MergeAll(cdn: Table)
    | DeleteAll(key: string)
    | MergeAt(pluginType: int, name: string, ver: int, cdn: Table)
    | DeleteAt(pluginType: int, name: string, ver: int, key: string)
    | Get(pluginType: int, name: string, ver: int)

  function Changed(c: Config, op: Op): Config {
    match op
    case MergeAll(cdn) => c.(all := Merged(c.all, cdn))
    case DeleteAll(key) => c.(all := c.all - {key})
    case MergeAt(t, name, ver, cdn) =>
      if KindOf(t).None? then c else
      WithItem(c, KindOf(t).value, ItemMerged(ItemOf(c, KindOf(t).value), name, ver, cdn))
    case DeleteAt(t, name, ver, key) =>
      if KindOf(t).None? then c else
      WithItem(c, KindOf(t).value, ItemDeleted(ItemOf(c, KindOf(t).value), name, ver, key))
    case Get(_, _, _) => c
  }

  function Next(s: State, op: Op): State {
    match op
    case Get(t, name, ver) =>
      var key := Key(t, name, ver);
      if key in s.cache then s else s.(cache := s.cache[key := Folded(LayersOf(s.config, t, name, ver))])
    case _ => State(Changed(s.config, op), map[])
  }

  /** What Get answers; nothing the first time it is asked for an unknown plugin type. */
  function Answer(s: State, t: int, name: string, ver: int): Option<Table> {
    var key := Key(t, name, ver);
    if key in s.cache then Some(s.cache[key])
    else if KindOf(t).None? then None
    else Some(Folded(LayersOf(s.config, t, name, ver)))
  }

  /** Every cached result equals the merge of its layers as they are now. */
  ghost predicate Agrees(s: State) {
    forall t, name, ver ::
      Key(t, name, ver) in s.cache ==> s.cache[Key(t, name, ver)] == Folded(LayersOf(s.config, t, name, ver))
  }

  lemma {:induction false} NextAgrees(s: State, op: Op)
    requires Agrees(s)
    ensures Agrees(Next(s, op))
  {
    if op.Get? {
      var u := Next(s, op);
      forall t, name, ver | Key(t, name, ver) in u.cache
        ensures u.cache[Key(t, name, ver)] == Folded(LayersOf(u.config, t, name, ver))
      {
        if Key(t, name, ver) == Key(op.pluginType, op.name, op.ver) {
          KeyInjective(t, name, ver, op.pluginType, op.name, op.ver);
        }
      }
    }
  }

  function After(s: State, ops: seq<Op>): State
    decreases |ops|
  {
    if ops == [] then s else After(Next(s, ops[0]), ops[1..])
  }

  lemma {:induction false} RunAgrees(s: State, ops: seq<Op>)
    requires Agrees(s)
    ensures Agrees(After(s, ops))
    decreases |ops|
  {
    if ops != [] {
      NextAgrees(s, ops[0]);
      RunAgrees(Next(s, ops[0]), ops[1..]);
    }
  }

  /** After any operations, the answer for a known plugin type is, key by key, the value of the most
      specific layer: the cache is never seen. */
  lemma {:induction false} AnswerIsNearest(c: Config, ops: seq<Op>, t: int, name: string, ver: int, k: string)
    requires KindOf(t).Some?
    ensures var s := After(State(c, map[]), ops);
      && Answer(s, t, name, ver).Some?
      && Find(Answer(s, t, name, ver).value, k) == Nearest(LayersOf(s.config, t, name, ver), k)
  {
    var s := After(State(c, map[]), ops);
    RunAgrees(State(c, map[]), ops);
    FoldedIsNearest(LayersOf(s.config, t, name, ver), k);
  }

  /** For an unknown plugin type the answer depends on the cache: nothing at first, the global layer
      when asked again. */
  lemma {:induction false} UnknownTypeAnswers(s: State, t: int, name: string, ver: int)
    requires Agrees(s) && KindOf(t).None?
    ensures Answer(s, t, name, ver).None? <==> Key(t, name, ver) !in s.cache
    ensures Answer(Next(s, Get(t, name, ver)), t, name, ver) == Some(Merged(map[], s.config.all))
  {
    assert LayersOf(s.config, t, name, ver) == [s.config.all];
    assert Folded([s.config.all]) == Merged(Folded([]), s.config.all);
  }

  // What the operations change.

  /** A place for a layer, whether or not there is one. */
  datatype Spot =
    | Global
    | OfType(kind: Kind)
    | OfPlugin(kind: Kind, name: string)
    | OfVersion(kind: Kind, name: string, ver: int)

  /** The table at a place; an empty one if there is none. */
  function At(c: Config, spot: Spot): Table {
    match spot
    case Global => c.all
    case OfType(kind) => ItemOf(c, kind).all
    case OfPlugin(kind, name) =>
      var plugins := ItemOf(c, kind).plugins;
      if name in plugins then plugins[name].node else map[]
    case OfVersion(kind, name, ver) =>
      var plugins := ItemOf(c, kind).plugins;
      if name in plugins && ver in plugins[name].versions then plugins[name].versions[ver] else map[]
  }

  /** Plugin types by number: 0 and 3 are collectors, streaming ones included, 1 processors, 2 publishers. */
  lemma {:induction false} TypesByNumber(c: Config, t: int, name: string, ver: int)
    ensures var ls := LayersOf(c, t, name, ver);
      && ls[0] == c.all && (|ls| > 1 <==> 0 <= t <= 3)
      && (t == 1 ==> ls[1] == c.processor.all) && (t == 2 ==> ls[1] == c.publisher.all)
      && (t == 0 || t == 3 ==> ls[1] == c.collector.all)
      && (t == 3 ==> ls == LayersOf(c, 0, name, ver))
  {
  }

  /** The value of a key at the most specific of the four places of a plugin that has it. */
  function Shown(c: Config, kind: Kind, name: string, ver: int, k: string): Option<Value> {
    if k == "" then None
    else if k in At(c, OfVersion(kind, name, ver)) then Some(At(c, OfVersion(kind, name, ver))[k])
    else ShownFor(c, kind, name, k)
  }

  /** The same without the version's own place. */
  function ShownFor(c: Config, kind: Kind, name: string, k: string): Option<Value> {
    if k == "" then None
    else if k in At(c, OfPlugin(kind, name)) then Some(At(c, OfPlugin(kind, name))[k])
    else if k in At(c, OfType(kind)) then Some(At(c, OfType(kind))[k])
    else Find(c.all, k)
  }

  lemma {:induction false} NearestLast(below: seq<Table>, last: Table, k: string)
    ensures Nearest(below + [last], k) == if k != "" && k in last then Some(last[k]) else Nearest(below, k)
  {
    assert (below + [last])[..|below|] == below;
  }

  /** The most specific of two and of three layers. */
  lemma {:induction false} NearestOfTwo(a: Table, b: Table, k: string)
    ensures k != "" ==> Nearest([a], k) == Find(a, k) && Nearest([a, b], k) == if k in b then Some(b[k]) else Find(a, k)
  {
    assert [] + [a] == [a] && [a] + [b] == [a, b];
    NearestLast([], a, k);
    NearestLast([a], b, k);
  }

  lemma {:induction false} NearestOfThree(a: Table, b: Table, c: Table, k: string)
    ensures k != "" ==>
      Nearest([a, b, c], k) == if k in c then Some(c[k]) else if k in b then Some(b[k]) else Find(a, k)
  {
    assert [a, b] + [c] == [a, b, c];
    NearestLast([a, b], c, k);
    NearestOfTwo(a, b, k);
  }

  /** The layers show exactly that. */
  lemma {:induction false} NearestIsShown(c: Config, t: int, name: string, ver: int, k: string)
    requires KindOf(t).Some?
    ensures Nearest(LayersOf(c, t, name, ver), k) == Shown(c, KindOf(t).value, name, ver, k)
  {
    var item := ItemOf(c, KindOf(t).value);
    NearestOfTwo(c.all, item.all, k);
    if name in item.plugins {
      var p := item.plugins[name];
      NearestOfThree(c.all, item.all, p.node, k);
      if ver in p.versions {
        NearestLast([c.all, item.all, p.node], p.versions[ver], k);
        assert LayersOf(c, t, name, ver) == [c.all, item.all, p.node] + [p.versions[ver]];
      } else {
        assert LayersOf(c, t, name, ver) == [c.all, item.all, p.node];
      }
    } else {
      assert LayersOf(c, t, name, ver) == [c.all, item.all];
    }
  }

  /** What a get answers right after another operation. */
  lemma {:induction false} GetShows(s: State, op: Op, t: int, name: string, ver: int, k: string)
    requires KindOf(t).Some? && !op.Get?
    ensures var u := Next(s, op);
      && Answer(u, t, name, ver).Some?
      && Find(Answer(u, t, name, ver).value, k) == Shown(Changed(s.config, op), KindOf(t).value, name, ver, k)
  {
    var c := Changed(s.config, op);
    FoldedIsNearest(LayersOf(c, t, name, ver), k);
    NearestIsShown(c, t, name, ver, k);
  }

  /** Where an operation makes its change. A known plugin takes a merge or delete for a version it has no
      layer for as one for all its versions, and a delete for an unknown plugin goes to the plugin type. */
  function Touched(c: Config, op: Op): Option<Spot> {
    match op
    case MergeAll(_) => Some(Global)
    case DeleteAll(_) => Some(Global)
    case MergeAt(t, name, ver, _) =>
      if KindOf(t).None? then None
      else if name == "" && name !in ItemOf(c, KindOf(t).value).plugins then Some(OfType(KindOf(t).value))
      else if Whole(c, KindOf(t).value, name, ver) then Some(OfPlugin(KindOf(t).value, name))
      else Some(OfVersion(KindOf(t).value, name, ver))
    case DeleteAt(t, name, ver, _) =>
      if KindOf(t).None? then None
      else if name !in ItemOf(c, KindOf(t).value).plugins then Some(OfType(KindOf(t).value))
      else if Whole(c, KindOf(t).value, name, ver) then Some(OfPlugin(KindOf(t).value, name))
      else Some(OfVersion(KindOf(t).value, name, ver))
    case Get(_, _, _) => None
  }

  /** A change for this version is one for all versions of the plugin. */
  predicate Whole(c: Config, kind: Kind, name: string, ver: int) {
    var plugins := ItemOf(c, kind).plugins;
    if name in plugins then ver !in plugins[name].versions else ver <= 0
  }

  lemma {:induction false} ItemReplaced(c: Config, kind: Kind, item: TypeItem, kind': Kind)
    ensures ItemOf(WithItem(c, kind, item), kind') == if kind == kind' then item else ItemOf(c, kind')
    ensures WithItem(c, kind, item).all == c.all
  {
  }

  lemma {:induction false} MergeChangesOne(c: Config, op: Op, spot: Spot)
    requires op.MergeAt?
    ensures At(Changed(c, op), spot) ==
      if Touched(c, op) == Some(spot) then Merged(At(c, spot), op.cdn) else At(c, spot)
  {
    if KindOf(op.pluginType).Some? && !spot.Global? {
      var kind := KindOf(op.pluginType).value;
      ItemReplaced(c, kind, ItemMerged(ItemOf(c, kind), op.name, op.ver, op.cdn), spot.kind);
    }
  }

  lemma {:induction false} DeleteChangesOne(c: Config, op: Op, spot: Spot)
    requires op.DeleteAt?
    ensures At(Changed(c, op), spot) ==
      if Touched(c, op) == Some(spot) then At(c, spot) - {op.key} else At(c, spot)
  {
    if KindOf(op.pluginType).Some? && !spot.Global? {
      var kind := KindOf(op.pluginType).value;
      ItemReplaced(c, kind, ItemDeleted(ItemOf(c, kind), op.name, op.ver, op.key), spot.kind);
    }
  }

  /** At this place c' is what the operation makes of c. */
  predicate Follows(c: Config, c': Config, op: Op, spot: Spot) {
    At(c', spot) ==
      if Touched(c, op) != Some(spot) then At(c, spot)
      else if op.MergeAll? || op.MergeAt? then Merged(At(c, spot), op.cdn) else At(c, spot) - {op.key}
  }

  /** Every operation changes the table at one place, by merging into it or deleting one key, and at no
      other. */
  lemma {:induction false} OneTableChanges(c: Config, op: Op, spot: Spot)
    ensures Follows(c, Changed(c, op), op, spot)
  {
    match op
    case MergeAt(_, _, _, _) => MergeChangesOne(c, op, spot);
    case DeleteAt(_, _, _, _) => DeleteChangesOne(c, op, spot);
    case _ =>
  }

  /** And so at the four places of a plugin. */
  predicate AllFollow(c: Config, c': Config, op: Op, kind: Kind, name: string, ver: int) {
    && Follows(c, c', op, Global) && Follows(c, c', op, OfType(kind))
    && Follows(c, c', op, OfPlugin(kind, name)) && Follows(c, c', op, OfVersion(kind, name, ver))
  }

  lemma {:induction false} PlacesChange(c: Config, op: Op, kind: Kind, name: string, ver: int)
    ensures AllFollow(c, Changed(c, op), op, kind, name, ver)
  {
    OneTableChanges(c, op, Global);
    OneTableChanges(c, op, OfType(kind));
    OneTableChanges(c, op, OfPlugin(kind, name));
    OneTableChanges(c, op, OfVersion(kind, name, ver));
  }

  lemma {:induction false} MergeShows(c: Config, c': Config, op: Op, kind: Kind, k: string)
    requires op.MergeAt? && KindOf(op.pluginType) == Some(kind) && AllFollow(c, c', op, kind, op.name, op.ver)
    ensures Shown(c', kind, op.name, op.ver, k) ==
      if k in op.cdn && k != "" then Some(op.cdn[k]) else Shown(c, kind, op.name, op.ver, k)
  {
  }

  lemma {:induction false} DeleteShows(c: Config, c': Config, op: Op, kind: Kind, k: string)
    requires op.DeleteAt? && KindOf(op.pluginType) == Some(kind) && AllFollow(c, c', op, kind, op.name, op.ver)
    ensures Shown(c', kind, op.name, op.ver, k) ==
      if k == op.key then ShownBelow(c, op, kind, k) else Shown(c, kind, op.name, op.ver, k)
  {
  }

  /** What the places more general than the one a delete touches show. */
  function ShownBelow(c: Config, op: Op, kind: Kind, k: string): Option<Value>
    requires op.DeleteAt? && KindOf(op.pluginType) == Some(kind)
  {
    if k == "" then None else
    match Touched(c, op).value
    case OfVersion(_, _, _) => ShownFor(c, kind, op.name, k)
    case OfPlugin(_, _) => if k in At(c, OfType(kind)) then Some(At(c, OfType(kind))[k]) else Find(c.all, k)
    case _ => Find(c.all, k)
  }

  lemma {:induction false} DeleteKeepsOthers(
    c: Config, c': Config, op: Op, kind: Kind, name: string, ver: int, k: string)
    requires op.DeleteAt? && op.name != name && AllFollow(c, c', op, kind, name, ver)
    ensures Shown(c', kind, name, ver, k) ==
      if Spills(c, op, kind, name, ver, k) then Find(c.all, k) else Shown(c, kind, name, ver, k)
  {
  }

  /** A delete for one name changes the value of k for another: the first has no layers and the second no
      value of its own. */
  predicate Spills(c: Config, op: Op, kind: Kind, name: string, ver: int, k: string) {
    && op.DeleteAt? && KindOf(op.pluginType) == Some(kind) && op.name !in ItemOf(c, kind).plugins
    && k == op.key && k != "" && k !in At(c, OfVersion(kind, name, ver)) && k !in At(c, OfPlugin(kind, name))
  }

  lemma {:induction false} MergeAcross(c: Config, c': Config, op: Op, kind: Kind, ver: int, k: string)
    requires op.MergeAt? && KindOf(op.pluginType) == Some(kind) && op.name != "" && op.ver != ver
    requires AllFollow(c, c', op, kind, op.name, ver)
    ensures Shown(c', kind, op.name, ver, k) ==
      if k in op.cdn && k != "" && Whole(c, kind, op.name, op.ver) && k !in At(c, OfVersion(kind, op.name, ver))
      then Some(op.cdn[k]) else Shown(c, kind, op.name, ver, k)
  {
  }

  /** A get right after a merge at the same place shows the items just merged, and of all others what it
      showed before. */
  lemma {:induction false} GetAfterMerge(s: State, t: int, name: string, ver: int, cdn: Table, k: string)
    requires KindOf(t).Some?
    ensures var u := Next(s, MergeAt(t, name, ver, cdn));
      && Answer(u, t, name, ver).Some?
      && Find(Answer(u, t, name, ver).value, k) ==
           if k in cdn && k != "" then Some(cdn[k]) else Nearest(LayersOf(s.config, t, name, ver), k)
  {
    var op, kind := MergeAt(t, name, ver, cdn), KindOf(t).value;
    GetShows(s, op, t, name, ver, k);
    PlacesChange(s.config, op, kind, name, ver);
    MergeShows(s.config, Changed(s.config, op), op, kind, k);
    NearestIsShown(s.config, t, name, ver, k);
  }

  /** A get right after a delete at the same place shows of that key what the more general layers say, and
      of all others what it showed before. */
  lemma {:induction false} GetAfterDelete(s: State, t: int, name: string, ver: int, key: string, k: string)
    requires KindOf(t).Some?
    ensures var u := Next(s, DeleteAt(t, name, ver, key));
      var ls := LayersOf(s.config, t, name, ver);
      && Answer(u, t, name, ver).Some?
      && Find(Answer(u, t, name, ver).value, k) == Nearest(if k == key then ls[..|ls| - 1] else ls, k)
  {
    var op, kind := DeleteAt(t, name, ver, key), KindOf(t).value;
    GetShows(s, op, t, name, ver, k);
    PlacesChange(s.config, op, kind, name, ver);
    DeleteShows(s.config, Changed(s.config, op), op, kind, k);
    if k == key {
      BelowLast(s.config, op, kind, k);
    } else {
      NearestIsShown(s.config, t, name, ver, k);
    }
  }

  /** The layers below the last one show what the more general places do. */
  lemma {:induction false} BelowLast(c: Config, op: Op, kind: Kind, k: string)
    requires op.DeleteAt? && KindOf(op.pluginType) == Some(kind)
    ensures var ls := LayersOf(c, op.pluginType, op.name, op.ver);
      Nearest(ls[..|ls| - 1], k) == ShownBelow(c, op, kind, k)
  {
    var ls, item := LayersOf(c, op.pluginType, op.name, op.ver), ItemOf(c, kind);
    NearestOfTwo(c.all, item.all, k);
    if op.name in item.plugins {
      var p := item.plugins[op.name];
      if op.ver in p.versions {
        NearestOfThree(c.all, item.all, p.node, k);
        assert ls[..|ls| - 1] == [c.all, item.all, p.node];
      } else {
        assert ls[..|ls| - 1] == [c.all, item.all];
      }
    } else {
      assert ls[..|ls| - 1] == [c.all];
    }
  }

  /** Some place other than the global one has the key. */
  predicate OwnValue(c: Config, kind: Kind, name: string, ver: int, k: string) {
    && k != ""
    && (k in At(c, OfVersion(kind, name, ver)) || k in At(c, OfPlugin(kind, name)) || k in At(c, OfType(kind)))
  }

  /** A change of the global table shows wherever no other place has the key. */
  lemma {:induction false} GlobalShows(c: Config, c': Config, op: Op, kind: Kind, name: string, ver: int, k: string)
    requires (op.MergeAll? || op.DeleteAll?) && AllFollow(c, c', op, kind, name, ver)
    ensures Shown(c', kind, name, ver, k) ==
      if OwnValue(c, kind, name, ver, k) then Shown(c, kind, name, ver, k)
      else if k == "" then None else Find(c'.all, k)
  {
  }

  /** A get after a global merge shows the merged items wherever no layer of the plugin's own has the key. */
  lemma {:induction false} GetAfterGlobalMerge(s: State, t: int, name: string, ver: int, cdn: Table, k: string)
    requires KindOf(t).Some?
    ensures var u, own := Next(s, MergeAll(cdn)), LayersOf(s.config, t, name, ver)[1..];
      && Answer(u, t, name, ver).Some?
      && Find(Answer(u, t, name, ver).value, k) ==
           if Nearest(own, k).Some? || k == "" then Nearest(own, k)
           else if k in cdn then Some(cdn[k]) else Find(s.config.all, k)
  {
    var op, kind := MergeAll(cdn), KindOf(t).value;
    GetShows(s, op, t, name, ver, k);
    PlacesChange(s.config, op, kind, name, ver);
    GlobalShows(s.config, Changed(s.config, op), op, kind, name, ver, k);
    OwnLayers(s.config, t, name, ver, k);
  }

  /** After a global delete the key is gone wherever no layer of the plugin's own has it. */
  lemma {:induction false} GetAfterGlobalDelete(s: State, t: int, name: string, ver: int, key: string, k: string)
    requires KindOf(t).Some?
    ensures var u, own := Next(s, DeleteAll(key)), LayersOf(s.config, t, name, ver)[1..];
      && Answer(u, t, name, ver).Some?
      && Find(Answer(u, t, name, ver).value, k) ==
           if Nearest(own, k).Some? || k == "" then Nearest(own, k)
           else if k == key then None else Find(s.config.all, k)
  {
    var op, kind := DeleteAll(key), KindOf(t).value;
    GetShows(s, op, t, name, ver, k);
    PlacesChange(s.config, op, kind, name, ver);
    GlobalShows(s.config, Changed(s.config, op), op, kind, name, ver, k);
    OwnLayers(s.config, t, name, ver, k);
  }

  /** What a plugin's own layers, all but the global one, say. */
  lemma {:induction false} OwnLayers(c: Config, t: int, name: string, ver: int, k: string)
    requires KindOf(t).Some?
    ensures var own, kind := LayersOf(c, t, name, ver)[1..], KindOf(t).value;
      && Shown(c, kind, name, ver, k) ==
           (if Nearest(own, k).Some? || k == "" then Nearest(own, k) else Find(c.all, k))
      && (Nearest(own, k).Some? <==> OwnValue(c, kind, name, ver, k))
  {
    var own, item := LayersOf(c, t, name, ver)[1..], ItemOf(c, KindOf(t).value);
    NearestOfTwo(item.all, map[], k);
    if name in item.plugins {
      var p := item.plugins[name];
      NearestOfTwo(item.all, p.node, k);
      if ver in p.versions {
        NearestOfThree(item.all, p.node, p.versions[ver], k);
        assert own == [item.all, p.node, p.versions[ver]];
      } else {
        assert own == [item.all, p.node];
      }
    } else {
      assert own == [item.all];
    }
  }

  lemma {:induction false} ItemIsolated(item: TypeItem, name: string, ver: int, cdn: Table, name': string, ver': int)
    requires name != name' && name != ""
    ensures ItemLayers(ItemMerged(item, name, ver, cdn), name', ver') == ItemLayers(item, name', ver')
  {
    var merged := ItemMerged(item, name, ver, cdn);
    assert name' in merged.plugins <==> name' in item.plugins;
    assert name' in item.plugins ==> merged.plugins[name'] == item.plugins[name'];
  }

  /** Merging at a named plugin does not touch any other plugin's result. */
  lemma {:induction false} MergeIsolated(
    c: Config, t: int, name: string, ver: int, cdn: Table, t': int, name': string, ver': int)
    requires name != name' && name != ""
    ensures LayersOf(Changed(c, MergeAt(t, name, ver, cdn)), t', name', ver') == LayersOf(c, t', name', ver')
  {
    if KindOf(t).Some? {
      var kind := KindOf(t).value;
      var item := ItemOf(c, kind);
      if KindOf(t').Some? {
        ItemIsolated(item, name, ver, cdn, name', ver');
        ItemReplaced(c, kind, ItemMerged(item, name, ver, cdn), KindOf(t').value);
      }
    }
  }

  /** A delete for a plugin that has layers of its own changes nothing for any other name. For one that has
      none it takes the key from the whole plugin type. */
  lemma {:induction false} DeleteIsolatedIff(
    s: State, t: int, name: string, ver: int, key: string, t': int, name': string, ver': int, k: string)
    requires name != name' && KindOf(t').Some?
    ensures var u, c, kind' := Next(s, DeleteAt(t, name, ver, key)), s.config, KindOf(t').value;
      && Answer(u, t', name', ver').Some?
      && Find(Answer(u, t', name', ver').value, k) ==
           if Spills(c, DeleteAt(t, name, ver, key), kind', name', ver', k)
           then Find(c.all, k) else Nearest(LayersOf(c, t', name', ver'), k)
  {
    var op := DeleteAt(t, name, ver, key);
    GetShows(s, op, t', name', ver', k);
    PlacesChange(s.config, op, KindOf(t').value, name', ver');
    DeleteKeepsOthers(s.config, Changed(s.config, op), op, KindOf(t').value, name', ver', k);
    NearestIsShown(s.config, t', name', ver', k);
  }

  /** A merge at one version shows in another exactly if it is taken as one for the whole plugin and the
      other version does not have the key itself. */
  lemma {:induction false} VersionIsolatedIff(
    s: State, t: int, name: string, ver: int, cdn: Table, ver': int, k: string)
    requires KindOf(t).Some? && name != "" && ver != ver'
    ensures var u, kind := Next(s, MergeAt(t, name, ver, cdn)), KindOf(t).value;
      && Answer(u, t, name, ver').Some?
      && Find(Answer(u, t, name, ver').value, k) ==
           if k in cdn && k != "" && Whole(s.config, kind, name, ver) && k !in At(s.config, OfVersion(kind, name, ver'))
           then Some(cdn[k]) else Nearest(LayersOf(s.config, t, name, ver'), k)
  {
    var op := MergeAt(t, name, ver, cdn);
    GetShows(s, op, t, name, ver', k);
    PlacesChange(s.config, op, KindOf(t).value, name, ver');
    MergeAcross(s.config, Changed(s.config, op), op, KindOf(t).value, ver', k);
    NearestIsShown(s.config, t, name, ver', k);
  }

  const NOTHING: Config :=
    Config(map[], TypeItem(map[], map[]), TypeItem(map[], map[]), TypeItem(map[], map[]))

  /** Deleting a key for a plugin that was never configured takes it from every other plugin of the type. */
  lemma {:induction false} DeleteSpills(t: int, k: string, v: Value, name: string, ver: int, name': string, ver': int)
    requires KindOf(t).Some? && k != "" && name != name'
    ensures var s := Next(State(NOTHING, map[]), MergeAt(t, "", 0, map[k := v]));
      var u := Next(s, DeleteAt(t, name, ver, k));
      && Answer(s, t, name', ver').Some? && Find(Answer(s, t, name', ver').value, k) == Some(v)
      && Answer(u, t, name', ver').Some? && Find(Answer(u, t, name', ver').value, k) == None
  {
    var op := MergeAt(t, "", 0, map[k := v]);
    var s, kind := Next(State(NOTHING, map[]), op), KindOf(t).value;
    GetShows(State(NOTHING, map[]), op, t, name', ver', k);
    PlacesChange(NOTHING, op, kind, name', ver');
    DeleteIsolatedIff(s, t, name, ver, k, t, name', ver', k);
  }

  /** A plugin's first version gets a layer of its own. */
  lemma {:induction false} FirstVersion(kind: Kind, name: string, ver: int, op: Op)
    requires name != "" && ver > 0 && op.MergeAt? && op.name == name && op.ver == ver
    requires KindOf(op.pluginType) == Some(kind)
    ensures var c := Changed(NOTHING, op);
      && (forall other | other != ver :: Whole(c, kind, name, other))
      && At(c, OfVersion(kind, name, ver)) == Merged(map[], op.cdn)
  {
    ItemReplaced(NOTHING, kind, ItemMerged(ItemOf(NOTHING, kind), name, ver, op.cdn), kind);
  }

  /** Of two versions configured one after the other, the second is configured for all. */
  lemma {:induction false} MergeSpills(t: int, name: string, first: int, second: int, cdn: Table, k: string, v: Value)
    requires KindOf(t).Some? && name != "" && k != "" && k !in cdn && 0 < first && first != second
    ensures var s := Next(State(NOTHING, map[]), MergeAt(t, name, first, cdn));
      var u := Next(s, MergeAt(t, name, second, map[k := v]));
      Answer(u, t, name, first).Some? && Find(Answer(u, t, name, first).value, k) == Some(v)
  {
    var op := MergeAt(t, name, first, cdn);
    FirstVersion(KindOf(t).value, name, first, op);
    VersionIsolatedIff(Next(State(NOTHING, map[]), op), t, name, second, map[k := v], first, k);
  }

  /** The object behind the operations. */
  class Configuration {
    var config: Config
    var cache: map<string, Table>

    constructor (config: Config)
      ensures View() == State(config, map[])
    {
      this.config, cache := config, map[];
    }

    ghost function View(): State
      reads this
    {
      State(config, cache)
    }

    method MergeGlobal(cdn: Table)
      modifies this
      ensures View() == Next(old(View()), MergeAll(cdn))
    {
      cache := map[];
      config := config.(all := Merged(config.all, cdn));
    }

    method DeleteGlobal(key: string)
      modifies this
      ensures View() == Next(old(View()), DeleteAll(key))
    {
      cache := map[];
      config := config.(all := config.all - {key});
    }

    method MergePlugin(t: int, name: string, ver: int, cdn: Table)
      modifies this
      ensures View() == Next(old(View()), MergeAt(t, name, ver, cdn))
    {
      cache := map[];
      var kind := KindOf(t);
      if kind.None? {
        return;
      }
      var item := ItemOf(config, kind.value);
      if name in item.plugins {
        var p := item.plugins[name];
        if ver in p.versions {
          p := p.(versions := p.versions[ver := Merged(p.versions[ver], cdn)]);
        } else {
          p := p.(node := Merged(p.node, cdn));
        }
        item := item.(plugins := item.plugins[name := p]);
      } else if name != "" {
        var cn := Merged(map[], cdn);
        var p := Plugin(map[], map[]);
        if ver > 0 {
          p := p.(versions := map[ver := cn]);
        } else {
          p := p.(node := cn);
        }
        item := item.(plugins := item.plugins[name := p]);
      } else {
        item := item.(all := Merged(item.all, cdn));
      }
      config := WithItem(config, kind.value, item);
    }

    method DeletePlugin(t: int, name: string, ver: int, key: string)
      modifies this
      ensures View() == Next(old(View()), DeleteAt(t, name, ver, key))
    {
      cache := map[];
      var kind := KindOf(t);
      if kind.None? {
        return;
      }
      var item := ItemOf(config, kind.value);
      if name in item.plugins {
        var p := item.plugins[name];
        if ver in p.versions {
          p := p.(versions := p.versions[ver := p.versions[ver] - {key}]);
        } else {
          p := p.(node := p.node - {key});
        }
        item := item.(plugins := item.plugins[name := p]);
      } else {
        item := item.(all := item.all - {key});
      }
      config := WithItem(config, kind.value, item);
    }

    method GetPlugin(t: int, name: string, ver: int) returns (r: Option<Table>)
      modifies this
      ensures View() == Next(old(View()), Get(t, name, ver)) && r == Answer(old(View()), t, name, ver)
    {
      var key := Key(t, name, ver);
      if key in cache {
        return Some(cache[key]);
      }
      var node := Merged(map[], config.all);
      var kind := KindOf(t);
      if kind.None? {
        FoldedOnce(config.all);
        cache := cache[key := node];
        return None;
      }
      var item := ItemOf(config, kind.value);
      ghost var layers := [config.all];
      FoldedOnce(config.all);
      node := Merged(node, item.all);
      FoldedNext(layers, item.all);
      layers := layers + [item.all];
      if name in item.plugins {
        var p := item.plugins[name];
        node := Merged(node, p.node);
        FoldedNext(layers, p.node);
        layers := layers + [p.node];
        if ver in p.versions {
          node := Merged(node, p.versions[ver]);
          FoldedNext(layers, p.versions[ver]);
          layers := layers + [p.versions[ver]];
        }
      }
      assert layers == LayersOf(config, t, name, ver);
      cache := cache[key := node];
      return Some(node);
    }
  }

  lemma {:induction false} FoldedOnce(t: Table)
    ensures Folded([t]) == Merged(map[], t)
  {
    assert [t][..0] == [];
  }

  lemma {:induction false} FoldedNext(ls: seq<Table>, t: Table)
    ensures Folded(ls + [t]) == Merged(Folded(ls), t)
  {
    assert (ls + [t])[..|ls|] == ls;
  }
}
