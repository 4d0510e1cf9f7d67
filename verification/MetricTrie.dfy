/** The metric catalog's index: a trie over namespace elements whose nodes hold metrics by
version (control/mttrie.go).

A node is a value and is named by its path from the root, which is also its identity: nodes
are never shared. A Go map is iterated in no particular order, so the lists the queries return
are specified up to order.
*/
module MetricTrie {
  import opened Wrappers

  type Path = seq<string>

  datatype Metric = Metric(ns: Path, version: int, pluginKey: string)

  /** The children of a node: a nil map differs from an empty one. */
  datatype Children = Nil | Map(kids: map<string, Node>)

  datatype Node = Node(children: Children, mts: Option<map<int, Metric>>)

  function Kids(t: Node): map<string, Node> {
    if t.children.Map? then t.children.kids else map[]
  }

  function Mts(t: Node): map<int, Metric> {
    if t.mts.Some? then t.mts.value else map[]
  }

  /** The node at a path. */
  function At(t: Node, p: Path): Option<Node>
    decreases |p|
  {
    if p == [] then Some(t)
    else if p[0] in Kids(t) then At(Kids(t)[p[0]], p[1..])
    else None
  }

  /** The trie as a finite map: the metric stored for a namespace and a version. */
  function Lookup(t: Node, p: Path, v: int): Option<Metric> {
    match At(t, p)
    case Some(n) => if v in Mts(n) then Some(Mts(n)[v]) else None
    case None => None
  }

  ghost function Entries(t: Node): imap<(Path, int), Metric> {
    imap k: (Path, int) | Lookup(t, k.0, k.1).Some? :: Lookup(t, k.0, k.1).value
  }

  /** Every metric is stored under its own namespace and version. */
  ghost predicate Keyed(t: Node) {
    forall p, v :: Lookup(t, p, v).Some? ==> Lookup(t, p, v).value.ns == p && Lookup(t, p, v).value.version == v
  }

  lemma {:induction false} AtConcat(t: Node, p: Path, q: Path)
    ensures At(t, p + q) == if At(t, p).Some? then At(At(t, p).value, q) else None
    decreases |p|
  {
    if p == [] {
      assert p + q == q;
    } else {
      assert (p + q)[1..] == p[1..] + q;
      if p[0] in Kids(t) {
        AtConcat(Kids(t)[p[0]], p[1..], q);
      }
    }
  }

  // ---- Updates ----

  function Insert(t: Node, p: Path, m: Metric): Node
    decreases |p|
  {
    if p == [] then t.(mts := Some(Mts(t)[m.version := m]))
    else
      var child := if p[0] in Kids(t) then Kids(t)[p[0]] else Node(Nil, None);
      t.(children := Map(Kids(t)[p[0] := Insert(child, p[1..], m)]))
  }

  /** Delete from the node at p every metric of the given version. */
  function Prune(t: Node, p: Path, ver: int): Node
    decreases |p|
  {
    if p == [] then
      if t.mts.None? then t else t.(mts := Some(map v | v in Mts(t) && Mts(t)[v].version != ver :: Mts(t)[v]))
    else if p[0] in Kids(t) then t.(children := Map(Kids(t)[p[0] := Prune(Kids(t)[p[0]], p[1..], ver)]))
    else t
  }

  /** Cut off the node at p. */
  function Cut(t: Node, p: Path): Node
    requires p != []
    decreases |p|
  {
    if p[0] !in Kids(t) then t
    else if |p| == 1 then t.(children := Map(Kids(t) - {p[0]}))
    else t.(children := Map(Kids(t)[p[0] := Cut(Kids(t)[p[0]], p[1..])]))
  }

  lemma {:induction false} InsertLookup(t: Node, p: Path, m: Metric, q: Path, v: int)
    ensures Lookup(Insert(t, p, m), q, v) == if q == p && v == m.version then Some(m) else Lookup(t, q, v)
    decreases |p|
  {
    if p != [] && q != [] && q[0] == p[0] {
      var child := if p[0] in Kids(t) then Kids(t)[p[0]] else Node(Nil, None);
      assert q == [q[0]] + q[1..] && p == [p[0]] + p[1..];
      InsertLookup(child, p[1..], m, q[1..], v);
    }
  }

  lemma {:induction false} PruneLookup(t: Node, p: Path, ver: int, q: Path, v: int)
    ensures Lookup(Prune(t, p, ver), q, v) ==
            if q == p && Lookup(t, q, v).Some? && Lookup(t, q, v).value.version == ver then None else Lookup(t, q, v)
    decreases |p|
  {
    if p != [] && q != [] && q[0] == p[0] && p[0] in Kids(t) {
      assert q == [q[0]] + q[1..] && p == [p[0]] + p[1..];
      PruneLookup(Kids(t)[p[0]], p[1..], ver, q[1..], v);
    }
  }

  lemma {:induction false} CutLookup(t: Node, p: Path, q: Path, v: int)
    requires p != []
    ensures Lookup(Cut(t, p), q, v) == if p <= q then None else Lookup(t, q, v)
    decreases |p|
  {
    if q != [] && q[0] == p[0] && p[0] in Kids(t) && |p| > 1 {
      CutLookup(Kids(t)[p[0]], p[1..], q[1..], v);
      assert p <= q <==> p[1..] <= q[1..] by {
        assert p == [p[0]] + p[1..] && q == [q[0]] + q[1..];
      }
    }
  }

  // ---- Queries ----

  /** Is there a node at p with a (possibly empty) map of metrics? */
  predicate HoldsMts(t: Node, p: Path) {
    At(t, p).Some? && At(t, p).value.mts.Some?
  }

  /** Stepping from the node at path at to its child k. */
  lemma {:induction false} Below(t: Node, at: Path, k: string, p: Path)
    requires k in Kids(t) && at + [k] <= p
    ensures at <= p && |p| > |at| && p[|at|] == k && p[|at|..] == [k] + p[|at| + 1..]
    ensures p[|at|..][1..] == p[|at| + 1..]
    ensures HoldsMts(t, p[|at|..]) == HoldsMts(Kids(t)[k], p[|at| + 1..])
  {
  }

  lemma {:induction false} Extends(at: Path, k: string, p: Path)
    requires at <= p && |p| > |at| && p[|at|] == k
    ensures at + [k] <= p
  {
  }

  lemma {:induction false} JoinNoRepeats<T>(s: seq<T>, r: seq<T>)
    requires NoRepeats(s) && NoRepeats(r) && forall x | x in r :: x !in s
    ensures NoRepeats(s + r)
  {
    forall i, j | 0 <= i < j < |s + r| ensures (s + r)[i] != (s + r)[j] {
      if i < |s| <= j {
        assert r[j - |s|] in r && s[i] in s;
      }
    }
  }

  /** gatherDescendants: all nodes strictly below t, which itself is at path at. */
  method GatherDescendants(t: Node, at: Path) returns (ps: seq<Path>)
    ensures NoRepeats(ps)
    ensures forall p :: p in ps <==> at <= p && |p| > |at| && HoldsMts(t, p[|at|..])
    decreases t, 0
  {
    ps := [];
    var todo := Kids(t).Keys;
    while todo != {}
      invariant todo <= Kids(t).Keys && NoRepeats(ps)
      invariant forall p :: p in ps <==> at <= p && |p| > |at| && p[|at|] !in todo && HoldsMts(t, p[|at|..])
      decreases |todo|
    {
      var k :| k in todo;
      var found := FetchAll(t.children.kids[k], at + [k]);
      forall p ensures p in found <==> at <= p && |p| > |at| && p[|at|] == k && HoldsMts(t, p[|at|..]) {
        if at + [k] <= p {
          Below(t, at, k, p);
        } else if at <= p && |p| > |at| && p[|at|] == k {
          Extends(at, k, p);
        }
      }
      JoinNoRepeats(ps, found);
      ps, todo := ps + found, todo - {k};
    }
    assert forall p :: at <= p && |p| > |at| && HoldsMts(t, p[|at|..]) ==> p[|at|..][0] == p[|at|];
  }

  /** fetch([]): t, if it holds metrics, and everything below it. */
  method FetchAll(t: Node, at: Path) returns (ps: seq<Path>)
    ensures NoRepeats(ps) && forall p :: p in ps <==> at <= p && HoldsMts(t, p[|at|..])
    decreases t, 1
  {
    ps := [];
    if t.mts.Some? {
      ps := [at];
    }
    if t.children.Map? {
      var below := GatherDescendants(t, at);
      ps := ps + below;
    }
    forall p ensures p in ps <==> at <= p && HoldsMts(t, p[|at|..]) {
      if at <= p && |p| == |at| {
        assert p == at && p[|at|..] == [];
      }
    }
  }

  /** Does a query element take the child k? A name takes its exact child or, when there is none,
      the child `*`; the element `*` takes every child. */
  predicate Takes(t: Node, name: string, k: string) {
    k in Kids(t) && (name == "*" || k == name || (name !in Kids(t) && k == "*"))
  }

  method GatherChildren(t: Node, name: string) returns (ks: seq<string>)
    ensures NoRepeats(ks) && forall k :: k in ks <==> Takes(t, name, k)
  {
    ks := [];
    if name == "*" {
      var todo := Kids(t).Keys;
      while todo != {}
        invariant todo <= Kids(t).Keys && NoRepeats(ks)
        invariant forall k :: k in ks <==> k in Kids(t) && k !in todo
        decreases |todo|
      {
        var k :| k in todo;
        ks, todo := ks + [k], todo - {k};
      }
    } else if name in Kids(t) {
      ks := [name];
    } else if "*" in Kids(t) {
      ks := ["*"];
    }
  }

  /** The rule of a query, one element at a time. */
  predicate Reaches(t: Node, q: Path, r: Path)
    requires q != []
    decreases |q|
  {
    t.children.Map? &&
    if |q| == 1 then (if q[0] == "*" then HoldsMts(t, r) else |r| == 1 && Takes(t, q[0], r[0]))
    else r != [] && Takes(t, q[0], r[0]) && Reaches(Kids(t)[r[0]], q[1..], r[1..])
  }

  method Search(t: Node, at: Path, ns: Path) returns (ps: seq<Path>)
    requires ns != []
    ensures NoRepeats(ps)
    ensures forall p :: p in ps <==> at <= p && Reaches(t, ns, p[|at|..])
    decreases |ns|
  {
    if t.children.Nil? {
      return [];
    }
    if |ns| == 1 && ns[0] == "*" {
      ps := FetchAll(t, at);
      return;
    }
    var ks := GatherChildren(t, ns[0]);
    ps := [];
    for i := 0 to |ks|
      invariant NoRepeats(ps)
      invariant forall p :: p in ps <==> at <= p && |p| > |at| && p[|at|] in ks[..i] && Reaches(t, ns, p[|at|..])
    {
      var k := ks[i];
      assert Takes(t, ns[0], k) && ks[..i + 1] == ks[..i] + [k] && k !in ks[..i];
      var found := [at + [k]];
      if |ns| > 1 {
        found := Search(Kids(t)[k], at + [k], ns[1..]);
      }
      FoundBelow(t, at, k, ns, found);
      JoinNoRepeats(ps, found);
      ps := ps + found;
    }
    assert ks[..|ks|] == ks;
    forall p ensures at <= p && Reaches(t, ns, p[|at|..]) ==> |p| > |at| && p[|at|] in ks {
      if at <= p && Reaches(t, ns, p[|at|..]) {
        ReachesTakes(t, ns, p[|at|..]);
      }
    }
  }

  lemma {:induction false} ReachesTakes(t: Node, q: Path, r: Path)
    requires q != [] && !(|q| == 1 && q[0] == "*") && Reaches(t, q, r)
    ensures r != [] && Takes(t, q[0], r[0])
  {
  }

  /** What a child contributes to a search: the paths through it that the query reaches. */
  lemma {:induction false} ReachesBelow(t: Node, at: Path, k: string, ns: Path, p: Path)
    requires t.children.Map? && ns != [] && !(|ns| == 1 && ns[0] == "*") && Takes(t, ns[0], k)
    requires at <= p && |p| > |at| && p[|at|] == k
    ensures Reaches(t, ns, p[|at|..]) <==>
              if |ns| == 1 then p == at + [k] else Reaches(Kids(t)[k], ns[1..], p[|at| + 1..])
  {
    Extends(at, k, p);
    Below(t, at, k, p);
    assert |p| == |at| + 1 <==> p == at + [k];
  }

  lemma {:induction false} FoundBelow(t: Node, at: Path, k: string, ns: Path, found: seq<Path>)
    requires t.children.Map? && ns != [] && !(|ns| == 1 && ns[0] == "*") && Takes(t, ns[0], k)
    requires |ns| == 1 ==> found == [at + [k]]
    requires |ns| > 1 ==> forall p :: p in found <==> at + [k] <= p && Reaches(Kids(t)[k], ns[1..], p[|at + [k]|..])
    ensures forall p :: p in found <==> at <= p && |p| > |at| && p[|at|] == k && Reaches(t, ns, p[|at|..])
  {
    forall p ensures p in found <==> at <= p && |p| > |at| && p[|at|] == k && Reaches(t, ns, p[|at|..]) {
      if at <= p && |p| > |at| && p[|at|] == k {
        Extends(at, k, p);
        ReachesBelow(t, at, k, ns, p);
      }
    }
  }

  /** The first k elements of the path are each taken by the query's element at the node reached. */
  ghost predicate Follows(t: Node, q: Path, r: Path, k: nat)
    requires k <= |q| && k <= |r|
  {
    forall i | 0 <= i < k :: At(t, r[..i]).Some? && Takes(At(t, r[..i]).value, q[i], r[i])
  }

  /** The rule of a query, stated over whole paths: r follows the query element by element, each time
      as far as the trie has exact children; a final `*` then takes the node reached, if it has a map
      of children, and all nodes below it. */
  ghost predicate Selected(t: Node, q: Path, r: Path)
    requires q != []
  {
    var wild := q[|q| - 1] == "*";
    var k := if wild then |q| - 1 else |q|;
    && k <= |r|
    && Follows(t, q, r, k)
    && if wild then At(t, r[..k]).Some? && At(t, r[..k]).value.children.Map? && HoldsMts(t, r) else |r| == k
  }

  lemma {:induction false} AtTail(t: Node, r: Path, i: nat)
    requires 1 <= i <= |r| && r[0] in Kids(t)
    ensures At(t, r[..i]) == At(Kids(t)[r[0]], r[1..][..i - 1])
  {
    assert r[..i][1..] == r[1..][..i - 1];
  }

  /** The element-wise rule and the rule over whole paths agree. */
  lemma {:induction false} ReachesIff(t: Node, q: Path, r: Path)
    requires q != []
    ensures Reaches(t, q, r) <==> Selected(t, q, r)
    decreases |q|
  {
    if |q| == 1 {
      assert r[..0] == [];
    } else if r != [] && Takes(t, q[0], r[0]) {
      ReachesIff(Kids(t)[r[0]], q[1..], r[1..]);
      SelectedTail(t, q, r);
    } else {
      assert |r| > 0 ==> r[..0] == [];
    }
  }

  lemma {:induction false} FollowsTail(t: Node, q: Path, r: Path, k: nat)
    requires q != [] && r != [] && 1 <= k <= |q| && k <= |r| && Takes(t, q[0], r[0])
    ensures Follows(t, q, r, k) <==> Follows(Kids(t)[r[0]], q[1..], r[1..], k - 1)
  {
    var child := Kids(t)[r[0]];
    assert r[..0] == [];
    forall i | 1 <= i <= |r| ensures At(t, r[..i]) == At(child, r[1..][..i - 1]) { AtTail(t, r, i); }
    if Follows(t, q, r, k) {
      forall i | 0 <= i < k - 1 ensures At(child, r[1..][..i]).Some?
          && Takes(At(child, r[1..][..i]).value, q[1..][i], r[1..][i]) {
        assert At(t, r[..i + 1]).Some? && Takes(At(t, r[..i + 1]).value, q[i + 1], r[i + 1]);
      }
    }
    if Follows(child, q[1..], r[1..], k - 1) {
      forall i | 0 <= i < k ensures At(t, r[..i]).Some? && Takes(At(t, r[..i]).value, q[i], r[i]) {
        if i > 0 {
          assert Takes(At(child, r[1..][..i - 1]).value, q[1..][i - 1], r[1..][i - 1]);
        }
      }
    }
  }

  lemma {:induction false} SelectedTail(t: Node, q: Path, r: Path)
    requires |q| > 1 && r != [] && Takes(t, q[0], r[0])
    ensures Selected(t, q, r) <==> Selected(Kids(t)[r[0]], q[1..], r[1..])
  {
    var k := if q[|q| - 1] == "*" then |q| - 1 else |q|;
    assert r == [r[0]] + r[1..];
    if k <= |r| {
      FollowsTail(t, q, r, k);
      AtTail(t, r, k);
    }
  }

  /** What a query selects matches it: each element of the path is the query's, or either of them is a
      wildcard. */
  lemma {:induction false} SelectedMatches(t: Node, q: Path, r: Path, i: nat)
    requires q != [] && Selected(t, q, r) && i < |q| && i < |r|
    ensures q[i] == "*" || r[i] == q[i] || r[i] == "*"
  {
  }

  lemma {:induction false} AtPrefix(t: Node, p: Path, i: nat)
    requires At(t, p).Some? && i < |p|
    ensures At(t, p[..i]).Some? && p[i] in Kids(At(t, p[..i]).value)
  {
    assert p == p[..i] + p[i..];
    AtConcat(t, p[..i], p[i..]);
  }

  lemma {:induction false} SamePath(q: Path, r: Path)
    requires |q| == |r| && forall i | 0 <= i < |q| :: q[i] == r[i]
    ensures q == r
  {
  }

  /** A query without wildcards for a namespace that has a node selects that node and nothing else, also
      where there are wildcard children beside it. */
  lemma {:induction false} ExactQuery(t: Node, q: Path, r: Path)
    requires q != [] && "*" !in q && At(t, q).Some?
    ensures Selected(t, q, r) <==> r == q
  {
    assert forall i | 0 <= i < |q| :: q[i] in q;
    if r == q {
      forall i | 0 <= i < |q|
        ensures At(t, r[..i]).Some? && Takes(At(t, r[..i]).value, q[i], r[i])
      {
        AtPrefix(t, q, i);
      }
    } else if Selected(t, q, r) {
      ExactPrefix(t, q, r, |q|);
      SamePath(q, r);
    }
  }

  lemma {:induction false} ExactPrefix(t: Node, q: Path, r: Path, k: nat)
    requires "*" !in q && At(t, q).Some? && k <= |q| && k <= |r| && Follows(t, q, r, k)
    ensures q[..k] == r[..k]
    decreases k
  {
    if k > 0 {
      ExactPrefix(t, q, r, k - 1);
      AtPrefix(t, q, k - 1);
      assert Takes(At(t, r[..k - 1]).value, q[k - 1], r[k - 1]) && q[k - 1] in q;
      assert q[..k] == q[..k - 1] + [q[k - 1]] && r[..k] == r[..k - 1] + [r[k - 1]];
    }
  }

  /** A query of wildcards alone selects every node with metrics that is at most one level less deep and
      is, or lies below, a node with children there. */
  lemma {:induction false} WildQuery(t: Node, q: Path, r: Path)
    requires q != [] && forall e | e in q :: e == "*"
    ensures Selected(t, q, r) <==>
      |r| >= |q| - 1 && HoldsMts(t, r) && At(t, r[..|q| - 1]).Some? && At(t, r[..|q| - 1]).value.children.Map?
  {
    assert forall i | 0 <= i < |q| :: q[i] in q;
    if |r| >= |q| - 1 && HoldsMts(t, r) {
      forall i | 0 <= i < |q| - 1
        ensures At(t, r[..i]).Some? && Takes(At(t, r[..i]).value, q[i], r[i])
      {
        AtPrefix(t, r, i);
      }
    }
  }

  /** A name that has no child of its own is served by the wildcard child, if there is one: so a query for
      a namespace that differs from an indexed one only in such an element selects the indexed one. */
  lemma {:induction false} DynamicElementServed(t: Node, q: Path, r: Path, k: nat)
    requires q != [] && "*" !in q && |r| == |q| && k < |q| && r[k] == "*" && At(t, r).Some?
    requires forall i | 0 <= i < |q| && i != k :: q[i] == r[i]
    requires At(t, r[..k]).Some? && q[k] !in Kids(At(t, r[..k]).value)
    ensures Selected(t, q, r)
  {
    assert forall i | 0 <= i < |q| :: q[i] in q;
    forall i | 0 <= i < |q|
      ensures At(t, r[..i]).Some? && Takes(At(t, r[..i]).value, q[i], r[i])
    {
      AtPrefix(t, r, i);
    }
  }

  // ---- Versions and listings ----

  /** m is the metric of the requested version or, when ver < 1, of the greatest one. */
  ghost predicate Chosen(mts: map<int, Metric>, ver: int, m: Metric) {
    exists v :: v in mts && mts[v] == m && if ver > 0 then v == ver else forall w | w in mts :: w <= v
  }

  method GetLatest(mts: map<int, Metric>) returns (m: Metric)
    requires mts != map[]
    ensures Chosen(mts, 0, m)
  {
    assert mts.Items != {};
    var first :| first in mts.Items;
    var best := first.0;
    var todo := mts.Items;
    while todo != {}
      invariant todo <= mts.Items && best in mts && forall kv | kv in mts.Items && kv !in todo :: kv.0 <= best
      decreases |todo|
    {
      var kv :| kv in todo;
      if kv.0 > best {
        best := kv.0;
      }
      todo := todo - {kv};
    }
    assert forall w | w in mts :: (w, mts[w]) in mts.Items;
    m := mts[best];
  }

  method GetVersion(mts: map<int, Metric>, ver: int) returns (r: Option<Metric>)
    ensures forall m :: Chosen(mts, ver, m) <==> r == Some(m)
  {
    if mts == map[] {
      return None;
    }
    if ver > 0 {
      return if ver in mts then Some(mts[ver]) else None;
    }
    var m := GetLatest(mts);
    var v :| v in mts && mts[v] == m && forall w | w in mts :: w <= v;
    forall m' | Chosen(mts, ver, m') ensures m' == m {
      var v' :| v' in mts && mts[v'] == m' && forall w | w in mts :: w <= v';
    }
    r := Some(m);
  }

  /** All metrics, in every version, of the nodes at the given paths. */
  method ListMetrics(t: Node, ps: seq<Path>) returns (ms: seq<Metric>)
    requires Keyed(t) && NoRepeats(ps)
    ensures NoRepeats(ms)
    ensures forall m :: m in ms <==> m.ns in ps && Lookup(t, m.ns, m.version) == Some(m)
  {
    ms := [];
    for i := 0 to |ps|
      invariant NoRepeats(ms)
      invariant forall m :: m in ms <==> m.ns in ps[..i] && Lookup(t, m.ns, m.version) == Some(m)
    {
      assert ps[..i + 1] == ps[..i] + [ps[i]] && ps[i] !in ps[..i];
      var at := At(t, ps[i]);
      if at.Some? {
        var mts := Mts(at.value);
        var todo := mts.Items;
        while todo != {}
          invariant todo <= mts.Items && NoRepeats(ms)
          invariant forall m :: m in ms <==>
              (m.ns in ps[..i] || (m.ns == ps[i] && (m.version, m) !in todo)) && Lookup(t, m.ns, m.version) == Some(m)
          decreases |todo|
        {
          var kv :| kv in todo;
          assert Lookup(t, ps[i], kv.0) == Some(kv.1);
          ms, todo := ms + [kv.1], todo - {kv};
        }
      }
    }
    assert ps[..|ps|] == ps;
  }

  /** Entries without those of the given metrics that belong to a plugin. */
  ghost function Purged(es: imap<(Path, int), Metric>, ms: seq<Metric>, key: string): imap<(Path, int), Metric> {
    imap k | k in es && !(es[k] in ms && es[k].pluginKey == key) :: es[k]
  }

  lemma {:induction false} PurgedNext(es: imap<(Path, int), Metric>, ms: seq<Metric>, m: Metric, key: string)
    requires (forall k | k in es :: k == (es[k].ns, es[k].version)) && (m.ns, m.version) in es
        && es[(m.ns, m.version)] == m
    ensures Purged(es, ms + [m], key) == if m.pluginKey == key then Purged(es, ms, key) - {(m.ns, m.version)}
        else Purged(es, ms, key)
  {
  }

  datatype Removal = Removed | NotFound | Panics

  class MTTrie {
    var root: Node

    ghost predicate Valid()
      reads this
    {
      Keyed(root)
    }

    constructor ()
      ensures Valid() && Entries(root) == imap[]
    {
      root := Node(Map(map[]), None);
    }

    /** walk: how far a namespace can be followed. */
    method Walk(ns: Path) returns (index: nat)
      ensures index <= |ns| && At(root, ns[..index]).Some?
      ensures index < |ns| ==> At(root, ns[..index + 1]).None?
    {
      var node := root;
      assert ns[..0] == [];
      for i := 0 to |ns|
        invariant At(root, ns[..i]) == Some(node)
      {
        assert ns[..i + 1] == ns[..i] + [ns[i]];
        AtConcat(root, ns[..i], [ns[i]]);
        if ns[i] !in Kids(node) {
          return i;
        }
        node := Kids(node)[ns[i]];
      }
      assert ns[..|ns|] == ns;
      return |ns|;
    }

    method Find(ns: Path) returns (found: bool)
      ensures found <==> At(root, ns).Some?
    {
      var index := Walk(ns);
      found := index == |ns|;
      assert ns[..|ns|] == ns;
      if !found {
        AtConcat(root, ns[..index + 1], ns[index + 1..]);
        assert ns == ns[..index + 1] + ns[index + 1..];
      }
    }

    /** Add changes exactly the entry of the metric's namespace and version. */
    method Add(m: Metric)
      requires Valid()
      modifies this
      ensures Valid() && Entries(root) == old(Entries(root))[(m.ns, m.version) := m]
    {
      forall q, v ensures Lookup(Insert(root, m.ns, m), q, v) == if q == m.ns && v == m.version then Some(m)
          else Lookup(root, q, v) {
        InsertLookup(root, m.ns, m, q, v);
      }
      root := Insert(root, m.ns, m);
    }

    /** RemoveMetric removes exactly one entry, if it is there. */
    method RemoveMetric(ns: Path, ver: int)
      requires Valid()
      modifies this
      ensures Valid() && Entries(root) == old(Entries(root)) - {(ns, ver)}
    {
      forall q, v ensures Lookup(Prune(root, ns, ver), q, v) == if q == ns && v == ver then None
          else Lookup(root, q, v) {
        PruneLookup(root, ns, ver, q, v);
      }
      root := Prune(root, ns, ver);
    }

    /** Remove cuts off exactly the entries below a namespace; without a namespace it panics. */
    method Remove(ns: Path) returns (r: Removal)
      requires Valid()
      modifies this
      ensures Valid() && r == if ns == [] then Panics else if old(At(root, ns)).Some? then Removed else NotFound
      ensures Entries(root) ==
        if r.Panics? then old(Entries(root))
        else imap k | k in old(Entries(root)) && !(ns <= k.0) :: old(Entries(root))[k]
    {
      var found := Find(ns);
      if ns == [] {
        return Panics;
      }
      forall q, v ensures Lookup(Cut(root, ns), q, v) == if ns <= q then None else Lookup(root, q, v) {
        CutLookup(root, ns, q, v);
      }
      if !found {
        forall q, v | ns <= q ensures Lookup(root, q, v).None? {
          AtConcat(root, ns, q[|ns|..]);
          assert q == ns + q[|ns|..];
        }
        return NotFound;
      }
      root := Cut(root, ns);
      return Removed;
    }

    /** Fetch lists exactly the entries below a namespace, each once; it fails when there are none,
        unless asked for everything. */
    method Fetch(ns: Path) returns (r: Option<seq<Metric>>)
      requires Valid()
      ensures r.None? <==> ns != [] && forall p, v | ns <= p :: Lookup(root, p, v).None?
      ensures r.Some? ==> NoRepeats(r.value)
      ensures r.Some? ==> forall m :: m in r.value <==> ns <= m.ns && Lookup(root, m.ns, m.version) == Some(m)
    {
      var at := At(root, ns);
      var ps := [];
      if at.Some? {
        ps := FetchAll(at.value, ns);
      }
      forall p ensures p in ps <==> ns <= p && HoldsMts(root, p) {
        if ns <= p {
          AtConcat(root, ns, p[|ns|..]);
          assert p == ns + p[|ns|..];
        }
      }
      var ms := ListMetrics(root, ps);
      assert forall p, v | ns <= p && Lookup(root, p, v).Some? :: Lookup(root, p, v).value in ms;
      if ms == [] && ns != [] {
        return None;
      }
      if ns != [] {
        assert Lookup(root, ms[0].ns, ms[0].version).Some?;
      }
      return Some(ms);
    }

    /** gatherMetricTypes: the metrics of all nodes at depth two and more. */
    method GatherMetricTypes() returns (ms: seq<Metric>)
      requires Valid()
      ensures NoRepeats(ms)
      ensures forall m :: m in ms <==> |m.ns| >= 2 && Lookup(root, m.ns, m.version) == Some(m)
    {
      var ps: seq<Path> := [];
      var todo := Kids(root).Keys;
      while todo != {}
        invariant todo <= Kids(root).Keys && NoRepeats(ps)
        invariant forall p :: p in ps <==> |p| >= 2 && p[0] !in todo && HoldsMts(root, p)
        decreases |todo|
      {
        var k :| k in todo;
        var found := GatherDescendants(Kids(root)[k], [k]);
        forall p ensures p in found <==> |p| >= 2 && p[0] == k && HoldsMts(root, p) {
          if [k] <= p {
            assert p[1..] == p[|[k]|..];
          }
        }
        JoinNoRepeats(ps, found);
        ps, todo := ps + found, todo - {k};
      }
      ms := ListMetrics(root, ps);
    }

    /** DeleteByPlugin removes exactly the plugin's entries at depth two and more. */
    method DeleteByPlugin(key: string)
      requires Valid()
      modifies this
      ensures Valid()
      ensures Entries(root) ==
        imap k | k in old(Entries(root)) && !(|k.0| >= 2 && old(Entries(root))[k].pluginKey == key)
               :: old(Entries(root))[k]
    {
      ghost var before := Entries(root);
      var ms := GatherMetricTypes();
      assert forall k | k in before && |k.0| >= 2 :: before[k] in ms;
      for i := 0 to |ms|
        invariant Valid() && Entries(root) == Purged(before, ms[..i], key)
      {
        assert ms[..i + 1] == ms[..i] + [ms[i]] && ms[i] in ms;
        PurgedNext(before, ms[..i], ms[i], key);
        if ms[i].pluginKey == key {
          RemoveMetric(ms[i].ns, ms[i].version);
        }
      }
      assert ms[..|ms|] == ms;
    }

    /** GetMetrics returns, each once, exactly the metrics of the nodes the query selects, in the
        requested version or the greatest one; it fails when there are none. */
    method GetMetrics(ns: Path, ver: int) returns (r: Option<seq<Metric>>)
      requires Valid()
      ensures ns == [] ==> r.None?
      ensures ns != [] ==> (r.None? <==> forall m :: !Answers(root, ns, ver, m))
      ensures r.Some? ==> NoRepeats(r.value) && ns != [] && forall m :: m in r.value <==> Answers(root, ns, ver, m)
    {
      if ns == [] {
        return None;
      }
      var ps := Search(root, [], ns);
      forall p ensures p in ps <==> Selected(root, ns, p) {
        assert p[0..] == p;
        ReachesIff(root, ns, p);
      }
      var ms: seq<Metric> := [];
      for i := 0 to |ps|
        invariant NoRepeats(ms) && forall m :: m in ms <==> m.ns in ps[..i] && Answers(root, ns, ver, m)
      {
        assert ps[..i + 1] == ps[..i] + [ps[i]] && ps[i] !in ps[..i] && ps[i] in ps;
        var at := At(root, ps[i]);
        var mt := GetVersion(if at.Some? then Mts(at.value) else map[], ver);
        if mt.Some? {
          var v :| v in Mts(at.value) && Mts(at.value)[v] == mt.value;
          assert Lookup(root, ps[i], v) == mt;
          ms := ms + [mt.value];
        }
      }
      assert ps[..|ps|] == ps;
      if ms == [] {
        return None;
      }
      assert ms[0] in ms;
      return Some(ms);
    }
  }

  /** m answers the query ns for version ver. */
  ghost predicate Answers(t: Node, ns: Path, ver: int, m: Metric)
    requires ns != []
  {
    Selected(t, ns, m.ns) && At(t, m.ns).Some? && Chosen(Mts(At(t, m.ns).value), ver, m)
  }

  /** That is: m is stored at a selected path, and its version is the requested one or, if none is
      requested, there is no greater one stored there. */
  lemma {:induction false} AnswersIff(t: Node, ns: Path, ver: int, m: Metric)
    requires ns != [] && Keyed(t)
    ensures Answers(t, ns, ver, m) <==>
      && Selected(t, ns, m.ns) && Lookup(t, m.ns, m.version) == Some(m)
      && (if ver >= 1 then m.version == ver else forall v :: Lookup(t, m.ns, v).Some? ==> v <= m.version)
  {
    if At(t, m.ns).Some? {
      var mts := Mts(At(t, m.ns).value);
      if Answers(t, ns, ver, m) {
        var v :| v in mts && mts[v] == m && if ver > 0 then v == ver else forall w | w in mts :: w <= v;
        assert Lookup(t, m.ns, v) == Some(m);
      }
      assert forall v :: v in mts <==> Lookup(t, m.ns, v).Some?;
    }
  }
}
