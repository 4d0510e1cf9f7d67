/** Configuration policies in a tree of namespaces (pkg/ctree/tree.go), where a namespace inherits the
rules of its prefixes (control/plugin/cpolicy/node.go). */
module PolicyTree {
  import opened Wrappers

  datatype Rule = Rule(key: string, body: string)

  /** Rules by key. */
  type Rules = map<string, Rule>

  predicate Keyed(rs: Rules) {
    forall k :: k in rs ==> rs[k].key == k
  }

  class PolicyNode {
    var rules: Rules

    constructor ()
      ensures rules == map[]
    {
      rules := map[];
    }

    method Add(r: Rule)
      modifies this
      ensures rules == old(rules)[r.key := r]
    {
      rules := rules[r.key := r];
    }

    /** Adding the rules of a table, in any order. */
    method AddAll(rs: Rules)
      requires Keyed(rs)
      modifies this
      ensures rules == old(rules) + rs
    {
      var rest := rs;
      while rest != map[]
        invariant Keyed(rest)
        invariant rules + rest == old(rules) + rs
        decreases |rest|
      {
        var k :| k in rest;
        OneRuleLess(rules, rest, k);
        Add(rest[k]);
        rest := rest - {k};
      }
    }

    /** A new node with the other's rules on top of these; both stay as they are. */
    method Merge(other: PolicyNode) returns (no: PolicyNode)
      requires Keyed(rules) && Keyed(other.rules)
      ensures fresh(no) && no.rules == rules + other.rules
    {
      no := new PolicyNode();
      no.AddAll(rules);
      no.AddAll(other.rules);
      assert map[] + rules == rules;
    }
  }

  lemma {:induction false} OneRuleLess(rs: Rules, rest: Rules, k: string)
    requires k in rest
    ensures rs[k := rest[k]] + (rest - {k}) == rs + rest
    ensures |rest - {k}| < |rest|
  {
    assert (rest - {k}).Keys == rest.Keys - {k};
  }

  datatype Node = Node(key: string, policy: Option<Rules>, children: seq<Node>)

  function Added(n: Node, ns: seq<string>, p: Rules): Node
    decreases |ns|, 1, 0
  {
    if ns == [] then n.(policy := Some(p)) else n.(children := AddedTo(n.children, ns, p))
  }

  /** Descend into the child of that name, or append a new one. */
  function AddedTo(cs: seq<Node>, ns: seq<string>, p: Rules): seq<Node>
    requires ns != []
    decreases |ns|, 0, |cs|
  {
    if cs == [] then [Added(Node(ns[0], None, []), ns[1..], p)]
    else if cs[0].key == ns[0] then [Added(cs[0], ns[1..], p)] + cs[1..]
    else [cs[0]] + AddedTo(cs[1..], ns, p)
  }

  function Listed(p: Option<Rules>): seq<Rules> {
    if p.Some? then [p.value] else []
  }

  /** The policies on the way to a namespace, as the tree is walked. */
  function Collected(n: Node, ns: seq<string>): seq<Rules>
    decreases |ns|, 0, 0
  {
    if ns == [] || ns[0] != n.key then [] else Listed(n.policy) + CollectedFrom(n.children, ns[1..])
  }

  function CollectedFrom(cs: seq<Node>, ns: seq<string>): seq<Rules>
    decreases |ns|, 1, |cs|
  {
    if cs == [] then [] else Collected(cs[0], ns) + CollectedFrom(cs[1..], ns)
  }

  /** The policy at exactly one namespace. */
  function Lookup(n: Node, ns: seq<string>): Option<Rules>
    decreases |ns|, 0, 0
  {
    if ns == [] || ns[0] != n.key then None
    else if |ns| == 1 then n.policy
    else LookupIn(n.children, ns[1..])
  }

  function LookupIn(cs: seq<Node>, ns: seq<string>): Option<Rules>
    requires ns != []
    decreases |ns|, 1, |cs|
  {
    if cs == [] then None
    else if cs[0].key == ns[0] then Lookup(cs[0], ns)
    else LookupIn(cs[1..], ns)
  }

  /** Siblings have different names. */
  predicate Distinct(n: Node) {
    DistinctAll(n.children)
  }

  predicate DistinctAll(cs: seq<Node>) {
    cs == [] || (Distinct(cs[0]) && NoneNamed(cs[1..], cs[0].key) && DistinctAll(cs[1..]))
  }

  predicate NoneNamed(cs: seq<Node>, key: string) {
    forall c :: c in cs ==> c.key != key
  }

  lemma {:induction false} AddedKey(n: Node, ns: seq<string>, p: Rules)
    ensures Added(n, ns, p).key == n.key
  {
  }

  lemma {:induction false} AddedToNames(cs: seq<Node>, ns: seq<string>, p: Rules, key: string)
    requires ns != [] && NoneNamed(cs, key) && key != ns[0]
    ensures NoneNamed(AddedTo(cs, ns, p), key)
    decreases |cs|
  {
    if cs == [] {
      AddedKey(Node(ns[0], None, []), ns[1..], p);
    } else if cs[0].key == ns[0] {
      AddedKey(cs[0], ns[1..], p);
    } else {
      assert cs[0] in cs;
      AddedToNames(cs[1..], ns, p, key);
    }
  }

  lemma {:induction false} AddedDistinct(n: Node, ns: seq<string>, p: Rules)
    requires Distinct(n)
    ensures Distinct(Added(n, ns, p)) && Added(n, ns, p).key == n.key
    decreases |ns|, 1, 0
  {
    if ns != [] {
      AddedToDistinct(n.children, ns, p);
    }
  }

  lemma {:induction false} AddedToDistinct(cs: seq<Node>, ns: seq<string>, p: Rules)
    requires DistinctAll(cs) && ns != []
    ensures DistinctAll(AddedTo(cs, ns, p))
    decreases |ns|, 0, |cs|
  {
    if cs == [] {
      AddedDistinct(Node(ns[0], None, []), ns[1..], p);
    } else if cs[0].key == ns[0] {
      AddedDistinct(cs[0], ns[1..], p);
      assert AddedTo(cs, ns, p)[1..] == cs[1..];
    } else {
      AddedToDistinct(cs[1..], ns, p);
      AddedToNames(cs[1..], ns, p, cs[0].key);
      assert AddedTo(cs, ns, p)[1..] == AddedTo(cs[1..], ns, p);
    }
  }

  /** An add changes the policy at its own namespace and nowhere else. */
  lemma {:induction false} AddedLookup(n: Node, ns: seq<string>, p: Rules, path: seq<string>)
    ensures Lookup(Added(n, ns, p), path) == if path == [n.key] + ns then Some(p) else Lookup(n, path)
    decreases |ns|, 1, 0
  {
    if path != [] && path[0] == n.key && ns != [] && |path| > 1 {
      AddedToLookup(n.children, ns, p, path[1..]);
      assert path == [path[0]] + path[1..];
      assert ([n.key] + ns)[1..] == ns;
    } else if path != [] && path[0] == n.key {
      assert path == [path[0]] + path[1..];
    }
  }

  lemma {:induction false} AddedToLookup(cs: seq<Node>, ns: seq<string>, p: Rules, path: seq<string>)
    requires ns != [] && path != []
    ensures LookupIn(AddedTo(cs, ns, p), path) == if path == ns then Some(p) else LookupIn(cs, path)
    decreases |ns|, 0, |cs|
  {
    assert ns == [ns[0]] + ns[1..];
    if cs == [] {
      var n := Node(ns[0], None, []);
      AddedLookup(n, ns[1..], p, path);
      assert LookupIn(AddedTo(cs, ns, p), path) == if path[0] == ns[0] then Lookup(Added(n, ns[1..], p), path)
          else None;
    } else if cs[0].key == ns[0] {
      AddedLookup(cs[0], ns[1..], p, path);
      assert AddedTo(cs, ns, p)[1..] == cs[1..];
    } else {
      AddedToLookup(cs[1..], ns, p, path);
      assert AddedTo(cs, ns, p)[1..] == AddedTo(cs[1..], ns, p);
    }
  }

  lemma {:induction false} NoneCollected(cs: seq<Node>, ns: seq<string>)
    requires ns == [] || NoneNamed(cs, ns[0])
    ensures CollectedFrom(cs, ns) == []
    ensures ns != [] ==> LookupIn(cs, ns) == None
    decreases |cs|
  {
    if cs != [] {
      assert cs[0] in cs;
      NoneCollected(cs[1..], ns);
    }
  }

  /** The walk to a namespace is the walk to its parent, and then its own policy. */
  lemma {:induction false} CollectedNext(n: Node, ns: seq<string>)
    requires Distinct(n) && ns != []
    ensures Collected(n, ns) == Collected(n, ns[..|ns| - 1]) + Listed(Lookup(n, ns))
    decreases |ns|, 0, 0
  {
    if ns[0] == n.key {
      if |ns| == 1 {
        NoneCollected(n.children, []);
        assert ns[1..] == [] && ns[..0] == [];
      } else {
        var rest, up := ns[1..], ns[..|ns| - 1];
        CollectedFromNext(n.children, rest);
        assert up[1..] == rest[..|rest| - 1];
      }
    }
  }

  lemma {:induction false} CollectedFromNext(cs: seq<Node>, ns: seq<string>)
    requires DistinctAll(cs) && ns != []
    ensures CollectedFrom(cs, ns) == CollectedFrom(cs, ns[..|ns| - 1]) + Listed(LookupIn(cs, ns))
    decreases |ns|, 1, |cs|
  {
    if cs != [] {
      var up := ns[..|ns| - 1];
      if cs[0].key == ns[0] {
        CollectedNext(cs[0], ns);
        NoneCollected(cs[1..], ns);
        NoneCollected(cs[1..], up);
      } else {
        CollectedFromNext(cs[1..], ns);
      }
    }
  }

  // Runs of adds, and what a namespace inherits.

  /** The policies last added, by namespace. */
  type Store = map<seq<string>, Rules>

  function Find(m: Store, ns: seq<string>): Option<Rules> {
    if ns in m then Some(m[ns]) else None
  }

  /** The policies stored at the prefixes of a namespace, shortest first. */
  function Inherited(m: Store, ns: seq<string>): seq<Rules> {
    if ns == [] then [] else Inherited(m, ns[..|ns| - 1]) + Listed(Find(m, ns))
  }

  function Folded(ps: seq<Rules>): Rules {
    if ps == [] then map[] else Folded(ps[..|ps| - 1]) + ps[|ps| - 1]
  }

  /** The rule of the deepest prefix that has one for the key. */
  function Deepest(m: Store, ns: seq<string>, k: string): Option<Rule> {
    if ns == [] then None
    else if ns in m && k in m[ns] then Some(m[ns][k])
    else Deepest(m, ns[..|ns| - 1], k)
  }

  type Tree = Option<Node>

  datatype Result = Done(tree: Tree) | Panicked

  function TreeAdded(t: Tree, ns: seq<string>, p: Rules): Result {
    if ns == [] then Done(t)
    else if t.None? then Done(Some(Added(Node(ns[0], None, []), ns[1..], p)))
    else if ns[0] != t.value.key then Panicked
    else Done(Some(Added(t.value, ns[1..], p)))
  }

  function Answer(t: Tree, ns: seq<string>): Option<Rules> {
    if t.None? || Collected(t.value, ns) == [] then None else Some(Folded(Collected(t.value, ns)))
  }

  datatype Addition = Addition(ns: seq<string>, policy: Rules)

  function Run(t: Tree, adds: seq<Addition>): Result
    decreases |adds|
  {
    if adds == [] then Done(t) else
    var r := TreeAdded(t, adds[0].ns, adds[0].policy);
    if r.Panicked? then r else Run(r.tree, adds[1..])
  }

  function Stored(m: Store, adds: seq<Addition>): Store
    decreases |adds|
  {
    if adds == [] then m
    else Stored(if adds[0].ns == [] then m else m[adds[0].ns := adds[0].policy], adds[1..])
  }

  ghost predicate Represents(t: Tree, m: Store) {
    if t.None? then m == map[]
    else Distinct(t.value) && forall ns :: Lookup(t.value, ns) == Find(m, ns)
  }

  lemma {:induction false} AddRepresents(t: Tree, m: Store, ns: seq<string>, p: Rules)
    requires Represents(t, m) && ns != [] && TreeAdded(t, ns, p).Done?
    ensures Represents(TreeAdded(t, ns, p).tree, m[ns := p])
  {
    var n := if t.None? then Node(ns[0], None, []) else t.value;
    var q := Added(n, ns[1..], p);
    AddedDistinct(n, ns[1..], p);
    assert ns == [n.key] + ns[1..];
    forall path
      ensures Lookup(q, path) == Find(m[ns := p], path)
    {
      AddedLookup(n, ns[1..], p, path);
      if t.None? {
        assert Lookup(n, path) == None;
      }
    }
  }

  lemma {:induction false} RunRepresents(t: Tree, m: Store, adds: seq<Addition>)
    requires Represents(t, m) && Run(t, adds).Done?
    ensures Represents(Run(t, adds).tree, Stored(m, adds))
    decreases |adds|
  {
    if adds != [] {
      if adds[0].ns != [] {
        AddRepresents(t, m, adds[0].ns, adds[0].policy);
      }
      var m' := if adds[0].ns == [] then m else m[adds[0].ns := adds[0].policy];
      RunRepresents(TreeAdded(t, adds[0].ns, adds[0].policy).tree, m', adds[1..]);
    }
  }

  lemma {:induction false} CollectedIsInherited(n: Node, m: Store, ns: seq<string>)
    requires Represents(Some(n), m)
    ensures Collected(n, ns) == Inherited(m, ns)
    decreases |ns|
  {
    if ns != [] {
      CollectedNext(n, ns);
      CollectedIsInherited(n, m, ns[..|ns| - 1]);
    }
  }

  lemma {:induction false} NothingInherited(ns: seq<string>)
    ensures Inherited(map[], ns) == []
    decreases |ns|
  {
    if ns != [] {
      NothingInherited(ns[..|ns| - 1]);
    }
  }

  /** After any adds under one root, Get folds the policies last added at the prefixes of the
      namespace, shortest first. */
  lemma {:induction false} GetFoldsPrefixes(adds: seq<Addition>, ns: seq<string>)
    requires Run(None, adds).Done?
    ensures var ps := Inherited(Stored(map[], adds), ns);
      Answer(Run(None, adds).tree, ns) == if ps == [] then None else Some(Folded(ps))
  {
    var t, m := Run(None, adds).tree, Stored(map[], adds);
    RunRepresents(None, map[], adds);
    if t.None? {
      NothingInherited(ns);
    } else {
      CollectedIsInherited(t.value, m, ns);
    }
  }

  lemma {:induction false} FoldedNext(ps: seq<Rules>, p: Rules)
    ensures Folded(ps + [p]) == Folded(ps) + p
  {
    assert (ps + [p])[..|ps|] == ps;
  }

  lemma {:induction false} FoldedIsDeepest(m: Store, ns: seq<string>, k: string)
    ensures var f := Folded(Inherited(m, ns));
      if k in f then Deepest(m, ns, k) == Some(f[k]) else Deepest(m, ns, k) == None
    decreases |ns|
  {
    if ns != [] {
      var up := ns[..|ns| - 1];
      FoldedIsDeepest(m, up, k);
      if ns in m {
        FoldedNext(Inherited(m, up), m[ns]);
      } else {
        assert Inherited(m, ns) == Inherited(m, up);
      }
    }
  }

  /** So each key's rule comes from the deepest prefix that defines it. */
  lemma {:induction false} DeepestPrefixWins(adds: seq<Addition>, ns: seq<string>, k: string)
    requires Run(None, adds).Done?
    ensures var a := Answer(Run(None, adds).tree, ns);
      Deepest(Stored(map[], adds), ns, k) == if a.Some? && k in a.value then Some(a.value[k]) else None
  {
    GetFoldsPrefixes(adds, ns);
    FoldedIsDeepest(Stored(map[], adds), ns, k);
  }

  /** All adds go under one root. */
  predicate OneRoot(adds: seq<Addition>, root: string) {
    forall a :: a in adds && a.ns != [] ==> a.ns[0] == root
  }

  lemma {:induction false} OneRootNext(adds: seq<Addition>, root: string)
    requires adds != []
    ensures OneRoot(adds, root) <==> (adds[0].ns == [] || adds[0].ns[0] == root) && OneRoot(adds[1..], root)
  {
    assert forall b :: b in adds <==> b == adds[0] || b in adds[1..];
  }

  lemma {:induction false} PanicsIff(adds: seq<Addition>, n: Node)
    ensures Run(Some(n), adds).Panicked? <==> !OneRoot(adds, n.key)
    decreases |adds|
  {
    if adds != [] {
      var a := adds[0];
      OneRootNext(adds, n.key);
      if a.ns == [] || a.ns[0] == n.key {
        PanicsIff(adds[1..], if a.ns == [] then n else Added(n, a.ns[1..], a.policy));
      }
    }
  }

  /** Adds to an empty tree panic exactly when they name two roots. */
  lemma {:induction false} NoPanicIff(adds: seq<Addition>)
    ensures Run(None, adds).Done? <==> exists root :: OneRoot(adds, root)
    decreases |adds|
  {
    if adds == [] {
      assert OneRoot(adds, "");
    } else {
      var a := adds[0];
      forall root {
        OneRootNext(adds, root);
      }
      if a.ns == [] {
        NoPanicIff(adds[1..]);
      } else {
        PanicsIff(adds[1..], Added(Node(a.ns[0], None, []), a.ns[1..], a.policy));
      }
    }
  }

  // The code itself.

  /** The search for the child of that name. */
  method AddTo(n: Node, ns: seq<string>, p: Rules) returns (r: Node)
    ensures r == Added(n, ns, p)
    decreases |ns|
  {
    if |ns| == 0 {
      return n.(policy := Some(p));
    }
    var f, remain := ns[0], ns[1..];
    for i := 0 to |n.children|
      invariant AddedTo(n.children, ns, p) == n.children[..i] + AddedTo(n.children[i..], ns, p)
    {
      var nd := n.children[i];
      if f == nd.key {
        var changed := AddTo(nd, remain, p);
        assert n.children[i..][1..] == n.children[i + 1..];
        return n.(children := n.children[..i] + ([changed] + n.children[i + 1..]));
      }
      SkipChild(n.children, i, ns, p);
    }
    assert n.children[|n.children|..] == [];
    var newNode := AddTo(Node(f, None, []), remain, p);
    assert n.children[..|n.children|] == n.children;
    return n.(children := n.children + [newNode]);
  }

  lemma {:induction false} SkipChild(cs: seq<Node>, i: nat, ns: seq<string>, p: Rules)
    requires i < |cs| && ns != [] && cs[i].key != ns[0]
    ensures cs[..i] + AddedTo(cs[i..], ns, p) == cs[..i + 1] + AddedTo(cs[i + 1..], ns, p)
  {
    assert cs[i..][1..] == cs[i + 1..];
    assert cs[..i + 1] == cs[..i] + [cs[i]];
  }

  method Collect(n: Node, ns: seq<string>) returns (ret: seq<Rules>)
    ensures ret == Collected(n, ns)
    decreases |ns|
  {
    ret := [];
    if |ns| < 1 {
      return;
    }
    var remain := ns[1..];
    if ns[0] == n.key {
      ret := Listed(n.policy);
      for i := 0 to |n.children|
        invariant ret + CollectedFrom(n.children[i..], remain) == Collected(n, ns)
      {
        var childNodes := Collect(n.children[i], remain);
        assert n.children[i..][1..] == n.children[i + 1..];
        ret := ret + childNodes;
      }
    }
  }

  class ConfigTree {
    var root: Tree

    constructor ()
      ensures root == None
    {
      root := None;
    }

    method Add(ns: seq<string>, p: Rules) returns (panicked: bool)
      modifies this
      ensures if panicked then TreeAdded(old(root), ns, p).Panicked? && root == old(root)
              else TreeAdded(old(root), ns, p) == Done(root)
    {
      if |ns| == 0 {
        return false;
      }
      var f, remain := ns[0], ns[1..];
      var n := Node(f, None, []);
      if root.Some? {
        if f != root.value.key {
          return true;
        }
        n := root.value;
      }
      n := AddTo(n, remain, p);
      root := Some(n);
      return false;
    }

    method Get(ns: seq<string>) returns (r: Option<Rules>)
      ensures r == Answer(root, ns)
    {
      if root.None? || |ns| < 1 || ns[0] != root.value.key {
        return None;
      }
      var retNodes := Collect(root.value, ns);
      if |retNodes| == 0 {
        return None;
      }
      var rn := retNodes[0];
      assert retNodes[..1] == [] + [rn];
      FoldedNext([], rn);
      for i := 1 to |retNodes|
        invariant rn == Folded(retNodes[..i])
      {
        FoldedNext(retNodes[..i], retNodes[i]);
        assert retNodes[..i + 1] == retNodes[..i] + [retNodes[i]];
        rn := rn + retNodes[i];
      }
      assert retNodes[..|retNodes|] == retNodes;
      return Some(rn);
    }
  }

  /** The same fold over the stored node objects, whose rules are `ps`: it changes none of them, and
      what it returns is a new node unless there is only one. */
  method MergeNodes(nodes: seq<PolicyNode>, ghost ps: seq<Rules>) returns (rn: PolicyNode)
    requires nodes != [] && |ps| == |nodes|
    requires forall i :: 0 <= i < |nodes| ==> nodes[i].rules == ps[i] && Keyed(ps[i])
    ensures rn.rules == Folded(ps)
    ensures if |nodes| == 1 then rn == nodes[0] else fresh(rn)
  {
    rn := nodes[0];
    FoldedNext([], ps[0]);
    assert ps[..1] == [] + [ps[0]];
    for i := 1 to |nodes|
      invariant Keyed(rn.rules) && rn.rules == Folded(ps[..i])
      invariant if i == 1 then rn == nodes[0] else fresh(rn)
    {
      FoldedNext(ps[..i], ps[i]);
      assert ps[..i + 1] == ps[..i] + [ps[i]];
      rn := rn.Merge(nodes[i]);
    }
    assert ps[..|nodes|] == ps;
  }
}
