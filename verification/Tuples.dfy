/** Tuples in requested namespaces, such as (host0;host1), and their expansion into plain
namespaces (control/metrics.go). */
module Tuples {
  import opened Wrappers
  import opened Text
  import opened Remainders

  datatype Element = Element(value: string, description: string, name: string)

  predicate IsTuple(e: string) {
    e != "" && e[0] == '(' && e[|e| - 1] == ')' && ';' in e
  }

  /** White space as in unicode.IsSpace. */
  const SPACES: set<char> := {'\t', '\n', '\U{0B}', '\U{0C}', '\r', ' ', '\U{85}', '\U{A0}', '\U{1680}',
    '\U{2000}', '\U{2001}', '\U{2002}', '\U{2003}', '\U{2004}', '\U{2005}', '\U{2006}', '\U{2007}', '\U{2008}',
    '\U{2009}', '\U{200A}', '\U{2028}', '\U{2029}', '\U{202F}', '\U{205F}', '\U{3000}'}

  /** The alternatives an element stands for: the trimmed items of a tuple, a single `*` for a tuple
      that mentions one, and otherwise the element itself. */
  function Alternatives(e: string): (items: seq<string>)
    ensures |items| > 0
  {
    if !IsTuple(e) then [e]
    else if '*' in e then ["*"]
    else
      var parts := Split(e[1..|e| - 1], ';');
      seq(|parts|, i requires 0 <= i < |parts| => Trim(parts[i], SPACES))
  }

  /** Items as they are written in a tuple. */
  function Written(parts: seq<string>): string {
    "(" + Join(parts, ';') + ")"
  }

  lemma {:induction false} JoinMentions(parts: seq<string>, sep: char)
    requires |parts| > 1
    ensures sep in Join(parts, sep)
  {
    var s := Join(parts, sep);
    assert s[|parts[0]|] == sep;
  }

  lemma {:induction false} JoinOnly(parts: seq<string>, sep: char, c: char)
    requires c != sep && forall p | p in parts :: c !in p
    ensures c !in Join(parts, sep)
    decreases |parts|
  {
    if |parts| > 1 {
      JoinOnly(parts[1..], sep, c);
      assert parts[0] in parts;
    } else if |parts| == 1 {
      assert parts[0] in parts;
    }
  }

  lemma {:induction false} WrittenIsTuple(parts: seq<string>)
    requires |parts| > 1
    ensures IsTuple(Written(parts)) && ('*' in Written(parts) <==> '*' in Join(parts, ';'))
    ensures Written(parts)[1..|Written(parts)| - 1] == Join(parts, ';')
  {
    var e, inner := Written(parts), Join(parts, ';');
    JoinMentions(parts, ';');
    assert e[1..|e| - 1] == inner;
    assert forall c :: c in e <==> c == '(' || c in inner || c == ')';
  }

  /** A tuple of two or more items, written with any white space around them, stands for those items, in
      order. */
  lemma {:induction false} TupleStandsForItems(items: seq<string>, parts: seq<string>)
    requires |items| == |parts| > 1
    requires forall i | 0 <= i < |items| :: Pads(parts[i], items[i], SPACES) && Bare(items[i], SPACES)
    requires forall p | p in parts :: ';' !in p && '*' !in p
    ensures Alternatives(Written(parts)) == items
  {
    WrittenIsTuple(parts);
    JoinOnly(parts, ';', '*');
    SplitJoin(parts, ';');
    forall i | 0 <= i < |items|
      ensures Trim(parts[i], SPACES) == items[i]
    {
      PadsTrim(parts[i], items[i], SPACES);
    }
  }

  /** Two or more items that need no trimming. */
  predicate PlainItems(items: seq<string>) {
    |items| > 1 && forall p | p in items :: Bare(p, SPACES) && ';' !in p && '*' !in p
  }

  /** In particular written without any. */
  lemma {:induction false} PlainTuple(items: seq<string>)
    requires PlainItems(items)
    ensures Alternatives(Written(items)) == items
  {
    forall i | 0 <= i < |items|
      ensures Pads(items[i], items[i], SPACES) && Bare(items[i], SPACES)
    {
      assert items[i] in items;
      assert items[i][0..|items[i]|] == items[i] && items[i][..0] + items[i][|items[i]|..] == "";
    }
    TupleStandsForItems(items, items);
  }

  /** A tuple with an asterisk anywhere in it stands for everything. */
  lemma {:induction false} StarredTuple(parts: seq<string>, p: string)
    requires |parts| > 1 && p in parts && '*' in p
    ensures Alternatives(Written(parts)) == ["*"]
  {
    WrittenIsTuple(parts);
    JoinKeeps(parts, ';', p);
  }

  lemma {:induction false} JoinKeeps(parts: seq<string>, sep: char, p: string)
    requires p in parts
    ensures forall c | c in p :: c in Join(parts, sep)
    decreases |parts|
  {
    if |parts| > 1 && p != parts[0] {
      JoinKeeps(parts[1..], sep, p);
    }
  }

  /** What is not in parentheses or names no alternative stands for itself, and conversely: no tuple does. */
  lemma {:induction false} StandsForItselfIff(e: string)
    ensures Alternatives(e) == [e] <==> !(|e| > 1 && e[0] == '(' && e[|e| - 1] == ')' && ';' in e)
  {
    if IsTuple(e) && '*' !in e {
      MoreParts(e[1..|e| - 1]);
      assert e == [e[0]] + e[1..|e| - 1] + [e[|e| - 1]];
    }
  }

  lemma {:induction false} MoreParts(s: string)
    requires ';' in s
    ensures |Split(s, ';')| > 1
  {
    assert s[..|s|] == s;
  }

  /** No alternative of a tuple begins or ends with white space or holds a separator. */
  lemma {:induction false} AlternativesBare(e: string, i: nat)
    requires IsTuple(e) && i < |Alternatives(e)|
    ensures Bare(Alternatives(e)[i], SPACES) && ';' !in Alternatives(e)[i]
  {
    if '*' !in e {
      var parts := Split(e[1..|e| - 1], ';');
      TrimBares(parts[i], SPACES);
      SplitClean(e[1..|e| - 1], ';');
      assert parts[i] in parts;
      TrimKeeps(parts[i], SPACES);
    }
  }

  lemma {:induction false} TrimKeeps(s: string, drop: set<char>)
    ensures forall c | c in Trim(s, drop) :: c in s
  {
    TrimLeftKeeps(s, drop);
    TrimRightKeeps(TrimLeft(s, drop), drop);
  }

  lemma {:induction false} TrimLeftKeeps(s: string, drop: set<char>)
    ensures forall c | c in TrimLeft(s, drop) :: c in s
  {
    if s != "" && s[0] in drop {
      TrimLeftKeeps(s[1..], drop);
    }
  }

  lemma {:induction false} TrimRightKeeps(s: string, drop: set<char>)
    ensures forall c | c in TrimRight(s, drop) :: c in s
  {
    if s != "" && s[|s| - 1] in drop {
      TrimRightKeeps(s[..|s| - 1], drop);
    }
  }

  function AllAlternatives(ns: seq<Element>): (items: seq<seq<string>>)
    ensures |items| == |ns| && forall k | 0 <= k < |ns| :: |items[k]| > 0
  {
    seq(|ns|, k requires 0 <= k < |ns| => Alternatives(ns[k].value))
  }

  function Sizes(items: seq<seq<string>>): seq<int> {
    seq(|items|, k requires 0 <= k < |items| => |items[k]|)
  }

  /** The i-th result: every element takes its alternative number i, counted around. */
  function Expanded(ns: seq<Element>, items: seq<seq<string>>, i: nat): seq<Element>
    requires |items| == |ns| && forall k | 0 <= k < |items| :: |items[k]| > 0
  {
    seq(|ns|, k requires 0 <= k < |ns| => ns[k].(value := items[k][i % |items[k]|]))
  }

  /** The combination that takes the given alternative of each element. */
  function Combination(ns: seq<Element>, items: seq<seq<string>>, c: seq<int>): seq<Element>
    requires |items| == |ns| == |c| && forall k | 0 <= k < |items| :: 0 <= c[k] < |items[k]|
  {
    seq(|ns|, k requires 0 <= k < |ns| => ns[k].(value := items[k][c[k]]))
  }

  lemma {:induction false} SizesNext(items: seq<seq<string>>, found: seq<string>)
    ensures Product(Sizes(items + [found])) == Product(Sizes(items)) * |found|
  {
    assert Sizes(items + [found]) == Sizes(items) + [|found|];
    ProductNext(Sizes(items), |found|);
  }

  lemma {:induction false} AlternativesNext(ns: seq<Element>, index: nat)
    requires index < |ns|
    ensures AllAlternatives(ns[..index + 1]) == AllAlternatives(ns[..index]) + [Alternatives(ns[index].value)]
  {
  }

  lemma {:induction false} SomeCombination(ns: seq<Element>)
    ensures Product(Sizes(AllAlternatives(ns))) > 0
  {
    ProductPositive(Sizes(AllAlternatives(ns)));
  }

  method MatchItems(ns: seq<Element>) returns (items: seq<seq<string>>, combinations: int)
    ensures items == AllAlternatives(ns) && combinations == Product(Sizes(items)) && combinations > 0
  {
    items, combinations := [], 1;
    for index := 0 to |ns|
      invariant items == AllAlternatives(ns[..index]) && combinations == Product(Sizes(items))
    {
      var found := Alternatives(ns[index].value);
      AlternativesNext(ns, index);
      SizesNext(items, found);
      items, combinations := items + [found], combinations * |found|;
    }
    assert ns[..|ns|] == ns;
    SomeCombination(ns);
  }

  /** The i-th result after its first `done` elements have been set. */
  ghost function Partly(ns: seq<Element>, items: seq<seq<string>>, i: nat, done: nat): seq<Element>
    requires |items| == |ns| && (forall k | 0 <= k < |items| :: |items[k]| > 0) && done <= |ns|
  {
    Expanded(ns, items, i)[..done] + ns[done..]
  }

  /** Set one element of every result. */
  method SetElement(r: seq<seq<Element>>, ns: seq<Element>, items: seq<seq<string>>, index: nat)
      returns (r': seq<seq<Element>>)
    requires |items| == |ns| && (forall k | 0 <= k < |items| :: |items[k]| > 0) && index < |ns|
    requires forall i | 0 <= i < |r| :: r[i] == Partly(ns, items, i, index)
    ensures |r'| == |r| && forall i | 0 <= i < |r'| :: r'[i] == Partly(ns, items, i, index + 1)
  {
    r' := r;
    for i := 0 to |r|
      invariant |r'| == |r|
      invariant forall j | i <= j < |r| :: r'[j] == r[j]
      invariant forall j | 0 <= j < i :: r'[j] == Partly(ns, items, j, index + 1)
    {
      var item := items[index][i % |items[index]|];
      assert r'[i][index] == ns[index];
      assert r'[i][index := ns[index].(value := item)] == Partly(ns, items, i, index + 1);
      r' := r'[i := r'[i][index := r'[i][index].(value := item)]];
    }
  }

  method FindTuplesMatches(ns: seq<Element>) returns (r: seq<seq<Element>>)
    ensures Expansion(ns, r)
  {
    var items, combinations := MatchItems(ns);
    r := seq(combinations, _ => ns);
    for index := 0 to |ns|
      invariant |r| == combinations && forall i | 0 <= i < |r| :: r[i] == Partly(ns, items, i, index)
    {
      r := SetElement(r, ns, items, index);
    }
    assert forall i | 0 <= i < |r| :: Partly(ns, items, i, |ns|) == Expanded(ns, items, i);
  }

  /** The numbers below a bound with remainder j. */
  ghost function Rows(n: int, bound: int, j: int): set<int>
    requires n > 0
  {
    set i | 0 <= i < bound && i % n == j
  }

  lemma {:induction false} RowsStep(n: int, q: nat, bound: int, j: int)
    requires 0 <= j < n && bound == n * q
    ensures Rows(n, bound + n, j) == Rows(n, bound, j) + {bound + j}
  {
    QuotientUnique(bound + j, n, q, j);
    forall i | bound <= i < bound + n ensures i % n == i - bound {
      QuotientUnique(i, n, q, i - bound);
    }
    Scaled(n, 0, q);
  }

  lemma {:induction false} RowsCount(n: int, q: nat, bound: int, j: int)
    requires 0 <= j < n && bound == n * q
    ensures |Rows(n, bound, j)| == q
  {
    if q == 0 {
      assert Rows(n, bound, j) == {};
    } else {
      OneLess(n, q);
      var b := bound - n;
      RowsCount(n, q - 1, b, j);
      RowsStep(n, q - 1, b, j);
      assert b + j !in Rows(n, b, j) && Rows(n, b + n, j) == Rows(n, bound, j);
    }
  }

  /** In the expansion of a namespace an element written as a plain tuple takes its items in turn, and one
      that is no tuple stays what it is. */
  lemma {:induction false} ExpansionTakesItems(
    ns: seq<Element>, r: seq<seq<Element>>, i: nat, k: nat, items: seq<string>)
    requires Expansion(ns, r) && i < |r| && k < |ns|
    requires (items == [ns[k].value] && !IsTuple(ns[k].value))
          || (PlainItems(items) && ns[k].value == Written(items))
    ensures |r[i]| == |ns| && |items| > 0 && r[i][k] == ns[k].(value := items[i % |items|])
  {
    if IsTuple(ns[k].value) {
      PlainTuple(items);
    }
  }

  /** The results in which the k-th element carries the value x. */
  ghost function Carrying(r: seq<seq<Element>>, k: nat, x: string): set<int> {
    set i | 0 <= i < |r| && k < |r[i]| && r[i][k].value == x
  }

  ghost predicate Expansion(ns: seq<Element>, r: seq<seq<Element>>) {
    var items := AllAlternatives(ns);
    |r| == Product(Sizes(items)) && forall i | 0 <= i < |r| :: r[i] == Expanded(ns, items, i)
  }

  lemma {:induction false} CarryingRows(ns: seq<Element>, r: seq<seq<Element>>, k: nat, j: nat, n: int)
    requires Expansion(ns, r) && k < |ns| && n == |Alternatives(ns[k].value)| && j < n
    requires NoRepeats(Alternatives(ns[k].value))
    ensures Carrying(r, k, Alternatives(ns[k].value)[j]) == Rows(n, |r|, j)
  {
    var items := AllAlternatives(ns);
    forall i | 0 <= i < |r|
      ensures i in Carrying(r, k, items[k][j]) <==> i % n == j
    {
      assert r[i][k].value == items[k][i % n];
    }
  }

  /** Whatever the sizes, each alternative of an element is carried by an equal share of the results. */
  lemma {:induction false} EqualShares(ns: seq<Element>, r: seq<seq<Element>>, k: nat, j: nat)
    requires Expansion(ns, r) && k < |ns| && j < |Alternatives(ns[k].value)|
    requires NoRepeats(Alternatives(ns[k].value))
    ensures |Carrying(r, k, Alternatives(ns[k].value)[j])| == |r| / |Alternatives(ns[k].value)|
  {
    var sizes := Sizes(AllAlternatives(ns));
    var total, n := Product(sizes), sizes[k];
    ProductPositive(sizes);
    ExactQuotient(total, n);
    CarryingRows(ns, r, k, j, n);
    RowsCount(n, total / n, total, j);
  }

  /** A choice of alternatives is met at i exactly where the i-th result takes those alternatives. */
  lemma {:induction false} MeetsIsCombination(ns: seq<Element>, c: seq<int>, i: nat)
    requires IsChoice(Sizes(AllAlternatives(ns)), c) && Meets(Sizes(AllAlternatives(ns)), c, i)
    ensures Expanded(ns, AllAlternatives(ns), i) == Combination(ns, AllAlternatives(ns), c)
  {
    var items := AllAlternatives(ns);
    forall k | 0 <= k < |ns| ensures i % |items[k]| == c[k] {
      assert Sizes(items)[k] == |items[k]|;
    }
  }

  /** No tuple names an alternative twice. */
  ghost predicate DistinctAlternatives(ns: seq<Element>) {
    forall k | 0 <= k < |ns| :: NoRepeats(Alternatives(ns[k].value))
  }

  lemma {:induction false} CombinationIsMet(ns: seq<Element>, c: seq<int>, i: nat)
    requires DistinctAlternatives(ns) && IsChoice(Sizes(AllAlternatives(ns)), c)
    requires Expanded(ns, AllAlternatives(ns), i) == Combination(ns, AllAlternatives(ns), c)
    ensures Meets(Sizes(AllAlternatives(ns)), c, i)
  {
    var items := AllAlternatives(ns);
    forall k | 0 <= k < |ns| ensures i % Sizes(items)[k] == c[k] {
      assert Expanded(ns, items, i)[k] == Combination(ns, items, c)[k];
      assert NoRepeats(items[k]) && items[k][i % |items[k]|] == items[k][c[k]];
    }
  }

  /** Every combination of alternatives is among the results. */
  ghost predicate Complete(ns: seq<Element>) {
    var items := AllAlternatives(ns);
    forall c | IsChoice(Sizes(items), c) ::
      exists i :: 0 <= i < Product(Sizes(items)) && Expanded(ns, items, i) == Combination(ns, items, c)
  }

  /** The documentation promises all combinations. They are all there exactly when the sizes of the
      tuples are pairwise coprime. */
  lemma {:induction false} CompleteIffCoprime(ns: seq<Element>)
    requires DistinctAlternatives(ns)
    ensures Complete(ns) <==> PairwiseCoprime(Sizes(AllAlternatives(ns)))
  {
    var items := AllAlternatives(ns);
    var sizes := Sizes(items);
    if PairwiseCoprime(sizes) {
      CoprimeComplete(ns);
    } else {
      var j, k :| 0 <= j < k < |sizes| && !Coprime(sizes[j], sizes[k]);
      var d :| d > 1 && sizes[j] % d == 0 && sizes[k] % d == 0;
      var c := CommonDivisorMisses(sizes, j, k, d);
      if Complete(ns) {
        var i :| 0 <= i < Product(sizes) && Expanded(ns, items, i) == Combination(ns, items, c);
        CombinationIsMet(ns, c, i);
        assert false;
      }
    }
  }

  /** Coprime sizes give every combination, whether or not a tuple repeats an alternative. */
  lemma {:induction false} CoprimeComplete(ns: seq<Element>)
    requires PairwiseCoprime(Sizes(AllAlternatives(ns)))
    ensures Complete(ns)
  {
    var items := AllAlternatives(ns);
    forall c | IsChoice(Sizes(items), c)
      ensures exists i :: 0 <= i < Product(Sizes(items)) && Expanded(ns, items, i) == Combination(ns, items, c)
    {
      var i := ChoiceMet(Sizes(items), c);
      MeetsIsCombination(ns, c, i);
    }
  }

  /** With coprime sizes and distinct alternatives no combination is returned twice. */
  lemma {:induction false} CoprimeOnce(ns: seq<Element>, i: nat, j: nat)
    requires DistinctAlternatives(ns) && PairwiseCoprime(Sizes(AllAlternatives(ns)))
    requires i < Product(Sizes(AllAlternatives(ns))) && j < Product(Sizes(AllAlternatives(ns)))
    requires Expanded(ns, AllAlternatives(ns), i) == Expanded(ns, AllAlternatives(ns), j)
    ensures i == j
  {
    var items := AllAlternatives(ns);
    var c := seq(|ns|, k requires 0 <= k < |ns| => i % |items[k]|);
    assert Expanded(ns, items, i) == Combination(ns, items, c);
    CombinationIsMet(ns, c, i);
    CombinationIsMet(ns, c, j);
    ChoiceMetOnce(Sizes(items), c, i, j);
  }

  /** Two tuples of the same size, as in the source's own example, never give all combinations. */
  lemma {:induction false} EqualSizesIncomplete(ns: seq<Element>, j: nat, k: nat)
    requires DistinctAlternatives(ns) && j < k < |ns| && |Alternatives(ns[j].value)| == |Alternatives(ns[k].value)| > 1
    ensures !Complete(ns)
  {
    var sizes := Sizes(AllAlternatives(ns));
    assert sizes[j] == sizes[k] && sizes[j] % sizes[j] == 0;
    CompleteIffCoprime(ns);
  }
}
