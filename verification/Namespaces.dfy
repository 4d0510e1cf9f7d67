/** Printing a metric namespace and reading it back (core/metric.go, scheduler/wmap/wmap.go,
pkg/stringutils/string.go). A namespace is given by the values of its elements. */
module Namespaces {
  import opened Text

  /** Separators in order of preference. */
  const CANDIDATES: string := "/|%:-;_^><+=&\U{32BD}\U{00C4}\U{5927}\U{5C0F}\U{1D79}\U{260D}\U{30D2}"

  const SEPARATOR: char := '\U{1F422}'

  predicate Occurs(ns: seq<string>, c: char) {
    exists e | e in ns :: c in e
  }

  /** The first of the given candidates that does not occur, or the default separator. */
  function FirstFree(ns: seq<string>, candidates: string): char {
    if candidates == "" then SEPARATOR
    else if !Occurs(ns, candidates[0]) then candidates[0]
    else FirstFree(ns, candidates[1..])
  }

  /** The source marks the candidates it meets in a map and then takes the first unmarked one. */
  method GetSeparator(ns: seq<string>, candidates: string) returns (c: char)
    ensures c == FirstFree(ns, candidates)
  {
    var met: set<char> := {};
    for i := 0 to |ns|
      invariant forall x :: x in met <==> x in candidates && Occurs(ns[..i], x)
    {
      assert ns[..i + 1] == ns[..i] + [ns[i]];
      for j := 0 to |ns[i]|
        invariant forall x :: x in met <==> x in candidates && (Occurs(ns[..i], x) || x in ns[i][..j])
      {
        assert ns[i][..j + 1] == ns[i][..j] + [ns[i][j]];
        if ns[i][j] in candidates {
          met := met + {ns[i][j]};
        }
      }
      assert ns[i][..|ns[i]|] == ns[i];
    }
    assert ns[..|ns|] == ns;
    for k := 0 to |candidates|
      invariant FirstFree(ns, candidates) == FirstFree(ns, candidates[k..])
    {
      assert candidates[k..][0] == candidates[k] && candidates[k..][1..] == candidates[k + 1..];
      assert candidates[k] in candidates;
      if candidates[k] !in met {
        return candidates[k];
      }
    }
    return SEPARATOR;
  }

  function String(ns: seq<string>): string {
    var c := FirstFree(ns, CANDIDATES);
    [c] + Join(ns, c)
  }

  /** The first candidate is the separator exactly if it does not occur. */
  lemma {:induction false} FirstIfFree(ns: seq<string>, candidates: string)
    requires candidates != "" && candidates[0] !in candidates[1..] + [SEPARATOR]
    ensures FirstFree(ns, candidates) == candidates[0] <==> !Occurs(ns, candidates[0])
  {
    FirstFreeIsSeparator(ns, candidates[1..]);
  }

  lemma {:induction false} SlashFirst()
    ensures CANDIDATES != "" && CANDIDATES[0] == '/' && '/' !in CANDIDATES[1..] + [SEPARATOR]
  {
  }

  /** A namespace is printed with slashes, one in front of each element, exactly if no element contains one. */
  lemma {:induction false} PrintedWithSlashesIff(ns: seq<string>)
    ensures String(ns)[0] == '/' <==> !Occurs(ns, '/')
    ensures !Occurs(ns, '/') ==> String(ns) == "/" + Join(ns, '/')
  {
    SlashFirst();
    FirstIfFree(ns, CANDIDATES);
  }

  /** A workflow map splits a metric's key on the key's own first character. */
  function Parse(key: string): seq<string> {
    if key == "" then [] else Split(Trim(key, {key[0]}), key[0])
  }

  lemma {:induction false} FirstFreeOccursIff(ns: seq<string>, candidates: string)
    ensures Occurs(ns, FirstFree(ns, candidates)) <==>
              Occurs(ns, SEPARATOR) && forall c | c in candidates :: Occurs(ns, c)
  {
    if candidates != "" {
      FirstFreeOccursIff(ns, candidates[1..]);
      assert candidates == [candidates[0]] + candidates[1..];
    }
  }

  /** Some separator, the default included, occurs in no element. */
  ghost predicate Separable(ns: seq<string>) {
    exists c | c in CANDIDATES + [SEPARATOR] :: !Occurs(ns, c)
  }

  /** The first and the last element are not empty, or the only element is. */
  predicate Bounded(ns: seq<string>) {
    ns == [""] || (ns != [] && ns[0] != "" && ns[|ns| - 1] != "")
  }

  lemma {:induction false} PrintedReadBack(ns: seq<string>, c: char)
    requires Bounded(ns) && !Occurs(ns, c)
    ensures Parse([c] + Join(ns, c)) == ns
  {
    var key := [c] + Join(ns, c);
    if ns == [""] {
      assert key[1..] == "" && TrimLeft(key, {c}) == TrimLeft(key[1..], {c}) == "";
    } else {
      assert ns[0] in ns && ns[|ns| - 1] in ns;
      JoinEdges(ns, c);
      TrimLeading(Join(ns, c), c);
      SplitJoin(ns, c);
    }
  }

  lemma {:induction false} ReadBackBounded(ns: seq<string>, c: char)
    requires Parse([c] + Join(ns, c)) == ns
    ensures Bounded(ns) && !Occurs(ns, c)
  {
    var t := Trim([c] + Join(ns, c), {c});
    SplitClean(t, c);
    TrimEdges([c] + Join(ns, c), c);
    if t != "" {
      SplitEdges(t, c);
    }
  }

  /** The exact condition of the round trip: reading back a printed namespace gives its elements if
      and only if some separator is free and the outer elements are not empty. */
  lemma {:induction false} RoundTripIff(ns: seq<string>)
    ensures Parse(String(ns)) == ns <==> Separable(ns) && Bounded(ns)
  {
    var c := FirstFree(ns, CANDIDATES);
    FirstFreeOccursIff(ns, CANDIDATES);
    assert Separable(ns) <==> !Occurs(ns, c) by {
      if !Occurs(ns, c) {
        FirstFreeIsSeparator(ns, CANDIDATES);
      }
    }
    if Separable(ns) && Bounded(ns) {
      PrintedReadBack(ns, c);
    }
    if Parse(String(ns)) == ns {
      ReadBackBounded(ns, c);
    }
  }

  lemma {:induction false} FirstFreeIsSeparator(ns: seq<string>, candidates: string)
    ensures FirstFree(ns, candidates) in candidates + [SEPARATOR]
  {
    if candidates != "" {
      FirstFreeIsSeparator(ns, candidates[1..]);
    }
  }

  /** Among such namespaces printing is injective. */
  lemma {:induction false} StringInjective(a: seq<string>, b: seq<string>)
    requires Separable(a) && Bounded(a) && Separable(b) && Bounded(b) && String(a) == String(b)
    ensures a == b
  {
    RoundTripIff(a);
    RoundTripIff(b);
  }
}
