/** The string operations of Go's strings package that namespaces and tuples rest on. */
module Text {

  function Join(parts: seq<string>, sep: char): string {
    if parts == [] then ""
    else if |parts| == 1 then parts[0]
    else parts[0] + [sep] + Join(parts[1..], sep)
  }

  /** Cut a string at every separator; the empty string is one empty part. */
  function Split(s: string, sep: char): (parts: seq<string>)
    ensures |parts| > 0
    decreases |s|
  {
    var n := Until(s, sep);
    if n == |s| then [s] else [s[..n]] + Split(s[n + 1..], sep)
  }

  /** The length of the longest prefix without the separator. */
  function Until(s: string, sep: char): (n: nat)
    ensures n <= |s| && sep !in s[..n] && (n < |s| ==> s[n] == sep)
  {
    if s == "" || s[0] == sep then 0 else 1 + Until(s[1..], sep)
  }

  function TrimLeft(s: string, drop: set<char>): string {
    if s != "" && s[0] in drop then TrimLeft(s[1..], drop) else s
  }

  function TrimRight(s: string, drop: set<char>): string {
    if s != "" && s[|s| - 1] in drop then TrimRight(s[..|s| - 1], drop) else s
  }

  function Trim(s: string, drop: set<char>): string {
    TrimRight(TrimLeft(s, drop), drop)
  }

  lemma {:induction false} UntilIs(s: string, sep: char, n: nat)
    requires n <= |s| && sep !in s[..n] && (n < |s| ==> s[n] == sep)
    ensures Until(s, sep) == n
  {
  }

  /** Splitting undoes joining when no part contains the separator. */
  lemma {:induction false} SplitJoin(parts: seq<string>, sep: char)
    requires parts != [] && forall p | p in parts :: sep !in p
    ensures Split(Join(parts, sep), sep) == parts
    decreases |parts|
  {
    var s := Join(parts, sep);
    if |parts| == 1 {
      assert s[..|s|] == s;
      UntilIs(s, sep, |s|);
    } else {
      var n := |parts[0]|;
      assert s[..n] == parts[0] && s[n + 1..] == Join(parts[1..], sep);
      UntilIs(s, sep, n);
      SplitJoin(parts[1..], sep);
    }
  }

  /** No part of a split contains the separator. */
  lemma {:induction false} SplitClean(s: string, sep: char)
    ensures forall p | p in Split(s, sep) :: sep !in p
    decreases |s|
  {
    var n := Until(s, sep);
    if n < |s| {
      SplitClean(s[n + 1..], sep);
    } else {
      assert s[..n] == s;
    }
  }

  /** A string with other characters at both ends, or none at all. */
  predicate Bare(s: string, drop: set<char>) {
    s == "" || (s[0] !in drop && s[|s| - 1] !in drop)
  }

  lemma {:induction false} TrimRightBares(s: string, drop: set<char>)
    requires s == "" || s[0] !in drop
    ensures Bare(TrimRight(s, drop), drop)
  {
    if s != "" && s[|s| - 1] in drop {
      TrimRightBares(s[..|s| - 1], drop);
    }
  }

  lemma {:induction false} TrimLeftBares(s: string, drop: set<char>)
    ensures var t := TrimLeft(s, drop); t == "" || t[0] !in drop
  {
    if s != "" && s[0] in drop {
      TrimLeftBares(s[1..], drop);
    }
  }

  lemma {:induction false} TrimLeftOnce(left: string, s: string, drop: set<char>)
    requires forall c | c in left :: c in drop
    ensures TrimLeft(left + s, drop) == TrimLeft(s, drop)
  {
    if left == "" {
      assert left + s == s;
    } else {
      assert (left + s)[1..] == left[1..] + s && left[0] in left;
      TrimLeftOnce(left[1..], s, drop);
    }
  }

  lemma {:induction false} TrimRightOnce(s: string, right: string, drop: set<char>)
    requires forall c | c in right :: c in drop
    ensures TrimRight(s + right, drop) == TrimRight(s, drop)
  {
    if right == "" {
      assert s + right == s;
    } else {
      var all, last := s + right, right[|right| - 1];
      assert all[..|all| - 1] == s + right[..|right| - 1] && all[|all| - 1] == last && last in right;
      TrimRightOnce(s, right[..|right| - 1], drop);
    }
  }

  /** Trimming takes exactly the outer characters of the given kind off: what is left has none at its ends,
      and whatever had been put around it comes off. */
  lemma {:induction false} TrimBares(s: string, drop: set<char>)
    ensures Bare(Trim(s, drop), drop)
  {
    TrimLeftBares(s, drop);
    TrimRightBares(TrimLeft(s, drop), drop);
  }

  lemma {:induction false} TrimUnpads(left: string, s: string, right: string, drop: set<char>)
    requires Bare(s, drop) && (forall c | c in left :: c in drop) && (forall c | c in right :: c in drop)
    ensures Trim(left + s + right, drop) == s
  {
    assert left + s + right == left + (s + right);
    TrimLeftOnce(left, s + right, drop);
    if s == "" {
      assert s + right == right && right + "" == right;
      TrimLeftOnce(right, "", drop);
    } else {
      assert TrimLeft(s + right, drop) == s + right;
      TrimRightOnce(s, right, drop);
    }
  }

  /** The text is the item with characters of the given kind around it. */
  predicate Pads(text: string, item: string, drop: set<char>) {
    exists n: nat, m: nat | n <= m <= |text| ::
      text[n..m] == item && (forall c | c in text[..n] :: c in drop) && (forall c | c in text[m..] :: c in drop)
  }

  lemma {:induction false} InThree(text: string, n: nat, m: nat)
    requires n <= m <= |text|
    ensures text == text[..n] + text[n..m] + text[m..]
  {
  }

  lemma {:induction false} PadsTrim(text: string, item: string, drop: set<char>)
    requires Pads(text, item, drop) && Bare(item, drop)
    ensures Trim(text, drop) == item
  {
    var n: nat, m: nat :| n <= m <= |text| && text[n..m] == item
      && (forall c | c in text[..n] :: c in drop) && (forall c | c in text[m..] :: c in drop);
    InThree(text, n, m);
    TrimUnpads(text[..n], item, text[m..], drop);
  }

  /** A string that neither starts nor ends with the trimmed character is left alone, and one
      leading character is taken off it. */
  lemma {:induction false} TrimLeading(s: string, c: char)
    requires s != "" && s[0] != c && s[|s| - 1] != c
    ensures Trim([c] + s, {c}) == s
  {
    assert ([c] + s)[1..] == s && TrimLeft(s, {c}) == s;
  }

  lemma {:induction false} TrimLeftEdge(s: string, c: char)
    ensures TrimLeft(s, {c}) == "" || TrimLeft(s, {c})[0] != c
  {
    if s != "" && s[0] == c {
      TrimLeftEdge(s[1..], c);
    }
  }

  lemma {:induction false} TrimRightEdges(s: string, c: char)
    requires s == "" || s[0] != c
    ensures var t := TrimRight(s, {c}); t == "" || (t[0] != c && t[|t| - 1] != c)
  {
    if s != "" && s[|s| - 1] == c {
      TrimRightEdges(s[..|s| - 1], c);
    }
  }

  /** A trimmed string is empty or has other characters at both ends. */
  lemma {:induction false} TrimEdges(s: string, c: char)
    ensures var t := Trim(s, {c}); t == "" || (t[0] != c && t[|t| - 1] != c)
  {
    TrimLeftEdge(s, c);
    TrimRightEdges(TrimLeft(s, {c}), c);
  }

  /** Such a string splits into parts of which the first and the last are not empty. */
  lemma {:induction false} SplitEdges(t: string, c: char)
    requires t != "" && t[|t| - 1] != c
    ensures t[0] != c ==> Split(t, c)[0] != ""
    ensures Split(t, c)[|Split(t, c)| - 1] != ""
    decreases |t|
  {
    var n := Until(t, c);
    if n < |t| {
      SplitEdges(t[n + 1..], c);
    }
  }

  /** The ends of a join are the ends of its first and last parts. */
  lemma {:induction false} JoinEdges(parts: seq<string>, c: char)
    requires parts != [] && parts[0] != "" && parts[|parts| - 1] != ""
    ensures var s, z := Join(parts, c), parts[|parts| - 1]; s != "" && s[0] == parts[0][0] && s[|s| - 1] == z[|z| - 1]
    decreases |parts|
  {
    if |parts| > 1 {
      JoinEnds(parts[1..], c);
    }
  }

  lemma {:induction false} JoinEnds(parts: seq<string>, c: char)
    requires parts != [] && parts[|parts| - 1] != ""
    ensures var s, z := Join(parts, c), parts[|parts| - 1]; s != "" && s[|s| - 1] == z[|z| - 1]
    decreases |parts|
  {
    if |parts| > 1 {
      JoinEnds(parts[1..], c);
    }
  }
}
