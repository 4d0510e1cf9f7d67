/** The Lamport clock of the tribe (mgmt/tribe/clock.go).

The counter is a 64-bit word shared by goroutines. `Increment` is one atomic
addition; `Update` is a load followed by a compare-and-swap, retried when the
counter moved in between. The second half of the module runs any number of such
calls in any interleaving.
*/
module LamportClock {

  type LTime = t: int | 0 <= t < 0x1_0000_0000_0000_0000

  const LAST: LTime := 0xFFFF_FFFF_FFFF_FFFF

  /** Unsigned 64-bit successor: the last value wraps to zero. */
  function Succ(t: LTime): LTime {
    if t == LAST then 0 else t + 1
  }

  /** Unsigned 64-bit predecessor: zero wraps to the last value. */
  function Pred(t: LTime): LTime {
    if t == 0 then LAST else t - 1
  }

  /** What one undisturbed `Update(lt)` leaves in a counter that held `cur`. */
  function Updated(cur: LTime, lt: LTime): LTime {
    if lt < cur then cur else Succ(lt)
  }

  /** An update puts the clock strictly above the time it saw, exactly when that
      time is not the last one of the word. */
  lemma {:induction false} UpdatedIsAboveIff(cur: LTime, lt: LTime)
    ensures (Updated(cur, lt) > lt && Updated(cur, lt) >= cur) <==> lt != LAST
  {
  }

  class LClock {
    var inc: LTime

    constructor ()
      ensures inc == 0
    {
      inc := 0;
    }

    method CompareAndSwap(expected: LTime, value: LTime) returns (swapped: bool)
      modifies this
      ensures swapped <==> old(inc) == expected
      ensures inc == if swapped then value else old(inc)
    {
      swapped := inc == expected;
      if swapped {
        inc := value;
      }
    }

    method Update(lt: LTime)
      modifies this
      ensures inc == Updated(old(inc), lt)
    {
      var swapped := false;
      while !swapped
        invariant !swapped ==> inc == old(inc)
        invariant swapped ==> inc == Updated(old(inc), lt)
        decreases !swapped
      {
        var cur := inc;
        if lt < cur {
          return;
        }
        swapped := CompareAndSwap(cur, Succ(lt));
      }
    }

    method Increment() returns (t: LTime)
      modifies this
      ensures inc == t == Succ(old(inc))
    {
      inc := Succ(inc);
      t := inc;
    }

    method Time() returns (t: LTime)
      ensures t == inc
    {
      t := inc;
    }
  }

  // ---- Interleaved calls ----

  /** Where a goroutine stands inside `Update(lt)`. `began` is the counter at the call and
      `fails` the number of swaps it lost so far. */
  datatype Call =
    | Entered(lt: LTime, began: LTime, fails: nat)
    | Loaded(lt: LTime, began: LTime, fails: nat, cur: LTime)

  datatype Shared = Shared(inc: LTime, calls: map<nat, Call>)

  datatype Action = CallUpdate(id: nat, lt: LTime) | Load(id: nat) | Swap(id: nat) | Add

  /** The atomic operations a run amounts to. */
  datatype Op = DidUpdate(lt: LTime) | DidAdd

  predicate Enabled(s: Shared, a: Action) {
    match a
    case CallUpdate(id, _) => id !in s.calls
    case Load(id) => id in s.calls && s.calls[id].Entered?
    case Swap(id) => id in s.calls && s.calls[id].Loaded?
    case Add => true
  }

  /** The next counter and call table, and the operation completed by this action, if any. */
  function Act(s: Shared, a: Action): (Shared, seq<Op>)
    requires Enabled(s, a)
  {
    match a
    case CallUpdate(id, lt) => (s.(calls := s.calls[id := Entered(lt, s.inc, 0)]), [])
    case Load(id) =>
      var c := s.calls[id];
      if c.lt < s.inc then (s.(calls := s.calls - {id}), [DidUpdate(c.lt)])
      else (s.(calls := s.calls[id := Loaded(c.lt, c.began, c.fails, s.inc)]), [])
    case Swap(id) =>
      var c := s.calls[id];
      if s.inc == c.cur then (Shared(Succ(c.lt), s.calls - {id}), [DidUpdate(c.lt)])
      else (s.(calls := s.calls[id := Entered(c.lt, c.began, c.fails + 1)]), [])
    case Add => (s.(inc := Succ(s.inc)), [DidAdd])
  }

  /** Every action of the run is enabled when its turn comes. */
  predicate Runs(s: Shared, acts: seq<Action>)
    decreases |acts|
  {
    acts == [] || (Enabled(s, acts[0]) && Runs(Act(s, acts[0]).0, acts[1..]))
  }

  function Final(s: Shared, acts: seq<Action>): Shared
    requires Runs(s, acts)
    decreases |acts|
  {
    if acts == [] then s else Final(Act(s, acts[0]).0, acts[1..])
  }

  function History(s: Shared, acts: seq<Action>): seq<Op>
    requires Runs(s, acts)
    decreases |acts|
  {
    if acts == [] then [] else
      var (s', done) := Act(s, acts[0]);
      done + History(s', acts[1..])
  }

  function Atomically(inc: LTime, ops: seq<Op>): LTime
    decreases |ops|
  {
    if ops == [] then inc else
      Atomically(match ops[0] case DidUpdate(lt) => Updated(inc, lt) case DidAdd => Succ(inc), ops[1..])
  }

  /** A goroutine only tries to swap when the value it loaded was not above its time. */
  ghost predicate LoadsBelow(s: Shared) {
    forall id | id in s.calls && s.calls[id].Loaded? :: s.calls[id].cur <= s.calls[id].lt
  }

  /** Linearizability: whatever the interleaving, the counter ends where the completed calls,
      each taken as one atomic operation in the order of their last actions, would put it.
      This covers wrap-around and a counter that returns to a loaded value. */
  lemma {:induction false} Linearizable(s: Shared, acts: seq<Action>)
    requires LoadsBelow(s) && Runs(s, acts)
    ensures Final(s, acts).inc == Atomically(s.inc, History(s, acts))
    decreases |acts|
  {
    if acts != [] {
      var (s', done) := Act(s, acts[0]);
      Linearizable(s', acts[1..]);
      if done != [] {
        assert (done + History(s', acts[1..]))[1..] == History(s', acts[1..]);
      } else {
        assert done + History(s', acts[1..]) == History(s', acts[1..]);
      }
    }
  }

  /** No update of the run carries the last time and no addition starts from it. */
  predicate NoWrap(s: Shared, acts: seq<Action>)
    requires Runs(s, acts)
    decreases |acts|
  {
    acts == [] || (
      && (acts[0].CallUpdate? ==> acts[0].lt != LAST)
      && (acts[0].Add? ==> s.inc != LAST)
      && NoWrap(Act(s, acts[0]).0, acts[1..]))
  }

  /** What a run without wrap-around keeps of every open call. */
  ghost predicate Consistent(s: Shared) {
    forall id | id in s.calls ::
      var c := s.calls[id];
      && c.lt != LAST
      && (c.Entered? ==> c.began + c.fails <= s.inc && (c.fails == 0 || c.began + c.fails <= c.lt + 1))
      && (c.Loaded? ==> c.began + c.fails <= c.cur <= s.inc && c.cur <= c.lt)
  }

  /** Along every interleaving without wrap-around the counter never falls, a completed
      `Update(lt)` has put it above `lt` for good, and an open call has lost at most
      `lt + 1 - began` swaps: the retry loop is bounded. */
  lemma {:induction false} MonotoneAndBounded(s: Shared, acts: seq<Action>)
    requires Consistent(s) && Runs(s, acts) && NoWrap(s, acts)
    ensures Consistent(Final(s, acts)) && s.inc <= Final(s, acts).inc
    ensures forall op | op in History(s, acts) && op.DidUpdate? :: op.lt < Final(s, acts).inc
    ensures forall id | id in Final(s, acts).calls ::
              var c := Final(s, acts).calls[id];
              c.fails == 0 || c.fails <= c.lt + 1 - c.began
    decreases |acts|
  {
    if acts != [] {
      var (s', done) := Act(s, acts[0]);
      MonotoneAndBounded(s', acts[1..]);
    }
  }
}
