/** The receiving side of the gossip channel: Lamport clock and ring of seen messages
(mgmt/tribe/tribe.go, mgmt/tribe/clock.go).

Goroutines race on the clock, which is outside the tribe's mutex: a handler takes the mutex and
updates the clock, then other goroutines may move it by originating a message or merging a
state, then the handler checks for a duplicate. An event is one of those atomic pieces.
*/
module Inbox {
  import opened Wrappers
  import opened LamportClock
  import opened TribeTypes

  const SLOTS: int := 512

  /** `msgBuffer` and the clock. */
  datatype Inbox = Inbox(clock: LTime, seen: seq<Option<Msg>>)

  ghost predicate Valid(b: Inbox) {
    |b.seen| == SLOTS
  }

  function Empty(): (b: Inbox)
    ensures Valid(b)
  {
    Inbox(0, seq(SLOTS, _ => None))
  }

  predicate Old(clock: LTime, lt: LTime) {
    clock > SLOTS && lt < clock - SLOTS
  }

  predicate IsDuplicate(b: Inbox, m: Msg)
    requires Valid(b)
  {
    Old(b.clock, m.ltime) ||
    (b.seen[m.ltime % SLOTS].Some? && b.seen[m.ltime % SLOTS].value.uuid == m.uuid)
  }

  /** `isDuplicate` reads the clock twice, and subtracts in 64 bits. */
  predicate OldRead(first: LTime, second: LTime, lt: LTime) {
    first > SLOTS && lt < if second >= SLOTS then second - SLOTS else LAST + 1 + second - SLOTS
  }

  /** Reading twice is reading once, at the first moment or the second, exactly when the clock does not
      fall through the size of the ring in between. If it does, only that the message is refused is new:
      one that is let through is one that a single reading lets through. */
  lemma {:induction false} ReadTwice(first: LTime, second: LTime, lt: LTime)
    ensures var once := if first <= SLOTS then first else second;
            && (OldRead(first, second, lt) == Old(once, lt) <==>
                !(second < SLOTS < first && lt < LAST + 1 + second - SLOTS))
            && (Old(once, lt) ==> OldRead(first, second, lt))
  {
  }

  datatype Event =
    | Increment                     // a message is originated
    | Advance(lt: LTime)            // a handler has the mutex and updates the clock
    | Body(m: Msg)                  // the rest of m's handler
    | MergeCheck(remote: LTime)     // a state merge finds the own clock not ahead
    | MergeUpdate(remote: LTime)    // and updates it, later

  /** What a merge makes of the clock, if it goes on at all. */
  function MergedClock(now: LTime, remote: LTime): LTime {
    Updated(now, Pred(remote))
  }

  /** The handler that has the mutex has updated the clock for the time lt. */
  predicate Entered(es: seq<Event>, lt: LTime) {
    es != [] &&
    var e := es[|es| - 1];
    if e.Advance? then e.lt == lt else !e.Body? && Entered(es[..|es| - 1], lt)
  }

  predicate Enabled(b: Inbox, es: seq<Event>, e: Event) {
    match e
    case Body(m) => Entered(es, m.ltime)
    case MergeCheck(remote) => b.clock <= remote
    case MergeUpdate(remote) => MergeCheck(remote) in es
    case _ => true
  }

  function Step(b: Inbox, e: Event): (b': Inbox)
    requires Valid(b)
    ensures Valid(b')
  {
    match e
    case Increment => b.(clock := Succ(b.clock))
    case Advance(lt) => b.(clock := Updated(b.clock, lt))
    case MergeCheck(_) => b
    case MergeUpdate(remote) => b.(clock := MergedClock(b.clock, remote))
    case Body(m) => if IsDuplicate(b, m) then b else b.(seen := b.seen[m.ltime % SLOTS := Some(m)])
  }

  /** The clock is set back: it counts past its last value, or a merge brings the time zero. */
  predicate Falls(b: Inbox, e: Event) {
    match e
    case Increment => b.clock == LAST
    case Advance(lt) => lt == LAST
    case MergeUpdate(remote) => remote == 0 && b.clock != 0
    case _ => false
  }

  /** A run of events from b: each is enabled when it happens. */
  predicate Runs(b: Inbox, es: seq<Event>)
    requires Valid(b)
  {
    if es == [] then true
    else
      var init := es[..|es| - 1];
      Runs(b, init) && Enabled(After(b, init), init, es[|es| - 1])
  }

  /** A run in which the clock is never set back. */
  predicate Steady(b: Inbox, es: seq<Event>)
    requires Valid(b)
  {
    if es == [] then true
    else
      var init, e := es[..|es| - 1], es[|es| - 1];
      Steady(b, init) && Enabled(After(b, init), init, e) && !Falls(After(b, init), e)
  }

  function After(b: Inbox, es: seq<Event>): (b': Inbox)
    requires Valid(b)
    ensures Valid(b')
  {
    if es == [] then b else Step(After(b, es[..|es| - 1]), es[|es| - 1])
  }

  /** The messages accepted along the run, in order: those whose handler went on to apply them. */
  function Accepted(b: Inbox, es: seq<Event>): seq<Msg>
    requires Valid(b)
  {
    if es == [] then []
    else
      var init := es[..|es| - 1];
      var e := es[|es| - 1];
      if e.Body? && !IsDuplicate(After(b, init), e.m) then Accepted(b, init) + [e.m] else Accepted(b, init)
  }

  /** The last message of the log with the given time. */
  function LastAt(log: seq<Msg>, lt: LTime): Option<Msg> {
    if log == [] then None
    else if log[|log| - 1].ltime == lt then Some(log[|log| - 1])
    else LastAt(log[..|log| - 1], lt)
  }

  lemma {:induction false} LastAtFound(log: seq<Msg>, lt: LTime)
    ensures LastAt(log, lt).None? <==> forall i | 0 <= i < |log| :: log[i].ltime != lt
    ensures LastAt(log, lt).Some? ==>
              exists i :: 0 <= i < |log| && log[i] == LastAt(log, lt).value && log[i].ltime == lt
                          && forall j | i < j < |log| :: log[j].ltime != lt
  {
    if log != [] && log[|log| - 1].ltime != lt {
      LastAtFound(log[..|log| - 1], lt);
    }
  }

  /** The last message of the log whose time falls in the given slot. */
  function LastIn(log: seq<Msg>, slot: int): Option<Msg> {
    if log == [] then None
    else if log[|log| - 1].ltime % SLOTS == slot then Some(log[|log| - 1])
    else LastIn(log[..|log| - 1], slot)
  }

  /** The invariant that ties an inbox to everything it accepted since it was empty:
      every time lies below the clock, slot s holds the last message accepted for s, and
      times that share a slot never decrease. */
  ghost predicate Tracks(b: Inbox, log: seq<Msg>)
    requires Valid(b)
  {
    && (forall i | 0 <= i < |log| :: log[i].ltime < b.clock)
    && (forall s | 0 <= s < SLOTS :: b.seen[s] == LastIn(log, s))
    && (forall i, j | 0 <= i < j < |log| && log[i].ltime % SLOTS == log[j].ltime % SLOTS ::
        log[i].ltime <= log[j].ltime)
  }

  lemma {:induction false} SteadyRuns(b: Inbox, es: seq<Event>)
    requires Valid(b) && Steady(b, es)
    ensures Runs(b, es)
  {
    if es != [] {
      SteadyRuns(b, es[..|es| - 1]);
    }
  }

  lemma {:induction false} StepRises(b: Inbox, e: Event)
    requires Valid(b) && !Falls(b, e)
    ensures b.clock <= Step(b, e).clock
  {
  }

  /** A handler's message is below the clock, unless the clock was set back since. */
  lemma {:induction false} EnteredBelow(b: Inbox, es: seq<Event>, lt: LTime)
    requires Valid(b) && Steady(b, es) && Entered(es, lt)
    ensures lt < After(b, es).clock
  {
    var init, e := es[..|es| - 1], es[|es| - 1];
    if e.Advance? {
      UpdatedIsAboveIff(After(b, init).clock, lt);
    } else {
      EnteredBelow(b, init, lt);
      StepRises(After(b, init), e);
    }
  }

  /** In every run in which the clock is not set back. */
  lemma {:induction false} RunTracks(es: seq<Event>)
    requires Steady(Empty(), es)
    ensures Tracks(After(Empty(), es), Accepted(Empty(), es))
  {
    if es != [] {
      var init := es[..|es| - 1];
      var e := es[|es| - 1];
      RunTracks(init);
      var b, log := After(Empty(), init), Accepted(Empty(), init);
      if e.Body? {
        if !IsDuplicate(b, e.m) {
          EnteredBelow(Empty(), init, e.m.ltime);
          AcceptTracks(b, log, e.m);
        }
      } else {
        StepRises(b, e);
      }
    }
  }

  lemma {:induction false} AcceptTracks(b: Inbox, log: seq<Msg>, m: Msg)
    requires Valid(b) && Tracks(b, log) && m.ltime < b.clock && !IsDuplicate(b, m)
    ensures Tracks(Step(b, Body(m)), log + [m])
  {
    var b', log' := Step(b, Body(m)), log + [m];
    forall s | 0 <= s < SLOTS
      ensures b'.seen[s] == LastIn(log', s)
    {
      LastInNext(log, m, s);
    }
    forall i | 0 <= i < |log| && log[i].ltime % SLOTS == m.ltime % SLOTS
      ensures log[i].ltime <= m.ltime
    {
      SlotNotAhead(b, log, m, i);
    }
  }

  lemma {:induction false} LastInNext(log: seq<Msg>, m: Msg, s: int)
    ensures LastIn(log + [m], s) == if m.ltime % SLOTS == s then Some(m) else LastIn(log, s)
  {
    assert (log + [m])[..|log|] == log;
  }

  /** A message that is not old is not behind what its slot has seen. */
  lemma {:induction false} SlotNotAhead(b: Inbox, log: seq<Msg>, m: Msg, i: nat)
    requires Valid(b) && Tracks(b, log) && m.ltime < b.clock && !Old(b.clock, m.ltime)
    requires i < |log| && log[i].ltime % SLOTS == m.ltime % SLOTS
    ensures log[i].ltime <= m.ltime
  {
    if m.ltime < log[i].ltime {
      SameSlot(m.ltime, log[i].ltime);
    }
  }

  lemma {:induction false} LastInFound(log: seq<Msg>, slot: int)
    ensures LastIn(log, slot).None? <==> forall i | 0 <= i < |log| :: log[i].ltime % SLOTS != slot
    ensures LastIn(log, slot).Some? ==>
              exists i :: 0 <= i < |log| && log[i] == LastIn(log, slot).value && log[i].ltime % SLOTS == slot
                          && forall j | i < j < |log| :: log[j].ltime % SLOTS != slot
  {
    if log != [] && log[|log| - 1].ltime % SLOTS != slot {
      LastInFound(log[..|log| - 1], slot);
    }
  }

  /** Two times in one slot differ by at least a full turn of the ring. */
  lemma {:induction false} SameSlot(x: LTime, y: LTime)
    requires x % SLOTS == y % SLOTS && x < y
    ensures x + SLOTS <= y
  {
  }

  /** For a time that is not old, the slot remembers exactly the last message of that very
      time; a slot that moved on to another time can only hold an earlier one. */
  lemma {:induction false} SlotRemembers(b: Inbox, log: seq<Msg>, lt: LTime)
    requires Valid(b) && Tracks(b, log) && !Old(b.clock, lt)
    ensures LastAt(log, lt).Some? ==> b.seen[lt % SLOTS] == LastAt(log, lt)
    ensures LastAt(log, lt).None? ==> b.seen[lt % SLOTS].None? || b.seen[lt % SLOTS].value.ltime < lt
  {
    LastAtFound(log, lt);
    LastInFound(log, lt % SLOTS);
    if LastIn(log, lt % SLOTS).Some? {
      var i :| 0 <= i < |log| && log[i] == LastIn(log, lt % SLOTS).value && log[i].ltime % SLOTS == lt % SLOTS
               && forall j | i < j < |log| :: log[j].ltime % SLOTS != lt % SLOTS;
      if log[i].ltime > lt {
        SameSlot(lt, log[i].ltime);
      }
    }
  }

  lemma {:induction false} SameIdSameMessage(log: seq<Msg>, m: Msg, i: nat)
    requires UniqueIds(log + [m]) && i < |log| && log[i].uuid == m.uuid
    ensures log[i] == m
  {
    assert (log + [m])[i] == log[i] && (log + [m])[|log|] == m;
  }

  lemma {:induction false} SlotDecides(b: Inbox, log: seq<Msg>, m: Msg)
    requires Valid(b) && Tracks(b, log) && UniqueIds(log + [m]) && !Old(b.clock, m.ltime)
    ensures b.seen[m.ltime % SLOTS].Some? && b.seen[m.ltime % SLOTS].value.uuid == m.uuid
            <==> LastAt(log, m.ltime) == Some(m)
  {
    SlotRemembers(b, log, m.ltime);
    var slot := b.seen[m.ltime % SLOTS];
    if slot.Some? && slot.value.uuid == m.uuid {
      LastInFound(log, m.ltime % SLOTS);
      var i :| 0 <= i < |log| && log[i] == slot.value;
      SameIdSameMessage(log, m, i);
    }
  }

  /** After every run at all, a slot holds the last message accepted for it. */
  lemma {:induction false} RunSlots(es: seq<Event>, slot: int)
    requires Runs(Empty(), es) && 0 <= slot < SLOTS
    ensures After(Empty(), es).seen[slot] == LastIn(Accepted(Empty(), es), slot)
  {
    if es != [] {
      var init, e := es[..|es| - 1], es[|es| - 1];
      RunSlots(init, slot);
      if e.Body? && !IsDuplicate(After(Empty(), init), e.m) {
        LastInNext(Accepted(Empty(), init), e.m, slot);
      }
    }
  }

  /** The deduplication window of every run: a message is accepted if and only if it is not old and is
      not the last message accepted for its slot. */
  lemma {:induction false} AcceptedBySlotIff(es: seq<Event>, m: Msg)
    requires Runs(Empty(), es) && UniqueIds(Accepted(Empty(), es) + [m])
    ensures !IsDuplicate(After(Empty(), es), m) <==>
            !Old(After(Empty(), es).clock, m.ltime) && LastIn(Accepted(Empty(), es), m.ltime % SLOTS) != Some(m)
  {
    var log := Accepted(Empty(), es);
    RunSlots(es, m.ltime % SLOTS);
    var last := LastIn(log, m.ltime % SLOTS);
    if last.Some? && last.value.uuid == m.uuid {
      LastInFound(log, m.ltime % SLOTS);
      var i :| 0 <= i < |log| && log[i] == last.value;
      SameIdSameMessage(log, m, i);
    }
  }

  /** In every run, a message that was not accepted before is accepted exactly if the clock is at most 512
      ahead of it. */
  lemma {:induction false} FirstTimeAcceptedIff(es: seq<Event>, m: Msg)
    requires Runs(Empty(), es) && UniqueIds(Accepted(Empty(), es) + [m]) && m !in Accepted(Empty(), es)
    ensures !IsDuplicate(After(Empty(), es), m) <==> After(Empty(), es).clock <= m.ltime + 512
  {
    AcceptedBySlotIff(es, m);
    LastInFound(Accepted(Empty(), es), m.ltime % SLOTS);
  }

  /** While the clock is not set back, the window goes by times: a message is accepted if and only if it
      is not old and is not the last message accepted with its own time. */
  lemma {:induction false} AcceptedIff(es: seq<Event>, m: Msg)
    requires Steady(Empty(), es) && UniqueIds(Accepted(Empty(), es) + [m])
    ensures !IsDuplicate(After(Empty(), es), m) <==>
            !Old(After(Empty(), es).clock, m.ltime) && LastAt(Accepted(Empty(), es), m.ltime) != Some(m)
  {
    RunTracks(es);
    if !Old(After(Empty(), es).clock, m.ltime) {
      SlotDecides(After(Empty(), es), Accepted(Empty(), es), m);
    }
  }

  /** The event at which the n-th accepted message was accepted. */
  lemma {:induction false} AcceptedWhere(es: seq<Event>, n: nat) returns (k: nat)
    requires Runs(Empty(), es) && n < |Accepted(Empty(), es)|
    ensures k < |es| && es[k].Body? && es[k].m == Accepted(Empty(), es)[n]
    ensures Runs(Empty(), es[..k]) && Accepted(Empty(), es[..k]) == Accepted(Empty(), es)[..n]
    ensures !IsDuplicate(After(Empty(), es[..k]), es[k].m) && Entered(es[..k], es[k].m.ltime)
  {
    var init := es[..|es| - 1];
    var log := Accepted(Empty(), init);
    if n < |log| {
      k := AcceptedWhere(init, n);
      assert es[..k] == init[..k];
      assert Accepted(Empty(), es)[..n] == log[..n];
    } else {
      k := |es| - 1;
      assert Accepted(Empty(), es)[..n] == log;
    }
  }

  /** Where the handler that has the mutex updated the clock. */
  lemma {:induction false} EnteredWhere(es: seq<Event>, lt: LTime) returns (a: nat)
    requires Entered(es, lt)
    ensures a < |es| && es[a] == Advance(lt)
    ensures forall k | a < k < |es| :: !es[k].Advance? && !es[k].Body?
  {
    a := |es| - 1;
    if !es[a].Advance? {
      a := EnteredWhere(es[..|es| - 1], lt);
    }
  }

  /** No event from i to j sets the clock back. */
  ghost predicate Rising(es: seq<Event>, i: nat, j: nat)
    requires i <= j <= |es|
  {
    forall k | i <= k < j :: !Falls(After(Empty(), es[..k]), es[k])
  }

  lemma {:induction false} PrefixRuns(es: seq<Event>, k: nat)
    requires Runs(Empty(), es) && k <= |es|
    ensures Runs(Empty(), es[..k])
    ensures k < |es| ==> After(Empty(), es[..k + 1]) == Step(After(Empty(), es[..k]), es[k])
  {
    if k < |es| {
      var init := es[..|es| - 1];
      assert es[..k] == init[..k];
      assert es[..k + 1][..k] == es[..k];
      if k < |init| {
        PrefixRuns(init, k);
        assert init[k] == es[k];
      } else {
        assert init[..k] == init;
      }
    } else {
      assert es[..k] == es;
    }
  }

  lemma {:induction false} ClockRises(es: seq<Event>, i: nat, j: nat)
    requires Runs(Empty(), es) && i <= j <= |es| && Rising(es, i, j)
    ensures After(Empty(), es[..i]).clock <= After(Empty(), es[..j]).clock
    decreases j - i
  {
    if i < j {
      ClockRises(es, i, j - 1);
      PrefixRuns(es, j - 1);
      StepRises(After(Empty(), es[..j - 1]), es[j - 1]);
    }
  }

  /** From a clock update on, while the clock is not set back, the time is below it. */
  lemma {:induction false} BelowSince(es: seq<Event>, a: nat, j: nat)
    requires Runs(Empty(), es) && a < j <= |es| && es[a].Advance? && Rising(es, a, j)
    ensures es[a].lt < After(Empty(), es[..j]).clock
  {
    PrefixRuns(es, a);
    UpdatedIsAboveIff(After(Empty(), es[..a]).clock, es[a].lt);
    ClockRises(es, a + 1, j);
  }

  /** Two times in one slot that are neither old nor ahead of the clock are the same. */
  lemma {:induction false} OneRecentTime(clock: LTime, x: LTime, y: LTime)
    requires x % SLOTS == y % SLOTS && x < clock && y < clock && !Old(clock, x) && !Old(clock, y)
    ensures x == y
  {
    if x < y {
      SameSlot(x, y);
    } else if y < x {
      SameSlot(y, x);
    }
  }

  /** Logs of shorter runs are shorter, so what was accepted later happened later. */
  lemma {:induction false} LaterAccepted(es: seq<Event>, p: nat, q: nat)
    requires Runs(Empty(), es) && p < |es| && q < |es|
    requires |Accepted(Empty(), es[..p])| < |Accepted(Empty(), es[..q])|
    ensures p < q
  {
    if q <= p {
      assert es[..p][..q] == es[..q];
      ShorterLog(es[..p], q);
    }
  }

  lemma {:induction false} ShorterLog(es: seq<Event>, k: nat)
    requires k <= |es|
    ensures |Accepted(Empty(), es[..k])| <= |Accepted(Empty(), es)|
  {
    if k == |es| {
      assert es[..k] == es;
    } else {
      ShorterLog(es[..|es| - 1], k);
      assert es[..|es| - 1][..k] == es[..k];
    }
  }

  /** Between two acceptances of one message, the last message accepted for its slot is another one. */
  lemma {:induction false} OverwrittenBetween(log: seq<Msg>, i: nat, j: nat) returns (k: nat)
    requires i < j < |log| && log[i] == log[j] && LastIn(log[..j], log[j].ltime % SLOTS) != Some(log[j])
    ensures i < k < j && log[k].ltime % SLOTS == log[i].ltime % SLOTS && log[k] != log[i]
  {
    var slot := log[j].ltime % SLOTS;
    LastInFound(log[..j], slot);
    assert log[..j][i] == log[j];
    k :| 0 <= k < j && log[..j][k] == LastIn(log[..j], slot).value && log[..j][k].ltime % SLOTS == slot
         && forall q | k < q < j :: log[..j][q].ltime % SLOTS != slot;
    assert log[k] != log[i] && i <= k;
  }

  ghost predicate TiedBetween(log: seq<Msg>, i: nat, j: nat)
    requires i < j < |log|
  {
    exists k :: i < k < j && log[k].ltime == log[i].ltime && log[k] != log[i]
  }

  /** Where the handler of the n-th accepted message updated the clock, and where it accepted it. */
  ghost predicate HandledAt(es: seq<Event>, n: nat, a: nat, p: nat) {
    && Runs(Empty(), es) && n < |Accepted(Empty(), es)| && a < p < |es|
    && es[p] == Body(Accepted(Empty(), es)[n]) && es[a] == Advance(Accepted(Empty(), es)[n].ltime)
    && (forall k | a < k < p :: !es[k].Advance? && !es[k].Body?)
    && Accepted(Empty(), es[..p]) == Accepted(Empty(), es)[..n]
    && !IsDuplicate(After(Empty(), es[..p]), Accepted(Empty(), es)[n])
  }

  lemma {:induction false} HandledWhere(es: seq<Event>, n: nat) returns (a: nat, p: nat)
    requires Runs(Empty(), es) && n < |Accepted(Empty(), es)|
    ensures HandledAt(es, n, a, p)
  {
    p := AcceptedWhere(es, n);
    a := EnteredWhere(es[..p], es[p].m.ltime);
    assert forall k | 0 <= k < p :: es[..p][k] == es[k];
  }

  /** Handlers exclude each other, so a later one begins after an earlier one has accepted. */
  lemma {:induction false} HandledInOrder(es: seq<Event>, i: nat, a: nat, p: nat, k: nat, c: nat, r: nat)
    requires HandledAt(es, i, a, p) && HandledAt(es, k, c, r) && i < k
    ensures p < c
  {
    LaterAccepted(es, p, r);
    assert es[p].Body?;
  }

  lemma {:induction false} BothRecent(es: seq<Event>, a: nat, c: nat, r: nat, q: nat, m: Msg, x: Msg)
    requires Runs(Empty(), es) && a < c < r < q <= |es| && Rising(es, a, q)
    requires es[a] == Advance(m.ltime) && es[c] == Advance(x.ltime) && m.ltime % SLOTS == x.ltime % SLOTS
    requires !Old(After(Empty(), es[..r]).clock, x.ltime) && !Old(After(Empty(), es[..q]).clock, m.ltime)
    ensures m.ltime == x.ltime
  {
    BelowSince(es, a, r);
    BelowSince(es, c, r);
    ClockRises(es, r, q);
    OneRecentTime(After(Empty(), es[..r]).clock, m.ltime, x.ltime);
  }

  /** Between two acceptances of one message another one took its slot. */
  lemma {:induction false} SlotTakenBetween(es: seq<Event>, i: nat, j: nat, b: nat, q: nat) returns (k: nat)
    requires HandledAt(es, j, b, q) && UniqueIds(Accepted(Empty(), es))
    requires i < j && Accepted(Empty(), es)[i] == Accepted(Empty(), es)[j]
    ensures var log := Accepted(Empty(), es);
            i < k < j && log[k].ltime % SLOTS == log[i].ltime % SLOTS && log[k] != log[i]
  {
    var log := Accepted(Empty(), es);
    assert log[..j] + [log[j]] == log[..j + 1];
    PrefixRuns(es, q);
    AcceptedBySlotIff(es[..q], log[j]);
    k := OverwrittenBetween(log, i, j);
  }

  lemma {:induction false} TieUnlessFall(es: seq<Event>, i: nat, j: nat, a: nat, p: nat, b: nat, q: nat)
    requires HandledAt(es, i, a, p) && HandledAt(es, j, b, q) && UniqueIds(Accepted(Empty(), es))
    requires i < j && Accepted(Empty(), es)[i] == Accepted(Empty(), es)[j]
    ensures a < q && (Rising(es, a, q) ==> TiedBetween(Accepted(Empty(), es), i, j))
  {
    HandledInOrder(es, i, a, p, j, b, q);
    if Rising(es, a, q) {
      var k := SlotTakenBetween(es, i, j, b, q);
      var c, r := HandledWhere(es, k);
      HandledInOrder(es, i, a, p, k, c, r);
      HandledInOrder(es, k, c, r, j, b, q);
      BothRecent(es, a, c, r, q, Accepted(Empty(), es)[i], Accepted(Empty(), es)[k]);
    }
  }

  /** The clock is set back after the handler of the i-th accepted message updated it and before the j-th
      is accepted. */
  ghost predicate SetBackBetween(es: seq<Event>, i: nat, j: nat) {
    exists a: nat, p: nat, b: nat, q: nat ::
      HandledAt(es, i, a, p) && HandledAt(es, j, b, q) && a <= q && !Rising(es, a, q)
  }

  /** In every run: a message accepted twice has a different message of the very same time accepted in
      between, or the clock was set back in between. */
  lemma {:induction false} ReacceptedOnlyAfterTie(es: seq<Event>, i: nat, j: nat)
    requires Runs(Empty(), es) && UniqueIds(Accepted(Empty(), es))
    requires i < j < |Accepted(Empty(), es)| && Accepted(Empty(), es)[i] == Accepted(Empty(), es)[j]
    ensures TiedBetween(Accepted(Empty(), es), i, j) || SetBackBetween(es, i, j)
  {
    var a, p := HandledWhere(es, i);
    var b, q := HandledWhere(es, j);
    TieUnlessFall(es, i, j, a, p, b, q);
  }

  lemma {:induction false} SteadyRises(es: seq<Event>, i: nat, j: nat)
    requires Steady(Empty(), es) && i <= j <= |es|
    ensures Rising(es, i, j)
  {
    forall k | i <= k < j
      ensures !Falls(After(Empty(), es[..k]), es[k])
    {
      SteadyPrefix(es, k + 1);
      assert es[..k + 1][..k] == es[..k];
    }
  }

  lemma {:induction false} SteadyPrefix(es: seq<Event>, k: nat)
    requires Steady(Empty(), es) && k <= |es|
    ensures Steady(Empty(), es[..k])
  {
    if k == |es| {
      assert es[..k] == es;
    } else {
      SteadyPrefix(es[..|es| - 1], k);
      assert es[..|es| - 1][..k] == es[..k];
    }
  }

  /** Different messages carry different times. Lamport times alone do not promise it: two
      nodes may originate at the same time. */
  ghost predicate DistinctTimes(ms: seq<Msg>) {
    forall i, j | 0 <= i < |ms| && 0 <= j < |ms| && ms[i].ltime == ms[j].ltime :: ms[i] == ms[j]
  }

  /** With distinct times, a message is applied again, whatever the channel repeats, only if the clock
      was set back in between; so, while it is not, every message is applied at most once. */
  lemma {:induction false} AppliedAtMostOnce(es: seq<Event>)
    requires Runs(Empty(), es) && UniqueIds(Accepted(Empty(), es)) && DistinctTimes(Accepted(Empty(), es))
    ensures var log := Accepted(Empty(), es);
            forall i: nat, j: nat | i < j < |log| && log[i] == log[j] :: SetBackBetween(es, i, j)
    ensures Steady(Empty(), es) ==> NoRepeats(Accepted(Empty(), es))
  {
    var log := Accepted(Empty(), es);
    forall i: nat, j: nat | i < j < |log| && log[i] == log[j]
      ensures SetBackBetween(es, i, j) && !Steady(Empty(), es)
    {
      ReacceptedOnlyAfterTie(es, i, j);
      if Steady(Empty(), es) {
        NotSetBack(es, i, j);
      }
    }
  }

  lemma {:induction false} NotSetBack(es: seq<Event>, i: nat, j: nat)
    requires Steady(Empty(), es)
    ensures !SetBackBetween(es, i, j)
  {
    forall a: nat, p: nat, b: nat, q: nat | HandledAt(es, i, a, p) && HandledAt(es, j, b, q) && a <= q
      ensures Rising(es, a, q)
    {
      SteadyRises(es, a, q);
    }
  }
}
