/** A tribe of nodes exchanging messages and full states (mgmt/tribe/tribe.go,
mgmt/tribe/delegate.go): the Lamport order of everything any node ever originates.

Messages and full states, once sent, may be received by any node, any number of times and in
any order. Exporting and merging a full state take no lock, so each of their accesses to the clock
or to one slot of the ring is a move of its own, and anything may happen in between. */
module Gossip {
  import opened Wrappers
  import opened LamportClock
  import opened TribeTypes
  import opened Inbox

  /** A node: its inbox; its causal past, which is every message it originated or received, the
      causal pasts of those it received and of the states it merged; and the messages whose handlers
      have advanced its clock. */
  datatype Peer = Peer(inbox: Inbox, past: set<Msg>, met: set<Msg>)

  /** A message on the wire with the causal past of its originator. */
  datatype Letter = Letter(m: Msg, past: set<Msg>)

  /** The part of a full state that concerns the inbox. Task state queries are not exchanged. */
  datatype FullState = FullState(ltime: LTime, msgs: seq<Option<Msg>>, past: set<Msg>)

  /** A full state being exported: the slots read so far. */
  datatype Draft = Draft(at: string, msgs: seq<Option<Msg>>)

  /** A full state being merged. */
  datatype Merge = Merge(at: string, state: FullState, join: bool)

  datatype Tribe = Tribe(
    peers: map<string, Peer>,
    letters: set<Letter>,
    states: set<FullState>,
    drafts: map<nat, Draft>,
    checked: set<Merge>,     // merges that found the own clock not ahead
    updated: set<Merge>)     // merges that have updated the clock

  datatype Move =
    | Originate(at: string, m: Msg)
    | Receive(at: string, letter: Letter)           // a handler's clock update
    | Handle(at: string, m: Msg)                    // the rest of the handler, under the mutex
    | StartExport(id: nat, at: string)
    | ReadSlot(id: nat)
    | FinishExport(id: nat)                         // reads the clock
    | CheckMerge(merge: Merge)
    | UpdateMerge(merge: Merge)
    | CopySlot(merge: Merge, slot: nat)             // of a joining node

  function Exchange(m: Option<Msg>): Option<Msg> {
    if m.Some? && m.value.TaskStateQuery? then None else m
  }

  function Exchanged(seen: seq<Option<Msg>>): seq<Option<Msg>> {
    seq(|seen|, i requires 0 <= i < |seen| => Exchange(seen[i]))
  }

  /** A joining node takes over every message the other one has seen. */
  function TakeOver(seen: seq<Option<Msg>>, msgs: seq<Option<Msg>>): (r: seq<Option<Msg>>)
    requires |seen| == |msgs|
    ensures |r| == |seen|
  {
    seq(|seen|, i requires 0 <= i < |seen| => if msgs[i].Some? then msgs[i] else seen[i])
  }

  /** The check and the update of an undisturbed merge together yield the maximum, also when the
      remote time is zero and both the subtraction and the addition wrap. */
  lemma {:induction false} MergeClockIsMax(now: LTime, remote: LTime)
    ensures (if now > remote then now else MergedClock(now, remote)) == if now > remote then now else remote
  {
  }

  /** When the clock moves between the check and the update, the update still does not lower it,
      unless the remote time is zero. */
  lemma {:induction false} MergeKeepsClockIff(now: LTime, remote: LTime)
    ensures MergedClock(now, remote) >= now <==> remote != 0 || now == 0
    ensures remote != 0 ==> MergedClock(now, remote) == if now > remote then now else remote
  {
  }

  ghost predicate WellFormed(t: Tribe) {
    && (forall n | n in t.peers :: Valid(t.peers[n].inbox))
    && (forall fs | fs in t.states :: |fs.msgs| == SLOTS)
    && (forall d | d in t.drafts :: t.drafts[d].at in t.peers && |t.drafts[d].msgs| <= SLOTS)
    && (forall g | g in t.checked + t.updated :: g.at in t.peers && g.state in t.states)
  }

  /** Possible moves that do not wrap a clock by counting past its last value. */
  ghost predicate Allowed(t: Tribe, v: Move)
    requires WellFormed(t)
  {
    match v
    case Originate(n, m) => n in t.peers && t.peers[n].inbox.clock != LAST && m.ltime == Succ(t.peers[n].inbox.clock)
    case Receive(n, l) => n in t.peers && l in t.letters && l.m.ltime != LAST
    case Handle(n, m) => n in t.peers && m in t.peers[n].met
    case StartExport(id, n) => n in t.peers && id !in t.drafts
    case ReadSlot(id) => id in t.drafts && |t.drafts[id].msgs| < SLOTS
    case FinishExport(id) => id in t.drafts && |t.drafts[id].msgs| == SLOTS
    case CheckMerge(g) => g.at in t.peers && g.state in t.states
    case UpdateMerge(g) => g in t.checked
    case CopySlot(g, i) => g in t.updated && g.join && i < SLOTS
  }

  ghost function Moved(t: Tribe, v: Move): (t': Tribe)
    requires WellFormed(t) && Allowed(t, v)
    ensures WellFormed(t')
  {
    match v
    case Originate(n, m) =>
      var p := t.peers[n];
      t.(peers := t.peers[n := p.(inbox := Step(p.inbox, Increment), past := p.past + {m})],
         letters := t.letters + {Letter(m, p.past)})
    case Receive(n, l) =>
      var p := t.peers[n];
      t.(peers := t.peers[n := Peer(Step(p.inbox, Advance(l.m.ltime)), p.past + {l.m} + l.past, p.met + {l.m})])
    case Handle(n, m) =>
      var p := t.peers[n];
      t.(peers := t.peers[n := p.(inbox := Step(p.inbox, Body(m)))])
    case StartExport(id, n) => t.(drafts := t.drafts[id := Draft(n, [])])
    case ReadSlot(id) =>
      var d := t.drafts[id];
      var seen := t.peers[d.at].inbox.seen;
      t.(drafts := t.drafts[id := d.(msgs := d.msgs + [Exchange(seen[|d.msgs|])])])
    case FinishExport(id) =>
      var d := t.drafts[id];
      var p := t.peers[d.at];
      t.(drafts := t.drafts - {id}, states := t.states + {FullState(p.inbox.clock, d.msgs, p.past)})
    case CheckMerge(g) =>
      if t.peers[g.at].inbox.clock > g.state.ltime then t else t.(checked := t.checked + {g})
    case UpdateMerge(g) =>
      var p := t.peers[g.at];
      var inbox := Step(p.inbox, MergeUpdate(g.state.ltime));
      t.(peers := t.peers[g.at := p.(inbox := inbox, past := p.past + g.state.past)], updated := t.updated + {g})
    case CopySlot(g, i) =>
      var p := t.peers[g.at];
      if g.state.msgs[i].None? then t
      else t.(peers := t.peers[g.at := p.(inbox := p.inbox.(seen := p.inbox.seen[i := g.state.msgs[i]]))])
  }

  /** Every remembered message sits in the slot of its time, below the given clock. */
  ghost predicate Placed(seen: seq<Option<Msg>>, clock: LTime) {
    forall s | 0 <= s < |seen| && seen[s].Some? :: seen[s].value.ltime % SLOTS == s && seen[s].value.ltime < clock
  }

  ghost predicate Until(past: set<Msg>, lt: int) {
    forall m | m in past :: m.ltime <= lt
  }

  ghost predicate PeerOrdered(p: Peer) {
    Placed(p.inbox.seen, p.inbox.clock) && Until(p.past, p.inbox.clock) && Until(p.met, p.inbox.clock - 1)
  }

  ghost predicate StateOrdered(fs: FullState) {
    Placed(fs.msgs, fs.ltime) && Until(fs.past, fs.ltime)
  }

  /** The Lamport invariant of the whole tribe. */
  ghost predicate Ordered(t: Tribe) {
    && WellFormed(t)
    && (forall n | n in t.peers :: PeerOrdered(t.peers[n]))
    && (forall l | l in t.letters :: Until(l.past, l.m.ltime - 1))
    && (forall fs | fs in t.states :: StateOrdered(fs))
    && (forall d | d in t.drafts :: Placed(t.drafts[d].msgs, t.peers[t.drafts[d].at].inbox.clock))
    && (forall g | g in t.updated :: g.state.ltime <= t.peers[g.at].inbox.clock)
  }

  /** A clock above zero comes with a message: the clock only moves with messages. */
  ghost predicate Rooted(t: Tribe) {
    && (forall n | n in t.peers :: t.peers[n].inbox.clock > 0 ==> exists m :: m in t.peers[n].past && m.ltime > 0)
    && (forall l | l in t.letters :: l.m.ltime > 0)
    && (forall fs | fs in t.states :: fs.ltime > 0 ==> exists m :: m in fs.past && m.ltime > 0)
  }

  /** The one step that lowers a clock: the update of a merge at remote time zero after the own clock
      has moved on from zero. */
  ghost predicate Falls(t: Tribe, v: Move)
    requires WellFormed(t) && Allowed(t, v)
  {
    v.UpdateMerge? && v.merge.state.ltime == 0 && t.peers[v.merge.at].inbox.clock != 0
  }

  /** Replacing one node by one whose clock is not lower. */
  lemma {:induction false} PeerAdvances(t: Tribe, n: string, p: Peer)
    requires Ordered(t) && n in t.peers && Valid(p.inbox) && PeerOrdered(p) && t.peers[n].inbox.clock <= p.inbox.clock
    ensures Ordered(t.(peers := t.peers[n := p]))
  {
  }

  lemma {:induction false} HandlerOrdered(t: Tribe, v: Move)
    requires Ordered(t) && Allowed(t, v) && (v.Originate? || v.Receive? || v.Handle?)
    ensures Ordered(Moved(t, v))
  {
    var p, q := t.peers[v.at], Moved(t, v).peers[v.at];
    if v.Receive? {
      UpdatedIsAboveIff(p.inbox.clock, v.letter.m.ltime);
    }
    assert PeerOrdered(q);
    PeerAdvances(t, v.at, q);
  }

  lemma {:induction false} ExportOrdered(t: Tribe, v: Move)
    requires Ordered(t) && Allowed(t, v) && (v.StartExport? || v.ReadSlot? || v.FinishExport?)
    ensures Ordered(Moved(t, v))
  {
  }

  lemma {:induction false} UpdateOrdered(t: Tribe, v: Move)
    requires Ordered(t) && Allowed(t, v) && v.UpdateMerge? && !Falls(t, v)
    ensures Ordered(Moved(t, v))
  {
    var g := v.merge;
    var p, q := t.peers[g.at], Moved(t, v).peers[g.at];
    MergeKeepsClockIff(p.inbox.clock, g.state.ltime);
    assert StateOrdered(g.state);
    assert PeerOrdered(q);
    PeerAdvances(t, g.at, q);
  }

  lemma {:induction false} CopyOrdered(t: Tribe, v: Move)
    requires Ordered(t) && Allowed(t, v) && v.CopySlot?
    ensures Ordered(Moved(t, v))
  {
    var g := v.merge;
    var q := Moved(t, v).peers[g.at];
    assert StateOrdered(g.state) && g.state.ltime <= t.peers[g.at].inbox.clock;
    assert PeerOrdered(q);
    PeerAdvances(t, g.at, q);
  }

  lemma {:induction false} FallDisorders(t: Tribe, v: Move)
    requires WellFormed(t) && Rooted(t) && Allowed(t, v) && Falls(t, v)
    ensures !Ordered(Moved(t, v))
  {
    var n := v.merge.at;
    var m :| m in t.peers[n].past && m.ltime > 0;
    var q := Moved(t, v).peers[n];
    assert m in q.past && q.inbox.clock == 0;
  }

  /** A move keeps the tribe ordered exactly if it is not a falling update. */
  lemma {:induction false} MoveOrderedIff(t: Tribe, v: Move)
    requires Ordered(t) && Rooted(t) && Allowed(t, v)
    ensures Ordered(Moved(t, v)) <==> !Falls(t, v)
  {
    if Falls(t, v) {
      FallDisorders(t, v);
    } else {
      match v
      case Originate(_, _) => HandlerOrdered(t, v);
      case Receive(_, _) => HandlerOrdered(t, v);
      case Handle(_, _) => HandlerOrdered(t, v);
      case StartExport(_, _) => ExportOrdered(t, v);
      case ReadSlot(_) => ExportOrdered(t, v);
      case FinishExport(_) => ExportOrdered(t, v);
      case CheckMerge(_) =>
      case UpdateMerge(_) => UpdateOrdered(t, v);
      case CopySlot(_, _) => CopyOrdered(t, v);
    }
  }

  lemma {:induction false} StateRooted(t: Tribe, v: Move)
    requires Rooted(t) && WellFormed(t) && Allowed(t, v) && !v.Originate? && !v.Receive? && !v.Handle?
    ensures Rooted(Moved(t, v))
  {
  }

  lemma {:induction false} MoveRooted(t: Tribe, v: Move)
    requires Rooted(t) && WellFormed(t) && Allowed(t, v)
    ensures Rooted(Moved(t, v))
  {
    if !v.Originate? && !v.Receive? && !v.Handle? {
      StateRooted(t, v);
    }
  }

  // Runs.

  ghost predicate Runs(t: Tribe, vs: seq<Move>)
    requires WellFormed(t)
    decreases |vs|
  {
    vs == [] || (Allowed(t, vs[0]) && Runs(Moved(t, vs[0]), vs[1..]))
  }

  ghost function After(t: Tribe, vs: seq<Move>): (t': Tribe)
    requires WellFormed(t) && Runs(t, vs)
    ensures WellFormed(t')
    decreases |vs|
  {
    if vs == [] then t else After(Moved(t, vs[0]), vs[1..])
  }

  /** Fresh nodes, nothing sent. */
  ghost predicate Fresh(t: Tribe) {
    && (forall n | n in t.peers :: t.peers[n] == Peer(Empty(), {}, {}))
    && t.letters == {} && t.states == {} && t.drafts == map[] && t.checked == {} && t.updated == {}
  }

  ghost predicate AlwaysOrdered(t: Tribe, vs: seq<Move>)
    requires WellFormed(t) && Runs(t, vs)
    decreases |vs|
  {
    Ordered(t) && (vs == [] || AlwaysOrdered(Moved(t, vs[0]), vs[1..]))
  }

  ghost predicate NeverFalls(t: Tribe, vs: seq<Move>)
    requires WellFormed(t) && Runs(t, vs)
    decreases |vs|
  {
    vs == [] || (!Falls(t, vs[0]) && NeverFalls(Moved(t, vs[0]), vs[1..]))
  }

  /** A run keeps the tribe ordered throughout exactly if no update in it falls. */
  lemma {:induction false} AlwaysOrderedIff(t: Tribe, vs: seq<Move>)
    requires Ordered(t) && Rooted(t) && Runs(t, vs)
    ensures AlwaysOrdered(t, vs) <==> NeverFalls(t, vs)
    ensures NeverFalls(t, vs) ==> Ordered(After(t, vs))
    decreases |vs|
  {
    if vs != [] {
      MoveOrderedIff(t, vs[0]);
      MoveRooted(t, vs[0]);
      if !Falls(t, vs[0]) {
        AlwaysOrderedIff(Moved(t, vs[0]), vs[1..]);
      }
    }
  }

  lemma {:induction false} FreshOrdered(t: Tribe)
    requires Fresh(t)
    ensures Ordered(t) && Rooted(t)
  {
  }

  /** The clock condition: after every run without a falling update, a message originated at any node
      has a time above that of every message in its causal past. */
  lemma {:induction false} HappenedBefore(t: Tribe, vs: seq<Move>, n: string, m: Msg, earlier: Msg)
    requires Fresh(t) && WellFormed(t) && Runs(t, vs) && NeverFalls(t, vs)
    requires Allowed(After(t, vs), Originate(n, m)) && earlier in After(t, vs).peers[n].past
    ensures earlier.ltime < m.ltime
  {
    FreshOrdered(t);
    AlwaysOrderedIff(t, vs);
  }

  lemma {:induction false} RunNext(t: Tribe, vs: seq<Move>, v: Move)
    requires WellFormed(t) && Runs(t, vs) && Allowed(After(t, vs), v)
    ensures Runs(t, vs + [v]) && After(t, vs + [v]) == Moved(After(t, vs), v)
    decreases |vs|
  {
    if vs == [] {
      assert ([] + [v])[1..] == [];
    } else {
      RunNext(Moved(t, vs[0]), vs[1..], v);
      assert (vs + [v])[1..] == vs[1..] + [v];
    }
  }

  // Undisturbed exports and merges.

  /** A tribe with one export under way. */
  function WithDraft(t: Tribe, id: nat, d: Draft): Tribe {
    t.(drafts := t.drafts[id := d])
  }

  lemma {:induction false} ReadOnce(t: Tribe, n: string, id: nat, k: nat)
    requires WellFormed(t) && n in t.peers && k < SLOTS
    ensures var all := Exchanged(t.peers[n].inbox.seen);
      var u := WithDraft(t, id, Draft(n, all[..k]));
      && WellFormed(u) && Allowed(u, ReadSlot(id))
      && Moved(u, ReadSlot(id)) == WithDraft(t, id, Draft(n, all[..k + 1]))
  {
    var all := Exchanged(t.peers[n].inbox.seen);
    assert all[..k + 1] == all[..k] + [all[k]];
    assert t.drafts[id := Draft(n, all[..k])][id := Draft(n, all[..k + 1])] == t.drafts[id := Draft(n, all[..k + 1])];
  }

  /** A node exports k slots of its ring. */
  lemma {:induction false} ReadsSlots(t: Tribe, n: string, id: nat, k: nat) returns (vs: seq<Move>)
    requires WellFormed(t) && n in t.peers && id !in t.drafts && k <= SLOTS
    ensures Runs(t, vs) && After(t, vs) == WithDraft(t, id, Draft(n, Exchanged(t.peers[n].inbox.seen)[..k]))
    decreases k
  {
    if k == 0 {
      RunNext(t, [], StartExport(id, n));
      vs := [] + [StartExport(id, n)];
    } else {
      vs := ReadsSlots(t, n, id, k - 1);
      ReadOnce(t, n, id, k - 1);
      RunNext(t, vs, ReadSlot(id));
      vs := vs + [ReadSlot(id)];
    }
  }

  /** An export that nothing interferes with yields the node's clock and its whole ring, task state queries
      aside, and changes nothing else. */
  lemma {:induction false} ExportsWhole(t: Tribe, n: string, id: nat) returns (vs: seq<Move>)
    requires WellFormed(t) && n in t.peers && id !in t.drafts
    ensures Runs(t, vs)
    ensures var p := t.peers[n];
      After(t, vs) == t.(states := t.states + {FullState(p.inbox.clock, Exchanged(p.inbox.seen), p.past)})
  {
    var all := Exchanged(t.peers[n].inbox.seen);
    vs := ReadsSlots(t, n, id, SLOTS);
    assert all[..SLOTS] == all;
    RunNext(t, vs, FinishExport(id));
    vs := vs + [FinishExport(id)];
    assert t.drafts[id := Draft(n, all)] - {id} == t.drafts;
  }

  /** The ring with the first k slots taken over. */
  function TakenTo(seen: seq<Option<Msg>>, msgs: seq<Option<Msg>>, k: nat): (r: seq<Option<Msg>>)
    requires |seen| == |msgs| && k <= |seen|
    ensures |r| == |seen|
  {
    TakeOver(seen, msgs)[..k] + seen[k..]
  }

  lemma {:induction false} TakenNext(seen: seq<Option<Msg>>, msgs: seq<Option<Msg>>, k: nat)
    requires |seen| == |msgs| && k < |seen|
    ensures TakenTo(seen, msgs, k + 1) ==
      if msgs[k].None? then TakenTo(seen, msgs, k) else TakenTo(seen, msgs, k)[k := msgs[k]]
  {
  }

  /** A tribe in which one peer's ring is changed. */
  function WithRing(t: Tribe, n: string, seen: seq<Option<Msg>>): Tribe
    requires n in t.peers
  {
    t.(peers := t.peers[n := t.peers[n].(inbox := t.peers[n].inbox.(seen := seen))])
  }

  lemma {:induction false} CopiesSlots(t: Tribe, vs: seq<Move>, g: Merge, k: nat) returns (ws: seq<Move>)
    requires WellFormed(t) && Runs(t, vs) && g in After(t, vs).updated && g.join && k <= SLOTS
    requires g.at in After(t, vs).peers && |After(t, vs).peers[g.at].inbox.seen| == |g.state.msgs| == SLOTS
    ensures Runs(t, ws)
    ensures var u := After(t, vs); After(t, ws) == WithRing(u, g.at, TakenTo(u.peers[g.at].inbox.seen, g.state.msgs, k))
    decreases k
  {
    var u := After(t, vs);
    var seen := u.peers[g.at].inbox.seen;
    if k == 0 {
      ws := vs;
      assert TakenTo(seen, g.state.msgs, 0) == seen;
      assert WithRing(u, g.at, seen).peers == u.peers;
    } else {
      ws := CopiesSlots(t, vs, g, k - 1);
      TakenNext(seen, g.state.msgs, k - 1);
      CopiedOnce(u, g, TakenTo(seen, g.state.msgs, k - 1), TakenTo(seen, g.state.msgs, k), k - 1);
      RunNext(t, ws, CopySlot(g, k - 1));
      ws := ws + [CopySlot(g, k - 1)];
    }
  }

  lemma {:induction false} CopiedOnce(t: Tribe, g: Merge, before: seq<Option<Msg>>, after: seq<Option<Msg>>, i: nat)
    requires WellFormed(t) && g in t.updated && g.join && i < SLOTS && |before| == SLOTS && |g.state.msgs| == SLOTS
    requires g.at in t.peers && WellFormed(WithRing(t, g.at, before))
    requires after == if g.state.msgs[i].None? then before else before[i := g.state.msgs[i]]
    ensures Allowed(WithRing(t, g.at, before), CopySlot(g, i))
    ensures Moved(WithRing(t, g.at, before), CopySlot(g, i)) == WithRing(t, g.at, after)
  {
  }

  /** The inbox after the merge: the greater clock and, if joining, the ring with every message of the
      state taken over. */
  function Merged(inbox: Inbox, state: FullState, join: bool): Inbox
    requires |inbox.seen| == |state.msgs|
  {
    Inbox(state.ltime, if join then TakeOver(inbox.seen, state.msgs) else inbox.seen)
  }

  lemma {:induction false} UpdatesClock(t: Tribe, vs: seq<Move>, g: Merge) returns (ws: seq<Move>)
    requires WellFormed(t) && Runs(t, vs) && g.at in After(t, vs).peers && g.state in After(t, vs).states
    requires After(t, vs).peers[g.at].inbox.clock <= g.state.ltime
    ensures Runs(t, ws) && g in After(t, ws).updated && After(t, ws).peers.Keys == After(t, vs).peers.Keys
    ensures After(t, ws).peers[g.at].inbox == After(t, vs).peers[g.at].inbox.(clock := g.state.ltime)
    ensures forall n | n in After(t, vs).peers && n != g.at :: After(t, ws).peers[n] == After(t, vs).peers[n]
  {
    MergeClockIsMax(After(t, vs).peers[g.at].inbox.clock, g.state.ltime);
    RunNext(t, vs, CheckMerge(g));
    ws := vs + [CheckMerge(g)];
    RunNext(t, ws, UpdateMerge(g));
    ws := ws + [UpdateMerge(g)];
  }

  /** A merge that nothing interferes with, of a state that is not behind, ends so, after any moves. */
  lemma {:induction false} MergesWhole(t: Tribe, vs: seq<Move>, g: Merge) returns (ws: seq<Move>)
    requires WellFormed(t) && Runs(t, vs) && g.at in After(t, vs).peers && g.state in After(t, vs).states
    requires After(t, vs).peers[g.at].inbox.clock <= g.state.ltime
    ensures Runs(t, ws) && After(t, ws).peers.Keys == After(t, vs).peers.Keys
    ensures |g.state.msgs| == |After(t, vs).peers[g.at].inbox.seen|
    ensures After(t, ws).peers[g.at].inbox == Merged(After(t, vs).peers[g.at].inbox, g.state, g.join)
    ensures forall n | n in After(t, vs).peers && n != g.at :: After(t, ws).peers[n] == After(t, vs).peers[n]
  {
    ws := UpdatesClock(t, vs, g);
    if g.join {
      var seen := After(t, ws).peers[g.at].inbox.seen;
      ws := CopiesSlots(t, ws, g, SLOTS);
      assert TakenTo(seen, g.state.msgs, SLOTS) == TakeOver(seen, g.state.msgs);
    }
  }

  /** The full state of a fresh node carries the time zero. */
  lemma {:induction false} ExportsZero(t: Tribe, n: string) returns (vs: seq<Move>, fs: FullState)
    requires Fresh(t) && WellFormed(t) && n in t.peers
    ensures Runs(t, vs) && After(t, vs).peers == t.peers && fs in After(t, vs).states && fs.ltime == 0
  {
    vs := ExportsWhole(t, n, 0);
    fs := FullState(0, Exchanged(t.peers[n].inbox.seen), t.peers[n].past);
  }

  // A falling update, and a time given out twice.

  /** A node receives the full state of a fresh one and finds its own clock not ahead. */
  lemma {:induction false} ChecksZero(t: Tribe, n: string, other: string, join: bool) returns (vs: seq<Move>, g: Merge)
    requires Fresh(t) && WellFormed(t) && n in t.peers && other in t.peers
    ensures Runs(t, vs) && After(t, vs).peers == t.peers && g in After(t, vs).checked && g.at == n && g.state.ltime == 0
    ensures g.join == join
  {
    var fs;
    vs, fs := ExportsZero(t, other);
    g := Merge(n, fs, join);
    RunNext(t, vs, CheckMerge(g));
    vs := vs + [CheckMerge(g)];
  }

  /** Between the check and the update of the merge it originates a message; the update then sets its
      clock back to zero. */
  lemma {:induction false} FallsToZero(t: Tribe, n: string, other: string, join: bool, m: Msg) returns (vs: seq<Move>)
    requires Fresh(t) && WellFormed(t) && n in t.peers && other in t.peers && m.ltime == 1
    ensures Runs(t, vs) && n in After(t, vs).peers
    ensures After(t, vs).peers[n].inbox.clock == 0 && m in After(t, vs).peers[n].past
  {
    var g;
    vs, g := ChecksZero(t, n, other, join);
    RunNext(t, vs, Originate(n, m));
    vs := vs + [Originate(n, m)];
    RunNext(t, vs, UpdateMerge(g));
    vs := vs + [UpdateMerge(g)];
  }

  /** So the next message it originates carries the same time as the first, which is in its past. */
  lemma {:induction false} TimeGivenTwice(t: Tribe, n: string, other: string, join: bool, m: Msg, m': Msg)
    returns (vs: seq<Move>)
    requires Fresh(t) && WellFormed(t) && n in t.peers && other in t.peers && m.ltime == 1 && m'.ltime == 1
    ensures Runs(t, vs) && Allowed(After(t, vs), Originate(n, m')) && m in After(t, vs).peers[n].past
    ensures !NeverFalls(t, vs)
  {
    vs := FallsToZero(t, n, other, join, m);
    if NeverFalls(t, vs) {
      HappenedBefore(t, vs, n, m', m);
    }
  }
}
