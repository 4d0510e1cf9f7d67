/** A fresh node that joins the tribe takes over another node's full state at once: its clock, its ring
of seen messages and its agreements (mgmt/tribe/delegate.go). This module shows that it then stands
where it would stand had it accepted the other node's messages one by one.

How agreements and members travel is up to the message encoding. All that is asked of what arrives is
that it lists what was sent and that its references resolve. */
module Joining {
  import opened Wrappers
  import opened LamportClock
  import opened TribeTypes
  import B = Inbox
  import G = Gossip
  import opened Intents
  import opened Convergence
  import S = Spinning
  import T = TribeTheorems

  // ---- Agreements ----

  function Moved(m: Member, offset: nat): Member {
    m.(pluginAgreement := if m.pluginAgreement.Some? then Some(m.pluginAgreement.value + offset) else None)
  }

  function AllMoved(members: map<string, Member>, offset: nat): map<string, Member> {
    map m | m in members :: Moved(members[m], offset)
  }

  /** The agreements are replaced; members are added, or replaced where both know one. Records that came
      with the state are new ones. */
  function Taken(own: Book, theirs: Book): Book {
    var offset := |own.objects|;
    Book(map n | n in theirs.agreements :: theirs.agreements[n] + offset,
         own.objects + theirs.objects,
         own.members + AllMoved(theirs.members, offset),
         own.intents)
  }

  lemma {:induction false} TakenValid(own: Book, theirs: Book)
    requires Valid(own) && Valid(theirs)
    ensures Valid(Taken(own, theirs))
  {
    var b, offset := Taken(own, theirs), |own.objects|;
    forall n | n in b.agreements
      ensures b.agreements[n] < |b.objects| && b.objects[b.agreements[n]].name == n
    {
      assert b.objects[b.agreements[n]] == theirs.objects[theirs.agreements[n]];
    }
    forall i | 0 <= i < |b.objects|
      ensures GoodLists(b.objects[i])
    {
      assert b.objects[i] == if i < offset then own.objects[i] else theirs.objects[i - offset];
    }
  }

  lemma {:induction false} AddedLater(a: map<string, Member>, b: map<string, Member>, k: string, v: Member)
    requires k !in b
    ensures a[k := v] + b == a + b[k := v]
  {
  }

  lemma {:induction false} AllMovedNext(rest: map<string, Member>, m: string, offset: nat)
    requires m in rest
    ensures AllMoved(rest, offset) == AllMoved(rest - {m}, offset)[m := Moved(rest[m], offset)]
  {
  }

  lemma {:induction false} MovedNext(got: map<string, Member>, rest: map<string, Member>, m: string, offset: nat)
    requires m in rest
    ensures got[m := Moved(rest[m], offset)] + AllMoved(rest - {m}, offset) == got + AllMoved(rest, offset)
    ensures |rest - {m}| < |rest|
  {
    assert (rest - {m}).Keys == rest.Keys - {m};
    AllMovedNext(rest, m, offset);
    AddedLater(got, AllMoved(rest - {m}, offset), m, Moved(rest[m], offset));
  }

  /** Whatever the joining node had before: it knows the sender's agreements, as the sender does, and no
      others; of members it keeps those the sender does not know. */
  lemma {:induction false} TakenReplaces(own: Book, theirs: Book)
    requires Valid(own) && Valid(theirs)
    ensures var b := Taken(own, theirs);
      && Valid(b) && b.agreements.Keys == theirs.agreements.Keys && b.intents == own.intents
      && (forall n | n in theirs.agreements :: Obj(b, n) == Obj(theirs, n))
      && b.members.Keys == own.members.Keys + theirs.members.Keys
      && (forall m | m in own.members && m !in theirs.members :: b.members[m] == own.members[m])
      && (forall m | m in theirs.members ::
            && b.members[m].taskAgreements == theirs.members[m].taskAgreements
            && (b.members[m].pluginAgreement.Some? <==> theirs.members[m].pluginAgreement.Some?)
            && (theirs.members[m].pluginAgreement.Some? ==>
                  b.objects[b.members[m].pluginAgreement.value]
                    == theirs.objects[theirs.members[m].pluginAgreement.value]))
  {
    TakenValid(own, theirs);
  }

  /** Parked intents overwrite the own ones at their positions. */
  function Overlaid(own: seq<Msg>, theirs: seq<Msg>): seq<Msg> {
    seq(|own|, i requires 0 <= i < |own| =>
      if i < |theirs| && !theirs[i].TaskStateQuery? then theirs[i] else own[i])
  }

  /** There is a position for every one of them. */
  predicate Fits(own: seq<Msg>, theirs: seq<Msg>) {
    forall i | |own| <= i < |theirs| :: theirs[i].TaskStateQuery?
  }

  /** Where they fit, everything the other node has parked is parked afterwards, at its own position, and
      nothing is that neither had parked. Own intents at other positions stay. */
  lemma {:induction false} IntentsTakenOver(own: seq<Msg>, theirs: seq<Msg>)
    requires Fits(own, theirs)
    ensures var all := Overlaid(own, theirs);
      && |all| == |own|
      && (forall m | m in theirs && !m.TaskStateQuery? :: m in all)
      && (forall m | m in all :: m in own || m in theirs)
      && (forall i | 0 <= i < |own| && (i >= |theirs| || theirs[i].TaskStateQuery?) :: own[i] in all)
  {
    var all := Overlaid(own, theirs);
    forall m | m in theirs && !m.TaskStateQuery?
      ensures m in all
    {
      var i :| 0 <= i < |theirs| && theirs[i] == m;
      assert all[i] == m;
    }
    forall i | 0 <= i < |own| && (i >= |theirs| || theirs[i].TaskStateQuery?)
      ensures own[i] in all
    {
      assert all[i] == own[i];
    }
  }

  /** So the only intent a node had parked itself is lost to any one of the other node's. */
  lemma {:induction false} OwnIntentLost(mine: Msg, other: Msg)
    requires !other.TaskStateQuery? && mine != other
    ensures Fits([mine], [other]) && Overlaid([mine], [other]) == [other]
  {
  }

  /** Over every history of the other node: a node with nothing parked has no position for what the other
      has parked exactly if that is anything at all. */
  lemma {:induction false} EmptyFitsIff(os: seq<Occasion>)
    requires !Run(os).Panicked?
    ensures Fits([], Run(os).book.intents) <==> Run(os).book.intents == []
  {
    S.RunParks(os);
    var parked := Run(os).book.intents;
    if parked != [] {
      assert parked[0] in parked;
    }
  }

  /** One message is enough: an add to an agreement that the other node does not know. */
  lemma {:induction false} MisfitReached(m: Msg)
    requires m.AddItem?
    ensures Run([Accept(m)]).Done? && Run([Accept(m)]).book.intents == [m]
    ensures !Fits([], Run([Accept(m)]).book.intents)
  {
    T.RunNext([], Accept(m));
    assert [] + [Accept(m)] == [Accept(m)];
    EmptyFitsIff([Accept(m)]);
  }

  /** A node that has heard of members and of nothing else. */
  predicate Unused(b: Book) {
    && b.agreements == map[] && b.objects == [] && b.intents == []
    && (forall m | m in b.members :: b.members[m] == Member(None, {}))
  }

  ghost predicate SameLists(a: Agreement, b: Agreement) {
    a.plugins == b.plugins && a.tasks == b.tasks
  }

  /** What arrives of a book without parked intents. */
  ghost predicate Arrived(sent: Book, got: Book) {
    && Valid(sent) && Sound(got) && got.intents == []
    && got.agreements.Keys == sent.agreements.Keys
    && (forall n | n in sent.agreements :: SameLists(Obj(sent, n), Obj(got, n)))
  }

  lemma {:induction false} TakenIs(own: Book, got: Book)
    requires Unused(own)
    ensures var b := Taken(own, got);
      && b.agreements == got.agreements && b.objects == got.objects && b.intents == []
      && b.members.Keys == own.members.Keys + got.members.Keys
      && (forall m | m in b.members :: b.members[m] == if m in got.members then got.members[m] else Member(None, {}))
  {
    var b := Taken(own, got);
    assert b.objects == got.objects;
    forall m | m in got.members
      ensures Moved(got.members[m], 0) == got.members[m]
    {
    }
  }

  lemma {:induction false} TakenSound(own: Book, got: Book)
    requires Unused(own) && Sound(got)
    ensures Sound(Taken(own, got))
  {
    TakenIs(own, got);
    var b := Taken(own, got);
    assert Valid(b);
  }

  lemma {:induction false} SamePresent(sent: Book, own: Book, got: Book, n: string, x: Item)
    requires Unused(own) && Arrived(sent, got)
    ensures Valid(Taken(own, got)) && (Present(Taken(own, got), n, x) <==> Present(sent, n, x))
  {
    TakenSound(own, got);
    TakenIs(own, got);
    if n in sent.agreements {
      assert SameLists(Obj(sent, n), Obj(got, n));
    }
  }

  lemma {:induction false} NothingParkedBalance(b: Book, n: string, x: Item)
    requires Valid(b) && b.intents == []
    ensures AtRest(b, n, x) && Balance(b, n, x) == if Present(b, n, x) then 1 else 0
  {
  }

  /** A book without parked intents is taken over with all it reflects. */
  lemma {:induction false} TakenReflects(sent: Book, ms: seq<Msg>, own: Book, got: Book)
    requires Reflects(sent, ms) && sent.intents == [] && Unused(own) && Arrived(sent, got)
    ensures Reflects(Taken(own, got), ms)
  {
    var b := Taken(own, got);
    TakenSound(own, got);
    TakenIs(own, got);
    forall n, x
      ensures AtRest(b, n, x) && Balance(b, n, x) == Net(ms, n, x)
    {
      assert Balance(sent, n, x) == Net(ms, n, x);
      NothingParkedBalance(sent, n, x);
      NothingParkedBalance(b, n, x);
      SamePresent(sent, own, got, n, x);
    }
  }

  // ---- The ring ----

  /** The inbox of a fresh node after the merge. */
  function Joined(sender: B.Inbox): B.Inbox {
    B.Inbox(sender.clock, G.Exchanged(sender.seen))
  }

  /** It is what the steps of the merge make of an empty inbox. */
  lemma {:induction false} JoinedByMerging(sender: B.Inbox)
    requires B.Valid(sender)
    ensures Joined(sender) == B.Inbox(B.MergedClock(B.Empty().clock, sender.clock),
                                      G.TakeOver(B.Empty().seen, G.Exchanged(sender.seen)))
  {
    G.MergeClockIsMax(0, sender.clock);
    assert G.TakeOver(B.Empty().seen, G.Exchanged(sender.seen)) == G.Exchanged(sender.seen);
  }

  /** And what the single moves of an export and a merge make of it, when nothing interferes. */
  lemma {:induction false} JoinedByMoves(t: G.Tribe, sender: string, joiner: string) returns (vs: seq<G.Move>)
    requires G.WellFormed(t) && t.drafts == map[] && sender in t.peers && joiner in t.peers && sender != joiner
    requires t.peers[joiner].inbox == B.Empty()
    ensures G.Runs(t, vs) && joiner in G.After(t, vs).peers && sender in G.After(t, vs).peers
    ensures G.After(t, vs).peers[joiner].inbox == Joined(t.peers[sender].inbox)
    ensures G.After(t, vs).peers[sender] == t.peers[sender]
  {
    var p := t.peers[sender];
    var g := G.Merge(joiner, G.FullState(p.inbox.clock, G.Exchanged(p.inbox.seen), p.past), true);
    vs := G.ExportsWhole(t, sender, 0);
    vs := G.MergesWhole(t, vs, g);
    JoinedByMerging(p.inbox);
  }

  /** An inbox that remembers what matters of a log: everything remembered was logged, in its slot, and
      the last message of a time that is not old is remembered, unless it is a task state query. */
  ghost predicate Recalls(b: B.Inbox, log: seq<Msg>)
    requires B.Valid(b)
  {
    && (forall i | 0 <= i < |log| :: log[i].ltime < b.clock)
    && (forall s | 0 <= s < B.SLOTS && b.seen[s].Some? ::
          b.seen[s].value in log && b.seen[s].value.ltime % B.SLOTS == s)
    && (forall lt: LTime :: !B.Old(b.clock, lt) ==> RecallsAt(b, log, lt))
  }

  ghost predicate RecallsAt(b: B.Inbox, log: seq<Msg>, lt: LTime)
    requires B.Valid(b)
  {
    var last := B.LastAt(log, lt);
    last.Some? && !last.value.TaskStateQuery? ==> b.seen[lt % B.SLOTS] == last
  }

  lemma {:induction false} TracksRecalls(b: B.Inbox, log: seq<Msg>)
    requires B.Valid(b) && B.Tracks(b, log)
    ensures Recalls(b, log)
  {
    forall s | 0 <= s < B.SLOTS && b.seen[s].Some?
      ensures b.seen[s].value in log && b.seen[s].value.ltime % B.SLOTS == s
    {
      B.LastInFound(log, s);
    }
    forall lt: LTime | !B.Old(b.clock, lt)
      ensures RecallsAt(b, log, lt)
    {
      B.SlotRemembers(b, log, lt);
    }
  }

  lemma {:induction false} JoinedRecalls(sender: B.Inbox, log: seq<Msg>)
    requires B.Valid(sender) && Recalls(sender, log)
    ensures B.Valid(Joined(sender)) && Recalls(Joined(sender), log)
  {
    forall lt: LTime | !B.Old(sender.clock, lt)
      ensures RecallsAt(Joined(sender), log, lt)
    {
      assert RecallsAt(sender, log, lt);
    }
  }

  lemma {:induction false} LastAtNext(log: seq<Msg>, m: Msg, lt: LTime)
    ensures B.LastAt(log + [m], lt) == if m.ltime == lt then Some(m) else B.LastAt(log, lt)
  {
    assert (log + [m])[..|log|] == log;
  }

  lemma {:induction false} AcceptRecallsAt(b: B.Inbox, log: seq<Msg>, m: Msg, lt: LTime)
    requires B.Valid(b) && Recalls(b, log) && m.ltime < b.clock && !B.IsDuplicate(b, m) && !B.Old(b.clock, lt)
    ensures RecallsAt(B.Step(b, B.Body(m)), log + [m], lt)
  {
    LastAtNext(log, m, lt);
    assert RecallsAt(b, log, lt);
    if m.ltime != lt && B.LastAt(log, lt).Some? {
      B.LastAtFound(log, lt);
      if m.ltime % B.SLOTS == lt % B.SLOTS {
        B.OneRecentTime(b.clock, m.ltime, lt);
      }
    }
  }

  lemma {:induction false} AcceptRecalls(b: B.Inbox, log: seq<Msg>, m: Msg)
    requires B.Valid(b) && Recalls(b, log) && m.ltime < b.clock && !B.IsDuplicate(b, m)
    ensures Recalls(B.Step(b, B.Body(m)), log + [m])
  {
    var b', log' := B.Step(b, B.Body(m)), log + [m];
    assert m in log' && forall k | k in log :: k in log';
    forall lt: LTime | !B.Old(b'.clock, lt)
      ensures RecallsAt(b', log', lt)
    {
      AcceptRecallsAt(b, log, m, lt);
    }
  }

  /** Time passing only makes more times old. */
  lemma {:induction false} AdvanceRecalls(b: B.Inbox, log: seq<Msg>, clock: LTime)
    requires B.Valid(b) && Recalls(b, log) && b.clock <= clock
    ensures Recalls(b.(clock := clock), log)
  {
    var b' := b.(clock := clock);
    forall lt: LTime | !B.Old(clock, lt)
      ensures RecallsAt(b', log, lt)
    {
      assert RecallsAt(b, log, lt);
    }
  }

  lemma {:induction false} RunRecalls(b: B.Inbox, log: seq<Msg>, es: seq<B.Event>)
    requires B.Valid(b) && Recalls(b, log) && B.Steady(b, es)
    ensures Recalls(B.After(b, es), log + B.Accepted(b, es))
    decreases |es|
  {
    if es == [] {
      assert log + [] == log;
    } else {
      var init, e := es[..|es| - 1], es[|es| - 1];
      RunRecalls(b, log, init);
      var c, done := B.After(b, init), log + B.Accepted(b, init);
      if e.Body? {
        if !B.IsDuplicate(c, e.m) {
          B.EnteredBelow(b, init, e.m.ltime);
          AcceptRecalls(c, done, e.m);
          assert log + B.Accepted(b, es) == done + [e.m];
        }
      } else {
        B.StepRises(c, e);
        AdvanceRecalls(c, done, B.Step(c, e).clock);
      }
    }
  }

  /** With distinct times, such an inbox accepts a message iff it is not old and was not logged. */
  lemma {:induction false} RecalledIff(b: B.Inbox, log: seq<Msg>, m: Msg)
    requires B.Valid(b) && Recalls(b, log) && UniqueIds(log + [m]) && B.DistinctTimes(log + [m])
    requires !m.TaskStateQuery?
    ensures !B.IsDuplicate(b, m) <==> !B.Old(b.clock, m.ltime) && m !in log
  {
    var ms := log + [m];
    assert ms[|log|] == m;
    if !B.Old(b.clock, m.ltime) {
      assert RecallsAt(b, log, m.ltime);
      B.LastAtFound(log, m.ltime);
      if m in log {
        var i :| 0 <= i < |log| && log[i] == m;
        LastIsIt(log, m);
      } else if b.seen[m.ltime % B.SLOTS].Some? {
        var x := b.seen[m.ltime % B.SLOTS].value;
        var i :| 0 <= i < |log| && log[i] == x;
        assert ms[i] == x;
      }
    }
  }

  lemma {:induction false} LastIsIt(log: seq<Msg>, m: Msg)
    requires m in log && B.DistinctTimes(log + [m])
    ensures B.LastAt(log, m.ltime) == Some(m)
  {
    var ms := log + [m];
    B.LastAtFound(log, m.ltime);
    var i :| 0 <= i < |log| && log[i] == m;
    var last := B.LastAt(log, m.ltime);
    var j :| 0 <= j < |log| && log[j] == last.value && log[j].ltime == m.ltime;
    assert ms[i] == m && ms[j] == log[j];
  }

  // ---- Convergence ----

  /** Messages other than task state queries occur once. */
  ghost predicate OnceEach(ms: seq<Msg>) {
    forall i, j | 0 <= i < j < |ms| && ms[i] == ms[j] :: ms[i].TaskStateQuery?
  }

  lemma {:induction false} PrefixDistinct(ms: seq<Msg>, m: Msg)
    requires UniqueIds(ms + [m]) && B.DistinctTimes(ms + [m])
    ensures UniqueIds(ms) && B.DistinctTimes(ms)
  {
    var all := ms + [m];
    assert forall i | 0 <= i < |ms| :: all[i] == ms[i];
  }

  /** Whatever is delivered to the inbox afterwards, nothing that was logged before is accepted again and
      nothing is accepted twice, while the clock is not set back. */
  lemma {:induction false} AcceptsOnce(b: B.Inbox, log: seq<Msg>, es: seq<B.Event>)
    requires B.Valid(b) && Recalls(b, log) && OnceEach(log) && B.Steady(b, es)
    requires UniqueIds(log + B.Accepted(b, es)) && B.DistinctTimes(log + B.Accepted(b, es))
    ensures OnceEach(log + B.Accepted(b, es))
    decreases |es|
  {
    if es == [] {
      assert log + [] == log;
    } else {
      var init, e := es[..|es| - 1], es[|es| - 1];
      var c, done := B.After(b, init), log + B.Accepted(b, init);
      if e.Body? && !B.IsDuplicate(c, e.m) {
        assert log + B.Accepted(b, es) == done + [e.m];
        PrefixDistinct(done, e.m);
        AcceptsOnce(b, log, init);
        RunRecalls(b, log, init);
        if !e.m.TaskStateQuery? {
          RecalledIff(c, done, e.m);
        }
      } else {
        AcceptsOnce(b, log, init);
      }
    }
  }

  /** The messages other than task state queries. */
  function Matter(ms: seq<Msg>): seq<Msg> {
    if ms == [] then []
    else Matter(ms[..|ms| - 1]) + if ms[|ms| - 1].TaskStateQuery? then [] else [ms[|ms| - 1]]
  }

  lemma {:induction false} MatterIs(ms: seq<Msg>)
    ensures forall m :: m in Matter(ms) <==> m in ms && !m.TaskStateQuery?
    ensures OnceEach(ms) ==> NoRepeats(Matter(ms))
  {
    if ms != [] {
      var init, last := ms[..|ms| - 1], ms[|ms| - 1];
      assert ms == init + [last];
      MatterIs(init);
      if OnceEach(ms) {
        assert OnceEach(init);
        assert last in init ==> last.TaskStateQuery?;
      }
    }
  }

  lemma {:induction false} MatterCounts(ms: seq<Msg>, add: bool, n: string, x: Item)
    ensures Count(Matter(ms), add, n, x) == Count(ms, add, n, x)
  {
    if ms != [] {
      var init, last := ms[..|ms| - 1], ms[|ms| - 1];
      MatterCounts(init, add, n, x);
      if !last.TaskStateQuery? {
        CountLast(Matter(init), last, add, n, x);
      } else {
        assert Matter(init) + [] == Matter(init);
      }
    }
  }

  ghost predicate SameMatter(s: seq<Msg>, t: seq<Msg>) {
    forall m: Msg :: !m.TaskStateQuery? ==> (m in s <==> m in t)
  }

  /** Logs with the same messages, task state queries aside, come to the same. */
  lemma {:induction false} SameNet(s: seq<Msg>, t: seq<Msg>, n: string, x: Item)
    requires OnceEach(s) && OnceEach(t) && SameMatter(s, t)
    ensures Net(s, n, x) == Net(t, n, x) && (Created(s, n) ==> Created(t, n))
  {
    MatterIs(s);
    MatterIs(t);
    T.SameSetSameMultiset(Matter(s), Matter(t));
    forall add
      ensures Count(s, add, n, x) == Count(t, add, n, x)
    {
      MatterCounts(s, add, n, x);
      MatterCounts(t, add, n, x);
      CountPermuted(Matter(s), Matter(t), add, n, x);
    }
    if Created(s, n) {
      var i :| 0 <= i < |s| && s[i].AddAgreement? && s[i].agr == n;
      assert s[i] in t;
    }
  }

  lemma {:induction false} LogOnce(es: seq<B.Event>, log: seq<Msg>)
    requires B.Steady(B.Empty(), es) && log == B.Accepted(B.Empty(), es) && UniqueIds(log) && B.DistinctTimes(log)
    ensures OnceEach(log)
  {
    B.SteadyRuns(B.Empty(), es);
    B.AppliedAtMostOnce(es);
  }

  lemma {:induction false} PartDistinct(s: seq<Msg>, t: seq<Msg>)
    requires UniqueIds(s + t) && B.DistinctTimes(s + t)
    ensures UniqueIds(s) && B.DistinctTimes(s)
  {
    var all := s + t;
    assert forall i | 0 <= i < |s| :: all[i] == s[i];
  }

  /** The joining node's log: what the sender had accepted, then what it accepts itself. */
  lemma {:induction false} JoinerOnce(esS: seq<B.Event>, log: seq<Msg>, es: seq<B.Event>)
    requires B.Steady(B.Empty(), esS) && log == B.Accepted(B.Empty(), esS)
    requires var inbox := Joined(B.After(B.Empty(), esS));
      B.Valid(inbox) && B.Steady(inbox, es)
      && UniqueIds(log + B.Accepted(inbox, es)) && B.DistinctTimes(log + B.Accepted(inbox, es))
    ensures OnceEach(log + B.Accepted(Joined(B.After(B.Empty(), esS)), es))
  {
    var sender := B.After(B.Empty(), esS);
    B.RunTracks(esS);
    TracksRecalls(sender, log);
    JoinedRecalls(sender, log);
    PartDistinct(log, B.Accepted(Joined(sender), es));
    LogOnce(esS, log);
    AcceptsOnce(Joined(sender), log, es);
  }

  /** The life of a joining node: it takes over the inbox and the book of a sender, and goes on. */
  ghost predicate JoinedLife(esS: seq<B.Event>, osS: seq<Occasion>, own: Book, got: Book,
                             es: seq<B.Event>, os: seq<Occasion>) {
    && T.Life(esS, osS) && Run(osS).Done? && Run(osS).book.intents == []
    && Unused(own) && Arrived(Run(osS).book, got) && Valid(Taken(own, got))
    && B.Valid(Joined(B.After(B.Empty(), esS)))
    && B.Runs(Joined(B.After(B.Empty(), esS)), es) && Messages(os) == B.Accepted(Joined(B.After(B.Empty(), esS)), es)
  }

  lemma {:induction false} JoinerReflects(esS: seq<B.Event>, osS: seq<Occasion>, own: Book, got: Book,
                                          es: seq<B.Event>, os: seq<Occasion>)
    requires JoinedLife(esS, osS, own, got, es, os) && RunFrom(Taken(own, got), os).Done?
    requires NoAgreementRemoved(Messages(osS) + Messages(os))
    ensures Reflects(RunFrom(Taken(own, got), os).book, Messages(osS) + Messages(os))
  {
    var s, t := Messages(osS), Messages(os);
    assert forall m | m in s :: m in s + t;
    assert forall m | m in t :: m in s + t;
    RunReflects(osS);
    TakenReflects(Run(osS).book, s, own, got);
    RunFromReflects(Taken(own, got), s, os);
  }

  /** A node that joined by a full-state merge agrees with a node that accepted the messages one by one:
      when no two messages share a time and no clock is set back, they know the same agreements and list
      the same items as soon as the sender's and the joiner's messages together are the other node's,
      task state queries aside. */
  lemma {:induction false} JoinerConverges(
    esS: seq<B.Event>, osS: seq<Occasion>, own: Book, got: Book, es: seq<B.Event>, os: seq<Occasion>,
    esA: seq<B.Event>, osA: seq<Occasion>, n: string, x: Item)
    requires JoinedLife(esS, osS, own, got, es, os) && RunFrom(Taken(own, got), os).Done?
    requires T.Life(esA, osA) && Run(osA).Done? && B.Steady(B.Empty(), esA)
    requires B.Steady(B.Empty(), esS) && B.Steady(Joined(B.After(B.Empty(), esS)), es)
    requires var log := Messages(osS) + Messages(os);
      && UniqueIds(log) && B.DistinctTimes(log) && NoAgreementRemoved(log)
      && UniqueIds(Messages(osA)) && B.DistinctTimes(Messages(osA))
      && SameMatter(log, Messages(osA))
    ensures n in RunFrom(Taken(own, got), os).book.agreements <==> n in Run(osA).book.agreements
    ensures Present(RunFrom(Taken(own, got), os).book, n, x) <==> Present(Run(osA).book, n, x)
  {
    var log, all := Messages(osS) + Messages(os), Messages(osA);
    var j, a := RunFrom(Taken(own, got), os).book, Run(osA).book;
    JoinerOnce(esS, Messages(osS), es);
    LogOnce(esA, all);
    SameNet(log, all, n, x);
    SameNet(all, log, n, x);
    JoinerReflects(esS, osS, own, got, es, os);
    assert NoAgreementRemoved(all);
    RunReflects(osA);
    SameBalance(j, log, a, all, n, x);
  }

  lemma {:induction false} SameBalance(j: Book, log: seq<Msg>, a: Book, all: seq<Msg>, n: string, x: Item)
    requires Reflects(j, log) && Reflects(a, all) && Net(log, n, x) == Net(all, n, x)
    requires Created(log, n) <==> Created(all, n)
    ensures n in j.agreements <==> n in a.agreements
    ensures Present(j, n, x) <==> Present(a, n, x)
  {
    assert AtRest(j, n, x) && Balance(j, n, x) == Net(log, n, x);
    assert AtRest(a, n, x) && Balance(a, n, x) == Net(all, n, x);
    if n in j.agreements {
      RestReadsBalance(j, n, x);
      RestReadsBalance(a, n, x);
    }
  }
}
