/** A tribe node as the source has it: fields updated in place by its handlers
(mgmt/tribe/tribe.go, mgmt/tribe/delegate.go). Each method is tied to the functions of Inbox,
Intents and Convergence. */
module TribeNode {
  import opened Wrappers
  import opened LamportClock
  import opened TribeTypes
  import B = Inbox
  import I = Intents
  import C = Convergence
  import G = Gossip
  import J = Joining

  /** The lists into which a full state sorts the ring; a task state query is in none. */
  datatype MsgClass = PluginMsgs | AgreementMsgs | TaskMsgs

  predicate InClass(m: Msg, c: MsgClass) {
    match c
    case PluginMsgs => (m.AddItem? || m.RemoveItem?) && m.item.PluginItem?
    case AgreementMsgs => m.AddAgreement? || m.RemoveAgreement? || m.JoinAgreement? || m.LeaveAgreement?
    case TaskMsgs => ((m.AddItem? || m.RemoveItem?) && m.item.TaskItem?) || m.StartTask? || m.StopTask?
  }

  function Sort(m: Option<Msg>, c: MsgClass): Option<Msg> {
    if m.Some? && InClass(m.value, c) then m else None
  }

  /** Copying the three lists in turn takes over exactly the exchanged messages of the sender. */
  lemma {:induction false} SortedTakeOver(seen: seq<Option<Msg>>, sender: seq<Option<Msg>>,
      plugins: seq<Option<Msg>>, agrs: seq<Option<Msg>>, tasks: seq<Option<Msg>>)
    requires |seen| == |sender| == |plugins| == |agrs| == |tasks|
    requires forall s | 0 <= s < |sender| ::
               && plugins[s] == Sort(sender[s], PluginMsgs) && agrs[s] == Sort(sender[s], AgreementMsgs)
               && tasks[s] == Sort(sender[s], TaskMsgs)
    ensures G.TakeOver(G.TakeOver(G.TakeOver(seen, plugins), agrs), tasks) == G.TakeOver(seen, G.Exchanged(sender))
  {
  }

  /** How a pass over the intents ended. */
  datatype PassEnd = Nothing | Took | Refused

  class TribeNode {
    const clock: LClock
    const msgBuffer: array<Option<Msg>>
    var intentBuffer: seq<Msg>
    var agreements: map<string, nat>
    var objects: seq<I.Agreement>
    var members: map<string, I.Member>

    ghost function Book(): I.Book
      reads this
    {
      I.Book(agreements, objects, members, intentBuffer)
    }

    ghost function Ring(): B.Inbox
      reads clock, msgBuffer
    {
      B.Inbox(clock.inc, msgBuffer[..])
    }

    ghost predicate Valid()
      reads this, clock, msgBuffer
    {
      msgBuffer.Length == B.SLOTS && I.Valid(Book())
    }

    constructor ()
      ensures Valid() && fresh(clock) && fresh(msgBuffer)
      ensures Ring() == B.Empty() && Book() == I.EMPTY
    {
      clock := new LClock();
      msgBuffer := new Option<Msg>[512](_ => None);
      intentBuffer, agreements, objects, members := [], map[], [], map[];
      new;
      assert msgBuffer[..] == B.Empty().seen;
    }

    method IsDuplicate(m: Msg) returns (dup: bool)
      requires Valid()
      ensures dup <==> B.IsDuplicate(Ring(), m)
    {
      var now := clock.Time();
      if now > msgBuffer.Length && m.ltime < now - msgBuffer.Length {
        return true;
      }
      var seen := msgBuffer[m.ltime % msgBuffer.Length];
      dup := seen.Some? && seen.value.uuid == m.uuid;
    }

    /** The skeleton all handlers share: advance the clock, turn away duplicates, remember the rest. */
    method Admit(m: Msg) returns (accepted: bool)
      requires Valid()
      modifies clock, msgBuffer
      ensures Valid() && Ring() == B.Step(B.Step(old(Ring()), B.Advance(m.ltime)), B.Body(m))
      ensures accepted <==> !B.IsDuplicate(B.Step(old(Ring()), B.Advance(m.ltime)), m)
    {
      clock.Update(m.ltime);
      var dup := IsDuplicate(m);
      if !dup {
        msgBuffer[m.ltime % msgBuffer.Length] := Some(m);
      }
      accepted := !dup;
    }

    /** processAddPluginIntents and processAddTaskIntents. */
    method ProcessAddItems(plugins: bool) returns (end: PassEnd)
      requires Valid()
      modifies this
      ensures Valid() && PassDid(old(Book()), if plugins then I.AddPlugins else I.AddTasks, end)
    {
      ghost var p := if plugins then I.AddPlugins else I.AddTasks;
      ghost var b := Book();
      for idx := 0 to |intentBuffer|
        invariant Book() == b && forall j | 0 <= j < idx :: !I.Hits(b, p, intentBuffer[j])
      {
        var m := intentBuffer[idx];
        if m.AddItem? && m.item.PluginItem? == plugins && m.agr in agreements {
          var a := objects[agreements[m.agr]];
          var listed, _ := Contains(I.Items(a, m.item), m.item);
          if !listed {
            StopsHere(b, p, idx);
            Append(m.agr, m.item);
            DropIntent(b, p, idx);
            return Took;
          }
        }
      }
      NeverStops(b, p);
      end := Nothing;
    }

    /** processRemovePluginIntents and processRemoveTaskIntents. */
    method ProcessRemoveItems(plugins: bool) returns (end: PassEnd)
      requires Valid()
      modifies this
      ensures Valid() && PassDid(old(Book()), if plugins then I.RemovePlugins else I.RemoveTasks, end)
    {
      ghost var p := if plugins then I.RemovePlugins else I.RemoveTasks;
      ghost var b := Book();
      for k := 0 to |intentBuffer|
        invariant Book() == b && forall j | 0 <= j < k :: !I.Hits(b, p, intentBuffer[j])
      {
        var m := intentBuffer[k];
        if m.RemoveItem? && m.item.PluginItem? == plugins && m.agr in agreements {
          var a := objects[agreements[m.agr]];
          var items := I.Items(a, m.item);
          var found, idx := Contains(items, m.item);
          if found {
            StopsHere(b, p, k);
            CutOut(m.agr, m.item, idx);
            DropIntent(b, p, k);
            return Took;
          }
        }
      }
      NeverStops(b, p);
      end := Nothing;
    }

    /** Cut an item out of its list, at idx. */
    method CutOut(n: string, x: Item, idx: nat)
      requires Valid() && I.Present(Book(), n, x)
      requires idx == I.IndexOf(I.Items(I.Obj(Book(), n), x), x)
      modifies this
      ensures Valid() && Book() == I.CutOut(old(Book()), n, x)
    {
      I.CutOutPresent(Book(), n, x);
      var a := objects[agreements[n]];
      var items := I.Items(a, x);
      objects := objects[agreements[n] := I.WithItems(a, x, items[..idx] + items[idx + 1..])];
    }

    /** An intent that has taken effect leaves the buffer, which completes its pass. */
    method DropIntent(ghost b: I.Book, ghost p: I.Pass, idx: nat)
      requires Valid() && I.Valid(b) && intentBuffer == b.intents && idx < |intentBuffer|
      requires I.Hits(b, p, b.intents[idx]) && !I.Refuses(b, p, b.intents[idx])
      requires idx == I.FirstHit(b, p, 0) && Book() == I.Effect(b, p, b.intents[idx])
      modifies this
      ensures Valid() && PassDid(b, p, Took)
    {
      intentBuffer := intentBuffer[..idx] + intentBuffer[idx + 1..];
    }

    method ProcessAddAgreements() returns (end: PassEnd)
      requires Valid()
      modifies this
      ensures Valid() && PassDid(old(Book()), I.AddAgreements, end)
    {
      ghost var b := Book();
      for idx := 0 to |intentBuffer|
        invariant Book() == b && forall j | 0 <= j < idx :: !I.Hits(b, I.AddAgreements, intentBuffer[j])
      {
        var m := intentBuffer[idx];
        if m.AddAgreement? && m.agr !in agreements {
          StopsHere(b, I.AddAgreements, idx);
          Bind(m.agr);
          DropIntent(b, I.AddAgreements, idx);
          return Took;
        }
      }
      NeverStops(b, I.AddAgreements);
      end := Nothing;
    }

    method ProcessRemoveAgreements() returns (end: PassEnd)
      requires Valid()
      modifies this
      ensures Valid() && PassDid(old(Book()), I.RemoveAgreements, end)
    {
      ghost var b := Book();
      for k := 0 to |intentBuffer|
        invariant Book() == b && forall j | 0 <= j < k :: !I.Hits(b, I.RemoveAgreements, intentBuffer[j])
      {
        var m := intentBuffer[k];
        if m.RemoveAgreement? && m.agr in agreements {
          StopsHere(b, I.RemoveAgreements, k);
          agreements := agreements - {m.agr};
          DropIntent(b, I.RemoveAgreements, k);
          return Took;
        }
      }
      NeverStops(b, I.RemoveAgreements);
      end := Nothing;
    }

    method ProcessJoins() returns (end: PassEnd)
      requires Valid()
      modifies this
      ensures Valid() && PassDid(old(Book()), I.Joins, end)
    {
      ghost var b := Book();
      for idx := 0 to |intentBuffer|
        invariant Book() == b && forall j | 0 <= j < idx :: !I.Hits(b, I.Joins, intentBuffer[j])
      {
        var m := intentBuffer[idx];
        if m.JoinAgreement? && m.member in members && m.agr in agreements {
          StopsHere(b, I.Joins, idx);
          var joined := JoinAgreement(m.agr, m.member);
          if joined {
            intentBuffer := intentBuffer[..idx] + intentBuffer[idx + 1..];
          }
          return if joined then Took else Refused;
        }
      }
      NeverStops(b, I.Joins);
      end := Nothing;
    }

    /** The leave pass, which looks at join messages. */
    method ProcessLeaves() returns (end: PassEnd)
      requires Valid()
      modifies this
      ensures Valid() && PassDid(old(Book()), I.Leaves, end)
    {
      ghost var b := Book();
      for idx := 0 to |intentBuffer|
        invariant Book() == b && forall j | 0 <= j < idx :: !I.Hits(b, I.Leaves, intentBuffer[j])
      {
        var m := intentBuffer[idx];
        if m.JoinAgreement? && m.member in members && m.agr in agreements
            && m.member in objects[agreements[m.agr]].members {
          StopsHere(b, I.Leaves, idx);
          var left := LeaveAgreement(m.agr, m.member);
          if left {
            intentBuffer := intentBuffer[..idx] + intentBuffer[idx + 1..];
          }
          return if left then Took else Refused;
        }
      }
      NeverStops(b, I.Leaves);
      end := Nothing;
    }

    /** Contains of the agreement lists: whether and where an item is listed. */
    static method Contains(items: seq<Item>, x: Item) returns (found: bool, idx: int)
      ensures found <==> x in items
      ensures found ==> idx == I.IndexOf(items, x)
    {
      for i := 0 to |items|
        invariant x !in items[..i]
      {
        if items[i] == x {
          assert x in items;
          FirstIndex(items, x, i);
          return true, i;
        }
      }
      return false, -1;
    }

    /** Append an unlisted item to its list. */
    method Append(n: string, x: Item)
      requires Valid() && n in agreements && !I.Present(Book(), n, x)
      modifies this
      ensures Valid() && Book() == I.Append(old(Book()), n, x)
    {
      I.AppendPresent(Book(), n, x);
      var a := objects[agreements[n]];
      objects := objects[agreements[n] := I.WithItems(a, x, I.Items(a, x) + [x])];
    }

    /** Remove of the agreement lists: what followed the item comes first. */
    method Remove(n: string, x: Item) returns (removed: bool)
      requires Valid() && n in agreements
      modifies this
      ensures Valid() && removed == I.Present(old(Book()), n, x)
      ensures Book() == if removed then I.RotateOut(old(Book()), n, x) else old(Book())
    {
      var a := objects[agreements[n]];
      var items := I.Items(a, x);
      var found, idx := Contains(items, x);
      if found {
        I.RotateOutPresent(Book(), n, x);
        objects := objects[agreements[n] := I.WithItems(a, x, items[idx + 1..] + items[..idx])];
      }
      removed := found;
    }

    method JoinAgreement(n: string, name: string) returns (joined: bool)
      requires Valid()
      modifies this
      ensures Valid() && joined == I.CanJoin(old(Book()), n, name)
      ensures Book() == if joined then I.Join(old(Book()), n, name) else old(Book())
    {
      if n !in agreements || name !in members {
        return false;
      }
      var m := members[name];
      if m.pluginAgreement.Some? && |objects[m.pluginAgreement.value].plugins| > 0 {
        return false;
      }
      I.JoinPresent(Book(), n, name);
      members := members[name := I.Member(Some(agreements[n]), m.taskAgreements + {n})];
      var a := objects[agreements[n]];
      objects := objects[agreements[n] := a.(members := a.members + {name})];
      return true;
    }

    method LeaveAgreement(n: string, name: string) returns (left: bool)
      requires Valid()
      modifies this
      ensures Valid() && left == I.CanLeave(old(Book()), n, name)
      ensures Book() == if left then I.Leave(old(Book()), n, name) else old(Book())
    {
      if n !in agreements || name !in members || members[name].pluginAgreement.None? {
        return false;
      }
      I.LeavePresent(Book(), n, name);
      var a := objects[agreements[n]];
      objects := objects[agreements[n] := a.(members := a.members - {name})];
      members := members[name := I.Member(None, members[name].taskAgreements - {n})];
      return true;
    }

    /** One iteration of the retry loop: the passes in order, up to the first that stops. */
    method Iterate() returns (end: PassEnd)
      requires Valid()
      modifies this
      ensures Valid()
      ensures end.Nothing? ==> I.SweepFrom(old(Book()), 0) == I.Settled && Book() == old(Book())
      ensures end.Took? ==> I.SweepFrom(old(Book()), 0) == I.Fired(Book())
      ensures end.Refused? ==> I.SweepFrom(old(Book()), 0) == I.Stuck && Book() == old(Book())
    {
      ghost var b := Book();
      for k := 0 to 8
        invariant Book() == b && forall j | 0 <= j < k :: I.Quiet(b, I.PASSES[j])
      {
        end := ProcessPass(k);
        SweepReaches(b, k);
        if !end.Nothing? {
          return;
        }
      }
      SweepReaches(b, 8);
      end := Nothing;
    }

    method ProcessPass(k: int) returns (end: PassEnd)
      requires Valid() && 0 <= k < 8
      modifies this
      ensures Valid() && PassDid(old(Book()), I.PASSES[k], end)
    {
      match k {
        case 0 => end := ProcessAddItems(true);
        case 1 => end := ProcessRemoveItems(true);
        case 2 => end := ProcessAddAgreements();
        case 3 => end := ProcessRemoveAgreements();
        case 4 => end := ProcessJoins();
        case 5 => end := ProcessLeaves();
        case 6 => end := ProcessAddItems(false);
        case _ => end := ProcessRemoveItems(false);
      }
    }

    /** The retry loop. The source has no way out of a refused join: it repeats that iteration for
        ever, which the result `spins` reports. */
    method ProcessIntents() returns (spins: bool)
      requires Valid()
      modifies this
      ensures Valid() && I.Settle(old(Book())) == if spins then I.Spinning(Book()) else I.Done(Book())
    {
      while true
        invariant Valid() && I.Settle(Book()) == I.Settle(old(Book()))
        decreases |intentBuffer|
      {
        var end := Iterate();
        if !end.Took? {
          return end.Refused?;
        }
      }
    }

    // ---- Handlers ----

    /** What accepting m made of a node with book b. */
    ghost predicate Applied(b: I.Book, m: Msg, spins: bool)
      requires I.Valid(b)
      reads this
    {
      C.ApplyMsg(b, m) == if spins then I.Spinning(Book()) else I.Done(Book())
    }

    /** After a change that took effect at once: retry the intents. */
    method Retry(m: Msg, ghost b: I.Book) returns (spins: bool)
      requires I.Valid(b) && C.TakesEffect(b, m) && Valid() && Book() == C.Direct(b, m)
      modifies this
      ensures Valid() && Applied(b, m, spins)
    {
      spins := ProcessIntents();
    }

    method Park(m: Msg)
      requires Valid() && !C.TakesEffect(Book(), m) && C.Parks(m)
      modifies this
      ensures Valid() && Applied(old(Book()), m, false)
    {
      intentBuffer := intentBuffer + [m];
    }

    /** handleAddPlugin and handleAddTask. */
    method HandleAddItem(m: Msg) returns (accepted: bool, spins: bool)
      requires Valid() && m.AddItem?
      modifies this, clock, msgBuffer
      ensures Valid() && Handled(old(Ring()), old(Book()), m, accepted, spins)
    {
      accepted := Admit(m);
      spins := false;
      if accepted {
        ghost var b := Book();
        if m.agr in agreements {
          var a := objects[agreements[m.agr]];
          var listed, _ := Contains(I.Items(a, m.item), m.item);
          if !listed {
            Append(m.agr, m.item);
            spins := Retry(m, b);
            return;
          }
        }
        Park(m);
      }
    }

    /** handleRemovePlugin and handleRemoveTask: the list is rotated around the removed item. */
    method HandleRemoveItem(m: Msg) returns (accepted: bool, spins: bool)
      requires Valid() && m.RemoveItem?
      modifies this, clock, msgBuffer
      ensures Valid() && Handled(old(Ring()), old(Book()), m, accepted, spins)
    {
      accepted := Admit(m);
      spins := false;
      if accepted {
        ghost var b := Book();
        if m.agr in agreements {
          var removed := Remove(m.agr, m.item);
          if removed {
            spins := Retry(m, b);
            return;
          }
        }
        Park(m);
      }
    }

    /** Record a new agreement. */
    method Bind(n: string)
      requires Valid() && n !in agreements
      modifies this
      ensures Valid() && Book() == I.Bind(old(Book()), n)
    {
      I.BindPresent(Book(), n);
      agreements, objects := agreements[n := |objects|], objects + [I.New(n)];
    }

    method HandleAddAgreement(m: Msg) returns (accepted: bool, spins: bool)
      requires Valid() && m.AddAgreement?
      modifies this, clock, msgBuffer
      ensures Valid() && Handled(old(Ring()), old(Book()), m, accepted, spins)
    {
      accepted := Admit(m);
      spins := false;
      if accepted {
        ghost var b := Book();
        if m.agr !in agreements {
          Bind(m.agr);
          spins := Retry(m, b);
        } else {
          Park(m);
        }
      }
    }

    method HandleRemoveAgreement(m: Msg) returns (accepted: bool, spins: bool)
      requires Valid() && m.RemoveAgreement?
      modifies this, clock, msgBuffer
      ensures Valid() && Handled(old(Ring()), old(Book()), m, accepted, spins)
    {
      accepted := Admit(m);
      spins := false;
      if accepted && m.agr in agreements {
        ghost var b := Book();
        agreements := agreements - {m.agr};
        spins := Retry(m, b);
      }
    }

    method HandleJoinAgreement(m: Msg) returns (accepted: bool, spins: bool)
      requires Valid() && m.JoinAgreement?
      modifies this, clock, msgBuffer
      ensures Valid() && Handled(old(Ring()), old(Book()), m, accepted, spins)
    {
      accepted := Admit(m);
      spins := false;
      if accepted {
        ghost var b := Book();
        var joined := JoinAgreement(m.agr, m.member);
        if joined {
          spins := Retry(m, b);
        } else {
          Park(m);
        }
      }
    }

    method HandleLeaveAgreement(m: Msg) returns (accepted: bool, spins: bool)
      requires Valid() && m.LeaveAgreement?
      modifies this, clock, msgBuffer
      ensures Valid() && Handled(old(Ring()), old(Book()), m, accepted, spins)
    {
      accepted := Admit(m);
      spins := false;
      if accepted {
        ghost var b := Book();
        var left := LeaveAgreement(m.agr, m.member);
        if left {
          spins := Retry(m, b);
        } else {
          Park(m);
        }
      }
    }

    method HandleMemberJoin(name: string) returns (spins: bool)
      requires Valid()
      modifies this
      ensures Valid() && C.Apply(old(Book()), C.MemberUp(name)) == if spins then I.Spinning(Book()) else I.Done(Book())
    {
      if name !in members {
        members := members[name := I.Member(None, {})];
      }
      spins := ProcessIntents();
    }

    /** Strikes a member off the agreement of the given name, a nil dereference if there is none. */
    method Strike(agr: string, name: string, ghost b: I.Book, ghost done: set<string>) returns (panicked: bool)
      requires I.Valid(b) && agreements == b.agreements && objects == C.Struck(b, done, name)
      modifies this`objects
      ensures panicked <==> agr !in b.agreements
      ensures !panicked ==> objects == C.Struck(b, done + {agr}, name)
    {
      if agr !in agreements {
        return true;
      }
      StruckNext(b, done, agr, name);
      var i := agreements[agr];
      objects := objects[i := objects[i].(members := objects[i].members - {name})];
      return false;
    }

    /** The task agreements, in any order. */
    method StrikeAll(agrs: set<string>, name: string, ghost b: I.Book, ghost done: set<string>) returns (panicked: bool)
      requires I.Valid(b) && agreements == b.agreements && objects == C.Struck(b, done, name)
      modifies this`objects
      ensures panicked <==> !(agrs <= b.agreements.Keys)
      ensures !panicked ==> objects == C.Struck(b, done + agrs, name)
    {
      var rest := agrs;
      while rest != {}
        invariant rest <= agrs && agrs - rest <= b.agreements.Keys && objects == C.Struck(b, done + (agrs - rest), name)
        decreases |rest|
      {
        var agr :| agr in rest;
        panicked := Strike(agr, name, b, done + (agrs - rest));
        if panicked {
          return;
        }
        assert done + (agrs - rest) + {agr} == done + (agrs - (rest - {agr}));
        rest := rest - {agr};
      }
      assert agrs - rest == agrs;
      return false;
    }

    method HandleMemberLeave(name: string) returns (panicked: bool)
      requires Valid()
      modifies this
      ensures panicked <==> C.Apply(old(Book()), C.MemberDown(name)).Panicked?
      ensures !panicked ==> Valid() && C.Apply(old(Book()), C.MemberDown(name)) == I.Done(Book())
    {
      panicked := false;
      if name in members {
        ghost var b, done := Book(), {};
        NothingStruck(b, name);
        var m := members[name];
        if m.pluginAgreement.Some? {
          var agr := objects[m.pluginAgreement.value].name;
          panicked := Strike(agr, name, b, {});
          if panicked {
            return;
          }
          done := {} + {agr};
        }
        panicked := StrikeAll(m.taskAgreements, name, b, done);
        assert done + m.taskAgreements == C.NamesOf(b, name);
        if !panicked {
          members := members - {name};
        }
      }
    }

    /** What a handler of m did to a node with the given ring and book. */
    ghost predicate Handled(ring: B.Inbox, book: I.Book, m: Msg, accepted: bool, spins: bool)
      requires B.Valid(ring) && I.Valid(book)
      reads this, clock, msgBuffer
    {
      && Ring() == B.Step(B.Step(ring, B.Advance(m.ltime)), B.Body(m))
      && (accepted <==> !B.IsDuplicate(B.Step(ring, B.Advance(m.ltime)), m))
      && if accepted then Applied(book, m, spins) else Book() == book && !spins
    }

    // ---- Full-state exchange ----

    /** The three message lists of LocalState, each as long as the ring. */
    method LocalMessages() returns (plugins: seq<Option<Msg>>, agrs: seq<Option<Msg>>, tasks: seq<Option<Msg>>)
      requires Valid()
      ensures |plugins| == |agrs| == |tasks| == msgBuffer.Length
      ensures forall s | 0 <= s < msgBuffer.Length ::
                && plugins[s] == Sort(msgBuffer[s], PluginMsgs) && agrs[s] == Sort(msgBuffer[s], AgreementMsgs)
                && tasks[s] == Sort(msgBuffer[s], TaskMsgs)
    {
      plugins, agrs, tasks := [], [], [];
      for s := 0 to msgBuffer.Length
        invariant |plugins| == |agrs| == |tasks| == s
        invariant forall i | 0 <= i < s ::
            && plugins[i] == Sort(msgBuffer[i], PluginMsgs) && agrs[i] == Sort(msgBuffer[i], AgreementMsgs)
            && tasks[i] == Sort(msgBuffer[i], TaskMsgs)
      {
        var m := msgBuffer[s];
        plugins, agrs := plugins + [Sort(m, PluginMsgs)], agrs + [Sort(m, AgreementMsgs)];
        tasks := tasks + [Sort(m, TaskMsgs)];
      }
    }

    /** One of the loops by which a joining node copies a received list into its ring. */
    method CopyIn(msgs: seq<Option<Msg>>)
      requires Valid() && |msgs| == msgBuffer.Length
      modifies msgBuffer
      ensures msgBuffer[..] == G.TakeOver(old(msgBuffer[..]), msgs)
    {
      ghost var before := msgBuffer[..];
      for s := 0 to msgBuffer.Length
        invariant forall i | 0 <= i < s :: msgBuffer[i] == G.TakeOver(before, msgs)[i]
        invariant forall i | s <= i < msgBuffer.Length :: msgBuffer[i] == before[i]
      {
        if msgs[s].Some? {
          msgBuffer[s] := msgs[s];
        }
      }
    }

    /** Taking over members, in any order. */
    method TakeMembers(theirs: map<string, I.Member>, offset: nat)
      modifies this`members
      ensures members == old(members) + J.AllMoved(theirs, offset)
    {
      var rest := theirs;
      while rest != map[]
        invariant members + J.AllMoved(rest, offset) == old(members) + J.AllMoved(theirs, offset)
        decreases |rest|
      {
        var m :| m in rest;
        J.MovedNext(members, rest, m, offset);
        members := members[m := J.Moved(rest[m], offset)];
        rest := rest - {m};
      }
      assert members + J.AllMoved(rest, offset) == members;
    }

    method TakeBook(theirs: I.Book)
      requires Valid() && I.Valid(theirs)
      modifies this
      ensures Valid() && Book() == J.Taken(old(Book()), theirs)
    {
      J.TakenValid(Book(), theirs);
      var offset := |objects|;
      objects := objects + theirs.objects;
      agreements := map n | n in theirs.agreements :: theirs.agreements[n] + offset;
      TakeMembers(theirs.members, offset);
    }

    /** One of the loops that copy parked intents to the same positions of the own buffer, which has no
        more positions than intents. */
    method CopyIntents(theirs: seq<Msg>, c: MsgClass) returns (panicked: bool)
      modifies this`intentBuffer
      ensures |intentBuffer| == |old(intentBuffer)|
      ensures panicked <==> exists i :: |intentBuffer| <= i < |theirs| && InClass(theirs[i], c)
      ensures !panicked ==> forall i | 0 <= i < |intentBuffer| ::
        intentBuffer[i] == if i < |theirs| && InClass(theirs[i], c) then theirs[i] else old(intentBuffer)[i]
    {
      for idx := 0 to |theirs|
        invariant |intentBuffer| == |old(intentBuffer)|
        invariant forall i | |intentBuffer| <= i < idx :: !InClass(theirs[i], c)
        invariant forall i | 0 <= i < |intentBuffer| ::
          intentBuffer[i] == if i < idx && InClass(theirs[i], c) then theirs[i] else old(intentBuffer)[i]
      {
        if InClass(theirs[idx], c) {
          if idx >= |intentBuffer| {
            return true;
          }
          intentBuffer := intentBuffer[idx := theirs[idx]];
        }
      }
      return false;
    }

    method TakeIntents(theirs: seq<Msg>) returns (panicked: bool)
      modifies this`intentBuffer
      ensures panicked <==> !J.Fits(old(intentBuffer), theirs)
      ensures !panicked ==> intentBuffer == J.Overlaid(old(intentBuffer), theirs)
    {
      panicked := CopyIntents(theirs, PluginMsgs);
      if !panicked {
        panicked := CopyIntents(theirs, AgreementMsgs);
      }
      if !panicked {
        panicked := CopyIntents(theirs, TaskMsgs);
      }
    }

    /** MergeRemoteState for a joining node. */
    method MergeJoin(lt: LTime, plugins: seq<Option<Msg>>, agrs: seq<Option<Msg>>, tasks: seq<Option<Msg>>,
                     theirs: I.Book) returns (panicked: bool)
      requires Valid() && |plugins| == |agrs| == |tasks| == msgBuffer.Length && I.Valid(theirs)
      modifies this, clock, msgBuffer
      ensures Valid() && (panicked <==> old(clock.inc) <= lt && !J.Fits(old(intentBuffer), theirs.intents))
      ensures Ring() == if old(clock.inc) > lt then old(Ring())
                        else B.Inbox(lt, G.TakeOver(G.TakeOver(G.TakeOver(old(msgBuffer[..]), plugins), agrs), tasks))
      ensures old(clock.inc) > lt ==> Book() == old(Book())
      ensures old(clock.inc) <= lt && !panicked ==>
        Book() == J.Taken(old(Book()), theirs).(intents := J.Overlaid(old(intentBuffer), theirs.intents))
    {
      panicked := false;
      var now := clock.Time();
      if now <= lt {
        clock.Update(Pred(lt));
        TakeBook(theirs);
        CopyIn(plugins);
        CopyIn(agrs);
        CopyIn(tasks);
        panicked := TakeIntents(theirs.intents);
      }
    }

    /** What a pass p that ended so did to a node with book b. */
    ghost predicate PassDid(b: I.Book, p: I.Pass, end: PassEnd)
      requires I.Valid(b)
      reads this
    {
      match end
      case Nothing => I.Quiet(b, p) && Book() == b
      case Took => !I.Quiet(b, p) && I.FireAt(b, p, I.FirstHit(b, p, 0)) == I.Fired(Book())
      case Refused => !I.Quiet(b, p) && I.FireAt(b, p, I.FirstHit(b, p, 0)) == I.Stuck && Book() == b
    }
  }

  lemma {:induction false} NothingStruck(b: I.Book, name: string)
    ensures C.Struck(b, {}, name) == b.objects
  {
  }

  lemma {:induction false} StruckNext(b: I.Book, names: set<string>, agr: string, name: string)
    requires I.Valid(b) && agr in b.agreements
    ensures var before, i := C.Struck(b, names, name), b.agreements[agr];
            C.Struck(b, names + {agr}, name) == before[i := before[i].(members := before[i].members - {name})]
  {
    var before, i := C.Struck(b, names, name), b.agreements[agr];
    assert before[i].members - {name} == b.objects[i].members - {name};
  }

  lemma {:induction false} FirstIndex(items: seq<Item>, x: Item, i: nat)
    requires i < |items| && items[i] == x && x !in items[..i]
    ensures I.IndexOf(items, x) == i
  {
  }

  lemma {:induction false} SweepReaches(b: I.Book, k: nat)
    requires I.Valid(b) && k <= |I.PASSES| && forall j | 0 <= j < k :: I.Quiet(b, I.PASSES[j])
    ensures I.SweepFrom(b, 0) == I.SweepFrom(b, k)
  {
    if k > 0 {
      SweepReaches(b, k - 1);
    }
  }

  lemma {:induction false} StopsHere(b: I.Book, p: I.Pass, idx: nat)
    requires I.Valid(b) && idx < |b.intents| && I.Hits(b, p, b.intents[idx])
    requires forall j | 0 <= j < idx :: !I.Hits(b, p, b.intents[j])
    ensures I.FirstHit(b, p, 0) == idx && !I.Quiet(b, p)
  {
  }

  lemma {:induction false} NeverStops(b: I.Book, p: I.Pass)
    requires I.Valid(b) && forall j | 0 <= j < |b.intents| :: !I.Hits(b, p, b.intents[j])
    ensures I.Quiet(b, p)
  {
  }
}
