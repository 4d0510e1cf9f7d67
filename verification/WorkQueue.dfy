/** The scheduler's job queue (scheduler/queue.go): a bounded FIFO that starts a handler
goroutine when a job arrives and lets it exit when the queue is empty.

Every access to the shared fields is made under the queue's mutex, so an action below is one
such critical section or one channel operation, and a run is any interleaving of them. */
module WorkQueue {
  import opened Wrappers

  datatype Kind = Collecting | Processing | Publishing

  /** A job with an identity of its own. */
  datatype Job = Job(id: nat, kind: Kind, deadline: int)

  datatype Status = Stopped | Running | Working

  /** Where a handler goroutine stands: about to pop, busy with a job, or having seen the queue empty. */
  datatype Handler = AtPop | Holding(job: Job) | SawEmpty

  /** Where the receiving goroutine stands: waiting for a job or the kill signal; with a job in hand;
      after a push; blocked on reporting a refusal; about to complete the refused job's promise; after
      the kill signal, in its last receive; gone. */
  datatype Receiver =
    | NotStarted
    | Selecting
    | Taken(job: Job)
    | Pushed
    | Refusing(job: Job)
    | Reported(job: Job)
    | Draining
    | Gone

  /** The shared fields, the goroutines, and what happened so far: jobs accepted, handled, refused,
      and swallowed by the last receive. */
  datatype Queue = Queue(
    limit: nat,
    status: Status,
    items: seq<Job>,
    killed: bool,
    receiver: Receiver,
    handlers: seq<Handler>,
    accepted: seq<Job>,
    handled: seq<Job>,
    refused: seq<Job>,
    swallowed: seq<Job>)

  function New(limit: nat): Queue {
    Queue(limit, Stopped, [], false, NotStarted, [], [], [], [], [])
  }

  datatype Action =
    | Start                // called once
    | Stop
    | Take(job: Job)       // a job arrives on the Event channel
    | Push
    | Check                // after a push: start a handler unless one is at work
    | Report               // after a failed push: the error goes out on the Err channel
    | Refuse               // and the refused job's promise is completed
    | Notice               // the receiver sees the closed kill channel
    | Swallow(job: Job)    // its last receive takes a job from a sender that was still blocked
    | Close                // or finds the Event channel closed
    | Pop(h: nat)
    | Finish(h: nat)       // the handler function returns
    | Exit(h: nat)         // the handler goroutine resets the status and ends

  predicate Enabled(q: Queue, a: Action) {
    match a
    case Start => q.receiver.NotStarted?
    case Stop => q.status.Stopped? || !q.killed
    case Take(_) => q.receiver.Selecting?
    case Push => q.receiver.Taken?
    case Check => q.receiver.Pushed?
    case Report => q.receiver.Refusing?
    case Refuse => q.receiver.Reported?
    case Notice => q.receiver.Selecting? && q.killed
    case Swallow(_) => q.receiver.Draining?
    case Close => q.receiver.Draining?
    case Pop(h) => h < |q.handlers| && q.handlers[h].AtPop?
    case Finish(h) => h < |q.handlers| && q.handlers[h].Holding?
    case Exit(h) => h < |q.handlers| && q.handlers[h].SawEmpty?
  }

  predicate HasRoom(q: Queue) {
    q.limit == 0 || |q.items| + 1 <= q.limit
  }

  function Act(q: Queue, a: Action): Queue
    requires Enabled(q, a)
  {
    match a
    case Start => q.(status := Running, receiver := Selecting)
    case Stop => if q.status.Stopped? then q else q.(killed := true, status := Stopped)
    case Take(j) => q.(receiver := Taken(j))
    case Push =>
      var j := q.receiver.job;
      if HasRoom(q) then q.(items := q.items + [j], receiver := Pushed, accepted := q.accepted + [j])
      else q.(receiver := Refusing(j))
    case Check =>
      if q.status.Running? then q.(status := Working, receiver := Selecting, handlers := q.handlers + [AtPop])
      else q.(receiver := Selecting)
    case Report => q.(receiver := Reported(q.receiver.job))
    case Refuse => q.(receiver := Selecting, refused := q.refused + [q.receiver.job])
    case Notice => q.(receiver := Draining)
    case Swallow(j) => q.(receiver := Gone, swallowed := q.swallowed + [j])
    case Close => q.(receiver := Gone)
    case Pop(h) =>
      if q.items == [] then q.(handlers := q.handlers[h := SawEmpty])
      else q.(items := q.items[1..], handlers := q.handlers[h := Holding(q.items[0])])
    case Finish(h) => q.(handlers := q.handlers[h := AtPop], handled := q.handled + [q.handlers[h].job])
    case Exit(h) => q.(status := Running, handlers := q.handlers[..h] + q.handlers[h + 1..])
  }

  /** The job, if any, a handler is busy with. */
  function Held(q: Queue): seq<Job> {
    if |q.handlers| == 1 && q.handlers[0].Holding? then [q.handlers[0].job] else []
  }

  /** The status tells whether a handler is live, except after Stop. */
  predicate OneHandler(q: Queue) {
    && |q.handlers| <= 1
    && (q.status.Running? ==> q.handlers == [])
    && (q.status.Working? ==> |q.handlers| == 1)
    && (q.receiver.NotStarted? ==> q.status.Stopped? && q.handlers == [])
  }

  /** What every interleaving keeps. */
  predicate Safe(q: Queue) {
    && OneHandler(q)
    && (q.limit > 0 ==> |q.items| <= q.limit)
    && q.accepted == q.handled + Held(q) + q.items
  }

  lemma {:induction false} PushSafe(q: Queue)
    requires Safe(q) && Enabled(q, Push)
    ensures Safe(Act(q, Push))
  {
    if HasRoom(q) {
      var j := q.receiver.job;
      assert q.accepted + [j] == q.handled + Held(q) + (q.items + [j]);
    }
  }

  lemma {:induction false} PopSafe(q: Queue, h: nat)
    requires Safe(q) && Enabled(q, Pop(h))
    ensures Safe(Act(q, Pop(h)))
  {
    if q.items != [] {
      var j, rest := q.items[0], q.items[1..];
      assert q.items == [j] + rest;
      assert q.accepted == q.handled + [j] + rest;
    }
  }

  lemma {:induction false} FinishSafe(q: Queue, h: nat)
    requires Safe(q) && Enabled(q, Finish(h))
    ensures Safe(Act(q, Finish(h)))
  {
    var j := q.handlers[h].job;
    assert Held(q) == [j];
    assert q.accepted == (q.handled + [j]) + [] + q.items;
  }

  lemma {:induction false} CheckSafe(q: Queue)
    requires Safe(q) && Enabled(q, Check)
    ensures Safe(Act(q, Check))
  {
  }

  lemma {:induction false} ExitSafe(q: Queue, h: nat)
    requires Safe(q) && Enabled(q, Exit(h))
    ensures Safe(Act(q, Exit(h)))
  {
    assert q.handlers[..h] + q.handlers[h + 1..] == [];
  }

  /** The remaining actions touch neither items nor handlers. */
  lemma {:induction false} ReceiverSafe(q: Queue, a: Action)
    requires Safe(q) && Enabled(q, a)
    requires a.Take? || a.Report? || a.Refuse? || a.Notice? || a.Swallow? || a.Close?
    ensures Safe(Act(q, a))
  {
    assert Held(Act(q, a)) == Held(q);
  }

  lemma {:induction false} StatusSafe(q: Queue, a: Action)
    requires Safe(q) && Enabled(q, a) && (a.Start? || a.Stop?)
    ensures Safe(Act(q, a))
  {
    assert Held(Act(q, a)) == Held(q);
  }

  lemma {:induction false} ActSafe(q: Queue, a: Action)
    requires Safe(q) && Enabled(q, a)
    ensures Safe(Act(q, a))
  {
    match a
    case Start => StatusSafe(q, a);
    case Stop => StatusSafe(q, a);
    case Push => PushSafe(q);
    case Check => CheckSafe(q);
    case Pop(h) => PopSafe(q, h);
    case Finish(h) => FinishSafe(q, h);
    case Exit(h) => ExitSafe(q, h);
    case _ => ReceiverSafe(q, a);
  }

  predicate Runs(q: Queue, acts: seq<Action>)
    decreases |acts|
  {
    acts == [] || (Enabled(q, acts[0]) && Runs(Act(q, acts[0]), acts[1..]))
  }

  function After(q: Queue, acts: seq<Action>): Queue
    requires Runs(q, acts)
    decreases |acts|
  {
    if acts == [] then q else After(Act(q, acts[0]), acts[1..])
  }

  lemma {:induction false} RunSafe(q: Queue, acts: seq<Action>)
    requires Safe(q) && Runs(q, acts)
    ensures Safe(After(q, acts)) && After(q, acts).limit == q.limit
    decreases |acts|
  {
    if acts != [] {
      ActSafe(q, acts[0]);
      RunSafe(Act(q, acts[0]), acts[1..]);
    }
  }

  /** Under every interleaving of a queue started once: jobs are handled one at a time and in the
      order of their acceptance, none is lost or doubled, a non-zero limit is never exceeded and at
      most one handler is live. */
  lemma {:induction false} QueueIsSafe(limit: nat, acts: seq<Action>)
    requires Runs(New(limit), acts)
    ensures var q := After(New(limit), acts);
            && q.accepted == q.handled + Held(q) + q.items
            && |q.handlers| <= 1
            && (limit > 0 ==> |q.items| <= limit)
  {
    RunSafe(New(limit), acts);
  }

  /** After any run, a job is turned away exactly when the queue has a limit and as many accepted jobs as
      that have not been taken by a handler; otherwise it goes to the end of the queue. */
  lemma {:induction false} RefusedIffFull(limit: nat, acts: seq<Action>)
    requires Runs(New(limit), acts) && Enabled(After(New(limit), acts), Push)
    ensures var q := After(New(limit), acts);
      var waiting := |q.accepted| - |q.handled| - |Held(q)|;
      && (Act(q, Push).receiver.Refusing? <==> limit > 0 && waiting == limit)
      && (Act(q, Push).items == if limit > 0 && waiting == limit then q.items else q.items + [q.receiver.job])
  {
    QueueIsSafe(limit, acts);
    LimitKept(New(limit), acts);
  }

  lemma {:induction false} LimitKept(q: Queue, acts: seq<Action>)
    requires Runs(q, acts)
    ensures After(q, acts).limit == q.limit
    decreases |acts|
  {
    if acts != [] {
      LimitKept(Act(q, acts[0]), acts[1..]);
    }
  }

  /** A queue swallows a job only in its last receive, so at most one. */
  predicate SwallowedOnce(q: Queue) {
    |q.swallowed| <= 1 && (q.swallowed != [] ==> q.receiver.Gone?)
  }

  lemma {:induction false} ActSwallows(q: Queue, a: Action)
    requires SwallowedOnce(q) && Enabled(q, a)
    ensures SwallowedOnce(Act(q, a))
    ensures Act(q, a).swallowed == if a.Swallow? then q.swallowed + [a.job] else q.swallowed
  {
  }

  lemma {:induction false} RunNext(q: Queue, acts: seq<Action>, a: Action)
    requires Runs(q, acts) && Enabled(After(q, acts), a)
    ensures Runs(q, acts + [a]) && After(q, acts + [a]) == Act(After(q, acts), a)
    decreases |acts|
  {
    if acts == [] {
      assert ([] + [a])[1..] == [];
    } else {
      RunNext(Act(q, acts[0]), acts[1..], a);
      assert (acts + [a])[1..] == acts[1..] + [a];
    }
  }

  /** The kill channel is closed and yet the status is not stopped, so another Stop would close it again. */
  predicate Revived(q: Queue) {
    q.killed && !q.status.Stopped?
  }

  /** A handler ends, at some step of the run, after the kill channel was closed. */
  predicate ExitsKilled(q: Queue, acts: seq<Action>)
    requires Runs(q, acts)
    decreases |acts|
  {
    acts != [] && ((q.killed && acts[0].Exit?) || ExitsKilled(Act(q, acts[0]), acts[1..]))
  }

  predicate StartedBeforeKilled(q: Queue) {
    q.receiver.NotStarted? ==> !q.killed
  }

  lemma {:induction false} ActRevives(q: Queue, a: Action)
    requires Enabled(q, a) && OneHandler(q) && StartedBeforeKilled(q)
    ensures StartedBeforeKilled(Act(q, a))
    ensures Revived(Act(q, a)) <==> Revived(q) || (q.killed && a.Exit?)
  {
  }

  lemma {:induction false} RunRevives(q: Queue, acts: seq<Action>)
    requires Runs(q, acts) && Safe(q) && StartedBeforeKilled(q)
    ensures Revived(After(q, acts)) <==> Revived(q) || ExitsKilled(q, acts)
    decreases |acts|
  {
    if acts != [] {
      ActSafe(q, acts[0]);
      ActRevives(q, acts[0]);
      RunRevives(Act(q, acts[0]), acts[1..]);
    }
  }

  /** After any run of a queue started once, Stop panics exactly if a handler has ended since the first
      Stop. */
  lemma {:induction false} StopPanicsIff(limit: nat, acts: seq<Action>)
    requires Runs(New(limit), acts)
    ensures !Enabled(After(New(limit), acts), Stop) <==> ExitsKilled(New(limit), acts)
  {
    RunRevives(New(limit), acts);
  }

  /** Such a run: the queue is stopped while its handler is at work. */
  lemma {:induction false} SecondStopPanics(limit: nat, j: Job) returns (acts: seq<Action>)
    ensures Runs(New(limit), acts) && Stop in acts && !Enabled(After(New(limit), acts), Stop)
  {
    acts := [];
    RunNext(New(limit), acts, Start);
    acts := acts + [Start];
    RunNext(New(limit), acts, Take(j));
    acts := acts + [Take(j)];
    RunNext(New(limit), acts, Push);
    acts := acts + [Push];
    acts := StoppedAtWork(limit, j, acts);
  }

  lemma {:induction false} StoppedAtWork(limit: nat, j: Job, before: seq<Action>) returns (acts: seq<Action>)
    requires Runs(New(limit), before)
    requires var q := After(New(limit), before);
      q.receiver.Pushed? && q.status.Running? && !q.killed && q.items == [j] && q.handlers == []
    ensures Runs(New(limit), acts) && Stop in acts && !Enabled(After(New(limit), acts), Stop)
  {
    acts := before;
    RunNext(New(limit), acts, Check);
    acts := acts + [Check];
    RunNext(New(limit), acts, Stop);
    acts := acts + [Stop];
    RunNext(New(limit), acts, Pop(0));
    acts := acts + [Pop(0)];
    RunNext(New(limit), acts, Finish(0));
    acts := acts + [Finish(0)];
    RunNext(New(limit), acts, Pop(0));
    acts := acts + [Pop(0)];
    RunNext(New(limit), acts, Exit(0));
    acts := acts + [Exit(0)];
  }

  /** The fields behind the mutex, with the source's critical sections as methods. Each takes the
      whole queue it belongs to as a ghost and is proved to make that queue's next step. */
  class SharedQueue {
    const limit: nat
    var status: Status
    var items: seq<Job>
    var killed: bool

    constructor (limit: nat)
      ensures Shows(New(limit))
    {
      this.limit, status, items, killed := limit, Stopped, [], false;
    }

    ghost predicate Shows(q: Queue)
      reads this
    {
      q.limit == limit && q.status == status && q.items == items && q.killed == killed
    }

    /** Start goes on iff the queue is stopped, be it before its first start or after a Stop. */
    method StartUp(ghost q: Queue) returns (spawn: bool)
      requires Shows(q)
      modifies this
      ensures spawn <==> q.status.Stopped?
      ensures Shows(if spawn then q.(status := Running) else q)
      ensures Safe(q) && Enabled(q, Start) ==> spawn && Shows(Act(q, Start))
    {
      spawn := status == Stopped;
      if spawn {
        status := Running;
      }
    }

    /** Stop closes the kill channel; closing it a second time panics. */
    method ShutDown(ghost q: Queue) returns (panicked: bool)
      requires Shows(q)
      modifies this
      ensures panicked <==> !Enabled(q, Stop)
      ensures Shows(if panicked then q else Act(q, Stop))
    {
      if status != Stopped {
        if killed {
          return true;
        }
        killed := true;
        status := Stopped;
      }
      return false;
    }

    method PushItem(j: Job, ghost q: Queue) returns (ok: bool)
      requires Shows(q) && q.receiver == Taken(j)
      modifies this
      ensures Shows(Act(q, Push)) && Act(q, Push).receiver == if ok then Pushed else Refusing(j)
    {
      if limit == 0 || |items| + 1 <= limit {
        items := items + [j];
        return true;
      }
      return false;
    }

    method PopItem(ghost q: Queue, ghost h: nat) returns (j: Option<Job>)
      requires Shows(q) && Enabled(q, Pop(h))
      modifies this
      ensures Shows(Act(q, Pop(h)))
      ensures Act(q, Pop(h)).handlers[h] == if j.Some? then Holding(j.value) else SawEmpty
    {
      if |items| == 0 {
        return None;
      }
      j := Some(items[0]);
      items := items[1..];
    }

    method CheckStatus(ghost q: Queue) returns (spawn: bool)
      requires Shows(q) && Enabled(q, Check)
      modifies this
      ensures Shows(Act(q, Check)) && |Act(q, Check).handlers| == |q.handlers| + if spawn then 1 else 0
    {
      spawn := status == Running;
      if spawn {
        status := Working;
      }
    }
  }
}
