/** What happens to a job between submission and the completion of its promise: the work
manager's three queues (scheduler/work_manager.go), the worker pools (scheduler/worker.go) and
the write-once promise (pkg/promise/promise.go). */
module Pipeline {
  import opened Wrappers
  import opened WorkQueue

  datatype Error = LimitExceeded | PastDeadline | RunError(code: nat)

  /** A completed promise keeps the errors it was first completed with. */
  class Promise {
    var complete: bool
    var errors: seq<Error>

    constructor ()
      ensures !complete
    {
      complete, errors := false, [];
    }

    /** The errors the promise was completed with, if it was. */
    ghost function Settled(): Option<seq<Error>>
      reads this
    {
      if complete then Some(errors) else None
    }

    method Complete(errs: seq<Error>)
      modifies this
      ensures Settled() == Latched(old(Settled()), errs)
    {
      if !complete {
        complete := true;
        errors := errs;
      }
    }

    method IsError() returns (failed: bool)
      ensures failed <==> Settled().Some? && Settled().value != []
    {
      return complete && |errors| > 0;
    }
  }

  /** What a completion leaves: the first one counts. */
  function Latched(was: Option<seq<Error>>, errs: seq<Error>): (r: Option<seq<Error>>)
    ensures r.Some?
  {
    if was.Some? then was else Some(errs)
  }

  datatype Stage =
    | Idle
    | Got(job: Job)                       // received, deadline not yet looked at
    | Done(job: Job, errors: seq<Error>)  // run or refused, promise not yet completed
    | Dead

  datatype Worker = Worker(kind: Kind, stage: Stage)

  datatype Verdict = Ran | Overdue | Rejected | Lost

  /** What was decided about a job, where (the kind of its worker or queue), when and with what errors. */
  datatype Outcome = Outcome(job: Job, verdict: Verdict, post: Kind, at: int, errors: seq<Error>)

  datatype System = System(
    submitted: seq<Job>,
    waiting: multiset<Job>,
    queues: map<Kind, Queue>,
    workers: seq<Worker>,
    outcomes: seq<Outcome>,
    promises: map<Job, seq<Error>>)

  datatype Event =
    | Submit(job: Job)                                // Work: a fresh queued job, blocked on its queue's Event channel
    | Local(kind: Kind, action: Action)               // a queue step that involves nobody else
    | Receive(kind: Kind, job: Job)
    | Swallowed(kind: Kind, job: Job)
    | Reject(kind: Kind)
    | HandOver(kind: Kind, h: nat, w: nat)            // sendToWorker meets an idle worker on the job's own channel
    | Decide(w: nat, now: int, errs: seq<Error>)      // the deadline check; `errs` is what Run would report
    | Settle(w: nat)                                  // the worker completes the promise
    | Hire(kind: Kind)
    | Retire(w: nat)

  predicate IsLocal(a: Action) {
    a.Start? || a.Stop? || a.Push? || a.Check? || a.Report? || a.Notice? || a.Close? || a.Pop? || a.Exit?
  }

  /** The queue Work chooses for a job. */
  function QueueOf(j: Job): Kind {
    j.kind
  }

  /** The work manager stops the collect queue and no other. */
  predicate Can(s: System, e: Event) {
    match e
    case Submit(j) => j !in s.submitted
    case Local(k, a) => k in s.queues && IsLocal(a) && (a.Stop? ==> k.Collecting?) && Enabled(s.queues[k], a)
    case Receive(k, j) => k in s.queues && j in s.waiting && QueueOf(j) == k && Enabled(s.queues[k], Take(j))
    case Swallowed(k, j) => k in s.queues && j in s.waiting && QueueOf(j) == k && Enabled(s.queues[k], Swallow(j))
    case Reject(k) => k in s.queues && Enabled(s.queues[k], Refuse)
    case HandOver(k, h, w) =>
      && k in s.queues && Enabled(s.queues[k], Finish(h))
      && w < |s.workers| && s.workers[w] == Worker(s.queues[k].handlers[h].job.kind, Idle)
    case Decide(w, _, _) => w < |s.workers| && s.workers[w].stage.Got?
    case Settle(w) => w < |s.workers| && s.workers[w].stage.Done?
    case Hire(_) => true
    case Retire(w) => w < |s.workers| && s.workers[w].stage.Idle?
  }

  function SettledAs(promises: map<Job, seq<Error>>, j: Job): Option<seq<Error>> {
    if j in promises then Some(promises[j]) else None
  }

  /** Completing a job's promise. */
  function Completed(promises: map<Job, seq<Error>>, j: Job, errs: seq<Error>): map<Job, seq<Error>> {
    promises[j := Latched(SettledAs(promises, j), errs).value]
  }

  function Judge(j: Job, post: Kind, now: int, errs: seq<Error>): Outcome {
    if now < j.deadline then Outcome(j, Ran, post, now, errs) else Outcome(j, Overdue, post, now, [PastDeadline])
  }

  function Next(s: System, e: Event): System
    requires Can(s, e)
  {
    match e
    case Submit(j) => s.(submitted := s.submitted + [j], waiting := s.waiting + multiset{j})
    case Local(k, a) => s.(queues := s.queues[k := Act(s.queues[k], a)])
    case Receive(k, j) =>
      s.(waiting := s.waiting - multiset{j}, queues := s.queues[k := Act(s.queues[k], Take(j))])
    case Swallowed(k, j) =>
      s.(waiting := s.waiting - multiset{j},
         queues := s.queues[k := Act(s.queues[k], Swallow(j))],
         outcomes := s.outcomes + [Outcome(j, Lost, k, 0, [])])
    case Reject(k) =>
      var j := s.queues[k].receiver.job;
      s.(queues := s.queues[k := Act(s.queues[k], Refuse)],
         outcomes := s.outcomes + [Outcome(j, Rejected, k, 0, [LimitExceeded])],
         promises := Completed(s.promises, j, [LimitExceeded]))
    case HandOver(k, h, w) =>
      s.(queues := s.queues[k := Act(s.queues[k], Finish(h))],
         workers := s.workers[w := s.workers[w].(stage := Got(s.queues[k].handlers[h].job))])
    case Decide(w, now, errs) =>
      var o := Judge(s.workers[w].stage.job, s.workers[w].kind, now, errs);
      s.(workers := s.workers[w := s.workers[w].(stage := Done(o.job, o.errors))], outcomes := s.outcomes + [o])
    case Settle(w) =>
      s.(workers := s.workers[w := s.workers[w].(stage := Idle)],
         promises := Completed(s.promises, s.workers[w].stage.job, s.workers[w].stage.errors))
    case Hire(k) => s.(workers := s.workers + [Worker(k, Idle)])
    case Retire(w) => s.(workers := s.workers[w := s.workers[w].(stage := Dead)])
  }

  // Where a given job is. Each function counts its occurrences in one part of the system.

  function One(b: bool): nat {
    if b then 1 else 0
  }

  predicate Receiving(r: Receiver, j: Job) {
    r == Taken(j) || r == Refusing(j) || r == Reported(j)
  }

  predicate Handling(hs: seq<Handler>, j: Job) {
    |hs| == 1 && hs[0] == Holding(j)
  }

  function InQueue(q: Queue, j: Job): nat {
    multiset(q.items)[j] + One(Handling(q.handlers, j)) + One(Receiving(q.receiver, j))
  }

  function InQueues(qs: map<Kind, Queue>, j: Job): nat
    requires AllQueues(qs)
  {
    InQueue(qs[Collecting], j) + InQueue(qs[Processing], j) + InQueue(qs[Publishing], j)
  }

  predicate AllQueues(qs: map<Kind, Queue>) {
    Collecting in qs && Processing in qs && Publishing in qs
  }

  /** Workers that hold the job undecided. */
  function Undecided(ws: seq<Worker>, j: Job): nat {
    if ws == [] then 0 else One(ws[0].stage == Got(j)) + Undecided(ws[1..], j)
  }

  /** Workers that have yet to complete the job's promise. */
  function Owing(ws: seq<Worker>, j: Job): nat {
    if ws == [] then 0 else One(ws[0].stage.Done? && ws[0].stage.job == j) + Owing(ws[1..], j)
  }

  function Decided(os: seq<Outcome>, j: Job): nat {
    if os == [] then 0 else One(os[0].job == j) + Decided(os[1..], j)
  }

  function Places(s: System, j: Job): nat
    requires AllQueues(s.queues)
  {
    s.waiting[j] + InQueues(s.queues, j) + Undecided(s.workers, j) + Decided(s.outcomes, j)
  }

  lemma {:induction false} WorkerChanges(ws: seq<Worker>, w: nat, x: Worker, j: Job)
    requires w < |ws|
    ensures Undecided(ws[w := x], j) + One(ws[w].stage == Got(j)) == Undecided(ws, j) + One(x.stage == Got(j))
    ensures Owing(ws[w := x], j) + One(ws[w].stage.Done? && ws[w].stage.job == j)
         == Owing(ws, j) + One(x.stage.Done? && x.stage.job == j)
  {
    if w == 0 {
      assert ws[w := x][1..] == ws[1..];
    } else {
      WorkerChanges(ws[1..], w - 1, x, j);
      assert ws[w := x][1..] == ws[1..][w - 1 := x];
    }
  }

  lemma {:induction false} WorkerJoins(ws: seq<Worker>, x: Worker, j: Job)
    requires x.stage.Idle?
    ensures Undecided(ws + [x], j) == Undecided(ws, j) && Owing(ws + [x], j) == Owing(ws, j)
  {
    if ws != [] {
      WorkerJoins(ws[1..], x, j);
      assert (ws + [x])[1..] == ws[1..] + [x];
    }
  }

  lemma {:induction false} DecidedNext(os: seq<Outcome>, o: Outcome, j: Job)
    ensures Decided(os + [o], j) == Decided(os, j) + One(o.job == j)
  {
    if os != [] {
      DecidedNext(os[1..], o, j);
      assert (os + [o])[1..] == os[1..] + [o];
    }
  }

  lemma {:induction false} DecidedSome(os: seq<Outcome>, i: nat)
    requires i < |os|
    ensures Decided(os, os[i].job) > 0
  {
    if i > 0 {
      DecidedSome(os[1..], i - 1);
    }
  }

  lemma {:induction false} DecidedTwice(os: seq<Outcome>, a: nat, b: nat)
    requires a < b < |os| && os[a].job == os[b].job
    ensures Decided(os, os[a].job) > 1
  {
    if a == 0 {
      DecidedSome(os[1..], b - 1);
    } else {
      DecidedTwice(os[1..], a - 1, b - 1);
    }
  }

  lemma {:induction false} OwingSome(ws: seq<Worker>, w: nat)
    requires w < |ws| && ws[w].stage.Done?
    ensures Owing(ws, ws[w].stage.job) > 0
  {
    if w > 0 {
      OwingSome(ws[1..], w - 1);
    }
  }

  lemma {:induction false} UndecidedSome(ws: seq<Worker>, w: nat)
    requires w < |ws| && ws[w].stage.Got?
    ensures Undecided(ws, ws[w].stage.job) > 0
  {
    if w > 0 {
      UndecidedSome(ws[1..], w - 1);
    }
  }

  lemma {:induction false} CountSnoc(js: seq<Job>, i: Job, j: Job)
    ensures multiset(js + [i])[j] == multiset(js)[j] + One(i == j)
  {
  }

  lemma {:induction false} CountCons(js: seq<Job>, j: Job)
    requires js != []
    ensures multiset(js)[j] == One(js[0] == j) + multiset(js[1..])[j]
  {
    assert js == [js[0]] + js[1..];
  }

  lemma {:induction false} PopMoves(q: Queue, h: nat, j: Job)
    requires OneHandler(q) && Enabled(q, Pop(h))
    ensures InQueue(Act(q, Pop(h)), j) == InQueue(q, j)
  {
    assert h == 0;
    if q.items != [] {
      CountCons(q.items, j);
    }
  }

  lemma {:induction false} FinishMoves(q: Queue, h: nat, j: Job)
    requires OneHandler(q) && Enabled(q, Finish(h))
    ensures InQueue(Act(q, Finish(h)), j) + One(q.handlers[h] == Holding(j)) == InQueue(q, j)
  {
    assert h == 0;
  }

  lemma {:induction false} ExitMoves(q: Queue, h: nat, j: Job)
    requires OneHandler(q) && Enabled(q, Exit(h))
    ensures InQueue(Act(q, Exit(h)), j) == InQueue(q, j)
  {
    assert h == 0;
  }

  lemma {:induction false} PushMoves(q: Queue, j: Job)
    requires Enabled(q, Push)
    ensures InQueue(Act(q, Push), j) == InQueue(q, j)
  {
    if HasRoom(q) {
      CountSnoc(q.items, q.receiver.job, j);
    }
  }

  lemma {:induction false} CheckMoves(q: Queue, j: Job)
    requires OneHandler(q) && Enabled(q, Check)
    ensures InQueue(Act(q, Check), j) == InQueue(q, j)
  {
    assert q.status.Running? ==> q.handlers + [AtPop] == [AtPop];
  }

  /** The remaining actions leave items and handlers alone. */
  lemma {:induction false} ReceiverMoves(q: Queue, a: Action, j: Job)
    requires OneHandler(q) && Enabled(q, a)
    requires !a.Pop? && !a.Finish? && !a.Exit? && !a.Push? && !a.Check?
    ensures InQueue(Act(q, a), j) + One(a.Refuse? && q.receiver == Reported(j)) == InQueue(q, j) + One(a == Take(j))
  {
    var r := Act(q, a);
    assert r.items == q.items && r.handlers == q.handlers;
  }

  /** One queue step moves a given job into, out of or within the queue. */
  lemma {:induction false} ActMoves(q: Queue, a: Action, j: Job)
    requires OneHandler(q) && Enabled(q, a)
    ensures InQueue(Act(q, a), j)
          + One(a.Refuse? && q.receiver == Reported(j)) + One(a.Finish? && q.handlers[a.h] == Holding(j))
         == InQueue(q, j) + One(a == Take(j))
  {
    match a
    case Pop(h) => PopMoves(q, h, j);
    case Finish(h) => FinishMoves(q, h, j);
    case Exit(h) => ExitMoves(q, h, j);
    case Push => PushMoves(q, j);
    case Check => CheckMoves(q, j);
    case _ => ReceiverMoves(q, a, j);
  }

  lemma {:induction false} QueuesMove(qs: map<Kind, Queue>, k: Kind, q: Queue, j: Job)
    requires AllQueues(qs) && k in qs
    ensures AllQueues(qs[k := q])
    ensures InQueues(qs[k := q], j) + InQueue(qs[k], j) == InQueues(qs, j) + InQueue(q, j)
  {
  }

  predicate QueuesSafe(qs: map<Kind, Queue>) {
    AllQueues(qs) && Safe(qs[Collecting]) && Safe(qs[Processing]) && Safe(qs[Publishing])
  }

  /** A step of queue `k` takes a given job in or lets it go, and keeps the queues safe. */
  lemma {:induction false} QueueStep(qs: map<Kind, Queue>, k: Kind, a: Action, j: Job)
    requires QueuesSafe(qs) && k in qs && Enabled(qs[k], a)
    ensures var us := qs[k := Act(qs[k], a)];
      && QueuesSafe(us)
      && InQueues(us, j) + One(a.Refuse? && qs[k].receiver == Reported(j))
           + One(a.Finish? && qs[k].handlers[a.h] == Holding(j))
         == InQueues(qs, j) + One(a == Take(j))
  {
    var q := Act(qs[k], a);
    ActSafe(qs[k], a);
    ActMoves(qs[k], a, j);
    QueuesMove(qs, k, q, j);
  }

  lemma {:induction false} LocalConserves(s: System, e: Event, j: Job)
    requires QueuesSafe(s.queues) && Can(s, e) && e.Local?
    ensures QueuesSafe(Next(s, e).queues) && Places(Next(s, e), j) == Places(s, j)
  {
    QueueStep(s.queues, e.kind, e.action, j);
  }

  lemma {:induction false} ReceiveConserves(s: System, e: Event, j: Job)
    requires QueuesSafe(s.queues) && Can(s, e) && e.Receive?
    ensures QueuesSafe(Next(s, e).queues) && Places(Next(s, e), j) == Places(s, j)
  {
    WaitingLess(s.waiting, e.job, j);
    QueueStep(s.queues, e.kind, Take(e.job), j);
  }

  lemma {:induction false} WaitingLess(waiting: multiset<Job>, i: Job, j: Job)
    requires i in waiting
    ensures (waiting - multiset{i})[j] + One(i == j) == waiting[j]
  {
  }

  lemma {:induction false} SwallowConserves(s: System, e: Event, j: Job)
    requires QueuesSafe(s.queues) && Can(s, e) && e.Swallowed?
    ensures QueuesSafe(Next(s, e).queues) && Places(Next(s, e), j) == Places(s, j)
  {
    WaitingLess(s.waiting, e.job, j);
    assert Next(s, e).workers == s.workers;
    QueueStep(s.queues, e.kind, Swallow(e.job), j);
    DecidedNext(s.outcomes, Outcome(e.job, Lost, e.kind, 0, []), j);
  }

  lemma {:induction false} RejectConserves(s: System, e: Event, j: Job)
    requires QueuesSafe(s.queues) && Can(s, e) && e.Reject?
    ensures QueuesSafe(Next(s, e).queues) && Places(Next(s, e), j) == Places(s, j)
  {
    QueueStep(s.queues, e.kind, Refuse, j);
    DecidedNext(s.outcomes, Outcome(s.queues[e.kind].receiver.job, Rejected, e.kind, 0, [LimitExceeded]), j);
  }

  lemma {:induction false} HandOverConserves(s: System, e: Event, j: Job)
    requires QueuesSafe(s.queues) && Can(s, e) && e.HandOver?
    ensures QueuesSafe(Next(s, e).queues) && Places(Next(s, e), j) == Places(s, j)
  {
    QueueStep(s.queues, e.kind, Finish(e.h), j);
    WorkerChanges(s.workers, e.w, Next(s, e).workers[e.w], j);
  }

  lemma {:induction false} WorkerConserves(s: System, e: Event, j: Job)
    requires QueuesSafe(s.queues) && Can(s, e) && (e.Decide? || e.Settle? || e.Hire? || e.Retire?)
    ensures QueuesSafe(Next(s, e).queues) && Places(Next(s, e), j) == Places(s, j)
  {
    if e.Hire? {
      WorkerJoins(s.workers, Worker(e.kind, Idle), j);
    } else {
      WorkerChanges(s.workers, e.w, Next(s, e).workers[e.w], j);
    }
    if e.Decide? {
      DecidedNext(s.outcomes, Judge(s.workers[e.w].stage.job, s.workers[e.w].kind, e.now, e.errs), j);
    }
  }

  /** No step loses a job, doubles one or makes one up. */
  lemma {:induction false} NextConserves(s: System, e: Event, j: Job)
    requires QueuesSafe(s.queues) && Can(s, e)
    ensures QueuesSafe(Next(s, e).queues)
    ensures Places(Next(s, e), j) == Places(s, j) + One(e == Submit(j))
  {
    match e
    case Submit(_) =>
    case Local(_, _) => LocalConserves(s, e, j);
    case Receive(_, _) => ReceiveConserves(s, e, j);
    case Swallowed(_, _) => SwallowConserves(s, e, j);
    case Reject(_) => RejectConserves(s, e, j);
    case HandOver(_, _, _) => HandOverConserves(s, e, j);
    case _ => WorkerConserves(s, e, j);
  }

  /** Decisions about a job other than losing it. */
  function Answered(os: seq<Outcome>, j: Job): nat {
    if os == [] then 0 else One(os[0].job == j && !os[0].verdict.Lost?) + Answered(os[1..], j)
  }

  lemma {:induction false} AnsweredNext(os: seq<Outcome>, o: Outcome, j: Job)
    ensures Answered(os + [o], j) == Answered(os, j) + One(o.job == j && !o.verdict.Lost?)
  {
    if os != [] {
      AnsweredNext(os[1..], o, j);
      assert (os + [o])[1..] == os[1..] + [o];
    }
  }

  lemma {:induction false} AnsweredDecided(os: seq<Outcome>, j: Job)
    ensures Answered(os, j) <= Decided(os, j)
  {
    if os != [] {
      AnsweredDecided(os[1..], j);
    }
  }

  /** A submitted job is in exactly one place, an unsubmitted one nowhere; a promise is completed, or
      owed by a worker, once for every decision that did not lose the job. */
  predicate Tallied(s: System, j: Job) {
    && QueuesSafe(s.queues)
    && Places(s, j) == multiset(s.submitted)[j] <= 1
    && Owing(s.workers, j) + One(j in s.promises) == Answered(s.outcomes, j)
  }

  /** The event completes the job's promise. */
  predicate Completes(s: System, e: Event, j: Job) {
    && Can(s, e)
    && ((e.Settle? && s.workers[e.w].stage.job == j) || (e.Reject? && s.queues[e.kind].receiver.job == j))
  }

  lemma {:induction false} RejectedInQueue(qs: map<Kind, Queue>, k: Kind, j: Job)
    requires AllQueues(qs) && k in qs && qs[k].receiver == Reported(j)
    ensures InQueues(qs, j) >= 1
  {
    assert InQueue(qs[k], j) >= 1;
    match k
    case Collecting =>
    case Processing =>
    case Publishing =>
  }

  lemma {:induction false} FoundOpen(s: System, e: Event, j: Job)
    requires Tallied(s, j) && Completes(s, e, j)
    ensures j !in s.promises
  {
    AnsweredDecided(s.outcomes, j);
    if e.Settle? {
      OwingSome(s.workers, e.w);
    } else {
      RejectedInQueue(s.queues, e.kind, j);
    }
  }

  lemma {:induction false} CompletionOwes(s: System, e: Event, j: Job)
    requires Tallied(s, j) && Can(s, e) && (e.Settle? || e.Reject?)
    ensures var t := Next(s, e); Owing(t.workers, j) + One(j in t.promises) == Answered(t.outcomes, j)
  {
    var t := Next(s, e);
    if Completes(s, e, j) {
      FoundOpen(s, e, j);
    }
    if e.Settle? {
      WorkerChanges(s.workers, e.w, t.workers[e.w], j);
    } else {
      AnsweredNext(s.outcomes, t.outcomes[|s.outcomes|], j);
    }
  }

  lemma {:induction false} NextOwes(s: System, e: Event, j: Job)
    requires Tallied(s, j) && Can(s, e)
    ensures var t := Next(s, e); Owing(t.workers, j) + One(j in t.promises) == Answered(t.outcomes, j)
  {
    var t := Next(s, e);
    match e
    case Settle(_) => CompletionOwes(s, e, j);
    case Reject(_) => CompletionOwes(s, e, j);
    case HandOver(_, _, w) => WorkerChanges(s.workers, w, t.workers[w], j);
    case Retire(w) => WorkerChanges(s.workers, w, t.workers[w], j);
    case Decide(w, _, _) =>
      WorkerChanges(s.workers, w, t.workers[w], j);
      AnsweredNext(s.outcomes, t.outcomes[|s.outcomes|], j);
    case Swallowed(_, _) => AnsweredNext(s.outcomes, t.outcomes[|s.outcomes|], j);
    case Hire(k) => WorkerJoins(s.workers, Worker(k, Idle), j);
    case _ =>
  }

  lemma {:induction false} NextTallied(s: System, e: Event, j: Job)
    requires Tallied(s, j) && Can(s, e)
    ensures Tallied(Next(s, e), j)
  {
    NextConserves(s, e, j);
    NextOwes(s, e, j);
  }

  /** Jobs run only before their deadline and only on a worker of their own kind. */
  predicate Lawful(o: Outcome) {
    match o.verdict
    case Ran => o.at < o.job.deadline && o.post == o.job.kind
    case Overdue => o.at >= o.job.deadline && o.post == o.job.kind && o.errors == [PastDeadline]
    case Rejected => o.errors == [LimitExceeded]
    case Lost => true
  }

  predicate OwnKind(x: Worker) {
    x.stage.Got? || x.stage.Done? ==> x.stage.job.kind == x.kind
  }

  /** Some decision about the job came with these errors. */
  predicate Backed(os: seq<Outcome>, j: Job, errs: seq<Error>) {
    exists o :: o in os && o.job == j && o.errors == errs && !o.verdict.Lost?
  }

  predicate Orderly(s: System) {
    && (forall o :: o in s.outcomes ==> Lawful(o))
    && (forall x :: x in s.workers ==>
          OwnKind(x) && (x.stage.Done? ==> Backed(s.outcomes, x.stage.job, x.stage.errors)))
    && (forall j :: j in s.promises ==> Backed(s.outcomes, j, s.promises[j]))
  }

  lemma {:induction false} MoreBacked(os: seq<Outcome>, o: Outcome)
    ensures forall j, errs :: Backed(os, j, errs) ==> Backed(os + [o], j, errs)
    ensures !o.verdict.Lost? ==> Backed(os + [o], o.job, o.errors)
  {
    assert o in os + [o];
    forall j, errs | Backed(os, j, errs)
      ensures Backed(os + [o], j, errs)
    {
      var p :| p in os && p.job == j && p.errors == errs && !p.verdict.Lost?;
      assert p in os + [o];
    }
  }

  lemma {:induction false} WorkerOrderly(s: System, e: Event)
    requires Orderly(s) && Can(s, e) && (e.HandOver? || e.Decide? || e.Settle? || e.Retire?)
    ensures Orderly(Next(s, e))
  {
    var t := Next(s, e);
    assert s.workers[e.w] in s.workers;
    assert forall x :: x in t.workers ==> x in s.workers || x == t.workers[e.w];
    if e.Decide? {
      MoreBacked(s.outcomes, t.outcomes[|s.outcomes|]);
    }
  }

  lemma {:induction false} NextOrderly(s: System, e: Event)
    requires Orderly(s) && Can(s, e)
    ensures Orderly(Next(s, e))
  {
    if e.HandOver? || e.Decide? || e.Settle? || e.Retire? {
      WorkerOrderly(s, e);
    } else if e.Swallowed? || e.Reject? {
      MoreBacked(s.outcomes, Next(s, e).outcomes[|s.outcomes|]);
    }
  }

  predicate Runs(s: System, es: seq<Event>)
    decreases |es|
  {
    es == [] || (Can(s, es[0]) && Runs(Next(s, es[0]), es[1..]))
  }

  function After(s: System, es: seq<Event>): System
    requires Runs(s, es)
    decreases |es|
  {
    if es == [] then s else After(Next(s, es[0]), es[1..])
  }

  function Boot(collect: nat, process: nat, publish: nat): System {
    System([], multiset{},
           map[Collecting := New(collect), Processing := New(process), Publishing := New(publish)], [], [], map[])
  }

  /** Nothing has happened yet: queues of some limits, no jobs, no workers. */
  ghost predicate Booted(s: System) {
    exists collect, process, publish :: s == Boot(collect, process, publish)
  }

  lemma {:induction false} BootTallied(boot: System, j: Job)
    requires Booted(boot)
    ensures Tallied(boot, j)
  {
  }

  lemma {:induction false} RunTallied(s: System, es: seq<Event>, j: Job)
    requires Tallied(s, j) && Runs(s, es)
    ensures Tallied(After(s, es), j)
    decreases |es|
  {
    if es != [] {
      NextTallied(s, es[0], j);
      RunTallied(Next(s, es[0]), es[1..], j);
    }
  }

  lemma {:induction false} RunOrderly(s: System, es: seq<Event>)
    requires Orderly(s) && Runs(s, es)
    ensures Orderly(After(s, es))
    decreases |es|
  {
    if es != [] {
      NextOrderly(s, es[0]);
      RunOrderly(Next(s, es[0]), es[1..]);
    }
  }

  /** In every run at most one thing is decided about a job: rejected, overdue, run, or lost in the
      last receive of a stopped queue. So no job runs twice. */
  lemma {:induction false} SingleOutcome(boot: System, es: seq<Event>, a: nat, b: nat)
    requires Booted(boot) && Runs(boot, es) && a < b < |After(boot, es).outcomes|
    ensures After(boot, es).outcomes[a].job != After(boot, es).outcomes[b].job
  {
    var os := After(boot, es).outcomes;
    if os[a].job == os[b].job {
      BootTallied(boot, os[a].job);
      RunTallied(boot, es, os[a].job);
      DecidedTwice(os, a, b);
      assert false;
    }
  }

  /** In every run a job runs only before its deadline and on a worker of its own kind, and a
      completed promise carries the errors of the one decision about its job. */
  lemma {:induction false} LawfulOutcomes(boot: System, es: seq<Event>)
    requires Booted(boot) && Runs(boot, es)
    ensures var t := After(boot, es);
      && (forall o :: o in t.outcomes ==> Lawful(o))
      && (forall j :: j in t.promises ==> Backed(t.outcomes, j, t.promises[j]))
  {
    RunOrderly(boot, es);
  }

  lemma {:induction false} AnsweredSome(os: seq<Outcome>, o: Outcome)
    requires o in os && !o.verdict.Lost?
    ensures Answered(os, o.job) > 0
  {
    if os[0] != o {
      AnsweredSome(os[1..], o);
    }
  }

  lemma {:induction false} OwingWho(ws: seq<Worker>, j: Job) returns (w: nat)
    requires Owing(ws, j) > 0
    ensures w < |ws| && ws[w].stage.Done? && ws[w].stage.job == j
  {
    if ws[0].stage.Done? && ws[0].stage.job == j {
      w := 0;
    } else {
      w := OwingWho(ws[1..], j);
      w := w + 1;
    }
  }

  /** A worker is about to complete the job's promise with these errors. */
  predicate Owes(ws: seq<Worker>, j: Job, errs: seq<Error>) {
    exists x :: x in ws && x.stage == Done(j, errs)
  }

  /** In every run the promise of a job that was rejected, overdue or run has been completed with the
      errors of that decision, or a worker is about to complete it with them, and not both. */
  lemma {:induction false} EveryDecisionAnswered(boot: System, es: seq<Event>, o: Outcome)
    requires Booted(boot) && Runs(boot, es) && o in After(boot, es).outcomes && !o.verdict.Lost?
    ensures var t := After(boot, es);
      && (o.job in t.promises ==> t.promises[o.job] == o.errors)
      && (o.job !in t.promises <==> Owes(t.workers, o.job, o.errors))
  {
    var t := After(boot, es);
    BootTallied(boot, o.job);
    RunTallied(boot, es, o.job);
    RunOrderly(boot, es);
    AnsweredSome(t.outcomes, o);
    AnsweredDecided(t.outcomes, o.job);
    if o.job in t.promises {
      BackedBy(boot, es, o, t.promises[o.job]);
      NobodyOwes(t, o);
    } else {
      var w := OwingWho(t.workers, o.job);
      assert t.workers[w] in t.workers;
      BackedBy(boot, es, o, t.workers[w].stage.errors);
    }
  }

  lemma {:induction false} BackedBy(boot: System, es: seq<Event>, o: Outcome, errs: seq<Error>)
    requires Booted(boot) && Runs(boot, es)
    requires o in After(boot, es).outcomes && Backed(After(boot, es).outcomes, o.job, errs)
    ensures o.errors == errs
  {
    var os := After(boot, es).outcomes;
    var p :| p in os && p.job == o.job && p.errors == errs && !p.verdict.Lost?;
    SameOutcome(boot, es, o, p);
  }

  lemma {:induction false} NobodyOwes(t: System, o: Outcome)
    requires Tallied(t, o.job) && o.job in t.promises && Decided(t.outcomes, o.job) <= 1
    ensures !Owes(t.workers, o.job, o.errors)
  {
    AnsweredDecided(t.outcomes, o.job);
    if Owes(t.workers, o.job, o.errors) {
      var x :| x in t.workers && x.stage == Done(o.job, o.errors);
      var w :| 0 <= w < |t.workers| && t.workers[w] == x;
      OwingSome(t.workers, w);
    }
  }

  /** Some step of the run has a worker run the job and get these errors at that time. */
  predicate RanIn(s: System, es: seq<Event>, o: Outcome)
    requires Runs(s, es)
    decreases |es|
  {
    es != [] &&
    ((es[0].Decide? && es[0].now == o.at && es[0].errs == o.errors && s.workers[es[0].w] == Worker(o.post, Got(o.job)))
     || RanIn(Next(s, es[0]), es[1..], o))
  }

  /** In every run, what is recorded of a job that ran is when and where it ran and what the run reported. */
  lemma {:induction false} RanAsReported(s: System, es: seq<Event>, o: Outcome)
    requires Runs(s, es) && o in After(s, es).outcomes && o !in s.outcomes && o.verdict.Ran?
    ensures RanIn(s, es, o)
    decreases |es|
  {
    if es != [] && o !in Next(s, es[0]).outcomes {
      RanAsReported(Next(s, es[0]), es[1..], o);
    }
  }

  /** Once complete, a promise's errors never change. */
  lemma {:induction false} PromiseKept(s: System, es: seq<Event>, j: Job)
    requires Runs(s, es) && j in s.promises
    ensures j in After(s, es).promises && After(s, es).promises[j] == s.promises[j]
    decreases |es|
  {
    if es != [] {
      PromiseKept(Next(s, es[0]), es[1..], j);
    }
  }

  /** In every run, whoever completes a promise finds it open: the latch in Promise.Complete never
      has to hold. */
  lemma {:induction false} CompletedOnce(boot: System, es: seq<Event>, e: Event, j: Job)
    requires Booted(boot) && Runs(boot, es)
    ensures Completes(After(boot, es), e, j) ==> j !in After(boot, es).promises
  {
    var s := After(boot, es);
    BootTallied(boot, j);
    RunTallied(boot, es, j);
    if Completes(s, e, j) {
      FoundOpen(s, e, j);
    }
  }

  // Jobs stay in the queue of their kind.

  predicate AllOf(js: seq<Job>, k: Kind) {
    forall j :: j in js ==> j.kind == k
  }

  /** Every job a queue has to do with, waiting, in hand or done with, is of its kind. */
  predicate Proper(k: Kind, q: Queue) {
    && AllOf(q.items, k) && AllOf(q.accepted, k) && AllOf(q.handled, k)
    && AllOf(q.refused, k) && AllOf(q.swallowed, k)
    && (forall h :: h in q.handlers && h.Holding? ==> h.job.kind == k)
    && (q.receiver.Taken? || q.receiver.Refusing? || q.receiver.Reported? ==> q.receiver.job.kind == k)
  }

  lemma {:induction false} ActProper(k: Kind, q: Queue, a: Action)
    requires Proper(k, q) && Enabled(q, a) && (a.Take? || a.Swallow? ==> a.job.kind == k)
    ensures Proper(k, Act(q, a))
  {
  }

  lemma {:induction false} NextProper(s: System, e: Event)
    requires Can(s, e) && forall k :: k in s.queues ==> Proper(k, s.queues[k])
    ensures forall k :: k in Next(s, e).queues ==> Proper(k, Next(s, e).queues[k])
  {
    NextQueues(s, e);
    var step := StepOfQueue(s, e);
    if step.Some? {
      ActProper(step.value.0, s.queues[step.value.0], step.value.1);
    }
  }

  /** In every run each queue is given the jobs of its own kind and no others. */
  lemma {:induction false} RunProper(s: System, es: seq<Event>)
    requires Runs(s, es) && forall k :: k in s.queues ==> Proper(k, s.queues[k])
    ensures forall k :: k in After(s, es).queues ==> Proper(k, After(s, es).queues[k])
    decreases |es|
  {
    if es != [] {
      NextProper(s, es[0]);
      RunProper(Next(s, es[0]), es[1..]);
    }
  }

  lemma {:induction false} QueuesProper(boot: System, es: seq<Event>, k: Kind)
    requires Booted(boot) && Runs(boot, es) && k in After(boot, es).queues
    ensures Proper(k, After(boot, es).queues[k])
  {
    RunProper(boot, es);
  }

  // Lost jobs.

  predicate IsLost(os: seq<Outcome>, j: Job) {
    exists o :: o in os && o.job == j && o.verdict.Lost?
  }

  lemma {:induction false} SameOutcome(boot: System, es: seq<Event>, o: Outcome, p: Outcome)
    requires Booted(boot) && Runs(boot, es)
    requires o in After(boot, es).outcomes && p in After(boot, es).outcomes && o.job == p.job
    ensures o == p
  {
    var os := After(boot, es).outcomes;
    var a :| 0 <= a < |os| && os[a] == o;
    var b :| 0 <= b < |os| && os[b] == p;
    if a < b {
      SingleOutcome(boot, es, a, b);
    } else if b < a {
      SingleOutcome(boot, es, b, a);
    }
  }

  /** In every run the promise of a lost job is not completed; as this holds after every further step,
      whoever awaits it waits for ever. */
  lemma {:induction false} LostNeverCompleted(boot: System, es: seq<Event>, j: Job)
    requires Booted(boot) && Runs(boot, es) && IsLost(After(boot, es).outcomes, j)
    ensures j !in After(boot, es).promises
  {
    var t := After(boot, es);
    if j in t.promises {
      RunOrderly(boot, es);
      assert Orderly(t) && Backed(t.outcomes, j, t.promises[j]);
      var o :| o in t.outcomes && o.job == j && o.verdict.Lost?;
      var p :| p in t.outcomes && p.job == j && p.errors == t.promises[j] && !p.verdict.Lost?;
      SameOutcome(boot, es, o, p);
      assert false;
    }
  }

  /** Exactly which jobs a step can lose: those still waiting when the receiver of their queue has
      noticed the kill signal and is in its last receive. */
  lemma {:induction false} LosesIff(s: System, j: Job)
    requires QueueOf(j) in s.queues && !IsLost(s.outcomes, j)
    ensures (exists e :: Can(s, e) && IsLost(Next(s, e).outcomes, j)) <==>
              j in s.waiting && s.queues[QueueOf(j)].receiver.Draining?
  {
    var swallow := Swallowed(QueueOf(j), j);
    if j in s.waiting && s.queues[QueueOf(j)].receiver.Draining? {
      var os := Next(s, swallow).outcomes;
      assert os[|os| - 1] in os;
    }
    forall e | Can(s, e) && IsLost(Next(s, e).outcomes, j)
      ensures e == swallow
    {
      LostBySwallowing(s, e, j);
    }
  }

  lemma {:induction false} LostBySwallowing(s: System, e: Event, j: Job)
    requires Can(s, e) && IsLost(Next(s, e).outcomes, j) && !IsLost(s.outcomes, j)
    ensures e == Swallowed(QueueOf(j), j)
  {
    var o :| o in Next(s, e).outcomes && o.job == j && o.verdict.Lost?;
    assert o !in s.outcomes;
  }

  /** Every lost job is the one its queue swallowed. */
  predicate LossesKept(s: System) {
    && (forall k :: k in s.queues ==> SwallowedOnce(s.queues[k]))
    && (forall o :: o in s.outcomes && o.verdict.Lost? ==>
          o.post in s.queues && s.queues[o.post].swallowed == [o.job])
  }

  lemma {:induction false} QueueLosses(s: System, k: Kind, a: Action)
    requires LossesKept(s) && k in s.queues && Enabled(s.queues[k], a) && !a.Swallow?
    ensures LossesKept(s.(queues := s.queues[k := Act(s.queues[k], a)]))
  {
    ActSwallows(s.queues[k], a);
  }

  lemma {:induction false} SwallowLosses(s: System, e: Event)
    requires LossesKept(s) && Can(s, e) && e.Swallowed?
    ensures LossesKept(Next(s, e))
  {
    ActSwallows(s.queues[e.kind], Swallow(e.job));
    assert s.queues[e.kind].swallowed == [];
    forall o | o in Next(s, e).outcomes && o.verdict.Lost?
      ensures o.post in s.queues && Next(s, e).queues[o.post].swallowed == [o.job]
    {
      if o in s.outcomes {
        assert o.post != e.kind;
      }
    }
  }

  lemma {:induction false} NextLosses(s: System, e: Event)
    requires LossesKept(s) && Can(s, e)
    ensures LossesKept(Next(s, e))
  {
    match e
    case Local(k, a) => QueueLosses(s, k, a);
    case Receive(k, j) => QueueLosses(s, k, Take(j));
    case Swallowed(_, _) => SwallowLosses(s, e);
    case Reject(k) => QueueLosses(s, k, Refuse);
    case HandOver(k, h, _) => QueueLosses(s, k, Finish(h));
    case _ =>
  }

  lemma {:induction false} RunLosses(s: System, es: seq<Event>)
    requires LossesKept(s) && Runs(s, es)
    ensures LossesKept(After(s, es))
    decreases |es|
  {
    if es != [] {
      NextLosses(s, es[0]);
      RunLosses(Next(s, es[0]), es[1..]);
    }
  }

  /** A queue that is not the collect queue has not been told to stop. */
  predicate Unstopped(k: Kind, q: Queue) {
    k.Collecting? || (!q.killed && !q.receiver.Draining?)
  }

  /** Only the collect queue is ever told to stop, and only its jobs are lost. */
  predicate OthersSafe(s: System) {
    && (forall k :: k in s.queues ==> Unstopped(k, s.queues[k]))
    && (forall o :: o in s.outcomes && o.verdict.Lost? ==> o.post.Collecting? && QueueOf(o.job).Collecting?)
  }

  lemma {:induction false} ActUnstopped(k: Kind, q: Queue, a: Action)
    requires Unstopped(k, q) && Enabled(q, a) && (a.Stop? ==> k.Collecting?)
    ensures Unstopped(k, Act(q, a)) && (a.Swallow? ==> k.Collecting?)
  {
  }

  /** The step of the queue an event involves, if it involves one. */
  function StepOfQueue(s: System, e: Event): Option<(Kind, Action)>
    requires Can(s, e)
  {
    match e
    case Local(k, a) => Some((k, a))
    case Receive(k, j) => Some((k, Take(j)))
    case Swallowed(k, j) => Some((k, Swallow(j)))
    case Reject(k) => Some((k, Refuse))
    case HandOver(k, h, _) => Some((k, Finish(h)))
    case _ => None
  }

  lemma {:induction false} NextQueues(s: System, e: Event)
    requires Can(s, e)
    ensures var step := StepOfQueue(s, e);
            if step.None? then Next(s, e).queues == s.queues
            else step.value.0 in s.queues && Enabled(s.queues[step.value.0], step.value.1)
                 && Next(s, e).queues == s.queues[step.value.0 := Act(s.queues[step.value.0], step.value.1)]
  {
  }

  lemma {:induction false} NextOthersSafe(s: System, e: Event)
    requires OthersSafe(s) && Can(s, e)
    ensures OthersSafe(Next(s, e))
  {
    NextQueues(s, e);
    var step := StepOfQueue(s, e);
    if step.Some? {
      ActUnstopped(step.value.0, s.queues[step.value.0], step.value.1);
    }
  }

  lemma {:induction false} RunOthersSafe(s: System, es: seq<Event>)
    requires OthersSafe(s) && Runs(s, es)
    ensures OthersSafe(After(s, es))
    decreases |es|
  {
    if es != [] {
      NextOthersSafe(s, es[0]);
      RunOthersSafe(Next(s, es[0]), es[1..]);
    }
  }

  /** In every run a lost job is a collect job: process and publish jobs are never lost. */
  lemma {:induction false} OnlyCollectLost(boot: System, es: seq<Event>, j: Job)
    requires Booted(boot) && Runs(boot, es) && IsLost(After(boot, es).outcomes, j)
    ensures j.kind.Collecting?
  {
    RunOthersSafe(boot, es);
  }

  /** And in every run at most one job is lost. */
  lemma {:induction false} LostOnce(boot: System, es: seq<Event>, o: Outcome, p: Outcome)
    requires Booted(boot) && Runs(boot, es)
    requires o in After(boot, es).outcomes && p in After(boot, es).outcomes && o.verdict.Lost? && p.verdict.Lost?
    ensures o == p
  {
    RunOthersSafe(boot, es);
    RunLosses(boot, es);
    assert [o.job] == [p.job];
    SameOutcome(boot, es, o, p);
  }

  lemma {:induction false} RunNextEvent(s: System, es: seq<Event>, e: Event)
    requires Runs(s, es) && Can(After(s, es), e)
    ensures Runs(s, es + [e]) && After(s, es + [e]) == Next(After(s, es), e)
    decreases |es|
  {
    if es == [] {
      assert ([] + [e])[1..] == [];
    } else {
      RunNextEvent(Next(s, es[0]), es[1..], e);
      assert (es + [e])[1..] == es[1..] + [e];
    }
  }

  lemma {:induction false} BootHas(boot: System, k: Kind)
    requires Booted(boot)
    ensures k in boot.queues && boot.queues[k] == New(boot.queues[k].limit)
  {
    match k
    case Collecting =>
    case Processing =>
    case Publishing =>
  }

  /** A job of any kind is submitted and received. */
  lemma {:induction false} ReceivedReached(boot: System, j: Job) returns (es: seq<Event>)
    requires Booted(boot)
    ensures Runs(boot, es) && QueueOf(j) in After(boot, es).queues
    ensures var t := After(boot, es);
      && t.workers == [] && t.promises == map[]
      && t.queues[QueueOf(j)] == New(t.queues[QueueOf(j)].limit).(status := Running, receiver := Taken(j))
  {
    var k := QueueOf(j);
    BootHas(boot, k);
    es := [];
    RunNextEvent(boot, es, Local(k, Start));
    es := es + [Local(k, Start)];
    RunNextEvent(boot, es, Submit(j));
    es := es + [Submit(j)];
    RunNextEvent(boot, es, Receive(k, j));
    es := es + [Receive(k, j)];
  }

  /** And it gets to a handler of its queue. */
  lemma {:induction false} HandlerReached(boot: System, j: Job) returns (es: seq<Event>)
    requires Booted(boot)
    ensures Runs(boot, es) && QueueOf(j) in After(boot, es).queues && After(boot, es).workers == []
    ensures After(boot, es).queues[QueueOf(j)].handlers == [Holding(j)] && After(boot, es).promises == map[]
  {
    var k := QueueOf(j);
    es := ReceivedReached(boot, j);
    RunNextEvent(boot, es, Local(k, Push));
    es := es + [Local(k, Push)];
    RunNextEvent(boot, es, Local(k, Check));
    es := es + [Local(k, Check)];
    RunNextEvent(boot, es, Local(k, Pop(0)));
    es := es + [Local(k, Pop(0))];
  }

  /** And to a worker. */
  lemma {:induction false} WorkerReached(boot: System, j: Job) returns (es: seq<Event>)
    requires Booted(boot)
    ensures Runs(boot, es) && After(boot, es).workers == [Worker(j.kind, Got(j))] && After(boot, es).promises == map[]
  {
    es := HandlerReached(boot, j);
    RunNextEvent(boot, es, Hire(j.kind));
    es := es + [Hire(j.kind)];
    RunNextEvent(boot, es, HandOver(QueueOf(j), 0, 0));
    es := es + [HandOver(QueueOf(j), 0, 0)];
  }

  /** For every job there is a run in which a worker takes it in time and its promise is completed with
      whatever the run reports. */
  lemma {:induction false} CompletionReached(boot: System, j: Job, now: int, errs: seq<Error>) returns (es: seq<Event>)
    requires Booted(boot) && now < j.deadline
    ensures Runs(boot, es) && j in After(boot, es).promises && After(boot, es).promises[j] == errs
  {
    es := WorkerReached(boot, j);
    RunNextEvent(boot, es, Decide(0, now, errs));
    es := es + [Decide(0, now, errs)];
    RunNextEvent(boot, es, Settle(0));
    es := es + [Settle(0)];
  }

  /** A job waits while its queue's receiver is in its last receive. */
  lemma {:induction false} DrainingReached(boot: System, j: Job) returns (es: seq<Event>)
    requires Booted(boot) && j.kind.Collecting?
    ensures Runs(boot, es) && QueueOf(j) in After(boot, es).queues
    ensures j in After(boot, es).waiting && After(boot, es).queues[QueueOf(j)].receiver.Draining?
  {
    var k := QueueOf(j);
    BootHas(boot, k);
    es := [];
    RunNextEvent(boot, es, Local(k, Start));
    es := es + [Local(k, Start)];
    RunNextEvent(boot, es, Local(k, Stop));
    es := es + [Local(k, Stop)];
    RunNextEvent(boot, es, Local(k, Notice));
    es := es + [Local(k, Notice)];
    RunNextEvent(boot, es, Submit(j));
    es := es + [Submit(j)];
  }

  /** A run that loses a collect job, whatever the job: the queue is stopped while it is being submitted. */
  lemma {:induction false} LostReached(boot: System, j: Job) returns (es: seq<Event>)
    requires Booted(boot) && j.kind.Collecting?
    ensures Runs(boot, es) && IsLost(After(boot, es).outcomes, j)
  {
    es := DrainingReached(boot, j);
    var e := Swallowed(QueueOf(j), j);
    RunNextEvent(boot, es, e);
    es := es + [e];
    var os := After(boot, es).outcomes;
    assert os[|os| - 1] in os;
  }
}
