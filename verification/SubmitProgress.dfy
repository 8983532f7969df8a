/** The submit protocol gets every job answered, and what a block does to its waiters. */
module SubmitProgress {
  import opened Machine
  import opened SubmitWait
  import opened SubmitQueue
  import ProcessBlock

  // ---------------------------------------------------------------- no job is stuck

  /** How far a job is from its response. */
  function Rank(phase: Phase): nat {
    match phase
    case Sending => 5
    case Waiting => 4
    case Expiring => 3
    case Expired => 2
    case Finished(_) => 1
    case Responded(_) => 0
  }

  /** The step of a job that depends on nobody but its timer, mempool and client. */
  function OwnStep(p: Protocol, job: nat): Step
    requires job in p.jobs && job in p.wires.slots
  {
    match p.jobs[job].phase
    case Sending => MempoolOk(job)
    case Waiting =>
      (match p.wires.slots[job]
       case Full(_) => PollReceipt(job)
       case Empty => PollElapsed(job)
       case _ => PollDropped(job))
    case Expiring => DropReceiver(job)
    case Expired => CancelExpired(job)
    case _ => Respond(job)
  }

  /** A job that has no response yet can always take a step of its own. */
  lemma JobCanMove(p: Protocol, job: nat)
    requires Fits(p) && job in p.jobs && !p.jobs[job].phase.Responded?
    ensures job in p.wires.slots
    ensures var step := OwnStep(p, job); Enabled(p, step) && (Moves(step) || Ends(step)) && step.job == job
  {
    hide ResponsesFit, StopFits, InboxFits, EntryFits;
    assert JobFits(p, job);
  }

  /** Every step of a job brings it closer to its response, and no other step takes it back;
      so a job takes at most five steps. */
  lemma RankFalls(p: Protocol, step: Step, job: nat)
    requires Fits(p) && Enabled(p, step) && job in p.jobs
    ensures job in Next(p, step).jobs && Next(p, step).jobs[job].digest == p.jobs[job].digest
    ensures (if (Moves(step) || Ends(step)) && step.job == job
             then Rank(Next(p, step).jobs[job].phase) < Rank(p.jobs[job].phase)
             else Next(p, step).jobs[job] == p.jobs[job])
  {
    hide ResponsesFit, StopFits, JobFits, EntryFits, Cancelled, Registered, Completed;
    if step.Take? {
      assert p.inbox[0].0 !in p.jobs;
    }
  }

  lemma Concat(p: Protocol, a: seq<Step>, q: Protocol, b: seq<Step>, r: Protocol)
    requires Runs(p, a, q) && Runs(q, b, r)
    ensures Runs(p, a + b, r)
    decreases |a|
  {
    hide Enabled, Next;
    if a == [] {
      assert a + b == b;
    } else {
      assert (a + b)[0] == a[0] && (a + b)[1..] == a[1..] + b;
      Concat(Next(p, a[0]), a[1..], q, b, r);
    }
  }

  lemma OneStep(p: Protocol, step: Step)
    requires Enabled(p, step)
    ensures Runs(p, [step], Next(p, step))
  {
    hide Enabled, Next;
    assert Runs(Next(p, step), [], Next(p, step)) && [step][1..] == [];
  }

  /** What the steps of one job leave alone. */
  ghost predicate OnlyJob(p: Protocol, q: Protocol, job: nat) {
    && q.jobs.Keys == p.jobs.Keys && (forall j :: j in p.jobs && j != job ==> q.jobs[j] == p.jobs[j])
    && q.inbox == p.inbox && q.closed == p.closed && q.stopped == p.stopped
  }

  lemma OwnStepOnly(p: Protocol, step: Step)
    requires Enabled(p, step) && (Moves(step) || Ends(step))
    ensures OnlyJob(p, Next(p, step), step.job)
  {
    hide Cancelled, Queued;
  }

  /** From every state the protocol can be in, a job it has received can be answered, whatever
      the others do not do. */
  lemma {:induction false} JobIsAnswered(p: Protocol, job: nat) returns (steps: seq<Step>, q: Protocol)
    requires Fits(p) && job in p.jobs
    ensures Runs(p, steps, q) && Fits(q) && OnlyJob(p, q, job)
    ensures q.jobs[job].phase.Responded?
    decreases Rank(p.jobs[job].phase)
  {
    hide Fits, Enabled, Next;
    if p.jobs[job].phase.Responded? {
      return [], p;
    }
    JobCanMove(p, job);
    var step := OwnStep(p, job);
    RankFalls(p, step, job);
    FitsStep(p, step);
    OwnStepOnly(p, step);
    OneStep(p, step);
    var rest;
    rest, q := JobIsAnswered(Next(p, step), job);
    Concat(p, [step], Next(p, step), rest, q);
    steps := [step] + rest;
  }

  ghost function Unanswered(p: Protocol): set<nat> {
    set j | j in p.jobs && !p.jobs[j].phase.Responded?
  }

  lemma {:induction false} AllAnswered(p: Protocol) returns (steps: seq<Step>, q: Protocol)
    requires Fits(p)
    ensures Runs(p, steps, q) && Fits(q) && q.jobs.Keys == p.jobs.Keys && q.inbox == p.inbox
    ensures q.closed == p.closed && q.stopped == p.stopped && Unanswered(q) == {}
    decreases |Unanswered(p)|
  {
    hide Fits, Enabled, Next;
    if Unanswered(p) == {} {
      return [], p;
    }
    var j :| j in Unanswered(p);
    var first, mid := JobIsAnswered(p, j);
    assert Unanswered(mid) == Unanswered(p) - {j};
    var rest;
    rest, q := AllAnswered(mid);
    Concat(p, first, mid, rest, q);
    steps := first + rest;
  }

  lemma TakeShape(p: Protocol)
    requires Enabled(p, Take)
    ensures var q := Next(p, Take);
            && q.inbox == p.inbox[1..] && q.closed == p.closed && q.stopped == p.stopped
            && q.jobs.Keys == p.jobs.Keys + {p.inbox[0].0}
  {
    hide Registered;
  }

  lemma {:induction false} InboxTaken(p: Protocol) returns (steps: seq<Step>, q: Protocol)
    requires Fits(p) && !p.stopped
    ensures Runs(p, steps, q) && Fits(q) && q.inbox == [] && q.closed == p.closed && !q.stopped
    ensures q.jobs.Keys == p.jobs.Keys + set i | 0 <= i < |p.inbox| :: p.inbox[i].0
    decreases |p.inbox|
  {
    hide Fits, Next;
    if p.inbox == [] {
      return [], p;
    }
    TakeShape(p);
    FitsStep(p, Take);
    OneStep(p, Take);
    var rest;
    rest, q := InboxTaken(Next(p, Take));
    Concat(p, [Take], Next(p, Take), rest, q);
    steps := [Take] + rest;
    InboxKeys(p.inbox);
  }

  lemma InboxKeys(inbox: seq<(nat, string)>)
    requires inbox != []
    ensures (set i | 0 <= i < |inbox| :: inbox[i].0) == {inbox[0].0} + set i | 0 <= i < |inbox[1..]| :: inbox[1..][i].0
  {
    var rest := inbox[1..];
    forall i | 0 < i < |inbox| ensures inbox[i].0 in set k | 0 <= k < |rest| :: rest[k].0 {
      assert rest[i - 1] == inbox[i];
    }
    forall i | 0 <= i < |rest| ensures rest[i].0 in set k | 0 <= k < |inbox| :: inbox[k].0 {
      assert rest[i] == inbox[i + 1];
    }
  }

  /** How many responses a job has had. */
  function ResponsesTo(job: nat, responses: seq<(nat, Outcome)>): nat {
    if responses == [] then 0
    else ResponsesTo(job, responses[..|responses| - 1]) + if responses[|responses| - 1].0 == job then 1 else 0
  }

  lemma {:induction false} ResponseCount(job: nat, responses: seq<(nat, Outcome)>)
    requires forall i, j :: 0 <= i < j < |responses| ==> responses[i].0 != responses[j].0
    ensures ResponsesTo(job, responses) == if exists i :: 0 <= i < |responses| && responses[i].0 == job then 1 else 0
  {
    if responses != [] {
      var before, last := responses[..|responses| - 1], |responses| - 1;
      ResponseCount(job, before);
      assert forall i :: 0 <= i < last ==> before[i] == responses[i];
    }
  }

  /** In every state of every run: a job has at most one response, it has one exactly if it is
      answered, and until then it can step towards it. */
  lemma OneResponse(steps: seq<Step>, p: Protocol, job: nat)
    requires Runs(START, steps, p) && job in p.jobs
    ensures ResponsesTo(job, p.responses) == if p.jobs[job].phase.Responded? then 1 else 0
    ensures !p.jobs[job].phase.Responded? ==> job in p.wires.slots && Enabled(p, OwnStep(p, job))
  {
    RunsFit(START, steps, p);
    ResponseCount(job, p.responses);
    if !p.jobs[job].phase.Responded? {
      JobCanMove(p, job);
    }
    hide JobFits, EntryFits, InboxFits, StopFits, OwnStep, Enabled;
  }

  /** Exactly one outcome: every run extends to one that stops, and there every job that was
      sent or received, before or since, has been answered exactly once. */
  lemma EveryRunCanFinish(steps: seq<Step>, p: Protocol) returns (more: seq<Step>, q: Protocol)
    requires Runs(START, steps, p)
    ensures Runs(START, steps + more, q) && q.stopped && q.inbox == []
    ensures p.jobs.Keys <= q.jobs.Keys && forall i :: 0 <= i < |p.inbox| ==> p.inbox[i].0 in q.jobs
    ensures forall j :: j in q.jobs ==> q.jobs[j].phase.Responded? && ResponsesTo(j, q.responses) == 1
  {
    RunsFit(START, steps, p);
    hide Fits, Runs, Next;
    more, q := Finishing(p);
    Concat(START, steps, p, more, q);
    forall j | j in q.jobs ensures q.jobs[j].phase.Responded? && ResponsesTo(j, q.responses) == 1 {
      StoppedAnswered(q, j);
      OneResponse(steps + more, q, j);
    }
  }

  lemma StoppedAnswered(q: Protocol, j: nat)
    requires Fits(q) && q.stopped && j in q.jobs
    ensures q.jobs[j].phase.Responded?
  {
    hide JobFits, EntryFits, InboxFits, ResponsesFit;
  }

  lemma Finishing(p: Protocol) returns (more: seq<Step>, q: Protocol)
    requires Fits(p)
    ensures Runs(p, more, q) && Fits(q) && q.stopped && q.inbox == []
    ensures p.jobs.Keys <= q.jobs.Keys && forall i :: 0 <= i < |p.inbox| ==> p.inbox[i].0 in q.jobs
  {
    hide Fits, Runs;
    if p.stopped {
      StoppedEmpty(p);
      RunsNothing(p);
      return [], p;
    }
    var closed := Next(p, CloseInbox);
    FitsStep(p, CloseInbox);
    OneStep(p, CloseInbox);
    var takes, taken := InboxTaken(closed);
    Concat(p, [CloseInbox], closed, takes, taken);
    var answers, answered := AllAnswered(taken);
    Concat(p, [CloseInbox] + takes, taken, answers, answered);
    assert Enabled(answered, Stop) by {
      forall j | j in answered.jobs ensures answered.jobs[j].phase.Responded? {
        assert j !in Unanswered(answered);
      }
    }
    FitsStep(answered, Stop);
    OneStep(answered, Stop);
    q := Next(answered, Stop);
    Concat(p, [CloseInbox] + takes + answers, answered, [Stop], q);
    more := [CloseInbox] + takes + answers + [Stop];
  }

  lemma StoppedEmpty(p: Protocol)
    requires Fits(p) && p.stopped
    ensures p.inbox == []
  {
    hide JobFits, EntryFits, InboxFits, ResponsesFit;
  }

  lemma RunsNothing(p: Protocol)
    ensures Runs(p, [], p)
  {
  }

  // ---------------------------------------------------------------- a receipt that is lost

  /** A protocol with one job, taken from the inbox. */
  function Lone(digest: string, phase: Phase, pending: map<string, nat>, slot: Slot,
                completions: map<nat, Completion>): Protocol {
    Protocol([], false, false, map[0 := Job(digest, phase)], Wires(pending, map[0 := slot]), [], completions)
  }

  lemma LoneTaken(digest: string)
    ensures Enabled(START, Enqueue(0, digest)) && Enabled(Next(START, Enqueue(0, digest)), Take)
    ensures Next(Next(START, Enqueue(0, digest)), Take) == Lone(digest, Sending, map[digest := 0], Empty, map[])
  {
    assert Next(START, Enqueue(0, digest)).inbox[1..] == [];
  }

  lemma LoneWaits(digest: string)
    ensures var pending := map[digest := 0];
            var sending := Lone(digest, Sending, pending, Empty, map[]);
            var waiting := Lone(digest, Waiting, pending, Empty, map[]);
            && Enabled(sending, MempoolOk(0)) && Next(sending, MempoolOk(0)) == waiting
            && Enabled(waiting, PollElapsed(0))
            && Next(waiting, PollElapsed(0)) == Lone(digest, Expiring, pending, Empty, map[])
  {
    hide Queued;
  }

  lemma LoneCompleted(digest: string, receipt: Receipt)
    ensures Next(Lone(digest, Expiring, map[digest := 0], Empty, map[]), Complete(digest, receipt))
         == Lone(digest, Expiring, map[], Full(receipt), map[0 := Completion(digest, receipt, Expiring)])
  {
    assert map[digest := 0] - {digest} == map[];
  }

  lemma LoneExpires(digest: string, receipt: Receipt, completions: map<nat, Completion>)
    ensures var full := Lone(digest, Expiring, map[], Full(receipt), completions);
            var expired := Lone(digest, Expired, map[], Closed, completions);
            && Enabled(full, DropReceiver(0)) && Next(full, DropReceiver(0)) == expired
            && Enabled(expired, CancelExpired(0))
            && Next(expired, CancelExpired(0)) == Lone(digest, Finished(TimedOut), map[], Closed, completions)
  {
    hide Queued;
  }

  /** The window exists: a receipt completed after the last poll is lost to a job that times out. */
  lemma ReceiptCanBeLost(digest: string, receipt: Receipt) returns (steps: seq<Step>, p: Protocol)
    ensures Runs(START, steps, p)
    ensures 0 in p.jobs && p.jobs[0] == Job(digest, Finished(TimedOut))
    ensures 0 in p.completions && p.completions[0] == Completion(digest, receipt, Expiring)
  {
    LoneTaken(digest);
    LoneWaits(digest);
    LoneCompleted(digest, receipt);
    LoneExpires(digest, receipt, map[0 := Completion(digest, receipt, Expiring)]);
    hide Runs, Next, Enabled;
    steps := [Enqueue(0, digest)];
    OneStep(START, Enqueue(0, digest));
    steps, p := Then(steps, Next(START, Enqueue(0, digest)), Take);
    steps, p := Then(steps, p, MempoolOk(0));
    steps, p := Then(steps, p, PollElapsed(0));
    assert Enabled(p, Complete(digest, receipt)) by { CanComplete(p, digest, receipt); }
    steps, p := Then(steps, p, Complete(digest, receipt));
    steps, p := Then(steps, p, DropReceiver(0));
    steps, p := Then(steps, p, CancelExpired(0));
  }

  lemma CanComplete(p: Protocol, digest: string, receipt: Receipt)
    ensures Enabled(p, Complete(digest, receipt))
  {
  }

  lemma Then(steps: seq<Step>, p: Protocol, step: Step) returns (more: seq<Step>, q: Protocol)
    requires Runs(START, steps, p) && Enabled(p, step)
    ensures Runs(START, more, q) && q == Next(p, step)
  {
    hide Runs;
    OneStep(p, step);
    Concat(START, steps, p, [step], Next(p, step));
    more, q := steps + [step], Next(p, step);
  }

  // ---------------------------------------------------------------- blocks and waiters

  /** In every reachable state the registry keeps the channels of different digests apart. */
  lemma FitsSeparate(p: Protocol)
    requires Fits(p)
    ensures Separate(p.wires)
  {
    hide JobFits, InboxFits, ResponsesFit, StopFits;
    var pending := p.wires.pending;
    forall d, e | d in pending && e in pending && pending[d] == pending[e] ensures d == e {
      assert EntryFits(p, d) && EntryFits(p, e);
    }
  }

  /** A block that holds the transaction of a job still waiting puts its first receipt into the
      job's channel; other blocks leave it empty. */
  lemma BlockReachesJob(steps: seq<Step>, p: Protocol, job: nat, txs: seq<ProcessBlock.TxResult>)
    requires Runs(START, steps, p) && job in p.jobs && job in p.wires.slots && p.wires.slots[job].Empty?
    requires p.jobs[job].phase.Sending? || p.jobs[job].phase.Waiting?
    ensures var w := ProcessBlock.ReceiptsDelivered(p.wires, txs);
            && job in w.slots
            && w.slots[job] == (match ProcessBlock.FirstReceipt(txs, p.jobs[job].digest)
                                case Some(receipt) => Full(receipt)
                                case None => Empty)
  {
    RunsFit(START, steps, p);
    FitsSeparate(p);
    assert JobFits(p, job);
    hide EntryFits, InboxFits, ResponsesFit, StopFits;
    ProcessBlock.ReceiptsReachWaiters(p.wires, txs, p.jobs[job].digest);
  }

  // ---------------------------------------------------------------- why a job ended as it did

  function OutcomeOf(p: Protocol, job: nat): Option<Outcome> {
    if job in p.jobs && Over(p.jobs[job].phase) then Some(p.jobs[job].phase.outcome) else None
  }

  /** The one step that ends a job with such an outcome. */
  function EndingStep(job: nat, outcome: Outcome): Step {
    match outcome
    case Delivered(_, _) => PollReceipt(job)
    case MempoolFailed => MempoolErr(job)
    case WaiterDropped => PollDropped(job)
    case TimedOut => CancelExpired(job)
  }

  predicate EndsJob(step: Step, job: nat) {
    Ends(step) && step.job == job
  }

  lemma OutcomeStep(p: Protocol, step: Step, job: nat)
    requires Fits(p) && Enabled(p, step)
    ensures var was, now := OutcomeOf(p, job), OutcomeOf(Next(p, step), job);
            if EndsJob(step, job) then was.None? && now.Some? && EndingStep(job, now.value) == step else now == was
  {
    hide JobFits, EntryFits, ResponsesFit, StopFits, Queued, Registered, Completed, Cancelled;
  }

  /** In every run the outcome of a job names the step that ended it: it failed in the mempool
      exactly if the mempool refused it, timed out exactly if its timer did, and so on; it has no
      outcome exactly if no such step has happened. */
  lemma {:induction false} OutcomeExact(p: Protocol, steps: seq<Step>, q: Protocol, job: nat)
    requires Fits(p) && OutcomeOf(p, job).None? && Runs(p, steps, q)
    ensures var now := OutcomeOf(q, job);
            && (forall step :: step in steps && EndsJob(step, job) ==>
                  now.Some? && step == EndingStep(job, now.value))
            && (now.Some? ==> EndingStep(job, now.value) in steps)
    decreases |steps|
  {
    hide Fits, Next, Enabled, EndsJob;
    if steps != [] {
      FitsStep(p, steps[0]);
      OutcomeStep(p, steps[0], job);
      if EndsJob(steps[0], job) {
        OutcomeStays(Next(p, steps[0]), steps[1..], q, job);
      } else {
        OutcomeExact(Next(p, steps[0]), steps[1..], q, job);
      }
    }
  }

  lemma {:induction false} OutcomeStays(p: Protocol, steps: seq<Step>, q: Protocol, job: nat)
    requires Fits(p) && OutcomeOf(p, job).Some? && Runs(p, steps, q)
    ensures OutcomeOf(q, job) == OutcomeOf(p, job)
    ensures forall step :: step in steps ==> !EndsJob(step, job)
    decreases |steps|
  {
    hide Fits, Next, Enabled, EndsJob, OutcomeOf;
    if steps != [] {
      FitsStep(p, steps[0]);
      OutcomeStep(p, steps[0], job);
      OutcomeStays(Next(p, steps[0]), steps[1..], q, job);
    }
  }
}
