/** The submit protocol: dispatcher, waiting jobs, mempool, timer and block processing, one
    atomic step at a time and in any order. */
module SubmitQueue {
  import opened Machine
  import opened SubmitWait

  datatype Outcome = Delivered(digest: string, receipt: Receipt) | MempoolFailed | WaiterDropped | TimedOut

  /** Expiring: the last poll found no receipt and the timer has run out, but the receiver
      still exists. Expired: the receiver is gone, the entry not yet cancelled. */
  datatype Phase = Sending | Waiting | Expiring | Expired | Finished(outcome: Outcome) | Responded(outcome: Outcome)

  datatype Job = Job(digest: string, phase: Phase)

  /** A call of `complete` that returned true for a job, and the job's phase at that moment. */
  datatype Completion = Completion(digest: string, receipt: Receipt, during: Phase)

  datatype Protocol = Protocol(
    inbox: seq<(nat, string)>,
    closed: bool,
    stopped: bool,
    jobs: map<nat, Job>,
    wires: Wires,
    responses: seq<(nat, Outcome)>,
    completions: map<nat, Completion>)

  const START := Protocol([], false, false, map[], Wires(map[], map[]), [], map[])

  datatype Step =
    | Enqueue(job: nat, digest: string)
    | CloseInbox
    | Take
    | MempoolOk(job: nat)
    | MempoolErr(job: nat)
    | PollReceipt(job: nat)
    | PollDropped(job: nat)
    | PollElapsed(job: nat)
    | DropReceiver(job: nat)
    | CancelExpired(job: nat)
    | Respond(job: nat)
    | Stop
    | Complete(digest: string, receipt: Receipt)

  predicate InPhase(p: Protocol, job: nat, phase: Phase) {
    job in p.jobs && p.jobs[job].phase == phase
  }

  predicate SlotIs(p: Protocol, job: nat, slot: Slot) {
    job in p.wires.slots && p.wires.slots[job] == slot
  }

  predicate Queued(p: Protocol, job: nat) {
    exists i :: 0 <= i < |p.inbox| && p.inbox[i].0 == job
  }

  predicate Enabled(p: Protocol, step: Step) {
    match step
    case Enqueue(job, _) => !p.closed && job !in p.jobs && !Queued(p, job)
    case CloseInbox => true
    case Take => !p.stopped && p.inbox != []
    case MempoolOk(job) => InPhase(p, job, Sending)
    case MempoolErr(job) => InPhase(p, job, Sending)
    case PollReceipt(job) => InPhase(p, job, Waiting) && job in p.wires.slots && p.wires.slots[job].Full?
    case PollDropped(job) => InPhase(p, job, Waiting) && SlotIs(p, job, Dropped)
    case PollElapsed(job) => InPhase(p, job, Waiting) && SlotIs(p, job, Empty)
    case DropReceiver(job) => InPhase(p, job, Expiring)
    case CancelExpired(job) => InPhase(p, job, Expired)
    case Respond(job) => job in p.jobs && p.jobs[job].phase.Finished?
    case Stop => !p.stopped && p.closed && p.inbox == [] && forall j :: j in p.jobs ==> p.jobs[j].phase.Responded?
    case Complete(_, _) => true
  }

  function InNewPhase(p: Protocol, job: nat, phase: Phase): Protocol
    requires job in p.jobs
  {
    p.(jobs := p.jobs[job := p.jobs[job].(phase := phase)])
  }

  /** A job that returns drops its receiver. */
  function Ended(p: Protocol, job: nat, outcome: Outcome, wires: Wires): Protocol
    requires job in p.jobs
  {
    InNewPhase(p, job, Finished(outcome)).(wires := wires.(slots := wires.slots[job := Closed]))
  }

  function Next(p: Protocol, step: Step): Protocol
    requires Enabled(p, step)
  {
    match step
    case Enqueue(job, digest) => p.(inbox := p.inbox + [(job, digest)])
    case CloseInbox => p.(closed := true)
    case Take =>
      var (job, digest) := p.inbox[0];
      p.(inbox := p.inbox[1..], jobs := p.jobs[job := Job(digest, Sending)],
         wires := Registered(p.wires, digest, job))
    case MempoolOk(job) => InNewPhase(p, job, Waiting)
    case MempoolErr(job) => Ended(p, job, MempoolFailed, Cancelled(p.wires, p.jobs[job].digest))
    case PollReceipt(job) => Ended(p, job, Delivered(p.jobs[job].digest, p.wires.slots[job].receipt), p.wires)
    case PollDropped(job) => Ended(p, job, WaiterDropped, Cancelled(p.wires, p.jobs[job].digest))
    case PollElapsed(job) => InNewPhase(p, job, Expiring)
    case DropReceiver(job) =>
      InNewPhase(p, job, Expired).(wires := p.wires.(slots := p.wires.slots[job := Closed]))
    case CancelExpired(job) => Ended(p, job, TimedOut, Cancelled(p.wires, p.jobs[job].digest))
    case Respond(job) =>
      var outcome := p.jobs[job].phase.outcome;
      InNewPhase(p, job, Responded(outcome)).(responses := p.responses + [(job, outcome)])
    case Stop => p.(stopped := true)
    case Complete(digest, receipt) =>
      var (wires, delivered) := Completed(p.wires, digest, receipt);
      if delivered && p.wires.pending[digest] in p.jobs then
        var job := p.wires.pending[digest];
        p.(wires := wires, completions := p.completions[job := Completion(digest, receipt, p.jobs[job].phase)])
      else p.(wires := wires)
  }

  ghost predicate Runs(p: Protocol, steps: seq<Step>, q: Protocol)
    decreases |steps|
  {
    if steps == [] then p == q
    else Enabled(p, steps[0]) && Runs(Next(p, steps[0]), steps[1..], q)
  }

  // ---------------------------------------------------------------- the invariant

  predicate Over(phase: Phase) {
    phase.Finished? || phase.Responded?
  }

  /** The sender of this job's channel is still pending. */
  predicate Pending(p: Protocol, job: nat, digest: string) {
    digest in p.wires.pending && p.wires.pending[digest] == job
  }

  /** The receipt that reached the job in time, that is before its last poll. */
  function InTime(p: Protocol, job: nat): Option<Receipt> {
    if job in p.completions && !p.completions[job].during.Expiring? then Some(p.completions[job].receipt) else None
  }

  predicate Settled(p: Protocol, job: nat, digest: string, outcome: Outcome) {
    match outcome
    case Delivered(d, receipt) => d == digest && InTime(p, job) == Some(receipt)
    case MempoolFailed => true
    case WaiterDropped => job !in p.completions
    case TimedOut => InTime(p, job) == None
  }

  predicate JobFits(p: Protocol, job: nat)
    requires job in p.jobs
  {
    var Job(digest, phase) := p.jobs[job];
    && job in p.wires.slots
    && (job in p.completions ==> p.completions[job].digest == digest)
    && var slot := p.wires.slots[job];
       match phase
       case Sending => JobAwaits(p, job, digest, slot)
       case Waiting => JobAwaits(p, job, digest, slot)
       case Expiring => (slot.Empty? ==> Pending(p, job, digest)) && !slot.Closed? && InTime(p, job) == None
       case Expired => slot.Closed? && InTime(p, job) == None
       case Finished(outcome) => slot.Closed? && Settled(p, job, digest, outcome)
       case Responded(outcome) => slot.Closed? && Settled(p, job, digest, outcome)
  }

  predicate JobAwaits(p: Protocol, job: nat, digest: string, slot: Slot) {
    && (slot.Empty? ==> Pending(p, job, digest)) && !slot.Closed?
    && (if slot.Full? then InTime(p, job) == Some(slot.receipt) else job !in p.completions)
  }

  /** An entry belongs to a job of that digest that has not returned yet. */
  predicate EntryFits(p: Protocol, digest: string)
    requires digest in p.wires.pending
  {
    var job := p.wires.pending[digest];
    && job in p.jobs && p.jobs[job].digest == digest && !Over(p.jobs[job].phase)
    && job in p.wires.slots && (p.wires.slots[job].Empty? || p.wires.slots[job].Closed?)
  }

  predicate InboxFits(p: Protocol) {
    && (forall i :: 0 <= i < |p.inbox| ==> p.inbox[i].0 !in p.jobs)
    && (forall i, j :: 0 <= i < j < |p.inbox| ==> p.inbox[i].0 != p.inbox[j].0)
    && (forall j :: j in p.completions ==> j in p.jobs)
    && (forall j :: j in p.wires.slots ==> j in p.jobs)
  }

  /** Each responded job has exactly one response, with its outcome. */
  predicate ResponsesFit(p: Protocol) {
    && (forall i :: 0 <= i < |p.responses| ==>
          InPhase(p, p.responses[i].0, Responded(p.responses[i].1)))
    && (forall i, j :: 0 <= i < j < |p.responses| ==> p.responses[i].0 != p.responses[j].0)
    && (forall j :: j in p.jobs && p.jobs[j].phase.Responded? ==> (j, p.jobs[j].phase.outcome) in p.responses)
  }

  predicate StopFits(p: Protocol) {
    p.stopped ==> p.closed && p.inbox == [] && forall j :: j in p.jobs ==> p.jobs[j].phase.Responded?
  }

  ghost predicate Fits(p: Protocol) {
    && (forall j :: j in p.jobs ==> JobFits(p, j))
    && (forall d :: d in p.wires.pending ==> EntryFits(p, d))
    && InboxFits(p) && ResponsesFit(p) && StopFits(p)
  }

  // The steps in four groups, so that each proof sees only one kind of change.

  predicate Quiet(step: Step) {
    step.Enqueue? || step.CloseInbox? || step.Stop?
  }

  predicate Moves(step: Step) {
    step.MempoolOk? || step.PollElapsed? || step.DropReceiver? || step.Respond?
  }

  predicate Ends(step: Step) {
    step.MempoolErr? || step.PollReceipt? || step.PollDropped? || step.CancelExpired?
  }

  /** A job that ends closes its channel, and drops at most the sender under its digest. */
  lemma EndedWires(p: Protocol, step: Step)
    requires Enabled(p, step) && Ends(step)
    ensures var q, w, digest := Next(p, step), p.wires, p.jobs[step.job].digest;
            && q.jobs == p.jobs[step.job := q.jobs[step.job]] && q.completions == p.completions
            && q.wires.pending == (if step.PollReceipt? then w.pending else w.pending - {digest})
            && step.job in q.wires.slots && q.wires.slots[step.job].Closed?
            && (forall j :: j in w.slots && j != step.job ==>
                  && j in q.wires.slots
                  && (q.wires.slots[j] == w.slots[j]
                      || (q.wires.slots[j].Dropped? && w.slots[j].Empty? && digest in w.pending
                          && w.pending[digest] == j))
                  && (q.wires.slots[j].Empty? && digest in w.pending && w.pending[digest] == j ==> step.PollReceipt?))
  {
    hide Queued;
  }

  /** Between taking a job and its end, only a timeout touches its channel. */
  lemma MovedWires(p: Protocol, step: Step)
    requires Enabled(p, step) && Moves(step)
    ensures var q := Next(p, step);
            && q.jobs == p.jobs[step.job := q.jobs[step.job]] && q.completions == p.completions
            && q.wires.pending == p.wires.pending
            && q.wires.slots == if step.DropReceiver? then p.wires.slots[step.job := Closed] else p.wires.slots
  {
    hide Queued;
  }

  lemma JobMoves(p: Protocol, step: Step, j: nat)
    requires Fits(p) && Enabled(p, step) && Moves(step) && j in p.jobs
    ensures JobFits(Next(p, step), j)
  {
    hide ResponsesFit, StopFits, InboxFits, EntryFits, Queued;
    MovedWires(p, step);
    assert JobFits(p, j);
    if j != step.job {
      hide Next, Enabled;
    }
  }

  lemma JobStays(p: Protocol, step: Step, j: nat)
    requires Fits(p) && Enabled(p, step) && Quiet(step) && j in p.jobs
    ensures JobFits(Next(p, step), j)
  {
    hide ResponsesFit, StopFits, InboxFits, EntryFits, Queued;
    assert JobFits(p, j);
  }

  lemma JobEnds(p: Protocol, step: Step)
    requires Fits(p) && Enabled(p, step) && Ends(step)
    ensures JobFits(Next(p, step), step.job)
  {
    hide ResponsesFit, StopFits, InboxFits, EntryFits, Queued;
    assert JobFits(p, step.job);
  }

  lemma OtherJobEnds(p: Protocol, step: Step, j: nat)
    requires Fits(p) && Enabled(p, step) && Ends(step) && j in p.jobs && j != step.job
    ensures JobFits(Next(p, step), j)
  {
    hide ResponsesFit, StopFits, InboxFits, EntryFits, Queued, Next, Enabled;
    EndedWires(p, step);
    assert JobFits(p, j);
  }

  lemma JobTaken(p: Protocol, j: nat)
    requires Fits(p) && Enabled(p, Take) && j in Next(p, Take).jobs
    ensures JobFits(Next(p, Take), j)
  {
    hide ResponsesFit, StopFits, EntryFits, Queued;
    if j in p.jobs {
      assert JobFits(p, j);
    }
  }

  lemma JobCompleted(p: Protocol, step: Step, j: nat)
    requires Fits(p) && step.Complete? && j in p.jobs
    ensures JobFits(Next(p, step), j)
  {
    hide ResponsesFit, StopFits, InboxFits, Queued;
    assert JobFits(p, j);
    if step.digest in p.wires.pending {
      assert EntryFits(p, step.digest);
      if p.wires.pending[step.digest] != j {
        BystanderCompleted(p, step, j);
      }
    }
  }

  /** Completing one job's channel leaves the others as they are. */
  lemma BystanderCompleted(p: Protocol, step: Step, j: nat)
    requires step.Complete? && j in p.jobs && JobFits(p, j)
    requires step.digest in p.wires.pending && p.wires.pending[step.digest] != j
    ensures JobFits(Next(p, step), j)
  {
    var q := Next(p, step);
    assert q.jobs == p.jobs && InTime(q, j) == InTime(p, j);
    assert j in p.wires.slots && q.wires.slots[j] == p.wires.slots[j];
    assert Pending(p, j, p.jobs[j].digest) ==> Pending(q, j, p.jobs[j].digest);
    assert j in q.completions <==> j in p.completions;
    hide Next, Completed;
  }

  lemma EntryMoves(p: Protocol, step: Step, d: string)
    requires Fits(p) && Enabled(p, step) && (Quiet(step) || Moves(step)) && d in p.wires.pending
    ensures EntryFits(Next(p, step), d)
  {
    hide ResponsesFit, StopFits, InboxFits, JobFits, Queued;
    assert EntryFits(p, d);
  }

  lemma EntryEnds(p: Protocol, step: Step, d: string)
    requires Fits(p) && Enabled(p, step) && Ends(step) && d in Next(p, step).wires.pending
    ensures EntryFits(Next(p, step), d)
  {
    hide ResponsesFit, StopFits, InboxFits, JobFits, Queued;
    EndedWires(p, step);
    hide Cancelled;
    assert EntryFits(p, d);
  }

  lemma EntryTaken(p: Protocol, d: string)
    requires Fits(p) && Enabled(p, Take) && d in Next(p, Take).wires.pending
    ensures EntryFits(Next(p, Take), d)
  {
    hide ResponsesFit, StopFits, JobFits, Queued;
    if d in p.wires.pending {
      assert EntryFits(p, d);
      if p.inbox[0].1 in p.wires.pending {
        assert EntryFits(p, p.inbox[0].1);
      }
    }
  }

  lemma EntryCompleted(p: Protocol, step: Step, d: string)
    requires Fits(p) && step.Complete? && d in Next(p, step).wires.pending
    ensures EntryFits(Next(p, step), d)
  {
    hide ResponsesFit, StopFits, InboxFits, JobFits, Queued;
    assert EntryFits(p, d);
    if step.digest in p.wires.pending {
      assert EntryFits(p, step.digest);
    }
  }

  lemma WiresStep(p: Protocol, step: Step)
    requires Fits(p) && Enabled(p, step)
    ensures forall j :: j in Next(p, step).jobs ==> JobFits(Next(p, step), j)
    ensures forall d :: d in Next(p, step).wires.pending ==> EntryFits(Next(p, step), d)
  {
    var q := Next(p, step);
    StepShape(p, step);
    hide Fits, Next, Enabled, JobFits, EntryFits;
    forall j | j in q.jobs ensures JobFits(q, j) {
      if step.Take? { JobTaken(p, j); }
      else if step.Complete? { JobCompleted(p, step, j); }
      else if Ends(step) && j == step.job { JobEnds(p, step); }
      else if Ends(step) { OtherJobEnds(p, step, j); }
      else if Moves(step) { JobMoves(p, step, j); }
      else { JobStays(p, step, j); }
    }
    forall d | d in q.wires.pending ensures EntryFits(q, d) {
      if step.Take? { EntryTaken(p, d); }
      else if step.Complete? { EntryCompleted(p, step, d); }
      else if Ends(step) { EntryEnds(p, step, d); }
      else { EntryMoves(p, step, d); }
    }
  }

  lemma StepShape(p: Protocol, step: Step)
    requires Fits(p) && Enabled(p, step)
    ensures !step.Take? ==> Next(p, step).jobs.Keys == p.jobs.Keys
    ensures Quiet(step) || Moves(step) ==> Next(p, step).wires.pending == p.wires.pending
  {
    hide JobFits, EntryFits, ResponsesFit, StopFits, InboxFits, Queued;
  }

  lemma InboxStep(p: Protocol, step: Step)
    requires Fits(p) && Enabled(p, step)
    ensures InboxFits(Next(p, step))
  {
    hide JobFits, EntryFits, ResponsesFit, StopFits;
  }

  lemma ResponseAdded(p: Protocol, job: nat)
    requires ResponsesFit(p) && Enabled(p, Respond(job))
    ensures ResponsesFit(Next(p, Respond(job)))
  {
    hide Queued;
  }

  lemma ResponsesKept(p: Protocol, step: Step)
    requires Fits(p) && Enabled(p, step) && !step.Respond?
    ensures Next(p, step).responses == p.responses
    ensures forall j :: j in p.jobs && p.jobs[j].phase.Responded? ==>
              j in Next(p, step).jobs && Next(p, step).jobs[j] == p.jobs[j]
    ensures forall j :: j in Next(p, step).jobs && Next(p, step).jobs[j].phase.Responded? ==>
              j in p.jobs && p.jobs[j].phase.Responded?
  {
    hide JobFits, EntryFits, StopFits, ResponsesFit, Queued, Cancelled, Registered, Completed, SlotIs;
    if step.Take? {
      assert p.inbox[0].0 !in p.jobs;
    } else {
      OneJobMoves(p, step);
      hide Next, Enabled;
    }
  }

  /** Apart from taking a job in, a step changes the phase of at most one job. */
  lemma OneJobMoves(p: Protocol, step: Step)
    requires Enabled(p, step) && !step.Take? && !step.Respond?
    ensures Next(p, step).responses == p.responses && Next(p, step).jobs.Keys == p.jobs.Keys
    ensures forall j :: j in p.jobs && Next(p, step).jobs[j] != p.jobs[j] ==>
              !p.jobs[j].phase.Responded? && !Next(p, step).jobs[j].phase.Responded?
  {
    hide Queued, Cancelled, Registered, Completed, SlotIs;
  }

  lemma ResponsesStep(p: Protocol, step: Step)
    requires Fits(p) && Enabled(p, step)
    ensures ResponsesFit(Next(p, step))
  {
    if step.Respond? {
      ResponseAdded(p, step.job);
    } else {
      ResponsesKept(p, step);
      hide Next, JobFits, EntryFits, StopFits, InboxFits;
    }
  }

  lemma StopStep(p: Protocol, step: Step)
    requires Fits(p) && Enabled(p, step)
    ensures StopFits(Next(p, step))
  {
    hide JobFits, EntryFits, ResponsesFit, InboxFits, Queued, Cancelled, Registered, Completed;
  }

  lemma FitsStep(p: Protocol, step: Step)
    requires Fits(p) && Enabled(p, step)
    ensures Fits(Next(p, step))
  {
    hide JobFits, EntryFits, InboxFits, ResponsesFit, StopFits, Next, Enabled;
    WiresStep(p, step);
    InboxStep(p, step);
    ResponsesStep(p, step);
    StopStep(p, step);
  }

  lemma {:induction false} RunsFit(p: Protocol, steps: seq<Step>, q: Protocol)
    requires Fits(p) && Runs(p, steps, q)
    ensures Fits(q)
    decreases |steps|
  {
    hide Fits, Next, Enabled;
    if steps != [] {
      FitsStep(p, steps[0]);
      RunsFit(Next(p, steps[0]), steps[1..], q);
    }
  }

  /** Whatever the interleaving: no job is answered twice; a dispatcher that stopped has
      answered every job it received; a delivered receipt was completed under the job's own
      digest; and every registry entry belongs to a job of its digest still in progress. */
  lemma SubmitProtocol(steps: seq<Step>, p: Protocol)
    requires Runs(START, steps, p)
    ensures forall i, j :: 0 <= i < j < |p.responses| ==> p.responses[i].0 != p.responses[j].0
    ensures p.stopped ==> p.inbox == [] && forall j :: j in p.jobs ==> exists o :: (j, o) in p.responses
    ensures forall j, d, r :: (j, Delivered(d, r)) in p.responses ==>
              j in p.jobs && j in p.completions
              && p.jobs[j].digest == p.completions[j].digest == d && p.completions[j].receipt == r
    ensures forall d :: d in p.wires.pending ==>
              var j := p.wires.pending[d]; j in p.jobs && p.jobs[j].digest == d && !Over(p.jobs[j].phase)
  {
    RunsFit(START, steps, p);
    forall j, d, r | (j, Delivered(d, r)) in p.responses
      ensures j in p.jobs && j in p.completions
           && p.jobs[j].digest == p.completions[j].digest == d && p.completions[j].receipt == r
    {
      assert InPhase(p, j, Responded(Delivered(d, r)));
      assert JobFits(p, j);
    }
    hide JobFits, InboxFits;
  }

  /** A receipt that `complete` handed over reaches the submitter of an accepted transaction
      exactly when it did not fall between the last poll and the drop of the receiver. */
  lemma NoLostReceipt(steps: seq<Step>, p: Protocol, job: nat)
    requires Runs(START, steps, p)
    requires job in p.completions && job in p.jobs && Over(p.jobs[job].phase)
    requires p.jobs[job].phase.outcome != MempoolFailed
    ensures p.jobs[job].phase.outcome == Delivered(p.jobs[job].digest, p.completions[job].receipt)
       <==> !p.completions[job].during.Expiring?
  {
    RunsFit(START, steps, p);
    assert JobFits(p, job);
  }

  // ---------------------------------------------------------------- distinct digests

  /** No job is taken while another of the same digest is in progress. */
  ghost predicate FreshDigest(p: Protocol, step: Step) {
    step.Take? && p.inbox != [] ==>
      forall j :: j in p.jobs && p.jobs[j].digest == p.inbox[0].1 ==> Over(p.jobs[j].phase)
  }

  ghost predicate RunsFresh(p: Protocol, steps: seq<Step>, q: Protocol)
    decreases |steps|
  {
    if steps == [] then p == q
    else Enabled(p, steps[0]) && FreshDigest(p, steps[0]) && RunsFresh(Next(p, steps[0]), steps[1..], q)
  }

  ghost predicate Distinct(p: Protocol) {
    forall j, k :: (j in p.jobs && k in p.jobs && !Over(p.jobs[j].phase) && !Over(p.jobs[k].phase)
                    && p.jobs[j].digest == p.jobs[k].digest) ==> j == k
  }

  predicate Kept(p: Protocol, j: nat)
    requires j in p.jobs
  {
    if Over(p.jobs[j].phase) then p.jobs[j].phase.outcome != WaiterDropped else !SlotIs(p, j, Dropped)
  }

  ghost predicate Undropped(p: Protocol) {
    Distinct(p) && forall j :: j in p.jobs ==> Kept(p, j)
  }

  lemma DistinctStep(p: Protocol, step: Step)
    requires Distinct(p) && Enabled(p, step) && FreshDigest(p, step)
    ensures Distinct(Next(p, step))
  {
    hide Queued, Cancelled, Registered, Completed, SlotIs;
  }

  lemma KeptMoves(p: Protocol, step: Step, j: nat)
    requires Enabled(p, step) && (Quiet(step) || Moves(step) || step.Complete?) && j in p.jobs && Kept(p, j)
    ensures Kept(Next(p, step), j)
  {
    hide Queued;
  }

  lemma KeptEnds(p: Protocol, step: Step, j: nat)
    requires Fits(p) && Undropped(p) && Enabled(p, step) && Ends(step) && j in p.jobs
    ensures Kept(Next(p, step), j)
  {
    hide JobFits, ResponsesFit, StopFits, InboxFits, Queued;
    assert Kept(p, j) && Kept(p, step.job);
    if p.jobs[step.job].digest in p.wires.pending {
      assert EntryFits(p, p.jobs[step.job].digest);
    }
  }

  lemma KeptTaken(p: Protocol, j: nat)
    requires Fits(p) && Undropped(p) && Enabled(p, Take) && FreshDigest(p, Take) && j in Next(p, Take).jobs
    ensures Kept(Next(p, Take), j)
  {
    hide JobFits, ResponsesFit, StopFits, Queued;
    if j in p.jobs {
      assert Kept(p, j);
    }
    assert p.inbox[0].1 !in p.wires.pending;
  }

  lemma UndroppedStep(p: Protocol, step: Step)
    requires Fits(p) && Undropped(p) && Enabled(p, step) && FreshDigest(p, step)
    ensures Undropped(Next(p, step))
  {
    DistinctStep(p, step);
    StepShape(p, step);
    hide Fits, Next, Enabled, Kept, Distinct, FreshDigest;
    forall j | j in Next(p, step).jobs ensures Kept(Next(p, step), j) {
      if step.Take? { KeptTaken(p, j); }
      else if Ends(step) { KeptEnds(p, step, j); }
      else { KeptMoves(p, step, j); }
    }
  }

  /** While digests in progress are distinct, no waiter is ever dropped by another job. */
  lemma {:induction false} NoWaiterDropped(p: Protocol, steps: seq<Step>, q: Protocol)
    requires Fits(p) && Undropped(p) && RunsFresh(p, steps, q)
    ensures Undropped(q)
    decreases |steps|
  {
    hide Fits, Undropped, Next, Enabled, FreshDigest;
    if steps != [] {
      FitsStep(p, steps[0]);
      UndroppedStep(p, steps[0]);
      NoWaiterDropped(Next(p, steps[0]), steps[1..], q);
    }
  }
}
