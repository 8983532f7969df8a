/** One subscriber of one spot book: the server's history of changes, the forwarding task
    with its lag resync, the queue to the client and the client's replica. */
module Replication {
  import opened Machine
  import opened SpotBooks

  datatype Message = Snapshot(book: SpotBook) | Update(delta: Delta)

  datatype Outcome = Reset | Ignored | Stale | Applied | Gap

  function ApplyDelta(book: SpotBook, d: Delta): SpotBook {
    book.With(d.side, SetSize(book.On(d.side), d.price, d.size))
        .(sequence := d.sequence, lastTradePrice := OrElse(d.lastTradePrice, book.lastTradePrice))
  }

  /** The replica takes snapshots whole, drops deltas it has, applies only the next one. */
  function Receive(replica: Option<SpotBook>, m: Message): (Option<SpotBook>, Outcome) {
    match m
    case Snapshot(book) => (Some(book), Reset)
    case Update(d) =>
      if replica.None? then (None, Ignored)
      else if d.sequence <= replica.value.sequence then (replica, Stale)
      else if d.sequence == replica.value.sequence + 1 then (Some(ApplyDelta(replica.value, d)), Applied)
      else (replica, Gap)
  }

  function DeltaAt(log: seq<Change>, i: nat): Delta
    requires i < |log| && log[i].LevelChange?
  {
    DeltaOf(Replay(log[..i + 1]), log[i])
  }

  /** `resync` marks a lagged task that has not yet sent its snapshot. A spot without a history
      has no book, and no snapshot is sent for it. */
  datatype System = System(
    log: seq<Change>,
    subscribed: bool,
    cursor: nat,
    resync: bool,
    queue: seq<Message>,
    replica: Option<SpotBook>)

  datatype Step =
    | Serve(change: Change)
    | OpenSnapshot
    | Subscribe
    | Forward
    | Lag(to: nat)
    | Resync
    | Deliver

  ghost predicate Enabled(s: System, step: Step) {
    match step
    case Serve(_) => |s.log| < U64_MAX
    case OpenSnapshot => true
    case Subscribe => true
    case Forward => s.subscribed && !s.resync && s.cursor < |s.log|
    case Lag(to) => s.subscribed && !s.resync && s.cursor <= to <= |s.log|
    case Resync => s.resync
    case Deliver => s.queue != []
  }

  function Next(s: System, step: Step): System
    requires Enabled(s, step)
  {
    match step
    case Serve(change) => s.(log := s.log + [change])
    case OpenSnapshot => if s.log == [] then s else s.(replica := Receive(s.replica, Snapshot(Replay(s.log))).0)
    case Subscribe => s.(subscribed := true, cursor := |s.log|, resync := false)
    case Forward =>
      var sent := if s.log[s.cursor].LevelChange? then [Update(DeltaAt(s.log, s.cursor))] else [];
      s.(cursor := s.cursor + 1, queue := s.queue + sent)
    case Lag(to) => s.(cursor := to, resync := true)
    case Resync =>
      var snapshot := if s.log == [] then [] else [Snapshot(Replay(s.log))];
      s.(resync := false, queue := s.queue + snapshot)
    case Deliver => s.(queue := s.queue[1..], replica := Receive(s.replica, s.queue[0]).0)
  }

  const START := System([], false, 0, false, [], None)

  ghost predicate Runs(s: System, steps: seq<Step>, t: System)
    decreases |steps|
  {
    if steps == [] then s == t
    else Enabled(s, steps[0]) && Runs(Next(s, steps[0]), steps[1..], t)
  }

  // ---------------------------------------------------------------- exactness

  /** This is the server's book as it was at its own sequence number. */
  ghost predicate Historic(log: seq<Change>, book: SpotBook) {
    book.sequence <= |log| && book == Replay(log[..book.sequence])
  }

  ghost predicate Genuine(log: seq<Change>, m: Message) {
    match m
    case Snapshot(book) => Historic(log, book)
    case Update(d) =>
      1 <= d.sequence <= |log| && log[d.sequence - 1].LevelChange? && d == DeltaAt(log, d.sequence - 1)
  }

  ghost predicate Exact(s: System) {
    && |s.log| <= U64_MAX
    && s.cursor <= |s.log|
    && (forall i :: 0 <= i < |s.queue| ==> Genuine(s.log, s.queue[i]))
    && (s.replica.Some? ==> Historic(s.log, s.replica.value))
  }

  lemma {:induction false} SequenceCounts(log: seq<Change>)
    requires |log| <= U64_MAX
    ensures Replay(log).sequence == |log|
  {
    if log != [] {
      SequenceCounts(log[..|log| - 1]);
    }
  }

  lemma PrefixOfPrefix(log: seq<Change>, change: Change, n: nat)
    requires n <= |log|
    ensures (log + [change])[..n] == log[..n]
  {
  }

  lemma GenuineGrows(log: seq<Change>, change: Change, m: Message)
    requires Genuine(log, m)
    ensures Genuine(log + [change], m)
  {
    match m
    case Snapshot(book) => PrefixOfPrefix(log, change, book.sequence);
    case Update(d) => PrefixOfPrefix(log, change, d.sequence);
  }

  lemma NextBook(log: seq<Change>, i: nat)
    requires i < |log|
    ensures Replay(log[..i + 1]) == Apply(Replay(log[..i]), log[i])
  {
    assert log[..i + 1][..i] == log[..i];
  }

  /** The delta of change i takes the book before it to the book after it. */
  lemma DeltaAdvances(log: seq<Change>, i: nat)
    requires i < |log| <= U64_MAX && log[i].LevelChange?
    ensures DeltaAt(log, i).sequence == i + 1
    ensures ApplyDelta(Replay(log[..i]), DeltaAt(log, i)) == Replay(log[..i + 1])
  {
    NextBook(log, i);
    SequenceCounts(log[..i + 1]);
  }

  /** The changes before a delta that a replica at sequence `have` has not seen. */
  function Missed(log: seq<Change>, have: nat, d: Delta): seq<Change>
    requires 1 <= d.sequence <= |log|
  {
    if have < d.sequence then log[have..d.sequence - 1] else []
  }

  /** A delta is refused as a gap exactly when some change lies between replica and delta,
      and accepted exactly when none does; an accepted one gives the server's book there. */
  lemma ReceiveExact(log: seq<Change>, replica: Option<SpotBook>, m: Message)
    requires |log| <= U64_MAX && Genuine(log, m)
    requires replica.Some? ==> Historic(log, replica.value)
    ensures var (after, outcome) := Receive(replica, m);
            && (after.Some? ==> Historic(log, after.value))
            && (m.Update? && replica.Some? ==>
                 && (outcome == Gap <==> Missed(log, replica.value.sequence, m.delta) != [])
                 && (outcome == Gap || outcome == Stale ==> after == replica)
                 && (outcome == Applied ==> after == Some(Replay(log[..m.delta.sequence]))))
  {
    if m.Update? && replica.Some? {
      DeltaAdvances(log, m.delta.sequence - 1);
    }
  }

  lemma ExactStep(s: System, step: Step)
    requires Exact(s) && Enabled(s, step)
    ensures Exact(Next(s, step))
  {
    assert s.log[..|s.log|] == s.log;
    SequenceCounts(s.log);
    match step
    case Serve(change) =>
      forall i | 0 <= i < |s.queue| ensures Genuine(s.log + [change], s.queue[i]) {
        GenuineGrows(s.log, change, s.queue[i]);
      }
      if s.replica.Some? {
        GenuineGrows(s.log, change, Snapshot(s.replica.value));
      }
    case Forward =>
      if s.log[s.cursor].LevelChange? {
        DeltaAdvances(s.log, s.cursor);
      }
    case Deliver => ReceiveExact(s.log, s.replica, s.queue[0]);
    case _ =>
  }

  /** Under every interleaving of level changes, silent hydrations, lags and resyncs the
      replica is the server's book at the replica's own sequence number. */
  lemma {:induction false} ReplicaExact(s: System, steps: seq<Step>, t: System)
    requires Exact(s) && Runs(s, steps, t)
    ensures Exact(t)
    decreases |steps|
  {
    if steps != [] {
      ExactStep(s, steps[0]);
      ReplicaExact(Next(s, steps[0]), steps[1..], t);
    }
  }

  lemma ReplicaExactFromStart(steps: seq<Step>, t: System)
    requires Runs(START, steps, t)
    ensures t.replica.Some? ==>
              var book := t.replica.value; book.sequence <= |t.log| && book == Replay(t.log[..book.sequence])
    ensures t.replica.Some? && t.queue != [] && t.queue[0].Update? ==>
              var d := t.queue[0].delta;
              && 1 <= d.sequence <= |t.log|
              && (Receive(t.replica, t.queue[0]).1 == Gap <==> Missed(t.log, t.replica.value.sequence, d) != [])
  {
    ReplicaExact(START, steps, t);
    if t.queue != [] {
      ReceiveExact(t.log, t.replica, t.queue[0]);
    }
  }

  // ---------------------------------------------------------------- no gap without a hydration

  /** The sequence a replica at `at` ends with after the queue; None if the queue holds a gap. */
  function Reaches(at: nat, queue: seq<Message>): Option<nat>
    decreases queue
  {
    if queue == [] then Some(at)
    else
      match queue[0]
      case Snapshot(book) => Reaches(book.sequence, queue[1..])
      case Update(d) =>
        if d.sequence > at + 1 then None
        else Reaches(if d.sequence > at then d.sequence else at, queue[1..])
  }

  lemma {:induction false} ReachesAppend(at: nat, queue: seq<Message>, m: Message)
    requires Reaches(at, queue).Some?
    ensures Reaches(at, queue + [m]) == Reaches(Reaches(at, queue).value, [m])
    decreases queue
  {
    if queue == [] {
      assert queue + [m] == [m];
    } else {
      assert (queue + [m])[1..] == queue[1..] + [m];
      match queue[0]
      case Snapshot(book) => ReachesAppend(book.sequence, queue[1..], m);
      case Update(d) => ReachesAppend(if d.sequence > at then d.sequence else at, queue[1..], m);
    }
  }

  /** From change `base` on the server only makes level changes, and what is queued takes the
      replica at least as far as the forwarding task has read. */
  ghost predicate Linked(s: System, base: nat) {
    && s.subscribed && s.replica.Some? && base <= s.cursor
    && (forall i :: base <= i < |s.log| ==> s.log[i].LevelChange?)
    && Reaches(s.replica.value.sequence, s.queue).Some?
    && (!s.resync ==> s.cursor <= Reaches(s.replica.value.sequence, s.queue).value)
  }

  /** Steps of an established subscription that is not disturbed by a hydration. */
  predicate Undisturbed(step: Step) {
    match step
    case Serve(change) => change.LevelChange?
    case OpenSnapshot => false
    case Subscribe => false
    case _ => true
  }

  lemma LinkedStep(s: System, base: nat, step: Step)
    requires Exact(s) && Linked(s, base) && Enabled(s, step) && Undisturbed(step)
    ensures Linked(Next(s, step), base)
    ensures step.Deliver? ==> Receive(s.replica, s.queue[0]).1 != Gap
  {
    var at := s.replica.value.sequence;
    match step
    case Forward =>
      DeltaAdvances(s.log, s.cursor);
      ReachesAppend(at, s.queue, Update(DeltaAt(s.log, s.cursor)));
    case Resync =>
      SequenceCounts(s.log);
      assert s.queue + [] == s.queue;
      ReachesAppend(at, s.queue, Snapshot(Replay(s.log)));
    case _ =>
  }

  /** A lag heals itself: as long as no hydration intervenes, the client never meets a gap,
      and once everything is delivered it holds the server's current book. */
  lemma {:induction false} LagHeals(s: System, base: nat, steps: seq<Step>, t: System)
    requires Exact(s) && Linked(s, base) && Runs(s, steps, t)
    requires forall i :: 0 <= i < |steps| ==> Undisturbed(steps[i])
    ensures Linked(t, base)
    ensures t.queue != [] ==> Receive(t.replica, t.queue[0]).1 != Gap
    ensures t.queue == [] && !t.resync && t.cursor == |t.log| ==> t.replica == Some(Replay(t.log))
    decreases |steps|
  {
    if steps == [] {
      assert t.log[..|t.log|] == t.log;
    } else {
      LinkedStep(s, base, steps[0]);
      ExactStep(s, steps[0]);
      LagHeals(Next(s, steps[0]), base, steps[1..], t);
    }
  }

  /** Subscribing links the client exactly when no change slipped in after its snapshot. */
  lemma HandshakeLinks(s: System)
    requires Exact(s) && s.replica.Some? && s.queue == []
    ensures Linked(Next(s, Subscribe), |s.log|) <==> s.replica == Some(Replay(s.log))
  {
    assert s.log[..|s.log|] == s.log;
    SequenceCounts(s.log);
  }

  lemma RunsOn(s: System, steps: seq<Step>, t: System, step: Step)
    requires Runs(s, steps, t) && Enabled(t, step)
    ensures Runs(s, steps + [step], Next(t, step))
    decreases |steps|
  {
    hide Enabled, Next;
    if steps == [] {
      assert [] + [step] == [step] && [step][1..] == [];
      assert Runs(Next(t, step), [], Next(t, step));
    } else {
      assert (steps + [step])[1..] == steps[1..] + [step];
      RunsOn(Next(s, steps[0]), steps[1..], t, step);
    }
  }

  /** The handshake can miss a change: served between snapshot and subscription of a client
      whose rehydration succeeded, it never reaches the client, and the next change is a gap. */
  lemma HandshakeCanMiss(hydrate: Change, missed: Change, later: Change) returns (s: System, t: System)
    requires hydrate.Hydrate? && missed.LevelChange? && later.LevelChange?
    ensures Runs(START, [Serve(hydrate), OpenSnapshot, Serve(missed), Subscribe], s)
    ensures s.replica.Some? && !Linked(s, |s.log|)
    ensures Runs(START, [Serve(hydrate), OpenSnapshot, Serve(missed), Subscribe, Serve(later), Forward], t)
    ensures t.queue != [] && Receive(t.replica, t.queue[0]).1 == Gap
  {
    RunsNothing(START);
    SequenceCounts([hydrate]);
    hide Runs, Apply, Replay;
    var steps, s1 := Then([], START, Serve(hydrate));
    assert s1.log == [hydrate];
    var steps2, s2 := Then(steps, s1, OpenSnapshot);
    var steps3, s3 := Then(steps2, s2, Serve(missed));
    assert s3.log == [hydrate, missed];
    var steps4, s4 := Then(steps3, s3, Subscribe);
    assert steps4 == [Serve(hydrate), OpenSnapshot, Serve(missed), Subscribe];
    s := s4;
    assert s == System([hydrate, missed], true, 2, false, [], Some(Replay([hydrate])));
    HandshakeMissed(s, Replay([hydrate]));
    NextIsGap(s, Replay([hydrate]), later);
    hide Next, Enabled;
    var steps5, s5 := Then(steps4, s, Serve(later));
    var steps6, s6 := Then(steps5, s5, Forward);
    assert steps6 == [Serve(hydrate), OpenSnapshot, Serve(missed), Subscribe, Serve(later), Forward];
    t := s6;
  }

  lemma Then(steps: seq<Step>, s: System, step: Step) returns (more: seq<Step>, t: System)
    requires Runs(START, steps, s) && Enabled(s, step)
    ensures Runs(START, more, t) && more == steps + [step] && t == Next(s, step)
  {
    RunsOn(START, steps, s, step);
    more, t := steps + [step], Next(s, step);
  }

  lemma RunsNothing(s: System)
    ensures Runs(s, [], s)
  {
  }

  lemma NextIsGap(s: System, shown: SpotBook, later: Change)
    requires s.replica == Some(shown) && s.queue == [] && !s.resync && s.subscribed && later.LevelChange?
    requires shown.sequence < s.cursor == |s.log| < U64_MAX
    ensures Enabled(s, Serve(later)) && Enabled(Next(s, Serve(later)), Forward)
    ensures var t := Next(Next(s, Serve(later)), Forward);
            t.queue != [] && Receive(t.replica, t.queue[0]).1 == Gap
  {
    var log := s.log + [later];
    DeltaAdvances(log, |s.log|);
    hide Apply, Replay;
  }

  lemma HandshakeMissed(s: System, shown: SpotBook)
    requires s.replica == Some(shown) && s.queue == [] && !s.resync && shown.sequence < s.cursor
    ensures !Linked(s, |s.log|)
  {
  }

  // ---------------------------------------------------------------- replay on a later snapshot

  ghost predicate LevelChangesOnly(log: seq<Change>, a: nat, b: nat) {
    b <= |log| && forall i :: a <= i < b ==> log[i].LevelChange?
  }

  /** Applies the deltas of changes a, a+1, ..., b-1 without looking at sequence numbers. */
  function Playback(book: SpotBook, log: seq<Change>, a: nat, b: nat): SpotBook
    requires a <= b && LevelChangesOnly(log, a, b)
    decreases b - a
  {
    if a == b then book else Playback(ApplyDelta(book, DeltaAt(log, a)), log, a + 1, b)
  }

  ghost predicate Touched(log: seq<Change>, a: nat, b: nat, side: Side, price: u64)
    requires LevelChangesOnly(log, a, b)
  {
    exists i :: a <= i < b && log[i].side == side && log[i].price == price
  }

  lemma {:induction false} UntouchedSize(log: seq<Change>, a: nat, b: nat, side: Side, price: u64)
    requires a <= b && LevelChangesOnly(log, a, b) && !Touched(log, a, b, side, price)
    ensures Replay(log[..a]).Size(side, price) == Replay(log[..b]).Size(side, price)
    decreases b - a
  {
    if a < b {
      NextBook(log, b - 1);
      UntouchedSize(log, a, b - 1, side, price);
    }
  }

  lemma {:induction false} TradeStays(log: seq<Change>, a: nat, b: nat)
    requires a <= b <= |log|
    ensures Replay(log[..b]).lastTradePrice.None? ==> Replay(log[..a]).lastTradePrice.None?
    decreases b - a
  {
    if a < b {
      NextBook(log, b - 1);
      TradeStays(log, a, b - 1);
    }
  }

  /** `x` differs from the book at s at most where the deltas still to come will write. */
  ghost predicate Pending(x: SpotBook, log: seq<Change>, a: nat, s: nat)
    requires a <= s && LevelChangesOnly(log, a, s)
  {
    var target := Replay(log[..s]);
    && Positive(x)
    && (forall side, price :: x.Size(side, price) == target.Size(side, price) || Touched(log, a, s, side, price))
    && (target.lastTradePrice.None? ==> x.lastTradePrice.None?)
    && (a == s ==> x.sequence == target.sequence && x.lastTradePrice == target.lastTradePrice)
  }

  lemma SameSizesSameLevels(m: Levels, n: Levels)
    requires forall p :: p in m ==> m[p] > 0
    requires forall p :: p in n ==> n[p] > 0
    requires forall p :: SizeAt(m, p) == SizeAt(n, p)
    ensures m == n
  {
    forall p: u64 ensures p in m <==> p in n {
      assert SizeAt(m, p) == SizeAt(n, p);
    }
    forall p | p in m ensures m[p] == n[p] {
      assert SizeAt(m, p) == SizeAt(n, p);
    }
  }

  lemma PendingSize(x: SpotBook, log: seq<Change>, a: nat, s: nat, side: Side, price: u64)
    requires a < s && LevelChangesOnly(log, a, s)
    requires x.Size(side, price) == Replay(log[..s]).Size(side, price) || Touched(log, a, s, side, price)
    ensures ApplyDelta(x, DeltaAt(log, a)).Size(side, price) == Replay(log[..s]).Size(side, price)
         || Touched(log, a + 1, s, side, price)
  {
    hide Apply;
    if !Touched(log, a + 1, s, side, price) {
      UntouchedSize(log, a + 1, s, side, price);
      if log[a].side != side || log[a].price != price {
        assert !Touched(log, a, s, side, price);
      }
    }
  }

  lemma PendingStep(x: SpotBook, log: seq<Change>, a: nat, s: nat)
    requires a < s && |log| <= U64_MAX && LevelChangesOnly(log, a, s) && Pending(x, log, a, s)
    ensures Pending(ApplyDelta(x, DeltaAt(log, a)), log, a + 1, s)
  {
    hide Apply, Touched;
    SequenceCounts(log[..a + 1]);
    TradeStays(log, a + 1, s);
    forall side, price
      ensures ApplyDelta(x, DeltaAt(log, a)).Size(side, price) == Replay(log[..s]).Size(side, price)
           || Touched(log, a + 1, s, side, price)
    {
      PendingSize(x, log, a, s, side, price);
    }
  }

  lemma {:induction false} PlaybackPending(x: SpotBook, log: seq<Change>, a: nat, s: nat)
    requires a <= s && |log| <= U64_MAX && LevelChangesOnly(log, a, s) && Pending(x, log, a, s)
    ensures Playback(x, log, a, s) == Replay(log[..s])
    decreases s - a
  {
    var target := Replay(log[..s]);
    if a == s {
      ReplayPositive(log[..s]);
      forall p: u64 ensures SizeAt(x.bids, p) == SizeAt(target.bids, p) && SizeAt(x.asks, p) == SizeAt(target.asks, p) {
        assert x.Size(Buy, p) == target.Size(Buy, p) && x.Size(Sell, p) == target.Size(Sell, p);
      }
      SameSizesSameLevels(x.bids, target.bids);
      SameSizesSameLevels(x.asks, target.asks);
    } else {
      PendingStep(x, log, a, s);
      PlaybackPending(ApplyDelta(x, DeltaAt(log, a)), log, a + 1, s);
    }
  }

  lemma {:induction false} PlaybackSplit(x: SpotBook, log: seq<Change>, a: nat, s: nat, b: nat)
    requires a <= s <= b && LevelChangesOnly(log, a, b)
    ensures Playback(x, log, a, b) == Playback(Playback(x, log, a, s), log, s, b)
    decreases s - a
  {
    if a < s {
      PlaybackSplit(ApplyDelta(x, DeltaAt(log, a)), log, a + 1, s, b);
    }
  }

  lemma {:induction false} PlaybackForward(log: seq<Change>, s: nat, b: nat)
    requires s <= b && |log| <= U64_MAX && LevelChangesOnly(log, s, b)
    ensures Playback(Replay(log[..s]), log, s, b) == Replay(log[..b])
    decreases b - s
  {
    if s < b {
      DeltaAdvances(log, s);
      PlaybackForward(log, s + 1, b);
    }
  }

  /** Because deltas carry absolute sizes, replaying any hydration-free stretch over a snapshot
      taken inside it gives the book at its end, even for a client that ignores sequences. */
  lemma OverlapReplay(log: seq<Change>, a: nat, s: nat, b: nat)
    requires a <= s <= b && |log| <= U64_MAX && LevelChangesOnly(log, a, b)
    ensures Playback(Replay(log[..s]), log, a, b) == Replay(log[..b])
  {
    ReplayPositive(log[..s]);
    PlaybackPending(Replay(log[..s]), log, a, s);
    PlaybackSplit(Replay(log[..s]), log, a, s, b);
    PlaybackForward(log, s, b);
  }
}
