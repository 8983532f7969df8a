/** The subscriber protocol with a client that sees only strings and sequence numbers. */
module WireSystem {
  import opened Machine
  import opened Decimal
  import opened SpotBooks
  import opened Replication
  import opened WireBooks

  /** The client receives what the replica receives, as it is on the wire. */
  function ClientNext(spot: string, depth: nat, s: System, w: Option<WireBook>, step: Step): Option<WireBook>
    requires Enabled(s, step)
  {
    match step
    case OpenSnapshot =>
      if s.log == [] then w else WireReceive(w, ToWire(spot, depth, Snapshot(Replay(s.log)))).0
    case Deliver => WireReceive(w, ToWire(spot, depth, s.queue[0])).0
    case _ => w
  }

  /** The client after a run of the system. */
  ghost function ClientAfter(spot: string, depth: nat, s: System, w: Option<WireBook>,
                             steps: seq<Step>, t: System): Option<WireBook>
    requires Runs(s, steps, t)
    decreases |steps|
  {
    if steps == [] then w
    else ClientAfter(spot, depth, Next(s, steps[0]), ClientNext(spot, depth, s, w, steps[0]), steps[1..], t)
  }

  /** The depth covers every book of the history, and every price has a wire key of its own. */
  ghost predicate Displayable(depth: nat, log: seq<Change>) {
    && (forall n :: 0 <= n <= |log| ==> BookFits(depth, Replay(log[..n])))
    && (forall i :: 0 <= i < |log| && log[i].LevelChange? ==> log[i].price <= MAX_EXACT_PRICE)
  }

  predicate BookFits(depth: nat, book: SpotBook) {
    ExactPrices(book.bids) && ExactPrices(book.asks) && |book.bids| <= depth && |book.asks| <= depth
  }

  lemma GenuineIsFaithful(depth: nat, log: seq<Change>, m: Message)
    requires Displayable(depth, log) && Genuine(log, m)
    ensures Faithful(depth, m)
  {
    hide Replay;
    match m
    case Snapshot(book) =>
      ReplayPositive(log[..book.sequence]);
      assert BookFits(depth, Replay(log[..book.sequence]));
    case Update(d) => assert log[d.sequence - 1].price == d.price;
  }

  lemma {:induction false} LogGrows(s: System, steps: seq<Step>, t: System)
    requires Runs(s, steps, t)
    ensures s.log <= t.log
    decreases |steps|
  {
    hide Enabled;
    if steps != [] {
      LogGrows(Next(s, steps[0]), steps[1..], t);
    }
  }

  lemma DisplayablePrefix(depth: nat, a: seq<Change>, b: seq<Change>)
    requires a <= b && Displayable(depth, b)
    ensures Displayable(depth, a)
  {
    hide BookFits, Replay;
    forall n | 0 <= n <= |a| ensures BookFits(depth, Replay(a[..n])) {
      assert a[..n] == b[..n];
    }
  }

  lemma ClientStep(spot: string, depth: nat, s: System, w: Option<WireBook>, step: Step)
    requires Exact(s) && Enabled(s, step) && Displayable(depth, s.log) && Shows(w, s.replica)
    ensures Shows(ClientNext(spot, depth, s, w, step), Next(s, step).replica)
  {
    hide Displayable, Shows, Faithful, Receive, WireReceive, ToWire, Replay;
    match step
    case OpenSnapshot =>
      CurrentIsGenuine(s);
      GenuineIsFaithful(depth, s.log, Snapshot(Replay(s.log)));
      WireReceiveShows(spot, depth, w, s.replica, Snapshot(Replay(s.log)));
    case Deliver =>
      GenuineIsFaithful(depth, s.log, s.queue[0]);
      WireReceiveShows(spot, depth, w, s.replica, s.queue[0]);
    case _ =>
  }

  lemma CurrentIsGenuine(s: System)
    requires Exact(s)
    ensures Genuine(s.log, Snapshot(Replay(s.log)))
  {
    SequenceCounts(s.log);
    assert s.log[..|s.log|] == s.log;
  }

  /** Over every run of the system the string client shows the replica. */
  lemma {:induction false} ClientShows(spot: string, depth: nat, s: System, w: Option<WireBook>,
                                       steps: seq<Step>, t: System)
    requires Exact(s) && Runs(s, steps, t) && Displayable(depth, t.log) && Shows(w, s.replica)
    ensures Shows(ClientAfter(spot, depth, s, w, steps, t), t.replica)
    decreases |steps|
  {
    hide Exact, Shows, Displayable, Enabled, Next, ClientNext;
    if steps != [] {
      LogGrows(s, steps, t);
      DisplayablePrefix(depth, s.log, t.log);
      ExactStep(s, steps[0]);
      ClientStep(spot, depth, s, w, steps[0]);
      ClientShows(spot, depth, Next(s, steps[0]), ClientNext(spot, depth, s, w, steps[0]), steps[1..], t);
    }
  }

  /** From the start: once it has a snapshot, the string client shows the server's book as it
      was at the client's own sequence number, under every interleaving. */
  lemma ClientExactFromStart(spot: string, depth: nat, steps: seq<Step>, t: System)
    requires Runs(START, steps, t) && Displayable(depth, t.log)
    ensures var w := ClientAfter(spot, depth, START, None, steps, t);
            w.Some? ==> w.value.sequence <= |t.log| && RendersBook(w.value, Replay(t.log[..w.value.sequence]))
  {
    hide Runs, Displayable, ClientAfter, Renders, ExactPrices;
    ClientShows(spot, depth, START, None, steps, t);
    ReplicaExactFromStart(steps, t);
  }
}
