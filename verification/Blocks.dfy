/** Whole blocks: which of their transactions act on the stores, and how. */
module Blocks {
  import opened Machine
  import opened SpotMarkets
  import opened Processor
  import opened ProcessBlock
  import opened Redelivery
  import opened Agreement

  lemma {:induction false} EventsInTurn(a: seq<TxResult>, b: seq<TxResult>)
    ensures SuccessfulEvents(a + b) == SuccessfulEvents(a) + SuccessfulEvents(b)
  {
    if b == [] {
      assert a + b == a;
    } else {
      var c := a + b;
      assert c[..|c| - 1] == a + b[..|b| - 1];
      EventsInTurn(a, b[..|b| - 1]);
    }
  }

  /** A block cut in two leaves what its halves leave one after the other. */
  lemma BlockInTurn(sdk: Sdk, lower: char -> string, s: Indexer, a: seq<TxResult>, b: seq<TxResult>, blockNum: u64)
    ensures BlockHandled(sdk, lower, s, a + b, blockNum)
         == BlockHandled(sdk, lower, BlockHandled(sdk, lower, s, a, blockNum), b, blockNum)
  {
    hide AllHandled, SuccessfulEvents;
    EventsInTurn(a, b);
    HandledInTurn(sdk, lower, s, SuccessfulEvents(a), SuccessfulEvents(b), blockNum);
  }

  lemma OneTransaction(sdk: Sdk, lower: char -> string, s: Indexer, t: TxResult, blockNum: u64)
    ensures BlockHandled(sdk, lower, s, [t], blockNum)
         == if t.receipt.success then AllHandled(sdk, lower, s, t.events, blockNum) else s
  {
    hide Handled;
    assert [t][..0] == [];
    assert SuccessfulEvents([t]) == if t.receipt.success then t.events else [];
  }

  /** Each transaction of a block, wherever it stands: a failed one might as well be missing; one
      that succeeded has its events handled after those before it and before those after it. */
  lemma TransactionActs(sdk: Sdk, lower: char -> string, s: Indexer, a: seq<TxResult>, t: TxResult, b: seq<TxResult>,
                        blockNum: u64)
    ensures BlockHandled(sdk, lower, s, [], blockNum) == s
    ensures var before := BlockHandled(sdk, lower, s, a, blockNum);
            BlockHandled(sdk, lower, s, a + [t] + b, blockNum) ==
              if t.receipt.success
              then BlockHandled(sdk, lower, AllHandled(sdk, lower, before, t.events, blockNum), b, blockNum)
              else BlockHandled(sdk, lower, s, a + b, blockNum)
  {
    BlockInTurn(sdk, lower, s, a, b, blockNum);
    BlockInTurn(sdk, lower, s, a + [t], b, blockNum);
    BlockInTurn(sdk, lower, s, a, [t], blockNum);
    OneTransaction(sdk, lower, BlockHandled(sdk, lower, s, a, blockNum), t, blockNum);
    hide Handled;
  }

  /** After a panic the indexing task does nothing more. */
  lemma {:induction false} HaltedStays(sdk: Sdk, lower: char -> string, s: Indexer, events: seq<(TxEvent, Env)>,
                                       blockNum: u64)
    requires s.halted
    ensures AllHandled(sdk, lower, s, events, blockNum) == s
    decreases |events|
  {
    if events != [] {
      HaltedHandles(sdk, lower, s, events[0].1, events[0].0, blockNum);
      hide Handled;
      HaltedStays(sdk, lower, s, events[1..], blockNum);
    }
  }

  lemma HaltedHandles(sdk: Sdk, lower: char -> string, s: Indexer, env: Env, e: TxEvent, blockNum: u64)
    requires s.halted
    ensures Handled(sdk, lower, s, env, e, blockNum) == s
  {
  }

  /** The events of a transaction in their order: first one list, then another. */
  lemma EventActs(sdk: Sdk, lower: char -> string, s: Indexer, a: seq<(TxEvent, Env)>, e: (TxEvent, Env),
                  b: seq<(TxEvent, Env)>, blockNum: u64)
    ensures AllHandled(sdk, lower, s, [], blockNum) == s
    ensures var before := AllHandled(sdk, lower, s, a, blockNum);
            AllHandled(sdk, lower, s, a + [e] + b, blockNum)
            == AllHandled(sdk, lower, Handled(sdk, lower, before, e.1, e.0, blockNum), b, blockNum)
  {
    hide Handled;
    HandledInTurn(sdk, lower, s, a + [e], b, blockNum);
    HandledInTurn(sdk, lower, s, a, [e], blockNum);
    assert [e][1..] == [];
  }

  /** Scenes from transaction to transaction: those that succeeded carry regular events, and those
      that failed leave ledger and stores alone. */
  ghost predicate RegularBlock(sdk: Sdk, lower: char -> string, c: Scene, txs: seq<TxResult>, blockNum: u64, d: Scene)
    decreases |txs|
  {
    if txs == [] then c == d
    else if !txs[0].receipt.success then RegularBlock(sdk, lower, c, txs[1..], blockNum, d)
    else
      exists mid: Scene ::
        && RegularRun(sdk, lower, c, Deliveries(InBlock(txs[0].events, blockNum)), mid)
        && RegularBlock(sdk, lower, mid, txs[1..], blockNum, d)
  }

  /** From block to block the stores follow the ledger, whatever failed transactions say. */
  lemma {:induction false} WholeBlockAgrees(sdk: Sdk, lower: char -> string, c: Scene, txs: seq<TxResult>,
                                            blockNum: u64, d: Scene)
    requires Agrees(sdk, c) && RegularBlock(sdk, lower, c, txs, blockNum, d)
    ensures d.s == BlockHandled(sdk, lower, c.s, txs, blockNum) && Agrees(sdk, d)
    decreases |txs|
  {
    hide Agrees, RegularRun, AllHandled, BlockHandled;
    if txs == [] {
      NoTransactions(sdk, lower, c.s, blockNum);
    } else {
      assert txs == [] + [txs[0]] + txs[1..] && [] + txs[1..] == txs[1..];
      NoTransactions(sdk, lower, c.s, blockNum);
      TransactionActs(sdk, lower, c.s, [], txs[0], txs[1..], blockNum);
      if txs[0].receipt.success {
        var mid: Scene :| RegularRun(sdk, lower, c, Deliveries(InBlock(txs[0].events, blockNum)), mid)
                          && RegularBlock(sdk, lower, mid, txs[1..], blockNum, d);
        BlockAgrees(sdk, lower, c, txs[0].events, blockNum, mid);
        WholeBlockAgrees(sdk, lower, mid, txs[1..], blockNum, d);
      } else {
        WholeBlockAgrees(sdk, lower, c, txs[1..], blockNum, d);
      }
    }
  }

  lemma NoTransactions(sdk: Sdk, lower: char -> string, s: Indexer, blockNum: u64)
    ensures BlockHandled(sdk, lower, s, [], blockNum) == s
  {
    hide Handled;
  }
}
