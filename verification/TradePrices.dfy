/** The last trade price, which the index and each book keep apart: fills write both, and
    hydrations carry the index's price into the book, read in one section and written in another. */
module TradePrices {
  import opened Machine
  import opened SpotMarkets
  import opened SpotBooks
  import opened BookStores
  import opened IndexStores
  import opened Ledgers
  import opened Filings
  import opened LedgerEvents
  import opened Processor
  import opened Agreement

  /** Where the index knows a last trade price, the book shows the same one. */
  ghost predicate TradeAgrees(s: Indexer, spot: string) {
    spot in s.index.lastTradePriceBySpot ==>
      BookAt(s.books, spot).lastTradePrice == Some(s.index.lastTradePriceBySpot[spot])
  }

  ghost predicate TradesAgree(s: Indexer) {
    forall spot :: TradeAgrees(s, spot)
  }

  lemma EffectTrades(st: BookState, spot: string, e: OrderEvent, blockNum: u64, other: string)
    ensures BookAt(BookEffect(st, spot, e, blockNum), other).lastTradePrice
         == if other == spot && e.Fill? && e.price > 0 && e.amount > 0 then Some(e.price)
            else BookAt(st, other).lastTradePrice
  {
    hide Encode, QuoteFromBook, SetSize, SatAdd, SatSub;
  }

  lemma IndexTrades(sdk: Sdk, mirror: Mirror, st: IndexState, st': IndexState, k: OrderKey, e: OrderEvent)
    requires IndexEffect(sdk, mirror, st, st', k, e) && Normalize(sdk, k.spot) == k.spot
    ensures st'.lastTradePriceBySpot
         == if e.Fill? then st.lastTradePriceBySpot[k.spot := e.price] else st.lastTradePriceBySpot
  {
    hide Normalize, ChainOrderKey, KeyName, IdOf, Amended, FilledBy, WithStatus;
  }

  /** A fill makes its own spot agree, whatever was there before; no event makes a spot disagree. */
  lemma TradeFollows(sdk: Sdk, mirror: Mirror, s: Indexer, t: Indexer, k: OrderKey, e: OrderEvent, blockNum: u64,
                     spot: string)
    requires Follows(sdk, mirror, s, t, k, e, blockNum) && Normalize(sdk, k.spot) == k.spot
    requires e.price > 0 && Substantial(e)
    ensures TradeAgrees(t, spot) <==> TradeAgrees(s, spot) || (e.Fill? && spot == k.spot)
  {
    hide Normalize, BookEffect, IndexEffect;
    IndexTrades(sdk, mirror, s.index, t.index, k, e);
    EffectTrades(s.books, k.spot, e, blockNum, spot);
  }

  lemma PricePositive(ledger: Ledger, k: OrderKey, e: OrderEvent)
    requires Sound(ledger) && WellFormed(ledger, k, e)
    ensures e.price > 0
  {
  }

  lemma EventKeepsTrades(sdk: Sdk, lower: char -> string, c: Scene, env: Env, e: TxEvent, blockNum: u64)
    requires Agrees(sdk, c) && Regular(sdk, c.ledger, c.s, e) && TradesAgree(c.s)
    ensures TradesAgree(Handled(sdk, lower, c.s, env, e, blockNum))
  {
    hide Handled, Normalize, WellFormed, SumFits, Agrees, Meaning, Substantial, Follows, Mirrors, Unrelated;
    if Unrelated(e) {
      UnrelatedShape(sdk, lower, c.s, env, e, blockNum);
      forall spot ensures TradeAgrees(Handled(sdk, lower, c.s, env, e, blockNum), spot) {
        assert TradeAgrees(c.s, spot);
      }
    } else {
      var (k, ev) := Meaning(sdk, c.s.index, e).value;
      if Redelivered(c.ledger, k, ev) {
        RedeliveryStep(sdk, lower, c, env, e, blockNum);
      } else {
        EffectHappens(sdk, lower, c, env, e, blockNum);
        PricePositive(c.ledger, k, ev);
        var t := Handled(sdk, lower, c.s, env, e, blockNum);
        forall spot ensures TradeAgrees(t, spot) {
          assert TradeAgrees(c.s, spot);
          TradeFollows(sdk, Mirrors, c.s, t, k, ev, blockNum, spot);
        }
      }
    }
  }

  lemma MarkKeepsTrades(sdk: Sdk, s: Indexer, k: OrderKey)
    requires TradesAgree(s)
    ensures TradesAgree(s.(index := IndexStores.OrderCancelled(sdk, s.index, k.spot, k.id)))
  {
    var t := s.(index := IndexStores.OrderCancelled(sdk, s.index, k.spot, k.id));
    hide Record;
    assert t.index.lastTradePriceBySpot == s.index.lastTradePriceBySpot;
    forall spot ensures TradeAgrees(t, spot) {
      assert TradeAgrees(s, spot);
    }
  }

  /** Over every regular run the book's last trade price is the one the index recorded. */
  lemma {:induction false} TradePricesAgree(sdk: Sdk, lower: char -> string, c: Scene, run: seq<RunStep>, d: Scene)
    requires Agrees(sdk, c) && RegularRun(sdk, lower, c, run, d) && TradesAgree(c.s)
    ensures TradesAgree(d.s)
    decreases |run|
  {
    hide Agrees, Regular, LedgerAfter, Meaning, Handled, TradesAgree, IndexStores.OrderCancelled;
    if run != [] {
      if run[0].Deliver? {
        var Delivery(e, env, blockNum) := run[0].delivery;
        AgreementStep(sdk, lower, c, env, e, blockNum);
        EventKeepsTrades(sdk, lower, c, env, e, blockNum);
      } else {
        MarkAgrees(sdk, c, run[0].key);
        MarkKeepsTrades(sdk, c.s, run[0].key);
      }
      TradePricesAgree(sdk, lower, NextScene(sdk, lower, c, run[0]), run[1..], d);
    }
  }

  // ---------------------------------------------------------------- hydrations in two sections

  /** The section that writes a hydration, with the price that an earlier section read. */
  function Written(s: Indexer, key: string, change: Change): Indexer
    requires change.Hydrate?
  {
    s.(books := Hydrated(s.books, key, change))
  }

  /** After the write the spot agrees exactly if what was read is still the index's price; if
      nothing was read, exactly if it agreed before. Other spots are as they were. */
  lemma WriteAgreesAt(s: Indexer, key: string, change: Change, spot: string)
    requires change.Hydrate?
    ensures TradeAgrees(Written(s, key, change), spot) <==>
              if spot != key || change.trade.None? then TradeAgrees(s, spot)
              else spot in s.index.lastTradePriceBySpot ==> change.trade == Some(s.index.lastTradePriceBySpot[spot])
  {
    hide LoadLevels;
  }

  /** In a state where all agree, the write keeps the agreement exactly if the price it carries is
      not stale. */
  lemma WriteKeepsTrades(s: Indexer, key: string, change: Change)
    requires TradesAgree(s) && change.Hydrate?
    ensures TradesAgree(Written(s, key, change)) <==>
              (key in s.index.lastTradePriceBySpot ==>
                 change.trade.None? || change.trade == Some(s.index.lastTradePriceBySpot[key]))
  {
    hide Written;
    assert TradeAgrees(s, key);
    WriteAgreesAt(s, key, change, key);
    hide TradeAgrees;
    forall spot | spot != key ensures TradeAgrees(Written(s, key, change), spot) {
      assert TradeAgrees(s, spot);
      WriteAgreesAt(s, key, change, spot);
    }
    if TradeAgrees(Written(s, key, change), key) {
      assert TradesAgree(Written(s, key, change));
    }
  }

  /** A hydration that nothing comes between keeps the agreement, and restores it for its book. */
  lemma HydrationKeepsTrades(sdk: Sdk, s: Indexer, spot: string, reply: ChainReply)
    ensures TradesAgree(s) ==> TradesAgree(SpotHydrated(sdk, s, spot, reply))
    ensures HydrateChange(sdk, s.index, spot, reply).Some? ==>
              TradeAgrees(SpotHydrated(sdk, s, spot, reply), Normalize(sdk, spot))
  {
    hide Normalize, LoadLevels;
    if TradesAgree(s) {
      forall key ensures TradeAgrees(SpotHydrated(sdk, s, spot, reply), key) {
        assert TradeAgrees(s, key);
      }
    }
  }

  /** But a fill can come between: its price is recorded and shown, and then the write puts the
      older one back into the book. */
  lemma HydrationCanGoStale(sdk: Sdk, lower: char -> string, s: Indexer, reply: ChainReply, env: Env, e: TxEvent,
                            blockNum: u64, read: u64)
    requires e.OrderFilled? && !s.halted && e.price > 0 && e.fillAmount > 0 && e.price != read
    requires var key := Normalize(sdk, e.market);
             && Normalize(sdk, key) == key && key in s.books.hydrated
             && HydrateChange(sdk, s.index, key, reply).Some? && HydrateChange(sdk, s.index, key, reply).value.Hydrate?
             && HydrateChange(sdk, s.index, key, reply).value.trade == Some(read)
    ensures var key := Normalize(sdk, e.market);
            var t := Handled(sdk, lower, s, env, e, blockNum);
            var stale := Written(t, key, HydrateChange(sdk, s.index, key, reply).value);
            && TradeAgrees(t, key) && !TradeAgrees(stale, key)
            && stale.index.lastTradePriceBySpot[key] == e.price && BookAt(stale.books, key).lastTradePrice == Some(read)
  {
    var k := OrderKey(Normalize(sdk, e.market), e.orderId);
    var fill := Fill(e.side, e.price, e.fillAmount, e.remainingAmount, e.isFullyFilled);
    hide Normalize, HydrateChange, Follows, FilledHandled, LoadLevels, IndexEffect;
    var mirror: Mirror := (a, b, c, d) => true;
    FillEffect(sdk, mirror, s, env, e, blockNum, k);
    var t := Handled(sdk, lower, s, env, e, blockNum);
    TradeFollows(sdk, mirror, s, t, k, fill, blockNum, k.spot);
    FillRecorded(sdk, mirror, s, t, k, fill, blockNum);
    WriteAgreesAt(t, k.spot, HydrateChange(sdk, s.index, k.spot, reply).value, k.spot);
  }

  lemma FillRecorded(sdk: Sdk, mirror: Mirror, s: Indexer, t: Indexer, k: OrderKey, e: OrderEvent, blockNum: u64)
    requires Follows(sdk, mirror, s, t, k, e, blockNum) && Normalize(sdk, k.spot) == k.spot && e.Fill?
    ensures k.spot in t.index.lastTradePriceBySpot && t.index.lastTradePriceBySpot[k.spot] == e.price
  {
    hide Normalize, BookEffect, IndexEffect;
    IndexTrades(sdk, mirror, s.index, t.index, k, e);
  }
}
