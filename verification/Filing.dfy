/** How an index files the orders of a ledger: each under the name of its key, and no others.
    What a record has to say about its order is left to a relation. */
module Filings {
  import opened Machine
  import opened Text
  import opened SpotMarkets
  import opened IndexStores
  import opened Ledgers

  function KeyName(k: OrderKey): string {
    k.spot + (":" + k.id)
  }

  function IdOf(k: OrderKey): Uuid {
    V5(KeyName(k))
  }

  /** A record, the order's key, the order, and whether the order is marked. */
  type Mirror = (StoredOrder, OrderKey, LedgerOrder, bool) -> bool

  ghost predicate AllFiled(mirror: Mirror, ledger: Ledger, marks: set<OrderKey>, st: IndexState) {
    forall k :: k in ledger ==>
      && KeyName(k) in st.chainOrderIndex && st.chainOrderIndex[KeyName(k)] == IdOf(k)
      && IdOf(k) in st.orders && mirror(st.orders[IdOf(k)], k, ledger[k], k in marks)
  }

  ghost predicate NamesKnown(ledger: Ledger, st: IndexState) {
    forall name :: name in st.chainOrderIndex ==> exists k :: k in ledger && KeyName(k) == name
  }

  ghost predicate OrdersKnown(ledger: Ledger, st: IndexState) {
    forall id :: id in st.orders ==> exists k :: k in ledger && IdOf(k) == id
  }

  /** The index holds the ledger's orders, each under its key, and no others. */
  ghost predicate Files(mirror: Mirror, ledger: Ledger, marks: set<OrderKey>, st: IndexState) {
    AllFiled(mirror, ledger, marks, st) && NamesKnown(ledger, st) && OrdersKnown(ledger, st) && marks <= ledger.Keys
  }

  ghost predicate IdsColonFree(ledger: Ledger) {
    forall k :: k in ledger ==> ColonFree(k.id)
  }

  lemma KeyNameInjective(j: OrderKey, k: OrderKey)
    requires ColonFree(j.id) && ColonFree(k.id) && KeyName(j) == KeyName(k)
    ensures j == k
  {
    assert j.spot + ":" + j.id == KeyName(j) && k.spot + ":" + k.id == KeyName(k);
    ColonSplit(j.spot, j.id, k.spot, k.id);
  }

  lemma OtherKeys(ledger: Ledger, k: OrderKey)
    requires IdsColonFree(ledger) && ColonFree(k.id)
    ensures forall j :: j in ledger && j != k ==> KeyName(j) != KeyName(k)
  {
    hide KeyName, ColonFree;
    forall j | j in ledger && j != k ensures KeyName(j) != KeyName(k) {
      if KeyName(j) == KeyName(k) {
        KeyNameInjective(j, k);
      }
    }
  }

  lemma NormalKey(sdk: Sdk, k: OrderKey)
    requires Normalize(sdk, k.spot) == k.spot
    ensures ChainOrderKey(sdk, k.spot, k.id) == KeyName(k)
  {
    hide Normalize;
  }

  function WithFiled(st: IndexState, k: OrderKey, stored: StoredOrder): IndexState {
    st.(chainOrderIndex := st.chainOrderIndex[KeyName(k) := IdOf(k)], orders := st.orders[IdOf(k) := stored])
  }

  lemma FiledAll(mirror: Mirror, ledger: Ledger, marks: set<OrderKey>, marks': set<OrderKey>, st: IndexState,
                 k: OrderKey, o: LedgerOrder, stored: StoredOrder)
    requires IdsColonFree(ledger) && ColonFree(k.id) && AllFiled(mirror, ledger, marks, st)
    requires marks - {k} == marks' - {k} && mirror(stored, k, o, k in marks')
    ensures AllFiled(mirror, ledger[k := o], marks', WithFiled(st, k, stored))
  {
    OtherKeys(ledger, k);
    assert forall j :: j != k ==> (j in marks <==> j in marks - {k}) && (j in marks' <==> j in marks' - {k});
    hide KeyName, ColonFree;
  }

  lemma FiledNames(ledger: Ledger, st: IndexState, k: OrderKey, o: LedgerOrder, stored: StoredOrder)
    requires NamesKnown(ledger, st) && OrdersKnown(ledger, st)
    ensures NamesKnown(ledger[k := o], WithFiled(st, k, stored))
    ensures OrdersKnown(ledger[k := o], WithFiled(st, k, stored))
  {
    hide KeyName, IdOf;
    var ledger', st' := ledger[k := o], WithFiled(st, k, stored);
    forall name | name in st'.chainOrderIndex ensures exists j :: j in ledger' && KeyName(j) == name {
      var j := if name == KeyName(k) then k else var j :| j in ledger && KeyName(j) == name; j;
      assert j in ledger';
    }
    forall id | id in st'.orders ensures exists j :: j in ledger' && IdOf(j) == id {
      var j := if id == IdOf(k) then k else var j :| j in ledger && IdOf(j) == id; j;
      assert j in ledger';
    }
  }

  /** Filing a fitting record under its key, and marking or unmarking only that key, keeps the
      index in agreement with the ledger. */
  lemma FilingKeeps(mirror: Mirror, ledger: Ledger, marks: set<OrderKey>, marks': set<OrderKey>, st: IndexState,
                    k: OrderKey, o: LedgerOrder, stored: StoredOrder)
    requires IdsColonFree(ledger) && ColonFree(k.id) && Files(mirror, ledger, marks, st)
    requires marks - {k} == marks' - {k} && mirror(stored, k, o, k in marks')
    ensures Files(mirror, ledger[k := o], marks', WithFiled(st, k, stored))
  {
    hide AllFiled, NamesKnown, OrdersKnown, WithFiled, IdsColonFree, ColonFree;
    FiledAll(mirror, ledger, marks, marks', st, k, o, stored);
    FiledNames(ledger, st, k, o, stored);
    assert forall j :: j in marks' && j != k ==> j in marks' - {k};
  }

  /** What is filed of an order of the ledger. */
  lemma FiledAt(mirror: Mirror, ledger: Ledger, marks: set<OrderKey>, st: IndexState, k: OrderKey)
    requires Files(mirror, ledger, marks, st) && k in ledger
    ensures KeyName(k) in st.chainOrderIndex && st.chainOrderIndex[KeyName(k)] == IdOf(k)
    ensures IdOf(k) in st.orders && mirror(st.orders[IdOf(k)], k, ledger[k], k in marks)
  {
    hide KeyName, IdOf, NamesKnown, OrdersKnown;
  }

  /** An order the ledger does not know is not filed. */
  lemma NotFiled(mirror: Mirror, ledger: Ledger, marks: set<OrderKey>, st: IndexState, k: OrderKey)
    requires Files(mirror, ledger, marks, st) && IdsColonFree(ledger) && k !in ledger && ColonFree(k.id)
    ensures KeyName(k) !in st.chainOrderIndex
  {
    OtherKeys(ledger, k);
    hide KeyName, AllFiled, OrdersKnown, IdsColonFree;
  }

  /** The lookup of the update methods finds that record, and their write files it again. */
  lemma RecordFiled(sdk: Sdk, mirror: Mirror, ledger: Ledger, marks: set<OrderKey>, st: IndexState, k: OrderKey,
                    stored: StoredOrder)
    requires Files(mirror, ledger, marks, st) && k in ledger && Normalize(sdk, k.spot) == k.spot
    ensures IdOf(k) in st.orders && Record(sdk, st, k.spot, k.id) == Some(st.orders[IdOf(k)])
    ensures WithRecord(sdk, st, k.spot, k.id, stored) == WithFiled(st, k, stored)
  {
    NormalKey(sdk, k);
    FiledAt(mirror, ledger, marks, st, k);
    hide Normalize, ChainOrderKey, Files, KeyName, IdOf;
    assert st.chainOrderIndex[KeyName(k) := IdOf(k)] == st.chainOrderIndex;
  }

  /** Only keys and records matter. */
  lemma FilesFrame(mirror: Mirror, ledger: Ledger, marks: set<OrderKey>, st: IndexState, st': IndexState)
    requires Files(mirror, ledger, marks, st)
    requires st'.chainOrderIndex == st.chainOrderIndex && st'.orders == st.orders
    ensures Files(mirror, ledger, marks, st')
  {
    hide KeyName, IdOf;
  }
}
