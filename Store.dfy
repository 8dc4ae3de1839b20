/** What the two document collections share: documents by id, their
    natural (insertion) order, and the next fresh id. */
module Store {
  import opened Common
  import opened Seqs

  /** `order` lists every stored id exactly once, and every id is below `nextId`. */
  ghost predicate Consistent<V>(records: map<Id, V>, order: seq<Id>, nextId: Id) {
    && (forall i :: 0 <= i < |order| ==> order[i] in records && order[i] < nextId)
    && Distinct(order)
    && (forall id :: id in records ==> id in order)
  }

  /** Storing a document under the next id keeps the collection consistent. */
  lemma AddFresh<V>(records: map<Id, V>, order: seq<Id>, nextId: Id, v: V)
    requires Consistent(records, order, nextId)
    ensures nextId !in records
    ensures Consistent(records[nextId := v], order + [nextId], nextId + 1)
  {
    assert forall i :: 0 <= i < |order| ==> order[i] != nextId;
    var o := order + [nextId];
    forall i, j | 0 <= i < j < |o| ensures o[i] != o[j] {
      if j < |order| {
        assert o[i] == order[i] && o[j] == order[j];
      }
    }
  }

  /** Removing a stored document keeps the collection consistent. */
  lemma Remove<V>(records: map<Id, V>, order: seq<Id>, nextId: Id, i: nat)
    requires Consistent(records, order, nextId) && i < |order|
    ensures Consistent(records - {order[i]}, RemoveAt(order, i), nextId)
  {
    RemoveAtDistinct(order, i);
    var r := RemoveAt(order, i);
    forall j | 0 <= j < |r| ensures r[j] in records - {order[i]} && r[j] < nextId {
      assert r[j] in r;
    }
  }
}
