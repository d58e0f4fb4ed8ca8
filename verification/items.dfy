/**
 * The list operations behind the address and payment-method sub-collections of a
 * user (src/services/dataService.js:87-200): append with default-on-first-insert,
 * merge into the first item with an id, filter out by id, and re-flag the default.
 */
module Items {
  import opened Wrappers
  import opened Seqs
  import opened Records

  /** `{ id: freshId, ...data, isDefault: existing.length === 0 }` */
  function NewItem(existing: seq<Item>, data: ItemData, freshId: int): (it: Item)
    ensures it.isDefault <==> |existing| == 0
    ensures it.id == data.id.GetOr(freshId)
    ensures it.fields == data.fields
  {
    Item(data.id.GetOr(freshId), data.fields, |existing| == 0)
  }

  /** Index of the first item with the given id. */
  function IndexOf(items: seq<Item>, id: int): (r: Option<nat>)
    ensures r.Some? ==> r.value < |items| && items[r.value].id == id
    ensures r.Some? ==> forall j :: 0 <= j < r.value ==> items[j].id != id
    ensures r.None? <==> forall j :: 0 <= j < |items| ==> items[j].id != id
  {
    FirstIndex(items, (it: Item) => it.id == id)
  }

  /** Merge `data` into the first item with id `id`; `None` when there is none. */
  function UpdateFirst(items: seq<Item>, id: int, data: ItemData): (r: Option<seq<Item>>)
    ensures r.None? <==> IndexOf(items, id).None?
    ensures r.Some? ==> |r.value| == |items|
    ensures r.Some? ==> var k := IndexOf(items, id).value;
      r.value[k] == MergeItem(items[k], data)
      && forall j :: 0 <= j < |items| && j != k ==> r.value[j] == items[j]
  {
    match IndexOf(items, id)
    case None => None
    case Some(k) => Some(items[k := MergeItem(items[k], data)])
  }

  /** `items.filter(it => it.id !== id)` */
  function RemoveId(items: seq<Item>, id: int): (r: seq<Item>)
    ensures forall i :: 0 <= i < |r| ==> r[i].id != id && r[i] in items
    ensures forall i :: 0 <= i < |items| && items[i].id != id ==> items[i] in r
    ensures forall x :: multiset(r)[x] == if x.id != id then multiset(items)[x] else 0
  {
    var keep := (it: Item) => it.id != id;
    FilterMultiset(items, keep);
    Filter(items, keep)
  }

  /** Deletion works piecewise, so the items that stay keep their relative order. */
  lemma RemoveIdAppend(a: seq<Item>, b: seq<Item>, id: int)
    ensures RemoveId(a + b, id) == RemoveId(a, id) + RemoveId(b, id)
  {
    FilterAppend(a, b, (it: Item) => it.id != id);
  }

  /** Deleting the first of two items by its id leaves the second. */
  lemma RemoveFirstOfTwo(a: Item, b: Item, id: int)
    requires a.id == id && b.id != id
    ensures RemoveId([a, b], id) == [b]
  {
    var p := (it: Item) => it.id != id;
    assert [a, b][1..] == [b];
    assert Filter([b], p) == [b] + Filter([b][1..], p);
  }

  /** `items.forEach(it => { it.isDefault = it.id === id })` */
  function MarkDefault(items: seq<Item>, id: int): (r: seq<Item>)
    ensures |r| == |items|
    ensures forall i :: 0 <= i < |r| ==> r[i] == items[i].(isDefault := items[i].id == id)
  {
    seq(|items|, i requires 0 <= i < |items| => items[i].(isDefault := items[i].id == id))
  }

  /** Number of items flagged as default. */
  function CountDefaults(items: seq<Item>): nat {
    if items == [] then 0 else (if items[0].isDefault then 1 else 0) + CountDefaults(items[1..])
  }

  /** Number of items carrying the given id. */
  function CountId(items: seq<Item>, id: int): nat {
    if items == [] then 0 else (if items[0].id == id then 1 else 0) + CountId(items[1..], id)
  }

  /** Ids are unique within the list. */
  predicate UniqueIds(items: seq<Item>) {
    forall i, j :: 0 <= i < j < |items| ==> items[i].id != items[j].id
  }

  lemma {:induction false} CountDefaultsAppend(a: seq<Item>, b: seq<Item>)
    ensures CountDefaults(a + b) == CountDefaults(a) + CountDefaults(b)
  {
    if a == [] {
      assert a + b == b;
    } else {
      assert (a + b)[1..] == a[1..] + b;
      CountDefaultsAppend(a[1..], b);
    }
  }

  lemma {:induction false} CountIdZero(items: seq<Item>, id: int)
    ensures CountId(items, id) == 0 <==> forall i :: 0 <= i < |items| ==> items[i].id != id
  {
    if items != [] {
      CountIdZero(items[1..], id);
      assert forall i :: 1 <= i < |items| ==> items[i] == items[1..][i - 1];
    }
  }

  lemma {:induction false} CountIdUnique(items: seq<Item>, id: int)
    requires UniqueIds(items)
    ensures CountId(items, id) <= 1
  {
    if items != [] {
      CountIdUnique(items[1..], id);
      if items[0].id == id {
        CountIdZero(items[1..], id);
      }
    }
  }

  /** After re-flagging, the defaults are exactly the items carrying the target id. */
  lemma {:induction false} MarkDefaultCount(items: seq<Item>, id: int)
    ensures CountDefaults(MarkDefault(items, id)) == CountId(items, id)
  {
    if items != [] {
      MarkDefaultCount(items[1..], id);
      assert MarkDefault(items, id)[1..] == MarkDefault(items[1..], id);
    }
  }

  /**
   * setDefault with unique ids: exactly one default when the target exists, and none
   * when it does not.
   */
  lemma MarkDefaultExactlyOne(items: seq<Item>, id: int)
    requires UniqueIds(items)
    ensures IndexOf(items, id).Some? ==> CountDefaults(MarkDefault(items, id)) == 1
    ensures IndexOf(items, id).None? ==> CountDefaults(MarkDefault(items, id)) == 0
  {
    MarkDefaultCount(items, id);
    CountIdUnique(items, id);
    CountIdZero(items, id);
  }

  /** Re-flagging the default is idempotent. */
  lemma MarkDefaultIdempotent(items: seq<Item>, id: int)
    ensures MarkDefault(MarkDefault(items, id), id) == MarkDefault(items, id)
  {
  }

  /** Appending the new item keeps "at most one default" (it is default only in an empty list). */
  lemma NewItemKeepsAtMostOneDefault(items: seq<Item>, data: ItemData, freshId: int)
    requires CountDefaults(items) <= 1
    ensures CountDefaults(items + [NewItem(items, data, freshId)]) <= 1
  {
    CountDefaultsAppend(items, [NewItem(items, data, freshId)]);
    assert CountDefaults([NewItem(items, data, freshId)]) == (if items == [] then 1 else 0);
  }

  /** Deletion never flags anything: the survivors carry no more defaults than before. */
  lemma {:induction false} RemoveIdNeverPromotes(items: seq<Item>, id: int)
    ensures CountDefaults(RemoveId(items, id)) <= CountDefaults(items)
  {
    if items != [] {
      RemoveIdNeverPromotes(items[1..], id);
      var p := (it: Item) => it.id != id;
      assert items == [items[0]] + items[1..];
      FilterCons(items[0], items[1..], p);
      assert RemoveId(items, id) == (if p(items[0]) then [items[0]] else []) + RemoveId(items[1..], id);
      CountDefaultsAppend(if p(items[0]) then [items[0]] else [], RemoveId(items[1..], id));
    }
  }

  /** Deleting the only default item leaves the list with no default at all. */
  lemma {:induction false} RemoveOnlyDefault(items: seq<Item>, id: int)
    requires CountDefaults(items) == 1
    requires forall i :: 0 <= i < |items| && items[i].isDefault ==> items[i].id == id
    ensures CountDefaults(RemoveId(items, id)) == 0
  {
    var r := RemoveId(items, id);
    forall i | 0 <= i < |r|
      ensures !r[i].isDefault
    {
      var k :| 0 <= k < |items| && items[k] == r[i];
    }
    NoDefaultsCountZero(r);
  }

  lemma {:induction false} NoDefaultsCountZero(items: seq<Item>)
    requires forall i :: 0 <= i < |items| ==> !items[i].isDefault
    ensures CountDefaults(items) == 0
  {
    if items != [] {
      NoDefaultsCountZero(items[1..]);
    }
  }
}
