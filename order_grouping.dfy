/** What the order-level fold `GroupOrders` computes, stated without the
    fold: one order per key in first-seen order, where a record's key is its
    order id, or — for a NaN order id, which `===` never matches — the
    record's own position, so that such a record always opens an order of
    its own. Each order holds the products of its key's records in input
    order, its date is the first of those records' date, and its total is
    the formatted sum of their amounts. */
module OrderGrouping {
  import opened Wrappers
  import opened Money
  import opened Orders
  import opened Seqs
  import opened OrderAggregation

  datatype OrderKey = ById(id: int) | Lone(index: nat)

  /** The key of record `r` found at position `i`. */
  function KeyAt(r: OrderRecord, i: nat): OrderKey {
    match r.orderId
    case Some(v) => ById(v)
    case None => Lone(i)
  }

  /** Whether an order id is one a record of key `k` can carry. */
  predicate Carries(id: Option<int>, k: OrderKey) {
    match k
    case ById(v) => id == Some(v)
    case Lone(_) => id.None?
  }

  function OrderKeys(rs: seq<OrderRecord>): (ks: seq<OrderKey>)
    ensures |ks| == |rs|
  {
    seq(|rs|, i requires 0 <= i < |rs| => KeyAt(rs[i], i))
  }

  /** The records of `rs` whose key is `k`, in input order. */
  function RecordsWithKey(rs: seq<OrderRecord>, k: OrderKey): (recs: seq<OrderRecord>)
    ensures forall i :: 0 <= i < |recs| ==> Carries(recs[i].orderId, k)
  {
    if rs == [] then []
    else
      var p := RecordsWithKey(rs[..|rs| - 1], k);
      if KeyAt(rs[|rs| - 1], |rs| - 1) == k then p + [rs[|rs| - 1]] else p
  }

  function Products(recs: seq<OrderRecord>): (ps: seq<ProductDto>)
    ensures |ps| == |recs|
    ensures forall i :: 0 <= i < |recs| ==> ps[i] == ProductDto(recs[i].productId, recs[i].productValue)
  {
    seq(|recs|, i requires 0 <= i < |recs| => ToProduct(recs[i]))
  }

  /** The order the records of one key make up. */
  function OrderOf(recs: seq<OrderRecord>): OrderDto
    requires recs != []
  {
    var ps := Products(recs);
    OrderDto(recs[0].orderId, FormatCents(SumCents(ps)), recs[0].date, ps)
  }

  /** The orders, stated directly: one per key in first-seen order. */
  function ReferenceOrders(rs: seq<OrderRecord>): seq<OrderDto> {
    var ks := FirstOccurrences(OrderKeys(rs));
    seq(|ks|, j requires 0 <= j < |ks| =>
      (KeyPresent(rs, ks[j]); OrderOf(RecordsWithKey(rs, ks[j]))))
  }

  /** A key has records exactly when it occurs among the keys. */
  lemma {:induction false} KeyPresent(rs: seq<OrderRecord>, k: OrderKey)
    ensures k in FirstOccurrences(OrderKeys(rs)) <==> RecordsWithKey(rs, k) != []
  {
    FirstOccurrencesMember(OrderKeys(rs), k);
    if rs != [] {
      var p := rs[..|rs| - 1];
      KeyPresent(p, k);
      FirstOccurrencesMember(OrderKeys(p), k);
      OrderKeysSnoc(p, rs[|rs| - 1]);
      assert rs == p + [rs[|rs| - 1]];
    }
  }

  lemma OrderKeysSnoc(p: seq<OrderRecord>, r: OrderRecord)
    ensures OrderKeys(p + [r]) == OrderKeys(p) + [KeyAt(r, |p|)]
  {
    assert forall i :: 0 <= i < |p| ==> (p + [r])[i] == p[i];
  }

  lemma RecordsWithKeySnoc(p: seq<OrderRecord>, r: OrderRecord, k: OrderKey)
    ensures RecordsWithKey(p + [r], k)
         == RecordsWithKey(p, k) + (if KeyAt(r, |p|) == k then [r] else [])
  {
    assert (p + [r])[..|p|] == p;
  }

  lemma GroupOrdersSnoc(p: seq<OrderRecord>, r: OrderRecord)
    ensures GroupOrders(p + [r]) == AddToOrders(GroupOrders(p), r)
  {
    assert (p + [r])[..|p|] == p;
  }

  lemma ProductsSnoc(recs: seq<OrderRecord>, r: OrderRecord)
    ensures Products(recs + [r]) == Products(recs) + [ToProduct(r)]
  {
  }

  /** A record with a NaN order id is the only record of its key. */
  lemma {:induction false} LoneKeyFresh(p: seq<OrderRecord>, i: nat)
    requires i >= |p|
    ensures Lone(i) !in OrderKeys(p)
    ensures RecordsWithKey(p, Lone(i)) == []
  {
    if p != [] {
      var q := p[..|p| - 1];
      LoneKeyFresh(q, i);
    }
  }

  /** Adding a record's product to the order of its key. */
  lemma AddProductOrderOf(recs: seq<OrderRecord>, r: OrderRecord)
    requires recs != []
    ensures AddProduct(OrderOf(recs), r) == OrderOf(recs + [r])
  {
    ProductsSnoc(recs, r);
  }

  /** The reference orders carry their keys' ids, so `FindOrder` finds the
      order of a record's key exactly when that key is already present. */
  lemma FindReference(p: seq<OrderRecord>, r: OrderRecord)
    ensures var ks := FirstOccurrences(OrderKeys(p));
      match FindOrder(ReferenceOrders(p), r.orderId)
      case Some(j) => j < |ks| && ks[j] == KeyAt(r, |p|)
      case None => KeyAt(r, |p|) !in ks
  {
    var ks := FirstOccurrences(OrderKeys(p));
    var os := ReferenceOrders(p);
    var k := KeyAt(r, |p|);
    FirstOccurrencesFacts(OrderKeys(p));
    forall j | 0 <= j < |ks|
      ensures SameOrderId(os[j].orderId, r.orderId) <==> ks[j] == k
    {
      KeyPresent(p, ks[j]);
      var recs := RecordsWithKey(p, ks[j]);
      assert Carries(recs[0].orderId, ks[j]);
      if ks[j].Lone? {
        assert ks[j] in OrderKeys(p);
        LoneKeyFresh(p, |p|);
      }
    }
    if FindOrder(os, r.orderId).None? {
      forall j | 0 <= j < |ks|
        ensures ks[j] != k
      {
        assert !SameOrderId(os[j].orderId, r.orderId);
      }
    }
  }

  /** One step of the fold keeps the orders equal to the reference. */
  lemma AddToOrdersStep(p: seq<OrderRecord>, r: OrderRecord)
    ensures AddToOrders(ReferenceOrders(p), r) == ReferenceOrders(p + [r])
  {
    var k := KeyAt(r, |p|);
    var ks := FirstOccurrences(OrderKeys(p));
    OrderKeysSnoc(p, r);
    assert FirstOccurrences(OrderKeys(p + [r])) == if k in ks then ks else ks + [k] by {
      assert (OrderKeys(p) + [k])[..|p|] == OrderKeys(p);
    }
    FindReference(p, r);
    if k in ks {
      ExistingKeyStep(p, r);
    } else {
      NewKeyStep(p, r);
    }
  }

  /** Other keys keep their orders when a record is added. */
  lemma OtherKeysUnchanged(p: seq<OrderRecord>, r: OrderRecord, j: nat)
    requires FirstOccurrences(OrderKeys(p + [r])) == FirstOccurrences(OrderKeys(p)) + [KeyAt(r, |p|)]
          || FirstOccurrences(OrderKeys(p + [r])) == FirstOccurrences(OrderKeys(p))
    requires j < |FirstOccurrences(OrderKeys(p))|
    requires FirstOccurrences(OrderKeys(p))[j] != KeyAt(r, |p|)
    ensures ReferenceOrders(p + [r])[j] == ReferenceOrders(p)[j]
  {
    RecordsWithKeySnoc(p, r, FirstOccurrences(OrderKeys(p))[j]);
  }

  lemma ExistingKeyStep(p: seq<OrderRecord>, r: OrderRecord)
    requires FirstOccurrences(OrderKeys(p + [r])) == FirstOccurrences(OrderKeys(p))
    requires FindOrder(ReferenceOrders(p), r.orderId).Some?
    requires FirstOccurrences(OrderKeys(p))[FindOrder(ReferenceOrders(p), r.orderId).value] == KeyAt(r, |p|)
    ensures AddToOrders(ReferenceOrders(p), r) == ReferenceOrders(p + [r])
  {
    var k := KeyAt(r, |p|);
    var ks := FirstOccurrences(OrderKeys(p));
    var os := ReferenceOrders(p);
    var after := ReferenceOrders(p + [r]);
    var j := FindOrder(os, r.orderId).value;
    OtherOrdersUnchanged(p, r, j);
    SameKeyExtended(p, r, j);
    JoinedAt(os, after, r, j);
  }

  /** Adding a record whose order is found at `j` adds its product to
      that order and leaves the others as they were. */
  lemma JoinedAt(os: seq<OrderDto>, after: seq<OrderDto>, r: OrderRecord, j: nat)
    requires FindOrder(os, r.orderId).Some? && FindOrder(os, r.orderId).value == j
    requires |after| == |os| && j < |os| && after[j] == AddProduct(os[j], r)
    requires forall i :: 0 <= i < |os| && i != j ==> after[i] == os[i]
    ensures AddToOrders(os, r) == after
  {
    UpdatedAt(after, os, j, AddProduct(os[j], r));
  }

  /** When a record joins the order at `j`, every other order stays as
      it was. */
  lemma OtherOrdersUnchanged(p: seq<OrderRecord>, r: OrderRecord, j: nat)
    requires FirstOccurrences(OrderKeys(p + [r])) == FirstOccurrences(OrderKeys(p))
    requires j < |FirstOccurrences(OrderKeys(p))|
    requires FirstOccurrences(OrderKeys(p))[j] == KeyAt(r, |p|)
    ensures |ReferenceOrders(p + [r])| == |ReferenceOrders(p)|
    ensures forall i :: 0 <= i < |ReferenceOrders(p)| && i != j ==>
      ReferenceOrders(p + [r])[i] == ReferenceOrders(p)[i]
  {
    var ks := FirstOccurrences(OrderKeys(p));
    forall i | 0 <= i < |ks| && i != j
      ensures ReferenceOrders(p + [r])[i] == ReferenceOrders(p)[i]
    {
      FirstOccurrencesDistinct(OrderKeys(p), i, j);
      OtherKeysUnchanged(p, r, i);
    }
  }

  /** The key of the added record gets the record's product. */
  lemma SameKeyExtended(p: seq<OrderRecord>, r: OrderRecord, j: nat)
    requires FirstOccurrences(OrderKeys(p + [r])) == FirstOccurrences(OrderKeys(p))
    requires j < |FirstOccurrences(OrderKeys(p))|
    requires FirstOccurrences(OrderKeys(p))[j] == KeyAt(r, |p|)
    ensures ReferenceOrders(p + [r])[j] == AddProduct(ReferenceOrders(p)[j], r)
  {
    var k := KeyAt(r, |p|);
    FirstOccurrencesFacts(OrderKeys(p));
    RecordsWithKeySnoc(p, r, k);
    KeyPresent(p, k);
    AddProductOrderOf(RecordsWithKey(p, k), r);
  }

  lemma NewKeyStep(p: seq<OrderRecord>, r: OrderRecord)
    requires FirstOccurrences(OrderKeys(p + [r])) == FirstOccurrences(OrderKeys(p)) + [KeyAt(r, |p|)]
    requires FindOrder(ReferenceOrders(p), r.orderId).None?
    requires KeyAt(r, |p|) !in FirstOccurrences(OrderKeys(p))
    ensures AddToOrders(ReferenceOrders(p), r) == ReferenceOrders(p + [r])
  {
    var k := KeyAt(r, |p|);
    var ks := FirstOccurrences(OrderKeys(p));
    var os := ReferenceOrders(p);
    var after := ReferenceOrders(p + [r]);
    var extended := os + [AddProduct(NewOrder(r), r)];
    assert AddToOrders(os, r) == extended;
    forall i | 0 <= i <= |ks|
      ensures after[i] == extended[i]
    {
      if i < |ks| {
        OtherKeysUnchanged(p, r, i);
      } else {
        NewKeyOrder(p, r);
      }
    }
    assert |after| == |ks| + 1 == |extended|;
  }

  /** The records of a key not seen before are just the new record. */
  lemma NewKeyOrder(p: seq<OrderRecord>, r: OrderRecord)
    requires KeyAt(r, |p|) !in FirstOccurrences(OrderKeys(p))
    ensures RecordsWithKey(p + [r], KeyAt(r, |p|)) == [r]
    ensures OrderOf([r]) == AddProduct(NewOrder(r), r)
  {
    var k := KeyAt(r, |p|);
    RecordsWithKeySnoc(p, r, k);
    KeyPresent(p, k);
    assert RecordsWithKey(p, k) == [];
    assert RecordsWithKey(p + [r], k) == [] + [r];
    SingleOrder(r);
  }

  lemma SingleOrder(r: OrderRecord)
    ensures OrderOf([r]) == AddProduct(NewOrder(r), r)
  {
    var ps := Products([r]);
    assert ps == NewOrder(r).products + [ToProduct(r)];
  }

  /** `GroupOrders` is the reference grouping. */
  lemma {:induction false} GroupOrdersIsReference(rs: seq<OrderRecord>)
    ensures GroupOrders(rs) == ReferenceOrders(rs)
  {
    if rs != [] {
      GroupOrdersIsReference(rs[..|rs| - 1]);
      AddToOrdersStepLast(rs);
    }
  }

  lemma AddToOrdersStepLast(rs: seq<OrderRecord>)
    requires rs != []
    ensures AddToOrders(ReferenceOrders(rs[..|rs| - 1]), rs[|rs| - 1]) == ReferenceOrders(rs)
  {
    var p := rs[..|rs| - 1];
    var r := rs[|rs| - 1];
    assert rs == p + [r];
    AddToOrdersStep(p, r);
  }

  // ---------------------------------------------------------------------
  // Consequences
  // ---------------------------------------------------------------------

  function ProductsIn(o: OrderDto): nat {
    |o.products|
  }

  /** Every record adds exactly one product: the orders hold as many
      products as there are records. */
  lemma {:induction false} GroupOrdersProductCount(rs: seq<OrderRecord>)
    ensures Total(GroupOrders(rs), ProductsIn) == |rs|
  {
    if rs != [] {
      var p := rs[..|rs| - 1];
      GroupOrdersProductCount(p);
      AddToOrdersCount(GroupOrders(p), rs[|rs| - 1]);
    }
  }

  lemma AddToOrdersCount(os: seq<OrderDto>, r: OrderRecord)
    ensures Total(AddToOrders(os, r), ProductsIn) == Total(os, ProductsIn) + 1
  {
    match FindOrder(os, r.orderId)
    case Some(j) =>
      TotalUpdate(os, j, AddProduct(os[j], r), ProductsIn);
    case None =>
      TotalSnoc(os, AddProduct(NewOrder(r), r), ProductsIn);
  }

  /** The orders of a grouping: each order's id is its key's id (NaN for a
      record with a NaN order id), its products are its records' products
      in input order, its date is its first record's date and its total the
      formatted sum of its products' amounts. The keys are distinct and in
      the order they first occur. */
  lemma OrdersOfGroup(rs: seq<OrderRecord>)
    ensures var os := GroupOrders(rs); var ks := FirstOccurrences(OrderKeys(rs));
      && |os| == |ks|
      && Distinct(ks)
      && (forall k :: k in ks <==> k in OrderKeys(rs))
      && (forall j :: 0 <= j < |os| ==>
            var recs := RecordsWithKey(rs, ks[j]);
            && recs != []
            && Carries(os[j].orderId, ks[j])
            && os[j].products == Products(recs)
            && os[j].date == recs[0].date
            && os[j].total == FormatCents(SumCents(os[j].products)))
  {
    GroupOrdersIsReference(rs);
    FirstOccurrencesFacts(OrderKeys(rs));
    var ks := FirstOccurrences(OrderKeys(rs));
    forall j | 0 <= j < |ks|
      ensures RecordsWithKey(rs, ks[j]) != []
    {
      KeyPresent(rs, ks[j]);
    }
  }

  /** No two orders share an order id; only NaN ids repeat. */
  lemma OrderIdsDistinct(rs: seq<OrderRecord>)
    ensures var os := GroupOrders(rs);
      forall i, j :: 0 <= i < j < |os| && os[i].orderId.Some? ==> os[i].orderId != os[j].orderId
  {
    OrdersOfGroup(rs);
  }

  /** Every record with a numeric order id has an order with that id. */
  lemma EveryOrderIdGrouped(rs: seq<OrderRecord>, i: nat) returns (j: nat)
    requires i < |rs| && rs[i].orderId.Some?
    ensures j < |GroupOrders(rs)| && GroupOrders(rs)[j].orderId == rs[i].orderId
  {
    OrdersOfGroup(rs);
    var ks := FirstOccurrences(OrderKeys(rs));
    var k := KeyAt(rs[i], i);
    assert OrderKeys(rs)[i] == k;
    assert k in ks;
    j := FirstIndex(ks, k);
    assert Carries(GroupOrders(rs)[j].orderId, k);
  }
}
