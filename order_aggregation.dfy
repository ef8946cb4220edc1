/** `OrderAggregationServiceImpl.groupAndSum`: turns flat order rows into
    users, each with its orders, each with its products and a total.

    The specification is the left fold the service performs, one record at
    a time (`Group`, built from `AddRecord`); `GroupAndSum` is the service's
    loop over an insertion-ordered map, proved equal to it. The modules
    OrderGrouping and UserGrouping state what the fold means: users in first-seen order,
    one per id, named after their first record; each user's orders are the
    grouping of that user's records alone; each order holds the products of
    its records in input order, with the total of their amounts. */
module OrderAggregation {
  import opened Wrappers
  import opened Money
  import opened Numbers
  import opened Orders

  // ---------------------------------------------------------------------
  // The fold
  // ---------------------------------------------------------------------

  function ToProduct(r: OrderRecord): ProductDto {
    ProductDto(r.productId, r.productValue)
  }

  /** `o.order_id === orderId`: strict equality, under which NaN equals
      nothing, not even NaN. */
  predicate SameOrderId(a: Option<int>, b: Option<int>) {
    a.Some? && a == b
  }

  /** `parseFloat(value) || 0`, in cents. */
  function ValueCents(value: string): int {
    ParseCents(value).GetOr(0)
  }

  /** The sum of the products' amounts, in cents. */
  function SumCents(ps: seq<ProductDto>): int {
    if ps == [] then 0 else SumCents(ps[..|ps| - 1]) + ValueCents(ps[|ps| - 1].value)
  }

  /** `orders.find(o => o.order_id === id)`, as the index of the first
      order that matches. */
  function FindOrder(orders: seq<OrderDto>, id: Option<int>): (j: Option<nat>)
    ensures j.Some? ==> j.value < |orders| && SameOrderId(orders[j.value].orderId, id)
    ensures j.Some? ==> forall k :: 0 <= k < j.value ==> !SameOrderId(orders[k].orderId, id)
    ensures j.None? ==> forall k :: 0 <= k < |orders| ==> !SameOrderId(orders[k].orderId, id)
  {
    if orders == [] then None
    else if SameOrderId(orders[0].orderId, id) then Some(0)
    else match FindOrder(orders[1..], id)
      case None => None
      case Some(k) => Some(k + 1)
  }

  /** `userMap.has(id)` / `userMap.get(id)` over the users in insertion
      order: the index of the user with that id. Map keys compare with
      SameValueZero, under which NaN does equal NaN. */
  function FindUser(users: seq<UserDto>, id: Option<int>): (j: Option<nat>)
    ensures j.Some? ==> j.value < |users| && users[j.value].userId == id
    ensures j.Some? ==> forall k :: 0 <= k < j.value ==> users[k].userId != id
    ensures j.None? ==> forall k :: 0 <= k < |users| ==> users[k].userId != id
  {
    if users == [] then None
    else if users[0].userId == id then Some(0)
    else match FindUser(users[1..], id)
      case None => None
      case Some(k) => Some(k + 1)
  }

  /** The order a record opens when its order id is not found; its total
      is overwritten as soon as the record's product is added. */
  function NewOrder(r: OrderRecord): OrderDto {
    OrderDto(r.orderId, "0", r.date, [])
  }

  /** Push the record's product and recompute the total from all products. */
  function AddProduct(o: OrderDto, r: OrderRecord): OrderDto {
    var ps := o.products + [ToProduct(r)];
    o.(products := ps, total := FormatCents(SumCents(ps)))
  }

  /** One step at the order level: the record's product goes to the first
      order with its id, or to a new order appended at the end. */
  function AddToOrders(orders: seq<OrderDto>, r: OrderRecord): seq<OrderDto> {
    match FindOrder(orders, r.orderId)
    case Some(j) => orders[j := AddProduct(orders[j], r)]
    case None => orders + [AddProduct(NewOrder(r), r)]
  }

  /** The orders that a sequence of records of one user folds into. */
  function GroupOrders(rs: seq<OrderRecord>): seq<OrderDto> {
    if rs == [] then [] else AddToOrders(GroupOrders(rs[..|rs| - 1]), rs[|rs| - 1])
  }

  function NewUser(r: OrderRecord): UserDto {
    UserDto(r.userId, r.name, [])
  }

  function AddToUser(u: UserDto, r: OrderRecord): UserDto {
    u.(orders := AddToOrders(u.orders, r))
  }

  /** One step of `groupAndSum`: the record goes to its user, who is
      created (with the record's name) at the end when not yet present. */
  function AddRecord(users: seq<UserDto>, r: OrderRecord): seq<UserDto> {
    match FindUser(users, r.userId)
    case Some(j) => users[j := AddToUser(users[j], r)]
    case None => users + [AddToUser(NewUser(r), r)]
  }

  /** What `groupAndSum(rs)` returns. */
  function Group(rs: seq<OrderRecord>): seq<UserDto> {
    if rs == [] then [] else AddRecord(Group(rs[..|rs| - 1]), rs[|rs| - 1])
  }

  // ---------------------------------------------------------------------
  // The service's loop
  // ---------------------------------------------------------------------

  /** `userMap` together with its insertion order `keys`: every key once,
      the same keys in both, and each user stored under its own id. */
  ghost predicate MapMirrors(keys: seq<Option<int>>, userMap: map<Option<int>, UserDto>) {
    && (forall i, j :: 0 <= i < j < |keys| ==> keys[i] != keys[j])
    && (forall k :: k in userMap <==> k in keys)
    && (forall k :: k in userMap ==> userMap[k].userId == k)
  }

  /** `Array.from(userMap.values())`. */
  function InOrder(keys: seq<Option<int>>, userMap: map<Option<int>, UserDto>): seq<UserDto>
    requires forall k :: k in keys ==> k in userMap
  {
    seq(|keys|, j requires 0 <= j < |keys| => userMap[keys[j]])
  }

  /** `groupAndSum`: the `forEach` over the records, with `userMap` a map
      plus its insertion order, followed by `Array.from(userMap.values())`. */
  method GroupAndSum(records: seq<OrderRecord>) returns (users: seq<UserDto>)
    ensures users == Group(records)
  {
    var userMap: map<Option<int>, UserDto> := map[];
    var keys: seq<Option<int>> := [];
    for i := 0 to |records|
      invariant MapMirrors(keys, userMap)
      invariant InOrder(keys, userMap) == Group(records[..i])
    {
      assert records[..i + 1][..i] == records[..i];
      assert Group(records[..i + 1]) == AddRecord(Group(records[..i]), records[i]);
      keys, userMap := AddToMap(keys, userMap, records[i]);
    }
    assert records[..|records|] == records;
    users := Values(keys, userMap);
  }

  /** The body of the `forEach`: create the user if the map lacks it, then
      add the record to that user's orders and store the user back. */
  method AddToMap(keys: seq<Option<int>>, userMap: map<Option<int>, UserDto>, r: OrderRecord)
    returns (keys': seq<Option<int>>, userMap': map<Option<int>, UserDto>)
    requires MapMirrors(keys, userMap)
    ensures MapMirrors(keys', userMap')
    ensures InOrder(keys', userMap') == AddRecord(InOrder(keys, userMap), r)
  {
    keys', userMap' := keys, userMap;
    if r.userId !in userMap' {
      userMap' := userMap'[r.userId := NewUser(r)];
      keys' := keys' + [r.userId];
    }
    var user := userMap'[r.userId];
    var orders := AddOrderProduct(user.orders, r);
    ghost var stored := userMap';
    userMap' := userMap'[r.userId := user.(orders := orders)];
    StoreUser(stored, r, user, orders);
    if r.userId in userMap {
      assert stored == userMap;
      ExistingUserStep(keys, userMap, r);
    } else {
      assert user == NewUser(r);
      Overwrite(userMap, r.userId, NewUser(r), AddToUser(NewUser(r), r));
      NewUserStep(keys, userMap, r);
    }
  }

  lemma Overwrite<K, V>(m: map<K, V>, k: K, a: V, b: V)
    ensures m[k := a][k := b] == m[k := b]
  {
  }

  lemma StoreUser(stored: map<Option<int>, UserDto>, r: OrderRecord, user: UserDto, orders: seq<OrderDto>)
    requires r.userId in stored && user == stored[r.userId]
    requires orders == AddToOrders(user.orders, r)
    ensures stored[r.userId := user.(orders := orders)] == stored[r.userId := AddToUser(user, r)]
  {
  }

  /** `Array.from(userMap.values())`: the users in insertion order. */
  method Values(keys: seq<Option<int>>, userMap: map<Option<int>, UserDto>) returns (users: seq<UserDto>)
    requires forall k :: k in keys ==> k in userMap
    ensures users == InOrder(keys, userMap)
  {
    users := [];
    for k := 0 to |keys|
      invariant |users| == k
      invariant forall j :: 0 <= j < k ==> users[j] == userMap[keys[j]]
    {
      users := users + [userMap[keys[k]]];
    }
  }

  /** The body of the `forEach` below the user lookup: find the order,
      open it if missing, push the product and recompute the total. */
  method AddOrderProduct(orders: seq<OrderDto>, r: OrderRecord) returns (updated: seq<OrderDto>)
    ensures updated == AddToOrders(orders, r)
  {
    var found := FindOrderIndex(orders, r.orderId);
    updated := orders;
    var j: nat;
    if found.None? {
      updated := updated + [NewOrder(r)];
      j := |updated| - 1;
    } else {
      j := found.value;
    }
    var products := updated[j].products + [ToProduct(r)];
    var total := OrderTotal(products);
    updated := updated[j := updated[j].(products := products, total := total)];
  }

  /** In insertion order, the user at position `j` has id `keys[j]`. */
  lemma InOrderIds(keys: seq<Option<int>>, userMap: map<Option<int>, UserDto>, j: nat)
    requires MapMirrors(keys, userMap) && j < |keys|
    ensures InOrder(keys, userMap)[j].userId == keys[j]
  {
  }

  /** Replacing the user under an existing key replaces it in place. */
  lemma ReplaceKey(keys: seq<Option<int>>, userMap: map<Option<int>, UserDto>, j: nat, u: UserDto)
    requires MapMirrors(keys, userMap) && j < |keys| && u.userId == keys[j]
    ensures MapMirrors(keys, userMap[keys[j] := u])
    ensures InOrder(keys, userMap[keys[j] := u]) == InOrder(keys, userMap)[j := u]
    ensures forall k :: 0 <= k < j ==> InOrder(keys, userMap)[k].userId != keys[j]
  {
    var m := userMap[keys[j] := u];
    var after := InOrder(keys, m);
    var before := InOrder(keys, userMap);
    forall k | 0 <= k < |keys|
      ensures after[k] == before[j := u][k]
    {
      if k != j {
        assert keys[k] != keys[j];
      }
    }
  }

  /** Inserting a new key appends its user at the end. */
  lemma AppendKey(keys: seq<Option<int>>, userMap: map<Option<int>, UserDto>, u: UserDto)
    requires MapMirrors(keys, userMap) && u.userId !in userMap
    ensures MapMirrors(keys + [u.userId], userMap[u.userId := u])
    ensures InOrder(keys + [u.userId], userMap[u.userId := u]) == InOrder(keys, userMap) + [u]
    ensures forall k :: 0 <= k < |keys| ==> InOrder(keys, userMap)[k].userId != u.userId
  {
    var keys' := keys + [u.userId];
    var m := userMap[u.userId := u];
    assert u.userId !in keys;
    assert forall k :: k in m <==> k in keys';
    var after := InOrder(keys', m);
    var before := InOrder(keys, userMap);
    forall k | 0 <= k < |keys|
      ensures after[k] == before[k]
    {
      assert keys'[k] == keys[k] != u.userId;
    }
    assert after == before + [u];
  }

  /** The step for a record whose user is already in the map. */
  lemma ExistingUserStep(keys: seq<Option<int>>, userMap: map<Option<int>, UserDto>, r: OrderRecord)
    requires MapMirrors(keys, userMap) && r.userId in userMap
    ensures MapMirrors(keys, userMap[r.userId := AddToUser(userMap[r.userId], r)])
    ensures InOrder(keys, userMap[r.userId := AddToUser(userMap[r.userId], r)])
         == AddRecord(InOrder(keys, userMap), r)
  {
    var before := InOrder(keys, userMap);
    assert r.userId in keys;
    var j :| 0 <= j < |keys| && keys[j] == r.userId;
    InOrderIds(keys, userMap, j);
    assert before[j] == userMap[r.userId];
    ReplaceKey(keys, userMap, j, AddToUser(before[j], r));
    var f := FindUser(before, r.userId);
    assert f.Some? && f.value <= j;
    assert f.value == j;
    assert AddRecord(before, r) == before[j := AddToUser(before[j], r)];
  }

  /** The step for a record whose user is not yet in the map. */
  lemma NewUserStep(keys: seq<Option<int>>, userMap: map<Option<int>, UserDto>, r: OrderRecord)
    requires MapMirrors(keys, userMap) && r.userId !in userMap
    ensures MapMirrors(keys + [r.userId], userMap[r.userId := AddToUser(NewUser(r), r)])
    ensures InOrder(keys + [r.userId], userMap[r.userId := AddToUser(NewUser(r), r)])
         == AddRecord(InOrder(keys, userMap), r)
  {
    AppendKey(keys, userMap, AddToUser(NewUser(r), r));
    assert FindUser(InOrder(keys, userMap), r.userId) == None;
  }

  /** `orders.find(o => o.order_id === id)` as a loop. */
  method FindOrderIndex(orders: seq<OrderDto>, id: Option<int>) returns (found: Option<nat>)
    ensures found == FindOrder(orders, id)
  {
    var i := 0;
    while i < |orders|
      invariant 0 <= i <= |orders|
      invariant forall k :: 0 <= k < i ==> !SameOrderId(orders[k].orderId, id)
    {
      if orders[i].orderId == id && id.Some? {
        return Some(i);
      }
      i := i + 1;
    }
    return None;
  }

  /** `products.reduce((sum, p) => sum + (parseFloat(p.value) || 0), 0)
      .toFixed(2)`, in cents. */
  method OrderTotal(products: seq<ProductDto>) returns (total: string)
    ensures total == FormatCents(SumCents(products))
  {
    var sum := 0;
    for k := 0 to |products|
      invariant sum == SumCents(products[..k])
    {
      assert products[..k + 1][..k] == products[..k];
      sum := sum + ValueCents(products[k].value);
    }
    assert products[..|products|] == products;
    total := FormatCents(sum);
  }

  // ---------------------------------------------------------------------
  // Totals
  // ---------------------------------------------------------------------

  lemma SumCentsSnoc(ps: seq<ProductDto>, p: ProductDto)
    ensures SumCents(ps + [p]) == SumCents(ps) + ValueCents(p.value)
  {
    assert (ps + [p])[..|ps|] == ps;
  }

  /** Products whose values are two-decimal amounts. */
  function Amounts(cs: seq<int>): (ps: seq<ProductDto>)
    ensures |ps| == |cs|
  {
    seq(|cs|, i requires 0 <= i < |cs| => ProductDto(None, FormatCents(cs[i])))
  }

  function Sum(cs: seq<int>): int {
    if cs == [] then 0 else Sum(cs[..|cs| - 1]) + cs[|cs| - 1]
  }

  /** A two-decimal amount counts as its own number of cents. */
  lemma AmountValue(c: int)
    ensures ValueCents(FormatCents(c)) == c
  {
    ParseFormatCents(c);
  }

  lemma AmountsSnoc(cs: seq<int>, c: int)
    ensures Amounts(cs + [c]) == Amounts(cs) + [ProductDto(None, FormatCents(c))]
  {
  }

  lemma SumSnoc(cs: seq<int>, c: int)
    ensures Sum(cs + [c]) == Sum(cs) + c
  {
    assert (cs + [c])[..|cs|] == cs;
  }

  /** Amounts written with two decimals add up exactly: the total of such
      products is the sum of their cents. */
  lemma {:induction false} SumOfAmounts(cs: seq<int>)
    ensures SumCents(Amounts(cs)) == Sum(cs)
  {
    if cs != [] {
      var q := cs[..|cs| - 1];
      var c := cs[|cs| - 1];
      assert cs == q + [c];
      SumOfAmounts(q);
      AmountsSnoc(q, c);
      SumSnoc(q, c);
      SumCentsSnoc(Amounts(q), ProductDto(None, FormatCents(c)));
      AmountValue(c);
    }
  }

  /** A value that is not a number adds nothing to the total. */
  lemma NotNumberAddsNothing(ps: seq<ProductDto>, p: ProductDto)
    requires ParseCents(p.value).None?
    ensures SumCents(ps + [p]) == SumCents(ps)
  {
    SumCentsSnoc(ps, p);
  }

  lemma SumThree(a: int, b: int, c: int)
    ensures Sum([a, b, c]) == a + b + c
  {
    SumSnoc([], a);
    assert [] + [a] == [a];
    SumSnoc([a], b);
    assert [a] + [b] == [a, b];
    SumSnoc([a, b], c);
    assert [a, b] + [c] == [a, b, c];
  }

  /** The text "NaN" is not a number, and so adds nothing. */
  lemma NaNAddsNothing(ps: seq<ProductDto>, id: Option<int>)
    ensures SumCents(ps + [ProductDto(id, "NaN")]) == SumCents(ps)
  {
    ParseCentsNotNumber("NaN");
    NotNumberAddsNothing(ps, ProductDto(id, "NaN"));
  }
}
