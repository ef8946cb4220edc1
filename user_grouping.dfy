/** What `Group` computes, stated without the fold: one user per distinct
    user id in first-seen order (ids compare as map keys do, so every NaN
    id is the same user), named after that user's first record, whose
    orders are the order-level grouping of that user's records alone. */
module UserGrouping {
  import opened Wrappers
  import opened Orders
  import opened Seqs
  import opened OrderAggregation
  import opened OrderGrouping

  function UserIds(rs: seq<OrderRecord>): (ids: seq<Option<int>>)
    ensures |ids| == |rs|
  {
    seq(|rs|, i requires 0 <= i < |rs| => rs[i].userId)
  }

  /** The records of `rs` with user id `id`, in input order. */
  function RecordsOfUser(rs: seq<OrderRecord>, id: Option<int>): (recs: seq<OrderRecord>)
    ensures forall i :: 0 <= i < |recs| ==> recs[i].userId == id
  {
    if rs == [] then []
    else
      var p := RecordsOfUser(rs[..|rs| - 1], id);
      if rs[|rs| - 1].userId == id then p + [rs[|rs| - 1]] else p
  }

  /** The user the records of one id make up. */
  function UserOf(recs: seq<OrderRecord>): UserDto
    requires recs != []
  {
    UserDto(recs[0].userId, recs[0].name, GroupOrders(recs))
  }

  /** The users, stated directly: one per id in first-seen order. */
  function ReferenceGroup(rs: seq<OrderRecord>): seq<UserDto> {
    var ids := FirstOccurrences(UserIds(rs));
    seq(|ids|, j requires 0 <= j < |ids| =>
      (UserPresent(rs, ids[j]); UserOf(RecordsOfUser(rs, ids[j]))))
  }

  /** An id has records exactly when it occurs among the ids. */
  lemma {:induction false} UserPresent(rs: seq<OrderRecord>, id: Option<int>)
    ensures id in FirstOccurrences(UserIds(rs)) <==> RecordsOfUser(rs, id) != []
  {
    FirstOccurrencesMember(UserIds(rs), id);
    if rs != [] {
      var p := rs[..|rs| - 1];
      UserPresent(p, id);
      FirstOccurrencesMember(UserIds(p), id);
      UserIdsSnoc(p, rs[|rs| - 1]);
      assert rs == p + [rs[|rs| - 1]];
    }
  }

  lemma UserIdsSnoc(p: seq<OrderRecord>, r: OrderRecord)
    ensures UserIds(p + [r]) == UserIds(p) + [r.userId]
  {
    assert forall i :: 0 <= i < |p| ==> (p + [r])[i] == p[i];
  }

  lemma RecordsOfUserSnoc(p: seq<OrderRecord>, r: OrderRecord, id: Option<int>)
    ensures RecordsOfUser(p + [r], id)
         == RecordsOfUser(p, id) + (if r.userId == id then [r] else [])
  {
    assert (p + [r])[..|p|] == p;
  }

  lemma GroupSnoc(p: seq<OrderRecord>, r: OrderRecord)
    ensures Group(p + [r]) == AddRecord(Group(p), r)
  {
    assert (p + [r])[..|p|] == p;
  }

  /** Adding a record to the user of its id. */
  lemma AddToUserOf(recs: seq<OrderRecord>, r: OrderRecord)
    requires recs != []
    ensures AddToUser(UserOf(recs), r) == UserOf(recs + [r])
  {
    GroupOrdersSnoc(recs, r);
  }

  /** The reference users carry their ids, so `FindUser` finds the user of
      a record's id exactly when that id is already present. */
  lemma FindReferenceUser(p: seq<OrderRecord>, r: OrderRecord)
    ensures var ids := FirstOccurrences(UserIds(p));
      match FindUser(ReferenceGroup(p), r.userId)
      case Some(j) => j < |ids| && ids[j] == r.userId
      case None => r.userId !in ids
  {
    var ids := FirstOccurrences(UserIds(p));
    var us := ReferenceGroup(p);
    forall j | 0 <= j < |ids|
      ensures us[j].userId == ids[j]
    {
      UserPresent(p, ids[j]);
    }
  }

  /** Other ids keep their users when a record is added. */
  lemma OtherUsersUnchanged(p: seq<OrderRecord>, r: OrderRecord, j: nat)
    requires FirstOccurrences(UserIds(p + [r])) == FirstOccurrences(UserIds(p)) + [r.userId]
          || FirstOccurrences(UserIds(p + [r])) == FirstOccurrences(UserIds(p))
    requires j < |FirstOccurrences(UserIds(p))|
    requires FirstOccurrences(UserIds(p))[j] != r.userId
    ensures ReferenceGroup(p + [r])[j] == ReferenceGroup(p)[j]
  {
    RecordsOfUserSnoc(p, r, FirstOccurrences(UserIds(p))[j]);
  }

  lemma ExistingUserRecord(p: seq<OrderRecord>, r: OrderRecord)
    requires FirstOccurrences(UserIds(p + [r])) == FirstOccurrences(UserIds(p))
    requires FindUser(ReferenceGroup(p), r.userId).Some?
    requires FirstOccurrences(UserIds(p))[FindUser(ReferenceGroup(p), r.userId).value] == r.userId
    ensures AddRecord(ReferenceGroup(p), r) == ReferenceGroup(p + [r])
  {
    var ids := FirstOccurrences(UserIds(p));
    var us := ReferenceGroup(p);
    var after := ReferenceGroup(p + [r]);
    var j := FindUser(us, r.userId).value;
    var updated := us[j := AddToUser(us[j], r)];
    FirstOccurrencesFacts(UserIds(p));
    forall i | 0 <= i < |ids|
      ensures after[i] == updated[i]
    {
      if i == j {
        RecordsOfUserSnoc(p, r, r.userId);
        UserPresent(p, r.userId);
        AddToUserOf(RecordsOfUser(p, r.userId), r);
      } else {
        OtherUsersUnchanged(p, r, i);
      }
    }
  }

  lemma NewUserRecord(p: seq<OrderRecord>, r: OrderRecord)
    requires FirstOccurrences(UserIds(p + [r])) == FirstOccurrences(UserIds(p)) + [r.userId]
    requires FindUser(ReferenceGroup(p), r.userId).None?
    requires r.userId !in FirstOccurrences(UserIds(p))
    ensures AddRecord(ReferenceGroup(p), r) == ReferenceGroup(p + [r])
  {
    var ids := FirstOccurrences(UserIds(p));
    var us := ReferenceGroup(p);
    var after := ReferenceGroup(p + [r]);
    var extended := us + [AddToUser(NewUser(r), r)];
    assert AddRecord(us, r) == extended;
    forall i | 0 <= i <= |ids|
      ensures after[i] == extended[i]
    {
      if i < |ids| {
        OtherUsersUnchanged(p, r, i);
      } else {
        FirstUserRecord(p, r);
      }
    }
    assert |after| == |ids| + 1 == |extended|;
  }

  /** The records of an id not seen before are just the new record. */
  lemma FirstUserRecord(p: seq<OrderRecord>, r: OrderRecord)
    requires r.userId !in FirstOccurrences(UserIds(p))
    ensures RecordsOfUser(p + [r], r.userId) == [r]
    ensures UserOf([r]) == AddToUser(NewUser(r), r)
  {
    RecordsOfUserSnoc(p, r, r.userId);
    UserPresent(p, r.userId);
    GroupOrdersSnoc([], r);
  }

  /** One step of the fold keeps the users equal to the reference. */
  lemma AddRecordStep(p: seq<OrderRecord>, r: OrderRecord)
    ensures AddRecord(ReferenceGroup(p), r) == ReferenceGroup(p + [r])
  {
    var ids := FirstOccurrences(UserIds(p));
    UserIdsSnoc(p, r);
    assert FirstOccurrences(UserIds(p + [r])) == if r.userId in ids then ids else ids + [r.userId] by {
      assert (UserIds(p) + [r.userId])[..|p|] == UserIds(p);
    }
    FindReferenceUser(p, r);
    if r.userId in ids {
      ExistingUserRecord(p, r);
    } else {
      NewUserRecord(p, r);
    }
  }

  /** `Group` is the reference grouping. */
  lemma {:induction false} GroupIsReference(rs: seq<OrderRecord>)
    ensures Group(rs) == ReferenceGroup(rs)
  {
    if rs != [] {
      GroupIsReference(rs[..|rs| - 1]);
      AddRecordStepLast(rs);
    }
  }

  lemma AddRecordStepLast(rs: seq<OrderRecord>)
    requires rs != []
    ensures AddRecord(ReferenceGroup(rs[..|rs| - 1]), rs[|rs| - 1]) == ReferenceGroup(rs)
  {
    var p := rs[..|rs| - 1];
    var r := rs[|rs| - 1];
    assert rs == p + [r];
    AddRecordStep(p, r);
  }

  // ---------------------------------------------------------------------
  // Consequences
  // ---------------------------------------------------------------------

  /** No records, no users. */
  lemma GroupEmpty()
    ensures Group([]) == []
  {
  }

  /** The users of a grouping: one per distinct id of the input, in the
      order the ids first occur; each named after its first record, with
      the orders its own records group into. */
  lemma UsersOfGroup(rs: seq<OrderRecord>)
    ensures var us := Group(rs); var ids := FirstOccurrences(UserIds(rs));
      && |us| == |ids|
      && Distinct(ids)
      && (forall id :: id in ids <==> id in UserIds(rs))
      && (forall i, j :: 0 <= i < j < |ids| ==> FirstIndex(UserIds(rs), ids[i]) < FirstIndex(UserIds(rs), ids[j]))
      && (forall j :: 0 <= j < |us| ==>
            var recs := RecordsOfUser(rs, ids[j]);
            && recs != []
            && us[j].userId == ids[j]
            && us[j].name == recs[0].name
            && us[j].orders == GroupOrders(recs))
  {
    GroupIsReference(rs);
    FirstOccurrencesFacts(UserIds(rs));
    var ids := FirstOccurrences(UserIds(rs));
    forall j | 0 <= j < |ids|
      ensures RecordsOfUser(rs, ids[j]) != []
    {
      UserPresent(rs, ids[j]);
    }
  }

  /** The first record of a user is the first record of the input with
      that user's id: a user's name is the name on that record. */
  lemma {:induction false} FirstRecordOfUser(rs: seq<OrderRecord>, id: Option<int>)
    requires id in UserIds(rs)
    ensures RecordsOfUser(rs, id) != []
    ensures RecordsOfUser(rs, id)[0] == rs[FirstIndex(UserIds(rs), id)]
  {
    var p := rs[..|rs| - 1];
    var r := rs[|rs| - 1];
    assert rs == p + [r];
    UserIdsSnoc(p, r);
    RecordsOfUserSnoc(p, r, id);
    assert UserIds(rs)[..|p|] == UserIds(p);
    if id in UserIds(p) {
      FirstRecordOfUser(p, id);
    } else {
      FirstOccurrencesMember(UserIds(p), id);
      UserPresent(p, id);
    }
  }

  function OrderProducts(u: UserDto): nat {
    Total(u.orders, ProductsIn)
  }

  /** Every record adds exactly one product: the users hold as many
      products as there are records. */
  lemma {:induction false} GroupProductCount(rs: seq<OrderRecord>)
    ensures Total(Group(rs), OrderProducts) == |rs|
  {
    if rs != [] {
      var p := rs[..|rs| - 1];
      GroupProductCount(p);
      AddRecordCount(Group(p), rs[|rs| - 1]);
    }
  }

  lemma AddRecordCount(us: seq<UserDto>, r: OrderRecord)
    ensures Total(AddRecord(us, r), OrderProducts) == Total(us, OrderProducts) + 1
  {
    match FindUser(us, r.userId)
    case Some(j) =>
      AddToOrdersCount(us[j].orders, r);
      TotalUpdate(us, j, AddToUser(us[j], r), OrderProducts);
    case None =>
      AddToOrdersCount([], r);
      TotalSnoc(us, AddToUser(NewUser(r), r), OrderProducts);
  }
}
