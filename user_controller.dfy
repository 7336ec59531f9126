/** The address and payment-method handlers (src/controllers/userController.js). The
    caller is the authenticated `user`; new record ids are the `newId` parameters.
    Every write keeps at most one default record per user. */
module UserController {
  import opened Wrappers
  import opened Entities
  import opened Errors
  import opened Defaults
  import opened Store

  // ---- addresses -------------------------------------------------------------------

  /** `getUserAddresses` and `getPaymentMethods`: the caller's records, defaults
      first, the rest in storage order `scan`, which lists every stored id of the
      table once. One row per record: as many rows as the caller has records. */
  function UserRecords<T>(t: Table<T>, scan: seq<RecordId>, user: UserId): (r: seq<Owned<T>>)
    requires forall i :: 0 <= i < |scan| ==> scan[i] in t
    requires forall k :: k in t ==> k in scan
    requires Distinct(scan)
    ensures |r| == |set k | k in t && t[k].userId == user|
    ensures forall x :: x in r ==> x.userId == user && exists k :: k in t && t[k] == x
    ensures forall k :: k in t && t[k].userId == user ==> t[k] in r
    ensures forall i, j :: 0 <= i < j < |r| && r[j].isDefault ==> r[i].isDefault
  {
    var ids := ListOwned(t, scan, user);
    RowsOfOwned(t, ids, user);
    RowsOf(t, ids)
  }

  /** The stored rows of `ids`, in their order. */
  function RowsOf<T>(t: Table<T>, ids: seq<RecordId>): (r: seq<Owned<T>>)
    requires forall i :: 0 <= i < |ids| ==> ids[i] in t
    ensures |r| == |ids| && forall i :: 0 <= i < |r| ==> r[i] == t[ids[i]]
  {
    seq(|ids|, i requires 0 <= i < |ids| => t[ids[i]])
  }

  /** The rows of a duplicate-free list of exactly the user's ids, defaults first, are
      the user's records, once each, defaults first. */
  lemma RowsOfOwned<T>(t: Table<T>, ids: seq<RecordId>, user: UserId)
    requires forall i :: 0 <= i < |ids| ==> ids[i] in t
    requires forall k :: k in ids <==> k in t && t[k].userId == user
    requires forall i, j :: 0 <= i < j < |ids| && t[ids[j]].isDefault ==> t[ids[i]].isDefault
    requires Distinct(ids)
    ensures var r := RowsOf(t, ids);
      |r| == |set k | k in t && t[k].userId == user| &&
      (forall x :: x in r ==> x.userId == user && exists k :: k in t && t[k] == x) &&
      (forall k :: k in t && t[k].userId == user ==> t[k] in r) &&
      (forall i, j :: 0 <= i < j < |r| && r[j].isDefault ==> r[i].isDefault)
  {
    var r := RowsOf(t, ids);
    DistinctCount(ids, set k | k in t && t[k].userId == user);
    forall k | k in t && t[k].userId == user ensures t[k] in r {
      var i :| 0 <= i < |ids| && ids[i] == k;
      assert r[i] == t[k];
    }
    forall x | x in r ensures x.userId == user && exists k :: k in t && t[k] == x {
      var i :| 0 <= i < |r| && r[i] == x;
      assert t[ids[i]] == x;
    }
  }

  /** `addAddress`: stores the new address with `isDefault || false`; a default
      address first clears every default of the caller. */
  method AddAddress(db: Db, user: UserId, newId: RecordId, data: AddressData, isDefault: Option<bool>)
    returns (r: Owned<AddressData>)
    requires db.Valid() && newId !in db.addresses
    modifies db
    ensures db.Valid()
    ensures r == Owned(user, isDefault.GetOr(false), data)
    ensures db.addresses == AddRecord(old(db.addresses), user, newId, data, isDefault.GetOr(false))
    ensures db.addresses.Keys == old(db.addresses).Keys + {newId} && db.addresses[newId] == r
    ensures r.isDefault ==> forall k :: k in db.addresses && db.addresses[k].userId == user && db.addresses[k].isDefault ==> k == newId
    ensures !r.isDefault ==> forall k :: k in old(db.addresses) ==> db.addresses[k] == old(db.addresses)[k]
    ensures forall k :: k in old(db.addresses) && old(db.addresses)[k].userId != user ==> db.addresses[k] == old(db.addresses)[k]
    ensures db.products == old(db.products) && db.categories == old(db.categories) && db.carts == old(db.carts)
    ensures db.cartItems == old(db.cartItems) && db.orders == old(db.orders) && db.paymentMethods == old(db.paymentMethods)
  {
    var d := isDefault.GetOr(false);
    AddRecordEffect(db.addresses, user, newId, data, d);
    if d {
      db.addresses := ClearDefaults(db.addresses, user, None);
    }
    r := Owned(user, d, data);
    db.addresses := db.addresses[newId := r];
  }

  /** `updateAddress`: only the caller's own address; absent fields keep their value,
      and `isDefault` becomes `isDefault || false`, so an update without it leaves the
      caller with no default address. A default address first clears the caller's
      other defaults. */
  method UpdateAddress(db: Db, user: UserId, id: RecordId, name: Option<string>, address: Option<string>,
                       city: Option<string>, zipCode: Option<string>, isDefault: Option<bool>)
    returns (r: Reply<Owned<AddressData>>)
    requires db.Valid()
    modifies db
    ensures db.Valid()
    ensures var refusal := OwnerRefusal(old(db.addresses), user, id, "Address not found", "You do not have permission to update this address");
      refusal.Some? ==> r == Failure(refusal.value) && unchanged(db)
    ensures OwnerRefusal(old(db.addresses), user, id, "Address not found", "You do not have permission to update this address").None? ==>
      var a := old(db.addresses)[id].data;
      var rec := Owned(user, isDefault.GetOr(false),
                       AddressData(name.GetOr(a.name), address.GetOr(a.address), city.GetOr(a.city), zipCode.GetOr(a.zipCode)));
      r == Success(rec) && db.addresses == SetRecord(old(db.addresses), id, rec) &&
      db.addresses.Keys == old(db.addresses).Keys && db.addresses[id] == rec &&
      (rec.isDefault ==> forall k :: k in db.addresses && db.addresses[k].userId == user && db.addresses[k].isDefault ==> k == id) &&
      (!rec.isDefault ==> forall k :: k in old(db.addresses) && k != id ==> db.addresses[k] == old(db.addresses)[k]) &&
      (forall k :: k in old(db.addresses) && old(db.addresses)[k].userId != user ==> db.addresses[k] == old(db.addresses)[k])
    ensures db.products == old(db.products) && db.categories == old(db.categories) && db.carts == old(db.carts)
    ensures db.cartItems == old(db.cartItems) && db.orders == old(db.orders) && db.paymentMethods == old(db.paymentMethods)
  {
    var refusal := OwnerRefusal(db.addresses, user, id, "Address not found", "You do not have permission to update this address");
    if refusal.Some? {
      return Failure(refusal.value);
    }
    var a := db.addresses[id].data;
    var rec := Owned(user, isDefault.GetOr(false),
                     AddressData(name.GetOr(a.name), address.GetOr(a.address), city.GetOr(a.city), zipCode.GetOr(a.zipCode)));
    SetRecordEffect(db.addresses, id, rec);
    if rec.isDefault {
      db.addresses := ClearDefaults(db.addresses, user, Some(id));
    }
    db.addresses := db.addresses[id := rec];
    r := Success(rec);
  }

  /** `deleteAddress`: removes exactly the caller's own address `id`. */
  method DeleteAddress(db: Db, user: UserId, id: RecordId) returns (r: Result<(), Error>)
    requires db.Valid()
    modifies db
    ensures db.Valid()
    ensures var refusal := OwnerRefusal(old(db.addresses), user, id, "Address not found", "You do not have permission to delete this address");
      refusal.Some? ==> r == Failure(refusal.value) && unchanged(db)
    ensures OwnerRefusal(old(db.addresses), user, id, "Address not found", "You do not have permission to delete this address").None? ==>
      r.Success? && db.addresses == old(db.addresses) - {id}
    ensures db.products == old(db.products) && db.categories == old(db.categories) && db.carts == old(db.carts)
    ensures db.cartItems == old(db.cartItems) && db.orders == old(db.orders) && db.paymentMethods == old(db.paymentMethods)
  {
    var refusal := OwnerRefusal(db.addresses, user, id, "Address not found", "You do not have permission to delete this address");
    if refusal.Some? {
      return Failure(refusal.value);
    }
    RemoveKeepsSingle(db.addresses, id);
    db.addresses := db.addresses - {id};
    r := Success(());
  }

  // ---- payment methods -------------------------------------------------------------

  /** `addPaymentMethod`: the same single-default rule as `addAddress`. */
  method AddPaymentMethod(db: Db, user: UserId, newId: RecordId, data: PaymentData, isDefault: Option<bool>)
    returns (r: Owned<PaymentData>)
    requires db.Valid() && newId !in db.paymentMethods
    modifies db
    ensures db.Valid()
    ensures r == Owned(user, isDefault.GetOr(false), data)
    ensures db.paymentMethods == AddRecord(old(db.paymentMethods), user, newId, data, isDefault.GetOr(false))
    ensures db.paymentMethods.Keys == old(db.paymentMethods).Keys + {newId} && db.paymentMethods[newId] == r
    ensures r.isDefault ==>
      forall k :: k in db.paymentMethods && db.paymentMethods[k].userId == user && db.paymentMethods[k].isDefault ==> k == newId
    ensures !r.isDefault ==> forall k :: k in old(db.paymentMethods) ==> db.paymentMethods[k] == old(db.paymentMethods)[k]
    ensures forall k :: k in old(db.paymentMethods) && old(db.paymentMethods)[k].userId != user ==>
      db.paymentMethods[k] == old(db.paymentMethods)[k]
    ensures db.products == old(db.products) && db.categories == old(db.categories) && db.carts == old(db.carts)
    ensures db.cartItems == old(db.cartItems) && db.orders == old(db.orders) && db.addresses == old(db.addresses)
  {
    var d := isDefault.GetOr(false);
    AddRecordEffect(db.paymentMethods, user, newId, data, d);
    if d {
      db.paymentMethods := ClearDefaults(db.paymentMethods, user, None);
    }
    r := Owned(user, d, data);
    db.paymentMethods := db.paymentMethods[newId := r];
  }

  /** `deletePaymentMethod`: removes exactly the caller's own payment method `id`. */
  method DeletePaymentMethod(db: Db, user: UserId, id: RecordId) returns (r: Result<(), Error>)
    requires db.Valid()
    modifies db
    ensures db.Valid()
    ensures var refusal := OwnerRefusal(old(db.paymentMethods), user, id, "Payment method not found",
                                        "You do not have permission to delete this payment method");
      refusal.Some? ==> r == Failure(refusal.value) && unchanged(db)
    ensures OwnerRefusal(old(db.paymentMethods), user, id, "Payment method not found",
                         "You do not have permission to delete this payment method").None? ==>
      r.Success? && db.paymentMethods == old(db.paymentMethods) - {id}
    ensures db.products == old(db.products) && db.categories == old(db.categories) && db.carts == old(db.carts)
    ensures db.cartItems == old(db.cartItems) && db.orders == old(db.orders) && db.addresses == old(db.addresses)
  {
    var refusal := OwnerRefusal(db.paymentMethods, user, id, "Payment method not found",
                                "You do not have permission to delete this payment method");
    if refusal.Some? {
      return Failure(refusal.value);
    }
    RemoveKeepsSingle(db.paymentMethods, id);
    db.paymentMethods := db.paymentMethods - {id};
    r := Success(());
  }
}
