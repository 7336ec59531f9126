/** Tables of records owned by users, of which each user marks at most one as the
    default: the address and payment-method tables (src/controllers/userController.js). */
module Defaults {
  import opened Wrappers
  import opened Entities
  import opened Errors

  type Table<T> = map<RecordId, Owned<T>>

  /** No user has two default records. */
  predicate SingleDefault<T>(t: Table<T>) {
    forall a, b :: a in t && b in t && t[a].isDefault && t[b].isDefault && t[a].userId == t[b].userId ==> a == b
  }

  /** `updateMany({ where: { userId: user, id: { not: except } }, data: { isDefault: false } })`. */
  function ClearDefaults<T>(t: Table<T>, user: UserId, except: Option<RecordId>): (r: Table<T>)
    ensures r.Keys == t.Keys
    ensures forall k :: k in r ==> r[k].userId == t[k].userId && r[k].data == t[k].data
    ensures forall k :: k in r && r[k].isDefault ==> t[k].isDefault
    ensures forall k :: k in r && r[k].userId == user && Some(k) != except ==> !r[k].isDefault
    ensures forall k :: k in r && t[k].userId != user ==> r[k] == t[k]
    ensures except.Some? && except.value in t ==> r[except.value] == t[except.value]
  {
    map k | k in t :: if t[k].userId == user && Some(k) != except then t[k].(isDefault := false) else t[k]
  }

  /** Clearing a user's defaults and then storing one record as that user's default
      leaves it the only default of the user, and keeps every other user's single
      default. */
  lemma {:induction false} SetDefaultKeepsSingle<T>(t: Table<T>, id: RecordId, rec: Owned<T>)
    requires SingleDefault(t) && (id in t ==> t[id].userId == rec.userId)
    ensures SingleDefault(ClearDefaults(t, rec.userId, Some(id))[id := rec])
    ensures rec.isDefault ==>
      var r := ClearDefaults(t, rec.userId, Some(id))[id := rec];
      forall k :: k in r && r[k].userId == rec.userId && r[k].isDefault ==> k == id
  {
    var c := ClearDefaults(t, rec.userId, Some(id));
    var r := c[id := rec];
    forall a, b | a in r && b in r && r[a].isDefault && r[b].isDefault && r[a].userId == r[b].userId
      ensures a == b
    {
      if a != id && b != id {
        assert c[a].isDefault && c[b].isDefault;
      }
    }
  }

  /** Storing a record that is not a default keeps every user's single default. */
  lemma PutNonDefaultKeepsSingle<T>(t: Table<T>, id: RecordId, rec: Owned<T>)
    requires SingleDefault(t) && !rec.isDefault
    ensures SingleDefault(t[id := rec])
  {
  }

  /** Removing a record keeps every user's single default. */
  lemma RemoveKeepsSingle<T>(t: Table<T>, id: RecordId)
    requires SingleDefault(t)
    ensures SingleDefault(t - {id})
  {
  }

  /** What `addAddress` and `addPaymentMethod` write: when the new record is to be a
      default, every record of the user is first made non-default. */
  function AddRecord<T>(t: Table<T>, user: UserId, id: RecordId, data: T, isDefault: bool): Table<T> {
    if isDefault then ClearDefaults(t, user, None)[id := Owned(user, true, data)]
    else t[id := Owned(user, false, data)]
  }

  /** Adding a record keeps every user's single default, makes the new record the
      user's only default when it is one, and leaves the records of other users and
      the data of every old record as they were. */
  lemma AddRecordEffect<T>(t: Table<T>, user: UserId, id: RecordId, data: T, isDefault: bool)
    requires SingleDefault(t) && id !in t
    ensures var r := AddRecord(t, user, id, data, isDefault);
      SingleDefault(r) && r.Keys == t.Keys + {id} && r[id] == Owned(user, isDefault, data) &&
      (isDefault ==> forall k :: k in r && r[k].userId == user && r[k].isDefault ==> k == id) &&
      (!isDefault ==> forall k :: k in t ==> r[k] == t[k]) &&
      (forall k :: k in t ==> r[k].userId == t[k].userId && r[k].data == t[k].data) &&
      (forall k :: k in t && t[k].userId != user ==> r[k] == t[k])
  {
    if isDefault {
      SetDefaultKeepsSingle(t, id, Owned(user, true, data));
    } else {
      PutNonDefaultKeepsSingle(t, id, Owned(user, false, data));
    }
  }

  /** What `updateAddress` writes: when the record is to be a default, every other
      record of its user is first made non-default. */
  function SetRecord<T>(t: Table<T>, id: RecordId, rec: Owned<T>): Table<T> {
    if rec.isDefault then ClearDefaults(t, rec.userId, Some(id))[id := rec] else t[id := rec]
  }

  /** Rewriting a record of the same user keeps every user's single default, makes
      the record the user's only default when it is one, and leaves every other
      record's data, and every record of other users, as they were. */
  lemma SetRecordEffect<T>(t: Table<T>, id: RecordId, rec: Owned<T>)
    requires SingleDefault(t) && id in t && t[id].userId == rec.userId
    ensures var r := SetRecord(t, id, rec);
      SingleDefault(r) && r.Keys == t.Keys && r[id] == rec &&
      (rec.isDefault ==> forall k :: k in r && r[k].userId == rec.userId && r[k].isDefault ==> k == id) &&
      (!rec.isDefault ==> forall k :: k in t && k != id ==> r[k] == t[k]) &&
      (forall k :: k in t ==> r[k].userId == t[k].userId && (k != id ==> r[k].data == t[k].data)) &&
      (forall k :: k in t && t[k].userId != rec.userId ==> r[k] == t[k])
  {
    if rec.isDefault {
      SetDefaultKeepsSingle(t, id, rec);
    } else {
      PutNonDefaultKeepsSingle(t, id, rec);
    }
  }

  /** Why an update or delete of an owned record is refused: 404 when it is missing,
      403 when it belongs to someone else. */
  function OwnerRefusal<T>(t: Table<T>, user: UserId, id: RecordId, missing: string, forbidden: string): (r: Option<Error>)
    ensures r.None? <==> id in t && t[id].userId == user
    ensures id !in t ==> r == Some(NewAppError(missing, 404))
    ensures id in t && t[id].userId != user ==> r == Some(NewAppError(forbidden, 403))
  {
    if id !in t then Some(NewAppError(missing, 404))
    else if t[id].userId != user then Some(NewAppError(forbidden, 403))
    else None
  }

  /** The ids in `scan` that satisfy `keep`, in scan order. */
  function Select<T>(t: Table<T>, scan: seq<RecordId>, keep: Owned<T> -> bool): (r: seq<RecordId>)
    requires forall i :: 0 <= i < |scan| ==> scan[i] in t
    ensures forall k :: k in r <==> k in scan && keep(t[k])
    ensures |r| <= |scan|
    ensures Distinct(scan) ==> Distinct(r)
  {
    if scan == [] then []
    else
      var rest := Select(t, scan[1..], keep);
      assert forall k :: k in scan <==> k == scan[0] || k in scan[1..];
      assert Distinct(scan) ==> scan[0] !in scan[1..];
      if keep(t[scan[0]]) then [scan[0]] + rest else rest
  }

  /** `findMany({ where: { userId }, orderBy: { isDefault: "desc" } })` over the rows in
      storage order `scan`: exactly the user's records, every default before every
      non-default. */
  function ListOwned<T>(t: Table<T>, scan: seq<RecordId>, user: UserId): (r: seq<RecordId>)
    requires forall i :: 0 <= i < |scan| ==> scan[i] in t
    ensures forall i :: 0 <= i < |r| ==> r[i] in t
    ensures forall k :: k in r <==> k in scan && t[k].userId == user
    ensures forall i, j :: 0 <= i < j < |r| && t[r[j]].isDefault ==> t[r[i]].isDefault
    ensures Distinct(scan) ==> Distinct(r)
  {
    var d := Select(t, scan, (o: Owned<T>) => o.userId == user && o.isDefault);
    var n := Select(t, scan, (o: Owned<T>) => o.userId == user && !o.isDefault);
    assert forall i :: 0 <= i < |d + n| ==> (d + n)[i] in d || (d + n)[i] in n;
    assert forall i :: 0 <= i < |d + n| ==> (d + n)[i] in t;
    assert forall i, j :: 0 <= i < j < |d + n| && (d + n)[j] in d ==> (d + n)[i] in d;
    assert Distinct(scan) ==> Distinct(d + n) by {
      if Distinct(scan) {
        DistinctConcat(d, n);
      }
    }
    d + n
  }

  /** Two duplicate-free lists with no key in common make a duplicate-free list. */
  lemma DistinctConcat(a: seq<RecordId>, b: seq<RecordId>)
    requires Distinct(a) && Distinct(b) && forall k :: k in a ==> k !in b
    ensures Distinct(a + b)
  {
    forall i, j | 0 <= i < j < |a + b| ensures (a + b)[i] != (a + b)[j] {
      if j < |a| {
        assert (a + b)[i] == a[i] && (a + b)[j] == a[j];
      } else if i >= |a| {
        assert (a + b)[i] == b[i - |a|] && (a + b)[j] == b[j - |a|];
      } else {
        assert (a + b)[i] == a[i] && (a + b)[j] == b[j - |a|];
        assert a[i] in a && b[j - |a|] in b;
      }
    }
  }

  /** A list of distinct keys that holds exactly the keys of a set is as long as the
      set is large. */
  lemma {:induction false} DistinctCount(ids: seq<RecordId>, keys: set<RecordId>)
    requires Distinct(ids) && forall k :: k in ids <==> k in keys
    ensures |ids| == |keys|
  {
    if ids != [] {
      var rest := keys - {ids[0]};
      assert forall k :: k in ids[1..] <==> k in rest by {
        assert forall k :: k in ids <==> k == ids[0] || k in ids[1..];
        assert ids[0] !in ids[1..];
      }
      DistinctCount(ids[1..], rest);
    } else {
      assert forall k :: k !in keys;
      assert keys == {};
    }
  }
}
