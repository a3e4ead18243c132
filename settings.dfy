/**
 * The store-setting table and the handlers of controllers/settingController.js.
 *
 * The create handler refuses to add a setting while any exists, so a table
 * that starts empty never holds more than one setting, whatever sequence of
 * handlers runs on it.
 */
module Settings {
  import opened Js
  import Listing

  datatype Setting = Setting(
    storeName: string,
    logoUrl: Option<string>,
    address: Option<string>,
    taxRate: int,
    discount: int,
    printerType: Option<string>,
    createdAt: int)

  /** Request fields; for taxRate and discount, `None` stands for both null and undefined. */
  datatype SettingFields = SettingFields(
    storeName: Option<string>,
    logoUrl: Option<string>,
    address: Option<string>,
    taxRate: Option<int>,
    discount: Option<int>,
    printerType: Option<string>)

  const AlreadyExists := "Setting already exists. Please update instead."
  const NameRequired := "Store name is required"

  /** The outcome of createSetting given whether some setting exists: the existence check comes first. */
  function CreateOutcome(present: bool, f: SettingFields): (r: Reply<()>)
    ensures r.Ok? <==> !present && TruthyStr(f.storeName)
    ensures r.Ok? ==> r.status == 201
    ensures present ==> r == Error(400, AlreadyExists)
    ensures !present && !TruthyStr(f.storeName) ==> r == Error(400, NameRequired)
  {
    if present then Error(400, AlreadyExists)
    else if !TruthyStr(f.storeName) then Error(400, NameRequired)
    else Ok(201, ())
  }

  /** The setting row a create request inserts; an explicit 0 tax rate or discount is kept. */
  function NewSetting(f: SettingFields, now: int): (s: Setting)
    requires TruthyStr(f.storeName)
    ensures s.storeName == f.storeName.value && s.createdAt == now
    ensures s.taxRate == (if f.taxRate.Some? then f.taxRate.value else 0)
    ensures s.discount == (if f.discount.Some? then f.discount.value else 0)
    ensures s.logoUrl == f.logoUrl && s.address == f.address && s.printerType == f.printerType
  {
    Setting(f.storeName.value, f.logoUrl, f.address, Coalesce(f.taxRate, 0), Coalesce(f.discount, 0),
            f.printerType, now)
  }

  /** A setting after an update request: every field sent replaces the stored one. */
  function Patched(s: Setting, f: SettingFields): (r: Setting)
    ensures r.createdAt == s.createdAt
    ensures r.storeName == (if f.storeName.Some? then f.storeName.value else s.storeName)
    ensures r.taxRate == (if f.taxRate.Some? then f.taxRate.value else s.taxRate)
    ensures r.discount == (if f.discount.Some? then f.discount.value else s.discount)
    ensures r.logoUrl == (if f.logoUrl.Some? then f.logoUrl else s.logoUrl)
    ensures r.address == (if f.address.Some? then f.address else s.address)
    ensures r.printerType == (if f.printerType.Some? then f.printerType else s.printerType)
  {
    s.(storeName := IfDefined(f.storeName, s.storeName),
       logoUrl := if f.logoUrl.Some? then f.logoUrl else s.logoUrl,
       address := if f.address.Some? then f.address else s.address,
       taxRate := IfDefined(f.taxRate, s.taxRate),
       discount := IfDefined(f.discount, s.discount),
       printerType := if f.printerType.Some? then f.printerType else s.printerType)
  }

  /** An update request that sends no field leaves the setting as it was. */
  lemma EmptyPatchKeeps(s: Setting)
    ensures Patched(s, SettingFields(None, None, None, None, None, None)) == s
  {
  }

  /** Sending the same update twice leaves the setting as sending it once. */
  lemma PatchIdempotent(s: Setting, f: SettingFields)
    ensures Patched(Patched(s, f), f) == Patched(s, f)
  {
  }

  /** A map in which any two keys are equal has at most one entry. */
  lemma AtMostOneKey<T>(m: map<int, T>)
    requires forall a, b | a in m && b in m :: a == b
    ensures |m| <= 1
  {
    if m != map[] {
      Listing.HasElement(m.Keys);
      var a :| a in m.Keys;
      forall x | x in m.Keys
        ensures x == a
      {
        assert x in m;
      }
      assert m.Keys == {a};
    }
  }

  /** Removing the one key of a map with at most one key empties it. */
  lemma RemoveOnlyKey<T>(m: map<int, T>, k: int)
    requires k in m
    requires forall a, b | a in m && b in m :: a == b
    ensures m - {k} == map[]
  {
    assert forall x | x in m :: x == k;
    assert (m - {k}).Keys == {};
  }


  class SettingTable {
    var rows: map<int, Setting>
    var nextId: int

    /** Ids below the next id, and at most one setting. */
    ghost predicate Valid()
      reads this
    {
      && 1 <= nextId
      && (forall id | id in rows :: 1 <= id < nextId)
      && (forall a, b | a in rows && b in rows :: a == b)
    }

    constructor ()
      ensures Valid() && rows == map[] && nextId == 1
    {
      rows := map[];
      nextId := 1;
    }

    /** The table never holds more than one setting. */
    lemma Singleton()
      requires Valid()
      ensures |rows| <= 1
    {
      AtMostOneKey(rows);
    }

    /** createSetting */
    method Create(f: SettingFields, now: int) returns (r: Reply<int>)
      requires Valid()
      modifies this
      ensures Valid()
      ensures r.Error? <==> CreateOutcome(old(rows) != map[], f).Error?
      ensures r.Error? ==>
        && r.status == CreateOutcome(old(rows) != map[], f).status
        && r.message == CreateOutcome(old(rows) != map[], f).message
        && rows == old(rows) && nextId == old(nextId)
      ensures r.Ok? ==>
        && r == Ok(201, old(nextId))
        && old(rows) == map[]
        && rows == map[old(nextId) := NewSetting(f, now)]
        && nextId == old(nextId) + 1
    {
      if rows != map[] {
        return Error(400, AlreadyExists);
      }
      if !TruthyStr(f.storeName) {
        return Error(400, NameRequired);
      }
      var s := NewSetting(f, now);
      var id := nextId;
      rows := map[id := s];
      nextId := nextId + 1;
      r := Ok(201, id);
    }

    /** getSettings: every setting, newest first. */
    function List(): (r: seq<(int, Setting)>)
      reads this
      ensures |r| == |rows|
      ensures forall i | 0 <= i < |r| :: r[i].0 in rows && r[i].1 == rows[r[i].0]
      ensures forall k | k in rows :: exists i :: 0 <= i < |r| && r[i].0 == k
      ensures forall i, j | 0 <= i < j < |r| :: r[i].1.createdAt >= r[j].1.createdAt
    {
      Listing.ListByKeyDesc(rows, (x: Setting) => x.createdAt)
    }

    /** getSettingById */
    function Get(id: Option<int>): (r: Reply<Setting>)
      reads this
      ensures r.Ok? <==> id.Some? && id.value in rows
      ensures r.Ok? ==> r == Ok(200, rows[id.value])
      ensures id.Some? && id.value !in rows ==> r == Error(404, "Setting not found")
      ensures id.None? ==> r.Error? && r.status == 500
    {
      if id.None? then Error(500, "Failed to fetch setting")
      else if id.value !in rows then Error(404, "Setting not found")
      else Ok(200, rows[id.value])
    }

    /** updateSetting */
    method Update(id: Option<int>, f: SettingFields) returns (r: Reply<Setting>)
      requires Valid()
      modifies this
      ensures Valid() && nextId == old(nextId)
      ensures id.Some? && id.value in old(rows) ==>
        && rows == old(rows)[id.value := Patched(old(rows)[id.value], f)]
        && r == Ok(200, rows[id.value])
      ensures !(id.Some? && id.value in old(rows)) ==>
        rows == old(rows) && r == Error(500, "Failed to update setting")
    {
      if id.None? || id.value !in rows {
        return Error(500, "Failed to update setting");
      }
      var s := Patched(rows[id.value], f);
      rows := rows[id.value := s];
      r := Ok(200, s);
    }

    /** deleteSetting: removes the row; deleting the only setting empties the table. */
    method Delete(id: Option<int>) returns (r: Reply<()>)
      requires Valid()
      modifies this
      ensures Valid() && nextId == old(nextId)
      ensures id.Some? && id.value in old(rows) ==>
        rows == map[] && r == Ok(200, ())
      ensures !(id.Some? && id.value in old(rows)) ==>
        rows == old(rows) && r == Error(500, "Failed to delete setting")
    {
      if id.None? || id.value !in rows {
        return Error(500, "Failed to delete setting");
      }
      RemoveOnlyKey(rows, id.value);
      rows := rows - {id.value};
      r := Ok(200, ());
    }
  }

  /** Once the only setting is deleted, creating one with a store name succeeds. */
  method ReplaceSetting(t: SettingTable, id: int, f: SettingFields, now: int) returns (r: Reply<int>)
    requires t.Valid() && id in t.rows && TruthyStr(f.storeName)
    modifies t
    ensures t.Valid()
    ensures r == Ok(201, old(t.nextId)) && t.rows == map[old(t.nextId) := NewSetting(f, now)]
  {
    var _ := t.Delete(Some(id));
    r := t.Create(f, now);
  }
}
