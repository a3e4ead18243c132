/**
 * The user table and the handlers of controllers/userController.js.
 *
 * The password is stored exactly as supplied; hashing is not part of these handlers.
 */
module Users {
  import opened Js
  import Listing

  datatype User = User(
    roleId: int,
    firstName: string,
    lastName: Option<string>,
    email: string,
    password: string,
    pin: Option<string>,
    phoneNumber: Option<string>,
    status: string)

  datatype UserFields = UserFields(
    roleId: Option<int>,
    firstName: Option<string>,
    lastName: Option<string>,
    email: Option<string>,
    password: Option<string>,
    pin: Option<string>,
    phoneNumber: Option<string>)

  /** The fields an update request may carry. */
  datatype UserPatch = UserPatch(
    roleId: Option<int>,
    firstName: Option<string>,
    lastName: Option<string>,
    email: Option<string>,
    password: Option<string>,
    pin: Option<string>,
    phoneNumber: Option<string>,
    status: Option<string>)

  /** The create handler's guard: roleId, firstName, email and password truthy. */
  predicate HasRequiredFields(f: UserFields)
    ensures HasRequiredFields(f) <==>
      && Truthy(NumJson(f.roleId)) && Truthy(StrJson(f.firstName))
      && Truthy(StrJson(f.email)) && Truthy(StrJson(f.password))
  {
    TruthyInt(f.roleId) && TruthyStr(f.firstName) && TruthyStr(f.email) && TruthyStr(f.password)
  }

  /** The user row a valid create request inserts. */
  function NewUser(f: UserFields): (u: User)
    requires HasRequiredFields(f)
    ensures u.status == "active"
    ensures u.roleId == f.roleId.value && u.roleId != 0
    ensures u.firstName == f.firstName.value && u.email == f.email.value && u.password == f.password.value
    ensures u.firstName != "" && u.email != "" && u.password != ""
    ensures u.lastName == f.lastName && u.pin == f.pin && u.phoneNumber == f.phoneNumber
  {
    User(f.roleId.value, f.firstName.value, f.lastName, f.email.value, f.password.value,
         f.pin, f.phoneNumber, "active")
  }

  /** The optional fields never decide whether a create request is accepted. */
  lemma OptionalFieldsIrrelevant(f: UserFields, lastName: Option<string>, pin: Option<string>, phoneNumber: Option<string>)
    ensures HasRequiredFields(f) == HasRequiredFields(f.(lastName := lastName, pin := pin, phoneNumber := phoneNumber))
  {
  }

  /** A user after an update request. */
  function Patched(u: User, p: UserPatch): (r: User)
    ensures !TruthyInt(p.roleId) ==> r.roleId == u.roleId
    ensures TruthyInt(p.roleId) ==> r.roleId == p.roleId.value
    ensures r.firstName == (if p.firstName.Some? then p.firstName.value else u.firstName)
    ensures r.email == (if p.email.Some? then p.email.value else u.email)
    ensures r.password == (if p.password.Some? then p.password.value else u.password)
    ensures r.status == (if p.status.Some? then p.status.value else u.status)
    ensures r.lastName == (if p.lastName.Some? then p.lastName else u.lastName)
    ensures r.pin == (if p.pin.Some? then p.pin else u.pin)
    ensures r.phoneNumber == (if p.phoneNumber.Some? then p.phoneNumber else u.phoneNumber)
  {
    u.(roleId := IfTruthy(p.roleId, u.roleId),
       firstName := IfDefined(p.firstName, u.firstName),
       lastName := if p.lastName.Some? then p.lastName else u.lastName,
       email := IfDefined(p.email, u.email),
       password := IfDefined(p.password, u.password),
       pin := if p.pin.Some? then p.pin else u.pin,
       phoneNumber := if p.phoneNumber.Some? then p.phoneNumber else u.phoneNumber,
       status := IfDefined(p.status, u.status))
  }

  /** An update request that sends no field leaves the user as it was. */
  lemma EmptyPatchKeeps(u: User)
    ensures Patched(u, UserPatch(None, None, None, None, None, None, None, None)) == u
  {
  }

  /** Sending the same update twice leaves the user as sending it once. */
  lemma PatchIdempotent(u: User, p: UserPatch)
    ensures Patched(Patched(u, p), p) == Patched(u, p)
  {
  }

  /** A user after a delete request: kept, with status "inactive". */
  function Deactivated(u: User): (r: User)
    ensures r.status == "inactive"
    ensures r.(status := u.status) == u
  {
    u.(status := "inactive")
  }

  lemma DeactivateIdempotent(u: User)
    ensures Deactivated(Deactivated(u)) == Deactivated(u)
  {
  }

  class UserTable {
    var rows: map<int, User>
    var nextId: int

    ghost predicate Valid()
      reads this
    {
      1 <= nextId && forall id | id in rows :: 1 <= id < nextId
    }

    constructor ()
      ensures Valid() && rows == map[] && nextId == 1
    {
      rows := map[];
      nextId := 1;
    }

    /** getAllUsers: every user exactly once, highest id first. */
    function List(): (r: seq<(int, User)>)
      reads this
      ensures |r| == |rows|
      ensures forall i | 0 <= i < |r| :: r[i].0 in rows && r[i].1 == rows[r[i].0]
      ensures forall k | k in rows :: exists i :: 0 <= i < |r| && r[i].0 == k
      ensures forall i, j | 0 <= i < j < |r| :: r[i].0 > r[j].0
    {
      Listing.ListByIdDesc(rows)
    }

    /** getUserById */
    function Get(id: Option<int>): (r: Reply<User>)
      reads this
      ensures r.Ok? <==> id.Some? && id.value in rows
      ensures r.Ok? ==> r == Ok(200, rows[id.value])
      ensures id.Some? && id.value !in rows ==> r == Error(404, "User not found")
      ensures id.None? ==> r.Error? && r.status == 500
    {
      if id.None? then Error(500, "Failed to fetch user")
      else if id.value !in rows then Error(404, "User not found")
      else Ok(200, rows[id.value])
    }

    /** createUser */
    method Create(f: UserFields) returns (r: Reply<int>)
      requires Valid()
      modifies this
      ensures Valid()
      ensures !HasRequiredFields(f) ==>
        && r == Error(400, "roleId, firstName, email, and password are required")
        && rows == old(rows) && nextId == old(nextId)
      ensures HasRequiredFields(f) ==>
        && r == Ok(201, old(nextId))
        && old(nextId) !in old(rows)
        && rows == old(rows)[old(nextId) := NewUser(f)]
        && nextId == old(nextId) + 1
    {
      if !TruthyInt(f.roleId) || !TruthyStr(f.firstName) || !TruthyStr(f.email) || !TruthyStr(f.password) {
        return Error(400, "roleId, firstName, email, and password are required");
      }
      var u := NewUser(f);
      var id := nextId;
      rows := rows[id := u];
      nextId := nextId + 1;
      r := Ok(201, id);
    }

    /** updateUser */
    method Update(id: Option<int>, p: UserPatch) returns (r: Reply<User>)
      requires Valid()
      modifies this
      ensures Valid() && nextId == old(nextId)
      ensures id.Some? && id.value in old(rows) ==>
        && rows == old(rows)[id.value := Patched(old(rows)[id.value], p)]
        && r == Ok(200, rows[id.value])
      ensures !(id.Some? && id.value in old(rows)) ==>
        rows == old(rows) && r == Error(500, "Failed to update user")
    {
      if id.None? || id.value !in rows {
        return Error(500, "Failed to update user");
      }
      var u := Patched(rows[id.value], p);
      rows := rows[id.value := u];
      r := Ok(200, u);
    }

    /** deleteUser: a soft delete. */
    method Delete(id: Option<int>) returns (r: Reply<User>)
      requires Valid()
      modifies this
      ensures Valid() && nextId == old(nextId) && rows.Keys == old(rows).Keys
      ensures id.Some? && id.value in old(rows) ==>
        && rows == old(rows)[id.value := Deactivated(old(rows)[id.value])]
        && r == Ok(200, rows[id.value])
      ensures !(id.Some? && id.value in old(rows)) ==>
        rows == old(rows) && r == Error(500, "Failed to delete user")
    {
      if id.None? || id.value !in rows {
        return Error(500, "Failed to delete user");
      }
      var u := Deactivated(rows[id.value]);
      rows := rows[id.value := u];
      r := Ok(200, u);
    }
  }
}
