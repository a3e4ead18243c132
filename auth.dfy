/**
 * The middleware of middleware/auth.js.
 *
 * Each `authorize*` middleware is a chain of early returns over the
 * authenticated user, the `:id` route parameter and read-only lookups; here
 * each is a function over a snapshot of the tables it reads, returning
 * `Pass` (the middleware calls `next()`) or the status it replies with.
 *
 * Token verification is a call into a cryptographic library; it is the
 * parameter `verify`, which yields the token's user id, or `None` when the
 * token is invalid or expired.
 */
module Auth {
  import opened Js
  import Users
  import Products
  import Sales

  const Admin := "Admin"
  const Manager := "Manager"
  const Cashier := "Cashier"
  /** The role name given to a user whose role row is missing. */
  const DefaultRole := "user"
  const BearerPrefix := "Bearer "

  datatype Decision = Pass | Deny(status: int)

  /** What the authenticated request carries as `req.user`. */
  datatype ReqUser = ReqUser(id: int, email: string, roleName: string)

  /** The columns of the payment and receipt tables the middleware reads. */
  datatype Payment = Payment(saleId: int)
  datatype Receipt = Receipt(saleId: int)

  /** The tables the middleware reads, at the moment of the request. */
  datatype Snapshot = Snapshot(
    users: map<int, Users.User>,
    roles: map<int, string>,
    products: map<int, Products.Product>,
    sales: map<int, Sales.Sale>,
    payments: map<int, Payment>,
    receipts: map<int, Receipt>)

  // ---------------------------------------------------------------- the token

  /** `h.startsWith('Bearer ')` */
  predicate HasBearerPrefix(h: string) {
    |h| >= |BearerPrefix| && h[..|BearerPrefix|] == BearerPrefix
  }

  /** The headers with the prefix are exactly "Bearer " followed by anything. */
  lemma BearerPrefixIsStartsWith(h: string, rest: string)
    ensures HasBearerPrefix(BearerPrefix + rest)
    ensures HasBearerPrefix(h) ==> h == BearerPrefix + h[|BearerPrefix|..]
  {
    assert (BearerPrefix + rest)[..|BearerPrefix|] == BearerPrefix;
  }

  /** The characters of `s` before the first `sep`. */
  function Segment(s: string, sep: char): (w: string)
    ensures sep !in w
    ensures |w| <= |s| && s[..|w|] == w
    ensures |w| == |s| || s[|w|] == sep
  {
    if s == [] || s[0] == sep then [] else [s[0]] + Segment(s[1..], sep)
  }

  /** JavaScript's `s.split(sep)` for a one-character separator. */
  function Split(s: string, sep: char): (r: seq<string>)
    ensures |r| >= 1
    ensures forall i | 0 <= i < |r| :: sep !in r[i]
  {
    if s == [] then [[]]
    else
      var rest := Split(s[1..], sep);
      if s[0] == sep then [[]] + rest
      else [[s[0]] + rest[0]] + rest[1..]
  }

  /** `segs.join(sep)` */
  function Join(segs: seq<string>, sep: char): string
    requires |segs| >= 1
  {
    if |segs| == 1 then segs[0] else segs[0] + [sep] + Join(segs[1..], sep)
  }

  /** Joining the segments with the separator gives back the input: with no
   * segment holding the separator, this pins `Split` down as `split`. */
  lemma {:induction false} SplitJoin(s: string, sep: char)
    ensures Join(Split(s, sep), sep) == s
  {
    if s != [] {
      var rest := Split(s[1..], sep);
      SplitJoin(s[1..], sep);
      if s[0] == sep {
        assert ([[]] + rest)[1..] == rest;
      } else {
        var r := [[s[0]] + rest[0]] + rest[1..];
        if |rest| > 1 {
          assert r[1..] == rest[1..];
          assert Join(rest, sep) == rest[0] + [sep] + Join(rest[1..], sep);
        }
        assert [s[0]] + s[1..] == s;
      }
    }
  }

  lemma {:induction false} SplitFirst(s: string, sep: char)
    ensures Split(s, sep)[0] == Segment(s, sep)
  {
    if s != [] && s[0] != sep {
      SplitFirst(s[1..], sep);
    }
  }

  /** A leading segment without the separator splits off as one element. */
  lemma {:induction false} SplitAfter(w: string, sep: char, t: string)
    requires sep !in w
    ensures Split(w + [sep] + t, sep) == [w] + Split(t, sep)
  {
    if w == [] {
      assert w + [sep] + t == [sep] + t;
      assert ([sep] + t)[1..] == t;
    } else {
      assert (w + [sep] + t)[1..] == w[1..] + [sep] + t;
      SplitAfter(w[1..], sep, t);
      assert [w[0]] + w[1..] == w;
    }
  }

  /** The token: `authHeader.split(' ')[1]`. */
  function Token(h: string): (t: string)
    requires HasBearerPrefix(h)
    ensures ' ' !in t
    ensures |BearerPrefix| + |t| <= |h| && h[|BearerPrefix|..|BearerPrefix| + |t|] == t
    ensures |BearerPrefix| + |t| == |h| || h[|BearerPrefix| + |t|] == ' '
  {
    Segment(h[|BearerPrefix|..], ' ')
  }

  /** The token is the second space-separated segment of the header. */
  lemma TokenIsSecondSegment(h: string)
    requires HasBearerPrefix(h)
    ensures |Split(h, ' ')| >= 2 && Split(h, ' ')[1] == Token(h)
  {
    var rest := h[|BearerPrefix|..];
    assert h == "Bearer" + [' '] + rest;
    SplitAfter("Bearer", ' ', rest);
    SplitFirst(rest, ' ');
  }

  // ------------------------------------------------------- authenticateToken

  datatype AuthOutcome = Authenticated(user: ReqUser) | Rejected(status: int)

  /** The role name the middleware records: the user's role, or "user" when there is none. */
  function RoleName(db: Snapshot, u: Users.User): (name: string)
    ensures u.roleId in db.roles ==> name == db.roles[u.roleId]
    ensures u.roleId !in db.roles ==> name == DefaultRole
  {
    if u.roleId in db.roles then db.roles[u.roleId] else DefaultRole
  }

  /** authenticateToken's decision chain. */
  function Authenticate(header: Option<string>, verify: string -> Option<int>, db: Snapshot): (r: AuthOutcome)
    ensures header.None? || !HasBearerPrefix(header.value) ==> r == Rejected(401)
    ensures r.Authenticated? <==>
      && header.Some? && HasBearerPrefix(header.value)
      && verify(Token(header.value)).Some?
      && verify(Token(header.value)).value in db.users
    ensures r.Authenticated? ==>
      && r.user.id == verify(Token(header.value)).value
      && r.user.email == db.users[r.user.id].email
      && r.user.roleName == RoleName(db, db.users[r.user.id])
    ensures header.Some? && HasBearerPrefix(header.value) && verify(Token(header.value)).None? ==>
      r == Rejected(403)
    ensures header.Some? && HasBearerPrefix(header.value) && verify(Token(header.value)).Some?
      ==> (verify(Token(header.value)).value !in db.users <==> r == Rejected(404))
    ensures r.Rejected? ==> r.status in {401, 403, 404}
  {
    if header.None? || !HasBearerPrefix(header.value) then Rejected(401)
    else
      var decoded := verify(Token(header.value));
      if decoded.None? then Rejected(403)
      else if decoded.value !in db.users then Rejected(404)
      else
        var u := db.users[decoded.value];
        Authenticated(ReqUser(decoded.value, u.email, RoleName(db, u)))
  }

  /** A missing or malformed header is refused before the token is verified or any table is read. */
  lemma MalformedHeaderBeforeLookup(header: Option<string>, v1: string -> Option<int>, v2: string -> Option<int>, db1: Snapshot, db2: Snapshot)
    requires header.None? || !HasBearerPrefix(header.value)
    ensures Authenticate(header, v1, db1) == Authenticate(header, v2, db2) == Rejected(401)
  {
  }

  /** A valid token naming no user is refused with 404. */
  lemma UnknownUserNotFound(header: Option<string>, verify: string -> Option<int>, db: Snapshot)
    requires header.Some? && HasBearerPrefix(header.value)
    requires verify(Token(header.value)).Some? && verify(Token(header.value)).value !in db.users
    ensures Authenticate(header, verify, db) == Rejected(404)
  {
  }

  function AsDecision(a: AuthOutcome): (d: Decision)
    ensures d == Pass <==> a.Authenticated?
    ensures a.Rejected? ==> d == Deny(a.status)
  {
    match a
    case Authenticated(_) => Pass
    case Rejected(s) => Deny(s)
  }

  /** The request object: its header and `:id` parameter, and the `user` the middleware assigns. */
  class Request {
    const authorization: Option<string>
    /** `parseInt(req.params.id, 10)`, `None` when that is NaN. */
    const id: Option<int>
    var user: Option<ReqUser>

    constructor (authorization: Option<string>, id: Option<int>)
      ensures this.authorization == authorization && this.id == id && user.None?
    {
      this.authorization := authorization;
      this.id := id;
      user := None;
    }

    /** authenticateToken: on success `req.user` is set and the chain continues. */
    method AuthenticateToken(verify: string -> Option<int>, db: Snapshot) returns (d: Decision)
      modifies this
      ensures d == AsDecision(Authenticate(authorization, verify, db))
      ensures d == Pass ==> user == Some(Authenticate(authorization, verify, db).user)
      ensures d != Pass ==> user == old(user)
    {
      var a := Authenticate(authorization, verify, db);
      if a.Rejected? {
        return Deny(a.status);
      }
      user := Some(a.user);
      d := Pass;
    }
  }

  // --------------------------------------------------------- the authorizers

  predicate IsAdminOrManager(u: ReqUser) {
    u.roleName == Admin || u.roleName == Manager
  }

  /** authorizeRoles(...roles) */
  function AuthorizeRoles(roles: seq<string>, user: Option<ReqUser>): (d: Decision)
    ensures d == Pass <==> user.Some? && user.value.roleName in roles
    ensures d != Pass ==> d == Deny(403)
  {
    if user.None? || user.value.roleName !in roles then Deny(403) else Pass
  }

  /**
   * authorizeProductOwner. Reading the role of a missing `req.user` throws,
   * and the handler's catch replies 500.
   */
  function AuthorizeProductOwner(user: Option<ReqUser>, id: Option<int>, db: Snapshot): (d: Decision)
    ensures d == Pass <==> user.Some? && IsAdminOrManager(user.value)
    ensures user.None? ==> d == Deny(500)
    ensures user.Some? && !IsAdminOrManager(user.value) ==>
      && (id.None? ==> d == Deny(400))
      && (id.Some? && id.value !in db.products ==> d == Deny(404))
      && (id.Some? && id.value in db.products ==> d == Deny(403))
  {
    if user.None? then Deny(500)
    else if IsAdminOrManager(user.value) then Pass
    else if id.None? then Deny(400)
    else if id.value !in db.products then Deny(404)
    else Deny(403)
  }

  /** The user owns the sale with this id. */
  predicate OwnsSale(db: Snapshot, id: Option<int>, userId: int) {
    id.Some? && id.value in db.sales && db.sales[id.value].userId == userId
  }

  /** authorizeSaleAccess */
  function AuthorizeSaleAccess(user: Option<ReqUser>, id: Option<int>, db: Snapshot): (d: Decision)
    ensures d == Pass <==> user.Some? && (IsAdminOrManager(user.value) || OwnsSale(db, id, user.value.id))
    ensures user.None? ==> d == Deny(500)
    ensures user.Some? && !IsAdminOrManager(user.value) ==>
      && (id.None? ==> d == Deny(400))
      && (id.Some? && id.value !in db.sales ==> d == Deny(404))
      && (id.Some? && id.value in db.sales && db.sales[id.value].userId != user.value.id ==> d == Deny(403))
  {
    if user.None? then Deny(500)
    else if IsAdminOrManager(user.value) then Pass
    else if id.None? then Deny(400)
    else if id.value !in db.sales then Deny(404)
    else if db.sales[id.value].userId != user.value.id then Deny(403)
    else Pass
  }

  /** The user who owns the sale a payment belongs to, when payment and sale exist. */
  predicate OwnsPayment(db: Snapshot, id: Option<int>, userId: int) {
    && id.Some? && id.value in db.payments
    && db.payments[id.value].saleId in db.sales
    && db.sales[db.payments[id.value].saleId].userId == userId
  }

  /** authorizePaymentAccess: only Admin bypasses the ownership check. */
  function AuthorizePaymentAccess(user: Option<ReqUser>, id: Option<int>, db: Snapshot): (d: Decision)
    ensures d == Pass <==> user.Some? && (user.value.roleName == Admin || OwnsPayment(db, id, user.value.id))
    ensures user.None? ==> d == Deny(500)
    ensures user.Some? && user.value.roleName != Admin ==>
      && (id.None? ==> d == Deny(400))
      && (id.Some? && id.value !in db.payments ==> d == Deny(404))
      && (id.Some? && id.value in db.payments && db.payments[id.value].saleId !in db.sales ==> d == Deny(404))
      && (d != Pass && id.Some? && id.value in db.payments && db.payments[id.value].saleId in db.sales ==> d == Deny(403))
  {
    if user.None? then Deny(500)
    else if user.value.roleName == Admin then Pass
    else if id.None? then Deny(400)
    else if id.value !in db.payments then Deny(404)
    else
      var saleId := db.payments[id.value].saleId;
      if saleId !in db.sales then Deny(404)
      else if db.sales[saleId].userId != user.value.id then Deny(403)
      else Pass
  }

  /** A receipt whose sale exists. */
  predicate ReceiptOnSale(db: Snapshot, id: Option<int>) {
    id.Some? && id.value in db.receipts && db.receipts[id.value].saleId in db.sales
  }

  /** The receipt's sale exists and, for a Cashier, belongs to them. */
  predicate ReceiptPermits(db: Snapshot, id: Option<int>, u: ReqUser) {
    && ReceiptOnSale(db, id)
    && (u.roleName == Cashier ==> db.sales[db.receipts[id.value].saleId].userId == u.id)
  }

  /** authorizeReceiptAccess: Admin bypasses; only a Cashier is held to ownership. */
  function AuthorizeReceiptAccess(user: Option<ReqUser>, id: Option<int>, db: Snapshot): (d: Decision)
    ensures d == Pass <==> user.Some? && (user.value.roleName == Admin || ReceiptPermits(db, id, user.value))
    ensures user.None? ==> d == Deny(500)
    ensures user.Some? && user.value.roleName != Admin ==>
      && (id.None? ==> d == Deny(400))
      && (id.Some? && !ReceiptOnSale(db, id) ==> d == Deny(404))
      && (ReceiptOnSale(db, id) && d != Pass ==> d == Deny(403))
  {
    if user.None? then Deny(500)
    else if user.value.roleName == Admin then Pass
    else if id.None? then Deny(400)
    else if id.value !in db.receipts then Deny(404)
    else
      var saleId := db.receipts[id.value].saleId;
      if saleId !in db.sales then Deny(404)
      else if user.value.roleName == Cashier && db.sales[saleId].userId != user.value.id then Deny(403)
      else Pass
  }

  /** authorizeOfflineTransaction */
  function AuthorizeOfflineTransaction(user: Option<ReqUser>): (d: Decision)
    ensures d == Pass <==> user.Some? && IsAdminOrManager(user.value)
    ensures user.Some? && !IsAdminOrManager(user.value) ==> d == Deny(403)
    ensures user.None? ==> d == Deny(500)
  {
    if user.None? then Deny(500)
    else if IsAdminOrManager(user.value) then Pass
    else Deny(403)
  }

  // ------------------------------------------------------ properties of them

  /** Admin and Manager pass the product and sale checks whatever the id and the tables hold. */
  lemma AdminOrManagerSkipsLookup(u: ReqUser, id1: Option<int>, id2: Option<int>, db1: Snapshot, db2: Snapshot)
    requires IsAdminOrManager(u)
    ensures AuthorizeProductOwner(Some(u), id1, db1) == AuthorizeProductOwner(Some(u), id2, db2) == Pass
    ensures AuthorizeSaleAccess(Some(u), id1, db1) == AuthorizeSaleAccess(Some(u), id2, db2) == Pass
  {
  }

  /** No role other than Admin and Manager ever passes the product check. */
  lemma ProductOwnerNeverPassesOthers(u: ReqUser, id: Option<int>, db: Snapshot)
    requires !IsAdminOrManager(u)
    ensures AuthorizeProductOwner(Some(u), id, db).Deny?
  {
  }

  /** A Manager reaches a payment only through the payment's sale. */
  lemma ManagerNeedsPaymentOwnership(u: ReqUser, id: Option<int>, db: Snapshot)
    requires u.roleName == Manager
    ensures AuthorizePaymentAccess(Some(u), id, db) == Pass <==> OwnsPayment(db, id, u.id)
  {
  }

  /** A Manager reaches any receipt whose sale exists, owner or not. */
  lemma ManagerReachesEveryReceipt(u: ReqUser, id: Option<int>, db: Snapshot)
    requires u.roleName == Manager
    ensures AuthorizeReceiptAccess(Some(u), id, db) == Pass <==> ReceiptOnSale(db, id)
  {
  }
}
