/**
 * The access policy of routers/offlineTransactionRoutes.js,
 * routers/paymentRoutes.js and routers/productRoutes.js.
 *
 * Every protected route runs `authenticateToken` and then a fixed chain of
 * authorisation middleware; the first middleware that replies ends the
 * request, and the handler runs only when every one of them calls `next()`.
 */
module Routes {
  import opened Js
  import opened Auth

  /** One authorisation middleware as a route mounts it. */
  datatype Middleware =
    | Roles(names: seq<string>)
    | ProductOwner
    | PaymentAccess

  /** One middleware run on the signed-in user. */
  function Step(m: Middleware, u: ReqUser, id: Option<int>, db: Snapshot): (d: Decision)
    ensures m.Roles? ==> (d == Pass <==> u.roleName in m.names)
    ensures m.ProductOwner? ==> (d == Pass <==> IsAdminOrManager(u))
    ensures m.PaymentAccess? ==> (d == Pass <==> u.roleName == Admin || OwnsPayment(db, id, u.id))
    ensures d != Pass ==> d.Deny? && d.status in {400, 403, 404}
  {
    match m
    case Roles(names) => AuthorizeRoles(names, Some(u))
    case ProductOwner => AuthorizeProductOwner(Some(u), id, db)
    case PaymentAccess => AuthorizePaymentAccess(Some(u), id, db)
  }

  /** Every middleware before position `i` passes. */
  predicate PassesBefore(chain: seq<Middleware>, i: int, u: ReqUser, id: Option<int>, db: Snapshot)
    requires 0 <= i <= |chain|
  {
    forall j | 0 <= j < i :: Step(chain[j], u, id, db) == Pass
  }

  /** The chain after authentication: it passes iff every middleware passes, else the first refusal answers. */
  function RunChain(chain: seq<Middleware>, u: ReqUser, id: Option<int>, db: Snapshot): (d: Decision)
    ensures d == Pass <==> forall i | 0 <= i < |chain| :: Step(chain[i], u, id, db) == Pass
    ensures d != Pass ==> exists i :: 0 <= i < |chain| && d == Step(chain[i], u, id, db) && PassesBefore(chain, i, u, id, db)
  {
    if chain == [] then Pass
    else
      var d := Step(chain[0], u, id, db);
      if d != Pass then d
      else
        var rest := RunChain(chain[1..], u, id, db);
        assert forall i | 1 <= i < |chain| :: chain[i] == chain[1..][i - 1];
        rest
  }

  /** The whole decision for a request on a route: authentication, then the route's chain. */
  function Decide(chain: seq<Middleware>, header: Option<string>, id: Option<int>, verify: string -> Option<int>, db: Snapshot): (d: Decision)
    ensures Authenticate(header, verify, db).Rejected? ==> d == Deny(Authenticate(header, verify, db).status)
    ensures d == Pass <==>
      && Authenticate(header, verify, db).Authenticated?
      && forall i | 0 <= i < |chain| :: Step(chain[i], Authenticate(header, verify, db).user, id, db) == Pass
  {
    match Authenticate(header, verify, db)
    case Rejected(s) => Deny(s)
    case Authenticated(u) => RunChain(chain, u, id, db)
  }

  /** The request reaches the handler of the route. The route's chain is run on the user that `authenticateToken` stored. */
  method Dispatch(req: Request, chain: seq<Middleware>, verify: string -> Option<int>, db: Snapshot) returns (d: Decision)
    modifies req
    ensures d == Decide(chain, req.authorization, req.id, verify, db)
    ensures Authenticate(req.authorization, verify, db).Authenticated? ==>
      req.user == Some(Authenticate(req.authorization, verify, db).user)
    ensures Authenticate(req.authorization, verify, db).Rejected? ==> req.user == old(req.user)
  {
    d := req.AuthenticateToken(verify, db);
    if d == Pass {
      d := RunChain(chain, req.user.value, req.id, db);
    }
  }

  /** A signed-in request and its role. */
  predicate SignedInAs(header: Option<string>, verify: string -> Option<int>, db: Snapshot, roles: set<string>) {
    Authenticate(header, verify, db).Authenticated? && Authenticate(header, verify, db).user.roleName in roles
  }

  /** Authentication runs first on every route: its refusal is the route's answer, whatever the chain. */
  lemma AuthenticationFirst(chain: seq<Middleware>, header: Option<string>, id: Option<int>, verify: string -> Option<int>, db: Snapshot)
    ensures Authenticate(header, verify, db).Rejected? ==>
      Decide(chain, header, id, verify, db) == Deny(Authenticate(header, verify, db).status)
    ensures header.None? || !HasBearerPrefix(header.value) ==> Decide(chain, header, id, verify, db) == Deny(401)
  {
  }

  /** A chain made of one role list admits exactly the signed-in users with one of those roles. */
  lemma RolesOnly(names: seq<string>, header: Option<string>, id: Option<int>, verify: string -> Option<int>, db: Snapshot)
    ensures Decide([Roles(names)], header, id, verify, db) == Pass <==>
      SignedInAs(header, verify, db, set n | n in names)
    ensures SignedInAs(header, verify, db, set n | n in names) || Authenticate(header, verify, db).Rejected? ||
      Decide([Roles(names)], header, id, verify, db) == Deny(403)
  {
    var a := Authenticate(header, verify, db);
    if a.Authenticated? {
      assert [Roles(names)][0] == Roles(names);
    }
  }

  // ------------------------------------------------------ offline transactions

  datatype OfflineRoute = OfflineCreate | OfflineList | OfflineGet | OfflineUpdate | OfflineDelete | OfflineSync

  /** The middleware each offline-transaction route mounts after authenticateToken. */
  function OfflineChain(r: OfflineRoute): seq<Middleware> {
    match r
    case OfflineCreate => [Roles([Admin, Cashier, Manager])]
    case OfflineList => [Roles([Admin, Manager])]
    case OfflineGet => [Roles([Admin, Manager])]
    case OfflineUpdate => [Roles([Admin, Manager])]
    case OfflineDelete => [Roles([Admin])]
    case OfflineSync => [Roles([Admin, Manager])]
  }

  /** Every offline-transaction route refuses a missing or malformed header with 401. */
  lemma OfflineRoutesAuthenticateFirst(r: OfflineRoute, header: Option<string>, id: Option<int>, verify: string -> Option<int>, db: Snapshot)
    requires header.None? || !HasBearerPrefix(header.value)
    ensures Decide(OfflineChain(r), header, id, verify, db) == Deny(401)
  {
  }

  lemma OfflineCreateAdmits(header: Option<string>, id: Option<int>, verify: string -> Option<int>, db: Snapshot)
    ensures Decide(OfflineChain(OfflineCreate), header, id, verify, db) == Pass <==>
      SignedInAs(header, verify, db, {Admin, Cashier, Manager})
  {
    RolesOnly([Admin, Cashier, Manager], header, id, verify, db);
    assert (set n | n in [Admin, Cashier, Manager]) == {Admin, Cashier, Manager};
  }

  /** List, get-by-id, update and mark-synced admit Admin and Manager, so a Cashier is refused with 403. */
  lemma OfflineStaffRoutesAdmit(r: OfflineRoute, header: Option<string>, id: Option<int>, verify: string -> Option<int>, db: Snapshot)
    requires r in {OfflineList, OfflineGet, OfflineUpdate, OfflineSync}
    ensures Decide(OfflineChain(r), header, id, verify, db) == Pass <==> SignedInAs(header, verify, db, {Admin, Manager})
    ensures SignedInAs(header, verify, db, {Cashier}) ==> Decide(OfflineChain(r), header, id, verify, db) == Deny(403)
  {
    RolesOnly([Admin, Manager], header, id, verify, db);
    assert (set n | n in [Admin, Manager]) == {Admin, Manager};
  }

  /** Delete admits only Admin. */
  lemma OfflineDeleteAdmits(header: Option<string>, id: Option<int>, verify: string -> Option<int>, db: Snapshot)
    ensures Decide(OfflineChain(OfflineDelete), header, id, verify, db) == Pass <==> SignedInAs(header, verify, db, {Admin})
    ensures SignedInAs(header, verify, db, {Manager, Cashier}) ==>
      Decide(OfflineChain(OfflineDelete), header, id, verify, db) == Deny(403)
  {
    RolesOnly([Admin], header, id, verify, db);
    assert (set n | n in [Admin]) == {Admin};
  }

  // ----------------------------------------------------------------- payments

  datatype PaymentRoute = PaymentCreate | PaymentList | PaymentGet | PaymentUpdate | PaymentDelete

  function PaymentChain(r: PaymentRoute): seq<Middleware> {
    match r
    case PaymentCreate => [Roles([Admin, Cashier])]
    case PaymentList => [Roles([Admin, Manager])]
    case PaymentGet => [PaymentAccess]
    case PaymentUpdate => [Roles([Admin])]
    case PaymentDelete => [Roles([Admin])]
  }

  /** Create admits Admin and Cashier, so a Manager is refused. */
  lemma PaymentCreateAdmits(header: Option<string>, id: Option<int>, verify: string -> Option<int>, db: Snapshot)
    ensures Decide(PaymentChain(PaymentCreate), header, id, verify, db) == Pass <==> SignedInAs(header, verify, db, {Admin, Cashier})
    ensures SignedInAs(header, verify, db, {Manager}) ==> Decide(PaymentChain(PaymentCreate), header, id, verify, db) == Deny(403)
  {
    RolesOnly([Admin, Cashier], header, id, verify, db);
    assert (set n | n in [Admin, Cashier]) == {Admin, Cashier};
  }

  /** List admits Admin and Manager, so a Cashier is refused. */
  lemma PaymentListAdmits(header: Option<string>, id: Option<int>, verify: string -> Option<int>, db: Snapshot)
    ensures Decide(PaymentChain(PaymentList), header, id, verify, db) == Pass <==> SignedInAs(header, verify, db, {Admin, Manager})
    ensures SignedInAs(header, verify, db, {Cashier}) ==> Decide(PaymentChain(PaymentList), header, id, verify, db) == Deny(403)
  {
    RolesOnly([Admin, Manager], header, id, verify, db);
    assert (set n | n in [Admin, Manager]) == {Admin, Manager};
  }

  /**
   * Get-by-id has no role list: only an Admin skips the ownership check, so
   * a Manager reaches a payment only when its sale is theirs.
   */
  lemma PaymentGetNeedsOwnership(header: Option<string>, id: Option<int>, verify: string -> Option<int>, db: Snapshot)
    ensures Decide(PaymentChain(PaymentGet), header, id, verify, db) == Pass <==>
      && Authenticate(header, verify, db).Authenticated?
      && (Authenticate(header, verify, db).user.roleName == Admin ||
          OwnsPayment(db, id, Authenticate(header, verify, db).user.id))
    ensures SignedInAs(header, verify, db, {Manager}) && !OwnsPayment(db, id, Authenticate(header, verify, db).user.id) ==>
      Decide(PaymentChain(PaymentGet), header, id, verify, db).Deny?
  {
    var a := Authenticate(header, verify, db);
    if a.Authenticated? {
      assert PaymentChain(PaymentGet)[0] == PaymentAccess;
    }
  }

  /** Update and delete admit only Admin. */
  lemma PaymentWritesAdminOnly(r: PaymentRoute, header: Option<string>, id: Option<int>, verify: string -> Option<int>, db: Snapshot)
    requires r in {PaymentUpdate, PaymentDelete}
    ensures Decide(PaymentChain(r), header, id, verify, db) == Pass <==> SignedInAs(header, verify, db, {Admin})
  {
    RolesOnly([Admin], header, id, verify, db);
    assert (set n | n in [Admin]) == {Admin};
  }

  // ----------------------------------------------------------------- products

  /** The product routes; the by-category route names a handler the controller does not export. */
  datatype ProductRoute = ProductCreate | ProductUpdate | ProductDelete | ProductList | ProductGet

  function ProductChain(r: ProductRoute): seq<Middleware> {
    match r
    case ProductCreate => [Roles([Admin, Manager])]
    case ProductUpdate => [Roles([Admin, Manager]), ProductOwner]
    case ProductDelete => [Roles([Admin, Manager]), ProductOwner]
    case ProductList => [Roles([Admin, Manager, Cashier])]
    case ProductGet => [Roles([Admin, Manager, Cashier])]
  }

  lemma ProductCreateAdmits(header: Option<string>, id: Option<int>, verify: string -> Option<int>, db: Snapshot)
    ensures Decide(ProductChain(ProductCreate), header, id, verify, db) == Pass <==> SignedInAs(header, verify, db, {Admin, Manager})
  {
    RolesOnly([Admin, Manager], header, id, verify, db);
    assert (set n | n in [Admin, Manager]) == {Admin, Manager};
  }

  /**
   * Update and delete chain the role list with the ownership check; the
   * ownership check adds nothing, so the pair admits exactly Admin and Manager
   * and every other signed-in user is refused with 403 by the role list.
   */
  lemma ProductWritesAdmit(r: ProductRoute, header: Option<string>, id: Option<int>, verify: string -> Option<int>, db: Snapshot)
    requires r in {ProductUpdate, ProductDelete}
    ensures Decide(ProductChain(r), header, id, verify, db) == Pass <==> SignedInAs(header, verify, db, {Admin, Manager})
    ensures Authenticate(header, verify, db).Authenticated? && !SignedInAs(header, verify, db, {Admin, Manager}) ==>
      Decide(ProductChain(r), header, id, verify, db) == Deny(403)
  {
    var a := Authenticate(header, verify, db);
    if a.Authenticated? {
      var chain := ProductChain(r);
      assert chain[0] == Roles([Admin, Manager]) && chain[1] == ProductOwner;
      if a.user.roleName in {Admin, Manager} {
        assert Step(chain[0], a.user, id, db) == Pass;
        assert Step(chain[1], a.user, id, db) == Pass;
      } else {
        assert Step(chain[0], a.user, id, db) == Deny(403);
      }
    }
  }

  /** Reads admit Admin, Manager and Cashier. */
  lemma ProductReadsAdmit(r: ProductRoute, header: Option<string>, id: Option<int>, verify: string -> Option<int>, db: Snapshot)
    requires r in {ProductList, ProductGet}
    ensures Decide(ProductChain(r), header, id, verify, db) == Pass <==> SignedInAs(header, verify, db, {Admin, Manager, Cashier})
  {
    RolesOnly([Admin, Manager, Cashier], header, id, verify, db);
    assert (set n | n in [Admin, Manager, Cashier]) == {Admin, Manager, Cashier};
  }

  /** A user without a role row, whose role name is "user", is refused with 403 on every product route. */
  lemma DefaultRoleDeniedOnProducts(r: ProductRoute, header: Option<string>, id: Option<int>, verify: string -> Option<int>, db: Snapshot)
    requires SignedInAs(header, verify, db, {DefaultRole})
    ensures Decide(ProductChain(r), header, id, verify, db) == Deny(403)
  {
    var u := Authenticate(header, verify, db).user;
    assert ProductChain(r)[0].Roles? && DefaultRole !in ProductChain(r)[0].names;
    assert Step(ProductChain(r)[0], u, id, db) == Deny(403);
  }
}
