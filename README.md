# POS-System backend: access control and record tables

This project is a Dafny model of the rule-bearing core of a point-of-sale backend built on Express and Prisma. It has two parts.

- **Access control.** `middleware/auth.js` authenticates a bearer token. It then decides, through a few early-return chains, whether a request may reach its handler. The decision depends on the user's role, the `:id` route parameter, and read-only lookups in the product, sale, payment and receipt tables. Three routers fix the chain for each route: the offline-transaction, payment and product routers.
  - Module `Auth`: each `authorize*` middleware is a pure function over a snapshot of those tables. It returns `Pass` or `Deny(status)`. `authenticateToken` is a method of the `Request` class, because it assigns `req.user`.
  - Module `Routes`: holds the route chains, and lemmas saying who each route admits.
- **Record tables.** The controllers for sale items, sales, products, settings, offline transactions and users each become a class. The class holds `rows: map<int, Record>` and the next id to assign.
  - Each handler that writes the table is a method that returns a `Reply` (status and body, or status and message). Its contract states the whole new table. The list and get-by-id handlers only read, so they are functions of the table.
  - The rules the handlers apply are pure functions with their own lemmas. These rules are:
    - required-field checks that use JavaScript truthiness, so `0` and `""` count as missing;
    - defaults on create;
    - patch updates that skip falsy or absent values;
    - soft deletes;
    - the single-setting rule;
    - the `synced` flag of offline transactions.

Conventions:
- A body field the client did not send is `None`, standing for JavaScript `undefined`.
- Numbers are integers, such as amounts in cents.
- A route id that does not parse is `None`, standing for NaN.
- Time is a parameter `now`. It is stored as `createdAt` on sales, settings and offline transactions.

The code neither reserves stock when sale items change nor recomputes a sale's total from its items:
- `controllers/saleItemController.js` writes only the sale-item table.
- `createSale` stores the total the client sends (`controllers/saleController.js:16`).

The model does the same. `Store.Backend` and `Sales.TotalIgnoresItems` state this of the model.

## Model

| member | source | states |
|---|---|---|
| Js.TruthyIntAgrees | controllers/saleItemController.js:7 | a numeric field is truthy exactly when it is present and nonzero, as JavaScript truthiness of the number |
| Js.TruthyStrAgrees | controllers/userController.js:40 | a string field is truthy exactly when it is present and nonempty |
| Listing.FirstExists | controllers/saleController.js:44 | every nonempty set of rows has a first row in the listing order |
| Listing.Order | controllers/saleController.js:44 | the listing holds each id exactly once and puts a higher rank first, ties by higher id |
| Listing.IdRank | controllers/userController.js:10 | ordering by id rank is exactly ordering by id descending |
| Listing.List | controllers/saleController.js:42-45 | the listing is a permutation of the table's rows, each paired with its record, in rank order |
| Listing.PrependFirst | controllers/saleController.js:44 | the first row followed by the listing of the others lists every row once, in order |
| Listing.KeyOrdered | controllers/offlineTransactionController.js:35 | rows in rank order are in non-increasing order of their key |
| Listing.ListByKeyDesc | controllers/settingController.js:44-46 | the listing is a permutation of the rows with non-increasing key, such as creation time |
| Listing.ListByIdDesc | controllers/saleItemController.js:32-35 | the listing is a permutation of the rows with strictly decreasing ids |
| SaleItems.HasRequiredFields | controllers/saleItemController.js:7 | a create is accepted exactly when saleId, productId, quantity and price are all truthy as JSON numbers, so a missing or zero field is refused |
| SaleItems.FromFields | controllers/saleItemController.js:12-18 | the created item carries exactly the four supplied fields, all nonzero |
| SaleItems.Patched | controllers/saleItemController.js:68-74 | saleId and productId never change; quantity and price each take the supplied value when it is truthy and keep the stored one otherwise; so a quantity or price becomes 0 only if it was 0 |
| SaleItems.PatchIdempotent | controllers/saleItemController.js:68-74 | sending the same update twice leaves the item as sending it once |
| SaleItems.SoftDeleted | controllers/saleItemController.js:88-91 | delete sets quantity to 0 and keeps saleId, productId and price |
| SaleItems.SoftDeleteIdempotent | controllers/saleItemController.js:88-91 | deleting twice equals deleting once |
| SaleItems.PatchKeepsSoftDelete | controllers/saleItemController.js:71 | a soft-deleted item stays at quantity 0 exactly when the update's quantity is falsy |
| SaleItems.Consecutive | controllers/saleController.js:21-27 | items inserted together get consecutive ids in input order |
| SaleItems.SaleItemTable.Create | controllers/saleItemController.js:4-27 | 400 "Missing required fields" with the table unchanged when any field is falsy; otherwise 201 and exactly one new row, all other rows unchanged |
| SaleItems.SaleItemTable.InsertAll | controllers/saleController.js:21-27 | the nested create adds one row per item at fresh consecutive ids and keeps existing rows |
| SaleItems.SaleItemTable.List | controllers/saleItemController.js:30-42 | every item once, ids descending |
| SaleItems.SaleItemTable.Get | controllers/saleItemController.js:45-60 | 200 with the row when present, 404 "Sale item not found" when absent, 500 when the id is NaN |
| SaleItems.SaleItemTable.Update | controllers/saleItemController.js:63-81 | the row becomes its patch and nothing else changes; a missing row gives 500 and no change |
| SaleItems.SaleItemTable.Delete | controllers/saleItemController.js:84-98 | the row stays with quantity 0 and the key set is unchanged; a missing row gives 500 |
| SaleItems.DeleteTwice | controllers/saleItemController.js:88-91 | two deletes of one item leave the table as one delete and return the same reply |
| Sales.Accepts | controllers/saleController.js:7 | a create is accepted exactly when userId and total are truthy numbers, paymentType a nonempty string, and items a nonempty array |
| Sales.NewSale | controllers/saleController.js:12-20 | the stored sale copies userId, total and paymentType; customerId is null, discount and tax 0 when falsy; status is "completed" when falsy |
| Sales.TotalIgnoresItems | controllers/saleController.js:16 | the stored total is determined by the supplied total alone, whatever the items |
| Sales.LineItems | controllers/saleController.js:21-27 | one item per input line, in order, copying productId, quantity and price under the new sale's id |
| Sales.Patched | controllers/saleController.js:77-86 | total, discount and tax each take the supplied value when truthy and are kept otherwise; paymentType and status take the supplied value when present and are kept when absent; userId, customerId and createdAt never change |
| Sales.EmptyPatchKeeps | controllers/saleController.js:77-86 | an update that supplies nothing leaves the sale unchanged |
| Sales.PatchIdempotent | controllers/saleController.js:77-86 | sending the same update twice leaves the sale as sending it once |
| Sales.Cancelled | controllers/saleController.js:100-105 | delete keeps the sale and changes only its status, to "cancelled" |
| Sales.CancelIdempotent | controllers/saleController.js:100-105 | cancelling twice equals cancelling once |
| Sales.SaleTable.Create | controllers/saleController.js:4-37 | 400 "Missing required fields or items" with both tables unchanged unless userId, total and paymentType are truthy and items is a nonempty array; otherwise one new sale and its line items at consecutive ids |
| Sales.SaleTable.List | controllers/saleController.js:40-51 | every sale once, newest first |
| Sales.SaleTable.Get | controllers/saleController.js:54-69 | 404 "Sale not found" when absent, the row when present, 500 on a NaN id |
| Sales.SaleTable.Update | controllers/saleController.js:72-93 | the row becomes its patch; a missing row gives 500 and no change |
| Sales.SaleTable.Delete | controllers/saleController.js:96-110 | the sale is kept with status "cancelled"; a missing row gives 500 |
| Products.NewProduct | controllers/productController.js:38-49 | stockLevel 0 when falsy, taxRate null when falsy, status "active", other fields copied |
| Products.Patched | controllers/productController.js:62-74 | categoryId, price, stockLevel and taxRate each take the supplied value when truthy and are kept otherwise; sku, name, description and status take the supplied value when present and are kept when absent |
| Products.EmptyPatchKeeps | controllers/productController.js:62-74 | an update that supplies nothing leaves the product unchanged |
| Products.PatchIdempotent | controllers/productController.js:62-74 | sending the same update twice leaves the product as sending it once |
| Products.StockNeverZeroedByUpdate | controllers/productController.js:70 | an update never sets a nonzero stock level to 0 |
| Products.Deactivated | controllers/productController.js:86-89 | delete keeps the product and changes only its status, to "inactive" |
| Products.DeactivateIdempotent | controllers/productController.js:86-89 | deactivating twice equals deactivating once |
| Products.ProductTable.Get | controllers/productController.js:19-32 | 404 "Product not found" when absent, the row when present, 500 on a NaN id |
| Products.ProductTable.Create | controllers/productController.js:35-55 | one new row built by the defaults; without a categoryId or price the insert fails with 500 and nothing changes |
| Products.ProductTable.Update | controllers/productController.js:58-80 | the row becomes its patch; a missing row gives 500 |
| Products.ProductTable.Delete | controllers/productController.js:83-95 | the product stays with status "inactive" and the key set is unchanged |
| Users.HasRequiredFields | controllers/userController.js:40 | a create is accepted exactly when roleId is a truthy number and firstName, email and password are nonempty strings |
| Users.NewUser | controllers/userController.js:45-47 | a new user has status "active" and the supplied fields |
| Users.OptionalFieldsIrrelevant | controllers/userController.js:40-42 | lastName, pin and phoneNumber never decide acceptance |
| Users.Patched | controllers/userController.js:63-76 | roleId takes the supplied value when truthy and is kept otherwise; firstName, lastName, email, password, pin, phoneNumber and status each take the supplied value when present and are kept when absent |
| Users.EmptyPatchKeeps | controllers/userController.js:63-76 | an update that supplies nothing leaves the user unchanged |
| Users.PatchIdempotent | controllers/userController.js:63-76 | sending the same update twice leaves the user as sending it once |
| Users.Deactivated | controllers/userController.js:90-93 | delete keeps the user and changes only its status, to "inactive" |
| Users.DeactivateIdempotent | controllers/userController.js:90-93 | deactivating twice equals deactivating once |
| Users.UserTable.List | controllers/userController.js:6-16 | every user once, ids descending |
| Users.UserTable.Get | controllers/userController.js:19-34 | 404 "User not found" when absent, the row when present |
| Users.UserTable.Create | controllers/userController.js:37-55 | 400 "roleId, firstName, email, and password are required" with the table unchanged when one of them is falsy; otherwise one new active user |
| Users.UserTable.Update | controllers/userController.js:58-83 | the row becomes its patch; a missing row gives 500 |
| Users.UserTable.Delete | controllers/userController.js:86-100 | the user stays with status "inactive" |
| Settings.CreateOutcome | controllers/settingController.js:9-20 | "already exists" whenever a setting exists, otherwise "Store name is required" unless storeName is truthy; success only when neither |
| Settings.NewSetting | controllers/settingController.js:22-31 | taxRate and discount default to 0 only when absent, so an explicit 0 is kept |
| Settings.Patched | controllers/settingController.js:78-88 | storeName, taxRate, discount, logoUrl, address and printerType each take the supplied value when present, 0 and empty included, and are kept when absent; createdAt never changes |
| Settings.EmptyPatchKeeps | controllers/settingController.js:78-88 | an update that supplies nothing leaves the setting unchanged |
| Settings.PatchIdempotent | controllers/settingController.js:78-88 | sending the same update twice leaves the setting as sending it once |
| Settings.AtMostOneKey | controllers/settingController.js:9-14 | a table in which any two ids are equal holds at most one setting |
| Settings.SettingTable.Singleton | controllers/settingController.js:9-14 | the table never holds more than one setting |
| Settings.SettingTable.Create | controllers/settingController.js:7-37 | the reply is the outcome above; on success the table, empty before, holds exactly the new setting |
| Settings.SettingTable.List | controllers/settingController.js:42-51 | every setting once, newest first |
| Settings.SettingTable.Get | controllers/settingController.js:56-68 | 404 "Setting not found" when absent |
| Settings.SettingTable.Update | controllers/settingController.js:73-94 | the row becomes its patch; a missing row gives 500 |
| Settings.SettingTable.Delete | controllers/settingController.js:99-111 | deleting the setting empties the table |
| Settings.ReplaceSetting | controllers/settingController.js:9-31 | after the only setting is deleted, a create with a store name succeeds |
| OfflineTransactions.CreateAcceptsObjectsAndArrays | controllers/offlineTransactionController.js:13-15 | create accepts exactly a JSON object or array: null, absent and scalar data are refused |
| OfflineTransactions.UpdateRejectsTruthyScalars | controllers/offlineTransactionController.js:75 | the update refuses exactly `true`, a nonzero number and a nonempty string; null, absent, falsy, object and array data pass |
| OfflineTransactions.Patched | controllers/offlineTransactionController.js:79-85 | synced changes only to a supplied boolean; data changes unless it is null or undefined |
| OfflineTransactions.UpdateStoresFalsyData | controllers/offlineTransactionController.js:75-83 | every falsy data value other than null, such as `false`, `0` or `""`, passes the update check and is stored |
| OfflineTransactions.Synced | controllers/offlineTransactionController.js:121-124 | mark-synced sets synced and leaves the data unchanged |
| OfflineTransactions.SyncIdempotent | controllers/offlineTransactionController.js:121-124 | marking synced twice equals marking once |
| OfflineTransactions.OfflineTransactionTable.Create | controllers/offlineTransactionController.js:9-26 | 400 with no change unless data is an object; a new transaction starts unsynced |
| OfflineTransactions.OfflineTransactionTable.List | controllers/offlineTransactionController.js:32-42 | every transaction once, newest first |
| OfflineTransactions.OfflineTransactionTable.Get | controllers/offlineTransactionController.js:47-63 | 404 "Offline transaction not found" when absent |
| OfflineTransactions.OfflineTransactionTable.Update | controllers/offlineTransactionController.js:70-92 | truthy non-object data gives 400 before the row is looked up; otherwise the row becomes its patch, or 500 when missing |
| OfflineTransactions.OfflineTransactionTable.Delete | controllers/offlineTransactionController.js:98-111 | removes exactly the given row and keeps every other row |
| OfflineTransactions.OfflineTransactionTable.MarkAsSynced | controllers/offlineTransactionController.js:117-131 | the row becomes synced with its data unchanged; a missing row gives 500 |
| OfflineTransactions.SyncTwice | controllers/offlineTransactionController.js:121-124 | two mark-synced calls leave the table as one and return the same reply |
| Store.Backend.CreateSaleItem | controllers/saleItemController.js:12-19 | creating an item changes no product's stock level and no sale's total |
| Store.Backend.UpdateSaleItem | controllers/saleItemController.js:68-74 | updating an item changes no product's stock level and no sale's total |
| Store.Backend.DeleteSaleItem | controllers/saleItemController.js:88-91 | deleting an item returns nothing to stock and changes no sale's total |
| Auth.BearerPrefixIsStartsWith | middleware/auth.js:9 | the headers that pass the prefix check are exactly "Bearer " followed by anything |
| Auth.Segment | middleware/auth.js:13 | the characters before the first separator: a prefix of the input with no separator, followed by the separator or the end |
| Auth.Split | middleware/auth.js:13 | `split` yields at least one segment, none containing the separator |
| Auth.SplitFirst | middleware/auth.js:13 | the first element of `split` is the text before the first separator |
| Auth.SplitAfter | middleware/auth.js:13 | a leading separator-free segment splits off as the first element |
| Auth.SplitJoin | middleware/auth.js:13 | joining the segments of `split` with the separator gives back the input |
| Auth.Token | middleware/auth.js:13 | the token is the run of characters after "Bearer " up to the next space or the end of the header, and holds no space |
| Auth.TokenIsSecondSegment | middleware/auth.js:9-13 | for a header starting with "Bearer ", the token is the second space-separated segment |
| Auth.Authenticate | middleware/auth.js:6-36 | 401 for a missing or non-Bearer header; 403 when the token does not verify; 404 for an unknown user; otherwise the request user has the verified id, that user's email and role name |
| Auth.MalformedHeaderBeforeLookup | middleware/auth.js:9-11 | a malformed header gives 401 whatever the token oracle and the tables hold |
| Auth.UnknownUserNotFound | middleware/auth.js:23 | a verified token naming no user gives 404 |
| Auth.Request.AuthenticateToken | middleware/auth.js:25-31 | the decision is that of authentication; on success `req.user` is the authenticated user, otherwise it is unchanged |
| Auth.AuthorizeRoles | middleware/auth.js:39-44 | passes iff a user is present and its role is listed, otherwise 403 |
| Auth.AuthorizeProductOwner | middleware/auth.js:47-64 | passes iff the role is Admin or Manager; others get 400 on a NaN id, else 404 on a missing product, else 403; no user gives 500 |
| Auth.AuthorizeSaleAccess | middleware/auth.js:67-88 | passes iff Admin, Manager or the sale's owner; others get 400, then 404, then 403 |
| Auth.AuthorizePaymentAccess | middleware/auth.js:91-115 | passes iff Admin or the owner of the payment's sale; a missing payment and a missing sale each give 404 |
| Auth.AuthorizeReceiptAccess | middleware/auth.js:118-142 | passes iff Admin, or the receipt and its sale exist and the user is not a Cashier or owns the sale; missing receipt or sale give 404 |
| Auth.AuthorizeOfflineTransaction | middleware/auth.js:145-156 | passes iff the role is Admin or Manager, otherwise 403 |
| Auth.AdminOrManagerSkipsLookup | middleware/auth.js:51 | Admin and Manager pass the product and sale checks whatever the id and the tables |
| Auth.ProductOwnerNeverPassesOthers | middleware/auth.js:51-59 | no other role ever passes the product check |
| Auth.ManagerNeedsPaymentOwnership | middleware/auth.js:95-108 | a Manager passes the payment check exactly when owning the payment's sale |
| Auth.ManagerReachesEveryReceipt | middleware/auth.js:122-135 | a Manager passes the receipt check whenever the receipt and its sale exist |
| Routes.Step | middleware/auth.js:39-115 | a role list passes iff the role is listed; the product check iff Admin or Manager; the payment check iff Admin or the owner of the payment's sale; a refusal is 400, 403 or 404 |
| Routes.RunChain | routers/productRoutes.js:33-48 | a middleware chain passes iff each middleware passes; otherwise the first refusal answers |
| Routes.Decide | routers/productRoutes.js:33-40 | a refused authentication is the answer; otherwise the route passes iff every middleware of its chain passes for the authenticated user |
| Routes.Dispatch | routers/productRoutes.js:33-40 | running authenticateToken and then the chain on the request gives the route's decision; `req.user` becomes the authenticated user, and is left alone when authentication refuses |
| Routes.AuthenticationFirst | routers/offlineTransactionRoutes.js:28-29 | on every route a refused authentication is the answer, 401 for a malformed header |
| Routes.RolesOnly | middleware/auth.js:39-44 | a route guarded by one role list admits exactly the signed-in users with a listed role and refuses the others with 403 |
| Routes.OfflineRoutesAuthenticateFirst | routers/offlineTransactionRoutes.js:26-71 | every offline-transaction route answers 401 to a missing or malformed header |
| Routes.OfflineCreateAdmits | routers/offlineTransactionRoutes.js:26-31 | create admits exactly Admin, Cashier and Manager |
| Routes.OfflineStaffRoutesAdmit | routers/offlineTransactionRoutes.js:34-71 | list, get-by-id, update and mark-synced admit exactly Admin and Manager; a Cashier gets 403 |
| Routes.OfflineDeleteAdmits | routers/offlineTransactionRoutes.js:58-63 | delete admits exactly Admin |
| Routes.PaymentCreateAdmits | routers/paymentRoutes.js:20-25 | create admits exactly Admin and Cashier; a Manager gets 403 |
| Routes.PaymentListAdmits | routers/paymentRoutes.js:28-33 | list admits exactly Admin and Manager; a Cashier gets 403 |
| Routes.PaymentGetNeedsOwnership | routers/paymentRoutes.js:35-41 | get-by-id admits an Admin or the owner of the payment's sale, so a Manager who is not the owner is refused |
| Routes.PaymentWritesAdminOnly | routers/paymentRoutes.js:44-57 | update and delete admit exactly Admin |
| Routes.ProductCreateAdmits | routers/productRoutes.js:24-30 | create admits exactly Admin and Manager |
| Routes.ProductWritesAdmit | routers/productRoutes.js:33-48 | update and delete admit exactly Admin and Manager; every other signed-in user gets 403 |
| Routes.ProductReadsAdmit | routers/productRoutes.js:51-70 | list and get-by-id admit exactly Admin, Manager and Cashier |
| Routes.DefaultRoleDeniedOnProducts | routers/productRoutes.js:24-70 | a user with the default role "user" gets 403 on every product route |

## Left out

- Token verification (`jwt.verify`) is a cryptographic library call. It is the parameter `verify`, which yields the token's user id or nothing.
- The Prisma client is replaced by maps. Out of scope:
  - foreign-key and unique-constraint failures;
  - `include` joins in replies;
  - every other database exception: the controllers' `catch` replies 500 and `authenticateToken`'s replies 403 (`middleware/auth.js:18-21` and `:32-34`).

  The model keeps two such failures. An update or delete of a missing row, or a lookup with a NaN id, replies 500. A product create whose categoryId or price is NaN or absent also replies 500.
- Money and rates are integers, not floating-point numbers.
- A body value is either absent or of its expected type. So the model does not cover:
  - a string such as `"0"`, which is truthy in JavaScript;
  - a non-numeric string that `Number` turns into NaN;
  - `null` sent in an update.
- `parseInt`'s prefix parsing and `Number`'s conversion of route ids are both one `Option<int>`, the same for the middleware and the handler.
- The middleware's error messages are not modelled. A `Decision` carries only the status.
- `authenticateToken`: its `catch` answers 403 to anything that throws after the header check. That covers a token `verify` refuses, which the model keeps. It also covers a token whose payload has no user id and any failure of the user lookup itself, such as an unreachable database. The model does not produce that 403 for a failed lookup: the lookup is a map read that always succeeds. A payload without a user id is the oracle returning nothing.
- Listings break ties in the ordering column by higher id. The database leaves such ties unordered.
- `getProducts` has no ordering and no rule of its own, so it is not modelled. Pass-through controllers are not modelled: customer, category, role, promotion, payment, receipt and report.
- The product route by category is not modelled. It names `getProductsByCategory`, which the controller does not export. Express throws when `routers/productRoutes.js:58-63` passes that undefined handler, so the router fails to load and none of its routes is ever mounted. The product-route lemmas therefore describe the role lists the router declares, not routes a running server serves.
- Routes without authorisation carry no policy and are not modelled. Nor are the user and role routers, which import handlers their controllers do not export.
- The wiring in `index.js`, which mounts no routers, is not modelled.
- Multer upload setup, CORS, static serving, listening, logging and the seed script are I/O or framework wiring, and are not modelled.
- Stock reservation and total recalculation are not modelled because the code has none. `Store.Backend` states that the sale-item handlers leave stock and totals alone.
- `Store.Backend.CreateSaleItem`, `Store.Backend.UpdateSaleItem`, `Store.Backend.DeleteSaleItem`: these state the sale-item outcome only for the success cases. The failure replies are stated by the sale-item table's own methods.
- Concurrency between requests is not modelled. Each handler runs to completion on the current tables.
