# emporia, modelled in Dafny

emporia is a small storefront. A React UI (`emporia-UI`) talks to a Flask API
(`emporia-api`) that keeps its data in MySQL.

The model covers the parts of both that carry rules:

- The UI's token store (`tokenManager.ts`), which holds the access token and
  the signed-in user in two `localStorage` entries.
- The session state of `AuthContext.tsx`, and the role gate `PrivateRoutes.tsx`.
- The category filter and the add-to-cart button of the market page.
- The status badge and cancel button of the order history page.
- The password strength meter of the registration form.
- The API's bearer-token and role decorators.
- The cart, product, category and order repositories, over the MySQL tables
  held as one value `Tables.Tables`. Tables with an `AUTO_INCREMENT` id are
  maps with a next-id counter. The two line-item tables are lists of rows.
- The services in front of those repositories, and the product routes.
- Order placement. It runs as five commands (validate, create, update
  inventory, pay, mark paid) through an invoker that keeps a history of the
  commands that succeeded. On a failure the invoker undoes that history
  newest first.
- The payment stub, the user factory and the user validation.

Where the source changes state (the token store, the session, the
repositories, the invoker, the services), the model is a class. Its methods
are proved against functions on the old state. The properties are proved
about those functions.

Parts the model cannot see are parameters:

| outside part | parameter |
|---|---|
| the JWT verifier (`verify_token`) | `Verifier` |
| the UI's token decoder and the JSON parse of the stored user | `Decoder` and `Parser` |
| the current time | an integer count of milliseconds, `nowMs` |
| the order date | an integer, `now` |
| the outcome of each server call the UI makes | an input `Result` |
| the user service's seller lookup | `SellerLookup` |

Every `.dfy` file is a module. They import one another and verify together.

## Model

| member | source | states |
|---|---|---|
| ProductRepo.ListingExact | emporia-api/repositories/database/db_product_repo.py:108-166 | a row is listed iff it is in `products` and its column has the asked value (category, seller, or any); rows come out in strictly ascending id order, so each once |
| ProductRepo.Page | emporia-api/repositories/database/db_product_repo.py:54-58 | `LIMIT limit OFFSET offset`: at most `limit` rows, the `i`-th being row `offset + i`; exactly `limit` when that many remain, the remainder otherwise, none past the end |
| ProductRepo.ProductUpdateSpec | emporia-api/repositories/database/db_product_repo.py:168-216 | an update succeeds iff the row exists, belongs to the seller named in the product, the new category exists and some column changes; writing a row's own values back fails as `Product with ID … not found`, since `rowcount` counts changed rows; a success rewrites that one row, keeps its seller and every other row and table, and keeps the tables valid |
| ProductRepo.ProductDeleteSpec | emporia-api/repositories/database/db_product_repo.py:218-259 | a delete succeeds iff the row exists and, when a seller id is given, is that seller's; it removes exactly that row and keeps the tables valid |
| ProductRepo.DBProductRepo.Create | emporia-api/repositories/database/db_product_repo.py:12-50 | an unknown seller fails with `Invalid seller ID: s`, then an unknown category with `Invalid category ID: c`, writing nothing; otherwise the product is stored under the next id, which is returned |
| ProductRepo.DBProductRepo.Fetch | emporia-api/repositories/database/db_product_repo.py:60-76 | the loop over fetched rows yields exactly the listing of the filter |
| ProductRepo.DBProductRepo.GetAllProducts | emporia-api/repositories/database/db_product_repo.py:52-79 | the page `limit`/`offset` of all products in id order; a negative limit or offset is an error |
| ProductRepo.DBProductRepo.GetById | emporia-api/repositories/database/db_product_repo.py:81-106 | the stored row when the id exists, `None` otherwise |
| ProductRepo.DBProductRepo.GetByCategory | emporia-api/repositories/database/db_product_repo.py:108-135 | the listing of the products of that category |
| ProductRepo.DBProductRepo.GetBySeller | emporia-api/repositories/database/db_product_repo.py:137-166 | the listing of the products of that seller |
| ProductRepo.DBProductRepo.Update | emporia-api/repositories/database/db_product_repo.py:168-216 | writes the update's new tables and returns the product when it succeeds; otherwise returns its error and changes nothing; tables stay valid |
| ProductRepo.DBProductRepo.Delete | emporia-api/repositories/database/db_product_repo.py:218-259 | removes the row and returns true when the delete succeeds; otherwise returns its error and changes nothing |
| CartRepo.FindLine | emporia-api/repositories/database/db_cart_repo.py:162-167 | the index of the first `cart_items` row of that cart and product, or none when no row matches |
| CartRepo.TotalIsSum | emporia-api/repositories/database/db_cart_repo.py:44-64 | the running `total_price` the loop keeps equals the sum of price × quantity over the lines |
| CartRepo.TotalNonNegative | emporia-api/repositories/database/db_cart_repo.py:44-64 | with non-negative prices and quantities the cart total is non-negative |
| CartRepo.CartView | emporia-api/repositories/database/db_cart_repo.py:13-25 | `get_cart` gives a cart iff the cart exists and belongs to the asked customer |
| CartRepo.TotalItemsCountsLines | emporia-api/repositories/database/db_cart_repo.py:65 | `total_items` counts lines, not units: one line of three units gives 1 item and 3 × price |
| CartRepo.FirstCart | emporia-api/repositories/database/db_cart_repo.py:75-80 | `fetchone` of the customer's carts: the smallest-id cart of the customer, or none when the customer has no cart |
| CartRepo.CreateCartIdempotent | emporia-api/repositories/database/db_cart_repo.py:72-96 | `create_cart` leaves the customer with a cart and valid tables, and a second call returns that same cart and changes nothing |
| CartRepo.SetQuantity | emporia-api/repositories/database/db_cart_repo.py:184-188 | the `UPDATE` keeps the number of rows |
| CartRepo.WithoutLineSpec | emporia-api/repositories/database/db_cart_repo.py:220-223 | removing a line deletes exactly the rows of that cart and product and keeps every other row in order |
| CartRepo.WithoutCartSpec | emporia-api/repositories/database/db_cart_repo.py:244-247 | clearing a cart deletes every row of that cart and no other |
| CartRepo.SetQuantityUnique | emporia-api/repositories/database/db_cart_repo.py:184-188 | setting a quantity keeps the (cart, product) pairs, so no product appears twice in a cart afterwards |
| CartRepo.UpdateItemTables | emporia-api/repositories/database/db_cart_repo.py:159-190 | `update_item` writes iff the line exists, the product exists and its stock covers the new quantity; the write sets that line's quantity only |
| CartRepo.InsertItemTables | emporia-api/repositories/database/db_cart_repo.py:123-143 | a new line is written iff the product exists and its stock covers the quantity; exactly one row is appended |
| CartRepo.InsertKeepsUnique | emporia-api/repositories/database/db_cart_repo.py:138-141 | appending a line for a pair the cart does not hold keeps lines unique |
| CartRepo.AddItemSpec | emporia-api/repositories/database/db_cart_repo.py:108-143 | adding a product already in the cart sets its quantity to the sum and checks stock against the sum; a new product appends one row; both keep lines unique |
| CartRepo.DBCartRepo.GetCart | emporia-api/repositories/database/db_cart_repo.py:13-70 | the loop over the joined rows returns exactly the cart view: the lines, their total and their count |
| CartRepo.DBCartRepo.CreateCart | emporia-api/repositories/database/db_cart_repo.py:72-106 | the customer's existing cart (read back) with nothing written, or an empty cart with the next id that is then stored; tables stay valid |
| CartRepo.DBCartRepo.CartAfterWrite | emporia-api/repositories/database/db_cart_repo.py:265-276 | `Cart with ID c not found` for a missing cart; otherwise the cart read back for its owner |
| CartRepo.DBCartRepo.UpdateItem | emporia-api/repositories/database/db_cart_repo.py:159-204 | a failed check changes nothing and wraps its message; a passed one writes the new quantity, after which a missing cart still fails; lines stay unique |
| CartRepo.DBCartRepo.AddItem | emporia-api/repositories/database/db_cart_repo.py:108-157 | the tables of `AddItemSpec`; failures through `update_item` carry both wrappers; lines stay unique |
| CartRepo.DBCartRepo.RemoveItem | emporia-api/repositories/database/db_cart_repo.py:206-239 | a missing line fails and changes nothing; otherwise exactly the line's rows go and the cart is read back |
| CartRepo.DBCartRepo.ClearCart | emporia-api/repositories/database/db_cart_repo.py:241-263 | every row of the cart goes, even for a missing cart, which then fails; the answer is an empty cart, not a fresh read |
| CartService.CartServiceImpl.GetCart | emporia-api/services/cart_services.py:8-17 | a falsy cart id (absent or 0) gets or creates the customer's cart and returns it: the view of the existing cart, or an empty cart under the next id; any other id reads that cart only if it is the customer's, writing nothing |
| CartService.CartServiceImpl.GetOrCreateCart | emporia-api/services/cart_services.py:19-24 | the customer ends with a cart of their own; the result is the view of the existing cart, or a new empty cart with the next id |
| CartService.CartServiceImpl.AddItem | emporia-api/services/cart_services.py:26-45 | the checks in source order (cart is the customer's, product exists, quantity positive), the first failing one giving the message and writing nothing; then the repository's add with one more wrapper; lines stay unique |
| CartService.CartServiceImpl.UpdateItem | emporia-api/services/cart_services.py:47-62 | a non-owner fails; a quantity of zero or less removes the line; otherwise the repository's update; every failure changes nothing |
| CartService.CartServiceImpl.RemoveItem | emporia-api/services/cart_services.py:64-74 | only the owner can remove; a missing line fails with nothing written; otherwise exactly that line goes |
| CartService.CartServiceImpl.ClearCart | emporia-api/services/cart_services.py:76-87 | ownership is checked only for a truthy customer id; otherwise every row of the cart goes and an empty cart is answered |
| OrderRepo.ItemRows | emporia-api/repositories/database/db_order_repo.py:30-39 | one `order_items` row per cart line, in line order, each with the new order's id, the line's product and quantity and the product's price as the cart holds it |
| OrderRepo.OrderJoinOfItemRows | emporia-api/repositories/database/db_order_repo.py:69-100 | read back, the item rows of an order give each line's product, quantity and cart-time price with the product's current name and description |
| OrderRepo.OrderCreateSpec | emporia-api/repositories/database/db_order_repo.py:13-42 | `create_order` uses a fresh id, adds exactly that order, leaves every other order (and what `get_by_id` shows of it) unchanged, adds one item row per line and touches no other table; read back, the new order lists the cart's lines |
| OrderRepo.OrderUpdateSpec | emporia-api/repositories/database/db_order_repo.py:140-165 | an update succeeds iff the order exists and its status or amount changes; otherwise it fails with `Order update failed: Order with ID … not found`; a success changes that order's status and amount only |
| OrderRepo.WithoutOrderItemsSpec | emporia-api/repositories/database/db_order_repo.py:170-173 | the `DELETE FROM order_items` keeps exactly the rows of other orders |
| OrderRepo.OrderDeleteSpec | emporia-api/repositories/database/db_order_repo.py:167-194 | a deletion succeeds iff the order exists; it removes that order and every item row of it and keeps all other rows; a missing order rolls back the item deletion too |
| OrderRepo.CreateThenDelete | emporia-api/repositories/database/db_order_repo.py:13-194 | deleting a freshly created order gives back the tables before the creation, apart from the id counter |
| OrderRepo.OrderByDateDescSpec | emporia-api/repositories/database/db_order_repo.py:123 | `ORDER BY order_date DESC` yields the same rows (a permutation) newest first |
| OrderRepo.ViewsOfRows | emporia-api/repositories/database/db_order_repo.py:129-133 | when every selected id has its row, the loop keeps one order per id, each the `get_by_id` view of it |
| OrderRepo.CustomerOrdersSpec | emporia-api/repositories/database/db_order_repo.py:117-138 | `get_orders_by_customer` lists only the customer's orders, newest first, and an id appears iff it is an order of that customer |
| OrderRepo.DBOrderRepo.CreateOrder | emporia-api/repositories/database/db_order_repo.py:13-52 | the insert and its loop over the lines produce exactly the tables of `OrderCreate` and return the fresh id; tables stay valid |
| OrderRepo.DBOrderRepo.GetById | emporia-api/repositories/database/db_order_repo.py:54-115 | `None` for a missing order; otherwise the loop over joined item rows builds exactly the order view |
| OrderRepo.DBOrderRepo.GetOrdersByCustomer | emporia-api/repositories/database/db_order_repo.py:117-138 | the loop calling `get_by_id` per selected id returns exactly `CustomerOrders` |
| OrderRepo.DBOrderRepo.UpdateOrder | emporia-api/repositories/database/db_order_repo.py:140-165 | writes the update and returns the order when it succeeds; otherwise returns its error and changes nothing |
| OrderRepo.DBOrderRepo.DeleteOrder | emporia-api/repositories/database/db_order_repo.py:167-194 | writes the deletion and returns true when it succeeds; otherwise returns its error and changes nothing |
| CategoryRepo.NameLtTotal | emporia-api/repositories/database/db_category_repo.py:43 | the name order used by `ORDER BY name` is total |
| CategoryRepo.NameLtTransitive | emporia-api/repositories/database/db_category_repo.py:43 | the name order is transitive |
| CategoryRepo.OrderByNameSpec | emporia-api/repositories/database/db_category_repo.py:40-44 | `ORDER BY name ASC` yields the same rows (a permutation), sorted by name |
| CategoryRepo.AllCategoriesSpec | emporia-api/repositories/database/db_category_repo.py:38-60 | `get_all_categories` is sorted by name and lists a row iff it is in `categories` |
| CategoryRepo.ProductsUsingSpec | emporia-api/repositories/database/db_category_repo.py:113-117 | the `COUNT(*)` of products in a category is positive iff some product has that category |
| CategoryRepo.CategoryDeleteSpec | emporia-api/repositories/database/db_category_repo.py:110-139 | a category is deleted iff it exists and no product uses it; only that row goes and the products' category key still holds |
| CategoryRepo.DBCategoryRepo.Create | emporia-api/repositories/database/db_category_repo.py:12-36 | fails with `Category 'n' already exists` iff the name is taken, writing nothing; otherwise stores the category under the next id and returns it |
| CategoryRepo.DBCategoryRepo.GetAllCategories | emporia-api/repositories/database/db_category_repo.py:38-60 | the loops return exactly `AllCategories` |
| CategoryRepo.DBCategoryRepo.GetById | emporia-api/repositories/database/db_category_repo.py:62-82 | the stored row when the id exists, `None` otherwise |
| CategoryRepo.DBCategoryRepo.Update | emporia-api/repositories/database/db_category_repo.py:84-108 | a missing id, or a category that already has the new name and description, fails as `Category with ID … not found` (wrapped); a name held by another category fails (unwrapped); neither writes; otherwise exactly that row takes the new name and description |
| CategoryRepo.DBCategoryRepo.Delete | emporia-api/repositories/database/db_category_repo.py:110-139 | writes the deletion and returns true when it is allowed; otherwise the in-use or not-found error, changing nothing |
| CategoryService.DictRoundTrip | emporia-api/services/category_services.py:93-101 | the dictionary keeps id, name and description: the category can be rebuilt from it |
| CategoryService.Dicts | emporia-api/services/category_services.py:37 | one dictionary per category, in listing order |
| CategoryService.NewCategory | emporia-api/services/category_services.py:13-21 | creation is refused with `Category name is required` iff the name is absent or empty; the description defaults to the empty string |
| CategoryService.Patched | emporia-api/services/category_services.py:69-73 | an update overwrites exactly the fields whose keys the body holds |
| CategoryService.EmptyNameOnlyByUpdate | emporia-api/services/category_services.py:13-73 | creation refuses an empty name while an update sets one unchecked |
| CategoryService.CategoryServiceImpl.CreateCategory | emporia-api/services/category_services.py:7-27 | a missing name or a taken name fails with the wrapped message and writes nothing; otherwise the new category is stored under the next id |
| CategoryService.CategoryServiceImpl.GetAllCategories | emporia-api/services/category_services.py:29-40 | the dictionaries of every category, sorted by name |
| CategoryService.CategoryServiceImpl.GetCategoryById | emporia-api/services/category_services.py:42-55 | the category's dictionary, or `Failed to fetch category: Category with ID n not found` |
| CategoryService.CategoryServiceImpl.UpdateCategory | emporia-api/services/category_services.py:57-81 | a missing id fails; a patch that changes neither field fails as a missing category; otherwise the patched category is written unless its name is held by another category; failures write nothing |
| CategoryService.CategoryServiceImpl.DeleteCategory | emporia-api/services/category_services.py:83-91 | the repository's deletion, its error wrapped in `Failed to delete category: ` |
| ProductService.DictRoundTrip | emporia-api/services/product_services.py:156-169 | the dictionary keeps the id and all seven columns: the product can be rebuilt from it |
| ProductService.Dicts | emporia-api/services/product_services.py:52 | one dictionary per product, in listing order |
| ProductService.CreateCheck | emporia-api/services/product_services.py:14-24 | creation passes its checks iff name, category, price and stock are all present, the price is positive and the stock non-negative; otherwise the first failing check in source order names the message |
| ProductService.NewProduct | emporia-api/services/product_services.py:27-36 | the built product has a positive price, non-negative stock and the caller as seller; description and image default to the empty string |
| ProductService.Patched | emporia-api/services/product_services.py:113-135 | an update overwrites exactly the fields whose keys the body holds and never the seller; it is refused iff a given price is not positive or a given stock is negative, the price message winning |
| ProductService.EmptyPatchIsIdentity | emporia-api/services/product_services.py:113-135 | a body with none of the keys changes nothing |
| ProductService.EmptyUpdateNotFound | emporia-api/services/product_services.py:96-143 | the owner's update with an empty body fails with `Failed to update product: Product update failed: Product with ID … not found` |
| ProductService.ServiceUpdateSpec | emporia-api/services/product_services.py:96-143 | an update goes through iff the product exists, belongs to the caller, the new price and stock pass, the new category exists and some column changes; a patch that changes nothing fails as a missing product; on success only that row changes, to the patched product, and its seller stays |
| ProductService.ProductServiceImpl.CreateProduct | emporia-api/services/product_services.py:8-42 | a failed check or a missing seller id fails wrapped and writes nothing; otherwise the repository's create, which succeeds iff seller and category exist and stores the built product under the next id |
| ProductService.ProductServiceImpl.GetAllProducts | emporia-api/services/product_services.py:44-55 | the dictionaries of the requested page of all products, or the wrapped repository error |
| ProductService.ProductServiceImpl.GetProductById | emporia-api/services/product_services.py:57-70 | the product's dictionary, or `Failed to fetch product: Product with ID n not found` |
| ProductService.ProductServiceImpl.GetProductsByCategory | emporia-api/services/product_services.py:72-82 | the dictionaries of exactly the category's products |
| ProductService.ProductServiceImpl.GetProductsBySeller | emporia-api/services/product_services.py:84-94 | the dictionaries of exactly the seller's products |
| ProductService.ProductServiceImpl.UpdateProduct | emporia-api/services/product_services.py:96-143 | writes the tables of `ServiceUpdate` and returns the updated product's dictionary, or its error with nothing written |
| ProductService.ProductServiceImpl.DeleteProduct | emporia-api/services/product_services.py:145-154 | the repository's deletion, its error wrapped in `Failed to delete product: ` |
| ProductRoutes.SellerClaim | emporia-api/routes/products/product_routes.py:68 | `seller_id or user_id`: the seller id claim when truthy, the user id claim otherwise |
| ProductRoutes.ClaimId | emporia-api/routes/products/product_routes.py:68 | the service receives an id iff the claim is a number |
| ProductRoutes.ZeroSellerIdFallsBack | emporia-api/routes/products/product_routes.py:100 | a seller id claim of 0 is falsy, so the user id is used instead |
| ProductRoutes.ErrorStatus | emporia-api/routes/products/product_routes.py:107-114 | a `ValueError` maps to 403 when it mentions `does not belong to seller`, else 404 when it mentions `not found`, else 400 |
| ProductRoutes.NotOwnedStatus | emporia-api/routes/products/product_routes.py:109-110 | the service's ownership refusal maps to 403 |
| ProductRoutes.FieldCheckStatus | emporia-api/routes/products/product_routes.py:113-114 | a rejected price or stock maps to 400 |
| ProductRoutes.UpdateErrorStatus | emporia-api/routes/products/product_routes.py:90-116 | a failed update is 404 exactly for a missing product or a body that changes nothing, 403 exactly for another seller's product, 400 for every other failure |
| ProductRoutes.DeleteErrorStatus | emporia-api/routes/products/product_routes.py:137-144 | a failed delete is 404 for a missing product and 403 otherwise (another seller's product) |
| ProductRoutes.SellerWithoutIdDeletesAny | emporia-api/routes/products/product_routes.py:130-132 | a seller whose token has no numeric id reaches `delete_product` with `None`, the administrator's path, and can delete any product |
| ProductRoutes.DeleteSellerArg | emporia-api/routes/products/product_routes.py:124-134 | only the roles `admin` and `seller` reach the service; admin passes no seller id |
| ProductRoutes.ProductRoutesImpl.GetAllProducts | emporia-api/routes/products/product_routes.py:7-18 | limit and offset default to 100 and 0; 200 with the requested page, or 500 for a negative limit or offset |
| ProductRoutes.ProductRoutesImpl.GetProduct | emporia-api/routes/products/product_routes.py:21-30 | 200 with the product, or 404 with the not-found message |
| ProductRoutes.ProductRoutesImpl.GetProductsByCategory | emporia-api/routes/products/product_routes.py:33-40 | 200 with exactly the category's products |
| ProductRoutes.ProductRoutesImpl.GetProductsBySeller | emporia-api/routes/products/product_routes.py:43-55 | the path's user id is mapped to a seller id first: 404 `Seller not found` without one, else 200 with that seller's products |
| ProductRoutes.ProductRoutesImpl.CreateProduct | emporia-api/routes/products/product_routes.py:58-87 | the role check's rejection is returned as is; no body is 400; 201 iff the checks pass, the token yields a known seller and the category exists, and then exactly the new product is stored; every other outcome is 400, 401 or 403 with nothing written |
| ProductRoutes.ProductRoutesImpl.UpdateProduct | emporia-api/routes/products/product_routes.py:90-116 | after the role check and the body check, 200 with the tables of `ServiceUpdate`, or its message under `ErrorStatus`; nothing is written unless 200 |
| ProductRoutes.ProductRoutesImpl.DeleteProduct | emporia-api/routes/products/product_routes.py:119-146 | after the token check, other roles get 403; admins and sellers get the repository's deletion as 200, or its message under `ErrorStatus`; nothing is written unless 200 |
| AuthDecorators.Get | emporia-api/utils/auth_decorators.py:30-33 | `payload.get(key)` is `None` for a missing key |
| AuthDecorators.Split | emporia-api/utils/auth_decorators.py:17 | `split(" ")` gives at least one piece |
| AuthDecorators.JoinSplit | emporia-api/utils/auth_decorators.py:17 | splitting on single spaces loses nothing: joining the pieces gives the header back |
| AuthDecorators.SplitShape | emporia-api/utils/auth_decorators.py:17 | there is one piece more than there are spaces, and no piece holds a space |
| AuthDecorators.TokenDecision | emporia-api/utils/auth_decorators.py:11-26 | every token rejection is a 401 |
| AuthDecorators.MissingHeader | emporia-api/utils/auth_decorators.py:14-22 | no header or an empty one is `Token is missing` |
| AuthDecorators.MalformedIffNoSpace | emporia-api/utils/auth_decorators.py:15-19 | a non-empty header is `Invalid token format` iff it holds no space |
| AuthDecorators.SchemeNotChecked | emporia-api/utils/auth_decorators.py:16-22 | the first word is never checked to be `Bearer`: any space-free scheme gives the same answer, the token is the second piece, and `Bearer ` alone is a missing token |
| AuthDecorators.ProceedIff | emporia-api/utils/auth_decorators.py:11-36 | the handler runs iff the header's second piece is non-empty and the verifier accepts it with a non-empty payload; the recorded caller is that payload's four claims |
| AuthDecorators.RoleDecisionCases | emporia-api/utils/auth_decorators.py:39-49 | a token rejection passes through `role_required` unchanged; an accepted caller whose role is not the required string gets 403 `Access denied. r role required`; the right role proceeds |
| AuthDecorators.Request.TokenRequired | emporia-api/utils/auth_decorators.py:7-37 | the outcome is `TokenDecision`; on acceptance the caller is recorded on the request, on rejection the request is unchanged |
| AuthDecorators.Request.RoleRequired | emporia-api/utils/auth_decorators.py:39-49 | the outcome is `RoleDecision`; the caller is recorded whenever the token is accepted, even when the role is then refused |
| TokenStore.ReadUser | emporia-UI/src/utils/tokenManager.ts:22-25 | a missing entry reads as `null`, an entry `setUser` wrote reads back as that profile, and only foreign non-empty text can make `JSON.parse` throw |
| TokenStore.HeaderFor | emporia-UI/src/utils/tokenManager.ts:48-51 | no header iff the token is missing or empty; otherwise `Bearer <token>` |
| TokenStore.ValidMeansDecodable | emporia-UI/src/utils/tokenManager.ts:27-46 | a session counts only for a non-empty token that decodes and has not expired, and that token is what the header sends |
| TokenStore.ExpiryBoundary | emporia-UI/src/utils/tokenManager.ts:34-36 | the comparison is strict: `exp` equal to the current second is still valid, a payload without a numeric `exp` never expires, an earlier `exp` is expired |
| TokenStore.TokenManager.SetToken | emporia-UI/src/utils/tokenManager.ts:5-7 | the token entry holds the new token; the user entry is untouched |
| TokenStore.TokenManager.GetToken | emporia-UI/src/utils/tokenManager.ts:9-11 | returns the stored token entry |
| TokenStore.TokenManager.RemoveToken | emporia-UI/src/utils/tokenManager.ts:13-16 | both entries are removed |
| TokenStore.TokenManager.SetUser | emporia-UI/src/utils/tokenManager.ts:18-20 | the user entry holds the serialized profile; the token is untouched |
| TokenStore.TokenManager.GetUser | emporia-UI/src/utils/tokenManager.ts:22-25 | returns `ReadUser` of the stored entry |
| TokenStore.TokenManager.IsAuthenticated | emporia-UI/src/utils/tokenManager.ts:27-46 | true iff the token is present, decodes and has not expired; an expired or undecodable token clears both entries; otherwise nothing changes |
| TokenStore.TokenManager.GetAuthHeader | emporia-UI/src/utils/tokenManager.ts:48-51 | the header of the stored token |
| TokenStore.StoreRoundTrip | emporia-UI/src/utils/tokenManager.ts:5-25 | what `setToken` and `setUser` store, `getToken` and `getUser` give back |
| TokenStore.RemoveThenRead | emporia-UI/src/utils/tokenManager.ts:9-51 | after `removeToken` there is no token, no user and no header |
| RouteGuard.UnauthenticatedAlwaysRedirects | emporia-UI/src/components/routing/PrivateRoutes.tsx:15-20 | without a valid session the page always redirects to `/login`, remembering the location, whatever role is required or stored |
| RouteGuard.WrongRoleIsDeniedInPlace | emporia-UI/src/components/routing/PrivateRoutes.tsx:32-49 | a signed-in user whose stored role differs sees `Access Denied` in place with both roles; a matching role is let through |
| RouteGuard.PrivateRoute | emporia-UI/src/components/routing/PrivateRoutes.tsx:11-54 | the decision is `Decide` of the expiry check and the stored user; an expired or undecodable token, or a missing profile on a role-gated route, clears the store; allowing, denying or a parse failure leave it alone |
| RouteGuard.RejectedThenGuarded | emporia-UI/src/components/routing/PrivateRoutes.tsx:15-20 | once the store is cleared, the next guarded navigation redirects to the login page |
| AuthContext.AuthProvider.constructor | emporia-UI/src/context/AuthContext.tsx:41-43 | the initial state is no user, not authenticated, loading |
| AuthContext.AuthProvider.Login | emporia-UI/src/context/AuthContext.tsx:74-88 | a resolved login stores the token and the serialized user and marks the session; a rejected one is rethrown with nothing changed |
| AuthContext.AuthProvider.Register | emporia-UI/src/context/AuthContext.tsx:90-97 | the server's answer is passed on and nothing else changes |
| AuthContext.AuthProvider.Logout | emporia-UI/src/context/AuthContext.tsx:99-111 | the server is contacted iff the local token is valid; whatever it answers, the store is cleared and the session signed out |
| AuthContext.AuthProvider.InitializeAuth | emporia-UI/src/context/AuthContext.tsx:49-72 | `loading` ends false on every path; a valid token with a stored user restores the session unless the server rejects it; a valid token without one changes nothing; an unparsable user logs out; an expired or undecodable token is cleared |
| AuthContext.LoginThenRequest | emporia-UI/src/context/AuthContext.tsx:74-88 | after a login with an unexpired token, the expiry check accepts the session and requests carry `Bearer <token>` |
| AuthContext.LogoutOffline | emporia-UI/src/context/AuthContext.tsx:99-111 | logging out while the server is unreachable still clears the session |
| Market.TrimStart | emporia-UI/src/components/pages/MarketPage.tsx:103 | `parseInt` skips exactly the leading JavaScript white space: the rest is a suffix of the input that does not start with white space |
| Market.DigitRun | emporia-UI/src/components/pages/MarketPage.tsx:103 | the longest prefix of radix digits that `parseInt` reads |
| Market.InCategoryMembers | emporia-UI/src/components/pages/MarketPage.tsx:103 | a product is kept iff it is in the list and its category equals the parsed selection |
| Market.InCategoryLength | emporia-UI/src/components/pages/MarketPage.tsx:103 | the filter never lengthens the list |
| Market.InCategoryAppend | emporia-UI/src/components/pages/MarketPage.tsx:103 | filtering a concatenation filters each part, so the kept products stay in their original order |
| Market.NaNMatchesNothing | emporia-UI/src/components/pages/MarketPage.tsx:103 | a `NaN` selection matches no product |
| Market.InCategoryKeepsAll | emporia-UI/src/components/pages/MarketPage.tsx:103 | a list whose products all have the selected category is kept whole |
| Market.FilterAll | emporia-UI/src/components/pages/MarketPage.tsx:100-102 | the selection `all` returns the list unchanged |
| Market.FilterSelection | emporia-UI/src/components/pages/MarketPage.tsx:100-103 | any other selection keeps exactly the products whose category is `parseInt` of it, never more products than given, and none when it is `NaN` |
| Market.ParseDigits | emporia-UI/src/components/pages/MarketPage.tsx:103 | `parseInt` reads the decimal digits of a natural number back as that number (no `0x` prefix can arise) |
| Market.ParseIntOfToString | emporia-UI/src/components/pages/MarketPage.tsx:110 | the select box's values are `id.toString()`, and `parseInt` reads each back as that id, negative ids included |
| Market.AllIsNaN | emporia-UI/src/components/pages/MarketPage.tsx:101-103 | the word `all` is not a number |
| Market.StopsAtNonDigit | emporia-UI/src/components/pages/MarketPage.tsx:103 | `parseInt(" 12abc")` is 12 |
| Market.ReadsHexPrefix | emporia-UI/src/components/pages/MarketPage.tsx:103 | `parseInt("-0x1F")` is -31 |
| Market.SelectCategoryShowsIt | emporia-UI/src/components/pages/MarketPage.tsx:100-113 | picking a category in the select box shows exactly that category's products |
| Market.AddToCartButton | emporia-UI/src/components/pages/MarketPage.tsx:192-199 | the button is disabled iff the stock is 0, and then reads `Out of Stock`, else `Add to Cart` |
| Market.ButtonLabelMatchesState | emporia-UI/src/components/pages/MarketPage.tsx:195-198 | the label alone tells whether the button can be pressed |
| OrderHistory.ToUpperCase | emporia-UI/src/components/pages/OrderHistoryPage.tsx:78 | `toUpperCase` keeps the length and maps each character through the ASCII upper-case map |
| OrderHistory.ToLowerCase | emporia-UI/src/components/pages/OrderHistoryPage.tsx:159 | `toLowerCase` keeps the length and maps each character through the ASCII lower-case map |
| OrderHistory.StatusColorIgnoresCase | emporia-UI/src/components/pages/OrderHistoryPage.tsx:77-88 | two statuses differing only in letter case get the same badge colour |
| OrderHistory.StatusColorCases | emporia-UI/src/components/pages/OrderHistoryPage.tsx:77-88 | green, blue and red each hold exactly for PAID, PROCESSING and CANCELLED in upper case, and gray for every other status |
| OrderHistory.ServerStatuses | emporia-UI/src/components/pages/OrderHistoryPage.tsx:77-88 | the statuses the API writes, `pending`, `paid` and `cancelled`, are gray, green and red, and only `cancelled` disables the cancel button |
| OrderHistory.LowerUpperAgree | emporia-UI/src/components/pages/OrderHistoryPage.tsx:78 | a character lower-cases to a small letter iff it upper-cases to that letter's capital |
| OrderHistory.CancelDisabledIffRed | emporia-UI/src/components/pages/OrderHistoryPage.tsx:159 | the cancel button is disabled exactly when the badge is red, although one test lower-cases and the other upper-cases |
| OrderCommands.FirstShort | emporia-api/command/order_commands.py:20-22 | the index of the first line whose cart stock is below its quantity, every earlier line having enough, or none when every line has enough |
| OrderCommands.FirstShortIs | emporia-api/command/order_commands.py:20-22 | a short line preceded only by lines with enough stock is the one validation stops at |
| OrderCommands.GetKeys | emporia-api/command/order_commands.py:73 | `original_stock` has an entry for a product exactly when the product is one of its keys |
| OrderCommands.PutSpec | emporia-api/command/order_commands.py:80 | `original_stock[pid] = stock` maps `pid` to the stock and keeps every other entry; the keys stay distinct and grow by at most `pid` |
| OrderCommands.ValidateSpec | emporia-api/command/order_commands.py:6-34 | validation changes no table; it succeeds iff the cart is non-empty, every line has enough stock and the customer is truthy, and then sets the flag; it reports `Shopping cart is empty`, the first short line's product, or `Invalid customer` in that order; undo clears the flag |
| OrderCommands.CreateOrderSpec | emporia-api/command/order_commands.py:36-65 | creating adds a new `pending` order row for the customer with the amount under the next id and returns that id; undo deletes it and forgets it, giving back the tables with only the id counter advanced |
| OrderCommands.CreateOrderUndoNeedsOrder | emporia-api/command/order_commands.py:63 | undo deletes nothing when no order, or one with the falsy id 0, was created |
| OrderCommands.InventorySpec | emporia-api/command/order_commands.py:75-90 | when every line's product exists under its seller with a valid category and enough stock, and each write changes its row, the loop runs to the end, writes each product back as the cart's copy less the quantity, records each cart stock, and changes no other table |
| OrderCommands.InventoryStopsAtShortLine | emporia-api/command/order_commands.py:80-85 | a short line raises with its product's name after its stock was recorded, while the products of the earlier lines stay decremented |
| OrderCommands.InventoryRoundTrip | emporia-api/command/order_commands.py:75-98 | with distinct, current products and nonzero quantities, executing the inventory update and then undoing it restores the tables and raises nothing |
| OrderCommands.PaymentSpec | emporia-api/command/order_commands.py:100-127 | payment always succeeds and records the gateway's id `PAYMENT-…`; undo refunds and forgets that id; no table changes |
| OrderCommands.StatusSpec | emporia-api/command/order_commands.py:129-158 | the status update fails with `Order with ID … not found` for a missing order and with `Order update failed: Order with ID … not found` when the order already has that status; otherwise it sets the status and records the previous one, and undo restores the tables unless the previous status was empty, when undo does nothing |
| OrderCommands.RunValid | emporia-api/command/order_commands.py:14-158 | executing or undoing any command keeps the tables' integrity (foreign keys, id counters) |
| OrderCommands.RestoreStockValid | emporia-api/command/order_commands.py:92-98 | restoring keeps the tables valid and touches only the products' rows, never their keys |
| OrderCommands.RestoreStockAt | emporia-api/command/order_commands.py:92-98 | with each product recorded once, undo raises iff some existing product already has its recorded stock; otherwise each existing product gets its recorded stock and every other row stays |
| OrderCommands.RestoreAfterRun | emporia-api/command/order_commands.py:75-98 | restoring what a complete run recorded gives back the tables before the run, raising nothing, for current products and nonzero quantities |
| OrderCommands.ExecuteValidate | emporia-api/command/order_commands.py:14-29 | the loop returns the validation outcome above |
| OrderCommands.ExecuteInventory | emporia-api/command/order_commands.py:75-90 | the loop through the product repository leaves the tables, the recorded stock and the error the inventory specification gives |
| OrderCommands.RestoreProduct | emporia-api/command/order_commands.py:95-98 | one product that still exists is written back with its recorded stock, with the update's error when the stock already is that value; a deleted one is skipped |
| OrderCommands.UndoInventory | emporia-api/command/order_commands.py:92-98 | the loop over the recorded entries restores each existing product's stock, in insertion order, and stops at the first update that raises, whose message it returns |
| OrderCommands.Execute | emporia-api/command/order_commands.py:14-150 | each command's `execute` through the repositories gives the tables, the recorded state and the result of the specification |
| OrderCommands.UndoCommand | emporia-api/command/order_commands.py:31-158 | each command's `undo` through the repositories gives the tables and the recorded state of the specification |
| OrderInvoker.RollbackValid | emporia-api/command/order_invoker.py:25-30 | rolling back keeps the tables' integrity and keeps one history entry per command until the clearing |
| OrderInvoker.RollbackLast | emporia-api/command/order_invoker.py:28-29 | rollback is LIFO: the newest command is undone first; if its `undo` raises the rollback ends there with the history kept, otherwise the older commands are rolled back from the tables it left |
| OrderInvoker.InvokeValid | emporia-api/command/order_invoker.py:7-16 | executing a command through the invoker keeps the tables' integrity |
| OrderInvoker.InvokeSpec | emporia-api/command/order_invoker.py:7-16 | a command that succeeds is appended to the history and its value returned; one that raises is never appended, the whole history is rolled back and cleared and its message re-raised, unless an `undo` raised, whose message then replaces it and whose history is kept |
| OrderInvoker.InvokeAllStops | emporia-api/command/order_invoker.py:18-23 | after the first command that raises, later commands have no effect |
| OrderInvoker.InvokeAllSucceeds | emporia-api/command/order_invoker.py:18-23 | when every command succeeds there is one result per command and the history grows by one entry per command |
| OrderInvoker.Invoker.constructor | emporia-api/command/order_invoker.py:4-5 | a new invoker starts with an empty history |
| OrderInvoker.Invoker.RollbackHistory | emporia-api/command/order_invoker.py:25-30 | the loop newest first leaves the tables, the error and the history of the rollback specification, and clears the history when no `undo` raised |
| OrderInvoker.Invoker.ExecuteCommand | emporia-api/command/order_invoker.py:7-16 | the method leaves the tables, history and result the invoke specification gives |
| OrderInvoker.Invoker.ExecuteCommands | emporia-api/command/order_invoker.py:18-23 | the loop leaves the tables, history and results of the sequential specification, stopping at the first failure |
| OrderService.ItemDictOf | emporia-api/services/order_services.py:113-119 | an item's subtotal is its price times its quantity |
| OrderService.OrderDictOf | emporia-api/services/order_services.py:108-120 | an order's dictionary carries its id, date, status and amount and one item per order line, in line order, each with the line's product, price, quantity and subtotal |
| OrderService.PlacedOrderIsPaid | emporia-api/services/order_services.py:19-60 | a successful placement returns the next order id, adds exactly that order, `paid`, for the customer at the cart's total, and appends the five commands to the history in their run state |
| OrderService.PlaceValidationFails | emporia-api/services/order_services.py:36-67 | when validation fails, placement reports `Order placement failed: ` and validation's message, after the invoker has rolled back and cleared the history |
| OrderService.RollbackPlacement | emporia-api/services/order_services.py:36-54 | undoing the five commands of a successful placement raises nothing and deletes its order, when the order is no longer pending and each recorded product still present has a stock other than its recorded one |
| OrderService.SharedHistoryRollsBackEarlierOrder | emporia-api/services/order_services.py:17-67 | as written: with the one invoker the service keeps, placing an empty cart after order `id` was placed and paid rolls back the earlier commands and deletes that order |
| OrderService.InventoryFailureFresh | emporia-api/services/order_services.py:36-38 | with a fresh history, a failing inventory step leaves the orders as they were before the call and the history empty |
| OrderService.FreshHistoryKeepsOtherOrders | emporia-api/services/order_services.py:19-67 | corrected: with a fresh history per call, a failed placement leaves every order as it was and the history empty, and a successful one adds only its own `paid` order |
| OrderService.FreshHistoryKeepsEarlierOrder | emporia-api/services/order_services.py:19-67 | corrected: a later placement that fails leaves an earlier placed order in place and `paid` |
| OrderService.CancelSpec | emporia-api/services/order_services.py:69-101 | cancelling a missing order, or another customer's order when a customer id is given, is refused with its message and nothing changes; an order not yet cancelled becomes `cancelled`, the command joins the history and no other row changes; an order already cancelled fails with `Order cancellation failed: Order update failed: Order with ID … not found` after the shared history is rolled back |
| OrderService.CancelTwice | emporia-api/services/order_services.py:13-101 | as written: cancelling an order a second time fails with that message, and the rollback of the shared history first undoes the first cancellation, so the order gets its former status back |
| OrderService.CancelCancelled | emporia-api/services/order_services.py:69-101 | the status update of an order already cancelled fails and the invoker rolls back the history from the unchanged tables |
| OrderService.CancelTwiceFresh | emporia-api/services/order_services.py:69-101 | corrected: with a history of its own, the second cancellation fails with the same message and the order stays cancelled |
| OrderService.OrderDetailSpec | emporia-api/services/order_services.py:125-150 | an order is shown exactly when it exists and belongs to the customer or no customer id is given, with its own id, status, amount and date; another customer's order looks missing |
| OrderService.CustomerOrderDictsSpec | emporia-api/services/order_services.py:103-120 | the listing holds the dictionaries of exactly the customer's orders, newest first |
| OrderService.OrderServiceImpl.constructor | emporia-api/services/order_services.py:13-17 | the service makes one invoker with an empty history on its repositories |
| OrderService.OrderServiceImpl.PlaceWith | emporia-api/services/order_services.py:21-67 | the five invoker calls leave tables, history and result the placement specification gives for the history the invoker had |
| OrderService.OrderServiceImpl.PlaceOrder | emporia-api/services/order_services.py:19-67 | `place_order` through the shared invoker, as the placement specification with its current history |
| OrderService.OrderServiceImpl.PlaceOrderFixed | emporia-api/services/order_services.py:19-67 | corrected placement: the specification with an empty history, so the corrected lemmas apply |
| OrderService.OrderServiceImpl.CancelWith | emporia-api/services/order_services.py:69-101 | the body of `cancel_order` on a given invoker leaves tables, history and result of the cancel specification for that invoker's history |
| OrderService.OrderServiceImpl.CancelOrder | emporia-api/services/order_services.py:69-101 | `cancel_order` through the shared invoker, as the cancel specification with its current history |
| OrderService.OrderServiceImpl.CancelOrderFixed | emporia-api/services/order_services.py:69-101 | corrected cancellation: the specification with an empty history, so `OrderService.CancelTwiceFresh` applies |
| OrderService.OrderServiceImpl.GetOrder | emporia-api/services/order_services.py:125-153 | `get_order` returns the order detail above |
| OrderService.OrderServiceImpl.GetCustomerOrders | emporia-api/services/order_services.py:103-123 | the comprehension returns the customer listing above |
| Payment.ProcessPayment | emporia-api/services/payment_services.py:11-21 | every payment succeeds, without an error message, with the id `PAYMENT-<order id>-<int(amount)>`; the payment method plays no part |
| Payment.RefundPayment | emporia-api/services/payment_services.py:26-33 | every refund reports success |
| Payment.PaymentIdTruncates | emporia-api/services/payment_services.py:18 | `int(amount)` truncates toward zero: 19.99 gives 19 and -2.5 gives -2 |
| Payment.PaymentIdInjective | emporia-api/services/payment_services.py:18 | for non-negative order ids, equal payment ids mean the same order and the same truncated amount |
| PasswordStrength.Strength | emporia-UI/src/components/pages/RegistrationRouter.tsx:15-31 | the level is between 0 and 4, 0 below eight characters and at least 1 from eight on |
| PasswordStrength.StrengthIsCriteriaCount | emporia-UI/src/components/pages/RegistrationRouter.tsx:18-30 | from eight characters on the cap never applies: the level is one plus the number of criteria met, mixed case, digit and other character |
| PasswordStrength.SingleCaseEarnsNoMixedCredit | emporia-UI/src/components/pages/RegistrationRouter.tsx:25-26 | a password lacking either lower or upper case scores at most 3, with no point for case |
| PasswordStrength.TopLevelIff | emporia-UI/src/components/pages/RegistrationRouter.tsx:15-31 | the level is 4 exactly when the password has eight characters, both cases, a digit and another character |
| PasswordStrength.StrengthMonotoneUnderAppend | emporia-UI/src/components/pages/RegistrationRouter.tsx:15-31 | appending characters never lowers the level |
| PasswordStrength.Samples | emporia-UI/src/components/pages/RegistrationRouter.tsx:15-31 | `password` scores 1 and `Passw0rd!` scores 4 |
| UserValidation.FirstAtFrom | emporia-api/services/user_services.py:63 | the position of the first `@` from a given position on, no `@` lying between; none when there is no `@` there |
| UserValidation.ScanDotFinds | emporia-api/services/user_services.py:63 | a dot followed by a character other than `@`, reached without crossing an `@`, is found by the search |
| UserValidation.EmailMatchesSpec | emporia-api/services/user_services.py:63 | the matcher accepts exactly the strings that start with a match of `[^@]+@[^@]+\.[^@]+` |
| UserValidation.FirstAtFromIs | emporia-api/services/user_services.py:63 | an `@` preceded by no other `@` is the one the first run ends at |
| UserValidation.EmailPatternExtends | emporia-api/services/user_services.py:63 | `re.match` anchors only at the start, so text appended to an accepted address keeps it accepted |
| UserValidation.FirstMissingSpec | emporia-api/services/user_services.py:59-61 | the loop finds no missing field exactly when every required field is present, and otherwise reports one whose predecessors are all present |
| UserValidation.ValidateUserSpec | emporia-api/services/user_services.py:56-95 | validation passes exactly when every required field is present, the address matches the pattern, the password has eight characters or more, there is a role, a customer has address and phone, a seller has store name and description, and there is a `permissions` entry |
| UserValidation.MissingFieldFirst | emporia-api/services/user_services.py:57-61 | the first missing field in the order user_type, first_name, user_name, email, password is the one reported |
| UserValidation.DeadBranches | emporia-api/services/user_services.py:68-95 | `Password is required` and `Permissions are required for admins` are never reported |
| UserValidation.RegisterUser | emporia-api/services/user_services.py:15-40 | what raises inside the `try` is validation's message exactly when validation fails, and otherwise the creation call; the handler returns `None` |
| UserValidation.RegisterNeverReturnsId | emporia-api/services/user_services.py:15-40 | registration returns no id for any data: valid data reaches the creation call, which raises |
| UserValidation.RegisterMissingField | emporia-api/services/user_services.py:15-62 | data missing a field makes registration print `Missing required field: ` and the first missing field, and return `None` |
| UserValidation.EmailExamples | emporia-api/services/user_services.py:63 | `a@b.c` and `jo@shop.example.com>` are accepted; `a@b`, `@b.c`, `a@.c` and `a@b.@` are refused |
| UserFactory.CreateFrom | emporia-api/factories/UserFactory/UserFactory.py:13-16 | creation fails exactly for an unregistered user type, with `Unknown user type: ` and the type |
| UserFactory.CreateAfterRegister | emporia-api/factories/UserFactory/UserFactory.py:10-16 | after registering a creator for a type, creating that type calls that creator on the arguments |
| UserFactory.RegisterOverwrites | emporia-api/factories/UserFactory/UserFactory.py:10-16 | registering a type again replaces its creator, and registering one type leaves the creation of every other type as it was |
| UserFactory.UserFactory.constructor | emporia-api/factories/UserFactory/UserFactory.py:6 | the registry starts empty |
| UserFactory.UserFactory.RegisterUserType | emporia-api/factories/UserFactory/UserFactory.py:10-11 | the type now maps to the creator and every other registered type keeps its creator |
| UserFactory.UserFactory.CreateUser | emporia-api/factories/UserFactory/UserFactory.py:13-16 | `create_user` leaves the registry alone and returns the creation above |

## Left out

- I/O is not modelled: HTTP, `fetch`, toasts and React rendering. The data loading of the market and order history pages and the market page's `addToCart` call are network code around the decisions modelled.
- JWT signing and verification (`jwt_utils.py`), `atob` and `JSON.parse` are abstract parameters. A stored user whose JSON parses to `null` or to something other than an object is not distinguished from any other parse result.
- MySQL itself is a value: connections, cursors, SQL text and commit/rollback mechanics are not modelled. A rolled-back transaction is a value that is not written back.
- MySQL errors other than the constraint failures the model names are not modelled. Their message texts are not reproduced; `ProductRepo.NegativePage` stands in for the server's text on a negative `LIMIT` or `OFFSET`.
- `rowcount` after an `UPDATE` is read as the number of changed rows, which is what MySQL reports to Connector/Python when the client sets no found-rows flag, and `db_connection.py` sets none. An update that writes back a row's own values therefore counts zero and is reported as a missing row. This applies to product, category and order updates, and through them to the inventory command and its `undo`, the status command and its `undo`, and cancellation.
- `SELECT` order among rows that tie on the sort key is not modelled. The model lists such rows by ascending id, and `order_items` rows in insertion order.
- The schema is not part of the source. The model assumes foreign keys from products to sellers and categories (seller checked first), a `NOT NULL` seller column, and no foreign keys on `orders`, `order_items`, `shopping_carts` or `cart_items`.
- String comparisons use exact code points, not the database's case-insensitive collation. This covers `ORDER BY name` and the category name checks in create and update (`CategoryRepo.NameTaken`), where the database would also refuse a name that differs only in case.
- JavaScript `toUpperCase`/`toLowerCase` are modelled on ASCII letters only. String lengths are counted in code points, not UTF-16 code units.
- Prices and amounts are `real`. Python and JavaScript float rounding is not modelled.
- Dictionary values are strings in `UserValidation.UserData`. Ill-typed JSON request bodies and dictionary values are not modelled.
- ProductRoutes.ClaimId: a string or boolean `id` claim is not turned into a seller id. Only an integer claim is passed on, an approximation of Python's duck typing of the claim.
- The un-awaited `logout()` inside `initializeAuth` is modelled as running to completion before the next step. Other async interleavings are ignored too.
- The API client (`apiClient.ts`) is modelled only for its 401 rule: a rejected call clears the token store (`RouteGuard.RejectedThenGuarded`).
- `get_cart` and `get_or_create_cart` wrap exceptions into `Failed to get cart: ...`. No modelled step raises there, so the wrapping is not modelled.
- In `get_order` and `get_customer_orders`, the `ValueError` wrapping of repository exceptions is not modelled. The repository reads raise nothing in the model.
- The `cancel_order` exception path is modelled only for the errors the invoker passes on.
- `create_order` database errors are not modelled: creating the order row always succeeds.
- The order date is kept as an integer. `strftime` formatting and the `None` produced for a falsy date are not modelled.
- The placed order's amount is the cart's `total_price` as given; the model does not recompute it from the items.
- `UpdateInventoryCommand.execute` mutates `item.product.stock` in place on the cart's objects. The model writes the new stock to the table but does not change the cart lines it was given.
- The model does not capture aliasing between command objects. A command is a value, and the invoker's history holds the commands' recorded state.
- The payment method is accepted and ignored, as in the source.
- A user factory creator is an opaque name (`UserFactory.Creator`). What a creator builds is not modelled.
- The `Admin`, `Seller` and `Customer` constructors are not modelled, nor is `test/user_creation_test.py`. They call `User.__init__` with 7 arguments where it takes 9.
- Password hashing, the welcome `print` and the database connection in `register_user` are not modelled.
- `register_user` as written never returns an id (`UserValidation.RegisterNeverReturnsId`). `from factories import UserFactory` binds the package `factories.UserFactory`, so `UserFactory.create_user(...)` raises `AttributeError` for every input. The handler prints the error and returns `None`. The text of that error is not modelled; the model records only that the creation call raised (`UserValidation.CreateUserError`). The `/auth/register` route, which then answers 201 with a null user id, is not part of this model.
- The timed logout in the navigation bar is not modelled.
- The Flask wiring with no rules of its own is not modelled. Neither is the user service's seller lookup beyond its result (`ProductRoutes.SellerLookup`).

## Findings

| source | as written | input that shows it | evidently intended | confidence | as-written member | corrected member |
|---|---|---|---|---|---|---|
| emporia-api/services/order_services.py:17-67 | the service creates one invoker in its constructor and every `place_order` runs on it, so the command history is shared; a failed placement's rollback also undoes the commands of earlier successful placements | place one cart successfully, then place an empty cart: the second call's rollback deletes the first, paid order | each placement rolls back only its own commands (a fresh history per call) | not executed | OrderService.SharedHistoryRollsBackEarlierOrder | OrderService.FreshHistoryKeepsOtherOrders (with OrderService.FreshHistoryKeepsEarlierOrder and OrderService.OrderServiceImpl.PlaceOrderFixed) |
| emporia-api/services/order_services.py:13-101 | `cancel_order` runs its status command on the same shared invoker, so a failed cancellation rolls back the whole history | cancel an order, then cancel it again: the second status update finds the order already cancelled and fails, and the rollback undoes the first cancellation, so the order gets its former status back | a failed cancellation rolls back nothing of earlier calls (a fresh history per call) | not executed | OrderService.CancelTwice | OrderService.CancelTwiceFresh (with OrderService.OrderServiceImpl.CancelOrderFixed) |
