# Nexshop core, modelled in Dafny

Nexshop is a small e-commerce shop. It has an Express/MongoDB REST server and a
React storefront with an admin dashboard. This project models the decision
logic of both halves as pure Dafny functions over immutable values, and proves
what that logic promises.

**Server** (`ServerModel`, `Middleware`, `AuthService`, `OrdersRoute`,
`UsersRoute`, `ProductsRoute`)
- The three collections are one `Db` value. Each is a `map` from document id to
  document.
- Every route handler is a function from a `Db` to a `Served`: the database
  afterwards plus the HTTP response.
- `Find` models `findById`. It distinguishes an id that is not an ObjectId
  (mongoose throws a CastError) from an absent document (mongoose resolves to
  null).
- Casting to an ObjectId reads the hexadecimal digits in either letter case.
  Documents are stored under the lower-case spelling (`Canonical`), so every
  lookup, write and reply uses `Canonical(id)`. An id typed in upper case
  therefore reaches the same document.
- Library calls the model cannot see are parameters: JWT verification
  `verify`, signing `sign`, the bcrypt hash `passwordHash`, and bcrypt compare
  `matches`.
- Server prices are whole cents (`int`).

**Order placement** is the one real loop. `PlaceLines` runs over the request's
lines in order. Each line re-reads its product, checks the current stock,
copies the product into an order line and saves the decremented stock. The
first rejected line ends the loop. The stock already written stays written,
because no transaction surrounds the loop. `RunOrderLoop` is the same loop as
a `while` over the request, proved equal to `PlaceLines`.

**Client** (`ClientModel`, `Cart`, `CartItemView`, `ProductDetailsView`,
`HeroCarousel`, `RelatedProducts`, `FeaturedProducts`, `CategoryPage`,
`ProductFormRules`, `AdminProducts`, `CategoryListView`, `DashboardActions`,
`UserManagementView`, `AuthContextModel`)
- Component state is a datatype. Each handler is a function from the old state
  and the event, plus the server's reply where there is one, to the new state.
- Client prices are exact `real`s.
- JavaScript idioms are written out:
  - `a || b` on strings;
  - `parseInt(x) || 1`;
  - `Array.prototype.filter` and `slice`;
  - `[...new Set(xs)]`;
  - `String.prototype.split`, `join`, `trim` and `toLowerCase`.
- These idioms live in `Lists`, `Strings` and `ClientModel`.

Some properties show behaviour the code has as written. Each is stated as a
lemma about the model:
- `Middleware.SyntheticAdminNeverPasses`: the hard-coded admin login can never
  pass the admin gate.
- `OrdersRoute.NegativeQuantityRestocks`: a negative quantity restocks a
  product.
- `OrdersRoute.OnlyOwnerReadsOrder`: a stored admin cannot read another user's
  order.
- `DashboardActions.LocalUpdateIgnoresReplyStatus`: the dashboard's status
  button updates its table even after a 404.
- `AuthService.PaddedAdminEmailRegisters`: the admin email with a leading space
  can be registered.
- `CategoryPage.HomeGardenTitle`: the "Home & Garden" link leads to a page
  titled "Home Garden".
- `AuthContextModel.LateReplyRestoresUser`: a late `/auth/me` reply signs the
  user back in on screen after they have signed out.

## Model

| member | source | states |
|---|---|---|
| ServerModel.Find | src/server/api/routes/products.ts:21-27 | `findById` throws for an id that is not 24 hex digits; otherwise it finds the document stored under the id's lower-case spelling, whatever letter case the id was typed in, and resolves to nothing when there is none; a stored id finds its own document |
| ServerModel.Canonical | src/server/api/routes/products.ts:21 | the key a cast id reaches: same length, an ObjectId iff the id is, always lower case for an ObjectId, and a stored spelling is its own key |
| ServerModel.FindIgnoresCase | src/server/api/routes/products.ts:21 | two spellings of one ObjectId give the same lookup outcome |
| ServerModel.UpperCaseIdFindsStored | src/server/api/routes/products.ts:21 | "507F1F77BCF86CD799439011" finds the document stored as "507f1f77bcf86cd799439011" |
| ServerModel.Public | src/server/api/routes/users.ts:11 | the user as the API sends it keeps id, email, names and admin flag and has no password field |
| Middleware.BearerToken | src/server/api/middleware/auth.ts:11 | the token is the second space-separated field of the header; a token found is non-empty and contains no space |
| Middleware.BearerTokenOfHeader | src/server/api/middleware/auth.ts:11 | for `scheme token` and `scheme token rest`, the token extracted is exactly `token` |
| Middleware.BearerTokenShape | src/server/api/middleware/auth.ts:11 | conversely, every token found sits right after the header's first space and is followed by nothing or by a space |
| Middleware.NoTokenWithoutSecondField | src/server/api/middleware/auth.ts:11-15 | a missing header, a header with one field, or a header whose second field is empty carries no token |
| Middleware.Authenticate | src/server/api/middleware/auth.ts:9-24 | no token gives 401 "Authentication required"; a token that fails verification gives 401 "Invalid or expired token"; the request goes on exactly when a token verifies, carrying the id inside it |
| Middleware.AdminGate | src/server/api/middleware/auth.ts:26-42 | access is granted iff the id, in any letter case, names a stored user whose flag is set; an id that cannot be cast gives 500 "Server error", any other refusal 403 |
| Middleware.AdminAccess | src/server/api/routes/users.ts:9 | the admin chain grants exactly when authentication succeeds and the admin gate grants for that id; an authentication failure is answered unchanged |
| Middleware.UserAccess | src/server/api/routes/orders.ts:51 | the user chain grants exactly the authenticated requests, for the id in the token |
| Middleware.AdminAccessGranted | src/server/api/middleware/auth.ts:9-42 | end to end: the admin chain admits id `x` iff the header holds a token that verifies to `x` and `x` is a stored admin |
| Middleware.SyntheticAdminNeverPasses | src/server/api/middleware/auth.ts:30-41 | the hard-coded admin's id `admin-special-id` is not an ObjectId, so the gate always answers it with 500 |
| AuthService.FindByEmail | src/server/services/auth.ts:38-42 | finds a user iff some stored user has the email in the schema's trimmed, lower-cased form, and the user found has it |
| AuthService.Register | src/server/services/auth.ts:26-69 | the admin email in any letter case is refused; a taken email is refused with the store unchanged; on success exactly one non-admin user is added under the new id with names defaulting to "", emails stay unique, and the session returns that user without its password |
| AuthService.Login | src/server/services/auth.ts:71-125 | the admin email succeeds iff the password is exactly "nexshop123", with the synthetic admin; any other email succeeds iff a stored user has it and the password matches its hash, and then returns that user; every other failure is "Invalid email or password" |
| AuthService.GetUserById | src/server/services/auth.ts:127-150 | `admin-special-id` gives the synthetic admin; any other id succeeds iff its lower-case spelling is stored, with that user minus password under the stored id; an absent id gives "User not found" |
| AuthService.AdminLoginIgnoresStore | src/server/services/auth.ts:74-94 | an admin-email login gives the same answer over any two stores, and succeeds iff the password is the hard-coded one |
| AuthService.LoginFailureIsUniform | src/server/services/auth.ts:96-121 | an unknown email and a known email with a wrong password fail with the same error |
| AuthService.RegisterThenLogin | src/server/services/auth.ts:44-65 | after registering, logging in with the same email and password returns the same session, `getUserById` finds the same user, and the user is not an admin |
| AuthService.AdminEmailReserved | src/server/services/auth.ts:34-36 | "ADMIN@NexShop.com" cannot be registered |
| AuthService.AdminEmailNormal | src/server/services/auth.ts:23 | the admin email is already lower case |
| AuthService.PaddedAdminEmailNormalizes | src/server/models/User.ts:24-30 | " admin@nexshop.com" is not the admin email to the reservation check, but the schema stores it as the admin email |
| AuthService.PaddedAdminEmailRegisters | src/server/services/auth.ts:34-50 | so registering the admin email with a leading space succeeds, and the stored email is the admin email |
| OrdersRoute.PlaceLine | src/server/api/routes/orders.ts:64-90 | a line is accepted iff its product is stored (under the id in any letter case) and its current stock is at least the quantity; then only that product's stock drops, by exactly the quantity, and the line copies the stored id, name and price; otherwise 400 for a bad id or short stock, 404 with the requested id for an unknown product |
| OrdersRoute.PlaceLines | src/server/api/routes/orders.ts:63-91 | the loop changes nothing but stock; it completes with one line per request line, or stops at a line index with 400 or 404 |
| OrdersRoute.RunOrderLoop | src/server/api/routes/orders.ts:63-91 | the imperative loop computes exactly the outcome `PlaceLines` defines |
| OrdersRoute.StoppedIsFinal | src/server/api/routes/orders.ts:66-77 | once a line is rejected the outcome is fixed, and later lines are never read |
| OrdersRoute.CompletedLinesCopyCatalog | src/server/api/routes/orders.ts:81-86 | on success, line i of the order is request line i with the stored id, name and price and the requested quantity |
| OrdersRoute.CompletedTotal | src/server/api/routes/orders.ts:78-79 | on success the total is the sum of stored price times requested quantity, so no price from the request is read |
| OrdersRoute.CompletedStock | src/server/api/routes/orders.ts:72-90 | on success each product's stock has dropped by the sum of the quantities requested for it, under any spelling of its id |
| OrdersRoute.StoppedKeepsEarlierLines | src/server/api/routes/orders.ts:63-91 | a failure at line k keeps exactly the stock writes of lines 0..k-1, and line k is the first line rejected |
| OrdersRoute.RepeatedProductSeesReducedStock | src/server/api/routes/orders.ts:64-76 | a product named twice, in the same or different letter case, is checked the second time against the stock the first line left |
| OrdersRoute.NegativeQuantityRestocks | src/server/api/routes/orders.ts:72-79 | a negative quantity is accepted, raises the stock and makes the total negative |
| OrdersRoute.CreateOrder | src/server/api/routes/orders.ts:51-105 | a missing, non-array or empty `products` field gives 400 and changes nothing; 201 iff every line is placed, with the order stored under the new id with status "Pending"; when the loop stops, no order is saved, the store keeps exactly the stock the loop had written, and the reply is the rejected line's 400 or 404 with its message |
| OrdersRoute.CreateOrderRoute | src/server/api/routes/orders.ts:51 | order creation runs only for authenticated requests, as the token's user |
| OrdersRoute.UpdateStatus | src/server/api/routes/orders.ts:108-130 | only "Pending", "Shipped" and "Delivered" are accepted, checked before the lookup (else 400); an absent order gives 404; 200 iff the order exists under the id in any letter case, and then only its status changes and the reply carries the stored id |
| OrdersRoute.WritesKeepWellFormed | src/server/api/routes/orders.ts:51-130 | placing an order (under a fresh lower-case id) and updating a status keep every document stored under a lower-case ObjectId |
| OrdersRoute.UpdateStatusRoute | src/server/api/routes/orders.ts:108 | the status update runs only behind the admin chain |
| OrdersRoute.UpdateStatusIdempotent | src/server/api/routes/orders.ts:116-124 | setting the same status twice leaves the store as setting it once |
| OrdersRoute.GetOrder | src/server/api/routes/orders.ts:31-48 | an absent order gives 404; 200 iff the order exists under the id in any letter case and the requester owns it (compared as text) or is flagged admin, otherwise 403 |
| OrdersRoute.GetOrderRoute | src/server/api/routes/orders.ts:31 | reading an order runs behind `authenticate`, whose request never carries an admin flag |
| OrdersRoute.OnlyOwnerReadsOrder | src/server/api/routes/orders.ts:40-42 | through the real chain an order is readable iff the token's user owns it; being a stored admin does not help |
| UsersRoute.ListUsers | src/server/api/routes/users.ts:9-16 | every stored user is listed under its id with its email, names and flag, and no password |
| UsersRoute.ListingHidesPasswords | src/server/api/routes/users.ts:11 | changing a stored password does not change the listing |
| UsersRoute.ListUsersRoute | src/server/api/routes/users.ts:9 | the listing is sent only to requests the admin chain grants; others get the chain's refusal |
| UsersRoute.SetAdmin | src/server/api/routes/users.ts:19-52 | an absent user gives 404 with nothing changed; 200 iff the user exists under the id in any letter case, and then only that user's flag changes, to true for make-admin and false for remove-admin |
| UsersRoute.SetAdminKeepsWellFormed | src/server/api/routes/users.ts:19-52 | setting the flag keeps every user stored under a lower-case ObjectId |
| UsersRoute.SetAdminRoute | src/server/api/routes/users.ts:19 | the flag routes run only behind the admin chain |
| UsersRoute.SetAdminIdempotent | src/server/api/routes/users.ts:27-28 | making an admin twice, or removing twice, is the same as doing it once, response included |
| UsersRoute.SetAdminDecidesGate | src/server/api/routes/users.ts:27-28 | after make-admin the user passes the admin gate and after remove-admin they do not |
| ProductsRoute.NewProduct | src/server/models/Product.ts:4-39 | a product is created iff the trimmed name, description and category are non-empty and the price is at least 0; the name is trimmed, and missing image, stock and featured take "/placeholder.svg", 0 and false |
| ProductsRoute.Patch | src/server/api/routes/products.ts:47-51 | each of the seven fields present in the body replaces the stored one, a present name trimmed; each absent field is kept |
| ProductsRoute.PatchLaws | src/server/api/routes/products.ts:47-51 | an empty body changes nothing, and applying the same body twice is applying it once |
| ProductsRoute.TrimIdempotent | src/server/models/Product.ts:8 | trimming a trimmed name changes nothing |
| ProductsRoute.ListProducts | src/server/api/routes/products.ts:8-15 | the listing is every stored product |
| ProductsRoute.GetProduct | src/server/api/routes/products.ts:18-30 | a stored product is returned with 200 and its stored id, whatever letter case the id was typed in; an absent one gives 404, an id that cannot be cast 500 |
| ProductsRoute.CreateProduct | src/server/api/routes/products.ts:33-41 | 201 iff the body makes a valid product, which is then stored under the new id; otherwise 400 with nothing changed |
| ProductsRoute.UpdateProduct | src/server/api/routes/products.ts:44-60 | an absent product gives 404 with nothing changed; 200 iff it exists under the id in any letter case, and then only that product changes, to the patched one, which is returned with its stored id |
| ProductsRoute.DeleteProduct | src/server/api/routes/products.ts:63-75 | an absent product gives 404 with nothing changed; 200 iff it exists under the id in any letter case, and then exactly that product is removed and the others are untouched |
| ProductsRoute.AdminProductRoute | src/server/api/routes/products.ts:33-34 | create, update and delete run only behind the admin chain |
| ProductsRoute.WritesAreVisible | src/server/api/routes/products.ts:18-75 | a created product is then found, an update is then seen, and a deleted product then gives 404 |
| ProductsRoute.DeleteSparesOthers | src/server/api/routes/products.ts:63-75 | deleting one product leaves every id naming another ObjectId reading exactly as before, and every spelling of the deleted id then gives 404 |
| ProductsRoute.GetProductIgnoresCase | src/server/api/routes/products.ts:18-30 | two spellings of one id read the same product |
| ProductsRoute.WritesKeepWellFormed | src/server/api/routes/products.ts:33-75 | create (with a fresh lower-case id), update and delete keep every product stored under a lower-case ObjectId |
| Lists.Filter | src/pages/CartPage.tsx:81 | `filter` keeps exactly the elements that pass, and no others |
| Lists.FilterConcat | src/pages/CartPage.tsx:81 | filtering distributes over concatenation, so the original order is kept |
| Lists.FilterKeepsAll | src/hooks/useProductManagement.ts:47 | a filter that rejects nothing returns its input |
| Lists.FilterIdempotent | src/components/home/FeaturedProducts.tsx:97 | filtering twice by the same test is filtering once |
| Lists.CountOf | src/components/admin/CategoryList.tsx:37 | a count is at most the length, and positive iff the element occurs |
| Lists.FirstIndex | src/pages/admin/Dashboard.tsx:82 | the index found holds the element, and nothing before it does |
| Lists.Dedup | src/pages/admin/Dashboard.tsx:82 | `[...new Set(xs)]` holds every element of `xs` exactly once, in order of first occurrence |
| Lists.SumCountsOfDedup | src/components/admin/CategoryList.tsx:37 | counting each distinct element's occurrences accounts for every position once |
| Lists.SliceBound | src/components/products/RelatedProducts.tsx:33 | a `slice` bound lands inside the array, and an in-range bound stays where it is |
| Lists.Slice | src/components/products/RelatedProducts.tsx:33 | `slice(from, to)` with in-range bounds is the subsequence between them, and empty when `to` does not exceed `from` |
| Strings.Lower | src/server/services/auth.ts:34 | lower-casing keeps the length and maps each character |
| Strings.LowerIdempotent | src/server/services/auth.ts:34 | lower-casing twice is lower-casing once |
| Strings.TrimStart | src/server/models/User.ts:28 | the result is a suffix with no leading space, and only spaces were removed |
| Strings.TrimEnd | src/server/models/User.ts:28 | the result is a prefix with no trailing space, and only spaces were removed |
| Strings.Trim | src/server/models/Product.ts:8 | the result is the infix of the input left after removing only whitespace at both ends, and it starts and ends with a non-space |
| Strings.Split | src/pages/CategoryPage.tsx:30 | `split` gives at least one field and no field holds the separator |
| Strings.JoinSplit | src/pages/CategoryPage.tsx:30 | joining the fields back with the separator gives the input |
| Strings.SplitWithoutSeparator | src/server/api/middleware/auth.ts:11 | text without the separator is one field |
| Strings.SplitAtSeparator | src/server/api/middleware/auth.ts:11 | a separator cuts the fields into those before it and those after it |
| Strings.SplitJoin | src/pages/CategoryPage.tsx:30 | fields without the separator, joined and split again, come back |
| ClientModel.OrElse | src/components/home/FeaturedProducts.tsx:129 | JavaScript's or on strings gives the first operand when it is a non-empty string, else the second |
| ClientModel.ParsedOrOne | src/components/cart/CartItem.tsx:65 | a parsed number falls back to 1 for NaN and 0 and is kept otherwise |
| ClientModel.CardImage | src/components/home/FeaturedProducts.tsx:129 | the card image is `imageUrl` when set, else `image`, and "" iff neither is set |
| Cart.Subtotal | src/pages/CartPage.tsx:57-60 | the subtotal of lines with non-negative amounts is non-negative |
| Cart.SubtotalConcat | src/pages/CartPage.tsx:57-60 | the subtotal of two carts side by side is the sum of their subtotals |
| Cart.CartTotals | src/pages/CartPage.tsx:56-70 | tax is 8% of the subtotal, shipping is 0 iff the subtotal is over 100 and 9.99 otherwise, and the total is their sum |
| Cart.ShippingBoundary | src/pages/CartPage.tsx:63 | a subtotal of exactly 100 pays shipping and totals 117.99; an empty cart totals 9.99 |
| Cart.CrossingThresholdLowersTotal | src/pages/CartPage.tsx:63-64 | adding a $6 line to $95 of goods lowers the total |
| Cart.AddingLineLowersTotalIff | src/pages/CartPage.tsx:56-70 | for every cart and every line of non-negative value, adding the line lowers the total iff the subtotal crosses $100 and the line plus its tax costs less than the $9.99 shipping saved |
| Cart.UpdateQuantity | src/pages/CartPage.tsx:72-78 | the cart keeps its length, order and products, and only the lines for that product take the new quantity |
| Cart.Remove | src/pages/CartPage.tsx:80-82 | removing drops every line for that product and keeps all the others |
| Cart.Clear | src/pages/CartPage.tsx:90-93 | clearing gives the empty cart |
| Cart.SubtotalPartition | src/pages/CartPage.tsx:57-60 | the subtotal is the product's lines plus all the other lines |
| Cart.UpdateSparesOthers | src/pages/CartPage.tsx:72-78 | after an update the lines of other products are exactly as before |
| Cart.UpdateChangesOnlyItsAmount | src/pages/CartPage.tsx:72-78 | an update changes the subtotal only through the updated product's lines |
| Cart.RemoveLaws | src/pages/CartPage.tsx:80-82 | removing twice is removing once, and the subtotal drops by exactly the removed lines |
| CartItemView.Clamp | src/components/cart/CartItem.tsx:17-18 | the quantity lands in [1, 10], in-range values pass unchanged, and values below or above go to the nearer end |
| CartItemView.ClampIdempotent | src/components/cart/CartItem.tsx:17-18 | clamping twice is clamping once |
| CartItemView.HandleQuantityChange | src/components/cart/CartItem.tsx:16-26 | the clamped value is both stored and reported, and "Cart updated!" shows iff it differs from the `quantity` prop |
| CartItemView.OnEvent | src/components/cart/CartItem.tsx:57-71 | plus asks for the value one higher, minus for one lower, typed text for `parseInt(x) || 1`, each clamped to [1, 10]; the clamped value is reported, and "Cart updated!" shows iff it differs from the prop |
| CartItemView.PlusMinusInverse | src/components/cart/CartItem.tsx:57-71 | inside [1, 10], minus undoes plus and plus undoes minus wherever the press is not at the end it moves toward |
| CartItemView.ChangeReachesCart | src/components/cart/CartItem.tsx:20-21 | the reported value lands in the cart line for that product, whose amount is the line total the row displays |
| CartItemView.NotifyComparesWithProp | src/components/cart/CartItem.tsx:23-25 | the notice compares with the prop, not with the value on screen, so it can stay silent on a visible change |
| ProductDetailsView.Decrease | src/components/products/ProductDetails.tsx:41-45 | minus subtracts 1 above 1 and does nothing at 1 or below |
| ProductDetailsView.ButtonsKeepPositive | src/components/products/ProductDetails.tsx:41-49 | from any quantity of at least 1, presses of plus and minus alone keep it at least 1 |
| ProductDetailsView.Increase | src/components/products/ProductDetails.tsx:47-49 | plus adds one to any quantity, with no upper bound, and minus undoes it from any quantity of at least 1 |
| ProductDetailsView.TypedNegativeEscapes | src/components/products/ProductDetails.tsx:182 | typed NaN or 0 gives 1, but a typed negative value is stored as it is, and from there plus then minus does not return |
| ProductDetailsView.Discount | src/components/products/ProductDetails.tsx:51-53 | no (or zero) original price means no discount; otherwise the discount lies in [0, 100] for a price within [0, original], and is positive iff the price is below the original |
| HeroCarousel.Prev | src/components/home/HeroCarousel.tsx:39-41 | previous maps 0 to the last slide and subtracts 1 otherwise, staying in range |
| HeroCarousel.Next | src/components/home/HeroCarousel.tsx:43-45 | next maps the last slide to 0 and adds 1 otherwise, staying in range |
| HeroCarousel.Dot | src/components/home/HeroCarousel.tsx:114-117 | a dot selects its own slide, which is in range |
| HeroCarousel.PrevNextInverse | src/components/home/HeroCarousel.tsx:39-45 | next undoes previous and previous undoes next |
| HeroCarousel.NextTimesIsModular | src/components/home/HeroCarousel.tsx:43-52 | k presses of next move k slides forward modulo 3 |
| HeroCarousel.FullRoundReturns | src/components/home/HeroCarousel.tsx:43-52 | three presses of next return to the starting slide |
| RelatedProducts.Related | src/components/products/RelatedProducts.tsx:16 | the related list is the category's products without the current one, and all the others are kept |
| RelatedProducts.NextStart | src/components/products/RelatedProducts.tsx:21-25 | next moves the start by one only while start + 4 is below the length |
| RelatedProducts.PrevStart | src/components/products/RelatedProducts.tsx:27-31 | previous moves the start back by one only from a positive start |
| RelatedProducts.ArrowsKeepStartValid | src/components/products/RelatedProducts.tsx:21-31 | both arrows keep 0 <= start <= max(0, length - 4) |
| RelatedProducts.PrevDisabled | src/components/products/RelatedProducts.tsx:40-42 | the left arrow is disabled exactly when pressing it would not move a non-negative start |
| RelatedProducts.NextDisabled | src/components/products/RelatedProducts.tsx:52-54 | the right arrow is disabled exactly when pressing it would not move the start |
| RelatedProducts.Window | src/components/products/RelatedProducts.tsx:19-33 | at most four products are shown; from a valid start, the window is min(4, length) consecutive products beginning at the start |
| FeaturedProducts.TabFilter | src/components/home/FeaturedProducts.tsx:95-97 | the "All" tab shows every product; any other tab shows exactly the products of that category |
| FeaturedProducts.TabFilterLaws | src/components/home/FeaturedProducts.tsx:95-97 | a tab shows no more products than there are, filtering again by the same tab changes nothing, and the filter distributes over concatenation, which keeps the order |
| CategoryPage.Capitalize | src/pages/CategoryPage.tsx:30 | a word keeps its length, with its first character upper-cased and the rest unchanged |
| CategoryPage.CapitalizeAll | src/pages/CategoryPage.tsx:30 | each word is capitalized in place |
| CategoryPage.SlugToTitleIsCharwise | src/pages/CategoryPage.tsx:29-31 | the split-capitalize-join title is the slug with each hyphen turned into a space and each character at the start or after a hyphen upper-cased |
| CategoryPage.TitleShape | src/pages/CategoryPage.tsx:30 | the title has the slug's length, a space wherever the slug has a hyphen, and no hyphen |
| CategoryPage.SlugToTitleIdempotent | src/pages/CategoryPage.tsx:30 | converting a title again changes nothing |
| CategoryPage.HomeGardenTitle | src/components/layout/Header.tsx:15 | the header's "home-garden" slug becomes "Home Garden", not the "Home & Garden" category it links to |
| ProductFormRules.FailingFields | src/components/admin/ProductForm.tsx:11-18 | each field is reported iff its own rule fails: empty name, description or category; price missing or below 0.01; stock missing, negative or fractional |
| ProductFormRules.ValidIff | src/components/admin/ProductForm.tsx:11-18 | the form is valid iff every field rule holds together |
| ProductFormRules.RuleBoundaries | src/components/admin/ProductForm.tsx:14-17 | a price of 0.01 passes and 0 fails; a stock of 0 passes, and 1.5 and -1 fail |
| AdminProducts.CategoryNames | src/pages/admin/Dashboard.tsx:82 | the category of each product, in list order |
| AdminProducts.Categories | src/hooks/useProductManagement.ts:24 | each product category appears exactly once, in order of first appearance |
| AdminProducts.Ids | src/hooks/useProductManagement.ts:47 | the id of each product, in list order |
| AdminProducts.InitialFormValues | src/hooks/useProductManagement.ts:107-121 | the edited product's fields, or empty text and zeros for a new product |
| AdminProducts.UntouchedAddFormRejected | src/pages/admin/Dashboard.tsx:386-400 | the untouched add form fails name, description, price and category, so it cannot be submitted |
| AdminProducts.EditFormValidIff | src/pages/admin/Dashboard.tsx:386-400 | the edit form opens valid iff the product itself meets the form rules |
| AdminProducts.DeleteById | src/pages/admin/Dashboard.tsx:110 | deleting removes every product with that id and keeps all the others |
| AdminProducts.ReplaceById | src/pages/admin/Dashboard.tsx:138-140 | an edit keeps the length and replaces exactly the entries with that id by the server's reply |
| AdminProducts.Merge | src/hooks/useProductManagement.ts:73-75 | a merge keeps the id, and every form field of the result is the submitted value |
| AdminProducts.MergeById | src/hooks/useProductManagement.ts:73-75 | the hook's edit keeps the length and the ids and merges the submitted values into exactly the matching entries |
| AdminProducts.Append | src/pages/admin/Dashboard.tsx:160 | adding keeps the list and puts the new product last |
| AdminProducts.EditsSpareOthers | src/pages/admin/Dashboard.tsx:138-140 | replacing or merging by id leaves the entries with other ids exactly as they were |
| AdminProducts.AddThenDelete | src/hooks/useProductManagement.ts:47-94 | deleting a product just added under a new id gives back the list from before the add |
| AdminProducts.OpenAddModal | src/hooks/useProductManagement.ts:26-29 | opening the add modal clears the current product and opens the modal, changing nothing else |
| AdminProducts.OpenEditModal | src/hooks/useProductManagement.ts:31-34 | opening the edit modal sets the current product and opens the modal, changing nothing else |
| AdminProducts.HookDelete | src/hooks/useProductManagement.ts:36-53 | the list changes, by deleting that id, only when the dialog is confirmed and the write succeeds |
| AdminProducts.HookSubmit | src/hooks/useProductManagement.ts:55-105 | the submitting flag is off on every path; the modal closes only on success; on success an edit merges by id and an add appends the inserted row; a failure keeps the list |
| AdminProducts.HookEditKeepsIds | src/hooks/useProductManagement.ts:73-75 | an edit through the hook keeps the list's ids |
| AdminProducts.DashboardSubmit | src/pages/admin/Dashboard.tsx:118-170 | the modal closes iff the server replied with a product; then an edit replaces by id and an add appends; an error keeps the list |
| CategoryListView.CategoryCount | src/components/admin/CategoryList.tsx:37 | a category's count is at most the number of products |
| CategoryListView.CategoryCountIsCountOf | src/components/admin/CategoryList.tsx:37 | the count is the number of products whose category equals it exactly |
| CategoryListView.CardsFor | src/components/admin/CategoryList.tsx:32-41 | one card per category, in the given order, each with its count |
| CategoryListView.Cards | src/components/admin/CategoryList.tsx:22-41 | no categories give the single placeholder card; otherwise the cards per category |
| CategoryListView.CountTotalIsSumCounts | src/components/admin/CategoryList.tsx:37 | the counts on the cards add up to the occurrences of their categories among the products |
| CategoryListView.CountsCoverProducts | src/components/admin/CategoryList.tsx:37 | with the de-duplicated categories, the counts add up to the number of products |
| DashboardActions.NextStatus | src/pages/admin/Dashboard.tsx:252-254 | Pending goes to Shipped, Shipped to Delivered, anything else to Pending; the next status is always accepted by the server and differs from the current one |
| DashboardActions.ThreePressesReturn | src/pages/admin/Dashboard.tsx:252-254 | three presses return an accepted status to itself, and an unknown status joins the cycle at Pending |
| DashboardActions.StatusButtonPassesWhitelist | src/server/api/routes/orders.ts:112-114 | the button's request is never refused by the whitelist: it gets 200 iff the order exists and 404 iff it does not |
| DashboardActions.PressStatus | src/pages/admin/Dashboard.tsx:264-268 | once the reply is read, whatever its status, exactly the matching rows take the next status; otherwise the table is unchanged |
| DashboardActions.LocalUpdateIgnoresReplyStatus | src/pages/admin/Dashboard.tsx:264-268 | for a vanished order the server answers 404 and changes nothing, yet the row's status changes |
| DashboardActions.RoleRoute | src/pages/admin/Dashboard.tsx:341 | the button calls remove-admin iff the user is an admin, and make-admin iff not |
| DashboardActions.ToggleRole | src/pages/admin/Dashboard.tsx:352-354 | after an ok reply only the matching rows flip their flag; otherwise nothing changes |
| DashboardActions.RoleToggleStaysInSync | src/pages/admin/Dashboard.tsx:340-361 | when a row shows the stored flag, pressing its button succeeds and row and store agree again on the opposite flag |
| UserManagementView.ToggleAdminStatus | src/components/admin/UserManagement.tsx:47-67 | after a successful write only the matching rows take `!current`; a failed write changes nothing |
| UserManagementView.NullFlagBecomesAdmin | src/components/admin/UserManagement.tsx:51 | a null flag is written as true |
| UserManagementView.RoleLabel | src/components/admin/UserManagement.tsx:111 | the label is "Admin" iff the flag is truthy |
| UserManagementView.ToggleTwiceRestoresLabel | src/components/admin/UserManagement.tsx:47-67 | one toggle from a row's own flag changes its label, and a second one restores it |
| UserManagementView.DeleteUser | src/components/admin/UserManagement.tsx:69-86 | nothing changes unless the dialog is confirmed and the delete succeeds; then the rows for that id go and all others stay |
| UserManagementView.DisplayName | src/components/admin/UserManagement.tsx:107-109 | with neither name set the cell reads "No name provided"; otherwise both names with a space between, a missing one read as empty |
| UserManagementView.DisplayNameIsPlaceholderIff | src/components/admin/UserManagement.tsx:107-109 | for every profile, the cell reads "No name provided" iff neither name is set or the names are "No" and "name provided", or "No name" and "provided" |
| UserManagementView.DisplayNameCorners | src/components/admin/UserManagement.tsx:107-109 | the placeholder is not reserved: names "No name" and "provided" show the same text, and a last name alone gets a leading space |
| AuthContextModel.Initial | src/context/AuthContext.tsx:28-30 | the provider starts with the stored token, no user, no admin flag, and loading |
| AuthContextModel.FetchCurrentUser | src/context/AuthContext.tsx:43-74 | when the `/auth/me` reply arrives, loading ends on every path; success sets the user and its admin flag and keeps the token; failure forgets the token, the user and the flag |
| AuthContextModel.OnMount | src/context/AuthContext.tsx:32-41 | without a stored token loading ends at once; with one, the request goes out and nothing changes until its reply |
| AuthContextModel.SignIn | src/context/AuthContext.tsx:112-143 | the error is null iff the server sent a session; then token, user and admin flag come from it; otherwise nothing changes |
| AuthContextModel.SignOut | src/context/AuthContext.tsx:145-154 | signing out clears the token, the user and the admin flag |
| AuthContextModel.Step | src/context/AuthContext.tsx:32-154 | no event starts loading again; the `/auth/me` reply ends loading and sets the user it carries whatever the token is by then; a failed sign-in or sign-up changes nothing and a successful one stores its token and user; sign-out clears token, user and flag |
| AuthContextModel.StepKeepsConsistent | src/context/AuthContext.tsx:28-30 | every transition keeps "admin flag set implies a user carrying it" |
| AuthContextModel.RunKeepsConsistent | src/context/AuthContext.tsx:28-154 | so the invariant holds in every state reachable from the first render |
| AuthContextModel.LoadingStaysEnded | src/context/AuthContext.tsx:30-74 | once loading has ended it stays ended over any run of events |
| AuthContextModel.LoadingEnds | src/context/AuthContext.tsx:32-41 | loading ends at the mount when no token is stored, otherwise at the `/auth/me` reply, and stays ended afterwards |
| AuthContextModel.LateReplyRestoresUser | src/context/AuthContext.tsx:43-65 | an `/auth/me` reply that arrives after a sign-in and a sign-out still sets the user, now with no token stored |
| AuthContextModel.AdminSessionShowsDashboardOnly | src/context/AuthContext.tsx:131-138 | the hard-coded admin login makes the client an admin, while the server's admin gate answers that session with 500 |

## Left out

- GET `/orders` (admin listing, sorted by creation date) and GET `/orders/my-orders` (src/server/api/routes/orders.ts:10-28) are not modelled; they only read and sort by a timestamp the model does not keep.
- src/server/api/routes/auth.ts and server.js: request plumbing around the auth service, not its decisions.
- The database connection and every thrown error other than a CastError. A CastError's reply text is modelled by its start only, and a validation error's text is a fixed message.
- ObjectIds are 24-hex-digit strings; their 12-byte binary form, and fresh-id generation, are not modelled. A new document's id is a parameter that is not yet in the collection; the lemmas about reading a new document back take it in lower case, as mongoose generates it.
- `OrdersRoute.CreateOrder`: the order's owner is stored as the requester's id text. src/server/models/Order.ts is not part of this model, so its cast of that id to an ObjectId is not modelled. The owner check in `OrdersRoute.GetOrder` compares that text with the token's id; tokens carry `user._id.toString()`, which is lower case.
- src/server/models/Order.ts is not part of this model; a new order's status is taken to be "Pending".
- `OrdersRoute.PlaceLines`: order placement is one sequential call. The race between simultaneous orders, which the source leaves unguarded, is not modelled.
- The mongoose `trim`/`lowercase` setters of the user email are assumed to apply both to saved documents and to the `findOne` filter. The product name's `trim` is assumed to apply on update too.
- `findByIdAndUpdate` runs without update validators, so `ProductsRoute.Patch` accepts any values.
- JWT signing and verification, and bcrypt hashing and comparison, are function parameters with no properties assumed.
- `ProductDetailsView.Discount`: the `Math.round` of the percentage is not modelled; the contract is about the exact quotient.
- `Cart.CartTotals`: prices are exact reals; floating-point rounding and `toFixed` formatting are not modelled.
- `Strings.Lower`: only ASCII letters are lower-cased, while JavaScript's `toLowerCase` covers all of Unicode.
- `Strings.Trim`: only ASCII whitespace is removed, while JavaScript's `trim` also removes Unicode spaces and line terminators.
- `Strings.TrimStart`: only ASCII whitespace is removed, as for `Strings.Trim`.
- `Strings.TrimEnd`: only ASCII whitespace is removed, as for `Strings.Trim`.
- `CategoryPage.Capitalize`: only ASCII letters are upper-cased, while `toUpperCase` maps all of Unicode: "é" becomes "É", and "ß" becomes "SS", which lengthens the word.
- `CategoryPage.TitleShape`: the title keeps the slug's length only for slugs whose letters upper-case to one character; in JavaScript the slug "ß-x" gives the longer "SS X".
- `OrdersRoute.PlaceLine`: every line is taken to carry a product id and an integer quantity. The request is raw JSON, so these cases are not modelled: a missing quantity, which passes the stock check, turns the stock into NaN and makes the save throw (400 after the earlier lines' stock is written); a non-numeric quantity, which fails the same way; a fractional quantity, which is accepted and stores a fractional stock; and a missing product id, which finds nothing (404).
- `UserManagementView.DisplayName`: "the placeholder appears iff neither name is set" is not true as written, because two pairs of names spell the same text. Its contract states both branches, and `DisplayNameIsPlaceholderIff` states exactly when the placeholder appears.
- `CategoryPage.SlugToTitle` has no row of its own: its properties are stated by `SlugToTitleIsCharwise`, `TitleShape` and `SlugToTitleIdempotent`.
- Timers: the carousel's five-second `setInterval` is the same `Next`.
- Toasts, navigation and routing, `fetch` and Supabase calls, and loading spinners are not modelled. Server replies are inputs to the client handlers.
- The Supabase category query of the category page, AdminPage and the dashboard's data loading and admin redirect are not modelled.
- The zod URL rule on the product image and the email rules of the login forms are not modelled.
- Presentational components (Header, Footer, ProductCard, CartSummary, DashboardStats and similar) have no state logic and are not modelled, beyond the product record and the header's one category link.
- The two admin files use `_id`/`image_url` and `id`/`imageUrl` for the same fields. Both are modelled under one name, `id`/`imageUrl`.
