# Inventory client core, modelled in Dafny

This project models the sequential logic of an Angular inventory client. The client is a product catalogue with create, edit and delete, stock warnings, and role-based access. The model covers these parts:

- **Product store** (`ProductStores`). One state record holds the product list, a loading flag, an error and the filters. The actions change the record. The selectors (filtered list, low-stock list, totals, lookup by id) are pure functions of it.
- **Authentication store** (`AuthStores`). A state record with user, token and flags. Every write is mirrored into `localStorage` under `auth_token` and `user_data`, with a concrete JSON codec for the user. It also answers role queries.
- **Token storage service** (`AuthServices`). It keeps `token`, `username` and `roles` in `localStorage` and answers `getToken`, `getRoles`, `isAuthenticated` and `hasRole`.
- **HTTP interceptor** (`AuthInterceptors`). It decides which requests go out untouched, when the `sessionStorage` token is attached as a bearer header, and when a failed reply sends the browser to the login view.
- **Route guard** (`AuthGuards`). The "all" and "any" role check over the route's declared roles, and the redirect target when access is denied.
- **Product table** (`ProductTables`). The case-insensitive name filter, the totals, and the three-way stock classification behind the label, tag and row class.
- **Form service** (`Forms`). Forms are a tree of controls (value, validators, errors, `touched`, `dirty`). The module covers the built-in validators the forms declare, `form.get` with dotted paths, the first-error message table, `isFieldInvalid` and `getFieldError`. It also covers `markAllFieldsAsTouched`, `clearFormErrors`, `isFormValid`, `applyServerErrors`, `getAllErrors` with dotted keys, `sanitizeFormData` and the duplicate validator.
- **Product form component** (`ProductForms`). The declared field rules, loading a product into the form or resetting it, the submit payload, and the component's own error-message priority.
- **Product API service** (`ProductApi`). The status-to-message table, the mapping between backend records and client products, and what each call does to the product store.
- **Legacy products view** (`LegacyProducts`). The field-alias mapping of backend records, the name and category filter, the low-stock row class, and the dialog form. It also covers the view's `ngOnInit`, `load`, `openNew`, `edit`, `save` and `remove`.

The remaining modules are shared definitions:

- `AppConstants`: roles, the threshold of 5, storage keys and messages.
- `ProductModel` and `AuthModel`: the records.
- `WebStorage`: the browser's key/value storage as a class.
- `Optional` and `Http`: option and result types, and failed HTTP calls.
- `Seqs`: filter, find, some, every, map and sum.
- `Text`: ASCII case mapping, `includes`, `trim`, and split/join.
- `Numerals`: number-to-text.
- `Json`: the JSON texts of string arrays and user records, with proved round trips.

Objects whose fields the source updates in place are classes: `ProductStore`, `AuthStore`, `AuthService`, `ProductApiService`, `FormGroup`, `ProductFormComponent`, `ProductsComponent` and `Storage`. Their methods state the whole new state: every field they may change is given its new value in the postcondition. Selectors, mappings and messages are functions, and the properties the source promises are lemmas about them. The reply of every HTTP call, the current instant, and the answer of the confirmation dialog are parameters.

## Model

| member | source | states |
|---|---|---|
| ProductStores.FilteredProducts | src/app/core/services/product.store.ts:28-50 | order-preserving sub-list of the products; every kept product passes each truthy filter (name substring ignoring case, category, min/max price, low stock); every product that passes is kept, as often as it occurs |
| ProductStores.InactiveFiltersKeepAll | src/app/core/services/product.store.ts:28-50 | when no filter holds a truthy value (empty name, category 0, price bound 0), nothing is filtered out |
| ProductStores.NoFiltersKeepAll | src/app/core/services/product.store.ts:28-50 | the empty filter record keeps every product |
| ProductStores.LowStockProducts | src/app/core/services/product.store.ts:52-54 | order-preserving sub-list holding exactly the products with fewer than 5 units, each as often as it occurs |
| ProductStores.TotalProducts | src/app/core/services/product.store.ts:56 | the count is the length of the product list, so zero exactly when the list is empty |
| ProductStores.TotalValue | src/app/core/services/product.store.ts:57-59 | no products give value 0; one product gives its price times quantity |
| ProductStores.TotalValueAppend | src/app/core/services/product.store.ts:57-59 | appending a product adds its price times quantity to the total value |
| ProductStores.TotalValueNonNegative | src/app/core/services/product.store.ts:57-59 | non-negative prices and quantities give a non-negative total value |
| ProductStores.GetProductById | src/app/core/services/product.store.ts:135-137 | nothing exactly when no product has the id; otherwise the first product with that id |
| ProductStores.HasProducts | src/app/core/services/product.store.ts:139-141 | true exactly when the list is not empty |
| ProductStores.IsProductLowStock | src/app/core/services/product.store.ts:143-145 | true exactly when the quantity is at most 4, so an empty or negative stock is low |
| ProductStores.Replaced | src/app/core/services/product.store.ts:95-102 | same length; the products with the updated id become the update, all others unchanged |
| ProductStores.Removed | src/app/core/services/product.store.ts:104-109 | order-preserving sub-list without the id that keeps every product with another id, as often as it occurs |
| ProductStores.ReplacedIdempotent | src/app/core/services/product.store.ts:95-102 | updating twice with the same product is updating once |
| ProductStores.ReplacedThenFound | src/app/core/services/product.store.ts:95-102 | after updating a stored id, looking it up gives the new product |
| ProductStores.ReplacedAbsent | src/app/core/services/product.store.ts:95-102 | updating an id that is not stored changes nothing |
| ProductStores.RemovedNotFound | src/app/core/services/product.store.ts:104-109 | after removing an id, it is no longer found |
| ProductStores.AppendedFound | src/app/core/services/product.store.ts:88-93 | after adding a product with a new id, looking the id up finds it |
| ProductStores.MergeFilters | src/app/core/services/product.store.ts:111-116 | each supplied filter field overrides, each absent one keeps its old value |
| ProductStores.MergeFiltersLaws | src/app/core/services/product.store.ts:111-116 | merging the empty record changes nothing, merging into it gives the record, merging twice is merging once |
| ProductStores.ProductStore.constructor | src/app/core/services/product.store.ts:14-19 | empty list, not loading, no error, no filters |
| ProductStores.ProductStore.SetLoading | src/app/core/services/product.store.ts:63-69 | sets the flag; starting clears the error, stopping keeps it; nothing else changes |
| ProductStores.ProductStore.SetError | src/app/core/services/product.store.ts:71-77 | stores the error and ends loading; nothing else changes |
| ProductStores.ProductStore.SetProducts | src/app/core/services/product.store.ts:79-86 | replaces the list wholesale, ends loading, clears the error, keeps the filters |
| ProductStores.ProductStore.AddProduct | src/app/core/services/product.store.ts:88-93 | one longer, the product last, the old list as prefix; nothing else changes |
| ProductStores.ProductStore.UpdateProduct | src/app/core/services/product.store.ts:95-102 | the list becomes `Replaced`; nothing else changes |
| ProductStores.ProductStore.RemoveProduct | src/app/core/services/product.store.ts:104-109 | the list becomes `Removed`; nothing else changes |
| ProductStores.ProductStore.SetFilters | src/app/core/services/product.store.ts:111-116 | the filters become the merge of old and given; nothing else changes |
| ProductStores.ProductStore.ClearFilters | src/app/core/services/product.store.ts:118-123 | empties the filters only |
| ProductStores.ProductStore.Reset | src/app/core/services/product.store.ts:125-132 | restores the initial state |
| AuthModel.MergeUser | src/app/core/services/auth.store.ts:87-91 | `{ ...user, ...patch }`: each supplied field (username, email, document, roles) overrides, each absent one is kept; the id is kept; the empty patch changes nothing |
| AuthStores.UserRoles | src/app/core/services/auth.store.ts:30 | the user's roles, or none without a user |
| AuthStores.IsAdmin | src/app/core/services/auth.store.ts:32-34 | true exactly when there is a user whose roles include `ROLE_ADMIN` |
| AuthStores.IsEmployee | src/app/core/services/auth.store.ts:36-38 | true exactly when there is a user whose roles include `ROLE_EMPLOYEE` |
| AuthStores.HasRole | src/app/core/services/auth.store.ts:98-100 | false without a user; otherwise true exactly when the role is among the user's roles |
| AuthStores.Username | src/app/core/services/auth.store.ts:29 | the user's name, or the empty name without a user |
| AuthStores.HasAnyRole | src/app/core/services/auth.store.ts:103-106 | true exactly when some asked role is among the user's roles |
| AuthStores.HasAllRoles | src/app/core/services/auth.store.ts:108-111 | true exactly when every asked role is among the user's roles |
| AuthStores.RoleQueriesAsSets | src/app/core/services/auth.store.ts:103-111 | "any" is a non-empty intersection and "all" is inclusion of the role sets |
| AuthStores.RoleQueriesOnEmpty | src/app/core/services/auth.store.ts:103-111 | no role asked: "any" is false and "all" is true; "all" of a non-empty list implies "any" |
| AuthStores.NoUserNoRoles | src/app/core/services/auth.store.ts:30-38 | without a user, `hasRole`, `isAdmin`, `isEmployee` and `hasAnyRole` are false, and `hasAllRoles` holds only for no roles |
| AuthStores.AfterUpdateUser | src/app/core/services/auth.store.ts:87-91 | a user stays a user and no user stays none; token and authentication unchanged |
| AuthStores.ClearAuthIdempotent | src/app/core/services/auth.store.ts:72-85 | clearing twice is clearing once, on the state and on the storage; both keys are gone and no role remains |
| AuthStores.AuthenticatedStorageReadsBack | src/app/core/services/auth.store.ts:57-70 | the stored token reads back, and the stored user text parses back to the same user |
| AuthStores.AuthStore.constructor | src/app/core/services/auth.store.ts:13-19 | the initial unauthenticated state |
| AuthStores.AuthStore.SetLoading | src/app/core/services/auth.store.ts:41-47 | sets the flag; starting clears the error; nothing else changes |
| AuthStores.AuthStore.SetError | src/app/core/services/auth.store.ts:49-55 | stores the error and ends loading |
| AuthStores.AuthStore.SetAuthenticated | src/app/core/services/auth.store.ts:57-70 | user, token, authenticated, not loading, no error; storage gains `auth_token` and the user's JSON under `user_data` |
| AuthStores.AuthStore.ClearAuth | src/app/core/services/auth.store.ts:72-85 | no user, no token, not authenticated; both storage keys removed and nothing else |
| AuthStores.AuthStore.UpdateUser | src/app/core/services/auth.store.ts:87-96 | merges into an existing user and re-stores it; with no user neither state nor storage changes |
| AuthStores.AuthStore.InitializeFromStorage | src/app/core/services/auth.store.ts:114-127 | both entries truthy and the user parses: authenticated with them, storage unchanged; unparsable user: cleared; otherwise nothing changes |
| AuthGuards.RequiredRoles | src/app/guards/auth.guard.ts:14 | the route's declared `roles` list when present; no required roles when missing |
| AuthGuards.RequireAll | src/app/guards/auth.guard.ts:15 | the route's declared `requireAll` flag when present; "any" mode when missing |
| AuthGuards.CheckRoleAccess | src/app/guards/auth.guard.ts:58-90 | no required roles grants; "all" grants iff every role is held, "any" iff one is; granted iff no redirect; a denial redirects to `/products` for an employee, else `/login` |
| AuthGuards.CanActivate | src/app/guards/auth.guard.ts:10-24 | an authenticated session is decided at once by `CheckRoleAccess` on the defaulted route data; otherwise the guard waits |
| AuthGuards.NoRouteDataAdmits | src/app/guards/auth.guard.ts:14-24 | a route without role data admits every authenticated user without redirect |
| AuthGuards.AllModeIsInclusion | src/app/guards/auth.guard.ts:67-69 | "all" mode grants exactly when every required role is held |
| AuthGuards.AnyModeIsOverlap | src/app/guards/auth.guard.ts:58-75 | "any" mode grants exactly when no role is required or some required role is held |
| AuthGuards.AllImpliesAny | src/app/guards/auth.guard.ts:58-75 | whatever "all" grants, "any" grants too |
| AuthGuards.EmployeeDeniedAdminRoute | src/app/guards/auth.guard.ts:77-89 | an employee without the admin role is denied an admin route and sent to `/products` |
| AuthGuards.EmployeeDeniedByGuard | src/app/guards/auth.guard.ts:10-24 | `canActivate` itself denies an authenticated employee session without the admin role on a route declaring `roles: [ROLE_ADMIN]`, in either mode, and redirects it to `/products` |
| AuthServices.LoginStorage | src/app/services/auth.service.ts:23-32 | without a token in the reply the storage is unchanged; with one, exactly `token`, `username` and `roles` are written and other keys are kept |
| AuthServices.LogoutStorage | src/app/services/auth.service.ts:38-43 | removes exactly `token`, `username` and `roles` |
| AuthServices.GetToken | src/app/services/auth.service.ts:45-47 | the stored `token` entry, or nothing when absent |
| AuthServices.GetRoles | src/app/services/auth.service.ts:49-55 | no roles when the entry is missing or empty; when it parses, the roles are exactly what the entry encodes |
| AuthServices.IsAuthenticated | src/app/services/auth.service.ts:57-59 | true exactly when a non-empty token is stored |
| AuthServices.HasRole | src/app/services/auth.service.ts:61-63 | holds exactly when the upper-cased role is among the stored roles, which needs a non-empty `roles` entry |
| AuthServices.LoginThenRead | src/app/services/auth.service.ts:23-59 | after a login with a token, `getToken` gives it, the session is authenticated, and `getRoles` gives the reply's roles (or none) |
| AuthServices.LoginThenHasRole | src/app/services/auth.service.ts:23-63 | after a login with a token, a role is held exactly when its upper-case form is among the reply's roles (none when the reply has no roles) |
| AuthServices.LoginWithoutRoles | src/app/services/auth.service.ts:29 | a reply without roles stores `[]`, so no role query holds |
| AuthServices.LogoutClears | src/app/services/auth.service.ts:38-59 | after logout: no token, not authenticated, no roles; logging out twice equals once |
| AuthServices.UnparsableRoles | src/app/services/auth.service.ts:49-55 | a `roles` entry that does not parse gives no roles |
| AuthServices.LowerCaseRolesNeverMatch | src/app/services/auth.service.ts:61-63 | stored roles are not normalised: if each stored role has a lower-case letter, no query matches |
| AuthServices.HasRoleIgnoresQueryCase | src/app/services/auth.service.ts:61-63 | the asked role's case does not matter |
| AuthServices.ToUpperIdempotent | src/app/services/auth.service.ts:62 | upper-casing twice is upper-casing once |
| AuthServices.AuthService.constructor | src/app/services/auth.service.ts:21 | the service uses the given storage |
| AuthServices.AuthService.Login | src/app/services/auth.service.ts:23-32 | the reply is passed on unchanged; a successful reply updates storage as `LoginStorage`, a failed one leaves it alone |
| AuthServices.AuthService.Logout | src/app/services/auth.service.ts:38-43 | storage becomes `LogoutStorage`; the redirect is `/login` |
| AuthInterceptors.Authorized | src/app/interceptors/auth.interceptor.ts:5-25 | the URL is kept; auth endpoints and requests without a truthy session token are unchanged; otherwise `Authorization: Bearer <token>` is set |
| AuthInterceptors.Intercept | src/app/interceptors/auth.interceptor.ts:4-39 | sends `Authorized`, passes the reply on unchanged, and only ever redirects to `/login` |
| AuthInterceptors.AuthEndpointForwarded | src/app/interceptors/auth.interceptor.ts:5-14 | a URL containing any auth fragment anywhere is forwarded as is, without redirect |
| AuthInterceptors.NoTokenNoChange | src/app/interceptors/auth.interceptor.ts:19-21 | without a stored token the request goes out as it came |
| AuthInterceptors.RedirectExactlyOn401 | src/app/interceptors/auth.interceptor.ts:27-38 | a redirect happens exactly on a 401 for a non-auth URL |
| AuthInterceptors.ServiceTokenNotUsed | src/app/interceptors/auth.interceptor.ts:17-18 | a `token` key in the session storage is never attached; only `auth_token` is read |
| ProductTables.TableFilteredProducts | src/app/shared/components/product-table/product-table.component.ts:253-260 | the empty filter returns the input; otherwise the order-preserving sub-list of the products whose lower-cased name contains the lower-cased filter, each as often as it occurs |
| ProductTables.NameMatches | src/app/shared/components/product-table/product-table.component.ts:257-259 | the empty filter matches every name; a matching filter is no longer than the name |
| ProductTables.TableTotalValue | src/app/shared/components/product-table/product-table.component.ts:262-264 | the store's total value (sum of price times quantity) of exactly the shown products; with the empty filter, of all the inputs; no product shown gives 0 |
| ProductTables.LowStockCount | src/app/shared/components/product-table/product-table.component.ts:266-268 | 0 for no products; at most the number of shown products and at most the store's low-stock count |
| ProductTables.TableFilteredAppend | src/app/shared/components/product-table/product-table.component.ts:253-260 | an appended product is shown, at the end, exactly when it matches the filter |
| ProductTables.LowStockCountAppend | src/app/shared/components/product-table/product-table.component.ts:266-268 | an appended product adds one to the count exactly when it matches the filter and is low on stock |
| ProductTables.IsLowStock | src/app/shared/components/product-table/product-table.component.ts:286-288 | exactly the store's low stock minus the empty or negative shelf |
| ProductTables.IsOutOfStock | src/app/shared/components/product-table/product-table.component.ts:290-292 | exactly when the quantity is 0; an empty shelf is low for the store but not "low" for the table |
| ProductTables.StockLabel | src/app/shared/components/product-table/product-table.component.ts:294-298 | "Agotado" exactly at 0, "Stock Bajo" exactly for 1 to 4, "Disponible" otherwise |
| ProductTables.StockSeverity | src/app/shared/components/product-table/product-table.component.ts:300-304 | `danger` exactly at 0, `warn` exactly for 1 to 4, `success` otherwise |
| ProductTables.RowClass | src/app/shared/components/product-table/product-table.component.ts:306-310 | `out-of-stock` exactly at 0, `low-stock` exactly for 1 to 4, '' otherwise |
| ProductTables.FilterChangePayload | src/app/shared/components/product-table/product-table.component.ts:280-284 | no name for the empty filter, else the filter text |
| ProductTables.StockClassesExclusive | src/app/shared/components/product-table/product-table.component.ts:286-292 | never both out of stock and low |
| ProductTables.ClassificationConsistent | src/app/shared/components/product-table/product-table.component.ts:294-310 | label, severity and row class name the same class: 0 is Agotado/danger/`out-of-stock`, 1..4 is Stock Bajo/warn/`low-stock`, anything else is Disponible/success/'' |
| ProductTables.TableLowStockVersusStore | src/app/shared/components/product-table/product-table.component.ts:286-292 | the table's "low" implies the store's; an empty shelf is low for the store but not for the table |
| ProductTables.LowStockCountBounded | src/app/shared/components/product-table/product-table.component.ts:266-268 | the low-stock count is at most the number of shown products, which is at most the number of inputs |
| ProductTables.TableTotalValueFacts | src/app/shared/components/product-table/product-table.component.ts:262-264 | no product shown gives value 0; non-negative prices and stock give a non-negative value |
| Forms.Coalesce | src/app/components/products/products.component.ts:141-145 | `??` replaces only `null` and `undefined` |
| Forms.Validate | src/app/shared/components/product-form/product-form.component.ts:306-312 | no errors exactly when every validator passes; the errors are exactly what the failing validators report |
| Forms.Check | src/app/shared/components/product-form/product-form.component.ts:306-312 | `required` fails exactly on an empty input, every other rule passes an empty input, and a failing rule's error reads back as that rule's message |
| Forms.Lookup | src/app/core/services/form.service.ts:32 | nothing exactly when no control has the key; otherwise a control under that key |
| Forms.GetPlainName | src/app/core/services/form.service.ts:32 | `form.get` of a name without dots looks among the form's own controls |
| Forms.Get | src/app/core/services/form.service.ts:32 | a control is found only below an entry named by the path's first segment |
| Forms.GetDottedName | src/app/core/services/form.service.ts:32 | for `a.b` with a dot-free `a`, the lookup of `b` inside the group named `a`; nothing when `a` is missing or is a field |
| Forms.NewField | src/app/shared/components/product-form/product-form.component.ts:306-312 | a fresh field is untouched and pristine, and invalid exactly when a validator fails |
| Forms.WithValue | src/app/shared/components/product-form/product-form.component.ts:321-327 | setting a value re-runs the validators and keeps the flags |
| Forms.ResetWith | src/app/shared/components/product-form/product-form.component.ts:329-335 | resetting a field re-runs the validators and clears the flags |
| Forms.PatchValue | src/app/shared/components/product-form/product-form.component.ts:321-327 | the fields named in the values take them; every other entry is unchanged |
| Forms.ResetGroup | src/app/shared/components/product-form/product-form.component.ts:329-335 | every field takes its given value, or `null` when none or `undefined` is given, and is untouched and pristine; groups are left alone |
| Forms.ResetField | src/app/components/products/products.component.ts:132 | the named field becomes `null`, untouched and pristine; the rest is unchanged |
| Forms.FirstErrorDecides | src/app/core/services/form.service.ts:55-57 | only the first error key decides the message |
| Forms.FirstFailingRule | src/app/core/services/form.service.ts:55-57 | the first error reported is that of the first failing validator |
| Forms.ValidationMessage | src/app/core/services/form.service.ts:55-75 | a field's message names the first failing validator with its bound |
| Forms.ErrorMessage | src/app/core/services/form.service.ts:55-75 | never empty; no error, a `server` error or an unknown key gives 'Campo inválido' |
| Forms.CheckedMessage | src/app/core/services/form.service.ts:59-65 | each built-in validator's error maps to its message from the constants |
| Forms.PatternAndCustomMessages | src/app/core/services/form.service.ts:66-71 | `pattern` names the field only for a non-empty name; `custom` without a message gives 'Campo inválido' |
| Forms.GetFieldError | src/app/core/services/form.service.ts:39-50 | a message only when `isFieldInvalid` holds, and then for a field exactly so; the message is that of its first error |
| Forms.DuplicateReported | src/app/core/services/form.service.ts:176-189 | a duplicate error exactly for a truthy value the check flags, read back as "Elemento con valor '…' ya existe" |
| Forms.DuplicateCheck | src/app/core/services/form.service.ts:176-189 | an error exactly for a truthy value the check flags, and then a duplicate error carrying that value |
| Forms.Touch | src/app/core/services/form.service.ts:16-26 | keeps the tree's shape and keys |
| Forms.Clear | src/app/core/services/form.service.ts:123-135 | keeps the tree's shape and keys |
| Forms.TouchFacts | src/app/core/services/form.service.ts:16-26 | touching keeps validity and dirtiness, touches every field, and is idempotent |
| Forms.ClearFacts | src/app/core/services/form.service.ts:123-135 | a cleared tree is valid, untouched and pristine, keeps its values, and clearing is idempotent |
| Forms.InvalidHasField | src/app/core/services/form.service.ts:103-110 | an invalid control has a field below it, so touching an invalid form shows something |
| Forms.FindInTouchAndClear | src/app/core/services/form.service.ts:31-34 | a path finds in the touched or cleared tree the touched or cleared control it finds in the original |
| Forms.IsFieldInvalid | src/app/core/services/form.service.ts:31-34 | holds exactly for a found control that is invalid and dirty or touched; such a control has a field below it |
| Forms.FindInPristine | src/app/core/services/form.service.ts:31-34 | every control below an untouched, pristine control is untouched and pristine |
| Forms.PristineFormShowsNothing | src/app/core/services/form.service.ts:31-50 | in a form nobody has edited or visited, no field shows as invalid and none has a message, whatever its errors |
| Forms.TouchedFormShowsInvalid | src/app/core/services/form.service.ts:31-34 | once every field is touched, a control shows as invalid exactly when it is invalid |
| Forms.ClearedFormShowsNothing | src/app/core/services/form.service.ts:123-135 | after clearing, no control shows as invalid and none has a message |
| Forms.ServerErrorAt | src/app/core/services/form.service.ts:140-152 | keeps the tree's shape and keys |
| Forms.ServerErrorTarget | src/app/core/services/form.service.ts:142-149 | the named field holds just the `server` error and is touched; a name that finds no field changes nothing |
| Forms.ServerErrorInvalidates | src/app/core/services/form.service.ts:140-152 | a server error never makes a form valid, and one that reaches a field makes it invalid |
| Forms.ServerMessageNotShown | src/app/core/services/form.service.ts:74-75 | the `server` key has no message entry, so the field shows 'Campo inválido' |
| Forms.ServerErrorsApplied | src/app/core/services/form.service.ts:140-152 | keeps the tree's kind |
| Forms.ServerErrorsKeepInvalid | src/app/core/services/form.service.ts:140-152 | applying server errors never turns an invalid form valid |
| Forms.NestedKeyInjective | src/app/core/services/form.service.ts:89-91 | different entries of one group get different `key.nestedKey` keys |
| Forms.Prefixed | src/app/core/services/form.service.ts:89-91 | every nested entry appears under `key.nestedKey` with its message, and nothing else |
| Forms.AllErrorsSound | src/app/core/services/form.service.ts:81-98 | every summary key is the dotted path of a field with errors |
| Forms.AllErrorsGrow | src/app/core/services/form.service.ts:84-95 | the summary keys only grow along the entries |
| Forms.AllErrorsComplete | src/app/core/services/form.service.ts:81-98 | every field with errors is in the summary under its dotted path |
| Forms.AllErrorsKeys | src/app/core/services/form.service.ts:81-98 | the summary has a key exactly for the dotted path of each field with errors |
| Forms.ValidFormNoErrors | src/app/core/services/form.service.ts:81-98 | a valid form has an empty summary |
| Forms.AllErrors | src/app/core/services/form.service.ts:81-98 | every message in the summary is non-empty |
| Forms.AllErrorsMessage | src/app/core/services/form.service.ts:81-98 | with distinct dot-free keys, the message under a field's dotted path is that field's first-error message, named by its own key |
| Forms.SanitizedOnStep | src/app/core/services/form.service.ts:160-168 | one more key joins the result with its sanitised value, unless it holds `null` or `undefined` |
| Forms.Sanitized | src/app/core/services/form.service.ts:157-171 | keys a subset of the input's; a key is kept iff its value is not `null`/`undefined`; strings trimmed, other values unchanged |
| Forms.SanitizeIdempotent | src/app/core/services/form.service.ts:157-171 | sanitising twice is sanitising once |
| Forms.SanitizeFormData | src/app/core/services/form.service.ts:157-171 | the loop over the keys computes `Sanitized` |
| Forms.FormGroup.constructor | src/app/shared/components/product-form/product-form.component.ts:306-312 | the group holds the given controls |
| Forms.TouchEntries | src/app/core/services/form.service.ts:16-26 | the loop and recursion compute `Touch` |
| Forms.ClearEntries | src/app/core/services/form.service.ts:123-135 | the loop and recursion compute `Clear` |
| Forms.MarkAllFieldsAsTouched | src/app/core/services/form.service.ts:16-26 | the form becomes `Touch` of itself |
| Forms.ClearFormErrors | src/app/core/services/form.service.ts:123-135 | the form becomes `Clear` of itself |
| Forms.IsFormValid | src/app/core/services/form.service.ts:103-110 | true iff the form is valid, which leaves it alone; otherwise every field is touched |
| Forms.ApplyServerErrors | src/app/core/services/form.service.ts:140-152 | the form gets each named server error in order |
| Forms.PrefixedUpdate | src/app/core/services/form.service.ts:89-91 | adding a nested entry adds exactly its prefixed key |
| Forms.CopyNested | src/app/core/services/form.service.ts:89-91 | the loop copies the nested summary under `key.` into the result |
| Forms.GetAllErrors | src/app/core/services/form.service.ts:81-98 | the loop over the entries computes the summary `AllErrors`, so each field's message sits under its dotted path |
| ProductForms.NameErrors | src/app/shared/components/product-form/product-form.component.ts:307 | the name's errors: required when empty, too short under 2, too long over 100, else none |
| ProductForms.DescriptionErrors | src/app/shared/components/product-form/product-form.component.ts:308 | the description has an error only when longer than 500 |
| ProductForms.MinimumErrors | src/app/shared/components/product-form/product-form.component.ts:309-310 | price and quantity: required when empty, below-minimum for a smaller number, else none |
| ProductForms.CategoryErrors | src/app/shared/components/product-form/product-form.component.ts:311 | the category has an error only when `null` |
| ProductForms.FieldErrors | src/app/shared/components/product-form/product-form.component.ts:306-312 | each field of the form holds at most one error, as its validators decide |
| ProductForms.InvalidFive | src/app/shared/components/product-form/product-form.component.ts:306-312 | the form is invalid exactly when one of its five fields has errors |
| ProductForms.BuildRequest | src/app/shared/components/product-form/product-form.component.ts:343-349 | trimmed name, trimmed description or '', price as text, quantity, and `categoryId` sent as `category` |
| ProductForms.PriorityMessage | src/app/shared/components/product-form/product-form.component.ts:376-381 | required wins; then the first `minlength`, then the first `maxlength`, then the first `min` error gives its message; without any of the four the message is 'Campo inválido' |
| ProductForms.FieldError | src/app/shared/components/product-form/product-form.component.ts:366-382 | a message only when the field shows as invalid |
| ProductForms.ValidIffRulesHold | src/app/shared/components/product-form/product-form.component.ts:306-312 | the form is valid exactly when the field rules hold for its value |
| ProductForms.RulesHold | src/app/shared/components/product-form/product-form.component.ts:306-312 | the rules require a name, a price above 0, a quantity and a category |
| ProductForms.DescriptionText | src/app/shared/components/product-form/product-form.component.ts:346 | a string description is trimmed (`Trim`, whose blank-ends characterization is `Text.TrimSpec`), so it occurs in the entered text with no blank at either end; a non-string gives '' |
| ProductForms.SingleErrorAgrees | src/app/shared/components/product-form/product-form.component.ts:376-381 | for a single declared error, the component's priority and the service's first-key message agree |
| ProductForms.DeclaredErrorsOnly | src/app/shared/components/product-form/product-form.component.ts:306-312 | every field holds no error or one error of a declared kind |
| ProductForms.ComponentMessageAgrees | src/app/shared/components/product-form/product-form.component.ts:366-382 | on this form the component's `getFieldError` equals the form service's |
| ProductForms.TopLevelOnly | src/app/shared/components/product-form/product-form.component.ts:362 | on a form of fields, a name finds one of its own fields or nothing |
| ProductForms.ProductFormValidIff | src/app/shared/components/product-form/product-form.component.ts:306-327 | a loaded product is valid exactly when its name is 2..100 long, description at most 500, price at least 0.01 and quantity at least 0 |
| ProductForms.EmptyFormRejected | src/app/shared/components/product-form/product-form.component.ts:329-335 | the reset form breaks the rules: empty name and no category are required, price 0 is below 0.01 |
| ProductForms.InitialShowsNothing | src/app/shared/components/product-form/product-form.component.ts:361-377 | the declared form starts invalid, yet no field shows as invalid or has a message |
| ProductForms.RequestTrimmed | src/app/shared/components/product-form/product-form.component.ts:344-345 | the submitted name and description have no blanks at either end |
| ProductForms.PatchKeepsWellFormed | src/app/shared/components/product-form/product-form.component.ts:321-327 | patching keeps the form well formed, with exactly the given values and the same flags |
| ProductForms.ResetKeepsWellFormed | src/app/shared/components/product-form/product-form.component.ts:329-335 | resetting keeps the form well formed, with those values, untouched and pristine |
| ProductForms.FreshControlsWellFormed | src/app/shared/components/product-form/product-form.component.ts:306-312 | declared controls holding values of the right kinds form a well-formed, pristine form with those values |
| ProductForms.InitialWellFormed | src/app/shared/components/product-form/product-form.component.ts:306-312 | the declared form is well formed, untouched and pristine |
| ProductForms.TouchKeepsWellFormed | src/app/shared/components/product-form/product-form.component.ts:384-389 | touching every field changes no value, validator or error |
| ProductForms.ProductFormComponent.constructor | src/app/shared/components/product-form/product-form.component.ts:295-315 | after `ngOnInit`: edit mode iff a product is given; the form holds the product's fields or the empty value; untouched and pristine |
| ProductForms.ProductFormComponent.UpdateFormWithProduct | src/app/shared/components/product-form/product-form.component.ts:317-337 | edit mode iff a product; a product is patched in with flags kept; otherwise the form resets to '', '', 0, 0, `null` with no flags |
| ProductForms.ProductFormComponent.OnProductChange | src/app/shared/components/product-form/product-form.component.ts:299-303 | a new product input loads its fields keeping the touched and dirty flags, or resets to the empty value untouched and pristine |
| ProductForms.ProductFormComponent.MarkAllFieldsAsTouched | src/app/shared/components/product-form/product-form.component.ts:384-389 | the loop touches each of the form's own controls and keeps the form well formed |
| ProductForms.ProductFormComponent.OnSubmit | src/app/shared/components/product-form/product-form.component.ts:339-355 | a request exactly when the rules hold, equal to `BuildRequest` of the value and leaving the form alone; otherwise nothing, with every field touched |
| ProductApi.ApiErrorMessage | src/app/features/products/services/product-api.service.ts:153-182 | a non-empty server message wins; otherwise the status message |
| ProductApi.StatusTable | src/app/features/products/services/product-api.service.ts:159-181 | the seven known statuses have distinct messages of their own, and any other status gets 'Ha ocurrido un error' |
| ProductApi.ServerMessageWins | src/app/features/products/services/product-api.service.ts:156-158 | with a server message the status does not matter; an empty message counts as none |
| ProductApi.TransformDtoToProduct | src/app/features/products/services/product-api.service.ts:129-140 | `productId` becomes `id` and `productName` becomes `name`; both timestamps are the current instant |
| ProductApi.DtoRoundTrip | src/app/features/products/services/product-api.service.ts:129-140 | the mapping loses nothing and invents only the timestamps, in both directions |
| ProductApi.DtoMappingInjective | src/app/features/products/services/product-api.service.ts:129-140 | different backend records map to different products |
| ProductApi.TransformProductToRequest | src/app/features/products/services/product-api.service.ts:142-150 | missing fields default to '', '0', 0 and 0 |
| ProductApi.RequestDefaults | src/app/features/products/services/product-api.service.ts:142-150 | every field is the given value, or its default when absent; falsy values coincide with their defaults |
| ProductApi.RequestOfProduct | src/app/features/products/services/product-api.service.ts:142-150 | a whole product is sent with its own fields and the price as text |
| ProductApi.ProductApiService.constructor | src/app/features/products/services/product-api.service.ts:24-27 | the service uses the given store |
| ProductApi.ProductApiService.HandleError | src/app/features/products/services/product-api.service.ts:153-186 | reports `ApiErrorMessage` and records it as the store error, which ends loading |
| ProductApi.ProductApiService.LoadProducts | src/app/features/products/services/product-api.service.ts:32-46 | success: the mapped list replaces the store's, loading ends, no error, given filters merged; failure: the error message is recorded |
| ProductApi.ProductApiService.CreateProduct | src/app/features/products/services/product-api.service.ts:51-62 | success: the mapped product is appended and then found by its new id, loading ends; failure: the message is recorded |
| ProductApi.ProductApiService.UpdateProduct | src/app/features/products/services/product-api.service.ts:67-78 | success: the reply replaces the products with its id and is found by it, loading ends; failure: the message is recorded |
| ProductApi.ProductApiService.DeleteProduct | src/app/features/products/services/product-api.service.ts:83-94 | success: the id leaves the store and is no longer found, loading ends; failure: the message is recorded |
| ProductApi.ProductApiService.GetLowStockProducts | src/app/features/products/services/product-api.service.ts:99-104 | success: the mapped list with the store untouched; failure: the message is recorded |
| ProductApi.ProductApiService.GetProductById | src/app/features/products/services/product-api.service.ts:109-126 | a stored product is returned without a request; otherwise the fetched one, a 404 gives nothing, and other failures are recorded |
| LegacyProducts.Aliased | src/app/components/products/products.component.ts:91-98 | `productId`, `productName` and `category` win over `id`, `name` and `categoryId` unless `null` or missing; other fields copied |
| LegacyProducts.RemapRow | src/app/components/products/products.component.ts:113-120 | mapping a shown row again changes nothing but a `null` category, which becomes `undefined` |
| LegacyProducts.BackendRecordShown | src/app/components/products/products.component.ts:91-98 | a backend record is shown with its id, name and category id |
| LegacyProducts.BackendSpellingWins | src/app/components/products/products.component.ts:91-98 | with both spellings present, the alternative ones do not matter |
| LegacyProducts.FilterText | src/app/components/products/products.component.ts:199-200 | `null` and missing values compare as '', strings as themselves |
| LegacyProducts.FilteredRows | src/app/components/products/products.component.ts:197-206 | order-preserving sub-list of the rows whose name and category contain the non-empty filters ignoring case, and all of them; both filters empty keep every row |
| LegacyProducts.NameFilterAgreesWithTable | src/app/components/products/products.component.ts:202 | the name filter keeps a product exactly when the product table's filter does |
| LegacyProducts.LowStockClass | src/app/components/products/products.component.ts:179-181 | the class is `low-stock-row` or '' |
| LegacyProducts.BelowFive | src/app/components/products/products.component.ts:181 | JavaScript's `quantity < 5`: numbers compare, `null` and booleans are below, `undefined` is not, a blank string is below |
| LegacyProducts.LowStockRowVersusOthers | src/app/components/products/products.component.ts:179-181 | a product's row is marked exactly when its quantity is below 5, the empty shelf included, unlike the table's "low" |
| LegacyProducts.InvalidIffRuleBroken | src/app/components/products/products.component.ts:71-78 | the dialog form is invalid exactly when a value breaks one of its declared rules |
| LegacyProducts.FreshFormWellFormed | src/app/components/products/products.component.ts:71-78 | newly declared controls are well formed and pristine |
| LegacyProducts.InitialWellFormed | src/app/components/products/products.component.ts:71-78 | the constructor's form is well formed and pristine |
| LegacyProducts.InitialInvalid | src/app/components/products/products.component.ts:71-78 | the constructor's form cannot be saved: the name is required |
| LegacyProducts.EmptyNameInvalid | src/app/components/products/products.component.ts:73 | a well-formed form with an empty name is invalid |
| LegacyProducts.SaveRequestOf | src/app/components/products/products.component.ts:137-161 | no request iff the form is invalid; an update of the edited id iff it is truthy; otherwise a create; the payload has no id |
| LegacyProducts.FalsyIdCreates | src/app/components/products/products.component.ts:148-160 | an edited row with id 0, `null` or no id is saved as a new product |
| LegacyProducts.ValidPayload | src/app/components/products/products.component.ts:139-146 | a valid form sends name, price, quantity and category as entered, within their declared bounds |
| LegacyProducts.PayloadOf | src/app/components/products/products.component.ts:140-147 | each field is the form's value, or its default ('' or 0) when `null` or `undefined` |
| LegacyProducts.OpenNewControls | src/app/components/products/products.component.ts:107 | the controls after `openNew`'s reset, one by one |
| LegacyProducts.OpenNewFacts | src/app/components/products/products.component.ts:107 | the reset empties the id, zeroes price and quantity, nulls the rest, and keeps the form well formed |
| LegacyProducts.OpenNewBlocksSave | src/app/components/products/products.component.ts:105-109 | the new-product form is well formed, untouched and pristine, and saving it as it is sends no request (the name is required) |
| LegacyProducts.EditPatchFacts | src/app/components/products/products.component.ts:122-128 | patching the row's values keeps the form well formed, shows them, and keeps the flags |
| LegacyProducts.ShowIdFacts | src/app/components/products/products.component.ts:129-133 | the id control shows the id as text, or `null` after a reset; the data fields are untouched |
| LegacyProducts.IdSetFacts | src/app/components/products/products.component.ts:130 | `setValue` shows the id's text and keeps the flags |
| LegacyProducts.IdResetFacts | src/app/components/products/products.component.ts:132 | `reset()` shows `null` with no flags |
| LegacyProducts.EditShowsRow | src/app/components/products/products.component.ts:122-133 | the edited form shows the row and its id, the data fields keep their flags, and the id keeps its flags only when set |
| LegacyProducts.ClearForNew | src/app/components/products/products.component.ts:107 | the form object shows the new-product values, pristine and well formed |
| LegacyProducts.FillForm | src/app/components/products/products.component.ts:122-133 | the form object shows the row and its id as `EditShowsRow` says |
| LegacyProducts.UpperUnchanged | src/app/components/products/products.component.ts:82 | a role name without lower-case letters is its own upper-case form |
| LegacyProducts.IsAdminUser | src/app/components/products/products.component.ts:82 | the admin flag holds exactly when `ROLE_ADMIN` or `ADMIN` is stored as written |
| LegacyProducts.ProductsComponent.constructor | src/app/components/products/products.component.ts:63-79 | no rows, not loading, dialog closed, nothing edited, not admin; the declared form |
| LegacyProducts.ProductsComponent.OnInit | src/app/components/products/products.component.ts:81-84 | the admin flag from either spelling of the role, then a load |
| LegacyProducts.ProductsComponent.Load | src/app/components/products/products.component.ts:86-103 | success: the aliased records replace the rows and loading ends; failure: the rows stay and loading stays on |
| LegacyProducts.ProductsComponent.OpenNew | src/app/components/products/products.component.ts:105-109 | nothing edited, dialog open, the form reset to the new-product values and pristine |
| LegacyProducts.ProductsComponent.Edit | src/app/components/products/products.component.ts:111-135 | the remapped row is edited, the dialog opens, and the form shows it |
| LegacyProducts.ProductsComponent.Save | src/app/components/products/products.component.ts:137-161 | sends `SaveRequestOf`; on success the dialog closes and the list reloads; otherwise nothing changes |
| LegacyProducts.ProductsComponent.Remove | src/app/components/products/products.component.ts:163-177 | once confirmed, deletes the row's aliased id; on success a reload replaces the rows, a failed reload keeps them and stays loading; otherwise the rows stay |
| Json.StringArrayRoundTrip | src/app/services/auth.service.ts:29-51 | the stored roles text parses back to the same list |
| Json.StringArrayDecodedCanonical | src/app/services/auth.service.ts:49-55 | roles text that parses is the encoding of what it parses to |
| Json.UserRoundTrip | src/app/core/services/auth.store.ts:69 | the stored user text parses back to the same user |
| Json.UserDecodedCanonical | src/app/core/services/auth.store.ts:118-121 | user text that parses is the encoding of the parsed user |
| Json.IntRoundTrip | src/app/core/services/auth.store.ts:69 | an integer's text parses back to it, whatever follows |
| Json.StringRoundTrip | src/app/core/services/auth.store.ts:69 | a string's JSON text parses back to it, whatever follows |
| Text.TrimSpec | src/app/core/services/form.service.ts:164 | `trim` removes exactly the leading and trailing white space and keeps the middle |
| Text.TrimIdempotent | src/app/core/services/form.service.ts:164 | trimming twice is trimming once |
| Text.JoinSplit | src/app/core/services/form.service.ts:32 | joining a split dotted name gives the name back |
| Text.SplitJoin | src/app/core/services/form.service.ts:89-91 | splitting a joined path of dot-free keys gives the keys back |
| Numerals.NumberText | src/app/features/products/services/product-api.service.ts:146 | a whole number is shown as its integer text |
| WebStorage.Storage.GetItem | src/app/core/services/auth.store.ts:115-116 | the stored text, or nothing when the key is absent |
| WebStorage.Storage.SetItem | src/app/core/services/auth.store.ts:68-69 | only that key changes |
| WebStorage.Storage.RemoveItem | src/app/core/services/auth.store.ts:83-84 | only that key disappears |

## Left out

- Asynchrony: the 100 ms polling and 3 s timeout of `canActivate` when the session is not yet authenticated become the `AwaitingSession` answer. RxJS plumbing, `retry(2)` and subscriptions are not modelled. Each HTTP call is reduced to the reply it finally yields, given as a parameter.
- Browser side effects: `router.navigate` and `window.location.href` become returned redirect values. Toasts, the PrimeNG confirmation dialog (its answer is a parameter of `Remove`), `console.log` and the PDF download of the legacy view are left out.
- `register` of the token storage service only posts to the server and is not part of this model. The same goes for the `onEdit`, `onDelete` and `onCancel` event emitters.
- Floating point: prices are exact `real`s, so sums and comparisons have no rounding. Ids, quantities and category ids of products and backend records are `int`s, so a fractional value there cannot be represented; only the values held by form controls are `real`s. `Numerals.NumberText` renders integers exactly and other values with at most two decimals, which differs from JavaScript for longer fractions. `NaN` is not modelled.
- Case mapping is ASCII-only (`toLowerCase` and `toLocaleUpperCase` leave other letters alone). `trim` uses the ECMAScript white-space set.
- JSON: only the canonical text the application writes (compact, with fields in its own order) is accepted by the parser. Valid JSON in any other layout counts as a parse failure.
- JSON strings: the encoder escapes only `"` and `\`, and the decoder accepts raw control characters. For text with control characters, the encoding therefore differs from `JSON.stringify`, which escapes them.
- The clock: `new Date()` in `transformDtoToProduct` is the parameter `now`, one instant per call.
- Forms: controls are fields or groups; `FormArray`, disabled-state bookkeeping, asynchronous validators and `resetForm` are not modelled. A server error for a group has no effect, whereas Angular would set it on the group. The `min` validator is applied to numbers only; a numeric string is not parsed.
- `Forms.PatchValue`, `Forms.ResetGroup`: values are applied to the group's own fields only, and a nested group is left alone. Angular would recurse into it. Every form of the application is flat.
- `Forms.Touch`, `Forms.Clear`, `Forms.AllErrors` (and `Forms.TouchFacts`, `Forms.ClearFacts`, `Forms.AllErrorsSound`, `Forms.AllErrorsComplete`, `Forms.AllErrorsKeys`): each entry's own control is visited. The source fetches each child with `form.get(key)` (form.service.ts:18, 85, 125), which splits the key on '.'. So for a control whose name contains a dot, the source reads a different control: the child `b` of a group `a` for the name `a.b`, or nothing at all when there is no group `a`. It then neither touches, clears nor reports that control. The model's promises hold for dot-free control names only; every control name in the application is dot-free.
- `Forms.AllErrorsMessage`: stated only for distinct, dot-free control names (see the line above). For other names no promise is made about which message a summary key carries.
- `Forms.Check`: `minLength` and `maxLength` count the characters of a Dafny string, which are Unicode scalar values. JavaScript's `.length` counts UTF-16 code units, so a character outside the Basic Multilingual Plane counts once here and twice in the source.
- `Forms.ApplyServerErrors`: the server errors are a list of pairs in the order of the error object's keys, not a JavaScript object.
- `LegacyProducts.BelowFive`: a numeric string quantity is treated by its trimmed emptiness only. JavaScript would convert "3" to 3 for `< 5`; the model does not parse the string and counts it as not low.
- `LegacyProducts.FilterText`: a name or category that is neither a string nor `null`/`undefined` is compared by its text. JavaScript's `toLowerCase` on a number name would throw instead.
- `LegacyProducts.SaveRequestOf`: the `'id' in value` deletion in `save` is dead code, because the payload never has an `id` field. The model's payload simply has none.
- Templates, styles, PrimeNG widgets, and the UI-only and wiring files (products page, login, register, admin dashboard, reports, routes, module) are not modelled.
