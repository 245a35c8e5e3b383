/** The product records exchanged with the backend and kept in the product store. */
module ProductModel {
  import opened Optional

  /** Timestamps are instants supplied by the caller (the clock is not modelled). */
  datatype Product = Product(
    id: int, name: string, description: string, price: real, quantity: int, categoryId: int,
    createdAt: Option<int>, updatedAt: Option<int>)

  /** `Partial<Product>`: every field may be absent. */
  datatype ProductPatch = ProductPatch(
    id: Option<int>, name: Option<string>, description: Option<string>, price: Option<real>,
    quantity: Option<int>, categoryId: Option<int>)

  /** The body of a create or update request; the backend wants the price as text. */
  datatype CreateProductRequest = CreateProductRequest(
    name: string, description: string, price: string, quantity: real, category: real)

  /** The product as the backend sends it. */
  datatype ProductDto = ProductDto(
    productId: int, productName: string, description: string, price: real, quantity: int, categoryId: int)

  /** Optional filters over the product list; an absent field filters nothing. */
  datatype ProductFilters = ProductFilters(
    name: Option<string>, categoryId: Option<int>, minPrice: Option<real>, maxPrice: Option<real>,
    lowStock: Option<bool>)

  const NoFilters := ProductFilters(None, None, None, None, None)

  datatype ProductState = ProductState(
    products: seq<Product>, loading: bool, error: Option<string>, filters: ProductFilters)

  const InitialProductState := ProductState([], false, None, NoFilters)
}

/** The user and authentication records. */
module AuthModel {
  import opened Optional

  datatype User = User(id: int, username: string, email: string, document: string, roles: seq<string>)

  /** `Partial<User>`: every field may be absent. */
  datatype UserPatch = UserPatch(
    id: Option<int>, username: Option<string>, email: Option<string>, document: Option<string>,
    roles: Option<seq<string>>)

  /** `{ ...user, ...patch }`: the fields the patch supplies override, the others are kept. */
  function MergeUser(u: User, p: UserPatch): (r: User)
    ensures p == UserPatch(None, None, None, None, None) ==> r == u
    ensures p.id.Some? ==> r.id == p.id.value
    ensures p.id.None? ==> r.id == u.id
    ensures p.username.Some? ==> r.username == p.username.value
    ensures p.username.None? ==> r.username == u.username
    ensures p.email.Some? ==> r.email == p.email.value
    ensures p.email.None? ==> r.email == u.email
    ensures p.document.Some? ==> r.document == p.document.value
    ensures p.document.None? ==> r.document == u.document
    ensures p.roles.Some? ==> r.roles == p.roles.value
    ensures p.roles.None? ==> r.roles == u.roles
  {
    User(p.id.GetOr(u.id), p.username.GetOr(u.username), p.email.GetOr(u.email),
         p.document.GetOr(u.document), p.roles.GetOr(u.roles))
  }

  datatype AuthState = AuthState(
    user: Option<User>, token: Option<string>, isAuthenticated: bool, loading: bool, error: Option<string>)

  const InitialAuthState := AuthState(None, None, false, false, None)

  /** The `data` a route declares: the roles it requires and whether all of them are needed. */
  datatype RouteData = RouteData(title: Option<string>, roles: Option<seq<string>>, requireAll: Option<bool>)
}
