/**
 * The product API service: the mapping between the backend's product records
 * and the client's, the message a failed call is reported with, and what each
 * call does to the product store. The reply of each HTTP call (after its
 * retries) is a parameter; so is the instant the clock would give.
 */
module ProductApi {
  import opened Optional
  import opened Seqs
  import opened Numerals
  import opened AppConstants
  import opened ProductModel
  import opened ProductStores
  import opened Http

  // ---- error messages -------------------------------------------------------------

  const InvalidDataMessage := "Datos inválidos"
  const NotAuthorizedMessage := "No autorizado"
  const ForbiddenMessage := "Sin permisos"
  const NotFoundMessage := "Producto no encontrado"
  const ConflictMessage := "El producto ya existe"
  const ServerErrorMessage := "Error del servidor"

  /** The statuses `handleError` has a message of its own for. */
  predicate KnownStatus(status: int) {
    status == 0 || status == 400 || status == 401 || status == 403 || status == 404 || status == 409 || status == 500
  }

  /** The status part of `handleError`'s table. */
  function StatusMessage(status: int): string {
    if status == 0 then NetworkMessage
    else if status == 400 then InvalidDataMessage
    else if status == 401 then NotAuthorizedMessage
    else if status == 403 then ForbiddenMessage
    else if status == 404 then NotFoundMessage
    else if status == 409 then ConflictMessage
    else if status == 500 then ServerErrorMessage
    else GenericMessage
  }

  /** The message `handleError` reports: a non-empty message in the error body wins over the status. */
  function ApiErrorMessage(e: HttpError): (r: string)
    ensures e.message.Some? && e.message.value != "" ==> r == e.message.value
    ensures !(e.message.Some? && e.message.value != "") ==> r == StatusMessage(e.status)
  {
    if e.message.Some? && e.message.value != "" then e.message.value else StatusMessage(e.status)
  }

  /** Every known status has its own message, and every other status the generic one. */
  lemma StatusTable(status: int, other: int)
    ensures StatusMessage(status) == GenericMessage <==> !KnownStatus(status)
    ensures KnownStatus(status) && KnownStatus(other) && status != other ==> StatusMessage(status) != StatusMessage(other)
    ensures StatusMessage(0) == "Error de conexión" && StatusMessage(404) == "Producto no encontrado"
  {
  }

  /** Without a message from the server, the status decides; with one, the status is irrelevant. */
  lemma ServerMessageWins(status: int, other: int, message: string)
    requires message != ""
    ensures ApiErrorMessage(HttpError(status, Some(message))) == ApiErrorMessage(HttpError(other, Some(message)))
    ensures ApiErrorMessage(HttpError(status, None)) == ApiErrorMessage(HttpError(status, Some("")))
    ensures ApiErrorMessage(HttpError(status, None)) == StatusMessage(status)
  {
  }

  // ---- record mapping -----------------------------------------------------------------

  /** `transformDtoToProduct`: renamed fields, and both timestamps set to the current instant. */
  function TransformDtoToProduct(dto: ProductDto, now: int): (p: Product)
    ensures p.id == dto.productId && p.name == dto.productName
    ensures p.createdAt == Some(now) && p.updatedAt == Some(now)
  {
    Product(dto.productId, dto.productName, dto.description, dto.price, dto.quantity, dto.categoryId, Some(now), Some(now))
  }

  /** The backend's form of a product (the reverse renaming), as an independent reference. */
  function ProductToDto(p: Product): ProductDto {
    ProductDto(p.id, p.name, p.description, p.price, p.quantity, p.categoryId)
  }

  /** The mapping loses nothing of the record and invents only the timestamps. */
  lemma DtoRoundTrip(dto: ProductDto, p: Product, now: int)
    ensures ProductToDto(TransformDtoToProduct(dto, now)) == dto
    ensures TransformDtoToProduct(ProductToDto(p), now) == p.(createdAt := Some(now), updatedAt := Some(now))
  {
  }

  /** Two records that differ only in the backend's data map to different products. */
  lemma DtoMappingInjective(a: ProductDto, b: ProductDto, now: int)
    requires TransformDtoToProduct(a, now) == TransformDtoToProduct(b, now)
    ensures a == b
  {
    DtoRoundTrip(a, TransformDtoToProduct(a, now), now);
    DtoRoundTrip(b, TransformDtoToProduct(b, now), now);
  }

  /**
   * `transformProductToRequest`: a falsy or missing field becomes `''`, `''`,
   * `'0'`, `0` or `0`; the price goes as its text.
   */
  function TransformProductToRequest(patch: ProductPatch): (r: CreateProductRequest)
    ensures patch.name.None? ==> r.name == ""
    ensures patch.price.None? ==> r.price == "0"
    ensures patch.quantity.None? ==> r.quantity == 0.0
    ensures patch.categoryId.None? ==> r.category == 0.0
  {
    CreateProductRequest(
      if patch.name.Some? && patch.name.value != "" then patch.name.value else "",
      if patch.description.Some? && patch.description.value != "" then patch.description.value else "",
      if patch.price.Some? && NumberText(patch.price.value) != "" then NumberText(patch.price.value) else "0",
      if patch.quantity.Some? && patch.quantity.value != 0 then patch.quantity.value as real else 0.0,
      if patch.categoryId.Some? && patch.categoryId.value != 0 then patch.categoryId.value as real else 0.0)
  }

  /** A patch carrying a whole product gives that product's fields. */
  function FullPatch(p: Product): ProductPatch {
    ProductPatch(Some(p.id), Some(p.name), Some(p.description), Some(p.price), Some(p.quantity), Some(p.categoryId))
  }

  /**
   * The falsy defaults coincide with the defaults for missing fields: every
   * field is the given value, or its default when absent.
   */
  lemma RequestDefaults(patch: ProductPatch)
    ensures TransformProductToRequest(patch) == CreateProductRequest(
      patch.name.GetOr(""), patch.description.GetOr(""),
      if patch.price.Some? then NumberText(patch.price.value) else "0",
      patch.quantity.GetOr(0) as real, patch.categoryId.GetOr(0) as real)
  {
    if patch.price.Some? {
      NonEmptyNumberText(patch.price.value);
    }
  }

  lemma NonEmptyNumberText(x: real)
    ensures NumberText(x) != ""
  {
  }

  /** A whole product goes out with its own fields. */
  lemma RequestOfProduct(p: Product)
    ensures TransformProductToRequest(FullPatch(p)) ==
      CreateProductRequest(p.name, p.description, NumberText(p.price), p.quantity as real, p.categoryId as real)
  {
    RequestDefaults(FullPatch(p));
  }

  // ---- the service ---------------------------------------------------------------------

  class ProductApiService {
    const store: ProductStore

    constructor (store: ProductStore)
      ensures this.store == store
    {
      this.store := store;
    }

    /** `handleError`: the message is recorded in the store, which ends the operation. */
    method HandleError(error: HttpError) returns (message: string)
      modifies store
      ensures message == ApiErrorMessage(error)
      ensures store.state == old(store.state).(error := Some(message), loading := false)
    {
      message := ApiErrorMessage(error);
      store.SetError(Some(message));
    }

    /** `loadProducts(filters)`: the mapped list replaces the store's, and given filters are merged in. */
    method LoadProducts(filters: Option<ProductFilters>, reply: Result<seq<ProductDto>, HttpError>, now: int)
      returns (r: Result<seq<Product>, string>)
      modifies store
      ensures reply.Ok? ==> r == Ok(Map(reply.value, (d: ProductDto) => TransformDtoToProduct(d, now)))
      ensures reply.Ok? ==> store.state == old(store.state).(
        products := r.value, loading := false, error := None,
        filters := if filters.Some? then MergeFilters(old(store.state).filters, filters.value) else old(store.state).filters)
      ensures reply.Err? ==> r == Err(ApiErrorMessage(reply.error))
      ensures reply.Err? ==> store.state == old(store.state).(loading := false, error := Some(r.error))
    {
      store.SetLoading(true);
      match reply {
        case Ok(dtos) =>
          var products := Map(dtos, (d: ProductDto) => TransformDtoToProduct(d, now));
          store.SetProducts(products);
          if filters.Some? {
            store.SetFilters(filters.value);
          }
          r := Ok(products);
        case Err(e) =>
          var message := HandleError(e);
          r := Err(message);
      }
    }

    /** `createProduct`: the created product is appended to the store. */
    method CreateProduct(request: CreateProductRequest, reply: Result<ProductDto, HttpError>, now: int)
      returns (r: Result<Product, string>)
      modifies store
      ensures reply.Ok? ==> r == Ok(TransformDtoToProduct(reply.value, now))
      ensures reply.Ok? ==> store.state == old(store.state).(
        products := old(store.state).products + [r.value], loading := false, error := None)
      ensures reply.Ok? && ProductStores.GetProductById(old(store.state), r.value.id).None? ==>
        ProductStores.GetProductById(store.state, r.value.id) == Some(r.value)
      ensures reply.Err? ==> r == Err(ApiErrorMessage(reply.error))
      ensures reply.Err? ==> store.state == old(store.state).(loading := false, error := Some(r.error))
    {
      store.SetLoading(true);
      match reply {
        case Ok(dto) =>
          var product := TransformDtoToProduct(dto, now);
          ghost var before := store.state;
          store.AddProduct(product);
          store.SetLoading(false);
          if ProductStores.GetProductById(old(store.state), product.id).None? {
            AppendedFound(before, product);
          }
          r := Ok(product);
        case Err(e) =>
          var message := HandleError(e);
          r := Err(message);
      }
    }

    /**
     * `updateProduct(id, request)`: the returned product replaces the stored
     * products with its id (the id of the reply, not the one in the URL).
     */
    method UpdateProduct(id: int, request: CreateProductRequest, reply: Result<ProductDto, HttpError>, now: int)
      returns (r: Result<Product, string>)
      modifies store
      ensures reply.Ok? ==> r == Ok(TransformDtoToProduct(reply.value, now))
      ensures reply.Ok? ==> store.state == old(store.state).(
        products := Replaced(old(store.state).products, r.value), loading := false, error := None)
      ensures reply.Ok? && ProductStores.GetProductById(old(store.state), r.value.id).Some? ==>
        ProductStores.GetProductById(store.state, r.value.id) == Some(r.value)
      ensures reply.Err? ==> r == Err(ApiErrorMessage(reply.error))
      ensures reply.Err? ==> store.state == old(store.state).(loading := false, error := Some(r.error))
    {
      store.SetLoading(true);
      match reply {
        case Ok(dto) =>
          var product := TransformDtoToProduct(dto, now);
          ghost var before := store.state;
          store.UpdateProduct(product);
          store.SetLoading(false);
          if ProductStores.GetProductById(old(store.state), product.id).Some? {
            ReplacedThenFound(before, product);
          }
          r := Ok(product);
        case Err(e) =>
          var message := HandleError(e);
          r := Err(message);
      }
    }

    /** `deleteProduct(id)`: the products with that id leave the store. */
    method DeleteProduct(id: int, reply: Result<(), HttpError>) returns (r: Result<(), string>)
      modifies store
      ensures reply.Ok? ==> r.Ok? && store.state == old(store.state).(
        products := Removed(old(store.state).products, id), loading := false, error := None)
      ensures reply.Ok? ==> ProductStores.GetProductById(store.state, id).None?
      ensures reply.Err? ==> r == Err(ApiErrorMessage(reply.error))
      ensures reply.Err? ==> store.state == old(store.state).(loading := false, error := Some(r.error))
    {
      store.SetLoading(true);
      match reply {
        case Ok(_) =>
          store.RemoveProduct(id);
          store.SetLoading(false);
          RemovedNotFound(old(store.state).(loading := true, error := None), id);
          r := Ok(());
        case Err(e) =>
          var message := HandleError(e);
          r := Err(message);
      }
    }

    /** `getLowStockProducts`: the mapped list, with the store touched only on failure. */
    method GetLowStockProducts(reply: Result<seq<ProductDto>, HttpError>, now: int) returns (r: Result<seq<Product>, string>)
      modifies store
      ensures reply.Ok? ==> r == Ok(Map(reply.value, (d: ProductDto) => TransformDtoToProduct(d, now)))
      ensures reply.Ok? ==> store.state == old(store.state)
      ensures reply.Err? ==> r == Err(ApiErrorMessage(reply.error))
      ensures reply.Err? ==> store.state == old(store.state).(loading := false, error := Some(r.error))
    {
      match reply {
        case Ok(dtos) =>
          r := Ok(Map(dtos, (d: ProductDto) => TransformDtoToProduct(d, now)));
        case Err(e) =>
          var message := HandleError(e);
          r := Err(message);
      }
    }

    /**
     * `getProductById(id)`: the store's product when it has one, without a
     * request; otherwise the fetched one, with a 404 answered by nothing and
     * any other failure reported.
     */
    method GetProductById(id: int, reply: Result<ProductDto, HttpError>, now: int)
      returns (r: Result<Option<Product>, string>, requested: bool)
      modifies store
      ensures !requested <==> ProductStores.GetProductById(old(store.state), id).Some?
      ensures !requested ==> r == Ok(ProductStores.GetProductById(old(store.state), id)) && store.state == old(store.state)
      ensures requested && reply.Ok? ==> r == Ok(Some(TransformDtoToProduct(reply.value, now))) && store.state == old(store.state)
      ensures requested && reply.Err? && reply.error.status == 404 ==> r == Ok(None) && store.state == old(store.state)
      ensures requested && reply.Err? && reply.error.status != 404 ==>
        r == Err(ApiErrorMessage(reply.error)) && store.state == old(store.state).(loading := false, error := Some(r.error))
    {
      var cached := ProductStores.GetProductById(store.state, id);
      if cached.Some? {
        return Ok(cached), false;
      }
      requested := true;
      match reply {
        case Ok(dto) =>
          r := Ok(Some(TransformDtoToProduct(dto, now)));
        case Err(e) =>
          if e.status == 404 {
            r := Ok(None);
          } else {
            var message := HandleError(e);
            r := Err(message);
          }
      }
    }
  }
}
