/**
 * The product request and response bodies: the field constraints of
 * `ProductBase` (shared unchanged by `ProductCreate`) and how a request body
 * is checked against them before a route sees it.
 */
module ProductSchema {
  import opened Wrappers

  /** Opaque creation time (`datetime.utcnow()` and database defaults). */
  type Timestamp = nat

  const NameMinLength: nat := 2
  const NameMaxLength: nat := 100
  const DescriptionMaxLength: nat := 500
  /** `price` must be strictly greater than this. */
  const PriceExclusiveMinimum: real := 0.0

  /** A product body that passed validation. `ProductCreate` adds nothing to it. */
  datatype ProductBase = ProductBase(
    name: string,
    description: Option<string>,
    price: real,
    categoryId: Option<int>)

  type ProductCreate = ProductBase

  /**
   * A product body as sent: `name` and `price` are required and may be
   * missing; `description` and `category_id` are optional and absent means None.
   */
  datatype ProductInput = ProductInput(
    name: Option<string>,
    description: Option<string>,
    price: Option<real>,
    categoryId: Option<int>)

  /** The kinds of field error the constraints produce. */
  datatype ErrorKind =
    | Missing
    | StringTooShort(minLength: nat)
    | StringTooLong(maxLength: nat)
    | GreaterThan(bound: real)

  /** The constrained body fields `name`, `description` and `price`, as an error locates them. */
  datatype Field = Name | Description | Price

  datatype FieldError = FieldError(field: Field, kind: ErrorKind)

  /** The `ProductBase` constraints on a complete body. */
  predicate ValidBase(p: ProductBase) {
    && NameMinLength <= |p.name| <= NameMaxLength
    && (p.description.Some? ==> |p.description.value| <= DescriptionMaxLength)
    && p.price > PriceExclusiveMinimum
  }

  /** A body is acceptable when its required fields are present and satisfy the constraints. */
  predicate Acceptable(raw: ProductInput) {
    && raw.name.Some?
    && raw.price.Some?
    && ValidBase(ProductBase(raw.name.value, raw.description, raw.price.value, raw.categoryId))
  }

  function NameErrors(name: Option<string>): seq<FieldError> {
    match name
    case None => [FieldError(Name, Missing)]
    case Some(s) =>
      if |s| < NameMinLength then [FieldError(Name, StringTooShort(NameMinLength))]
      else if |s| > NameMaxLength then [FieldError(Name, StringTooLong(NameMaxLength))]
      else []
  }

  function DescriptionErrors(description: Option<string>): seq<FieldError> {
    match description
    case None => []
    case Some(s) =>
      if |s| > DescriptionMaxLength then [FieldError(Description, StringTooLong(DescriptionMaxLength))]
      else []
  }

  function PriceErrors(price: Option<real>): seq<FieldError> {
    match price
    case None => [FieldError(Price, Missing)]
    case Some(x) =>
      if x <= PriceExclusiveMinimum then [FieldError(Price, GreaterThan(PriceExclusiveMinimum))]
      else []
  }

  /**
   * Every error of the body, field by field in declaration order, each field
   * reported independently of the others and at most once.
   */
  function Errors(raw: ProductInput): (errs: seq<FieldError>)
    ensures FieldError(Name, Missing) in errs <==> raw.name.None?
    ensures FieldError(Name, StringTooShort(NameMinLength)) in errs
        <==> raw.name.Some? && |raw.name.value| < NameMinLength
    ensures FieldError(Name, StringTooLong(NameMaxLength)) in errs
        <==> raw.name.Some? && |raw.name.value| > NameMaxLength
    ensures FieldError(Description, StringTooLong(DescriptionMaxLength)) in errs
        <==> raw.description.Some? && |raw.description.value| > DescriptionMaxLength
    ensures FieldError(Price, Missing) in errs <==> raw.price.None?
    ensures FieldError(Price, GreaterThan(PriceExclusiveMinimum)) in errs
        <==> raw.price.Some? && raw.price.value <= PriceExclusiveMinimum
    ensures forall e :: e in errs ==>
      e in {FieldError(Name, Missing), FieldError(Name, StringTooShort(NameMinLength)),
            FieldError(Name, StringTooLong(NameMaxLength)),
            FieldError(Description, StringTooLong(DescriptionMaxLength)),
            FieldError(Price, Missing), FieldError(Price, GreaterThan(PriceExclusiveMinimum))}
    ensures forall i, j :: 0 <= i < j < |errs| ==> errs[i].field != errs[j].field
    ensures |errs| <= 3
  {
    NameErrors(raw.name) + DescriptionErrors(raw.description) + PriceErrors(raw.price)
  }

  /**
   * Parse a body into a `ProductCreate`: it succeeds exactly on acceptable
   * bodies, keeps every field as sent, and otherwise reports the errors.
   */
  function Validate(raw: ProductInput): (r: Result<ProductCreate, seq<FieldError>>)
    ensures r.Success? <==> Acceptable(raw)
    ensures r.Success? ==> ValidBase(r.value)
    ensures r.Success? ==>
      && Some(r.value.name) == raw.name
      && r.value.description == raw.description
      && Some(r.value.price) == raw.price
      && r.value.categoryId == raw.categoryId
    ensures r.Failure? ==> r.error != [] && r.error == Errors(raw)
  {
    var errs := Errors(raw);
    if errs == [] then
      Success(ProductBase(raw.name.value, raw.description, raw.price.value, raw.categoryId))
    else
      Failure(errs)
  }

  /** `CategoryResponse`: a category's name, id and creation time. */
  datatype CategoryResponse = CategoryResponse(name: string, id: nat, createdAt: Timestamp)

  /**
   * `ProductResponse`: the `ProductBase` fields plus `id`, `is_active` and the
   * product's category, when it has one.
   */
  datatype ProductResponse = ProductResponse(
    name: string,
    description: Option<string>,
    price: real,
    categoryId: Option<int>,
    id: nat,
    isActive: bool,
    category: Option<CategoryResponse>)
  {
    function Base(): ProductBase {
      ProductBase(name, description, price, categoryId)
    }
  }
}
