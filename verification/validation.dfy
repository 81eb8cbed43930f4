/**
 * The request-body validators: each body class lists, per field, the
 * class-validator decorators that the validation pipe checks before a
 * controller runs. A body is accepted iff every field passes its decorators.
 */
module Validation {

  /** A field of a parsed JSON body, as the validators see it. */
  datatype Value =
    | Absent              // undefined: the key is missing
    | Null
    | Bool(b: bool)
    | Num(n: real)        // a finite number
    | Str(s: string)
    | List(items: seq<Value>)
    | Object

  /** One decorator. */
  datatype Constraint =
    | IsString
    | IsNotEmpty
    | MinLength(min: nat)
    | MaxLength(max: nat)
    | IsNumber
    | Min(bound: real)
    | IsArray

  /** The decorators of one field; `optional` is `@IsOptional()`. */
  datatype Rule = Rule(optional: bool, constraints: seq<Constraint>)

  /** What each decorator accepts; the length checks fail on anything but a string. */
  predicate Holds(c: Constraint, v: Value) {
    match c
    case IsString => v.Str?
    case IsNotEmpty => !(v.Absent? || v.Null? || v == Str(""))
    case MinLength(min) => v.Str? && |v.s| >= min
    case MaxLength(max) => v.Str? && |v.s| <= max
    case IsNumber => v.Num?
    case Min(bound) => v.Num? && v.n >= bound
    case IsArray => v.List?
  }

  /** A field passes when it is optional and null or undefined, or when every decorator holds. */
  predicate Accepts(rule: Rule, v: Value) {
    || (rule.optional && (v.Absent? || v.Null?))
    || (forall c :: c in rule.constraints ==> Holds(c, v))
  }

  /** A string field with the given length bounds. */
  predicate StrLengthIn(v: Value, min: nat, max: nat) {
    v.Str? && min <= |v.s| <= max
  }

  // ---------------------------------------------------------------------
  // Card payment

  datatype CardPaymentBody = CardPaymentBody(
    orderId: Value,
    cardNumber: Value,
    cardHolderName: Value,
    expirationDate: Value,
    cvv: Value)

  const OrderIdRule := Rule(false, [IsNumber, IsNotEmpty])
  const CardNumberRule := Rule(false, [IsString, IsNotEmpty, MinLength(16), MaxLength(16)])
  const CardHolderNameRule := Rule(false, [IsString, IsNotEmpty, MaxLength(50)])
  const ExpirationDateRule := Rule(false, [IsString, IsNotEmpty, MinLength(5), MaxLength(7)])
  const CvvRule := Rule(false, [IsString, IsNotEmpty, MinLength(3), MaxLength(4)])

  predicate ValidCardPayment(b: CardPaymentBody) {
    && Accepts(OrderIdRule, b.orderId)
    && Accepts(CardNumberRule, b.cardNumber)
    && Accepts(CardHolderNameRule, b.cardHolderName)
    && Accepts(ExpirationDateRule, b.expirationDate)
    && Accepts(CvvRule, b.cvv)
  }

  /**
   * A card payment is valid iff the order id is a number, the card number has
   * exactly 16 characters, the holder's name 1 to 50, the expiry date 5 to 7
   * and the CVV 3 to 4; neither the date's format nor the CVV's digits are checked.
   */
  lemma CardPaymentValidIff(b: CardPaymentBody)
    ensures ValidCardPayment(b) <==>
      && b.orderId.Num?
      && StrLengthIn(b.cardNumber, 16, 16)
      && StrLengthIn(b.cardHolderName, 1, 50)
      && StrLengthIn(b.expirationDate, 5, 7)
      && StrLengthIn(b.cvv, 3, 4)
  {
    assert IsNumber in OrderIdRule.constraints;
    assert MinLength(16) in CardNumberRule.constraints && MaxLength(16) in CardNumberRule.constraints;
    assert IsNotEmpty in CardHolderNameRule.constraints && MaxLength(50) in CardHolderNameRule.constraints;
    assert MinLength(5) in ExpirationDateRule.constraints && MaxLength(7) in ExpirationDateRule.constraints;
    assert MinLength(3) in CvvRule.constraints && MaxLength(4) in CvvRule.constraints;
  }

  /** Any characters pass as an expiry date and a CVV, letters included. */
  lemma CardPaymentFormatsUnchecked()
    ensures ValidCardPayment(CardPaymentBody(Num(1.0), Str("abcdefghijklmnop"), Str("J"), Str("xx/yy"), Str("abc")))
  {
    CardPaymentValidIff(CardPaymentBody(Num(1.0), Str("abcdefghijklmnop"), Str("J"), Str("xx/yy"), Str("abc")));
  }

  // ---------------------------------------------------------------------
  // Register and login

  datatype CredentialsBody = CredentialsBody(username: Value, password: Value)

  const UsernameRule := Rule(false, [IsString, IsNotEmpty, MinLength(2), MaxLength(22)])
  const PasswordRule := Rule(false, [IsString, IsNotEmpty, MinLength(8), MaxLength(22)])

  predicate ValidRegister(b: CredentialsBody) {
    Accepts(UsernameRule, b.username) && Accepts(PasswordRule, b.password)
  }

  /** The login body extends the register body and adds nothing. */
  predicate ValidLogin(b: CredentialsBody) {
    ValidRegister(b)
  }

  /** Credentials are valid iff the username has 2 to 22 characters and the password 8 to 22. */
  lemma CredentialsValidIff(b: CredentialsBody)
    ensures ValidRegister(b) <==> StrLengthIn(b.username, 2, 22) && StrLengthIn(b.password, 8, 22)
    ensures ValidLogin(b) <==> ValidRegister(b)
  {
    assert MinLength(2) in UsernameRule.constraints && MaxLength(22) in UsernameRule.constraints;
    assert MinLength(8) in PasswordRule.constraints && MaxLength(22) in PasswordRule.constraints;
  }

  /** The constraints other than `x`, in order. */
  function Drop(cs: seq<Constraint>, x: Constraint): (r: seq<Constraint>)
    ensures forall c :: c in r <==> c in cs && c != x
    decreases |cs|
  {
    if cs == [] then []
    else if cs[0] == x then Drop(cs[1..], x)
    else [cs[0]] + Drop(cs[1..], x)
  }

  /** The rule without its `@IsNotEmpty()`. */
  function WithoutNotEmpty(rule: Rule): Rule {
    Rule(rule.optional, Drop(rule.constraints, IsNotEmpty))
  }

  /** A positive minimum length already rules out the empty string, so `@IsNotEmpty()` next to it changes nothing. */
  lemma NotEmptyImpliedByMinLength(rule: Rule, v: Value)
    requires exists n :: n >= 1 && MinLength(n) in rule.constraints
    ensures Accepts(rule, v) <==> Accepts(WithoutNotEmpty(rule), v)
  {
    var n :| n >= 1 && MinLength(n) in rule.constraints;
    if Accepts(WithoutNotEmpty(rule), v) && !(rule.optional && (v.Absent? || v.Null?)) {
      assert MinLength(n) in WithoutNotEmpty(rule).constraints;
      assert Holds(MinLength(n), v);
      assert Holds(IsNotEmpty, v);
    }
  }

  /** In particular for the username and the password. */
  lemma CredentialsNotEmptyRedundant(v: Value)
    ensures Accepts(UsernameRule, v) <==> Accepts(WithoutNotEmpty(UsernameRule), v)
    ensures Accepts(PasswordRule, v) <==> Accepts(WithoutNotEmpty(PasswordRule), v)
  {
    assert MinLength(2) in UsernameRule.constraints;
    NotEmptyImpliedByMinLength(UsernameRule, v);
    assert MinLength(8) in PasswordRule.constraints;
    NotEmptyImpliedByMinLength(PasswordRule, v);
  }

  // ---------------------------------------------------------------------
  // Create product

  datatype CreateProductBody = CreateProductBody(
    name: Value,
    description: Value,
    price: Value,
    category: Value,
    imageUrl: Value,
    specifications: Value)

  const ProductNameRule := Rule(false, [IsString, MaxLength(200), IsNotEmpty])
  const DescriptionRule := Rule(true, [IsString, MaxLength(1000)])
  const PriceRule := Rule(false, [IsNumber, IsNotEmpty])
  const CategoryRule := Rule(false, [IsString, IsNotEmpty])
  const ImageUrlRule := Rule(true, [IsString])
  const SpecificationsRule := Rule(true, [IsArray])

  predicate ValidCreateProduct(b: CreateProductBody) {
    && Accepts(ProductNameRule, b.name)
    && Accepts(DescriptionRule, b.description)
    && Accepts(PriceRule, b.price)
    && Accepts(CategoryRule, b.category)
    && Accepts(ImageUrlRule, b.imageUrl)
    && Accepts(SpecificationsRule, b.specifications)
  }

  /** A field is missing: null or undefined. */
  predicate Missing(v: Value) {
    v.Absent? || v.Null?
  }

  /**
   * A create body is valid iff the name has 1 to 200 characters, the
   * description (if any) at most 1000, the price is a number, the category a
   * non-empty string, the image URL (if any) a string and the specifications
   * (if any) an array.
   */
  lemma CreateProductValidIff(b: CreateProductBody)
    ensures ValidCreateProduct(b) <==>
      && StrLengthIn(b.name, 1, 200)
      && (Missing(b.description) || StrLengthIn(b.description, 0, 1000))
      && b.price.Num?
      && b.category.Str? && b.category.s != ""
      && (Missing(b.imageUrl) || b.imageUrl.Str?)
      && (Missing(b.specifications) || b.specifications.List?)
  {
    assert IsNotEmpty in ProductNameRule.constraints && MaxLength(200) in ProductNameRule.constraints;
    assert MaxLength(1000) in DescriptionRule.constraints;
    assert IsNumber in PriceRule.constraints;
    assert IsString in CategoryRule.constraints && IsNotEmpty in CategoryRule.constraints;
    assert IsString in ImageUrlRule.constraints;
    assert IsArray in SpecificationsRule.constraints;
  }

  /** The price has no sign or range check, and the specification entries are not looked at. */
  lemma AnyPriceAnySpecifications(price: real, specs: seq<Value>)
    ensures ValidCreateProduct(CreateProductBody(Str("Laptop"), Absent, Num(price), Str("Electronics"), Absent, List(specs)))
  {
    CreateProductValidIff(CreateProductBody(Str("Laptop"), Absent, Num(price), Str("Electronics"), Absent, List(specs)));
  }

  // ---------------------------------------------------------------------
  // Search

  datatype SearchBody = SearchBody(
    name: Value,
    category: Value,
    description: Value,
    minPrice: Value,
    maxPrice: Value)

  const SearchTextRule := Rule(true, [IsString])
  const PriceBoundRule := Rule(true, [IsNumber, Min(0.0)])

  predicate ValidSearch(b: SearchBody) {
    && Accepts(SearchTextRule, b.name)
    && Accepts(SearchTextRule, b.category)
    && Accepts(SearchTextRule, b.description)
    && Accepts(PriceBoundRule, b.minPrice)
    && Accepts(PriceBoundRule, b.maxPrice)
  }

  /** A price bound, when present, is a number at least 0. */
  predicate BoundOk(v: Value) {
    Missing(v) || (v.Num? && v.n >= 0.0)
  }

  /** A search is valid iff the text fields are strings when present and the bounds non-negative numbers when present. */
  lemma SearchValidIff(b: SearchBody)
    ensures ValidSearch(b) <==>
      && (Missing(b.name) || b.name.Str?)
      && (Missing(b.category) || b.category.Str?)
      && (Missing(b.description) || b.description.Str?)
      && BoundOk(b.minPrice)
      && BoundOk(b.maxPrice)
  {
    assert IsString in SearchTextRule.constraints;
    assert Min(0.0) in PriceBoundRule.constraints;
  }

  /** The empty query is valid, and so is a minimum above the maximum: no field is compared with another. */
  lemma SearchHasNoCrossFieldCheck()
    ensures ValidSearch(SearchBody(Absent, Absent, Absent, Absent, Absent))
    ensures ValidSearch(SearchBody(Absent, Absent, Absent, Num(100.0), Num(10.0)))
  {
    SearchValidIff(SearchBody(Absent, Absent, Absent, Num(100.0), Num(10.0)));
  }
}
