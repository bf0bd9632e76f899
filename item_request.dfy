/** The item request form and its declared field constraints, as an explicit
    validator. As in Bean Validation, `@Size` and `@Min` accept a null value,
    so a missing field reports only its required-field error. */
module ItemRequests {
  import opened Wrappers

  /** The form; `None` is a field left null. */
  datatype ItemRequestDto = ItemRequestDto(
    name: Option<string>,
    price: Option<int>,
    inventory: Option<int>,
    keyword: Option<string>,
    categoryIds: Option<seq<int>>)

  datatype FieldError = FieldError(field: string, message: string)

  const NAME_REQUIRED := "Name is a required field."
  const NAME_SIZE := "Name must be between 3 and 50 characters."
  const PRICE_REQUIRED := "Price is a required field."
  const PRICE_MIN := "Price must be greater than or equal to 0."
  const INVENTORY_REQUIRED := "Inventory is a required field."
  const INVENTORY_MIN := "Inventory must be greater than or equal to 0."
  const KEYWORD_REQUIRED := "Keyword is a required field."
  const KEYWORD_SIZE := "Keyword must be between 3 and 50 characters."
  const CATEGORY_IDS_EMPTY := "Category IDs cannot be empty."

  // ---------------------------------------------------------------------
  // The declared constraints, one by one

  datatype Constraint =
    | NameNotNull | NameSize
    | PriceNotNull | PriceMin
    | InventoryNotNull | InventoryMin
    | KeywordNotNull | KeywordSize
    | CategoryIdsNotEmpty

  /** The constraints in declaration order. */
  const CONSTRAINTS: seq<Constraint> := [
    NameNotNull, NameSize, PriceNotNull, PriceMin, InventoryNotNull, InventoryMin,
    KeywordNotNull, KeywordSize, CategoryIdsNotEmpty]

  /** `@Size(min, max)`: null, or a length within the bounds. */
  predicate SizeWithin(value: Option<string>, min: int, max: int) {
    value.None? || min <= |value.value| <= max
  }

  /** `@Min(min)`: null, or at least the bound. */
  predicate AtLeast(value: Option<int>, min: int) {
    value.None? || value.value >= min
  }

  predicate Holds(c: Constraint, dto: ItemRequestDto) {
    match c
    case NameNotNull => dto.name.Some?
    case NameSize => SizeWithin(dto.name, 3, 50)
    case PriceNotNull => dto.price.Some?
    case PriceMin => AtLeast(dto.price, 0)
    case InventoryNotNull => dto.inventory.Some?
    case InventoryMin => AtLeast(dto.inventory, 0)
    case KeywordNotNull => dto.keyword.Some?
    case KeywordSize => SizeWithin(dto.keyword, 3, 50)
    case CategoryIdsNotEmpty => dto.categoryIds.Some? && |dto.categoryIds.value| > 0
  }

  /** The error a violated constraint reports. */
  function ErrorOf(c: Constraint): FieldError {
    match c
    case NameNotNull => FieldError("name", NAME_REQUIRED)
    case NameSize => FieldError("name", NAME_SIZE)
    case PriceNotNull => FieldError("price", PRICE_REQUIRED)
    case PriceMin => FieldError("price", PRICE_MIN)
    case InventoryNotNull => FieldError("inventory", INVENTORY_REQUIRED)
    case InventoryMin => FieldError("inventory", INVENTORY_MIN)
    case KeywordNotNull => FieldError("keyword", KEYWORD_REQUIRED)
    case KeywordSize => FieldError("keyword", KEYWORD_SIZE)
    case CategoryIdsNotEmpty => FieldError("categoryIds", CATEGORY_IDS_EMPTY)
  }

  /** The form satisfies every declared constraint. */
  predicate IsValid(dto: ItemRequestDto) {
    forall c :: Holds(c, dto)
  }

  /** No entry of `s` appears twice. */
  predicate NoRepeats<T(==)>(s: seq<T>) {
    forall i, j | 0 <= i < j < |s| :: s[i] != s[j]
  }

  /** The errors of the constraints in `cs` that the form violates, in order. */
  function Violations(dto: ItemRequestDto, cs: seq<Constraint>): seq<FieldError> {
    if cs == [] then []
    else (if Holds(cs[0], dto) then [] else [ErrorOf(cs[0])]) + Violations(dto, cs[1..])
  }

  /** The entries of `Violations` are exactly the errors of the violated constraints of `cs`,
      each reported once when no constraint is listed twice. */
  lemma {:induction false} ViolationsExactly(dto: ItemRequestDto, cs: seq<Constraint>)
    requires NoRepeats(cs)
    ensures |Violations(dto, cs)| <= |cs|
    ensures NoRepeats(Violations(dto, cs))
    ensures forall e :: e in Violations(dto, cs) <==> exists c :: c in cs && !Holds(c, dto) && e == ErrorOf(c)
  {
    if cs != [] {
      ViolationsExactly(dto, cs[1..]);
      var rest := Violations(dto, cs[1..]);
      if !Holds(cs[0], dto) {
        forall e | e in rest ensures e != ErrorOf(cs[0]) {
          var c :| c in cs[1..] && !Holds(c, dto) && e == ErrorOf(c);
          var k :| 0 <= k < |cs[1..]| && cs[1..][k] == c;
          assert cs[k + 1] == c;
          ErrorOfInjective(c, cs[0]);
        }
        var v := Violations(dto, cs);
        assert v == [ErrorOf(cs[0])] + rest;
        forall i, j | 0 <= i < j < |v| ensures v[i] != v[j] {
          assert v[j] == rest[j - 1] && rest[j - 1] in rest;
          if i > 0 {
            assert v[i] == rest[i - 1];
          }
        }
      }
      forall e ensures e in Violations(dto, cs) <==> exists c :: c in cs && !Holds(c, dto) && e == ErrorOf(c)
      {
        if e in Violations(dto, cs) && e !in Violations(dto, cs[1..]) {
          assert cs[0] in cs && !Holds(cs[0], dto) && e == ErrorOf(cs[0]);
        }
        if exists c :: c in cs && !Holds(c, dto) && e == ErrorOf(c) {
          var c :| c in cs && !Holds(c, dto) && e == ErrorOf(c);
          if c != cs[0] {
            assert c in cs[1..];
          }
        }
      }
    }
  }

  /** Distinct constraints report distinct errors. */
  lemma ErrorOfInjective(c: Constraint, d: Constraint)
    ensures ErrorOf(c) == ErrorOf(d) ==> c == d
  {
  }

  // ---------------------------------------------------------------------
  // The validator

  /** Every constraint is among the declared ones. */
  lemma AllConstraintsDeclared(c: Constraint)
    ensures c in CONSTRAINTS
  {
    match c
    case NameNotNull => assert CONSTRAINTS[0] == c;
    case NameSize => assert CONSTRAINTS[1] == c;
    case PriceNotNull => assert CONSTRAINTS[2] == c;
    case PriceMin => assert CONSTRAINTS[3] == c;
    case InventoryNotNull => assert CONSTRAINTS[4] == c;
    case InventoryMin => assert CONSTRAINTS[5] == c;
    case KeywordNotNull => assert CONSTRAINTS[6] == c;
    case KeywordSize => assert CONSTRAINTS[7] == c;
    case CategoryIdsNotEmpty => assert CONSTRAINTS[8] == c;
  }

  /** Checking the declared constraints reports a constraint's error exactly
      when it is violated, and nothing else. */
  lemma DeclaredViolations(dto: ItemRequestDto)
    ensures forall c :: ErrorOf(c) in Violations(dto, CONSTRAINTS) <==> !Holds(c, dto)
    ensures forall e | e in Violations(dto, CONSTRAINTS) :: exists c :: !Holds(c, dto) && e == ErrorOf(c)
    ensures Violations(dto, CONSTRAINTS) == [] <==> IsValid(dto)
    ensures |Violations(dto, CONSTRAINTS)| <= |CONSTRAINTS|
    ensures NoRepeats(Violations(dto, CONSTRAINTS))
  {
    var errors := Violations(dto, CONSTRAINTS);
    ViolationsExactly(dto, CONSTRAINTS);
    forall c ensures ErrorOf(c) in errors <==> !Holds(c, dto) {
      AllConstraintsDeclared(c);
      if ErrorOf(c) in errors {
        var d :| d in CONSTRAINTS && !Holds(d, dto) && ErrorOf(c) == ErrorOf(d);
        ErrorOfInjective(c, d);
      }
    }
    if errors != [] {
      assert errors[0] in errors;
    }
  }

  /** Validation of the whole form, constraint by constraint in declaration
      order: it reports the error of a constraint exactly when the constraint
      is violated, nothing else, no error twice, and nothing exactly when the
      form is valid. */
  function Validate(dto: ItemRequestDto): (errors: seq<FieldError>)
    ensures forall c :: ErrorOf(c) in errors <==> !Holds(c, dto)
    ensures forall e | e in errors :: exists c :: !Holds(c, dto) && e == ErrorOf(c)
    ensures errors == [] <==> IsValid(dto)
    ensures |errors| <= |CONSTRAINTS|
    ensures forall i, j | 0 <= i < j < |errors| :: errors[i] != errors[j]
  {
    DeclaredViolations(dto);
    Violations(dto, CONSTRAINTS)
  }

  // ---------------------------------------------------------------------
  // What each field reports

  /** A null field reports that it is required and not its size or minimum,
      which treat null as valid. */
  lemma NullReportsOnlyRequired(dto: ItemRequestDto)
    ensures dto.name.None? ==>
              FieldError("name", NAME_REQUIRED) in Validate(dto) && FieldError("name", NAME_SIZE) !in Validate(dto)
    ensures dto.price.None? ==>
              FieldError("price", PRICE_REQUIRED) in Validate(dto) && FieldError("price", PRICE_MIN) !in Validate(dto)
    ensures dto.inventory.None? ==>
              FieldError("inventory", INVENTORY_REQUIRED) in Validate(dto)
              && FieldError("inventory", INVENTORY_MIN) !in Validate(dto)
    ensures dto.keyword.None? ==>
              FieldError("keyword", KEYWORD_REQUIRED) in Validate(dto)
              && FieldError("keyword", KEYWORD_SIZE) !in Validate(dto)
    ensures dto.categoryIds.None? ==> FieldError("categoryIds", CATEGORY_IDS_EMPTY) in Validate(dto)
  {
    assert ErrorOf(NameNotNull) == FieldError("name", NAME_REQUIRED);
    assert ErrorOf(NameSize) == FieldError("name", NAME_SIZE);
    assert ErrorOf(PriceNotNull) == FieldError("price", PRICE_REQUIRED);
    assert ErrorOf(PriceMin) == FieldError("price", PRICE_MIN);
    assert ErrorOf(InventoryNotNull) == FieldError("inventory", INVENTORY_REQUIRED);
    assert ErrorOf(InventoryMin) == FieldError("inventory", INVENTORY_MIN);
    assert ErrorOf(KeywordNotNull) == FieldError("keyword", KEYWORD_REQUIRED);
    assert ErrorOf(KeywordSize) == FieldError("keyword", KEYWORD_SIZE);
    assert ErrorOf(CategoryIdsNotEmpty) == FieldError("categoryIds", CATEGORY_IDS_EMPTY);
  }

  /** A present name or keyword reports its size error exactly when its length
      is outside 3..50, so lengths 3 and 50 are accepted; a present price or
      inventory reports its minimum error exactly when negative, so 0 is accepted;
      category ids report exactly when absent or empty. */
  lemma PresentFieldBounds(dto: ItemRequestDto)
    ensures dto.name.Some? ==>
              (FieldError("name", NAME_SIZE) in Validate(dto) <==> !(3 <= |dto.name.value| <= 50))
    ensures dto.keyword.Some? ==>
              (FieldError("keyword", KEYWORD_SIZE) in Validate(dto) <==> !(3 <= |dto.keyword.value| <= 50))
    ensures dto.price.Some? ==>
              (FieldError("price", PRICE_MIN) in Validate(dto) <==> dto.price.value < 0)
    ensures dto.inventory.Some? ==>
              (FieldError("inventory", INVENTORY_MIN) in Validate(dto) <==> dto.inventory.value < 0)
    ensures FieldError("categoryIds", CATEGORY_IDS_EMPTY) in Validate(dto) <==>
              dto.categoryIds.None? || dto.categoryIds.value == []
  {
    assert ErrorOf(NameSize) == FieldError("name", NAME_SIZE);
    assert ErrorOf(KeywordSize) == FieldError("keyword", KEYWORD_SIZE);
    assert ErrorOf(PriceMin) == FieldError("price", PRICE_MIN);
    assert ErrorOf(InventoryMin) == FieldError("inventory", INVENTORY_MIN);
    assert ErrorOf(CategoryIdsNotEmpty) == FieldError("categoryIds", CATEGORY_IDS_EMPTY);
  }
}
