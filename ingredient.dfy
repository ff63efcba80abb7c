/**
 * Validation of an Ingredient record: a name of 1 to 60 characters once
 * coerced to text, an integer amount from 1 to 9999 (numeric strings
 * accepted), a category from a fixed set of emoji-suffixed labels, and the
 * recipe that owns it.
 */
module IngredientRules {
  import opened Values

  const NAME_MIN: nat := 1
  const NAME_MAX: nat := 60
  const AMOUNT_MIN: int := 1
  const AMOUNT_MAX: int := 9999

  /** The categories named by the application; `NoCategory` is the fallback. */
  datatype Category = Fruits | Grains | Dairy | Fish | NoCategory

  /** The label stored in the category column. */
  function Label(c: Category): string {
    match c
    case Fruits => "fruits \U{1F34E}"
    case Grains => "grains \U{1F33E}"
    case Dairy => "dairy \U{1F95A}"
    case Fish => "fish \U{1F41F}"
    case NoCategory => "no category \U{1F4E6}"
  }

  /** The category a stored label names, if it names one. */
  function ParseCategory(s: string): (r: Option<Category>)
    ensures r.Some? ==> Label(r.value) == s
    ensures forall c :: Label(c) == s ==> r == Some(c)
  {
    if s == Label(Fruits) then Some(Fruits)
    else if s == Label(Grains) then Some(Grains)
    else if s == Label(Dairy) then Some(Dairy)
    else if s == Label(Fish) then Some(Fish)
    else if s == Label(NoCategory) then Some(NoCategory)
    else None
  }

  /** The integer an amount attribute stands for: an integer, or a string read as one. */
  function AmountOf(v: Value): (r: Option<int>)
    ensures v.Int? ==> r == Some(v.i)
    ensures !(v.Int? || v.Str?) ==> r.None?
  {
    match v
    case Int(i) => Some(i)
    case Str(s) => ParseInteger(s)
    case _ => None
  }

  /** The name rule: present, and 1 to 60 characters once coerced to text. */
  predicate NameValid(v: Value)
    ensures v.Str? ==> (NameValid(v) <==> NAME_MIN <= |v.s| <= NAME_MAX)
    ensures v.Bool? ==> NameValid(v)
    ensures v.Nil? || v.List? || v.Object? ==> !NameValid(v)
  {
    TextLengthWithin(v, NAME_MIN, NAME_MAX)
  }

  /** The amount rule: an integer, or a string spelling one, in 1..9999. */
  predicate AmountValid(v: Value)
    ensures v.Int? ==> (AmountValid(v) <==> AMOUNT_MIN <= v.i <= AMOUNT_MAX)
    ensures v.Str? && AmountValid(v) ==> ParseInteger(v.s).Some?
    ensures !(v.Int? || v.Str?) ==> !AmountValid(v)
  {
    match AmountOf(v)
    case Some(n) => AMOUNT_MIN <= n <= AMOUNT_MAX
    case None => false
  }

  /** The category rule: exactly the labels of the fixed set. */
  predicate CategoryValid(v: Value)
    ensures CategoryValid(v) <==> exists c :: v == Str(Label(c))
  {
    v.Str? && ParseCategory(v.s).Some?
  }

  /** The attributes given to `Ingredient.new`. */
  datatype Attributes = Attributes(name: Value, amount: Value, category: Value, recipe: Option<nat>)

  /** `Ingredient#valid?`: every field passes its rule and the ingredient belongs to a recipe. */
  predicate Valid(a: Attributes)
    ensures Valid(a) ==> a.recipe.Some? && TextForm(a.name).Some? && AmountOf(a.amount).Some?
    ensures Valid(a) ==> a.category.Str? && ParseCategory(a.category.s).Some?
  {
    && NameValid(a.name)
    && AmountValid(a.amount)
    && CategoryValid(a.category)
    && a.recipe.Some?
  }

  /** An ingredient as stored once its attributes pass validation. */
  datatype Ingredient = Ingredient(name: string, amount: int, category: Category)

  predicate WellFormed(g: Ingredient) {
    NAME_MIN <= |g.name| <= NAME_MAX && AMOUNT_MIN <= g.amount <= AMOUNT_MAX
  }

  /**
   * Saving an ingredient: its attributes are validated and, when valid,
   * stored as their typed column values.
   */
  function Cast(a: Attributes): (r: Option<Ingredient>)
    ensures r.Some? <==> Valid(a)
    ensures r.Some? ==> WellFormed(r.value)
    ensures r.Some? ==> TextForm(a.name) == Some(r.value.name)
    ensures r.Some? ==> AmountOf(a.amount) == Some(r.value.amount)
    ensures r.Some? ==> a.category == Str(Label(r.value.category))
  {
    if Valid(a) then
      Some(Ingredient(TextForm(a.name).value, AmountOf(a.amount).value, ParseCategory(a.category.s).value))
    else None
  }

  // ---------------------------------------------------------------------
  // Properties of the validation rules
  // ---------------------------------------------------------------------

  /** Attributes the other fields are held at while one field is varied. */
  const BASELINE := Attributes(Str("test"), Int(1), Str(Label(Fruits)), Some(1))

  /** The baseline is valid, so each field alone decides validity when it is varied. */
  lemma BaselineSingleField(name: Value, amount: Value, category: Value)
    ensures Valid(BASELINE)
    ensures Valid(BASELINE.(name := name)) <==> NameValid(name)
    ensures Valid(BASELINE.(amount := amount)) <==> AmountValid(amount)
    ensures Valid(BASELINE.(category := category)) <==> CategoryValid(category)
  {
  }

  /** Any integer of at most 59 digits is a valid name, through its text form. */
  lemma IntegerName(i: int)
    requires -(Pow10(59) as int) < i < Pow10(59)
    ensures NameValid(Int(i))
  {
    IntTextLength(i, 59);
    if i < 0 { NatTextDigits(-i); } else { NatTextDigits(i); }
  }

  /** The decimal text of an amount is valid exactly when the amount is. */
  lemma TextAmount(i: int)
    ensures AmountValid(Str(IntText(i))) <==> AmountValid(Int(i))
  {
    ParseIntText(i);
  }

  /** The rows of the name table. */
  lemma NameExamples()
    ensures !NameValid(Str(""))
    ensures NameValid(Str("n")) && NameValid(Str("nn"))
    ensures NameValid(Str(Repeat('n', 30))) && NameValid(Str(Repeat('n', 59)))
    ensures NameValid(Str(Repeat('n', 60)))
    ensures !NameValid(Str(Repeat('n', 61))) && !NameValid(Str(Repeat('n', 450)))
    ensures !NameValid(Nil)
    ensures NameValid(Int(1)) && NameValid(Int(123456)) && NameValid(Bool(true))
  {
  }

  /** The rows of the amount table. */
  lemma AmountExamples()
    ensures !AmountValid(Int(0))
    ensures AmountValid(Int(1)) && AmountValid(Int(2)) && AmountValid(Int(5098))
    ensures AmountValid(Int(9998)) && AmountValid(Int(9999))
    ensures !AmountValid(Int(10000)) && !AmountValid(Int(100000))
    ensures !AmountValid(Nil) && !AmountValid(Bool(true))
    ensures AmountValid(Str("233")) && AmountValid(Str("2_433"))
    ensures !AmountValid(Str("hey"))
  {
    ParseDigitStrings();
    assert !IsDigit('h');
  }

  /** The numeric strings of the amount table read as the numbers they spell. */
  lemma ParseDigitStrings()
    ensures ParseInteger("233") == Some(233)
    ensures ParseInteger("2_433") == Some(2433)
  {
    assert IsDigitRun("233");
    assert "233"[..2] == "23" && "23"[..1] == "2" && "2"[..0] == "";
    var s := "2_433";
    assert IsDigitRun(s);
    assert s[..4] == "2_43" && "2_43"[..3] == "2_4" && "2_4"[..2] == "2_";
    assert "2_"[..1] == "2" && "2"[..0] == "";
  }

  /** The rows of the category table. */
  lemma CategoryExamples()
    ensures CategoryValid(Str("dairy \U{1F95A}")) && CategoryValid(Str("fish \U{1F41F}"))
    ensures !CategoryValid(Nil) && !CategoryValid(Str("fish"))
    ensures !CategoryValid(Int(1)) && !CategoryValid(Bool(true))
  {
  }
}
