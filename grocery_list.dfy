/**
 * Validation of a GroceryList name: present, and 1 to 50 characters once
 * coerced to text.
 */
module GroceryListRules {
  import opened Values

  const NAME_MIN: nat := 1
  const NAME_MAX: nat := 50

  /** `GroceryList#valid?` on the name: present, and 1 to 50 characters once coerced to text. */
  predicate NameValid(v: Value)
    ensures v.Str? ==> (NameValid(v) <==> NAME_MIN <= |v.s| <= NAME_MAX)
    ensures v.Bool? ==> NameValid(v)
    ensures v.Nil? || v.List? || v.Object? ==> !NameValid(v)
  {
    TextLengthWithin(v, NAME_MIN, NAME_MAX)
  }

  /** Non-string scalars are judged by their text form; nil is rejected. */
  lemma ScalarName(i: int, b: bool)
    requires -(Pow10(49) as int) < i < Pow10(49)
    ensures NameValid(Int(i)) && NameValid(Bool(b))
    ensures !NameValid(Nil)
  {
    IntTextLength(i, 49);
    if i < 0 { NatTextDigits(-i); } else { NatTextDigits(i); }
  }

  /** The rows of the name table. */
  lemma NameExamples()
    ensures !NameValid(Str(""))
    ensures NameValid(Str("n")) && NameValid(Str("nn"))
    ensures NameValid(Str(Repeat('n', 25))) && NameValid(Str(Repeat('n', 49)))
    ensures NameValid(Str(Repeat('n', 50)))
    ensures !NameValid(Str(Repeat('n', 51))) && !NameValid(Str(Repeat('n', 450)))
    ensures !NameValid(Nil)
    ensures NameValid(Int(1)) && NameValid(Int(123456)) && NameValid(Bool(true))
  {
  }
}
