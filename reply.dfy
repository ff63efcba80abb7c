/**
 * Reading the provider's reply: the reply text either fails to parse or
 * yields the `recipe` object; every required key must be present; each
 * ingredient entry has its amount coerced to an integer and its category
 * normalised, an unknown category becoming "no category".
 */
module LlmReply {
  import opened Values
  import opened IngredientRules
  import opened LlmErrors

  /** The reply text after `JSON.parse`: unparseable, or the object under `recipe`. */
  datatype ReplyContent = Malformed | Parsed(recipe: map<string, Value>)

  /** What the completion call returns besides the text: token usage and the model used. */
  datatype ProviderReply = ProviderReply(
    content: ReplyContent,
    promptTokens: nat,
    completionTokens: nat,
    model: string)

  const REQUIRED_KEYS: seq<string> := [
    "title", "description", "instructions", "ingredients", "cuisine",
    "difficulty", "tags", "prep_time", "cook_time", "servings"]

  /** The keys, in order, that the recipe object lacks. */
  function Absent(recipe: map<string, Value>, keys: seq<string>): (r: seq<string>)
    ensures |r| <= |keys|
    ensures forall k :: k in r <==> k in keys && k !in recipe
  {
    if keys == [] then []
    else
      var rest := Absent(recipe, keys[1..]);
      if keys[0] in recipe then rest else [keys[0]] + rest
  }

  /** A validated reply, ready to be written to a recipe and its ingredients. */
  datatype Draft = Draft(
    title: Value,
    description: Value,
    instructions: Value,
    cuisine: Value,
    difficulty: Value,
    tags: Value,
    prepTime: Value,
    cookTime: Value,
    servings: Value,
    ingredients: seq<Attributes>)

  /** A numeric string amount becomes the integer it denotes; anything else is left as it is. */
  function CoerceAmount(v: Value): (r: Value)
    ensures AmountOf(r) == AmountOf(v)
    ensures AmountValid(r) <==> AmountValid(v)
    ensures AmountOf(v).Some? ==> r == Int(AmountOf(v).value)
    ensures AmountOf(v).None? ==> r == v
  {
    if v.Str? && ParseInteger(v.s).Some? then Int(ParseInteger(v.s).value) else v
  }

  /** A category outside the fixed set becomes the "no category" label. */
  function NormaliseCategory(v: Value): (r: Value)
    ensures CategoryValid(r)
    ensures CategoryValid(v) ==> r == v
    ensures !CategoryValid(v) ==> r == Str(Label(NoCategory))
  {
    if CategoryValid(v) then v else Str(Label(NoCategory))
  }

  /** The ingredient attributes one entry of `ingredients` yields. */
  function EntryAttributes(entry: map<string, Value>): (a: Attributes)
    ensures a.name == Get(entry, "name") && a.recipe.None?
    ensures AmountOf(a.amount) == AmountOf(Get(entry, "amount"))
    ensures AmountValid(a.amount) <==> AmountValid(Get(entry, "amount"))
    ensures CategoryValid(a.category)
    ensures CategoryValid(Get(entry, "category")) ==> a.category == Get(entry, "category")
  {
    Attributes(
      Get(entry, "name"),
      CoerceAmount(Get(entry, "amount")),
      NormaliseCategory(Get(entry, "category")),
      None)
  }

  function ReadIngredients(entries: seq<Value>): (r: Option<seq<Attributes>>)
    ensures r.Some? <==> forall k :: 0 <= k < |entries| ==> entries[k].Object?
    ensures r.Some? ==> |r.value| == |entries|
    ensures r.Some? ==> forall k :: 0 <= k < |entries| ==> r.value[k] == EntryAttributes(entries[k].fields)
  {
    if entries == [] then Some([])
    else if !entries[0].Object? then None
    else
      var rest := ReadIngredients(entries[1..]);
      assert forall k :: 1 <= k < |entries| ==> entries[k] == entries[1..][k - 1];
      match rest
      case None => None
      case Some(tail) => Some([EntryAttributes(entries[0].fields)] + tail)
  }

  /** Every required key is present. */
  predicate HasRequiredKeys(recipe: map<string, Value>) {
    && "title" in recipe && "description" in recipe && "instructions" in recipe
    && "ingredients" in recipe && "cuisine" in recipe && "difficulty" in recipe
    && "tags" in recipe && "prep_time" in recipe && "cook_time" in recipe
    && "servings" in recipe
  }

  lemma {:induction false} AbsentEmpty(recipe: map<string, Value>, keys: seq<string>)
    ensures Absent(recipe, keys) == [] <==> forall i :: 0 <= i < |keys| ==> keys[i] in recipe
  {
    if keys != [] {
      AbsentEmpty(recipe, keys[1..]);
      assert forall i :: 1 <= i < |keys| ==> keys[i] == keys[1..][i - 1];
    }
  }

  /** No key is reported missing exactly when every required key is present. */
  lemma NoneAbsent(recipe: map<string, Value>)
    ensures Absent(recipe, REQUIRED_KEYS) == [] <==> HasRequiredKeys(recipe)
  {
    var keys := REQUIRED_KEYS;
    AbsentEmpty(recipe, keys);
    assert keys[0] == "title" && keys[1] == "description" && keys[2] == "instructions";
    assert keys[3] == "ingredients" && keys[4] == "cuisine" && keys[5] == "difficulty";
    assert keys[6] == "tags" && keys[7] == "prep_time" && keys[8] == "cook_time";
    assert keys[9] == "servings" && |keys| == 10;
    if HasRequiredKeys(recipe) {
      forall i | 0 <= i < |keys| ensures keys[i] in recipe {
        if i == 0 {} else if i == 1 {} else if i == 2 {} else if i == 3 {} else if i == 4 {}
        else if i == 5 {} else if i == 6 {} else if i == 7 {} else if i == 8 {} else {}
      }
    }
  }

  /** The recipe object can be read: all keys present and the ingredients a list of objects. */
  predicate Readable(recipe: map<string, Value>) {
    && HasRequiredKeys(recipe)
    && recipe["ingredients"].List?
    && (forall e :: e in recipe["ingredients"].items ==> e.Object?)
  }

  /** `d` is what the recipe object says: its fields, and one ingredient per entry. */
  predicate Reads(recipe: map<string, Value>, d: Draft)
    requires Readable(recipe)
  {
    var entries := recipe["ingredients"].items;
    && d.title == recipe["title"] && d.description == recipe["description"]
    && d.instructions == recipe["instructions"] && d.cuisine == recipe["cuisine"]
    && d.difficulty == recipe["difficulty"] && d.tags == recipe["tags"]
    && d.prepTime == recipe["prep_time"] && d.cookTime == recipe["cook_time"]
    && d.servings == recipe["servings"]
    && |d.ingredients| == |entries|
    && forall k :: 0 <= k < |entries| ==> d.ingredients[k] == EntryAttributes(entries[k].fields)
  }

  /** Reading the recipe object once every required key is known to be present. */
  function ReadDraft(recipe: map<string, Value>): (r: Result<Draft>)
    requires HasRequiredKeys(recipe)
    ensures r.Ok? <==> Readable(recipe)
    ensures r.Ok? ==> Reads(recipe, r.value)
    ensures r.Err? ==> r.error == UnreadableIngredients
  {
    var list := recipe["ingredients"];
    if !list.List? then Err(UnreadableIngredients)
    else
      match ReadIngredients(list.items)
      case None =>
        assert !Readable(recipe) by {
          var k :| 0 <= k < |list.items| && !list.items[k].Object?;
          assert list.items[k] in list.items;
        }
        Err(UnreadableIngredients)
      case Some(attrs) =>
        Ok(Draft(recipe["title"], recipe["description"], recipe["instructions"],
                 recipe["cuisine"], recipe["difficulty"], recipe["tags"],
                 recipe["prep_time"], recipe["cook_time"], recipe["servings"], attrs))
  }

  /**
   * Validating the reply: a parse failure and missing keys are hard errors;
   * otherwise the draft is read from the recipe object.
   */
  function ValidateReply(content: ReplyContent): (r: Result<Draft>)
    ensures content.Malformed? ==> r == Err(ParseError)
    ensures content.Parsed? && Absent(content.recipe, REQUIRED_KEYS) != [] ==>
      r == Err(MissingKeys(Absent(content.recipe, REQUIRED_KEYS)))
    ensures r.Ok? <==> content.Parsed? && Readable(content.recipe)
    ensures r.Ok? ==> Reads(content.recipe, r.value)
  {
    match content
    case Malformed => Err(ParseError)
    case Parsed(recipe) =>
      var missing := Absent(recipe, REQUIRED_KEYS);
      NoneAbsent(recipe);
      if missing != [] then Err(MissingKeys(missing))
      else
        ReadDraft(recipe)
  }

  // ---------------------------------------------------------------------
  // Round trip: a draft written out as a reply reads back as itself
  // ---------------------------------------------------------------------

  /** A draft as validation produces it: amounts already coerced, categories normalised. */
  predicate Normalised(d: Draft) {
    forall k :: 0 <= k < |d.ingredients| ==>
      var a := d.ingredients[k];
      a.recipe.None? && CoerceAmount(a.amount) == a.amount && NormaliseCategory(a.category) == a.category
  }

  function EncodeIngredient(a: Attributes): Value {
    Object(map["name" := a.name, "amount" := a.amount, "category" := a.category])
  }

  /** The recipe object a provider would send for `d`. */
  function Encode(d: Draft): map<string, Value> {
    map[
      "title" := d.title, "description" := d.description,
      "instructions" := d.instructions,
      "ingredients" := List(seq(|d.ingredients|, k requires 0 <= k < |d.ingredients| => EncodeIngredient(d.ingredients[k]))),
      "cuisine" := d.cuisine, "difficulty" := d.difficulty, "tags" := d.tags,
      "prep_time" := d.prepTime, "cook_time" := d.cookTime, "servings" := d.servings]
  }

  lemma EncodeIngredientReads(a: Attributes)
    requires a.recipe.None? && CoerceAmount(a.amount) == a.amount && NormaliseCategory(a.category) == a.category
    ensures EncodeIngredient(a).Object? && EntryAttributes(EncodeIngredient(a).fields) == a
  {
    var m := EncodeIngredient(a).fields;
    assert Get(m, "name") == a.name;
    assert Get(m, "amount") == a.amount;
    assert Get(m, "category") == a.category;
  }

  /** The encoded object holds every required key, each bound to the draft's field. */
  lemma EncodeFields(d: Draft)
    ensures var m := Encode(d);
      && HasRequiredKeys(m)
      && m["title"] == d.title && m["description"] == d.description
      && m["instructions"] == d.instructions && m["cuisine"] == d.cuisine
      && m["difficulty"] == d.difficulty && m["tags"] == d.tags
      && m["prep_time"] == d.prepTime && m["cook_time"] == d.cookTime
      && m["servings"] == d.servings
      && m["ingredients"] == List(seq(|d.ingredients|, k requires 0 <= k < |d.ingredients| => EncodeIngredient(d.ingredients[k])))
  {
  }

  /** A recipe object reads as at most one draft. */
  lemma ReadsDetermines(recipe: map<string, Value>, d1: Draft, d2: Draft)
    requires Readable(recipe) && Reads(recipe, d1) && Reads(recipe, d2)
    ensures d1 == d2
  {
    assert d1.ingredients == d2.ingredients;
  }

  /** Validation reads back exactly the draft a reply was written from. */
  lemma ValidateEncode(d: Draft)
    requires Normalised(d)
    ensures ValidateReply(Parsed(Encode(d))) == Ok(d)
  {
    var m := Encode(d);
    EncodeFields(d);
    var entries := m["ingredients"].items;
    forall k | 0 <= k < |entries|
      ensures entries[k].Object? && EntryAttributes(entries[k].fields) == d.ingredients[k]
    {
      EncodeIngredientReads(d.ingredients[k]);
    }
    assert Readable(m) && Reads(m, d);
    var r := ValidateReply(Parsed(m));
    ReadsDetermines(m, r.value, d);
  }

  // ---------------------------------------------------------------------
  // The replies of the service's tests
  // ---------------------------------------------------------------------

  /** When the object has none of the keys, all of them are reported, in order. */
  lemma {:induction false} AbsentAll(recipe: map<string, Value>, keys: seq<string>)
    requires forall k :: k in keys ==> k !in recipe
    ensures Absent(recipe, keys) == keys
  {
    if keys != [] {
      assert forall k :: k in keys[1..] ==> k in keys;
      AbsentAll(recipe, keys[1..]);
    }
  }

  /** A reply with only a title and a description lacks the other eight keys. */
  lemma TitleAndDescriptionOnly()
    ensures ValidateReply(Parsed(map["title" := Str("Pasta"), "description" := Str("Yummy")]))
         == Err(MissingKeys(["instructions", "ingredients", "cuisine", "difficulty",
                             "tags", "prep_time", "cook_time", "servings"]))
  {
    var m := map["title" := Str("Pasta"), "description" := Str("Yummy")];
    var rest := REQUIRED_KEYS[2..];
    assert rest == ["instructions", "ingredients", "cuisine", "difficulty",
                    "tags", "prep_time", "cook_time", "servings"];
    assert m.Keys == {"title", "description"};
    assert forall k :: k in rest ==> k !in m;
    AbsentAll(m, rest);
    assert REQUIRED_KEYS[1..][1..] == rest;
    assert Absent(m, REQUIRED_KEYS) == Absent(m, REQUIRED_KEYS[1..]) == Absent(m, rest);
  }

  /** An entry with an unknown category is kept, with the "no category" label. */
  lemma UnknownCategoryEntry()
    ensures EntryAttributes(map["name" := Str("Test"), "amount" := Int(100), "category" := Str("InvalidCategory")])
         == Attributes(Str("Test"), Int(100), Str(Label(NoCategory)), None)
  {
  }

  /** An entry with amount '400' and category `grains` keeps the category and reads 400. */
  lemma SpaghettiEntry()
    ensures EntryAttributes(map["name" := Str("Spaghetti"), "amount" := Str("400"), "category" := Str(Label(Grains))])
         == Attributes(Str("Spaghetti"), Int(400), Str(Label(Grains)), None)
  {
    assert ParseInteger("400") == Some(400) by {
      assert IsDigitRun("400");
      assert "400"[..2] == "40" && "40"[..1] == "4" && "4"[..0] == "";
    }
    assert CategoryValid(Str(Label(Grains)));
  }
}
