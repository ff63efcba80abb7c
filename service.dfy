/**
 * The recipe generation and update service. `Generate` and `Update` state
 * what one call does to the store (recipes, ingredient rows, usage ledger),
 * what it returns and which request it sends to the provider; the classes
 * `Store` and `RecipeService` carry out the same calls step by step, with
 * an explicit snapshot and rollback around the transaction.
 */
module LlmService {
  import opened Values
  import opened IngredientRules
  import opened UsageLedger
  import opened LlmErrors
  import opened RecipeRecords
  import opened LlmRequest
  import opened LlmReply

  /** The persistent state the service reads and writes. */
  datatype Db = Db(
    recipes: map<nat, Recipe>,
    ingredients: seq<IngredientRow>,
    usages: seq<UsageRecord>,
    nextRecipeId: nat)

  /**
   * Ids are below the next id and match their key; every ingredient row
   * belongs to a stored recipe and holds a valid ingredient.
   */
  ghost predicate DbValid(db: Db) {
    && (forall id :: id in db.recipes ==> id < db.nextRecipeId && db.recipes[id].id == id)
    && (forall row :: row in db.ingredients ==> row.recipe in db.recipes && WellFormed(row.item))
  }

  /** The effect of one service call: the new store, the outcome, and the request sent, if any. */
  datatype Call = Call(db: Db, result: Result<nat>, request: Option<ChatRequest>)

  /** The recipe a generation creates: the reply's fields, owned by the caller, private. */
  function NewRecipe(id: nat, owner: nat, d: Draft): (r: Recipe)
    ensures r.id == id && r.owner == owner && !r.isPublic
    ensures r.title == d.title && r.description == d.description && r.cuisine == d.cuisine
    ensures r.difficulty == d.difficulty && r.servings == d.servings
  {
    Recipe(id, owner, d.title, d.description, d.instructions, d.cuisine, d.difficulty,
           d.tags, d.prepTime, d.cookTime, d.servings, false)
  }

  /** The recipe an update leaves: the reply's fields over the old ones; id, owner and visibility kept. */
  function Revised(r: Recipe, d: Draft): (r': Recipe)
    ensures r'.id == r.id && r'.owner == r.owner && r'.isPublic == r.isPublic
    ensures r'.title == d.title && r'.description == d.description
    ensures r'.difficulty == d.difficulty && r'.servings == d.servings
  {
    r.(title := d.title, description := d.description, instructions := d.instructions,
       cuisine := d.cuisine, difficulty := d.difficulty, tags := d.tags,
       prepTime := d.prepTime, cookTime := d.cookTime, servings := d.servings)
  }

  /** The usage record a successful call writes. */
  function UsageOf(user: nat, rid: nat, prompt: string, reply: ProviderReply, today: int): (u: UsageRecord)
    ensures OnDay(u, user, today) && u.recipe == Some(rid) && u.prompt == prompt
    ensures u.provider == PROVIDER && u.model == reply.model
    ensures u.promptTokens == reply.promptTokens && u.completionTokens == reply.completionTokens
  {
    UsageRecord(user, Some(rid), PROVIDER, reply.model, prompt, reply.promptTokens, reply.completionTokens, today)
  }

  /**
   * `generate_recipe(prompt:)`. `reply` is what the provider answers and
   * `fault` says whether the store rejects the recipe write.
   */
  function Generate(db: Db, user: nat, prompt: string, today: int, reply: ProviderReply, fault: bool): (c: Call)
    ensures c.request.None? <==> LimitReached(db.usages, user, today)
    ensures LimitReached(db.usages, user, today) ==> c.result == Err(UsageLimitExceeded)
    ensures c.request.Some? ==> c.request.value == GenerateRequest(prompt)
    ensures c.result.Err? ==> c.db == db
    ensures reply.content.Malformed? && c.request.Some? ==> c.result == Err(ParseError)
  {
    if LimitReached(db.usages, user, today) then Call(db, Err(UsageLimitExceeded), None)
    else
      var request := Some(GenerateRequest(prompt));
      match ValidateReply(reply.content)
      case Err(e) => Call(db, Err(e), request)
      case Ok(d) =>
        var rid := db.nextRecipeId;
        if fault then Call(db, Err(RecordInvalid), request)
        else
          match CastAll(rid, d.ingredients)
          case None => Call(db, Err(RecordInvalid), request)
          case Some(items) =>
            var db' := Db(db.recipes[rid := NewRecipe(rid, user, d)],
                          db.ingredients + Rows(rid, items),
                          db.usages + [UsageOf(user, rid, prompt, reply, today)],
                          rid + 1);
            Call(db', Ok(rid), request)
  }

  /**
   * `update_recipe(prompt:, recipe:)` on the stored recipe `rid`. `fault`
   * says whether the store rejects the recipe write (`update!` raising).
   */
  function Update(db: Db, user: nat, prompt: string, rid: nat, today: int, reply: ProviderReply, fault: bool): (c: Call)
    requires rid in db.recipes
    ensures c.request.None? <==> LimitReached(db.usages, user, today)
    ensures LimitReached(db.usages, user, today) ==> c.result == Err(UsageLimitExceeded)
    ensures c.request.Some? ==> c.request.value == UpdateRequest(prompt, db.recipes[rid])
    ensures c.result.Err? ==> c.db == db
    ensures fault ==> c.db == db
    ensures c.result.Ok? ==> c.result.value == rid
  {
    if LimitReached(db.usages, user, today) then Call(db, Err(UsageLimitExceeded), None)
    else
      var request := Some(UpdateRequest(prompt, db.recipes[rid]));
      match ValidateReply(reply.content)
      case Err(e) => Call(db, Err(e), request)
      case Ok(d) =>
        if fault then Call(db, Err(RecordInvalid), request)
        else
          match CastAll(rid, d.ingredients)
          case None => Call(db, Err(RecordInvalid), request)
          case Some(items) =>
            var db' := Db(db.recipes[rid := Revised(db.recipes[rid], d)],
                          Without(db.ingredients, rid) + Rows(rid, items),
                          db.usages + [UsageOf(user, rid, prompt, reply, today)],
                          db.nextRecipeId);
            Call(db', Ok(rid), request)
  }

  // ---------------------------------------------------------------------
  // What a call promises
  // ---------------------------------------------------------------------

  /** A call succeeds exactly when the quota allows it, the reply reads, every ingredient saves and the write goes through. */
  lemma GenerateSucceedsIff(db: Db, user: nat, prompt: string, today: int, reply: ProviderReply, fault: bool)
    ensures Generate(db, user, prompt, today, reply, fault).result.Ok? <==>
      && !LimitReached(db.usages, user, today)
      && ValidateReply(reply.content).Ok?
      && !fault
      && CastAll(db.nextRecipeId, ValidateReply(reply.content).value.ingredients).Some?
  {
  }

  /**
   * A successful generation adds exactly one recipe, under a fresh id,
   * owned by the caller, private, with the reply's fields; every other
   * recipe is untouched.
   */
  lemma GenerateAddsOneRecipe(db: Db, user: nat, prompt: string, today: int, reply: ProviderReply, fault: bool)
    requires DbValid(db)
    requires Generate(db, user, prompt, today, reply, fault).result.Ok?
    ensures var c := Generate(db, user, prompt, today, reply, fault);
      var rid := c.result.value;
      var d := ValidateReply(reply.content).value;
      && rid !in db.recipes
      && c.db.recipes.Keys == db.recipes.Keys + {rid}
      && |c.db.recipes| == |db.recipes| + 1
      && (forall id :: id in db.recipes ==> c.db.recipes[id] == db.recipes[id])
      && c.db.recipes[rid].owner == user
      && !c.db.recipes[rid].isPublic
      && c.db.recipes[rid].title == reply.content.recipe["title"]
      && c.db.recipes[rid].description == reply.content.recipe["description"]
      && c.db.recipes[rid].cuisine == reply.content.recipe["cuisine"]
      && c.db.recipes[rid].difficulty == reply.content.recipe["difficulty"]
  {
    GenerateSteps(db, user, prompt, today, reply, fault);
    var d := ValidateReply(reply.content).value;
    var rid := db.nextRecipeId;
    assert rid !in db.recipes;
    AddOneRecipe(db.recipes, rid, NewRecipe(rid, user, d));
  }

  /** Storing a recipe under a new id adds that key and keeps every other entry. */
  lemma AddOneRecipe(recipes: map<nat, Recipe>, rid: nat, r: Recipe)
    requires rid !in recipes
    ensures recipes[rid := r].Keys == recipes.Keys + {rid}
    ensures |recipes[rid := r]| == |recipes| + 1
    ensures forall id :: id in recipes ==> recipes[rid := r][id] == recipes[id]
  {
  }

  /**
   * How a reply entry is stored: the name's text, the amount as an integer
   * (a numeric string read as the number it denotes), and the category
   * label, with an unknown category stored as "no category".
   */
  predicate StoredAs(item: Ingredient, entry: map<string, Value>) {
    && Some(item.name) == TextForm(Get(entry, "name"))
    && Some(item.amount) == AmountOf(Get(entry, "amount"))
    && Str(Label(item.category)) == NormaliseCategory(Get(entry, "category"))
  }

  /** The items saved from a read reply are its entries, one each, in order. */
  lemma SavedEntries(recipe: map<string, Value>, d: Draft, rid: nat)
    requires Readable(recipe) && Reads(recipe, d)
    requires CastAll(rid, d.ingredients).Some?
    ensures var items := CastAll(rid, d.ingredients).value;
      var entries := recipe["ingredients"].items;
      && |items| == |entries|
      && forall k :: 0 <= k < |entries| ==> StoredAs(items[k], entries[k].fields)
  {
  }

  /**
   * The ingredients of a generated recipe are the reply's entries, one per
   * entry, in order, stored as `StoredAs` says. Other recipes keep theirs.
   */
  lemma GenerateIngredients(db: Db, user: nat, prompt: string, today: int, reply: ProviderReply, fault: bool, other: nat)
    requires DbValid(db)
    requires Generate(db, user, prompt, today, reply, fault).result.Ok?
    ensures var c := Generate(db, user, prompt, today, reply, fault);
      var rid := c.result.value;
      var entries := reply.content.recipe["ingredients"].items;
      var stored := IngredientsOf(c.db.ingredients, rid);
      && |stored| == |entries|
      && (forall k :: 0 <= k < |entries| ==> StoredAs(stored[k], entries[k].fields))
      && (other != rid ==> IngredientsOf(c.db.ingredients, other) == IngredientsOf(db.ingredients, other))
  {
    var rid := db.nextRecipeId;
    var d := ValidateReply(reply.content).value;
    var items := CastAll(rid, d.ingredients).value;
    var c := Generate(db, user, prompt, today, reply, fault);
    assert c.db.ingredients == db.ingredients + Rows(rid, items);
    assert IngredientsOf(db.ingredients, rid) == [] by {
      assert rid !in db.recipes;
      NoRowsOfUnknownRecipe(db.ingredients, db.recipes, rid);
    }
    IngredientsOfConcat(db.ingredients, Rows(rid, items), rid);
    IngredientsOfConcat(db.ingredients, Rows(rid, items), other);
    IngredientsOfRows(rid, items, other);
    assert IngredientsOf(c.db.ingredients, rid) == items;
    SavedEntries(reply.content.recipe, d, rid);
  }

  /** A recipe that is not stored has no ingredient rows in a valid store. */
  lemma {:induction false} NoRowsOfUnknownRecipe(rows: seq<IngredientRow>, recipes: map<nat, Recipe>, rid: nat)
    requires forall row :: row in rows ==> row.recipe in recipes
    requires rid !in recipes
    ensures IngredientsOf(rows, rid) == []
  {
    if rows != [] {
      assert rows[0] in rows;
      assert forall row :: row in rows[1..] ==> row in rows;
      NoRowsOfUnknownRecipe(rows[1..], recipes, rid);
    }
  }

  /**
   * A successful call appends exactly one usage record: the caller, the
   * prompt, provider `openai`, the reply's model and token counts, the
   * recipe's id. Today's count rises by one and stays within the limit.
   */
  lemma GenerateRecordsUsage(db: Db, user: nat, prompt: string, today: int, reply: ProviderReply, fault: bool)
    requires Generate(db, user, prompt, today, reply, fault).result.Ok?
    ensures var c := Generate(db, user, prompt, today, reply, fault);
      && c.db.usages == db.usages + [UsageOf(user, c.result.value, prompt, reply, today)]
      && CountToday(c.db.usages, user, today) == CountToday(db.usages, user, today) + 1
      && CountToday(c.db.usages, user, today) <= DAILY_LIMIT
  {
    var c := Generate(db, user, prompt, today, reply, fault);
    CountTodayAppend(db.usages, UsageOf(user, c.result.value, prompt, reply, today), user, today);
  }

  lemma GenerateKeepsValid(db: Db, user: nat, prompt: string, today: int, reply: ProviderReply, fault: bool)
    requires DbValid(db)
    ensures DbValid(Generate(db, user, prompt, today, reply, fault).db)
  {
    var v := ValidateReply(reply.content);
    if !LimitReached(db.usages, user, today) {
      GenerateSteps(db, user, prompt, today, reply, fault);
      if v.Ok? && !fault && CastAll(db.nextRecipeId, v.value.ingredients).Some? {
        var rid := db.nextRecipeId;
        var items := CastAll(rid, v.value.ingredients).value;
        var recipes := db.recipes[rid := NewRecipe(rid, user, v.value)];
        assert forall row :: row in db.ingredients ==> row.recipe in recipes && WellFormed(row.item);
        RowsAppendValid(recipes, db.ingredients, rid, items);
      }
    }
  }

  /** Rows of stored recipes stay valid when rows of well-formed items for a stored recipe are appended. */
  lemma RowsAppendValid(recipes: map<nat, Recipe>, rows: seq<IngredientRow>, rid: nat, items: seq<Ingredient>)
    requires forall row :: row in rows ==> row.recipe in recipes && WellFormed(row.item)
    requires rid in recipes
    requires forall k :: 0 <= k < |items| ==> WellFormed(items[k])
    ensures forall row :: row in rows + Rows(rid, items) ==> row.recipe in recipes && WellFormed(row.item)
  {
    RowsMembers(rid, items);
  }

  /**
   * A successful update overwrites the recipe's fields with the reply's,
   * keeps its id, owner and visibility, and touches no other recipe.
   */
  lemma UpdateRevisesRecipe(db: Db, user: nat, prompt: string, rid: nat, today: int, reply: ProviderReply, fault: bool)
    requires rid in db.recipes
    requires Update(db, user, prompt, rid, today, reply, fault).result.Ok?
    ensures var c := Update(db, user, prompt, rid, today, reply, fault);
      var m := reply.content.recipe;
      var r := c.db.recipes[rid];
      && c.db.recipes.Keys == db.recipes.Keys
      && (forall id :: id in db.recipes && id != rid ==> c.db.recipes[id] == db.recipes[id])
      && r.id == db.recipes[rid].id && r.owner == db.recipes[rid].owner
      && r.isPublic == db.recipes[rid].isPublic
      && r.title == m["title"] && r.description == m["description"]
      && r.difficulty == m["difficulty"] && r.servings == m["servings"]
      && r.instructions == m["instructions"] && r.cuisine == m["cuisine"] && r.tags == m["tags"]
      && r.prepTime == m["prep_time"] && r.cookTime == m["cook_time"]
  {
    UpdateSteps(db, user, prompt, rid, today, reply, fault);
    var d := ValidateReply(reply.content).value;
    ReviseOneRecipe(db.recipes, rid, Revised(db.recipes[rid], d));
  }

  /** Rewriting a stored recipe keeps the set of keys and every other entry. */
  lemma ReviseOneRecipe(recipes: map<nat, Recipe>, rid: nat, r: Recipe)
    requires rid in recipes
    ensures recipes[rid := r].Keys == recipes.Keys
    ensures forall id :: id in recipes && id != rid ==> recipes[rid := r][id] == recipes[id]
  {
  }

  /**
   * A successful update replaces the recipe's ingredient set with the
   * reply's entries: nothing of the old set is kept, and other recipes keep
   * theirs.
   */
  lemma UpdateReplacesIngredients(db: Db, user: nat, prompt: string, rid: nat, today: int, reply: ProviderReply, fault: bool, other: nat)
    requires rid in db.recipes
    requires Update(db, user, prompt, rid, today, reply, fault).result.Ok?
    ensures var c := Update(db, user, prompt, rid, today, reply, fault);
      var entries := reply.content.recipe["ingredients"].items;
      var stored := IngredientsOf(c.db.ingredients, rid);
      && |stored| == |entries|
      && (forall k :: 0 <= k < |entries| ==> StoredAs(stored[k], entries[k].fields))
      && (other != rid ==> IngredientsOf(c.db.ingredients, other) == IngredientsOf(db.ingredients, other))
  {
    var d := ValidateReply(reply.content).value;
    var items := CastAll(rid, d.ingredients).value;
    ReplaceIngredients(db.ingredients, rid, items, other);
    SavedEntries(reply.content.recipe, d, rid);
  }

  lemma UpdateRecordsUsage(db: Db, user: nat, prompt: string, rid: nat, today: int, reply: ProviderReply, fault: bool)
    requires rid in db.recipes
    requires Update(db, user, prompt, rid, today, reply, fault).result.Ok?
    ensures var c := Update(db, user, prompt, rid, today, reply, fault);
      && c.db.usages == db.usages + [UsageOf(user, rid, prompt, reply, today)]
      && CountToday(c.db.usages, user, today) == CountToday(db.usages, user, today) + 1
      && CountToday(c.db.usages, user, today) <= DAILY_LIMIT
  {
    CountTodayAppend(db.usages, UsageOf(user, rid, prompt, reply, today), user, today);
  }

  lemma UpdateKeepsValid(db: Db, user: nat, prompt: string, rid: nat, today: int, reply: ProviderReply, fault: bool)
    requires DbValid(db) && rid in db.recipes
    ensures DbValid(Update(db, user, prompt, rid, today, reply, fault).db)
  {
    var v := ValidateReply(reply.content);
    if !LimitReached(db.usages, user, today) {
      UpdateSteps(db, user, prompt, rid, today, reply, fault);
      if v.Ok? && !fault && CastAll(rid, v.value.ingredients).Some? {
        var items := CastAll(rid, v.value.ingredients).value;
        RowsKeepValid(db.recipes, db.ingredients, rid, items);
      }
    }
  }

  /**
   * Rows of stored recipes stay valid when one stored recipe's rows are
   * replaced by rows of well-formed items.
   */
  lemma RowsKeepValid(recipes: map<nat, Recipe>, rows: seq<IngredientRow>, rid: nat, items: seq<Ingredient>)
    requires forall row :: row in rows ==> row.recipe in recipes && WellFormed(row.item)
    requires rid in recipes
    requires forall k :: 0 <= k < |items| ==> WellFormed(items[k])
    ensures forall row :: row in Without(rows, rid) + Rows(rid, items) ==>
      row.recipe in recipes && WellFormed(row.item)
  {
    RowsMembers(rid, items);
    assert forall row :: row in Without(rows, rid) ==> row in rows;
  }

  /**
   * With eleven of the caller's records dated today, generation and update
   * both fail with the usage-limit error, send nothing and change nothing:
   * no recipe is created and the existing recipe keeps its title.
   */
  lemma ElevenRecordsBlock(db: Db, recent: seq<UsageRecord>, user: nat, prompt: string, rid: nat,
                           today: int, reply: ProviderReply, fault: bool)
    requires |recent| == 11
    requires forall k :: 0 <= k < 11 ==> OnDay(recent[k], user, today)
    requires rid in db.recipes
    ensures var db' := db.(usages := db.usages + recent);
      var g := Generate(db', user, prompt, today, reply, fault);
      var u := Update(db', user, prompt, rid, today, reply, fault);
      && g.result == Err(UsageLimitExceeded) && g.db == db' && g.request.None?
      && StartsWith(LlmErrors.Message(g.result.error), "Daily AI usage limit")
      && u.result == Err(UsageLimitExceeded) && u.db == db' && u.request.None?
      && u.db.recipes[rid].title == db.recipes[rid].title
  {
    ElevenTodayTripLimit(db.usages, recent, user, today);
  }

  /** A reply that lacks required keys fails with a message naming them. */
  lemma MissingKeysMessage(db: Db, user: nat, prompt: string, today: int, reply: ProviderReply, fault: bool)
    requires !LimitReached(db.usages, user, today)
    requires reply.content.Parsed? && !HasRequiredKeys(reply.content.recipe)
    ensures var c := Generate(db, user, prompt, today, reply, fault);
      && c.result.Err? && c.result.error.MissingKeys? && c.db == db
      && StartsWith(LlmErrors.Message(c.result.error), "Missing keys in recipe")
      && (forall k :: k in REQUIRED_KEYS && k !in reply.content.recipe ==> Contains(LlmErrors.Message(c.result.error), k))
  {
    NoneAbsent(reply.content.recipe);
    var missing := Absent(reply.content.recipe, REQUIRED_KEYS);
    forall k | k in REQUIRED_KEYS && k !in reply.content.recipe
      ensures Contains(LlmErrors.Message(MissingKeys(missing)), k)
    {
      var i :| 0 <= i < |missing| && missing[i] == k;
    }
  }

  /** What a generation past the quota check does, case by case on the reply. */
  lemma GenerateSteps(db: Db, user: nat, prompt: string, today: int, reply: ProviderReply, fault: bool)
    requires !LimitReached(db.usages, user, today)
    ensures var c := Generate(db, user, prompt, today, reply, fault);
      var v := ValidateReply(reply.content);
      var rid := db.nextRecipeId;
      && c.request == Some(GenerateRequest(prompt))
      && (v.Err? ==> c.result == Err(v.error) && c.db == db)
      && (v.Ok? && (fault || CastAll(rid, v.value.ingredients).None?) ==>
            c.result == Err(RecordInvalid) && c.db == db)
      && (v.Ok? && !fault && CastAll(rid, v.value.ingredients).Some? ==>
            c.result == Ok(rid)
            && c.db == Db(db.recipes[rid := NewRecipe(rid, user, v.value)],
                          db.ingredients + Rows(rid, CastAll(rid, v.value.ingredients).value),
                          db.usages + [UsageOf(user, rid, prompt, reply, today)],
                          rid + 1))
  {
  }

  /** What an update past the quota check does, case by case on the reply. */
  lemma UpdateSteps(db: Db, user: nat, prompt: string, rid: nat, today: int, reply: ProviderReply, fault: bool)
    requires rid in db.recipes
    requires !LimitReached(db.usages, user, today)
    ensures var c := Update(db, user, prompt, rid, today, reply, fault);
      var v := ValidateReply(reply.content);
      && c.request == Some(UpdateRequest(prompt, db.recipes[rid]))
      && (v.Err? ==> c.result == Err(v.error) && c.db == db)
      && (v.Ok? && (fault || CastAll(rid, v.value.ingredients).None?) ==>
            c.result == Err(RecordInvalid) && c.db == db)
      && (v.Ok? && !fault && CastAll(rid, v.value.ingredients).Some? ==>
            c.result == Ok(rid)
            && c.db == Db(db.recipes[rid := Revised(db.recipes[rid], v.value)],
                          Without(db.ingredients, rid) + Rows(rid, CastAll(rid, v.value.ingredients).value),
                          db.usages + [UsageOf(user, rid, prompt, reply, today)],
                          db.nextRecipeId))
  {
  }

  // ---------------------------------------------------------------------
  // The store and the service, step by step
  // ---------------------------------------------------------------------

  class Store {
    var recipes: map<nat, Recipe>
    var ingredients: seq<IngredientRow>
    var usages: seq<UsageRecord>
    var nextRecipeId: nat

    function State(): Db
      reads this
    {
      Db(recipes, ingredients, usages, nextRecipeId)
    }

    ghost predicate Valid()
      reads this
    {
      DbValid(State())
    }

    constructor ()
      ensures State() == Db(map[], [], [], 0)
      ensures Valid()
    {
      recipes, ingredients, usages, nextRecipeId := map[], [], [], 0;
    }

    /** Rolling a transaction back: the store returns to the snapshot. */
    method Restore(snapshot: Db)
      modifies this
      ensures State() == snapshot
    {
      recipes, ingredients, usages, nextRecipeId :=
        snapshot.recipes, snapshot.ingredients, snapshot.usages, snapshot.nextRecipeId;
    }

    /**
     * `Recipe.create!` under the next id. When the store rejects the record
     * (`reject`) the call raises: nothing is written and `ok` is false.
     */
    method InsertRecipe(r: Recipe, reject: bool) returns (ok: bool)
      requires r.id == nextRecipeId
      modifies this
      ensures ok == !reject
      ensures ok ==> State() == old(State()).(recipes := old(recipes)[r.id := r], nextRecipeId := r.id + 1)
      ensures !ok ==> State() == old(State())
    {
      if reject {
        return false;
      }
      recipes := recipes[r.id := r];
      nextRecipeId := nextRecipeId + 1;
      return true;
    }

    /** `recipe.update!`; when the store rejects the record the call raises and nothing is written. */
    method WriteRecipe(r: Recipe, reject: bool) returns (ok: bool)
      modifies this
      ensures ok == !reject
      ensures ok ==> State() == old(State()).(recipes := old(recipes)[r.id := r])
      ensures !ok ==> State() == old(State())
    {
      if reject {
        return false;
      }
      recipes := recipes[r.id := r];
      return true;
    }

    /** `recipe.ingredients.destroy_all`, row by row. */
    method DeleteIngredientsOf(rid: nat)
      modifies this
      ensures State() == old(State()).(ingredients := Without(old(ingredients), rid))
    {
      var kept: seq<IngredientRow> := [];
      var i := |ingredients|;
      while i > 0
        invariant 0 <= i <= |ingredients|
        invariant kept == Without(ingredients[i..], rid)
      {
        i := i - 1;
        assert ingredients[i..][1..] == ingredients[i + 1..];
        if ingredients[i].recipe != rid {
          kept := [ingredients[i]] + kept;
        }
      }
      assert ingredients[0..] == ingredients;
      ingredients := kept;
    }

    /**
     * `create!` for each ingredient of recipe `rid`, in order, stopping at
     * the first that fails validation. On success the rows of all of them
     * are appended; on failure the rows already written stay until the
     * caller rolls back.
     */
    method InsertIngredients(rid: nat, attrs: seq<Attributes>) returns (ok: bool)
      modifies this`ingredients
      ensures ok <==> CastAll(rid, attrs).Some?
      ensures ok ==> ingredients == old(ingredients) + Rows(rid, CastAll(rid, attrs).value)
    {
      var i := 0;
      ghost var done: seq<Ingredient> := [];
      while i < |attrs|
        invariant 0 <= i <= |attrs|
        invariant CastAll(rid, attrs[..i]) == Some(done)
        invariant ingredients == old(ingredients) + Rows(rid, done)
      {
        var g := Cast(attrs[i].(recipe := Some(rid)));
        if g.None? {
          CastAllFails(rid, attrs, i);
          return false;
        }
        CastAllSnoc(rid, attrs, i, g.value);
        RowsSnoc(rid, done, g.value);
        ingredients := ingredients + [IngredientRow(rid, g.value)];
        done := done + [g.value];
        i := i + 1;
      }
      assert attrs[..i] == attrs;
      return true;
    }

    /** `LlmUsage.create!`. */
    method AppendUsage(record: UsageRecord)
      modifies this
      ensures State() == old(State()).(usages := old(usages) + [record])
    {
      usages := usages + [record];
    }

    /**
     * The write transaction of a generation: the recipe, its ingredients and
     * the usage record are all written, or, after a rejected recipe or a
     * failed ingredient, the snapshot is restored and nothing is.
     */
    method CreateRecipe(r: Recipe, attrs: seq<Attributes>, usage: UsageRecord, reject: bool) returns (ok: bool)
      requires r.id == nextRecipeId
      modifies this
      ensures ok <==> !reject && CastAll(r.id, attrs).Some?
      ensures ok ==> State() == Db(old(recipes)[r.id := r],
                                   old(ingredients) + Rows(r.id, CastAll(r.id, attrs).value),
                                   old(usages) + [usage], r.id + 1)
      ensures !ok ==> State() == old(State())
    {
      var snapshot := State();
      ok := InsertRecipe(r, reject);
      if !ok {
        Restore(snapshot);
        return;
      }
      ok := InsertIngredients(r.id, attrs);
      if !ok {
        Restore(snapshot);
        return;
      }
      AppendUsage(usage);
    }

    /**
     * The write transaction of an update: the old ingredients are deleted,
     * the recipe is rewritten, the new ingredients are created and the usage
     * is recorded; a rejected write or a failed ingredient restores the
     * snapshot, old ingredients included.
     */
    method ReplaceRecipe(r: Recipe, attrs: seq<Attributes>, usage: UsageRecord, reject: bool) returns (ok: bool)
      modifies this
      ensures ok <==> !reject && CastAll(r.id, attrs).Some?
      ensures ok ==> State() == Db(old(recipes)[r.id := r],
                                   Without(old(ingredients), r.id) + Rows(r.id, CastAll(r.id, attrs).value),
                                   old(usages) + [usage], old(nextRecipeId))
      ensures !ok ==> State() == old(State())
    {
      var snapshot := State();
      DeleteIngredientsOf(r.id);
      ok := WriteRecipe(r, reject);
      if !ok {
        Restore(snapshot);
        return;
      }
      ok := InsertIngredients(r.id, attrs);
      if !ok {
        Restore(snapshot);
        return;
      }
      AppendUsage(usage);
    }
  }

  /** The requests sent by one call, as a log entry. */
  function Sent(request: Option<ChatRequest>): seq<ChatRequest> {
    match request
    case Some(r) => [r]
    case None => []
  }

  /** `Llm::LlmService.new(user:)` over a store. */
  class RecipeService {
    const user: nat
    const store: Store
    /** The requests handed to the completion client, oldest first. */
    ghost var sent: seq<ChatRequest>
    /** The errors written to the error log. */
    ghost var errorLog: seq<Error>

    constructor (user: nat, store: Store)
      ensures this.user == user && this.store == store
      ensures sent == [] && errorLog == []
    {
      this.user := user;
      this.store := store;
      sent := [];
      errorLog := [];
    }

    method GenerateRecipe(prompt: string, today: int, reply: ProviderReply, fault: bool) returns (result: Result<nat>)
      requires store.Valid()
      modifies this, store
      ensures var c := Generate(old(store.State()), user, prompt, today, reply, fault);
        && store.State() == c.db
        && result == c.result
        && sent == old(sent) + Sent(c.request)
      ensures errorLog == old(errorLog) + (if result == Err(ParseError) then [ParseError] else [])
      ensures store.Valid()
    {
      GenerateKeepsValid(store.State(), user, prompt, today, reply, fault);
      if LimitReached(store.usages, user, today) {
        return Err(UsageLimitExceeded);
      }
      GenerateSteps(store.State(), user, prompt, today, reply, fault);
      sent := sent + [GenerateRequest(prompt)];
      var v := ValidateReply(reply.content);
      if v.Err? {
        if v.error == ParseError {
          errorLog := errorLog + [ParseError];
        }
        return Err(v.error);
      }
      var rid := store.nextRecipeId;
      var ok := store.CreateRecipe(NewRecipe(rid, user, v.value), v.value.ingredients,
                                   UsageOf(user, rid, prompt, reply, today), fault);
      return if ok then Ok(rid) else Err(RecordInvalid);
    }

    method UpdateRecipe(prompt: string, rid: nat, today: int, reply: ProviderReply, fault: bool) returns (result: Result<nat>)
      requires store.Valid() && rid in store.recipes
      modifies this, store
      ensures var c := Update(old(store.State()), user, prompt, rid, today, reply, fault);
        && store.State() == c.db
        && result == c.result
        && sent == old(sent) + Sent(c.request)
      ensures errorLog == old(errorLog) + (if result == Err(ParseError) then [ParseError] else [])
      ensures store.Valid()
    {
      UpdateKeepsValid(store.State(), user, prompt, rid, today, reply, fault);
      if LimitReached(store.usages, user, today) {
        return Err(UsageLimitExceeded);
      }
      UpdateSteps(store.State(), user, prompt, rid, today, reply, fault);
      var original := store.recipes[rid];
      sent := sent + [UpdateRequest(prompt, original)];
      var v := ValidateReply(reply.content);
      if v.Err? {
        if v.error == ParseError {
          errorLog := errorLog + [ParseError];
        }
        return Err(v.error);
      }
      var ok := store.ReplaceRecipe(Revised(original, v.value), v.value.ingredients,
                                    UsageOf(user, rid, prompt, reply, today), fault);
      return if ok then Ok(rid) else Err(RecordInvalid);
    }
  }
}
