/**
 * Recipes and the ingredient table. Every ingredient row belongs to one
 * recipe; a recipe's ingredients are the rows that point at it, in
 * insertion order.
 */
module RecipeRecords {
  import opened Values
  import opened IngredientRules

  /** A stored recipe. Column values are kept as the service received them. */
  datatype Recipe = Recipe(
    id: nat,
    owner: nat,
    title: Value,
    description: Value,
    instructions: Value,
    cuisine: Value,
    difficulty: Value,
    tags: Value,
    prepTime: Value,
    cookTime: Value,
    servings: Value,
    isPublic: bool)

  datatype IngredientRow = IngredientRow(recipe: nat, item: Ingredient)

  /** `recipe.ingredients`: the items of the rows owned by `rid`. */
  function IngredientsOf(rows: seq<IngredientRow>, rid: nat): (r: seq<Ingredient>)
    ensures |r| <= |rows|
    ensures (forall k :: 0 <= k < |rows| ==> rows[k].recipe != rid) ==> r == []
  {
    if rows == [] then []
    else
      var rest := IngredientsOf(rows[1..], rid);
      if rows[0].recipe == rid then [rows[0].item] + rest else rest
  }

  /** The rows that store `items` for recipe `rid`. */
  function Rows(rid: nat, items: seq<Ingredient>): (r: seq<IngredientRow>)
    ensures |r| == |items|
    ensures forall k :: 0 <= k < |items| ==> r[k] == IngredientRow(rid, items[k])
  {
    if items == [] then [] else Rows(rid, items[..|items| - 1]) + [IngredientRow(rid, items[|items| - 1])]
  }

  /** Every row stored for `items` belongs to `rid` and holds one of the items. */
  lemma RowsMembers(rid: nat, items: seq<Ingredient>)
    ensures forall row :: row in Rows(rid, items) ==> row.recipe == rid && row.item in items
  {
    forall row | row in Rows(rid, items)
      ensures row.recipe == rid && row.item in items
    {
      var k :| 0 <= k < |items| && Rows(rid, items)[k] == row;
      assert row.item == items[k];
    }
  }

  /** `recipe.ingredients.destroy_all`: the rows left after deleting those of `rid`. */
  function Without(rows: seq<IngredientRow>, rid: nat): (r: seq<IngredientRow>)
    ensures |r| <= |rows|
    ensures forall k :: 0 <= k < |r| ==> r[k].recipe != rid && r[k] in rows
  {
    if rows == [] then []
    else
      var rest := Without(rows[1..], rid);
      if rows[0].recipe == rid then rest else [rows[0]] + rest
  }

  /** Every ingredient read for a recipe comes from one of its rows. */
  lemma {:induction false} IngredientsOfFromRows(rows: seq<IngredientRow>, rid: nat)
    ensures forall g :: g in IngredientsOf(rows, rid) ==> IngredientRow(rid, g) in rows
  {
    if rows != [] {
      IngredientsOfFromRows(rows[1..], rid);
      assert forall row :: row in rows[1..] ==> row in rows;
    }
  }

  lemma {:induction false} IngredientsOfConcat(a: seq<IngredientRow>, b: seq<IngredientRow>, rid: nat)
    ensures IngredientsOf(a + b, rid) == IngredientsOf(a, rid) + IngredientsOf(b, rid)
  {
    if a == [] {
      assert a + b == b;
    } else {
      assert (a + b)[1..] == a[1..] + b;
      IngredientsOfConcat(a[1..], b, rid);
    }
  }

  /** The rows stored for `rid` read back as the items, and belong to no other recipe. */
  lemma {:induction false} IngredientsOfRows(rid: nat, items: seq<Ingredient>, other: nat)
    ensures IngredientsOf(Rows(rid, items), rid) == items
    ensures other != rid ==> IngredientsOf(Rows(rid, items), other) == []
  {
    if items != [] {
      var init := items[..|items| - 1];
      var lastRow := [IngredientRow(rid, items[|items| - 1])];
      IngredientsOfRows(rid, init, other);
      IngredientsOfConcat(Rows(rid, init), lastRow, rid);
      IngredientsOfConcat(Rows(rid, init), lastRow, other);
      assert lastRow[1..] == [];
      assert init + [items[|items| - 1]] == items;
    }
  }

  /** Deleting `rid`'s rows empties its ingredients and leaves every other recipe's alone. */
  lemma {:induction false} IngredientsOfWithout(rows: seq<IngredientRow>, rid: nat, other: nat)
    ensures IngredientsOf(Without(rows, rid), rid) == []
    ensures other != rid ==> IngredientsOf(Without(rows, rid), other) == IngredientsOf(rows, other)
  {
    if rows != [] {
      IngredientsOfWithout(rows[1..], rid, other);
      var rest := Without(rows[1..], rid);
      if rows[0].recipe != rid {
        assert ([rows[0]] + rest)[1..] == rest;
      }
    }
  }

  /**
   * Replacing a recipe's ingredients (delete all, insert the new rows):
   * afterwards the recipe has exactly the new items, and no other recipe's
   * ingredients changed.
   */
  lemma ReplaceIngredients(rows: seq<IngredientRow>, rid: nat, items: seq<Ingredient>, other: nat)
    ensures IngredientsOf(Without(rows, rid) + Rows(rid, items), rid) == items
    ensures other != rid ==>
      IngredientsOf(Without(rows, rid) + Rows(rid, items), other) == IngredientsOf(rows, other)
  {
    IngredientsOfConcat(Without(rows, rid), Rows(rid, items), rid);
    IngredientsOfConcat(Without(rows, rid), Rows(rid, items), other);
    IngredientsOfWithout(rows, rid, other);
    IngredientsOfRows(rid, items, other);
  }

  /**
   * Saving every ingredient of a recipe (`create!` for each): the typed
   * items when all of them pass validation, and None as soon as one fails.
   */
  function CastAll(rid: nat, attrs: seq<Attributes>): (r: Option<seq<Ingredient>>)
    ensures r.Some? <==> forall k :: 0 <= k < |attrs| ==> Valid(attrs[k].(recipe := Some(rid)))
    ensures r.Some? ==> |r.value| == |attrs|
    ensures r.Some? ==> forall k :: 0 <= k < |attrs| ==>
      Cast(attrs[k].(recipe := Some(rid))) == Some(r.value[k]) && WellFormed(r.value[k])
  {
    if attrs == [] then Some([])
    else
      var init := attrs[..|attrs| - 1];
      assert init + [attrs[|attrs| - 1]] == attrs;
      match CastAll(rid, init)
      case None =>
        assert exists k :: 0 <= k < |init| && !Valid(init[k].(recipe := Some(rid)));
        None
      case Some(items) =>
        match Cast(attrs[|attrs| - 1].(recipe := Some(rid)))
        case None => None
        case Some(g) =>
          SnocCast(rid, init, attrs[|attrs| - 1], items, g);
          Some(items + [g])
  }

  /** The step of `CastAll`: one more ingredient that passes validation. */
  lemma SnocCast(rid: nat, init: seq<Attributes>, a: Attributes, items: seq<Ingredient>, g: Ingredient)
    requires |items| == |init|
    requires forall k :: 0 <= k < |init| ==>
      Cast(init[k].(recipe := Some(rid))) == Some(items[k]) && WellFormed(items[k])
    requires Cast(a.(recipe := Some(rid))) == Some(g)
    ensures forall k :: 0 <= k < |init| + 1 ==>
      Cast((init + [a])[k].(recipe := Some(rid))) == Some((items + [g])[k]) && WellFormed((items + [g])[k])
  {
    forall k | 0 <= k < |init| + 1
      ensures Cast((init + [a])[k].(recipe := Some(rid))) == Some((items + [g])[k])
    {
      if k < |init| {
        assert (init + [a])[k] == init[k] && (items + [g])[k] == items[k];
      }
    }
  }

  /** Appending one item appends one row. */
  lemma RowsSnoc(rid: nat, items: seq<Ingredient>, g: Ingredient)
    ensures Rows(rid, items + [g]) == Rows(rid, items) + [IngredientRow(rid, g)]
  {
  }

  /** Saving one more ingredient that passes validation extends the saved items by it. */
  lemma CastAllSnoc(rid: nat, attrs: seq<Attributes>, i: nat, g: Ingredient)
    requires i < |attrs|
    requires CastAll(rid, attrs[..i]).Some?
    requires Cast(attrs[i].(recipe := Some(rid))) == Some(g)
    ensures CastAll(rid, attrs[..i + 1]) == Some(CastAll(rid, attrs[..i]).value + [g])
  {
    assert attrs[..i + 1][..i] == attrs[..i];
  }

  /** One ingredient that fails validation makes the whole save fail. */
  lemma CastAllFails(rid: nat, attrs: seq<Attributes>, i: nat)
    requires i < |attrs|
    requires Cast(attrs[i].(recipe := Some(rid))).None?
    ensures CastAll(rid, attrs).None?
  {
  }
}
