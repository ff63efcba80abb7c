# Munchora recipe service — a Dafny model

Munchora is a recipe and grocery-list application. This project models its
language-model recipe service, `Llm::LlmService`, and the validation rules of
the records that service writes:

- **generate_recipe(prompt:)** checks the caller's daily quota, sends one chat
  request (fixed model, JSON-object mode, token cap, system instruction, and
  the prompt as the user message), validates the reply, and then writes in one
  transaction:
  - a private recipe owned by the caller;
  - its ingredients;
  - one usage record carrying the reply's model and token counts.
- **update_recipe(prompt:, recipe:)** works the same way, except:
  - the user message embeds the current recipe after the `ORIGINAL RECIPE:` marker;
  - inside the transaction it overwrites the recipe's fields and replaces its
    whole ingredient set.
- **Reply validation.** A reply that does not parse fails. A reply lacking any
  of the ten required recipe keys fails, and its message names the missing
  keys. Within an ingredient entry:
  - a numeric-string amount becomes an integer;
  - an unknown category becomes `no category 📦`.
- **Ingredient validation:**
  - a name of 1 to 60 characters, with integers and booleans taken through
    their text form;
  - an amount from 1 to 9999, where strings such as `'233'` and `'2_433'`
    count as the integers they spell;
  - a category from the fixed emoji-suffixed set.
- **Grocery-list name validation:** 1 to 50 characters, with the same coercion.

The model is arranged in one module per concern:

| file | module | contents |
|---|---|---|
| values.dfy | `Values` | Ruby values, their text form, integer-literal parsing, substring facts |
| ingredient.dfy | `IngredientRules` | categories, the ingredient validator, the typed stored ingredient |
| grocery_list.dfy | `GroceryListRules` | the grocery-list name validator |
| ledger.dfy | `UsageLedger` | usage records, today's count, the daily limit |
| errors.dfy | `LlmErrors` | the error kinds and their messages |
| records.dfy | `RecipeRecords` | recipes, the ingredient table, delete/insert of a recipe's rows |
| request.dfy | `LlmRequest` | the chat request for generate and update |
| reply.dfy | `LlmReply` | reply validation and normalisation |
| service.dfy | `LlmService` | what one call does, written two ways, as described below |

`LlmService` states one call in two forms:
- as the functions `Generate` and `Update` over a `Db` value;
- as the classes `Store` and `RecipeService`, whose methods do the same call
  step by step:
  - they snapshot the store before the transaction;
  - they write the recipe, delete and insert ingredient rows one at a time, and
    append the usage record;
  - they roll back to the snapshot when the store rejects the recipe write or
    an ingredient fails validation. An update deletes the old ingredients
    before the recipe write, so a rejected write restores them.

Each method's postcondition equates the resulting store, the result and the
log of sent requests with those of the function. The lemmas about the functions
therefore hold for the methods.

Three choices are read from the tests:
- The daily limit is 11 (`UsageLedger.DAILY_LIMIT`). The test setup at
  llm_service_spec.rb:100-101 creates eleven records as "DAILY_LIMIT usage
  records". A call is blocked once today's count is at least the limit, so
  eleven records block and ten do not.
- The grocery-list tests say "1-60" in their comments. Their data accept 50
  characters and reject 51, so the model uses 50.
- When a reply fails to parse or validate, no usage record is written. No test
  pins this case. In the model the usage record is written only in the
  transaction that also writes the recipe.

## Model

| member | source | states |
|---|---|---|
| Values.TextForm | server/spec/models/ingredient_spec.rb:36-39 | nil, lists and objects have no text form; a string is its own text; integers and booleans have one |
| Values.ParseIntText | server/spec/models/ingredient_spec.rb:72-73 | reading the decimal text of any integer gives back that integer |
| Values.IntTextLength | server/spec/models/ingredient_spec.rb:37-38 | an integer below 10^k in magnitude has at most k+1 characters of text |
| Values.ParseInteger | server/spec/models/ingredient_spec.rb:72-74 | a plain run of digits (single underscores allowed between them) reads as a non-negative number; a read number ends in a digit; a string with no digit at all, like "hey", reads as nothing |
| IngredientRules.NameValid | server/spec/models/ingredient_spec.rb:20-39 | a string name is valid exactly when its length is 1..60; booleans are valid; nil, lists and objects are not |
| IngredientRules.AmountValid | server/spec/models/ingredient_spec.rb:54-75 | an integer amount is valid exactly in 1..9999; a valid string amount spells an integer; nil and booleans are invalid |
| IngredientRules.CategoryValid | server/spec/models/ingredient_spec.rb:90-99 | a category value is valid exactly when it is one of the labels of the set |
| IngredientRules.Valid | server/spec/models/ingredient_spec.rb:7-14 | a valid ingredient belongs to a recipe and has a text name, a denoted amount and a labelled category |
| IngredientRules.ParseCategory | server/spec/models/ingredient_spec.rb:91-99 | a string names a category exactly when it is that category's label; labels and categories correspond one to one |
| IngredientRules.AmountOf | server/spec/models/ingredient_spec.rb:70-75 | an integer amount is itself; nil and booleans give no amount |
| IngredientRules.Cast | server/spec/models/ingredient_spec.rb:7-14 | attributes save exactly when valid; the stored name is the name's text, the amount is the integer the attribute denotes, the category is one of the set |
| IngredientRules.BaselineSingleField | server/spec/models/ingredient_spec.rb:7-14 | the baseline attributes are valid, so with the others held each field alone decides validity |
| IngredientRules.IntegerName | server/spec/models/ingredient_spec.rb:37-38 | any integer of at most 59 digits is a valid name |
| IngredientRules.TextAmount | server/spec/models/ingredient_spec.rb:72-73 | the decimal text of an amount is valid exactly when the amount is |
| IngredientRules.NameExamples | server/spec/models/ingredient_spec.rb:20-39 | every row of the name table gets its expected verdict |
| IngredientRules.AmountExamples | server/spec/models/ingredient_spec.rb:55-75 | every row of the amount table gets its expected verdict, '233' and '2_433' included |
| IngredientRules.CategoryExamples | server/spec/models/ingredient_spec.rb:91-99 | every row of the category table gets its expected verdict |
| GroceryListRules.NameValid | munchora/server/spec/models/grocery_list_spec.rb:17-36 | a string name is valid exactly when its length is 1..50; booleans are valid; nil, lists and objects are not |
| GroceryListRules.ScalarName | munchora/server/spec/models/grocery_list_spec.rb:33-36 | integer (up to 49 digits) and boolean names are valid, nil is not |
| GroceryListRules.NameExamples | munchora/server/spec/models/grocery_list_spec.rb:17-36 | every row of the name table gets its expected verdict |
| UsageLedger.CountToday | munchora/server/spec/services/llm_service_spec.rb:98-102 | today's count is zero exactly when no record is the user's for today, and is the length exactly when all are |
| UsageLedger.LimitReached | munchora/server/spec/services/llm_service_spec.rb:98-108 | fewer records than the limit never block; when every record is the user's for today, the gate closes exactly at the limit; records of other users or days never block |
| UsageLedger.CountTodayConcat | munchora/server/spec/services/llm_service_spec.rb:98-102 | the count of a concatenated ledger is the sum of the counts |
| UsageLedger.CountTodayAppend | munchora/server/spec/services/llm_service_spec.rb:69-72 | appending a record raises the count by one exactly when the record is the user's and dated today |
| UsageLedger.ElevenTodayTripLimit | munchora/server/spec/services/llm_service_spec.rb:98-102 | eleven of the user's records dated today, after any history, reach the limit |
| LlmErrors.JoinContains | munchora/server/spec/services/llm_service_spec.rb:161-165 | every part of a joined list occurs in the joined text |
| LlmErrors.Message | munchora/server/spec/services/llm_service_spec.rb:104-108 | the limit error's message starts with "Daily AI usage limit"; the missing-keys message starts with "Missing keys in recipe" and contains every missing key |
| RecipeRecords.IngredientsOf | munchora/server/spec/services/llm_service_spec.rb:59-62 | a recipe has at most as many ingredients as there are rows, and a recipe with no rows has none |
| RecipeRecords.Rows | munchora/server/spec/services/llm_service_spec.rb:59-67 | one row per item, in order, each owned by the recipe |
| RecipeRecords.Without | munchora/server/spec/services/llm_service_spec.rb:249-256 | the rows left by the delete are rows of the table and none belongs to the recipe |
| RecipeRecords.IngredientsOfFromRows | munchora/server/spec/services/llm_service_spec.rb:59-62 | every ingredient read for a recipe is stored in a row of that recipe |
| RecipeRecords.IngredientsOfConcat | munchora/server/spec/services/llm_service_spec.rb:59-62 | a recipe's ingredients in two row runs are those of the first followed by those of the second |
| RecipeRecords.IngredientsOfRows | munchora/server/spec/services/llm_service_spec.rb:59-67 | the rows inserted for a recipe read back as the inserted items, in order, and belong to no other recipe |
| RecipeRecords.IngredientsOfWithout | munchora/server/spec/services/llm_service_spec.rb:249-256 | after deleting a recipe's rows it has no ingredients, and every other recipe keeps its own |
| RecipeRecords.ReplaceIngredients | munchora/server/spec/services/llm_service_spec.rb:249-256 | delete-then-insert leaves the recipe with exactly the new items and every other recipe unchanged |
| RecipeRecords.CastAll | munchora/server/spec/services/llm_service_spec.rb:59-67 | saving a recipe's ingredients succeeds exactly when each one is valid for that recipe; each saved item is that entry's cast |
| RecipeRecords.CastAllFails | munchora/server/spec/services/llm_service_spec.rb:279-286 | one invalid ingredient makes the whole save fail |
| LlmRequest.Chat | munchora/server/spec/services/llm_service_spec.rb:83-95 | the request names model gpt-4.1-mini, JSON-object format and 2000 tokens, with the system message and then the user message |
| LlmRequest.GenerateRequest | munchora/server/spec/services/llm_service_spec.rb:83-95 | the user message of a generation is the prompt verbatim, after the system instruction |
| LlmRequest.Render | munchora/server/spec/services/llm_service_spec.rb:268-277 | the rendering of a recipe contains its title |
| LlmRequest.UpdateMessage | munchora/server/spec/services/llm_service_spec.rb:268-277 | the update message contains the prompt, the original title and the ORIGINAL RECIPE: marker |
| LlmRequest.UpdateRequest | munchora/server/spec/services/llm_service_spec.rb:268-277 | the user message of an update request contains the prompt, the original title and the marker; the other fields are as in a generation |
| LlmRequest.SpicierExample | munchora/server/spec/services/llm_service_spec.rb:268-277 | updating "Old Title" with "Make it spicier" sends a user message containing both and the marker |
| LlmReply.Absent | munchora/server/spec/services/llm_service_spec.rb:141-165 | the reported keys are exactly the required keys the recipe object lacks |
| LlmReply.CoerceAmount | munchora/server/spec/services/llm_service_spec.rb:59-67 | an amount that denotes an integer becomes that integer; anything else is kept; the amount it denotes and its validity never change |
| LlmReply.NormaliseCategory | munchora/server/spec/services/llm_service_spec.rb:168-202 | the result is always a valid category; a valid one is kept and any other becomes "no category" |
| LlmReply.EntryAttributes | munchora/server/spec/services/llm_service_spec.rb:168-202 | an entry keeps its name, keeps the amount it denotes and its validity, and always gets a valid category: its own when valid |
| LlmReply.ReadIngredients | munchora/server/spec/services/llm_service_spec.rb:24-28 | the ingredient list reads exactly when every entry is an object; entry k gives attributes k |
| LlmReply.NoneAbsent | munchora/server/spec/services/llm_service_spec.rb:141-165 | no key is reported missing exactly when all ten required keys are present |
| LlmReply.ReadDraft | munchora/server/spec/services/llm_service_spec.rb:18-37 | with all keys present, the draft reads exactly when the ingredients are a list of objects; it carries the reply's fields and one normalised entry per ingredient |
| LlmReply.ValidateReply | munchora/server/spec/services/llm_service_spec.rb:122-165 | unparseable text gives the parse error; missing keys give the missing-keys error naming them; otherwise the draft is the reply's fields |
| LlmReply.ValidateEncode | munchora/server/spec/services/llm_service_spec.rb:18-37 | a normalised draft written as a reply object validates back to itself |
| LlmReply.AbsentAll | munchora/server/spec/services/llm_service_spec.rb:141-150 | when the object has none of the keys, all are reported in order |
| LlmReply.TitleAndDescriptionOnly | munchora/server/spec/services/llm_service_spec.rb:141-165 | a reply with only title and description reports the other eight keys missing |
| LlmReply.UnknownCategoryEntry | munchora/server/spec/services/llm_service_spec.rb:168-202 | an entry with category "InvalidCategory" is kept with the "no category" label |
| LlmReply.SpaghettiEntry | munchora/server/spec/services/llm_service_spec.rb:59-67 | the entry with amount '400' and the grains label reads as amount 400 with the label kept |
| LlmService.Generate | munchora/server/spec/services/llm_service_spec.rb:98-139 | a request is sent exactly when the limit is not reached; the limit error otherwise; unparseable text gives the parse error; every failure leaves the store unchanged |
| LlmService.Update | munchora/server/spec/services/llm_service_spec.rb:289-306 | a request, embedding the stored recipe, is sent exactly when the limit is not reached; every failure and a rejected write leave the store unchanged; success returns the same recipe |
| LlmService.NewRecipe | munchora/server/spec/services/llm_service_spec.rb:47-57 | the new recipe has the given id and owner, is private, and takes the reply's fields |
| LlmService.Revised | munchora/server/spec/services/llm_service_spec.rb:239-247 | the revised recipe takes the reply's fields and keeps its id, owner and visibility |
| LlmService.UsageOf | munchora/server/spec/services/llm_service_spec.rb:69-81 | the usage record is the caller's, dated today, tied to the recipe, with the prompt, provider openai and the reply's model and token counts |
| LlmService.GenerateSucceedsIff | munchora/server/spec/services/llm_service_spec.rb:45-67 | a generation succeeds exactly when the quota allows it, the reply validates, the write goes through and every ingredient saves |
| LlmService.GenerateAddsOneRecipe | munchora/server/spec/services/llm_service_spec.rb:47-57 | success adds exactly one recipe under a fresh id, owned by the caller, private, with the reply's title, description, cuisine and difficulty; other recipes are untouched |
| LlmService.SavedEntries | munchora/server/spec/services/llm_service_spec.rb:59-67 | the saved items are the reply's entries one for one: the name's text, the amount's integer, the normalised category |
| LlmService.GenerateIngredients | munchora/server/spec/services/llm_service_spec.rb:59-67 | the new recipe has one ingredient per reply entry, stored as the entry says; other recipes keep theirs |
| LlmService.NoRowsOfUnknownRecipe | munchora/server/spec/services/llm_service_spec.rb:59-62 | in a consistent store a recipe not yet created has no ingredient rows |
| LlmService.GenerateRecordsUsage | munchora/server/spec/services/llm_service_spec.rb:69-81 | success appends exactly one record with the caller, prompt, provider openai, the reply's model and token counts; today's count rises by one and stays within the limit |
| LlmService.GenerateKeepsValid | munchora/server/spec/services/llm_service_spec.rb:59-67 | a generation keeps every id below the next one and every ingredient row attached to a stored recipe |
| LlmService.UpdateRevisesRecipe | munchora/server/spec/services/llm_service_spec.rb:239-247 | success overwrites the nine recipe fields with the reply's, keeps id, owner and visibility, and touches no other recipe |
| LlmService.UpdateReplacesIngredients | munchora/server/spec/services/llm_service_spec.rb:249-256 | success leaves the recipe with exactly the reply's entries (no old ingredient kept); other recipes keep theirs |
| LlmService.UpdateRecordsUsage | munchora/server/spec/services/llm_service_spec.rb:258-266 | success appends exactly one record tied to the updated recipe with the prompt; today's count rises by one |
| LlmService.UpdateKeepsValid | munchora/server/spec/services/llm_service_spec.rb:249-256 | an update keeps every ingredient row attached to a stored recipe |
| LlmService.ElevenRecordsBlock | munchora/server/spec/services/llm_service_spec.rb:98-119 | with eleven of today's records both calls fail with the limit error, send nothing and change nothing; the recipe keeps its title |
| LlmService.MissingKeysMessage | munchora/server/spec/services/llm_service_spec.rb:161-165 | a reply lacking required keys fails with a "Missing keys in recipe" message naming each missing key, and the store is unchanged |
| LlmService.Store.constructor | munchora/server/spec/services/llm_service_spec.rb:5-6 | an empty, consistent store |
| LlmService.Store.Restore | munchora/server/spec/services/llm_service_spec.rb:279-286 | rolling back returns the whole store to the snapshot |
| LlmService.Store.InsertRecipe | munchora/server/spec/services/llm_service_spec.rb:47-50 | the recipe is stored under the next id and the id counter advances, unless the store rejects it, in which case nothing changes |
| LlmService.Store.WriteRecipe | munchora/server/spec/services/llm_service_spec.rb:239-247 | the recipe's entry is overwritten, unless the store rejects it, in which case nothing changes |
| LlmService.Store.DeleteIngredientsOf | munchora/server/spec/services/llm_service_spec.rb:249-256 | the loop leaves exactly the rows of other recipes, in order |
| LlmService.Store.InsertIngredients | munchora/server/spec/services/llm_service_spec.rb:59-67 | the loop succeeds exactly when every ingredient is valid, and then has appended one row per ingredient in order |
| LlmService.Store.AppendUsage | munchora/server/spec/services/llm_service_spec.rb:69-72 | the ledger gains the one record at its end |
| LlmService.Store.CreateRecipe | munchora/server/spec/services/llm_service_spec.rb:45-81 | the transaction writes the recipe under the next id, one row per ingredient and the usage record, and succeeds exactly when the write is accepted and every ingredient is valid; on failure the store is back at its snapshot |
| LlmService.Store.ReplaceRecipe | munchora/server/spec/services/llm_service_spec.rb:238-286 | the transaction rewrites the recipe, replaces its rows with one per new ingredient and records usage, and succeeds exactly when the write is accepted and every ingredient is valid; on failure the store, old ingredients included, is back at its snapshot |
| LlmService.RecipeService.constructor | munchora/server/spec/services/llm_service_spec.rb:5-6 | a service bound to a user and a store, with nothing sent or logged |
| LlmService.RecipeService.GenerateRecipe | munchora/server/spec/services/llm_service_spec.rb:45-203 | the store, the result and the sent requests are those of `Generate`, with the rollback after a rejected write or a failed ingredient; a parse error is logged; the store stays consistent |
| LlmService.RecipeService.UpdateRecipe | munchora/server/spec/services/llm_service_spec.rb:238-306 | the store, the result and the sent requests are those of `Update`, including the rollback that restores the deleted ingredients after a rejected write or a failed ingredient; a parse error is logged; the store stays consistent |

## Left out

- The completion client is not modelled. There is no network call, timeout or provider error: the provider's answer is the `reply` parameter.
- The JSON text parser and the `choices`/`message` envelope are not modelled. A reply is either unparseable or the object under `recipe`.
- The Rails logger is a ghost log of error kinds. The log message text is not modelled.
- Time is not modelled. The wall clock and `created_at` are a day number passed in, so the window is the calendar day.
- Concurrent calls are not modelled. The race between checking the quota and recording usage is outside a single-threaded model.
- Persistence is not modelled: ActiveRecord's type casting of the other recipe columns, `reload`, foreign keys and the database itself. Recipe columns keep the values the reply gave.
- A `fault` flag stands for a store that rejects the recipe write (`create!` or `update!` raising `ActiveRecord::RecordInvalid`). It reflects no modelled validator.
- Ingredient entries that are not objects, or an ingredient list that is not a list, fail with `UnreadableIngredients`. This stands for the Ruby exception the service would raise; it is not pinned by the tests.
- The integer-literal reading of amount strings accepts an optional sign and digits with single underscores between them. Surrounding whitespace, hexadecimal, octal and binary forms are not modelled.
- The category set holds only the five labels that occur in the tests. The application's other categories are not part of this model.
- The wording of the system instruction is a placeholder. Beyond the pinned substrings (the prompt, the title, the marker), the layout of the update message is not modelled.
- Text forms of values other than nil, booleans, integers and strings are not modelled. A list or object value has no text form and is never a valid name.
- The grocery-list request specs, the test controller, the Cypress helpers and the factories are not part of this model. They act over HTTP, a browser or test fixtures, not on the service.
- Usage after a failed validation: no usage record is written when the reply fails to parse or validate. The same holds when a write fails.
- LlmService.RecipeService.GenerateRecipe: only a parse error goes to the error log. Whether other failures are logged is a modelling choice; it is not pinned by the source.
- LlmService.RecipeService.UpdateRecipe: the error log is treated the same way, with only a parse error logged.
- Values.TextForm: a boolean's text is Ruby's `to_s` ("true"/"false"). A database string column may store a different spelling, and `IngredientRules.Cast` then promises "true"/"false" as the stored name. Validity is the same for both spellings.
