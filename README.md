# Food Costing Calculator: a Dafny model of its storage and costing core

The Food Costing Calculator is a desktop application for a small food business. It
keeps two CSV files. `ingredients.csv` lists each ingredient's price, pack size in
grams, and the grams a recipe needs. `recipes.csv` holds saved recipe costings. A
costing adds up the per-recipe cost of the chosen ingredients, then applies fixed
overheads: 50 % for miscellaneous costs and 45 % for labor. A margin percentage
(150 by default, a 2.5 times markup) turns the total cost into a selling price and a
profit.

This project models three parts of that application:

- **The store** (`DataHandler` in data_handler.py; modules `Store` and `Costing`).
  - Adding, updating, deleting, listing and searching ingredients.
  - The two modes of adding a recipe.
  - Listing and searching recipes.
  - The costing, including the step that saves a recipe and adds the ingredients
    the store does not know yet.
- **The calculator view** without its widgets (`CalculatorFrame` in
  ui_calculator.py; module `Calculator`).
  - Filtering the ingredient checklist, and the global index each checkbox reports.
  - Ticking and clearing checkboxes.
  - Adding a typed-in ingredient.
  - Validating the recipe name and margin before costing.
  - Clearing the form.
- **The saved-recipes view** (`RecipesFrame` in ui_recipes.py; module `RecipesView`).
  - Looking a figure up in a row whose header may have drifted.
  - Recovering the ingredients text when the columns have shifted.
  - Deleting a recipe.

## How the model is built

- **Rows.** A row dictionary is a `Record`: the sequence of its items in insertion
  order. Each value is a `Cell`, either a Python `str` or a Python `float`.
- **Files.** Each CSV file is the sequence of its rows below the header. Appending a
  line is a sequence append, and rewriting the file is assigning a new sequence.
  What the csv writer stores for a value reads back as its text (`Render`).
- **Python built-ins.** `float()`, `str()` and `round()` stay abstract. They are the
  three fields of a `Runtime` value passed to every member that needs them. Most
  proofs hold for any such functions. The few that need a property of them state
  it as a hypothesis:
  - `CalculatedProfitNonNegative` and `ValidatedNeverLoses` assume that rounding
    keeps non-negative numbers non-negative.
  - `BlankMarginIsDefault` assumes `float("150")` is 150.
  - `FlourScenario` assumes the demo's three texts parse to their numbers.
- **Names and search.** Lower-casing, `strip()` and `isalpha()` are defined over ASCII
  (module `Strings`). Filtering and subsequences are in module `Seqs`.

## How the code differs from its documentation

The model follows the code in each case below.

- **Errors in a costing.** A cost that is not a number makes `calculate_recipe_cost`
  return the empty dictionary (data_handler.py:268-270). It does not return a cost
  of zero.
- **Rounding.** The margin is returned unrounded (data_handler.py:247). When a
  calculated recipe is stored, the total ingredient cost is written as returned,
  rounded once (data_handler.py:241, 175). The other five figures are rounded
  again when written (data_handler.py:242-246, 176-180). The fallback mode of
  `add_recipe` uses a fixed 2.5 multiplier, whatever margin the caller meant.
- **Zero grams.** When grams is not positive, the store writes the integer `0` as
  the price per gram. The calculator's typed-in ingredient raises an uncaught
  ZeroDivisionError for zero grams instead (ui_calculator.py:401), so nothing is
  added (`DivisionByZero`).
- **Blank space in searches.** The store's search tests the query for blankness but
  does not strip it before matching. The calculator's filter strips it first.
- **Saving does not always add the ingredients.** When a recipe is saved, each
  ingredient whose name the store lacks is handed to `add_ingredient`, and that
  call's failure is ignored. An input name is therefore present afterwards only
  when that item's Price, Grams and Grams Needed convert. `MergeNames` states this
  exactly.
- **Recovering the ingredients text.** The second pattern test in the detection of
  shifted columns never rejects anything (`PatternTestIsRedundant`).
- **Deleting a recipe.** The store has no `delete_recipe`, so the `hasattr` branch of
  `_delete_recipe` is never taken. The fallback removes the recipe from the
  displayed list, but the refresh that follows reloads the unchanged store. Deleting
  a recipe therefore has no lasting effect.
- **Checkbox indices.** In `_on_search_ingredients` the `StopIteration` fallback is
  never taken. Every shown entry comes from the full listing, so the lookup of its
  global index always succeeds.

## Model

| member | source | states |
|---|---|---|
| Costing.Price | data_handler.py:229-238 | misc is 0.5 and labor 0.45 of the ingredient cost, the total is 1.95 of it, selling = total x multiplier, profit = total x (multiplier - 1) |
| Costing.MarginProfit | data_handler.py:234-238 | with a margin percentage, the profit is exactly that percentage of the total cost |
| Costing.ProfitNonNegative | data_handler.py:229-238 | a non-negative cost and margin never give a loss, and selling is at least the total |
| Costing.DefaultMarginIsFallback | data_handler.py:235-236 | margin 150 is the same markup, and the same figures, as the hard-coded 2.5 of the fallback |
| Costing.HundredAtDefaultMargin | data_handler.py:229-238 | an ingredient cost of 100 at margin 150 gives 50, 45, 195, 487.50 and 292.50 |
| Costing.SumCostsFailsIff | data_handler.py:226-227 | the sum of costs fails exactly when some ingredient's Cost per Recipe is not a number |
| Costing.SumCostsNonNegative | data_handler.py:226-227 | non-negative costs add up to a non-negative total |
| Costing.Calculate | data_handler.py:224-270 | the empty result comes exactly when some cost does not convert; otherwise the result is the cost breakdown of the summed costs at the markup 1 + margin / 100, each figure rounded to cents, with the margin as given |
| Costing.CalculatedFigures | data_handler.py:226-248 | for summed costs s the reported figures are round(s), round(0.5 s), round(0.45 s), round(1.95 s), round(1.95 s (1 + m/100)) and round(1.95 s m/100), all to cents, and the margin m unrounded |
| Costing.CalculatedProfitNonNegative | data_handler.py:240-248 | with non-negative costs and margin and a sign-preserving round, the reported profit is not negative |
| Store.IngredientRowOf | data_handler.py:47-54 | the written ingredient row is all text and keeps the given name |
| Store.IngredientRowFields | data_handler.py:38-54 | read back by column, the row holds the name, price, grams and grams needed as given, the price per gram rounded to 4 places (or 0) and the cost rounded to 2 |
| Store.IngredientRow | data_handler.py:34-62 | nothing is written exactly when one of the three float() conversions raises; otherwise a text row |
| Store.CostPerRecipe | data_handler.py:40-44 | the cost is price x grams needed / grams for positive grams, and 0 otherwise |
| Store.DerivedFieldsRecomputed | data_handler.py:38-54 | rows that agree on name, price, grams and grams needed are stored identically: the caller's derived columns are ignored |
| Store.FlourScenario | demo.py:21-24 | the demo's flour, added through the store, is the row of 2.50, 1000 and 250, with 0.0025 per gram and a cost of 0.625, before rounding to 4 and 2 places |
| Store.EnteredDataRow | data_handler.py:34-54 | the four entry texts, when their numbers convert, give the row of those numbers |
| Store.ZeroGramsAccepted | data_handler.py:40-53 | zero grams is accepted; the price per gram is stored as "0" and the cost as round(0, 2) |
| Store.RecipeRowOf | data_handler.py:173-182 | the written recipe row is all text and keeps the recipe name |
| Store.RecipeRow | data_handler.py:150-190 | nothing is written exactly when there is no costing data and the total ingredient cost does not convert; otherwise a text row |
| Store.CostingDataWritten | data_handler.py:153-182 | with costing data, its total ingredient cost is stored as given and its misc, labor, total, selling price and profit rounded to cents |
| Store.FallbackUsesDefaultMargin | data_handler.py:161-170 | without costing data, the row holds the figures of margin 150, with selling = 2.5 x total |
| Store.MatchingSnoc | data_handler.py:142-144 | one more row extends the matches by that row exactly when its name contains the query |
| Store.MatchingMembers | data_handler.py:142-144 | a row is a match exactly when it is one of the rows and its lower-cased name contains the query |
| Store.SearchResultMeaning | data_handler.py:133-146 | a blank query returns the full listing; otherwise, in order and with multiplicity, exactly the rows whose lower-cased name contains the lower-cased query |
| Store.FilterByName | data_handler.py:140-146 | the loop collects exactly the matching rows, in order |
| Store.TextRowsHaveTextNames | data_handler.py:64-74 | every name in rows read from a CSV file is a string, so the name join accepts them |
| Store.JoinNames | data_handler.py:252 | the join succeeds exactly when every name is a string |
| Store.MergeAppends | data_handler.py:261-265 | saving only appends ingredients, and each appended row is the row of some input item |
| Store.MergeOneNames | data_handler.py:262-265 | one pass adds the item's name when it is new and converts, and no other name |
| Store.MergeNames | data_handler.py:261-265 | a name is stored afterwards exactly when it was stored before, or some input item with that name converts |
| Store.MergeKeepsEveryName | data_handler.py:261-265 | when every input converts, every input name is stored afterwards |
| Store.MergeAddsNoDuplicates | data_handler.py:261-265 | no appended row repeats a name earlier in the store, even when a name occurs several times in the input |
| Store.DataHandler.constructor | data_handler.py:6-9 | the store opens on the current contents of both files |
| Store.DataHandler.AddIngredient | data_handler.py:34-62 | returns True exactly when the row converts; then exactly that row is appended, otherwise nothing changes |
| Store.DataHandler.GetAllIngredients | data_handler.py:64-74 | returns the stored ingredient rows |
| Store.DataHandler.UpdateIngredient | data_handler.py:76-111 | returns True exactly when the index is in range and the row converts; then only that position is replaced, otherwise nothing changes |
| Store.DataHandler.DeleteIngredient | data_handler.py:113-131 | returns True exactly when the index is in range; then only that row is removed (the listing loses exactly one occurrence of it), otherwise nothing changes |
| Store.DataHandler.SearchIngredients | data_handler.py:133-146 | returns the search result over the ingredient names |
| Store.DataHandler.AddRecipe | data_handler.py:150-190 | returns True exactly when the row can be built; then exactly that row is appended, otherwise nothing changes |
| Store.DataHandler.GetAllRecipes | data_handler.py:192-202 | returns the stored recipe rows |
| Store.DataHandler.SearchRecipes | data_handler.py:204-217 | returns the search result over the recipe names |
| Store.DataHandler.CalculateRecipeCost | data_handler.py:221-270 | returns the costing (empty when a cost, or on saving a name, fails); without saving or on failure nothing is written; on a saved costing, one recipe row with those figures and the names joined is appended, and the ingredients become the merge of the inputs |
| Store.DataHandler.AddMissingIngredients | data_handler.py:261-265 | the ingredient file becomes the merge of the used ingredients into it: a row whose name is not yet present is appended, in order, and nothing else changes |
| Calculator.FilteredMeaning | ui_calculator.py:283-296 | a blank search shows everything; otherwise, in order and with multiplicity, exactly the ingredients whose name contains the stripped, lower-cased text |
| Calculator.FilterIgnoresSurroundingBlanks | ui_calculator.py:283 | surrounding blanks in the search text change nothing |
| Calculator.FirstIndexMeaning | ui_calculator.py:302-304 | the index lookup finds the least position with the name, and fails exactly when no position has it |
| Calculator.ShownEntryIsWired | ui_calculator.py:299-304 | every shown entry has a global index, so the StopIteration fallback is never taken |
| Calculator.Wire | ui_calculator.py:299-305 | every shown checkbox reports the first position of the full listing that has its name |
| Calculator.WithoutMeaning | ui_calculator.py:373-376 | clearing a checkbox removes every selected entry with that name and keeps the others in order |
| Calculator.CheckboxKeepsNamesDistinct | ui_calculator.py:363-376 | ticking and clearing checkboxes keeps the selected names pairwise distinct |
| Calculator.NewIngredientFrom | ui_calculator.py:378-423 | a blank field, a text float() rejects and zero grams are reported, checked in that order |
| Calculator.TypedEntryFields | ui_calculator.py:405-412 | the typed entry holds the stripped texts and the cost rounded to 2 places |
| Calculator.AddedEntryIsTyped | ui_calculator.py:392-412 | an accepted entry has converting texts and non-zero grams, is the typed entry of them, and carries the stripped, non-empty name |
| Calculator.TypedEntryUsable | ui_calculator.py:401-411 | a typed entry is costed at round(price / grams x needed, 2), and the store accepts it with its name and recomputed columns |
| Calculator.ZeroGramsOnlyRejectedHere | ui_calculator.py:401 | zero grams stops the calculator with a division error, while the store accepts the same texts |
| Calculator.Validate | ui_calculator.py:425-448 | no ingredients, no name, a bad margin and a negative margin are refused, checked in that order; a ready request has the stripped name and a non-negative margin parsed from the text |
| Calculator.BlankMarginIsDefault | ui_calculator.py:437-442 | a blank margin field means margin 150 |
| Calculator.ValidatedNeverLoses | ui_calculator.py:441-456 | a validated request with non-negative costs never reports a loss |
| Calculator.CalculatorFrame.constructor | ui_calculator.py:6-19 | the view starts with an empty selection and the store's listing |
| Calculator.CalculatorFrame.RefreshIngredients | ui_calculator.py:276-279 | the listing is reloaded from the store, and the selection is kept |
| Calculator.CalculatorFrame.OnSearchIngredients | ui_calculator.py:281-305 | shows the filtered entries, each wired to the first position of the listing with its name |
| Calculator.CalculatorFrame.OnIngredientSelection | ui_calculator.py:363-376 | an entry is added when it is ticked and its name is new; every entry with that name is removed when it is cleared; an out-of-range index changes nothing |
| Calculator.CalculatorFrame.AddNewIngredient | ui_calculator.py:378-423 | an accepted entry is appended without a duplicate check; otherwise the selection is unchanged |
| Calculator.CalculatorFrame.CalculateCost | ui_calculator.py:425-462 | validates, then costs the selection; nothing is stored |
| Calculator.CalculatorFrame.CalculateAndSave | ui_calculator.py:464-508 | validates, then costs and saves; on failure nothing changes; on success the selection is cleared, one recipe is appended and the ingredients are merged |
| Calculator.CalculatorFrame.ClearRecipeForm | ui_calculator.py:550-555 | the selection is emptied |
| RecipesView.ExactMatchMeaning | ui_recipes.py:134-137 | the exact lookup returns the value of the first filled candidate, and nothing exactly when no candidate is filled |
| RecipesView.FuzzyMatchMeaning | ui_recipes.py:138-141 | the fuzzy lookup returns the first filled value whose key mentions a candidate, and nothing exactly when there is none |
| RecipesView.FindField | ui_recipes.py:131-142 | the result is "" or a non-empty value of the row |
| RecipesView.ExactMatchAt | ui_recipes.py:134-137 | the exact lookup stops at the first filled candidate |
| RecipesView.FindFieldPrefersExact | ui_recipes.py:134-137 | when a candidate is filled, the first filled candidate's value is returned |
| RecipesView.FindFieldFallsBackToFuzzy | ui_recipes.py:138-142 | only when no candidate is filled does the fuzzy lookup decide, with "" when it also fails |
| RecipesView.FindFieldEmptyIff | ui_recipes.py:131-142 | "" is returned exactly when neither lookup finds a filled value |
| RecipesView.StoredRowFindsItsColumns | ui_recipes.py:155-158 | on a row the store wrote, the total and ingredients candidates find the intended columns |
| RecipesView.FirstWordyMeaning | ui_recipes.py:164-168 | the recovery takes the first value, in row order, that reads as text |
| RecipesView.RecoverIngredientsMeaning | ui_recipes.py:160-168 | a value not looking like an amount is kept, and so is an amount when no value of the row reads as text |
| RecipesView.RecoveryHappensIff | ui_recipes.py:162-168 | the value is replaced exactly when it is truthy, looks like an amount, and some value of the row reads as text |
| RecipesView.RecoveredIsFirstWordy | ui_recipes.py:162-168 | a replaced value is the first value of the row, in row order, that reads as text |
| RecipesView.PatternTestIsRedundant | ui_recipes.py:165-166 | a value with a letter never looks like an amount, so the inner pattern test rejects nothing |
| RecipesView.WithoutRecipeMeaning | ui_recipes.py:292 | the fallback removes every displayed row with that recipe name and keeps the rest in order |
| RecipesView.RecipesFrame.constructor | ui_recipes.py:7-19 | the view starts on the stored recipes |
| RecipesView.RecipesFrame.RefreshRecipes | ui_recipes.py:111-122 | the display is reloaded from the store |
| RecipesView.RecipesFrame.DeleteRecipe | ui_recipes.py:279-310 | a recipe without a name is refused with nothing changed; otherwise the rows with that name are filtered, then the display is the unchanged store again, so the recipe is still shown |

## Left out

- File I/O is not modelled. Each file is its sequence of rows, so open and write
  errors, and the `print` of each error message, are not modelled.
  `_ensure_files_exist` is modelled only as "a missing file is an empty one".
- CSV quoting and header drift are not modelled. The model does not produce a
  `DictReader` row with a `None` key, because `restkey` collects extra columns
  under it. Such a key would make `key.lower()` raise in `_find_field`'s fuzzy
  lookup. Nor does it model a `DictWriter` `ValueError` when a row carries a key
  outside the header during `update_ingredient` or `delete_ingredient`.
  Short rows are not modelled either. `restval` fills their missing columns with
  `None`, so `ingredient.get("Ingredient Name", "")` can be `None`. Its `.lower()`
  then raises `AttributeError`, uncaught, in `search_ingredients`
  (data_handler.py:143), in `search_recipes` (data_handler.py:214) and in the
  calculator's filter (ui_calculator.py:290-293). The model's rows hold only text,
  so they cannot express this failure.
- Floating point is not modelled. Numbers are exact reals. `float()`, `str()` and
  `round()` are abstract functions of the `Runtime` value, so NaN, infinities,
  signed zero and the exact grammar `float()` accepts are outside the model.
- Text is ASCII only. `lower()`, `strip()`, `isalpha()` and the `\d` and `\s` of the
  amount pattern are modelled over ASCII characters. Unicode case mapping and
  Unicode whitespace are not.
- `export_recipe_costing` writes a report file. It is I/O and is used by no modelled
  operation.
- The widgets are not modelled: labels, entries, the status line, the cost breakdown
  display, clearing the entry fields, the confirmation dialog and the recipe
  details dialog. `_safe_currency` only formats text for display.
- Calculator.CalculatorFrame.ClearRecipeForm: only the selection is modelled. The
  resets of the name and margin entries are widget state.
- The `on_refresh_callback` notifications to other views are not modelled. They call
  code outside this core.
- The ingredients view (ui_ingredients.py, including `_clear_all`), the dashboard,
  the help and about pages, and main.py are not part of this model.
- Store.DataHandler.CalculateRecipeCost: "every input ingredient name is present
  afterwards" holds only for items whose fields convert, because the failure of
  `add_ingredient` is ignored. `MergeNames` and `MergeKeepsEveryName` state the
  property that does hold.
- Store.DataHandler.CalculateRecipeCost: for an empty ingredient list, Python's `sum` gives
  the integer 0 and `round(0, 2)` keeps it an integer, so "0" is written as the total
  ingredient cost. The model has real numbers only and writes `str(round(0.0, 2))`.
  The calculator never sends an empty list (ui_calculator.py:427-429).
- Calculator.CalculatorFrame.CalculateAndSave: its ensures gives only the length
  and prefix of the new recipe listing. The appended row itself is what
  `CalculateRecipeCost` states.
