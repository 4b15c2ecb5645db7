/** The storage and costing layer (`DataHandler` in data_handler.py). The two CSV
    files are modelled as the sequences of rows below their header lines: appending a
    line is a sequence append, rewriting the file is assigning a new sequence. */
module Store {
  import opened Strings
  import opened Seqs
  import opened Records
  import opened Costing

  // ===== Ingredient rows =====

  /** `price / grams if grams > 0 else 0` */
  function PricePerGram(price: real, grams: real): real {
    if grams > 0.0 then price / grams else 0.0
  }

  /** The text stored for `round(price_per_gram, 4)`. When grams is not positive the
      value is the integer literal 0, which the csv writer stores as "0". */
  function PricePerGramText(rt: Runtime, price: real, grams: real): string {
    if grams > 0.0 then rt.show(rt.round(price / grams, 4)) else "0"
  }

  /** The row `add_ingredient` appends and `update_ingredient` stores, as it reads back
      from ingredients.csv, for parsed price, grams and grams needed. */
  function IngredientRowOf(rt: Runtime, name: Cell, price: real, grams: real, needed: real): (row: Record)
    ensures AllText(row)
    ensures GetOr(row, NameKey, Str("")) == Render(rt, name)
  {
    [ (NameKey, Render(rt, name)),
      (PriceKey, Str(rt.show(price))),
      (GramsKey, Str(rt.show(grams))),
      (PricePerGramKey, Str(PricePerGramText(rt, price, grams))),
      (GramsNeededKey, Str(rt.show(needed))),
      (CostKey, Str(rt.show(rt.round(PricePerGram(price, grams) * needed, 2)))) ]
  }

  /** Read back column by column, the stored row holds the name, the three inputs
      as given, and the two derived values. */
  lemma IngredientRowFields(rt: Runtime, name: Cell, price: real, grams: real, needed: real)
    ensures Get(IngredientRowOf(rt, name, price, grams, needed), NameKey) == Some(Render(rt, name))
    ensures Get(IngredientRowOf(rt, name, price, grams, needed), PriceKey) == Some(Str(rt.show(price)))
    ensures Get(IngredientRowOf(rt, name, price, grams, needed), GramsKey) == Some(Str(rt.show(grams)))
    ensures Get(IngredientRowOf(rt, name, price, grams, needed), PricePerGramKey)
         == Some(Str(PricePerGramText(rt, price, grams)))
    ensures Get(IngredientRowOf(rt, name, price, grams, needed), GramsNeededKey) == Some(Str(rt.show(needed)))
    ensures Get(IngredientRowOf(rt, name, price, grams, needed), CostKey)
         == Some(Str(rt.show(rt.round(PricePerGram(price, grams) * needed, 2))))
  {
    var row := IngredientRowOf(rt, name, price, grams, needed);
    IngredientKeysDistinct();
    GetAt(row, 1, PriceKey);
    GetAt(row, 2, GramsKey);
    GetAt(row, 3, PricePerGramKey);
    GetAt(row, 4, GramsNeededKey);
    GetAt(row, 5, CostKey);
  }

  /** The row written for `ingredient_data`, or None when one of the three `float()`
      conversions raises (then nothing is written and the call returns False). */
  function IngredientRow(rt: Runtime, data: Record): (row: Option<Record>)
    ensures row.None? <==>
      FloatField(rt, data, PriceKey).None? || FloatField(rt, data, GramsKey).None?
      || FloatField(rt, data, GramsNeededKey).None?
    ensures row.Some? ==> AllText(row.value)
  {
    var price := FloatField(rt, data, PriceKey);
    var grams := FloatField(rt, data, GramsKey);
    var needed := FloatField(rt, data, GramsNeededKey);
    if price.None? || grams.None? || needed.None? then None
    else Some(IngredientRowOf(rt, GetOr(data, NameKey, Str("")), price.value, grams.value, needed.value))
  }

  /** The cost per recipe is price x grams needed / grams when grams is positive and
      zero otherwise. */
  lemma CostPerRecipe(price: real, grams: real, needed: real)
    ensures grams > 0.0 ==> PricePerGram(price, grams) * needed == price * needed / grams
    ensures grams <= 0.0 ==> PricePerGram(price, grams) * needed == 0.0
  {
    if grams > 0.0 {
      calc {
        PricePerGram(price, grams) * needed;
        (price / grams) * needed;
        price * needed / grams;
      }
    }
  }

  /** The derived columns are recomputed from price, grams and grams needed: whatever
      the caller puts in "Price per Gram" or "Cost per Recipe" is never stored. */
  lemma DerivedFieldsRecomputed(rt: Runtime, data: Record, other: Record)
    requires forall k :: k in [NameKey, PriceKey, GramsKey, GramsNeededKey] ==> Get(data, k) == Get(other, k)
    ensures IngredientRow(rt, data) == IngredientRow(rt, other)
  {
    assert NameKey in [NameKey, PriceKey, GramsKey, GramsNeededKey];
    assert PriceKey in [NameKey, PriceKey, GramsKey, GramsNeededKey];
    assert GramsKey in [NameKey, PriceKey, GramsKey, GramsNeededKey];
    assert GramsNeededKey in [NameKey, PriceKey, GramsKey, GramsNeededKey];
  }

  /** The dictionary the ingredients view passes: the four entry texts. */
  function EnteredData(name: string, price: string, grams: string, needed: string): Record {
    [(NameKey, Str(name)), (PriceKey, Str(price)), (GramsKey, Str(grams)), (GramsNeededKey, Str(needed))]
  }

  /** Four entry texts whose numbers convert give the row of those numbers. */
  lemma EnteredDataRow(rt: Runtime, name: string, price: string, grams: string, needed: string)
    requires rt.parse(price).Some? && rt.parse(grams).Some? && rt.parse(needed).Some?
    ensures IngredientRow(rt, EnteredData(name, price, grams, needed))
         == Some(IngredientRowOf(rt, Str(name), rt.parse(price).value, rt.parse(grams).value, rt.parse(needed).value))
  {
    var data := EnteredData(name, price, grams, needed);
    IngredientKeysDistinct();
    GetAt(data, 1, PriceKey);
    GetAt(data, 2, GramsKey);
    GetAt(data, 3, GramsNeededKey);
  }

  /** The demo's flour, 2.50 for 1000 g with 250 g needed, as the store adds it:
      0.0025 per gram, rounded to 4 places, and a cost of 0.625 rounded to cents. */
  lemma FlourScenario(rt: Runtime)
    requires rt.parse("2.50") == Some(2.5) && rt.parse("1000") == Some(1000.0) && rt.parse("250") == Some(250.0)
    ensures PricePerGram(2.5, 1000.0) == 0.0025
    ensures PricePerGram(2.5, 1000.0) * 250.0 == 0.625
    ensures IngredientRow(rt, EnteredData("Flour", "2.50", "1000", "250"))
         == Some(IngredientRowOf(rt, Str("Flour"), 2.5, 1000.0, 250.0))
    ensures Get(IngredientRowOf(rt, Str("Flour"), 2.5, 1000.0, 250.0), PricePerGramKey)
         == Some(Str(rt.show(rt.round(0.0025, 4))))
    ensures Get(IngredientRowOf(rt, Str("Flour"), 2.5, 1000.0, 250.0), CostKey)
         == Some(Str(rt.show(rt.round(0.625, 2))))
  {
    EnteredDataRow(rt, "Flour", "2.50", "1000", "250");
    IngredientRowFields(rt, Str("Flour"), 2.5, 1000.0, 250.0);
  }

  /** Zero grams is accepted by the store: the price per gram is stored as "0" and
      the cost as the rounded 0. */
  lemma ZeroGramsAccepted(rt: Runtime, name: string, price: string, grams: string, needed: string)
    requires rt.parse(price).Some? && rt.parse(needed).Some? && rt.parse(grams) == Some(0.0)
    ensures IngredientRow(rt, EnteredData(name, price, grams, needed)).Some?
    ensures Get(IngredientRow(rt, EnteredData(name, price, grams, needed)).value, PricePerGramKey) == Some(Str("0"))
    ensures Get(IngredientRow(rt, EnteredData(name, price, grams, needed)).value, CostKey)
         == Some(Str(rt.show(rt.round(0.0, 2))))
  {
    EnteredDataRow(rt, name, price, grams, needed);
    IngredientRowFields(rt, Str(name), rt.parse(price).value, 0.0, rt.parse(needed).value);
  }

  // ===== Recipe rows =====

  /** The row `add_recipe` appends, as it reads back from recipes.csv. */
  function RecipeRowOf(rt: Runtime, data: Record, ingredientCost: real, misc: real, labor: real,
                       total: real, selling: real, profit: real): (row: Record)
    ensures AllText(row)
    ensures GetOr(row, RecipeNameKey, Str("")) == Render(rt, GetOr(data, RecipeNameKey, Str("")))
  {
    [ (RecipeNameKey, Render(rt, GetOr(data, RecipeNameKey, Str("")))),
      (TotalIngredientCostKey, Str(rt.show(ingredientCost))),
      (MiscKey, Str(rt.show(rt.round(misc, 2)))),
      (LaborKey, Str(rt.show(rt.round(labor, 2)))),
      (TotalCostKey, Str(rt.show(rt.round(total, 2)))),
      (SellingPriceKey, Str(rt.show(rt.round(selling, 2)))),
      (ProfitKey, Str(rt.show(rt.round(profit, 2)))),
      (IngredientsUsedKey, Render(rt, GetOr(data, IngredientsUsedKey, Str("")))) ]
  }

  /** The row `add_recipe(recipe_data, costing_data)` writes. With costing data its
      figures are written; without it (None, or an empty dictionary) the total
      ingredient cost is read from `recipe_data` and the figures are recomputed with
      the fixed 2.5 multiplier. None when that `float()` raises. */
  function RecipeRow(rt: Runtime, data: Record, costing: Option<CostResult>): (row: Option<Record>)
    ensures row.None? <==> costing.None? && FloatField(rt, data, TotalIngredientCostKey).None?
    ensures row.Some? ==> AllText(row.value)
  {
    match costing
    case Some(c) =>
      Some(RecipeRowOf(rt, data, c.totalIngredientCost, c.misc, c.labor, c.total, c.selling, c.profit))
    case None =>
      match FloatField(rt, data, TotalIngredientCostKey)
      case None => None
      case Some(t) =>
        var b := Price(t, FallbackMultiplier);
        Some(RecipeRowOf(rt, data, t, b.misc, b.labor, b.total, b.selling, b.profit))
  }

  /** With costing data, the supplied figures are what is stored: the total
      ingredient cost as given, the five others rounded to cents once more. */
  lemma CostingDataWritten(rt: Runtime, data: Record, c: CostResult)
    ensures Get(RecipeRow(rt, data, Some(c)).value, TotalIngredientCostKey)
         == Some(Str(rt.show(c.totalIngredientCost)))
    ensures Get(RecipeRow(rt, data, Some(c)).value, MiscKey) == Some(Str(rt.show(rt.round(c.misc, 2))))
    ensures Get(RecipeRow(rt, data, Some(c)).value, LaborKey) == Some(Str(rt.show(rt.round(c.labor, 2))))
    ensures Get(RecipeRow(rt, data, Some(c)).value, TotalCostKey) == Some(Str(rt.show(rt.round(c.total, 2))))
    ensures Get(RecipeRow(rt, data, Some(c)).value, SellingPriceKey) == Some(Str(rt.show(rt.round(c.selling, 2))))
    ensures Get(RecipeRow(rt, data, Some(c)).value, ProfitKey) == Some(Str(rt.show(rt.round(c.profit, 2))))
  {
    var row := RecipeRow(rt, data, Some(c)).value;
    RecipeKeysDistinct();
    GetAt(row, 1, TotalIngredientCostKey);
    GetAt(row, 2, MiscKey);
    GetAt(row, 3, LaborKey);
    GetAt(row, 4, TotalCostKey);
    GetAt(row, 5, SellingPriceKey);
    GetAt(row, 6, ProfitKey);
  }

  /** Without costing data the selling price is always 2.5 times the total cost,
      i.e. the figures of the default margin 150, whatever margin the caller meant. */
  lemma FallbackUsesDefaultMargin(rt: Runtime, data: Record)
    requires FloatField(rt, data, TotalIngredientCostKey).Some?
    ensures var t := FloatField(rt, data, TotalIngredientCostKey).value;
      var b := Price(t, Markup(DefaultMargin));
      RecipeRow(rt, data, None) == Some(RecipeRowOf(rt, data, t, b.misc, b.labor, b.total, b.selling, b.profit))
      && b.selling == 2.5 * b.total
  {
    DefaultMarginIsFallback(FloatField(rt, data, TotalIngredientCostKey).value);
  }

  // ===== Search =====

  /** The rows whose `key` value, lower-cased, contains the query `q`, in order. */
  function Matching(rows: seq<Record>, key: string, q: string): seq<Record> {
    Filter(rows, (r: Record) => NameMatches(key, q, r))
  }

  lemma MatchingSnoc(rows: seq<Record>, x: Record, key: string, q: string)
    ensures Matching(rows + [x], key, q) == Matching(rows, key, q) + (if NameMatches(key, q, x) then [x] else [])
  {
    assert (rows + [x])[..|rows + [x]| - 1] == rows;
  }

  /** A row is among the matches exactly when it is one of the rows and its name
      contains the query. */
  lemma MatchingMembers(rows: seq<Record>, key: string, q: string, x: Record)
    ensures x in Matching(rows, key, q) <==> x in rows && NameMatches(key, q, x)
  {
    FilterMembers(rows, (r: Record) => NameMatches(key, q, r), x);
  }

  /** What `search_ingredients` and `search_recipes` return: everything for a blank
      query, otherwise the matches of the lower-cased (not stripped) query. */
  function SearchResult(rows: seq<Record>, key: string, query: string): seq<Record> {
    if Strip(query) == [] then rows else Matching(rows, key, Lower(query))
  }

  /** A blank query returns the full listing in its order; any other query returns,
      in their original order, exactly the rows whose name contains the lower-cased
      query, each as often as it occurs. */
  lemma SearchResultMeaning(rows: seq<Record>, key: string, query: string)
    ensures IsBlank(query) ==> SearchResult(rows, key, query) == rows
    ensures !IsBlank(query) ==>
      IsSubsequence(SearchResult(rows, key, query), rows)
      && forall r :: multiset(SearchResult(rows, key, query))[r]
           == if Contains(Lower(NameText(r, key)), Lower(query)) then multiset(rows)[r] else 0
  {
    StripEmptyIffBlank(query);
    if !IsBlank(query) {
      var p := (r: Record) => NameMatches(key, Lower(query), r);
      assert SearchResult(rows, key, query) == Filter(rows, p);
      FilterIsSubsequence(rows, p);
      forall r ensures multiset(Filter(rows, p))[r] == if p(r) then multiset(rows)[r] else 0 {
        FilterCount(rows, p, r);
      }
    }
  }

  /** The filtering loop of `search_ingredients` (data_handler.py:140-146) and of
      `search_recipes` (data_handler.py:211-217). */
  method FilterByName(rows: seq<Record>, key: string, q: string) returns (matched: seq<Record>)
    ensures matched == Matching(rows, key, q)
  {
    matched := [];
    var i := 0;
    while i < |rows|
      invariant 0 <= i <= |rows|
      invariant matched == Matching(rows[..i], key, q)
    {
      MatchingSnoc(rows[..i], rows[i], key, q);
      assert rows[..i + 1] == rows[..i] + [rows[i]];
      if Contains(Lower(NameText(rows[i], key)), q) {
        matched := matched + [rows[i]];
      }
      i := i + 1;
    }
    assert rows[..|rows|] == rows;
  }

  // ===== Saving a calculated recipe =====

  /** `ing.get("Ingredient Name", "")` */
  function NameCell(r: Record): Cell {
    GetOr(r, NameKey, Str(""))
  }

  /** `[ing.get("Ingredient Name", "") for ing in rows]` */
  function Names(rows: seq<Record>): (names: seq<Cell>)
    ensures |names| == |rows|
    ensures forall i :: 0 <= i < |rows| ==> names[i] == NameCell(rows[i])
  {
    seq(|rows|, i requires 0 <= i < |rows| => NameCell(rows[i]))
  }

  /** Every name is a string, as `", ".join` demands. */
  predicate TextNames(rows: seq<Record>) {
    forall i :: 0 <= i < |rows| ==> NameCell(rows[i]).Str?
  }

  /** Rows read from a CSV file have string names, so reading a non-string name as
      "" (`NameText`) never applies to them, and `", ".join` accepts them. */
  lemma TextRowsHaveTextNames(rows: seq<Record>, key: string)
    requires AllRowsText(rows)
    ensures forall i :: 0 <= i < |rows| ==> GetOr(rows[i], key, Str("")).Str?
    ensures key == NameKey ==> TextNames(rows)
  {
    forall i | 0 <= i < |rows| ensures GetOr(rows[i], key, Str("")).Str? {
      GetOfText(rows[i], key);
    }
  }

  function Join(parts: seq<string>, sep: string): string {
    if parts == [] then ""
    else if |parts| == 1 then parts[0]
    else Join(parts[..|parts| - 1], sep) + sep + parts[|parts| - 1]
  }

  /** `", ".join([ing.get("Ingredient Name", "") for ing in items])`; None where the
      join raises because a name is not a string. */
  function JoinNames(items: seq<Record>): (text: Option<string>)
    ensures text.Some? <==> TextNames(items)
  {
    if TextNames(items) then Some(Join(seq(|items|, i requires 0 <= i < |items| => NameCell(items[i]).s), ", "))
    else None
  }

  /** The `recipe_data` dictionary `calculate_recipe_cost` passes to `add_recipe`. */
  function SavedRecipeData(rt: Runtime, name: string, ingredientCost: real, text: string): Record {
    [ (RecipeNameKey, Str(name)),
      (TotalIngredientCostKey, Str(rt.show(ingredientCost))),
      (IngredientsUsedKey, Str(text)) ]
  }

  /** One pass of the loop that adds unknown ingredients: the name is looked up in
      the store as it is now (exact, case-sensitive), and the ingredient is added only
      when it is absent and its fields convert. */
  function MergeOne(rt: Runtime, store: seq<Record>, item: Record): seq<Record> {
    if NameCell(item) in Names(store) then store
    else match IngredientRow(rt, item)
      case None => store
      case Some(row) => store + [row]
  }

  /** The ingredient store after the loop of `calculate_recipe_cost` has visited
      `items` in order. */
  function Merge(rt: Runtime, store: seq<Record>, items: seq<Record>): seq<Record> {
    if items == [] then store
    else MergeOne(rt, Merge(rt, store, items[..|items| - 1]), items[|items| - 1])
  }

  /** Merging only appends, and every appended row is the row of some input item. */
  lemma {:induction false} MergeAppends(rt: Runtime, store: seq<Record>, items: seq<Record>)
    ensures |store| <= |Merge(rt, store, items)|
    ensures Merge(rt, store, items)[..|store|] == store
    ensures forall j :: |store| <= j < |Merge(rt, store, items)| ==>
      exists i :: 0 <= i < |items| && IngredientRow(rt, items[i]) == Some(Merge(rt, store, items)[j])
  {
    if items != [] {
      var init := items[..|items| - 1];
      MergeAppends(rt, store, init);
      var m := Merge(rt, store, init);
      var m' := Merge(rt, store, items);
      forall j | |store| <= j < |m'|
        ensures exists i :: 0 <= i < |items| && IngredientRow(rt, items[i]) == Some(m'[j])
      {
        if j < |m| {
          assert m'[j] == m[j];
          var i :| 0 <= i < |init| && IngredientRow(rt, init[i]) == Some(m[j]);
          assert items[i] == init[i];
        } else {
          assert IngredientRow(rt, items[|items| - 1]) == Some(m'[j]);
        }
      }
    }
  }

  /** The item is named `n` and converts to a row. */
  ghost predicate Provides(rt: Runtime, item: Record, n: Cell) {
    NameCell(item) == n && IngredientRow(rt, item).Some?
  }

  /** Some item of `items` is named `n` and converts to a row. */
  ghost predicate Supplies(rt: Runtime, items: seq<Record>, n: Cell) {
    exists item :: item in items && Provides(rt, item, n)
  }

  lemma SuppliesSnoc(rt: Runtime, items: seq<Record>, n: Cell)
    requires items != []
    ensures Supplies(rt, items, n) <==>
      Supplies(rt, items[..|items| - 1], n) || Provides(rt, items[|items| - 1], n)
  {
    assert items == items[..|items| - 1] + [items[|items| - 1]];
  }

  /** One pass of the loop: with a string name, the item's name is present
      afterwards when it converts, and no other name appears. */
  lemma MergeOneNames(rt: Runtime, store: seq<Record>, item: Record, n: Cell)
    requires NameCell(item).Str?
    ensures n in Names(MergeOne(rt, store, item)) <==>
      n in Names(store) || (NameCell(item) == n && IngredientRow(rt, item).Some?)
  {
    if NameCell(item) !in Names(store) && IngredientRow(rt, item).Some? {
      var row := IngredientRow(rt, item).value;
      assert NameCell(row) == NameCell(item);
      assert Names(store + [row]) == Names(store) + [NameCell(item)];
    }
  }

  /** With string names: a name is in the store after merging exactly when it was
      there before or some input item with that name converts. */
  lemma {:induction false} MergeNames(rt: Runtime, store: seq<Record>, items: seq<Record>, n: Cell)
    requires TextNames(items)
    ensures n in Names(Merge(rt, store, items)) <==> n in Names(store) || Supplies(rt, items, n)
  {
    if items != [] {
      var init := items[..|items| - 1];
      assert TextNames(init) by {
        forall i | 0 <= i < |init| ensures NameCell(init[i]).Str? {
          assert init[i] == items[i];
        }
      }
      MergeNames(rt, store, init, n);
      MergeOneNames(rt, Merge(rt, store, init), items[|items| - 1], n);
      SuppliesSnoc(rt, items, n);
    }
  }

  /** When every item converts, every input name is in the store afterwards. */
  lemma MergeKeepsEveryName(rt: Runtime, store: seq<Record>, items: seq<Record>)
    requires TextNames(items)
    requires forall i :: 0 <= i < |items| ==> IngredientRow(rt, items[i]).Some?
    ensures forall i :: 0 <= i < |items| ==> NameCell(items[i]) in Names(Merge(rt, store, items))
  {
    forall i | 0 <= i < |items| ensures NameCell(items[i]) in Names(Merge(rt, store, items)) {
      assert Provides(rt, items[i], NameCell(items[i]));
      MergeNames(rt, store, items, NameCell(items[i]));
    }
  }

  /** With string names: no appended row repeats a name that is earlier in the store,
      so a name already present is never added again and a new name that occurs
      several times in the input is added once. */
  lemma {:induction false} MergeAddsNoDuplicates(rt: Runtime, store: seq<Record>, items: seq<Record>)
    requires TextNames(items)
    ensures var m := Merge(rt, store, items);
      forall j, k :: 0 <= j < k < |m| && |store| <= k ==> NameCell(m[j]) != NameCell(m[k])
  {
    if items != [] {
      var init := items[..|items| - 1];
      var last := items[|items| - 1];
      assert forall i :: 0 <= i < |init| ==> init[i] == items[i];
      MergeAddsNoDuplicates(rt, store, init);
      MergeAppends(rt, store, init);
      var m := Merge(rt, store, init);
      if NameCell(last) !in Names(m) && IngredientRow(rt, last).Some? {
        var row := IngredientRow(rt, last).value;
        var m' := m + [row];
        assert NameCell(row) == NameCell(last);
        forall j | 0 <= j < |m| ensures NameCell(m'[j]) != NameCell(m'[|m|]) {
          assert Names(m)[j] == NameCell(m[j]);
        }
      }
    }
  }

  // ===== The store =====

  class DataHandler {
    const rt: Runtime
    /** The rows of ingredients.csv, below the header. */
    var ingredients: seq<Record>
    /** The rows of recipes.csv, below the header. */
    var recipes: seq<Record>

    /** Both files hold text only. */
    ghost predicate Valid()
      reads this
    {
      AllRowsText(ingredients) && AllRowsText(recipes)
    }

    /** Opens the store on the current contents of the two files (a missing file
        is created with just its header, i.e. as empty). */
    constructor (rt: Runtime, ingredients: seq<Record>, recipes: seq<Record>)
      requires AllRowsText(ingredients) && AllRowsText(recipes)
      ensures Valid()
      ensures this.rt == rt && this.ingredients == ingredients && this.recipes == recipes
    {
      this.rt := rt;
      this.ingredients := ingredients;
      this.recipes := recipes;
    }

    /** `add_ingredient`: appends one row, or returns False and writes nothing. */
    method AddIngredient(data: Record) returns (ok: bool)
      requires Valid()
      modifies this`ingredients
      ensures Valid()
      ensures ok <==> IngredientRow(rt, data).Some?
      ensures ingredients == if ok then old(ingredients) + [IngredientRow(rt, data).value] else old(ingredients)
    {
      var row := IngredientRow(rt, data);
      if row.None? {
        return false;
      }
      ingredients := ingredients + [row.value];
      ok := true;
    }

    /** `get_all_ingredients` */
    method GetAllIngredients() returns (rows: seq<Record>)
      ensures rows == ingredients
    {
      rows := ingredients;
    }

    /** `update_ingredient`: replaces the row at `index` and rewrites the file. */
    method UpdateIngredient(index: int, data: Record) returns (ok: bool)
      requires Valid()
      modifies this`ingredients
      ensures Valid()
      ensures ok <==> 0 <= index < |old(ingredients)| && IngredientRow(rt, data).Some?
      ensures ok ==> ingredients == old(ingredients)[index := IngredientRow(rt, data).value]
      ensures !ok ==> ingredients == old(ingredients)
    {
      var rows := GetAllIngredients();
      if 0 <= index < |rows| {
        var row := IngredientRow(rt, data);
        if row.Some? {
          rows := rows[index := row.value];
          ingredients := rows;
          return true;
        }
      }
      return false;
    }

    /** `delete_ingredient`: removes the row at `index` and rewrites the file. */
    method DeleteIngredient(index: int) returns (ok: bool)
      requires Valid()
      modifies this`ingredients
      ensures Valid()
      ensures ok <==> 0 <= index < |old(ingredients)|
      ensures ok ==> ingredients == RemoveAt(old(ingredients), index)
      ensures ok ==> multiset(ingredients) + multiset{old(ingredients)[index]} == multiset(old(ingredients))
      ensures !ok ==> ingredients == old(ingredients)
    {
      var rows := GetAllIngredients();
      if 0 <= index < |rows| {
        RemoveAtMultiset(rows, index);
        rows := RemoveAt(rows, index);
        ingredients := rows;
        return true;
      }
      return false;
    }

    /** `search_ingredients` */
    method SearchIngredients(query: string) returns (rows: seq<Record>)
      ensures rows == SearchResult(ingredients, NameKey, query)
    {
      if Strip(query) == [] {
        rows := GetAllIngredients();
        return;
      }
      var q := Lower(query);
      var all := GetAllIngredients();
      rows := FilterByName(all, NameKey, q);
    }

    /** `add_recipe` in both of its modes. */
    method AddRecipe(data: Record, costing: Option<CostResult>) returns (ok: bool)
      requires Valid()
      modifies this`recipes
      ensures Valid()
      ensures ok <==> RecipeRow(rt, data, costing).Some?
      ensures recipes == if ok then old(recipes) + [RecipeRow(rt, data, costing).value] else old(recipes)
    {
      var row := RecipeRow(rt, data, costing);
      if row.None? {
        return false;
      }
      recipes := recipes + [row.value];
      ok := true;
    }

    /** `get_all_recipes` */
    method GetAllRecipes() returns (rows: seq<Record>)
      ensures rows == recipes
    {
      rows := recipes;
    }

    /** `search_recipes` */
    method SearchRecipes(query: string) returns (rows: seq<Record>)
      ensures rows == SearchResult(recipes, RecipeNameKey, query)
    {
      if Strip(query) == [] {
        rows := GetAllRecipes();
        return;
      }
      var q := Lower(query);
      var all := GetAllRecipes();
      rows := FilterByName(all, RecipeNameKey, q);
    }

    /** `calculate_recipe_cost`: the costing, and when `save` is set, one recipe row
        and the ingredients whose names the store does not have yet. None stands for
        the empty dictionary, returned with nothing written. */
    method CalculateRecipeCost(name: string, used: seq<Record>, save: bool, margin: real)
      returns (r: Option<CostResult>)
      requires Valid()
      modifies this`ingredients, this`recipes
      ensures Valid()
      ensures r == if save && !TextNames(used) then None else Calculate(rt, used, margin)
      ensures !save || r.None? ==> ingredients == old(ingredients) && recipes == old(recipes)
      ensures save && r.Some? ==>
        var data := SavedRecipeData(rt, name, SumCosts(rt, used).value, JoinNames(used).value);
        && recipes == old(recipes) + [RecipeRow(rt, data, r).value]
        && ingredients == Merge(rt, old(ingredients), used)
    {
      r := Calculate(rt, used, margin);
      if r.None? || !save {
        return;
      }
      var text := JoinNames(used);
      if text.None? {
        return None;
      }
      SumCostsFailsIff(rt, used);
      var data := SavedRecipeData(rt, name, SumCosts(rt, used).value, text.value);
      var saved := AddRecipe(data, r);
      AddMissingIngredients(used);
    }

    /** The loop that ends `calculate_recipe_cost`: each used ingredient whose name
        the store does not hold yet is added through `add_ingredient`. */
    method AddMissingIngredients(used: seq<Record>)
      requires Valid()
      modifies this`ingredients
      ensures Valid()
      ensures ingredients == Merge(rt, old(ingredients), used)
    {
      ghost var start := ingredients;
      var k := 0;
      while k < |used|
        invariant 0 <= k <= |used|
        invariant Valid()
        invariant ingredients == Merge(rt, start, used[..k])
      {
        assert used[..k + 1][..k] == used[..k];
        var existing := GetAllIngredients();
        var names := Names(existing);
        if NameCell(used[k]) !in names {
          var added := AddIngredient(used[k]);
        }
        k := k + 1;
      }
      assert used[..|used|] == used;
    }
  }
}
