/** The values the costing application keeps in its row dictionaries, and the
    Python library operations it applies to them. */
module Records {
  import opened Strings

  datatype Option<T> = None | Some(value: T)

  /** A dictionary value: a Python `str` or a Python `float`. Rows read from a CSV
      file hold only strings; the calculator also keeps floats in the rows it builds. */
  datatype Cell = Str(s: string) | Float(x: real)

  /** A row dictionary, as the list of its items in insertion order. */
  type Record = seq<(string, Cell)>

  /** The library functions the model leaves abstract:
      `parse` is `float()` applied to a string (None where it raises ValueError),
      `show` is `str()` applied to a float (the text the csv writer stores),
      `round` is the built-in `round(x, n)`. */
  datatype Runtime = Runtime(parse: string -> Option<real>, show: real -> string, round: (real, nat) -> real)

  // Column names of ingredients.csv
  const NameKey := "Ingredient Name"
  const PriceKey := "Price"
  const GramsKey := "Grams"
  const PricePerGramKey := "Price per Gram"
  const GramsNeededKey := "Grams Needed in Recipe"
  const CostKey := "Cost per Recipe"

  // Column names of recipes.csv
  const RecipeNameKey := "Recipe Name"
  const TotalIngredientCostKey := "Total Ingredient Cost"
  const MiscKey := "Miscellaneous Cost (50%)"
  const LaborKey := "Labor Cost (45%)"
  const TotalCostKey := "Total Cost"
  const SellingPriceKey := "Suggested Selling Price"
  const ProfitKey := "Profit"
  const IngredientsUsedKey := "Ingredients Used"

  /** `record.get(key)`: the value of the item with that key, if any. */
  function Get(r: Record, key: string): Option<Cell> {
    if r == [] then None
    else if r[0].0 == key then Some(r[0].1)
    else Get(r[1..], key)
  }

  /** `get` finds the first item with the key, and finds nothing exactly when no
      item has it. */
  lemma {:induction false} GetMeaning(r: Record, key: string)
    ensures Get(r, key).Some? ==>
      exists i :: 0 <= i < |r| && r[i] == (key, Get(r, key).value) && forall j :: 0 <= j < i ==> r[j].0 != key
    ensures Get(r, key).None? <==> forall i :: 0 <= i < |r| ==> r[i].0 != key
  {
    if r != [] && r[0].0 != key {
      GetMeaning(r[1..], key);
      if Get(r, key).Some? {
        var i :| 0 <= i < |r[1..]| && r[1..][i] == (key, Get(r, key).value) && forall j :: 0 <= j < i ==> r[1..][j].0 != key;
        assert r[i + 1] == (key, Get(r, key).value);
      }
      forall i | 0 <= i < |r[1..]| ensures r[1..][i] == r[i + 1] { }
    }
    if r != [] && r[0].0 == key {
      assert r[0] == (key, Get(r, key).value);
    }
  }

  /** The value at position `i` is what `get` returns when no earlier item has
      the same key. */
  lemma {:induction false} GetAt(r: Record, i: nat, key: string)
    requires i < |r| && r[i].0 == key
    requires forall j :: 0 <= j < i ==> r[j].0 != key
    ensures Get(r, key) == Some(r[i].1)
  {
    if i > 0 {
      GetAt(r[1..], i - 1, key);
    }
  }

  /** The column names of ingredients.csv are pairwise distinct. */
  lemma IngredientKeysDistinct()
    ensures NameKey != PriceKey && NameKey != GramsKey && NameKey != PricePerGramKey
    ensures NameKey != GramsNeededKey && NameKey != CostKey
    ensures PriceKey != GramsKey && PriceKey != PricePerGramKey && PriceKey != GramsNeededKey
    ensures PriceKey != CostKey && GramsKey != PricePerGramKey && GramsKey != GramsNeededKey
    ensures GramsKey != CostKey && PricePerGramKey != GramsNeededKey && PricePerGramKey != CostKey
    ensures GramsNeededKey != CostKey
  {
    assert NameKey[0] == 'I' && PriceKey[0] == 'P' && GramsKey[0] == 'G';
    assert PricePerGramKey[0] == 'P' && GramsNeededKey[0] == 'G' && CostKey[0] == 'C';
    assert |PriceKey| == 5 && |GramsKey| == 5 && |PricePerGramKey| == 14 && |GramsNeededKey| == 22;
  }

  /** The column names of recipes.csv are pairwise distinct. */
  lemma RecipeKeysDistinct()
    ensures RecipeNameKey != TotalIngredientCostKey && RecipeNameKey != MiscKey
    ensures RecipeNameKey != LaborKey && RecipeNameKey != TotalCostKey
    ensures RecipeNameKey != SellingPriceKey && RecipeNameKey != ProfitKey
    ensures RecipeNameKey != IngredientsUsedKey
    ensures TotalIngredientCostKey != MiscKey && TotalIngredientCostKey != LaborKey
    ensures TotalIngredientCostKey != TotalCostKey && TotalIngredientCostKey != SellingPriceKey
    ensures TotalIngredientCostKey != ProfitKey && TotalIngredientCostKey != IngredientsUsedKey
    ensures MiscKey != LaborKey && MiscKey != TotalCostKey && MiscKey != SellingPriceKey
    ensures MiscKey != ProfitKey && MiscKey != IngredientsUsedKey
    ensures LaborKey != TotalCostKey && LaborKey != SellingPriceKey && LaborKey != ProfitKey
    ensures LaborKey != IngredientsUsedKey
    ensures TotalCostKey != SellingPriceKey && TotalCostKey != ProfitKey && TotalCostKey != IngredientsUsedKey
    ensures SellingPriceKey != ProfitKey && SellingPriceKey != IngredientsUsedKey
    ensures ProfitKey != IngredientsUsedKey
  {
    assert RecipeNameKey[0] == 'R' && TotalIngredientCostKey[0] == 'T' && MiscKey[0] == 'M';
    assert LaborKey[0] == 'L' && TotalCostKey[0] == 'T' && SellingPriceKey[0] == 'S';
    assert ProfitKey[0] == 'P' && IngredientsUsedKey[0] == 'I';
    assert |TotalIngredientCostKey| == 21 && |TotalCostKey| == 10;
  }

  /** `record.get(key, default)` */
  function GetOr(r: Record, key: string, default: Cell): Cell {
    match Get(r, key)
    case Some(v) => v
    case None => default
  }

  /** `float(v)`: a float is returned as it is, a string is parsed. */
  function ToFloat(rt: Runtime, c: Cell): Option<real> {
    match c
    case Str(s) => rt.parse(s)
    case Float(x) => Some(x)
  }

  /** `float(record.get(key, 0))`: a missing key reads as the integer 0. */
  function FloatField(rt: Runtime, r: Record, key: string): Option<real> {
    match Get(r, key)
    case None => Some(0.0)
    case Some(c) => ToFloat(rt, c)
  }

  /** `str(v)` */
  function CellText(rt: Runtime, c: Cell): string {
    match c
    case Str(s) => s
    case Float(x) => rt.show(x)
  }

  /** What the csv writer stores for a value, as it reads back: its text. */
  function Render(rt: Runtime, c: Cell): (r: Cell)
    ensures r.Str?
    ensures c.Str? ==> r == c
  {
    Str(CellText(rt, c))
  }

  /** Every value of the row is a string, as in a row read from a CSV file. */
  predicate AllText(r: Record) {
    forall i :: 0 <= i < |r| ==> r[i].1.Str?
  }

  predicate AllRowsText(rows: seq<Record>) {
    forall i :: 0 <= i < |rows| ==> AllText(rows[i])
  }

  /** In a row read from a CSV file, `get` finds a string or nothing. */
  lemma {:induction false} GetOfText(r: Record, key: string)
    requires AllText(r)
    ensures Get(r, key).Some? ==> Get(r, key).value.Str?
  {
    if r != [] && r[0].0 != key {
      assert AllText(r[1..]) by {
        forall i | 0 <= i < |r[1..]| ensures r[1..][i].1.Str? {
          assert r[1..][i] == r[i + 1];
        }
      }
      GetOfText(r[1..], key);
    }
  }

  /** `record.get(key, "")` as the text it is lower-cased from. Every name the
      application stores or reads is a string; a float name is read as "". */
  function NameText(r: Record, key: string): string {
    match GetOr(r, key, Str(""))
    case Str(s) => s
    case Float(_) => ""
  }

  /** `query in record.get(key, "").lower()`, for a query already lower-cased. */
  predicate NameMatches(key: string, query: string, r: Record) {
    Contains(Lower(NameText(r, key)), query)
  }

  /** Python truthiness of a value: a non-empty string or a non-zero float. */
  predicate Truthy(c: Cell) {
    match c
    case Str(s) => s != ""
    case Float(x) => x != 0.0
  }
}
