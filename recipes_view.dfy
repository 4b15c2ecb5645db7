/** The saved-recipes view (`RecipesFrame` in ui_recipes.py) without its widgets:
    reading a figure from a row whose header may have drifted, recovering the
    ingredients text when the columns have shifted, and deleting a recipe. */
module RecipesView {
  import opened Strings
  import opened Seqs
  import opened Records
  import opened Store

  /** `v not in (None, "")` for a value that is present. */
  predicate Filled(c: Cell) {
    c != Str("")
  }

  /** `record.get(key)` gives a value that is not `None` and not `""`. */
  predicate FilledAt(record: Record, key: string) {
    Get(record, key).Some? && Filled(Get(record, key).value)
  }

  // ===== `_find_field` =====

  /** The first loop of `_find_field`: the value of the first candidate, in
      candidate order, that is present and not empty. */
  function ExactMatch(record: Record, candidates: seq<string>): Option<Cell> {
    if candidates == [] then None
    else if FilledAt(record, candidates[0]) then Get(record, candidates[0])
    else ExactMatch(record, candidates[1..])
  }

  lemma {:induction false} ExactMatchMeaning(record: Record, candidates: seq<string>)
    ensures ExactMatch(record, candidates).Some? ==>
      exists i :: 0 <= i < |candidates| && FilledAt(record, candidates[i])
        && Get(record, candidates[i]) == ExactMatch(record, candidates)
        && forall j :: 0 <= j < i ==> !FilledAt(record, candidates[j])
    ensures ExactMatch(record, candidates).None? <==>
      forall i :: 0 <= i < |candidates| ==> !FilledAt(record, candidates[i])
  {
    if candidates != [] && !FilledAt(record, candidates[0]) {
      var tail := candidates[1..];
      ExactMatchMeaning(record, tail);
      forall i | 0 <= i < |tail| ensures tail[i] == candidates[i + 1] { }
      if ExactMatch(record, tail).Some? {
        var i :| 0 <= i < |tail| && FilledAt(record, tail[i])
          && Get(record, tail[i]) == ExactMatch(record, tail)
          && forall j :: 0 <= j < i ==> !FilledAt(record, tail[j]);
        assert FilledAt(record, candidates[i + 1]);
      }
    }
  }

  /** The value of the first item of the record, in its order, that satisfies `p`:
      the shape of the early-return loops over `record.items()` and
      `record.values()`. */
  function FirstValue(record: Record, p: ((string, Cell)) -> bool): Option<Cell> {
    if record == [] then None
    else if p(record[0]) then Some(record[0].1)
    else FirstValue(record[1..], p)
  }

  lemma {:induction false} FirstValueMeaning(record: Record, p: ((string, Cell)) -> bool)
    ensures FirstValue(record, p).Some? ==>
      exists i :: 0 <= i < |record| && p(record[i]) && Some(record[i].1) == FirstValue(record, p)
        && forall j :: 0 <= j < i ==> !p(record[j])
    ensures FirstValue(record, p).None? <==> forall i :: 0 <= i < |record| ==> !p(record[i])
  {
    if record != [] && !p(record[0]) {
      var tail := record[1..];
      FirstValueMeaning(tail, p);
      forall i | 0 <= i < |tail| ensures tail[i] == record[i + 1] { }
      if FirstValue(tail, p).Some? {
        var i :| 0 <= i < |tail| && p(tail[i]) && Some(tail[i].1) == FirstValue(tail, p)
          && forall j :: 0 <= j < i ==> !p(tail[j]);
        assert record[i + 1] == tail[i];
      }
    }
  }

  /** `any(c.lower() in key.lower() for c in candidates)` */
  predicate Mentions(key: string, candidates: seq<string>) {
    exists i :: 0 <= i < |candidates| && Contains(Lower(key), Lower(candidates[i]))
  }

  /** The second loop of `_find_field`: the first value, in the record's order,
      whose key mentions a candidate and which is not empty. */
  function FuzzyMatch(record: Record, candidates: seq<string>): Option<Cell> {
    FirstValue(record, (kv: (string, Cell)) => Mentions(kv.0, candidates) && Filled(kv.1))
  }

  lemma FuzzyMatchMeaning(record: Record, candidates: seq<string>)
    ensures FuzzyMatch(record, candidates).Some? ==>
      exists i :: 0 <= i < |record| && Mentions(record[i].0, candidates) && Filled(record[i].1)
        && Some(record[i].1) == FuzzyMatch(record, candidates)
        && forall j :: 0 <= j < i ==> !(Mentions(record[j].0, candidates) && Filled(record[j].1))
    ensures FuzzyMatch(record, candidates).None? <==>
      forall i :: 0 <= i < |record| ==> !(Mentions(record[i].0, candidates) && Filled(record[i].1))
  {
    FirstValueMeaning(record, (kv: (string, Cell)) => Mentions(kv.0, candidates) && Filled(kv.1));
  }

  /** `_find_field(record, candidates)`: an exact lookup, then a fuzzy one, then "".
      Whatever it returns is "" or a non-empty value of the record. */
  function FindField(record: Record, candidates: seq<string>): (v: Cell)
    ensures v == Str("") || (Filled(v) && exists i :: 0 <= i < |record| && record[i].1 == v)
  {
    match ExactMatch(record, candidates)
    case Some(v) =>
      ExactMatchMeaning(record, candidates);
      var i :| 0 <= i < |candidates| && FilledAt(record, candidates[i]) && Get(record, candidates[i]) == Some(v);
      GetMeaning(record, candidates[i]);
      v
    case None =>
      match FuzzyMatch(record, candidates)
      case Some(v) =>
        FuzzyMatchMeaning(record, candidates);
        v
      case None => Str("")
  }

  /** The exact lookup returns the value of the first filled candidate. */
  lemma {:induction false} ExactMatchAt(record: Record, candidates: seq<string>, i: nat)
    requires i < |candidates| && FilledAt(record, candidates[i])
    requires forall j :: 0 <= j < i ==> !FilledAt(record, candidates[j])
    ensures ExactMatch(record, candidates) == Get(record, candidates[i])
  {
    if i > 0 {
      ExactMatchAt(record, candidates[1..], i - 1);
    }
  }

  /** When a candidate is filled, the first filled candidate wins. */
  lemma FindFieldPrefersExact(record: Record, candidates: seq<string>, i: nat)
    requires i < |candidates| && FilledAt(record, candidates[i])
    requires forall j :: 0 <= j < i ==> !FilledAt(record, candidates[j])
    ensures FindField(record, candidates) == Get(record, candidates[i]).value
  {
    ExactMatchAt(record, candidates, i);
  }

  /** Only when no candidate is filled does the fuzzy lookup decide, with "" when
      it finds nothing either. */
  lemma FindFieldFallsBackToFuzzy(record: Record, candidates: seq<string>)
    requires forall i :: 0 <= i < |candidates| ==> !FilledAt(record, candidates[i])
    ensures FindField(record, candidates)
         == if FuzzyMatch(record, candidates).Some? then FuzzyMatch(record, candidates).value else Str("")
  {
    ExactMatchMeaning(record, candidates);
  }

  /** `_find_field` gives "" exactly when no candidate is filled and no filled value
      has a key that mentions a candidate. */
  lemma FindFieldEmptyIff(record: Record, candidates: seq<string>)
    ensures FindField(record, candidates) == Str("") <==>
      (forall i :: 0 <= i < |candidates| ==> !FilledAt(record, candidates[i]))
      && forall i :: 0 <= i < |record| ==> !(Mentions(record[i].0, candidates) && Filled(record[i].1))
  {
    ExactMatchMeaning(record, candidates);
    FuzzyMatchMeaning(record, candidates);
    if ExactMatch(record, candidates).Some? {
      var i :| 0 <= i < |candidates| && FilledAt(record, candidates[i])
        && Get(record, candidates[i]) == ExactMatch(record, candidates)
        && forall j :: 0 <= j < i ==> !FilledAt(record, candidates[j]);
    }
  }

  // The candidate lists of `_create_recipe_row`.
  const TotalCandidates: seq<string> := ["Total Cost", "Total Ingredient Cost", "Total"]
  const SellingCandidates: seq<string> := ["Suggested Selling Price", "Selling Price", "Suggested Price"]
  const ProfitCandidates: seq<string> := ["Profit", "Net Profit"]
  const IngredientsCandidates: seq<string> := ["Ingredients Used", "Ingredients", "Ingredient List"]

  /** On a row the store wrote, the candidate lists find the columns they are
      meant for, whenever those hold text. */
  lemma StoredRowFindsItsColumns(rt: Runtime, data: Record, c: Costing.CostResult)
    requires var row := RecipeRow(rt, data, Some(c)).value;
      FilledAt(row, TotalCostKey) && FilledAt(row, IngredientsUsedKey)
    ensures var row := RecipeRow(rt, data, Some(c)).value;
      FindField(row, TotalCandidates) == Get(row, TotalCostKey).value
      && FindField(row, IngredientsCandidates) == Get(row, IngredientsUsedKey).value
  {
    var row := RecipeRow(rt, data, Some(c)).value;
    assert TotalCandidates[0] == TotalCostKey;
    assert IngredientsCandidates[0] == IngredientsUsedKey;
    FindFieldPrefersExact(row, TotalCandidates, 0);
    FindFieldPrefersExact(row, IngredientsCandidates, 0);
  }

  // ===== Column-shift recovery =====

  /** `re.match(r'^\$?\s*[\d\.,]+$', str(v).strip())` */
  predicate LooksNumeric(rt: Runtime, c: Cell) {
    LooksLikeAmount(Strip(CellText(rt, c)))
  }

  /** The test a value passes to be taken as the ingredients text: truthy, with a
      letter in it, and not looking like an amount. */
  predicate Wordy(rt: Runtime, c: Cell) {
    Truthy(c) && HasLetter(CellText(rt, c)) && !LooksNumeric(rt, c)
  }

  /** The first value of the record, in its order, that passes the test. */
  function FirstWordy(rt: Runtime, record: Record): Option<Cell> {
    FirstValue(record, (kv: (string, Cell)) => Wordy(rt, kv.1))
  }

  lemma FirstWordyMeaning(rt: Runtime, record: Record)
    ensures FirstWordy(rt, record).Some? ==>
      exists i :: 0 <= i < |record| && Wordy(rt, record[i].1) && Some(record[i].1) == FirstWordy(rt, record)
        && forall j :: 0 <= j < i ==> !Wordy(rt, record[j].1)
    ensures FirstWordy(rt, record).None? <==> forall i :: 0 <= i < |record| ==> !Wordy(rt, record[i].1)
  {
    FirstValueMeaning(record, (kv: (string, Cell)) => Wordy(rt, kv.1));
  }

  /** The ingredients text shown for a recipe row: a value that looks like an
      amount is replaced by the first value that reads as text, if there is one. */
  function RecoverIngredients(rt: Runtime, record: Record, raw: Cell): Cell {
    if Truthy(raw) && LooksNumeric(rt, raw) then
      match FirstWordy(rt, record)
      case Some(v) => v
      case None => raw
    else raw
  }

  lemma RecoverIngredientsMeaning(rt: Runtime, record: Record, raw: Cell)
    ensures !(Truthy(raw) && LooksNumeric(rt, raw)) ==> RecoverIngredients(rt, record, raw) == raw
    ensures Truthy(raw) && LooksNumeric(rt, raw) && (forall i :: 0 <= i < |record| ==> !Wordy(rt, record[i].1))
            ==> RecoverIngredients(rt, record, raw) == raw
  {
    FirstWordyMeaning(rt, record);
  }

  /** The value is replaced exactly when it looks like an amount and some value
      of the row reads as text. */
  lemma RecoveryHappensIff(rt: Runtime, record: Record, raw: Cell)
    ensures RecoverIngredients(rt, record, raw) != raw <==>
      Truthy(raw) && LooksNumeric(rt, raw) && exists i :: 0 <= i < |record| && Wordy(rt, record[i].1)
  {
    FirstWordyMeaning(rt, record);
    if Truthy(raw) && LooksNumeric(rt, raw) && FirstWordy(rt, record).Some? {
      var i :| 0 <= i < |record| && Wordy(rt, record[i].1) && Some(record[i].1) == FirstWordy(rt, record);
      assert !LooksNumeric(rt, record[i].1);
    }
  }

  /** A replaced value is the first value of the row, in its order, that reads as text. */
  lemma RecoveredIsFirstWordy(rt: Runtime, record: Record, raw: Cell)
    ensures RecoverIngredients(rt, record, raw) != raw ==>
      exists i :: 0 <= i < |record| && record[i].1 == RecoverIngredients(rt, record, raw)
        && Wordy(rt, record[i].1) && forall j :: 0 <= j < i ==> !Wordy(rt, record[j].1)
  {
    if RecoverIngredients(rt, record, raw) != raw {
      assert FirstWordy(rt, record) == Some(RecoverIngredients(rt, record, raw));
      FirstWordyMeaning(rt, record);
    }
  }

  /** A value with a letter in it never looks like an amount, so the second test of
      the recovery loop never rejects a value the first test accepted. */
  lemma PatternTestIsRedundant(rt: Runtime, c: Cell)
    ensures Wordy(rt, c) <==> Truthy(c) && HasLetter(CellText(rt, c))
  {
    var s := CellText(rt, c);
    if HasLetter(s) {
      StripKeepsLetters(s);
      LetterIsNotAmount(Strip(s));
    }
  }

  /** Stripping removes only whitespace, so a letter survives it. */
  lemma StripKeepsLetters(s: string)
    requires HasLetter(s)
    ensures HasLetter(Strip(s))
  {
    TrimLeftKeepsLetters(s);
    TrimRightKeepsLetters(TrimLeft(s));
  }

  lemma {:induction false} TrimLeftKeepsLetters(s: string)
    requires HasLetter(s)
    ensures HasLetter(TrimLeft(s))
  {
    if s != [] && IsSpace(s[0]) {
      var i :| 0 <= i < |s| && IsLetter(s[i]);
      assert i != 0;
      var tail := s[1..];
      assert tail[i - 1] == s[i];
      TrimLeftKeepsLetters(tail);
    }
  }

  lemma {:induction false} TrimRightKeepsLetters(s: string)
    requires HasLetter(s)
    ensures HasLetter(TrimRight(s))
  {
    if s != [] && IsSpace(s[|s| - 1]) {
      var i :| 0 <= i < |s| && IsLetter(s[i]);
      assert i != |s| - 1;
      var init := s[..|s| - 1];
      assert init[i] == s[i];
      TrimRightKeepsLetters(init);
    }
  }

  // ===== The view =====

  /** The rows left after removing every row named `name`; a row without a name
      column stays. */
  function WithoutRecipe(rows: seq<Record>, name: Cell): seq<Record> {
    Filter(rows, (r: Record) => Get(r, RecipeNameKey) != Some(name))
  }

  lemma WithoutRecipeMeaning(rows: seq<Record>, name: Cell)
    ensures forall i :: 0 <= i < |WithoutRecipe(rows, name)| ==> Get(WithoutRecipe(rows, name)[i], RecipeNameKey) != Some(name)
    ensures IsSubsequence(WithoutRecipe(rows, name), rows)
    ensures forall r :: multiset(WithoutRecipe(rows, name))[r]
                      == if Get(r, RecipeNameKey) != Some(name) then multiset(rows)[r] else 0
  {
    var p := (r: Record) => Get(r, RecipeNameKey) != Some(name);
    assert WithoutRecipe(rows, name) == Filter(rows, p);
    FilterIsSubsequence(rows, p);
    forall r ensures multiset(Filter(rows, p))[r] == if p(r) then multiset(rows)[r] else 0 {
      FilterCount(rows, p, r);
    }
  }

  class RecipesFrame {
    const handler: DataHandler
    /** `current_recipes`: the rows on display. */
    var current: seq<Record>

    /** The view loads the stored recipes when it is built. */
    constructor (handler: DataHandler)
      ensures this.handler == handler && current == handler.recipes
    {
      this.handler := handler;
      current := handler.recipes;
    }

    /** `_refresh_recipes` */
    method RefreshRecipes()
      modifies this`current
      ensures current == handler.recipes
    {
      current := handler.GetAllRecipes();
    }

    /** `_delete_recipe`. The store has no `delete_recipe`, so the rows named like
        the recipe are filtered out of the display (`filtered`) and the display is
        then reloaded from the store, which still holds them: the net effect is the
        stored listing, and nothing is removed from the store. A recipe without a
        name is refused and nothing changes. */
    method DeleteRecipe(recipe: Record) returns (ok: bool, ghost filtered: seq<Record>)
      modifies this`current
      ensures ok <==> Truthy(GetOr(recipe, RecipeNameKey, Str("")))
      ensures !ok ==> current == old(current)
      ensures ok ==> filtered == WithoutRecipe(old(current), GetOr(recipe, RecipeNameKey, Str("")))
      ensures ok ==> current == handler.recipes
      ensures ok && recipe in old(handler.recipes) ==> recipe in current
      ensures handler.recipes == old(handler.recipes) && handler.ingredients == old(handler.ingredients)
    {
      var name := GetOr(recipe, RecipeNameKey, Str(""));
      filtered := current;
      if !Truthy(name) {
        return false, filtered;
      }
      current := WithoutRecipe(current, name);
      filtered := current;
      RefreshRecipes();
      ok := true;
    }
  }
}
