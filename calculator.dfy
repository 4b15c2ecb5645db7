/** The recipe calculator view (`CalculatorFrame` in ui_calculator.py) without its
    widgets: the list of ingredients on offer, the name filter over it, the
    selection the recipe is costed from, the typed-in ingredient, and the
    validation that runs before the store is asked for a costing. */
module Calculator {
  import opened Strings
  import opened Seqs
  import opened Records
  import opened Costing
  import opened Store

  // ===== Filtering the ingredient checklist =====

  /** The ingredients shown for the search box text: the query is stripped and
      lower-cased, and an empty query shows everything. */
  function Filtered(all: seq<Record>, query: string): seq<Record> {
    var q := Lower(Strip(query));
    if q == [] then all else Matching(all, NameKey, q)
  }

  /** A blank search box shows every ingredient; otherwise exactly the ingredients
      whose lower-cased name contains the stripped, lower-cased text are shown, in
      their order and each as often as it occurs. */
  lemma FilteredMeaning(all: seq<Record>, query: string)
    ensures IsBlank(query) ==> Filtered(all, query) == all
    ensures !IsBlank(query) ==>
      IsSubsequence(Filtered(all, query), all)
      && forall r :: multiset(Filtered(all, query))[r]
           == if Contains(Lower(NameText(r, NameKey)), Lower(Strip(query))) then multiset(all)[r] else 0
  {
    StripEmptyIffBlank(query);
    var q := Lower(Strip(query));
    assert |q| == |Strip(query)|;
    if !IsBlank(query) {
      var p := (r: Record) => NameMatches(NameKey, q, r);
      assert Filtered(all, query) == Filter(all, p);
      FilterIsSubsequence(all, p);
      forall r ensures multiset(Filter(all, p))[r] == if p(r) then multiset(all)[r] else 0 {
        FilterCount(all, p, r);
      }
    }
  }

  /** Unlike the store's search, the view strips the query first: surrounding
      blanks never hide a match. */
  lemma FilterIgnoresSurroundingBlanks(all: seq<Record>, query: string)
    ensures Filtered(all, query) == Filtered(all, Strip(query))
  {
    var s := Strip(query);
    var l := TrimLeft(s);
    assert l == s by {
      if s != [] {
        assert !IsSpace(TrimLeft(query)[0]);
        assert s[0] == TrimLeft(query)[0];
      }
    }
    assert TrimRight(l) == l by {
      if l != [] {
        assert !IsSpace(l[|l| - 1]);
      }
    }
  }

  /** `next(idx for idx, ing in enumerate(all) if ing.get("Ingredient Name") == name)`:
      the first position holding that name, None where `next` raises StopIteration. */
  function FirstIndexWithName(all: seq<Record>, name: Option<Cell>): Option<nat> {
    if all == [] then None
    else if Get(all[0], NameKey) == name then Some(0)
    else
      match FirstIndexWithName(all[1..], name)
      case None => None
      case Some(k) => Some(k + 1)
  }

  /** The lookup finds the least position holding the name, and raises exactly
      when no position holds it. */
  lemma {:induction false} FirstIndexMeaning(all: seq<Record>, name: Option<Cell>)
    ensures FirstIndexWithName(all, name).Some? ==>
      var k := FirstIndexWithName(all, name).value;
      k < |all| && Get(all[k], NameKey) == name && forall j :: 0 <= j < k ==> Get(all[j], NameKey) != name
    ensures FirstIndexWithName(all, name).None? <==> forall j :: 0 <= j < |all| ==> Get(all[j], NameKey) != name
  {
    if all != [] && Get(all[0], NameKey) != name {
      FirstIndexMeaning(all[1..], name);
      forall j | 0 <= j < |all[1..]| ensures all[1..][j] == all[j + 1] { }
    }
  }

  /** The checkbox for `entry` is wired to position `index` of `all`: the first one
      with the same name. */
  ghost predicate WiredTo(all: seq<Record>, entry: Record, index: nat) {
    index < |all| && Get(all[index], NameKey) == Get(entry, NameKey)
    && forall j :: 0 <= j < index ==> Get(all[j], NameKey) != Get(entry, NameKey)
  }

  /** Every shown entry comes from `all`, so the first index with its name exists. */
  lemma ShownEntryIsWired(all: seq<Record>, query: string, x: Record)
    requires x in Filtered(all, query)
    ensures FirstIndexWithName(all, Get(x, NameKey)).Some?
  {
    var q := Lower(Strip(query));
    if q != [] {
      MatchingMembers(all, NameKey, q, x);
    }
    var j :| 0 <= j < |all| && all[j] == x;
    FirstIndexMeaning(all, Get(x, NameKey));
    assert Get(all[j], NameKey) == Get(x, NameKey);
  }

  /** The loop of `_on_search_ingredients` that gives every shown entry the global
      index its checkbox reports. */
  method Wire(all: seq<Record>, shown: seq<Record>, ghost query: string) returns (wired: seq<nat>)
    requires shown == Filtered(all, query)
    ensures |wired| == |shown|
    ensures forall i :: 0 <= i < |shown| ==> WiredTo(all, shown[i], wired[i])
  {
    wired := [];
    var i := 0;
    while i < |shown|
      invariant 0 <= i <= |shown| && |wired| == i
      invariant forall k :: 0 <= k < i ==> WiredTo(all, shown[k], wired[k])
    {
      ShownEntryIsWired(all, query, shown[i]);
      FirstIndexMeaning(all, Get(shown[i], NameKey));
      var at := FirstIndexWithName(all, Get(shown[i], NameKey));
      var g := if at.Some? then at.value else i;
      wired := wired + [g];
      i := i + 1;
    }
  }

  // ===== The selection =====

  /** The selection without every entry named `name`. */
  function Without(selected: seq<Record>, name: Cell): seq<Record> {
    Filter(selected, (r: Record) => NameCell(r) != name)
  }

  /** Deselecting removes every entry with that name and keeps the rest, in order
      and with their multiplicity. */
  lemma WithoutMeaning(selected: seq<Record>, name: Cell)
    ensures name !in Names(Without(selected, name))
    ensures IsSubsequence(Without(selected, name), selected)
    ensures forall r :: multiset(Without(selected, name))[r]
                      == if NameCell(r) != name then multiset(selected)[r] else 0
  {
    var p := (r: Record) => NameCell(r) != name;
    var w := Without(selected, name);
    assert w == Filter(selected, p);
    FilterIsSubsequence(selected, p);
    forall r ensures multiset(w)[r] == if p(r) then multiset(selected)[r] else 0 {
      FilterCount(selected, p, r);
    }
    forall i | 0 <= i < |w| ensures Names(w)[i] != name {
      assert p(w[i]);
    }
  }

  /** No two selected entries share a name. */
  ghost predicate DistinctNames(selected: seq<Record>) {
    forall i, j :: 0 <= i < j < |selected| ==> NameCell(selected[i]) != NameCell(selected[j])
  }

  /** The selection after a checkbox at position `index` of `all` is ticked
      (`checked`) or cleared. */
  function AfterCheckbox(selected: seq<Record>, all: seq<Record>, index: int, checked: bool): seq<Record> {
    if !(0 <= index < |all|) then selected
    else if checked then
      (if NameCell(all[index]) in Names(selected) then selected else selected + [all[index]])
    else Without(selected, NameCell(all[index]))
  }

  /** Ticking and clearing checkboxes keeps the selected names pairwise distinct. */
  lemma CheckboxKeepsNamesDistinct(selected: seq<Record>, all: seq<Record>, index: int, checked: bool)
    requires DistinctNames(selected)
    ensures DistinctNames(AfterCheckbox(selected, all, index, checked))
  {
    if 0 <= index < |all| {
      var name := NameCell(all[index]);
      if checked && name !in Names(selected) {
        var s := selected + [all[index]];
        forall i | 0 <= i < |selected| ensures NameCell(s[i]) != NameCell(s[|selected|]) {
          assert Names(selected)[i] == NameCell(selected[i]);
        }
      } else if !checked {
        var p := (r: Record) => NameCell(r) != name;
        var w := Without(selected, name);
        assert w == Filter(selected, p);
        FilterIsSubsequence(selected, p);
        SubsequenceKeepsDistinct(w, selected);
      }
    }
  }

  /** A subsequence of a list of distinct names has distinct names. */
  lemma {:induction false} SubsequenceKeepsDistinct(a: seq<Record>, b: seq<Record>)
    requires IsSubsequence(a, b) && DistinctNames(b)
    ensures DistinctNames(a)
    decreases |b|
  {
    if a != [] && b != [] {
      var b' := b[..|b| - 1];
      assert DistinctNames(b') by {
        forall i, j | 0 <= i < j < |b'| ensures NameCell(b'[i]) != NameCell(b'[j]) {
          assert b'[i] == b[i] && b'[j] == b[j];
        }
      }
      if a[|a| - 1] == b[|b| - 1] {
        var a' := a[..|a| - 1];
        SubsequenceKeepsDistinct(a', b');
        SubsequenceElements(a', b');
        forall i | 0 <= i < |a'| ensures NameCell(a[i]) != NameCell(a[|a| - 1]) {
          var k :| 0 <= k < |b'| && b'[k] == a'[i];
          assert b[k] == a[i] && b[|b| - 1] == a[|a| - 1];
        }
        forall i, j | 0 <= i < j < |a| ensures NameCell(a[i]) != NameCell(a[j]) {
          if j < |a| - 1 {
            assert a[i] == a'[i] && a[j] == a'[j];
          }
        }
      } else {
        SubsequenceKeepsDistinct(a, b');
      }
    }
  }

  /** Every element of a subsequence is an element of the sequence. */
  lemma {:induction false} SubsequenceElements(a: seq<Record>, b: seq<Record>)
    requires IsSubsequence(a, b)
    ensures forall i :: 0 <= i < |a| ==> exists k :: 0 <= k < |b| && b[k] == a[i]
    decreases |b|
  {
    if a != [] && b != [] {
      var b' := b[..|b| - 1];
      if a[|a| - 1] == b[|b| - 1] {
        var a' := a[..|a| - 1];
        SubsequenceElements(a', b');
        forall i | 0 <= i < |a| ensures exists k :: 0 <= k < |b| && b[k] == a[i] {
          if i < |a'| {
            var k :| 0 <= k < |b'| && b'[k] == a'[i];
            assert b[k] == a[i];
          } else {
            assert b[|b| - 1] == a[i];
          }
        }
      } else {
        SubsequenceElements(a, b');
        forall i | 0 <= i < |a| ensures exists k :: 0 <= k < |b| && b[k] == a[i] {
          var k :| 0 <= k < |b'| && b'[k] == a[i];
          assert b[k] == a[i];
        }
      }
    }
  }

  // ===== The typed-in ingredient =====

  /** What "Add to Recipe" does with the four entry texts. */
  datatype NewIngredient =
    | Added(entry: Record)
      /** "Please fill in all fields for new ingredient" */
    | MissingField
      /** "Price, Grams, and Grams Needed must be valid numbers" */
    | NotNumeric
      /** `float(price) / float(grams)` with zero grams raises ZeroDivisionError,
          which nothing catches: the handler stops and nothing is added. */
    | DivisionByZero

  /** The outcome of `_add_new_ingredient_to_recipe` for the four entry texts. */
  function NewIngredientFrom(rt: Runtime, name: string, price: string, grams: string, needed: string)
    : (r: NewIngredient)
    ensures r.MissingField? <==> Strip(name) == [] || Strip(price) == [] || Strip(grams) == [] || Strip(needed) == []
    ensures r.NotNumeric? <==>
      !r.MissingField? && (rt.parse(Strip(price)).None? || rt.parse(Strip(grams)).None? || rt.parse(Strip(needed)).None?)
    ensures r.DivisionByZero? <==> !r.MissingField? && !r.NotNumeric? && rt.parse(Strip(grams)) == Some(0.0)
  {
    var n, p, g, k := Strip(name), Strip(price), Strip(grams), Strip(needed);
    if n == [] || p == [] || g == [] || k == [] then MissingField
    else if rt.parse(p).None? || rt.parse(g).None? || rt.parse(k).None? then NotNumeric
    else if rt.parse(g).value == 0.0 then DivisionByZero
    else Added(TypedEntry(rt, n, p, g, k, rt.parse(p).value, rt.parse(g).value, rt.parse(k).value))
  }

  /** The dictionary built for a typed-in ingredient: the four texts as typed
      (stripped), with the price per gram and the cost as rounded floats. */
  function TypedEntry(rt: Runtime, name: string, price: string, grams: string, needed: string,
                      p: real, g: real, k: real): Record
    requires g != 0.0
  {
    [ (NameKey, Str(name)),
      (PriceKey, Str(price)),
      (GramsKey, Str(grams)),
      (PricePerGramKey, Float(rt.round(p / g, 4))),
      (GramsNeededKey, Str(needed)),
      (CostKey, Float(rt.round(p / g * k, 2))) ]
  }

  /** Read back by key, a typed entry gives its texts and its rounded cost. */
  lemma TypedEntryFields(rt: Runtime, name: string, price: string, grams: string, needed: string,
                         p: real, g: real, k: real)
    requires g != 0.0
    ensures Get(TypedEntry(rt, name, price, grams, needed, p, g, k), NameKey) == Some(Str(name))
    ensures Get(TypedEntry(rt, name, price, grams, needed, p, g, k), PriceKey) == Some(Str(price))
    ensures Get(TypedEntry(rt, name, price, grams, needed, p, g, k), GramsKey) == Some(Str(grams))
    ensures Get(TypedEntry(rt, name, price, grams, needed, p, g, k), GramsNeededKey) == Some(Str(needed))
    ensures Get(TypedEntry(rt, name, price, grams, needed, p, g, k), CostKey) == Some(Float(rt.round(p / g * k, 2)))
  {
    var e := TypedEntry(rt, name, price, grams, needed, p, g, k);
    IngredientKeysDistinct();
    GetAt(e, 1, PriceKey);
    GetAt(e, 2, GramsKey);
    GetAt(e, 4, GramsNeededKey);
    GetAt(e, 5, CostKey);
  }

  /** An accepted entry is the typed entry of the stripped texts and their numbers,
      the grams are not zero, and the entry carries the stripped, non-empty name. */
  lemma AddedEntryIsTyped(rt: Runtime, name: string, price: string, grams: string, needed: string)
    requires NewIngredientFrom(rt, name, price, grams, needed).Added?
    ensures rt.parse(Strip(price)).Some? && rt.parse(Strip(grams)).Some? && rt.parse(Strip(needed)).Some?
    ensures rt.parse(Strip(grams)).value != 0.0
    ensures NewIngredientFrom(rt, name, price, grams, needed).entry
         == TypedEntry(rt, Strip(name), Strip(price), Strip(grams), Strip(needed),
                       rt.parse(Strip(price)).value, rt.parse(Strip(grams)).value, rt.parse(Strip(needed)).value)
    ensures Strip(name) != [] && NameCell(NewIngredientFrom(rt, name, price, grams, needed).entry) == Str(Strip(name))
  {
    TypedEntryFields(rt, Strip(name), Strip(price), Strip(grams), Strip(needed),
                     rt.parse(Strip(price)).value, rt.parse(Strip(grams)).value, rt.parse(Strip(needed)).value);
  }

  /** A typed entry is costed at its rounded `price / grams x grams needed`, and the
      store accepts it when the recipe is saved: its texts convert, the name is kept,
      and the derived columns are recomputed from the three inputs. */
  lemma TypedEntryUsable(rt: Runtime, name: string, price: string, grams: string, needed: string,
                         p: real, g: real, k: real)
    requires g != 0.0 && rt.parse(price) == Some(p) && rt.parse(grams) == Some(g) && rt.parse(needed) == Some(k)
    ensures CostOf(rt, TypedEntry(rt, name, price, grams, needed, p, g, k)) == Some(rt.round(p / g * k, 2))
    ensures IngredientRow(rt, TypedEntry(rt, name, price, grams, needed, p, g, k))
         == Some(IngredientRowOf(rt, Str(name), p, g, k))
  {
    TypedEntryFields(rt, name, price, grams, needed, p, g, k);
  }

  /** Zero grams: the calculator stops with a division error, while the store,
      given the same texts, accepts the ingredient with a price per gram of 0. */
  lemma ZeroGramsOnlyRejectedHere(rt: Runtime, name: string, price: string, grams: string, needed: string)
    requires Strip(name) != [] && Strip(price) != [] && Strip(grams) != [] && Strip(needed) != []
    requires rt.parse(Strip(price)).Some? && rt.parse(Strip(needed)).Some? && rt.parse(Strip(grams)) == Some(0.0)
    ensures NewIngredientFrom(rt, name, price, grams, needed) == DivisionByZero
    ensures IngredientRow(rt, EnteredData(Strip(name), Strip(price), Strip(grams), Strip(needed))).Some?
  {
    EnteredDataRow(rt, Strip(name), Strip(price), Strip(grams), Strip(needed));
  }

  // ===== Validation before costing =====

  /** What "Calculate Cost" and "Calculate & Save" do before calling the store. */
  datatype CostRequest =
    | NoIngredients   // "Please select at least one ingredient"
    | NoRecipeName    // "Please enter a recipe name"
    | NegativeMargin  // "Margin percentage must be positive"
    | BadMargin       // "Margin percentage must be a valid number"
    | Ready(name: string, margin: real)

  /** The margin text as used: stripped, and "150" when that leaves nothing. */
  function MarginText(text: string): string {
    if Strip(text) == [] then "150" else Strip(text)
  }

  /** The checks of `_calculate_cost` and `_calculate_and_save`, in their order. */
  function Validate(rt: Runtime, selected: seq<Record>, nameText: string, marginText: string): (r: CostRequest)
    ensures r.NoIngredients? <==> selected == []
    ensures r.NoRecipeName? <==> selected != [] && Strip(nameText) == []
    ensures r.Ready? ==> selected != [] && r.name == Strip(nameText) && r.name != []
    ensures r.Ready? ==> r.margin >= 0.0 && rt.parse(MarginText(marginText)) == Some(r.margin)
    ensures r.BadMargin? ==> rt.parse(MarginText(marginText)).None?
    ensures r.NegativeMargin? ==> rt.parse(MarginText(marginText)).Some? && rt.parse(MarginText(marginText)).value < 0.0
  {
    if selected == [] then NoIngredients
    else if Strip(nameText) == [] then NoRecipeName
    else
      match rt.parse(MarginText(marginText))
      case None => BadMargin
      case Some(m) => if m < 0.0 then NegativeMargin else Ready(Strip(nameText), m)
  }

  /** A blank margin field means the default margin of 150. */
  lemma BlankMarginIsDefault(rt: Runtime, selected: seq<Record>, nameText: string, marginText: string)
    requires selected != [] && Strip(nameText) != [] && IsBlank(marginText)
    requires rt.parse("150") == Some(150.0)
    ensures Validate(rt, selected, nameText, marginText) == Ready(Strip(nameText), DefaultMargin)
  {
    StripEmptyIffBlank(marginText);
  }

  /** Every validated request has a non-negative margin, so with non-negative costs
      the reported profit is never negative. */
  lemma ValidatedNeverLoses(rt: Runtime, selected: seq<Record>, nameText: string, marginText: string)
    requires Validate(rt, selected, nameText, marginText).Ready?
    requires forall i :: 0 <= i < |selected| && CostOf(rt, selected[i]).Some? ==> CostOf(rt, selected[i]).value >= 0.0
    requires forall x: real :: x >= 0.0 ==> rt.round(x, 2) >= 0.0
    ensures var m := Validate(rt, selected, nameText, marginText).margin;
      Calculate(rt, selected, m).Some? ==> Calculate(rt, selected, m).value.profit >= 0.0
  {
    CalculatedProfitNonNegative(rt, selected, Validate(rt, selected, nameText, marginText).margin);
  }

  // ===== The view =====

  class CalculatorFrame {
    const handler: DataHandler
    /** `selected_ingredients`: the entries the recipe is costed from. */
    var selected: seq<Record>
    /** `all_ingredients`: the store's listing as last loaded. */
    var all: seq<Record>

    /** The view starts with an empty selection and loads the listing. */
    constructor (handler: DataHandler)
      ensures this.handler == handler && selected == [] && all == handler.ingredients
    {
      this.handler := handler;
      selected := [];
      all := handler.ingredients;
    }

    /** `_refresh_ingredients` */
    method RefreshIngredients()
      modifies this`all
      ensures all == handler.ingredients && selected == old(selected)
    {
      all := handler.GetAllIngredients();
    }

    /** `_on_search_ingredients`: the filtered ingredients, each with the position
        of `all` its checkbox reports when ticked. The StopIteration fallback is
        never taken: every shown entry is wired to the first entry of `all` with its
        name. */
    method OnSearchIngredients(query: string) returns (shown: seq<Record>, wired: seq<nat>)
      ensures shown == Filtered(all, query)
      ensures |wired| == |shown|
      ensures forall i :: 0 <= i < |shown| ==> WiredTo(all, shown[i], wired[i])
    {
      var q := Lower(Strip(query));
      if q != [] {
        shown := FilterByName(all, NameKey, q);
      } else {
        shown := all;
      }
      wired := Wire(all, shown, query);
    }

    /** `_on_ingredient_selection` */
    method OnIngredientSelection(index: int, checked: bool)
      modifies this`selected
      ensures selected == AfterCheckbox(old(selected), all, index, checked)
    {
      if checked {
        if 0 <= index < |all| {
          var entry := all[index];
          var name := NameCell(entry);
          if name !in Names(selected) {
            selected := selected + [entry];
          }
        }
      } else {
        if 0 <= index < |all| {
          var name := NameCell(all[index]);
          selected := Without(selected, name);
        }
      }
    }

    /** `_add_new_ingredient_to_recipe`: the entry is appended, with no check for
        a duplicate name; any other outcome leaves the selection alone. */
    method AddNewIngredient(name: string, price: string, grams: string, needed: string)
      returns (r: NewIngredient)
      modifies this`selected
      ensures r == NewIngredientFrom(handler.rt, name, price, grams, needed)
      ensures selected == if r.Added? then old(selected) + [r.entry] else old(selected)
    {
      r := NewIngredientFrom(handler.rt, name, price, grams, needed);
      if r.Added? {
        selected := selected + [r.entry];
      }
    }

    /** `_calculate_cost`: validation, then a costing that stores nothing. */
    method CalculateCost(nameText: string, marginText: string) returns (req: CostRequest, r: Option<CostResult>)
      requires handler.Valid()
      modifies handler
      ensures handler.Valid()
      ensures req == Validate(handler.rt, selected, nameText, marginText)
      ensures r == if req.Ready? then Calculate(handler.rt, selected, req.margin) else None
      ensures handler.ingredients == old(handler.ingredients) && handler.recipes == old(handler.recipes)
    {
      req := Validate(handler.rt, selected, nameText, marginText);
      r := None;
      if req.Ready? {
        r := handler.CalculateRecipeCost(req.name, selected, false, req.margin);
      }
    }

    /** `_calculate_and_save`: validation, a costing that is stored, and on success
        the form is cleared. */
    method CalculateAndSave(nameText: string, marginText: string) returns (req: CostRequest, r: Option<CostResult>)
      requires handler.Valid()
      modifies handler, this`selected
      ensures handler.Valid()
      ensures req == Validate(handler.rt, old(selected), nameText, marginText)
      ensures r == if req.Ready? && TextNames(old(selected)) then Calculate(handler.rt, old(selected), req.margin) else None
      ensures r.None? ==>
        && selected == old(selected)
        && handler.ingredients == old(handler.ingredients) && handler.recipes == old(handler.recipes)
      ensures r.Some? ==>
        && selected == []
        && handler.ingredients == Merge(handler.rt, old(handler.ingredients), old(selected))
        && |handler.recipes| == |old(handler.recipes)| + 1
        && handler.recipes[..|old(handler.recipes)|] == old(handler.recipes)
    {
      req := Validate(handler.rt, selected, nameText, marginText);
      r := None;
      if req.Ready? {
        r := handler.CalculateRecipeCost(req.name, selected, true, req.margin);
        if r.Some? {
          ClearRecipeForm();
        }
      }
    }

    /** `_clear_recipe_form`, as far as the selection is concerned. */
    method ClearRecipeForm()
      modifies this`selected
      ensures selected == []
    {
      selected := [];
    }
  }
}
