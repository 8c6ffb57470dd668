/**
 * The logic of `pages/meal_plan_recommender.py`: the `calories_est` column, the calorie
 * estimator with its formula fallback, the chain of row filters that decides which
 * recipes are shown, and the session plan that is appended to, totalled, and cleared
 * once it has been saved to the meal log.
 */
module MealPlan {
  import opened Wrappers
  import opened Text
  import opened Cells
  import opened Seqs
  import opened TrackerUtils
  import opened Energy

  /** The columns of the recipe dataset that the page reads; `None` is a missing value. */
  datatype RecipeRow = RecipeRow(name: Option<string>, dietType: Option<string>, cuisine: Option<string>,
                                 protein: Option<real>, carbs: Option<real>, fat: Option<real>,
                                 caloriesEst: Option<real>)

  /** The dataset: whether it has a `calories_est` column, and its rows. */
  datatype RecipeTable = RecipeTable(hasCaloriesEst: bool, rows: seq<RecipeRow>)

  /** `4*df["Protein(g)"] + 4*df["Carbs(g)"] + 9*df["Fat(g)"]` on one row: NaN if any macro is. */
  function RowKcal(r: RecipeRow): (k: Option<real>)
    ensures k.Some? <==> r.protein.Some? && r.carbs.Some? && r.fat.Some?
    ensures k.Some? ==> k.value == Kcal(r.protein.value, r.carbs.value, r.fat.value)
  {
    if r.protein.Some? && r.carbs.Some? && r.fat.Some?
    then Some(Kcal(r.protein.value, r.carbs.value, r.fat.value))
    else None
  }

  /** Lines 46-47: add `calories_est` from the macros when the dataset has no such column. */
  function WithCaloriesEst(t: RecipeTable): (u: RecipeTable)
    ensures u.hasCaloriesEst && |u.rows| == |t.rows|
    ensures t.hasCaloriesEst ==> u == t
    ensures !t.hasCaloriesEst ==> forall i :: 0 <= i < |t.rows| ==>
              u.rows[i] == t.rows[i].(caloriesEst := RowKcal(t.rows[i]))
  {
    if t.hasCaloriesEst then t
    else RecipeTable(true, seq(|t.rows|, i requires 0 <= i < |t.rows| =>
                                 t.rows[i].(caloriesEst := RowKcal(t.rows[i]))))
  }

  /** Adding the column a second time changes nothing. */
  lemma WithCaloriesEstIdempotent(t: RecipeTable)
    ensures WithCaloriesEst(WithCaloriesEst(t)) == WithCaloriesEst(t)
  {
  }

  /** A computed `calories_est` is the macro energy; the other columns are untouched. */
  lemma ComputedCaloriesAreMacroEnergy(t: RecipeTable, i: nat)
    requires !t.hasCaloriesEst && i < |t.rows|
    requires t.rows[i].protein.Some? && t.rows[i].carbs.Some? && t.rows[i].fat.Some?
    ensures var r := WithCaloriesEst(t).rows[i];
            && r.caloriesEst == Some(Kcal(t.rows[i].protein.value, t.rows[i].carbs.value, t.rows[i].fat.value))
            && r.(caloriesEst := t.rows[i].caloriesEst) == t.rows[i]
  {
  }

  // ---------------------------------------------------------------------------
  // Calorie estimator (lines 57-67)
  // ---------------------------------------------------------------------------

  /** What happened with the saved calorie model. */
  datatype ModelOutcome =
    | NoModelFile              // the model file does not exist
    | ModelFailed              // loading it or predicting with it raised
    | Predicted(kcal: real)    // its prediction

  /** Which branch produced the estimate. */
  datatype EstimateSource = FromModel | FormulaFallback | Formula

  datatype Estimate = Estimate(kcal: real, source: EstimateSource)

  /** The estimator: the model's prediction when it has one, else the macro formula. */
  function EstimateCalories(protein: real, carbs: real, fat: real, model: ModelOutcome): (e: Estimate)
    ensures model.Predicted? ==> e == Estimate(model.kcal, FromModel)
    ensures model.ModelFailed? ==> e == Estimate(Kcal(protein, carbs, fat), FormulaFallback)
    ensures model.NoModelFile? ==> e == Estimate(Kcal(protein, carbs, fat), Formula)
  {
    match model
    case NoModelFile => Estimate(Kcal(protein, carbs, fat), Formula)
    case ModelFailed => Estimate(Kcal(protein, carbs, fat), FormulaFallback)
    case Predicted(k) => Estimate(k, FromModel)
  }

  /** Without a working model the estimate is exactly the formula, on either path. */
  lemma NoModelMeansFormula(protein: real, carbs: real, fat: real, model: ModelOutcome)
    requires !model.Predicted?
    ensures EstimateCalories(protein, carbs, fat, model).kcal == Kcal(protein, carbs, fat)
    ensures EstimateCalories(protein, carbs, fat, model).source != FromModel
  {
  }

  /** The page's default macros (20 g, 30 g, 10 g) give 290 kcal by the formula. */
  lemma DefaultEstimate(model: ModelOutcome)
    requires !model.Predicted?
    ensures EstimateCalories(20.0, 30.0, 10.0, model).kcal == 290.0
  {
  }

  // ---------------------------------------------------------------------------
  // Filter chain (lines 33, 49, 73-74, 83-86)
  // ---------------------------------------------------------------------------

  /** One boolean mask of the page. */
  datatype Criterion =
    | Diet(choice: string)                  // `Diet_type.str.lower() == choice.lower()`
    | CalorieBand(lower: real, upper: real) // `lower <= calories_est <= upper`
    | NameSearch(text: string)              // `Recipe_name.str.contains(text, case=False, na=False)`
    | CuisineIs(cuisine: string)            // `Cuisine_type == cuisine`

  /** Whether a row passes a mask; a missing value never does. */
  predicate Holds(c: Criterion, r: RecipeRow) {
    match c
    case Diet(choice) => r.dietType.Some? && Lower(r.dietType.value) == Lower(choice)
    case CalorieBand(lo, hi) => r.caloriesEst.Some? && lo <= r.caloriesEst.value <= hi
    case NameSearch(text) => r.name.Some? && Contains(Lower(r.name.value), Lower(text))
    case CuisineIs(cuisine) => r.cuisine == Some(cuisine)
  }

  /** A row passes every mask of `cs`. */
  predicate HoldsAll(cs: seq<Criterion>, r: RecipeRow) {
    forall k :: 0 <= k < |cs| ==> Holds(cs[k], r)
  }

  /** `df[mask]`: the rows that pass, in their original order. */
  function Where(rows: seq<RecipeRow>, c: Criterion): (r: seq<RecipeRow>)
    ensures forall x :: x in r <==> x in rows && Holds(c, x)
    ensures |r| <= |rows| && SubseqOf(r, rows)
    decreases |rows|
  {
    if rows == [] then []
    else
      assert rows == [rows[0]] + rows[1..];
      var rest := Where(rows[1..], c);
      if Holds(c, rows[0]) then
        assert ([rows[0]] + rest)[1..] == rest;
        [rows[0]] + rest
      else
        SubseqOfTail(rest, rows[0], rows[1..]);
        rest
  }

  /** The rows that pass all masks of `cs`, in their original order. */
  function WhereAll(rows: seq<RecipeRow>, cs: seq<Criterion>): (r: seq<RecipeRow>)
    decreases |rows|
  {
    if rows == [] then []
    else if HoldsAll(cs, rows[0]) then [rows[0]] + WhereAll(rows[1..], cs)
    else WhereAll(rows[1..], cs)
  }

  /** Applying masks one after another is applying their conjunction once. */
  lemma {:induction false} WhereThenWhere(rows: seq<RecipeRow>, cs: seq<Criterion>, c: Criterion)
    ensures Where(WhereAll(rows, cs), c) == WhereAll(rows, cs + [c])
    decreases |rows|
  {
    if rows != [] {
      WhereThenWhere(rows[1..], cs, c);
      assert HoldsAll(cs + [c], rows[0]) <==> HoldsAll(cs, rows[0]) && Holds(c, rows[0]) by {
        assert forall k :: 0 <= k < |cs| ==> (cs + [c])[k] == cs[k];
        assert (cs + [c])[|cs|] == c;
      }
      if HoldsAll(cs, rows[0]) {
        assert ([rows[0]] + WhereAll(rows[1..], cs))[1..] == WhereAll(rows[1..], cs);
      }
    }
  }

  /** With no masks every row passes. */
  lemma {:induction false} WhereNothing(rows: seq<RecipeRow>)
    ensures WhereAll(rows, []) == rows
    decreases |rows|
  {
    if rows != [] {
      WhereNothing(rows[1..]);
      assert rows == [rows[0]] + rows[1..];
    }
  }

  /** Masks commute: the order in which the page applies them does not matter. */
  lemma {:induction false} WhereCommutes(rows: seq<RecipeRow>, a: Criterion, b: Criterion)
    ensures Where(Where(rows, a), b) == Where(Where(rows, b), a)
    decreases |rows|
  {
    if rows != [] {
      WhereCommutes(rows[1..], a, b);
      var ra := Where(rows[1..], a);
      var rb := Where(rows[1..], b);
      if Holds(a, rows[0]) {
        assert ([rows[0]] + ra)[1..] == ra;
      }
      if Holds(b, rows[0]) {
        assert ([rows[0]] + rb)[1..] == rb;
      }
    }
  }

  /** `user.get("diet_type", "mediterranean")`. */
  function DietChoice(profileDiet: Option<string>): (d: string)
    ensures profileDiet.None? ==> d == "mediterranean"
    ensures profileDiet.Some? ==> d == profileDiet.value
  {
    profileDiet.GetOr("mediterranean")
  }

  /** The masks the page applies after the diet mask: the band, then the active search and cuisine masks. */
  function ActiveCriteria(choice: string, target: real, tolerance: real,
                          search: string, cuisine: string): (cs: seq<Criterion>)
    ensures |cs| >= 2 && cs[0] == Diet(choice) && cs[1] == CalorieBand(target - tolerance, target + tolerance)
    ensures NameSearch(search) in cs <==> search != ""
    ensures CuisineIs(cuisine) in cs <==> cuisine != "All"
  {
    [Diet(choice), CalorieBand(target - tolerance, target + tolerance)]
    + (if search != "" then [NameSearch(search)] else [])
    + (if cuisine != "All" then [CuisineIs(cuisine)] else [])
  }

  /** `filtered`: the rows of the chosen diet (line 49). */
  function DietRows(t: RecipeTable, choice: string): seq<RecipeRow> {
    Where(t.rows, Diet(choice))
  }

  /** `display_df` (lines 74, 82-86): the diet rows in the band, then by search, then by cuisine. */
  function Displayed(t: RecipeTable, choice: string, target: real, tolerance: real,
                     search: string, cuisine: string): seq<RecipeRow>
  {
    var meals := Where(DietRows(t, choice), CalorieBand(target - tolerance, target + tolerance));
    var searched := if search != "" then Where(meals, NameSearch(search)) else meals;
    if cuisine != "All" then Where(searched, CuisineIs(cuisine)) else searched
  }

  /**
   * The displayed rows are exactly the rows that pass every active mask, in dataset
   * order: the diet mask, the inclusive calorie band, the search unless it is empty,
   * and the cuisine unless it is "All".
   */
  lemma DisplayedIsConjunction(t: RecipeTable, choice: string, target: real, tolerance: real,
                               search: string, cuisine: string)
    ensures Displayed(t, choice, target, tolerance, search, cuisine)
            == WhereAll(t.rows, ActiveCriteria(choice, target, tolerance, search, cuisine))
  {
    var band := CalorieBand(target - tolerance, target + tolerance);
    WhereNothing(t.rows);
    WhereThenWhere(t.rows, [], Diet(choice));
    WhereThenWhere(t.rows, [Diet(choice)], band);
    var cs := [Diet(choice), band];
    assert [] + [Diet(choice)] == [Diet(choice)];
    assert [Diet(choice)] + [band] == cs;
    var cs2 := cs + (if search != "" then [NameSearch(search)] else []);
    if search != "" {
      WhereThenWhere(t.rows, cs, NameSearch(search));
    } else {
      assert cs2 == cs;
    }
    if cuisine != "All" {
      WhereThenWhere(t.rows, cs2, CuisineIs(cuisine));
    } else {
      assert cs2 + [] == cs2;
    }
  }

  /**
   * A row is displayed exactly when it is a dataset row passing every active mask, and
   * the displayed rows keep their order among the diet rows: each step only removes rows.
   */
  lemma DisplayedMembersAndOrder(t: RecipeTable, choice: string, target: real, tolerance: real,
                                 search: string, cuisine: string)
    ensures var shown := Displayed(t, choice, target, tolerance, search, cuisine);
            && SubseqOf(shown, DietRows(t, choice))
            && forall r :: r in shown <==>
                 && r in t.rows && Holds(Diet(choice), r)
                 && Holds(CalorieBand(target - tolerance, target + tolerance), r)
                 && (search != "" ==> Holds(NameSearch(search), r))
                 && (cuisine != "All" ==> Holds(CuisineIs(cuisine), r))
  {
    var meals := Where(DietRows(t, choice), CalorieBand(target - tolerance, target + tolerance));
    var searched := if search != "" then Where(meals, NameSearch(search)) else meals;
    var shown := Displayed(t, choice, target, tolerance, search, cuisine);
    SubseqRefl(meals);
    SubseqRefl(searched);
    SubseqTrans(searched, meals, DietRows(t, choice));
    SubseqTrans(shown, searched, DietRows(t, choice));
  }

  /**
   * On a dataset without `calories_est` the page first adds the column (lines 46-47) and
   * then filters: every displayed row is a dataset row with its macro energy added, all
   * three macros are present, and that energy lies in the calorie band.
   */
  lemma ShownRowsHaveMacroEnergyInBand(t: RecipeTable, choice: string, target: real, tolerance: real,
                                       search: string, cuisine: string, r: RecipeRow)
    requires !t.hasCaloriesEst
    requires r in Displayed(WithCaloriesEst(t), choice, target, tolerance, search, cuisine)
    ensures exists i :: 0 <= i < |t.rows| && r == t.rows[i].(caloriesEst := RowKcal(t.rows[i]))
    ensures r.protein.Some? && r.carbs.Some? && r.fat.Some?
    ensures target - tolerance <= Kcal(r.protein.value, r.carbs.value, r.fat.value) <= target + tolerance
  {
    var u := WithCaloriesEst(t);
    DisplayedMembersAndOrder(u, choice, target, tolerance, search, cuisine);
    var i :| 0 <= i < |u.rows| && u.rows[i] == r;
    assert r == t.rows[i].(caloriesEst := RowKcal(t.rows[i]));
  }

  /** A subsequence of a subsequence is a subsequence. */
  lemma {:induction false} SubseqTrans<T>(a: seq<T>, b: seq<T>, c: seq<T>)
    requires SubseqOf(a, b) && SubseqOf(b, c)
    ensures SubseqOf(a, c)
    decreases |c|
  {
    if a != [] {
      if b[0] == c[0] {
        if a[0] == b[0] {
          SubseqTrans(a[1..], b[1..], c[1..]);
        } else {
          SubseqTrans(a, b[1..], c[1..]);
        }
      } else {
        SubseqTrans(a, b, c[1..]);
        if a[0] == c[0] {
          SubseqDrop(a, c[1..]);
        }
      }
    }
  }

  /** Every sequence is a subsequence of itself. */
  lemma {:induction false} SubseqRefl<T>(a: seq<T>)
    ensures SubseqOf(a, a)
    decreases |a|
  {
    if a != [] {
      SubseqRefl(a[1..]);
    }
  }

  /** An empty search and the cuisine "All" apply no mask. */
  lemma InactiveMasksKeepAll(t: RecipeTable, choice: string, target: real, tolerance: real)
    ensures Displayed(t, choice, target, tolerance, "", "All")
            == Where(DietRows(t, choice), CalorieBand(target - tolerance, target + tolerance))
  {
  }

  // ---------------------------------------------------------------------------
  // Session plan (lines 99-139)
  // ---------------------------------------------------------------------------

  /** `row.to_dict()` restricted to the columns the log reads. */
  function ToDict(r: RecipeRow): (d: Row)
    ensures "Recipe_name" in d && "Protein(g)" in d && "Carbs(g)" in d && "Fat(g)" in d
    ensures d["Recipe_name"] == FromString(r.name)
    ensures d["Protein(g)"] == FromReal(r.protein)
    ensures d["Carbs(g)"] == FromReal(r.carbs)
    ensures d["Fat(g)"] == FromReal(r.fat)
  {
    map["Recipe_name" := FromString(r.name), "Diet_type" := FromString(r.dietType),
        "Cuisine_type" := FromString(r.cuisine), "Protein(g)" := FromReal(r.protein),
        "Carbs(g)" := FromReal(r.carbs), "Fat(g)" := FromReal(r.fat),
        "calories_est" := FromReal(r.caloriesEst)]
  }

  function Dicts(items: seq<RecipeRow>): (ds: seq<Row>)
    ensures |ds| == |items| && forall i :: 0 <= i < |items| ==> ds[i] == ToDict(items[i])
  {
    seq(|items|, i requires 0 <= i < |items| => ToDict(items[i]))
  }

  /** `plan_df[col].sum()` for one macro: missing values are skipped. */
  function SumOf(xs: seq<Option<real>>): real
    decreases |xs|
  {
    if xs == [] then 0.0 else SumOf(xs[..|xs| - 1]) + xs[|xs| - 1].GetOr(0.0)
  }

  function ProteinOf(items: seq<RecipeRow>): (xs: seq<Option<real>>)
    ensures |xs| == |items| && forall i :: 0 <= i < |items| ==> xs[i] == items[i].protein
  {
    seq(|items|, i requires 0 <= i < |items| => items[i].protein)
  }

  function CarbsOf(items: seq<RecipeRow>): (xs: seq<Option<real>>)
    ensures |xs| == |items| && forall i :: 0 <= i < |items| ==> xs[i] == items[i].carbs
  {
    seq(|items|, i requires 0 <= i < |items| => items[i].carbs)
  }

  function FatOf(items: seq<RecipeRow>): (xs: seq<Option<real>>)
    ensures |xs| == |items| && forall i :: 0 <= i < |items| ==> xs[i] == items[i].fat
  {
    seq(|items|, i requires 0 <= i < |items| => items[i].fat)
  }

  /** The summary totals of the session plan. */
  datatype Totals = Totals(protein: real, carbs: real, fat: real, kcal: real)

  /** Lines 123-126: sum each macro, then 4·protein + 4·carbs + 9·fat of the sums. */
  function PlanTotals(items: seq<RecipeRow>): (t: Totals)
    ensures t.kcal == Kcal(t.protein, t.carbs, t.fat)
  {
    var p := SumOf(ProteinOf(items));
    var c := SumOf(CarbsOf(items));
    var f := SumOf(FatOf(items));
    Totals(p, c, f, Kcal(p, c, f))
  }

  /** The energy of one item, a missing macro counting as 0. */
  function ItemKcal(r: RecipeRow): real {
    Kcal(r.protein.GetOr(0.0), r.carbs.GetOr(0.0), r.fat.GetOr(0.0))
  }

  /** The item energies added up one by one. */
  function SumItemKcal(items: seq<RecipeRow>): real
    decreases |items|
  {
    if items == [] then 0.0 else SumItemKcal(items[..|items| - 1]) + ItemKcal(items[|items| - 1])
  }

  /** The plan's total energy is the sum of the energies of its items. */
  lemma {:induction false} TotalIsSumOfItems(items: seq<RecipeRow>)
    ensures PlanTotals(items).kcal == SumItemKcal(items)
    decreases |items|
  {
    if items != [] {
      var init := items[..|items| - 1];
      TotalIsSumOfItems(init);
      assert ProteinOf(items)[..|items| - 1] == ProteinOf(init);
      assert CarbsOf(items)[..|items| - 1] == CarbsOf(init);
      assert FatOf(items)[..|items| - 1] == FatOf(init);
    }
  }

  /** Adding an item adds its macros to the totals. */
  lemma AddingItemAddsMacros(items: seq<RecipeRow>, r: RecipeRow)
    ensures var before := PlanTotals(items);
            var after := PlanTotals(items + [r]);
            && after.protein == before.protein + r.protein.GetOr(0.0)
            && after.carbs == before.carbs + r.carbs.GetOr(0.0)
            && after.fat == before.fat + r.fat.GetOr(0.0)
  {
    var xs := items + [r];
    assert ProteinOf(xs)[..|xs| - 1] == ProteinOf(items);
    assert CarbsOf(xs)[..|xs| - 1] == CarbsOf(items);
    assert FatOf(xs)[..|xs| - 1] == FatOf(items);
  }

  /** The recipes added on this page during the session (`st.session_state["temp_added"]`). */
  class SessionPlan {
    var items: seq<RecipeRow>

    constructor ()
      ensures items == []
    {
      items := [];
    }

    /**
     * The add button of one recipe (lines 99-113): when the log helper is importable
     * the recipe goes straight into the log dated `today`, otherwise it joins the
     * session plan.
     */
    method AddRecipe(r: RecipeRow, helperAvailable: bool, user: string, today: string, now: string,
                     log: MealLog)
      requires log.Valid()
      modifies this, log
      ensures log.Valid()
      ensures helperAvailable ==> items == old(items)
      ensures helperAvailable ==> log.File() == Write(old(log.File()), LogColumns,
                [UserLogRow(user, today, FromString(r.name), FromReal(r.protein),
                            FromReal(r.carbs), FromReal(r.fat), now)])
      ensures !helperAvailable ==> items == old(items) + [r] && log.File() == old(log.File())
    {
      if helperAvailable {
        log.SaveUserLog(user, today, FromString(r.name), FromReal(r.protein),
                        FromReal(r.carbs), FromReal(r.fat), now);
      } else {
        items := items + [r];
      }
    }

    /**
     * The save button (lines 133-139), shown only while the plan is non-empty: when
     * the write succeeds the plan goes to the log and is emptied; when it fails,
     * neither the plan nor the log changes.
     */
    method SavePlan(writeSucceeds: bool, user: string, today: string, now: string, log: MealLog)
      returns (saved: bool)
      requires log.Valid()
      modifies this, log
      ensures log.Valid()
      ensures saved <==> old(items) != [] && writeSucceeds
      ensures saved ==> items == [] && log.File() == Write(old(log.File()), LogColumns,
                                          PlanRows(Dicts(old(items)), user, today, now))
      ensures !saved ==> items == old(items) && log.File() == old(log.File())
    {
      if items == [] || !writeSucceeds {
        return false;
      }
      log.SavePlanLog(Dicts(items), user, today, now);
      items := [];
      return true;
    }
  }

  /** Each saved plan row carries the recipe's own name and macros (the columns always exist). */
  lemma SavedRowsCarryRecipes(items: seq<RecipeRow>, user: string, today: string, now: string, i: nat)
    requires i < |items|
    ensures var row := PlanRows(Dicts(items), user, today, now)[i];
            && row.user == user && row.date == today
            && row.recipe == FromString(items[i].name)
            && row.protein == FromReal(items[i].protein)
            && row.carbs == FromReal(items[i].carbs)
            && row.fat == FromReal(items[i].fat)
  {
  }
}
