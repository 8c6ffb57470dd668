/**
 * Column resolution and dataset cleaning (`utils/preprocessing.py`): headers are
 * stripped, six roles are resolved by case-insensitive keyword search, matched
 * headers are renamed to canonical names, the three macro columns are coerced to
 * numbers, rows with an unparsable macro are dropped, and both spellings of the
 * diet column are made to exist.
 */
module Preprocessing {
  import opened Wrappers
  import opened Text
  import opened Cells
  import opened Seqs

  // ---------------------------------------------------------------------------
  // _find_col
  // ---------------------------------------------------------------------------

  /** Keyword `k` occurs, ignoring case, in column `i`. */
  predicate Hit(cols: seq<string>, kws: seq<string>, k: int, i: int)
    requires 0 <= k < |kws| && 0 <= i < |cols|
  {
    Contains(Lower(cols[i]), Lower(kws[k]))
  }

  /** Column `i` is what `_find_col` returns: keyword `k` hits it, no earlier keyword
    * hits any column, and keyword `k` hits no earlier column. */
  predicate IsWinner(cols: seq<string>, kws: seq<string>, k: int, i: int) {
    && 0 <= k < |kws| && 0 <= i < |cols| && Hit(cols, kws, k, i)
    && (forall k', i' :: 0 <= k' < k && 0 <= i' < |cols| ==> !Hit(cols, kws, k', i'))
    && (forall i' :: 0 <= i' < i ==> !Hit(cols, kws, k, i'))
  }

  /** The first column at or after `i` whose lower-cased name contains `kwLower`. */
  function FirstHitFrom(cols: seq<string>, kwLower: string, i: nat): (r: Option<nat>)
    requires i <= |cols|
    ensures r.None? <==> forall j :: i <= j < |cols| ==> !Contains(Lower(cols[j]), kwLower)
    ensures r.Some? ==> i <= r.value < |cols| && Contains(Lower(cols[r.value]), kwLower)
    ensures r.Some? ==> forall j :: i <= j < r.value ==> !Contains(Lower(cols[j]), kwLower)
    decreases |cols| - i
  {
    if i == |cols| then None
    else if Contains(Lower(cols[i]), kwLower) then Some(i)
    else FirstHitFrom(cols, kwLower, i + 1)
  }

  /** The index `_find_col` returns when it starts at keyword `k`. */
  function FindIndexFrom(cols: seq<string>, kws: seq<string>, k: nat): (r: Option<nat>)
    requires k <= |kws|
    ensures r.None? <==> forall k', i :: k <= k' < |kws| && 0 <= i < |cols| ==> !Hit(cols, kws, k', i)
    ensures r.Some? ==> r.value < |cols|
    ensures r.Some? ==> exists k' :: k <= k' && IsWinnerFrom(cols, kws, k, k', r.value)
    decreases |kws| - k
  {
    if k == |kws| then None
    else
      match FirstHitFrom(cols, Lower(kws[k]), 0)
      case Some(i) =>
        assert IsWinnerFrom(cols, kws, k, k, i);
        Some(i)
      case None =>
        var r := FindIndexFrom(cols, kws, k + 1);
        if r.Some? then WinnerFromEarlier(cols, kws, k, k + 1, r.value); r else r
  }

  /** A keyword that hits no column does not change the winner among the later ones. */
  lemma WinnerFromEarlier(cols: seq<string>, kws: seq<string>, k: nat, next: nat, i: int)
    requires k < |kws| && next == k + 1 && FirstHitFrom(cols, Lower(kws[k]), 0).None?
    requires exists k' :: next <= k' && IsWinnerFrom(cols, kws, next, k', i)
    ensures exists k' :: k <= k' && IsWinnerFrom(cols, kws, k, k', i)
  {
    var k' :| next <= k' && IsWinnerFrom(cols, kws, next, k', i);
    assert IsWinnerFrom(cols, kws, k, k', i);
  }

  /** `IsWinner` for the keywords from `k0` on. */
  predicate IsWinnerFrom(cols: seq<string>, kws: seq<string>, k0: int, k: int, i: int) {
    && 0 <= k0 <= k < |kws| && 0 <= i < |cols| && Hit(cols, kws, k, i)
    && (forall k', i' :: k0 <= k' < k && 0 <= i' < |cols| ==> !Hit(cols, kws, k', i'))
    && (forall i' :: 0 <= i' < i ==> !Hit(cols, kws, k, i'))
  }

  /**
   * `_find_col(columns, keywords)`: `None` exactly when no keyword occurs, ignoring
   * case, in any column; otherwise a column of the list, namely the first column
   * hit by the first keyword that hits any column.
   */
  function ColumnFor(cols: seq<string>, kws: seq<string>): (r: Option<string>)
    ensures r.None? <==> forall k, i :: 0 <= k < |kws| && 0 <= i < |cols| ==> !Hit(cols, kws, k, i)
    ensures r.Some? ==> exists k, i :: IsWinner(cols, kws, k, i) && r.value == cols[i]
    ensures r.Some? ==> r.value in cols
  {
    match FindIndexFrom(cols, kws, 0)
    case Some(i) =>
      var k :| 0 <= k && IsWinnerFrom(cols, kws, 0, k, i);
      assert IsWinner(cols, kws, k, i);
      Some(cols[i])
    case None => None
  }

  /** There is only one winner, so the characterisation of `ColumnFor` determines it. */
  lemma WinnerUnique(cols: seq<string>, kws: seq<string>, k: int, i: int, k': int, i': int)
    requires IsWinner(cols, kws, k, i) && IsWinner(cols, kws, k', i')
    ensures k == k' && i == i'
  {
  }

  /** Columns and keywords that agree after lower-casing resolve to the same position. */
  lemma {:induction false} FirstHitIgnoresCase(cols: seq<string>, cols': seq<string>, kwLower: string, i: nat)
    requires |cols| == |cols'| && i <= |cols|
    requires forall j :: 0 <= j < |cols| ==> Lower(cols[j]) == Lower(cols'[j])
    ensures FirstHitFrom(cols, kwLower, i) == FirstHitFrom(cols', kwLower, i)
    decreases |cols| - i
  {
    if i < |cols| {
      FirstHitIgnoresCase(cols, cols', kwLower, i + 1);
    }
  }

  /** `_find_col` is case-insensitive in both the headers and the keywords: renaming
    * headers or keywords to other spellings with the same lower case changes nothing
    * but the spelling of the returned header. */
  lemma {:induction false} FindIndexIgnoresCase(cols: seq<string>, cols': seq<string>, kws: seq<string>, kws': seq<string>, k: nat)
    requires |cols| == |cols'| && |kws| == |kws'| && k <= |kws|
    requires forall j :: 0 <= j < |cols| ==> Lower(cols[j]) == Lower(cols'[j])
    requires forall j :: 0 <= j < |kws| ==> Lower(kws[j]) == Lower(kws'[j])
    ensures FindIndexFrom(cols, kws, k) == FindIndexFrom(cols', kws', k)
    decreases |kws| - k
  {
    if k < |kws| {
      FirstHitIgnoresCase(cols, cols', Lower(kws[k]), 0);
      FindIndexIgnoresCase(cols, cols', kws, kws', k + 1);
    }
  }

  /** `_find_col`: nested loops over keywords and lower-cased columns with an early return. */
  method FindCol(columns: seq<string>, keywords: seq<string>) returns (r: Option<string>)
    ensures r == ColumnFor(columns, keywords)
  {
    var colsLower := seq(|columns|, j requires 0 <= j < |columns| => Lower(columns[j]));
    for k := 0 to |keywords|
      invariant FindIndexFrom(columns, keywords, k) == FindIndexFrom(columns, keywords, 0)
    {
      var kwLower := Lower(keywords[k]);
      for i := 0 to |colsLower|
        invariant FirstHitFrom(columns, kwLower, i) == FirstHitFrom(columns, kwLower, 0)
      {
        if Contains(colsLower[i], kwLower) {
          return Some(columns[i]);
        }
      }
    }
    return None;
  }

  // ---------------------------------------------------------------------------
  // load_cleaned
  // ---------------------------------------------------------------------------

  /** A table as `pd.read_csv` returns it: headers and rows of cells. */
  datatype Frame = Frame(columns: seq<string>, rows: seq<seq<Cell>>)

  /** Every row has one cell per header. */
  predicate Rectangular(f: Frame) {
    forall r :: 0 <= r < |f.rows| ==> |f.rows[r]| == |f.columns|
  }

  /** Why `load_cleaned` raises. */
  datatype LoadError =
    | DataNotFound                        // FileNotFoundError: the file does not exist
    | MissingMacroColumns                 // ValueError: protein, carb or fat unresolved
    | MacroColumnMissing(name: string)    // KeyError: renaming left no column of that name
    | MacroColumnNotUnique(name: string)  // TypeError: `pd.to_numeric` given two columns
    | DietColumnNotUnique(name: string)   // ValueError: two columns copied into one

  /** The canonical macro names, in the order the coercion loop visits them. */
  const MacroNames: seq<string> := ["protein", "carbs", "fat"]

  /** `df.columns.str.strip()`. */
  function StripAll(cols: seq<string>): (r: seq<string>)
    ensures |r| == |cols| && forall i :: 0 <= i < |cols| ==> r[i] == Strip(cols[i])
  {
    seq(|cols|, i requires 0 <= i < |cols| => Strip(cols[i]))
  }

  /** The header each role resolves to. */
  datatype Roles = Roles(protein: Option<string>, carbs: Option<string>, fat: Option<string>,
                         recipe: Option<string>, diet: Option<string>, cuisine: Option<string>)

  /** The six `_find_col` calls of `load_cleaned`, with their keyword lists. */
  function ResolveRoles(cols: seq<string>): Roles {
    Roles(ColumnFor(cols, ["protein"]), ColumnFor(cols, ["carb"]), ColumnFor(cols, ["fat"]),
          ColumnFor(cols, ["recipe", "name"]), ColumnFor(cols, ["diet"]), ColumnFor(cols, ["cuisine"]))
  }

  /** Python truthiness of an optional string: present and non-empty. */
  predicate Truthy(o: Option<string>) {
    o.Some? && o.value != ""
  }

  /** The headers some role resolved to. */
  function RoleColumns(roles: Roles): set<string> {
    (if Truthy(roles.protein) then {roles.protein.value} else {})
    + (if Truthy(roles.carbs) then {roles.carbs.value} else {})
    + (if Truthy(roles.fat) then {roles.fat.value} else {})
    + (if Truthy(roles.recipe) then {roles.recipe.value} else {})
    + (if Truthy(roles.diet) then {roles.diet.value} else {})
    + (if Truthy(roles.cuisine) then {roles.cuisine.value} else {})
  }

  /**
   * `rename_map`, a dictionary keyed by header: it has one key per resolved header,
   * and when two roles resolved to the same header the later role's name wins
   * (cuisine over diet over recipe over fat over carbs over protein).
   */
  function RenameMap(roles: Roles): (m: map<string, string>)
    requires Truthy(roles.protein) && Truthy(roles.carbs) && Truthy(roles.fat)
    ensures m.Keys == RoleColumns(roles)
    ensures Truthy(roles.cuisine) ==> m[roles.cuisine.value] == "cuisine_type"
    ensures Truthy(roles.diet) && roles.diet != roles.cuisine ==> m[roles.diet.value] == "diet_type"
    ensures Truthy(roles.recipe) && roles.recipe !in {roles.diet, roles.cuisine}
            ==> m[roles.recipe.value] == "recipe_name"
    ensures roles.fat !in {roles.recipe, roles.diet, roles.cuisine} ==> m[roles.fat.value] == "fat"
    ensures roles.carbs !in {roles.fat, roles.recipe, roles.diet, roles.cuisine} ==> m[roles.carbs.value] == "carbs"
    ensures roles.protein !in {roles.carbs, roles.fat, roles.recipe, roles.diet, roles.cuisine}
            ==> m[roles.protein.value] == "protein"
  {
    var m0 := map[][roles.protein.value := "protein"][roles.carbs.value := "carbs"][roles.fat.value := "fat"];
    var m1 := if Truthy(roles.recipe) then m0[roles.recipe.value := "recipe_name"] else m0;
    var m2 := if Truthy(roles.diet) then m1[roles.diet.value := "diet_type"] else m1;
    if Truthy(roles.cuisine) then m2[roles.cuisine.value := "cuisine_type"] else m2
  }

  /** `df.rename(columns=m)`: every header that is a key is replaced by its value. */
  function Rename(cols: seq<string>, m: map<string, string>): (r: seq<string>)
    ensures |r| == |cols|
    ensures forall i :: 0 <= i < |cols| && cols[i] !in m ==> r[i] == cols[i]
    ensures forall i :: 0 <= i < |cols| && cols[i] in m ==> r[i] == m[cols[i]]
  {
    seq(|cols|, i requires 0 <= i < |cols| => if cols[i] in m then m[cols[i]] else cols[i])
  }

  /** The headers after stripping and renaming, or `None` when a macro role is unresolved. */
  function RenamedColumns(rawCols: seq<string>): Option<seq<string>> {
    var cols := StripAll(rawCols);
    var roles := ResolveRoles(cols);
    if Truthy(roles.protein) && Truthy(roles.carbs) && Truthy(roles.fat)
    then Some(Rename(cols, RenameMap(roles)))
    else None
  }

  /** Position of the first header equal to `name`. */
  function IndexOf(cols: seq<string>, name: string): (i: nat)
    requires name in cols
    ensures i < |cols| && cols[i] == name && name !in cols[..i]
  {
    if cols[0] == name then 0
    else
      assert cols == [cols[0]] + cols[1..];
      var j := IndexOf(cols[1..], name);
      assert cols[..j + 1] == [cols[0]] + cols[1..][..j];
      j + 1
  }

  /**
   * The positions of `names[k..]`, or the error the coercion loop raises first:
   * `df[col]` of a header that no longer exists is a KeyError, and of a header that
   * occurs twice is a two-column frame that `pd.to_numeric` rejects.
   */
  function PositionsFrom(cols: seq<string>, names: seq<string>, k: nat): (r: Result<seq<nat>, LoadError>)
    requires k <= |names|
    ensures r.Ok? <==> forall j :: k <= j < |names| ==> multiset(cols)[names[j]] == 1
    ensures r.Ok? ==> |r.value| == |names| - k
    ensures r.Ok? ==> forall j :: 0 <= j < |r.value| ==>
                        r.value[j] < |cols| && cols[r.value[j]] == names[k + j] && multiset(cols)[names[k + j]] == 1
    decreases |names| - k
  {
    if k == |names| then Ok([])
    else if multiset(cols)[names[k]] == 0 then Err(MacroColumnMissing(names[k]))
    else if multiset(cols)[names[k]] > 1 then Err(MacroColumnNotUnique(names[k]))
    else
      match PositionsFrom(cols, names, k + 1)
      case Err(e) => Err(e)
      case Ok(ps) => Ok([IndexOf(cols, names[k])] + ps)
  }

  /** `pd.to_numeric(..., errors="coerce")` on one cell: text that does not parse becomes NaN. */
  function ToNumeric(c: Cell, parse: string -> Option<real>): (d: Cell)
    ensures !d.Text?
    ensures c.Number? ==> d == c
    ensures c.Null? ==> d.Null?
    ensures c.Text? ==> d == FromReal(parse(c.s))
  {
    match c
    case Number(_) => c
    case Null => Null
    case Text(s) => FromReal(parse(s))
  }

  /** A row with the cells at positions `ps` coerced to numbers. */
  function CoerceAt(row: seq<Cell>, ps: seq<nat>, parse: string -> Option<real>): (r: seq<Cell>)
    ensures |r| == |row|
  {
    seq(|row|, j requires 0 <= j < |row| => if j in ps then ToNumeric(row[j], parse) else row[j])
  }

  /** The rows after the coercion loop has converted the columns at `ps`. */
  function CoercedRows(rows: seq<seq<Cell>>, ps: seq<nat>, parse: string -> Option<real>): (r: seq<seq<Cell>>)
    ensures |r| == |rows|
    ensures forall i :: 0 <= i < |rows| ==> r[i] == CoerceAt(rows[i], ps, parse)
  {
    seq(|rows|, i requires 0 <= i < |rows| => CoerceAt(rows[i], ps, parse))
  }

  /** Every cell at a position of `ps` holds a number. */
  predicate NumericAt(row: seq<Cell>, ps: seq<nat>) {
    forall j :: j in ps && j < |row| ==> row[j].Number?
  }

  /** `df.dropna(subset=...)`: the rows whose cells at `ps` are all numbers, in order. */
  function DropNonNumeric(rows: seq<seq<Cell>>, ps: seq<nat>): (r: seq<seq<Cell>>)
    ensures |r| <= |rows|
    ensures forall x :: x in r <==> x in rows && NumericAt(x, ps)
    ensures forall x :: multiset(r)[x] == if NumericAt(x, ps) then multiset(rows)[x] else 0
    ensures SubseqOf(r, rows)
  {
    if rows == [] then []
    else
      assert rows == [rows[0]] + rows[1..];
      assert multiset(rows) == multiset{rows[0]} + multiset(rows[1..]);
      var rest := DropNonNumeric(rows[1..], ps);
      if NumericAt(rows[0], ps) then [rows[0]] + rest
      else rest
  }

  /** The frame after coercion and `dropna`, with the renamed headers. */
  function Numeric(cols: seq<string>, rows: seq<seq<Cell>>, ps: seq<nat>, parse: string -> Option<real>): (f: Frame)
    requires forall i :: 0 <= i < |rows| ==> |rows[i]| == |cols|
    ensures Rectangular(f) && f.columns == cols
  {
    var coerced := CoercedRows(rows, ps, parse);
    var kept := DropNonNumeric(coerced, ps);
    assert forall x :: x in coerced ==> |x| == |cols|;
    assert forall i :: 0 <= i < |kept| ==> kept[i] in coerced;
    Frame(cols, kept)
  }

  /**
   * `df[to] = df[from]` when `from` exists and `to` does not: the column is copied
   * to a new last column; copying a header that occurs twice is refused.
   */
  function AddAlias(f: Frame, from: string, to: string): (r: Result<Frame, LoadError>)
    requires Rectangular(f)
    ensures r.Err? <==> from in f.columns && to !in f.columns && multiset(f.columns)[from] > 1
    ensures r.Err? ==> r.error == DietColumnNotUnique(from)
    ensures r.Ok? ==> Rectangular(r.value) && |r.value.rows| == |f.rows|
    ensures r.Ok? ==> r.value.columns == if from in f.columns && to !in f.columns then f.columns + [to] else f.columns
    ensures r.Ok? ==> forall i :: 0 <= i < |f.rows| ==> r.value.rows[i][..|f.columns|] == f.rows[i]
    ensures r.Ok? && from in f.columns && to !in f.columns ==>
              forall i :: 0 <= i < |f.rows| ==> r.value.rows[i][|f.columns|] == f.rows[i][IndexOf(f.columns, from)]
  {
    if from in f.columns && to !in f.columns then
      if multiset(f.columns)[from] > 1 then Err(DietColumnNotUnique(from))
      else
        var j := IndexOf(f.columns, from);
        var rows := seq(|f.rows|, r requires 0 <= r < |f.rows| => f.rows[r] + [f.rows[r][j]]);
        assert forall i :: 0 <= i < |f.rows| ==> rows[i][..|f.columns|] == f.rows[i];
        Ok(Frame(f.columns + [to], rows))
    else
      assert forall i :: 0 <= i < |f.rows| ==> f.rows[i][..|f.columns|] == f.rows[i];
      Ok(f)
  }

  /** What `load_cleaned` returns, or the error it raises; `None` stands for a missing file. */
  /**
   * The two alias steps of `load_cleaned`: `diet_type` is copied to `Diet_type` when
   * only the first exists, then `Diet_type` to `diet_type` when only that one exists.
   */
  function Aliased(n: Frame): (r: Result<Frame, LoadError>)
    requires Rectangular(n)
    ensures r.Err? ==> r.error.DietColumnNotUnique?
    ensures r.Ok? ==> && Rectangular(r.value) && |r.value.rows| == |n.rows|
                      && |n.columns| <= |r.value.columns| <= |n.columns| + 1
                      && r.value.columns[..|n.columns|] == n.columns
                      && (|r.value.columns| > |n.columns| ==> r.value.columns[|n.columns|] in {"diet_type", "Diet_type"})
                      && (forall i :: 0 <= i < |n.rows| ==> r.value.rows[i][..|n.columns|] == n.rows[i])
                      && ("diet_type" in r.value.columns <==> "Diet_type" in r.value.columns)
  {
    match AddAlias(n, "diet_type", "Diet_type")
    case Err(e) => Err(e)
    case Ok(a) =>
      var r := AddAlias(a, "Diet_type", "diet_type");
      if r.Ok? then
        assert r.value.columns[..|n.columns|] == n.columns by {
          assert r.value.columns[..|a.columns|] == a.columns;
          assert r.value.columns[..|n.columns|] == r.value.columns[..|a.columns|][..|n.columns|];
        }
        assert forall i :: 0 <= i < |n.rows| ==> r.value.rows[i][..|n.columns|] == n.rows[i] by {
          forall i | 0 <= i < |n.rows|
            ensures r.value.rows[i][..|n.columns|] == n.rows[i]
          {
            assert r.value.rows[i][..|a.columns|] == a.rows[i];
            assert r.value.rows[i][..|n.columns|] == r.value.rows[i][..|a.columns|][..|n.columns|];
          }
        }
        r
      else r
  }

  function Cleaned(raw: Option<Frame>, parse: string -> Option<real>): (r: Result<Frame, LoadError>)
    requires raw.Some? ==> Rectangular(raw.value)
    ensures r.Ok? ==> Rectangular(r.value)
  {
    if raw.None? then Err(DataNotFound)
    else
      match RenamedColumns(raw.value.columns)
      case None => Err(MissingMacroColumns)
      case Some(cols) =>
        match PositionsFrom(cols, MacroNames, 0)
        case Err(e) => Err(e)
        case Ok(ps) =>
          Aliased(Numeric(cols, raw.value.rows, ps, parse))
  }

  /**
   * Lines 36-67 of `load_cleaned`: strip the headers, run the six keyword searches,
   * refuse a missing macro column, and rename by the map built role by role.
   */
  method RenameColumns(rawCols: seq<string>) returns (r: Option<seq<string>>)
    ensures r == RenamedColumns(rawCols)
  {
    var columns := StripAll(rawCols);

    var proteinCol := FindCol(columns, ["protein"]);
    var carbsCol := FindCol(columns, ["carb"]);
    var fatCol := FindCol(columns, ["fat"]);
    var recipeCol := FindCol(columns, ["recipe", "name"]);
    var dietCol := FindCol(columns, ["diet"]);
    var cuisineCol := FindCol(columns, ["cuisine"]);
    ghost var roles := Roles(proteinCol, carbsCol, fatCol, recipeCol, dietCol, cuisineCol);
    assert roles == ResolveRoles(columns);

    if !(Truthy(proteinCol) && Truthy(carbsCol) && Truthy(fatCol)) {
      return None;
    }

    var renameMap: map<string, string> := map[];
    renameMap := renameMap[proteinCol.value := "protein"];
    renameMap := renameMap[carbsCol.value := "carbs"];
    renameMap := renameMap[fatCol.value := "fat"];
    ghost var m0 := renameMap;
    if Truthy(recipeCol) {
      renameMap := renameMap[recipeCol.value := "recipe_name"];
    }
    ghost var m1 := renameMap;
    assert m1 == if Truthy(roles.recipe) then m0[roles.recipe.value := "recipe_name"] else m0;
    if Truthy(dietCol) {
      renameMap := renameMap[dietCol.value := "diet_type"];
    }
    ghost var m2 := renameMap;
    assert m2 == if Truthy(roles.diet) then m1[roles.diet.value := "diet_type"] else m1;
    if Truthy(cuisineCol) {
      renameMap := renameMap[cuisineCol.value := "cuisine_type"];
    }
    assert renameMap == if Truthy(roles.cuisine) then m2[roles.cuisine.value := "cuisine_type"] else m2;
    assert renameMap == RenameMap(roles);
    return Some(Rename(columns, renameMap));
  }

  /** `load_cleaned`: resolve, rename, coerce column by column, drop, add the diet alias. */
  method LoadCleaned(raw: Option<Frame>, parse: string -> Option<real>) returns (r: Result<Frame, LoadError>)
    requires raw.Some? ==> Rectangular(raw.value)
    ensures r == Cleaned(raw, parse)
  {
    if raw.None? {
      return Err(DataNotFound);
    }
    var renamed := RenameColumns(raw.value.columns);
    if renamed.None? {
      return Err(MissingMacroColumns);
    }
    var columns := renamed.value;

    var coerced, ps := CoerceMacroColumns(columns, raw.value.rows, parse);
    if coerced.Err? {
      return Err(coerced.error);
    }
    var rows := DropNonNumeric(coerced.value, ps);
    ghost var n := Numeric(columns, raw.value.rows, ps, parse);
    assert Frame(columns, rows) == n;
    assert Cleaned(raw, parse) == Aliased(n);

    var aliased := AddAlias(Frame(columns, rows), "diet_type", "Diet_type");
    if aliased.Err? {
      return aliased;
    }
    r := AddAlias(aliased.value, "Diet_type", "diet_type");
  }

  /**
   * The coercion loop of `load_cleaned`: for each macro name in turn, `df[col]` is
   * looked up (a KeyError if absent, a TypeError if duplicated) and coerced in place.
   */
  method CoerceMacroColumns(columns: seq<string>, raw: seq<seq<Cell>>, parse: string -> Option<real>)
    returns (r: Result<seq<seq<Cell>>, LoadError>, ps: seq<nat>)
    requires forall i :: 0 <= i < |raw| ==> |raw[i]| == |columns|
    ensures r.Err? <==> PositionsFrom(columns, MacroNames, 0).Err?
    ensures r.Err? ==> r.error == PositionsFrom(columns, MacroNames, 0).error
    ensures r.Ok? ==> PositionsFrom(columns, MacroNames, 0) == Ok(ps) && r.value == CoercedRows(raw, ps, parse)
  {
    var rows: seq<seq<Cell>>;
    rows := raw;
    ps := [];
    CoerceNothing(raw, parse);
    match PositionsFrom(columns, MacroNames, 0) {
      case Ok(qs) => assert ps + qs == qs;
      case Err(_) =>
    }
    for k := 0 to |MacroNames|
      invariant |ps| == k && |rows| == |raw|
      invariant forall j :: 0 <= j < k ==> ps[j] < |columns| && columns[ps[j]] == MacroNames[j]
      invariant PositionsFrom(columns, MacroNames, 0) == Prepend(ps, PositionsFrom(columns, MacroNames, k))
      invariant rows == CoercedRows(raw, ps, parse)
    {
      var col := MacroNames[k];
      if multiset(columns)[col] == 0 {
        return Err(MacroColumnMissing(col)), ps;
      }
      if multiset(columns)[col] > 1 {
        return Err(MacroColumnNotUnique(col)), ps;
      }
      var j := IndexOf(columns, col);
      CoerceOneMore(raw, ps, j, parse, |columns|);
      rows := CoerceColumn(rows, j, parse);
      PositionsStep(columns, MacroNames, k, ps);
      ps := ps + [j];
    }
    assert ps + [] == ps;
    return Ok(rows), ps;
  }

  /** One step of the coercion loop: a unique name moves its position to the found ones. */
  lemma PositionsStep(cols: seq<string>, names: seq<string>, k: nat, ps: seq<nat>)
    requires k < |names| && multiset(cols)[names[k]] == 1
    ensures names[k] in cols
    ensures Prepend(ps, PositionsFrom(cols, names, k))
            == Prepend(ps + [IndexOf(cols, names[k])], PositionsFrom(cols, names, k + 1))
  {
    match PositionsFrom(cols, names, k + 1) {
      case Ok(qs) => assert ps + ([IndexOf(cols, names[k])] + qs) == (ps + [IndexOf(cols, names[k])]) + qs;
      case Err(_) =>
    }
  }

  /** `ps + qs` as the positions found so far followed by the rest, or the rest's error. */
  function Prepend(ps: seq<nat>, rest: Result<seq<nat>, LoadError>): Result<seq<nat>, LoadError> {
    match rest
    case Ok(qs) => Ok(ps + qs)
    case Err(e) => Err(e)
  }

  /** Coercing no position leaves every row as it is. */
  lemma CoerceNothing(rows: seq<seq<Cell>>, parse: string -> Option<real>)
    ensures CoercedRows(rows, [], parse) == rows
  {
    forall i | 0 <= i < |rows|
      ensures CoerceAt(rows[i], [], parse) == rows[i]
    {
    }
  }

  /** `df[col] = pd.to_numeric(df[col], errors="coerce")` for the column at position `j`. */
  function CoerceColumn(rows: seq<seq<Cell>>, j: nat, parse: string -> Option<real>): (r: seq<seq<Cell>>)
    requires forall i :: 0 <= i < |rows| ==> j < |rows[i]|
    ensures |r| == |rows|
  {
    seq(|rows|, i requires 0 <= i < |rows| => rows[i][j := ToNumeric(rows[i][j], parse)])
  }

  /** Coercing one more column extends the coerced positions by that column. */
  lemma CoerceOneMore(rows: seq<seq<Cell>>, ps: seq<nat>, j: nat, parse: string -> Option<real>, width: nat)
    requires forall i :: 0 <= i < |rows| ==> |rows[i]| == width
    requires j < width && j !in ps
    ensures CoerceColumn(CoercedRows(rows, ps, parse), j, parse) == CoercedRows(rows, ps + [j], parse)
  {
    var before := CoercedRows(rows, ps, parse);
    forall i | 0 <= i < |rows|
      ensures CoerceColumn(before, j, parse)[i] == CoercedRows(rows, ps + [j], parse)[i]
    {
      assert CoerceAt(rows[i], ps + [j], parse) == before[i][j := ToNumeric(before[i][j], parse)];
    }
  }

  // ---------------------------------------------------------------------------
  // What load_cleaned guarantees
  // ---------------------------------------------------------------------------

  /** No stripped header contains `kw` once lower-cased. */
  predicate NoHeaderContains(cols: seq<string>, kw: string) {
    forall i :: 0 <= i < |cols| ==> !Contains(Lower(cols[i]), kw)
  }

  /** The header found for a non-empty lower-case keyword is non-empty, hence truthy. */
  lemma FoundIsTruthy(cols: seq<string>, kw: string)
    requires kw != [] && Lower(kw) == kw
    ensures Truthy(ColumnFor(cols, [kw])) <==> !NoHeaderContains(cols, kw)
  {
    var r := ColumnFor(cols, [kw]);
    if r.Some? {
      var k, i :| IsWinner(cols, [kw], k, i) && r.value == cols[i];
      assert Hit(cols, [kw], k, i);
      ContainsNonEmpty(Lower(cols[i]), kw);
    } else {
      forall i | 0 <= i < |cols|
        ensures !Contains(Lower(cols[i]), kw)
      {
        assert !Hit(cols, [kw], 0, i);
      }
    }
  }

  /** The ASCII keywords of the macro roles are already lower-case. */
  lemma MacroKeywordsLower()
    ensures Lower("protein") == "protein" && Lower("carb") == "carb" && Lower("fat") == "fat"
  {
    assert Lower("fat") == "fat";
    assert Lower("carb") == "carb";
    assert Lower("protein") == "protein";
  }

  /** One of the keywords "protein", "carb" and "fat" is contained in no header. */
  predicate MacroUnresolved(cols: seq<string>) {
    NoHeaderContains(cols, "protein") || NoHeaderContains(cols, "carb") || NoHeaderContains(cols, "fat")
  }

  /** Renaming fails exactly when one of the three macro keywords matches no header. */
  lemma RenamedColumnsNoneIff(rawCols: seq<string>)
    ensures RenamedColumns(rawCols).None?
            <==> MacroUnresolved(StripAll(rawCols))
  {
    var cols := StripAll(rawCols);
    var roles := ResolveRoles(cols);
    assert RenamedColumns(rawCols).None? <==> !(Truthy(roles.protein) && Truthy(roles.carbs) && Truthy(roles.fat));
    MacroKeywordsLower();
    FoundIsTruthy(cols, "protein");
    FoundIsTruthy(cols, "carb");
    FoundIsTruthy(cols, "fat");
  }

  /** The positions step only ever raises the KeyError or the TypeError. */
  lemma {:induction false} PositionsErrorKind(cols: seq<string>, names: seq<string>, k: nat)
    requires k <= |names|
    ensures var r := PositionsFrom(cols, names, k);
            r.Err? ==> r.error.MacroColumnMissing? || r.error.MacroColumnNotUnique?
    decreases |names| - k
  {
    if k < |names| && multiset(cols)[names[k]] == 1 {
      PositionsErrorKind(cols, names, k + 1);
    }
  }

  /**
   * `load_cleaned` raises the missing-macro ValueError exactly when the file exists
   * and one of "protein", "carb" and "fat" occurs in no stripped, lower-cased header.
   */
  lemma MissingMacroIffUnresolved(raw: Frame, parse: string -> Option<real>)
    requires Rectangular(raw)
    ensures Cleaned(Some(raw), parse) == Err(MissingMacroColumns)
            <==> MacroUnresolved(StripAll(raw.columns))
  {
    MissingMacroIffUnrenamed(raw, parse);
    RenamedColumnsNoneIff(raw.columns);
  }

  /** Only the rename step raises the missing-macro error. */
  lemma MissingMacroIffUnrenamed(raw: Frame, parse: string -> Option<real>)
    requires Rectangular(raw)
    ensures Cleaned(Some(raw), parse) == Err(MissingMacroColumns) <==> RenamedColumns(raw.columns).None?
  {
    match RenamedColumns(raw.columns) {
      case None =>
        assert Cleaned(Some(raw), parse) == Err(MissingMacroColumns);
      case Some(cols) =>
        PositionsErrorKind(cols, MacroNames, 0);
        match PositionsFrom(cols, MacroNames, 0) {
          case Err(e) =>
            assert Cleaned(Some(raw), parse) == Err(e);
            assert e != MissingMacroColumns;
          case Ok(ps) =>
            var n := Numeric(cols, raw.rows, ps, parse);
            assert Cleaned(Some(raw), parse) == Aliased(n);
            assert Aliased(n).Err? ==> Aliased(n).error.DietColumnNotUnique?;
        }
    }
  }

  /** The positions of the macro columns among the renamed headers, when both steps succeed. */
  function MacroPositions(raw: Frame): (r: Option<seq<nat>>)
    ensures r.Some? ==> RenamedColumns(raw.columns).Some?
  {
    match RenamedColumns(raw.columns)
    case None => None
    case Some(cols) =>
      match PositionsFrom(cols, MacroNames, 0)
      case Ok(ps) => Some(ps)
      case Err(_) => None
  }

  /** A successful load is the alias steps applied to the coerced, filtered frame. */
  lemma CleanedOk(raw: Frame, parse: string -> Option<real>)
    requires Rectangular(raw) && Cleaned(Some(raw), parse).Ok?
    ensures MacroPositions(raw).Some?
    ensures |RenamedColumns(raw.columns).value| == |raw.columns|
    ensures Cleaned(Some(raw), parse)
            == Aliased(Numeric(RenamedColumns(raw.columns).value, raw.rows, MacroPositions(raw).value, parse))
  {
  }

  /** Appending headers after `cols` moves no header's first position. */
  lemma IndexOfExtended(cols: seq<string>, ext: seq<string>, name: string)
    requires name in cols && |cols| <= |ext| && ext[..|cols|] == cols
    ensures name in ext && IndexOf(ext, name) == IndexOf(cols, name)
  {
    var j := IndexOf(cols, name);
    assert ext[j] == cols[j];
  }

  /** The alias steps leave every header other than the two diet names as often as before. */
  lemma AliasedCount(n: Frame, name: string)
    requires Rectangular(n) && Aliased(n).Ok? && name != "diet_type" && name != "Diet_type"
    ensures multiset(Aliased(n).value.columns)[name] == multiset(n.columns)[name]
  {
    var c := Aliased(n).value.columns;
    if |c| > |n.columns| {
      assert c == n.columns + [c[|n.columns|]] by {
        assert c == c[..|n.columns|] + c[|n.columns|..];
      }
    } else {
      assert c == c[..|n.columns|];
    }
  }

  /** The header at `p` is `name`, and no other header is. */
  predicate UniqueAt(cols: seq<string>, p: nat, name: string) {
    p < |cols| && cols[p] == name && multiset(cols)[name] == 1
  }

  /** A header that occurs once is found at its one position. */
  lemma IndexOfUnique(cols: seq<string>, p: nat, name: string)
    requires UniqueAt(cols, p, name)
    ensures IndexOf(cols, name) == p
  {
    assert cols == cols[..p] + cols[p..];
  }

  /** The alias steps keep a uniquely named numeric column unique and numeric. */
  lemma AliasedKeepsNumeric(n: Frame, p: nat, name: string)
    requires Rectangular(n) && Aliased(n).Ok? && UniqueAt(n.columns, p, name)
    requires name != "diet_type" && name != "Diet_type"
    requires forall r :: 0 <= r < |n.rows| ==> n.rows[r][p].Number?
    ensures var f := Aliased(n).value;
            && multiset(f.columns)[name] == 1
            && forall r :: 0 <= r < |f.rows| ==> f.rows[r][IndexOf(f.columns, name)].Number?
  {
    var f := Aliased(n).value;
    AliasedCount(n, name);
    IndexOfUnique(n.columns, p, name);
    IndexOfExtended(n.columns, f.columns, name);
    forall r | 0 <= r < |f.rows|
      ensures f.rows[r][p].Number?
    {
      assert f.rows[r][..|n.columns|][p] == n.rows[r][p];
    }
  }

  /** The macro names are shorter than either diet header, so differ from both. */
  lemma MacroNamesShort(k: nat)
    requires k < |MacroNames|
    ensures |MacroNames[k]| < |"diet_type"| == |"Diet_type"|
  {
  }

  /**
   * After a successful load each of the three macro headers occurs exactly once and
   * every remaining row holds a number under it.
   */
  lemma LoadedMacrosNumeric(raw: Frame, parse: string -> Option<real>, k: nat)
    requires Rectangular(raw) && Cleaned(Some(raw), parse).Ok? && k < |MacroNames|
    ensures var f := Cleaned(Some(raw), parse).value;
            && multiset(f.columns)[MacroNames[k]] == 1
            && forall r :: 0 <= r < |f.rows| ==> f.rows[r][IndexOf(f.columns, MacroNames[k])].Number?
  {
    CleanedOk(raw, parse);
    var cols := RenamedColumns(raw.columns).value;
    var ps := MacroPositions(raw).value;
    var n := Numeric(cols, raw.rows, ps, parse);
    assert UniqueAt(n.columns, ps[k], MacroNames[k]);
    forall r | 0 <= r < |n.rows|
      ensures n.rows[r][ps[k]].Number?
    {
      assert n.rows[r] in n.rows && ps[k] in ps;
    }
    MacroNamesShort(k);
    AliasedKeepsNumeric(n, ps[k], MacroNames[k]);
  }

  /** The first `w` cells of every row. */
  function Prefixes(rows: seq<seq<Cell>>, w: nat): (r: seq<seq<Cell>>)
    requires forall i :: 0 <= i < |rows| ==> w <= |rows[i]|
    ensures |r| == |rows| && forall i :: 0 <= i < |rows| ==> r[i] == rows[i][..w]
  {
    seq(|rows|, i requires 0 <= i < |rows| => rows[i][..w])
  }

  /** Every macro cell of a raw row converts to a number. */
  predicate Parses(row: seq<Cell>, ps: seq<nat>, parse: string -> Option<real>) {
    forall j :: j in ps && j < |row| ==> ToNumeric(row[j], parse).Number?
  }

  /** A coerced row is numeric at `ps` exactly when its raw cells there convert. */
  lemma CoercedNumericIffParses(row: seq<Cell>, ps: seq<nat>, parse: string -> Option<real>)
    ensures NumericAt(CoerceAt(row, ps, parse), ps) <==> Parses(row, ps, parse)
  {
    var c := CoerceAt(row, ps, parse);
    assert forall j :: j in ps && j < |row| ==> c[j] == ToNumeric(row[j], parse);
  }

  /** `dropna` after coercion keeps the coerced form of exactly the rows that parse. */
  lemma KeptIffParses(rows: seq<seq<Cell>>, ps: seq<nat>, parse: string -> Option<real>)
    ensures forall row :: row in rows ==>
              (CoerceAt(row, ps, parse) in DropNonNumeric(CoercedRows(rows, ps, parse), ps) <==> Parses(row, ps, parse))
  {
    var coerced := CoercedRows(rows, ps, parse);
    forall row | row in rows
      ensures CoerceAt(row, ps, parse) in coerced
      ensures NumericAt(CoerceAt(row, ps, parse), ps) <==> Parses(row, ps, parse)
    {
      var i :| 0 <= i < |rows| && rows[i] == row;
      assert coerced[i] == CoerceAt(row, ps, parse);
      CoercedNumericIffParses(row, ps, parse);
    }
  }

  /** Up to the alias column the rows are those the alias steps were given. */
  lemma AliasedRows(n: Frame)
    requires Rectangular(n) && Aliased(n).Ok?
    ensures forall r :: 0 <= r < |Aliased(n).value.rows| ==> |n.columns| <= |Aliased(n).value.rows[r]|
    ensures Prefixes(Aliased(n).value.rows, |n.columns|) == n.rows
  {
  }

  /**
   * The rows `load_cleaned` keeps (the frame `CleanedOk` describes, with the renamed
   * headers `cols` and the macro positions `ps`) are, up to the alias column, coerced
   * input rows in their input order, and an input row is kept exactly when every one
   * of its macro cells converts to a number.
   */
  lemma LoadedRowsAreParsedRows(cols: seq<string>, rows: seq<seq<Cell>>, ps: seq<nat>,
                                parse: string -> Option<real>, f: Frame)
    requires forall i :: 0 <= i < |rows| ==> |rows[i]| == |cols|
    requires Aliased(Numeric(cols, rows, ps, parse)) == Ok(f)
    ensures forall r :: 0 <= r < |f.rows| ==> |cols| <= |f.rows[r]|
    ensures Prefixes(f.rows, |cols|) == DropNonNumeric(CoercedRows(rows, ps, parse), ps)
    ensures SubseqOf(Prefixes(f.rows, |cols|), CoercedRows(rows, ps, parse))
    ensures forall row :: row in rows ==>
              (CoerceAt(row, ps, parse) in Prefixes(f.rows, |cols|) <==> Parses(row, ps, parse))
  {
    var n := Numeric(cols, rows, ps, parse);
    AliasedRows(n);
    KeptIffParses(rows, ps, parse);
  }

  /** When exactly one diet header existed, the alias steps copy its cells to the other. */
  lemma AliasedDietCopies(n: Frame)
    requires Rectangular(n) && Aliased(n).Ok?
    requires ("diet_type" in n.columns) != ("Diet_type" in n.columns)
    ensures var f := Aliased(n).value;
            && "diet_type" in f.columns && "Diet_type" in f.columns
            && forall r :: 0 <= r < |f.rows| ==> f.rows[r][IndexOf(f.columns, "diet_type")] == f.rows[r][IndexOf(f.columns, "Diet_type")]
  {
    var a := AddAlias(n, "diet_type", "Diet_type").value;
    var f := Aliased(n).value;
    if "diet_type" in n.columns {
      assert a.columns == n.columns + ["Diet_type"] && f == a;
      IndexOfExtended(n.columns, f.columns, "diet_type");
      assert f.columns[..|n.columns|] == n.columns;
      assert IndexOf(f.columns, "Diet_type") == |n.columns|;
    } else {
      assert a == n && f.columns == n.columns + ["diet_type"];
      IndexOfExtended(n.columns, f.columns, "Diet_type");
      assert IndexOf(f.columns, "diet_type") == |n.columns|;
    }
  }

  /** After a successful load `diet_type` exists exactly when `Diet_type` does. */
  lemma DietHeadersPaired(raw: Frame, parse: string -> Option<real>, f: Frame)
    requires Rectangular(raw) && Cleaned(Some(raw), parse) == Ok(f)
    ensures "diet_type" in f.columns <==> "Diet_type" in f.columns
  {
    CleanedOk(raw, parse);
  }

  /**
   * Headers that no role resolved to keep their stripped names, and resolved
   * headers take the canonical name the rename map gives them.
   */
  lemma HeadersRenamed(raw: Frame, parse: string -> Option<real>, i: nat)
    requires Rectangular(raw) && Cleaned(Some(raw), parse).Ok? && i < |raw.columns|
    ensures var cols := StripAll(raw.columns);
            var roles := ResolveRoles(cols);
            && Truthy(roles.protein) && Truthy(roles.carbs) && Truthy(roles.fat)
            && i < |Cleaned(Some(raw), parse).value.columns|
            && Cleaned(Some(raw), parse).value.columns[i]
               == if cols[i] in RoleColumns(roles) then RenameMap(roles)[cols[i]] else cols[i]
  {
    CleanedOk(raw, parse);
    var cols := RenamedColumns(raw.columns).value;
    var n := Numeric(cols, raw.rows, MacroPositions(raw).value, parse);
    assert Aliased(n).value.columns[..|cols|][i] == cols[i];
  }

  /**
   * Two roles resolving to one header: the rename map is keyed by header, so the
   * later role's canonical name replaces the earlier one, and the earlier canonical
   * name is given to no header.
   */
  lemma LaterRoleOverwrites(roles: Roles)
    requires Truthy(roles.protein) && Truthy(roles.carbs) && Truthy(roles.fat)
    requires Truthy(roles.recipe) && roles.diet == roles.recipe && roles.cuisine != roles.recipe
    requires roles.recipe !in {roles.protein, roles.carbs, roles.fat}
    ensures RenameMap(roles)[roles.recipe.value] == "diet_type"
    ensures "recipe_name" !in RenameMap(roles).Values
  {
  }

  /**
   * Keywords are tried in order and the first keyword that matches anywhere wins,
   * even over an earlier header matching a later keyword.
   */
  lemma KeywordOrderWins()
    ensures ColumnFor(["dish_name", "recipe_id"], ["recipe", "name"]) == Some("recipe_id")
  {
    var cols := ["dish_name", "recipe_id"];
    var kws := ["recipe", "name"];
    assert Lower("recipe_id") == "recipe_id" && Lower("recipe") == "recipe";
    assert Contains("recipe_id", "recipe") by { assert "recipe" <= "recipe_id"; }
    assert Lower("dish_name") == "dish_name";
    assert !Contains("dish_name", "recipe") by {
      ContainsIffSlice("dish_name", "recipe");
      forall i | 0 <= i <= |"dish_name"| - |"recipe"|
        ensures !OccursAt("dish_name", "recipe", i)
      {
        assert "dish_name"[i] != 'r';
        assert "dish_name"[i..i + 6][0] == "dish_name"[i];
      }
    }
    assert Hit(cols, kws, 0, 1) && !Hit(cols, kws, 0, 0);
  }
}
