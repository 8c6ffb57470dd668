/**
 * The logic of `pages/tracker.py`: the fallback writer that rewrites the meal log when
 * the log helper cannot be imported, and the per-user daily aggregation of the log
 * (one row per date, ascending, with summed macros and the calories they give).
 */
module Tracker {
  import opened Wrappers
  import opened Cells
  import opened TrackerUtils
  import opened Seqs
  import opened Energy

  // ---------------------------------------------------------------------------
  // Fallback writer (lines 58-73)
  // ---------------------------------------------------------------------------

  /** The columns of the entry the fallback writer builds. */
  const FallbackColumns: seq<string> := ["user", "date", "recipe", "protein", "carbs", "fat"]

  /**
   * `pd.concat` of the old columns with the new ones: the old columns first, in order,
   * then each new name not yet present, once, in the order it first appears.
   */
  function UnionColumns(prev: seq<string>, added: seq<string>): (r: seq<string>)
    ensures |prev| <= |r| && r[..|prev|] == prev
    ensures forall c :: c in r <==> c in prev || c in added
    ensures forall j :: |prev| <= j < |r| ==> r[j] !in r[..j]
    ensures SubseqOf(r[|prev|..], added)
    decreases |added|
  {
    if added == [] then prev
    else
      var c := added[0];
      var next := if c in prev then prev else prev + [c];
      var r := UnionColumns(next, added[1..]);
      assert added == [c] + added[1..];
      if c in prev then
        SubseqOfTail(r[|prev|..], c, added[1..]);
        r
      else
        assert r[..|prev|] == r[..|next|][..|prev|] == prev;
        var tail := r[|prev|..];
        assert tail[0] == c && tail[1..] == r[|next|..];
        forall j | |prev| <= j < |r| ensures r[j] !in r[..j] {
          if j == |prev| { assert r[..j] == prev; }
        }
        r
  }

  /**
   * What the fallback writer leaves behind, or `None` when reading the old file raises
   * (a file created by an empty plan has no header line to read).
   */
  function FallbackWrite(f: LogFile, entry: LogRow): (g: Option<LogFile>)
    requires entry.savedAt.None?
    ensures g.None? <==> f.Present? && f.header == []
    ensures g.Some? ==> g.value.Present? && g.value.rows == (if f.Present? then f.rows else []) + [entry]
    ensures g.Some? && f.Missing? ==> g.value.header == FallbackColumns
    ensures g.Some? && f.Present? ==> g.value.header == UnionColumns(f.header, FallbackColumns)
  {
    match f
    case Missing => Some(Present(FallbackColumns, [entry]))
    case Present(h, rs) =>
      if h == [] then None else Some(Present(UnionColumns(h, FallbackColumns), rs + [entry]))
  }

  /** The entry the fallback writer builds: no `saved_at`, so that cell is NaN after `concat`. */
  function FallbackEntry(user: string, date: string, recipe: string,
                         protein: real, carbs: real, fat: real): LogRow
  {
    LogRow(user, date, Text(recipe), Number(protein), Number(carbs), Number(fat), None)
  }

  /**
   * Lines 58-73: read the old log, append the entry, rewrite the file; a missing file
   * is created holding exactly the entry. Returns false, changing nothing, when the old
   * file cannot be read.
   */
  method FallbackSave(log: MealLog, user: string, date: string, recipe: string,
                      protein: real, carbs: real, fat: real) returns (ok: bool)
    requires log.Valid()
    modifies log
    ensures log.Valid()
    ensures var g := FallbackWrite(old(log.File()), FallbackEntry(user, date, recipe, protein, carbs, fat));
            && (ok <==> g.Some?)
            && (ok ==> log.File() == g.value)
            && (!ok ==> log.File() == old(log.File()))
  {
    var entry := FallbackEntry(user, date, recipe, protein, carbs, fat);
    if !log.fileExists {
      log.fileExists := true;
      log.header := FallbackColumns;
      log.rows := [entry];
      return true;
    }
    if log.header == [] {
      return false;
    }
    log.header := UnionColumns(log.header, FallbackColumns);
    log.rows := log.rows + [entry];
    return true;
  }

  /** The fallback writer keeps every old row in place and puts the entry last. */
  lemma FallbackKeepsRows(f: LogFile, entry: LogRow)
    requires entry.savedAt.None? && f.Present? && f.header != []
    ensures var g := FallbackWrite(f, entry).value;
            && |g.rows| == |f.rows| + 1 && g.rows[..|f.rows|] == f.rows && g.rows[|f.rows|] == entry
            && Read(g) == Rows(f.rows + [entry])
  {
    var g := FallbackWrite(f, entry).value;
    assert g.rows == f.rows + [entry];
    assert g.rows[..|f.rows|] == f.rows;
    assert g.header != [] by {
      assert |g.header| >= |f.header| > 0;
    }
  }

  /** On a log the savers created, the header stays the saver header. */
  lemma FallbackKeepsSaverHeader(rows: seq<LogRow>, entry: LogRow)
    requires entry.savedAt.None?
    ensures FallbackWrite(Present(LogColumns, rows), entry).value.header == LogColumns
  {
    var u := UnionColumns(LogColumns, FallbackColumns);
    assert forall c :: c in FallbackColumns ==> c in LogColumns;
    UnionAlreadyPresent(LogColumns, FallbackColumns);
  }

  /** Adding names that are all already there adds nothing. */
  lemma {:induction false} UnionAlreadyPresent(prev: seq<string>, added: seq<string>)
    requires forall c :: c in added ==> c in prev
    ensures UnionColumns(prev, added) == prev
    decreases |added|
  {
    if added != [] {
      assert added[0] in added;
      assert forall c :: c in added[1..] ==> c in added;
      UnionAlreadyPresent(prev, added[1..]);
    }
  }

  // ---------------------------------------------------------------------------
  // Daily aggregation (lines 86-97)
  // ---------------------------------------------------------------------------

  /** One of the user's entries after `pd.to_datetime`: its day and its macros. */
  datatype Entry = Entry(day: int, protein: real, carbs: real, fat: real)

  datatype Macro = Protein | Carbs | Fat

  /** The grams of `m` in an entry. */
  function Amount(e: Entry, m: Macro): real {
    match m
    case Protein => e.protein
    case Carbs => e.carbs
    case Fat => e.fat
  }

  /** One row of `daily`. */
  datatype DailyRow = DailyRow(day: int, protein: real, carbs: real, fat: real, calories: real)

  /** What the tracker page shows below the form. */
  datatype TrackerView =
    | Crash                        // an uncaught exception ends the page
    | NoLogs                       // "No logs yet."
    | NoUserLogs                   // "No logs for this user yet."
    | Daily(rows: seq<DailyRow>)   // the per-day table behind the charts

  /**
   * Line 89: the log rows whose `user` equals the current user's name, in log order,
   * each as often as it was logged.
   */
  function ForUser(rows: seq<LogRow>, name: string): (r: seq<LogRow>)
    ensures forall x :: x in r <==> x in rows && x.user == name
    ensures forall x :: multiset(r)[x] == if x.user == name then multiset(rows)[x] else 0
    ensures SubseqOf(r, rows)
    ensures |r| <= |rows|
    decreases |rows|
  {
    if rows == [] then []
    else
      var prefix := rows[..|rows| - 1];
      var init := ForUser(prefix, name);
      var last := rows[|rows| - 1];
      assert rows == prefix + [last];
      assert multiset(rows) == multiset(prefix) + multiset{last};
      if last.user == name then
        SubseqAppend(init, prefix, last);
        init + [last]
      else
        SubseqExtend(init, prefix, last);
        init
  }

  /** The current user's name, `user.get("name", "user")`. */
  function UserName(profileName: Option<string>): string {
    profileName.GetOr("user")
  }

  /** The numeric value of a macro cell, or `None` when `sum` would raise on text. */
  function Grams(c: Cell): (g: Option<real>)
    ensures g.None? <==> c.Text?
  {
    match c
    case Number(x) => Some(x)
    case Null => Some(0.0)
    case Text(_) => None
  }

  /**
   * Line 95 and the macro columns: each row as an entry, or `None` when a date does not
   * parse (`to_datetime` raises) or a macro cell holds text (`sum` raises).
   */
  function Entries(rows: seq<LogRow>, dayOf: string -> Option<int>): (r: Option<seq<Entry>>)
    ensures r.Some? ==> |r.value| == |rows|
    ensures r.Some? ==> forall i :: 0 <= i < |rows| ==>
              && dayOf(rows[i].date) == Some(r.value[i].day)
              && Grams(rows[i].protein) == Some(r.value[i].protein)
              && Grams(rows[i].carbs) == Some(r.value[i].carbs)
              && Grams(rows[i].fat) == Some(r.value[i].fat)
    ensures r.None? <==> exists i :: 0 <= i < |rows| && !Parses(rows[i], dayOf)
    decreases |rows|
  {
    if rows == [] then Some([])
    else
      var last := rows[|rows| - 1];
      match Entries(rows[..|rows| - 1], dayOf)
      case None =>
        assert forall i :: 0 <= i < |rows| - 1 ==> rows[..|rows| - 1][i] == rows[i];
        None
      case Some(es) =>
        assert forall i :: 0 <= i < |rows| - 1 ==> rows[..|rows| - 1][i] == rows[i];
        if Parses(last, dayOf) then
          Some(es + [Entry(dayOf(last.date).value, Grams(last.protein).value,
                           Grams(last.carbs).value, Grams(last.fat).value)])
        else None
  }

  /** The row's date parses and none of its macro cells is text. */
  predicate Parses(row: LogRow, dayOf: string -> Option<int>) {
    dayOf(row.date).Some? && !row.protein.Text? && !row.carbs.Text? && !row.fat.Text?
  }

  /** Some entry falls on `day`. */
  predicate HasDay(es: seq<Entry>, day: int) {
    exists i :: 0 <= i < |es| && es[i].day == day
  }

  /** Strictly ascending. */
  predicate Ascending(ds: seq<int>) {
    forall a, b :: 0 <= a < b < |ds| ==> ds[a] < ds[b]
  }

  /** In an ascending list the first day is below every later one. */
  lemma HeadBelow(ds: seq<int>)
    requires Ascending(ds) && ds != []
    ensures forall x :: x in ds[1..] ==> ds[0] < x
  {
    forall x | x in ds[1..] ensures ds[0] < x {
      var j :| 0 <= j < |ds[1..]| && ds[1..][j] == x;
      assert ds[j + 1] == x;
    }
  }

  /** Insert a day into an ascending list of distinct days. */
  function Insert(ds: seq<int>, d: int): (r: seq<int>)
    requires Ascending(ds)
    ensures Ascending(r)
    ensures forall x :: x in r <==> x in ds || x == d
    ensures d in ds ==> r == ds
    decreases |ds|
  {
    if ds == [] then [d]
    else if d < ds[0] then [d] + ds
    else if d == ds[0] then ds
    else
      var tail := ds[1..];
      var rest := Insert(tail, d);
      assert forall x :: x in ds <==> x == ds[0] || x in tail by {
        assert ds == [ds[0]] + tail;
      }
      HeadBelow(ds);
      assert forall k :: 0 <= k < |rest| ==> ds[0] < rest[k] by {
        forall k | 0 <= k < |rest| ensures ds[0] < rest[k] {
          assert rest[k] in rest;
        }
      }
      var r := [ds[0]] + rest;
      assert Ascending(r) by {
        forall a, b | 0 <= a < b < |r| ensures r[a] < r[b] {
          assert r[b] == rest[b - 1];
          if a > 0 { assert r[a] == rest[a - 1]; }
        }
      }
      r
  }

  /** `groupby(date)` keys: the distinct days of the entries, ascending. */
  function Days(es: seq<Entry>): (ds: seq<int>)
    ensures Ascending(ds)
    ensures forall d :: d in ds <==> HasDay(es, d)
    decreases |es|
  {
    if es == [] then []
    else
      var init := es[..|es| - 1];
      var ds := Insert(Days(init), es[|es| - 1].day);
      assert forall d :: HasDay(es, d) <==> HasDay(init, d) || d == es[|es| - 1].day by {
        forall d ensures HasDay(es, d) <==> HasDay(init, d) || d == es[|es| - 1].day {
          if HasDay(es, d) {
            var i :| 0 <= i < |es| && es[i].day == d;
            if i < |es| - 1 { assert init[i] == es[i]; }
          }
          if HasDay(init, d) {
            var i :| 0 <= i < |init| && init[i].day == d;
            assert es[i] == init[i];
          }
        }
      }
      ds
  }

  /** The grams of `m` over the entries on `day`, `agg({...: "sum"})` for one group. */
  function SumOn(es: seq<Entry>, day: int, m: Macro): real
    decreases |es|
  {
    if es == [] then 0.0
    else SumOn(es[..|es| - 1], day, m) + (if es[|es| - 1].day == day then Amount(es[|es| - 1], m) else 0.0)
  }

  /** The grams of `m` over all entries. */
  function Total(es: seq<Entry>, m: Macro): real
    decreases |es|
  {
    if es == [] then 0.0 else Total(es[..|es| - 1], m) + Amount(es[|es| - 1], m)
  }

  /** Lines 96-97: one row per day, ascending, with the day's sums and their calories. */
  function Aggregate(es: seq<Entry>): (rows: seq<DailyRow>)
    ensures |rows| == |Days(es)|
    ensures forall k :: 0 <= k < |rows| ==> rows[k].day == Days(es)[k]
    ensures forall k :: 0 <= k < |rows| ==>
              rows[k].calories == Kcal(rows[k].protein, rows[k].carbs, rows[k].fat)
  {
    var ds := Days(es);
    seq(|ds|, k requires 0 <= k < |ds| =>
      var p := SumOn(es, ds[k], Protein);
      var c := SumOn(es, ds[k], Carbs);
      var f := SumOn(es, ds[k], Fat);
      DailyRow(ds[k], p, c, f, Kcal(p, c, f)))
  }

  /**
   * Lines 76-97 as the code stands. With the log helper importable, `load_logs()` gives
   * `None` when there is no file and `None.empty` raises; without it, lines 80-84 read
   * the file or start from an empty frame. A file with no header line makes
   * `read_csv` raise either way.
   */
  function ViewAsWritten(helperAvailable: bool, logs: LogRead, name: string,
                         dayOf: string -> Option<int>): (v: TrackerView)
    ensures logs.NoFile? ==> (v == Crash <==> helperAvailable)
    ensures logs.Rows? ==> v == ViewOf(logs.rows, name, dayOf)
  {
    match logs
    case NoFile => if helperAvailable then Crash else NoLogs
    case Headerless => Crash
    case Rows(rows) => ViewOf(rows, name, dayOf)
  }

  /** The page as intended: a missing log file shows "No logs yet" on both paths, as the import fallback does. */
  function View(logs: LogRead, name: string, dayOf: string -> Option<int>): (v: TrackerView)
    ensures logs.NoFile? ==> v == NoLogs
    ensures logs.Rows? ==> v == ViewOf(logs.rows, name, dayOf)
  {
    match logs
    case NoFile => NoLogs
    case Headerless => Crash
    case Rows(rows) => ViewOf(rows, name, dayOf)
  }

  /** Lines 86-97 on a log that was read. */
  function ViewOf(rows: seq<LogRow>, name: string, dayOf: string -> Option<int>): TrackerView {
    if rows == [] then NoLogs
    else
      var mine := ForUser(rows, name);
      if mine == [] then NoUserLogs
      else
        match Entries(mine, dayOf)
        case None => Crash
        case Some(es) => Daily(Aggregate(es))
  }

  // ---------------------------------------------------------------------------
  // What the aggregation promises
  // ---------------------------------------------------------------------------

  /**
   * The missing-file case: with the helper importable the code as written raises, while
   * the intended page, like the import fallback, shows "No logs yet".
   */
  lemma MissingLogFileCrashes(name: string, dayOf: string -> Option<int>)
    ensures ViewAsWritten(true, Read(Missing), name, dayOf) == Crash
    ensures ViewAsWritten(false, Read(Missing), name, dayOf) == NoLogs
    ensures View(Read(Missing), name, dayOf) == NoLogs
  {
  }

  /** On a log file that exists the code as written and the intended page agree. */
  lemma ViewsAgreeOnExistingFile(helperAvailable: bool, f: LogFile, name: string,
                                 dayOf: string -> Option<int>)
    requires f.Present?
    ensures ViewAsWritten(helperAvailable, Read(f), name, dayOf) == View(Read(f), name, dayOf)
  {
  }

  /** An empty log shows no aggregation, and so does a log with no rows for this user. */
  lemma NoAggregationWithoutUserRows(rows: seq<LogRow>, name: string, dayOf: string -> Option<int>)
    requires forall i :: 0 <= i < |rows| ==> rows[i].user != name
    ensures !ViewOf(rows, name, dayOf).Daily?
  {
  }

  /** Rows of other users do not change the page. */
  lemma {:induction false} OtherUsersIgnored(rows: seq<LogRow>, other: LogRow, name: string)
    requires other.user != name
    ensures ForUser(rows + [other], name) == ForUser(rows, name)
  {
    assert (rows + [other])[..|rows|] == rows;
  }

  /**
   * The aggregate has one row per distinct day of the user's entries, ascending, and
   * each row holds that day's sums of protein, carbs and fat.
   */
  lemma AggregateRowsAreDaySums(es: seq<Entry>, k: nat)
    requires k < |Aggregate(es)|
    ensures var row := Aggregate(es)[k];
            && HasDay(es, row.day)
            && (forall j :: 0 <= j < k ==> Aggregate(es)[j].day < row.day)
            && row.protein == SumOn(es, row.day, Protein)
            && row.carbs == SumOn(es, row.day, Carbs)
            && row.fat == SumOn(es, row.day, Fat)
  {
    var ds := Days(es);
    assert ds[k] in ds;
  }

  /** Every day with an entry has a row. */
  lemma EveryDayHasARow(es: seq<Entry>, i: nat)
    requires i < |es|
    ensures exists k :: 0 <= k < |Aggregate(es)| && Aggregate(es)[k].day == es[i].day
  {
    assert HasDay(es, es[i].day);
    var ds := Days(es);
    var k :| 0 <= k < |ds| && ds[k] == es[i].day;
    assert Aggregate(es)[k].day == ds[k];
  }

  /** The day sums of `m` over the listed days. */
  function DaySum(ds: seq<int>, es: seq<Entry>, m: Macro): real
    decreases |ds|
  {
    if ds == [] then 0.0 else SumOn(es, ds[0], m) + DaySum(ds[1..], es, m)
  }

  /** One more entry adds its grams to its own day's sum, if that day is listed. */
  lemma {:induction false} DaySumAddEntry(ds: seq<int>, es: seq<Entry>, e: Entry, m: Macro)
    requires Ascending(ds)
    ensures DaySum(ds, es + [e], m) == DaySum(ds, es, m) + (if e.day in ds then Amount(e, m) else 0.0)
    decreases |ds|
  {
    if ds != [] {
      assert (es + [e])[..|es|] == es;
      DaySumAddEntry(ds[1..], es, e, m);
      assert e.day in ds <==> e.day == ds[0] || e.day in ds[1..] by {
        assert ds == [ds[0]] + ds[1..];
      }
      if e.day == ds[0] {
        assert e.day !in ds[1..];
      }
    }
  }

  /** A day with no entry sums to zero. */
  lemma {:induction false} SumOnAbsentDay(es: seq<Entry>, day: int, m: Macro)
    requires !HasDay(es, day)
    ensures SumOn(es, day, m) == 0.0
    decreases |es|
  {
    if es != [] {
      var init := es[..|es| - 1];
      assert forall i :: 0 <= i < |init| ==> init[i] == es[i];
      SumOnAbsentDay(init, day, m);
    }
  }

  /** Listing a new day adds that day's sum. */
  lemma {:induction false} DaySumInsert(ds: seq<int>, d: int, es: seq<Entry>, m: Macro)
    requires Ascending(ds) && d !in ds
    ensures DaySum(Insert(ds, d), es, m) == DaySum(ds, es, m) + SumOn(es, d, m)
    decreases |ds|
  {
    if ds != [] && d > ds[0] {
      assert ds == [ds[0]] + ds[1..];
      DaySumInsert(ds[1..], d, es, m);
      assert Insert(ds, d)[1..] == Insert(ds[1..], d);
    }
  }

  /** Summing the daily rows gives the same grams as summing the user's entries. */
  lemma {:induction false} DaySumsAddUp(es: seq<Entry>, m: Macro)
    ensures DaySum(Days(es), es, m) == Total(es, m)
    decreases |es|
  {
    if es != [] {
      var init := es[..|es| - 1];
      var e := es[|es| - 1];
      assert es == init + [e];
      DaySumsAddUp(init, m);
      var ds := Days(init);
      if e.day in ds {
        assert Days(es) == ds;
        DaySumAddEntry(ds, init, e, m);
      } else {
        DaySumInsert(ds, e.day, es, m);
        DaySumAddEntry(ds, init, e, m);
        assert !HasDay(init, e.day);
        SumOnAbsentDay(init, e.day, m);
        assert SumOn(es, e.day, m) == Amount(e, m);
      }
    }
  }

  /** Read off the daily table: each macro column sums to that macro's total over the entries. */
  lemma MacrosConserved(es: seq<Entry>, m: Macro)
    ensures ColumnSum(Aggregate(es), m) == Total(es, m)
  {
    forall k | 0 <= k < |Aggregate(es)|
      ensures Aggregate(es)[k].protein == SumOn(es, Days(es)[k], Protein)
      ensures Aggregate(es)[k].carbs == SumOn(es, Days(es)[k], Carbs)
      ensures Aggregate(es)[k].fat == SumOn(es, Days(es)[k], Fat)
    {
      AggregateRowsAreDaySums(es, k);
    }
    ColumnIsDaySum(Aggregate(es), Days(es), es, m);
    DaySumsAddUp(es, m);
  }

  /** The sum of one macro column of the daily table. */
  function ColumnSum(rows: seq<DailyRow>, m: Macro): real
    decreases |rows|
  {
    if rows == [] then 0.0
    else (match m case Protein => rows[0].protein case Carbs => rows[0].carbs case Fat => rows[0].fat)
         + ColumnSum(rows[1..], m)
  }

  /** A table whose rows hold the day sums has the day sums as its column sums. */
  lemma {:induction false} ColumnIsDaySum(rows: seq<DailyRow>, ds: seq<int>, es: seq<Entry>, m: Macro)
    requires |rows| == |ds|
    requires forall k :: 0 <= k < |rows| ==>
               rows[k].protein == SumOn(es, ds[k], Protein) && rows[k].carbs == SumOn(es, ds[k], Carbs)
               && rows[k].fat == SumOn(es, ds[k], Fat)
    ensures ColumnSum(rows, m) == DaySum(ds, es, m)
    decreases |rows|
  {
    if rows != [] {
      ColumnIsDaySum(rows[1..], ds[1..], es, m);
    }
  }
}
