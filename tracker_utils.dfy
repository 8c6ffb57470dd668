/**
 * The append-only meal log of `utils/tracker_utils.py`: a CSV file that either does
 * not exist or holds a header line followed by one line per logged meal. Both savers
 * write the header only when they create the file.
 */
module TrackerUtils {
  import opened Wrappers
  import opened Cells

  /** One logged meal, as `save_user_log` and `save_plan_log` lay it out. */
  datatype LogRow = LogRow(user: string, date: string, recipe: Cell,
                           protein: Cell, carbs: Cell, fat: Cell, savedAt: Option<string>)

  /** The columns of a row written by either saver, in file order. */
  const LogColumns: seq<string> := ["user", "date", "recipe", "protein", "carbs", "fat", "saved_at"]

  /** The log file: absent, or a header followed by rows. */
  datatype LogFile = Missing | Present(header: seq<string>, rows: seq<LogRow>)

  /** What `load_logs` hands back. */
  datatype LogRead =
    | NoFile                      // the file does not exist: `None`
    | Headerless                  // the file was created by an empty batch and has no header line
    | Rows(rows: seq<LogRow>)     // the rows written so far

  /**
   * `df.to_csv(LOG_PATH, ...)` for a frame with columns `columns` and rows `batch`:
   * a new file gets the header and the rows, an existing file gets the rows only.
   */
  function Write(f: LogFile, columns: seq<string>, batch: seq<LogRow>): (g: LogFile)
    ensures g.Present?
    ensures g.header == if f.Present? then f.header else columns
    ensures g.rows == if f.Present? then f.rows + batch else batch
  {
    match f
    case Missing => Present(columns, batch)
    case Present(h, rs) => Present(h, rs + batch)
  }

  /** `load_logs`: `None` without a file, otherwise what was written. */
  function Read(f: LogFile): (r: LogRead)
    ensures r.NoFile? <==> f.Missing?
    ensures r.Headerless? <==> f.Present? && f.header == []
    ensures r.Rows? <==> f.Present? && f.header != []
    ensures r.Rows? ==> r.rows == f.rows
  {
    match f
    case Missing => NoFile
    case Present(h, rs) => if h == [] then Headerless else Rows(rs)
  }

  /** The columns of the frame `save_plan_log` builds: none when the plan is empty. */
  function PlanColumns(batch: seq<LogRow>): (c: seq<string>)
    ensures c == [] <==> batch == []
    ensures batch != [] ==> c == LogColumns
  {
    if batch == [] then [] else LogColumns
  }

  /** The row `save_user_log` writes. */
  function UserLogRow(user: string, date: string, recipe: Cell,
                      protein: Cell, carbs: Cell, fat: Cell, now: string): LogRow
  {
    LogRow(user, date, recipe, protein, carbs, fat, Some(now))
  }

  /** Some recipe of the plan has column `key`, so the plan's frame has that column. */
  predicate HasColumn(items: seq<Row>, key: string) {
    exists i :: 0 <= i < |items| && key in items[i]
  }

  /**
   * `r.get(key, default)` on row `i` of `pd.DataFrame(items)`: when no recipe has the
   * column the default is used; when some recipe has it, a recipe without it gives NaN.
   */
  function PlanField(items: seq<Row>, i: int, key: string, default: Cell): (c: Cell)
    requires 0 <= i < |items|
    ensures key in items[i] ==> c == items[i][key]
    ensures key !in items[i] && !HasColumn(items, key) ==> c == default
    ensures key !in items[i] && HasColumn(items, key) ==> c == Null
  {
    if HasColumn(items, key) then Get(items[i], key, Null) else default
  }

  /** The log row `save_plan_log` makes of recipe `i` of the plan. */
  function PlanRow(items: seq<Row>, i: int, user: string, today: string, now: string): LogRow
    requires 0 <= i < |items|
  {
    LogRow(user, today,
           PlanField(items, i, "Recipe_name", Text("")),
           PlanField(items, i, "Protein(g)", Number(0.0)),
           PlanField(items, i, "Carbs(g)", Number(0.0)),
           PlanField(items, i, "Fat(g)", Number(0.0)),
           Some(now))
  }

  /**
   * The loop of `save_plan_log`: one row per recipe, in plan order, every row carrying
   * the given user and the commit-time date whatever the recipe says, a missing name
   * as "" and a missing macro as 0 when no recipe of the plan has that column.
   */
  method BuildPlanRows(items: seq<Row>, user: string, today: string, now: string)
    returns (rows: seq<LogRow>)
    ensures |rows| == |items|
    ensures forall i :: 0 <= i < |items| ==>
              rows[i].user == user && rows[i].date == today && rows[i].savedAt == Some(now)
    ensures forall i :: 0 <= i < |items| ==>
              && rows[i].recipe == PlanField(items, i, "Recipe_name", Text(""))
              && rows[i].protein == PlanField(items, i, "Protein(g)", Number(0.0))
              && rows[i].carbs == PlanField(items, i, "Carbs(g)", Number(0.0))
              && rows[i].fat == PlanField(items, i, "Fat(g)", Number(0.0))
    ensures rows == PlanRows(items, user, today, now)
  {
    rows := [];
    for k := 0 to |items|
      invariant |rows| == k
      invariant forall i :: 0 <= i < k ==> rows[i] == PlanRow(items, i, user, today, now)
    {
      rows := rows + [PlanRow(items, k, user, today, now)];
    }
  }

  /** The meal log on disk, updated in place by the two savers. */
  class MealLog {
    var fileExists: bool
    var header: seq<string>
    var rows: seq<LogRow>

    /** A file that does not exist holds nothing. */
    predicate Valid()
      reads this
    {
      !fileExists ==> header == [] && rows == []
    }

    /** The file as a value. */
    function File(): (f: LogFile)
      reads this
      ensures f.Present? <==> fileExists
    {
      if fileExists then Present(header, rows) else Missing
    }

    /** No log file yet. */
    constructor ()
      ensures Valid() && File() == Missing
    {
      fileExists := false;
      header := [];
      rows := [];
    }

    /**
     * `save_user_log`: appends exactly one row with the given values, stamped with
     * `now`; the header is written only when the file is new.
     */
    method SaveUserLog(user: string, date: string, recipe: Cell,
                       protein: Cell, carbs: Cell, fat: Cell, now: string)
      requires Valid()
      modifies this
      ensures Valid()
      ensures File() == Write(old(File()), LogColumns, [UserLogRow(user, date, recipe, protein, carbs, fat, now)])
    {
      var row := UserLogRow(user, date, recipe, protein, carbs, fat, now);
      if fileExists {
        rows := rows + [row];
      } else {
        fileExists := true;
        header := LogColumns;
        rows := [row];
      }
    }

    /** `load_logs`. */
    function LoadLogs(): (r: LogRead)
      reads this
      ensures r == Read(File())
    {
      if !fileExists then NoFile
      else if header == [] then Headerless
      else Rows(rows)
    }

    /**
     * `save_plan_log`: appends the plan's rows in plan order; a new file gets the
     * header of the plan's frame, which is empty when the plan is.
     */
    method SavePlanLog(items: seq<Row>, user: string, today: string, now: string)
      requires Valid()
      modifies this
      ensures Valid()
      ensures File() == Write(old(File()), PlanColumns(PlanRows(items, user, today, now)),
                              PlanRows(items, user, today, now))
    {
      var batch := BuildPlanRows(items, user, today, now);
      assert batch == PlanRows(items, user, today, now);
      if fileExists {
        rows := rows + batch;
      } else {
        fileExists := true;
        header := PlanColumns(batch);
        rows := batch;
      }
    }
  }

  /** The rows `save_plan_log` builds, as a value. */
  function PlanRows(items: seq<Row>, user: string, today: string, now: string): (rows: seq<LogRow>)
    ensures |rows| == |items|
    ensures forall i :: 0 <= i < |items| ==> rows[i] == PlanRow(items, i, user, today, now)
  {
    seq(|items|, i requires 0 <= i < |items| => PlanRow(items, i, user, today, now))
  }

  // ---------------------------------------------------------------------------
  // Properties of the log
  // ---------------------------------------------------------------------------

  /** A write keeps every earlier row unchanged and in place, and puts the batch last. */
  lemma WriteAppends(f: LogFile, columns: seq<string>, batch: seq<LogRow>)
    requires f.Present?
    ensures var g := Write(f, columns, batch);
            && |g.rows| == |f.rows| + |batch|
            && g.rows[..|f.rows|] == f.rows
            && g.rows[|f.rows|..] == batch
  {
    var g := Write(f, columns, batch);
    assert g.rows == f.rows + batch;
  }

  /** The header is written once, by whichever write creates the file; later writes keep it. */
  lemma HeaderWrittenOnce(f: LogFile, c1: seq<string>, b1: seq<LogRow>, c2: seq<string>, b2: seq<LogRow>)
    ensures Write(Write(f, c1, b1), c2, b2).header == if f.Present? then f.header else c1
  {
  }

  /** Logging the same meal twice leaves two identical rows: nothing is deduplicated. */
  lemma NoDeduplication(f: LogFile, user: string, date: string, recipe: Cell,
                        protein: Cell, carbs: Cell, fat: Cell, now: string)
    ensures var row := UserLogRow(user, date, recipe, protein, carbs, fat, now);
            var g := Write(Write(f, LogColumns, [row]), LogColumns, [row]);
            && |g.rows| == |Write(f, LogColumns, []).rows| + 2
            && g.rows[|g.rows| - 1] == g.rows[|g.rows| - 2] == row
  {
  }

  /** Reading a log built by saver writes gives back every row written, in write order. */
  lemma {:induction false} ReadAfterWrites(batches: seq<seq<LogRow>>)
    requires batches != [] && batches[0] != []
    ensures Read(WriteAll(Missing, batches)) == Rows(Flatten(batches))
    decreases |batches|
  {
    if |batches| > 1 {
      ReadAfterWrites(batches[..|batches| - 1]);
      assert batches[..|batches| - 1][0] == batches[0];
    }
  }

  /** The file after saver writes of each batch in turn (the header is `LogColumns`). */
  function WriteAll(f: LogFile, batches: seq<seq<LogRow>>): (g: LogFile)
    ensures batches != [] ==> g.Present?
    decreases |batches|
  {
    if batches == [] then f
    else
      var last := batches[|batches| - 1];
      Write(WriteAll(f, batches[..|batches| - 1]), PlanColumns(last), last)
  }

  /** All batches, concatenated in order. */
  function Flatten(batches: seq<seq<LogRow>>): seq<LogRow>
    decreases |batches|
  {
    if batches == [] then [] else Flatten(batches[..|batches| - 1]) + batches[|batches| - 1]
  }

  /** Saving an empty plan into a missing file creates a file with no header line. */
  lemma EmptyPlanCreatesHeaderlessFile(user: string, today: string, now: string)
    ensures var batch := PlanRows([], user, today, now);
            Read(Write(Missing, PlanColumns(batch), batch)) == Headerless
  {
  }
}
