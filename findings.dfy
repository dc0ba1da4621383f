/**
 * Two places where svante/statsdict.py does not do what it evidently means to:
 * each is modelled as written, with the input that shows the difference, next
 * to the corrected behaviour the rest of the model uses.
 */
module Findings {
  import opened Wrappers
  import opened Errors
  import opened Json
  import opened Runs
  import opened StoreSpec

  // ------------------------------------------------------------ the title

  /**
   * Lines 190-191 as written: only a missing title is filled in; a given one
   * is never stored, so the attribute stays unset (None here) and the first
   * `save` or report raises AttributeError.
   */
  function InitialTitleAsWritten(moduleName: string, title: Option<string>): (r: Option<string>)
    ensures r.Some? <==> title.None?
  {
    if title.None? then Some("Stats from " + moduleName) else None
  }

  /**
   * As written and as intended agree exactly when no title is passed; a passed
   * title, which the corrected `InitialTitle` keeps, is lost.
   */
  lemma InitialTitleDiscrepancy(moduleName: string, title: Option<string>)
    ensures InitialTitleAsWritten(moduleName, title) == Some(InitialTitle(moduleName, title)) <==> title.None?
    ensures title.Some? ==> InitialTitleAsWritten(moduleName, title).None? && InitialTitle(moduleName, title) == title.value
  {
  }

  // ------------------------------------------------------------ reloading runs

  /**
   * Line 396 as written: `r["run_no"]` on the store's own records. A run
   * record keeps its fields as attributes and its dictionary items stay empty,
   * so the lookup raises KeyError as soon as the history holds a record.
   */
  function KnownRunNosAsWritten(history: seq<RunInfo>): (r: Result<set<int>, Error>)
    ensures r.Success? <==> history == []
    ensures r.Success? ==> r.value == RunNos(history)
  {
    if history == [] then Success({}) else Failure(Raised("KeyError: run_no"))
  }

  /** `_load_run_list` (lines 392-401) as written. */
  function LoadRunListAsWritten(cur: Loaded, value: Json, timestamp: real, argv: seq<string>): (r: Result<Loaded, Error>)
    ensures cur.state.runs != [] ==> r == Failure(Raised("KeyError: run_no"))
    ensures cur.state.runs == [] ==> r == LoadRunList(cur, value, timestamp, argv)
  {
    match KnownRunNosAsWritten(cur.state.runs)
    case Failure(e) => Failure(e)
    case Success(known) =>
      if IteratesEmpty(value) then Success(cur)
      else if !value.JArr? then Failure(BadMetadata("_run_list"))
      else
        match NewRuns(known, value.items, timestamp, argv)
        case Failure(e) => Failure(e)
        case Success(added) => Success(cur.(state := cur.state.(runs := cur.state.runs + added)))
  }

  /**
   * The input that shows it: a store that has just been opened always holds its
   * current run, so calling `load()` on it to read back its own saved run list
   * raises as written, while the corrected merge reads it back and adds nothing.
   */
  lemma ReloadAfterOpen(cur: Loaded, history: seq<RunInfo>, timestamp: real, argv: seq<string>)
    requires cur.state.runs == Opened(history, timestamp, argv)
    ensures LoadRunListAsWritten(cur, JArr(RunsToJson(cur.state.runs)), timestamp, argv).Failure?
    ensures LoadRunList(cur, JArr(RunsToJson(cur.state.runs)), timestamp, argv) == Success(cur)
  {
    ReloadAddsNothing(cur, timestamp, argv);
  }

  /** Every run number of a history is known to it, so none of its records is new. */
  lemma OwnRunsAbsent(runs: seq<RunInfo>)
    ensures Absent(RunNos(runs), runs) == []
  {
    AllPresent(RunNos(runs), runs);
  }

  /** Corrected: reading back the store's own saved run list leaves the store as it was. */
  lemma ReloadAddsNothing(cur: Loaded, timestamp: real, argv: seq<string>)
    ensures LoadRunList(cur, JArr(RunsToJson(cur.state.runs)), timestamp, argv) == Success(cur)
  {
    var runs := cur.state.runs;
    LoadRunListEntry(cur, runs, timestamp, argv);
    OwnRunsAbsent(runs);
    assert runs + [] == runs;
  }
}
