/**
 * Which rows and columns the report (`StatsDict.__str__`, svante/statsdict.py:248-304)
 * produces, and the table-format setting (lines 35-60, 306-315). Number, unit and
 * date rendering are left to the caller's formatting functions; the table layout
 * itself is not modelled.
 */
module Report {
  import opened Wrappers
  import opened Errors
  import opened Stat
  import opened Runs

  /** The table formats `tabulate` accepts (`TABLE_FORMATS`). */
  const TableFormats: set<string> := {
    "plain", "simple", "github", "grid", "fancy_grid", "pipe", "orgtbl", "jira",
    "presto", "pretty", "psql", "rst", "mediawiki", "moinmoin", "youtrack", "html",
    "unsafehtml", "latex", "latex_raw", "latex_booktabs", "latex_longtable", "textile", "tsv"
  }

  const DefaultTableFormat: string := "rst"

  /** `set_table_format` (svante/statsdict.py:306-315): the format it installs, or the fatal error. */
  function TableFormatFor(format: Option<string>): (r: Result<string, Error>)
    ensures format.None? ==> r == Success(DefaultTableFormat)
    ensures format.Some? ==> (r.Success? <==> format.value in TableFormats)
    ensures r.Success? ==> r.value in TableFormats && (format.Some? ==> r.value == format.value)
    ensures r.Failure? ==> format.Some? && r.error == UnknownTableFormat(format.value)
  {
    if format.None? then Success(DefaultTableFormat)
    else if format.value in TableFormats then Success(format.value)
    else Failure(UnknownTableFormat(format.value))
  }

  /**
   * The run a report is restricted to (svante/statsdict.py:254-262): none for 0,
   * a run number counted back from the current run for a negative setting.
   */
  function ShownRun(showRunNo: int, runNo: int): (r: Option<int>)
    ensures r.None? <==> showRunNo == 0
    ensures showRunNo == -1 ==> r == Some(runNo)
    ensures showRunNo < 0 ==> r == Some(runNo - (-showRunNo - 1))
    ensures showRunNo > 0 ==> r == Some(showRunNo)
  {
    if showRunNo == 0 then None
    else if showRunNo < 0 then Some(showRunNo + runNo + 1)
    else Some(showRunNo)
  }

  /** One stat row; the Run cell exists only in the all-runs view. */
  datatype Row = Row(name: string, value: string, units: string, desc: string, run: Option<int>)

  /** One row of the table of runs. */
  datatype RunRow = RunRow(runNo: int, subtitle: string, command: string, time: string)

  /**
   * A report: the optional "Stats file" line, the title with the run it is
   * restricted to, the stat table's headers and rows, and the table of runs.
   */
  datatype Report = Report(statsFile: Option<string>, title: string, shownRun: Option<int>,
                           headers: seq<string>, rows: seq<Row>, runTable: Option<seq<RunRow>>)

  function Headers(runColumn: bool): seq<string>
  {
    ["Name", "Value", "Units", "Description"] + (if runColumn then ["Run"] else [])
  }

  function StatRow(name: string, s: Stat, runColumn: bool, formatValue: Stat -> string, formatUnits: Stat -> string): Row
  {
    Row(name, formatValue(s), formatUnits(s), FormatDesc(s), if runColumn then Some(s.runNo) else None)
  }

  predicate IsShown(s: Stat, shown: Option<int>)
  {
    shown.None? || s.runNo == shown.value
  }

  /** The rows of the stat table, in the store's key order (lines 265-277). */
  function StatRows(keys: seq<string>, stats: map<string, Stat>, shown: Option<int>, runColumn: bool,
                    formatValue: Stat -> string, formatUnits: Stat -> string): seq<Row>
    requires forall k :: k in keys ==> k in stats
  {
    if keys == [] then []
    else
      var n := |keys| - 1;
      var front := StatRows(keys[..n], stats, shown, runColumn, formatValue, formatUnits);
      if IsShown(stats[keys[n]], shown) then front + [StatRow(keys[n], stats[keys[n]], runColumn, formatValue, formatUnits)]
      else front
  }

  /** Every row shows a stored stat of the selected run, rendered from that stat. */
  lemma {:induction false} StatRowsSound(keys: seq<string>, stats: map<string, Stat>, shown: Option<int>, runColumn: bool,
                                         formatValue: Stat -> string, formatUnits: Stat -> string)
    requires forall k :: k in keys ==> k in stats
    ensures var rows := StatRows(keys, stats, shown, runColumn, formatValue, formatUnits);
            && |rows| <= |keys|
            && forall i :: 0 <= i < |rows| ==>
                 && rows[i].name in keys
                 && IsShown(stats[rows[i].name], shown)
                 && rows[i] == StatRow(rows[i].name, stats[rows[i].name], runColumn, formatValue, formatUnits)
  {
    if keys != [] {
      var n := |keys| - 1;
      StatRowsSound(keys[..n], stats, shown, runColumn, formatValue, formatUnits);
      assert forall k :: k in keys[..n] ==> k in keys;
    }
  }

  /** The Name column of a table. */
  function RowNames(rows: seq<Row>): (r: seq<string>)
    ensures |r| == |rows| && forall i :: 0 <= i < |rows| ==> r[i] == rows[i].name
  {
    if rows == [] then [] else RowNames(rows[..|rows| - 1]) + [rows[|rows| - 1].name]
  }

  /** Every stat of the selected run gets a row. */
  lemma {:induction false} StatRowsComplete(keys: seq<string>, stats: map<string, Stat>, shown: Option<int>, runColumn: bool,
                                            formatValue: Stat -> string, formatUnits: Stat -> string, k: string)
    requires forall k :: k in keys ==> k in stats
    requires k in keys && IsShown(stats[k], shown)
    ensures k in RowNames(StatRows(keys, stats, shown, runColumn, formatValue, formatUnits))
  {
    var n := |keys| - 1;
    var front := StatRows(keys[..n], stats, shown, runColumn, formatValue, formatUnits);
    var last := StatRow(keys[n], stats[keys[n]], runColumn, formatValue, formatUnits);
    if IsShown(stats[keys[n]], shown) {
      RowNamesSnoc(front, last);
    }
    if k != keys[n] {
      KeyInFront(keys, k);
      StatRowsComplete(keys[..n], stats, shown, runColumn, formatValue, formatUnits, k);
    }
  }

  /** A key other than the last one is among the keys before it. */
  lemma KeyInFront(keys: seq<string>, k: string)
    requires k in keys && k != keys[|keys| - 1]
    ensures k in keys[..|keys| - 1]
  {
    assert keys == keys[..|keys| - 1] + [keys[|keys| - 1]];
  }

  lemma RowNamesSnoc(rows: seq<Row>, row: Row)
    ensures RowNames(rows + [row]) == RowNames(rows) + [row.name]
  {
    assert (rows + [row])[..|rows|] == rows;
  }

  /** With no run selected, every stat gets a row, in key order. */
  lemma {:induction false} StatRowsAll(keys: seq<string>, stats: map<string, Stat>, runColumn: bool,
                                       formatValue: Stat -> string, formatUnits: Stat -> string)
    requires forall k :: k in keys ==> k in stats
    ensures var rows := StatRows(keys, stats, None, runColumn, formatValue, formatUnits);
            |rows| == |keys| && forall i :: 0 <= i < |rows| ==> rows[i].name == keys[i]
  {
    if keys != [] {
      var n := |keys| - 1;
      StatRowsAll(keys[..n], stats, runColumn, formatValue, formatUnits);
    }
  }

  /** `" ".join(words)` */
  function JoinWords(words: seq<string>): string
  {
    if words == [] then ""
    else if |words| == 1 then words[0]
    else JoinWords(words[..|words| - 1]) + " " + words[|words| - 1]
  }

  /** The command line of a run as the report quotes it (line 292). */
  function QuotedCommand(command: seq<string>): (r: string)
    ensures |r| >= 2 && r[0] == '"' && r[|r| - 1] == '"' && r[1..|r| - 1] == JoinWords(command)
  {
    "\"" + JoinWords(command) + "\""
  }

  /** The table of runs (lines 288-296), one row per record in history order. */
  function RunRows(runs: seq<RunInfo>, formatTime: real -> string): (r: seq<RunRow>)
    ensures |r| == |runs|
    ensures forall i :: 0 <= i < |runs| ==>
              r[i] == RunRow(runs[i].runNo, runs[i].subtitle, QuotedCommand(runs[i].command), formatTime(runs[i].startTime))
  {
    if runs == [] then []
    else
      var n := |runs| - 1;
      RunRows(runs[..n], formatTime) + [RunRow(runs[n].runNo, runs[n].subtitle, QuotedCommand(runs[n].command), formatTime(runs[n].startTime))]
  }
}
