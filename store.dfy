/**
 * `StatsDict` (svante/statsdict.py:149-430): the store of named stats, its run
 * history and its custom unit definitions, with the methods that change them step
 * by step. Every method is proved against the functions of `StoreSpec`.
 */
module Store {
  import opened Wrappers
  import opened Errors
  import opened Json
  import opened Stat
  import opened Runs
  import opened Units
  import opened Report
  import opened StoreSpec

  class StatsDict {
    /** The process-wide unit registry (`UREG`), shared by every store. */
    const ureg: UnitRegistry
    /** The process start time (`TIMESTAMP`) and arguments (`sys.argv[1:]`): the defaults of a run record. */
    const timestamp: real
    const argv: seq<string>
    const savePath: string

    var title: string
    /** `_stat_dict`: the names in insertion order, and the stat stored under each. */
    var keys: seq<string>
    var stats: map<string, Stat>
    var unitDefs: seq<string>
    var runList: seq<RunRecord>
    /** The current run's record; null only while the store is being constructed. */
    var runDict: RunRecord?
    var runNo: int
    var verbose: bool
    var logStats: bool
    var showRuns: bool
    var showRunNo: int
    var tableFormat: string

    ghost predicate Valid()
      reads this
    {
      && KeyOrder(keys, stats)
      && (forall k :: k in stats ==> k !in MetadataKeys && stats[k].WellFormed())
      && NoDuplicates(unitDefs)
      && tableFormat in TableFormats
      && (runDict != null ==> runDict.runNo == runNo)
    }

    /** The content `save` writes. */
    ghost function State(): StoreState
      reads this, runList
    {
      StoreState(title, keys, stats, InfoOf(runList), unitDefs)
    }

    function Config(): Settings
      reads this`verbose, this`logStats, this`showRuns, this`showRunNo, this`tableFormat
    {
      Settings(verbose, logStats, showRuns, showRunNo, tableFormat)
    }

    /** Lines 166-196: empty collections, run 1, the title and the save path; the table format is set by `Open`. */
    constructor (ureg: UnitRegistry, timestamp: real, argv: seq<string>, moduleName: Option<string>,
                 saveDir: Option<string>, title: Option<string>, verbose: bool, logStats: bool, showRuns: bool)
      ensures Valid() && runDict == null && runList == [] && runNo == 1
      ensures State() == StoreState(InitialTitle(if moduleName.None? then DefaultModuleName else moduleName.value, title),
                                    [], map[], [], [])
      ensures Config() == Settings(verbose, logStats, showRuns, 0, DefaultTableFormat)
      ensures this.ureg == ureg && this.timestamp == timestamp && this.argv == argv
      ensures savePath == SavePath(moduleName, saveDir)
    {
      this.ureg := ureg;
      this.timestamp := timestamp;
      this.argv := argv;
      keys := [];
      stats := map[];
      unitDefs := [];
      runList := [];
      runDict := null;
      this.verbose := verbose;
      this.logStats := logStats;
      this.showRuns := showRuns;
      showRunNo := 0;
      tableFormat := DefaultTableFormat;
      runNo := 1;
      var name := if moduleName.None? then DefaultModuleName else moduleName.value;
      this.title := InitialTitle(name, title);
      savePath := SavePath(moduleName, saveDir);
    }

    /** `set_table_format` (lines 306-315); an unknown format is an error and changes nothing. */
    method SetTableFormat(format: Option<string>) returns (o: Outcome<Error>)
      requires Valid()
      modifies this`tableFormat
      ensures Valid() && State() == old(State())
      ensures o.Pass? <==> TableFormatFor(format).Success?
      ensures o.Pass? ==> tableFormat == TableFormatFor(format).value
      ensures o.Fail? ==> o.error == TableFormatFor(format).error && tableFormat == old(tableFormat)
    {
      if format.None? {
        tableFormat := DefaultTableFormat;
      } else if format.value in TableFormats {
        tableFormat := format.value;
      } else {
        return Fail(UnknownTableFormat(format.value));
      }
      o := Pass;
    }

    /** `__setitem__` (lines 234-242). */
    method Set(key: string, value: Stat) returns (o: Outcome<Error>)
      requires Valid() && value.WellFormed()
      modifies this`keys, this`stats
      ensures Valid()
      ensures var r := Assigned(old(State()), key, value, runNo);
              && (o.Pass? <==> r.Success?)
              && (o.Pass? ==> State() == r.value)
              && (o.Fail? ==> o.error == r.error && State() == old(State()))
    {
      if |key| > 0 && key[0] == '_' {
        return Fail(ReservedKey(key));
      }
      if key !in stats {
        keys := keys + [key];
      }
      stats := stats[key := value.(runNo := runNo)];
      AssignedConsistent(old(State()), key, value, runNo);
      o := Pass;
    }

    /**
     * `start_run` (lines 350-355): sets the subtitle of the current run's record. The
     * history changes only where that very record is in it.
     */
    method StartRun(subtitle: Option<string>)
      requires Valid() && runDict != null
      modifies runDict
      ensures runDict.subtitle == (if subtitle.None? then DefaultSubtitle else subtitle.value)
      ensures State() == old(State()).(runs := State().runs)
      ensures |State().runs| == |old(State().runs)|
      ensures forall i :: 0 <= i < |runList| ==>
                State().runs[i] == if runList[i] == runDict then old(State().runs[i]).(subtitle := runDict.subtitle)
                                   else old(State().runs[i])
    {
      InfoOfAt(runList);
      if subtitle.None? {
        runDict.subtitle := DefaultSubtitle;
      } else {
        runDict.subtitle := subtitle.value;
      }
      InfoOfAt(runList);
    }

    /**
     * `define_units` (lines 357-365). A blank definition is recorded and then raises,
     * so the definitions before it are recorded and defined.
     */
    method DefineUnits(defs: seq<string>) returns (o: Outcome<Error>)
      requires Valid()
      modifies this`unitDefs, ureg
      ensures Valid()
      ensures var r := DefineAll(Loaded(old(State()), old(ureg.units)), defs);
              && (o.Pass? <==> r.Success?)
              && (o.Pass? ==> State() == r.value.state && ureg.units == r.value.units)
              && (o.Fail? ==> o.error == r.error)
      ensures o.Fail? ==> var k := FirstBlank(defs);
                          && k < |defs|
                          && unitDefs == AddUnitDefs(old(unitDefs), defs[..k + 1])
                          && ureg.units == RegisterUnits(old(ureg.units), defs[..k])
    {
      ghost var st := State();
      var k := DefineEach(defs);
      if k < |defs| {
        return Fail(BlankUnitDefinition(defs[k]));
      }
      assert defs[..k] == defs;
      assert State() == st.(unitDefs := unitDefs);
      o := Pass;
    }

    /**
     * The loop of `define_units` (lines 360-365), up to the first blank definition:
     * `k` is its position, or |defs| if there is none.
     */
    method DefineEach(defs: seq<string>) returns (k: nat)
      requires NoDuplicates(unitDefs)
      modifies this`unitDefs, ureg
      ensures k == FirstBlank(defs) && NoDuplicates(unitDefs)
      ensures unitDefs == AddUnitDefs(old(unitDefs), defs[..if k < |defs| then k + 1 else k])
      ensures ureg.units == RegisterUnits(old(ureg.units), defs[..k])
    {
      k := 0;
      while k < |defs|
        invariant 0 <= k <= FirstBlank(defs)
        invariant unitDefs == AddUnitDefs(old(unitDefs), defs[..k])
        invariant ureg.units == RegisterUnits(old(ureg.units), defs[..k])
        invariant NoDuplicates(unitDefs)
      {
        AddUnitDefsSnoc(old(unitDefs), defs, k);
        var blank := DefineOne(defs[k]);
        if blank {
          return;
        }
        RegisterUnitsSnoc(old(ureg.units), defs, k);
        k := k + 1;
      }
    }

    /**
     * One pass of the `define_units` loop (lines 361-365): the definition is recorded
     * unless it already is, then its unit is defined unless the registry knows the
     * name; `blank` when `split()[0]` raises.
     */
    method DefineOne(definition: string) returns (blank: bool)
      requires NoDuplicates(unitDefs)
      modifies this`unitDefs, ureg
      ensures unitDefs == AddUnitDef(old(unitDefs), definition) && NoDuplicates(unitDefs)
      ensures blank <==> FirstWord(definition).None?
      ensures blank ==> ureg.units == old(ureg.units)
      ensures !blank ==> ureg.units == if UnitName(definition) in old(ureg.units) then old(ureg.units)
                                       else old(ureg.units)[UnitName(definition) := definition]
    {
      if definition !in unitDefs {
        unitDefs := unitDefs + [definition];
      }
      var name := FirstWord(definition);
      blank := name.None?;
      if !blank && name.value !in ureg.units {
        ureg.Define(definition);
      }
    }

    /** `configure_report` (lines 367-380). */
    method ConfigureReport(showRuns: Option<bool>, showRunNo: Option<int>, verbose: Option<bool>)
      requires Valid()
      modifies this`showRuns, this`showRunNo, this`verbose
      ensures Config() == Configure(old(Config()), showRuns, showRunNo, verbose)
      ensures Valid()
      ensures State() == old(State())
    {
      // an explicit run number turns the table of runs off, whatever `show_runs` says
      this.showRuns := if showRunNo.Some? then false else if showRuns.Some? then showRuns.value else this.showRuns;
      this.showRunNo := if showRunNo.Some? then showRunNo.value else this.showRunNo;
      this.verbose := if verbose.Some? then verbose.value else this.verbose;
    }

    /** The stat rows of the report (lines 265-277), in key order. */
    method StatTable(shown: Option<int>, runColumn: bool, formatValue: Stat -> string, formatUnits: Stat -> string)
      returns (rows: seq<Row>)
      requires Valid()
      ensures rows == StatRows(keys, stats, shown, runColumn, formatValue, formatUnits)
    {
      rows := [];
      var i := 0;
      while i < |keys|
        invariant 0 <= i <= |keys|
        invariant rows == StatRows(keys[..i], stats, shown, runColumn, formatValue, formatUnits)
      {
        assert keys[..i + 1][..i] == keys[..i];
        var stat := stats[keys[i]];
        if shown.None? || stat.runNo == shown.value {
          rows := rows + [StatRow(keys[i], stat, runColumn, formatValue, formatUnits)];
        }
        i := i + 1;
      }
      assert keys[..i] == keys;
    }

    /** The table of runs (lines 287-296), one row per record. */
    method RunTable(formatTime: real -> string) returns (rows: seq<RunRow>)
      ensures rows == RunRows(State().runs, formatTime)
    {
      ghost var runs := InfoOf(runList);
      InfoOfAt(runList);
      rows := [];
      var j := 0;
      while j < |runList|
        invariant 0 <= j <= |runList|
        invariant rows == RunRows(runs[..j], formatTime)
      {
        var run := runList[j];
        assert runs[..j + 1] == runs[..j] + [run.Info()];
        rows := rows + [RunRow(run.runNo, run.subtitle, QuotedCommand(run.command), formatTime(run.startTime))];
        j := j + 1;
      }
      assert runs[..j] == runs;
    }

    /** `__str__` (lines 248-304): the rows and columns of the report. */
    method Render(formatValue: Stat -> string, formatUnits: Stat -> string, formatTime: real -> string)
      returns (r: Report)
      requires Valid()
      ensures r == ReportFor(State(), Config(), runNo, savePath, formatValue, formatUnits, formatTime)
    {
      var showColumn := showRuns;
      var shown: Option<int> := None;
      if showRunNo != 0 {
        if showRunNo < 0 {
          shown := Some(showRunNo + runNo + 1);
        } else {
          shown := Some(showRunNo);
        }
        showColumn := false;
      }
      var rows := StatTable(shown, showColumn, formatValue, formatUnits);
      var runTable: Option<seq<RunRow>> := None;
      if showColumn {
        var runRows := RunTable(formatTime);
        runTable := Some(runRows);
      }
      r := Report(if verbose then Some(savePath) else None, title, shown, Headers(showColumn), rows, runTable);
    }

    /** `[r.to_dict() for r in self._run_list]` (line 386). */
    method RunListJson() returns (items: seq<Json>)
      ensures items == RunsToJson(State().runs)
    {
      ghost var runs := InfoOf(runList);
      InfoOfAt(runList);
      items := [];
      var j := 0;
      while j < |runList|
        invariant 0 <= j <= |runList|
        invariant items == RunsToJson(runs[..j])
      {
        assert runs[..j + 1] == runs[..j] + [runList[j].Info()];
        items := items + [RunToJson(runList[j].Info())];
        j := j + 1;
      }
      assert runs[..j] == runs;
    }

    /** The stat entries `save` adds to the document (lines 389-390). */
    method StatsJson() returns (entries: Entries)
      requires Valid()
      ensures entries == StatEntries(keys, stats)
    {
      entries := [];
      var i := 0;
      while i < |keys|
        invariant 0 <= i <= |keys|
        invariant entries == StatEntries(keys[..i], stats)
      {
        assert keys[..i + 1][..i] == keys[..i];
        entries := entries + [(keys[i], JObj(ToDict(stats[keys[i]])))];
        i := i + 1;
      }
      assert keys[..i] == keys;
    }

    /** `save` (lines 382-392): the document written to the save path. */
    method Save() returns (doc: Entries)
      requires Valid()
      ensures doc == SaveDoc(State())
    {
      var runs := RunListJson();
      var entries := StatsJson();
      doc := [("_unit_defs", JArr(Strings(unitDefs))), ("_run_list", JArr(runs)), ("_title", JStr(title))] + entries;
    }

    /** `[r.run_no for r in self._run_list]` (line 396), read as attributes. */
    method KnownRunNos() returns (known: set<int>)
      ensures known == RunNos(State().runs)
    {
      known := {};
      var i := 0;
      while i < |runList|
        invariant 0 <= i <= |runList|
        invariant known == set j | 0 <= j < i :: runList[j].runNo
      {
        known := known + {runList[i].runNo};
        i := i + 1;
      }
      ghost var runs := State().runs;
      InfoOfAt(runList);
      forall n ensures n in known <==> n in RunNos(runs) {
        if n in known {
          var j :| 0 <= j < |runList| && runList[j].runNo == n;
          assert runs[j].runNo == n;
        }
      }
    }

    /** One item of a saved run list: its record is appended unless its run number is known. */
    method MergeSaved(known: set<int>, item: Json) returns (r: Result<seq<RunInfo>, Error>)
      modifies this`runList
      ensures r == SavedRun(known, item, timestamp, argv)
      ensures InfoOf(runList) == old(InfoOf(runList)) + (if r.Success? then r.value else [])
    {
      var no := SavedRunNo(item);
      if no.Failure? {
        return Failure(no.error);
      }
      if no.value in known {
        return Success([]);
      }
      var info := RunFromJson(item, timestamp, argv);
      if info.Failure? {
        return Failure(info.error);
      }
      var record := new RunRecord(info.value);
      AppendRecord(record);
      r := Success([info.value]);
    }

    /** `self._run_list.append(record)` (lines 215, 399). */
    method AppendRecord(record: RunRecord)
      modifies this`runList
      ensures runList == old(runList) + [record]
      ensures InfoOf(runList) == old(InfoOf(runList)) + [record.Info()]
    {
      ghost var prev := runList;
      runList := runList + [record];
      InfoOfSnoc(prev, record);
    }

    /**
     * `_load_run_list` (lines 394-399), reading each record's run number as an
     * attribute: the saved records whose run number was not in the history when the
     * call began are appended in order, as new records.
     */
    method LoadRunList(items: seq<Json>) returns (o: Outcome<Error>)
      modifies this`runList
      ensures var r := NewRuns(RunNos(old(State().runs)), items, timestamp, argv);
              && (o.Pass? <==> r.Success?)
              && (o.Pass? ==> State().runs == old(State().runs) + r.value)
              && (o.Fail? ==> o.error == r.error)
    {
      var known := KnownRunNos();
      ghost var before := InfoOf(runList);
      ghost var merged: seq<RunInfo> := [];
      var k := 0;
      while k < |items|
        invariant 0 <= k <= |items|
        invariant NewRuns(known, items[..k], timestamp, argv) == Success(merged)
        invariant InfoOf(runList) == before + merged
      {
        NewRunsSnoc(known, items, k, timestamp, argv);
        var added := MergeSaved(known, items[k]);
        if added.Failure? {
          NewRunsFails(known, items, timestamp, argv, k + 1);
          return Fail(added.error);
        }
        assert before + merged + added.value == before + (merged + added.value);
        merged := merged + added.value;
        k := k + 1;
      }
      assert items[..k] == items;
      o := Pass;
    }

    /** One key of a loaded document, as `load` dispatches it (lines 419-425). */
    method LoadEntryOf(key: string, value: Json, sqrt: real -> real) returns (o: Outcome<Error>)
      requires Valid()
      modifies this`title, this`keys, this`stats, this`unitDefs, this`runList, ureg
      ensures Valid()
      ensures var r := LoadEntry(Loaded(old(State()), old(ureg.units)), key, value, timestamp, argv, sqrt);
              && (o.Pass? <==> r.Success?)
              && (o.Pass? ==> Loaded(State(), ureg.units) == r.value)
              && (o.Fail? ==> o.error == r.error)
    {
      ghost var cur := Loaded(State(), ureg.units);
      if key == "_run_list" {
        if IteratesEmpty(value) {
          o := Pass;
        } else if !value.JArr? {
          o := Fail(BadMetadata(key));
        } else {
          o := LoadRunList(value.items);
        }
        assert o.Pass? ==> StoreSpec.LoadRunList(cur, value, timestamp, argv) == Success(Loaded(State(), ureg.units));
      } else if key == "_title" {
        if !value.JStr? {
          o := Fail(BadMetadata(key));
        } else {
          title := value.s;
          o := Pass;
        }
      } else if key == "_unit_defs" {
        var defs := if value.JArr? then DecodeStrings(value.items) else None;
        if IteratesEmpty(value) {
          o := Pass;
        } else if defs.None? {
          o := Fail(BadMetadata(key));
        } else {
          o := DefineUnits(defs.value);
        }
      } else {
        o := LoadStatEntry(key, value, sqrt);
      }
    }

    /** `self[key] = Stat(**value)` (line 425) for a key that is not metadata. */
    method LoadStatEntry(key: string, value: Json, sqrt: real -> real) returns (o: Outcome<Error>)
      requires Valid() && key !in MetadataKeys
      modifies this`keys, this`stats
      ensures Valid()
      ensures var r := LoadStat(Loaded(old(State()), ureg.units), key, value, sqrt);
              && (o.Pass? <==> r.Success?)
              && (o.Pass? ==> State() == r.value.state)
              && (o.Fail? ==> o.error == r.error && State() == old(State()))
    {
      if !value.JObj? {
        return Fail(BadArgument(key));
      }
      var stat := FromDict(value.fields, sqrt);
      if stat.Failure? {
        return Fail(stat.error);
      }
      if key !in stats {
        keys := keys + [key];
      }
      stats := stats[key := stat.value];
      o := Pass;
    }

    /**
     * `load` (lines 405-430): each key of the file in order; the metadata keys go to
     * their handlers and every other key is read back as a Stat.
     */
    method Load(file: StateFile, sqrt: real -> real) returns (o: Outcome<Error>)
      requires Valid()
      modifies this`title, this`keys, this`stats, this`unitDefs, this`runList, ureg
      ensures Valid()
      ensures var r := LoadFile(Loaded(old(State()), old(ureg.units)), file, timestamp, argv, sqrt);
              && (o.Pass? <==> r.Success?)
              && (o.Pass? ==> State() == r.value.state && ureg.units == r.value.units)
              && (o.Fail? ==> o.error == r.error)
      ensures file.Missing? ==> State() == old(State()) && ureg.units == old(ureg.units)
    {
      if file.Missing? {
        return Fail(StateFileNotFound);
      } else if file.Malformed? {
        return Fail(MalformedState);
      }
      var entries := file.entries;
      ghost var start := Loaded(State(), ureg.units);
      var i := 0;
      while i < |entries|
        invariant 0 <= i <= |entries|
        invariant Valid()
        invariant LoadEntries(start, entries[..i], timestamp, argv, sqrt) == Success(Loaded(State(), ureg.units))
      {
        var (key, value) := entries[i];
        ghost var cur := Loaded(State(), ureg.units);
        var step := LoadEntryOf(key, value, sqrt);
        LoadEntriesSnoc(start, entries[..i], key, value, timestamp, argv, sqrt);
        assert entries[..i + 1] == entries[..i] + [(key, value)];
        if step.Fail? {
          assert LoadEntry(cur, key, value, timestamp, argv, sqrt) == Failure(step.error);
          LoadEntriesFails(start, entries, timestamp, argv, sqrt, i + 1);
          return step;
        }
        assert LoadEntry(cur, key, value, timestamp, argv, sqrt) == Success(Loaded(State(), ureg.units));
        i := i + 1;
      }
      assert entries[..i] == entries;
      o := Pass;
    }

    /** The load done while the store is constructed (lines 199-203): a missing file is ignored. */
    method LoadExisting(loadExisting: bool, file: StateFile, sqrt: real -> real) returns (o: Outcome<Error>)
      requires Valid()
      modifies this`title, this`keys, this`stats, this`unitDefs, this`runList, ureg
      ensures Valid()
      ensures var r := LoadAtOpen(Loaded(old(State()), old(ureg.units)), loadExisting, file, timestamp, argv, sqrt);
              && (o.Pass? <==> r.Success?)
              && (o.Pass? ==> State() == r.value.state && ureg.units == r.value.units)
              && (o.Fail? ==> o.error == r.error)
    {
      o := Pass;
      if loadExisting {
        o := Load(file, sqrt);
        if o.Fail? && o.error == StateFileNotFound {
          o := Pass;
        }
      }
    }

    /**
     * The run numbering at the end of construction (lines 204-215): a fresh record
     * for the current run, appended unless the last saved run was started by this
     * very process.
     */
    method OpenRun()
      requires Valid() && runDict == null && runNo == 1
      modifies this`runNo, this`runDict, this`runList
      ensures Valid() && runDict != null && fresh(runDict)
      ensures var n := NumberRun(old(State().runs), timestamp);
              && runNo == n.runNo
              && runDict.Info() == RunInfo(n.runNo, timestamp, argv, "")
              && runList == (if n.append then old(runList) + [runDict] else old(runList))
              && State() == old(State()).(runs := Opened(old(State().runs), timestamp, argv))
    {
      ghost var st := State();
      var n := NumberCurrentRun();
      var record := new RunRecord(RunInfo(n.runNo, timestamp, argv, ""));
      runNo := n.runNo;
      runDict := record;
      if n.append {
        AppendRecord(record);
      }
    }

    /** Lines 204-212: the number of the current run and whether it needs a new record. */
    method NumberCurrentRun() returns (n: Numbering)
      ensures n == NumberRun(State().runs, timestamp)
    {
      n := Numbering(1, true);
      if |runList| > 0 {
        var last := runList[|runList| - 1];
        InfoOfAt(runList);
        if last.startTime == timestamp {
          n := Numbering(last.runNo, false);
        } else {
          n := Numbering(last.runNo + 1, true);
        }
      }
    }

    /** One step of the wrapped function: an assignment, a `define_units` call or an exception. */
    method PerformOne(a: Action) returns (o: Outcome<Error>)
      requires Valid() && (a.Assign? ==> a.value.WellFormed())
      modifies this`keys, this`stats, this`unitDefs, ureg
      ensures Valid()
      ensures var r := StoreSpec.Perform(Loaded(old(State()), old(ureg.units)), runNo, a);
              && (o.Pass? <==> r.Success?)
              && (o.Pass? ==> Loaded(State(), ureg.units) == r.value)
              && (o.Fail? ==> o.error == r.error)
    {
      match a {
        case Assign(key, value) =>
          o := Set(key, value);
        case DefineUnits(defs) =>
          o := DefineUnits(defs);
        case Raise(message) =>
          o := Fail(Raised(message));
      }
    }

    /**
     * The function a run wraps, as the store sees it: its assignments and
     * `define_units` calls in order, until the first exception.
     */
    method Perform(script: seq<Action>) returns (o: Outcome<Error>)
      requires Valid() && Assigns(script)
      modifies this`keys, this`stats, this`unitDefs, ureg
      ensures Valid()
      ensures var r := PerformAll(Loaded(old(State()), old(ureg.units)), runNo, script);
              && (o.Pass? <==> r.Success?)
              && (o.Pass? ==> State() == r.value.state && ureg.units == r.value.units)
              && (o.Fail? ==> o.error == r.error)
    {
      ghost var start := Loaded(State(), ureg.units);
      var i := 0;
      while i < |script|
        invariant 0 <= i <= |script|
        invariant Valid()
        invariant PerformAll(start, runNo, script[..i]) == Success(Loaded(State(), ureg.units))
      {
        assert script[..i + 1][..i] == script[..i];
        var step := PerformOne(script[i]);
        if step.Fail? {
          PerformAllFails(start, runNo, script, i + 1);
          return step;
        }
        i := i + 1;
      }
      assert script[..i] == script;
      o := Pass;
    }

    /** The end of a successful wrapped call (lines 343-346): save, then report the current run if asked. */
    method FinishRun(printRunStats: bool, formatValue: Stat -> string, formatUnits: Stat -> string,
                     formatTime: real -> string)
      returns (doc: Entries, report: Option<Report>)
      requires Valid()
      modifies this`showRuns, this`showRunNo, this`verbose
      ensures Valid() && State() == old(State())
      ensures doc == SaveDoc(State())
      ensures report.Some? <==> printRunStats
      ensures printRunStats ==>
                && Config() == Configure(old(Config()), None, Some(-1), None)
                && report == Some(ReportFor(State(), Config(), runNo, savePath, formatValue, formatUnits, formatTime))
      ensures !printRunStats ==> Config() == old(Config())
    {
      doc := Save();
      report := None;
      if printRunStats {
        ConfigureReport(None, Some(-1), None);
        var shown := Render(formatValue, formatUnits, formatTime);
        report := Some(shown);
      }
    }

    /**
     * The part of a wrapped call before the save (lines 340-342): the run is
     * subtitled with the function's name, then the function runs.
     */
    method RunScript(funcName: string, script: seq<Action>) returns (o: Outcome<Error>)
      requires Valid() && runDict != null && Assigns(script)
      modifies this`keys, this`stats, this`unitDefs, ureg, runDict
      ensures Valid() && runDict.subtitle == funcName
      ensures forall i :: 0 <= i < |runList| ==>
                State().runs[i] == if runList[i] == runDict then old(State().runs[i]).(subtitle := funcName)
                                   else old(State().runs[i])
      ensures var r := PerformAll(Loaded(old(State()), old(ureg.units)), runNo, script);
              && (o.Pass? <==> r.Success?)
              && (o.Fail? ==> o.error == r.error)
              && (o.Pass? ==> State().(runs := old(State().runs)) == r.value.state && ureg.units == r.value.units)
    {
      ghost var start := Loaded(State(), ureg.units);
      ghost var r := PerformAll(start, runNo, script);
      assert Consistent(start.state);
      PerformAllKeeps(start, runNo, script);
      StartRun(Some(funcName));
      ghost var mid := State();
      PerformAllIgnoresRuns(start, mid.runs, runNo, script);
      assert Loaded(mid, ureg.units) == start.(state := start.state.(runs := mid.runs));
      o := Perform(script);
      if o.Pass? {
        assert State() == r.value.state.(runs := mid.runs);
      }
    }

    /**
     * A call of a function decorated with `auto_save_and_report` (lines 338-346): the
     * run is subtitled with the function's name, the function runs, and if it returns
     * the store is saved and, with `print_run_stats`, the current run is reported.
     */
    method CallWrapped(funcName: string, printRunStats: bool, script: seq<Action>, formatValue: Stat -> string,
                       formatUnits: Stat -> string, formatTime: real -> string)
      returns (o: Outcome<Error>, saved: Option<Entries>, report: Option<Report>)
      requires Valid() && runDict != null && Assigns(script)
      modifies this`keys, this`stats, this`unitDefs, ureg, runDict, this`showRuns, this`showRunNo, this`verbose
      ensures Valid() && runDict.subtitle == funcName
      ensures forall i :: 0 <= i < |runList| ==>
                State().runs[i] == if runList[i] == runDict then old(State().runs[i]).(subtitle := funcName)
                                   else old(State().runs[i])
      ensures var r := PerformAll(Loaded(old(State()), old(ureg.units)), runNo, script);
              && (o.Pass? <==> r.Success?)
              && (o.Fail? ==> o.error == r.error && saved.None? && report.None?)
              && (o.Pass? ==> State().(runs := old(State().runs)) == r.value.state && ureg.units == r.value.units)
              && (o.Pass? ==> saved == Some(SaveDoc(State())))
              && (o.Pass? ==> (report.Some? <==> printRunStats))
      ensures o.Pass? && printRunStats ==>
                && Config() == Configure(old(Config()), None, Some(-1), None)
                && report == Some(ReportFor(State(), Config(), runNo, savePath, formatValue, formatUnits, formatTime))
      ensures !(o.Pass? && printRunStats) ==> Config() == old(Config())
    {
      o := RunScript(funcName, script);
      if o.Fail? {
        return o, None, None;
      }
      var doc;
      doc, report := FinishRun(printRunStats, formatValue, formatUnits, formatTime);
      saved := Some(doc);
    }
  }

  /**
   * The first part of `StatsDict(...)` (lines 152-202): the empty store, the table
   * format and the load of the saved file, a missing one being ignored.
   */
  method Prepare(ureg: UnitRegistry, timestamp: real, argv: seq<string>, moduleName: Option<string>, saveDir: Option<string>,
                 title: Option<string>, tableFormat: Option<string>, verbose: bool, logStats: bool, loadExisting: bool,
                 showRuns: bool, file: StateFile, sqrt: real -> real)
    returns (r: Result<StatsDict, Error>)
    modifies ureg
    ensures TableFormatFor(tableFormat).Failure? ==> r == Failure(TableFormatFor(tableFormat).error) && ureg.units == old(ureg.units)
    ensures TableFormatFor(tableFormat).Success? ==>
              var init := Loaded(StoreState(InitialTitle(if moduleName.None? then DefaultModuleName else moduleName.value, title),
                                            [], map[], [], []), old(ureg.units));
              var loaded := LoadAtOpen(init, loadExisting, file, timestamp, argv, sqrt);
              && (r.Success? <==> loaded.Success?)
              && (r.Failure? ==> r.error == loaded.error)
              && (r.Success? ==>
                    var s := r.value;
                    && fresh(s) && s.Valid() && s.runDict == null && s.runNo == 1 && s.ureg == ureg
                    && s.timestamp == timestamp && s.argv == argv && s.savePath == SavePath(moduleName, saveDir)
                    && s.State() == loaded.value.state && ureg.units == loaded.value.units
                    && s.Config() == Settings(verbose, logStats, showRuns, 0, TableFormatFor(tableFormat).value))
  {
    var s := new StatsDict(ureg, timestamp, argv, moduleName, saveDir, title, verbose, logStats, showRuns);
    var o := s.SetTableFormat(tableFormat);
    if o.Fail? {
      return Failure(o.error);
    }
    o := s.LoadExisting(loadExisting, file, sqrt);
    if o.Fail? {
      return Failure(o.error);
    }
    r := Success(s);
  }

  /**
   * `StatsDict(...)` (lines 152-215): the empty store, the table format, the load of
   * the saved file (a missing one is ignored) and the numbering of the current run.
   * An unknown table format or an unreadable file is an error instead of an exit.
   */
  method Open(ureg: UnitRegistry, timestamp: real, argv: seq<string>, moduleName: Option<string>, saveDir: Option<string>,
              title: Option<string>, tableFormat: Option<string>, verbose: bool, logStats: bool, loadExisting: bool,
              showRuns: bool, file: StateFile, sqrt: real -> real)
    returns (r: Result<StatsDict, Error>)
    modifies ureg
    ensures TableFormatFor(tableFormat).Failure? ==> r == Failure(TableFormatFor(tableFormat).error) && ureg.units == old(ureg.units)
    ensures TableFormatFor(tableFormat).Success? ==>
              var init := Loaded(StoreState(InitialTitle(if moduleName.None? then DefaultModuleName else moduleName.value, title),
                                            [], map[], [], []), old(ureg.units));
              var loaded := LoadAtOpen(init, loadExisting, file, timestamp, argv, sqrt);
              && (r.Success? <==> loaded.Success?)
              && (r.Failure? ==> r.error == loaded.error)
              && (r.Success? ==>
                    var s := r.value;
                    var n := NumberRun(loaded.value.state.runs, timestamp);
                    && fresh(s) && s.Valid() && s.runDict != null && s.ureg == ureg
                    && s.timestamp == timestamp && s.argv == argv && s.savePath == SavePath(moduleName, saveDir)
                    && s.State() == loaded.value.state.(runs := Opened(loaded.value.state.runs, timestamp, argv))
                    && ureg.units == loaded.value.units
                    && s.runNo == n.runNo
                    && s.runDict.Info() == RunInfo(n.runNo, timestamp, argv, "")
                    && (n.append ==> s.runList[|s.runList| - 1] == s.runDict)
                    && (!n.append ==> s.runDict !in s.runList)
                    && s.Config() == Settings(verbose, logStats, showRuns, 0, TableFormatFor(tableFormat).value))
  {
    r := Prepare(ureg, timestamp, argv, moduleName, saveDir, title, tableFormat, verbose, logStats, loadExisting,
                 showRuns, file, sqrt);
    if r.Failure? {
      return;
    }
    r.value.OpenRun();
  }
}
