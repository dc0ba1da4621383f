# svante statsdict, modelled in Dafny

A model of `svante/statsdict.py`, the stats store used by svante's command-line tools.

A `StatsDict` keeps these things for each run of a program:

- named `Stat` values, each with an optional uncertainty, units and description;
- a history of runs (`_RunDict` records);
- the custom unit definitions the program registered.

The store is saved as one JSON document, which is loaded back and merged when the next run opens the store. The modules are:

| file | module | models |
|---|---|---|
| `wrappers.dfy` | `Wrappers`, `Errors`, `Json` | Option/Result/Outcome, the exceptions and fatal exits of the source as error values, JSON values |
| `stat.dfy` | `Stat` | the `Stat` constructor (type casting, `is_count`), `format_desc`, `to_dict`, and `Stat(**d)` on a saved dict |
| `runs.dfy` | `Runs` | `_RunDict` as a class `RunRecord`, its saved form, the run-list merge of `_load_run_list`, and run numbering at construction |
| `units.dfy` | `Units` | `define_units`: the recorded list, `split()[0]`, and the process-wide unit registry (`UREG`) as a class |
| `report.dfy` | `Report` | the table formats, the run selection and the rows and columns of `__str__` |
| `store_spec.dfy` | `StoreSpec` | the store's saved state as a value, the saved document, `load` as a fold over its keys, and the save/load round trip; also assignment, `configure_report` and the report as functions |
| `store.dfy` | `Store` | the class `StatsDict`, whose methods update its fields step by step and are each proved against the `StoreSpec` functions; `Open` is the constructor |
| `findings.dfy` | `Findings` | two defects of the source as written, next to the corrected behaviour the rest of the model uses |

Values the source gets from outside the core are parameters of the model:

- the process start time `TIMESTAMP` and `sys.argv[1:]`;
- the parsed contents of the state file, as a `StateFile`;
- `math.sqrt`;
- the pint/uncertainties formatting of a value and of its units;
- the date formatting of a run's start time.

An exit (`sys.exit(1)`) and an exception both become an `Error` value.

## Model

| member | source | states |
|---|---|---|
| `Stat.Truncate` | svante/statsdict.py:95 | `int(x)` on a float truncates toward zero: the result is within one of x, on the side of zero |
| `Stat.Cast` | svante/statsdict.py:92-95 | a cast through `NUMBER_CASTS` yields a value of exactly the requested type |
| `Stat.MakeStat` | svante/statsdict.py:70-99 | an unsupported type, given or taken from the value, raises; a count with a negative value has no square root, and that is the only other failure; otherwise the stat is well formed, has the chosen type, and keeps its value unchanged when that is already the value's type and converts it otherwise; a count's uncertainty is the square root of its value and overrides any given uncertainty; units, description and run number are kept |
| `Stat.FormatDesc` | svante/statsdict.py:127-132 | empty exactly when there is no description; otherwise the description in square brackets |
| `Stat.ToDict` | svante/statsdict.py:107-109 | the saved dict holds the value, type and run number, plus the uncertainty, units and description exactly when they are set, and only constructor parameter names |
| `Stat.FromDict` | svante/statsdict.py:425 | `Stat(**d)` succeeds only on a dict of constructor parameters that has a value, and then yields a well-formed stat; a missing run number defaults to -1; a truthy `is_count` (line 96) makes the uncertainty the square root of the value; failures are argument or type errors, or the square-root domain error |
| `Stat.DictRoundTrip` | svante/statsdict.py:107-109 | a constructed stat saved with `to_dict` and passed back to the constructor as keyword arguments (line 425) is the same stat |
| `Runs.RunRecord.constructor` | svante/statsdict.py:135-142 | a new run record holds exactly the given run number, start time, command and subtitle |
| `Runs.InfoOf` | svante/statsdict.py:386 | the saved forms of a list of records: one per record |
| `Runs.InfoOfAt` | svante/statsdict.py:386 | each saved form is that of the record at the same position |
| `Runs.InfoOfSnoc` | svante/statsdict.py:215 | appending a record to the run list appends its saved form to the history |
| `Runs.RunsToJson` | svante/statsdict.py:386 | the saved run list has one `to_dict` per record, in history order |
| `Runs.DecodeStrings` | svante/statsdict.py:399 | a JSON array decodes to a list of strings exactly when every item is a string, and then item by item |
| `Runs.RunFromJson` | svante/statsdict.py:399 | `_RunDict(**r)` keeps the saved run number and every saved field; a missing start time takes the process start time, a missing command the process's arguments and a missing subtitle "" |
| `Runs.StringsRoundTrip` | svante/statsdict.py:386 | a saved list of strings decodes back to itself |
| `Runs.RunRoundTrip` | svante/statsdict.py:144-146 | a saved run record loads back as itself, whatever the process defaults are |
| `Runs.RunNos` | svante/statsdict.py:396 | the known run numbers are exactly the run numbers of the history's records |
| `Runs.NewRuns` | svante/statsdict.py:397-399 | merging a saved run list can only fail with an argument error (a missing or malformed field) |
| `Runs.SavedRun` | svante/statsdict.py:398-399 | one saved item adds no record when its run number is already known; otherwise it adds one record, the item decoded |
| `Runs.NewRunsSnoc` | svante/statsdict.py:397-399 | the merge of one more item extends the merge of the items before it |
| `Runs.NewRunsFails` | svante/statsdict.py:397-399 | an error in the first items ends the whole merge with that error |
| `Runs.NewRunsOfDecoded` | svante/statsdict.py:394-399 | when every item decodes, the merge appends exactly the decoded records whose run number was unknown when the merge began, in order |
| `Runs.AbsentMembers` | svante/statsdict.py:398 | a record is appended if and only if it is loaded and its run number is unknown |
| `Runs.MergeIdempotent` | svante/statsdict.py:394-399 | merging the same saved list a second time appends nothing |
| `Runs.AllPresent` | svante/statsdict.py:398 | a saved list whose run numbers are all known appends nothing |
| `Runs.Opened` | svante/statsdict.py:204-215 | after construction the history is non-empty, extends the loaded history by at most one record, and ends with a record of the current run number and the process start time |
| `Runs.ReentrantOpen` | svante/statsdict.py:204-210 | opening the store a second time in the same process neither adds a record nor changes the run number |
| `Runs.SequentialRunNumbers` | svante/statsdict.py:204-215 | runs opened with distinct start times, each saving before the next opens, are numbered 1, 2, ..., N with one record each, in start order |
| `Units.LeadingSpaces` | svante/statsdict.py:363 | the leading run of whitespace that `split()` skips: all whitespace, followed by a non-space or the end of the string |
| `Units.WordLength` | svante/statsdict.py:363 | the word that `split()` takes: no whitespace, followed by whitespace or the end of the string |
| `Units.FirstWordSpec` | svante/statsdict.py:363 | `definition.split()[0]` raises exactly for a blank string; otherwise it is the non-empty run of non-whitespace after the leading whitespace |
| `Units.NewDefsMembers` | svante/statsdict.py:360-362 | the definitions a call appends are exactly the given ones not yet recorded, each once |
| `Units.AddUnitDefsOrder` | svante/statsdict.py:360-362 | `define_units` leaves the recorded list as it was, followed by the new definitions in the order they are first seen in the call |
| `Units.AddUnitDefsSpec` | svante/statsdict.py:360-362 | recorded definitions keep their positions, every given definition ends up recorded, nothing else is added, and no duplicate arises |
| `Units.AddKnownUnitDefs` | svante/statsdict.py:361 | definitions that are all recorded already leave the list unchanged |
| `Units.DefineUnitsIdempotent` | svante/statsdict.py:357-362 | recording the same definitions twice leaves the list as the first call left it |
| `Units.AddUnitDefsToEmpty` | svante/statsdict.py:360-362 | a duplicate-free list recorded into an empty store comes back unchanged |
| `Units.AddUnitDefsSnoc` | svante/statsdict.py:360-362 | one loop step records one more definition, and the list stays duplicate-free |
| `Units.FirstBlank` | svante/statsdict.py:363 | the position of the first blank definition, where `split()[0]` raises: every definition before it has a unit name |
| `Units.RegisterUnits` | svante/statsdict.py:363-365 | defining units never changes or removes a unit the registry already knew |
| `Units.RegisterUnitsNames` | svante/statsdict.py:363-365 | every unit name the definitions introduce ends up in the registry |
| `Units.RegisterUnitsSnoc` | svante/statsdict.py:363-365 | one loop step defines a unit only when its name is not yet known |
| `Units.FirstDefinitionWins` | svante/statsdict.py:364-365 | a unit name that was not known is defined by the first definition that introduces it, and later ones are ignored |
| `Units.NotYetRegistered` | svante/statsdict.py:364-365 | a name that no definition introduces is not registered unless it was known before |
| `Units.UnitRegistry.constructor` | svante/statsdict.py:61 | the registry starts with the units it is given |
| `Units.UnitRegistry.Define` | svante/statsdict.py:365 | `UREG.define` adds the definition under its unit name and changes nothing else |
| `Report.TableFormatFor` | svante/statsdict.py:306-315 | no format selects "rst"; a given format is accepted exactly when it is in `TABLE_FORMATS`, and an unknown one is an error naming it |
| `Report.ShownRun` | svante/statsdict.py:254-262 | 0 selects no run; a positive setting is a run number; -1 is the current run, and -n is n-1 runs before it |
| `Report.StatRowsSound` | svante/statsdict.py:266-277 | every row of the stat table shows a stored stat of the selected run, rendered from that stat |
| `Report.StatRowsComplete` | svante/statsdict.py:266-277 | every stored stat of the selected run has a row |
| `Report.StatRowsAll` | svante/statsdict.py:266-277 | with no run selected, the rows are the stats in key order, one each |
| `Report.QuotedCommand` | svante/statsdict.py:292 | the command cell is the space-joined arguments between double quotes |
| `Report.RunRows` | svante/statsdict.py:288-296 | the table of runs has one row per record, in history order, with its number, subtitle, quoted command and time |
| `StoreSpec.InsertKey` | svante/statsdict.py:242 | inserting into a dict adds exactly the key, and keeps the keys distinct |
| `StoreSpec.StatEntries` | svante/statsdict.py:389-390 | the stat part of the saved document has one entry per key |
| `StoreSpec.StatEntriesAt` | svante/statsdict.py:389-390 | each stat entry is the key at the same position with its stat's `to_dict` |
| `StoreSpec.SaveDocShape` | svante/statsdict.py:384-390 | the saved document holds the three metadata keys first, then one attribute dict per stat |
| `StoreSpec.DefineAll` | svante/statsdict.py:357-365 | `define_units` fails exactly when some definition is blank, naming the first one; otherwise only the unit definitions change |
| `StoreSpec.LoadEntry` | svante/statsdict.py:419-425 | no key of a document raises FileNotFoundError |
| `StoreSpec.LoadEntries` | svante/statsdict.py:419-425 | loading a document never reports a missing file |
| `StoreSpec.LoadEntryConsistent` | svante/statsdict.py:419-425 | loading one key keeps the store consistent: key order, no metadata key as a stat, well-formed stats, no duplicate unit definition; and the run history only grows |
| `StoreSpec.LoadEntriesAppend` | svante/statsdict.py:419-425 | loading a document in two parts is loading the first part, then the second |
| `StoreSpec.LoadEntriesFails` | svante/statsdict.py:419-425 | an error in the first keys ends the whole load with that error |
| `StoreSpec.AbsentFromNothing` | svante/statsdict.py:394-399 | into an empty history, every saved record is appended, in order |
| `StoreSpec.LoadEntriesSnoc` | svante/statsdict.py:419-425 | loading one more key after a document is loading the document, then that key |
| `StoreSpec.LoadUnitDefsEntry` | svante/statsdict.py:176-180 | a saved `_unit_defs` list is recorded and defined as `define_units` would |
| `StoreSpec.LoadRunListEntry` | svante/statsdict.py:394-399 | a saved `_run_list` appends exactly its records whose run number is not yet known |
| `StoreSpec.LoadStatEntry` | svante/statsdict.py:425 | a saved stat is read back under its name as the same stat |
| `StoreSpec.LoadEntriesStep` | svante/statsdict.py:419-425 | one more key that loads, after a document that loads, extends the load |
| `StoreSpec.UnitDefsStep` | svante/statsdict.py:179 | the saved unit definitions, loaded into a store that has none, are recorded as they were |
| `StoreSpec.RunListStep` | svante/statsdict.py:177 | the saved run list, loaded into a store with no runs, becomes its history |
| `StoreSpec.LoadMetadata` | svante/statsdict.py:176-180 | the three metadata keys of a saved document restore the title, the run history and the unit definitions |
| `StoreSpec.LoadOneStat` | svante/statsdict.py:423-425 | a saved stat loaded after a document that loaded is stored under its name |
| `StoreSpec.LoadStats` | svante/statsdict.py:419-425 | the stat entries of a saved document restore every stat under its name, in key order |
| `StoreSpec.SaveLoadRoundTrip` | svante/statsdict.py:382-425 | a consistent store with no blank recorded unit definition, saved and then loaded into a new one, comes back with the same title, stats, key order, run history and unit definitions, with every unit defined |
| `StoreSpec.LoadAtOpen` | svante/statsdict.py:199-203 | the load at construction: skipped when `load_existing` is off or the file is missing; malformed JSON is an error; otherwise the document is loaded |
| `StoreSpec.InitialTitle` | svante/statsdict.py:190-191 | the given title, else "Stats from" and the module name (corrected; see Findings) |
| `StoreSpec.Assigned` | svante/statsdict.py:234-242 | assignment fails exactly for a name with a leading underscore; otherwise it stores the stat stamped with the current run number, a new name goes last, an existing one keeps its place, and nothing else changes |
| `StoreSpec.AssignedConsistent` | svante/statsdict.py:236-242 | assignment keeps the store consistent |
| `StoreSpec.PerformAllKeeps` | svante/statsdict.py:341 | a wrapped function never touches the title or run history and keeps the store consistent |
| `StoreSpec.PerformAllIgnoresRuns` | svante/statsdict.py:341 | what a wrapped function does to the store does not depend on the run history |
| `StoreSpec.PerformAllFails` | svante/statsdict.py:341 | an exception in the first steps of a wrapped function ends it |
| `StoreSpec.Configure` | svante/statsdict.py:367-380 | a None argument leaves its setting unchanged; choosing a run always hides the run column, whatever `show_runs` says; other settings are kept |
| `StoreSpec.ReportFor` | svante/statsdict.py:248-304 | the report carries the store's title, selects `ShownRun`, has the "Stats file" line with the save path exactly when verbose, and has the Run column and the table of runs (`RunRows` of the history) exactly when runs are shown and no run is selected |
| `StoreSpec.ReportRows` | svante/statsdict.py:265-277 | the rows are the stored stats of the selected run, all of them, with a Run cell exactly when the Run column is shown; with no run selected, all stats in key order |
| `StoreSpec.WrappedReport` | svante/statsdict.py:343-345 | the report after a wrapped run shows exactly the stats of the current run, with no Run column and no table of runs |
| `Store.StatsDict.constructor` | svante/statsdict.py:166-196 | an empty consistent store at run 1 with the initial title, the save path, the given report settings and the default table format |
| `Store.StatsDict.SetTableFormat` | svante/statsdict.py:306-315 | installs the format `TableFormatFor` selects; an unknown format is an error and changes nothing; the saved state is unchanged |
| `Store.StatsDict.Set` | svante/statsdict.py:234-242 | the new state is `Assigned` of the old one, or unchanged with the error for a reserved name; the store stays consistent |
| `Store.StatsDict.StartRun` | svante/statsdict.py:350-355 | sets the subtitle of the current run's record, to "Run of svante.statsdict" when none is given; the history changes only at the positions holding that very record |
| `Store.StatsDict.DefineUnits` | svante/statsdict.py:357-365 | the recorded list and registry are those of `DefineAll`; at a blank definition, the definitions up to and including it are recorded and those before it defined |
| `Store.StatsDict.DefineEach` | svante/statsdict.py:360-365 | the loop stops at the first blank definition; the definitions up to and including it are recorded without duplicates, and those before it defined |
| `Store.StatsDict.DefineOne` | svante/statsdict.py:361-365 | one definition is recorded unless it already is; it is blank exactly when `split()[0]` raises; otherwise its unit is defined only if the registry does not know the name |
| `Store.StatsDict.ConfigureReport` | svante/statsdict.py:367-380 | the new settings are `Configure` of the old ones; the saved state is unchanged |
| `Store.StatsDict.StatTable` | svante/statsdict.py:265-277 | the rows built by the loop are `StatRows` |
| `Store.StatsDict.RunTable` | svante/statsdict.py:286-296 | the rows built by the loop are `RunRows` of the history |
| `Store.StatsDict.Render` | svante/statsdict.py:248-304 | `__str__` shows `ReportFor` the current state and settings |
| `Store.StatsDict.RunListJson` | svante/statsdict.py:386 | the saved run list is `RunsToJson` of the history |
| `Store.StatsDict.StatsJson` | svante/statsdict.py:389-390 | the saved stats are `StatEntries` |
| `Store.StatsDict.Save` | svante/statsdict.py:382-392 | the document written is `SaveDoc` of the current state |
| `Store.StatsDict.KnownRunNos` | svante/statsdict.py:396 | the run numbers read from the records, as attributes, are `RunNos` of the history |
| `Store.StatsDict.MergeSaved` | svante/statsdict.py:398-399 | one saved item is merged as `SavedRun` says, and its record, if any, is appended to the history |
| `Store.StatsDict.AppendRecord` | svante/statsdict.py:399 | appending a record to the run list appends its saved form to the history |
| `Store.StatsDict.LoadRunList` | svante/statsdict.py:394-399 | succeeds exactly when `NewRuns` does, and then appends its records to the history |
| `Store.StatsDict.LoadEntryOf` | svante/statsdict.py:419-425 | one key of a document changes the store as `LoadEntry` says, and the store stays consistent |
| `Store.StatsDict.LoadStatEntry` | svante/statsdict.py:425 | a non-metadata key changes the store as `LoadStat` says, and a failure leaves it unchanged |
| `Store.StatsDict.Load` | svante/statsdict.py:405-430 | succeeds exactly when `LoadFile` does, and then the store and registry are its result; a missing file changes nothing |
| `Store.StatsDict.LoadExisting` | svante/statsdict.py:199-203 | the load at construction changes the store as `LoadAtOpen` says: a missing file is no error |
| `Store.StatsDict.OpenRun` | svante/statsdict.py:204-215 | the run number and the new current record follow `NumberRun`; the record is appended only when the numbering says so; the history becomes `Opened` |
| `Store.StatsDict.NumberCurrentRun` | svante/statsdict.py:204-212 | computes `NumberRun` of the history |
| `Store.StatsDict.PerformOne` | svante/statsdict.py:341 | one step of the wrapped function changes the store as `Perform` says |
| `Store.StatsDict.Perform` | svante/statsdict.py:341 | the wrapped function changes the store as `PerformAll` says |
| `Store.StatsDict.RunScript` | svante/statsdict.py:340-341 | the run is subtitled with the function's name, then the stats and units change as `PerformAll` says |
| `Store.StatsDict.FinishRun` | svante/statsdict.py:342-346 | returns the saved document; with `print_run_stats`, the settings select the current run and the report is produced from them; the state is unchanged |
| `Store.StatsDict.CallWrapped` | svante/statsdict.py:338-346 | a decorated call: subtitle, function, then save and report only if the function returns; after an exception, nothing is saved or reported and the settings are unchanged |
| `Store.Prepare` | svante/statsdict.py:152-203 | an unknown table format is an error that loads nothing; otherwise the new store holds what `LoadAtOpen` yields, or the construction fails with its error |
| `Store.Open` | svante/statsdict.py:152-215 | as `Prepare`, then the history is `Opened`, the run number is `NumberRun`'s, and the current record is the last one of the history exactly when it was appended |
| `Findings.InitialTitleAsWritten` | svante/statsdict.py:190-191 | as written, the title is set exactly when none is given |
| `Findings.InitialTitleDiscrepancy` | svante/statsdict.py:190-191 | as written and corrected agree exactly when no title is given; a given title is lost as written and kept when corrected |
| `Findings.KnownRunNosAsWritten` | svante/statsdict.py:396 | as written, reading the run numbers succeeds exactly when the history is empty |
| `Findings.LoadRunListAsWritten` | svante/statsdict.py:394-399 | as written, `_load_run_list` raises KeyError on any non-empty history, and otherwise merges like the corrected one |
| `Findings.ReloadAfterOpen` | svante/statsdict.py:394-399 | on a store that has been opened, reloading its own saved run list raises as written, and leaves the store unchanged when corrected |
| `Findings.ReloadAddsNothing` | svante/statsdict.py:394-399 | corrected: reading back the store's own saved run list leaves the store as it was |

## Left out

- Logging is not modelled: the debug, info and error messages, the `log_stats` output of `__setitem__` and the `previously_defined` count in `load`. They have no effect on the store.
- The `stats` command registered on a typer app (lines 217-232) is not modelled. It only prints a stat, or the list of names and exits.
- `_test` (lines 433-473) is a demonstration program and is not modelled.
- `Stat.__str__`, `format_value` and `format_units` are not modelled. They depend on pint and uncertainties, so the report takes them as function parameters. `datetime.strftime` is a parameter in the same way, and the `tabulate` layout is not modelled: a report is its rows and columns.
- Floats are modelled as exact reals, and `math.sqrt` is a parameter. Python integers are unbounded, so no integer width needs modelling.
- File I/O is replaced by values. `load` gets the parsed document as a `StateFile`, and `save` returns the document instead of writing it. JSON text, `indent=1` and `Path.resolve` are not modelled. The save path is the unresolved `<dir>/<module>_stats.json`.
- The `__name__ == "__main__"` branch (module name "global", line 183) is covered only through the `moduleName` parameter. The default module name is "svante".
- `Store.StatsDict.Set`: the source stamps the run number on the caller's own `Stat` object (line 241). The model stores a stamped copy, so the caller's object is not updated.
- `auto_save_and_report` as a decorator factory (partial application, lines 324-333) is not modelled. `CallWrapped` models one call of the decorated function. The wrapped function is a sequence of `Action`s: assignments, `define_units` calls and an exception that ends it.
- `Store.StatsDict.Load`, `Store.StatsDict.LoadRunList`, `Store.StatsDict.LoadEntryOf`, `Store.StatsDict.LoadExisting`, `Store.StatsDict.Perform`, `Store.StatsDict.PerformOne`, `Store.StatsDict.RunScript`, `Store.StatsDict.CallWrapped`, `Store.Prepare` and `Store.Open`: after a failure, the contract gives the error but not the partial changes made before it. This includes units defined in the shared registry by a `_unit_defs` entry loaded before the failing key.
- `Stat.FromDict`: `Stat(**d)` in the source accepts any JSON value for `units`, `desc` and `uncert`. The model accepts only strings and numbers, and fails with `BadArgument` otherwise.
- `Stat.FromDict`: the source stores any `run_no`, null or a float included. The model's stat keeps an integer run number, so it refuses any other saved run number with `BadArgument`.
- `Stat.FromDict`: the source casts a string `val` with `int()` or `float()` when `val_type` says so. Parsing number text is not modelled, so the model refuses a string value with `UnsupportedType`.
- `Runs.RunFromJson`: attrs stores any `start_time`, `command` or `subtitle` without checking its type. The model accepts only a number, a list of strings and a string, and fails with `BadArgument` otherwise.
- `Runs.SavedRunNo`: the `not in run_nos` test at line 398 treats a saved `3.0` as the known run 3. The model accepts only integer run numbers, and fails with `BadArgument` otherwise.
- `StoreSpec.LoadEntry`: the `_title` handler accepts only a string, while the source stores any value as the title.
- `StoreSpec.LoadEntry`: the `_unit_defs` handler accepts a list of strings, or "" or {}, which define nothing. `define_units` iterates whatever it is given, so a non-empty string would define one unit per character and a non-empty object one per key. The model fails with `BadMetadata` on these and on any other value.
- `StoreSpec.LoadEntry`: the `_run_list` handler accepts a list, or "" or {}, which add no records. Any other value raises TypeError in the source's loop (lines 397-398), and the model fails with `BadMetadata`.
- `Units.RegisterUnits` and `Units.FirstDefinitionWins`: the unit registry is a map from unit names to definitions, and a name counts as known only if it is a key. pint's own membership test also accepts prefixed and plural forms of every unit it knows, built in or defined earlier in the run. For example, once "basepairs" is defined, "kilobasepairs" parses as kilo plus basepairs, so the test at line 364 skips `UREG.define` (line 365) for it, while the model defines it. pint's rejection of a malformed definition is not modelled.
- `StoreSpec.LoadEntries`: a `StateFile` document may repeat a key, and every copy is loaded in turn. Python's `json.load` keeps only the last value of a repeated key, so the source loads a repeated `_run_list` or `_unit_defs` once.
- Atomic saves, locking and concurrent processes are not modelled.

Behaviour of the code that a reader might not expect, which the model keeps:

- The run number at construction is one more than the LAST record's run number (lines 205-212), not the highest one.
- A stat built with `is_count` gets the square root of its value as its uncertainty, overriding any given uncertainty (lines 96-99). Giving both is not an error.
- A run's subtitle is "" until `start_run` is called. A decorated call uses the function's name, and the decorator's own `subtitle` argument is never used (line 340).
- `load` stores a non-metadata key with a leading underscore as a stat (line 425). Only `__setitem__` refuses such names.
- Two records with the same new run number in one saved list are both appended. The known run numbers are read once, before the merge (line 396).
- The saved document keeps the stats in insertion order, and `load` restores that order.
- `define_units` records a definition (line 362) before `split()[0]` raises on a blank one (line 363). The store keeps the blank definition, and a file saved from it makes every later load raise again, so the save/load round trip holds only for stores with no blank recorded definition.

## Findings

| source | as written | input that shows it | evidently intended | confidence | as-written member | corrected member |
|---|---|---|---|---|---|---|
| svante/statsdict.py:190-191 | `_title` is set only when no title is passed | `StatsDict(title="My stats", load_existing=False)`, then `save()` or `str()`: AttributeError on `_title` | a given title becomes the store's title | high; not executed | `Findings.InitialTitleAsWritten` (shown by `Findings.InitialTitleDiscrepancy`) | `StoreSpec.InitialTitle` |
| svante/statsdict.py:396 | `r["run_no"]` reads an item of each `_RunDict`, but a record keeps its fields as attributes and its dict items are empty | any opened store, whose history always holds the current run, calling `load()` again: KeyError 'run_no' | the known run numbers are read as attributes (`r.run_no`), and reloading the store's own file adds nothing | high; not executed | `Findings.LoadRunListAsWritten` (shown by `Findings.ReloadAfterOpen`) | `StoreSpec.LoadRunList` (proved by `Findings.ReloadAddsNothing`) |
