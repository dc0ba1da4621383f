/**
 * The persisted form of a `StatsDict` (svante/statsdict.py:382-430): the state a
 * store saves, the document `save` writes, how `load` folds a document into a
 * store, and the round trip between the two.
 */
module StoreSpec {
  import opened Wrappers
  import opened Errors
  import opened Json
  import opened Stat
  import opened Runs
  import opened Units
  import opened Report

  /** The top-level keys `load` hands to a metadata handler instead of reading as stats. */
  const MetadataKeys: set<string> := {"_run_list", "_title", "_unit_defs"}

  /** `key.startswith("_")`: names `__setitem__` refuses. */
  predicate IsReserved(key: string)
  {
    |key| > 0 && key[0] == '_'
  }

  /** The saved content of a store: title, stats in insertion order, run history, unit definitions. */
  datatype StoreState = StoreState(title: string, keys: seq<string>, stats: map<string, Stat>,
                                   runs: seq<RunInfo>, unitDefs: seq<string>)

  /** A dict's key order: distinct names, exactly the keys of the map. */
  ghost predicate KeyOrder(keys: seq<string>, stats: map<string, Stat>)
  {
    && (forall i, j :: 0 <= i < j < |keys| ==> keys[i] != keys[j])
    && (forall k :: k in stats <==> k in keys)
  }

  /**
   * What every operation of the store keeps: the key order matches the map, no stat
   * is stored under a metadata key, every stat is well formed, and no unit definition
   * is recorded twice.
   */
  ghost predicate Consistent(st: StoreState)
  {
    && KeyOrder(st.keys, st.stats)
    && (forall k :: k in st.stats ==> k !in MetadataKeys && st.stats[k].WellFormed())
    && NoDuplicates(st.unitDefs)
  }

  /** Inserting into a Python dict: a new key goes last, an existing one keeps its place. */
  function InsertKey(keys: seq<string>, key: string): (r: seq<string>)
    ensures key in r && forall k :: k in r <==> k in keys || k == key
    ensures (forall i, j :: 0 <= i < j < |keys| ==> keys[i] != keys[j]) ==>
              forall i, j :: 0 <= i < j < |r| ==> r[i] != r[j]
  {
    if key in keys then keys else keys + [key]
  }

  /** A stat as `save` writes it: its key and its `to_dict()`. */
  function StatEntry(key: string, s: Stat): (string, Json)
  {
    (key, JObj(ToDict(s)))
  }

  /** The stat part of the saved document, in key order (lines 389-390). */
  function StatEntries(keys: seq<string>, stats: map<string, Stat>): (r: Entries)
    requires forall k :: k in keys ==> k in stats
    ensures |r| == |keys|
  {
    if keys == [] then []
    else
      var n := |keys| - 1;
      StatEntries(keys[..n], stats) + [StatEntry(keys[n], stats[keys[n]])]
  }

  /** Each stat entry is the key at the same position with its stat's attribute dict. */
  lemma {:induction false} StatEntriesAt(keys: seq<string>, stats: map<string, Stat>)
    requires forall k :: k in keys ==> k in stats
    ensures forall i :: 0 <= i < |keys| ==> StatEntries(keys, stats)[i] == StatEntry(keys[i], stats[keys[i]])
  {
    if keys != [] {
      var n := |keys| - 1;
      StatEntriesAt(keys[..n], stats);
    }
  }

  /** The document `save` writes (lines 384-390): the three metadata keys, then every stat. */
  function SaveDoc(st: StoreState): (doc: Entries)
    requires forall k :: k in st.keys ==> k in st.stats
  {
    MetaEntries(st) + StatEntries(st.keys, st.stats)
  }

  /** The metadata part of the saved document (lines 384-388). */
  function MetaEntries(st: StoreState): Entries
  {
    [("_unit_defs", JArr(Strings(st.unitDefs))),
     ("_run_list", JArr(RunsToJson(st.runs))),
     ("_title", JStr(st.title))]
  }

  /** The saved document has the three metadata keys first, then one attribute dict per stat, in key order. */
  lemma SaveDocShape(st: StoreState)
    requires KeyOrder(st.keys, st.stats)
    ensures var doc := SaveDoc(st);
            && |doc| == 3 + |st.stats|
            && doc[0].0 == "_unit_defs" && doc[1].0 == "_run_list" && doc[2].0 == "_title"
            && forall i :: 3 <= i < |doc| ==> doc[i].0 in st.stats && doc[i].1 == JObj(ToDict(st.stats[doc[i].0]))
  {
    KeyOrderSize(st.keys, st.stats);
    StatEntriesAt(st.keys, st.stats);
  }

  lemma KeyOrderSize(keys: seq<string>, stats: map<string, Stat>)
    requires KeyOrder(keys, stats)
    ensures |stats| == |keys|
  {
    DistinctCard(keys);
    assert stats.Keys == set k | k in keys;
  }

  lemma {:induction false} DistinctCard(keys: seq<string>)
    requires forall i, j :: 0 <= i < j < |keys| ==> keys[i] != keys[j]
    ensures |set k | k in keys| == |keys|
  {
    if keys != [] {
      var n := |keys| - 1;
      DistinctCard(keys[..n]);
      assert (set k | k in keys) == (set k | k in keys[..n]) + {keys[n]};
      assert keys[n] !in keys[..n];
    }
  }

  /** A store in the middle of loading, with the unit registry it has been defining units in. */
  datatype Loaded = Loaded(state: StoreState, units: map<string, string>)

  /** A saved value that is not a list but that a Python `for` loop goes through as empty: "" or {}. */
  predicate IteratesEmpty(value: Json)
  {
    value == JStr("") || value == JObj(map[])
  }

  /**
   * `_load_run_list` (lines 392-401): the saved records whose run number is not yet
   * known are appended; an empty string or object is gone through as no records.
   */
  function LoadRunList(cur: Loaded, value: Json, timestamp: real, argv: seq<string>): Result<Loaded, Error>
  {
    if IteratesEmpty(value) then Success(cur)
    else if !value.JArr? then Failure(BadMetadata("_run_list"))
    else
      match NewRuns(RunNos(cur.state.runs), value.items, timestamp, argv)
      case Failure(e) => Failure(e)
      case Success(added) => Success(cur.(state := cur.state.(runs := cur.state.runs + added)))
  }

  /** `_load_title` (lines 403-404). */
  function LoadTitle(cur: Loaded, value: Json): Result<Loaded, Error>
  {
    if !value.JStr? then Failure(BadMetadata("_title")) else Success(cur.(state := cur.state.(title := value.s)))
  }

  /**
   * `define_units(defs)` (lines 357-365): every definition is recorded once and its
   * unit defined unless the registry knows the name; a blank definition, whose
   * `split()[0]` raises, ends it with an error.
   */
  function DefineAll(cur: Loaded, defs: seq<string>): (r: Result<Loaded, Error>)
    ensures r.Failure? <==> exists i :: 0 <= i < |defs| && FirstWord(defs[i]).None?
    ensures r.Failure? ==> r.error == BlankUnitDefinition(defs[FirstBlank(defs)])
    ensures r.Success? ==> r.value.state == cur.state.(unitDefs := r.value.state.unitDefs)
  {
    var k := FirstBlank(defs);
    if k < |defs| then Failure(BlankUnitDefinition(defs[k]))
    else Success(Loaded(cur.state.(unitDefs := AddUnitDefs(cur.state.unitDefs, defs)), RegisterUnits(cur.units, defs)))
  }

  /** The `_unit_defs` handler is `define_units` itself (line 179); "" or {} defines nothing. */
  function LoadUnitDefs(cur: Loaded, value: Json): Result<Loaded, Error>
  {
    if IteratesEmpty(value) then Success(cur)
    else if !value.JArr? || DecodeStrings(value.items).None? then Failure(BadMetadata("_unit_defs"))
    else DefineAll(cur, DecodeStrings(value.items).value)
  }

  /** `self[key] = Stat(**value)` (line 425): the key is stored as is, not checked for a leading underscore. */
  function LoadStat(cur: Loaded, key: string, value: Json, sqrt: real -> real): Result<Loaded, Error>
  {
    if !value.JObj? then Failure(BadArgument(key))
    else
      match FromDict(value.fields, sqrt)
      case Failure(e) => Failure(e)
      case Success(s) => Success(cur.(state := cur.state.(keys := InsertKey(cur.state.keys, key), stats := cur.state.stats[key := s])))
  }

  /**
   * One top-level key of a loaded document (svante/statsdict.py:419-425): a metadata
   * key goes to its handler, any other key is read back as a Stat. `timestamp` and
   * `argv` are the process's start time and arguments, the defaults of a run record.
   */
  function LoadEntry(cur: Loaded, key: string, value: Json, timestamp: real, argv: seq<string>,
                     sqrt: real -> real): (r: Result<Loaded, Error>)
    ensures r.Failure? ==> r.error != StateFileNotFound
  {
    if key == "_run_list" then LoadRunList(cur, value, timestamp, argv)
    else if key == "_title" then LoadTitle(cur, value)
    else if key == "_unit_defs" then LoadUnitDefs(cur, value)
    else LoadStat(cur, key, value, sqrt)
  }

  /** `load` on a decoded document: every key in file order; the first failure ends it. */
  function LoadEntries(cur: Loaded, entries: Entries, timestamp: real, argv: seq<string>,
                       sqrt: real -> real): (r: Result<Loaded, Error>)
    // a missing file is the only cause of FileNotFoundError: no entry raises it
    ensures r.Failure? ==> r.error != StateFileNotFound
  {
    if entries == [] then Success(cur)
    else
      var n := |entries| - 1;
      match LoadEntries(cur, entries[..n], timestamp, argv, sqrt)
      case Failure(e) => Failure(e)
      case Success(c) => LoadEntry(c, entries[n].0, entries[n].1, timestamp, argv, sqrt)
  }

  /** Loading keeps the store consistent, and the run history only grows. */
  lemma LoadEntryConsistent(cur: Loaded, key: string, value: Json, timestamp: real, argv: seq<string>, sqrt: real -> real)
    requires Consistent(cur.state)
    requires LoadEntry(cur, key, value, timestamp, argv, sqrt).Success?
    ensures var next := LoadEntry(cur, key, value, timestamp, argv, sqrt).value;
            Consistent(next.state) && cur.state.runs <= next.state.runs
  {
    var st := cur.state;
    if key == "_unit_defs" && !IteratesEmpty(value) {
      AddUnitDefsSpec(st.unitDefs, DecodeStrings(value.items).value);
    }
  }

  /** Loading a document in two parts is loading the first, then the second. */
  lemma {:induction false} LoadEntriesAppend(cur: Loaded, a: Entries, b: Entries, timestamp: real, argv: seq<string>, sqrt: real -> real)
    ensures LoadEntries(cur, a + b, timestamp, argv, sqrt) ==
            match LoadEntries(cur, a, timestamp, argv, sqrt)
            case Failure(e) => Failure(e)
            case Success(c) => LoadEntries(c, b, timestamp, argv, sqrt)
  {
    if b == [] {
      assert a + b == a;
    } else {
      var n := |b| - 1;
      LoadEntriesAppend(cur, a, b[..n], timestamp, argv, sqrt);
      assert (a + b)[..|a + b| - 1] == a + b[..n];
    }
  }

  /** An error in the first keys of a document ends the whole load with that error. */
  lemma {:induction false} LoadEntriesFails(cur: Loaded, entries: Entries, timestamp: real, argv: seq<string>,
                                            sqrt: real -> real, k: nat)
    requires k <= |entries| && LoadEntries(cur, entries[..k], timestamp, argv, sqrt).Failure?
    ensures LoadEntries(cur, entries, timestamp, argv, sqrt) == LoadEntries(cur, entries[..k], timestamp, argv, sqrt)
    decreases |entries| - k
  {
    if k < |entries| {
      assert entries[..k + 1][..k] == entries[..k];
      LoadEntriesFails(cur, entries, timestamp, argv, sqrt, k + 1);
    } else {
      assert entries[..k] == entries;
    }
  }

  /** Nothing recorded before means every saved record is appended, in order. */
  lemma {:induction false} AbsentFromNothing(runs: seq<RunInfo>)
    ensures Absent({}, runs) == runs
  {
    if runs != [] {
      AbsentFromNothing(runs[..|runs| - 1]);
    }
  }

  /** Loading one more key after a document is loading the document, then that key. */
  lemma LoadEntriesSnoc(cur: Loaded, entries: Entries, key: string, value: Json, timestamp: real,
                        argv: seq<string>, sqrt: real -> real)
    ensures LoadEntries(cur, entries + [(key, value)], timestamp, argv, sqrt) ==
            match LoadEntries(cur, entries, timestamp, argv, sqrt)
            case Failure(e) => Failure(e)
            case Success(c) => LoadEntry(c, key, value, timestamp, argv, sqrt)
  {
    assert (entries + [(key, value)])[..|entries|] == entries;
  }

  /** A saved `_unit_defs` list is recorded and defined as `define_units` would. */
  lemma LoadUnitDefsEntry(cur: Loaded, defs: seq<string>)
    requires forall i :: 0 <= i < |defs| ==> FirstWord(defs[i]).Some?
    ensures LoadUnitDefs(cur, JArr(Strings(defs)))
            == Success(Loaded(cur.state.(unitDefs := AddUnitDefs(cur.state.unitDefs, defs)), RegisterUnits(cur.units, defs)))
  {
    StringsRoundTrip(defs);
  }

  /** A saved `_run_list` is merged as `_load_run_list` would. */
  lemma LoadRunListEntry(cur: Loaded, runs: seq<RunInfo>, timestamp: real, argv: seq<string>)
    ensures LoadRunList(cur, JArr(RunsToJson(runs)), timestamp, argv)
            == Success(cur.(state := cur.state.(runs := cur.state.runs + Absent(RunNos(cur.state.runs), runs))))
  {
    var items := RunsToJson(runs);
    forall i | 0 <= i < |items| ensures RunFromJson(items[i], timestamp, argv) == Success(runs[i]) {
      RunRoundTrip(runs[i], timestamp, argv);
    }
    NewRunsOfDecoded(RunNos(cur.state.runs), items, runs, timestamp, argv);
  }

  /** A saved stat is read back under its name. */
  lemma LoadStatEntry(cur: Loaded, key: string, s: Stat, sqrt: real -> real)
    requires s.WellFormed()
    ensures LoadStat(cur, key, JObj(ToDict(s)), sqrt)
            == Success(cur.(state := cur.state.(keys := InsertKey(cur.state.keys, key), stats := cur.state.stats[key := s])))
  {
    DictRoundTrip(s, sqrt);
  }

  /** One more key loaded after a document that loaded. */
  lemma LoadEntriesStep(cur: Loaded, entries: Entries, key: string, value: Json, mid: Loaded, next: Loaded,
                        timestamp: real, argv: seq<string>, sqrt: real -> real)
    requires LoadEntries(cur, entries, timestamp, argv, sqrt) == Success(mid)
    requires LoadEntry(mid, key, value, timestamp, argv, sqrt) == Success(next)
    ensures LoadEntries(cur, entries + [(key, value)], timestamp, argv, sqrt) == Success(next)
  {
    LoadEntriesSnoc(cur, entries, key, value, timestamp, argv, sqrt);
  }

  /** The saved unit definitions, loaded into a store that has none, are recorded as they were. */
  lemma UnitDefsStep(cur: Loaded, defs: seq<string>, timestamp: real, argv: seq<string>, sqrt: real -> real)
    requires NoDuplicates(defs) && forall i :: 0 <= i < |defs| ==> FirstWord(defs[i]).Some?
    requires cur.state.unitDefs == []
    ensures LoadEntry(cur, "_unit_defs", JArr(Strings(defs)), timestamp, argv, sqrt)
            == Success(Loaded(cur.state.(unitDefs := defs), RegisterUnits(cur.units, defs)))
  {
    AddUnitDefsToEmpty(defs);
    LoadUnitDefsEntry(cur, defs);
    UnitDefsHandler(cur, JArr(Strings(defs)), timestamp, argv, sqrt);
  }

  /** The `_unit_defs` key goes to its own handler. */
  lemma UnitDefsHandler(cur: Loaded, value: Json, timestamp: real, argv: seq<string>, sqrt: real -> real)
    ensures LoadEntry(cur, "_unit_defs", value, timestamp, argv, sqrt) == LoadUnitDefs(cur, value)
  {
    assert "_unit_defs"[1] != "_run_list"[1] && "_unit_defs"[1] != "_title"[1];
  }

  /** The saved run list, loaded into a store with no runs, becomes its history. */
  lemma RunListStep(cur: Loaded, runs: seq<RunInfo>, timestamp: real, argv: seq<string>, sqrt: real -> real)
    requires cur.state.runs == []
    ensures LoadEntry(cur, "_run_list", JArr(RunsToJson(runs)), timestamp, argv, sqrt)
            == Success(cur.(state := cur.state.(runs := runs)))
  {
    LoadRunListEntry(cur, runs, timestamp, argv);
    AbsentFromNothing(runs);
    assert RunNos(cur.state.runs) == {};
    assert cur.state.runs + Absent(RunNos(cur.state.runs), runs) == runs;
  }

  /** The three metadata keys of a saved document restore the title, run history and unit definitions. */
  lemma LoadMetadata(st: StoreState, cur: Loaded, timestamp: real, argv: seq<string>, sqrt: real -> real)
    requires NoDuplicates(st.unitDefs) && forall i :: 0 <= i < |st.unitDefs| ==> FirstWord(st.unitDefs[i]).Some?
    requires cur.state.runs == [] && cur.state.unitDefs == []
    ensures LoadEntries(cur, MetaEntries(st), timestamp, argv, sqrt)
            == Success(Loaded(cur.state.(title := st.title, runs := st.runs, unitDefs := st.unitDefs),
                              RegisterUnits(cur.units, st.unitDefs)))
  {
    var e1 := ("_unit_defs", JArr(Strings(st.unitDefs)));
    var e2 := ("_run_list", JArr(RunsToJson(st.runs)));
    var e3 := ("_title", JStr(st.title));
    assert MetaEntries(st) == [e1] + [e2] + [e3];

    var c1 := Loaded(cur.state.(unitDefs := st.unitDefs), RegisterUnits(cur.units, st.unitDefs));
    UnitDefsStep(cur, st.unitDefs, timestamp, argv, sqrt);
    assert LoadEntries(cur, [], timestamp, argv, sqrt) == Success(cur);
    LoadEntriesStep(cur, [], e1.0, e1.1, cur, c1, timestamp, argv, sqrt);
    assert [] + [e1] == [e1];

    var c2 := c1.(state := c1.state.(runs := st.runs));
    RunListStep(c1, st.runs, timestamp, argv, sqrt);
    LoadEntriesStep(cur, [e1], e2.0, e2.1, c1, c2, timestamp, argv, sqrt);

    var c3 := c2.(state := c2.state.(title := st.title));
    LoadEntriesStep(cur, [e1] + [e2], e3.0, e3.1, c2, c3, timestamp, argv, sqrt);
  }

  /** Loading a saved stat after a document that loaded stores it under its name. */
  lemma LoadOneStat(cur: Loaded, entries: Entries, mid: Loaded, key: string, s: Stat,
                    timestamp: real, argv: seq<string>, sqrt: real -> real)
    requires LoadEntries(cur, entries, timestamp, argv, sqrt) == Success(mid)
    requires key !in MetadataKeys && s.WellFormed()
    ensures LoadEntries(cur, entries + [(key, JObj(ToDict(s)))], timestamp, argv, sqrt)
            == Success(mid.(state := mid.state.(keys := InsertKey(mid.state.keys, key), stats := mid.state.stats[key := s])))
  {
    LoadStatEntry(mid, key, s, sqrt);
    LoadEntriesSnoc(cur, entries, key, JObj(ToDict(s)), timestamp, argv, sqrt);
  }

  /** The stat part of a document depends only on the stats its keys name. */
  lemma {:induction false} StatEntriesAgree(keys: seq<string>, a: map<string, Stat>, b: map<string, Stat>)
    requires forall k :: k in keys ==> k in a && k in b && a[k] == b[k]
    ensures StatEntries(keys, a) == StatEntries(keys, b)
  {
    if keys != [] {
      StatEntriesAgree(keys[..|keys| - 1], a, b);
    }
  }

  /** Dropping the last key of a key order leaves the key order of the other stats. */
  lemma KeyOrderFront(keys: seq<string>, stats: map<string, Stat>)
    requires KeyOrder(keys, stats) && keys != []
    ensures var k := keys[|keys| - 1];
            && k in stats && k !in keys[..|keys| - 1]
            && KeyOrder(keys[..|keys| - 1], stats - {k})
  {
    var k := keys[|keys| - 1];
    assert forall j :: j in keys <==> j in keys[..|keys| - 1] || j == k;
  }

  lemma MapRestore(stats: map<string, Stat>, k: string)
    requires k in stats
    ensures (stats - {k})[k := stats[k]] == stats
  {
  }

  lemma InsertLast(keys: seq<string>)
    requires keys != [] && keys[|keys| - 1] !in keys[..|keys| - 1]
    ensures InsertKey(keys[..|keys| - 1], keys[|keys| - 1]) == keys
  {
    assert keys == keys[..|keys| - 1] + [keys[|keys| - 1]];
  }

  lemma StatEntriesLast(keys: seq<string>, stats: map<string, Stat>)
    requires KeyOrder(keys, stats) && keys != []
    ensures var k := keys[|keys| - 1];
            StatEntries(keys, stats) == StatEntries(keys[..|keys| - 1], stats - {k}) + [(k, JObj(ToDict(stats[k])))]
  {
    var k := keys[|keys| - 1];
    KeyOrderFront(keys, stats);
    StatEntriesAgree(keys[..|keys| - 1], stats - {k}, stats);
  }

  /** The last saved stat completes the load of the others. */
  lemma LoadStatsStep(keys: seq<string>, stats: map<string, Stat>, cur: Loaded, timestamp: real,
                      argv: seq<string>, sqrt: real -> real)
    requires KeyOrder(keys, stats) && keys != []
    requires forall k :: k in stats ==> k !in MetadataKeys && stats[k].WellFormed()
    requires var k := keys[|keys| - 1];
             LoadEntries(cur, StatEntries(keys[..|keys| - 1], stats - {k}), timestamp, argv, sqrt)
             == Success(cur.(state := cur.state.(keys := keys[..|keys| - 1], stats := stats - {k})))
    ensures LoadEntries(cur, StatEntries(keys, stats), timestamp, argv, sqrt)
            == Success(cur.(state := cur.state.(keys := keys, stats := stats)))
  {
    var k := keys[|keys| - 1];
    var front := keys[..|keys| - 1];
    KeyOrderFront(keys, stats);
    StatEntriesLast(keys, stats);
    var mid := cur.(state := cur.state.(keys := front, stats := stats - {k}));
    LoadOneStat(cur, StatEntries(front, stats - {k}), mid, k, stats[k], timestamp, argv, sqrt);
    InsertLast(keys);
    MapRestore(stats, k);
  }

  /** The stat entries of a saved document restore every stat under its name, in key order. */
  lemma {:induction false} LoadStats(keys: seq<string>, stats: map<string, Stat>, cur: Loaded, timestamp: real,
                                     argv: seq<string>, sqrt: real -> real)
    requires KeyOrder(keys, stats)
    requires forall k :: k in stats ==> k !in MetadataKeys && stats[k].WellFormed()
    requires cur.state.keys == [] && cur.state.stats == map[]
    ensures LoadEntries(cur, StatEntries(keys, stats), timestamp, argv, sqrt)
            == Success(cur.(state := cur.state.(keys := keys, stats := stats)))
  {
    if keys == [] {
      assert stats == map[];
    } else {
      var k := keys[|keys| - 1];
      KeyOrderFront(keys, stats);
      LoadStats(keys[..|keys| - 1], stats - {k}, cur, timestamp, argv, sqrt);
      LoadStatsStep(keys, stats, cur, timestamp, argv, sqrt);
    }
  }

  /**
   * The save/load round trip (lines 384-390 and 418-425): a consistent store saved and
   * loaded into a freshly constructed one comes back with the same title, the same stats
   * (names, values, run numbers and key order), the same run history and the same unit
   * definitions, provided no recorded definition is blank (the one left by a
   * `define_units` call that raised).
   */
  lemma SaveLoadRoundTrip(st: StoreState, title0: string, units: map<string, string>, timestamp: real,
                          argv: seq<string>, sqrt: real -> real)
    requires Consistent(st)
    requires forall i :: 0 <= i < |st.unitDefs| ==> FirstWord(st.unitDefs[i]).Some?
    ensures var empty := Loaded(StoreState(title0, [], map[], [], []), units);
            var r := LoadEntries(empty, SaveDoc(st), timestamp, argv, sqrt);
            r.Success? && r.value.state == st && r.value.units == RegisterUnits(units, st.unitDefs)
  {
    var empty := Loaded(StoreState(title0, [], map[], [], []), units);
    var doc := SaveDoc(st);
    LoadMetadata(st, empty, timestamp, argv, sqrt);
    LoadEntriesAppend(empty, MetaEntries(st), StatEntries(st.keys, st.stats), timestamp, argv, sqrt);
    var meta := Loaded(StoreState(st.title, [], map[], st.runs, st.unitDefs), RegisterUnits(units, st.unitDefs));
    LoadStats(st.keys, st.stats, meta, timestamp, argv, sqrt);
  }

  // ---------------------------------------------------------------- operations on a store

  /** What `load` finds at the save path: no file, text that is not JSON, or the top-level object's entries in file order. */
  datatype StateFile = Missing | Malformed | Doc(entries: Entries)

  /** `load` (lines 405-430): a missing file raises FileNotFoundError, malformed JSON ends the program. */
  function LoadFile(cur: Loaded, file: StateFile, timestamp: real, argv: seq<string>, sqrt: real -> real): Result<Loaded, Error>
  {
    match file
    case Missing => Failure(StateFileNotFound)
    case Malformed => Failure(MalformedState)
    case Doc(entries) => LoadEntries(cur, entries, timestamp, argv, sqrt)
  }

  /** The load done while the store is constructed (lines 199-203): a missing file is ignored. */
  function LoadAtOpen(init: Loaded, loadExisting: bool, file: StateFile, timestamp: real, argv: seq<string>,
                      sqrt: real -> real): (r: Result<Loaded, Error>)
    ensures !loadExisting || file.Missing? ==> r == Success(init)
    ensures loadExisting && file.Malformed? ==> r == Failure(MalformedState)
    ensures loadExisting && file.Doc? ==> r == LoadEntries(init, file.entries, timestamp, argv, sqrt)
  {
    if !loadExisting then Success(init)
    else
      match LoadFile(init, file, timestamp, argv, sqrt)
      case Failure(StateFileNotFound) => Success(init)
      case other => other
  }

  /** The module name the store is named after when none is given (`__name__.split(".")[0]`, line 185). */
  const DefaultModuleName: string := "svante"

  /** The subtitle `start_run` gives a run when none is passed (`f"Run of {__name__}"`, line 353). */
  const DefaultSubtitle: string := "Run of svante.statsdict"

  /** The title of a new store (lines 190-191), as evidently intended: the given title, else one naming the module. */
  function InitialTitle(moduleName: string, title: Option<string>): (r: string)
    ensures title.Some? ==> r == title.value
    ensures title.None? ==> r == "Stats from " + moduleName
  {
    if title.None? then "Stats from " + moduleName else title.value
  }

  /** `Path(save_dir) / f"{module_name}_stats.json"` (lines 192-196), without resolving. */
  function SavePath(moduleName: Option<string>, saveDir: Option<string>): string
  {
    (if saveDir.None? then "." else saveDir.value) + "/"
    + (if moduleName.None? then DefaultModuleName else moduleName.value) + "_stats.json"
  }

  /**
   * `store[key] = value` (lines 234-242): a name with a leading underscore is refused
   * and nothing changes; otherwise the stat, stamped with the current run number, is
   * stored under that name and nothing else changes.
   */
  function Assigned(st: StoreState, key: string, value: Stat, runNo: int): (r: Result<StoreState, Error>)
    ensures r.Failure? <==> IsReserved(key)
    ensures r.Failure? ==> r.error == ReservedKey(key)
    ensures r.Success? ==>
              && r.value.title == st.title && r.value.runs == st.runs && r.value.unitDefs == st.unitDefs
              && r.value.stats.Keys == st.stats.Keys + {key}
              && r.value.stats[key] == value.(runNo := runNo)
              && (forall k :: k in st.stats && k != key ==> r.value.stats[k] == st.stats[k])
              && (key in st.keys ==> r.value.keys == st.keys)
              && (key !in st.keys ==> r.value.keys == st.keys + [key])
  {
    if IsReserved(key) then Failure(ReservedKey(key))
    else Success(st.(keys := InsertKey(st.keys, key), stats := st.stats[key := value.(runNo := runNo)]))
  }

  /** Assignment keeps a store consistent. */
  lemma AssignedConsistent(st: StoreState, key: string, value: Stat, runNo: int)
    requires Consistent(st) && value.WellFormed()
    requires Assigned(st, key, value, runNo).Success?
    ensures Consistent(Assigned(st, key, value, runNo).value)
  {
    assert key !in MetadataKeys by {
      assert "_run_list"[0] == '_' && "_title"[0] == '_' && "_unit_defs"[0] == '_';
    }
  }

  /**
   * A step of the function a run wraps, as far as the store sees it: an assignment,
   * a `define_units` call, or an exception that ends the function.
   */
  datatype Action = Assign(key: string, value: Stat) | DefineUnits(defs: seq<string>) | Raise(message: string)

  predicate Assigns(script: seq<Action>)
  {
    forall i :: 0 <= i < |script| && script[i].Assign? ==> script[i].value.WellFormed()
  }

  function Perform(cur: Loaded, runNo: int, a: Action): Result<Loaded, Error>
    requires a.Assign? ==> a.value.WellFormed()
  {
    match a
    case Assign(key, value) =>
      (match Assigned(cur.state, key, value, runNo)
       case Failure(e) => Failure(e)
       case Success(st) => Success(cur.(state := st)))
    case DefineUnits(defs) => DefineAll(cur, defs)
    case Raise(message) => Failure(Raised(message))
  }

  /** The whole function: every step in order; the first exception ends it. */
  function PerformAll(cur: Loaded, runNo: int, script: seq<Action>): Result<Loaded, Error>
    requires Assigns(script)
  {
    if script == [] then Success(cur)
    else
      var n := |script| - 1;
      match PerformAll(cur, runNo, script[..n])
      case Failure(e) => Failure(e)
      case Success(c) => Perform(c, runNo, script[n])
  }

  /** The function a run wraps never touches the title or the run history, and keeps the store consistent. */
  lemma {:induction false} PerformAllKeeps(cur: Loaded, runNo: int, script: seq<Action>)
    requires Assigns(script) && Consistent(cur.state)
    ensures var r := PerformAll(cur, runNo, script);
            r.Success? ==> r.value.state.title == cur.state.title && r.value.state.runs == cur.state.runs
                           && Consistent(r.value.state)
  {
    if script != [] {
      var n := |script| - 1;
      PerformAllKeeps(cur, runNo, script[..n]);
      var front := PerformAll(cur, runNo, script[..n]);
      if front.Success? {
        var a := script[n];
        match a
        case Assign(key, value) =>
          if Assigned(front.value.state, key, value, runNo).Success? {
            AssignedConsistent(front.value.state, key, value, runNo);
          }
        case DefineUnits(defs) =>
          if FirstBlank(defs) == |defs| {
            AddUnitDefsSpec(front.value.state.unitDefs, defs);
          }
        case Raise(_) =>
      }
    }
  }

  /** What the function does to the store does not depend on the run history. */
  lemma {:induction false} PerformAllIgnoresRuns(cur: Loaded, runs: seq<RunInfo>, runNo: int, script: seq<Action>)
    requires Assigns(script)
    ensures var a := PerformAll(cur, runNo, script);
            var b := PerformAll(cur.(state := cur.state.(runs := runs)), runNo, script);
            && (a.Success? <==> b.Success?)
            && (a.Failure? ==> b.error == a.error)
            && (a.Success? ==> b.value == a.value.(state := a.value.state.(runs := runs)))
  {
    if script != [] {
      var n := |script| - 1;
      PerformAllIgnoresRuns(cur, runs, runNo, script[..n]);
    }
  }

  /** An exception in the first part of a function ends the whole of it. */
  lemma {:induction false} PerformAllFails(cur: Loaded, runNo: int, script: seq<Action>, k: nat)
    requires Assigns(script) && k <= |script|
    requires PerformAll(cur, runNo, script[..k]).Failure?
    ensures PerformAll(cur, runNo, script) == PerformAll(cur, runNo, script[..k])
    decreases |script| - k
  {
    if k < |script| {
      assert script[..k + 1][..k] == script[..k];
      PerformAllFails(cur, runNo, script, k + 1);
    } else {
      assert script[..k] == script;
    }
  }

  // ---------------------------------------------------------------- report settings

  /** The settings `__str__` reads. */
  datatype Settings = Settings(verbose: bool, logStats: bool, showRuns: bool, showRunNo: int, tableFormat: string)

  /**
   * `configure_report` (lines 367-380): a None argument leaves its setting as it was,
   * and choosing a run to show always hides the Run column and the table of runs.
   */
  function Configure(s: Settings, showRuns: Option<bool>, showRunNo: Option<int>, verbose: Option<bool>): (r: Settings)
    ensures showRunNo.Some? ==> r.showRunNo == showRunNo.value && !r.showRuns
    ensures showRunNo.None? ==> r.showRunNo == s.showRunNo
    ensures showRunNo.None? && showRuns.None? ==> r.showRuns == s.showRuns
    ensures showRunNo.None? && showRuns.Some? ==> r.showRuns == showRuns.value
    ensures verbose.None? ==> r.verbose == s.verbose
    ensures verbose.Some? ==> r.verbose == verbose.value
    ensures r.logStats == s.logStats && r.tableFormat == s.tableFormat
  {
    var s1 := if showRuns.Some? then s.(showRuns := showRuns.value) else s;
    var s2 := if showRunNo.Some? then s1.(showRunNo := showRunNo.value, showRuns := false) else s1;
    if verbose.Some? then s2.(verbose := verbose.value) else s2
  }

  /**
   * What `__str__` shows (lines 248-304): the "Stats file" line when verbose, the title
   * and selected run, the stat rows of the selected run (all of them for 0), and the
   * Run column and table of runs only when runs are shown and no run is selected.
   */
  function ReportFor(st: StoreState, s: Settings, runNo: int, savePath: string, formatValue: Stat -> string,
                     formatUnits: Stat -> string, formatTime: real -> string): (r: Report)
    requires forall k :: k in st.keys ==> k in st.stats
    ensures r.shownRun == ShownRun(s.showRunNo, runNo)
    ensures r.title == st.title
    ensures r.runTable.Some? <==> s.showRuns && s.showRunNo == 0
    ensures r.runTable.Some? ==> r.runTable.value == RunRows(st.runs, formatTime)
    ensures r.headers == Headers(r.runTable.Some?)
    ensures r.statsFile.Some? <==> s.verbose
    ensures r.statsFile.Some? ==> r.statsFile.value == savePath
  {
    var shown := ShownRun(s.showRunNo, runNo);
    var runColumn := s.showRuns && s.showRunNo == 0;
    Report(if s.verbose then Some(savePath) else None, st.title, shown, Headers(runColumn),
           StatRows(st.keys, st.stats, shown, runColumn, formatValue, formatUnits),
           if runColumn then Some(RunRows(st.runs, formatTime)) else None)
  }

  /**
   * Row selection: every row is a stored stat of the shown run, every stored stat of
   * the shown run has a row, and with no run selected the rows are all the stats in
   * key order, with a Run cell exactly when the Run column is shown.
   */
  lemma ReportRows(st: StoreState, s: Settings, runNo: int, savePath: string, formatValue: Stat -> string,
                   formatUnits: Stat -> string, formatTime: real -> string)
    requires forall k :: k in st.keys ==> k in st.stats
    ensures var r := ReportFor(st, s, runNo, savePath, formatValue, formatUnits, formatTime);
            && (forall i :: 0 <= i < |r.rows| ==>
                  r.rows[i].name in st.stats && IsShown(st.stats[r.rows[i].name], r.shownRun)
                  && (r.rows[i].run.Some? <==> r.runTable.Some?))
            && (forall k :: k in st.keys && IsShown(st.stats[k], r.shownRun) ==> k in RowNames(r.rows))
            && (s.showRunNo == 0 ==> |r.rows| == |st.keys| && forall i :: 0 <= i < |r.rows| ==> r.rows[i].name == st.keys[i])
  {
    var shown := ShownRun(s.showRunNo, runNo);
    var runColumn := s.showRuns && s.showRunNo == 0;
    StatRowsSound(st.keys, st.stats, shown, runColumn, formatValue, formatUnits);
    forall k | k in st.keys && IsShown(st.stats[k], shown)
      ensures k in RowNames(StatRows(st.keys, st.stats, shown, runColumn, formatValue, formatUnits))
    {
      StatRowsComplete(st.keys, st.stats, shown, runColumn, formatValue, formatUnits, k);
    }
    if s.showRunNo == 0 {
      StatRowsAll(st.keys, st.stats, runColumn, formatValue, formatUnits);
    }
  }

  /**
   * The report printed after a wrapped run (lines 343-345, `configure_report(show_run_no=-1)`)
   * shows the current run only: exactly the stats stamped with the current run number,
   * with neither a Run column nor a table of runs.
   */
  lemma WrappedReport(st: StoreState, s: Settings, runNo: int, savePath: string, formatValue: Stat -> string,
                      formatUnits: Stat -> string, formatTime: real -> string)
    requires forall k :: k in st.keys ==> k in st.stats
    ensures var r := ReportFor(st, Configure(s, None, Some(-1), None), runNo, savePath, formatValue, formatUnits, formatTime);
            && r.shownRun == Some(runNo) && r.runTable.None? && |r.headers| == 4
            && (forall i :: 0 <= i < |r.rows| ==> r.rows[i].name in st.stats && st.stats[r.rows[i].name].runNo == runNo)
            && (forall k :: k in st.keys && st.stats[k].runNo == runNo ==> k in RowNames(r.rows))
  {
    ReportRows(st, Configure(s, None, Some(-1), None), runNo, savePath, formatValue, formatUnits, formatTime);
  }
}
