/**
 * `_RunDict` (svante/statsdict.py:135-146), the run history's merge rule
 * (`_load_run_list`, lines 394-399) and the run numbering done when a store
 * is opened (lines 198-215).
 */
module Runs {
  import opened Wrappers
  import opened Errors
  import opened Json

  /** The saved form of one run record. */
  datatype RunInfo = RunInfo(runNo: int, startTime: real, command: seq<string>, subtitle: string)

  /**
   * One run record. It is an object because the store keeps a reference to the
   * current run's record and `start_run` updates its subtitle in place.
   */
  class RunRecord {
    const runNo: int
    const startTime: real
    const command: seq<string>
    var subtitle: string

    constructor (info: RunInfo)
      ensures Info() == info
    {
      runNo := info.runNo;
      startTime := info.startTime;
      command := info.command;
      subtitle := info.subtitle;
    }

    function Info(): RunInfo
      reads this
    {
      RunInfo(runNo, startTime, command, subtitle)
    }
  }

  /** The saved forms of a list of records, element by element. */
  ghost function InfoOf(rs: seq<RunRecord>): (r: seq<RunInfo>)
    reads rs
    ensures |r| == |rs|
  {
    if rs == [] then [] else InfoOf(rs[..|rs| - 1]) + [rs[|rs| - 1].Info()]
  }

  /** Each saved form is that of the record at the same position. */
  lemma {:induction false} InfoOfAt(rs: seq<RunRecord>)
    ensures forall i :: 0 <= i < |rs| ==> InfoOf(rs)[i] == rs[i].Info()
  {
    if rs != [] {
      InfoOfAt(rs[..|rs| - 1]);
    }
  }

  lemma InfoOfSnoc(rs: seq<RunRecord>, r: RunRecord)
    ensures InfoOf(rs + [r]) == InfoOf(rs) + [r.Info()]
  {
    assert (rs + [r])[..|rs|] == rs;
  }

  /** `_RunDict.to_dict` (svante/statsdict.py:144-146). */
  function RunToJson(r: RunInfo): Json
  {
    JObj(map["run_no" := JInt(r.runNo), "start_time" := JFloat(r.startTime),
             "command" := JArr(Strings(r.command)), "subtitle" := JStr(r.subtitle)])
  }

  function RunsToJson(rs: seq<RunInfo>): (r: seq<Json>)
    ensures |r| == |rs|
    ensures forall i :: 0 <= i < |rs| ==> r[i] == RunToJson(rs[i])
  {
    if rs == [] then [] else RunsToJson(rs[..|rs| - 1]) + [RunToJson(rs[|rs| - 1])]
  }

  /** A JSON array of strings, as a list of strings. */
  function DecodeStrings(items: seq<Json>): (r: Option<seq<string>>)
    ensures r.Some? <==> forall i :: 0 <= i < |items| ==> items[i].JStr?
    ensures r.Some? ==> |r.value| == |items| && forall i :: 0 <= i < |items| ==> items[i] == JStr(r.value[i])
  {
    if items == [] then Some([])
    else if !items[|items| - 1].JStr? then None
    else
      var front := DecodeStrings(items[..|items| - 1]);
      if front.None? then None else Some(front.value + [items[|items| - 1].s])
  }

  /** The attribute names of `_RunDict`. */
  const RunFields: set<string> := {"run_no", "start_time", "command", "subtitle"}

  /**
   * `r["run_no"]` on a saved record (svante/statsdict.py:398): a KeyError or
   * TypeError unless the item is an object with an integer run number.
   */
  function SavedRunNo(j: Json): Result<int, Error>
  {
    if j.JObj? && "run_no" in j.fields && j.fields["run_no"].JInt? then Success(j.fields["run_no"].i)
    else Failure(BadArgument("run_no"))
  }

  /**
   * `_RunDict(**r)` (svante/statsdict.py:399). A missing start time, command or
   * subtitle takes the class default: the process start time, the process's
   * arguments, and "".
   */
  function RunFromJson(j: Json, timestamp: real, argv: seq<string>): (r: Result<RunInfo, Error>)
    ensures r.Success? ==> SavedRunNo(j) == Success(r.value.runNo)
    ensures r.Success? && "start_time" !in j.fields ==> r.value.startTime == timestamp
    ensures r.Success? && "start_time" in j.fields ==>
              j.fields["start_time"] == JFloat(r.value.startTime)
              || (j.fields["start_time"].JInt? && j.fields["start_time"].i as real == r.value.startTime)
    ensures r.Success? && "command" !in j.fields ==> r.value.command == argv
    ensures r.Success? && "command" in j.fields ==>
              j.fields["command"].JArr? && |j.fields["command"].items| == |r.value.command|
              && forall i :: 0 <= i < |r.value.command| ==> j.fields["command"].items[i] == JStr(r.value.command[i])
    ensures r.Success? && "subtitle" !in j.fields ==> r.value.subtitle == ""
    ensures r.Success? && "subtitle" in j.fields ==> j.fields["subtitle"] == JStr(r.value.subtitle)
  {
    if SavedRunNo(j).Failure? then Failure(BadArgument("run_no"))
    else
      var f := j.fields;
      if !(f.Keys <= RunFields) then Failure(BadArgument("_RunDict"))
      else if "start_time" in f && !f["start_time"].JFloat? && !f["start_time"].JInt? then Failure(BadArgument("start_time"))
      else if "command" in f && (!f["command"].JArr? || DecodeStrings(f["command"].items).None?) then Failure(BadArgument("command"))
      else if "subtitle" in f && !f["subtitle"].JStr? then Failure(BadArgument("subtitle"))
      else
        var start := if "start_time" !in f then timestamp
                     else if f["start_time"].JFloat? then f["start_time"].r else f["start_time"].i as real;
        var command := if "command" in f then DecodeStrings(f["command"].items).value else argv;
        var subtitle := if "subtitle" in f then f["subtitle"].s else "";
        Success(RunInfo(SavedRunNo(j).value, start, command, subtitle))
  }

  lemma {:induction false} StringsRoundTrip(ss: seq<string>)
    ensures DecodeStrings(Strings(ss)) == Some(ss)
  {
    if ss != [] {
      var n := |ss| - 1;
      var items := Strings(ss);
      StringsRoundTrip(ss[..n]);
      assert items[..n] == Strings(ss[..n]);
      assert items[n] == JStr(ss[n]);
      assert ss == ss[..n] + [ss[n]];
    }
  }

  /** A saved run record loads back as itself, whatever the defaults. */
  lemma RunRoundTrip(r: RunInfo, timestamp: real, argv: seq<string>)
    ensures RunFromJson(RunToJson(r), timestamp, argv) == Success(r)
  {
    var j := RunToJson(r);
    StringsRoundTrip(r.command);
    assert j.fields.Keys == RunFields;
    assert SavedRunNo(j) == Success(r.runNo);
  }

  function RunNos(rs: seq<RunInfo>): (r: set<int>)
    ensures forall n :: n in r <==> exists i :: 0 <= i < |rs| && rs[i].runNo == n
  {
    set i | 0 <= i < |rs| :: rs[i].runNo
  }

  /**
   * The loaded records that the merge appends: in input order, those whose run
   * number was not among `existing` before the merge began. Only those are
   * converted to records; the others are skipped after their run number is read.
   */
  function NewRuns(existing: set<int>, items: seq<Json>, timestamp: real, argv: seq<string>): (r: Result<seq<RunInfo>, Error>)
    ensures r.Failure? ==> r.error.BadArgument?
  {
    if items == [] then Success([])
    else
      var front := NewRuns(existing, items[..|items| - 1], timestamp, argv);
      if front.Failure? then front
      else
        match SavedRun(existing, items[|items| - 1], timestamp, argv)
        case Failure(e) => Failure(e)
        case Success(added) => Success(front.value + added)
  }

  /** The records one saved item adds: none when its run number is already known. */
  function SavedRun(existing: set<int>, item: Json, timestamp: real, argv: seq<string>): (r: Result<seq<RunInfo>, Error>)
    ensures r.Failure? ==> r.error.BadArgument?
    ensures r.Success? ==> |r.value| <= 1
    ensures r.Success? ==> SavedRunNo(item).Success? && (r.value == [] <==> SavedRunNo(item).value in existing)
    ensures r.Success? && r.value != [] ==> RunFromJson(item, timestamp, argv) == Success(r.value[0])
  {
    var no := SavedRunNo(item);
    if no.Failure? then Failure(no.error)
    else if no.value in existing then Success([])
    else
      var r := RunFromJson(item, timestamp, argv);
      if r.Failure? then Failure(r.error) else Success([r.value])
  }

  /** The merge of one more item. */
  lemma NewRunsSnoc(existing: set<int>, items: seq<Json>, k: nat, timestamp: real, argv: seq<string>)
    requires k < |items| && NewRuns(existing, items[..k], timestamp, argv).Success?
    ensures NewRuns(existing, items[..k + 1], timestamp, argv)
            == match SavedRun(existing, items[k], timestamp, argv)
               case Failure(e) => Failure(e)
               case Success(added) => Success(NewRuns(existing, items[..k], timestamp, argv).value + added)
  {
    assert items[..k + 1][..k] == items[..k];
  }

  /** An error in the first items ends the whole merge with that error. */
  lemma {:induction false} NewRunsFails(existing: set<int>, items: seq<Json>, timestamp: real, argv: seq<string>, k: nat)
    requires k <= |items| && NewRuns(existing, items[..k], timestamp, argv).Failure?
    ensures NewRuns(existing, items, timestamp, argv) == NewRuns(existing, items[..k], timestamp, argv)
    decreases |items| - k
  {
    if k < |items| {
      assert items[..k + 1][..k] == items[..k];
      NewRunsFails(existing, items, timestamp, argv, k + 1);
    } else {
      assert items[..k] == items;
    }
  }

  /** The records among `loaded` whose run number is not in `existing`, in order. */
  function Absent(existing: set<int>, loaded: seq<RunInfo>): seq<RunInfo>
  {
    if loaded == [] then []
    else
      var front := Absent(existing, loaded[..|loaded| - 1]);
      var r := loaded[|loaded| - 1];
      if r.runNo in existing then front else front + [r]
  }

  /** When every item decodes, the merge appends exactly the decoded records whose run number was absent, in order. */
  lemma {:induction false} NewRunsOfDecoded(existing: set<int>, items: seq<Json>, loaded: seq<RunInfo>, timestamp: real, argv: seq<string>)
    requires |items| == |loaded|
    requires forall i :: 0 <= i < |items| ==> RunFromJson(items[i], timestamp, argv) == Success(loaded[i])
    ensures NewRuns(existing, items, timestamp, argv) == Success(Absent(existing, loaded))
  {
    if items != [] {
      var n := |items| - 1;
      NewRunsOfDecoded(existing, items[..n], loaded[..n], timestamp, argv);
      assert RunFromJson(items[n], timestamp, argv) == Success(loaded[n]);
      assert SavedRun(existing, items[n], timestamp, argv)
             == if loaded[n].runNo in existing then Success([]) else Success([loaded[n]]);
      assert NewRuns(existing, items, timestamp, argv)
             == match SavedRun(existing, items[n], timestamp, argv)
                case Failure(e) => Failure(e)
                case Success(added) => Success(Absent(existing, loaded[..n]) + added);
      assert Absent(existing, loaded)
             == Absent(existing, loaded[..n]) + if loaded[n].runNo in existing then [] else [loaded[n]];
    }
  }

  lemma {:induction false} AbsentMembers(existing: set<int>, loaded: seq<RunInfo>, r: RunInfo)
    ensures r in Absent(existing, loaded) <==> r in loaded && r.runNo !in existing
  {
    if loaded != [] {
      AbsentMembers(existing, loaded[..|loaded| - 1], r);
      assert loaded == loaded[..|loaded| - 1] + [loaded[|loaded| - 1]];
    }
  }

  /** Merging a history in again appends nothing: every one of its run numbers is now present. */
  lemma MergeIdempotent(existing: seq<RunInfo>, loaded: seq<RunInfo>)
    ensures var merged := existing + Absent(RunNos(existing), loaded);
            Absent(RunNos(merged), loaded) == []
  {
    var added := Absent(RunNos(existing), loaded);
    var merged := existing + added;
    forall i | 0 <= i < |loaded| ensures loaded[i].runNo in RunNos(merged) {
      var r := loaded[i];
      if r.runNo in RunNos(existing) {
        var k :| 0 <= k < |existing| && existing[k].runNo == r.runNo;
        assert merged[k] == existing[k];
      } else {
        AbsentMembers(RunNos(existing), loaded, r);
        var k :| 0 <= k < |added| && added[k] == r;
        assert merged[|existing| + k] == r;
      }
    }
    AllPresent(RunNos(merged), loaded);
  }

  /** A list whose run numbers are all known has nothing to add. */
  lemma {:induction false} AllPresent(known: set<int>, loaded: seq<RunInfo>)
    requires forall i :: 0 <= i < |loaded| ==> loaded[i].runNo in known
    ensures Absent(known, loaded) == []
  {
    if loaded != [] {
      AllPresent(known, loaded[..|loaded| - 1]);
    }
  }

  // ---------------------------------------------------------------- numbering

  /** How a store opened at `timestamp` numbers its run, given the history it loaded. */
  datatype Numbering = Numbering(runNo: int, append: bool)

  /** svante/statsdict.py:198-212. */
  function NumberRun(history: seq<RunInfo>, timestamp: real): Numbering
  {
    if history == [] then Numbering(1, true)
    else
      var last := history[|history| - 1];
      if last.startTime == timestamp then Numbering(last.runNo, false)
      else Numbering(last.runNo + 1, true)
  }

  /** The history as it stands after the store is opened (lines 213-215). */
  function Opened(history: seq<RunInfo>, timestamp: real, argv: seq<string>): (r: seq<RunInfo>)
    ensures |r| > 0 && r[|r| - 1].runNo == NumberRun(history, timestamp).runNo
    ensures r[|r| - 1].startTime == timestamp
    ensures history <= r && |r| <= |history| + 1
  {
    var n := NumberRun(history, timestamp);
    if n.append then history + [RunInfo(n.runNo, timestamp, argv, "")] else history
  }

  /** Opening the store a second time in the same process neither adds a record nor changes the run number. */
  lemma ReentrantOpen(history: seq<RunInfo>, timestamp: real, argv: seq<string>)
    ensures var h := Opened(history, timestamp, argv);
            Opened(h, timestamp, argv) == h && NumberRun(h, timestamp).runNo == NumberRun(history, timestamp).runNo
  {
  }

  /** The history left by opening, saving and reopening the store once per process start time, in order. */
  function History(timestamps: seq<real>, argv: seq<string>): seq<RunInfo>
  {
    if timestamps == [] then [] else Opened(History(timestamps[..|timestamps| - 1], argv), timestamps[|timestamps| - 1], argv)
  }

  /** Runs opened with distinct start times are numbered 1, 2, ..., N, one record each. */
  lemma {:induction false} SequentialRunNumbers(timestamps: seq<real>, argv: seq<string>)
    requires forall i, j :: 0 <= i < j < |timestamps| ==> timestamps[i] != timestamps[j]
    ensures |History(timestamps, argv)| == |timestamps|
    ensures forall i :: 0 <= i < |timestamps| ==>
              History(timestamps, argv)[i].runNo == i + 1 && History(timestamps, argv)[i].startTime == timestamps[i]
  {
    if timestamps != [] {
      var n := |timestamps| - 1;
      SequentialRunNumbers(timestamps[..n], argv);
    }
  }
}
