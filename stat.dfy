/**
 * `Stat` (svante/statsdict.py:67-132): a named numeric value with an optional
 * uncertainty, units and description, tagged with the run that last set it.
 */
module Stat {
  import opened Wrappers
  import opened Errors
  import opened Json

  /** A Python number handed to the constructor: an int, a float (modelled as an exact real) or a bool. */
  datatype Num = IntVal(i: int) | FloatVal(r: real) | BoolVal(b: bool)

  /** `val.__class__.__name__` */
  function TypeName(v: Num): string
  {
    match v
    case IntVal(_) => "int"
    case FloatVal(_) => "float"
    case BoolVal(_) => "bool"
  }

  /** The keys of `NUMBER_CASTS`: the only value types a Stat may have. */
  const NumberCasts: set<string> := {"int", "float"}

  /** Python's `int(x)` on a float: truncation toward zero. */
  function Truncate(x: real): (r: int)
    ensures 0.0 <= x ==> r as real <= x < r as real + 1.0
    ensures x < 0.0 ==> r as real - 1.0 < x <= r as real
  {
    if 0.0 <= x then x.Floor else -((-x).Floor)
  }

  /** Python's `int(v)`. */
  function AsInt(v: Num): int
  {
    match v
    case IntVal(i) => i
    case FloatVal(x) => Truncate(x)
    case BoolVal(b) => if b then 1 else 0
  }

  /** Python's `float(v)`. */
  function AsReal(v: Num): real
  {
    match v
    case IntVal(i) => i as real
    case FloatVal(x) => x
    case BoolVal(b) => if b then 1.0 else 0.0
  }

  /** `NUMBER_CASTS[typeName](v)` */
  function Cast(typeName: string, v: Num): (r: Num)
    requires typeName in NumberCasts
    ensures TypeName(r) == typeName
  {
    if typeName == "int" then IntVal(AsInt(v)) else FloatVal(AsReal(v))
  }

  /**
   * A constructed Stat. An absent uncertainty, units or description is the
   * attribute the source leaves unset (`hasattr` is false).
   */
  datatype Stat = Stat(val: Num, valType: string, uncert: Option<real>,
                       units: Option<string>, desc: Option<string>, runNo: int)
  {
    /** What the constructor guarantees: a supported type, and a value of that type. */
    predicate WellFormed()
    {
      valType in NumberCasts && TypeName(val) == valType
    }
  }

  /** The type the constructor settles on: `val_type`, or else the runtime type of `val`. */
  function EffectiveType(val: Num, valType: Option<string>): string
  {
    if valType.None? then TypeName(val) else valType.value
  }

  /**
   * `Stat(val, val_type, uncert, units, desc, run_no, is_count)`
   * (svante/statsdict.py:70-99). `sqrt` stands for `math.sqrt`, which
   * raises on a negative argument.
   */
  function MakeStat(val: Num, valType: Option<string>, uncert: Option<real>,
                    units: Option<string>, desc: Option<string>, runNo: int,
                    isCount: bool, sqrt: real -> real): (r: Result<Stat, Error>)
    // an unsupported type is refused, whether given or taken from the value
    ensures EffectiveType(val, valType) !in NumberCasts ==>
              r == Failure(UnsupportedType(EffectiveType(val, valType)))
    // a count whose converted value is negative has no square root
    ensures EffectiveType(val, valType) in NumberCasts ==>
              (r.Failure? <==> isCount && AsReal(Cast(EffectiveType(val, valType), val)) < 0.0)
    ensures r.Failure? ==> r.error.UnsupportedType? || r.error == MathDomain
    ensures r.Success? ==> r.value.WellFormed()
    ensures r.Success? ==> r.value.valType == EffectiveType(val, valType)
    // the value is kept as it is when its own type was chosen, and converted otherwise
    ensures r.Success? && TypeName(val) == r.value.valType ==> r.value.val == val
    ensures r.Success? && r.value.valType == "int" ==> r.value.val == IntVal(AsInt(val))
    ensures r.Success? && r.value.valType == "float" ==> r.value.val == FloatVal(AsReal(val))
    // a count's uncertainty is the square root of its value and overrides any given one
    ensures r.Success? ==> r.value.uncert == (if isCount then Some(sqrt(AsReal(r.value.val))) else uncert)
    ensures r.Success? ==> r.value.units == units && r.value.desc == desc && r.value.runNo == runNo
  {
    var t := EffectiveType(val, valType);
    if t !in NumberCasts then Failure(UnsupportedType(t))
    else
      var v := if t != TypeName(val) then Cast(t, val) else val;
      if isCount && AsReal(v) < 0.0 then Failure(MathDomain)
      else Success(Stat(v, t, if isCount then Some(sqrt(AsReal(v))) else uncert, units, desc, runNo))
  }

  /** `Stat.format_desc` (svante/statsdict.py:127-132). */
  function FormatDesc(s: Stat): (r: string)
    ensures r == "" <==> s.desc.None?
    ensures s.desc.Some? ==>
              |r| == |s.desc.value| + 2 && r[0] == '[' && r[|r| - 1] == ']' && r[1..|r| - 1] == s.desc.value
  {
    if s.desc.None? then "" else "[" + s.desc.value + "]"
  }

  function NumToJson(v: Num): Json
  {
    match v
    case IntVal(i) => JInt(i)
    case FloatVal(x) => JFloat(x)
    case BoolVal(b) => JBool(b)
  }

  /** `Stat.to_dict` (svante/statsdict.py:107-109): a copy of the attributes that are set. */
  function ToDict(s: Stat): (d: map<string, Json>)
    ensures d.Keys <= ParameterNames
    ensures "val" in d && "val_type" in d && "run_no" in d
    ensures ("uncert" in d <==> s.uncert.Some?) && ("units" in d <==> s.units.Some?) && ("desc" in d <==> s.desc.Some?)
  {
    var base := map["val" := NumToJson(s.val), "val_type" := JStr(s.valType), "run_no" := JInt(s.runNo)];
    var withUncert := if s.uncert.None? then base else base["uncert" := JFloat(s.uncert.value)];
    var withUnits := if s.units.None? then withUncert else withUncert["units" := JStr(s.units.value)];
    if s.desc.None? then withUnits else withUnits["desc" := JStr(s.desc.value)]
  }

  /** The keyword parameters of the constructor. */
  const ParameterNames: set<string> := {"val", "val_type", "uncert", "units", "desc", "run_no", "is_count"}

  function JsonToNum(j: Json): Option<Num>
  {
    match j
    case JInt(i) => Some(IntVal(i))
    case JFloat(x) => Some(FloatVal(x))
    case JBool(b) => Some(BoolVal(b))
    case _ => None
  }

  /** An optional string argument: absent or null is None. */
  function OptString(d: map<string, Json>, key: string): Result<Option<string>, Error>
  {
    if key !in d || d[key].JNull? then Success(None)
    else if d[key].JStr? then Success(Some(d[key].s))
    else Failure(BadArgument(key))
  }

  /** An optional numeric argument: absent or null is None. */
  function OptReal(d: map<string, Json>, key: string): Result<Option<real>, Error>
  {
    if key !in d || d[key].JNull? then Success(None)
    else if d[key].JInt? then Success(Some(d[key].i as real))
    else if d[key].JFloat? then Success(Some(d[key].r))
    else Failure(BadArgument(key))
  }

  /** Python's `bool(x)` on a parsed JSON value: null, false, zero and empty values are false. */
  function Truthy(j: Json): bool
  {
    match j
    case JNull => false
    case JBool(b) => b
    case JInt(i) => i != 0
    case JFloat(x) => x != 0.0
    case JStr(s) => s != ""
    case JArr(items) => items != []
    case JObj(fields) => fields != map[]
  }

  /**
   * `Stat(**d)` (svante/statsdict.py:425): a saved attribute dict passed back to
   * the constructor as keyword arguments, with the constructor's defaults for the
   * ones that are missing.
   */
  function FromDict(d: map<string, Json>, sqrt: real -> real): (r: Result<Stat, Error>)
    ensures r.Success? ==> d.Keys <= ParameterNames && "val" in d && r.value.WellFormed()
    ensures r.Success? && "run_no" !in d ==> r.value.runNo == -1
    ensures r.Success? && "is_count" in d && Truthy(d["is_count"]) ==> r.value.uncert == Some(sqrt(AsReal(r.value.val)))
    ensures r.Failure? ==> r.error.BadArgument? || r.error.UnsupportedType? || r.error == MathDomain
  {
    if !(d.Keys <= ParameterNames) || "val" !in d then Failure(BadArgument("val"))
    else if JsonToNum(d["val"]).None? then Failure(UnsupportedType("val"))
    else if "val_type" in d && !d["val_type"].JNull? && !d["val_type"].JStr? then Failure(UnsupportedType("val_type"))
    else if "run_no" in d && !d["run_no"].JInt? then Failure(BadArgument("run_no"))
    else
      var valType := if "val_type" !in d || d["val_type"].JNull? then None else Some(d["val_type"].s);
      var runNo := if "run_no" in d then d["run_no"].i else -1;
      var isCount := "is_count" in d && Truthy(d["is_count"]);
      match (OptReal(d, "uncert"), OptString(d, "units"), OptString(d, "desc"))
      case (Success(u), Success(un), Success(de)) =>
        MakeStat(JsonToNum(d["val"]).value, valType, u, un, de, runNo, isCount, sqrt)
      case (Failure(e), _, _) => Failure(e)
      case (_, Failure(e), _) => Failure(e)
      case (_, _, Failure(e)) => Failure(e)
  }

  /** A constructed stat survives `to_dict` followed by `Stat(**d)` unchanged. */
  lemma DictRoundTrip(s: Stat, sqrt: real -> real)
    requires s.WellFormed()
    ensures FromDict(ToDict(s), sqrt) == Success(s)
  {
    var d := ToDict(s);
    assert JsonToNum(d["val"]) == Some(s.val);
    assert OptReal(d, "uncert") == Success(s.uncert);
    assert OptString(d, "units") == Success(s.units);
    assert OptString(d, "desc") == Success(s.desc);
    assert "is_count" !in d && d["val_type"] == JStr(s.valType) && d["run_no"] == JInt(s.runNo);
    assert MakeStat(s.val, Some(s.valType), s.uncert, s.units, s.desc, s.runNo, false, sqrt) == Success(s);
  }
}
