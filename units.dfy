/**
 * Custom unit definitions: the de-duplicated, order-preserving list the store
 * records (`define_units`, svante/statsdict.py:357-365), and the unit registry
 * they are defined in (`UREG`, line 61).
 */
module Units {
  import opened Wrappers

  /** The characters `str.split()` treats as whitespace. */
  predicate IsSpace(c: char)
  {
    || c == ' ' || '\t' <= c <= '\r' || '\U{1c}' <= c <= '\U{1f}' || c == '\U{85}' || c == '\U{a0}'
    || c == '\U{1680}' || '\U{2000}' <= c <= '\U{200a}' || c == '\U{2028}' || c == '\U{2029}'
    || c == '\U{202f}' || c == '\U{205f}' || c == '\U{3000}'
  }

  /** The number of leading whitespace characters. */
  function LeadingSpaces(s: string): (k: nat)
    ensures k <= |s|
    ensures forall i :: 0 <= i < k ==> IsSpace(s[i])
    ensures k < |s| ==> !IsSpace(s[k])
  {
    if s == [] || !IsSpace(s[0]) then 0 else 1 + LeadingSpaces(s[1..])
  }

  /** The length of the run of non-whitespace characters that starts `s`. */
  function WordLength(s: string): (k: nat)
    ensures k <= |s|
    ensures forall i :: 0 <= i < k ==> !IsSpace(s[i])
    ensures k < |s| ==> IsSpace(s[k])
  {
    if s == [] || IsSpace(s[0]) then 0 else 1 + WordLength(s[1..])
  }

  /**
   * `definition.split()[0]`: the first whitespace-separated word, or None
   * where Python raises IndexError because the string is blank.
   */
  function FirstWord(s: string): Option<string>
  {
    var k := LeadingSpaces(s);
    if k == |s| then None else Some(s[k..k + WordLength(s[k..])])
  }

  /**
   * `split()[0]` raises exactly for a blank string; otherwise the word is the
   * non-empty run of non-whitespace that follows the leading whitespace and
   * ends at the next whitespace or the end of the string.
   */
  lemma FirstWordSpec(s: string)
    ensures FirstWord(s).None? <==> forall i :: 0 <= i < |s| ==> IsSpace(s[i])
    ensures FirstWord(s).Some? ==>
              var w := FirstWord(s).value;
              var k := LeadingSpaces(s);
              && w != [] && (forall i :: 0 <= i < |w| ==> !IsSpace(w[i]))
              && k + |w| <= |s| && s[k..k + |w|] == w
              && (k + |w| == |s| || IsSpace(s[k + |w|]))
  {
    var k := LeadingSpaces(s);
    if k < |s| {
      var w := WordLength(s[k..]);
      assert s[k..][..w] == s[k..k + w];
    }
  }

  predicate NoDuplicates(s: seq<string>)
  {
    forall i, j :: 0 <= i < j < |s| ==> s[i] != s[j]
  }

  /** One step of the `define_units` loop on the recorded list. */
  function AddUnitDef(recorded: seq<string>, definition: string): seq<string>
  {
    if definition in recorded then recorded else recorded + [definition]
  }

  /** The recorded list after `define_units(defs)` has gone through every definition. */
  function AddUnitDefs(recorded: seq<string>, defs: seq<string>): seq<string>
  {
    if defs == [] then recorded else AddUnitDef(AddUnitDefs(recorded, defs[..|defs| - 1]), defs[|defs| - 1])
  }

  /**
   * Existing entries keep their positions, every definition ends up recorded,
   * nothing else is added, and no duplicate arises.
   */
  lemma {:induction false} AddUnitDefsSpec(recorded: seq<string>, defs: seq<string>)
    ensures recorded <= AddUnitDefs(recorded, defs)
    ensures forall d :: d in defs ==> d in AddUnitDefs(recorded, defs)
    ensures forall d :: d in AddUnitDefs(recorded, defs) ==> d in recorded || d in defs
    ensures NoDuplicates(recorded) ==> NoDuplicates(AddUnitDefs(recorded, defs))
  {
    if defs != [] {
      var n := |defs| - 1;
      AddUnitDefsSpec(recorded, defs[..n]);
      assert defs == defs[..n] + [defs[n]];
    }
  }

  /**
   * The definitions a call appends, in first-seen order: each one that is neither
   * recorded already nor seen earlier in the same call.
   */
  function NewDefs(recorded: seq<string>, defs: seq<string>): seq<string>
  {
    if defs == [] then []
    else
      var n := |defs| - 1;
      var front := NewDefs(recorded, defs[..n]);
      if defs[n] in recorded || defs[n] in defs[..n] then front else front + [defs[n]]
  }

  /** The appended definitions are exactly the given ones not yet recorded, each once. */
  lemma {:induction false} NewDefsMembers(recorded: seq<string>, defs: seq<string>)
    ensures forall d :: d in NewDefs(recorded, defs) <==> d in defs && d !in recorded
    ensures NoDuplicates(NewDefs(recorded, defs))
  {
    if defs != [] {
      var n := |defs| - 1;
      NewDefsMembers(recorded, defs[..n]);
      assert defs == defs[..n] + [defs[n]];
    }
  }

  /** `define_units` appends the new definitions after the recorded ones, in first-seen order. */
  lemma {:induction false} AddUnitDefsOrder(recorded: seq<string>, defs: seq<string>)
    ensures AddUnitDefs(recorded, defs) == recorded + NewDefs(recorded, defs)
  {
    if defs != [] {
      var n := |defs| - 1;
      AddUnitDefsOrder(recorded, defs[..n]);
      NewDefsMembers(recorded, defs[..n]);
    }
  }

  /** Definitions that are all recorded already change nothing. */
  lemma {:induction false} AddKnownUnitDefs(recorded: seq<string>, defs: seq<string>)
    requires forall d :: d in defs ==> d in recorded
    ensures AddUnitDefs(recorded, defs) == recorded
  {
    if defs != [] {
      AddKnownUnitDefs(recorded, defs[..|defs| - 1]);
    }
  }

  /** Defining the same list twice leaves the recorded list as the first call left it. */
  lemma DefineUnitsIdempotent(recorded: seq<string>, defs: seq<string>)
    ensures AddUnitDefs(AddUnitDefs(recorded, defs), defs) == AddUnitDefs(recorded, defs)
  {
    AddUnitDefsSpec(recorded, defs);
    AddKnownUnitDefs(AddUnitDefs(recorded, defs), defs);
  }

  /** A duplicate-free list recorded into an empty store comes back as it was. */
  lemma {:induction false} AddUnitDefsToEmpty(defs: seq<string>)
    requires NoDuplicates(defs)
    ensures AddUnitDefs([], defs) == defs
  {
    if defs != [] {
      var n := |defs| - 1;
      AddUnitDefsToEmpty(defs[..n]);
      assert defs[n] !in defs[..n];
    }
  }

  /** Recording one more definition. */
  lemma AddUnitDefsSnoc(recorded: seq<string>, defs: seq<string>, i: nat)
    requires i < |defs|
    ensures AddUnitDefs(recorded, defs[..i + 1]) == AddUnitDef(AddUnitDefs(recorded, defs[..i]), defs[i])
    ensures NoDuplicates(AddUnitDefs(recorded, defs[..i])) ==> NoDuplicates(AddUnitDefs(recorded, defs[..i + 1]))
  {
    assert defs[..i + 1][..i] == defs[..i];
  }

  /** The index of the first blank definition, where `split()[0]` raises, or |defs| if there is none. */
  function FirstBlank(defs: seq<string>): (k: nat)
    ensures k <= |defs|
    ensures forall i :: 0 <= i < k ==> FirstWord(defs[i]).Some?
    ensures k < |defs| ==> FirstWord(defs[k]).None?
  {
    if defs == [] || FirstWord(defs[0]).None? then 0 else 1 + FirstBlank(defs[1..])
  }

  /** The unit name a definition introduces. */
  function UnitName(definition: string): string
    requires FirstWord(definition).Some?
  {
    FirstWord(definition).value
  }

  /**
   * The registry after each definition in turn is defined unless its unit name is
   * already known (svante/statsdict.py:363-365).
   */
  function RegisterUnits(known: map<string, string>, defs: seq<string>): (r: map<string, string>)
    requires forall i :: 0 <= i < |defs| ==> FirstWord(defs[i]).Some?
    ensures forall u :: u in known ==> u in r && r[u] == known[u]
  {
    if defs == [] then known
    else
      var n := |defs| - 1;
      var front := RegisterUnits(known, defs[..n]);
      if UnitName(defs[n]) in front then front else front[UnitName(defs[n]) := defs[n]]
  }

  /** Every unit name the definitions introduce ends up in the registry. */
  lemma {:induction false} RegisterUnitsNames(known: map<string, string>, defs: seq<string>)
    requires forall i :: 0 <= i < |defs| ==> FirstWord(defs[i]).Some?
    ensures forall i :: 0 <= i < |defs| ==> UnitName(defs[i]) in RegisterUnits(known, defs)
  {
    if defs != [] {
      var n := |defs| - 1;
      RegisterUnitsNames(known, defs[..n]);
      assert forall i :: 0 <= i < n ==> defs[..n][i] == defs[i];
    }
  }

  /** Defining one more unit. */
  lemma RegisterUnitsSnoc(known: map<string, string>, defs: seq<string>, i: nat)
    requires i < |defs| && forall j :: 0 <= j <= i ==> FirstWord(defs[j]).Some?
    ensures var before := RegisterUnits(known, defs[..i]);
            RegisterUnits(known, defs[..i + 1])
            == if UnitName(defs[i]) in before then before else before[UnitName(defs[i]) := defs[i]]
  {
    assert defs[..i + 1][..i] == defs[..i];
  }

  /** A unit name the registry did not know is defined by the first definition that introduces it. */
  lemma {:induction false} FirstDefinitionWins(known: map<string, string>, defs: seq<string>, i: nat)
    requires forall j :: 0 <= j < |defs| ==> FirstWord(defs[j]).Some?
    requires i < |defs| && UnitName(defs[i]) !in known
    requires forall j :: 0 <= j < i ==> UnitName(defs[j]) != UnitName(defs[i])
    ensures var r := RegisterUnits(known, defs);
            UnitName(defs[i]) in r && r[UnitName(defs[i])] == defs[i]
  {
    var n := |defs| - 1;
    var front := defs[..n];
    var name := UnitName(defs[i]);
    var before := RegisterUnits(known, front);
    RegisterUnitsSnoc(known, defs, n);
    assert defs[..n + 1] == defs;
    if i < n {
      assert front[i] == defs[i];
      FirstDefinitionWins(known, front, i);
      assert name in before && before[name] == defs[i];
    } else {
      NotYetRegistered(known, front, name);
    }
  }

  /** A name no definition introduces is registered only if it was known before. */
  lemma {:induction false} NotYetRegistered(known: map<string, string>, defs: seq<string>, name: string)
    requires forall j :: 0 <= j < |defs| ==> FirstWord(defs[j]).Some?
    requires name !in known && forall j :: 0 <= j < |defs| ==> UnitName(defs[j]) != name
    ensures name !in RegisterUnits(known, defs)
  {
    if defs != [] {
      var n := |defs| - 1;
      assert forall j :: 0 <= j < n ==> defs[..n][j] == defs[j];
      NotYetRegistered(known, defs[..n], name);
    }
  }

  /** The process-wide unit registry: unit names and the definitions that introduced them. */
  class UnitRegistry {
    var units: map<string, string>

    constructor (builtIn: map<string, string>)
      ensures units == builtIn
    {
      units := builtIn;
    }

    /** `UREG.define(definition)` for a definition whose unit name is not yet known. */
    method Define(definition: string)
      requires FirstWord(definition).Some?
      modifies this
      ensures units == old(units)[UnitName(definition) := definition]
    {
      units := units[UnitName(definition) := definition];
    }
  }
}
