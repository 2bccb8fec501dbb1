/**
 * The parameter manager: the store an application provides behind the
 * parameter service. Parameters are kept as an ordered sequence of names
 * (the enumeration order used by index lookups) and a map from each name
 * to its current value.
 */
module Manager {
  import opened Values

  /** A parameter name. */
  type Name = seq<char>

  /** An enumeration index into the parameter set. */
  type Index = nat

  /** True when no name occurs twice in `s`. */
  ghost predicate Distinct(s: seq<Name>) {
    forall i, j :: 0 <= i < j < |s| ==> s[i] != s[j]
  }

  /** The abstract state of a parameter manager. */
  datatype ParamTable = ParamTable(names: seq<Name>, values: map<Name, Value>) {

    /**
     * Names are unique and non-empty (an empty name is what a caller sees
     * when there is no such parameter), and the listed names are exactly
     * those with a value.
     */
    ghost predicate Valid() {
      && Distinct(names)
      && (forall n :: n in names ==> |n| > 0)
      && (forall n :: n in values <==> n in names)
    }

    /** The name at enumeration position `index`, if there is one. */
    function NameAt(index: Index): Option<Name> {
      if index < |names| then Some(names[index]) else None
    }

    /** The stored value of parameter `name`, if it exists. */
    function Lookup(name: Name): Option<Value> {
      if name in values then Some(values[name]) else None
    }

    /** The table after assigning `value` to `name` if that parameter exists. */
    function Assign(name: Name, value: Value): ParamTable {
      if name in values then ParamTable(names, values[name := value]) else this
    }
  }

  /** A parameter exists exactly when some enumeration index names it. */
  lemma ExistsIffIndexed(t: ParamTable, name: Name)
    requires t.Valid()
    ensures t.Lookup(name).Some? <==> exists i: Index :: t.NameAt(i) == Some(name)
  {
    if name in t.values {
      var i :| 0 <= i < |t.names| && t.names[i] == name;
      assert t.NameAt(i) == Some(name);
    }
  }

  /**
   * A caller that passes an empty name to an index lookup gets a non-empty
   * name back exactly when the index names a parameter, so an empty result
   * reliably means "no parameter at this index".
   */
  lemma EmptyNameMeansNoParam(t: ParamTable, i: Index)
    requires t.Valid()
    ensures |t.NameAt(i).GetOr([])| > 0 <==> i < |t.names|
  {
    if i < |t.names| {
      assert t.names[i] in t.names;
    }
  }

  /** Every existing parameter is named by exactly one enumeration index. */
  lemma IndexIsUnique(t: ParamTable, i: Index, j: Index, name: Name)
    requires t.Valid()
    requires t.NameAt(i) == Some(name) && t.NameAt(j) == Some(name)
    ensures i == j
  {
  }

  /** Indices at or beyond the number of parameters name nothing. */
  lemma PastTheEndNamesNothing(t: ParamTable, i: Index)
    requires t.Valid() && |t.values| <= i
    ensures t.NameAt(i) == None
  {
    if i < |t.names| {
      DistinctNamesCoverKeys(t);
    }
  }

  /** For a valid table the number of parameters is the length of the name list. */
  lemma DistinctNamesCoverKeys(t: ParamTable)
    requires t.Valid()
    ensures |t.values| == |t.names|
  {
    assert t.values.Keys == set n | n in t.names;
    DistinctSetSize(t.names);
  }

  /** A duplicate-free sequence has as many distinct elements as it is long. */
  lemma {:induction false} DistinctSetSize(s: seq<Name>)
    requires Distinct(s)
    ensures |set n | n in s| == |s|
  {
    if s != [] {
      var rest := s[1..];
      assert Distinct(rest) by {
        forall i, j | 0 <= i < j < |rest| ensures rest[i] != rest[j] {
          assert rest[i] == s[i + 1] && rest[j] == s[j + 1];
        }
      }
      DistinctSetSize(rest);
      assert s[0] !in rest by {
        forall k | 0 <= k < |rest| ensures rest[k] != s[0] {
          assert rest[k] == s[k + 1];
        }
      }
      assert (set n | n in s) == (set n | n in rest) + {s[0]} by {
        assert s == [s[0]] + rest;
      }
    }
  }

  /** Assignment never adds, removes or reorders parameters. */
  lemma AssignKeepsNames(t: ParamTable, name: Name, value: Value)
    requires t.Valid()
    ensures t.Assign(name, value).Valid()
    ensures t.Assign(name, value).names == t.names
    ensures t.Assign(name, value).values.Keys == t.values.Keys
  {
  }

  /** Assigning to a name that does not exist changes nothing. */
  lemma AssignUnknownIsNoOp(t: ParamTable, name: Name, value: Value)
    requires name !in t.values
    ensures t.Assign(name, value) == t
  {
  }

  /**
   * Reading back after an assignment gives the assigned value when the
   * parameter exists, and leaves every other parameter as it was.
   */
  lemma AssignThenLookup(t: ParamTable, name: Name, value: Value, other: Name)
    ensures t.Assign(name, value).Lookup(name) ==
            (if name in t.values then Some(value) else None)
    ensures other != name ==> t.Assign(name, value).Lookup(other) == t.Lookup(other)
  {
  }

  /**
   * The names obtained by asking for index `from`, `from + 1`, ... until
   * the first index that names nothing.
   */
  ghost function Enumeration(t: ParamTable, from: Index): seq<Name>
    decreases |t.names| - from
  {
    match t.NameAt(from)
    case None => []
    case Some(n) => [n] + Enumeration(t, from + 1)
  }

  /** Enumerating from `from` yields the names from that position on, in order. */
  lemma {:induction false} EnumerationFrom(t: ParamTable, from: Index)
    requires from <= |t.names|
    ensures Enumeration(t, from) == t.names[from..]
    decreases |t.names| - from
  {
    if from < |t.names| {
      EnumerationFrom(t, from + 1);
      assert t.names[from..] == [t.names[from]] + t.names[from + 1..];
    }
  }

  /** A name that occurs once in a duplicate-free sequence occurs exactly once. */
  lemma {:induction false} DistinctCountsOnce(s: seq<Name>, x: Name)
    requires Distinct(s) && x in s
    ensures multiset(s)[x] == 1
  {
    var rest := s[1..];
    assert s == [s[0]] + rest;
    assert Distinct(rest) by {
      forall i, j | 0 <= i < j < |rest| ensures rest[i] != rest[j] {
        assert rest[i] == s[i + 1] && rest[j] == s[j + 1];
      }
    }
    if s[0] == x {
      assert x !in rest by {
        forall k | 0 <= k < |rest| ensures rest[k] != x {
          assert rest[k] == s[k + 1];
        }
      }
      assert multiset(rest)[x] == 0;
    } else {
      DistinctCountsOnce(rest, x);
    }
  }

  /**
   * Enumerating by index from 0 until the first index that names nothing
   * lists every parameter exactly once, in the manager's order, and lists
   * nothing that is not a parameter.
   */
  lemma EnumerationListsEachParamOnce(t: ParamTable)
    requires t.Valid()
    ensures Enumeration(t, 0) == t.names
    ensures forall n :: n in Enumeration(t, 0) <==> n in t.values
    ensures forall n :: n in t.values ==> multiset(Enumeration(t, 0))[n] == 1
  {
    EnumerationFrom(t, 0);
    assert t.names[0..] == t.names;
    forall n | n in t.values ensures multiset(t.names)[n] == 1 {
      DistinctCountsOnce(t.names, n);
    }
  }

  /**
   * A parameter manager. The application's implementation of the interface
   * is modelled by this one store, whose operations honour the interface's
   * "if it exists, otherwise do nothing" promises. Each operation that
   * fills in a reference out-parameter takes the caller's current value of
   * it and returns the new one.
   */
  class ParamManager {
    var names: seq<Name>
    var values: map<Name, Value>

    /** The manager's state as a table. */
    function Table(): ParamTable
      reads this
    {
      ParamTable(names, values)
    }

    ghost predicate Valid()
      reads this
    {
      Table().Valid()
    }

    constructor (table: ParamTable)
      requires table.Valid()
      ensures Valid() && Table() == table
    {
      names := table.names;
      values := table.values;
    }

    /**
     * The name at `index` if such a parameter exists; otherwise `outName`
     * exactly as the caller passed it.
     */
    method GetParamNameByIndex(index: Index, outName: Name) returns (name: Name)
      ensures name == Table().NameAt(index).GetOr(outName)
    {
      if index < |names| {
        name := names[index];
      } else {
        name := outName;
      }
    }

    /** Assigns `value` to parameter `name` if it exists; otherwise does nothing. */
    method AssignParamValue(name: Name, value: Value)
      requires Valid()
      modifies this
      ensures Valid()
      ensures Table() == old(Table()).Assign(name, value)
      ensures names == old(names)
      ensures name !in old(values) ==> values == old(values)
    {
      if name in values {
        values := values[name := value];
      }
    }

    /**
     * The stored value of parameter `name` if it exists; otherwise
     * `outValue` exactly as the caller passed it.
     */
    method ReadParamValue(name: Name, outValue: Value) returns (value: Value)
      ensures value == Table().Lookup(name).GetOr(outValue)
    {
      if name in values {
        value := values[name];
      } else {
        value := outValue;
      }
    }

    /**
     * The interface's default for the optional default/max/min report: it
     * reports nothing, leaving all three out-parameters as they were passed.
     */
    method ReadParamDefaultMaxMin(name: Name, outDefault: Value, outMax: NumericValue, outMin: NumericValue)
      returns (default: Value, max: NumericValue, min: NumericValue)
      ensures default == outDefault && max == outMax && min == outMin
      ensures IsValueEmpty(outDefault) ==> IsValueEmpty(default)
      ensures IsNumericValueEmpty(outMax) ==> IsNumericValueEmpty(max)
      ensures IsNumericValueEmpty(outMin) ==> IsNumericValueEmpty(min)
    {
      default, max, min := outDefault, outMax, outMin;
    }

    /**
     * Saves all parameters to non-volatile storage. `storageFails` is the
     * outcome of the storage write; the status is negative exactly when it
     * failed. The parameters in memory are not touched.
     */
    method SaveAllParams(storageFails: bool) returns (status: int)
      ensures status < 0 <==> storageFails
    {
      status := if storageFails then -1 else 0;
    }

    /**
     * Clears the non-volatile storage. `storageFails` is the outcome of the
     * erase; the status is negative exactly when it failed. The parameters
     * in memory are not touched.
     */
    method EraseAllParams(storageFails: bool) returns (status: int)
      ensures status < 0 <==> storageFails
    {
      status := if storageFails then -1 else 0;
    }
  }

  /**
   * Assigning through the manager and reading back gives the assigned
   * value for an existing parameter, and the caller's value for an unknown one.
   */
  method AssignThenRead(pm: ParamManager, name: Name, value: Value, outValue: Value)
    returns (read: Value)
    requires pm.Valid()
    modifies pm
    ensures pm.Valid()
    ensures read == (if name in old(pm.values) then value else outValue)
  {
    pm.AssignParamValue(name, value);
    read := pm.ReadParamValue(name, outValue);
  }
}
