/** Dirty checking shared by every domain entity (`BaseEntity`). An entity's
    state is a row: a map from property name to value. The tracker remembers
    the row the entity had when it was built and reports which properties
    differ from it now. */
module EntityBase {
  import opened Wrappers

  /** A property value as the entities hold it. Dates and big integers are
      numbers (milliseconds since the epoch, bytes); enum members are their
      names. `Undefined` is a key that is present but holds `undefined`. */
  datatype Value = Str(s: string) | Num(n: int) | Bool(b: bool) | Null | Undefined

  type Row = map<string, Value>

  /** A nullable text column, held as text or null. */
  function NullableValue(o: Option<string>): Value {
    match o
    case Some(v) => Str(v)
    case None => Null
  }

  /** A nullable date, held as a number or null. */
  function DateValue(d: Option<int>): Value {
    match d
    case Some(t) => Num(t)
    case None => Null
  }

  /** `row[key]` in JavaScript: a missing key reads as `undefined`. */
  function Get(row: Row, key: string): Value {
    if key in row then row[key] else Undefined
  }

  /** `getChanges`: every key of the current state whose value is not
      `undefined` and differs from the original value (a deep comparison,
      which on these values is equality). */
  function Changes(original: Row, current: Row): Row {
    map k | k in current && current[k] != Undefined && current[k] != Get(original, k) :: current[k]
  }

  /** What a store does with an update clause: the named columns take the
      given values, the others keep theirs. */
  function Apply(stored: Row, clause: Row): Row {
    stored + clause
  }

  /** A state compared with itself has no changes. */
  lemma NoChangesAgainstSelf(state: Row)
    ensures Changes(state, state) == map[]
  {
    assert Changes(state, state).Keys == {};
  }

  /** The changes are empty exactly when every defined property of the
      current state still holds its original value. */
  lemma ChangesEmptyIff(original: Row, current: Row)
    ensures Changes(original, current) == map[] <==>
      forall k :: k in current ==> current[k] == Undefined || current[k] == Get(original, k)
  {
    if Changes(original, current) != map[] {
      var k :| k in Changes(original, current);
      assert k in current && current[k] != Undefined && current[k] != Get(original, k);
    }
    if !(forall k :: k in current ==> current[k] == Undefined || current[k] == Get(original, k)) {
      var k :| k in current && current[k] != Undefined && current[k] != Get(original, k);
      assert k in Changes(original, current);
    }
  }

  /** Writing the changes over the original row reproduces every defined
      property of the current state and leaves every other column alone:
      the update clause is exactly what a store needs to catch up. */
  lemma ApplyChangesCatchesUp(original: Row, current: Row)
    ensures forall k :: k in current && current[k] != Undefined ==>
      Get(Apply(original, Changes(original, current)), k) == current[k]
    ensures forall k :: (k !in current || current[k] == Undefined) ==>
      Get(Apply(original, Changes(original, current)), k) == Get(original, k)
  {
  }

  /** One column of a stored row after an update clause of changes: the
      current value where it changed, the stored one elsewhere. */
  lemma ColumnAfterChanges(stored: Row, original: Row, current: Row, k: string)
    ensures Get(Apply(stored, Changes(original, current)), k) ==
      if k in current && current[k] != Undefined && current[k] != Get(original, k) then current[k]
      else Get(stored, k)
  {
  }

  /** Once the changes are written back, nothing is left to write. */
  lemma ChangesSettleAfterApply(original: Row, current: Row)
    ensures Changes(Apply(original, Changes(original, current)), current) == map[]
  {
    ApplyChangesCatchesUp(original, current);
    ChangesEmptyIff(Apply(original, Changes(original, current)), current);
  }

  /** The original-state bookkeeping of one entity. `_isInitialized` of the
      source is `original.Some?`: the original state is set exactly when
      the entity has been initialised. */
  class Tracker {
    var original: Option<Row>

    constructor()
      ensures original == None
    {
      original := None;
    }

    /** `setInitialState`: the first call records the state; later calls
        change nothing. */
    method SetInitialState(current: Row)
      modifies this
      ensures original == if old(original).Some? then old(original) else Some(current)
    {
      if original.None? {
        original := Some(current);
      }
    }

    /** The state changes are measured against. `ensureInitialized` makes an
        uninitialised entity take its current state as the original one. */
    function Baseline(current: Row): Row
      reads this
    {
      original.GetOr(current)
    }

    /** `getChanges` for an entity whose current state is `current`. */
    function ChangesOf(current: Row): Row
      reads this
    {
      Changes(Baseline(current), current)
    }

    /** `isDirty`: some property has changed. */
    function IsDirty(current: Row): (dirty: bool)
      reads this
      ensures dirty <==> exists k :: k in current && current[k] != Undefined && current[k] != Get(Baseline(current), k)
      ensures original.None? ==> !dirty
    {
      ChangesEmptyIff(Baseline(current), current);
      NoChangesAgainstSelf(current);
      |ChangesOf(current)| > 0
    }

    /** `getUpdateClause`: no clause when nothing changed, otherwise the
        changed properties, which bring the original row up to date. */
    function UpdateClause(current: Row): (clause: Option<Row>)
      reads this
      ensures clause.None? <==> !IsDirty(current)
      ensures clause.Some? ==> clause.value != map[]
      ensures clause.Some? ==> forall k :: k in clause.value <==>
        k in current && current[k] != Undefined && current[k] != Get(Baseline(current), k)
      ensures clause.Some? ==> forall k :: k in clause.value ==> clause.value[k] == current[k]
      ensures clause.Some? ==> forall k :: k in current && current[k] != Undefined ==>
        Get(Apply(Baseline(current), clause.value), k) == current[k]
    {
      ApplyChangesCatchesUp(Baseline(current), current);
      var changes := ChangesOf(current);
      if |changes| == 0 then None else Some(changes)
    }
  }
}
