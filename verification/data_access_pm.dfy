/** Adding named objects to the three-column tables of the `pm` schema
    (processing robots, tools, lots): `_add_object` and its wrappers.

    The database is a store mapping each `pm` table name to its column list
    (as the information schema reports it) and its rows. A call returns the
    store afterwards and the exception it raised, if any. */
module DataAccessPM {
  import opened Results
  import opened Exceptions

  /** A row of an object table; its serial id is not modelled. */
  datatype ObjectRow = ObjectRow(name: string, notes: Option<string>)

  datatype DbTable = DbTable(columns: seq<string>, rows: seq<ObjectRow>)

  /** The tables of schema `pm`, by name. */
  type Store = map<string, DbTable>

  /** The state after a call, and what it raised. */
  datatype Step = Step(store: Store, raised: Option<Raised>)

  function Names(t: DbTable): set<string>
  {
    set r | r in t.rows :: r.name
  }

  /** The only column design `_add_object` accepts for table `tbl`. */
  function ExpectedColumns(tbl: string): seq<string>
  {
    [tbl + "_id", "name", "notes"]
  }

  /** `tbl` is listed by the information schema's column view, which has a
      row per column: a table with no columns does not show up there. */
  predicate TableExists(store: Store, tbl: string)
  {
    tbl in store && store[tbl].columns != []
  }

  /** `tbl` exists in `pm` and has exactly the expected columns, in order. */
  predicate WellDesigned(store: Store, tbl: string)
  {
    tbl in store && store[tbl].columns == ExpectedColumns(tbl)
  }

  /** Python's `not name or len(name) <= 0`: `None` or the empty string. */
  predicate IsEmptyName(name: Option<string>)
  {
    name.None? || |name.value| == 0
  }

  function MissingTableError(tbl: string): (e: Raised)
    ensures Catches(LabadminDBError, e)
    ensures EndsWith(e.message, "does not exist in data base.")
  {
    var head := "Table " + tbl + " ";
    var tail := "does not exist in data base.";
    assert (head + tail)[|head + tail| - |tail|..] == tail;
    Raised(LabadminDBError, head + tail)
  }

  function ColumnDesignError(tbl: string): (e: Raised)
    ensures Catches(LabadminDBError, e)
    ensures StartsWith(e.message, "Table " + tbl + " does not have the expected column")
  {
    var head := "Table " + tbl + " does not have the expected column";
    var rest := " design. It must have exactly the three columns: \"" + tbl + "_id\", \"name\", \"notes\"";
    assert (head + rest)[..|head|] == head;
    Raised(LabadminDBError, head + rest)
  }

  function EmptyNameError(tbl: string): (e: Raised)
    ensures e.cls == ValueError && !Catches(LabadminError, e)
    ensures e.message == "The " + tbl + " name cannot be empty."
  {
    Raised(ValueError, "The " + tbl + " name cannot be empty.")
  }

  /** `_add_object(tbl_name, name, notes)`: the two table checks, then the
      name check, then the duplicate check, then the insert. */
  function AddObject(store: Store, tbl: string, name: Option<string>, notes: Option<string>): (out: Step)
    // a failing call changes nothing
    ensures out.raised.Some? ==> out.store == store
    // the checks, in the order they run
    ensures !TableExists(store, tbl) ==> out.raised == Some(MissingTableError(tbl))
    ensures TableExists(store, tbl) && !WellDesigned(store, tbl) ==> out.raised == Some(ColumnDesignError(tbl))
    ensures out.raised.Some? && out.raised.value.cls == ValueError <==>
              WellDesigned(store, tbl) && IsEmptyName(name)
    ensures WellDesigned(store, tbl) && IsEmptyName(name) ==> out.raised == Some(EmptyNameError(tbl))
    ensures out.raised.Some? && out.raised.value.cls == LabadminDBDuplicateError <==>
              WellDesigned(store, tbl) && !IsEmptyName(name) && name.value in Names(store[tbl])
    ensures out.raised.Some? && out.raised.value.cls == LabadminDBDuplicateError ==>
              out.raised.value == DuplicateError(tbl, "name: " + name.value)
    // success, and what it changes
    ensures out.raised.None? <==>
              WellDesigned(store, tbl) && !IsEmptyName(name) && name.value !in Names(store[tbl])
    ensures out.raised.None? ==>
              && out.store.Keys == store.Keys
              && (forall t :: t in store && t != tbl ==> out.store[t] == store[t])
              && out.store[tbl].columns == store[tbl].columns
              && out.store[tbl].rows == store[tbl].rows + [ObjectRow(name.value, notes)]
              && Names(out.store[tbl]) == Names(store[tbl]) + {name.value}
  {
    if !TableExists(store, tbl) then
      Step(store, Some(MissingTableError(tbl)))
    else if store[tbl].columns != ExpectedColumns(tbl) then
      Step(store, Some(ColumnDesignError(tbl)))
    else if IsEmptyName(name) then
      Step(store, Some(EmptyNameError(tbl)))
    else if exists r | r in store[tbl].rows :: r.name == name.value then
      Step(store, Some(DuplicateError(tbl, "name: " + name.value)))
    else
      var t := store[tbl];
      var t' := DbTable(t.columns, t.rows + [ObjectRow(name.value, notes)]);
      assert forall r :: r in t'.rows <==> r in t.rows || r == ObjectRow(name.value, notes);
      Step(store[tbl := t'], None)
  }

  /** A table whose column list is empty has no row in the column view, so
      the existence check already reports it missing. */
  lemma ColumnlessTableIsMissing(store: Store, tbl: string, rows: seq<ObjectRow>,
                                 name: Option<string>, notes: Option<string>)
    ensures var s := store[tbl := DbTable([], rows)];
            AddObject(s, tbl, name, notes) == Step(s, Some(MissingTableError(tbl)))
  {
  }

  /** No two rows of a table share a name. */
  ghost predicate NamesUnique(store: Store)
  {
    forall tbl, i, j :: tbl in store && 0 <= i < j < |store[tbl].rows| ==>
      store[tbl].rows[i].name != store[tbl].rows[j].name
  }

  /** `_add_object` keeps names unique in every table. */
  lemma AddObjectKeepsNamesUnique(store: Store, tbl: string, name: Option<string>, notes: Option<string>)
    requires NamesUnique(store)
    ensures NamesUnique(AddObject(store, tbl, name, notes).store)
  {
    var out := AddObject(store, tbl, name, notes);
    if out.raised.None? {
      var rows := store[tbl].rows;
      var rows' := out.store[tbl].rows;
      forall i, j | 0 <= i < j < |rows'|
        ensures rows'[i].name != rows'[j].name
      {
        if j == |rows| {
          assert rows'[i] == rows[i] && rows[i] in store[tbl].rows;
        } else {
          assert rows'[i] == rows[i] && rows'[j] == rows[j];
        }
      }
    }
  }

  /** Adding a fresh name succeeds; adding it again then raises the
      duplicate error, whose message names the object verbatim. */
  lemma AddSameNameTwice(store: Store, tbl: string, name: string, notes: Option<string>, notes2: Option<string>)
    requires WellDesigned(store, tbl) && name != [] && name !in Names(store[tbl])
    ensures AddObject(store, tbl, Some(name), notes).raised.None?
    ensures var first := AddObject(store, tbl, Some(name), notes).store;
            AddObject(first, tbl, Some(name), notes2) == Step(first, Some(DuplicateError(tbl, "name: " + name)))
  {
  }

  /** The duplicate error for a name without a single quote in the table
      name gives back both the table and the name. */
  lemma DuplicateNamesTheObject(store: Store, tbl: string, name: Option<string>, notes: Option<string>)
    requires '\'' !in tbl
    requires AddObject(store, tbl, name, notes).raised.Some?
    requires AddObject(store, tbl, name, notes).raised.value.cls == LabadminDBDuplicateError
    ensures name.Some?
    ensures ParseDuplicateMessage(AddObject(store, tbl, name, notes).raised.value.message)
            == Some((tbl, "name: " + name.value))
  {
  }

  // ---------------------------------------------------------------------
  // The wrappers, each fixing the table name
  // ---------------------------------------------------------------------

  function AddMasterMixLot(store: Store, name: Option<string>, notes: Option<string>): (out: Step)
    ensures out == AddObject(store, "master_mix_lot", name, notes)
    ensures WellDesigned(store, "master_mix_lot") && IsEmptyName(name) ==>
              out.raised == Some(EmptyNameError("master_mix_lot"))
  {
    AddObject(store, "master_mix_lot", name, notes)
  }

  function AddProcessingRobot(store: Store, name: Option<string>, notes: Option<string>): (out: Step)
    ensures out == AddObject(store, "processing_robot", name, notes)
    ensures WellDesigned(store, "processing_robot") && IsEmptyName(name) ==>
              out.raised == Some(EmptyNameError("processing_robot"))
  {
    AddObject(store, "processing_robot", name, notes)
  }

  function AddTm300_8Tool(store: Store, name: Option<string>, notes: Option<string>): (out: Step)
    ensures out == AddObject(store, "tm300_8_tool", name, notes)
    ensures WellDesigned(store, "tm300_8_tool") && IsEmptyName(name) ==>
              out.raised == Some(EmptyNameError("tm300_8_tool"))
  {
    AddObject(store, "tm300_8_tool", name, notes)
  }

  function AddTm50_8Tool(store: Store, name: Option<string>, notes: Option<string>): (out: Step)
    ensures out == AddObject(store, "tm50_8_tool", name, notes)
    ensures WellDesigned(store, "tm50_8_tool") && IsEmptyName(name) ==>
              out.raised == Some(EmptyNameError("tm50_8_tool"))
  {
    AddObject(store, "tm50_8_tool", name, notes)
  }

  function AddWaterLot(store: Store, name: Option<string>, notes: Option<string>): (out: Step)
    ensures out == AddObject(store, "water_lot", name, notes)
    ensures WellDesigned(store, "water_lot") && IsEmptyName(name) ==>
              out.raised == Some(EmptyNameError("water_lot"))
  {
    AddObject(store, "water_lot", name, notes)
  }
}
