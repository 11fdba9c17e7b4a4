/** The budget editor of the budgets page: pure updates of the budget being
    edited, the choice between adding and updating on save, and the reset
    after a successful save.

    The date of today (`new Date().toISOString().split('T')[0]`) is a
    parameter, and so is whether `api.updateBudget` / `api.addBudget`
    resolved. */
module BudgetEditor {
  import opened JsValue

  /** A module line of a budget: a copy of a catalogue module carrying its
      own unit count. Prices are floating point and are only carried. */
  datatype Module = Module(
    id: int, title: string, description: string, category: string,
    price: real, imageUrl: Option<string>, units: int)

  datatype Budget = Budget(id: int, clientId: int, date: string, modules: seq<Module>)

  /** The page state the editor uses: the budget being edited, the id of
      the saved budget it was loaded from (`editingBudgetId`), and the
      error banner. */
  datatype Editor = Editor(current: Budget, editingId: Option<int>, error: Option<string>)

  /** `{ id: 0, clientId: 0, date: today, modules: [] }` */
  function Blank(today: string): Budget
  {
    Budget(0, 0, today, [])
  }

  /** The page's initial state: a blank budget, not editing, no error. */
  function Initial(today: string): (r: Editor)
    ensures r.current.modules == [] && r.current.date == today
    ensures !Editing(r) && r.error.None?
  {
    Editor(Blank(today), None, None)
  }

  /** `addModule`: append a copy of the module with one unit. */
  function AddModule(e: Editor, m: Module): (r: Editor)
    ensures |r.current.modules| == |e.current.modules| + 1
    ensures r.current.modules[|e.current.modules|].units == 1
    ensures r.editingId == e.editingId && r.error == e.error
  {
    e.(current := e.current.(modules := e.current.modules + [m.(units := 1)]))
  }

  /** The number of lines carrying `moduleId`. */
  function Lines(ms: seq<Module>, moduleId: int): nat
    decreases |ms|
  {
    if |ms| == 0 then 0
    else (if ms[0].id == moduleId then 1 else 0) + Lines(ms[1..], moduleId)
  }

  /** `modules.filter(m => m.id !== moduleId)` */
  function WithoutModule(ms: seq<Module>, moduleId: int): (r: seq<Module>)
    ensures |r| == |ms| - Lines(ms, moduleId)
    decreases |ms|
  {
    if |ms| == 0 then []
    else (if ms[0].id == moduleId then [] else [ms[0]]) + WithoutModule(ms[1..], moduleId)
  }

  /** `removeModule` */
  function RemoveModule(e: Editor, moduleId: int): (r: Editor)
    ensures |r.current.modules| == |e.current.modules| - Lines(e.current.modules, moduleId)
    ensures r.editingId == e.editingId && r.error == e.error
  {
    e.(current := e.current.(modules := WithoutModule(e.current.modules, moduleId)))
  }

  /** `Math.max(a, b)` on integers. */
  function Max(a: int, b: int): int
  {
    if a >= b then a else b
  }

  /** `updateModuleUnits`: every line with the id gets `Math.max(1, units)`. */
  function UpdateModuleUnits(e: Editor, moduleId: int, units: int): (r: Editor)
    ensures |r.current.modules| == |e.current.modules|
    ensures forall i :: 0 <= i < |e.current.modules| && e.current.modules[i].id == moduleId ==>
              r.current.modules[i].units >= 1
    ensures r.editingId == e.editingId && r.error == e.error
  {
    var ms := e.current.modules;
    var updated := seq(|ms|, i requires 0 <= i < |ms| =>
                         if ms[i].id == moduleId then ms[i].(units := Max(1, units)) else ms[i]);
    e.(current := e.current.(modules := updated))
  }

  /** The client selector's change handler. */
  function SetClient(e: Editor, clientId: int): (r: Editor)
    ensures r.current.clientId == clientId && r.current.modules == e.current.modules
  {
    e.(current := e.current.(clientId := clientId))
  }

  /** The date input's change handler. */
  function SetDate(e: Editor, date: string): (r: Editor)
    ensures r.current.date == date && r.current.modules == e.current.modules
  {
    e.(current := e.current.(date := date))
  }

  /** The API call `saveBudget` makes. */
  datatype SaveCall = UpdateBudget(id: int, budget: Budget) | AddBudget(budget: Budget)

  /** `if (editingBudgetId)`: null and 0 are falsy. */
  predicate Editing(e: Editor)
  {
    e.editingId.Some? && Truthy(JInt(e.editingId.value))
  }

  /** The API call `saveBudget` makes: always with the current budget,
      an update only while editing. */
  function Save(e: Editor): (r: SaveCall)
    ensures r.budget == e.current
    ensures r.UpdateBudget? <==> Editing(e)
  {
    if Editing(e) then UpdateBudget(e.editingId.value, e.current) else AddBudget(e.current)
  }

  /** Whether `api.updateBudget` or `api.addBudget` resolved, or the
      message it rejected with. The refetch that follows catches its own
      errors and so cannot make the save fail. */
  datatype SaveOutcome = Saved | Failed(message: string)

  /** The rest of `saveBudget` once its call has finished. */
  function AfterSave(e: Editor, outcome: SaveOutcome, today: string): (r: Editor)
    ensures outcome.Saved? ==> !Editing(r) && r.current.modules == [] && r.error.None?
    ensures outcome.Failed? ==> r.current == e.current && r.editingId == e.editingId && r.error.Some?
  {
    match outcome
    case Saved => Editor(Blank(today), None, None)
    case Failed(message) => e.(error := Some("Error al guardar el presupuesto: " + message))
  }

  /** `editBudget`: load a saved budget and remember its id. */
  function EditBudget(e: Editor, b: Budget): (r: Editor)
    ensures r.current == b && (Editing(r) <==> b.id != 0)
  {
    e.(current := b, editingId := Some(b.id))
  }

  // ---------------------------------------------------------------------

  /** Adding appends one copy of the module with `units = 1`; earlier lines,
      the other budget fields and the editing id are unchanged. */
  lemma AddModuleAppends(e: Editor, m: Module)
    ensures var r := AddModule(e, m);
            var before := e.current.modules;
            && |r.current.modules| == |before| + 1
            && r.current.modules[..|before|] == before
            && r.current.modules[|before|] == m.(units := 1)
            && r.current.modules[|before|].units == 1
            && r.current.(modules := before) == e.current
            && r.editingId == e.editingId
  {
    assert (e.current.modules + [m.(units := 1)])[..|e.current.modules|] == e.current.modules;
  }

  /** The filter keeps exactly the lines whose id differs, and drops as
      many lines as carry the id. */
  lemma {:induction false} WithoutModuleExactly(ms: seq<Module>, moduleId: int)
    ensures forall x :: x in WithoutModule(ms, moduleId) ==> x in ms && x.id != moduleId
    ensures forall x :: x in ms && x.id != moduleId ==> x in WithoutModule(ms, moduleId)
    ensures |WithoutModule(ms, moduleId)| == |ms| - Lines(ms, moduleId)
    decreases |ms|
  {
    if |ms| > 0 {
      WithoutModuleExactly(ms[1..], moduleId);
      assert ms == [ms[0]] + ms[1..];
    }
  }

  /** Filtering a concatenation filters each part. */
  lemma {:induction false} WithoutModuleDistributes(a: seq<Module>, b: seq<Module>, moduleId: int)
    ensures WithoutModule(a + b, moduleId) == WithoutModule(a, moduleId) + WithoutModule(b, moduleId)
    decreases |a|
  {
    if |a| == 0 {
      assert a + b == b;
    } else {
      assert (a + b)[0] == a[0];
      assert (a + b)[1..] == a[1..] + b;
      WithoutModuleDistributes(a[1..], b, moduleId);
    }
  }

  /** Removing deletes every line with the id, keeps the rest in order,
      and leaves the other budget fields alone. */
  lemma RemoveModuleRemovesAll(e: Editor, moduleId: int, m: Module)
    ensures var r := RemoveModule(e, moduleId);
            && (forall x :: x in r.current.modules ==> x.id != moduleId)
            && (forall x :: x in e.current.modules && x.id != moduleId ==> x in r.current.modules)
            && r.current.(modules := e.current.modules) == e.current
    ensures RemoveModule(AddModule(e, m), moduleId).current.modules ==
              RemoveModule(e, moduleId).current.modules + (if m.id == moduleId then [] else [m.(units := 1)])
  {
    WithoutModuleExactly(e.current.modules, moduleId);
    WithoutModuleDistributes(e.current.modules, [m.(units := 1)], moduleId);
  }

  /** Updating units leaves at least one unit on every line with the id,
      changes nothing else on those lines, and leaves every other line and
      the length unchanged. */
  lemma UpdateUnitsClamps(e: Editor, moduleId: int, units: int)
    ensures var r := UpdateModuleUnits(e, moduleId, units).current;
            var before := e.current.modules;
            && |r.modules| == |before|
            && (forall i :: 0 <= i < |before| && before[i].id == moduleId ==>
                  r.modules[i].units >= 1 && r.modules[i].units >= units &&
                  (r.modules[i].units == 1 || r.modules[i].units == units) &&
                  r.modules[i].(units := before[i].units) == before[i])
            && (forall i :: 0 <= i < |before| && before[i].id != moduleId ==> r.modules[i] == before[i])
            && r.(modules := before) == e.current
  {
  }

  /** Every line of the budget being edited has at least one unit. */
  predicate UnitsPositive(e: Editor)
  {
    forall i :: 0 <= i < |e.current.modules| ==> e.current.modules[i].units >= 1
  }

  /** Adding, removing and updating lines all keep every line at one unit
      or more, whatever units the input field sends. */
  lemma {:induction false} EditsKeepUnitsPositive(e: Editor, m: Module, moduleId: int, units: int)
    requires UnitsPositive(e)
    ensures UnitsPositive(AddModule(e, m))
    ensures UnitsPositive(RemoveModule(e, moduleId))
    ensures UnitsPositive(UpdateModuleUnits(e, moduleId, units))
  {
    WithoutModuleExactly(e.current.modules, moduleId);
    UpdateUnitsClamps(e, moduleId, units);
  }

  /** The client and date handlers change only `clientId` or `date`. */
  lemma SettersChangeOneField(e: Editor, clientId: int, date: string)
    ensures var r := SetClient(e, clientId);
            && r.current.clientId == clientId
            && r.current.(clientId := e.current.clientId) == e.current
            && r.editingId == e.editingId && r.error == e.error
    ensures var r := SetDate(e, date);
            && r.current.date == date
            && r.current.(date := e.current.date) == e.current
            && r.editingId == e.editingId && r.error == e.error
  {
  }

  /** Save updates exactly when `editingBudgetId` is non-null and non-zero,
      sending the current budget under that id; otherwise it adds the
      current budget. */
  lemma SaveDispatch(e: Editor)
    ensures Save(e).UpdateBudget? <==> e.editingId.Some? && e.editingId.value != 0
    ensures Save(e).budget == e.current
    ensures Save(e).UpdateBudget? ==> Save(e).id == e.editingId.value
  {
  }

  /** After a successful save the editor is blank again (id 0, client 0,
      today's date, no lines) and no longer editing; after a failure only
      the error banner changes. */
  lemma AfterSaveResets(e: Editor, outcome: SaveOutcome, today: string)
    ensures outcome.Saved? ==>
              && AfterSave(e, outcome, today).current == Budget(0, 0, today, [])
              && AfterSave(e, outcome, today).editingId.None?
              && !Editing(AfterSave(e, outcome, today))
    ensures outcome.Failed? ==>
              && AfterSave(e, outcome, today).current == e.current
              && AfterSave(e, outcome, today).editingId == e.editingId
              && AfterSave(e, outcome, today).error == Some("Error al guardar el presupuesto: " + outcome.message)
  {
  }

  /** Editing a saved budget loads it and remembers its id, so its save is
      an update of that id; a budget with id 0, the id a new budget
      carries, is added again instead. */
  lemma EditThenSave(e: Editor, b: Budget)
    ensures EditBudget(e, b).current == b && EditBudget(e, b).editingId == Some(b.id)
    ensures b.id != 0 ==> Save(EditBudget(e, b)) == UpdateBudget(b.id, b)
    ensures b.id == 0 ==> Save(EditBudget(e, b)) == AddBudget(b)
    ensures Save(EditBudget(e, Blank(""))).AddBudget?
    ensures Save(Initial("")).AddBudget?
  {
  }
}
