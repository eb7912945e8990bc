/**
 * The edit page's form state and what it does to it: normalising the
 * loaded ingredients, the list-editing buttons, the field edits, and the
 * cleaning done on submit before the update request is sent.
 */
module EditRecipe {
  import opened Wrappers
  import opened Identity
  import opened Text
  import opened Seqs
  import opened RecipeSchema

  /** An ingredient as read from a fetched recipe; `amount` is an older spelling of the quantity. */
  datatype LoadedIngredient = LoadedIngredient(name: Option<string>, amount: Option<string>, quantity: Option<string>, unit: Option<string>)

  /** An ingredient row of the form: three plain strings. */
  datatype FormIngredient = FormIngredient(name: string, quantity: string, unit: string)

  /** The `recipe` state of the page. `userId` is carried along by the spread of the fetched recipe. */
  datatype Form = Form(name: string, cuisine: string, ingredients: seq<FormIngredient>, instructions: seq<string>, userId: Option<UserId>)

  const BlankIngredient := FormIngredient("", "", "")

  /** The state before the fetch completes: one blank ingredient and one empty step. */
  const InitialForm := Form("", "", [BlankIngredient], [""], None)

  /** A stored ingredient as the page reads it: the schema has no `amount`, so it is absent. */
  function Loaded(i: Ingredient): (l: LoadedIngredient)
    ensures l.amount.None? && l.name == i.name && l.quantity == i.quantity && l.unit == i.unit
  {
    LoadedIngredient(i.name, None, i.quantity, i.unit)
  }

  /** One row of the fetched recipe's ingredients, with every missing or empty field made `''`. */
  function Normalize(ing: LoadedIngredient): (f: FormIngredient)
    ensures Truthy(ing.name) ==> f.name == ing.name.value
    ensures !Truthy(ing.name) ==> f.name == ""
    ensures Truthy(ing.amount) ==> f.quantity == ing.amount.value
    ensures !Truthy(ing.amount) && Truthy(ing.quantity) ==> f.quantity == ing.quantity.value
    ensures !Truthy(ing.amount) && !Truthy(ing.quantity) ==> f.quantity == ""
    ensures Truthy(ing.unit) ==> f.unit == ing.unit.value
    ensures !Truthy(ing.unit) ==> f.unit == ""
  {
    FormIngredient(OrElse(ing.name, ""), OrElse(ing.amount, OrElse(ing.quantity, "")), OrElse(ing.unit, ""))
  }

  function NormalizeAll(ings: seq<LoadedIngredient>): (r: seq<FormIngredient>)
    ensures |r| == |ings|
    ensures forall k :: 0 <= k < |ings| ==> r[k] == Normalize(ings[k])
  {
    seq(|ings|, k requires 0 <= k < |ings| => Normalize(ings[k]))
  }

  /** For data from the server the `amount` fallback never applies: the quantity is the stored one. */
  lemma StoredIngredientNormalizes(i: Ingredient)
    ensures Normalize(Loaded(i)) == FormIngredient(OrElse(i.name, ""), OrElse(i.quantity, ""), OrElse(i.unit, ""))
  {
  }

  /** The form filled from a fetched recipe: its fields, with the ingredients normalised. */
  function LoadForm(r: Recipe): (f: Form)
    ensures f.name == r.name && f.cuisine == r.cuisine && f.instructions == r.instructions
    ensures f.userId == Some(r.userId)
    ensures |f.ingredients| == |r.ingredients|
    ensures forall k :: 0 <= k < |r.ingredients| ==> f.ingredients[k] == Normalize(Loaded(r.ingredients[k]))
  {
    Form(r.name, r.cuisine, NormalizeAll(seq(|r.ingredients|, k requires 0 <= k < |r.ingredients| => Loaded(r.ingredients[k]))),
         r.instructions, Some(r.userId))
  }

  /** An ingredient row the submit keeps: its name is not blank. */
  predicate Named(ing: FormIngredient) {
    !IsBlank(ing.name)
  }

  /** A step the submit keeps: it is not blank. */
  predicate NonBlank(step: string) {
    !IsBlank(step)
  }

  /** `{ name, quantity, unit }` of a row: the three fields and nothing else. */
  function Stored(ing: FormIngredient): (i: Ingredient)
    ensures i.name == Some(ing.name) && i.quantity == Some(ing.quantity) && i.unit == Some(ing.unit)
  {
    Ingredient(Some(ing.name), Some(ing.quantity), Some(ing.unit))
  }

  function AsStored(ings: seq<FormIngredient>): (r: seq<Ingredient>)
    ensures |r| == |ings|
    ensures forall k :: 0 <= k < |ings| ==> r[k] == Stored(ings[k])
  {
    seq(|ings|, k requires 0 <= k < |ings| => Stored(ings[k]))
  }

  /** Submit's ingredients: the rows with a non-blank name, in order, as name, quantity and unit only. */
  function CleanIngredients(ings: seq<FormIngredient>): (r: seq<Ingredient>)
    ensures |r| <= |ings|
    ensures forall k :: 0 <= k < |r| ==> r[k].name.Some? && !IsBlank(r[k].name.value) && r[k].quantity.Some? && r[k].unit.Some?
  {
    AsStored(Keep(ings, Named))
  }

  /** Submit's instructions: the non-blank steps, in order. */
  function CleanInstructions(steps: seq<string>): (r: seq<string>)
    ensures |r| <= |steps|
    ensures forall k :: 0 <= k < |r| ==> !IsBlank(r[k])
  {
    Keep(steps, NonBlank)
  }

  /** Cleaning works row by row: cleaning a concatenation cleans each part. */
  lemma CleanIngredientsAppend(a: seq<FormIngredient>, b: seq<FormIngredient>)
    ensures CleanIngredients(a + b) == CleanIngredients(a) + CleanIngredients(b)
  {
    KeepAppend(a, b, Named);
    AsStoredAppend(Keep(a, Named), Keep(b, Named));
  }

  lemma AsStoredAppend(x: seq<FormIngredient>, y: seq<FormIngredient>)
    ensures AsStored(x + y) == AsStored(x) + AsStored(y)
  {
    var l, r := AsStored(x + y), AsStored(x) + AsStored(y);
    forall k | 0 <= k < |l|
      ensures l[k] == r[k]
    {
      if k < |x| {
        assert (x + y)[k] == x[k];
      } else {
        assert (x + y)[k] == y[k - |x|];
      }
    }
  }

  /** Rows and stored ingredients correspond one to one. */
  lemma AsStoredMembership(rows: seq<FormIngredient>, ing: FormIngredient)
    ensures Stored(ing) in AsStored(rows) <==> ing in rows
  {
    if Stored(ing) in AsStored(rows) {
      var k :| 0 <= k < |rows| && AsStored(rows)[k] == Stored(ing);
      assert rows[k] == ing;
    }
    if ing in rows {
      var k :| 0 <= k < |rows| && rows[k] == ing;
      assert AsStored(rows)[k] == Stored(ing);
    }
  }

  /** A row survives the submit exactly when its name is not blank. */
  lemma CleanIngredientsKeeps(ings: seq<FormIngredient>, ing: FormIngredient)
    ensures Stored(ing) in CleanIngredients(ings) <==> ing in ings && Named(ing)
  {
    KeepMembership(ings, Named, ing);
    AsStoredMembership(Keep(ings, Named), ing);
  }

  /** A step survives the submit exactly when it is not blank. */
  lemma CleanInstructionsKeeps(steps: seq<string>, step: string)
    ensures step in CleanInstructions(steps) <==> step in steps && !IsBlank(step)
  {
    KeepMembership(steps, NonBlank, step);
  }

  /** The body of the update request: the whole form, with both lists cleaned. */
  function Submission(form: Form): (body: RecipeInput)
    ensures body.name == Some(form.name) && body.cuisine == Some(form.cuisine)
    ensures body.ingredients == Some(CleanIngredients(form.ingredients))
    ensures body.instructions == Some(CleanInstructions(form.instructions))
    ensures body.userId == form.userId
  {
    RecipeInput(Some(form.name), Some(form.cuisine), Some(CleanIngredients(form.ingredients)),
                Some(CleanInstructions(form.instructions)), form.userId)
  }

  /** A stored ingredient with a non-blank name and a non-empty quantity and unit. */
  predicate Complete(i: Ingredient) {
    Truthy(i.name) && !IsBlank(i.name.value) && Truthy(i.quantity) && Truthy(i.unit)
  }

  /** A complete ingredient survives loading and cleaning unchanged. */
  lemma CompleteIngredientRoundTrip(i: Ingredient)
    requires Complete(i)
    ensures Named(Normalize(Loaded(i))) && Stored(Normalize(Loaded(i))) == i
  {
  }

  /**
   * Opening a recipe and submitting it untouched sends back its content
   * unchanged, provided every ingredient is complete and no step is blank.
   */
  lemma LoadSubmitRoundTrip(r: Recipe)
    requires forall k :: 0 <= k < |r.ingredients| ==> Complete(r.ingredients[k])
    requires forall k :: 0 <= k < |r.instructions| ==> !IsBlank(r.instructions[k])
    ensures Submission(LoadForm(r)).ingredients == Some(r.ingredients)
    ensures Submission(LoadForm(r)).instructions == Some(r.instructions)
  {
    LoadedIngredientsRoundTrip(r);
    KeepEverything(r.instructions, NonBlank);
  }

  lemma LoadedIngredientsRoundTrip(r: Recipe)
    requires forall k :: 0 <= k < |r.ingredients| ==> Complete(r.ingredients[k])
    ensures CleanIngredients(LoadForm(r).ingredients) == r.ingredients
  {
    var rows := LoadForm(r).ingredients;
    forall k | 0 <= k < |rows| ensures Named(rows[k]) && Stored(rows[k]) == r.ingredients[k] {
      CompleteIngredientRoundTrip(r.ingredients[k]);
    }
    KeepEverything(rows, Named);
    assert AsStored(rows) == r.ingredients;
  }

  /** Filtering by a predicate every element satisfies changes nothing. */
  lemma {:induction false} KeepEverything<T>(s: seq<T>, p: T -> bool)
    requires forall k :: 0 <= k < |s| ==> p(s[k])
    ensures Keep(s, p) == s
  {
    if s != [] {
      KeepEverything(s[1..], p);
    }
  }

  /** "Add Ingredient": one blank row at the end; nothing else changes. */
  function AddIngredient(form: Form): (f: Form)
    ensures |f.ingredients| == |form.ingredients| + 1
    ensures f.ingredients[..|form.ingredients|] == form.ingredients && f.ingredients[|form.ingredients|] == BlankIngredient
    ensures f.(ingredients := form.ingredients) == form
  {
    form.(ingredients := form.ingredients + [BlankIngredient])
  }

  /** "Delete" on row `index`: that row goes, the others keep their order; nothing else changes. */
  function DeleteIngredient(form: Form, index: int): (f: Form)
    ensures f.ingredients == RemoveAt(form.ingredients, index)
    ensures f.(ingredients := form.ingredients) == form
  {
    form.(ingredients := RemoveAt(form.ingredients, index))
  }

  /** Deleting the row just added restores the form. */
  lemma AddThenDeleteIngredient(form: Form)
    ensures DeleteIngredient(AddIngredient(form), |form.ingredients|) == form
  {
    AppendThenRemoveLast(form.ingredients, BlankIngredient);
  }

  /** Which input of an ingredient row an edit comes from. */
  datatype Field = NameField | QuantityField | UnitField

  /** Typing into one input of row `index`: that one field of that row changes. */
  function EditIngredient(form: Form, index: int, field: Field, value: string): (f: Form)
    requires 0 <= index < |form.ingredients|
    ensures |f.ingredients| == |form.ingredients|
    ensures forall k :: 0 <= k < |form.ingredients| && k != index ==> f.ingredients[k] == form.ingredients[k]
    ensures field == NameField ==> f.ingredients[index] == form.ingredients[index].(name := value)
    ensures field == QuantityField ==> f.ingredients[index] == form.ingredients[index].(quantity := value)
    ensures field == UnitField ==> f.ingredients[index] == form.ingredients[index].(unit := value)
    ensures f.(ingredients := form.ingredients) == form
  {
    var row := form.ingredients[index];
    var edited := match field
      case NameField => row.(name := value)
      case QuantityField => row.(quantity := value)
      case UnitField => row.(unit := value);
    form.(ingredients := form.ingredients[index := edited])
  }

  /** Typing into step `index`: that step changes, nothing else does. */
  function EditInstruction(form: Form, index: int, value: string): (f: Form)
    requires 0 <= index < |form.instructions|
    ensures |f.instructions| == |form.instructions| && f.instructions[index] == value
    ensures forall k :: 0 <= k < |form.instructions| && k != index ==> f.instructions[k] == form.instructions[k]
    ensures f.(instructions := form.instructions) == form
  {
    form.(instructions := form.instructions[index := value])
  }

  /** "Add Instruction": one empty step at the end. */
  function AddInstruction(form: Form): (f: Form)
    ensures |f.instructions| == |form.instructions| + 1
    ensures f.instructions[..|form.instructions|] == form.instructions && f.instructions[|form.instructions|] == ""
    ensures f.(instructions := form.instructions) == form
  {
    form.(instructions := form.instructions + [""])
  }

  /** "×" on step `index`: that step goes, the others keep their order. */
  function RemoveInstruction(form: Form, index: int): (f: Form)
    ensures f.instructions == RemoveAt(form.instructions, index)
    ensures f.(instructions := form.instructions) == form
  {
    form.(instructions := RemoveAt(form.instructions, index))
  }

  /** Removing the step just added restores the form. */
  lemma AddThenRemoveInstruction(form: Form)
    ensures RemoveInstruction(AddInstruction(form), |form.instructions|) == form
  {
    AppendThenRemoveLast(form.instructions, "");
  }

  /** The up button of step `index` is enabled, i.e. it is not the first step. */
  predicate CanMoveUp(form: Form, index: int) {
    0 < index < |form.instructions|
  }

  /** The down button of step `index` is enabled, i.e. it is not the last step. */
  predicate CanMoveDown(form: Form, index: int) {
    0 <= index < |form.instructions| - 1
  }

  /**
   * `moveInstruction(index, direction)`: on a copy of the steps, exchange
   * position `index` with its neighbour through a temporary. Only called
   * from an enabled arrow button.
   */
  method MoveInstruction(form: Form, index: int, direction: int) returns (moved: Form)
    requires (direction == -1 && CanMoveUp(form, index)) || (direction == 1 && CanMoveDown(form, index))
    ensures moved == form.(instructions := Swap(form.instructions, index, index + direction))
  {
    var steps := new string[|form.instructions|](k requires 0 <= k < |form.instructions| => form.instructions[k]);
    var temp := steps[index];
    steps[index] := steps[index + direction];
    steps[index + direction] := temp;
    moved := form.(instructions := steps[..]);
  }

  /** Moving a step down and then moving it back up restores the steps. */
  lemma MoveDownThenUp(form: Form, index: int)
    requires CanMoveDown(form, index)
    ensures var down := form.(instructions := Swap(form.instructions, index, index + 1));
      && CanMoveUp(down, index + 1)
      && down.(instructions := Swap(down.instructions, index + 1, index)) == form
  {
    var down := Swap(form.instructions, index, index + 1);
    assert Swap(down, index + 1, index) == form.instructions;
  }
}
