/**
 * The recipe card: one ingredient as display text and the three-ingredient
 * preview.
 */
module RecipeCard {
  import opened Wrappers
  import opened Text
  import opened RecipeSchema

  /** A quantity or unit is displayed when it is present, not `''` and not `'1'`. */
  predicate Shown(part: Option<string>) {
    Truthy(part) && part.value != "1"
  }

  /** A displayed part followed by its separating space, or nothing. */
  function Lead(part: Option<string>): (r: string)
    ensures Shown(part) ==> r == part.value + " "
    ensures !Shown(part) ==> r == ""
  {
    if Shown(part) then part.value + " " else ""
  }

  /** The `parts` array `formatIngredient` builds by successive pushes. */
  function Parts(ing: Ingredient): seq<string> {
    var parts := [];
    var parts := if Shown(ing.quantity) then parts + [ing.quantity.value] else parts;
    var parts := if Shown(ing.unit) then parts + [ing.unit.value] else parts;
    parts + [ing.name.GetOr("")]
  }

  /** Joining the parts with single spaces puts one space after each shown quantity or unit. */
  lemma JoinParts(ing: Ingredient)
    ensures Join(Parts(ing), " ") == Lead(ing.quantity) + Lead(ing.unit) + ing.name.GetOr("")
  {
    var name := ing.name.GetOr("");
    if Shown(ing.unit) {
      JoinCons(ing.unit.value, [name], " ");
    }
    var tail := if Shown(ing.unit) then [ing.unit.value, name] else [name];
    assert Join(tail, " ") == Lead(ing.unit) + name;
    if Shown(ing.quantity) {
      JoinCons(ing.quantity.value, tail, " ");
      assert Parts(ing) == [ing.quantity.value] + tail;
    } else {
      assert Parts(ing) == tail;
    }
  }

  /**
   * `formatIngredient`: the shown quantity, the shown unit and the name, in
   * that order, joined with single spaces. A missing name joins as `''`.
   */
  function FormatIngredient(ing: Ingredient): (r: string)
    ensures r == Lead(ing.quantity) + Lead(ing.unit) + ing.name.GetOr("")
  {
    JoinParts(ing);
    Join(Parts(ing), " ")
  }

  /** The text always ends with the name, and is the bare name when neither quantity nor unit is shown. */
  lemma NameComesLast(ing: Ingredient)
    ensures var text := FormatIngredient(ing); var name := ing.name.GetOr("");
      && |name| <= |text| && text[|text| - |name|..] == name
      && (!Shown(ing.quantity) && !Shown(ing.unit) ==> text == name)
  {
  }

  function FormatAll(ings: seq<Ingredient>): (r: seq<string>)
    ensures |r| == |ings|
    ensures forall k :: 0 <= k < |ings| ==> r[k] == FormatIngredient(ings[k])
  {
    seq(|ings|, k requires 0 <= k < |ings| => FormatIngredient(ings[k]))
  }

  /** The preview holds at most three ingredients. */
  const PreviewSize := 3

  /**
   * The ingredient preview: the first three ingredients (or fewer) formatted
   * and joined with `", "`, followed by `"..."` when there are more than three.
   */
  function Preview(ings: seq<Ingredient>): (r: string)
    ensures |ings| <= PreviewSize ==> r == Join(FormatAll(ings), ", ")
    ensures |ings| > PreviewSize ==> r == Join(FormatAll(ings[..PreviewSize]), ", ") + "..."
  {
    var shown := if |ings| <= PreviewSize then ings else ings[..PreviewSize];
    Join(FormatAll(shown), ", ") + (if |ings| > PreviewSize then "..." else "")
  }

  /** A preview of at most three ingredients lists each formatted ingredient, in order. */
  lemma {:induction false} PreviewListsAll(ings: seq<Ingredient>)
    requires 1 <= |ings| <= PreviewSize
    ensures |ings| == 1 ==> Preview(ings) == FormatIngredient(ings[0])
    ensures |ings| == 2 ==> Preview(ings) == FormatIngredient(ings[0]) + ", " + FormatIngredient(ings[1])
    ensures |ings| == 3 ==> Preview(ings) == FormatIngredient(ings[0]) + ", " + FormatIngredient(ings[1]) + ", " + FormatIngredient(ings[2])
  {
    var texts := FormatAll(ings);
    if |ings| == 2 {
      assert texts == [texts[0], texts[1]];
      JoinTwo(texts[0], texts[1], ", ");
    } else if |ings| == 3 {
      assert texts == [texts[0], texts[1], texts[2]];
      JoinThree(texts[0], texts[1], texts[2], ", ");
    }
  }
}
