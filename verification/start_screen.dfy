/**
 * The start form (components/StartScreen.tsx): the three inputs it keeps,
 * and the submit handler that turns them into the first game state.
 */
module StartScreen {
  import opened Types
  import Constants
  import Progression

  /** What the form holds: parent name, child name, gender. */
  datatype Form = Form(parentName: string, childName: string, childGender: Gender)

  /** Both names empty, gender preset to boy. */
  function InitialForm(): Form {
    Form("", "", Boy)
  }

  /** One user edit to the form. */
  datatype FormEdit =
    | ParentNameTyped(parentName: string)
    | ChildNameTyped(childName: string)
    | GenderPicked(gender: Gender)

  /** One input's `onChange` (or a gender button's `onClick`): that field is replaced, the others kept. */
  function Edit(f: Form, e: FormEdit): (r: Form)
    ensures e.ParentNameTyped? ==> r == Form(e.parentName, f.childName, f.childGender)
    ensures e.ChildNameTyped? ==> r == Form(f.parentName, e.childName, f.childGender)
    ensures e.GenderPicked? ==> r == Form(f.parentName, f.childName, e.gender)
  {
    match e
    case ParentNameTyped(n) => f.(parentName := n)
    case ChildNameTyped(n) => f.(childName := n)
    case GenderPicked(g) => f.(childGender := g)
  }

  /** The form after the edits, applied first to last. */
  function EditAll(f: Form, edits: seq<FormEdit>): (r: Form)
    ensures (forall i :: 0 <= i < |edits| ==> !edits[i].GenderPicked?) ==> r.childGender == f.childGender
    ensures (forall i :: 0 <= i < |edits| ==> !edits[i].ParentNameTyped?) ==> r.parentName == f.parentName
    ensures (forall i :: 0 <= i < |edits| ==> !edits[i].ChildNameTyped?) ==> r.childName == f.childName
    decreases |edits|
  {
    if |edits| == 0 then f else EditAll(Edit(f, edits[0]), edits[1..])
  }

  /** The last gender picked in `edits`, or `dflt` when none was. */
  function LastPicked(edits: seq<FormEdit>, dflt: Gender): Gender
    decreases |edits|
  {
    if |edits| == 0 then dflt
    else
      match edits[|edits| - 1]
      case GenderPicked(g) => g
      case _ => LastPicked(edits[..|edits| - 1], dflt)
  }

  lemma {:induction false} EditAllSnoc(f: Form, edits: seq<FormEdit>, e: FormEdit)
    ensures EditAll(f, edits + [e]) == Edit(EditAll(f, edits), e)
    decreases |edits|
  {
    if |edits| == 0 {
      assert edits + [e] == [e];
      assert [e][1..] == [];
    } else {
      assert (edits + [e])[0] == edits[0];
      assert (edits + [e])[1..] == edits[1..] + [e];
      EditAllSnoc(Edit(f, edits[0]), edits[1..], e);
    }
  }

  lemma {:induction false} GenderIsLastPickedFrom(f: Form, edits: seq<FormEdit>)
    ensures EditAll(f, edits).childGender == LastPicked(edits, f.childGender)
    decreases |edits|
  {
    if |edits| > 0 {
      var init := edits[..|edits| - 1];
      var e := edits[|edits| - 1];
      assert edits == init + [e];
      EditAllSnoc(f, init, e);
      GenderIsLastPickedFrom(f, init);
    }
  }

  /** The gender on the form is always the last one picked, and boy if none was. */
  lemma GenderIsLastPicked(edits: seq<FormEdit>)
    ensures EditAll(InitialForm(), edits).childGender == LastPicked(edits, Boy)
  {
    GenderIsLastPickedFrom(InitialForm(), edits);
  }

  /** `handleSubmit`: nothing when a name is empty, otherwise the first game state. */
  function HandleSubmit(f: Form): (r: Option<GameState>)
    ensures r.None? <==> f.parentName == "" || f.childName == ""
    ensures r.Some? ==> r.value.playerName == f.parentName
    ensures r.Some? ==> r.value.childName == f.childName
    ensures r.Some? ==> r.value.childGender == f.childGender
    ensures r.Some? ==> r.value.age == 0 && r.value.stage == Infant
    ensures r.Some? ==> r.value.stats == Constants.InitialStats
    ensures r.Some? ==> r.value.history == [] && !r.value.isGameOver
  {
    if f.parentName == "" || f.childName == "" then None
    else
      Some(GameState(
        f.parentName,
        f.childName,
        f.childGender,
        0,
        Infant,
        Constants.InitialStats,
        [],
        false))
  }

  /** The first game state already has the stage that the age table gives age 0. */
  lemma SubmitStartsInBand(f: Form)
    requires HandleSubmit(f).Some?
    ensures Progression.InBand(HandleSubmit(f).value.age, HandleSubmit(f).value.stage)
  {
  }
}
