/** The question list of the quiz mode: one title and answer list per question, and the array
    of selections the page reports upwards, one entry per question. */
module QuestionPoints {
  import opened Wrappers
  import opened BulletPoint

  datatype Question = Question(question: string, variants: seq<string>, correctVariant: Option<int>,
                               selectedVariant: Option<int>)

  /** A selections entry; `None` is an empty slot of the JavaScript array. */
  type Slot = Option<int>

  /** `Array(questions ? questions.length : 0).fill(-1)`, the initial state and the reset on
      every change of the questions. */
  function InitialSelections(questions: Option<seq<Question>>): (r: seq<Slot>)
    ensures |r| == if questions.Some? then |questions.value| else 0
    ensures forall i :: 0 <= i < |r| ==> r[i] == Some(NoSelection)
  {
    seq(if questions.Some? then |questions.value| else 0, _ => Some(NoSelection))
  }

  /** The answer list of question `index` reports `selected`: the array is copied and entry
      `index` written; writing past the end grows the array with empty slots. */
  function UpdateSelection(selections: seq<Slot>, index: nat, selected: int): (r: seq<Slot>)
    ensures |r| == if index < |selections| then |selections| else index + 1
    ensures r[index] == Some(selected)
    ensures forall j :: 0 <= j < |selections| && j != index ==> r[j] == selections[j]
    ensures forall j :: |selections| <= j < index ==> r[j].None?
  {
    if index < |selections| then selections[index := Some(selected)]
    else selections + seq(index - |selections|, _ => None) + [Some(selected)]
  }

  /** Reports from two different questions in separate commits, each made by a callback of the
      render that followed the previous one, do not interfere: their order does not matter. */
  lemma UpdatesCommute(selections: seq<Slot>, i: nat, a: int, j: nat, b: int)
    requires i != j && i < |selections| && j < |selections|
    ensures UpdateSelection(UpdateSelection(selections, i, a), j, b) ==
            UpdateSelection(UpdateSelection(selections, j, b), i, a)
  {
  }

  /** Reports made in one commit: every `onChanged` callback of one render copies that render's
      `selections` (`rendered`) and hands the whole copy to `setSelections`, so each report
      replaces the state with its own copy. */
  function ApplyBatch(state: seq<Slot>, rendered: seq<Slot>, reports: seq<(nat, int)>): seq<Slot>
    decreases |reports|
  {
    if reports == [] then state
    else ApplyBatch(UpdateSelection(rendered, reports[0].0, reports[0].1), rendered, reports[1..])
  }

  /** Of the reports made in one commit only the last survives: the state is the rendered array
      with that one report written. */
  lemma {:induction false} BatchKeepsLast(state: seq<Slot>, rendered: seq<Slot>, reports: seq<(nat, int)>)
    requires reports != []
    ensures ApplyBatch(state, rendered, reports) ==
            UpdateSelection(rendered, reports[|reports| - 1].0, reports[|reports| - 1].1)
    decreases |reports|
  {
    if |reports| > 1 {
      BatchKeepsLast(UpdateSelection(rendered, reports[0].0, reports[0].1), rendered, reports[1..]);
    }
  }

  /** So when two questions report in the same commit, the earlier question's entry keeps its
      rendered value; made in separate commits, both reports land. */
  lemma SameCommitLosesEarlier(rendered: seq<Slot>, i: nat, a: int, j: nat, b: int)
    requires i != j && i < |rendered| && j < |rendered|
    ensures |ApplyBatch(rendered, rendered, [(i, a), (j, b)])| == |rendered| &&
            ApplyBatch(rendered, rendered, [(i, a), (j, b)])[i] == rendered[i]
    ensures UpdateSelection(UpdateSelection(rendered, i, a), j, b)[i] == Some(a)
  {
    BatchKeepsLast(rendered, rendered, [(i, a), (j, b)]);
  }

  /** A later report from the same question replaces the earlier one. */
  lemma LaterUpdateWins(selections: seq<Slot>, i: nat, a: int, b: int)
    ensures UpdateSelection(UpdateSelection(selections, i, a), i, b) == UpdateSelection(selections, i, b)
  {
    var once := UpdateSelection(selections, i, a);
    var twice := UpdateSelection(once, i, b);
    var direct := UpdateSelection(selections, i, b);
    assert |twice| == |direct|;
    forall k | 0 <= k < |twice|
      ensures twice[k] == direct[k]
    {
      if k != i && k < |selections| {
        assert twice[k] == once[k] == selections[k];
      }
    }
  }

  /** Reports into the freshly reset array keep its length and touch only their own entry. */
  lemma UpdateAfterReset(questions: seq<Question>, index: nat, selected: int)
    requires index < |questions|
    ensures var r := UpdateSelection(InitialSelections(Some(questions)), index, selected);
      |r| == |questions| && r[index] == Some(selected) &&
      forall j :: 0 <= j < |r| && j != index ==> r[j] == Some(NoSelection)
  {
  }

  /** The "There are no questions" placeholder is shown for undefined or empty questions. */
  function ShowsPlaceholder(questions: Option<seq<Question>>): (b: bool)
    ensures b <==> questions.None? || |questions.value| == 0
  {
    questions.None? || |questions.value| == 0
  }

  /** The title's colour: none until the correct answer is known, then green for a selection
      equal to it and red otherwise. */
  function TitleColor(q: Question): (c: Option<string>)
    ensures q.correctVariant.None? ==> c.None?
    ensures q.correctVariant.Some? ==> c == Some(if q.selectedVariant == q.correctVariant then Green else Red)
  {
    if q.correctVariant.Some? then Some(if q.selectedVariant == q.correctVariant then Green else Red)
    else None
  }

  /** A revealed question's title and its correct bullet agree: both green when the given
      selection was right, and the title red exactly when the correct bullet is blue. */
  lemma TitleAgreesWithBullets(q: Question, selectedBullet: int)
    requires q.correctVariant.Some?
    ensures var bullet := Color(q.correctVariant.value, q.correctVariant, q.selectedVariant, selectedBullet);
      (TitleColor(q) == Some(Green) <==> bullet == Green) &&
      (TitleColor(q) == Some(Red) <==> bullet == Blue)
  {
  }
}
