/** The answer list of a question: one bullet per choice, the selected one filled, and once
    the correct answer is revealed the correct choice and a wrong selection coloured. The
    selection is the component's state; clicks and the reset effect are transitions on it. */
module BulletPoint {
  import opened Wrappers

  datatype ListStyle = Disc | Circle

  const Green: string := "#46C36C"
  const Blue: string := "#00A7CC"
  const Red: string := "#D61F34"
  const DefaultColor: string := "var(--textColor)"

  /** No choice is selected. */
  const NoSelection: int := -1

  /** `getListStyleType`: a filled bullet exactly for the selected choice. */
  function ListStyleType(index: int, selectedBullet: int): (s: ListStyle)
    ensures s == Disc <==> index == selectedBullet
  {
    if index == selectedBullet then Disc else Circle
  }

  /** `getColor`. The correct choice is green when the `selectedVariant` prop (not the clicked
      selection) equals it, blue otherwise; the selected choice is red when it is wrong. */
  function Color(index: int, correctVariant: Option<int>, selectedVariant: Option<int>, selectedBullet: int)
    : (c: string)
    ensures correctVariant.None? ==> c == DefaultColor
    ensures correctVariant.Some? && index == correctVariant.value ==>
      c == if selectedVariant == correctVariant then Green else Blue
    ensures correctVariant.Some? && index != correctVariant.value ==>
      c == if index == selectedBullet then Red else DefaultColor
  {
    if correctVariant.Some? then
      if index == correctVariant.value then (if selectedVariant == correctVariant then Green else Blue)
      else if index == selectedBullet then Red
      else DefaultColor
    else DefaultColor
  }

  /** With the answer revealed, exactly the correct choice is green or blue. */
  lemma OneCorrectColour(index: int, correct: int, selectedVariant: Option<int>, selectedBullet: int)
    ensures Color(index, Some(correct), selectedVariant, selectedBullet) in {Green, Blue} <==> index == correct
  {
  }

  /** At most one choice is red, and only the clicked one. */
  lemma RedIsSelectedWrong(i: int, j: int, correctVariant: Option<int>, selectedVariant: Option<int>, selectedBullet: int)
    requires Color(i, correctVariant, selectedVariant, selectedBullet) == Red
    requires Color(j, correctVariant, selectedVariant, selectedBullet) == Red
    ensures i == j == selectedBullet && correctVariant.Some? && i != correctVariant.value
  {
  }

  /** Exactly one bullet is filled among the choices when the selection is one of them, none
      when it is -1. */
  lemma OneDisc(n: nat, selectedBullet: int, i: nat, j: nat)
    requires i < n && j < n
    requires ListStyleType(i, selectedBullet) == Disc && ListStyleType(j, selectedBullet) == Disc
    ensures i == j && selectedBullet == i
  {
  }

  /** A click: ignored once the correct answer is shown, else it selects the clicked choice. */
  function Clicked(selectedBullet: int, index: nat, correctVariant: Option<int>): (s: int)
    ensures correctVariant.Some? ==> s == selectedBullet
    ensures correctVariant.None? ==> s == index
  {
    if correctVariant.Some? then selectedBullet else index
  }

  /** The reset effect when the choices or `selectedVariant` change, and the initial state
      once mounted (the state starts at -1 and the effect runs after the first render). */
  function ResetSelection(selectedVariant: Option<int>): (s: int)
    ensures selectedVariant.None? ==> s == NoSelection
    ensures selectedVariant.Some? ==> s == selectedVariant.value
  {
    if selectedVariant.Some? then selectedVariant.value else NoSelection
  }

  /** A run of clicks. */
  function Clicks(selectedBullet: int, clicks: seq<nat>, correctVariant: Option<int>): int
    decreases |clicks|
  {
    if clicks == [] then selectedBullet
    else Clicks(Clicked(selectedBullet, clicks[0], correctVariant), clicks[1..], correctVariant)
  }

  /** Once the answer is revealed no run of clicks changes the selection. */
  lemma {:induction false} ClicksIgnoredOnceRevealed(selectedBullet: int, clicks: seq<nat>, correct: int)
    ensures Clicks(selectedBullet, clicks, Some(correct)) == selectedBullet
    decreases |clicks|
  {
    if clicks != [] {
      ClicksIgnoredOnceRevealed(selectedBullet, clicks[1..], correct);
    }
  }

  /** Before it is revealed the last click wins. */
  lemma {:induction false} LastClickWins(selectedBullet: int, clicks: seq<nat>)
    requires clicks != []
    ensures Clicks(selectedBullet, clicks, None) == clicks[|clicks| - 1]
    decreases |clicks|
  {
    if |clicks| > 1 {
      LastClickWins(clicks[0], clicks[1..]);
    }
  }
}
