/** The scroll position of the popular-dishes strip on the home page
    (src/components/PopularDishes.tsx): a counter that the two scroll handlers move and keep
    between the first and the last dish. The page defines the handlers but attaches neither to an
    element and never renders the position, so the model is of the handlers as written. */
module PopularDishes {

  /** The number of dishes in the strip. */
  const DishCount := 4

  /** `scrollLeft`: one dish back unless already at the first. */
  function ScrollLeft(position: int): (r: int)
    ensures position > 0 ==> r == position - 1
    ensures position <= 0 ==> r == position
  {
    if position > 0 then position - 1 else position
  }

  /** `scrollRight`: one dish on unless already at the last. */
  function ScrollRight(position: int, length: int): (r: int)
    ensures position < length - 1 ==> r == position + 1
    ensures position >= length - 1 ==> r == position
  {
    if position < length - 1 then position + 1 else position
  }

  /** A right scroll that moved is undone by a left scroll. */
  lemma LeftUndoesRight(position: int, length: int)
    requires 0 <= position < length - 1
    ensures ScrollLeft(ScrollRight(position, length)) == position
  {
  }

  datatype Scroll = Left | Right

  function Apply(position: int, length: int, s: Scroll): int {
    match s
    case Left => ScrollLeft(position)
    case Right => ScrollRight(position, length)
  }

  function Run(position: int, length: int, scrolls: seq<Scroll>): int
    decreases |scrolls|
  {
    if |scrolls| == 0 then position else Run(Apply(position, length, scrolls[0]), length, scrolls[1..])
  }

  /** No sequence of handler calls takes the position past either end; right scrolls alone
      reach the last dish and stop there. */
  lemma {:induction false} RunStaysInRange(position: int, length: int, scrolls: seq<Scroll>)
    requires length >= 1 && 0 <= position <= length - 1
    ensures 0 <= Run(position, length, scrolls) <= length - 1
    ensures (forall i :: 0 <= i < |scrolls| ==> scrolls[i] == Right) ==>
              Run(position, length, scrolls) == if position + |scrolls| < length - 1 then position + |scrolls| else length - 1
    decreases |scrolls|
  {
    if |scrolls| > 0 {
      RunStaysInRange(Apply(position, length, scrolls[0]), length, scrolls[1..]);
    }
  }

  /** From the initial position every sequence of handler calls keeps the strip on one of its
      dishes. */
  lemma FromStartStaysInRange(scrolls: seq<Scroll>)
    ensures 0 <= Run(0, DishCount, scrolls) < DishCount
  {
    RunStaysInRange(0, DishCount, scrolls);
  }
}
