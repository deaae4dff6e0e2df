/** The testimonial carousel of the home page (src/components/Testimonials.tsx): an index into
    the list of testimonials, moved by the arrow buttons, the dots and the rotation timer. */
module Testimonials {

  /** The number of testimonials shown. */
  const Count := 3

  /** JavaScript's `%` for a positive divisor: subtract (or add) the divisor until the value is
      within it, so the remainder keeps the sign of the dividend. */
  function JsRem(a: int, n: int): (r: int)
    requires n > 0
    ensures a >= 0 ==> 0 <= r < n
    ensures a < 0 ==> -n < r <= 0
    ensures 0 <= a < 2 * n ==> r == if a < n then a else a - n
    decreases if a < 0 then -a else a
  {
    if a >= n then JsRem(a - n, n)
    else if a <= -n then JsRem(a + n, n)
    else a
  }

  /** `nextTestimonial`: one step forward, from the last back to the first. */
  function Next(index: int, n: int): (r: int)
    requires n > 0
    ensures 0 <= index < n ==> 0 <= r < n
    ensures 0 <= index < n ==> r == if index == n - 1 then 0 else index + 1
  {
    JsRem(index + 1, n)
  }

  /** `prevTestimonial`: one step back, from the first to the last; adding `n` first keeps the
      dividend of `%` from going negative. */
  function Prev(index: int, n: int): (r: int)
    requires n > 0
    ensures 0 <= index < n ==> 0 <= r < n
    ensures 0 <= index < n ==> r == if index == 0 then n - 1 else index - 1
  {
    JsRem(index - 1 + n, n)
  }

  /** The arrows undo each other. */
  lemma NextPrevInverse(index: int, n: int)
    requires n > 0 && 0 <= index < n
    ensures Prev(Next(index, n), n) == index
    ensures Next(Prev(index, n), n) == index
  {
  }

  /** What can move the carousel: the two arrows, a dot, and the five-second timer. */
  datatype Event = NextClick | PrevClick | DotClick(dot: int) | Tick

  function Step(index: int, n: int, e: Event): int
    requires n > 0
  {
    match e
    case NextClick => Next(index, n)
    case PrevClick => Prev(index, n)
    case DotClick(dot) => dot
    case Tick => Next(index, n)
  }

  function Run(index: int, n: int, events: seq<Event>): int
    requires n > 0
    decreases |events|
  {
    if |events| == 0 then index else Run(Step(index, n, events[0]), n, events[1..])
  }

  /** Dots exist only for the testimonials there are. */
  predicate DotsInRange(events: seq<Event>, n: int) {
    forall i :: 0 <= i < |events| && events[i].DotClick? ==> 0 <= events[i].dot < n
  }

  /** Whatever the visitor clicks and however often the timer fires, the index names a
      testimonial; and the last dot clicked decides it when nothing follows. */
  lemma {:induction false} RunStaysInRange(index: int, n: int, events: seq<Event>)
    requires n > 0 && 0 <= index < n
    requires DotsInRange(events, n)
    ensures 0 <= Run(index, n, events) < n
    ensures |events| > 0 && events[|events| - 1].DotClick? ==> Run(index, n, events) == events[|events| - 1].dot
    decreases |events|
  {
    if |events| > 0 {
      assert DotsInRange(events[1..], n);
      RunStaysInRange(Step(index, n, events[0]), n, events[1..]);
      if |events| > 1 {
        assert events[1..][|events[1..]| - 1] == events[|events| - 1];
      }
    }
  }

  /** The home page's carousel: it starts on the first of its three testimonials, stays on one of
      them whatever happens, and three timer ticks in a row bring it back to where it was. */
  lemma {:induction false} HomeCarousel(events: seq<Event>)
    requires DotsInRange(events, Count)
    ensures 0 <= Run(0, Count, events) < Count
    ensures Run(Run(0, Count, events), Count, [Tick, Tick, Tick]) == Run(0, Count, events)
  {
    RunStaysInRange(0, Count, events);
    var i := Run(0, Count, events);
    assert [Tick, Tick, Tick][1..] == [Tick, Tick];
    assert [Tick, Tick][1..] == [Tick];
    assert [Tick][1..] == [];
  }
}
