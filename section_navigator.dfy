/** The lesson's section navigator: a counter of the section on screen that the
    "Anterior" and "Siguiente" buttons move by one, within the sections that
    exist. Whether the page has an element `section-<i>` is given as a function
    of the index; the scrolling itself and the key and wheel listeners that
    block free scrolling are not modelled. */
module SectionNavigator {

  datatype Move = Next | Prev

  /** "Anterior" is shown when there is a section before the current one. */
  predicate ShowsPrev(current: int) {
    current > 0
  }

  /** "Siguiente" is shown when there is a section after the current one. */
  predicate ShowsNext(total: int, current: int) {
    current < total - 1
  }

  /** The section a button leads to: one further in its direction when the
      button's guard holds and that section's element exists, else the same. */
  function Step(total: int, current: int, move: Move, sectionExists: int -> bool): (r: int)
    ensures r == current || r == current + 1 || r == current - 1
    ensures r == current + 1 <==> move == Next && ShowsNext(total, current) && sectionExists(current + 1)
    ensures r == current - 1 <==> move == Prev && ShowsPrev(current) && sectionExists(current - 1)
  {
    match move
    case Next => if ShowsNext(total, current) && sectionExists(current + 1) then current + 1 else current
    case Prev => if ShowsPrev(current) && sectionExists(current - 1) then current - 1 else current
  }

  /** The section after a sequence of clicks. */
  function Run(total: int, current: int, moves: seq<Move>, sectionExists: int -> bool): int
    decreases |moves|
  {
    if moves == [] then current
    else Run(total, Step(total, current, moves[0], sectionExists), moves[1..], sectionExists)
  }

  /** The range the counter stays in: the valid section indices, or 0 when there
      are no sections. */
  predicate InRange(total: int, current: int) {
    0 <= current && (current == 0 || current <= total - 1)
  }

  lemma StepStaysInRange(total: int, current: int, move: Move, sectionExists: int -> bool)
    requires InRange(total, current)
    ensures InRange(total, Step(total, current, move, sectionExists))
  {
  }

  /** Whatever the clicks, the counter stays within the sections. */
  lemma {:induction false} RunStaysInRange(total: int, current: int, moves: seq<Move>, sectionExists: int -> bool)
    requires InRange(total, current)
    ensures InRange(total, Run(total, current, moves, sectionExists))
    decreases |moves|
  {
    if moves != [] {
      StepStaysInRange(total, current, moves[0], sectionExists);
      RunStaysInRange(total, Step(total, current, moves[0], sectionExists), moves[1..], sectionExists);
    }
  }

  /** A button is shown exactly when clicking it would move, on a page where every
      section exists. */
  lemma ButtonsMatchGuards(total: int, current: int)
    ensures ShowsNext(total, current) <==> Step(total, current, Next, _ => true) != current
    ensures ShowsPrev(current) <==> Step(total, current, Prev, _ => true) != current
  {
  }

  /** "Siguiente" followed by "Anterior" comes back to where it started. */
  lemma NextThenPrev(total: int, current: int, sectionExists: int -> bool)
    requires ShowsNext(total, current) && current >= 0
    requires sectionExists(current + 1) && sectionExists(current)
    ensures Step(total, Step(total, current, Next, sectionExists), Prev, sectionExists) == current
  {
  }

  class Navigator {
    const total: int
    var current: int

    predicate Valid()
      reads this
    {
      InRange(total, current)
    }

    /** The navigator starts at the first section. */
    constructor (totalSections: int)
      ensures total == totalSections && current == 0 && Valid()
    {
      total := totalSections;
      current := 0;
    }

    /** `scrollToSection(index)`: the counter moves only when the section's
        element was found. */
    method ScrollToSection(index: int, found: bool)
      requires Valid() && InRange(total, index)
      modifies this`current
      ensures current == if found then index else old(current)
      ensures Valid()
    {
      if found {
        current := index;
      }
    }

    method HandleNext(sectionExists: int -> bool)
      requires Valid()
      modifies this`current
      ensures current == Step(total, old(current), Next, sectionExists) && Valid()
    {
      if current < total - 1 {
        ScrollToSection(current + 1, sectionExists(current + 1));
      }
    }

    method HandlePrev(sectionExists: int -> bool)
      requires Valid()
      modifies this`current
      ensures current == Step(total, old(current), Prev, sectionExists) && Valid()
    {
      if current > 0 {
        ScrollToSection(current - 1, sectionExists(current - 1));
      }
    }
  }
}
