/** The pages' expand/collapse sets: `HashSet<int>` add-or-remove of one year. */
module Toggles {

  /** Removes `year` when present, adds it otherwise. */
  function Toggle(s: set<int>, year: int): (r: set<int>)
  {
    if year in s then s - {year} else s + {year}
  }

  /** Toggling flips the year's membership and leaves every other year as it was. */
  lemma ToggleFlipsOnlyYear(s: set<int>, year: int)
    ensures year in Toggle(s, year) <==> year !in s
    ensures forall y :: y != year ==> (y in Toggle(s, year) <==> y in s)
  {
  }

  /** Toggling the same year twice restores the set. */
  lemma ToggleTwiceIsIdentity(s: set<int>, year: int)
    ensures Toggle(Toggle(s, year), year) == s
  {
  }
}
