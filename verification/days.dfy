/** Calendar days as integer day ordinals (one more per day, as Python's
    `date.toordinal`), and the inclusive windows the download scripts ask for. */
module Days {

  /** The days of the inclusive window from `first` to `last`. */
  function Covered(first: int, last: int): set<int>
    decreases last - first
  {
    if first > last then {} else Covered(first, last - 1) + {last}
  }

  /** A day is in the window exactly when it lies between its two ends. */
  lemma {:induction false} CoveredMembers(first: int, last: int, d: int)
    ensures d in Covered(first, last) <==> first <= d <= last
    decreases last - first
  {
    if first <= last {
      CoveredMembers(first, last - 1, d);
    }
  }

  /** An inclusive window holds `last - first + 1` days, and none when it is reversed. */
  lemma {:induction false} CoveredCount(first: int, last: int)
    ensures |Covered(first, last)| == if first <= last then last - first + 1 else 0
    decreases last - first
  {
    if first <= last {
      CoveredMembers(first, last - 1, last);
      CoveredCount(first, last - 1);
    }
  }
}
