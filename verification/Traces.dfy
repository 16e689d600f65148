/** Orders of events in a log. */
module Traces {
  /** Every `x` in the log is followed by a `y`. */
  ghost predicate Answered<T>(log: seq<T>, x: T, y: T) {
    forall i | 0 <= i < |log| && log[i] == x :: exists m :: i < m < |log| && log[m] == y
  }

  /** Between two `x` there is a `y`. */
  ghost predicate Separated<T>(log: seq<T>, x: T, y: T) {
    forall i, j | 0 <= i < j < |log| && log[i] == x && log[j] == x :: exists m :: i < m < j && log[m] == y
  }

  lemma Extend<T>(log: seq<T>, x: T, y: T, e: T)
    requires x != y && Separated(log, x, y) && (e == x ==> Answered(log, x, y))
    ensures Separated(log + [e], x, y)
    ensures e == y ==> Answered(log + [e], x, y)
    ensures e != x && Answered(log, x, y) ==> Answered(log + [e], x, y)
  {
    var more := log + [e];
    forall i, j | 0 <= i < j < |more| && more[i] == x && more[j] == x ensures exists m :: i < m < j && more[m] == y {
      if j < |log| {
        var m :| i < m < j && log[m] == y;
        assert more[m] == y;
      } else {
        var m :| i < m < |log| && log[m] == y;
        assert more[m] == y;
      }
    }
    if e == y {
      forall i | 0 <= i < |more| && more[i] == x ensures exists m :: i < m < |more| && more[m] == y {
        assert more[|log|] == y;
      }
    } else if e != x && Answered(log, x, y) {
      forall i | 0 <= i < |more| && more[i] == x ensures exists m :: i < m < |more| && more[m] == y {
        var m :| i < m < |log| && log[m] == y;
        assert more[m] == y;
      }
    }
  }
}
