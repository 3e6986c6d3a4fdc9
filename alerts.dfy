/** The alert thresholds both trackers keep: a descending list of lead times
    in seconds, from which each alert step shifts every threshold the time
    left has reached, remembering only the last one shifted. */
module Alerts {
  import opened Optional

  /** The `while` loop of `boss_alert_channel`: shift thresholds off the front
      while the time left, `delta`, is at most the first one. Gives what is
      left and the last threshold shifted, if any. */
  function PopDue(alerts: seq<int>, delta: int): (seq<int>, Option<int>)
  {
    if alerts == [] || delta > alerts[0] then (alerts, None)
    else
      var (rest, last) := PopDue(alerts[1..], delta);
      (rest, if last.Some? then last else Some(alerts[0]))
  }

  predicate IsSuffix(a: seq<int>, b: seq<int>) {
    |a| <= |b| && a == b[|b| - |a|..]
  }

  predicate Descending(s: seq<int>) {
    forall i, j :: 0 <= i < j < |s| ==> s[i] > s[j]
  }

  /** One alert step drops a prefix of the thresholds, every one of them
      reached by the time left; the first threshold kept, if any, is not yet
      reached; and the threshold remembered is the last one dropped. */
  lemma {:induction false} PopDueSpec(alerts: seq<int>, delta: int)
    ensures IsSuffix(PopDue(alerts, delta).0, alerts)
    ensures forall i :: 0 <= i < |alerts| - |PopDue(alerts, delta).0| ==> alerts[i] >= delta
    ensures PopDue(alerts, delta).0 == [] || PopDue(alerts, delta).0[0] < delta
    ensures PopDue(alerts, delta).1 ==
      if |PopDue(alerts, delta).0| == |alerts| then None
      else Some(alerts[|alerts| - |PopDue(alerts, delta).0| - 1])
  {
    if alerts != [] && delta <= alerts[0] {
      PopDueSpec(alerts[1..], delta);
      var rest := PopDue(alerts[1..], delta).0;
      assert alerts[1..][|alerts| - 1 - |rest|..] == alerts[|alerts| - |rest|..];
    }
  }

  /** A step remembers a threshold exactly when the time left has reached
      the first one; the threshold remembered is one of the list's, and was
      reached. */
  lemma PopDueFires(alerts: seq<int>, delta: int)
    ensures PopDue(alerts, delta).1.Some? <==> (alerts != [] && delta <= alerts[0])
    ensures PopDue(alerts, delta).1.Some? ==>
      PopDue(alerts, delta).1.value in alerts && delta <= PopDue(alerts, delta).1.value
  {
    PopDueSpec(alerts, delta);
  }

  /** On a descending list, every threshold kept is strictly below the time
      left: all crossed thresholds go in the one step. */
  lemma PopDueLeavesOnlyFuture(alerts: seq<int>, delta: int)
    requires Descending(alerts)
    ensures forall i :: 0 <= i < |PopDue(alerts, delta).0| ==> PopDue(alerts, delta).0[i] < delta
  {
    PopDueSpec(alerts, delta);
    var rest := PopDue(alerts, delta).0;
    forall i | 0 <= i < |rest| ensures rest[i] < delta {
      var k := |alerts| - |rest|;
      assert rest[0] == alerts[k] && rest[i] == alerts[k + i];
      assert i > 0 ==> alerts[k] > alerts[k + i];
    }
  }

  /** A threshold fires at most once across two steps: one that fires in
      the second step, with `later` time left, was not reached in the first,
      with `earlier` left. */
  lemma PopDueTwice(alerts: seq<int>, earlier: int, later: int)
    requires Descending(alerts)
    ensures var due := PopDue(PopDue(alerts, earlier).0, later).1;
      due.Some? ==> later <= due.value < earlier
  {
    PopDueLeavesOnlyFuture(alerts, earlier);
    PopDueWithin(PopDue(alerts, earlier).0, later, earlier);
  }

  /** When every threshold is below `bound`, the one remembered lies between
      the time left and that bound. */
  lemma PopDueWithin(alerts: seq<int>, delta: int, bound: int)
    requires forall i :: 0 <= i < |alerts| ==> alerts[i] < bound
    ensures PopDue(alerts, delta).1.Some? ==>
      delta <= PopDue(alerts, delta).1.value < bound
  {
    PopDueFires(alerts, delta);
  }

  /** A threshold fires at most once: after one step, a further step with at
      least as much time left shifts nothing and remembers nothing. */
  lemma PopDueNoRepeat(alerts: seq<int>, delta: int, later: int)
    requires later >= delta
    ensures PopDue(PopDue(alerts, delta).0, later) == (PopDue(alerts, delta).0, None)
  {
    PopDueSpec(alerts, delta);
  }

  /** A suffix of a descending list is descending. */
  lemma SuffixDescending(a: seq<int>, b: seq<int>)
    requires Descending(b) && IsSuffix(a, b)
    ensures Descending(a)
  {
    var k := |b| - |a|;
    forall i, j | 0 <= i < j < |a| ensures a[i] > a[j] {
      assert a[i] == b[k + i] && a[j] == b[k + j];
    }
  }

  lemma SuffixTransitive(a: seq<int>, b: seq<int>, c: seq<int>)
    requires IsSuffix(a, b) && IsSuffix(b, c)
    ensures IsSuffix(a, c)
  {
    assert c[|c| - |b|..][|b| - |a|..] == c[|c| - |a|..];
  }
}
