/** Durations in whole seconds: composing one from hours, minutes and seconds
    (`time`), and rendering one as "1h 5m 20s" (`time_delta_string`,
    `etl_string`). Ruby's `/` and `%` floor; by the positive divisor 60 they
    agree with Dafny's Euclidean operators, so negative durations are handled
    exactly as Ruby does. */
module Durations {
  import opened Optional
  import opened Text

  /** `time(hour:, minute:, second:)`: the number of seconds in h:m:s. */
  function Time(hour: int, minute: int, second: int): int {
    (hour * 60 + minute) * 60 + second
  }

  /** The components `time_delta_string` collects, most significant first:
      seconds always, minutes once there is at least one whole minute, hours
      once there is at least one whole hour. */
  function DeltaComponents(delta: int): seq<string> {
    var minutes := delta / 60;
    if minutes > 0 then
      var hours := minutes / 60;
      (if hours > 0 then [NatToString(hours) + "h"] else [])
      + [NatToString(minutes % 60) + "m", NatToString(delta % 60) + "s"]
    else
      [NatToString(delta % 60) + "s"]
  }

  /** `time_delta_string(delta)`: the components joined by single spaces. */
  function TimeDeltaString(delta: int): string {
    Join(DeltaComponents(delta), ' ')
  }

  /** `etl_string(time)`: the time left until `at`, truncated to whole
      seconds and rendered. */
  function EtlString(at: int, now: int): string {
    TimeDeltaString(at - now)
  }

  /** Reading the time left back gives it when it is not negative, and only
      its seconds-of-minute otherwise. */
  lemma EtlStringReadsBack(at: int, now: int)
    ensures DecodeDelta(EtlString(at, now)) == Some(if at >= now then at - now else (at - now) % 60)
  {
    DecodeTimeDeltaString(at - now);
  }

  // ---- Reading a rendered duration back ----

  function UnitSeconds(unit: char): int {
    if unit == 'h' then 3600 else if unit == 'm' then 60 else 1
  }

  predicate IsUnit(c: char) {
    c == 'h' || c == 'm' || c == 's'
  }

  /** The seconds one component such as "15m" stands for. */
  function ComponentValue(c: string): Option<int> {
    if |c| >= 2 && IsUnit(c[|c| - 1]) && AllDigits(c[..|c| - 1]) then
      Some(DigitsValue(c[..|c| - 1]) * UnitSeconds(c[|c| - 1]))
    else
      None
  }

  function SumComponents(parts: seq<string>): Option<int> {
    if parts == [] then Some(0)
    else
      var first := ComponentValue(parts[0]);
      var rest := SumComponents(parts[1..]);
      if first.Some? && rest.Some? then Some(first.value + rest.value) else None
  }

  /** An independent reader for rendered durations: split at spaces and add
      up what each component stands for. */
  function DecodeDelta(s: string): Option<int> {
    SumComponents(Split(s, ' '))
  }

  lemma ComponentRoundTrip(x: nat, unit: char)
    requires IsUnit(unit)
    ensures ComponentValue(NatToString(x) + [unit]) ==
      Some(if unit == 'h' then x * 3600 else if unit == 'm' then x * 60 else x)
    ensures ' ' !in NatToString(x) + [unit]
  {
    var c := NatToString(x) + [unit];
    assert c[..|c| - 1] == NatToString(x);
    NatToStringRoundTrip(x);
    assert forall i :: 0 <= i < |c| ==> c[i] != ' ' by {
      forall i | 0 <= i < |c| ensures c[i] != ' ' {
        if i < |c| - 1 { assert IsDigit(NatToString(x)[i]); }
      }
    }
  }

  lemma SumSeconds(sec: nat)
    ensures SumComponents([NatToString(sec) + "s"]) == Some(sec)
  {
    var c := NatToString(sec) + "s";
    ComponentRoundTrip(sec, 's');
    assert [c][1..] == [];
  }

  lemma SumMinutes(min: nat, sec: nat)
    ensures SumComponents([NatToString(min) + "m", NatToString(sec) + "s"]) == Some(min * 60 + sec)
  {
    var c := NatToString(min) + "m";
    ComponentRoundTrip(min, 'm');
    SumSeconds(sec);
    assert [c, NatToString(sec) + "s"][1..] == [NatToString(sec) + "s"];
  }

  lemma SumHours(hour: nat, min: nat, sec: nat)
    ensures SumComponents([NatToString(hour) + "h", NatToString(min) + "m", NatToString(sec) + "s"])
      == Some(hour * 3600 + min * 60 + sec)
  {
    var c := NatToString(hour) + "h";
    var tail := [NatToString(min) + "m", NatToString(sec) + "s"];
    ComponentRoundTrip(hour, 'h');
    SumMinutes(min, sec);
    assert ([c] + tail)[0] == c && ([c] + tail)[1..] == tail;
    assert [c] + tail == [NatToString(hour) + "h", NatToString(min) + "m", NatToString(sec) + "s"];
  }

  lemma DivisionSplit(delta: int)
    requires delta >= 60
    ensures delta == (delta / 60 / 60) * 3600 + (delta / 60 % 60) * 60 + delta % 60
  {
    var minutes := delta / 60;
    assert delta == minutes * 60 + delta % 60;
    assert minutes == (minutes / 60) * 60 + minutes % 60;
  }

  lemma ComponentsWithHours(delta: int)
    requires delta / 60 / 60 > 0
    ensures DeltaComponents(delta) ==
      [NatToString(delta / 60 / 60) + "h", NatToString(delta / 60 % 60) + "m", NatToString(delta % 60) + "s"]
  {
  }

  lemma ComponentsWithMinutes(delta: int)
    requires delta / 60 > 0 && delta / 60 / 60 == 0
    ensures DeltaComponents(delta) == [NatToString(delta / 60 % 60) + "m", NatToString(delta % 60) + "s"]
  {
  }

  lemma SumWithHours(delta: int)
    requires delta / 60 / 60 > 0
    ensures SumComponents(DeltaComponents(delta)) == Some(delta)
  {
    ComponentsWithHours(delta);
    SumHours(delta / 60 / 60, delta / 60 % 60, delta % 60);
    DivisionSplit(delta);
  }

  lemma SumWithMinutes(delta: int)
    requires delta / 60 > 0 && delta / 60 / 60 == 0
    ensures SumComponents(DeltaComponents(delta)) == Some(delta)
  {
    ComponentsWithMinutes(delta);
    SumMinutes(delta / 60 % 60, delta % 60);
    assert delta / 60 % 60 == delta / 60;
  }

  /** What the components of a rendering add up to. */
  lemma SumOfComponents(delta: int)
    ensures SumComponents(DeltaComponents(delta)) == Some(if delta >= 0 then delta else delta % 60)
  {
    if delta / 60 / 60 > 0 {
      SumWithHours(delta);
    } else if delta / 60 > 0 {
      SumWithMinutes(delta);
    } else {
      SumSeconds(delta % 60);
    }
  }

  lemma ComponentsHaveNoSpace(delta: int)
    ensures forall i :: 0 <= i < |DeltaComponents(delta)| ==> ' ' !in DeltaComponents(delta)[i]
  {
    var minutes := delta / 60;
    ComponentRoundTrip(delta % 60, 's');
    ComponentRoundTrip(minutes % 60, 'm');
    if minutes / 60 > 0 {
      ComponentRoundTrip(minutes / 60, 'h');
    }
  }

  /** Reading back what `time_delta_string` renders gives the duration for
      every non-negative input. A negative input (a boss beaten faster than
      the cooldown) renders as its seconds-of-minute only, because Ruby's
      floored `/` makes the minute count negative and its `%` non-negative. */
  lemma {:induction false} DecodeTimeDeltaString(delta: int)
    ensures DecodeDelta(TimeDeltaString(delta)) == Some(if delta >= 0 then delta else delta % 60)
  {
    ComponentsHaveNoSpace(delta);
    SplitJoin(DeltaComponents(delta), ' ');
    SumOfComponents(delta);
  }

  /** The shape of the rendering: always a seconds component; a minutes
      component exactly when the duration is at least 60 s; an hours
      component exactly when it is at least 3600 s; most significant first,
      minutes and seconds below 60. */
  lemma TimeDeltaShape(delta: int)
    ensures var parts := DeltaComponents(delta);
      && |parts| == (if delta >= 3600 then 3 else if delta >= 60 then 2 else 1)
      && parts[|parts| - 1] == NatToString(delta % 60) + "s"
      && (delta >= 60 ==> parts[|parts| - 2] == NatToString(delta / 60 % 60) + "m")
      && (delta >= 3600 ==> parts[0] == NatToString(delta / 3600) + "h")
  {
    if delta >= 60 {
      assert delta / 60 / 60 == delta / 3600 by {
        var q := delta / 3600;
        var r := delta % 3600;
        assert delta == q * 3600 + r && 0 <= r < 3600;
        assert delta / 60 == q * 60 + r / 60;
      }
    }
  }

  /** `time_delta_string` renders exactly the hours, minutes and seconds that
      `time` composes, omitting leading zero components. */
  lemma TimeDeltaOfTime(hour: nat, minute: nat, second: nat)
    requires minute < 60 && second < 60
    ensures DeltaComponents(Time(hour, minute, second)) ==
      if hour > 0 then
        [NatToString(hour) + "h", NatToString(minute) + "m", NatToString(second) + "s"]
      else if minute > 0 then
        [NatToString(minute) + "m", NatToString(second) + "s"]
      else
        [NatToString(second) + "s"]
  {
    var d := Time(hour, minute, second);
    var total := hour * 60 + minute;
    assert d == total * 60 + second;
    assert d / 60 == total && d % 60 == second;
    assert total / 60 == hour && total % 60 == minute;
  }

  // The renderings the unit tests pin down, one lemma each.

  lemma TimeDeltaSixteenMinutes()
    ensures TimeDeltaString(960) == "16m 0s"
  {
    TimeDeltaOfTime(0, 16, 0);
    assert NatToString(16) + "m" == "16m" && NatToString(0) + "s" == "0s";
    assert Join(["16m", "0s"], ' ') == "16m 0s";
  }

  lemma TimeDeltaOverAnHour()
    ensures TimeDeltaString(3920) == "1h 5m 20s"
  {
    TimeDeltaOfTime(1, 5, 20);
    assert NatToString(1) + "h" == "1h" && NatToString(5) + "m" == "5m" && NatToString(20) + "s" == "20s";
    assert Join(["1h", "5m", "20s"], ' ') == "1h 5m 20s";
  }

  lemma TimeDeltaUnderAMinute()
    ensures TimeDeltaString(15) == "15s"
  {
    TimeDeltaOfTime(0, 0, 15);
    assert NatToString(15) + "s" == "15s";
  }

  lemma TimeDeltaFourteenFifty()
    ensures TimeDeltaString(890) == "14m 50s"
  {
    TimeDeltaOfTime(0, 14, 50);
    assert NatToString(14) + "m" == "14m" && NatToString(50) + "s" == "50s";
    assert Join(["14m", "50s"], ' ') == "14m 50s";
  }

  lemma TimeDeltaThirteenTwenty()
    ensures TimeDeltaString(800) == "13m 20s"
  {
    TimeDeltaOfTime(0, 13, 20);
    assert NatToString(13) + "m" == "13m" && NatToString(20) + "s" == "20s";
    assert Join(["13m", "20s"], ' ') == "13m 20s";
  }

  lemma TimeDeltaFiveMinutes()
    ensures TimeDeltaString(300) == "5m 0s"
  {
    TimeDeltaOfTime(0, 5, 0);
    assert NatToString(5) + "m" == "5m" && NatToString(0) + "s" == "0s";
    assert Join(["5m", "0s"], ' ') == "5m 0s";
  }

  lemma TimeDeltaFourMinutes()
    ensures TimeDeltaString(240) == "4m 0s"
  {
    TimeDeltaOfTime(0, 4, 0);
    assert NatToString(4) + "m" == "4m" && NatToString(0) + "s" == "0s";
    assert Join(["4m", "0s"], ' ') == "4m 0s";
  }

  lemma TimeDeltaOneFiftyFive()
    ensures TimeDeltaString(115) == "1m 55s"
  {
    TimeDeltaOfTime(0, 1, 55);
    assert NatToString(1) + "m" == "1m" && NatToString(55) + "s" == "55s";
    assert Join(["1m", "55s"], ' ') == "1m 55s";
  }
}
