/** BossTimer: the older, simpler tracker. It only knows when the next boss
    comes; every tick it edits a pinned "Next boss in ..." message (with no
    throttle) and pings everyone 10, 2 and 1 minutes ahead.

    As in module Tracker, the clock is the `now` argument and the channel is
    the outbox; the class's methods are proved to take the steps the step
    functions describe. */
module Timer {
  import opened Optional
  import opened Text
  import opened Durations
  import opened Channel
  import opened Alerts

  const ALERT_TIMES: seq<int> := [10 * 60, 2 * 60, 1 * 60]

  /** The seconds `kill` schedules the next boss in: `time(hour: 6)`. */
  const KILL_DELAY: int := Time(6, 0, 0)

  /** `generate_boss_message`. */
  function GenerateBossMessage(at: int, now: int): string {
    "Next boss in " + EtlString(at, now)
  }

  /** The ping for a threshold of `threshold` seconds: whole minutes, with
      the plural only above one minute. */
  function AlertText(threshold: int): string {
    var minutes := threshold / 60;
    "@everyone Next boss in " + IntToString(minutes) + " minute" + (if minutes > 1 then "s" else "")
  }

  datatype State = State(
    nextBossAt: Option<int>,
    bossMessage: Option<nat>,
    alertTimes: seq<int>,
    outbox: seq<Event>)

  /** As for BossTracker: pending thresholds are what is left of
      ALERT_TIMES; the status message, if any, was sent, belongs to a known
      boss time, and is the one and only pinned message. */
  ghost predicate Inv(s: State) {
    && IsSuffix(s.alertTimes, ALERT_TIMES)
    && (s.bossMessage.Some? ==>
          && s.nextBossAt.Some?
          && s.bossMessage.value < |s.outbox|
          && s.outbox[s.bossMessage.value].Sent?)
    && PinnedExactly(s.outbox, s.bossMessage)
  }

  function Initial(): State {
    State(None, None, [], [])
  }

  function ClearBossMessageStep(s: State): State {
    if s.bossMessage.None? then s
    else s.(outbox := s.outbox + [Unpinned(s.bossMessage.value)], bossMessage := None)
  }

  function SetNextBossTimeStep(s: State, seconds: int, now: int): State {
    ClearBossMessageStep(s).(nextBossAt := Some(now + seconds))
  }

  function KillStep(s: State, now: int): State {
    ClearBossMessageStep(SetNextBossTimeStep(s, KILL_DELAY, now))
  }

  function SetNextStep(s: State, hour: int, minute: int, second: int, now: int): State {
    SetNextBossTimeStep(s, Time(hour, minute, second), now)
  }

  function CreateBossMessageStep(s: State, now: int): State
    requires s.nextBossAt.Some?
  {
    var handle := |s.outbox|;
    s.(
      outbox := s.outbox + [Sent(GenerateBossMessage(s.nextBossAt.value, now)), Pinned(handle)],
      bossMessage := Some(handle),
      alertTimes := ALERT_TIMES)
  }

  function BossAlertChannelStep(s: State, now: int): State {
    if s.alertTimes == [] || s.nextBossAt.None? then s
    else
      var (rest, last) := PopDue(s.alertTimes, s.nextBossAt.value - now);
      var popped := s.(alertTimes := rest);
      if last.None? then popped
      else popped.(outbox := popped.outbox + [Sent(AlertText(last.value))])
  }

  function UpdateBossMessageStep(s: State, now: int): State
    requires s.bossMessage.Some? && s.nextBossAt.Some?
  {
    var edited := s.(outbox := s.outbox + [Edited(s.bossMessage.value, GenerateBossMessage(s.nextBossAt.value, now))]);
    BossAlertChannelStep(edited, now)
  }

  predicate Armed(s: State, now: int) {
    s.nextBossAt.Some? && s.nextBossAt.value > now
  }

  function BossTickStep(s: State, now: int): State {
    if !Armed(s, now) then s
    else if s.bossMessage.Some? then UpdateBossMessageStep(s, now)
    else CreateBossMessageStep(s, now)
  }

  // ---- The invariant is kept by every step ----

  lemma ClearKeepsInv(s: State)
    requires Inv(s)
    ensures Inv(ClearBossMessageStep(s))
    ensures PinnedExactly(ClearBossMessageStep(s).outbox, None)
  {
    if s.bossMessage.Some? {
      UnpinOnly(s.outbox, s.bossMessage.value);
    }
  }

  lemma KillPreservesInv(s: State, now: int)
    requires Inv(s)
    ensures Inv(KillStep(s, now))
  {
    ClearKeepsInv(s);
    ClearKeepsInv(SetNextBossTimeStep(s, KILL_DELAY, now));
  }

  lemma SetNextPreservesInv(s: State, hour: int, minute: int, second: int, now: int)
    requires Inv(s)
    ensures Inv(SetNextStep(s, hour, minute, second, now))
  {
    ClearKeepsInv(s);
  }

  lemma CreateKeepsInv(s: State, now: int)
    requires Inv(s) && s.nextBossAt.Some? && s.bossMessage.None?
    ensures Inv(CreateBossMessageStep(s, now))
  {
    var handle := |s.outbox|;
    var text := GenerateBossMessage(s.nextBossAt.value, now);
    PinnedKeptByMessage(s.outbox, Sent(text), None);
    PinOnly(s.outbox + [Sent(text)], handle);
    assert s.outbox + [Sent(text), Pinned(handle)] == s.outbox + [Sent(text)] + [Pinned(handle)];
  }

  lemma AlertKeepsInv(s: State, now: int)
    requires Inv(s)
    ensures Inv(BossAlertChannelStep(s, now))
  {
    if s.alertTimes != [] && s.nextBossAt.Some? {
      var p := PopDue(s.alertTimes, s.nextBossAt.value - now);
      PopDueSpec(s.alertTimes, s.nextBossAt.value - now);
      SuffixTransitive(p.0, s.alertTimes, ALERT_TIMES);
      var r := BossAlertChannelStep(s, now);
      assert r.alertTimes == p.0 && r.bossMessage == s.bossMessage && r.nextBossAt == s.nextBossAt;
      if p.1.Some? {
        assert r.outbox == s.outbox + [Sent(AlertText(p.1.value))];
        PinnedKeptByMessage(s.outbox, Sent(AlertText(p.1.value)), s.bossMessage);
      } else {
        assert r.outbox == s.outbox;
      }
    }
  }

  lemma UpdateKeepsInv(s: State, now: int)
    requires Inv(s) && s.bossMessage.Some?
    ensures Inv(UpdateBossMessageStep(s, now))
  {
    var e := Edited(s.bossMessage.value, GenerateBossMessage(s.nextBossAt.value, now));
    PinnedKeptByMessage(s.outbox, e, s.bossMessage);
    AlertKeepsInv(s.(outbox := s.outbox + [e]), now);
  }

  lemma BossTickPreservesInv(s: State, now: int)
    requires Inv(s)
    ensures Inv(BossTickStep(s, now))
  {
    if Armed(s, now) {
      if s.bossMessage.Some? {
        UpdateKeepsInv(s, now);
      } else {
        CreateKeepsInv(s, now);
      }
    }
  }

  // ---- The timer object ----

  class BossTimer {
    var nextBossAt: Option<int>
    var bossMessage: Option<nat>
    var alertTimes: seq<int>
    var outbox: seq<Event>

    function Snapshot(): State
      reads this
    {
      State(nextBossAt, bossMessage, alertTimes, outbox)
    }

    ghost predicate Valid()
      reads this
    {
      Inv(Snapshot())
    }

    /** `initialize`: no boss time, no message, no alerts. */
    constructor ()
      ensures Valid() && Snapshot() == Initial()
    {
      nextBossAt := None;
      bossMessage := None;
      alertTimes := [];
      outbox := [];
    }

    /** `kill`: the next boss comes six hours from now. */
    method Kill(now: int)
      requires Valid()
      modifies this
      ensures Valid() && Snapshot() == KillStep(old(Snapshot()), now)
    {
      KillPreservesInv(Snapshot(), now);
      SetNextBossTime(KILL_DELAY, now);
      ClearBossMessage();
    }

    /** `set_next(time_struct)`: the next boss comes in h:m:s. */
    method SetNext(hour: int, minute: int, second: int, now: int)
      requires Valid()
      modifies this
      ensures Valid() && Snapshot() == SetNextStep(old(Snapshot()), hour, minute, second, now)
    {
      SetNextPreservesInv(Snapshot(), hour, minute, second, now);
      SetNextBossTime(Time(hour, minute, second), now);
    }

    /** `boss_tick`: one pass of the `run` loop. */
    method BossTick(now: int)
      requires Valid()
      modifies this
      ensures Valid() && Snapshot() == BossTickStep(old(Snapshot()), now)
    {
      BossTickPreservesInv(Snapshot(), now);
      if !(nextBossAt.Some? && nextBossAt.value > now) {
        return;
      }
      if bossMessage.Some? {
        UpdateBossMessage(now);
      } else {
        CreateBossMessage(now);
      }
    }

    method SetNextBossTime(seconds: int, now: int)
      modifies this
      ensures Snapshot() == SetNextBossTimeStep(old(Snapshot()), seconds, now)
    {
      ClearBossMessage();
      nextBossAt := Some(now + seconds);
    }

    /** `update_boss_message`: edit, then alert; no throttle. */
    method UpdateBossMessage(now: int)
      requires bossMessage.Some? && nextBossAt.Some?
      modifies this
      ensures Snapshot() == UpdateBossMessageStep(old(Snapshot()), now)
    {
      outbox := outbox + [Edited(bossMessage.value, GenerateBossMessage(nextBossAt.value, now))];
      BossAlertChannel(now);
    }

    /** `boss_alert_channel`: shift every reached threshold off in place;
        ping once, in minutes, for the last one shifted. */
    method BossAlertChannel(now: int)
      modifies this
      ensures Snapshot() == BossAlertChannelStep(old(Snapshot()), now)
    {
      if alertTimes == [] || nextBossAt.None? {
        return;
      }
      var delta := nextBossAt.value - now;
      var nextAlert: Option<int> := None;
      while alertTimes != [] && delta <= alertTimes[0]
        invariant Snapshot() == old(Snapshot()).(alertTimes := alertTimes)
        invariant PopDue(old(alertTimes), delta) ==
          (PopDue(alertTimes, delta).0,
           if PopDue(alertTimes, delta).1.Some? then PopDue(alertTimes, delta).1 else nextAlert)
        decreases |alertTimes|
      {
        nextAlert := Some(alertTimes[0]);
        alertTimes := alertTimes[1..];
      }
      if nextAlert.None? {
        return;
      }
      outbox := outbox + [Sent(AlertText(nextAlert.value))];
    }

    /** `create_boss_message`: send and pin a new status message and re-arm
        every threshold. */
    method CreateBossMessage(now: int)
      requires nextBossAt.Some?
      modifies this
      ensures Snapshot() == CreateBossMessageStep(old(Snapshot()), now)
    {
      var handle := |outbox|;
      outbox := outbox + [Sent(GenerateBossMessage(nextBossAt.value, now))];
      bossMessage := Some(handle);
      outbox := outbox + [Pinned(handle)];
      alertTimes := ALERT_TIMES;
    }

    method ClearBossMessage()
      modifies this
      ensures Snapshot() == ClearBossMessageStep(old(Snapshot()))
    {
      if bossMessage.None? {
        return;
      }
      outbox := outbox + [Unpinned(bossMessage.value)];
      bossMessage := None;
    }
  }

  // ---- What the timer promises ----

  /** `kill` schedules the next boss six hours from now and leaves no status
      message and nothing pinned. */
  lemma KillEffects(s: State, now: int)
    requires Inv(s)
    ensures var r := KillStep(s, now);
      && r.nextBossAt == Some(now + 6 * 60 * 60)
      && r.bossMessage == None
      && PinnedExactly(r.outbox, None)
      && r.alertTimes == s.alertTimes
      && r.outbox == s.outbox + (if s.bossMessage.Some? then [Unpinned(s.bossMessage.value)] else [])
  {
    KillPreservesInv(s, now);
  }

  /** `set_next` schedules the next boss at exactly h:m:s from now; the
      channel gains only the unpin of a held status message. */
  lemma SetNextEffects(s: State, hour: int, minute: int, second: int, now: int)
    requires Inv(s)
    ensures var r := SetNextStep(s, hour, minute, second, now);
      && r.nextBossAt == Some(now + hour * 3600 + minute * 60 + second)
      && r.bossMessage == None
      && PinnedExactly(r.outbox, None)
      && r.alertTimes == s.alertTimes
      && r.outbox == s.outbox + (if s.bossMessage.Some? then [Unpinned(s.bossMessage.value)] else [])
  {
    SetNextPreservesInv(s, hour, minute, second, now);
  }

  lemma TickIdle(s: State, now: int)
    requires !Armed(s, now)
    ensures BossTickStep(s, now) == s
  {
  }

  /** The first armed tick sends the status message and pins it as the only
      pinned message. Nothing was pinned before, so the scan of old pins in
      `create_boss_message` has nothing to unpin. */
  lemma TickCreatesStatus(s: State, now: int)
    requires Inv(s) && Armed(s, now) && s.bossMessage.None?
    ensures PinnedExactly(s.outbox, None)
    ensures var r := BossTickStep(s, now);
      && r == s.(
           outbox := s.outbox + [Sent(GenerateBossMessage(s.nextBossAt.value, now)), Pinned(|s.outbox|)],
           bossMessage := Some(|s.outbox|),
           alertTimes := ALERT_TIMES)
      && PinnedExactly(r.outbox, Some(|s.outbox|))
  {
    BossTickPreservesInv(s, now);
  }

  lemma AlertTimesDescending()
    ensures Descending(ALERT_TIMES)
  {
  }

  /** One alert step pings exactly when the time left has reached the first
      pending threshold, naming the smallest threshold reached, and uses up
      every threshold reached. */
  lemma AlertStepEffects(s: State, now: int)
    requires Inv(s) && s.nextBossAt.Some?
    ensures var at := s.nextBossAt.value;
      var r := BossAlertChannelStep(s, now);
      var p := PopDue(s.alertTimes, at - now);
      var reached := s.alertTimes != [] && at - now <= s.alertTimes[0];
      && (reached <==> p.1.Some?)
      && r.outbox == s.outbox + (if reached then [Sent(AlertText(p.1.value))] else [])
      && (reached ==> p.1.value in s.alertTimes && at - now <= p.1.value)
      && r.alertTimes == p.0
      && (forall i :: 0 <= i < |r.alertTimes| ==> r.alertTimes[i] < at - now)
      && r.nextBossAt == s.nextBossAt && r.bossMessage == s.bossMessage
  {
    var at := s.nextBossAt.value;
    var p := PopDue(s.alertTimes, at - now);
    var r := BossAlertChannelStep(s, now);
    assert forall i :: 0 <= i < |p.0| ==> p.0[i] < at - now by {
      AlertTimesDescending();
      SuffixDescending(s.alertTimes, ALERT_TIMES);
      PopDueLeavesOnlyFuture(s.alertTimes, at - now);
    }
    PopDueFires(s.alertTimes, at - now);
    if p.1.Some? {
      assert r == s.(alertTimes := p.0, outbox := s.outbox + [Sent(AlertText(p.1.value))]);
    } else {
      assert r == s.(alertTimes := p.0);
    }
  }

  /** Every later armed tick edits the status message, then takes one alert
      step; the pins do not change. */
  lemma TickUpdatesStatus(s: State, now: int)
    requires Inv(s) && Armed(s, now) && s.bossMessage.Some?
    ensures var at := s.nextBossAt.value;
      var edited := s.(outbox := s.outbox + [Edited(s.bossMessage.value, GenerateBossMessage(at, now))]);
      var r := BossTickStep(s, now);
      && r == BossAlertChannelStep(edited, now)
      && Inv(edited)
      && PinnedExactly(r.outbox, s.bossMessage)
  {
    var at := s.nextBossAt.value;
    var e := Edited(s.bossMessage.value, GenerateBossMessage(at, now));
    PinnedKeptByMessage(s.outbox, e, s.bossMessage);
    BossTickPreservesInv(s, now);
  }

  /** The three pings the timer can send. */
  lemma AlertTexts()
    ensures AlertText(600) == "@everyone Next boss in 10 minutes"
    ensures AlertText(120) == "@everyone Next boss in 2 minutes"
    ensures AlertText(60) == "@everyone Next boss in 1 minute"
  {
    assert NatToString(10) == "10";
    assert NatToString(2) == "2";
    assert NatToString(1) == "1";
  }

  /** "minute" takes the plural exactly above one minute. */
  lemma AlertPlural(threshold: int)
    ensures var t := AlertText(threshold);
      t[|t| - 1] == 's' <==> threshold / 60 > 1
  {
    var minutes := threshold / 60;
    var head := "@everyone Next boss in " + IntToString(minutes) + " minute";
    assert head[|head| - 1] == 'e';
  }
}
