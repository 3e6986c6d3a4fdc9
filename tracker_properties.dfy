/** What BossTracker's operations promise, stated on the step functions that
    the class's methods are proved to take. */
module TrackerProperties {
  import opened Optional
  import opened Text
  import opened Durations
  import opened Channel
  import opened Alerts
  import opened Tracker

  /** The level report `set_level(level + 1) if level` sends. */
  function LevelReport(level: Option<int>): seq<Event> {
    if level.Some? then [Sent(BonusMessageText(Some(level.value + 1)))] else []
  }

  /** The kill-time report `print_lass_boss_kill_time` sends. */
  function KillReport(history: seq<int>): seq<Event> {
    if |history| > 1 then [Sent(KillTimeMessage(history))] else []
  }

  /** The unpin `clear_boss_message` performs. */
  function UnpinReport(message: Option<nat>): seq<Event> {
    if message.Some? then [Unpinned(message.value)] else []
  }

  // ---- kill ----

  /** While the boss is still ahead, `kill` only complains. */
  lemma KillWhileArmed(s: State, now: int)
    requires Armed(s, now)
    ensures KillStep(s, now) == s.(outbox := s.outbox + [Sent(NOT_FIGHTING)])
  {
  }

  /** Otherwise `kill` raises a known level and reports it, records the kill
      at `now`, schedules the next boss BOSS_DELAY later, drops the status
      message (leaving nothing pinned) and reports the fight's duration. */
  lemma KillEffects(s: State, now: int)
    requires Inv(s) && !Armed(s, now)
    ensures var r := KillStep(s, now);
      && r.level == (if s.level.Some? then Some(s.level.value + 1) else None)
      && r.history == RecordKill(s.history, now, false)
      && r.nextBossAt == Some(now + BOSS_DELAY)
      && r.bossMessage == None
      && PinnedExactly(r.outbox, None)
      && r.alertTimes == s.alertTimes && r.lastUpdatedAt == s.lastUpdatedAt
      && r.outbox == s.outbox + LevelReport(s.level) + UnpinReport(s.bossMessage) + KillReport(r.history)
  {
    KillFields(s, now);
    KillOutbox(s, now);
    KillPreservesInv(s, now);
  }

  /** The effects of `kill` on each field but the channel. */
  lemma KillFields(s: State, now: int)
    requires !Armed(s, now)
    ensures var r := KillStep(s, now);
      && r.level == (if s.level.Some? then Some(s.level.value + 1) else None)
      && r.history == RecordKill(s.history, now, false)
      && r.nextBossAt == Some(now + BOSS_DELAY)
      && r.bossMessage == None
      && r.alertTimes == s.alertTimes && r.lastUpdatedAt == s.lastUpdatedAt
  {
  }

  /** What `kill` sends, in the order the steps happen. */
  lemma KillOutbox(s: State, now: int)
    requires !Armed(s, now)
    ensures KillStep(s, now).outbox ==
      s.outbox + LevelReport(s.level) + UnpinReport(s.bossMessage) + KillReport(RecordKill(s.history, now, false))
  {
    var leveled := IncrementLevelStep(s);
    assert leveled.outbox == s.outbox + LevelReport(s.level);
    var recorded := RecordBossKillStep(leveled, now, false);
    var armed := SetNextBossTimeStep(recorded, Time(0, 0, BOSS_DELAY), now);
    assert armed.outbox == leveled.outbox + UnpinReport(s.bossMessage);
    var printed := PrintLastBossKillTimeStep(armed);
    assert printed.outbox == armed.outbox + KillReport(recorded.history);
  }

  // ---- set_next ----

  /** When the scheduled boss time has passed, `set_next` counts the boss as
      beaten `BOSS_DELAY - seconds` ago: a new record, a level up, a kill
      report, and the next boss in `seconds`. */
  lemma SetNextAfterDeadline(s: State, seconds: int, now: int)
    requires Inv(s) && s.nextBossAt.Some? && s.nextBossAt.value < now
    ensures var r := SetNextStep(s, seconds, now);
      && r.level == (if s.level.Some? then Some(s.level.value + 1) else None)
      && r.history == RecordKill(s.history, now + seconds - BOSS_DELAY, false)
      && r.nextBossAt == Some(now + seconds)
      && r.bossMessage == None
      && PinnedExactly(r.outbox, None)
      && r.alertTimes == s.alertTimes && r.lastUpdatedAt == s.lastUpdatedAt
      && r.outbox == s.outbox + LevelReport(s.level) + KillReport(r.history) + UnpinReport(s.bossMessage)
  {
    SetNextLateFields(s, seconds, now);
    SetNextLateOutbox(s, seconds, now);
    SetNextPreservesInv(s, seconds, now);
  }

  /** The effects of a late `set_next` on each field but the channel. */
  lemma SetNextLateFields(s: State, seconds: int, now: int)
    requires s.nextBossAt.Some? && s.nextBossAt.value < now
    ensures var r := SetNextStep(s, seconds, now);
      && r.level == (if s.level.Some? then Some(s.level.value + 1) else None)
      && r.history == RecordKill(s.history, now + seconds - BOSS_DELAY, false)
      && r.nextBossAt == Some(now + seconds)
      && r.bossMessage == None
      && r.alertTimes == s.alertTimes && r.lastUpdatedAt == s.lastUpdatedAt
  {
  }

  /** What a late `set_next` sends, in the order the steps happen. */
  lemma SetNextLateOutbox(s: State, seconds: int, now: int)
    requires s.nextBossAt.Some? && s.nextBossAt.value < now
    ensures SetNextStep(s, seconds, now).outbox ==
      s.outbox + LevelReport(s.level) + KillReport(RecordKill(s.history, now + seconds - BOSS_DELAY, false))
      + UnpinReport(s.bossMessage)
  {
    var recorded := RecordBossKillStep(s, now + seconds - BOSS_DELAY, false);
    var leveled := IncrementLevelStep(recorded);
    assert leveled.outbox == s.outbox + LevelReport(s.level);
    var printed := PrintLastBossKillTimeStep(leveled);
    assert printed.outbox == leveled.outbox + KillReport(recorded.history);
    assert SetNextStep(s, seconds, now) == SetNextBossTimeStep(printed, seconds, now);
  }

  /** Otherwise `set_next` corrects the newest record instead of adding one,
      and leaves the level alone. */
  lemma SetNextAmends(s: State, seconds: int, now: int)
    requires Inv(s) && !(s.nextBossAt.Some? && s.nextBossAt.value < now)
    ensures var r := SetNextStep(s, seconds, now);
      && r.level == s.level
      && r.history == RecordKill(s.history, now + seconds - BOSS_DELAY, true)
      && r.nextBossAt == Some(now + seconds)
      && r.bossMessage == None
      && PinnedExactly(r.outbox, None)
      && r.alertTimes == s.alertTimes && r.lastUpdatedAt == s.lastUpdatedAt
      && r.outbox == s.outbox + KillReport(r.history) + UnpinReport(s.bossMessage)
  {
    SetNextPreservesInv(s, seconds, now);
  }

  // ---- tick ----

  /** Without a boss time ahead, a tick does nothing at all. */
  lemma TickIdle(s: State, now: int)
    requires !Armed(s, now)
    ensures TickStep(s, now) == s
  {
  }

  /** The first tick with a boss time ahead sends the status message, pins it
      as the only pinned message, and arms every alert threshold. */
  lemma TickCreatesStatus(s: State, now: int)
    requires Inv(s) && Armed(s, now) && s.bossMessage.None?
    ensures var r := TickStep(s, now);
      && r == s.(
           outbox := s.outbox + [Sent(GenerateBossMessage(s.nextBossAt.value, now)), Pinned(|s.outbox|)],
           bossMessage := Some(|s.outbox|),
           alertTimes := ALERT_TIMES)
      && PinnedExactly(r.outbox, Some(|s.outbox|))
  {
    TickPreservesInv(s, now);
  }

  /** Within UPDATE_DELAY seconds of the last edit, a tick does nothing. */
  lemma TickThrottled(s: State, now: int)
    requires Armed(s, now) && s.bossMessage.Some?
    requires s.lastUpdatedAt.Some? && s.lastUpdatedAt.value + UPDATE_DELAY > now
    ensures TickStep(s, now) == s
  {
  }

  lemma AlertTimesDescending()
    ensures Descending(ALERT_TIMES)
  {
  }

  /** Past the throttle, a tick edits the status message to the new time
      left and sends at most one ping: exactly when the time left has reached
      the first pending threshold. All thresholds reached are used up in that
      one step, and the pins do not change. */
  lemma TickUpdatesStatus(s: State, now: int)
    requires Inv(s) && Armed(s, now) && s.bossMessage.Some?
    requires !(s.lastUpdatedAt.Some? && s.lastUpdatedAt.value + UPDATE_DELAY > now)
    ensures var at := s.nextBossAt.value;
      var r := TickStep(s, now);
      var reached := s.alertTimes != [] && at - now <= s.alertTimes[0];
      && r.outbox == s.outbox + [Edited(s.bossMessage.value, GenerateBossMessage(at, now))]
                     + (if reached then [Sent(AlertMessage(at, now))] else [])
      && r.lastUpdatedAt == Some(now)
      && IsSuffix(r.alertTimes, s.alertTimes)
      && (forall i :: 0 <= i < |r.alertTimes| ==> r.alertTimes[i] < at - now)
      && r.level == s.level && r.history == s.history
      && r.nextBossAt == s.nextBossAt && r.bossMessage == s.bossMessage
      && PinnedExactly(r.outbox, s.bossMessage)
  {
    var at := s.nextBossAt.value;
    PopDueSpec(s.alertTimes, at - now);
    AlertTimesDescending();
    SuffixDescending(s.alertTimes, ALERT_TIMES);
    PopDueLeavesOnlyFuture(s.alertTimes, at - now);
    TickPreservesInv(s, now);
  }

  /** The status message is edited at most once per UPDATE_DELAY seconds. */
  lemma EditedAtMostOncePerDelay(s: State, t1: int, t2: int)
    requires Armed(s, t1) && s.bossMessage.Some?
    requires !(s.lastUpdatedAt.Some? && s.lastUpdatedAt.value + UPDATE_DELAY > t1)
    requires t1 <= t2 < t1 + UPDATE_DELAY
    ensures TickStep(TickStep(s, t1), t2) == TickStep(s, t1)
  {
  }

  /** No threshold pings twice: a ping on a later tick is for a threshold the
      earlier tick had not yet reached. */
  lemma NoThresholdAlertedTwice(s: State, t1: int, t2: int)
    requires IsSuffix(s.alertTimes, ALERT_TIMES) && Armed(s, t1) && s.bossMessage.Some?
    requires !(s.lastUpdatedAt.Some? && s.lastUpdatedAt.value + UPDATE_DELAY > t1)
    ensures var at := s.nextBossAt.value;
      var pending := TickStep(s, t1).alertTimes;
      var due := PopDue(pending, at - t2).1;
      due.Some? ==> at - t2 <= due.value < at - t1
  {
    TickPending(s, t1);
    OfficialPopDueTwice(s.alertTimes, s.nextBossAt.value - t1, s.nextBossAt.value - t2);
  }

  /** PopDueTwice for what is left of ALERT_TIMES. */
  lemma OfficialPopDueTwice(alerts: seq<int>, earlier: int, later: int)
    requires IsSuffix(alerts, ALERT_TIMES)
    ensures var due := PopDue(PopDue(alerts, earlier).0, later).1;
      due.Some? ==> later <= due.value < earlier
  {
    AlertTimesDescending();
    SuffixDescending(alerts, ALERT_TIMES);
    PopDueTwice(alerts, earlier, later);
  }

  /** An editing tick leaves pending what one alert step leaves. */
  lemma TickPending(s: State, now: int)
    requires Armed(s, now) && s.bossMessage.Some?
    requires !(s.lastUpdatedAt.Some? && s.lastUpdatedAt.value + UPDATE_DELAY > now)
    ensures TickStep(s, now).alertTimes == PopDue(s.alertTimes, s.nextBossAt.value - now).0
  {
  }

  // ---- print_timer ----

  /** `print_timer`: "unknown" without a boss time, "in progress" once it has
      passed, and otherwise a fresh status message that replaces the pinned
      one, if any, as the only pinned message. */
  lemma PrintTimerEffects(s: State, now: int)
    requires Inv(s)
    ensures var r := PrintTimerStep(s, now);
      && (s.nextBossAt.None? ==> r == s.(outbox := s.outbox + [Sent(TIME_UNKNOWN)]))
      && (s.nextBossAt.Some? && s.nextBossAt.value <= now ==>
            r == s.(outbox := s.outbox + [Sent(FIGHT_IN_PROGRESS)]))
    ensures Armed(s, now) ==>
      var r := PrintTimerStep(s, now);
      var unpin := if s.bossMessage.Some? then [Unpinned(s.bossMessage.value)] else [];
      var h := |s.outbox| + |unpin|;
      && r.outbox == s.outbox + unpin + [Sent(GenerateBossMessage(s.nextBossAt.value, now)), Pinned(h)]
      && r.bossMessage == Some(h) && r.alertTimes == ALERT_TIMES
      && PinnedExactly(r.outbox, Some(h))
      && r.level == s.level && r.history == s.history
      && r.nextBossAt == s.nextBossAt && r.lastUpdatedAt == s.lastUpdatedAt
  {
    if Armed(s, now) {
      CreateKeepsInv(s, now);
    }
  }

  // ---- print_history ----

  /** A rendered component holds only digits and its unit. */
  lemma ComponentChars(x: nat, unit: char, c: char)
    requires !IsDigit(c) && c != unit
    ensures c !in NatToString(x) + [unit]
  {
    var p := NatToString(x) + [unit];
    forall k | 0 <= k < |p| ensures p[k] != c {
      if k < |p| - 1 {
        assert IsDigit(NatToString(x)[k]);
      }
    }
  }

  lemma DeltaHasNoNewline(delta: int)
    ensures '\n' !in TimeDeltaString(delta)
  {
    var parts := DeltaComponents(delta);
    var minutes := delta / 60;
    ComponentChars(delta % 60, 's', '\n');
    if minutes > 0 {
      ComponentChars(minutes % 60, 'm', '\n');
      if minutes / 60 > 0 {
        ComponentChars(minutes / 60, 'h', '\n');
      }
    }
    assert forall i :: 0 <= i < |parts| ==> '\n' !in parts[i];
    JoinChars(parts, ' ', '\n');
  }

  lemma NumberHasNoNewline(bossNum: int)
    ensures '\n' !in PadLeft(IntToString(bossNum), 3)
  {
    var n := IntToString(bossNum);
    var padded := PadLeft(n, 3);
    var k := |padded| - |n|;
    forall i | 0 <= i < |padded| ensures padded[i] != '\n' {
      if i < k {
        assert padded[i] == ' ';
      } else {
        assert padded[i] == padded[k..][i - k] == n[i - k];
        assert IsDigit(n[i - k]) || n[i - k] == '-';
      }
    }
  }

  lemma RowHasNoNewline(bossNum: int, bossTime: int)
    ensures '\n' !in HistoryRow(bossNum, bossTime)
  {
    DeltaHasNoNewline(bossTime);
    NumberHasNoNewline(bossNum);
  }

  lemma RowsHaveNoNewline(history: seq<int>, level: Option<int>)
    requires |history| >= 1
    ensures forall i :: 0 <= i < |HistoryRows(history, level)| ==> '\n' !in HistoryRows(history, level)[i]
  {
    var rows := HistoryRows(history, level);
    forall i | 0 <= i < |rows| ensures '\n' !in rows[i] {
      var bossNum := BossNumber(level, |history|, i + 1);
      var bossTime := history[i + 1] - history[i] - BOSS_DELAY;
      RowHasNoNewline(bossNum, bossTime);
      assert rows[i] == HistoryRow(bossNum, bossTime);
    }
  }

  /** The code-block fences hold no newline, so fenced rows without one
      keep that property. */
  lemma FencedHaveNoNewline(rows: seq<string>)
    requires forall i :: 0 <= i < |rows| ==> '\n' !in rows[i]
    ensures forall i :: 0 <= i < |rows| + 2 ==> '\n' !in (["```js"] + rows + ["```"])[i]
  {
    var lines := ["```js"] + rows + ["```"];
    forall i | 0 <= i < |lines| ensures '\n' !in lines[i] {
      if 0 < i < |lines| - 1 {
        assert lines[i] == rows[i - 1];
      }
    }
  }

  /** The history table reads back, line by line, as the code-block fences
      around one row per adjacent pair of kills, oldest first. */
  lemma HistoryMessageLines(history: seq<int>, level: Option<int>)
    requires |history| >= 2
    ensures Split(HistoryMessage(history, level), '\n') == ["```js"] + HistoryRows(history, level) + ["```"]
  {
    var rows := HistoryRows(history, level);
    RowsHaveNoNewline(history, level);
    FencedHaveNoNewline(rows);
    SplitJoin(["```js"] + rows + ["```"], '\n');
  }

  /** With the level known, the newest row is the boss just below the
      current level, and the rows count up by one. */
  lemma HistoryNumbersEndBelowLevel(history: seq<int>, l: int)
    requires |history| >= 2
    ensures BossNumber(Some(l), |history|, |history| - 1) == l - 1
    ensures forall i :: 1 <= i < |history| - 1 ==>
      BossNumber(Some(l), |history|, i + 1) == BossNumber(Some(l), |history|, i) + 1
  {
  }

  // ---- Scenarios from the unit tests ----

  /** A `set_next` at a fresh tracker records exactly one kill,
      `BOSS_DELAY - seconds` before now, and says nothing. */
  lemma SetNextOnFreshTracker(seconds: int, now: int)
    ensures var r := SetNextStep(Initial(), seconds, now);
      && r.history == [now + seconds - BOSS_DELAY]
      && r.nextBossAt == Some(now + seconds)
      && r.outbox == Initial().outbox
  {
  }

  lemma OneMinuteTwentyEight()
    ensures TimeDeltaString(88) == "1m 28s"
  {
    TimeDeltaOfTime(0, 1, 28);
    assert NatToString(1) + "m" == "1m" && NatToString(28) + "s" == "28s";
    assert Join(["1m", "28s"], ' ') == "1m 28s";
  }

  lemma OneMinuteFortyEight()
    ensures TimeDeltaString(108) == "1m 48s"
  {
    TimeDeltaOfTime(0, 1, 48);
    assert NatToString(1) + "m" == "1m" && NatToString(48) + "s" == "48s";
    assert Join(["1m", "48s"], ' ') == "1m 48s";
  }

  /** The report after two kills: the fight took what the second kill came
      later than the cooldown. */
  lemma KillReportAfter(first: int, fight: int)
    ensures KillReport([first, first + BOSS_DELAY + fight]) ==
      [Sent("Boss killed in " + TimeDeltaString(fight) + ".")]
  {
    var h := [first, first + BOSS_DELAY + fight];
    assert h[|h| - 1] - h[|h| - 2] - BOSS_DELAY == fight;
  }

  /** The tracker after `set_next(12)` on a fresh start. */
  lemma FreshSetNextTwelve(t0: int)
    ensures SetNextStep(Initial(), 12, t0) ==
      State(None, [t0 + 12 - BOSS_DELAY], Some(t0 + 12), None, [], None, [Sent(ALIVE)])
  {
    SetNextOnFreshTracker(12, t0);
  }

  /** `set_next(12)`, then two minutes later `set_next(BOSS_DELAY - 20)`:
      the second call records a kill 20 seconds before the deadline and
      reports it. */
  lemma SetNextPastSteps(t0: int, s1: State, s2: State)
    requires s1 == SetNextStep(Initial(), 12, t0)
    requires s2 == SetNextStep(s1, BOSS_DELAY - 20, t0 + 120)
    ensures s2.history == [t0 - BOSS_DELAY + 12, t0 + 100]
    ensures s2.outbox == [Sent(ALIVE)] + KillReport(s2.history)
  {
    FreshSetNextTwelve(t0);
    assert RecordKill(s1.history, t0 + 120 + (BOSS_DELAY - 20) - BOSS_DELAY, false) == [t0 - BOSS_DELAY + 12, t0 + 100];
    SetNextLateFields(s1, BOSS_DELAY - 20, t0 + 120);
    SetNextLateOutbox(s1, BOSS_DELAY - 20, t0 + 120);
    assert LevelReport(None) == [] && UnpinReport(None) == [];
  }

  lemma KillReportOneTwentyEight(first: int)
    ensures KillReport([first, first + BOSS_DELAY + 88]) == [Sent("Boss killed in 1m 28s.")]
  {
    KillReportAfter(first, 88);
    OneMinuteTwentyEight();
    assert "Boss killed in " + "1m 28s" + "." == "Boss killed in 1m 28s.";
  }

  /** The whole exchange: the boss counts as beaten 1m 28s after it
      appeared. */
  lemma SetNextPastScenario(t0: int)
    ensures var s1 := SetNextStep(Initial(), 12, t0);
      var s2 := SetNextStep(s1, BOSS_DELAY - 20, t0 + 120);
      && s2.history == [t0 - BOSS_DELAY + 12, t0 + 100]
      && s2.outbox == [Sent(ALIVE), Sent("Boss killed in 1m 28s.")]
  {
    var s1 := SetNextStep(Initial(), 12, t0);
    var s2 := SetNextStep(s1, BOSS_DELAY - 20, t0 + 120);
    SetNextPastSteps(t0, s1, s2);
    KillReportOneTwentyEight(t0 - BOSS_DELAY + 12);
  }

  /** `set_next(12)`, then `kill` two minutes later: the kill is recorded
      now, the next boss is due a cooldown later, and the kill is reported. */
  lemma KillAfterSetNextSteps(t0: int, s1: State, s2: State)
    requires s1 == SetNextStep(Initial(), 12, t0)
    requires s2 == KillStep(s1, t0 + 120)
    ensures s2.history == [t0 - BOSS_DELAY + 12, t0 + 120]
    ensures s2.nextBossAt == Some(t0 + 120 + BOSS_DELAY)
    ensures s2.outbox == [Sent(ALIVE)] + KillReport(s2.history)
  {
    FreshSetNextTwelve(t0);
    assert RecordKill(s1.history, t0 + 120, false) == [t0 - BOSS_DELAY + 12, t0 + 120];
    KillFields(s1, t0 + 120);
    KillOutbox(s1, t0 + 120);
    assert LevelReport(None) == [] && UnpinReport(None) == [];
  }

  lemma KillReportOneFortyEight(first: int)
    ensures KillReport([first, first + BOSS_DELAY + 108]) == [Sent("Boss killed in 1m 48s.")]
  {
    KillReportAfter(first, 108);
    OneMinuteFortyEight();
    assert "Boss killed in " + "1m 48s" + "." == "Boss killed in 1m 48s.";
  }

  /** The whole exchange: 1m 48s. */
  lemma KillAfterSetNextScenario(t0: int)
    ensures var s1 := SetNextStep(Initial(), 12, t0);
      var s2 := KillStep(s1, t0 + 120);
      && s2.history == [t0 - BOSS_DELAY + 12, t0 + 120]
      && s2.nextBossAt == Some(t0 + 120 + BOSS_DELAY)
      && s2.outbox == [Sent(ALIVE), Sent("Boss killed in 1m 48s.")]
  {
    var s1 := SetNextStep(Initial(), 12, t0);
    var s2 := KillStep(s1, t0 + 120);
    KillAfterSetNextSteps(t0, s1, s2);
    KillReportOneFortyEight(t0 - BOSS_DELAY + 12);
  }

  // ---- The alert scenario: a boss 16 minutes away, ticked six times ----

  /** A tick past the throttle on an armed tracker with a status message:
      the status is edited, a ping goes out exactly when a threshold is
      reached, and the thresholds reached are dropped. */
  lemma TickEdits(s: State, now: int)
    requires Armed(s, now) && s.bossMessage.Some?
    requires !(s.lastUpdatedAt.Some? && s.lastUpdatedAt.value + UPDATE_DELAY > now)
    ensures var at := s.nextBossAt.value;
      var p := PopDue(s.alertTimes, at - now);
      var r := TickStep(s, now);
      && r.outbox == s.outbox + [Edited(s.bossMessage.value, GenerateBossMessage(at, now))]
                     + (if p.1.Some? then [Sent(AlertMessage(at, now))] else [])
      && r.alertTimes == p.0 && r.lastUpdatedAt == Some(now)
      && r.level == s.level && r.history == s.history
      && r.nextBossAt == s.nextBossAt && r.bossMessage == s.bossMessage
  {
    var at := s.nextBossAt.value;
    if s.alertTimes == [] {
      assert PopDue(s.alertTimes, at - now) == ([], None);
    }
  }

  /** The first tick on an armed tracker without a status message sends and
      pins one, and re-arms every alert threshold. */
  lemma TickCreates(s: State, now: int)
    requires Armed(s, now) && s.bossMessage.None?
    ensures var r := TickStep(s, now);
      && r.outbox == s.outbox + [Sent(GenerateBossMessage(s.nextBossAt.value, now)), Pinned(|s.outbox|)]
      && r.bossMessage == Some(|s.outbox|) && r.alertTimes == ALERT_TIMES
      && r.level == s.level && r.history == s.history
      && r.nextBossAt == s.nextBossAt && r.lastUpdatedAt == s.lastUpdatedAt
  {
  }

  /** The tracker after `set_next(16.minutes)` on a fresh start. */
  lemma FreshSetNextSixteen(t0: int)
    ensures SetNextStep(Initial(), 960, t0) ==
      State(None, [t0 + 960 - BOSS_DELAY], Some(t0 + 960), None, [], None, [Sent(ALIVE)])
  {
    SetNextOnFreshTracker(960, t0);
  }

  /** Ticks at 0s, 1m 10s and 2m 40s: the status is sent and pinned, then
      edited with a ping for the 15-minute threshold, then edited alone. */
  lemma AlertScenarioOpening(t0: int, s1: State, s2: State, s3: State)
    requires s1 == TickStep(SetNextStep(Initial(), 960, t0), t0)
    requires s2 == TickStep(s1, t0 + 70) && s3 == TickStep(s2, t0 + 160)
    ensures var at := t0 + 960;
      && s1.outbox == [Sent(ALIVE), Sent(GenerateBossMessage(at, t0)), Pinned(1)]
      && s2.outbox == s1.outbox + [Edited(1, GenerateBossMessage(at, t0 + 70)), Sent(AlertMessage(at, t0 + 70))]
      && s3.outbox == s2.outbox + [Edited(1, GenerateBossMessage(at, t0 + 160))]
      && s3.alertTimes == [300, 120] && s3.bossMessage == Some(1) && s3.nextBossAt == Some(at)
      && s3.lastUpdatedAt == Some(t0 + 160)
  {
    var at := t0 + 960;
    var s0 := SetNextStep(Initial(), 960, t0);
    FreshSetNextSixteen(t0);
    assert s1.outbox == [Sent(ALIVE), Sent(GenerateBossMessage(at, t0)), Pinned(1)]
        && s1.alertTimes == [900, 300, 120] && s1.bossMessage == Some(1) && s1.lastUpdatedAt == None
        && s1.nextBossAt == Some(at) by {
      TickCreates(s0, t0);
    }
    assert s2.outbox == s1.outbox + [Edited(1, GenerateBossMessage(at, t0 + 70)), Sent(AlertMessage(at, t0 + 70))]
        && s2.alertTimes == [300, 120] && s2.bossMessage == Some(1) && s2.nextBossAt == Some(at)
        && s2.lastUpdatedAt == Some(t0 + 70) by {
      TickEdits(s1, t0 + 70);
      assert PopDue([900, 300, 120], 890) == ([300, 120], Some(900));
    }
    TickEdits(s2, t0 + 160);
    assert PopDue([300, 120], 800) == ([300, 120], None);
  }

  /** Ticks at 11m and 12m: an edit with a ping for the 5-minute threshold,
      then an edit alone. */
  lemma AlertScenarioMiddle(t0: int, s3: State, s4: State, s5: State)
    requires s3.alertTimes == [300, 120] && s3.bossMessage == Some(1) && s3.nextBossAt == Some(t0 + 960)
    requires s3.lastUpdatedAt == Some(t0 + 160)
    requires s4 == TickStep(s3, t0 + 660) && s5 == TickStep(s4, t0 + 720)
    ensures var at := t0 + 960;
      && s4.outbox == s3.outbox + [Edited(1, GenerateBossMessage(at, t0 + 660)), Sent(AlertMessage(at, t0 + 660))]
      && s5.outbox == s4.outbox + [Edited(1, GenerateBossMessage(at, t0 + 720))]
      && s5.alertTimes == [120] && s5.bossMessage == Some(1) && s5.nextBossAt == Some(at)
      && s5.lastUpdatedAt == Some(t0 + 720)
  {
    var at := t0 + 960;
    assert s4.outbox == s3.outbox + [Edited(1, GenerateBossMessage(at, t0 + 660)), Sent(AlertMessage(at, t0 + 660))]
        && s4.alertTimes == [120] && s4.bossMessage == Some(1) && s4.nextBossAt == Some(at)
        && s4.lastUpdatedAt == Some(t0 + 660) by {
      TickEdits(s3, t0 + 660);
      assert PopDue([300, 120], 300) == ([120], Some(300));
    }
    TickEdits(s4, t0 + 720);
    assert PopDue([120], 240) == ([120], None);
  }

  /** The tick at 14m 5s: an edit with a ping for the 2-minute threshold,
      the last one. */
  lemma AlertScenarioLast(t0: int, s5: State, s6: State)
    requires s5.alertTimes == [120] && s5.bossMessage == Some(1) && s5.nextBossAt == Some(t0 + 960)
    requires s5.lastUpdatedAt == Some(t0 + 720)
    requires s6 == TickStep(s5, t0 + 845)
    ensures var at := t0 + 960;
      && s6.outbox == s5.outbox + [Edited(1, GenerateBossMessage(at, t0 + 845)), Sent(AlertMessage(at, t0 + 845))]
      && s6.alertTimes == []
  {
    TickEdits(s5, t0 + 845);
    assert PopDue([120], 115) == ([], Some(120));
  }

  // The texts of the scenario's status messages and pings, tick by tick.

  lemma TextsAtZero(t0: int)
    ensures GenerateBossMessage(t0 + 960, t0) == "Next boss in 16m 0s"
  {
    TimeDeltaSixteenMinutes();
  }

  lemma TextsAtSeventy(t0: int)
    ensures GenerateBossMessage(t0 + 960, t0 + 70) == "Next boss in 14m 50s"
    ensures AlertMessage(t0 + 960, t0 + 70) == "@everyone Next boss in 14m 50s"
  {
    TimeDeltaFourteenFifty();
  }

  lemma TextsAtOneSixty(t0: int)
    ensures GenerateBossMessage(t0 + 960, t0 + 160) == "Next boss in 13m 20s"
  {
    TimeDeltaThirteenTwenty();
  }

  lemma TextsAtSixSixty(t0: int)
    ensures GenerateBossMessage(t0 + 960, t0 + 660) == "Next boss in 5m 0s"
    ensures AlertMessage(t0 + 960, t0 + 660) == "@everyone Next boss in 5m 0s"
  {
    TimeDeltaFiveMinutes();
  }

  lemma TextsAtSevenTwenty(t0: int)
    ensures GenerateBossMessage(t0 + 960, t0 + 720) == "Next boss in 4m 0s"
  {
    TimeDeltaFourMinutes();
  }

  lemma TextsAtEightFortyFive(t0: int)
    ensures GenerateBossMessage(t0 + 960, t0 + 845) == "Next boss in 1m 55s"
    ensures AlertMessage(t0 + 960, t0 + 845) == "@everyone Next boss in 1m 55s"
  {
    TimeDeltaOneFiftyFive();
  }
}
