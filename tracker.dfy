/** BossTracker: the single-channel state machine that knows the clan level,
    the recent kill times and when the next boss comes, keeps a pinned
    "Next boss in ..." status message up to date from a periodic tick, and
    pings everyone as the boss approaches.

    The wall clock is the `now` argument, in whole seconds. The channel is
    the tracker's outbox (see module Channel). Every operation is specified
    by a step function on a `State` value; the class's methods do what the
    Ruby methods do, field by field, and are proved to take exactly those
    steps. */
module Tracker {
  import opened Optional
  import opened Text
  import opened Durations
  import opened Suffixes
  import opened Channel
  import opened Alerts

  const BOSS_DELAY: int := 6 * 60 * 60
  const UPDATE_DELAY: int := 2
  const HISTORY_SIZE: nat := 10
  const ALERT_TIMES: seq<int> := [15 * 60, 5 * 60, 2 * 60]

  const ALIVE := "I'm alive"
  const NOT_FIGHTING := "You're not fighting a boss yet"
  const NO_HISTORY := "No history recorded"
  const FIGHT_IN_PROGRESS := "Boss fight in progress"
  const TIME_UNKNOWN := "Next boss time is unknown."

  // ---- Kill history ----

  /** `record_boss_kill`: either push the kill time and keep only the newest
      `HISTORY_SIZE + 1` entries, or replace the newest entry by it. */
  function RecordKill(history: seq<int>, killedAt: int, replaceLast: bool): seq<int>
  {
    if replaceLast then
      (if history == [] then [] else history[..|history| - 1]) + [killedAt]
    else
      var pushed := history + [killedAt];
      if |pushed| > HISTORY_SIZE + 1 then pushed[|pushed| - (HISTORY_SIZE + 1)..] else pushed
  }

  /** Appending keeps the newest entries in order, ends with the new kill, and
      never holds more than `HISTORY_SIZE + 1` entries. */
  lemma RecordKillAppends(history: seq<int>, killedAt: int)
    ensures var r := RecordKill(history, killedAt, false);
      && |r| == (if |history| < HISTORY_SIZE + 1 then |history| + 1 else HISTORY_SIZE + 1)
      && r[|r| - 1] == killedAt
      && r[..|r| - 1] == history[|history| - (|r| - 1)..]
  {
  }

  /** Replacing keeps the length (1 for an empty history) and changes only
      the newest entry. */
  lemma RecordKillReplaces(history: seq<int>, killedAt: int)
    ensures var r := RecordKill(history, killedAt, true);
      && |r| == (if history == [] then 1 else |history|)
      && r[|r| - 1] == killedAt
      && r[..|r| - 1] == (if history == [] then [] else history[..|history| - 1])
  {
  }

  // ---- Message texts ----

  /** `clan_bonus_message`. */
  function BonusMessageText(level: Option<int>): string {
    match level
    case None => "Clan level is unknown"
    case Some(l) => "Clan level is " + IntToString(l) + " with a bonus of " + BonusString(l)
  }

  /** The text `print_lass_boss_kill_time` sends: how long the last fight
      took, counted from when the boss appeared. */
  function KillTimeMessage(history: seq<int>): string
    requires |history| >= 2
  {
    "Boss killed in "
    + TimeDeltaString(history[|history| - 1] - history[|history| - 2] - BOSS_DELAY) + "."
  }

  /** The boss number `print_history` shows for the pair ending at index `i`. */
  function BossNumber(level: Option<int>, size: int, i: int): int {
    match level
    case Some(l) => l - size + i
    case None => i
  }

  /** `"Boss %3d - #{time_delta_string(boss_time)}" % boss_num`. */
  function HistoryRow(bossNum: int, bossTime: int): string {
    "Boss " + PadLeft(IntToString(bossNum), 3) + " - " + TimeDeltaString(bossTime)
  }

  /** One row per pair of adjacent kills, oldest first. */
  function HistoryRows(history: seq<int>, level: Option<int>): (rows: seq<string>)
    requires |history| >= 1
    ensures |rows| == |history| - 1
  {
    seq(|history| - 1, i requires 0 <= i < |history| - 1 =>
      HistoryRow(BossNumber(level, |history|, i + 1), history[i + 1] - history[i] - BOSS_DELAY))
  }

  /** The row for the kills at `i - 1` and `i`, given its number and the
      fight's duration. */
  lemma HistoryRowAt(history: seq<int>, level: Option<int>, i: int, n: int, t: int)
    requires 1 <= i < |history|
    requires BossNumber(level, |history|, i) == n && history[i] - history[i - 1] - BOSS_DELAY == t
    ensures HistoryRows(history, level)[i - 1] == HistoryRow(n, t)
  {
  }

  /** The table `print_history` sends, inside a js code block. */
  function HistoryMessage(history: seq<int>, level: Option<int>): string
    requires |history| >= 1
  {
    Join(["```js"] + HistoryRows(history, level) + ["```"], '\n')
  }

  /** `generate_boss_message`. */
  function GenerateBossMessage(at: int, now: int): string {
    "Next boss in " + EtlString(at, now)
  }

  /** The ping `boss_alert_channel` sends. */
  function AlertMessage(at: int, now: int): string {
    "@everyone Next boss in " + EtlString(at, now)
  }

  // ---- The state and its steps ----

  datatype State = State(
    level: Option<int>,
    history: seq<int>,
    nextBossAt: Option<int>,
    bossMessage: Option<nat>,
    alertTimes: seq<int>,
    lastUpdatedAt: Option<int>,
    outbox: seq<Event>)

  /** What every reachable state satisfies: the history bound; the pending
      alert thresholds are what remains of ALERT_TIMES after shifting; the
      status message, if any, was sent, belongs to a known boss time, and is
      the one and only message the tracker has pinned. */
  ghost predicate Inv(s: State) {
    && |s.history| <= HISTORY_SIZE + 1
    && IsSuffix(s.alertTimes, ALERT_TIMES)
    && (s.bossMessage.Some? ==>
          && s.nextBossAt.Some?
          && s.bossMessage.value < |s.outbox|
          && s.outbox[s.bossMessage.value].Sent?)
    && PinnedExactly(s.outbox, s.bossMessage)
  }

  function Initial(): State {
    State(None, [], None, None, [], None, [Sent(ALIVE)])
  }

  /** `channel.send_message(text)`. */
  function SendStep(s: State, text: string): State {
    s.(outbox := s.outbox + [Sent(text)])
  }

  function PrintLevelStep(s: State): State {
    SendStep(s, BonusMessageText(s.level))
  }

  function SetLevelStep(s: State, level: int): State {
    PrintLevelStep(s.(level := Some(level)))
  }

  /** `set_level(level + 1) if level`. */
  function IncrementLevelStep(s: State): State {
    if s.level.Some? then SetLevelStep(s, s.level.value + 1) else s
  }

  function ClearBossMessageStep(s: State): State {
    if s.bossMessage.None? then s
    else s.(outbox := s.outbox + [Unpinned(s.bossMessage.value)], bossMessage := None)
  }

  function SetNextBossTimeStep(s: State, seconds: int, now: int): State {
    ClearBossMessageStep(s).(nextBossAt := Some(now + seconds))
  }

  function RecordBossKillStep(s: State, killedAt: int, replaceLast: bool): State {
    s.(history := RecordKill(s.history, killedAt, replaceLast))
  }

  function PrintLastBossKillTimeStep(s: State): State {
    if |s.history| > 1 then SendStep(s, KillTimeMessage(s.history)) else s
  }

  function KillStep(s: State, now: int): State {
    if s.nextBossAt.Some? && s.nextBossAt.value > now then
      SendStep(s, NOT_FIGHTING)
    else
      var leveled := IncrementLevelStep(s);
      var recorded := RecordBossKillStep(leveled, now, false);
      var armed := SetNextBossTimeStep(recorded, Time(0, 0, BOSS_DELAY), now);
      ClearBossMessageStep(PrintLastBossKillTimeStep(armed))
  }

  /** The first half of `set_next`: record when the boss was beaten, as a
      new kill when the previous boss time has passed (raising the level),
      otherwise by amending the newest record; then report the kill time. */
  function RecordScheduledKillStep(s: State, seconds: int, now: int): State {
    if s.nextBossAt.Some? && s.nextBossAt.value < now then
      PrintLastBossKillTimeStep(IncrementLevelStep(RecordBossKillStep(s, now + seconds - BOSS_DELAY, false)))
    else
      PrintLastBossKillTimeStep(RecordBossKillStep(s, now + seconds - BOSS_DELAY, true))
  }

  function SetNextStep(s: State, seconds: int, now: int): State {
    SetNextBossTimeStep(RecordScheduledKillStep(s, seconds, now), seconds, now)
  }

  function PrintHistoryStep(s: State): State {
    if |s.history| < 2 then SendStep(s, NO_HISTORY)
    else SendStep(s, HistoryMessage(s.history, s.level))
  }

  function CreateBossMessageStep(s: State, now: int): State
    requires s.nextBossAt.Some?
  {
    var unpinned :=
      if s.bossMessage.Some? then s.(outbox := s.outbox + [Unpinned(s.bossMessage.value)]) else s;
    var handle := |unpinned.outbox|;
    unpinned.(
      outbox := unpinned.outbox + [Sent(GenerateBossMessage(s.nextBossAt.value, now)), Pinned(handle)],
      bossMessage := Some(handle),
      alertTimes := ALERT_TIMES)
  }

  function BossAlertChannelStep(s: State, now: int): State {
    if s.alertTimes == [] || s.nextBossAt.None? then s
    else
      var (rest, last) := PopDue(s.alertTimes, s.nextBossAt.value - now);
      var popped := s.(alertTimes := rest);
      if last.None? then popped else SendStep(popped, AlertMessage(s.nextBossAt.value, now))
  }

  function UpdateBossMessageStep(s: State, now: int): State
    requires s.bossMessage.Some? && s.nextBossAt.Some?
  {
    if s.lastUpdatedAt.Some? && s.lastUpdatedAt.value + UPDATE_DELAY > now then s
    else
      var edited := s.(
        lastUpdatedAt := Some(now),
        outbox := s.outbox + [Edited(s.bossMessage.value, GenerateBossMessage(s.nextBossAt.value, now))]);
      BossAlertChannelStep(edited, now)
  }

  /** Whether the boss time is known and still ahead. */
  predicate Armed(s: State, now: int) {
    s.nextBossAt.Some? && s.nextBossAt.value > now
  }

  function TickStep(s: State, now: int): State {
    if !Armed(s, now) then s
    else if s.bossMessage.Some? then UpdateBossMessageStep(s, now)
    else CreateBossMessageStep(s, now)
  }

  function PrintTimerStep(s: State, now: int): State {
    match s.nextBossAt
    case None => SendStep(s, TIME_UNKNOWN)
    case Some(at) => if at > now then CreateBossMessageStep(s, now) else SendStep(s, FIGHT_IN_PROGRESS)
  }

  // ---- The invariant is kept by every step ----

  lemma InitialInv()
    ensures Inv(Initial())
  {
    PinnedKeptByMessage([], Sent(ALIVE), None);
  }

  lemma SendKeepsInv(s: State, text: string)
    requires Inv(s)
    ensures Inv(SendStep(s, text))
  {
    PinnedKeptByMessage(s.outbox, Sent(text), s.bossMessage);
  }

  lemma ClearKeepsInv(s: State)
    requires Inv(s)
    ensures Inv(ClearBossMessageStep(s))
    ensures PinnedExactly(ClearBossMessageStep(s).outbox, None)
  {
    if s.bossMessage.Some? {
      UnpinOnly(s.outbox, s.bossMessage.value);
    }
  }

  lemma RecordKeepsInv(s: State, killedAt: int, replaceLast: bool)
    requires Inv(s)
    ensures Inv(RecordBossKillStep(s, killedAt, replaceLast))
  {
  }

  lemma CreateKeepsInv(s: State, now: int)
    requires Inv(s) && s.nextBossAt.Some?
    ensures Inv(CreateBossMessageStep(s, now))
  {
    var unpinned :=
      if s.bossMessage.Some? then s.(outbox := s.outbox + [Unpinned(s.bossMessage.value)]) else s;
    if s.bossMessage.Some? {
      UnpinOnly(s.outbox, s.bossMessage.value);
    }
    assert PinnedExactly(unpinned.outbox, None);
    var handle := |unpinned.outbox|;
    var text := GenerateBossMessage(s.nextBossAt.value, now);
    PinnedKeptByMessage(unpinned.outbox, Sent(text), None);
    PinOnly(unpinned.outbox + [Sent(text)], handle);
    assert unpinned.outbox + [Sent(text), Pinned(handle)] == unpinned.outbox + [Sent(text)] + [Pinned(handle)];
  }

  lemma AlertsStayOfficial(alerts: seq<int>, delta: int)
    requires IsSuffix(alerts, ALERT_TIMES)
    ensures IsSuffix(PopDue(alerts, delta).0, ALERT_TIMES)
  {
    PopDueSpec(alerts, delta);
    SuffixTransitive(PopDue(alerts, delta).0, alerts, ALERT_TIMES);
  }

  lemma AlertKeepsInv(s: State, now: int)
    requires Inv(s)
    ensures Inv(BossAlertChannelStep(s, now))
  {
    if s.alertTimes != [] && s.nextBossAt.Some? {
      var p := PopDue(s.alertTimes, s.nextBossAt.value - now);
      AlertsStayOfficial(s.alertTimes, s.nextBossAt.value - now);
      var r := BossAlertChannelStep(s, now);
      assert r.alertTimes == p.0 && r.bossMessage == s.bossMessage && r.nextBossAt == s.nextBossAt;
      assert r.history == s.history;
      if p.1.Some? {
        assert r.outbox == s.outbox + [Sent(AlertMessage(s.nextBossAt.value, now))];
        PinnedKeptByMessage(s.outbox, Sent(AlertMessage(s.nextBossAt.value, now)), s.bossMessage);
      } else {
        assert r.outbox == s.outbox;
      }
    }
  }

  lemma UpdateKeepsInv(s: State, now: int)
    requires Inv(s) && s.bossMessage.Some?
    ensures Inv(UpdateBossMessageStep(s, now))
  {
    if !(s.lastUpdatedAt.Some? && s.lastUpdatedAt.value + UPDATE_DELAY > now) {
      var e := Edited(s.bossMessage.value, GenerateBossMessage(s.nextBossAt.value, now));
      PinnedKeptByMessage(s.outbox, e, s.bossMessage);
      AlertKeepsInv(s.(lastUpdatedAt := Some(now), outbox := s.outbox + [e]), now);
    }
  }

  lemma SetLevelKeepsInv(s: State, level: int)
    requires Inv(s)
    ensures Inv(SetLevelStep(s, level))
    ensures Inv(PrintLevelStep(s))
    ensures Inv(IncrementLevelStep(s))
  {
    SendKeepsInv(s.(level := Some(level)), BonusMessageText(Some(level)));
    SendKeepsInv(s, BonusMessageText(s.level));
    if s.level.Some? {
      SendKeepsInv(s.(level := Some(s.level.value + 1)), BonusMessageText(Some(s.level.value + 1)));
    }
  }

  lemma SetNextBossTimeKeepsInv(s: State, seconds: int, now: int)
    requires Inv(s)
    ensures Inv(SetNextBossTimeStep(s, seconds, now))
  {
    ClearKeepsInv(s);
  }

  lemma PrintLastKeepsInv(s: State)
    requires Inv(s)
    ensures Inv(PrintLastBossKillTimeStep(s))
  {
    if |s.history| > 1 {
      SendKeepsInv(s, KillTimeMessage(s.history));
    }
  }

  lemma KillPreservesInv(s: State, now: int)
    requires Inv(s)
    ensures Inv(KillStep(s, now))
  {
    if s.nextBossAt.Some? && s.nextBossAt.value > now {
      SendKeepsInv(s, NOT_FIGHTING);
    } else {
      SetLevelKeepsInv(s, 0);
      var leveled := IncrementLevelStep(s);
      RecordKeepsInv(leveled, now, false);
      var recorded := RecordBossKillStep(leveled, now, false);
      SetNextBossTimeKeepsInv(recorded, Time(0, 0, BOSS_DELAY), now);
      var armed := SetNextBossTimeStep(recorded, Time(0, 0, BOSS_DELAY), now);
      PrintLastKeepsInv(armed);
      ClearKeepsInv(PrintLastBossKillTimeStep(armed));
    }
  }

  lemma SetNextPreservesInv(s: State, seconds: int, now: int)
    requires Inv(s)
    ensures Inv(SetNextStep(s, seconds, now))
  {
    var late := s.nextBossAt.Some? && s.nextBossAt.value < now;
    RecordKeepsInv(s, now + seconds - BOSS_DELAY, !late);
    var recorded := RecordBossKillStep(s, now + seconds - BOSS_DELAY, !late);
    if late {
      SetLevelKeepsInv(recorded, 0);
      PrintLastKeepsInv(IncrementLevelStep(recorded));
      SetNextBossTimeKeepsInv(PrintLastBossKillTimeStep(IncrementLevelStep(recorded)), seconds, now);
    } else {
      PrintLastKeepsInv(recorded);
      SetNextBossTimeKeepsInv(PrintLastBossKillTimeStep(recorded), seconds, now);
    }
  }

  lemma TickPreservesInv(s: State, now: int)
    requires Inv(s)
    ensures Inv(TickStep(s, now))
  {
    if Armed(s, now) {
      if s.bossMessage.Some? {
        UpdateKeepsInv(s, now);
      } else {
        CreateKeepsInv(s, now);
      }
    }
  }

  lemma PrintTimerPreservesInv(s: State, now: int)
    requires Inv(s)
    ensures Inv(PrintTimerStep(s, now))
  {
    match s.nextBossAt
    case None => SendKeepsInv(s, TIME_UNKNOWN);
    case Some(at) =>
      if at > now {
        CreateKeepsInv(s, now);
      } else {
        SendKeepsInv(s, FIGHT_IN_PROGRESS);
      }
  }

  lemma PrintHistoryPreservesInv(s: State)
    requires Inv(s)
    ensures Inv(PrintHistoryStep(s))
  {
    if |s.history| < 2 {
      SendKeepsInv(s, NO_HISTORY);
    } else {
      SendKeepsInv(s, HistoryMessage(s.history, s.level));
    }
  }

  // ---- The tracker object ----

  class BossTracker {
    var level: Option<int>
    var history: seq<int>
    var nextBossAt: Option<int>
    var bossMessage: Option<nat>
    var alertTimes: seq<int>
    var lastUpdatedAt: Option<int>
    var outbox: seq<Event>

    function Snapshot(): State
      reads this
    {
      State(level, history, nextBossAt, bossMessage, alertTimes, lastUpdatedAt, outbox)
    }

    ghost predicate Valid()
      reads this
    {
      Inv(Snapshot())
    }

    /** `initialize`: says it is alive; no level, history or boss time yet. */
    constructor ()
      ensures Valid() && Snapshot() == Initial()
    {
      level := None;
      history := [];
      nextBossAt := None;
      bossMessage := None;
      alertTimes := [];
      lastUpdatedAt := None;
      outbox := [Sent(ALIVE)];
      InitialInv();
    }

    /** `channel.send_message(text)`. */
    method SendMessage(text: string)
      modifies this
      ensures Snapshot() == SendStep(old(Snapshot()), text)
    {
      outbox := outbox + [Sent(text)];
    }

    /** `tick`: nothing unless the boss time is ahead; then edit the status
        message, or create and pin one if there is none. */
    method Tick(now: int)
      requires Valid()
      modifies this
      ensures Valid() && Snapshot() == TickStep(old(Snapshot()), now)
    {
      TickPreservesInv(Snapshot(), now);
      if !(nextBossAt.Some? && nextBossAt.value > now) {
        return;
      }
      if bossMessage.Some? {
        UpdateBossMessage(now);
      } else {
        CreateBossMessage(now);
      }
    }

    method SetLevel(newLevel: int)
      requires Valid()
      modifies this
      ensures Valid() && Snapshot() == SetLevelStep(old(Snapshot()), newLevel)
    {
      SetLevelKeepsInv(Snapshot(), newLevel);
      level := Some(newLevel);
      PrintLevel();
    }

    method PrintLevel()
      requires Valid()
      modifies this
      ensures Valid() && Snapshot() == PrintLevelStep(old(Snapshot()))
    {
      SetLevelKeepsInv(Snapshot(), 0);
      var text := ClanBonusMessage();
      SendMessage(text);
    }

    /** `clan_bonus_message`. */
    method ClanBonusMessage() returns (text: string)
      ensures text == BonusMessageText(level)
    {
      if level.None? {
        return "Clan level is unknown";
      }
      var bonus := BossBonusString();
      text := "Clan level is " + IntToString(level.value) + " with a bonus of " + bonus;
    }

    /** `boss_bonus_string`. */
    method BossBonusString() returns (text: string)
      ensures level.None? ==> text == "unknown"
      ensures level.Some? ==> text == BonusString(level.value)
    {
      if level.None? {
        return "unknown";
      }
      var suffixed := NumberWithSuffix(BonusPercent(level.value));
      text := suffixed + "%";
    }

    method SetNext(seconds: int, now: int)
      requires Valid()
      modifies this
      ensures Valid() && Snapshot() == SetNextStep(old(Snapshot()), seconds, now)
    {
      SetNextPreservesInv(Snapshot(), seconds, now);
      RecordScheduledKill(seconds, now);
      SetNextBossTime(seconds, now);
    }

    method RecordScheduledKill(seconds: int, now: int)
      modifies this
      ensures Snapshot() == RecordScheduledKillStep(old(Snapshot()), seconds, now)
    {
      ghost var s0 := Snapshot();
      if nextBossAt.Some? && nextBossAt.value < now {
        RecordBossKill(now + seconds - BOSS_DELAY, false);
        IncrementLevel();
        ghost var s2 := Snapshot();
        assert s2 == IncrementLevelStep(RecordBossKillStep(s0, now + seconds - BOSS_DELAY, false));
        PrintLastBossKillTime();
      } else {
        RecordBossKill(now + seconds - BOSS_DELAY, true);
        ghost var s1 := Snapshot();
        assert s1 == RecordBossKillStep(s0, now + seconds - BOSS_DELAY, true);
        PrintLastBossKillTime();
      }
    }

    /** `set_level(level + 1) if level`. */
    method IncrementLevel()
      modifies this
      ensures Snapshot() == IncrementLevelStep(old(Snapshot()))
    {
      if level.Some? {
        level := Some(level.value + 1);
        var text := ClanBonusMessage();
        SendMessage(text);
      }
    }

    method Kill(now: int)
      requires Valid()
      modifies this
      ensures Valid() && Snapshot() == KillStep(old(Snapshot()), now)
    {
      KillPreservesInv(Snapshot(), now);
      if nextBossAt.Some? && nextBossAt.value > now {
        SendMessage(NOT_FIGHTING);
        return;
      }
      IncrementLevel();
      RecordBossKill(now, false);
      SetNextBossTime(Time(0, 0, BOSS_DELAY), now);
      PrintLastBossKillTime();
      ClearBossMessage();
    }

    /** `print_history`: "No history recorded" below two kills, otherwise
        the table of adjacent kills. */
    method PrintHistory()
      requires Valid()
      modifies this
      ensures Valid() && Snapshot() == PrintHistoryStep(old(Snapshot()))
    {
      PrintHistoryPreservesInv(Snapshot());
      if |history| < 2 {
        SendMessage(NO_HISTORY);
        return;
      }
      var lines := HistoryTable();
      SendMessage(Join(lines, '\n'));
    }

    /** The loop of `print_history`: the fenced table, one row per pair of
        adjacent kills. */
    method HistoryTable() returns (lines: seq<string>)
      requires |history| >= 2
      ensures lines == ["```js"] + HistoryRows(history, level) + ["```"]
    {
      var rows := HistoryRows(history, level);
      lines := ["```js"];
      var i := 1;
      while i < |history|
        invariant 1 <= i <= |history|
        invariant lines == ["```js"] + rows[..i - 1]
      {
        var bossNum := BossNumber(level, |history|, i);
        var bossTime := history[i] - history[i - 1] - BOSS_DELAY;
        assert rows[..i] == rows[..i - 1] + [rows[i - 1]];
        lines := lines + [HistoryRow(bossNum, bossTime)];
        i := i + 1;
      }
      assert rows[..i - 1] == rows;
      lines := lines + ["```"];
    }

    method PrintTimer(now: int)
      requires Valid()
      modifies this
      ensures Valid() && Snapshot() == PrintTimerStep(old(Snapshot()), now)
    {
      PrintTimerPreservesInv(Snapshot(), now);
      if nextBossAt.Some? {
        if nextBossAt.value > now {
          CreateBossMessage(now);
        } else {
          SendMessage(FIGHT_IN_PROGRESS);
        }
      } else {
        SendMessage(TIME_UNKNOWN);
      }
    }

    /** `set_next_boss_time`: drop the status message, then set the time. */
    method SetNextBossTime(seconds: int, now: int)
      modifies this
      ensures Snapshot() == SetNextBossTimeStep(old(Snapshot()), seconds, now)
    {
      ClearBossMessage();
      nextBossAt := Some(now + seconds);
    }

    /** `update_boss_message`: at most one edit per UPDATE_DELAY seconds,
        each followed by an alert step. */
    method UpdateBossMessage(now: int)
      requires bossMessage.Some? && nextBossAt.Some?
      modifies this
      ensures Snapshot() == UpdateBossMessageStep(old(Snapshot()), now)
    {
      if lastUpdatedAt.Some? && lastUpdatedAt.value + UPDATE_DELAY > now {
        return;
      }
      lastUpdatedAt := Some(now);
      outbox := outbox + [Edited(bossMessage.value, GenerateBossMessage(nextBossAt.value, now))];
      BossAlertChannel(now);
    }

    /** `boss_alert_channel`: shift every reached threshold off `alertTimes`
        in place; ping once if any was shifted. */
    method BossAlertChannel(now: int)
      modifies this
      ensures Snapshot() == BossAlertChannelStep(old(Snapshot()), now)
    {
      if alertTimes == [] || nextBossAt.None? {
        return;
      }
      var delta := nextBossAt.value - now;
      var nextAlert: Option<int> := None;
      while alertTimes != [] && delta <= alertTimes[0]
        invariant Snapshot() == old(Snapshot()).(alertTimes := alertTimes)
        invariant PopDue(old(alertTimes), delta) ==
          (PopDue(alertTimes, delta).0,
           if PopDue(alertTimes, delta).1.Some? then PopDue(alertTimes, delta).1 else nextAlert)
        decreases |alertTimes|
      {
        nextAlert := Some(alertTimes[0]);
        alertTimes := alertTimes[1..];
      }
      if nextAlert.None? {
        return;
      }
      SendMessage(AlertMessage(nextBossAt.value, now));
    }

    /** `create_boss_message`: unpin the old status message, send and pin a
        new one, and re-arm every alert threshold. */
    method CreateBossMessage(now: int)
      requires nextBossAt.Some?
      modifies this
      ensures Snapshot() == CreateBossMessageStep(old(Snapshot()), now)
    {
      if bossMessage.Some? {
        outbox := outbox + [Unpinned(bossMessage.value)];
      }
      var handle := |outbox|;
      SendMessage(GenerateBossMessage(nextBossAt.value, now));
      bossMessage := Some(handle);
      outbox := outbox + [Pinned(handle)];
      alertTimes := ALERT_TIMES;
    }

    /** `clear_boss_message`. */
    method ClearBossMessage()
      modifies this
      ensures Snapshot() == ClearBossMessageStep(old(Snapshot()))
    {
      if bossMessage.None? {
        return;
      }
      outbox := outbox + [Unpinned(bossMessage.value)];
      bossMessage := None;
    }

    /** `record_boss_kill`: pop and push, or push and trim to the newest
        `HISTORY_SIZE + 1`. */
    method RecordBossKill(killedAt: int, replaceLast: bool)
      modifies this
      ensures Snapshot() == RecordBossKillStep(old(Snapshot()), killedAt, replaceLast)
    {
      if replaceLast {
        if history != [] {
          history := history[..|history| - 1];
        }
        history := history + [killedAt];
      } else {
        history := history + [killedAt];
        if |history| > HISTORY_SIZE + 1 {
          history := history[|history| - (HISTORY_SIZE + 1)..];
        }
      }
    }

    /** `print_lass_boss_kill_time`. */
    method PrintLastBossKillTime()
      modifies this
      ensures Snapshot() == PrintLastBossKillTimeStep(old(Snapshot()))
    {
      if |history| <= 1 {
        return;
      }
      SendMessage(KillTimeMessage(history));
    }
  }
}
