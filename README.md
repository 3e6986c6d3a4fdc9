# Boss tracker bot, modelled in Dafny

A Discord bot that helps a clan keep track of a recurring boss. The model
covers three pieces of it.

- **BossTracker.** This is the bot's state machine. It holds:
  - the clan level;
  - the most recent kill times;
  - when the next boss appears;
  - a pinned "Next boss in ..." status message.

  A periodic `tick` keeps the status message current, at most once every
  two seconds. It pings `@everyone` 15, 5 and 2 minutes before the boss
  appears. `kill` and `set_next` record kills and raise the level.
  `print_history` shows the fights as a table. `print_level` shows the clan
  bonus, a power of 1.1 (and 1.05 past level 200), written with a
  K/M/B/... suffix.
- **BossTimer.** This is the older, simpler tracker. It keeps only the next
  boss time, edits its status message on every tick and pings 10, 2 and
  1 minutes ahead.
- **The command layer.** This covers three things:
  - how `next` reads its time argument with `TIME_REGEX` and `parse_time`;
  - how `level` validates its argument;
  - how `help` lays out its table.

How the model is built:

- **Clock.** The wall clock is an explicit `now` argument, in whole seconds.
- **Channel.** The Discord channel is an append-only outbox of events:
  `Sent`, `Edited`, `Pinned` and `Unpinned` (module `Channel`). A message
  handle is the index of the `Sent` event that created it. A derived
  predicate tells which messages are pinned.
- **State machines.** Each tracker is a `class` whose fields the methods
  update in place, as the Ruby objects do. Each method is proved to take
  exactly the step that a pure step function on a `State` value describes.
  The lemmas about those step functions state what the trackers promise:
  - the class invariant, which every step keeps;
  - what `kill`, `set_next`, `tick` and `print_timer` do;
  - that no threshold pings twice between two creations of the status
    message;
  - that edits are throttled;
  - the unit tests' scenarios.

Files:

| file | contents |
|---|---|
| `optional.dfy` | the `Option` type |
| `text.dfy` | decimal rendering, padding (`%3d`, `%-7s`), join and split |
| `durations.dfy` | `time`, `time_delta_string` and `etl_string`, with an independent reader of the rendered text |
| `suffixes.dfy` | `boss_bonus_string` and `number_with_suffix` |
| `channel.dfy` | the outbox and the pin state |
| `alerts.dfy` | the alert-threshold loop shared by both trackers |
| `tracker.dfy` | BossTracker |
| `tracker_properties.dfy`, `tracker_examples.dfy` | what BossTracker promises |
| `timer.dfy` | BossTimer |
| `bot.dfy` | `TIME_REGEX`, `parse_time`, `next`, `level` and `help` |

Where the code and the written description of the system disagree, the model
follows the code:

- `time_delta_string` prints a zero minutes field above an hour
  ("1h 0m 5s").
- The amending branch of `set_next` still reports "Boss killed in ...".
- `create_boss_message` re-arms every alert threshold.

## Model

| member | source | states |
|---|---|---|
| Text.NatToStringRoundTrip | src/boss_tracker.rb:113 | reading the decimal text of a natural number (`%d`) back gives the number |
| Text.DigitsRoundTrip | src/boss_tracker.rb:113 | a canonical digit string is exactly the text of the number it denotes |
| Text.PadLeft | src/boss_tracker.rb:81 | `%3d` padding: the width is at least 3, the number's text stands intact at the right end, and only spaces precede it |
| Text.PadRight | src/boss_tracker_bot.rb:83 | `%-Ns` padding: the width is at least N, the name stands intact at the left end, and only spaces follow it |
| Text.SplitJoin | src/boss_tracker.rb:84 | splitting the joined lines at the separator gives the lines back, when no line contains the separator |
| Channel.PinOnly | src/boss_tracker.rb:191 | pinning a message when nothing is pinned leaves exactly that message pinned |
| Channel.UnpinOnly | src/boss_tracker.rb:197 | unpinning the only pinned message leaves nothing pinned |
| Channel.PinnedKeptByMessage | src/boss_tracker.rb:169 | sending or editing a message does not change which message is pinned |
| Alerts.PopDueSpec | src/boss_tracker.rb:174-181 | one alert step drops a prefix of the thresholds, each of them reached by the time left; it keeps the first threshold not yet reached; it remembers the last threshold dropped |
| Alerts.PopDueFires | src/boss_tracker.rb:178-183 | a ping goes out exactly when the first pending threshold is reached, and the remembered threshold is one of the list's and was reached |
| Alerts.PopDueLeavesOnlyFuture | src/boss_tracker.rb:178-180 | on descending thresholds, every threshold kept after a step lies strictly ahead of the time left |
| Alerts.PopDueTwice | src/boss_tracker.rb:178-183 | a threshold that fires in a later step had not been reached at the earlier step |
| Alerts.PopDueNoRepeat | src/boss_tracker.rb:178-181 | after a step, a further step with at least as much time left drops nothing and fires nothing |
| Durations.TimeDeltaString | src/boss_tracker.rb:111-123 | `time_delta_string`: the seconds field "%ds" of the floor remainder by 60, then "%dm" once there is a whole minute, then "Nh" once there is a whole hour, most significant first, joined by single spaces |
| Durations.EtlString | src/boss_tracker.rb:106-109 | `etl_string`: the seconds from now until the given time, rendered by `time_delta_string` |
| Durations.TimeDeltaOfTime | src/boss_tracker.rb:102-104 | a duration of h:m:s renders as "Hh Mm Ss", with the hours field only when h > 0 and the minutes field only when there is a whole minute |
| Durations.TimeDeltaShape | src/boss_tracker.rb:111-123 | the rendering has 3, 2 or 1 fields by whether the duration reaches an hour, a minute or neither; each field is floor division by 60, the seconds field always last |
| Durations.ComponentRoundTrip | src/boss_tracker.rb:113-119 | a field such as "15m" reads back as the seconds it stands for and holds no space |
| Durations.ComponentsHaveNoSpace | src/boss_tracker.rb:122 | no field contains a space, so the `strip` after the join removes nothing |
| Durations.SumOfComponents | src/boss_tracker.rb:111-121 | the fields add up to the duration; for a negative one, only its seconds-of-minute (Ruby's floor modulo) survive |
| Durations.DecodeTimeDeltaString | src/boss_tracker.rb:111-123 | an independent reader splits the text at spaces and adds up the fields; it gets the duration back, or its floor remainder by 60 when negative |
| Durations.EtlStringReadsBack | src/boss_tracker.rb:106-109 | the time-left text reads back as the seconds until the boss (their floor remainder once the time has passed) |
| Durations.TimeDeltaSixteenMinutes | test/unit/boss_tracker_test.rb:357-363 | 960 seconds render as "16m 0s" |
| Durations.TimeDeltaOverAnHour | test/unit/boss_tracker_test.rb:320-323 | 3920 seconds render as "1h 5m 20s" |
| Durations.TimeDeltaUnderAMinute | test/unit/boss_tracker_test.rb:225-231 | 15 seconds render as "15s" |
| Durations.TimeDeltaFourteenFifty | test/unit/boss_tracker_test.rb:369-371 | 890 seconds render as "14m 50s" |
| Durations.TimeDeltaThirteenTwenty | test/unit/boss_tracker_test.rb:376-378 | 800 seconds render as "13m 20s" |
| Durations.TimeDeltaFiveMinutes | test/unit/boss_tracker_test.rb:383-385 | 300 seconds render as "5m 0s" |
| Durations.TimeDeltaFourMinutes | test/unit/boss_tracker_test.rb:390-392 | 240 seconds render as "4m 0s" |
| Durations.TimeDeltaOneFiftyFive | test/unit/boss_tracker_test.rb:397-399 | 115 seconds render as "1m 55s" |
| Suffixes.BonusPercent | src/boss_tracker.rb:133-142 | the bonus percentage of `boss_bonus_string`: (1.05^(level − 200) · 1.1^200 − 1) · 100 above level 200, (1.1^level − 1) · 100 otherwise |
| Suffixes.Fixed2 | src/boss_tracker.rb:154 | `"%.2f" % number`: a sign for negatives, the integer part, a point and two decimals, rounded half away from zero |
| Suffixes.SuffixedText | src/boss_tracker.rb:147-158 | the text `number_with_suffix` returns: the mantissa left by the division loop, to two decimals, followed by the suffix reached |
| Suffixes.BonusString | src/boss_tracker.rb:144 | `boss_bonus_string` for a known level: the suffixed bonus percentage followed by "%" |
| Suffixes.ScaleBounds | src/boss_tracker.rb:147-152 | the suffix loop stops at a valid position; multiplying the mantissa back by 1000 per division gives the number; the mantissa is at most 1000 unless the last suffix is reached, and above 1 after any division |
| Suffixes.NumberWithSuffix | src/boss_tracker.rb:147-158 | the `while` loop and `%.2f` give the mantissa, to two decimals, followed by the suffix at the final position (no suffix when nothing was divided) |
| Suffixes.PowAdd | src/boss_tracker.rb:136-140 | the bonus factor multiplies over exponents: base^(m+n) = base^m · base^n |
| Suffixes.BonusGrowthAboveCap | src/boss_tracker.rb:136-142 | from level 200 on, each further level multiplies the bonus factor (percentage + 100) by 1.05 |
| Suffixes.BonusAtLevelSix | test/unit/boss_tracker_test.rb:164-167 | the bonus text at level 6 is "77.16%" |
| Suffixes.BonusAtLevelEleven | test/unit/boss_tracker_test.rb:141-143 | the bonus text at level 11 is "185.31%" |
| Suffixes.BonusAtLevelFifty | test/unit/boss_tracker_test.rb:51-57 | the bonus text at level 50 is "11.64K%" |
| Suffixes.BonusAtLevelTwoThirty | test/unit/boss_tracker_test.rb:66-73 | the bonus text at level 230 is "82.08B%" |
| Tracker.RecordKill | src/boss_tracker.rb:205-213 | `record_boss_kill`: pop the newest entry and push the kill when amending, else push it and keep only the newest HISTORY_SIZE + 1 entries |
| Tracker.KillTimeMessage | src/boss_tracker.rb:215-219 | "Boss killed in " and the length of the last fight, the time between the two newest kills minus BOSS_DELAY, then "." |
| Tracker.HistoryRows | src/boss_tracker.rb:73-81 | one row per adjacent pair of kills (i − 1, i), oldest first, numbered level − size + i when the level is known and i otherwise, as "Boss %3d - " and the fight's length |
| Tracker.HistoryMessage | src/boss_tracker.rb:71-84 | the rows between the "```js" and "```" fences, joined by newlines |
| Tracker.RecordKillAppends | src/boss_tracker.rb:209-211 | recording a kill appends it and keeps the newest entries in order, never more than HISTORY_SIZE + 1 |
| Tracker.RecordKillReplaces | src/boss_tracker.rb:206-208 | amending replaces only the newest entry; on an empty history the kill becomes the only entry |
| Tracker.HistoryRowAt | src/boss_tracker.rb:73-81 | the row for kills i−1 and i shows the boss number and the fight's length: the time between the kills minus the cooldown |
| Tracker.InitialInv | src/boss_tracker.rb:18-23 | a fresh tracker satisfies the invariant: at most HISTORY_SIZE + 1 kills, pending alerts a suffix of ALERT_TIMES, the status message (if any) sent and the only pinned message |
| Tracker.SendKeepsInv | src/boss_tracker.rb:41 | sending a message keeps the invariant |
| Tracker.ClearKeepsInv | src/boss_tracker.rb:195-199 | clearing the status message keeps the invariant and leaves nothing pinned |
| Tracker.RecordKeepsInv | src/boss_tracker.rb:205-213 | recording a kill keeps the invariant, the history bound included |
| Tracker.CreateKeepsInv | src/boss_tracker.rb:186-193 | replacing the status message keeps the invariant: the old message is unpinned, the new one is the only one pinned |
| Tracker.AlertsStayOfficial | src/boss_tracker.rb:178-180 | shifting thresholds off a suffix of ALERT_TIMES leaves a suffix of ALERT_TIMES |
| Tracker.AlertKeepsInv | src/boss_tracker.rb:173-184 | an alert step keeps the invariant |
| Tracker.UpdateKeepsInv | src/boss_tracker.rb:165-171 | a status update keeps the invariant |
| Tracker.SetLevelKeepsInv | src/boss_tracker.rb:35-42 | setting, printing and raising the level keep the invariant |
| Tracker.SetNextBossTimeKeepsInv | src/boss_tracker.rb:160-163 | setting the boss time keeps the invariant |
| Tracker.PrintLastKeepsInv | src/boss_tracker.rb:215-219 | reporting the last fight keeps the invariant |
| Tracker.KillPreservesInv | src/boss_tracker.rb:56-66 | `kill` keeps the invariant |
| Tracker.SetNextPreservesInv | src/boss_tracker.rb:44-54 | `set_next` keeps the invariant |
| Tracker.TickPreservesInv | src/boss_tracker.rb:25-33 | `tick` keeps the invariant |
| Tracker.PrintTimerPreservesInv | src/boss_tracker.rb:87-98 | `print_timer` keeps the invariant |
| Tracker.PrintHistoryPreservesInv | src/boss_tracker.rb:68-85 | `print_history` keeps the invariant |
| Tracker.BossTracker.constructor | src/boss_tracker.rb:18-23 | a new tracker has said "I'm alive" and knows no level, history or boss time |
| Tracker.BossTracker.Tick | src/boss_tracker.rb:25-33 | `tick` keeps the invariant and takes the tick step |
| Tracker.BossTracker.SetLevel | src/boss_tracker.rb:35-38 | `set_level` keeps the invariant, stores the level and prints it |
| Tracker.BossTracker.PrintLevel | src/boss_tracker.rb:40-42 | `print_level` keeps the invariant and sends the clan bonus message |
| Tracker.BossTracker.ClanBonusMessage | src/boss_tracker.rb:125-128 | the text is "Clan level is unknown" without a level, else the level and its bonus |
| Tracker.BossTracker.BossBonusString | src/boss_tracker.rb:130-145 | "unknown" without a level, else the level's bonus percentage with its suffix and "%" |
| Tracker.BossTracker.SetNext | src/boss_tracker.rb:44-54 | `set_next` keeps the invariant and takes the set-next step |
| Tracker.BossTracker.RecordScheduledKill | src/boss_tracker.rb:45-51 | the kill is recorded as new (raising the level) once the boss time has passed, else by amending the newest entry; then the fight is reported |
| Tracker.BossTracker.IncrementLevel | src/boss_tracker.rb:47 | a known level goes up by one and is printed; an unknown one stays unknown |
| Tracker.BossTracker.Kill | src/boss_tracker.rb:56-66 | `kill` keeps the invariant and takes the kill step |
| Tracker.BossTracker.PrintHistory | src/boss_tracker.rb:68-85 | `print_history` keeps the invariant and sends "No history recorded" or the table |
| Tracker.BossTracker.HistoryTable | src/boss_tracker.rb:71-83 | the loop builds the opening fence, one row per adjacent pair of kills in order, and the closing fence |
| Tracker.BossTracker.PrintTimer | src/boss_tracker.rb:87-98 | `print_timer` keeps the invariant and takes the print-timer step |
| Tracker.BossTracker.SetNextBossTime | src/boss_tracker.rb:160-163 | the status message is cleared and the boss time is now plus the seconds |
| Tracker.BossTracker.UpdateBossMessage | src/boss_tracker.rb:165-171 | within two seconds of the last update nothing happens; otherwise the status is edited, the time recorded, and the alert step taken |
| Tracker.BossTracker.BossAlertChannel | src/boss_tracker.rb:173-184 | the loop shifts the reached thresholds and sends one ping when any was reached |
| Tracker.BossTracker.CreateBossMessage | src/boss_tracker.rb:186-193 | the old status message is unpinned, a new one is sent and pinned, and all thresholds are re-armed |
| Tracker.BossTracker.ClearBossMessage | src/boss_tracker.rb:195-199 | a status message, if any, is unpinned and forgotten |
| Tracker.BossTracker.RecordBossKill | src/boss_tracker.rb:205-213 | the kill is appended, keeping the newest HISTORY_SIZE + 1 entries, or replaces the newest entry when amending |
| Tracker.BossTracker.PrintLastBossKillTime | src/boss_tracker.rb:215-219 | with two or more kills, "Boss killed in ..." with the last fight's length; otherwise nothing |
| TrackerProperties.KillWhileArmed | src/boss_tracker.rb:57-60 | while the boss time is ahead, `kill` only replies "You're not fighting a boss yet" |
| TrackerProperties.KillEffects | src/boss_tracker.rb:56-66 | otherwise `kill` raises a known level, records the kill now, sets the boss 6 hours ahead, and leaves no status and nothing pinned; the outbox gains, in order, the level message, the unpin, and the fight report |
| TrackerProperties.SetNextAfterDeadline | src/boss_tracker.rb:45-48 | `set_next` after the boss time counts a kill at now + seconds − BOSS_DELAY and raises the level; the boss is due in the given seconds; nothing is left pinned; the outbox gains, in order, the level message, the report, and the unpin |
| TrackerProperties.SetNextAmends | src/boss_tracker.rb:49-53 | `set_next` before the boss time amends the newest kill and keeps the level; the outbox gains the report, if any, and the unpin |
| TrackerProperties.TickIdle | src/boss_tracker.rb:26 | without a boss time ahead, `tick` changes nothing |
| TrackerProperties.TickCreatesStatus | src/boss_tracker.rb:28-31 | the first tick sends and pins a status message, re-arms the thresholds, and leaves that message the only one pinned |
| TrackerProperties.TickThrottled | src/boss_tracker.rb:167 | within UPDATE_DELAY of the last update, `tick` changes nothing |
| TrackerProperties.TickUpdatesStatus | src/boss_tracker.rb:165-184 | a later tick edits the status and pings exactly when the first pending threshold is reached; pending thresholds shrink to those still ahead; nothing else changes |
| TrackerProperties.EditedAtMostOncePerDelay | src/boss_tracker.rb:165-168 | a second tick within UPDATE_DELAY of an update changes nothing |
| TrackerProperties.NoThresholdAlertedTwice | src/boss_tracker.rb:178-183 | a threshold that fires at a later tick was not yet reached at the earlier one; so, between two creations of the status message, no threshold pings twice |
| TrackerProperties.AlertTimesDescending | src/boss_tracker.rb:5 | the thresholds 15, 5 and 2 minutes strictly descend |
| TrackerProperties.PrintTimerEffects | src/boss_tracker.rb:87-98 | "Next boss time is unknown." without a boss time; "Boss fight in progress" once it has passed; otherwise the old status is unpinned and a new one sent and pinned as the only pinned message |
| TrackerProperties.HistoryMessageLines | src/boss_tracker.rb:71-84 | the history message splits at newlines into exactly the fence, one row per fight, and the fence |
| TrackerProperties.HistoryNumbersEndBelowLevel | src/boss_tracker.rb:75-79 | with a level, the rows are numbered consecutively and the last is level − 1 |
| TrackerProperties.SetNextOnFreshTracker | test/unit/boss_tracker_test.rb:75-87 | `set_next` on a fresh tracker records one kill at now + seconds − BOSS_DELAY, sets the boss time, and sends nothing |
| TrackerProperties.SetNextPastScenario | test/unit/boss_tracker_test.rb:108-127 | `set_next(12s)`, then `set_next(BOSS_DELAY − 20s)` two minutes later, gives two kills and the report "Boss killed in 1m 28s." |
| TrackerProperties.KillAfterSetNextScenario | test/unit/boss_tracker_test.rb:178-195 | `set_next(12s)`, then `kill` two minutes later, gives two kills, a boss 6 hours ahead, and "Boss killed in 1m 48s." |
| TrackerProperties.AlertScenarioOpening | test/unit/boss_tracker_test.rb:354-381 | with the boss 16 minutes away, ticks at 0s, 1m 10s and 2m 40s send and pin the status, then edit it with one ping, then edit it alone |
| TrackerProperties.AlertScenarioMiddle | test/unit/boss_tracker_test.rb:383-395 | ticks at 11m and 12m edit the status with one ping, then edit it alone |
| TrackerProperties.AlertScenarioLast | test/unit/boss_tracker_test.rb:397-402 | the tick at 14m 5s edits the status with the last ping, and no threshold is left |
| TrackerProperties.TextsAtZero | test/unit/boss_tracker_test.rb:359 | the first status in the scenario reads "Next boss in 16m 0s" |
| TrackerProperties.TextsAtSeventy | test/unit/boss_tracker_test.rb:370-371 | at 1m 10s the status and the ping read "... 14m 50s" |
| TrackerProperties.TextsAtOneSixty | test/unit/boss_tracker_test.rb:377 | at 2m 40s the status reads "Next boss in 13m 20s" |
| TrackerProperties.TextsAtSixSixty | test/unit/boss_tracker_test.rb:384-385 | at 11m the status and the ping read "... 5m 0s" |
| TrackerProperties.TextsAtSevenTwenty | test/unit/boss_tracker_test.rb:391 | at 12m the status reads "Next boss in 4m 0s" |
| TrackerProperties.TextsAtEightFortyFive | test/unit/boss_tracker_test.rb:398-399 | at 14m 5s the status and the ping read "... 1m 55s" |
| TrackerExamples.RowExample150 | test/unit/boss_tracker_test.rb:229 | the row for boss 150 after a 2m 20s fight is "Boss 150 - 2m 20s" |
| TrackerExamples.RowExample151 | test/unit/boss_tracker_test.rb:230 | "Boss 151 - 1h 3m 50s" |
| TrackerExamples.RowExample152 | test/unit/boss_tracker_test.rb:231 | "Boss 152 - 15s" |
| TrackerExamples.HistoryTableOfFour | test/unit/boss_tracker_test.rb:219-237 | four kills with fights of d1, d2 and d3 seconds give the fenced table of three rows, numbered level − 3 to level − 1 |
| Timer.ClearKeepsInv | src/boss_timer.rb:101-105 | clearing keeps the timer's invariant and leaves nothing pinned |
| Timer.KillPreservesInv | src/boss_timer.rb:18-21 | `kill` keeps the invariant |
| Timer.SetNextPreservesInv | src/boss_timer.rb:23-25 | `set_next` keeps the invariant |
| Timer.CreateKeepsInv | src/boss_timer.rb:88-99 | creating the status message when none is held keeps the invariant |
| Timer.AlertKeepsInv | src/boss_timer.rb:74-86 | an alert step keeps the invariant |
| Timer.UpdateKeepsInv | src/boss_timer.rb:69-72 | a status update keeps the invariant |
| Timer.BossTickPreservesInv | src/boss_timer.rb:59-67 | `boss_tick` keeps the invariant |
| Timer.BossTimer.constructor | src/boss_timer.rb:6-9 | a new timer knows no boss time and has sent nothing |
| Timer.BossTimer.Kill | src/boss_timer.rb:18-21 | `kill` keeps the invariant and takes the kill step |
| Timer.BossTimer.SetNext | src/boss_timer.rb:23-25 | `set_next` keeps the invariant and takes the set-next step |
| Timer.BossTimer.BossTick | src/boss_timer.rb:59-67 | `boss_tick` keeps the invariant and takes the tick step |
| Timer.BossTimer.SetNextBossTime | src/boss_timer.rb:54-57 | the status message is cleared and the boss time is now plus the seconds |
| Timer.BossTimer.UpdateBossMessage | src/boss_timer.rb:69-72 | the status is edited, then the alert step is taken, with no throttle |
| Timer.BossTimer.BossAlertChannel | src/boss_timer.rb:74-86 | the loop shifts the reached thresholds and pings with the minutes of the last one shifted |
| Timer.BossTimer.CreateBossMessage | src/boss_timer.rb:88-99 | a new status is sent and pinned, and all thresholds are re-armed |
| Timer.BossTimer.ClearBossMessage | src/boss_timer.rb:101-105 | a status message, if any, is unpinned and forgotten |
| Timer.KillEffects | src/boss_timer.rb:18-21 | `kill` sets the boss 6 hours ahead, unpins the status if any, and leaves nothing pinned |
| Timer.SetNextEffects | src/boss_timer.rb:23-25 | `set_next` sets the boss h·3600 + m·60 + s seconds ahead and leaves nothing pinned; the channel gains only the unpin of a held status message |
| Timer.TickIdle | src/boss_timer.rb:60 | without a boss time ahead, a tick changes nothing |
| Timer.TickCreatesStatus | src/boss_timer.rb:62-66 | the first tick finds nothing pinned, then sends and pins a status, re-arms the thresholds, and leaves that message the only one pinned |
| Timer.AlertTimesDescending | src/boss_timer.rb:4 | the thresholds 10, 2 and 1 minutes strictly descend |
| Timer.AlertStepEffects | src/boss_timer.rb:74-86 | a ping goes out exactly when the first pending threshold is reached, naming the last threshold shifted; the thresholds left all lie ahead |
| Timer.TickUpdatesStatus | src/boss_timer.rb:69-72 | a later tick edits the status on every call, then takes the alert step; the status stays the only message pinned |
| Timer.AlertText | src/boss_timer.rb:84-85 | the ping for a threshold: "@everyone Next boss in", its whole minutes and "minute", with "s" only above one minute |
| Timer.AlertTexts | src/boss_timer.rb:84-85 | the pings read "10 minutes", "2 minutes" and "1 minute" |
| Timer.AlertPlural | src/boss_timer.rb:84-85 | a ping ends in "s" exactly when the threshold exceeds one whole minute |
| Bot.StripSpace | src/boss_tracker_bot.rb:137 | removing whitespace leaves no whitespace and never lengthens the text |
| Bot.StripSpaceAppend | src/boss_tracker_bot.rb:137 | removing whitespace distributes over concatenation |
| Bot.MatchTime | src/boss_tracker_bot.rb:38-50 | `TIME_REGEX.match` on stripped text: the suffixed alternative before the colon one, and in each the optional hour group tried first; the captured groups are read with `to_i` |
| Bot.ParseTime | src/boss_tracker_bot.rb:136-146 | `parse_time`: the arguments joined and stripped of whitespace, then matched; nil without a match, else the hash, with hour and minute only when their groups matched |
| Bot.TimeRegexMatch | src/boss_tracker_bot.rb:38-50 | in any match, the hour group is one digit, and the minutes and seconds groups are one or two digits |
| Bot.ParseTimeJoins | src/boss_tracker_bot.rb:137 | the arguments are joined before matching, so how the text is split into arguments does not matter |
| Bot.ParseTimeIgnoresSpace | src/boss_tracker_bot.rb:137 | whitespace anywhere in the argument is ignored |
| Bot.ParseTimeEmpty | src/boss_tracker_bot.rb:136-138 | no arguments, or arguments made of whitespace alone, give no time |
| Bot.ToI | src/boss_tracker_bot.rb:111 | Ruby's `String#to_i`: leading whitespace, an optional sign, an optional "0d" or "0D" prefix, then the leading digits, single underscores between digits skipped; 0 when no digit follows |
| Bot.ToIRoundTrip | src/boss_tracker_bot.rb:141-143 | `to_i` reads a number's decimal text back as the number |
| Bot.ToIRadixPrefix | src/boss_tracker_bot.rb:111 | `to_i` skips the radix prefix: "0d" or "0D" followed by a number's text reads as that number |
| Bot.ToINonNumeric | src/boss_tracker_bot.rb:111 | `to_i` of text starting with anything but a sign, a blank or a digit is 0 |
| Bot.ParseTimeInRange | src/boss_tracker_bot.rb:136-146 | a parsed time has an hour below 10, minutes and seconds below 100 |
| Bot.CapturesRead | src/boss_tracker_bot.rb:139-143 | reading the captured digit groups gives back the fields they were written from |
| Bot.AlternativeOfHour | src/boss_tracker_bot.rb:41-47 | a time with an hour, written in either form, is matched with every group in place |
| Bot.AlternativeOfMinutes | src/boss_tracker_bot.rb:41-47 | minutes and seconds are matched in place in the suffixed form, and in the colon form when the minutes have two digits |
| Bot.AlternativeOfShortMinutes | src/boss_tracker_bot.rb:45-47 | in the colon form, one-digit minutes before seconds are captured as the hour |
| Bot.AlternativeOfSeconds | src/boss_tracker_bot.rb:41-47 | seconds alone are matched as seconds in either form |
| Bot.SuffixedEndsInS | src/boss_tracker_bot.rb:41-43 | the suffixed alternative matches only text ending in "s" |
| Bot.ColonEndsInDigit | src/boss_tracker_bot.rb:45-47 | the colon alternative matches only text ending in a digit |
| Bot.SuffixedMissesColon | src/boss_tracker_bot.rb:41-43 | the suffixed alternative never matches colon-form text |
| Bot.SuffixedRoundTrip | src/boss_tracker_bot.rb:136-146 | every time in range, written as "5h15m23s", parses back to itself |
| Bot.ColonRoundTripAsWritten | src/boss_tracker_bot.rb:45-47 | colon-form text parses back to its time, except one-digit minutes with seconds |
| Bot.ShortMinutesReadAsHours | src/boss_tracker_bot.rb:45-47 | "5:15", five minutes fifteen seconds in the usage's h:mm:ss, parses as 5 hours and 15 seconds |
| Bot.UsageExamples | src/boss_tracker_bot.rb:16 | "4:15:23", "21:15" and "5h15m23s" parse as the usage line says, to 15323 and 1275 seconds |
| Bot.ColonFromRightRelabels | src/boss_tracker_bot.rb:45-47 | the corrected colon reader matches the same texts as the written one, and differs only by reading a lone "hour" as minutes |
| Bot.ParseTimeFromRightRelabels | src/boss_tracker_bot.rb:136-146 | the corrected `parse_time` succeeds exactly when the written one does, and differs only in that relabelling |
| Bot.ColonRoundTripFromRight | src/boss_tracker_bot.rb:16 | with the corrected reader, every colon-form time parses back to itself |
| Bot.SuffixedRoundTripFromRight | src/boss_tracker_bot.rb:41-43 | with the corrected reader, the suffixed round trip still holds |
| Bot.NextCommandStep | src/boss_tracker_bot.rb:92-102 | `next`: a time that parses is handed to the tracker's `set_next` and "Boss time updated" is replied; nothing is modelled when it does not parse |
| Bot.NextCommandKeepsInv | src/boss_tracker_bot.rb:92-102 | `next` acts exactly when its argument parses, and then keeps the tracker's invariant |
| Bot.LevelCommand | src/boss_tracker_bot.rb:108-120 | the action `level` takes: print with no argument, refuse when `to_i` of the argument is outside 1..999, set it otherwise |
| Bot.LevelCommandStep | src/boss_tracker_bot.rb:108-120 | the action applied to the tracker: `print_level`, `set_level`, or the refusal sent to the channel |
| Bot.LevelCommandCases | src/boss_tracker_bot.rb:108-120 | with no argument the level is printed; a level is set exactly when `to_i` of the argument is within 1..999, and then to that number; anything else is refused with "Given level must be a valid number" |
| Bot.LevelAccepted | src/boss_tracker_bot.rb:110-115 | every level from 1 to 999, written out, is set |
| Bot.LevelRadixPrefix | src/boss_tracker_bot.rb:110-116 | a level in range written with the radix prefix, as in `level 0d50`, is set too |
| Bot.LevelOutOfRange | src/boss_tracker_bot.rb:112-113 | a number outside 1..999 is refused |
| Bot.LevelNonNumeric | src/boss_tracker_bot.rb:111-113 | a non-numeric argument reads as 0 and is refused |
| Bot.LevelCommandKeepsRange | src/boss_tracker_bot.rb:108-120 | `level` keeps the tracker's invariant and the level within 1..999, and a refusal changes nothing but the channel |
| Bot.Commands | src/boss_tracker_bot.rb:5-30 | COMMANDS in declared order, with their descriptions; `next`'s quotes the prefix |
| Bot.ListedCommands | src/boss_tracker_bot.rb:80-81 | the commands `help` writes a row for, in table order, skipping `help` and commands without a description |
| Bot.HelpRow | src/boss_tracker_bot.rb:83 | one row: the prefix, the name left-justified to the width, " - ", the description |
| Bot.HelpLines | src/boss_tracker_bot.rb:76-86 | the lines `help` writes: "```js", one row per listed command at the width of the longest name, "```" |
| Bot.MaxNameLength | src/boss_tracker_bot.rb:78 | the width is the length of the longest command name |
| Bot.ListedCommandsSpec | src/boss_tracker_bot.rb:80-81 | `help` lists a command exactly when it is in COMMANDS, is not `help`, and has a description |
| Bot.HelpRowLayout | src/boss_tracker_bot.rb:83 | a row is the prefix, the name padded to the width, then " - " and the description |
| Bot.HelpLayout | src/boss_tracker_bot.rb:76-86 | `help` writes the opening fence, one aligned row per listed command in table order, and the closing fence |
| Bot.CommandsWidth | src/boss_tracker_bot.rb:5-30 | the longest command name, "history", has 7 letters |
| Bot.CommandsListed | src/boss_tracker_bot.rb:5-30 | `help` lists every command but itself, in declared order |
| Bot.HelpOfCommands | src/boss_tracker_bot.rb:76-86 | the help text has 7 lines, and each of its five rows aligns " - " at column prefix + 7 |
| Bot.HelpRowsOfCommands | src/boss_tracker_bot.rb:9-20 | the `kill` and `history` rows read as written in COMMANDS, padded to 7 |

## Left out

- Discord itself is not modelled: the connection, the command bucket and rate limits, command registration, event objects, the run loops, and the ORM and configuration files. The channel is an outbox, and a message is a handle into it.
- Clock: `Time.now` (and `.utc`) is the `now` argument, in whole seconds. The truncations `to_i` and `round` of fractional seconds are exact on whole seconds, so they are not modelled.
- Floating point: the bonus is computed on exact reals, and `%.2f` rounds half away from zero. Binary rounding of Ruby floats could differ in the last printed digit near a tie. The tested levels are proved far from any tie.
- `@alert_times` being nil is modelled as the empty list, which `boss_alert_channel` treats the same way.
- BossTimer's `create_boss_message` unpins every pinned "Next boss in" message written by the bot (src/boss_timer.rb:89-94). The model keeps the invariant that at most the status message is pinned, so the scan finds nothing to unpin (Timer.TickCreatesStatus). A pin left by an earlier run of the bot is not modelled.
- Bot.NextCommandStep: when the argument does not parse, the reply names `set_next_usage`, which the source never defines. The model gives `None` for that case instead of a reply.
- Bot.NextCommandStep: it uses the corrected colon reader (see Findings). The as-written reader is kept, and proved to differ only in that relabelling.
- `set_next` passes the parsed hash positionally to `time(hour:, minute:, second:)` (src/boss_tracker.rb:46, 50, 53; src/boss_timer.rb:24). The model reads the hash as keywords, as Ruby 2 does. Under Ruby 3.0 and later that call raises ArgumentError for every time, and this is not modelled.
- Bot.HelpRow: Ruby builds each row's format string by interpolating the prefix and the description around `%-Ns` (src/boss_tracker_bot.rb:83), so a '%' in PREFIX is read as a format directive: PREFIX "%" prints the row with "%-7s" left in it, and PREFIX "%d" raises. The model assumes a prefix without '%', where `%-Ns` is the only directive. For other prefixes, HelpRow, HelpLines and the lemmas about them do not give what Ruby prints.
- TIME_REGEX is modelled by its own backtracking order, not by a general regular-expression engine. Ruby's behaviour for duplicate named groups, where the last participating group wins, is built into that order.
- The `with_level:` keyword of `print_lass_boss_kill_time` is unused in the source and is not modelled.
- `help` is modelled as the list of lines it writes to the event. Joining them into one Discord message is not modelled.
- The history table from the unit test is shown row by row (TrackerExamples.RowExample150-152) and, symbolically, as a whole (TrackerExamples.HistoryTableOfFour). The literal four-kill timeline is not chained end to end.
- BossTracker's `tick` test with throttled edits (test/unit/boss_tracker_test.rb:317-352) is covered by TrackerProperties.TickThrottled and EditedAtMostOncePerDelay. Its texts "1h 4m 15s" and "1h 4m 10s" are not spelled out.
- `main.rb`, `bot.rb`, `clan.rb`, `boss_kill.rb` and `config.rb` are not part of this model.

## Findings

| source | as written | input that shows it | evidently intended | confidence | as-written member | corrected member |
|---|---|---|---|---|---|---|
| src/boss_tracker_bot.rb:45-47 | in the colon form, the optional hour group is tried first, so two fields are read as hour and seconds when the first has one digit | `next 5:15` (the usage line's h:mm:ss, like its own "21:15") sets the boss 5 h 0 m 15 s ahead instead of 5 m 15 s (under Ruby 2, which `time(time_struct)` needs) | fields assigned from the right: one is seconds, two are minutes and seconds, three are hours, minutes and seconds | not executed | Bot.ShortMinutesReadAsHours | Bot.ColonRoundTripFromRight |
