/** The history table the unit tests expect, row by row. */
module TrackerExamples {
  import opened Optional
  import opened Text
  import opened Durations
  import opened Tracker

  lemma IntText150()
    ensures IntToString(150) == "150"
  {
    assert NatToString(150) == "150";
  }

  lemma IntText151()
    ensures IntToString(151) == "151"
  {
    assert NatToString(151) == "151";
  }

  lemma IntText152()
    ensures IntToString(152) == "152"
  {
    assert NatToString(152) == "152";
  }

  lemma TwoMinutesTwenty()
    ensures TimeDeltaString(140) == "2m 20s"
  {
    TimeDeltaOfTime(0, 2, 20);
    assert NatToString(2) == "2";
    assert NatToString(20) == "20";
    assert Join(["2m", "20s"], ' ') == "2m 20s";
  }

  lemma JoinThree(a: string, b: string, c: string, sep: char)
    ensures Join([a, b, c], sep) == a + [sep] + b + [sep] + c
  {
    assert [b, c][1..] == [c];
    assert Join([b, c], sep) == b + [sep] + c;
    assert [a, b, c][1..] == [b, c];
    assert Join([a, b, c], sep) == a + [sep] + (b + [sep] + c);
  }

  lemma AnHourThreeFifty()
    ensures TimeDeltaString(3830) == "1h 3m 50s"
  {
    assert DeltaComponents(3830) == ["1h", "3m", "50s"] by {
      TimeDeltaOfTime(1, 3, 50);
      assert Time(1, 3, 50) == 3830;
      assert NatToString(1) == "1";
      assert NatToString(3) == "3";
      assert NatToString(50) == "50";
      assert "1" + "h" == "1h" && "3" + "m" == "3m" && "50" + "s" == "50s";
    }
    JoinThree("1h", "3m", "50s", ' ');
    assert "1h" + [' '] + "3m" + [' '] + "50s" == "1h 3m 50s";
  }

  lemma RowExample150()
    ensures HistoryRow(150, 140) == "Boss 150 - 2m 20s"
  {
    IntText150();
    TwoMinutesTwenty();
  }

  lemma RowExample151()
    ensures HistoryRow(151, 3830) == "Boss 151 - 1h 3m 50s"
  {
    IntText151();
    AnHourThreeFifty();
  }

  lemma RowExample152()
    ensures HistoryRow(152, 15) == "Boss 152 - 15s"
  {
    IntText152();
    TimeDeltaUnderAMinute();
  }

  /** Four kills, each one cooldown plus a fight's duration after the one
      before, at clan level `level`: three rows, numbered up to the boss
      before the current one, each with its fight's duration. */
  lemma HistoryRowsOfFour(a: int, d1: int, d2: int, d3: int, level: int)
    ensures var h := [a, a + BOSS_DELAY + d1, a + 2 * BOSS_DELAY + d1 + d2, a + 3 * BOSS_DELAY + d1 + d2 + d3];
      HistoryRows(h, Some(level)) ==
        [HistoryRow(level - 3, d1), HistoryRow(level - 2, d2), HistoryRow(level - 1, d3)]
  {
    var h := [a, a + BOSS_DELAY + d1, a + 2 * BOSS_DELAY + d1 + d2, a + 3 * BOSS_DELAY + d1 + d2 + d3];
    var rows := HistoryRows(h, Some(level));
    HistoryRowAt(h, Some(level), 1, level - 3, d1);
    HistoryRowAt(h, Some(level), 2, level - 2, d2);
    HistoryRowAt(h, Some(level), 3, level - 1, d3);
  }

  lemma JoinFive(a: string, b: string, c: string, d: string, e: string, sep: char)
    ensures Join([a, b, c, d, e], sep) == a + [sep] + b + [sep] + c + [sep] + d + [sep] + e
  {
    assert [d, e][1..] == [e];
    assert Join([d, e], sep) == d + [sep] + e;
    assert [c, d, e][1..] == [d, e];
    assert Join([c, d, e], sep) == c + [sep] + (d + [sep] + e);
    assert [b, c, d, e][1..] == [c, d, e];
    assert Join([b, c, d, e], sep) == b + [sep] + (c + [sep] + (d + [sep] + e));
    assert [a, b, c, d, e][1..] == [b, c, d, e];
    assert Join([a, b, c, d, e], sep) == a + [sep] + (b + [sep] + (c + [sep] + (d + [sep] + e)));
  }

  /** The table for four such kills: the rows inside a js code block, one
      per line. */
  lemma HistoryTableOfFour(a: int, d1: int, d2: int, d3: int, level: int)
    ensures var h := [a, a + BOSS_DELAY + d1, a + 2 * BOSS_DELAY + d1 + d2, a + 3 * BOSS_DELAY + d1 + d2 + d3];
      HistoryMessage(h, Some(level)) ==
        "```js" + "\n" + HistoryRow(level - 3, d1) + "\n" + HistoryRow(level - 2, d2) + "\n"
        + HistoryRow(level - 1, d3) + "\n" + "```"
  {
    var h := [a, a + BOSS_DELAY + d1, a + 2 * BOSS_DELAY + d1 + d2, a + 3 * BOSS_DELAY + d1 + d2 + d3];
    var r0, r1, r2 := HistoryRow(level - 3, d1), HistoryRow(level - 2, d2), HistoryRow(level - 1, d3);
    FencedRows(HistoryRows(h, Some(level)), r0, r1, r2) by {
      HistoryRowsOfFour(a, d1, d2, d3, level);
    }
    JoinFive("```js", r0, r1, r2, "```", '\n');
  }

  lemma FencedRows(rows: seq<string>, r0: string, r1: string, r2: string)
    requires rows == [r0, r1, r2]
    ensures ["```js"] + rows + ["```"] == ["```js", r0, r1, r2, "```"]
  {
  }

}
