/**
 * A worked example of the ingestion path of script/pytagtime.py: three
 * unannotated log lines read under the `split` policy.
 */
module IngestExample {
  import opened Wrappers
  import opened LogText
  import opened TagLog
  import opened IngestProperties

  /** A newline-terminated line whose last visible character is not `]` has no annotation. */
  lemma PlainLineKept(s: string)
    requires |s| >= 2 && s[|s| - 1] == '\n' && !IsSpace(s[|s| - 2]) && s[|s| - 2] != ']'
    ensures StripAnnotation(s) == s
  {
    assert LastNonSpaceBelow(s, |s| - 1) == |s| - 2;
  }

  /** The configuration of the example: one-hour pings, `split`, nothing excluded. */
  function ExampleConfig(): Config {
    Config(1.0, "split", {}, {})
  }

  /** What line 1 of the example yields. */
  function Outcome1(): LineOutcome {
    LineOutcome([Event("tagA", 100, 0.5), Event("", 100, 0.5)], 0)
  }

  lemma ExampleFields1()
    ensures Fields("100 tagA\n") == ["100", "tagA", ""]
  {
    PlainLineKept("100 tagA\n");
    assert Join(["100", "tagA", ""], [" ", "\n"]) == "100 tagA\n";
    SplitJoin(["100", "tagA", ""], [" ", "\n"]);
  }

  lemma ExampleStamp1()
    ensures ParseInt("100") == Some(100)
  {
    assert Decimal(100) == "100" by {
      assert Decimal(1) == "1";
      assert Decimal(10) == "10";
    }
    ParseShowInt(100);
  }

  lemma ExampleTags1()
    ensures SelectTags(ExampleConfig(), ["tagA", ""]) == ["tagA", ""]
  {
  }

  lemma ExampleEvents1()
    ensures LineEvents(ExampleConfig(), ["tagA", ""], 100) == [Event("tagA", 100, 0.5), Event("", 100, 0.5)]
  {
    assert Share(ExampleConfig(), 2) == 0.5;
    assert Stamp(["tagA", ""], 100, 0.5) == [Event("tagA", 100, 0.5), Event("", 100, 0.5)] by {
      assert ["tagA", ""][..1] == ["tagA"];
    }
  }

  lemma ExampleLine1(weekdayOf: int -> int)
    ensures ParseLine(ExampleConfig(), weekdayOf, "100 tagA\n") == Ok(Outcome1())
  {
    ExampleFields1();
    ExampleStamp1();
    ExampleTags1();
    ParseLineOk(ExampleConfig(), weekdayOf, "100 tagA\n", 100);
    assert Fields("100 tagA\n")[1..] == ["tagA", ""];
    ExampleEvents1();
  }

  /** What line 2 of the example yields. */
  function Outcome2(): LineOutcome {
    LineOutcome([Event("tagB", 3700, 0.5), Event("", 3700, 0.5)], 0)
  }

  lemma ExampleFields2()
    ensures Fields("3700 tagB\n") == ["3700", "tagB", ""]
  {
    PlainLineKept("3700 tagB\n");
    assert Join(["3700", "tagB", ""], [" ", "\n"]) == "3700 tagB\n";
    SplitJoin(["3700", "tagB", ""], [" ", "\n"]);
  }

  lemma ExampleStamp2()
    ensures ParseInt("3700") == Some(3700)
  {
    assert Decimal(3700) == "3700" by {
      assert Decimal(3) == "3";
      assert Decimal(37) == "37";
      assert Decimal(370) == "370";
    }
    ParseShowInt(3700);
  }

  lemma ExampleTags2()
    ensures SelectTags(ExampleConfig(), ["tagB", ""]) == ["tagB", ""]
  {
  }

  lemma ExampleEvents2()
    ensures LineEvents(ExampleConfig(), ["tagB", ""], 3700) == [Event("tagB", 3700, 0.5), Event("", 3700, 0.5)]
  {
    assert Share(ExampleConfig(), 2) == 0.5;
    assert Stamp(["tagB", ""], 3700, 0.5) == [Event("tagB", 3700, 0.5), Event("", 3700, 0.5)] by {
      assert ["tagB", ""][..1] == ["tagB"];
    }
  }

  lemma ExampleLine2(weekdayOf: int -> int)
    ensures ParseLine(ExampleConfig(), weekdayOf, "3700 tagB\n") == Ok(Outcome2())
  {
    ExampleFields2();
    ExampleStamp2();
    ExampleTags2();
    ParseLineOk(ExampleConfig(), weekdayOf, "3700 tagB\n", 3700);
    assert Fields("3700 tagB\n")[1..] == ["tagB", ""];
    ExampleEvents2();
  }

  /** What line 3 of the example yields. */
  function Outcome3(): LineOutcome {
    LineOutcome([Event("tagA", 7300, 1.0 / 3.0), Event("tagB", 7300, 1.0 / 3.0), Event("", 7300, 1.0 / 3.0)], 0)
  }

  /** Line 3 is its four fields joined by two spaces and the newline. */
  lemma ExampleJoin3()
    ensures Join(["7300", "tagA", "tagB", ""], [" ", " ", "\n"]) == "7300 tagA tagB\n"
  {
    assert Join(["tagA", "tagB", ""], [" ", "\n"]) == "tagA tagB\n";
  }

  lemma ExampleFields3()
    ensures Fields("7300 tagA tagB\n") == ["7300", "tagA", "tagB", ""]
  {
    PlainLineKept("7300 tagA tagB\n");
    ExampleJoin3();
    SplitJoin(["7300", "tagA", "tagB", ""], [" ", " ", "\n"]);
  }

  lemma ExampleStamp3()
    ensures ParseInt("7300") == Some(7300)
  {
    assert Decimal(7300) == "7300" by {
      assert Decimal(7) == "7";
      assert Decimal(73) == "73";
      assert Decimal(730) == "730";
    }
    ParseShowInt(7300);
  }

  lemma ExampleTags3()
    ensures SelectTags(ExampleConfig(), ["tagA", "tagB", ""]) == ["tagA", "tagB", ""]
  {
  }

  lemma ExampleEvents3()
    ensures LineEvents(ExampleConfig(), ["tagA", "tagB", ""], 7300) == [Event("tagA", 7300, 1.0 / 3.0), Event("tagB", 7300, 1.0 / 3.0), Event("", 7300, 1.0 / 3.0)]
  {
    assert Share(ExampleConfig(), 3) == 1.0 / 3.0;
    assert Stamp(["tagA", "tagB", ""], 7300, 1.0 / 3.0) == [Event("tagA", 7300, 1.0 / 3.0), Event("tagB", 7300, 1.0 / 3.0), Event("", 7300, 1.0 / 3.0)] by {
      assert ["tagA", "tagB", ""][..2] == ["tagA", "tagB"];
      assert ["tagA", "tagB", ""][..2][..1] == ["tagA"];
    }
  }

  lemma ExampleLine3(weekdayOf: int -> int)
    ensures ParseLine(ExampleConfig(), weekdayOf, "7300 tagA tagB\n") == Ok(Outcome3())
  {
    ExampleFields3();
    ExampleStamp3();
    ExampleTags3();
    ParseLineOk(ExampleConfig(), weekdayOf, "7300 tagA tagB\n", 7300);
    assert Fields("7300 tagA tagB\n")[1..] == ["tagA", "tagB", ""];
    ExampleEvents3();
  }

  /** The three lines of the example. */
  function ExampleLines(): seq<string> {
    ["100 tagA\n", "3700 tagB\n", "7300 tagA tagB\n"]
  }

  /** Three successful line outcomes combine into their events in order and the sum of their counts. */
  lemma CombineThree(rs: seq<Result<LineOutcome, string>>, o0: LineOutcome, o1: LineOutcome, o2: LineOutcome)
    requires |rs| == 3 && rs[0] == Ok(o0) && rs[1] == Ok(o1) && rs[2] == Ok(o2)
    ensures Combine(rs) == Ok(Parsed(o0.events + o1.events + o2.events, o0.excluded + o1.excluded + o2.excluded))
  {
    assert rs[..0] == [];
    CombineStepOk(rs, 0, Parsed([], 0), o0);
    assert [] + o0.events == o0.events;
    CombineStepOk(rs, 1, Parsed(o0.events, o0.excluded), o1);
    CombineStepOk(rs, 2, Parsed(o0.events + o1.events, o0.excluded + o1.excluded), o2);
    assert rs[..3] == rs;
  }

  /** `lines` stands for `ExampleLines()` so that the literal lines are not unfolded throughout the proof. */
  lemma ExampleParsed(weekdayOf: int -> int, lines: seq<string>)
    requires lines == ExampleLines()
    ensures ParseLines(ExampleConfig(), weekdayOf, lines) == Ok(Parsed(Outcome1().events + Outcome2().events + Outcome3().events, 0))
  {
    ExampleLine1(weekdayOf);
    ExampleLine2(weekdayOf);
    ExampleLine3(weekdayOf);
    CombineThree(LineResults(ExampleConfig(), weekdayOf, lines), Outcome1(), Outcome2(), Outcome3());
  }

  /**
   * Three unannotated lines under `split` with an interval of one hour: every
   * line also carries the empty tag, so `tagA` receives half an hour at 100
   * and a third of an hour at 7300, not one hour and half an hour, and the
   * empty tag gets a column of its own.
   */
  lemma ThreeLines(weekdayOf: int -> int)
    ensures var t := TableOf(ParseLines(ExampleConfig(), weekdayOf, ExampleLines()));
      && t.Ok? && t.value.nExcluded == 0
      && Column(t.value.columns, "tagA") == [Obs(100, 0.5), Obs(7300, 1.0 / 3.0)]
      && Column(t.value.columns, "tagB") == [Obs(3700, 0.5), Obs(7300, 1.0 / 3.0)]
      && Column(t.value.columns, "") == [Obs(100, 0.5), Obs(3700, 0.5), Obs(7300, 1.0 / 3.0)]
  {
    ExampleParsed(weekdayOf, ExampleLines());
    var es := Outcome1().events + Outcome2().events + Outcome3().events;
    GroupColumns(es, "tagA");
    GroupColumns(es, "tagB");
    GroupColumns(es, "");
    ExampleEntries();
  }

  lemma ExampleEntries()
    ensures var es := Outcome1().events + Outcome2().events + Outcome3().events;
      && EntriesOf(es, "tagA") == [Obs(100, 0.5), Obs(7300, 1.0 / 3.0)]
      && EntriesOf(es, "tagB") == [Obs(3700, 0.5), Obs(7300, 1.0 / 3.0)]
      && EntriesOf(es, "") == [Obs(100, 0.5), Obs(3700, 0.5), Obs(7300, 1.0 / 3.0)]
  {
    var e0, e1, e2 := Outcome1().events, Outcome2().events, Outcome3().events;
    forall t | t in {"tagA", "tagB", ""}
      ensures EntriesOf(e0 + e1 + e2, t) == EntriesOf(e0, t) + EntriesOf(e1, t) + EntriesOf(e2, t)
    {
      EntriesOfConcat(e0 + e1, e2, t);
      EntriesOfConcat(e0, e1, t);
    }
  }
}
