/**
 * What the ingestion path of script/pytagtime.py guarantees, stated about the
 * model in module TagLog: the annotation and trailing-newline behaviour of
 * the field split, the tag filter and the multitag policies, the weekday
 * exclusion count, and the shape of the per-tag columns.
 */
module IngestProperties {
  import opened Wrappers
  import opened LogText
  import opened TagLog

  // ---------------------------------------------------------------------------
  // Fields of a line
  // ---------------------------------------------------------------------------

  /**
   * A newline-terminated line without an annotation keeps its newline, so its
   * last field, and hence its last tag, is the empty string.
   */
  lemma UnannotatedLineEndsWithEmptyTag(line: string)
    requires |line| > 0 && line[|line| - 1] == '\n'
    requires StripAnnotation(line) == line
    ensures |Fields(line)| >= 2 && Fields(line)[|Fields(line)| - 1] == ""
  {
    SplitWsLastField(line);
  }

  /**
   * Removing an annotation also removes the whitespace in front of it and the
   * newline after it, so the last field of an annotated line is not empty
   * (unless nothing at all is left of the line).
   */
  lemma AnnotatedLineEndsWithRealTag(line: string)
    requires StripAnnotation(line) != line && StripAnnotation(line) != ""
    ensures Fields(line)[|Fields(line)| - 1] != ""
  {
    var r := StripAnnotation(line);
    var k := LastNonSpace(line);
    var j := FirstOpen(line, LineStart(line, k), k);
    assert |r| == SpaceRunStart(line, j);
    assert !IsSpace(r[|r| - 1]);
    SplitWsLastField(r);
  }

  // ---------------------------------------------------------------------------
  // Tag filter and multitag policy
  // ---------------------------------------------------------------------------

  /**
   * Under `first`, a line keeps nothing when every tag is excluded, and
   * otherwise exactly its first tag that is not excluded.
   */
  lemma {:induction false} FirstPolicyKeepsFirstSurvivor(cfg: Config, tags: seq<string>)
    requires cfg.multitag == "first"
    ensures var r := SelectTags(cfg, tags);
      || (r == [] && forall k :: 0 <= k < |tags| ==> tags[k] in cfg.skiptags)
      || (exists i :: 0 <= i < |tags| && r == [tags[i]] && tags[i] !in cfg.skiptags
            && forall m :: 0 <= m < i ==> tags[m] in cfg.skiptags)
  {
    if tags != [] {
      FirstPolicyKeepsFirstSurvivor(cfg, tags[1..]);
      if tags[0] !in cfg.skiptags {
        assert SelectTags(cfg, tags) == [tags[0]];
      } else {
        assert SelectTags(cfg, tags) == SelectTags(cfg, tags[1..]);
        var r := SelectTags(cfg, tags);
        if r != [] {
          var i :| 0 <= i < |tags[1..]| && r == [tags[1..][i]] && tags[1..][i] !in cfg.skiptags
            && forall m :: 0 <= m < i ==> tags[1..][m] in cfg.skiptags;
          assert forall m :: 0 <= m < i + 1 ==> tags[m] in cfg.skiptags;
        }
      }
    }
  }

  /** Every event of `Stamp` carries the tag at its position, the timestamp and the value. */
  lemma {:induction false} StampAt(tags: seq<string>, ts: int, v: real, k: nat)
    requires k < |tags|
    ensures Stamp(tags, ts, v)[k] == Event(tags[k], ts, v)
  {
    if k < |tags| - 1 {
      StampAt(tags[..|tags| - 1], ts, v, k);
    }
  }

  /** What one line that reads successfully yields: its selected tags at its timestamp, or a count of them. */
  lemma LineOutcomeShape(cfg: Config, weekdayOf: int -> int, line: string, o: LineOutcome)
    requires ParseLine(cfg, weekdayOf, line) == Ok(o)
    ensures var ts := ParseInt(Fields(line)[0]).value;
      var tags := SelectTags(cfg, Fields(line)[1..]);
      && |o.events| + o.excluded == |tags|
      && (weekdayOf(ts) in cfg.skipweekdays ==> o.events == [])
      && (weekdayOf(ts) !in cfg.skipweekdays ==> o.excluded == 0 && o.events == LineEvents(cfg, tags, ts))
      && forall k :: 0 <= k < |o.events| ==>
           o.events[k].tag == tags[k] && o.events[k].time == ts && o.events[k].value == Share(cfg, |tags|)
  {
    var ts := ParseInt(Fields(line)[0]).value;
    var tags := SelectTags(cfg, Fields(line)[1..]);
    forall k | 0 <= k < |o.events|
      ensures o.events[k] == Event(tags[k], ts, Share(cfg, |tags|))
    {
      StampAt(tags, ts, Share(cfg, |tags|), k);
    }
  }

  /** Under `first`, one line gives at most one event or one excluded entry. */
  lemma FirstPolicyAtMostOneEntry(cfg: Config, weekdayOf: int -> int, line: string, o: LineOutcome)
    requires cfg.multitag == "first" && ParseLine(cfg, weekdayOf, line) == Ok(o)
    ensures |o.events| + o.excluded <= 1
  {
    LineOutcomeShape(cfg, weekdayOf, line, o);
  }

  /** The sum of the values of a run of events. */
  function SumValues(events: seq<Event>): real {
    if events == [] then 0.0 else SumValues(events[..|events| - 1]) + events[|events| - 1].value
  }

  lemma {:induction false} SumStamp(tags: seq<string>, ts: int, v: real)
    ensures SumValues(Stamp(tags, ts, v)) == |tags| as real * v
  {
    if tags != [] {
      var init := tags[..|tags| - 1];
      var es := Stamp(tags, ts, v);
      assert es == Stamp(init, ts, v) + [Event(tags[|tags| - 1], ts, v)];
      assert es[..|es| - 1] == Stamp(init, ts, v);
      SumStamp(init, ts, v);
      assert SumValues(es) == |init| as real * v + v;
      assert |init| as real * v + v == (|init| + 1) as real * v;
    }
  }

  /**
   * Under `split`, the durations a line hands out add up to exactly the
   * interval when at least one tag survives the filter, and to nothing when
   * none does or the line's weekday is skipped.
   */
  lemma SplitLineSumsToInterval(cfg: Config, weekdayOf: int -> int, line: string, o: LineOutcome)
    requires cfg.multitag == "split" && ParseLine(cfg, weekdayOf, line) == Ok(o)
    ensures SumValues(o.events) == if o.events == [] then 0.0 else cfg.interval
  {
    LineOutcomeShape(cfg, weekdayOf, line, o);
    if o.events != [] {
      SplitSharesSum(cfg, SelectTags(cfg, Fields(line)[1..]), ParseInt(Fields(line)[0]).value);
    }
  }

  /** The events `split` stamps for a non-empty tag list add up to the interval. */
  lemma SplitSharesSum(cfg: Config, tags: seq<string>, ts: int)
    requires cfg.multitag == "split" && tags != []
    ensures SumValues(LineEvents(cfg, tags, ts)) == cfg.interval
  {
    var n := |tags| as real;
    SumStamp(tags, ts, cfg.interval / n);
    assert n * (cfg.interval / n) == cfg.interval;
  }

  /** Under any mode other than `split` (for example `double`), every event of a line carries the full interval. */
  lemma OtherModesGiveFullInterval(cfg: Config, weekdayOf: int -> int, line: string, o: LineOutcome)
    requires cfg.multitag != "split" && ParseLine(cfg, weekdayOf, line) == Ok(o)
    ensures forall k :: 0 <= k < |o.events| ==> o.events[k].value == cfg.interval
  {
    LineOutcomeShape(cfg, weekdayOf, line, o);
  }

  /**
   * The trailing empty field of an unannotated line is a tag like any other:
   * under `split` (unless `''` is excluded) it is the line's last event and
   * takes an equal share of the interval.
   */
  lemma EmptyTagTakesAShare(cfg: Config, weekdayOf: int -> int, line: string, o: LineOutcome)
    requires |line| > 0 && line[|line| - 1] == '\n' && StripAnnotation(line) == line
    requires cfg.multitag == "split" && "" !in cfg.skiptags
    requires ParseLine(cfg, weekdayOf, line) == Ok(o) && o.excluded == 0
    ensures |o.events| >= 1 && o.events[|o.events| - 1].tag == ""
    ensures forall k :: 0 <= k < |o.events| ==> o.events[k].value == cfg.interval / |o.events| as real
  {
    UnannotatedLineEndsWithEmptyTag(line);
    var fields := Fields(line);
    var tags := fields[1..];
    assert tags[|tags| - 1] == "";
    FilterKeepsLast(tags, cfg.skiptags);
    LineOutcomeShape(cfg, weekdayOf, line, o);
  }

  /** A kept last tag stays the last one after filtering. */
  lemma {:induction false} FilterKeepsLast(tags: seq<string>, skip: set<string>)
    requires |tags| > 0 && tags[|tags| - 1] !in skip
    ensures var r := FilterTags(tags, skip); |r| > 0 && r[|r| - 1] == tags[|tags| - 1]
  {
    if |tags| > 1 {
      FilterKeepsLast(tags[1..], skip);
    }
  }

  // ---------------------------------------------------------------------------
  // The whole file
  // ---------------------------------------------------------------------------

  /** The number of (line, tag) pairs that receive time: the selected tags of every line. */
  function Candidates(cfg: Config, lines: seq<string>): nat {
    if lines == [] then 0
    else Candidates(cfg, lines[..|lines| - 1]) + |SelectTags(cfg, Fields(lines[|lines| - 1])[1..])|
  }

  lemma LineResultsPrefix(cfg: Config, weekdayOf: int -> int, lines: seq<string>, n: nat)
    requires n <= |lines|
    ensures LineResults(cfg, weekdayOf, lines)[..n] == LineResults(cfg, weekdayOf, lines[..n])
  {
  }

  /**
   * With smoothing off, each (line, tag) candidate either appends one entry or
   * is counted as excluded: entries plus the excluded count equal the number
   * of candidates.
   */
  lemma {:induction false} EntriesPlusExcludedAreCandidates(cfg: Config, weekdayOf: int -> int, lines: seq<string>)
    requires ParseLines(cfg, weekdayOf, lines).Ok?
    ensures var p := ParseLines(cfg, weekdayOf, lines).value;
      |p.events| + p.excluded == Candidates(cfg, lines)
  {
    if lines != [] {
      var n := |lines| - 1;
      var rs := LineResults(cfg, weekdayOf, lines);
      LineResultsPrefix(cfg, weekdayOf, lines, n);
      assert Combine(rs).Ok?;
      assert Combine(rs[..n]).Ok?;
      EntriesPlusExcludedAreCandidates(cfg, weekdayOf, lines[..n]);
      LineOutcomeShape(cfg, weekdayOf, lines[n], rs[n].value);
    }
  }

  /** No event of a successful parse carries an excluded tag. */
  lemma {:induction false} EventsAvoidSkippedTags(cfg: Config, weekdayOf: int -> int, lines: seq<string>)
    requires ParseLines(cfg, weekdayOf, lines).Ok?
    ensures forall e :: e in ParseLines(cfg, weekdayOf, lines).value.events ==> e.tag !in cfg.skiptags
  {
    if lines != [] {
      var n := |lines| - 1;
      var rs := LineResults(cfg, weekdayOf, lines);
      LineResultsPrefix(cfg, weekdayOf, lines, n);
      assert Combine(rs).Ok? && Combine(rs[..n]).Ok?;
      EventsAvoidSkippedTags(cfg, weekdayOf, lines[..n]);
      LineOutcomeShape(cfg, weekdayOf, lines[n], rs[n].value);
    }
  }

  /** The columns are exactly the tags of the events. */
  lemma {:induction false} GroupKeys(events: seq<Event>)
    ensures forall t :: t in Group(events) <==> exists e :: e in events && e.tag == t
  {
    if events != [] {
      var init := events[..|events| - 1];
      GroupKeys(init);
      assert events == init + [events[|events| - 1]];
    }
  }

  /** Each column lists the entries of its tag in the order of the events. */
  lemma {:induction false} GroupColumns(events: seq<Event>, t: string)
    ensures Column(Group(events), t) == EntriesOf(events, t)
  {
    if events != [] {
      var init := events[..|events| - 1];
      var e := events[|events| - 1];
      GroupColumns(init, t);
      EntriesOfAppend(init, e, t);
      assert events == init + [e];
    }
  }

  lemma {:induction false} EntriesOfAppend(events: seq<Event>, e: Event, t: string)
    ensures EntriesOf(events + [e], t) == EntriesOf(events, t) + (if e.tag == t then [Obs(e.time, e.value)] else [])
  {
    if events != [] {
      assert (events + [e])[1..] == events[1..] + [e];
      EntriesOfAppend(events[1..], e, t);
    }
  }

  /** The entries of a tag in two runs of events are its entries in the first followed by those in the second. */
  lemma {:induction false} EntriesOfConcat(a: seq<Event>, b: seq<Event>, t: string)
    ensures EntriesOf(a + b, t) == EntriesOf(a, t) + EntriesOf(b, t)
  {
    if a != [] {
      assert (a + b)[1..] == a[1..] + b;
      EntriesOfConcat(a[1..], b, t);
    } else {
      assert a + b == b;
    }
  }

  /** No tag in `skiptags` ever becomes a column of the parsed table. */
  lemma SkippedTagsNeverColumns(cfg: Config, weekdayOf: int -> int, lines: seq<string>)
    requires ParseLines(cfg, weekdayOf, lines).Ok?
    ensures forall t :: t in cfg.skiptags ==> t !in TableOf(ParseLines(cfg, weekdayOf, lines)).value.columns
  {
    EventsAvoidSkippedTags(cfg, weekdayOf, lines);
    GroupKeys(ParseLines(cfg, weekdayOf, lines).value.events);
  }
}
