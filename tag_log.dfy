/**
 * The ingestion path of `TagTimeLog` (`_parse_file` in script/pytagtime.py)
 * with smoothing switched off and a non-zero `sigma`: every tag of a line is
 * spread over the single offset 0 with weight 1.  Each log line is stripped of its annotation and
 * split into fields; field 0 is the Unix timestamp and the rest are tags; the
 * excluded tags are dropped and the multitag policy applied; every remaining
 * tag then adds one (timestamp, duration) entry to its column, unless the
 * timestamp falls on a skipped weekday, in which case the entry is counted in
 * `n_excluded` instead.
 */
module TagLog {
  import opened Wrappers
  import opened LogText

  /** The constructor arguments of `TagTimeLog` that `_parse_file` reads. */
  datatype Config = Config(interval: real, multitag: string, skipweekdays: set<int>, skiptags: set<string>)

  /** One contribution of a log line: a tag, the line's timestamp and a duration in hours. */
  datatype Event = Event(tag: string, time: int, value: real)

  /** One entry of a tag's column: the timestamp appended to `D[t]` and the value appended to `V[t]`. */
  datatype Obs = Obs(time: int, value: real)

  /** What a successful parse leaves: the per-tag columns and the excluded-entry count it prints. */
  datatype Table = Table(columns: map<string, seq<Obs>>, nExcluded: nat)

  /** `int(fields[0])` raised ValueError on this line (0-based) and aborted the parse. */
  datatype ParseError = BadTimestamp(line: nat, field: string)

  /** The events of the lines read so far and the number of entries dropped for their weekday. */
  datatype Parsed = Parsed(events: seq<Event>, excluded: nat)

  /** What one line contributes. */
  datatype LineOutcome = LineOutcome(events: seq<Event>, excluded: nat)

  /** The fields of a line: its text without the annotation, split on whitespace runs. */
  function Fields(line: string): (fields: seq<string>)
    ensures |fields| >= 1
    ensures forall k :: 0 <= k < |fields| ==> NoSpace(fields[k])
  {
    SplitWs(StripAnnotation(line))
  }

  /** `[x for x in tags if x not in skiptags]`. */
  function FilterTags(tags: seq<string>, skip: set<string>): (r: seq<string>)
    ensures forall t :: t in r <==> t in tags && t !in skip
  {
    if tags == [] then []
    else (if tags[0] in skip then [] else [tags[0]]) + FilterTags(tags[1..], skip)
  }

  /** The filter keeps every occurrence of a kept tag and none of a skipped one, in order. */
  lemma {:induction false} FilterTagsCounts(tags: seq<string>, skip: set<string>)
    ensures forall t :: multiset(FilterTags(tags, skip))[t] == if t in skip then 0 else multiset(tags)[t]
  {
    if tags != [] {
      assert tags == [tags[0]] + tags[1..];
      FilterTagsCounts(tags[1..], skip);
    }
  }

  /** Filtering a concatenation filters each part, in order. */
  lemma {:induction false} FilterTagsAppend(a: seq<string>, b: seq<string>, skip: set<string>)
    ensures FilterTags(a + b, skip) == FilterTags(a, skip) + FilterTags(b, skip)
  {
    if a == [] {
      assert a + b == b;
    } else {
      assert (a + b)[1..] == a[1..] + b;
      FilterTagsAppend(a[1..], b, skip);
    }
  }

  /** The tags of a line that receive time: the filtered tags, cut to one under `first`. */
  function SelectTags(cfg: Config, tags: seq<string>): (r: seq<string>)
    ensures forall t :: t in r ==> t in tags && t !in cfg.skiptags
    ensures cfg.multitag == "first" ==> |r| <= 1
  {
    var kept := FilterTags(tags, cfg.skiptags);
    if cfg.multitag == "first" then SliceTo(kept, 1) else kept
  }

  /**
   * Under any policy other than `first`, every occurrence of a tag that is not
   * excluded receives time, and no excluded tag does.
   */
  lemma SelectTagsCounts(cfg: Config, tags: seq<string>)
    requires cfg.multitag != "first"
    ensures forall t :: multiset(SelectTags(cfg, tags))[t] == if t in cfg.skiptags then 0 else multiset(tags)[t]
  {
    FilterTagsCounts(tags, cfg.skiptags);
  }

  /** The duration one tag of the line receives: `interval / len(tags)` under `split`, `interval` otherwise. */
  function Share(cfg: Config, count: nat): real
    requires count > 0
  {
    if cfg.multitag == "split" then cfg.interval / count as real else cfg.interval
  }

  /** One event per tag, in order, all at time `ts` and with value `v`. */
  function Stamp(tags: seq<string>, ts: int, v: real): (es: seq<Event>)
    ensures |es| == |tags|
  {
    if tags == [] then [] else Stamp(tags[..|tags| - 1], ts, v) + [Event(tags[|tags| - 1], ts, v)]
  }

  /** One event per selected tag, in order, at the line's timestamp and with the tag's share. */
  function LineEvents(cfg: Config, tags: seq<string>, ts: int): (es: seq<Event>)
    ensures |es| == |tags|
  {
    if tags == [] then [] else Stamp(tags, ts, Share(cfg, |tags|))
  }

  /**
   * One line: the first field when it is not an integer; otherwise the events
   * of its selected tags, or none of them and a count of them when the
   * timestamp's weekday is skipped.  `weekdayOf` stands for
   * `datetime.fromtimestamp(ts).weekday()`.
   */
  function ParseLine(cfg: Config, weekdayOf: int -> int, line: string): Result<LineOutcome, string> {
    var fields := Fields(line);
    match ParseInt(fields[0])
    case None => Err(fields[0])
    case Some(ts) =>
      var tags := SelectTags(cfg, fields[1..]);
      if weekdayOf(ts) in cfg.skipweekdays then Ok(LineOutcome([], |tags|))
      else Ok(LineOutcome(LineEvents(cfg, tags, ts), 0))
  }

  /** The outcome of every line, in order. */
  function LineResults(cfg: Config, weekdayOf: int -> int, lines: seq<string>): (rs: seq<Result<LineOutcome, string>>)
    ensures |rs| == |lines|
    ensures forall k :: 0 <= k < |lines| ==> rs[k] == ParseLine(cfg, weekdayOf, lines[k])
  {
    seq(|lines|, k requires 0 <= k < |lines| => ParseLine(cfg, weekdayOf, lines[k]))
  }

  /** The line outcomes taken in order: events and counts add up, and the first failing line aborts. */
  function Combine(rs: seq<Result<LineOutcome, string>>): Result<Parsed, ParseError> {
    if rs == [] then Ok(Parsed([], 0))
    else
      var last := |rs| - 1;
      match Combine(rs[..last])
      case Err(e) => Err(e)
      case Ok(p) =>
        match rs[last]
        case Err(field) => Err(BadTimestamp(last, field))
        case Ok(o) => Ok(Parsed(p.events + o.events, p.excluded + o.excluded))
  }

  /** The whole log, line after line; the first bad timestamp aborts it. */
  function ParseLines(cfg: Config, weekdayOf: int -> int, lines: seq<string>): Result<Parsed, ParseError> {
    Combine(LineResults(cfg, weekdayOf, lines))
  }

  /** A `defaultdict(list)` read: the column of `t`, empty when it has none yet. */
  function Column(g: map<string, seq<Obs>>, t: string): seq<Obs> {
    if t in g then g[t] else []
  }

  /** The columns built by appending each event, in order, to its tag's list. */
  function Group(events: seq<Event>): map<string, seq<Obs>> {
    if events == [] then map[]
    else
      var g := Group(events[..|events| - 1]);
      var e := events[|events| - 1];
      g[e.tag := Column(g, e.tag) + [Obs(e.time, e.value)]]
  }

  /** The entries of tag `t`, in event order. */
  function EntriesOf(events: seq<Event>, t: string): seq<Obs> {
    if events == [] then []
    else
      var e := events[0];
      (if e.tag == t then [Obs(e.time, e.value)] else []) + EntriesOf(events[1..], t)
  }

  /** The parse result as the table it builds. */
  function TableOf(r: Result<Parsed, ParseError>): Result<Table, ParseError> {
    match r
    case Ok(p) => Ok(Table(Group(p.events), p.excluded))
    case Err(e) => Err(e)
  }

  /** Once a prefix of the outcomes fails, all of them fail with the same error. */
  lemma {:induction false} CombineErrorPersists(rs: seq<Result<LineOutcome, string>>, m: nat)
    requires m <= |rs| && Combine(rs[..m]).Err?
    ensures Combine(rs) == Combine(rs[..m])
    decreases |rs|
  {
    if m == |rs| {
      assert rs[..m] == rs;
    } else {
      var init := rs[..|rs| - 1];
      assert init[..m] == rs[..m];
      CombineErrorPersists(init, m);
    }
  }

  /** Taking outcome `i` after a successful prefix adds its events and its count. */
  lemma CombineStepOk(rs: seq<Result<LineOutcome, string>>, i: nat, p: Parsed, o: LineOutcome)
    requires i < |rs| && Combine(rs[..i]) == Ok(p) && rs[i] == Ok(o)
    ensures Combine(rs[..i + 1]) == Ok(Parsed(p.events + o.events, p.excluded + o.excluded))
  {
    assert rs[..i + 1][..i] == rs[..i];
  }

  /** A failing outcome `i` after a successful prefix is the error of the whole prefix up to it. */
  lemma CombineStepErr(rs: seq<Result<LineOutcome, string>>, i: nat)
    requires i < |rs| && Combine(rs[..i]).Ok? && rs[i].Err?
    ensures Combine(rs[..i + 1]) == Err(BadTimestamp(i, rs[i].error))
  {
    assert rs[..i + 1][..i] == rs[..i];
  }

  /** A line whose first field reads as `ts`. */
  lemma ParseLineOk(cfg: Config, weekdayOf: int -> int, line: string, ts: int)
    requires ParseInt(Fields(line)[0]) == Some(ts)
    ensures var tags := SelectTags(cfg, Fields(line)[1..]);
      ParseLine(cfg, weekdayOf, line) == Ok(
        if weekdayOf(ts) in cfg.skipweekdays then LineOutcome([], |tags|)
        else LineOutcome(LineEvents(cfg, tags, ts), 0))
  {
  }

  /** Appending one event appends one entry to its tag's column. */
  lemma GroupStep(events: seq<Event>, e: Event)
    ensures Group(events + [e]) == Group(events)[e.tag := Column(Group(events), e.tag) + [Obs(e.time, e.value)]]
  {
    assert (events + [e])[..|events|] == events;
  }

  /**
   * The loop over the selected tags of one line in `_parse_file`: each tag
   * gets one entry at the line's timestamp with its share of the interval, or,
   * when that timestamp's weekday is skipped, one more excluded entry.
   */
  method AddLineEntries(cfg: Config, weekdayOf: int -> int, D: map<string, seq<Obs>>, nExcluded: nat,
                        tags: seq<string>, ts: int, ghost events: seq<Event>)
    returns (D': map<string, seq<Obs>>, nExcluded': nat)
    requires D == Group(events)
    ensures weekdayOf(ts) in cfg.skipweekdays ==> D' == D && nExcluded' == nExcluded + |tags|
    ensures weekdayOf(ts) !in cfg.skipweekdays ==>
      D' == Group(events + LineEvents(cfg, tags, ts)) && nExcluded' == nExcluded
  {
    D', nExcluded' := D, nExcluded;
    ghost var added: seq<Event> := [];
    ghost var share := if tags == [] then 0.0 else Share(cfg, |tags|);
    var j := 0;
    assert events + added == events;
    while j < |tags|
      invariant 0 <= j <= |tags|
      invariant weekdayOf(ts) in cfg.skipweekdays ==> D' == D && nExcluded' == nExcluded + j
      invariant weekdayOf(ts) !in cfg.skipweekdays ==> added == Stamp(tags[..j], ts, share) && nExcluded' == nExcluded
      invariant D' == Group(events + added)
    {
      var t := tags[j];
      var duration := cfg.interval;
      if cfg.multitag == "split" {
        duration := duration / |tags| as real;
      }
      if weekdayOf(ts) in cfg.skipweekdays {
        nExcluded' := nExcluded' + 1;
      } else {
        D' := D'[t := Column(D', t) + [Obs(ts, duration)]];
        assert tags[..j + 1][..j] == tags[..j];
        GroupStep(events + added, Event(t, ts, duration));
        assert events + added + [Event(t, ts, duration)] == events + (added + [Event(t, ts, duration)]);
        added := added + [Event(t, ts, duration)];
      }
      j := j + 1;
    }
    assert tags[..|tags|] == tags;
  }

  /**
   * The start of one iteration of `_parse_file`: the annotation removed, the
   * fields split, the timestamp read and the tags selected.  The timestamp
   * field holds no whitespace and reads exactly when it is a signed or
   * unsigned digit string; every tag that receives time is a later field of
   * the line and not excluded; `first` keeps at most one tag and every other
   * policy keeps each occurrence of every tag that is not excluded.
   */
  method ReadLine(cfg: Config, line: string) returns (stamp: Option<int>, field0: string, tags: seq<string>)
    ensures field0 == Fields(line)[0] && NoSpace(field0)
    ensures stamp == ParseInt(field0) && (stamp.Some? <==> IntLiteral(field0))
    ensures tags == SelectTags(cfg, Fields(line)[1..])
    ensures forall t :: t in tags ==> t in Fields(line)[1..] && t !in cfg.skiptags
    ensures cfg.multitag == "first" ==> |tags| <= 1
    ensures cfg.multitag != "first" ==>
      forall t :: multiset(tags)[t] == if t in cfg.skiptags then 0 else multiset(Fields(line)[1..])[t]
  {
    var fields := SplitWs(StripAnnotation(line));
    field0 := fields[0];
    stamp := ParseInt(fields[0]);
    tags := FilterTags(fields[1..], cfg.skiptags);
    FilterTagsCounts(fields[1..], cfg.skiptags);
    if cfg.multitag == "first" {
      tags := SliceTo(tags, 1);
    }
  }

  /**
   * `_parse_file`: reads the lines in order, appends an entry to the column of
   * every selected tag unless the timestamp's weekday is skipped, and counts
   * the skipped entries.  A line whose first field is not an integer aborts
   * the whole parse.
   */
  method ParseFile(cfg: Config, weekdayOf: int -> int, lines: seq<string>) returns (r: Result<Table, ParseError>)
    ensures r == TableOf(ParseLines(cfg, weekdayOf, lines))
  {
    var D: map<string, seq<Obs>> := map[];
    var nExcluded: nat := 0;
    ghost var rs := LineResults(cfg, weekdayOf, lines);
    ghost var parsed := Parsed([], 0);
    var i := 0;
    assert rs[..0] == [];
    while i < |lines|
      invariant 0 <= i <= |lines|
      invariant Combine(rs[..i]) == Ok(parsed)
      invariant D == Group(parsed.events) && nExcluded == parsed.excluded
    {
      var stamp, field0, tags := ReadLine(cfg, lines[i]);
      if stamp.None? {
        BadLineStep(cfg, weekdayOf, lines, i);
        return Err(BadTimestamp(i, field0));
      }
      var ts := stamp.value;
      D, nExcluded := AddLineEntries(cfg, weekdayOf, D, nExcluded, tags, ts, parsed.events);
      parsed := GoodLineStep(cfg, weekdayOf, lines, i, parsed, ts, tags);
      i := i + 1;
    }
    assert rs[..i] == rs;
    r := Ok(Table(D, nExcluded));
  }

  /** A line whose first field is not an integer fails the whole parse at that line. */
  lemma BadLineStep(cfg: Config, weekdayOf: int -> int, lines: seq<string>, i: nat)
    requires i < |lines| && ParseInt(Fields(lines[i])[0]).None?
    requires Combine(LineResults(cfg, weekdayOf, lines)[..i]).Ok?
    ensures ParseLines(cfg, weekdayOf, lines) == Err(BadTimestamp(i, Fields(lines[i])[0]))
  {
    var rs := LineResults(cfg, weekdayOf, lines);
    assert rs[i] == Err(Fields(lines[i])[0]);
    CombineStepErr(rs, i);
    CombineErrorPersists(rs, i + 1);
  }

  /** A line with timestamp `ts` adds its events, or its count on a skipped weekday, to what the lines before it gave. */
  lemma GoodLineStep(cfg: Config, weekdayOf: int -> int, lines: seq<string>, i: nat, parsed: Parsed,
                     ts: int, tags: seq<string>)
    returns (next: Parsed)
    requires i < |lines| && ParseInt(Fields(lines[i])[0]) == Some(ts)
    requires tags == SelectTags(cfg, Fields(lines[i])[1..])
    requires Combine(LineResults(cfg, weekdayOf, lines)[..i]) == Ok(parsed)
    ensures Combine(LineResults(cfg, weekdayOf, lines)[..i + 1]) == Ok(next)
    ensures weekdayOf(ts) in cfg.skipweekdays ==> next == Parsed(parsed.events, parsed.excluded + |tags|)
    ensures weekdayOf(ts) !in cfg.skipweekdays ==> next == Parsed(parsed.events + LineEvents(cfg, tags, ts), parsed.excluded)
  {
    var rs := LineResults(cfg, weekdayOf, lines);
    ParseLineOk(cfg, weekdayOf, lines[i], ts);
    var o := rs[i].value;
    CombineStepOk(rs, i, parsed, o);
    if weekdayOf(ts) in cfg.skipweekdays {
      assert parsed.events + o.events == parsed.events;
    }
    next := Parsed(parsed.events + o.events, parsed.excluded + o.excluded);
  }
}
