# TagTime log ingestion, top-N tag selection and hour buckets

This project models the core of `script/pytagtime.py`, the Python 2 TagTime log analyser. A TagTime log has one ping per line. Each line holds a Unix timestamp, the tags the user gave that ping, and optionally a trailing `[...]` annotation.

- **Ingestion** (`TagTimeLog._parse_file`), with smoothing switched off and a non-zero `sigma`. This is the configuration in which every ping sits at its own timestamp with weight 1. For each line the model:
  - removes the annotation with the regular expression `\s*\[.*?\]\s*$`;
  - splits the rest on whitespace runs;
  - reads field 0 as an integer timestamp;
  - drops the excluded tags (`skiptags`);
  - applies the multitag policy: `first` keeps one tag, `split` divides the interval between the tags, and any other value (`double`) gives every tag the whole interval;
  - appends one `(timestamp, duration)` entry per remaining tag to that tag's column, unless the timestamp falls on an excluded weekday (`skipweekdays`), in which case the entry is counted in `n_excluded` instead.

  A line whose first field is not an integer aborts the whole parse. `TagLog.ParseFile` is the imperative loop, proved equal to the line-by-line definition `TagLog.ParseLines`.
- **Top-N selection** (`top_n_tags(n, extra_tags)`): the tags ranked by descending total (Python's sort is stable), cut to `n` with Python's slice rules, followed by each extra tag not yet present, in order. `TopTags.TopNTags` is the loop, proved equal to the ranked prefix followed by `NewExtras`.
- **Hour buckets** (`resolution * (hour / resolution)` in `hour_of_the_week` and `hour_sums`). `/` is Python 2 integer division, which floors.
- **`reldate` offsets**: `nD`, `nW` and `nM` go back `n`, `7n` and `28n` days.

Modules:

| file | module | contents |
|---|---|---|
| `wrappers.dfy` | `Wrappers` | `Option`, `Result`, Python's `s[:n]` |
| `log_text.dfy` | `LogText` | annotation removal, `re.split(r'\s+')`, `int()` |
| `tag_log.dfy` | `TagLog` | configuration, events, the per-line definition, `ParseFile` |
| `ingest_properties.dfy` | `IngestProperties` | what ingestion guarantees |
| `ingest_example.dfy` | `IngestExample` | a worked three-line example |
| `top_tags.dfy` | `TopTags` | ranking and `TopNTags` |
| `time_math.dfy` | `TimeMath` | floor division, hour buckets, `reldate` day offsets |

Whitespace (`\s`) is Python 2's byte-string set: space, `\t`, `\n`, `\r`, form feed and vertical tab. Durations are `real`.

**The trailing empty tag.** The annotation pattern ends in `\s*$`, so when a line has an annotation, the line's newline is removed together with it. A line *without* an annotation keeps its newline, and `re.split` then yields a final empty field. That empty string becomes a tag like any other:
- it takes an equal share of the interval under `split`;
- it gets the full interval under `double`;
- it gets its own column.

The model reproduces this (`IngestProperties.UnannotatedLineEndsWithEmptyTag`, `IngestProperties.EmptyTagTakesAShare`). So three unannotated lines `t0 tagA`, `t0+3600 tagB`, `t0+7200 tagA tagB` under `split` with interval 1 do not give tagA and tagB 1.5 hours each, as they would without the trailing newline (`IngestExample.ThreeLines`):
- each line also carries the empty tag, so tagA receives 1/2 + 1/3 hour and tagB 1/2 + 1/3 hour;
- the empty tag gets a column with 1/2 + 1/2 + 1/3 hour.

## Model

| member | source | states |
|---|---|---|
| LogText.StripAnnotationIsLeftmostMatch | script/pytagtime.py:107 | The text kept is the line up to the leftmost position where whitespace, `[`, newline-free text, `]`, whitespace runs to the end of the line. No earlier position starts such a suffix, and nothing is removed when no position does. |
| LogText.SplitWs | script/pytagtime.py:108 | Splitting on whitespace runs gives at least one field; no field contains whitespace; only the first and the last field can be empty. |
| LogText.SplitJoin | script/pytagtime.py:108 | Splitting undoes joining: whitespace-free fields (only the first and last may be empty) joined by non-empty runs of whitespace of any kind (several spaces, tabs, `\r\n`) split back into exactly those fields. |
| LogText.SplitWsLastField | script/pytagtime.py:108 | The last field is empty exactly when the text is empty or ends in whitespace; a non-empty text ending in whitespace has at least two fields. |
| LogText.ParseInt | script/pytagtime.py:109 | `int(field)` succeeds exactly when the field is an optional `+` or `-` followed by one or more ASCII digits. |
| LogText.ParseIntForms | script/pytagtime.py:109 | Every form `int()` accepts reads as its value: an optional sign, any number of leading zeros, then the decimal digits of `n` give `n`, or `-n` after `-`. |
| LogText.ParseShowInt | script/pytagtime.py:109 | Every integer written in decimal reads back as itself. |
| TagLog.Fields | script/pytagtime.py:107-110 | A line's fields, taken after the annotation is removed: at least one, none containing whitespace. |
| TagLog.FilterTags | script/pytagtime.py:112 | A tag survives the filter exactly when it is on the line and not excluded. |
| TagLog.FilterTagsCounts | script/pytagtime.py:112 | The filter keeps every occurrence of a kept tag and none of an excluded one. |
| TagLog.FilterTagsAppend | script/pytagtime.py:112 | The filter keeps order: filtering two runs of tags one after the other is filtering each and concatenating. |
| TagLog.SelectTags | script/pytagtime.py:112-115 | Every tag that receives time is on the line and not excluded. Under `first` at most one tag receives time. |
| TagLog.SelectTagsCounts | script/pytagtime.py:112-115 | Under every policy other than `first`, each occurrence of every tag that is not excluded receives time, and no excluded tag does. |
| TagLog.CombineErrorPersists | script/pytagtime.py:106-109 | Once a line's timestamp fails to parse, the whole parse fails with that line's error, whatever follows. |
| TagLog.ReadLine | script/pytagtime.py:107-115 | One iteration's reading of a line: the timestamp field has no whitespace and reads exactly when it is a signed or unsigned digit string. Every tag kept is a later field of the line and not excluded. `first` keeps at most one tag. Every other policy keeps each occurrence of every tag that is not excluded. |
| TagLog.AddLineEntries | script/pytagtime.py:117-128 | The loop over one line's tags either appends one entry per tag, at the line's timestamp with the tag's share, to that tag's column, or leaves the columns alone and counts every tag as excluded when the weekday is skipped. |
| TagLog.ParseFile | script/pytagtime.py:89-134 | The loop over the lines builds exactly the per-tag columns and the excluded count of the line-by-line definition `TagLog.ParseLines`, or stops at the first bad timestamp with its line number. |
| IngestProperties.UnannotatedLineEndsWithEmptyTag | script/pytagtime.py:107-110 | A newline-terminated line without an annotation has at least two fields, and the last one is the empty string. |
| IngestProperties.AnnotatedLineEndsWithRealTag | script/pytagtime.py:107-108 | When an annotation was removed and text remains, the last field is not empty. |
| IngestProperties.FirstPolicyKeepsFirstSurvivor | script/pytagtime.py:112-115 | Under `first` a line keeps nothing when every tag is excluded, and otherwise exactly its first tag that is not excluded. |
| IngestProperties.LineOutcomeShape | script/pytagtime.py:109-128 | A line gives one event per selected tag at its timestamp with the tag's share, or none and a count of them on a skipped weekday. Events plus excluded always equal the selected tags. |
| IngestProperties.FirstPolicyAtMostOneEntry | script/pytagtime.py:114-128 | Under `first` a line gives at most one event or excluded entry. |
| IngestProperties.SplitLineSumsToInterval | script/pytagtime.py:117-120 | Under `split`, a line's durations add up to exactly the interval when a tag survives and to nothing when none does or the weekday is skipped. |
| IngestProperties.SplitSharesSum | script/pytagtime.py:117-120 | The equal `split` shares of a non-empty tag list add up to the interval. |
| IngestProperties.OtherModesGiveFullInterval | script/pytagtime.py:117-120 | Under any policy other than `split`, every event of a line carries the full interval. |
| IngestProperties.EmptyTagTakesAShare | script/pytagtime.py:107-120 | Under `split`, an unannotated newline-terminated line's last event is for the empty tag, and every event of the line, the empty one included, gets interval divided by the number of events. |
| IngestProperties.EntriesPlusExcludedAreCandidates | script/pytagtime.py:117-128 | Over a whole log, entries appended plus entries excluded equal the number of (line, selected tag) candidates. |
| IngestProperties.EventsAvoidSkippedTags | script/pytagtime.py:112-128 | No event of a successful parse carries an excluded tag. |
| IngestProperties.GroupKeys | script/pytagtime.py:127-134 | The columns are exactly the tags that received an entry. |
| IngestProperties.GroupColumns | script/pytagtime.py:127-128 | Each column lists its tag's entries in the order of the lines and tags they came from. |
| IngestProperties.EntriesOfConcat | script/pytagtime.py:127-128 | The entries of a tag over two runs of events are those of the first run followed by those of the second. |
| IngestProperties.SkippedTagsNeverColumns | script/pytagtime.py:112-134 | No excluded tag ever becomes a column of the parsed table. |
| IngestExample.ThreeLines | script/pytagtime.py:106-134 | For three unannotated lines under `split` with a one-hour interval, nothing is excluded; tagA gets 1/2 h and 1/3 h, tagB 1/2 h and 1/3 h, and the empty tag 1/2, 1/2 and 1/3 h. |
| TopTags.RankSorted | script/pytagtime.py:304 | The ranking is in descending order of total. |
| TopTags.RankPermutes | script/pytagtime.py:304 | The ranking is a permutation of the tags. |
| TopTags.RankStable | script/pytagtime.py:304 | Tags with the same total keep their input order, as Python's stable sort does. |
| TopTags.TopAreLargest | script/pytagtime.py:304-305 | No tag after the first `n` has a greater total than any tag among them. |
| TopTags.NewExtrasMembers | script/pytagtime.py:310-313 | An extra tag is appended exactly when it is not already listed, and none is appended twice. |
| TopTags.TopNTags | script/pytagtime.py:301-314 | Without extras the result is the first `n` ranked tags. With extras it is those, followed by the extras not already present, in their given order. |
| TopTags.TopNTagsProperties | script/pytagtime.py:301-314 | The ranked prefix comes first. The result holds exactly the top tags and the extras. It has no duplicates when the tags are distinct. For `n >= 0` it has at most `n + len(extra_tags)` entries. |
| TimeMath.FloorDiv | script/pytagtime.py:168 | Python 2 integer `/` floors: for a positive divisor the quotient times the divisor is at most the dividend and within one divisor of it, and symmetrically for a negative one. |
| TimeMath.BucketBounds | script/pytagtime.py:168 | For a positive resolution the bucket is a multiple of the resolution, at most the hour and greater than hour minus resolution. An hour of the day stays in 0..23. |
| TimeMath.BucketBoundsNegative | script/pytagtime.py:208 | For a negative resolution the bucket is at least the hour and less than hour minus resolution. |
| TimeMath.BucketIdempotent | script/pytagtime.py:208 | A bucket start is its own bucket. |
| TimeMath.SameBucket | script/pytagtime.py:208 | For a positive resolution, two hours share a bucket exactly when the second lies in the `resolution` hours starting at the first one's bucket. |
| TimeMath.RelDays | script/pytagtime.py:38-50 | `reldate` succeeds exactly when the text starts with a run of digits followed by `D`, `W` or `M`. The day offset is the number times 1, 7 or 28 respectively. |
| TimeMath.RelDaysRoundTrip | script/pytagtime.py:38-50 | A decimal count followed by a unit letter and anything else reads back as that count of units, in days. |

## Left out

- Smoothing (script/pytagtime.py:96-103). It draws random offsets and uses floating-point Gaussian weights. Only the configuration with one offset of 0 and weight 1 is modelled, so each entry's value is the duration itself. With `sigma == 0`, script/pytagtime.py:102 divides 0 by 0 even when smoothing is off (the weights are computed outside the `if self.smooth:` block at :98), so every weight, and hence every value appended at :128, is NaN; this is not modelled.
- Timestamps and weekdays. `datetime.fromtimestamp` and `.weekday()` depend on the local time zone, so the weekday is a function `weekdayOf` passed in. Entries keep the integer Unix timestamp rather than a `datetime`. The `OverflowError`/`ValueError` that `fromtimestamp` raises for out-of-range timestamps is not modelled.
- Floating point. Intervals and shares are exact `real`s, so `interval / len(tags)` is not rounded as a Python float would be. An integer `interval` passed to the `TagTimeLog` constructor would make script/pytagtime.py:120 a Python 2 floor division (`1 / 2 == 0`) where the model gives 0.5; `main` always passes a float (script/pytagtime.py:368).
- The two `print` statements (script/pytagtime.py:104, 129). They only write output.
- The DataFrame construction (script/pytagtime.py:131-134). The table is a map from tag to its list of (timestamp, duration) entries. pandas' alignment on a shared index and its NaN filling are not modelled.
- The per-tag totals that `top_n_tags` ranks by, which pandas computes with a daily `resample(...).sum()`. They are an input `total`, and the column order pandas lists them in is the input order.
- The three calls of `top_n_tags` with a single argument (script/pytagtime.py:164, 204, 257). They do not match its two-parameter signature; the model follows the signature at script/pytagtime.py:301.
- `reldate`'s date arithmetic. `date.today()` minus the offset and the `datetime` built from it depend on the clock; only the day offset is modelled. Its `RuntimeError` branch cannot be reached, because the pattern admits only `D`, `W` and `M`. When the pattern does not match, the source fails on `m.group`; that failure is `None` here.
- Hour bucketing with resolution 0, and the pandas `groupby` and rescaling around the bucket expression. The model covers the integer expression only, and `resolution` must be non-zero.
- Plotting, colour maps, `_obfuscate` (random), the date-range slicing at script/pytagtime.py:77-85, and the command-line plumbing of `main`.
- `int()` on a field. Python 2 also accepts surrounding whitespace, but fields never contain any, so the model accepts exactly an optional sign followed by ASCII digits.
