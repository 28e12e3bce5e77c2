# Incremental podcast loader: selection rule and route, in Dafny

This project models the core of a small Camel/Spring application. The application
downloads new podcast episodes from an RSS feed. Each time it is triggered, the route
does five things in order:

- It reads the "latest loaded podcast date" from a state file.
- It fetches the feed.
- It passes every item, in feed order, through the filter `UpdateHelper.isSuitablePublication`.
- It saves each accepted item's enclosure as `<guid>.mp3`.
- It writes `UpdateHelper.getLatestPodcastDate()` back to the state file once.

The filter does two jobs. It returns a verdict: accept an item that is not older than
`notOlderThanDays` and strictly newer than the state date. It also raises the helper's
`latestPodcastDate` field to the state date and to the item's date. The helper is a
singleton, so the field is never reset between runs.

Modules:

- `Wrappers`, `Dates` (`dates.dfy`): `Option`, and instants as integer epoch seconds. `Epoch` is 0. A day is 86400 seconds. `DateCodec` is the RFC 1123 date formatter and parser (section 5.2.14 of RFC 1123), given as a pair of functions about which nothing else is assumed. `MaxOf` is the maximum of a value and a sequence.
- `Selection` (`selection.dfy`), modelling `UpdateHelper.java`:
  - The filter as a pure specification, `Evaluate` / `Verdict`.
  - The class `UpdateHelper`, with its mutable `latestPodcastDate`.
  - Lemmas about sequences of calls.
- `Route` (`route.dfy`), modelling `MyRouteBuilder.java`:
  - The run as a specification function, `Split` / `RunRoute`.
  - Reference definitions: `Selected`, `ObservedDates`, `FailOpenDownloads`, `AllDownloads`, `BadDownload`.
  - Lemmas connecting the run to those definitions.
  - The class `MyRouteBuilder`. It holds the shared helper, and its `Run` method is a loop over the split items.
- `SelectionScenarios`, `RouteScenarios` (`scenarios.dfy`): the cases of `UpdateHelperTests` and `MyRouteBuilderTests`, written as client methods of the two classes.

Inputs the source gets from outside:

- ZonedDateTime.now(): each item carries the clock reading its filter call takes (`Route.Visit.now`).
- The feed request: a `Feed` value, either `FetchFailed` or the items in feed order.
- Each download: a boolean on the item (`Visit.downloadOk`). It is looked at only when the item is accepted.
- The state file's body: an `Option<string>`. `None` means there is no state file.

## Behaviour a reader may not expect (the model follows the code)

- **Unparseable watermark.** A state text that does not parse is not turned into the epoch. Both dates are parsed inside the `try` (UpdateHelper.java:29-30). The `DateTimeException` makes every item suitable and leaves the field alone. A run reading a corrupt state therefore downloads every item, even items outside the retention window. It then writes the helper's unchanged date (`Route.RunCorruptWatermark`). Only a missing state (`null`) becomes the epoch.
- **Written watermark.** The state date is merged into the field only inside the filter. So the written date can be earlier than the date read. This happens for a feed with no items, or with no parseable publication date. Such a run writes the helper's own date, which is the epoch on a fresh helper (`Route.RunEmptyFeed`). `Route.RunWritesNoEarlierWatermark` gives the condition under which the written date is no earlier than the date read.
- **Field kept across runs.** The field is not a value returned per run. It belongs to the singleton bean, and a failed run leaves its increases in place. The run after a failure starts from that raised value (`Route.RunStopsAtFirstFailure`, `Route.RunLatestMonotone`).

## Model

| member | source | states |
|---|---|---|
| `Selection.Evaluate` | src/main/java/com/example/podcast/UpdateHelper.java:27-45 | The verdict is the history-free `Verdict`. If either date fails to parse, the latest date is unchanged (and the verdict is true). If both parse, the new latest date is max(old latest, watermark or epoch, publication date), whatever the verdict. The latest date never decreases. |
| `Selection.VerdictIgnoresHistory` | src/main/java/com/example/podcast/UpdateHelper.java:39-40 | Two helpers with different latest dates give the same verdict on the same arguments. The comparison uses the watermark passed in, not the accumulated field. |
| `Selection.LatestNeverDecreases` | src/main/java/com/example/podcast/UpdateHelper.java:32-37 | Along any sequence of calls, the latest date after a prefix is no earlier than the start. It is also no earlier than after any shorter prefix. |
| `Selection.UpdateHelper.constructor` | src/main/java/com/example/podcast/UpdateHelper.java:16-25 | A fresh helper keeps its window and codec, and its latest date is the epoch instant. |
| `Selection.UpdateHelper.IsSuitablePublication` | src/main/java/com/example/podcast/UpdateHelper.java:27-45 | The returned verdict and the new field equal `Evaluate` on the old field. The verdict is true iff a date fails to parse, or the publication date is ≥ now − days·86400 and strictly after the watermark (epoch when absent). The field never decreases. |
| `Selection.UpdateHelper.GetLatestPodcastDate` | src/main/java/com/example/podcast/UpdateHelper.java:47-49 | Returns the RFC 1123 text of the current latest date. It has no modifies clause, so it changes nothing. |
| `Selection.ParseWatermark` | src/main/java/com/example/podcast/UpdateHelper.java:30 | Reference definition of the state date: a missing state text is the epoch, and a present one is whatever the codec parses it to (None on failure). `Evaluate`, `SplitCorruptWatermark` and `RerunIsIdempotent` are stated with it. |
| `Selection.Suitable` | src/main/java/com/example/podcast/UpdateHelper.java:39-40 | Reference definition of the comparison: the publication date plus `days` whole days is no earlier than now, and the publication date is strictly after the watermark. `Evaluate` and `Verdict` are stated with it. |
| `Selection.Verdict` | src/main/java/com/example/podcast/UpdateHelper.java:28-44 | Reference definition of the verdict, free of history. It is true when either date fails to parse. When both parse, it is true iff pub ≥ now − days·86400 and pub > watermark. `Evaluate`, `VerdictIgnoresHistory` and the Route lemmas (through `Selected` and `BadDownload`) are stated with it. |
| `Dates.MinusDays` | src/main/java/com/example/podcast/UpdateHelper.java:39 | The retention cutoff plus `days` whole days of 86400 seconds gives back `now`. |
| `Route.MyRouteBuilder.constructor` | src/main/java/com/example/podcast/MyRouteBuilder.java:14-18 | The builder holds the helper it is given, which is shared by every run. |
| `Route.MyRouteBuilder.Run` | src/main/java/com/example/podcast/MyRouteBuilder.java:21-40 | The loop's outcome and the helper's new latest date equal `RunRoute` on the helper's old date. Every item is filtered in feed order with the same raw state text. Accepted items are saved as guid + ".mp3". The first failing download stops the split with no state write. Otherwise the helper's date text is written once. |
| `Route.Split` | src/main/java/com/example/podcast/MyRouteBuilder.java:26-36 | Reference definition of the split. Every item is filtered, in feed order, with the same state text. An accepted item whose download fails stops it. Its contract bounds the saved list by the items, and strictly when the split fails. `SplitLatestMonotone`, `SplitFailsIff`, `SplitCompleted` and `SplitStopsAtFirstFailure` describe it. |
| `Route.RunRoute` | src/main/java/com/example/podcast/MyRouteBuilder.java:21-40 | Reference definition of one run, which `MyRouteBuilder.Run` is proved equal to. A failed fetch gives `Failed([])` with the helper untouched. A completed run comes from a fetched feed and wrote the format of the helper's final date. The `Run*` lemmas describe it further. |
| `Route.SplitLatestMonotone` | src/main/java/com/example/podcast/MyRouteBuilder.java:26-28 | A split never lowers the helper's latest date. |
| `Route.SplitFailsIff` | src/main/java/com/example/podcast/MyRouteBuilder.java:26-33 | An exception stops the split exactly when some accepted item's download fails (both directions). |
| `Route.SplitCompleted` | src/main/java/com/example/podcast/MyRouteBuilder.java:26-36 | A split that is not stopped saves exactly `Selected`: every accepted item, in feed order, as guid + ".mp3". It ends at the maximum of the starting date and every observed watermark and publication date. |
| `Route.SplitStopsAtFirstFailure` | src/main/java/com/example/podcast/MyRouteBuilder.java:26-33 | Suppose the first failing accepted download is at item k. Then the split fails, has saved exactly the accepted items before k, and has observed the dates of items 0..k. |
| `Route.SplitCorruptWatermark` | src/main/java/com/example/podcast/UpdateHelper.java:28-44 | With a state text that does not parse, every item is accepted and the helper's date is untouched. |
| `Route.SplitCaughtUp` | src/main/java/com/example/podcast/UpdateHelper.java:32-40 | Suppose the helper already holds the parsed watermark and no parseable item is newer. Then only items whose date does not parse are accepted, and the date stays. |
| `Route.ObservedContainsPublications` | src/main/java/com/example/podcast/UpdateHelper.java:32-37 | When the watermark parses, it is among the dates the helper observes, and so is every parseable publication date. |
| `Route.RunFeedUnavailable` | src/main/java/com/example/podcast/MyRouteBuilder.java:25 | A failed feed fetch saves nothing, writes no state and leaves the helper's date unchanged. |
| `Route.RunCompletesIff` | src/main/java/com/example/podcast/MyRouteBuilder.java:25-38 | A run completes iff the feed is fetched and every accepted item downloads (both directions). |
| `Route.RunCompleted` | src/main/java/com/example/podcast/MyRouteBuilder.java:28-38 | A completed run saved exactly the accepted items in feed order under guid + ".mp3". It wrote once the format of the helper's final date. That date is the maximum of the starting date and every observed date. |
| `Route.RunStopsAtFirstFailure` | src/main/java/com/example/podcast/MyRouteBuilder.java:26-38 | A run stopped at item k is `Failed` with the accepted items before k and no state write. The helper keeps the dates it observed up to k. |
| `Route.RunLatestMonotone` | src/main/java/com/example/podcast/UpdateHelper.java:32-37 | Whatever the outcome, the shared helper's date after a run is no earlier than before it. |
| `Route.RunWritesNoEarlierWatermark` | src/main/java/com/example/podcast/MyRouteBuilder.java:37-38 | Suppose the state read parses and some item's publication date parses. Then the date written is no earlier than the state read, nor than that publication date. |
| `Route.RunEmptyFeed` | src/main/java/com/example/podcast/MyRouteBuilder.java:26-38 | An empty feed completes with no downloads. It writes the helper's own date, whatever state was read. |
| `Route.RunCorruptWatermark` | src/main/java/com/example/podcast/UpdateHelper.java:28-44 | With an unparseable state text, a completed run downloads every item and writes the helper's unchanged date. |
| `Route.RerunIsIdempotent` | src/main/java/com/example/podcast/MyRouteBuilder.java:22-38 | Suppose the first run completed, its state text was absent or parsed, and the codec round-trips the date it wrote. Then a second run on the same helper and items, reading what the first run wrote, downloads only items whose date does not parse. It writes the same text again and leaves the date unchanged. |
| `Route.RerunAfterCorruptWatermarkDownloadsAgain` | src/main/java/com/example/podcast/UpdateHelper.java:28-44 | A concrete case without that condition: a first run reading an unparseable state saves the item and writes the unchanged epoch date. A rerun reading that text saves the same item again and only then moves the helper's date. |
| `SelectionScenarios.SuitableWithoutStateIfNotTooOld` | src/test/java/com/example/podcast/UpdateHelperTests.java:29-40 | No state and a publication of today: suitable, and the latest date text is today's. |
| `SelectionScenarios.NotSuitableIfTooOld` | src/test/java/com/example/podcast/UpdateHelperTests.java:42-53 | A five-day-old publication with a three-day window is not suitable, yet it becomes the latest date. |
| `SelectionScenarios.NotSuitableIfOlderThanLatestLoaded` | src/test/java/com/example/podcast/UpdateHelperTests.java:55-66 | Publication two days old, state today: not suitable. The latest date is the state date. |
| `SelectionScenarios.SuitableIfNewerThanLatestLoaded` | src/test/java/com/example/podcast/UpdateHelperTests.java:68-79 | Publication today, state two days old: suitable, and the latest date is today. |
| `SelectionScenarios.SuitableIfWrongDateFormat` | src/test/java/com/example/podcast/UpdateHelperTests.java:81-92 | "wrong_date" is suitable, and the latest date stays the epoch. |
| `RouteScenarios.NewerThanLatestLoadedAreLoaded` | src/test/java/com/example/podcast/MyRouteBuilderTests.java:79-126 | State three days old, window 4 days, items {today, −2d, −5d}: podcast1.mp3 and podcast2.mp3 are saved in that order, and today is written. |
| `RouteScenarios.NothingLoadedIfNewestAlreadyLoaded` | src/test/java/com/example/podcast/MyRouteBuilderTests.java:128-163 | State today: nothing is saved, and today is written again. |
| `RouteScenarios.NotOlderThanFourDaysLoadedIfNoStateFile` | src/test/java/com/example/podcast/MyRouteBuilderTests.java:165-212 | No state file, window 4 days: podcast1.mp3 and podcast2.mp3 are saved, and today is written. |
| `RouteScenarios.NothingLoadedIfFeedFails` | src/test/java/com/example/podcast/MyRouteBuilderTests.java:214-251 | The feed request fails: nothing is saved and no state is written. |

## Left out

- RFC 1123 parsing and formatting is a library call. It is an abstract `DateCodec`, and no round-trip is assumed except where a lemma's requires clause states one.
- Time zones: `ZonedDateTime.compareTo` also orders equal instants by local time and zone. The model compares instants only. Sub-second precision of `now()` is not modelled, and `minusDays` is a fixed 86400 seconds per day, with no daylight-saving change.
- XPath extraction of `pubDate`, `guid` and the enclosure URL: items are records that already hold these three strings. A missing `pubDate` element is not modelled.
- The HTTP download, the `throwExceptionOnFailure` redirect switch, the destination file endpoint and logging are I/O. Each selected item's whole download-and-save step is one success-or-failure outcome.
- A failure to write the state file is I/O: a `Completed` outcome means the write happened.
- Scheduling (the state-file poll with `delay=5m` in UrlProvider.java), Spring/Camel bean wiring and `@Value` property injection. UrlProvider.java holds only endpoint strings and is not part of this model. PodcastTestConfig.java holds only test wiring and is not part of this model.
- Concurrent or overlapping runs, and sharing the singleton helper across threads: runs are sequential calls on one helper.
- Java `int` range for `notOlderThanDays`: the window is an unbounded integer.
