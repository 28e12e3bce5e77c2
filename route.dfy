/**
 * The route of MyRouteBuilder as one sequential run: read the state text,
 * fetch the feed, split it into items (stopping on the first exception), filter
 * each item through the helper, save each accepted item as <guid>.mp3, then
 * write the helper's latest date to the state file once.
 */
module Route {
  import opened Wrappers
  import opened Dates
  import opened Selection

  /** The fields the route extracts from one feed item. */
  datatype Item = Item(guid: string, pubDate: string, enclosureUrl: string)

  /**
   * One item as the split meets it: the item, the clock reading its filter
   * call takes, and whether its download would succeed (consulted only when
   * the item is selected).
   */
  datatype Visit = Visit(item: Item, now: Instant, downloadOk: bool)

  /** The result of requesting the feed. */
  datatype Feed = FetchFailed | Fetched(visits: seq<Visit>)

  /** A podcast saved to the destination folder. */
  datatype Download = Download(url: string, fileName: string)

  /** A failed run writes no state; a completed one writes it once. */
  datatype RunOutcome =
    | Failed(saved: seq<Download>)
    | Completed(saved: seq<Download>, stateWritten: string)

  /** A run's outcome together with the helper's latest date after it. */
  datatype RunReport = RunReport(outcome: RunOutcome, latest: Instant)

  /** Where the split got to: what was saved, the helper's date, whether an exception stopped it. */
  datatype SplitResult = SplitResult(saved: seq<Download>, latest: Instant, failed: bool)

  const Mp3Suffix: string := ".mp3"

  function DownloadOf(item: Item): Download
  {
    Download(item.enclosureUrl, item.guid + Mp3Suffix)
  }

  predicate VisitSelected(codec: DateCodec, days: int, needNewerThan: Option<string>, v: Visit)
  {
    Verdict(codec, days, v.now, v.item.pubDate, needNewerThan)
  }

  /** The split: every item gets the same state text; an accepted item whose download fails stops it. */
  function Split(codec: DateCodec, days: int, latest: Instant, needNewerThan: Option<string>, visits: seq<Visit>): (r: SplitResult)
    ensures |r.saved| <= |visits|
    ensures r.failed ==> |r.saved| < |visits|
    decreases |visits|
  {
    if visits == [] then SplitResult([], latest, false)
    else
      var v := visits[0];
      var e := Evaluate(codec, days, v.now, latest, v.item.pubDate, needNewerThan);
      if !e.suitable then Split(codec, days, e.latest, needNewerThan, visits[1..])
      else if !v.downloadOk then SplitResult([], e.latest, true)
      else
        var rest := Split(codec, days, e.latest, needNewerThan, visits[1..]);
        SplitResult([DownloadOf(v.item)] + rest.saved, rest.latest, rest.failed)
  }

  /** One run on a helper whose latest date is `latest`, reading state text `state`. */
  function RunRoute(codec: DateCodec, days: int, latest: Instant, state: Option<string>, feed: Feed): (r: RunReport)
    ensures feed.FetchFailed? ==> r == RunReport(Failed([]), latest)
    ensures r.outcome.Completed? ==> feed.Fetched? && r.outcome.stateWritten == codec.format(r.latest)
    ensures feed.Fetched? ==> |r.outcome.saved| <= |feed.visits|
  {
    match feed
    case FetchFailed => RunReport(Failed([]), latest)
    case Fetched(visits) =>
      var r := Split(codec, days, latest, state, visits);
      if r.failed then RunReport(Failed(r.saved), r.latest)
      else RunReport(Completed(r.saved, codec.format(r.latest)), r.latest)
  }

  // ---------------------------------------------------------------------------
  // Reference definitions the run is measured against

  /** The downloads of every item the filter accepts, in feed order. */
  function Selected(codec: DateCodec, days: int, needNewerThan: Option<string>, visits: seq<Visit>): seq<Download>
    decreases |visits|
  {
    if visits == [] then []
    else
      (if VisitSelected(codec, days, needNewerThan, visits[0]) then [DownloadOf(visits[0].item)] else [])
      + Selected(codec, days, needNewerThan, visits[1..])
  }

  /** The downloads of every item, in feed order. */
  function AllDownloads(visits: seq<Visit>): seq<Download>
    decreases |visits|
  {
    if visits == [] then [] else [DownloadOf(visits[0].item)] + AllDownloads(visits[1..])
  }

  /** The downloads of the items whose publication date does not parse, in feed order. */
  function FailOpenDownloads(codec: DateCodec, visits: seq<Visit>): seq<Download>
    decreases |visits|
  {
    if visits == [] then []
    else
      (if codec.parse(visits[0].item.pubDate).None? then [DownloadOf(visits[0].item)] else [])
      + FailOpenDownloads(codec, visits[1..])
  }

  /** The dates a helper observes: watermark and publication date of each item where both parse. */
  function ObservedDates(codec: DateCodec, needNewerThan: Option<string>, visits: seq<Visit>): seq<Instant>
    decreases |visits|
  {
    if visits == [] then []
    else
      (match ParseInputs(codec, visits[0].item.pubDate, needNewerThan)
       case None => []
       case Some(d) => [d.floor, d.pub])
      + ObservedDates(codec, needNewerThan, visits[1..])
  }

  /** An accepted item whose download fails. */
  predicate BadDownload(codec: DateCodec, days: int, needNewerThan: Option<string>, visits: seq<Visit>, k: int)
  {
    0 <= k < |visits| && VisitSelected(codec, days, needNewerThan, visits[k]) && !visits[k].downloadOk
  }

  /** The first accepted item whose download fails. */
  predicate FirstBadDownload(codec: DateCodec, days: int, needNewerThan: Option<string>, visits: seq<Visit>, k: int)
  {
    BadDownload(codec, days, needNewerThan, visits, k) &&
    forall j :: 0 <= j < k ==> !BadDownload(codec, days, needNewerThan, visits, j)
  }

  // ---------------------------------------------------------------------------
  // Properties of the split

  /** The helper's latest date reached by evaluating one item, as a maximum over what it observed. */
  lemma EvaluateObserves(codec: DateCodec, days: int, latest: Instant, needNewerThan: Option<string>, v: Visit)
    ensures Evaluate(codec, days, v.now, latest, v.item.pubDate, needNewerThan).latest
         == MaxOf(latest, ObservedDates(codec, needNewerThan, [v]))
  {
    assert [v][1..] == [];
    match ParseInputs(codec, v.item.pubDate, needNewerThan)
    case None =>
    case Some(d) =>
      assert ObservedDates(codec, needNewerThan, [v]) == [d.floor, d.pub];
      assert [d.floor, d.pub][1..] == [d.pub];
      assert [d.pub][1..] == [];
  }

  /** The latest date after one item and then the rest is the maximum over all observed dates. */
  lemma ObservesStep(codec: DateCodec, days: int, latest: Instant, needNewerThan: Option<string>, visits: seq<Visit>)
    requires visits != []
    ensures MaxOf(Evaluate(codec, days, visits[0].now, latest, visits[0].item.pubDate, needNewerThan).latest,
                  ObservedDates(codec, needNewerThan, visits[1..]))
         == MaxOf(latest, ObservedDates(codec, needNewerThan, visits))
  {
    EvaluateObserves(codec, days, latest, needNewerThan, visits[0]);
    assert [visits[0]][1..] == [];
    var head := ObservedDates(codec, needNewerThan, [visits[0]]);
    assert ObservedDates(codec, needNewerThan, visits) == head + ObservedDates(codec, needNewerThan, visits[1..]);
    MaxOfAppend(latest, head, ObservedDates(codec, needNewerThan, visits[1..]));
  }

  /** The split never lowers the helper's latest date. */
  lemma {:induction false} SplitLatestMonotone(codec: DateCodec, days: int, latest: Instant, needNewerThan: Option<string>, visits: seq<Visit>)
    ensures Split(codec, days, latest, needNewerThan, visits).latest >= latest
    decreases |visits|
  {
    if visits != [] {
      var e := Evaluate(codec, days, visits[0].now, latest, visits[0].item.pubDate, needNewerThan);
      SplitLatestMonotone(codec, days, e.latest, needNewerThan, visits[1..]);
    }
  }

  /** An exception stops the split exactly when some accepted item fails to download. */
  lemma {:induction false} SplitFailsIff(codec: DateCodec, days: int, latest: Instant, needNewerThan: Option<string>, visits: seq<Visit>)
    ensures Split(codec, days, latest, needNewerThan, visits).failed
        <==> exists k :: BadDownload(codec, days, needNewerThan, visits, k)
    decreases |visits|
  {
    if visits != [] {
      var e := Evaluate(codec, days, visits[0].now, latest, visits[0].item.pubDate, needNewerThan);
      if BadDownload(codec, days, needNewerThan, visits, 0) {
      } else {
        var rest := visits[1..];
        SplitFailsIff(codec, days, e.latest, needNewerThan, rest);
        assert Split(codec, days, latest, needNewerThan, visits).failed
            == Split(codec, days, e.latest, needNewerThan, rest).failed;
        if exists k :: BadDownload(codec, days, needNewerThan, rest, k) {
          var k :| BadDownload(codec, days, needNewerThan, rest, k);
          assert BadDownload(codec, days, needNewerThan, visits, k + 1);
        }
        if exists k :: BadDownload(codec, days, needNewerThan, visits, k) {
          var k :| BadDownload(codec, days, needNewerThan, visits, k);
          assert BadDownload(codec, days, needNewerThan, rest, k - 1);
        }
      }
    }
  }

  /** A split that is not stopped saves exactly the accepted items and ends at the maximum observed date. */
  lemma {:induction false} SplitCompleted(codec: DateCodec, days: int, latest: Instant, needNewerThan: Option<string>, visits: seq<Visit>)
    requires !Split(codec, days, latest, needNewerThan, visits).failed
    ensures Split(codec, days, latest, needNewerThan, visits).saved == Selected(codec, days, needNewerThan, visits)
    ensures Split(codec, days, latest, needNewerThan, visits).latest == MaxOf(latest, ObservedDates(codec, needNewerThan, visits))
    decreases |visits|
  {
    if visits != [] {
      var e := Evaluate(codec, days, visits[0].now, latest, visits[0].item.pubDate, needNewerThan);
      SplitCompleted(codec, days, e.latest, needNewerThan, visits[1..]);
      ObservesStep(codec, days, latest, needNewerThan, visits);
    }
  }

  /**
   * A split that meets a failing download at item k has saved exactly the
   * accepted items before k, and the helper has observed items up to and
   * including k.
   */
  lemma {:induction false} SplitStopsAtFirstFailure(codec: DateCodec, days: int, latest: Instant, needNewerThan: Option<string>,
                                                    visits: seq<Visit>, k: int)
    requires FirstBadDownload(codec, days, needNewerThan, visits, k)
    ensures Split(codec, days, latest, needNewerThan, visits).failed
    ensures Split(codec, days, latest, needNewerThan, visits).saved == Selected(codec, days, needNewerThan, visits[..k])
    ensures Split(codec, days, latest, needNewerThan, visits).latest
         == MaxOf(latest, ObservedDates(codec, needNewerThan, visits[..k + 1]))
    decreases |visits|
  {
    var e := Evaluate(codec, days, visits[0].now, latest, visits[0].item.pubDate, needNewerThan);
    var rest := visits[1..];
    assert visits[..k + 1][0] == visits[0];
    assert visits[..k + 1][1..] == rest[..k];
    ObservesStep(codec, days, latest, needNewerThan, visits[..k + 1]);
    if k == 0 {
      assert visits[..0] == [];
      assert rest[..0] == [];
    } else {
      assert !BadDownload(codec, days, needNewerThan, visits, 0);
      forall j | 0 <= j < k - 1
        ensures !BadDownload(codec, days, needNewerThan, rest, j)
      {
        assert !BadDownload(codec, days, needNewerThan, visits, j + 1);
      }
      assert BadDownload(codec, days, needNewerThan, rest, k - 1);
      SplitStopsAtFirstFailure(codec, days, e.latest, needNewerThan, rest, k - 1);
      assert visits[..k][0] == visits[0];
      assert visits[..k][1..] == rest[..k - 1];
    }
  }

  /** With an unparseable state text every item is accepted and the helper's date stays put. */
  lemma {:induction false} SplitCorruptWatermark(codec: DateCodec, days: int, latest: Instant, text: string, visits: seq<Visit>)
    requires codec.parse(text).None?
    ensures Split(codec, days, latest, Some(text), visits).latest == latest
    ensures !Split(codec, days, latest, Some(text), visits).failed
        ==> Split(codec, days, latest, Some(text), visits).saved == AllDownloads(visits)
    decreases |visits|
  {
    if visits != [] {
      SplitCorruptWatermark(codec, days, latest, text, visits[1..]);
    }
  }

  /**
   * A helper already holding the watermark, with no parseable item newer than
   * it, accepts only the items whose dates do not parse and keeps its date.
   */
  lemma {:induction false} SplitCaughtUp(codec: DateCodec, days: int, w: Instant, needNewerThan: Option<string>, visits: seq<Visit>)
    requires ParseWatermark(codec, needNewerThan) == Some(w)
    requires forall i, p :: 0 <= i < |visits| && codec.parse(visits[i].item.pubDate) == Some(p) ==> p <= w
    ensures Split(codec, days, w, needNewerThan, visits).latest == w
    ensures !Split(codec, days, w, needNewerThan, visits).failed
        ==> Split(codec, days, w, needNewerThan, visits).saved == FailOpenDownloads(codec, visits)
    decreases |visits|
  {
    if visits != [] {
      assert forall i, p :: 0 <= i < |visits[1..]| && codec.parse(visits[1..][i].item.pubDate) == Some(p) ==> p <= w by {
        forall i, p | 0 <= i < |visits[1..]| && codec.parse(visits[1..][i].item.pubDate) == Some(p)
          ensures p <= w
        {
          assert visits[1..][i] == visits[i + 1];
        }
      }
      SplitCaughtUp(codec, days, w, needNewerThan, visits[1..]);
    }
  }

  /** Every parseable publication date is among the observed dates when the watermark parses. */
  lemma {:induction false} ObservedContainsPublications(codec: DateCodec, needNewerThan: Option<string>, visits: seq<Visit>, i: int, p: Instant)
    requires ParseWatermark(codec, needNewerThan).Some?
    requires 0 <= i < |visits| && codec.parse(visits[i].item.pubDate) == Some(p)
    ensures p in ObservedDates(codec, needNewerThan, visits)
    ensures ParseWatermark(codec, needNewerThan).value in ObservedDates(codec, needNewerThan, visits)
    decreases |visits|
  {
    if i > 0 {
      assert visits[1..][i - 1] == visits[i];
      ObservedContainsPublications(codec, needNewerThan, visits[1..], i - 1, p);
    }
  }

  // ---------------------------------------------------------------------------
  // Properties of a whole run

  /** A failed feed fetch downloads nothing, writes no state and leaves the helper alone. */
  lemma RunFeedUnavailable(codec: DateCodec, days: int, latest: Instant, state: Option<string>)
    ensures RunRoute(codec, days, latest, state, FetchFailed) == RunReport(Failed([]), latest)
  {
  }

  /** A run completes exactly when the feed is fetched and every accepted item downloads. */
  lemma RunCompletesIff(codec: DateCodec, days: int, latest: Instant, state: Option<string>, feed: Feed)
    ensures RunRoute(codec, days, latest, state, feed).outcome.Completed?
        <==> feed.Fetched? && forall k :: 0 <= k < |feed.visits| && VisitSelected(codec, days, state, feed.visits[k])
                                          ==> feed.visits[k].downloadOk
  {
    if feed.Fetched? {
      SplitFailsIff(codec, days, latest, state, feed.visits);
      if RunRoute(codec, days, latest, state, feed).outcome.Completed? {
        forall k | 0 <= k < |feed.visits| && VisitSelected(codec, days, state, feed.visits[k])
          ensures feed.visits[k].downloadOk
        {
          assert !BadDownload(codec, days, state, feed.visits, k);
        }
      } else {
        var k :| BadDownload(codec, days, state, feed.visits, k);
        assert VisitSelected(codec, days, state, feed.visits[k]) && !feed.visits[k].downloadOk;
      }
    }
  }

  /**
   * A completed run saved exactly the accepted items in feed order as
   * <guid>.mp3, and wrote once the helper's latest date, which is the maximum
   * of its date before the run and every date it observed.
   */
  lemma RunCompleted(codec: DateCodec, days: int, latest: Instant, state: Option<string>, feed: Feed)
    requires RunRoute(codec, days, latest, state, feed).outcome.Completed?
    ensures feed.Fetched?
    ensures RunRoute(codec, days, latest, state, feed).outcome.saved == Selected(codec, days, state, feed.visits)
    ensures RunRoute(codec, days, latest, state, feed).latest == MaxOf(latest, ObservedDates(codec, state, feed.visits))
    ensures RunRoute(codec, days, latest, state, feed).outcome.stateWritten
         == codec.format(RunRoute(codec, days, latest, state, feed).latest)
  {
    SplitCompleted(codec, days, latest, state, feed.visits);
  }

  /** A run stopped by the download of item k writes no state and keeps what was saved before k. */
  lemma RunStopsAtFirstFailure(codec: DateCodec, days: int, latest: Instant, state: Option<string>, visits: seq<Visit>, k: int)
    requires FirstBadDownload(codec, days, state, visits, k)
    ensures RunRoute(codec, days, latest, state, Fetched(visits)).outcome
         == Failed(Selected(codec, days, state, visits[..k]))
    ensures RunRoute(codec, days, latest, state, Fetched(visits)).latest
         == MaxOf(latest, ObservedDates(codec, state, visits[..k + 1]))
  {
    SplitStopsAtFirstFailure(codec, days, latest, state, visits, k);
  }

  /** Whatever happens, the helper's latest date after a run is no earlier than before it. */
  lemma RunLatestMonotone(codec: DateCodec, days: int, latest: Instant, state: Option<string>, feed: Feed)
    ensures RunRoute(codec, days, latest, state, feed).latest >= latest
  {
    if feed.Fetched? {
      SplitLatestMonotone(codec, days, latest, state, feed.visits);
    }
  }

  /**
   * The watermark written is no earlier than the one read, provided the one
   * read parses and some item's publication date parses.
   */
  lemma RunWritesNoEarlierWatermark(codec: DateCodec, days: int, latest: Instant, state: Option<string>, visits: seq<Visit>, i: int, p: Instant)
    requires RunRoute(codec, days, latest, state, Fetched(visits)).outcome.Completed?
    requires ParseWatermark(codec, state).Some?
    requires 0 <= i < |visits| && codec.parse(visits[i].item.pubDate) == Some(p)
    ensures RunRoute(codec, days, latest, state, Fetched(visits)).latest >= ParseWatermark(codec, state).value
    ensures RunRoute(codec, days, latest, state, Fetched(visits)).latest >= p
  {
    RunCompleted(codec, days, latest, state, Fetched(visits));
    ObservedContainsPublications(codec, state, visits, i, p);
  }

  /**
   * An empty feed writes the helper's own date, whatever state text was read:
   * a fresh helper writes the epoch.
   */
  lemma RunEmptyFeed(codec: DateCodec, days: int, latest: Instant, state: Option<string>)
    ensures RunRoute(codec, days, latest, state, Fetched([])) == RunReport(Completed([], codec.format(latest)), latest)
  {
  }

  /** An unparseable state text makes every item a download and writes the helper's unchanged date. */
  lemma RunCorruptWatermark(codec: DateCodec, days: int, latest: Instant, text: string, visits: seq<Visit>)
    requires codec.parse(text).None?
    ensures RunRoute(codec, days, latest, Some(text), Fetched(visits)).latest == latest
    ensures RunRoute(codec, days, latest, Some(text), Fetched(visits)).outcome.Completed? ==>
              RunRoute(codec, days, latest, Some(text), Fetched(visits)).outcome
              == Completed(AllDownloads(visits), codec.format(latest))
  {
    SplitCorruptWatermark(codec, days, latest, text, visits);
  }

  /**
   * A first run that reads an unparseable state text saves the item and writes
   * the helper's unchanged epoch date; a rerun reading that text saves the same
   * item again and only then moves the helper's date.
   */
  lemma RerunAfterCorruptWatermarkDownloadsAgain()
    ensures var codec := DateCodec(s => if s == "p" then Some(10) else if s == "e" then Some(0) else None, t => "e");
            var visits := [Visit(Item("g", "p", "u"), 10, true)];
            var r1 := RunRoute(codec, 1, Epoch, Some("bad"), Fetched(visits));
            var r2 := RunRoute(codec, 1, r1.latest, Some(r1.outcome.stateWritten), Fetched(visits));
            && r1 == RunReport(Completed([Download("u", "g.mp3")], "e"), Epoch)
            && r2 == RunReport(Completed([Download("u", "g.mp3")], "e"), 10)
  {
    var codec := DateCodec(s => if s == "p" then Some(10) else if s == "e" then Some(0) else None, t => "e");
    var visits := [Visit(Item("g", "p", "u"), 10, true)];
    assert visits[1..] == [];
    assert codec.parse("bad") == None && codec.parse("p") == Some(10) && codec.parse("e") == Some(0);
    assert DownloadOf(visits[0].item) == Download("u", "g.mp3");
  }

  /**
   * Running again on the same helper over the same items, with the state text
   * the first run wrote, downloads only the items whose dates do not parse and
   * writes the same text again, when the first run's state text is absent or
   * parses (RerunAfterCorruptWatermarkDownloadsAgain shows why).
   */
  lemma RerunIsIdempotent(codec: DateCodec, days: int, latest: Instant, state: Option<string>,
                          first: seq<Visit>, second: seq<Visit>)
    requires RunRoute(codec, days, latest, state, Fetched(first)).outcome.Completed?
    requires ParseWatermark(codec, state).Some?
    requires codec.parse(codec.format(RunRoute(codec, days, latest, state, Fetched(first)).latest))
          == Some(RunRoute(codec, days, latest, state, Fetched(first)).latest)
    requires |second| == |first| && forall i :: 0 <= i < |first| ==> second[i].item == first[i].item
    ensures var r1 := RunRoute(codec, days, latest, state, Fetched(first));
            var r2 := RunRoute(codec, days, r1.latest, Some(r1.outcome.stateWritten), Fetched(second));
            r2.latest == r1.latest &&
            (r2.outcome.Completed? ==> r2.outcome == Completed(FailOpenDownloads(codec, second), r1.outcome.stateWritten))
  {
    var r1 := RunRoute(codec, days, latest, state, Fetched(first));
    var w := r1.latest;
    RunCompleted(codec, days, latest, state, Fetched(first));
    forall i, p | 0 <= i < |second| && codec.parse(second[i].item.pubDate) == Some(p)
      ensures p <= w
    {
      ObservedContainsPublications(codec, state, first, i, p);
    }
    SplitCaughtUp(codec, days, w, Some(r1.outcome.stateWritten), second);
  }

  /** The route builder; the helper it holds is a singleton shared by every run. */
  class MyRouteBuilder {
    const updateHelper: UpdateHelper

    constructor (updateHelper: UpdateHelper)
      ensures this.updateHelper == updateHelper
    {
      this.updateHelper := updateHelper;
    }

    /**
     * One triggering of the route: `latestLoadedPodcastDate` is the body read
     * from the state file (None when there is none), `feed` the result of
     * requesting the RSS feed.
     */
    method Run(latestLoadedPodcastDate: Option<string>, feed: Feed) returns (outcome: RunOutcome)
      modifies updateHelper
      ensures RunReport(outcome, updateHelper.latestPodcastDate)
           == RunRoute(updateHelper.codec, updateHelper.notOlderThanDays, old(updateHelper.latestPodcastDate),
                       latestLoadedPodcastDate, feed)
    {
      if feed.FetchFailed? {
        return Failed([]);
      }
      var visits := feed.visits;
      ghost var codec, days := updateHelper.codec, updateHelper.notOlderThanDays;
      ghost var whole := Split(codec, days, updateHelper.latestPodcastDate, latestLoadedPodcastDate, visits);
      var saved: seq<Download> := [];
      var i := 0;
      while i < |visits|
        invariant 0 <= i <= |visits|
        invariant var r := Split(codec, days, updateHelper.latestPodcastDate, latestLoadedPodcastDate, visits[i..]);
                  whole == SplitResult(saved + r.saved, r.latest, r.failed)
      {
        var visit := visits[i];
        assert visits[i..][0] == visit && visits[i..][1..] == visits[i + 1..];
        ghost var before := updateHelper.latestPodcastDate;
        var suitable := updateHelper.IsSuitablePublication(visit.item.pubDate, latestLoadedPodcastDate, visit.now);
        if suitable {
          if !visit.downloadOk {
            assert Split(codec, days, before, latestLoadedPodcastDate, visits[i..])
                == SplitResult([], updateHelper.latestPodcastDate, true);
            assert saved + [] == saved;
            // the exception stops the split; the state write is never reached
            return Failed(saved);
          }
          saved := saved + [DownloadOf(visit.item)];
        }
        i := i + 1;
      }
      assert visits[i..] == [];
      assert saved + [] == saved;
      assert whole == SplitResult(saved, updateHelper.latestPodcastDate, false);
      var written := updateHelper.GetLatestPodcastDate();
      outcome := Completed(saved, written);
    }
  }
}
