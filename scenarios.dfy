/**
 * The cases of UpdateHelperTests, each as a client of a fresh UpdateHelper
 * with a three-day window.  The RFC 1123 texts are parameters, tied to the
 * instants they stand for by the requires clauses.
 */
module SelectionScenarios {
  import opened Wrappers
  import opened Dates
  import opened Selection

  /** No state file and a publication of today: suitable, and it becomes the latest date. */
  method SuitableWithoutStateIfNotTooOld(codec: DateCodec, now: Instant, today: string)
    returns (result: bool, latest: string)
    requires now > Epoch
    requires codec.parse(today) == Some(now) && codec.format(now) == today
    ensures result && latest == today
  {
    var helper := new UpdateHelper(codec, 3);
    result := helper.IsSuitablePublication(today, None, now);
    latest := helper.GetLatestPodcastDate();
  }

  /** A publication five days old is not suitable, but still becomes the latest date. */
  method NotSuitableIfTooOld(codec: DateCodec, now: Instant, minus5days: string)
    returns (result: bool, latest: string)
    requires MinusDays(now, 5) >= Epoch
    requires codec.parse(minus5days) == Some(MinusDays(now, 5)) && codec.format(MinusDays(now, 5)) == minus5days
    ensures !result && latest == minus5days
  {
    var helper := new UpdateHelper(codec, 3);
    result := helper.IsSuitablePublication(minus5days, None, now);
    latest := helper.GetLatestPodcastDate();
  }

  /** A publication older than the state date is not suitable; the state date becomes the latest. */
  method NotSuitableIfOlderThanLatestLoaded(codec: DateCodec, now: Instant, today: string, minus2days: string)
    returns (result: bool, latest: string)
    requires now >= Epoch
    requires codec.parse(today) == Some(now) && codec.format(now) == today
    requires codec.parse(minus2days) == Some(MinusDays(now, 2))
    ensures !result && latest == today
  {
    var helper := new UpdateHelper(codec, 3);
    result := helper.IsSuitablePublication(minus2days, Some(today), now);
    latest := helper.GetLatestPodcastDate();
  }

  /** A publication newer than the state date is suitable and becomes the latest date. */
  method SuitableIfNewerThanLatestLoaded(codec: DateCodec, now: Instant, today: string, minus2days: string)
    returns (result: bool, latest: string)
    requires MinusDays(now, 2) >= Epoch
    requires codec.parse(today) == Some(now) && codec.format(now) == today
    requires codec.parse(minus2days) == Some(MinusDays(now, 2))
    ensures result && latest == today
  {
    var helper := new UpdateHelper(codec, 3);
    result := helper.IsSuitablePublication(today, Some(minus2days), now);
    latest := helper.GetLatestPodcastDate();
  }

  /** A publication date that does not parse is suitable, and the latest date stays the epoch. */
  method SuitableIfWrongDateFormat(codec: DateCodec, now: Instant, today: string)
    returns (result: bool, latest: string)
    requires codec.parse("wrong_date") == None
    ensures result && latest == codec.format(Epoch)
  {
    var helper := new UpdateHelper(codec, 3);
    result := helper.IsSuitablePublication("wrong_date", Some(today), now);
    latest := helper.GetLatestPodcastDate();
  }
}

/**
 * The cases of MyRouteBuilderTests: a fresh helper with a four-day window per
 * case, and a feed of three items published today, two days ago and five
 * days ago, whose downloads all succeed.
 */
module RouteScenarios {
  import opened Wrappers
  import opened Dates
  import opened Selection
  import opened Route

  const Podcast1Url: string := "mock:podcast1"
  const Podcast2Url: string := "mock:podcast2"
  const Podcast3Url: string := "mock:podcast3"

  /** The texts the tests build from one clock reading (well after the epoch), and what they parse to. */
  predicate TestDates(codec: DateCodec, now: Instant, today: string, minus2days: string, minus3days: string, minus5days: string)
  {
    && MinusDays(now, 5) > Epoch
    && codec.parse(today) == Some(now) && codec.format(now) == today
    && codec.parse(minus2days) == Some(MinusDays(now, 2))
    && codec.parse(minus3days) == Some(MinusDays(now, 3))
    && codec.parse(minus5days) == Some(MinusDays(now, 5))
  }

  function TestFeed(now: Instant, today: string, minus2days: string, minus5days: string): Feed
  {
    Fetched([Visit(Item("podcast1", today, Podcast1Url), now, true),
             Visit(Item("podcast2", minus2days, Podcast2Url), now, true),
             Visit(Item("podcast3", minus5days, Podcast3Url), now, true)])
  }

  /** The tails of the test feed, which the split unfolds one item at a time. */
  lemma TestFeedTails(now: Instant, today: string, minus2days: string, minus5days: string)
    ensures var vs := TestFeed(now, today, minus2days, minus5days).visits;
            |vs| == 3 && vs[1..] == [vs[1], vs[2]] && vs[1..][1..] == [vs[2]] && vs[1..][1..][1..] == []
  {
  }

  /** State date three days ago: the first two items are saved, and today's date is written. */
  method NewerThanLatestLoadedAreLoaded(codec: DateCodec, now: Instant,
                                        today: string, minus2days: string, minus3days: string, minus5days: string)
    returns (outcome: RunOutcome)
    requires TestDates(codec, now, today, minus2days, minus3days, minus5days)
    ensures outcome == Completed([Download(Podcast1Url, "podcast1.mp3"), Download(Podcast2Url, "podcast2.mp3")], today)
  {
    var helper := new UpdateHelper(codec, 4);
    var route := new MyRouteBuilder(helper);
    var feed := TestFeed(now, today, minus2days, minus5days);
    var wm := Some(minus3days);
    ghost var vs := feed.visits;
    TestFeedTails(now, today, minus2days, minus5days);
    assert Evaluate(codec, 4, now, Epoch, today, wm) == Evaluation(true, now);
    assert Evaluate(codec, 4, now, now, minus2days, wm) == Evaluation(true, now);
    assert Evaluate(codec, 4, now, now, minus5days, wm) == Evaluation(false, now);
    assert Split(codec, 4, now, wm, vs[1..][1..]) == SplitResult([], now, false);
    assert Split(codec, 4, now, wm, vs[1..]) == SplitResult([DownloadOf(vs[1].item)], now, false);
    assert Split(codec, 4, Epoch, wm, vs) == SplitResult([DownloadOf(vs[0].item), DownloadOf(vs[1].item)], now, false);
    assert DownloadOf(vs[0].item) == Download(Podcast1Url, "podcast1.mp3");
    assert DownloadOf(vs[1].item) == Download(Podcast2Url, "podcast2.mp3");
    outcome := route.Run(wm, feed);
  }

  /** State date today: nothing is saved, and today's date is written again. */
  method NothingLoadedIfNewestAlreadyLoaded(codec: DateCodec, now: Instant,
                                            today: string, minus2days: string, minus3days: string, minus5days: string)
    returns (outcome: RunOutcome)
    requires TestDates(codec, now, today, minus2days, minus3days, minus5days)
    ensures outcome == Completed([], today)
  {
    var helper := new UpdateHelper(codec, 4);
    var route := new MyRouteBuilder(helper);
    var feed := TestFeed(now, today, minus2days, minus5days);
    var wm := Some(today);
    ghost var vs := feed.visits;
    TestFeedTails(now, today, minus2days, minus5days);
    assert Evaluate(codec, 4, now, Epoch, today, wm) == Evaluation(false, now);
    assert Evaluate(codec, 4, now, now, minus2days, wm) == Evaluation(false, now);
    assert Evaluate(codec, 4, now, now, minus5days, wm) == Evaluation(false, now);
    assert Split(codec, 4, now, wm, vs[1..][1..]) == SplitResult([], now, false);
    assert Split(codec, 4, now, wm, vs[1..]) == SplitResult([], now, false);
    assert Split(codec, 4, Epoch, wm, vs) == SplitResult([], now, false);
    outcome := route.Run(wm, feed);
  }

  /** No state file: the items at most four days old are saved, and today's date is written. */
  method NotOlderThanFourDaysLoadedIfNoStateFile(codec: DateCodec, now: Instant,
                                                 today: string, minus2days: string, minus3days: string, minus5days: string)
    returns (outcome: RunOutcome)
    requires TestDates(codec, now, today, minus2days, minus3days, minus5days)
    ensures outcome == Completed([Download(Podcast1Url, "podcast1.mp3"), Download(Podcast2Url, "podcast2.mp3")], today)
  {
    var helper := new UpdateHelper(codec, 4);
    var route := new MyRouteBuilder(helper);
    var feed := TestFeed(now, today, minus2days, minus5days);
    var wm: Option<string> := None;
    ghost var vs := feed.visits;
    TestFeedTails(now, today, minus2days, minus5days);
    assert Evaluate(codec, 4, now, Epoch, today, wm) == Evaluation(true, now);
    assert Evaluate(codec, 4, now, now, minus2days, wm) == Evaluation(true, now);
    assert Evaluate(codec, 4, now, now, minus5days, wm) == Evaluation(false, now);
    assert Split(codec, 4, now, wm, vs[1..][1..]) == SplitResult([], now, false);
    assert Split(codec, 4, now, wm, vs[1..]) == SplitResult([DownloadOf(vs[1].item)], now, false);
    assert Split(codec, 4, Epoch, wm, vs) == SplitResult([DownloadOf(vs[0].item), DownloadOf(vs[1].item)], now, false);
    assert DownloadOf(vs[0].item) == Download(Podcast1Url, "podcast1.mp3");
    assert DownloadOf(vs[1].item) == Download(Podcast2Url, "podcast2.mp3");
    outcome := route.Run(wm, feed);
  }

  /** The feed request fails: nothing is saved and no state is written. */
  method NothingLoadedIfFeedFails(codec: DateCodec, minus3days: string) returns (outcome: RunOutcome)
    ensures outcome == Failed([])
  {
    var helper := new UpdateHelper(codec, 4);
    var route := new MyRouteBuilder(helper);
    outcome := route.Run(Some(minus3days), FetchFailed);
  }
}
