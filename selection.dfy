/**
 * The incremental selection rule of UpdateHelper: whether a feed item is to be
 * downloaded, and the running "latest podcast date" the helper accumulates.
 */
module Selection {
  import opened Wrappers
  import opened Dates

  /** The two dates the rule compares once both texts parse. */
  datatype ParsedDates = ParsedDates(pub: Instant, floor: Instant)

  /**
   * The date an item must be newer than, read from the state header: no header
   * (no state file) is the epoch; a header that does not parse is a failure.
   */
  function ParseWatermark(codec: DateCodec, needNewerThan: Option<string>): (r: Option<Instant>)
    ensures needNewerThan.None? ==> r == Some(Epoch)
    ensures needNewerThan.Some? ==> r == codec.parse(needNewerThan.value)
  {
    match needNewerThan
    case None => Some(Epoch)
    case Some(text) => codec.parse(text)
  }

  /** Both parses of the `try` block; None stands for the `DateTimeException`. */
  function ParseInputs(codec: DateCodec, publicationDate: string, needNewerThan: Option<string>): Option<ParsedDates>
  {
    match codec.parse(publicationDate)
    case None => None
    case Some(pub) =>
      match ParseWatermark(codec, needNewerThan)
      case None => None
      case Some(floor) => Some(ParsedDates(pub, floor))
  }

  /** Not older than the retention window, and strictly newer than the watermark passed in. */
  predicate Suitable(d: ParsedDates, now: Instant, days: int)
    ensures Suitable(d, now, days) <==> d.pub + days * SecondsPerDay >= now && d.pub > d.floor
  {
    d.pub >= MinusDays(now, days) && d.pub > d.floor
  }

  /** The verdict on one item: fail-open when a date does not parse. */
  predicate Verdict(codec: DateCodec, days: int, now: Instant, publicationDate: string, needNewerThan: Option<string>)
    ensures codec.parse(publicationDate).None? ==> Verdict(codec, days, now, publicationDate, needNewerThan)
    ensures ParseWatermark(codec, needNewerThan).None? ==> Verdict(codec, days, now, publicationDate, needNewerThan)
    ensures forall pub, floor :: codec.parse(publicationDate) == Some(pub) && ParseWatermark(codec, needNewerThan) == Some(floor) ==>
              (Verdict(codec, days, now, publicationDate, needNewerThan) <==> pub >= MinusDays(now, days) && pub > floor)
  {
    match ParseInputs(codec, publicationDate, needNewerThan)
    case None => true
    case Some(d) => Suitable(d, now, days)
  }

  /** What one call returns and the latest date it leaves behind. */
  datatype Evaluation = Evaluation(suitable: bool, latest: Instant)

  /**
   * One call of isSuitablePublication on a helper whose latest date is `latest`:
   * the two conditional raises of the field, then the verdict.
   */
  function Evaluate(codec: DateCodec, days: int, now: Instant, latest: Instant,
                    publicationDate: string, needNewerThan: Option<string>): (e: Evaluation)
    ensures e.suitable == Verdict(codec, days, now, publicationDate, needNewerThan)
    ensures e.latest >= latest
    ensures match ParseInputs(codec, publicationDate, needNewerThan)
            case None => e.latest == latest
            case Some(d) => e.latest == Max(latest, Max(d.floor, d.pub))
  {
    match ParseInputs(codec, publicationDate, needNewerThan)
    case None => Evaluation(true, latest)
    case Some(d) =>
      var raised := if d.floor > latest then d.floor else latest;
      var latest' := if d.pub > raised then d.pub else raised;
      Evaluation(Suitable(d, now, days), latest')
  }

  /** A verdict is the same whatever the helper saw before: only the field carries history. */
  lemma VerdictIgnoresHistory(codec: DateCodec, days: int, now: Instant, latest1: Instant, latest2: Instant,
                              publicationDate: string, needNewerThan: Option<string>)
    ensures Evaluate(codec, days, now, latest1, publicationDate, needNewerThan).suitable
         == Evaluate(codec, days, now, latest2, publicationDate, needNewerThan).suitable
  {
  }

  /** The arguments of one isSuitablePublication call, with the clock reading it takes. */
  datatype Call = Call(publicationDate: string, needNewerThan: Option<string>, now: Instant)

  /** The helper's latest date after a sequence of calls, starting from `latest`. */
  function LatestAfter(codec: DateCodec, days: int, latest: Instant, calls: seq<Call>): Instant
    decreases |calls|
  {
    if calls == [] then latest
    else
      var last := calls[|calls| - 1];
      Evaluate(codec, days, last.now, LatestAfter(codec, days, latest, calls[..|calls| - 1]),
               last.publicationDate, last.needNewerThan).latest
  }

  /** Along any sequence of calls the latest date never goes down. */
  lemma {:induction false} LatestNeverDecreases(codec: DateCodec, days: int, latest: Instant, calls: seq<Call>, j: nat, k: nat)
    requires j <= k <= |calls|
    ensures latest <= LatestAfter(codec, days, latest, calls[..j]) <= LatestAfter(codec, days, latest, calls[..k])
  {
    if k == 0 {
      assert calls[..0] == [];
    } else {
      LatestNeverDecreases(codec, days, latest, calls, if j == k then k - 1 else j, k - 1);
      assert calls[..k][..k - 1] == calls[..k - 1];
    }
  }

  /** The Spring bean UpdateHelper: a retention window, and a latest date it never resets. */
  class UpdateHelper {
    const codec: DateCodec
    const notOlderThanDays: int
    var latestPodcastDate: Instant

    /** A fresh helper starts at the epoch. */
    constructor (codec: DateCodec, notOlderThanDays: int)
      ensures this.codec == codec && this.notOlderThanDays == notOlderThanDays
      ensures latestPodcastDate == Epoch
    {
      this.codec := codec;
      this.notOlderThanDays := notOlderThanDays;
      latestPodcastDate := Epoch;
    }

    /**
     * The filter of the route.  `now` is the clock reading the call takes;
     * `needNewerThan` is the raw state-file text (None for no state file).
     */
    method IsSuitablePublication(publicationDate: string, needNewerThan: Option<string>, now: Instant)
      returns (suitable: bool)
      modifies this
      ensures Evaluation(suitable, latestPodcastDate)
           == Evaluate(codec, notOlderThanDays, now, old(latestPodcastDate), publicationDate, needNewerThan)
      ensures latestPodcastDate >= old(latestPodcastDate)
      ensures suitable == Verdict(codec, notOlderThanDays, now, publicationDate, needNewerThan)
    {
      var currentPodcastDate := codec.parse(publicationDate);
      var needNewerThanDate := ParseWatermark(codec, needNewerThan);
      if currentPodcastDate.None? || needNewerThanDate.None? {
        // the DateTimeException handler: fail open, field untouched
        return true;
      }
      if needNewerThanDate.value > latestPodcastDate {
        latestPodcastDate := needNewerThanDate.value;
      }
      if currentPodcastDate.value > latestPodcastDate {
        latestPodcastDate := currentPodcastDate.value;
      }
      var notOlderThanDate := MinusDays(now, notOlderThanDays);
      suitable := currentPodcastDate.value >= notOlderThanDate && currentPodcastDate.value > needNewerThanDate.value;
    }

    /** The latest date as RFC 1123 text; a read that changes nothing. */
    method GetLatestPodcastDate() returns (s: string)
      ensures s == codec.format(latestPodcastDate)
    {
      s := codec.format(latestPodcastDate);
    }
  }
}
