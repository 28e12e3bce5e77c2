/** Optional values: the Java `null` of a missing header, a parse that fails. */
module Wrappers {
  datatype Option<+T> = None | Some(value: T)
}

/**
 * Instants and the RFC 1123 date text used for publication dates and for the
 * persisted "latest loaded podcast" date.
 */
module Dates {
  import opened Wrappers

  /** An instant as whole seconds since 1970-01-01T00:00:00Z. */
  type Instant = int

  /** `Instant.EPOCH`, the helper's start of time. */
  const Epoch: Instant := 0

  /** `minusDays` is taken as a fixed number of seconds per day (no daylight saving). */
  const SecondsPerDay: int := 86400

  /**
   * The library's RFC 1123 date formatter (section 5.2.14 of RFC 1123, which
   * amends the date syntax of section 5 of RFC 822): `parse` is partial, a text
   * it rejects gives None; `format` renders an instant.  Nothing is assumed
   * about either function beyond its type.
   */
  datatype DateCodec = DateCodec(parse: string -> Option<Instant>, format: Instant -> string)

  function Max(a: Instant, b: Instant): (m: Instant)
    ensures m >= a && m >= b
    ensures m == a || m == b
  {
    if a >= b then a else b
  }

  /** The instant `days` days before `t`. */
  function MinusDays(t: Instant, days: int): (r: Instant)
    ensures r + days * SecondsPerDay == t
  {
    t - days * SecondsPerDay
  }

  /** The largest of `x` and the elements of `s`. */
  function MaxOf(x: Instant, s: seq<Instant>): (m: Instant)
    ensures m >= x
    ensures forall i :: 0 <= i < |s| ==> s[i] <= m
    ensures m == x || m in s
    decreases |s|
  {
    if s == [] then x else MaxOf(Max(x, s[0]), s[1..])
  }

  /** Taking the maximum over a concatenation is taking it over each part in turn. */
  lemma {:induction false} MaxOfAppend(x: Instant, a: seq<Instant>, b: seq<Instant>)
    ensures MaxOf(x, a + b) == MaxOf(MaxOf(x, a), b)
    decreases |a|
  {
    if a == [] {
      assert a + b == b;
    } else {
      assert (a + b)[0] == a[0];
      assert (a + b)[1..] == a[1..] + b;
      MaxOfAppend(Max(x, a[0]), a[1..], b);
    }
  }
}
