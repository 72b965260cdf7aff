/**
Transfer speed over a sliding window of three seconds, kept in a pruned queue.

The specification recomputes everything from all events accepted so far; the tracker is
proved to give the same answers from its queue.  Times are nanoseconds, speeds are exact
quotients.
*/
module RateTracker {
  import opened Common

  const WINDOW_NS: nat := 3_000_000_000
  const NS_PER_SECOND: real := 1_000_000_000.0
  const PROGRESS_SCHEMA_VERSION: nat := 1
  const U64_MAX: nat := 0xFFFF_FFFF_FFFF_FFFF

  /** The closed public vocabulary of event names; `Unlisted` is any other text. */
  datatype EventName =
    | Accepted | Preflight | Hash | Advanced | Resumed | Stalled | Completed | Failed | Cancelled
    | Unlisted(text: string)

  datatype Progress = Progress(schema: nat, event: EventName, contextBound: bool, revision: nat,
                               total: nat, confirmed: nat, durable: nat,
                               windowBps: real, averageBps: real, etaMs: Option<nat>)
  {
    /** `validate_public_transfer_progress`. */
    predicate Valid() {
      && schema == PROGRESS_SCHEMA_VERSION
      && durable <= confirmed <= total
      && (contextBound ==> revision > 0)
      && windowBps >= 0.0 && averageBps >= 0.0
      && !event.Unlisted?
    }
  }

  datatype Observation = Observation(at: nat, confirmed: nat)
  datatype Stamped = Stamped(progress: Progress, at: nat)

  // ---------------------------------------------------------------- specification

  /** The events accepted so far. */
  datatype Events = NoEvents | Later(before: Events, last: Stamped)

  /** Every advance since the start, or since the last "resumed" event. */
  function History(created: nat, events: Events): (h: seq<Observation>)
    ensures |h| > 0
  {
    match events
    case NoEvents => [Observation(created, 0)]
    case Later(before, last) =>
      var h := History(created, before);
      var seen := Observation(last.at, last.progress.confirmed);
      if last.progress.event.Resumed? then [seen]
      else if last.progress.confirmed > h[|h| - 1].confirmed then h + [seen]
      else h
  }

  predicate Old(o: Observation, now: nat) {
    o.at + WINDOW_NS <= now
  }

  /** The latest observation that has left the window, or else the first. */
  function WindowStart(h: seq<Observation>, now: nat): (k: nat)
    requires |h| > 0
    ensures k < |h|
    ensures k > 0 ==> Old(h[k], now)
    ensures forall i :: k < i < |h| ==> !Old(h[i], now)
  {
    if |h| == 1 || Old(h[|h| - 1], now) then |h| - 1
    else WindowStart(h[..|h| - 1], now)
  }

  function Speed(bytes: int, elapsedNs: int): real {
    if elapsedNs > 0 then bytes as real / (elapsedNs as real / NS_PER_SECOND) else 0.0
  }

  function WindowSpeed(h: seq<Observation>, confirmed: nat, now: nat): real
    requires |h| > 0
  {
    var start := h[WindowStart(h, now)];
    Speed(confirmed - start.confirmed, now - start.at)
  }

  function AverageSpeed(h: seq<Observation>, confirmed: nat, now: nat): real
    requires |h| > 0
  {
    Speed(confirmed - h[0].confirmed, now - h[0].at)
  }

  function EtaMs(remaining: int, bps: real): Option<nat>
    requires remaining >= 0
  {
    if bps > 0.0 then
      SpeedQuotient(remaining, bps);
      Some(Min((remaining as real / bps * 1000.0).Floor, U64_MAX))
    else None
  }

  lemma SpeedQuotient(remaining: int, bps: real)
    requires remaining >= 0 && bps > 0.0
    ensures (remaining as real / bps * 1000.0).Floor >= 0
  {
    assert remaining as real / bps >= 0.0;
  }

  /** The event with all its rates recomputed from the full history. */
  function Enriched(h: seq<Observation>, progress: Progress, now: nat): Progress
    requires |h| > 0 && progress.confirmed <= progress.total
  {
    var bps := WindowSpeed(h, progress.confirmed, now);
    progress.(windowBps := bps,
              averageBps := AverageSpeed(h, progress.confirmed, now),
              etaMs := EtaMs(progress.total - progress.confirmed, bps))
  }

  /** A speed times the elapsed seconds is the bytes. */
  lemma SpeedTimesTime(bytes: int, elapsedNs: int)
    requires elapsedNs > 0
    ensures Speed(bytes, elapsedNs) * (elapsedNs as real / NS_PER_SECOND) == bytes as real
  {
    assert elapsedNs as real / NS_PER_SECOND > 0.0;
  }

  /** The estimate is in milliseconds, rounded down: at this speed the rest takes that long, and less than one more. */
  lemma EtaIsInMilliseconds(remaining: int, bps: real)
    requires remaining >= 0 && bps > 0.0 && EtaMs(remaining, bps) != Some(U64_MAX)
    ensures var ms := EtaMs(remaining, bps);
      && ms.Some?
      && bps * (ms.value as real / 1000.0) <= remaining as real < bps * ((ms.value + 1) as real / 1000.0)
  {
    var seconds := remaining as real / bps;
    SpeedQuotient(remaining, bps);
    var ms := EtaMs(remaining, bps).value;
    InSeconds(seconds, ms);
    QuotientBounds(remaining as real, bps, ms as real / 1000.0, (ms + 1) as real / 1000.0);
  }

  lemma InSeconds(seconds: real, ms: nat)
    requires (seconds * 1000.0).Floor == ms
    ensures ms as real / 1000.0 <= seconds < (ms + 1) as real / 1000.0
  {
  }

  lemma QuotientBounds(a: real, b: real, low: real, high: real)
    requires b > 0.0 && low <= a / b < high
    ensures b * low <= a < b * high
  {
    var q := a / b;
    assert q * b == a;
    assert (q - low) * b >= 0.0 && (high - q) * b > 0.0;
  }

  /** Where counting started: when the tracker was made, or at the last "resumed" event. */
  function Baseline(created: nat, events: Events): Observation {
    match events
    case NoEvents => Observation(created, 0)
    case Later(before, last) =>
      if last.progress.event.Resumed? then Observation(last.at, last.progress.confirmed) else Baseline(created, before)
  }

  lemma {:induction false} HistoryStartsAtBaseline(created: nat, events: Events)
    ensures History(created, events)[0] == Baseline(created, events)
  {
    match events
    case NoEvents =>
    case Later(before, _) => HistoryStartsAtBaseline(created, before);
  }

  /** The average counts what was gained since the last "resumed" event, and nothing before it. */
  lemma AverageExcludesResumedPrefix(created: nat, events: Events, confirmed: nat, now: nat)
    ensures var h, base := History(created, events), Baseline(created, events);
      if now > base.at
      then AverageSpeed(h, confirmed, now) * ((now - base.at) as real / NS_PER_SECOND) ==
           (confirmed - base.confirmed) as real
      else AverageSpeed(h, confirmed, now) == 0.0
  {
    HistoryStartsAtBaseline(created, events);
    var base := Baseline(created, events);
    if now > base.at {
      SpeedTimesTime(confirmed - base.confirmed, now - base.at);
    }
  }

  /** Times never decrease and byte counts strictly increase. */
  predicate Ordered(h: seq<Observation>) {
    |h| > 1 ==>
      var last, previous := h[|h| - 1], h[|h| - 2];
      previous.at <= last.at && previous.confirmed < last.confirmed && Ordered(h[..|h| - 1])
  }

  lemma {:induction false} OrderedAt(h: seq<Observation>, i: nat, j: nat)
    requires Ordered(h) && i <= j < |h|
    ensures h[i].at <= h[j].at && h[i].confirmed <= h[j].confirmed
  {
    if i < j {
      if j == |h| - 1 {
        OrderedAt(h[..|h| - 1], i, j - 1);
      } else {
        OrderedAt(h[..|h| - 1], i, j);
      }
    }
  }

  /** When nothing has advanced for a whole window, the window speed is zero by itself. */
  lemma StalledWindowIsZero(h: seq<Observation>, now: nat)
    requires |h| > 0 && Old(h[|h| - 1], now)
    ensures WindowSpeed(h, h[|h| - 1].confirmed, now) == 0.0
  {
    assert WindowStart(h, now) == |h| - 1;
  }

  /** The front of the pruned queue is the window start of the full history. */
  lemma PrunedFrontIsWindowStart(h: seq<Observation>, dropped: nat, now: nat)
    requires Ordered(h) && dropped < |h| && (dropped == 0 || Old(h[dropped], now))
    requires dropped + 1 < |h| ==> !Old(h[dropped + 1], now)
    ensures WindowStart(h, now) == dropped
  {
    var k := WindowStart(h, now);
    if k > dropped {
      OrderedAt(h, dropped + 1, k);
    }
  }

  lemma OrderedGrows(h: seq<Observation>, seen: Observation)
    requires |h| > 0 && Ordered(h) && h[|h| - 1].at <= seen.at && h[|h| - 1].confirmed < seen.confirmed
    ensures Ordered(h + [seen])
  {
    assert (h + [seen])[..|h + [seen]| - 1] == h;
  }

  lemma SuffixGrows(h: seq<Observation>, seen: Observation, dropped: nat)
    requires dropped < |h|
    ensures h[dropped..] + [seen] == (h + [seen])[dropped..]
  {
  }

  // ---------------------------------------------------------------- the tracker

  /** `saturating_sub` on unsigned integers, and `duration_since` on instants. */
  function SaturatingSub(a: nat, b: nat): nat {
    if a >= b then a - b else 0
  }

  class TransferRateTracker {
    var started: nat
    var lastAdvanced: nat
    var baselineConfirmed: nat
    var lastConfirmed: nat
    var observations: seq<Observation>
    ghost const created: nat
    /** Every event accepted so far, and when the tracker was last used. */
    ghost var events: Events
    ghost var latest: nat
    /** Every advance since the last restart. */
    ghost var history: seq<Observation>
    /** How many observations of the full history have been dropped. */
    ghost var dropped: nat

    constructor (now: nat)
      ensures Valid() && events == NoEvents && latest == now && created == now
    {
      started, lastAdvanced, baselineConfirmed, lastConfirmed := now, now, 0, 0;
      observations := [Observation(now, 0)];
      created, events, latest, dropped := now, NoEvents, now, 0;
      history := [Observation(now, 0)];
    }

    ghost predicate Valid()
      reads this
    {
      var h := history;
      && h == History(created, events) && Ordered(h) && h[|h| - 1].at <= latest
      && h[0] == Observation(started, baselineConfirmed)
      && h[|h| - 1] == Observation(lastAdvanced, lastConfirmed)
      && dropped < |h| && observations == h[dropped..]
      && (dropped == 0 || Old(h[dropped], latest))
    }

    /** Accept an event and fill in its rates; a rejected event changes nothing. */
    method Enrich(progress: Progress, now: nat) returns (r: Option<Progress>)
      requires Valid() && latest <= now
      modifies this
      ensures Valid()
      ensures r.Some? <==> progress.Valid() && (progress.event.Resumed? || progress.confirmed >= old(lastConfirmed))
      ensures r == None ==>
        events == old(events) && observations == old(observations) && lastConfirmed == old(lastConfirmed)
      ensures r.Some? ==> events == Later(old(events), Stamped(progress, now)) && latest == now
      ensures r.Some? ==> r.value.Valid() && r.value == Enriched(History(created, events), progress, now)
    {
      if !progress.Valid() {
        return None;
      }
      if !progress.event.Resumed? && progress.confirmed < lastConfirmed {
        return None;
      }
      Observe(progress, now);
      Prune(now);
      var enriched := Rates(progress, now);
      r := Some(enriched);
    }

    /** Restart at a "resumed" event, otherwise append the observation if bytes were confirmed. */
    method Observe(progress: Progress, now: nat)
      requires Valid() && latest <= now
      requires progress.event.Resumed? || progress.confirmed >= lastConfirmed
      modifies this
      ensures Valid() && events == Later(old(events), Stamped(progress, now)) && latest == now
      ensures lastConfirmed == progress.confirmed
    {
      if progress.event.Resumed? {
        Restart(progress, now);
      } else if progress.confirmed > lastConfirmed {
        Advance(progress, now);
      } else {
        Hold(progress, now);
      }
    }

    method Restart(progress: Progress, now: nat)
      requires progress.event.Resumed?
      modifies this
      ensures Valid() && events == Later(old(events), Stamped(progress, now)) && latest == now
      ensures lastConfirmed == progress.confirmed
    {
      started, lastAdvanced := now, now;
      baselineConfirmed, lastConfirmed := progress.confirmed, progress.confirmed;
      observations := [Observation(now, progress.confirmed)];
      history, dropped := observations, 0;
      events, latest := Later(events, Stamped(progress, now)), now;
    }

    method Advance(progress: Progress, now: nat)
      requires Valid() && latest <= now && !progress.event.Resumed? && progress.confirmed > lastConfirmed
      modifies this
      ensures Valid() && events == Later(old(events), Stamped(progress, now)) && latest == now
      ensures lastConfirmed == progress.confirmed
    {
      var seen := Observation(now, progress.confirmed);
      OrderedGrows(history, seen);
      SuffixGrows(history, seen, dropped);
      lastAdvanced, lastConfirmed := now, progress.confirmed;
      observations := observations + [seen];
      history := history + [seen];
      events, latest := Later(events, Stamped(progress, now)), now;
    }

    /** Nothing confirmed since the last event. */
    method Hold(progress: Progress, now: nat)
      requires Valid() && latest <= now && !progress.event.Resumed? && progress.confirmed == lastConfirmed
      modifies this`events, this`latest
      ensures Valid() && events == Later(old(events), Stamped(progress, now)) && latest == now
    {
      events, latest := Later(events, Stamped(progress, now)), now;
    }

    /** Drop observations while the second one has left the window, too. */
    method Prune(now: nat)
      requires Valid() && latest == now
      modifies this`observations, this`dropped
      ensures Valid()
      ensures dropped == WindowStart(history, now) && observations[0] == history[dropped]
    {
      ghost var h := history;
      while |observations| > 1 && SaturatingSub(now, observations[1].at) >= WINDOW_NS
        invariant dropped < |h| && observations == h[dropped..]
        invariant dropped == 0 || Old(h[dropped], now)
        decreases |observations|
      {
        assert observations[1] == h[dropped + 1] && h[dropped..][1..] == h[dropped + 1..];
        observations := observations[1..];
        dropped := dropped + 1;
      }
      PrunedFrontIsWindowStart(h, dropped, now);
    }

    method Rates(progress: Progress, now: nat) returns (r: Progress)
      requires Valid() && latest == now && progress.Valid() && lastConfirmed == progress.confirmed
      requires dropped == WindowStart(history, now) && observations[0] == history[dropped]
      ensures r.Valid()
      ensures r == Enriched(history, progress, now)
    {
      ghost var h := history;
      var front := observations[0];
      var bps := Speed(SaturatingSub(progress.confirmed, front.confirmed), SaturatingSub(now, front.at));
      if SaturatingSub(now, lastAdvanced) >= WINDOW_NS {
        StalledWindowIsZero(h, now);
        bps := 0.0;
      }
      OrderedAt(h, dropped, |h| - 1);
      OrderedAt(h, 0, |h| - 1);
      var average := Speed(SaturatingSub(progress.confirmed, baselineConfirmed), SaturatingSub(now, started));
      SpeedIsNonNegative(progress.confirmed - front.confirmed, now - front.at);
      SpeedIsNonNegative(progress.confirmed - baselineConfirmed, now - started);
      var eta := EtaMs(SaturatingSub(progress.total, progress.confirmed), bps);
      r := progress.(windowBps := bps, averageBps := average, etaMs := eta);
    }
  }

  lemma SpeedIsNonNegative(bytes: int, elapsedNs: int)
    requires bytes >= 0
    ensures Speed(bytes, elapsedNs) >= 0.0
  {
    if elapsedNs > 0 {
      assert elapsedNs as real / NS_PER_SECOND > 0.0;
    }
  }
}
