/**
 Polling: each poll of a series resumes from the newest stored candle, saves what the provider returns,
 and emits each candle with its finality, suppressing a resume bar that comes back unchanged
 unless it has closed since it was last seen.
 */
module Polling {
  import opened Candles
  import opened CandleStore

  datatype Response = Fetched(candles: seq<Candle>) | Failed

  /** What the provider answers for a series and a window `[from, to)`. */
  type Provider = (SeriesKey, int, int) -> Response

  datatype Emission = Emission(candle: Candle, final: bool)

  datatype CandleEvent = CandleEvent(key: SeriesKey, candle: Candle, final: bool)

  predicate CandlesEqual(a: Candle, b: Candle) {
    a == b
  }

  predicate Closed(c: Candle, span: int, now: int) {
    c.time + span <= now
  }

  /** The finality remembered for the resume bar, and what one pass over a response has emitted. */
  datatype Pass = Pass(resume: Option<bool>, emitted: seq<Emission>)

  function OnCandle(p: Pass, c: Candle, latest: Candle, span: int, now: int): Pass {
    var final := Closed(c, span, now);
    if c.time == latest.time && CandlesEqual(c, latest)
    then Pass(Some(final), if final && p.resume == Some(false) then p.emitted + [Emission(c, final)] else p.emitted)
    else Pass(Some(final), p.emitted + [Emission(c, final)])
  }

  function EmitPass(candles: seq<Candle>, latest: Candle, span: int, now: int, resume: Option<bool>): Pass {
    if candles == [] then Pass(resume, [])
    else OnCandle(EmitPass(candles[..|candles| - 1], latest, span, now, resume), candles[|candles| - 1], latest, span,
                  now)
  }

  /** Everything polling keeps about one series: its stored bucket, the resume bar's finality, all emissions so far. */
  datatype KeyState = KeyState(bucket: Bucket, resume: Option<bool>, emitted: seq<Emission>)

  /** One poll of a series at `now`, given the provider's answer for `[latest, now)`. */
  function OnPoll(span: int, st: KeyState, now: int, response: Response): KeyState {
    var latest := LatestOf(st.bucket);
    if latest.None? || response.Failed? || response.candles == [] then st
    else
      var pass := EmitPass(response.candles, latest.value, span, now, st.resume);
      KeyState(SaveAll(st.bucket, response.candles), pass.resume, st.emitted + pass.emitted)
  }

  /** One poll of a series against a provider, which is asked for everything from the newest stored candle on. */
  function PollWith(key: SeriesKey, st: KeyState, now: int, provider: Provider): KeyState {
    var latest := LatestOf(st.bucket);
    if latest.None? then st else OnPoll(PeriodMillis(key.period), st, now, provider(key, latest.value.time, now))
  }

  /** What a sequence of polls, of whatever series, does to one series. */
  function Visits(key: SeriesKey, st: KeyState, keys: seq<SeriesKey>, now: nat -> int, provider: Provider): KeyState {
    if keys == [] then st
    else
      var n := |keys| - 1;
      var before := Visits(key, st, keys[..n], now, provider);
      if keys[n] == key then PollWith(key, before, now(n), provider) else before
  }

  /** The emissions of one series among all delivered events. */
  function EventsFor(events: seq<CandleEvent>, key: SeriesKey): seq<Emission> {
    if events == [] then []
    else
      var e := events[|events| - 1];
      EventsFor(events[..|events| - 1], key) + if e.key == key then [Emission(e.candle, e.final)] else []
  }

  lemma EventsForOne(events: seq<CandleEvent>, e: CandleEvent, key: SeriesKey)
    ensures EventsFor(events + [e], key) == EventsFor(events, key) + if e.key == key then [Emission(e.candle, e.final)]
                                                                       else []
  {
    assert (events + [e])[..|events|] == events;
  }

  lemma {:induction false} EventsForTagged(events: seq<CandleEvent>, k: SeriesKey, es: seq<Emission>, key: SeriesKey)
    ensures EventsFor(events + Tag(k, es), key) == EventsFor(events, key) + if k == key then es else []
  {
    hide EventsFor;
    if es == [] {
      assert events + Tag(k, es) == events;
    } else {
      var front, last := es[..|es| - 1], es[|es| - 1];
      EventsForTagged(events, k, front, key);
      EventsForOne(events + Tag(k, front), CandleEvent(k, last.candle, last.final), key);
      assert events + Tag(k, es) == events + Tag(k, front) + [CandleEvent(k, last.candle, last.final)];
      assert es == front + [last];
    }
  }

  /** Emissions already made do not influence a poll. */
  lemma PollWithShifts(key: SeriesKey, st: KeyState, now: int, provider: Provider)
    ensures var alone := PollWith(key, st.(emitted := []), now, provider);
            PollWith(key, st, now, provider) == alone.(emitted := st.emitted + alone.emitted)
  {
    hide LatestOf, EmitPass, SaveAll;
    assert st.emitted + [] == st.emitted;
  }

  function Tag(key: SeriesKey, es: seq<Emission>): (r: seq<CandleEvent>)
    ensures |r| == |es|
    ensures forall i :: 0 <= i < |es| ==> r[i] == CandleEvent(key, es[i].candle, es[i].final)
  {
    seq(|es|, i requires 0 <= i < |es| => CandleEvent(key, es[i].candle, es[i].final))
  }

  class PollingService {
    const candles: InMemoryCandleRepository
    var resumeBarFinal: map<SeriesKey, bool>
    /** Every event delivered to the sinks, in order. */
    var events: seq<CandleEvent>

    function Resume(key: SeriesKey): Option<bool>
      reads this
    {
      if key in resumeBarFinal then Some(resumeBarFinal[key]) else None
    }

    /** The state of one series before a poll, with no emissions yet. */
    function Before(key: SeriesKey): KeyState
      reads this, candles
    {
      KeyState(candles.BucketOf(key), Resume(key), [])
    }

    constructor (candles: InMemoryCandleRepository)
      ensures this.candles == candles && resumeBarFinal == map[] && events == []
    {
      this.candles := candles;
      resumeBarFinal, events := map[], [];
    }

    /** One poll of one series; no other series' candles or finality change. */
    method PollOne(key: SeriesKey, now: int, provider: Provider)
      requires candles.Valid()
      modifies this, candles
      ensures candles.Valid()
      ensures var after := PollWith(key, old(Before(key)), now, provider);
              && candles.BucketOf(key) == after.bucket
              && Resume(key) == after.resume
              && events == old(events) + Tag(key, after.emitted)
      ensures forall k :: k != key ==> candles.BucketOf(k) == old(candles.BucketOf(k)) && Resume(k) == old(Resume(k))
    {
      hide SaveAll, LatestOf, OnCandle, Closed;
      LatestIsNewest(candles.BucketOf(key));
      var latest := candles.Latest(key);
      if latest.None? { return; }
      var response := provider(key, latest.value.time, now);
      if response.Failed? || response.candles == [] { return; }
      candles.Save(key, response.candles);
      var span := PeriodMillis(key.period);
      ghost var resume := Resume(key);
      label passing:
      for i := 0 to |response.candles|
        invariant candles.Valid() && candles.series == old@passing(candles.series)
        invariant var pass := EmitPass(response.candles[..i], latest.value, span, now, resume);
                  Resume(key) == pass.resume && events == old(events) + Tag(key, pass.emitted)
        invariant forall k :: k != key ==> Resume(k) == old(Resume(k))
      {
        var candle := response.candles[i];
        assert response.candles[..i + 1][..i] == response.candles[..i];
        Delivered(key, response.candles, i, latest.value, span, now, resume, old(events));
        var final := Closed(candle, span, now);
        if candle.time == latest.value.time && CandlesEqual(candle, latest.value) {
          var closingNow := final && key in resumeBarFinal && !resumeBarFinal[key];
          resumeBarFinal := resumeBarFinal[key := final];
          if !closingNow { continue; }
        } else {
          resumeBarFinal := resumeBarFinal[key := final];
        }
        events := events + [CandleEvent(key, candle, final)];
      }
      assert response.candles[..|response.candles|] == response.candles;
    }

    /** Poll a list of series one after the other; each ends as its own polls alone would leave it. */
    method Sweep(keys: seq<SeriesKey>, now: nat -> int, provider: Provider)
      requires candles.Valid()
      modifies this, candles
      ensures candles.Valid()
      ensures forall key :: Swept(key, old(Before(key)), old(events), keys, now, provider, Before(key), events)
    {
      hide PollWith, Visits, EventsFor, Swept;
      ghost var was := events;
      forall key ensures Swept(key, old(Before(key)), was, [], now, provider, Before(key), events) {
        NothingSwept(key, Before(key), was, now, provider);
      }
      for i := 0 to |keys|
        invariant candles.Valid()
        invariant forall key :: Swept(key, old(Before(key)), was, keys[..i], now, provider, Before(key), events)
      {
        label visiting:
        PollOne(keys[i], now(i), provider);
        forall key ensures Swept(key, old(Before(key)), was, keys[..i + 1], now, provider, Before(key), events) {
          SweptOne(key, old(Before(key)), was, keys, i, now, provider, old@visiting(Before(key)), old@visiting(events),
                   PollWith(keys[i], old@visiting(Before(keys[i])), now(i), provider).emitted, Before(key), events);
        }
      }
      assert keys[..|keys|] == keys;
    }
  }

  /**
   After polling `keys`, a series stands as its own polls leave it, and its events grew by exactly their emissions.
   */
  ghost predicate Swept(key: SeriesKey, st: KeyState, events: seq<CandleEvent>, keys: seq<SeriesKey>, now: nat -> int,
                        provider: Provider,
                        st': KeyState, events': seq<CandleEvent>) {
    var after := Visits(key, st, keys, now, provider);
    && st'.bucket == after.bucket && st'.resume == after.resume
    && EventsFor(events', key) == EventsFor(events, key) + after.emitted
  }

  lemma NothingSwept(key: SeriesKey, st: KeyState, events: seq<CandleEvent>, now: nat -> int, provider: Provider)
    requires st.emitted == []
    ensures Swept(key, st, events, [], now, provider, st, events)
  {
  }

  lemma SweptOne(key: SeriesKey, st: KeyState, was: seq<CandleEvent>, keys: seq<SeriesKey>, i: nat, now: nat -> int,
                 provider: Provider,
                 mid: KeyState, events: seq<CandleEvent>, es: seq<Emission>, st': KeyState, events': seq<CandleEvent>)
    requires i < |keys| && Swept(key, st, was, keys[..i], now, provider, mid, events) && mid.emitted == []
    requires events' == events + Tag(keys[i], es)
    requires if key == keys[i]
             then var after := PollWith(key, mid, now(i), provider);
                  st'.bucket == after.bucket && st'.resume == after.resume && es == after.emitted
             else st'.bucket == mid.bucket && st'.resume == mid.resume
    ensures Swept(key, st, was, keys[..i + 1], now, provider, st', events')
  {
    hide PollWith, EventsFor;
    assert keys[..i + 1][..i] == keys[..i];
    EventsForTagged(events, keys[i], es, key);
    if key == keys[i] {
      var before := Visits(key, st, keys[..i], now, provider);
      PollWithShifts(key, before, now(i), provider);
      assert before.(emitted := []) == mid;
    }
  }

  /** What the candle at `i` adds to the events already delivered. */
  lemma Delivered(key: SeriesKey, candles: seq<Candle>, i: nat, latest: Candle, span: int, now: int,
                  resume: Option<bool>,
                  before: seq<CandleEvent>)
    requires i < |candles|
    ensures var p, c := EmitPass(candles[..i], latest, span, now, resume), candles[i];
            var p' := EmitPass(candles[..i + 1], latest, span, now, resume);
            var final := Closed(c, span, now);
            && p'.resume == Some(final)
            && before + Tag(key, p'.emitted) ==
                 if c.time == latest.time && CandlesEqual(c, latest) && !(final && p.resume == Some(false))
                 then before + Tag(key, p.emitted)
                 else before + Tag(key, p.emitted) + [CandleEvent(key, c, final)]
  {
    hide Closed, CandlesEqual;
    assert candles[..i + 1][..i] == candles[..i];
    var p := EmitPass(candles[..i], latest, span, now, resume);
    var e := Emission(candles[i], Closed(candles[i], span, now));
    assert Tag(key, p.emitted + [e]) == Tag(key, p.emitted) + [CandleEvent(key, e.candle, e.final)];
  }
}
