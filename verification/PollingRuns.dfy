/** Exactly-once close: what whole runs of polling emit when the provider reports a market faithfully. */
module PollingRuns {
  import opened Candles
  import opened CandleStore
  import opened Polling

  /** Which open times exist, and what the bar opening at `t` reads at instant `n`. */
  datatype Market = Market(opens: int -> bool, content: (int, int) -> Candle)

  /** Bars are at least one period apart, and a bar is never revised once it has closed. */
  ghost predicate Sound(m: Market, span: int) {
    && span > 0
    && (forall a, b :: m.opens(a) && m.opens(b) && a < b ==> a + span <= b)
    && (forall t, n :: m.content(t, n).time == t)
    && (forall t, n, n' :: t + span <= n <= n' ==> m.content(t, n) == m.content(t, n'))
  }

  /** A faithful answer for `[from, now)`: exactly the market's bars there, ascending, as they read at `now`. */
  ghost predicate Answers(m: Market, from: int, now: int, candles: seq<Candle>) {
    && Ascending(candles)
    && (forall c :: c in candles ==> m.opens(c.time) && from <= c.time < now && c == m.content(c.time, now))
    && (forall t :: m.opens(t) && from <= t < now ==> m.content(t, now) in candles)
  }

  // ---- one pass ----

  function Each(candles: seq<Candle>, span: int, now: int): (r: seq<Emission>)
    ensures |r| == |candles|
    ensures forall i :: 0 <= i < |r| ==> r[i] == Emission(candles[i], Closed(candles[i], span, now))
  {
    seq(|candles|, i requires 0 <= i < |candles| => Emission(candles[i], Closed(candles[i], span, now)))
  }

  /** Whether the first candle of a response is suppressed. */
  predicate Suppressed(head: Candle, latest: Candle, span: int, now: int, resume: Option<bool>) {
    head == latest && !(Closed(head, span, now) && resume == Some(false))
  }

  function HeadPart(head: Candle, latest: Candle, span: int, now: int, resume: Option<bool>): seq<Emission> {
    if Suppressed(head, latest, span, now, resume) then [] else [Emission(head, Closed(head, span, now))]
  }

  lemma FirstCandle(c: Candle, latest: Candle, span: int, now: int, resume: Option<bool>)
    ensures OnCandle(Pass(resume, []), c, latest, span, now)
            == Pass(Some(Closed(c, span, now)), HeadPart(c, latest, span, now, resume))
  {
    hide Closed;
  }

  lemma LaterCandle(p: Pass, c: Candle, latest: Candle, span: int, now: int)
    requires latest.time < c.time
    ensures OnCandle(p, c, latest, span, now)
         == Pass(Some(Closed(c, span, now)), p.emitted + [Emission(c, Closed(c, span, now))])
  {
    hide Closed;
  }

  lemma EmitPassLast(candles: seq<Candle>, latest: Candle, span: int, now: int, resume: Option<bool>)
    requires candles != []
    ensures EmitPass(candles, latest, span, now, resume)
         == OnCandle(EmitPass(candles[..|candles| - 1], latest, span, now, resume), candles[|candles| - 1], latest,
                     span, now)
    ensures EmitPass([], latest, span, now, resume) == Pass(resume, [])
  {
    hide OnCandle;
  }

  lemma EachLast(candles: seq<Candle>, span: int, now: int)
    requires |candles| >= 2
    ensures Each(candles[1..], span, now)
         == Each(candles[..|candles| - 1][1..], span, now)
             + [Emission(candles[|candles| - 1], Closed(candles[|candles| - 1], span, now))]
  {
    hide Closed;
  }

  /**
   A pass over an ascending response from the resume bar on: every candle is emitted once, except a suppressed first.
   */
  lemma {:induction false} PassInClosedForm(candles: seq<Candle>, latest: Candle, span: int, now: int,
                                            resume: Option<bool>)
    requires Ascending(candles) && candles != [] && latest.time <= candles[0].time
    ensures EmitPass(candles, latest, span, now, resume)
         == Pass(Some(Closed(candles[|candles| - 1], span, now)),
                 HeadPart(candles[0], latest, span, now, resume) + Each(candles[1..], span, now))
  {
    hide Closed, OnCandle, HeadPart, EmitPass, Each;
    var n := |candles| - 1;
    var front := candles[..n];
    EmitPassLast(candles, latest, span, now, resume);
    if n == 0 {
      assert front == [] && candles[1..] == [];
      FirstCandle(candles[0], latest, span, now, resume);
    } else {
      PassInClosedForm(front, latest, span, now, resume);
      assert candles[n].time > candles[0].time;
      LaterCandle(EmitPass(front, latest, span, now, resume), candles[n], latest, span, now);
      EachLast(candles, span, now);
    }
  }

  lemma LatestAfterSave(m: Bucket, candles: seq<Candle>)
    requires Keyed(m) && LatestOf(m).Some? && Ascending(candles) && candles != []
    requires LatestOf(m).value.time <= candles[0].time
    ensures Keyed(SaveAll(m, candles))
    ensures LatestOf(SaveAll(m, candles)) == Some(candles[|candles| - 1])
  {
    hide LatestOf, SaveAll, Keyed;
    var last := candles[|candles| - 1];
    LatestIsNewest(m);
    SaveAscending(m, candles);
    assert last in candles;
    forall t | t in SaveAll(m, candles) ensures t <= last.time {
      if c :| c in candles && c.time == t {
        RestAscends(candles);
      } else {
        assert t in m;
      }
    }
    NewestIs(SaveAll(m, candles), last);
  }

  lemma NewestIs(m: Bucket, c: Candle)
    requires Keyed(m) && c.time in m && m[c.time] == c && forall t :: t in m ==> t <= c.time
    ensures LatestOf(m) == Some(c)
  {
    hide LatestOf;
    LatestIsNewest(m);
  }

  // ---- what every run keeps ----

  predicate FinalAt(log: seq<Emission>, t: int) {
    exists i :: 0 <= i < |log| && log[i].final && log[i].candle.time == t
  }

  /** Emitted times never decrease, and nothing at or before a finally emitted bar is emitted after it. */
  ghost predicate Ordered(log: seq<Emission>) {
    forall i, j :: 0 <= i < j < |log| ==>
      log[i].candle.time <= log[j].candle.time && (log[i].final ==> log[i].candle.time < log[j].candle.time)
  }

  ghost predicate Within(log: seq<Emission>, t0: int, last: int, span: int, n: int) {
    forall i :: 0 <= i < |log| ==> t0 <= log[i].candle.time <= last && (log[i].final ==> log[i].candle.time + span <= n)
  }

  /** Every bar of the market after the startup cursor that has closed by `n` has been emitted final. */
  ghost predicate AllClosed(m: Market, log: seq<Emission>, t0: int, last: int, span: int, n: int) {
    forall t :: m.opens(t) && t0 < t <= last && t + span <= n ==> FinalAt(log, t)
  }

  /** The remembered finality is the latest candle's as of `n`, the last successful poll. */
  ghost predicate Remembered(m: Market, span: int, t0: int, n: int, latest: Candle, resume: Option<bool>) {
    && (latest.time > t0 ==> resume.Some?)
    && (resume.Some? ==>
        m.opens(latest.time) && latest.time < n && latest == m.content(latest.time, n)
            && resume.value == Closed(latest, span, n))
  }

  ghost predicate NoneBeyond(m: Market, t0: int, n: int, last: int) {
    forall t :: m.opens(t) && t0 < t < n ==> t <= last
  }

  ghost predicate Kept(m: Market, span: int, t0: int, n: int, st: KeyState) {
    && Keyed(st.bucket) && LatestOf(st.bucket).Some?
    && var latest := LatestOf(st.bucket).value;
    && t0 <= latest.time && t0 <= n
    && Remembered(m, span, t0, n, latest, st.resume)
    && NoneBeyond(m, t0, n, latest.time)
    && (st.emitted != [] ==> st.resume.Some?)
    && Within(st.emitted, t0, latest.time, span, n)
    && Ordered(st.emitted)
    && AllClosed(m, st.emitted, t0, latest.time, span, n)
  }

  /** The response's first candle is the resume bar whenever the market has one there. */
  lemma HeadIsResumeBar(m: Market, span: int, latest: Candle, now: int, candles: seq<Candle>)
    requires Sound(m, span) && Answers(m, latest.time, now, candles) && candles != []
    ensures latest.time <= candles[0].time < now && latest.time < now
    ensures m.opens(latest.time) ==> candles[0] == m.content(latest.time, now)
    ensures forall i :: 0 < i < |candles| ==> latest.time <= candles[0].time < candles[i].time < now
  {
    assert candles[0] in candles;
    forall i | 0 < i < |candles| ensures candles[0].time < candles[i].time < now { assert candles[i] in candles; }
    if m.opens(latest.time) {
      var c := m.content(latest.time, now);
      assert c in candles;
      var i :| 0 <= i < |candles| && candles[i] == c;
    }
  }

  lemma NewLogWithin(log: seq<Emission>, t0: int, last: int, span: int, n: int, now: int, head: seq<Emission>,
                     rest: seq<Candle>, last': int)
    requires Within(log, t0, last, span, n) && n <= now && t0 <= last <= last'
    requires forall e :: e in head ==> last <= e.candle.time <= last' && (e.final ==> e.candle.time + span <= now)
    requires forall c :: c in rest ==> last < c.time <= last'
    ensures Within(log + head + Each(rest, span, now), t0, last', span, now)
  {
    var all := log + head + Each(rest, span, now);
    forall i | 0 <= i < |all|
      ensures t0 <= all[i].candle.time <= last' && (all[i].final ==> all[i].candle.time + span <= now)
    {
      if i >= |log| + |head| {
        assert all[i].candle == rest[i - |log| - |head|];
      } else if i >= |log| {
        assert all[i] == head[i - |log|];
      }
    }
  }

  lemma NewLogOrdered(log: seq<Emission>, t0: int, last: int, span: int, n: int, now: int, head: seq<Emission>,
                      rest: seq<Candle>)
    requires Ordered(log) && Within(log, t0, last, span, n)
    requires Ascending(rest) && forall c :: c in rest ==> last < c.time
    requires |head| <= 1
    requires head != [] ==> last <= head[0].candle.time && forall c :: c in rest ==> head[0].candle.time < c.time
    requires head != [] && head[0].candle.time == last ==> !(last + span <= n)
    ensures Ordered(log + head + Each(rest, span, now))
  {
    hide Closed;
    var tail := Each(rest, span, now);
    var all := log + head + tail;
    forall i, j | 0 <= i < j < |all|
      ensures all[i].candle.time <= all[j].candle.time && (all[i].final ==> all[i].candle.time < all[j].candle.time)
    {
      if j >= |log| + |head| {
        assert all[j].candle == rest[j - |log| - |head|];
        assert i >= |log| + |head| ==> all[i].candle == rest[i - |log| - |head|];
        assert |log| <= i < |log| + |head| ==> all[i] == head[0];
      } else if j >= |log| {
        assert all[j] == head[0];
      }
    }
  }

  lemma FinalStays(log: seq<Emission>, more: seq<Emission>, t: int)
    requires FinalAt(log, t)
    ensures FinalAt(log + more, t)
  {
    var i :| 0 <= i < |log| && log[i].final && log[i].candle.time == t;
    assert (log + more)[i] == log[i];
  }

  lemma FinalLater(log: seq<Emission>, more: seq<Emission>, t: int)
    requires FinalAt(more, t)
    ensures FinalAt(log + more, t)
  {
    var i :| 0 <= i < |more| && more[i].final && more[i].candle.time == t;
    assert (log + more)[|log| + i] == more[i];
  }

  lemma FinalInEach(candles: seq<Candle>, c: Candle, span: int, now: int)
    requires c in candles && Closed(c, span, now)
    ensures FinalAt(Each(candles, span, now), c.time)
  {
    var i :| 0 <= i < |candles| && candles[i] == c;
    assert Each(candles, span, now)[i] == Emission(c, true);
  }

  lemma NewLogClosed(m: Market, log: seq<Emission>, t0: int, last: int, span: int, n: int, now: int,
                     head: seq<Emission>, rest: seq<Candle>, last': int)
    requires AllClosed(m, log, t0, last, span, n)
    requires span > 0 && forall t :: m.opens(t) && t0 < t < last ==> t + span <= n
    requires m.opens(last) && t0 < last && last + span <= now && !(last + span <= n) ==> FinalAt(head, last)
    requires forall t :: m.opens(t) && t0 < t && last < t <= last' && t + span <= now ==>
               FinalAt(head, t) || m.content(t, now) in rest
    requires forall t :: m.content(t, now).time == t
    ensures AllClosed(m, log + head + Each(rest, span, now), t0, last', span, now)
  {
    hide FinalAt;
    forall t | m.opens(t) && t0 < t <= last' && t + span <= now
      ensures FinalAt(log + head + Each(rest, span, now), t)
    {
      if t <= last && t + span <= n {
        FinalStays(log, head, t);
        FinalStays(log + head, Each(rest, span, now), t);
      } else if FinalAt(head, t) {
        FinalLater(log, head, t);
        FinalStays(log + head, Each(rest, span, now), t);
      } else {
        FinalInEach(rest, m.content(t, now), span, now);
        FinalLater(log + head, Each(rest, span, now), t);
      }
    }
  }

  /** An empty or failed answer changes nothing, and an empty one shows there was nothing to see. */
  lemma EmptyKeeps(m: Market, span: int, t0: int, n: int, st: KeyState, now: int)
    requires Sound(m, span) && Kept(m, span, t0, n, st)
    requires Answers(m, LatestOf(st.bucket).value.time, now, [])
    ensures Kept(m, span, t0, Max(n, now), st)
  {
    hide LatestOf, Sound, Keyed, Ordered, Closed, Ascending, FinalAt;
    NothingSeen(m, LatestOf(st.bucket).value.time, now);
  }

  lemma NothingSeen(m: Market, from: int, now: int)
    requires Answers(m, from, now, [])
    ensures forall t :: m.opens(t) && from <= t ==> now <= t
  {
    forall t | m.opens(t) && from <= t ensures now <= t {
      assert t < now ==> m.content(t, now) in [];
    }
  }

  /** A closed resume bar comes back as it was stored, so a bar already emitted final is not emitted again. */
  lemma HeadPartFacts(m: Market, span: int, t0: int, n: int, latest: Candle, resume: Option<bool>, now: int,
                      head: Candle)
    requires Sound(m, span) && Remembered(m, span, t0, n, latest, resume) && n <= now
    requires latest.time <= head.time && m.opens(head.time) && head == m.content(head.time, now)
    requires m.opens(latest.time) ==> head.time == latest.time
    ensures var part := HeadPart(head, latest, span, now, resume);
            && (part == [] || part == [Emission(head, Closed(head, span, now))])
            && (part != [] && head.time == latest.time && resume.Some? ==> !(latest.time + span <= n))
            && (t0 < head.time && head.time + span <= now && (head.time == latest.time ==> !(latest.time + span <= n))
                ==> FinalAt(part, head.time))
  {
    var part := HeadPart(head, latest, span, now, resume);
    assert part != [] ==> part[0] == Emission(head, Closed(head, span, now));
    if resume.Some? && latest.time + span <= n {
      assert m.content(latest.time, n) == m.content(latest.time, now);
    }
  }

  lemma ContentTimes(m: Market, span: int)
    requires Sound(m, span)
    ensures forall t, n :: m.content(t, n).time == t
  {
  }

  lemma RestOfAnswer(m: Market, span: int, from: int, now: int, candles: seq<Candle>)
    requires Sound(m, span) && Answers(m, from, now, candles) && candles != []
    ensures forall t :: m.opens(t) && from <= t < now ==> t == candles[0].time || m.content(t, now) in candles[1..]
    ensures forall c :: c in candles[1..] ==> candles[0].time < c.time <= candles[|candles| - 1].time
    ensures Ascending(candles[1..])
    ensures forall c :: c in candles ==> m.opens(c.time) && from <= c.time < now && c == m.content(c.time, now)
    ensures candles[0] in candles && candles[|candles| - 1] in candles && candles[0].time <= candles[|candles| - 1].time
    ensures forall t :: m.opens(t) && from <= t < now ==> t <= candles[|candles| - 1].time
  {
    hide Sound;
    ContentTimes(m, span);
    RestAscends(candles);
    AnswerAscends(m, from, now, candles);
    forall t | m.opens(t) && from <= t < now
      ensures (t == candles[0].time || m.content(t, now) in candles[1..]) && t <= candles[|candles| - 1].time
    {
      assert m.content(t, now) in candles;
    }
  }

  lemma RestAscends(candles: seq<Candle>)
    requires Ascending(candles) && candles != []
    ensures Ascending(candles[1..]) && candles[0].time <= candles[|candles| - 1].time
    ensures forall c :: c in candles[1..] ==> candles[0].time < c.time <= candles[|candles| - 1].time
    ensures forall c :: c in candles <==> c == candles[0] || c in candles[1..]
    ensures candles[0] in candles && candles[|candles| - 1] in candles
  {
    forall c | c in candles[1..] ensures candles[0].time < c.time <= candles[|candles| - 1].time {
      var i :| 0 <= i < |candles| - 1 && candles[1..][i] == c;
      assert candles[i + 1] == c;
    }
    assert candles == [candles[0]] + candles[1..];
  }

  lemma PollShape(span: int, st: KeyState, now: int, candles: seq<Candle>)
    requires Keyed(st.bucket) && LatestOf(st.bucket).Some? && Ascending(candles) && candles != []
    requires LatestOf(st.bucket).value.time <= candles[0].time
    ensures var st', last := OnPoll(span, st, now, Fetched(candles)), candles[|candles| - 1];
            && Keyed(st'.bucket) && LatestOf(st'.bucket) == Some(last)
            && st'.resume == Some(Closed(last, span, now))
            && st'.emitted == st.emitted + HeadPart(candles[0], LatestOf(st.bucket).value, span, now, st.resume)
               + Each(candles[1..], span, now)
  {
    hide Keyed, LatestOf, Ascending, HeadPart, Closed, EmitPass, SaveAll;
    LatestAfterSave(st.bucket, candles);
    var latest := LatestOf(st.bucket).value;
    PassInClosedForm(candles, latest, span, now, st.resume);
    assert st.emitted + (HeadPart(candles[0], latest, span, now, st.resume) + Each(candles[1..], span, now))
        == st.emitted + HeadPart(candles[0], latest, span, now, st.resume) + Each(candles[1..], span, now);
  }

  /** What one faithful, nonempty answer adds keeps the log in order and complete. */
  lemma LogKeeps(m: Market, span: int, t0: int, n: int, latest: Candle, resume: Option<bool>, log: seq<Emission>,
                 now: int, candles: seq<Candle>)
    requires Sound(m, span) && Remembered(m, span, t0, n, latest, resume) && t0 <= latest.time && n <= now
    requires candles != [] && Answers(m, latest.time, now, candles)
    requires log != [] ==> resume.Some?
    requires Within(log, t0, latest.time, span, n) && Ordered(log) && AllClosed(m, log, t0, latest.time, span, n)
    ensures var last := candles[|candles| - 1];
            var log' := log + HeadPart(candles[0], latest, span, now, resume) + Each(candles[1..], span, now);
            Within(log', t0, last.time, span, now) && Ordered(log') && AllClosed(m, log', t0, last.time, span, now)
  {
    hide Ordered, AllClosed, Within, FinalAt, HeadPart, Answers, Ascending;
    var head, rest, last := candles[0], candles[1..], candles[|candles| - 1];
    HeadIsResumeBar(m, span, latest, now, candles);
    RestOfAnswer(m, span, latest.time, now, candles);
    HeadPartFacts(m, span, t0, n, latest, resume, now, head);
    EarlierBarsClosed(m, span, t0, n, latest, resume);
    var part := HeadPart(head, latest, span, now, resume);
    NewLogWithin(log, t0, latest.time, span, n, now, part, rest, last.time);
    if resume.None? {
      FirstLog(log, part, rest, span, now);
    } else {
      NewLogOrdered(log, t0, latest.time, span, n, now, part, rest);
    }
    NewLogClosed(m, log, t0, latest.time, span, n, now, part, rest, last.time);
  }

  /** Every bar after the startup cursor and before the resume bar had closed when the resume bar was last seen. */
  lemma EarlierBarsClosed(m: Market, span: int, t0: int, n: int, latest: Candle, resume: Option<bool>)
    requires Sound(m, span) && Remembered(m, span, t0, n, latest, resume)
    ensures forall t :: m.opens(t) && t0 < t < latest.time ==> t + span <= n
  {
  }

  lemma FirstLog(log: seq<Emission>, part: seq<Emission>, rest: seq<Candle>, span: int, now: int)
    requires log == [] && |part| <= 1 && Ascending(rest)
    requires part != [] ==> forall c :: c in rest ==> part[0].candle.time < c.time
    ensures Ordered(log + part + Each(rest, span, now))
  {
    hide Closed, Each;
    var tail := Each(rest, span, now);
    assert part != [] ==> forall k :: 0 <= k < |rest| ==> part[0].candle.time < rest[k].time;
    assert log + part + tail == part + tail;
  }

  /** One faithful, nonempty answer keeps everything, now as of `now`. */
  lemma AnswerKeeps(m: Market, span: int, t0: int, n: int, st: KeyState, now: int, candles: seq<Candle>)
    requires Sound(m, span) && Kept(m, span, t0, n, st) && (n <= now || n == t0)
    requires candles != [] && Answers(m, LatestOf(st.bucket).value.time, now, candles)
    ensures n <= now
    ensures Kept(m, span, t0, now, OnPoll(span, st, now, Fetched(candles)))
  {
    hide Sound, Answers, Ordered, AllClosed, Within, HeadPart, LatestOf, Keyed, Ascending, OnPoll, Closed;
    var latest := LatestOf(st.bucket).value;
    var last := candles[|candles| - 1];
    AnswerAscends(m, latest.time, now, candles);
    HeadIsResumeBar(m, span, latest, now, candles);
    RestOfAnswer(m, span, latest.time, now, candles);
    PollShape(span, st, now, candles);
    LogKeeps(m, span, t0, n, latest, st.resume, st.emitted, now, candles);
    assert NoneBeyond(m, t0, now, last.time);
  }

  lemma AnswerAscends(m: Market, from: int, now: int, candles: seq<Candle>)
    requires Answers(m, from, now, candles)
    ensures Ascending(candles)
  {
  }

  // ---- whole runs ----

  datatype PollCall = PollCall(now: int, response: Response)

  function RunPolls(span: int, st: KeyState, calls: seq<PollCall>): KeyState {
    if calls == [] then st
    else
      var last := calls[|calls| - 1];
      OnPoll(span, RunPolls(span, st, calls[..|calls| - 1]), last.now, last.response)
  }

  /** The clock never goes back, and every answer that arrives is faithful; failures may come at any time. */
  ghost predicate FaithfulRun(m: Market, span: int, st: KeyState, calls: seq<PollCall>) {
    calls != [] ==>
      var front, last := calls[..|calls| - 1], calls[|calls| - 1];
      && FaithfulRun(m, span, st, front)
      && (front != [] ==> front[|front| - 1].now <= last.now)
      && var latest := LatestOf(RunPolls(span, st, front).bucket);
      && (latest.Some? && last.response.Fetched? ==> Answers(m, latest.value.time, last.now, last.response.candles))
  }

  /** The instant of the newest answered poll, but no earlier than the startup cursor. */
  function SeenUpTo(t0: int, calls: seq<PollCall>): (n: int)
    ensures t0 <= n
  {
    if calls == [] then t0
    else
      var before := SeenUpTo(t0, calls[..|calls| - 1]);
      if calls[|calls| - 1].response.Fetched? then Max(before, calls[|calls| - 1].now) else before
  }

  lemma {:induction false} SeenUpToMeaning(t0: int, calls: seq<PollCall>, x: int)
    requires t0 < x
    ensures x <= SeenUpTo(t0, calls) <==>
            exists k :: 0 <= k < |calls| && calls[k].response.Fetched? && x <= calls[k].now
  {
    if calls != [] {
      var n := |calls| - 1;
      SeenUpToMeaning(t0, calls[..n], x);
      if k :| 0 <= k < |calls| && calls[k].response.Fetched? && x <= calls[k].now {
        assert k < n ==> calls[..n][k] == calls[k];
      }
    }
  }

  lemma {:induction false} SeenWithinClock(m: Market, span: int, st: KeyState, calls: seq<PollCall>, t0: int)
    requires FaithfulRun(m, span, st, calls) && calls != []
    ensures SeenUpTo(t0, calls) == t0 || SeenUpTo(t0, calls) <= calls[|calls| - 1].now
  {
    hide Answers, RunPolls, LatestOf;
    var front := calls[..|calls| - 1];
    if front != [] { SeenWithinClock(m, span, st, front, t0); }
  }

  lemma KeptAtStart(m: Market, span: int, bucket: Bucket)
    requires Keyed(bucket) && bucket != map[]
    ensures LatestOf(bucket).Some?
    ensures Kept(m, span, LatestOf(bucket).value.time, LatestOf(bucket).value.time, KeyState(bucket, None, []))
  {
    LatestIsNewest(bucket);
  }

  lemma PollKeeps(m: Market, span: int, t0: int, n: int, st: KeyState, call: PollCall)
    requires Sound(m, span) && Kept(m, span, t0, n, st) && (n <= call.now || n == t0)
    requires call.response.Fetched? ==> Answers(m, LatestOf(st.bucket).value.time, call.now, call.response.candles)
    ensures Kept(m, span, t0, if call.response.Fetched? then Max(n, call.now)
                                else n, OnPoll(span, st, call.now, call.response))
  {
    hide Sound, Kept, Answers, LatestOf, SaveAll, EmitPass;
    if call.response.Fetched? {
      if call.response.candles == [] {
        EmptyKeeps(m, span, t0, n, st, call.now);
      } else {
        AnswerKeeps(m, span, t0, n, st, call.now, call.response.candles);
      }
    }
  }

  lemma KeptHasLatest(m: Market, span: int, t0: int, n: int, st: KeyState)
    requires Kept(m, span, t0, n, st)
    ensures LatestOf(st.bucket).Some?
  {
  }

  lemma {:induction false} RunKeeps(m: Market, span: int, bucket: Bucket, calls: seq<PollCall>)
    requires Sound(m, span) && Keyed(bucket) && bucket != map[]
             && FaithfulRun(m, span, KeyState(bucket, None, []), calls)
    ensures LatestOf(bucket).Some?
    ensures var t0 := LatestOf(bucket).value.time;
            Kept(m, span, t0, SeenUpTo(t0, calls), RunPolls(span, KeyState(bucket, None, []), calls))
  {
    hide Kept, OnPoll, Answers, Sound, LatestOf, Keyed;
    KeptAtStart(m, span, bucket);
    if calls != [] {
      var st0 := KeyState(bucket, None, []);
      var front := calls[..|calls| - 1];
      var t0 := LatestOf(bucket).value.time;
      RunKeeps(m, span, bucket, front);
      KeptHasLatest(m, span, t0, SeenUpTo(t0, front), RunPolls(span, st0, front));
      if front != [] { SeenWithinClock(m, span, st0, front, t0); }
      PollKeeps(m, span, t0, SeenUpTo(t0, front), RunPolls(span, st0, front), calls[|calls| - 1]);
    }
  }

  /**
   Every bar opening after the startup cursor is emitted final exactly once if some answered poll came after it closed,
   and never otherwise; after that it is not emitted again, and emitted times never decrease.
   */
  lemma ClosesExactlyOnce(m: Market, span: int, bucket: Bucket, calls: seq<PollCall>, t: int)
    requires Sound(m, span) && Keyed(bucket) && bucket != map[]
             && FaithfulRun(m, span, KeyState(bucket, None, []), calls)
    requires m.opens(t) && LatestOf(bucket).Some? && LatestOf(bucket).value.time < t
    ensures var log := RunPolls(span, KeyState(bucket, None, []), calls).emitted;
            && (FinalAt(log, t) <==>
                exists k :: 0 <= k < |calls| && calls[k].response.Fetched? && t + span <= calls[k].now)
            && (forall i, j :: 0 <= i < |log| && 0 <= j < |log| ==>
                  log[i].final && log[i].candle.time == t && log[j].candle.time == t ==> j <= i)
            && (forall i, j :: 0 <= i < j < |log| ==> log[i].candle.time <= log[j].candle.time)
  {
    hide RunPolls, LatestOf, FaithfulRun, Keyed, SeenUpTo;
    var t0 := LatestOf(bucket).value.time;
    RunKeeps(m, span, bucket, calls);
    assert span > 0;
    SeenUpToMeaning(t0, calls, t + span);
  }

  // ---- the startup bar ----

  /** The first answered poll after the startup bar opened found it already closed and just as it was stored. */
  ghost predicate Missed(m: Market, span: int, stored: Candle, calls: seq<PollCall>) {
    calls != [] &&
    var front, last := calls[..|calls| - 1], calls[|calls| - 1];
    if SeenUpTo(stored.time, front) > stored.time then Missed(m, span, stored, front)
    else
      && last.response.Fetched? && stored.time < last.now
      && Closed(stored, span, last.now) && stored == m.content(stored.time, last.now)
  }

  /**
   What is known of the startup bar: nothing before it is first seen; then it is emitted final once closed, unless
   missed.
   */
  ghost predicate Startup(span: int, stored: Candle, n: int, missed: bool, st: KeyState) {
    && (n <= stored.time ==> st.resume.None? && LatestOf(st.bucket) == Some(stored) && !missed)
    && (stored.time < n ==> st.resume.Some? && (missed ==> stored.time + span <= n))
    && (FinalAt(st.emitted, stored.time) <==> stored.time < n && stored.time + span <= n && !missed)
  }

  lemma FinalAtAppend(a: seq<Emission>, b: seq<Emission>, t: int)
    ensures FinalAt(a + b, t) <==> FinalAt(a, t) || FinalAt(b, t)
  {
    if FinalAt(a, t) { FinalStays(a, b, t); }
    if FinalAt(b, t) { FinalLater(a, b, t); }
    if i :| 0 <= i < |a + b| && (a + b)[i].final && (a + b)[i].candle.time == t {
      assert i < |a| ==> a[i] == (a + b)[i];
      assert i >= |a| ==> b[i - |a|] == (a + b)[i];
    }
  }

  /** After an answer the startup bar's final emission is an earlier one, or the head of this response. */
  lemma FinalAfterAnswer(m: Market, span: int, latest: Candle, resume: Option<bool>, log: seq<Emission>, now: int,
                         candles: seq<Candle>, t0: int)
    requires Sound(m, span) && candles != [] && Answers(m, latest.time, now, candles) && t0 <= latest.time
    ensures FinalAt(log + HeadPart(candles[0], latest, span, now, resume) + Each(candles[1..], span, now), t0) <==>
              FinalAt(log, t0) || FinalAt(HeadPart(candles[0], latest, span, now, resume), t0)
  {
    hide FinalAt, Sound, HeadPart, Answers;
    var part, tail := HeadPart(candles[0], latest, span, now, resume), Each(candles[1..], span, now);
    HeadIsResumeBar(m, span, latest, now, candles);
    FinalAtAppend(log + part, tail, t0);
    FinalAtAppend(log, part, t0);
    NoFinalIn(candles[1..], span, now, t0, candles);
  }

  lemma NoFinalIn(rest: seq<Candle>, span: int, now: int, t0: int, candles: seq<Candle>)
    requires candles != [] && rest == candles[1..] && forall i :: 0 < i < |candles| ==> t0 < candles[i].time
    ensures !FinalAt(Each(rest, span, now), t0)
  {
  }

  lemma FinalHead(head: Candle, latest: Candle, span: int, now: int, resume: Option<bool>, t0: int)
    ensures FinalAt(HeadPart(head, latest, span, now, resume), t0) <==>
              head.time == t0 && Closed(head, span, now) && (head == latest ==> resume == Some(false))
  {
    var part := HeadPart(head, latest, span, now, resume);
    assert part != [] ==> part[0] == Emission(head, Closed(head, span, now));
  }

  lemma StartupAnswer(m: Market, span: int, stored: Candle, n: int, missed: bool, st: KeyState, now: int,
                      candles: seq<Candle>)
    requires Sound(m, span) && Kept(m, span, stored.time, n, st) && (n <= now || n == stored.time)
    requires Startup(span, stored, n, missed, st) && m.opens(stored.time)
    requires candles != [] && Answers(m, LatestOf(st.bucket).value.time, now, candles)
    ensures var missed' := if stored.time < n then missed
                             else Closed(stored, span, now) && stored == m.content(stored.time, now);
            stored.time < now && n <= now
                && Startup(span, stored, now, missed', OnPoll(span, st, now, Fetched(candles)))
  {
    hide Answers, Ordered, AllClosed, Within, HeadPart, LatestOf, Keyed, Ascending, OnPoll, FinalAt, NoneBeyond;
    var latest, t0 := LatestOf(st.bucket).value, stored.time;
    AnswerAscends(m, latest.time, now, candles);
    HeadIsResumeBar(m, span, latest, now, candles);
    PollShape(span, st, now, candles);
    FinalAfterAnswer(m, span, latest, st.resume, st.emitted, now, candles, t0);
    FinalHead(candles[0], latest, span, now, st.resume, t0);
    if st.resume.Some? && latest.time + span <= n {
      assert m.content(latest.time, n) == m.content(latest.time, now);
    }
  }

  lemma StartupEmpty(m: Market, span: int, stored: Candle, n: int, missed: bool, st: KeyState, now: int)
    requires Sound(m, span) && Kept(m, span, stored.time, n, st)
    requires Startup(span, stored, n, missed, st) && m.opens(stored.time)
    requires Answers(m, LatestOf(st.bucket).value.time, now, [])
    ensures now <= stored.time || now <= n
  {
    hide LatestOf, Sound, Keyed, Ordered, Closed, Ascending, FinalAt, Within, AllClosed, NoneBeyond, Answers;
    NothingSeen(m, LatestOf(st.bucket).value.time, now);
  }

  lemma {:induction false} StartupKept(m: Market, span: int, stored: Candle, bucket: Bucket, calls: seq<PollCall>)
    requires Sound(m, span) && Keyed(bucket) && bucket != map[]
             && FaithfulRun(m, span, KeyState(bucket, None, []), calls)
    requires LatestOf(bucket) == Some(stored) && m.opens(stored.time)
    ensures Startup(span, stored, SeenUpTo(stored.time, calls), Missed(m, span, stored, calls),
                    RunPolls(span, KeyState(bucket, None, []), calls))
  {
    hide Kept, OnPoll, Answers, Sound, LatestOf, Keyed, Startup, Closed;
    var st0, t0 := KeyState(bucket, None, []), stored.time;
    if calls == [] {
      StartupAtStart(span, stored, bucket);
    } else {
      var front, call := calls[..|calls| - 1], calls[|calls| - 1];
      var n, st, missed := SeenUpTo(t0, front), RunPolls(span, st0, front), Missed(m, span, stored, front);
      StartupKept(m, span, stored, bucket, front);
      RunKeeps(m, span, bucket, front);
      KeptHasLatest(m, span, t0, n, st);
      if front != [] { SeenWithinClock(m, span, st0, front, t0); }
      MissedBounds(span, stored, n, missed, st);
      if call.response.Failed? {
        NoAnswer(span, st, call.now, call.response);
      } else if call.response.candles == [] {
        StartupEmpty(m, span, stored, n, missed, st, call.now);
        NoAnswer(span, st, call.now, call.response);
      } else {
        StartupAnswer(m, span, stored, n, missed, st, call.now, call.response.candles);
      }
    }
  }

  lemma StartupAtStart(span: int, stored: Candle, bucket: Bucket)
    requires LatestOf(bucket) == Some(stored)
    ensures Startup(span, stored, stored.time, false, KeyState(bucket, None, []))
  {
  }

  lemma MissedBounds(span: int, stored: Candle, n: int, missed: bool, st: KeyState)
    requires Startup(span, stored, n, missed, st)
    ensures n <= stored.time ==> !missed
  {
  }

  lemma NoAnswer(span: int, st: KeyState, now: int, response: Response)
    requires response.Failed? || response.candles == []
    ensures OnPoll(span, st, now, response) == st
  {
  }

  /**
   The bar stored when polling starts is emitted final exactly when an answered poll came after it closed and the first
   answered poll to return it did not find it already closed and unchanged.
   */
  lemma StartupBarCloses(m: Market, span: int, stored: Candle, bucket: Bucket, calls: seq<PollCall>)
    requires Sound(m, span) && Keyed(bucket) && bucket != map[]
             && FaithfulRun(m, span, KeyState(bucket, None, []), calls)
    requires LatestOf(bucket) == Some(stored) && m.opens(stored.time)
    ensures FinalAt(RunPolls(span, KeyState(bucket, None, []), calls).emitted, stored.time) <==>
              && (exists k :: 0 <= k < |calls| && calls[k].response.Fetched? && stored.time + span <= calls[k].now)
              && !Missed(m, span, stored, calls)
  {
    hide RunPolls, LatestOf, FaithfulRun, Keyed, SeenUpTo, Missed, FinalAt;
    StartupKept(m, span, stored, bucket, calls);
    assert span > 0;
    SeenUpToMeaning(stored.time, calls, stored.time + span);
  }

  /** A market with one bar, opening at 0 and never changing. */
  function OneBarMarket(bar: Candle): Market {
    Market((t: int) => t == bar.time, (t: int, n: int) => if t == bar.time then bar
                                                            else FxCandle(t, 0.0, 0.0, 0.0, 0.0))
  }

  /**
   A bar stored while it formed, first polled once it had closed unchanged, and polled again: it is never emitted
   final.
   */
  lemma StartupBarMissed(bar: Candle, span: int, later: int) returns (bucket: Bucket, calls: seq<PollCall>)
    requires span > 0 && bar.time + span <= later
    ensures Sound(OneBarMarket(bar), span) && Keyed(bucket) && LatestOf(bucket) == Some(bar) && bucket != map[]
    ensures FaithfulRun(OneBarMarket(bar), span, KeyState(bucket, None, []), calls)
    ensures |calls| == 2 && calls[1].now == later && calls[1].response.Fetched?
    ensures !FinalAt(RunPolls(span, KeyState(bucket, None, []), calls).emitted, bar.time)
  {
    bucket := map[bar.time := bar];
    NewestIs(bucket, bar);
    var first, second := PollCall(bar.time + span, Fetched([bar])), PollCall(later, Fetched([bar]));
    calls := [first, second];
    var m, st := OneBarMarket(bar), KeyState(bucket, None, []);
    AnswersOneBar(bar, first.now);
    AnswersOneBar(bar, second.now);
    assert calls[..1] == [first] && [first][..0] == [];
    hide LatestOf, SaveAll, Answers, OnCandle;
    assert RunPolls(span, st, []) == st;
    assert RunPolls(span, st, [first]) == OnPoll(span, st, first.now, first.response);
    OneBarSaved(bar, bucket);
    assert FaithfulRun(m, span, st, []);
    assert FaithfulRun(m, span, st, [first]);
    assert SeenUpTo(bar.time, []) == bar.time;
    assert SeenUpTo(bar.time, [first]) == bar.time + span;
    assert Missed(m, span, bar, [first]);
    StartupBarCloses(m, span, bar, bucket, calls);
  }

  lemma AnswersOneBar(bar: Candle, now: int)
    requires bar.time < now
    ensures Answers(OneBarMarket(bar), bar.time, now, [bar])
  {
  }

  lemma OneBarSaved(bar: Candle, bucket: Bucket)
    requires bucket == map[bar.time := bar]
    ensures SaveAll(bucket, [bar]) == bucket
  {
    assert [bar][..0] == [];
    assert SaveAll(bucket, []) == bucket;
    assert SaveAll(bucket, [bar]) == bucket[bar.time := bar];
  }

  // ---- sweeps over many series ----

  /** The polls of one series among a sweep's, with the answers its provider gave. */
  function CallsOf(key: SeriesKey, st: KeyState, keys: seq<SeriesKey>, now: nat -> int,
                   provider: Provider): seq<PollCall>
  {
    if keys == [] then []
    else
      var n := |keys| - 1;
      var before := CallsOf(key, st, keys[..n], now, provider);
      var latest := LatestOf(Visits(key, st, keys[..n], now, provider).bucket);
      if keys[n] == key && latest.Some? then before + [PollCall(now(n), provider(key, latest.value.time, now(n)))]
          else before
  }

  /** What a sweep does to a series is a run of that series' own polls. */
  lemma {:induction false} VisitsAreRun(key: SeriesKey, st: KeyState, keys: seq<SeriesKey>, now: nat -> int,
                                        provider: Provider)
    ensures Visits(key, st, keys, now, provider)
            == RunPolls(PeriodMillis(key.period), st, CallsOf(key, st, keys, now, provider))
  {
    hide OnPoll, LatestOf;
    if keys != [] {
      var n := |keys| - 1;
      VisitsAreRun(key, st, keys[..n], now, provider);
      var before := CallsOf(key, st, keys[..n], now, provider);
      var latest := LatestOf(Visits(key, st, keys[..n], now, provider).bucket);
      if keys[n] == key && latest.Some? {
        var call := PollCall(now(n), provider(key, latest.value.time, now(n)));
        assert (before + [call])[..|before|] == before;
      }
    }
  }

  /** However the polls of many series interleave, each series' bars close exactly once. */
  lemma SweepsCloseExactlyOnce(m: Market, key: SeriesKey, bucket: Bucket, keys: seq<SeriesKey>, now: nat -> int,
                               provider: Provider, t: int)
    requires Sound(m, PeriodMillis(key.period)) && Keyed(bucket) && bucket != map[]
    requires var st := KeyState(bucket, None, []);
             FaithfulRun(m, PeriodMillis(key.period), st, CallsOf(key, st, keys, now, provider))
    requires m.opens(t) && LatestOf(bucket).Some? && LatestOf(bucket).value.time < t
    ensures var st := KeyState(bucket, None, []);
            var log, calls := Visits(key, st, keys, now, provider).emitted, CallsOf(key, st, keys, now, provider);
            && (FinalAt(log, t) <==>
                  exists k :: 0 <= k < |calls| && calls[k].response.Fetched?
                      && t + PeriodMillis(key.period) <= calls[k].now)
            && (forall i, j :: 0 <= i < |log| && 0 <= j < |log| ==>
                  log[i].final && log[i].candle.time == t && log[j].candle.time == t ==> j <= i)
            && (forall i, j :: 0 <= i < j < |log| ==> log[i].candle.time <= log[j].candle.time)
  {
    hide RunPolls, LatestOf, FaithfulRun, Keyed, Visits, CallsOf, Sound, FinalAt;
    var st := KeyState(bucket, None, []);
    VisitsAreRun(key, st, keys, now, provider);
    ClosesExactlyOnce(m, PeriodMillis(key.period), bucket, CallsOf(key, st, keys, now, provider), t);
  }
}
