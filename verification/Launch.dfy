/** The launch planner: which jobs of a preset start, and when.  The planner is greedy; `Greedy` says
    what a greedy schedule is without mentioning the loop, and the fairness theorems follow from it. */
module Launch {
  import opened Numbers
  import R = Records
  import opened Presets

  datatype LaunchJob = LaunchJob(
    job: Job, skipped: Channels, originalIndex: nat, startMs: int, skipJob: bool, skipReason: string)

  datatype Plan = Plan(
    waveSize: int, staggerMs: int, cooldownMs: int, maxActiveJobs: int,
    jobs: seq<LaunchJob>, runnableJobs: nat, skippedJobs: nat)

  type Availability = R.Option<(Job, LaunchChannel) -> bool>

  function Planned(job: Job, index: nat): LaunchJob {
    LaunchJob(job, NO_CHANNELS, index, 0, false, "")
  }

  predicate Available(a: Availability, job: Job, c: LaunchChannel) {
    a.None? || a.value(job, c)
  }

  /** The channel query sees the job with the channels removed so far. */
  function DropUnavailable(p: LaunchJob, a: Availability, c: LaunchChannel): LaunchJob {
    if !Selected(p.job.channels, c) || Available(a, p.job, c) then p
    else p.(job := p.job.(channels := With(p.job.channels, c, false)), skipped := With(p.skipped, c, true))
  }

  function DropAll(p: LaunchJob, a: Availability, cs: seq<LaunchChannel>): LaunchJob
    decreases |cs|
  {
    if cs == [] then p else DropAll(DropUnavailable(p, a, cs[0]), a, cs[1..])
  }

  function FilterChannels(p: LaunchJob, a: Availability): LaunchJob {
    var q := DropAll(p, a, LAUNCH_CHANNELS);
    if AnySelected(q.job.channels) then q else q.(skipJob := true, skipReason := "no supported channels")
  }

  /** What a filtered job is, when the answer about a channel depends on the rest of the job only. */
  lemma {:induction false} FilteredChannels(job: Job, index: nat, a: Availability)
    requires forall x: Channels, y: Channels, c ::
      Available(a, job.(channels := x), c) <==> Available(a, job.(channels := y), c)
    ensures var p := FilterChannels(Planned(job, index), a);
      && p.originalIndex == index && p.startMs == 0 && p.job == job.(channels := p.job.channels)
      && (forall c :: Selected(p.job.channels, c) <==> Selected(job.channels, c) && Available(a, job, c))
      && (forall c :: Selected(p.skipped, c) <==> Selected(job.channels, c) && !Available(a, job, c))
      && (p.skipJob <==> forall c :: Selected(job.channels, c) ==> !Available(a, job, c))
  {
    var p0 := Planned(job, index);
    var p1 := DropUnavailable(p0, a, Trades);
    var p2 := DropUnavailable(p1, a, BookTicker);
    var p3 := DropUnavailable(p2, a, Orderbook);
    assert LAUNCH_CHANNELS[1..] == [BookTicker, Orderbook];
    assert LAUNCH_CHANNELS[1..][1..] == [Orderbook];
    assert DropAll(p3, a, []) == p3;
    assert DropAll(p2, a, [Orderbook]) == p3;
    assert DropAll(p1, a, [BookTicker, Orderbook]) == p3;
    assert DropAll(p0, a, LAUNCH_CHANNELS) == p3;
    assert job.(channels := job.channels) == job;
    assert p3.job == job.(channels := p3.job.channels);
    assert AnySelected(p3.job.channels) <==>
      Selected(p3.job.channels, Trades) || Selected(p3.job.channels, BookTicker) ||
          Selected(p3.job.channels, Orderbook);
  }

  function ExchangeOf(p: LaunchJob): string { LowerAscii(p.job.exchange) }

  // ---------------------------------------------------------------------------------------------
  // What a greedy schedule is.

  /** Start of the last job of an exchange among those already scheduled; -1 when there is none. */
  function LastIn(done: seq<LaunchJob>, exchange: string): int {
    if done == [] then -1
    else if ExchangeOf(done[|done| - 1]) == exchange then done[|done| - 1].startMs
    else LastIn(done[..|done| - 1], exchange)
  }

  function WaveStart(launched: nat, wave: int, stagger: int): int
    requires wave > 0
  {
    launched / wave * stagger
  }

  /** The earliest start the two limits allow for a job of this exchange. */
  function Earliest(done: seq<LaunchJob>, exchange: string, wave: int, stagger: int, cooldown: int): int
    requires wave > 0
  {
    var last := LastIn(done, exchange);
    if last < 0 then WaveStart(|done|, wave, stagger) else Max(WaveStart(|done|, wave, stagger), last + cooldown)
  }

  /** `next`, placed after `done`, starts as early as it may and no remaining job `other` could have
      started earlier, ties going to the job listed first. */
  predicate Beats(done: seq<LaunchJob>, next: LaunchJob, other: LaunchJob, wave: int, stagger: int, cooldown: int)
    requires wave > 0
  {
    var e := Earliest(done, ExchangeOf(other), wave, stagger, cooldown);
    next.startMs < e || (next.startMs == e && next.originalIndex <= other.originalIndex)
  }

  predicate OnTime(out: seq<LaunchJob>, k: nat, wave: int, stagger: int, cooldown: int)
    requires wave > 0 && k < |out|
  {
    out[k].startMs == Earliest(out[..k], ExchangeOf(out[k]), wave, stagger, cooldown)
  }

  predicate BeatsAt(out: seq<LaunchJob>, k: nat, j: nat, wave: int, stagger: int, cooldown: int)
    requires wave > 0 && k < |out| && j < |out|
  {
    Beats(out[..k], out[k], out[j], wave, stagger, cooldown)
  }

  predicate Greedy(out: seq<LaunchJob>, wave: int, stagger: int, cooldown: int)
    requires wave > 0
  {
    && (forall k :: 0 <= k < |out| ==> OnTime(out, k, wave, stagger, cooldown))
    && (forall k, j :: 0 <= k < j < |out| ==> BeatsAt(out, k, j, wave, stagger, cooldown))
  }

  predicate DistinctIndices(out: seq<LaunchJob>) {
    forall i, j :: 0 <= i < j < |out| ==> out[i].originalIndex != out[j].originalIndex
  }

  // ---------------------------------------------------------------------------------------------
  // Theorems about greedy schedules.

  lemma {:induction false} WaveFloor(launched: nat, wave: int, stagger: int)
    requires wave > 0 && stagger >= 0
    ensures 0 <= WaveStart(launched, wave, stagger) <= WaveStart(launched + 1, wave, stagger)
  {
    FullWaves(launched + 1, wave, launched / wave);
    MulOrder(launched / wave, (launched + 1) / wave, stagger);
  }

  lemma {:induction false} MulOrder(a: int, b: int, c: int)
    requires 0 <= a <= b && c >= 0
    ensures 0 <= a * c <= b * c
  {
  }

  lemma {:induction false} MulCancel(a: int, b: int, c: int)
    requires a * c < b * c && c > 0 && b >= 0
    ensures a < b
  {
    if b <= a { MulOrder(b, a, c); }
  }

  lemma {:induction false} FullWaves(k: nat, wave: int, m: nat)
    requires wave > 0 && k >= m * wave
    ensures k / wave >= m
  {
    var q := k / wave;
    assert k == q * wave + k % wave;
    assert (q + 1) * wave == q * wave + wave;
    MulCancel(m, q + 1, wave);
  }

  /** The sentinel never meets a real start. */
  lemma {:induction false} StartsNatural(out: seq<LaunchJob>, k: nat, wave: int, stagger: int, cooldown: int)
    requires wave > 0 && stagger >= 0 && cooldown >= 0 && k < |out|
    requires Greedy(out, wave, stagger, cooldown)
    ensures out[k].startMs >= WaveStart(k, wave, stagger) >= 0
  {
    assert OnTime(out, k, wave, stagger, cooldown);
    WaveFloor(k, wave, stagger);
  }

  lemma {:induction false} LastFound(done: seq<LaunchJob>, exchange: string) returns (i: int)
    ensures -1 <= i < |done|
    ensures i == -1 ==> LastIn(done, exchange) == -1
    ensures i >= 0 ==> ExchangeOf(done[i]) == exchange && LastIn(done, exchange) == done[i].startMs
    ensures forall j :: i < j < |done| ==> ExchangeOf(done[j]) != exchange
  {
    if done == [] {
      i := -1;
    } else if ExchangeOf(done[|done| - 1]) == exchange {
      i := |done| - 1;
    } else {
      i := LastFound(done[..|done| - 1], exchange);
    }
  }

  /** Starts never go back. */
  lemma {:induction false} StartsInOrder(out: seq<LaunchJob>, i: nat, j: nat, wave: int, stagger: int, cooldown: int)
    requires wave > 0 && stagger >= 0 && cooldown >= 0 && i <= j < |out|
    requires Greedy(out, wave, stagger, cooldown)
    ensures out[i].startMs <= out[j].startMs
    decreases j - i
  {
    if i < j {
      StartsInOrder(out, i, j - 1, wave, stagger, cooldown);
      var k := j - 1;
      var exchange := ExchangeOf(out[j]);
      assert BeatsAt(out, k, j, wave, stagger, cooldown);
      assert OnTime(out, j, wave, stagger, cooldown);
      assert out[..j][..k] == out[..k];
      WaveFloor(k, wave, stagger);
      StartsNatural(out, k, wave, stagger, cooldown);
      if ExchangeOf(out[k]) == exchange {
        assert LastIn(out[..j], exchange) == out[k].startMs;
      } else {
        assert LastIn(out[..j], exchange) == LastIn(out[..k], exchange);
      }
    }
  }

  /** Two jobs of one exchange keep the cooldown and the order of the preset. */
  lemma {:induction false} ExchangeCooldown(out: seq<LaunchJob>, i: nat, j: nat, wave: int, stagger: int, cooldown: int)
    requires wave > 0 && stagger >= 0 && cooldown >= 0 && i < j < |out|
    requires Greedy(out, wave, stagger, cooldown) && DistinctIndices(out)
    requires ExchangeOf(out[i]) == ExchangeOf(out[j])
    ensures out[j].startMs >= out[i].startMs + cooldown
    ensures out[i].originalIndex < out[j].originalIndex
  {
    var exchange := ExchangeOf(out[j]);
    var last := LastFound(out[..j], exchange);
    assert out[..j][i] == out[i];
    assert i <= last;
    StartsInOrder(out, i, last, wave, stagger, cooldown);
    StartsNatural(out, last, wave, stagger, cooldown);
    assert OnTime(out, j, wave, stagger, cooldown);
    assert OnTime(out, i, wave, stagger, cooldown);
    assert BeatsAt(out, i, j, wave, stagger, cooldown);
  }

  /** A job of this exchange may start at `t` after `done`: its wave has begun, and every job of the
      exchange before it has cooled down. */
  predicate MayStart(done: seq<LaunchJob>, exchange: string, t: int, wave: int, stagger: int, cooldown: int)
    requires wave > 0
  {
    && t >= WaveStart(|done|, wave, stagger)
    && forall i :: 0 <= i < |done| && ExchangeOf(done[i]) == exchange ==> t >= done[i].startMs + cooldown
  }

  /** The earliest start is the least time the limits allow. */
  lemma {:induction false} EarliestIsLeast(
      out: seq<LaunchJob>, k: nat, exchange: string, wave: int, stagger: int, cooldown: int, t: int)
    requires wave > 0 && stagger >= 0 && cooldown >= 0 && k <= |out| && Greedy(out, wave, stagger, cooldown)
    ensures MayStart(out[..k], exchange, t, wave, stagger, cooldown)
       <==> t >= Earliest(out[..k], exchange, wave, stagger, cooldown)
  {
    var done := out[..k];
    var last := LastFound(done, exchange);
    if last >= 0 {
      StartsNatural(out, last, wave, stagger, cooldown);
      forall i | 0 <= i < k && ExchangeOf(done[i]) == exchange
        ensures done[i].startMs <= done[last].startMs
      {
        StartsInOrder(out, i, last, wave, stagger, cooldown);
      }
    }
  }

  /** Every job starts when the limits allow it, and at no earlier time could it or any job still
      waiting have started. */
  lemma {:induction false} NoEarlierStart(
      out: seq<LaunchJob>, k: nat, j: nat, wave: int, stagger: int, cooldown: int, t: int)
    requires wave > 0 && stagger >= 0 && cooldown >= 0 && k <= j < |out| && Greedy(out, wave, stagger, cooldown)
    ensures MayStart(out[..k], ExchangeOf(out[k]), out[k].startMs, wave, stagger, cooldown)
    ensures MayStart(out[..k], ExchangeOf(out[j]), t, wave, stagger, cooldown) ==> out[k].startMs <= t
  {
    assert OnTime(out, k, wave, stagger, cooldown);
    EarliestIsLeast(out, k, ExchangeOf(out[k]), wave, stagger, cooldown, out[k].startMs);
    EarliestIsLeast(out, k, ExchangeOf(out[j]), wave, stagger, cooldown, t);
    if k < j { assert BeatsAt(out, k, j, wave, stagger, cooldown); }
  }

  /** Number of jobs starting before `t`. */
  function StartedBefore(out: seq<LaunchJob>, t: int): nat {
    if out == [] then 0
    else StartedBefore(out[..|out| - 1], t) + (if out[|out| - 1].startMs < t then 1 else 0)
  }

  lemma {:induction false} StartedAtMost(out: seq<LaunchJob>, t: int, n: nat)
    requires forall k :: n <= k < |out| ==> out[k].startMs >= t
    ensures StartedBefore(out, t) <= n
  {
    if |out| > n {
      StartedAtMost(out[..|out| - 1], t, n);
    } else if out != [] {
      StartedAtMost(out[..|out| - 1], t, |out| - 1);
    }
  }

  lemma {:induction false} WavesBehind(k: nat, wave: int, stagger: int, m: nat)
    requires wave > 0 && stagger >= 0 && k >= m * wave
    ensures WaveStart(k, wave, stagger) >= m * stagger
  {
    FullWaves(k, wave, m);
    MulOrder(m, k / wave, stagger);
  }

  /** No more than `m` waves have started before the `m`-th stagger has passed. */
  lemma {:induction false} WaveBound(out: seq<LaunchJob>, wave: int, stagger: int, cooldown: int, m: nat)
    requires wave > 0 && stagger >= 0 && cooldown >= 0
    requires Greedy(out, wave, stagger, cooldown)
    ensures m * wave >= 0 && StartedBefore(out, m * stagger) <= m * wave
  {
    MulOrder(0, m, wave);
    forall k | m * wave <= k < |out|
      ensures out[k].startMs >= m * stagger
    {
      StartsNatural(out, k, wave, stagger, cooldown);
      WavesBehind(k, wave, stagger, m);
    }
    StartedAtMost(out, m * stagger, m * wave);
  }

  // ---------------------------------------------------------------------------------------------
  // The planner.

  function LastStart(starts: seq<(string, int)>, exchange: string): int {
    if starts == [] then -1 else if starts[0].0 == exchange then starts[0].1 else LastStart(starts[1..], exchange)
  }

  method LastStartForExchange(starts: seq<(string, int)>, exchange: string) returns (last: int)
    ensures last == LastStart(starts, exchange)
  {
    for i := 0 to |starts|
      invariant LastStart(starts, exchange) == LastStart(starts[i..], exchange)
    {
      if starts[i].0 == exchange { return starts[i].1; }
    }
    last := -1;
  }

  lemma {:induction false} LastStartSet(starts: seq<(string, int)>, i: nat, ms: int, other: string)
    requires i < |starts| && forall j :: 0 <= j < i ==> starts[j].0 != starts[i].0
    ensures LastStart(starts[i := (starts[i].0, ms)], other)
         == if other == starts[i].0 then ms else LastStart(starts, other)
  {
    var after := starts[i := (starts[i].0, ms)];
    if i > 0 {
      LastStartSet(starts[1..], i - 1, ms, other);
      assert after[1..] == starts[1..][i - 1 := (starts[i].0, ms)];
    } else {
      assert after[1..] == starts[1..];
    }
  }

  lemma {:induction false} LastStartPushed(starts: seq<(string, int)>, exchange: string, ms: int, other: string)
    requires forall j :: 0 <= j < |starts| ==> starts[j].0 != exchange
    ensures LastStart(starts + [(exchange, ms)], other) == if other == exchange then ms else LastStart(starts, other)
  {
    var after := starts + [(exchange, ms)];
    if starts != [] {
      LastStartPushed(starts[1..], exchange, ms, other);
      assert after[1..] == starts[1..] + [(exchange, ms)];
    } else {
      assert after[1..] == [];
    }
  }

  method SetLastStart(starts: seq<(string, int)>, exchange: string, ms: int) returns (after: seq<(string, int)>)
    ensures forall other :: LastStart(after, other) == if other == exchange then ms else LastStart(starts, other)
  {
    for i := 0 to |starts|
      invariant forall j :: 0 <= j < i ==> starts[j].0 != exchange
    {
      if starts[i].0 == exchange {
        after := starts[i := (exchange, ms)];
        assert after == starts[i := (starts[i].0, ms)];
        forall other
          ensures LastStart(after, other) == if other == exchange then ms else LastStart(starts, other)
        {
          LastStartSet(starts, i, ms, other);
        }
        return;
      }
    }
    after := starts + [(exchange, ms)];
    forall other { LastStartPushed(starts, exchange, ms, other); }
  }

  /** The table of starts says of every exchange when its last job starts. */
  ghost predicate Tracks(starts: seq<(string, int)>, done: seq<LaunchJob>) {
    forall e :: LastStart(starts, e) == LastIn(done, e)
  }

  method EarliestStartMs(
      job: LaunchJob, launched: nat, wave: int, stagger: int, cooldown: int, starts: seq<(string, int)>,
      ghost done: seq<LaunchJob>) returns (ms: int)
    requires wave > 0 && launched == |done|
    requires Tracks(starts, done)
    ensures ms == Earliest(done, ExchangeOf(job), wave, stagger, cooldown)
  {
    var waveStart := launched / wave * stagger;
    var last := LastStartForExchange(starts, LowerAscii(job.job.exchange));
    if last < 0 { return waveStart; }
    ms := Max(waveStart, last + cooldown);
  }

  /** `best` is the first of the remaining jobs in (earliest start, listed position) order. */
  method PickNext(
      runnable: seq<LaunchJob>, wave: int, stagger: int, cooldown: int, starts: seq<(string, int)>, launched: nat,
      ghost done: seq<LaunchJob>)
    returns (best: nat, bestStart: int)
    requires wave > 0 && runnable != [] && launched == |done|
    requires Tracks(starts, done)
    ensures best < |runnable|
    ensures bestStart == Earliest(done, ExchangeOf(runnable[best]), wave, stagger, cooldown)
    ensures forall i :: 0 <= i < |runnable| ==>
      Beats(done, runnable[best].(startMs := bestStart), runnable[i], wave, stagger, cooldown)
  {
    best := 0;
    bestStart := EarliestStartMs(runnable[0], launched, wave, stagger, cooldown, starts, done);
    for i := 1 to |runnable|
      invariant best < |runnable|
      invariant bestStart == Earliest(done, ExchangeOf(runnable[best]), wave, stagger, cooldown)
      invariant forall n :: 0 <= n < i ==>
        Beats(done, runnable[best].(startMs := bestStart), runnable[n], wave, stagger, cooldown)
    {
      var candidate := EarliestStartMs(runnable[i], launched, wave, stagger, cooldown, starts, done);
      if candidate < bestStart
        || (candidate == bestStart && runnable[i].originalIndex < runnable[best].originalIndex)
      {
        best := i;
        bestStart := candidate;
      }
    }
  }

  /** The same jobs with their starts forgotten. */
  function Plain(jobs: seq<LaunchJob>): (r: seq<LaunchJob>)
    ensures |r| == |jobs|
    ensures forall i :: 0 <= i < |jobs| ==> r[i] == jobs[i].(startMs := 0)
  {
    seq(|jobs|, i requires 0 <= i < |jobs| => jobs[i].(startMs := 0))
  }

  lemma {:induction false} Moved(done: seq<LaunchJob>, rest: seq<LaunchJob>, best: nat, next: LaunchJob)
    requires best < |rest| && next.(startMs := 0) == rest[best]
    ensures multiset(Plain(done + [next])) + multiset(rest[..best] + rest[best + 1..])
         == multiset(Plain(done)) + multiset(rest)
  {
    assert Plain(done + [next]) == Plain(done) + [rest[best]];
    assert rest == rest[..best] + [rest[best]] + rest[best + 1..];
  }

  predicate BeatsRest(
      done: seq<LaunchJob>, rest: seq<LaunchJob>, k: nat, j: nat, wave: int, stagger: int, cooldown: int)
    requires wave > 0 && k < |done| && j < |rest|
  {
    Beats(done[..k], done[k], rest[j], wave, stagger, cooldown)
  }

  predicate BeatsAllOf(done: seq<LaunchJob>, rest: seq<LaunchJob>, wave: int, stagger: int, cooldown: int)
    requires wave > 0
  {
    forall k, j :: 0 <= k < |done| && 0 <= j < |rest| ==> BeatsRest(done, rest, k, j, wave, stagger, cooldown)
  }

  lemma {:induction false} GreedyPushed(
      done: seq<LaunchJob>, rest: seq<LaunchJob>, best: nat, next: LaunchJob, wave: int, stagger: int, cooldown: int)
    requires wave > 0 && best < |rest| && next == rest[best].(startMs := next.startMs)
    requires Greedy(done, wave, stagger, cooldown) && BeatsAllOf(done, rest, wave, stagger, cooldown)
    requires next.startMs == Earliest(done, ExchangeOf(next), wave, stagger, cooldown)
    requires forall i :: 0 <= i < |rest| ==> Beats(done, next, rest[i], wave, stagger, cooldown)
    ensures Greedy(done + [next], wave, stagger, cooldown)
    ensures BeatsAllOf(done + [next], rest[..best] + rest[best + 1..], wave, stagger, cooldown)
  {
    var out, left := done + [next], rest[..best] + rest[best + 1..];
    forall k | 0 <= k < |out|
      ensures OnTime(out, k, wave, stagger, cooldown)
    {
      if k < |done| {
        assert OnTime(done, k, wave, stagger, cooldown);
        assert out[..k] == done[..k];
      } else {
        assert out[..k] == done;
      }
    }
    forall k, j | 0 <= k < j < |out|
      ensures BeatsAt(out, k, j, wave, stagger, cooldown)
    {
      assert out[..k] == done[..k];
      if j < |done| {
        assert BeatsAt(done, k, j, wave, stagger, cooldown);
      } else {
        assert BeatsRest(done, rest, k, best, wave, stagger, cooldown);
      }
    }
    forall k, j | 0 <= k < |out| && 0 <= j < |left|
      ensures BeatsRest(out, left, k, j, wave, stagger, cooldown)
    {
      var i := if j < best then j else j + 1;
      assert left[j] == rest[i];
      if k < |done| {
        assert BeatsRest(done, rest, k, i, wave, stagger, cooldown);
        assert out[..k] == done[..k];
      } else {
        assert out[..k] == done;
        assert Beats(done, next, rest[i], wave, stagger, cooldown);
      }
    }
  }

  /** One round: the chosen job leaves `rest` and joins the schedule. */
  method ScheduleNext(
      done: seq<LaunchJob>, rest: seq<LaunchJob>, starts: seq<(string, int)>, wave: int, stagger: int, cooldown: int)
    returns (scheduled: seq<LaunchJob>, runnable: seq<LaunchJob>, after: seq<(string, int)>)
    requires wave > 0 && rest != [] && Plain(rest) == rest && Tracks(starts, done)
    requires Greedy(done, wave, stagger, cooldown) && BeatsAllOf(done, rest, wave, stagger, cooldown)
    ensures |scheduled| == |done| + 1 && |runnable| == |rest| - 1 && Plain(runnable) == runnable
    ensures multiset(Plain(scheduled)) + multiset(runnable) == multiset(Plain(done)) + multiset(rest)
    ensures Tracks(after, scheduled) && Greedy(scheduled, wave, stagger, cooldown)
    ensures BeatsAllOf(scheduled, runnable, wave, stagger, cooldown)
  {
    var best, bestStart := PickNext(rest, wave, stagger, cooldown, starts, |done|, done);
    var next := rest[best].(startMs := bestStart);
    assert rest[best] == Plain(rest)[best];
    runnable := rest[..best] + rest[best + 1..];
    assert Plain(runnable) == Plain(rest)[..best] + Plain(rest)[best + 1..];
    after := SetLastStart(starts, LowerAscii(next.job.exchange), bestStart);
    scheduled := done + [next];
    assert scheduled[..|done|] == done;
    Moved(done, rest, best, next);
    GreedyPushed(done, rest, best, next, wave, stagger, cooldown);
  }

  method ScheduleRunnable(jobs: seq<LaunchJob>, wave: int, stagger: int, cooldown: int)
    returns (scheduled: seq<LaunchJob>)
    requires wave > 0 && Plain(jobs) == jobs
    ensures multiset(Plain(scheduled)) == multiset(jobs)
    ensures Greedy(scheduled, wave, stagger, cooldown)
  {
    var runnable := jobs;
    var starts: seq<(string, int)> := [];
    scheduled := [];
    while runnable != []
      invariant multiset(Plain(scheduled)) + multiset(runnable) == multiset(jobs)
      invariant Plain(runnable) == runnable && Tracks(starts, scheduled)
      invariant Greedy(scheduled, wave, stagger, cooldown)
      invariant BeatsAllOf(scheduled, runnable, wave, stagger, cooldown)
      decreases |runnable|
    {
      scheduled, runnable, starts := ScheduleNext(scheduled, runnable, starts, wave, stagger, cooldown);
    }
  }

  /** Every job of the preset after channel filtering, in the order of the preset. */
  function Filtered(jobs: seq<Job>, a: Availability): (r: seq<LaunchJob>)
    ensures |r| == |jobs|
    ensures forall i :: 0 <= i < |jobs| ==> r[i] == FilterChannels(Planned(jobs[i], i), a)
  {
    seq(|jobs|, i requires 0 <= i < |jobs| => FilterChannels(Planned(jobs[i], i), a))
  }

  lemma {:induction false} DropKeeps(p: LaunchJob, a: Availability, cs: seq<LaunchChannel>)
    ensures DropAll(p, a, cs).originalIndex == p.originalIndex && DropAll(p, a, cs).startMs == p.startMs
    ensures DropAll(p, a, cs).skipJob == p.skipJob
    decreases |cs|
  {
    if cs != [] { DropKeeps(DropUnavailable(p, a, cs[0]), a, cs[1..]); }
  }

  lemma {:induction false} OnceEach(ys: seq<LaunchJob>, x: LaunchJob)
    requires x in ys && DistinctIndices(ys)
    ensures multiset(ys)[x] == 1
  {
    var a :| 0 <= a < |ys| && ys[a] == x;
    assert ys == ys[..a] + [x] + ys[a + 1..];
    assert x !in ys[..a];
    assert x !in ys[a + 1..];
  }

  lemma {:induction false} Twice(xs: seq<LaunchJob>, i: nat, j: nat)
    requires i < j < |xs| && xs[i] == xs[j]
    ensures multiset(xs)[xs[i]] >= 2
  {
    assert xs == xs[..j] + xs[j..];
    assert xs[i] in xs[..j] by { assert xs[..j][i] == xs[i]; }
    assert xs[i] in xs[j..] by { assert xs[j..][0] == xs[i]; }
  }

  lemma {:induction false} PermutationKeepsDistinct(xs: seq<LaunchJob>, ys: seq<LaunchJob>)
    requires multiset(Plain(xs)) == multiset(ys) && DistinctIndices(ys)
    ensures DistinctIndices(xs)
  {
    var px := Plain(xs);
    forall i, j | 0 <= i < j < |xs|
      ensures xs[i].originalIndex != xs[j].originalIndex
    {
      assert px[i] in multiset(px) && px[j] in multiset(px);
      assert px[i] in multiset(ys) && px[j] in multiset(ys);
      if px[i] == px[j] {
        Twice(px, i, j);
        OnceEach(ys, px[i]);
      }
    }
  }

  lemma {:induction false} FilteredAt(jobs: seq<Job>, a: Availability, i: nat)
    requires i < |jobs|
    ensures Filtered(jobs, a)[i].originalIndex == i && Filtered(jobs, a)[i].startMs == 0
  {
    DropKeeps(Planned(jobs[i], i), a, LAUNCH_CHANNELS);
  }

  predicate InListOrder(jobs: seq<LaunchJob>) {
    forall k, j :: 0 <= k < j < |jobs| ==> jobs[k].originalIndex < jobs[j].originalIndex
  }

  method FilterJobChannels(planned: LaunchJob, a: Availability) returns (p: LaunchJob)
    ensures p == FilterChannels(planned, a)
    ensures p.originalIndex == planned.originalIndex && p.startMs == planned.startMs
  {
    p := planned;
    var i := 0;
    if a.Some? {
      while i < |LAUNCH_CHANNELS|
        invariant i <= |LAUNCH_CHANNELS|
        invariant DropAll(p, a, LAUNCH_CHANNELS[i..]) == DropAll(planned, a, LAUNCH_CHANNELS)
      {
        var c := LAUNCH_CHANNELS[i];
        assert LAUNCH_CHANNELS[i..][1..] == LAUNCH_CHANNELS[i + 1..];
        if Selected(p.job.channels, c) && !a.value(p.job, c) {
          p := p.(job := p.job.(channels := With(p.job.channels, c, false)), skipped := With(p.skipped, c, true));
        }
        i := i + 1;
      }
    } else {
      NothingDropped(p, a, LAUNCH_CHANNELS);
    }
    DropKeeps(planned, a, LAUNCH_CHANNELS);
    if !AnySelected(p.job.channels) {
      p := p.(skipJob := true, skipReason := "no supported channels");
    }
  }

  lemma {:induction false} NothingDropped(p: LaunchJob, a: Availability, cs: seq<LaunchChannel>)
    requires a.None?
    ensures DropAll(p, a, cs) == p
    decreases |cs|
  {
    if cs != [] { NothingDropped(p, a, cs[1..]); }
  }

  /** The jobs with the given skip flag, in their order. */
  function Kept(jobs: seq<LaunchJob>, skip: bool): seq<LaunchJob> {
    if jobs == [] then []
    else
      var last := jobs[|jobs| - 1];
      var rest := Kept(jobs[..|jobs| - 1], skip);
      if last.skipJob == skip then rest + [last] else rest
  }

  lemma {:induction false} KeptSplits(jobs: seq<LaunchJob>)
    ensures multiset(Kept(jobs, false)) + multiset(Kept(jobs, true)) == multiset(jobs)
  {
    if jobs != [] {
      KeptSplits(jobs[..|jobs| - 1]);
      assert jobs == jobs[..|jobs| - 1] + [jobs[|jobs| - 1]];
    }
  }

  lemma {:induction false} KeptOnly(jobs: seq<LaunchJob>, skip: bool)
    requires Plain(jobs) == jobs && InListOrder(jobs)
    ensures var kept := Kept(jobs, skip);
      && Plain(kept) == kept && InListOrder(kept)
      && (forall k :: 0 <= k < |kept| ==> kept[k].skipJob == skip && kept[k] in jobs)
  {
    if jobs != [] {
      var front, last := jobs[..|jobs| - 1], jobs[|jobs| - 1];
      assert Plain(front) == Plain(jobs)[..|jobs| - 1];
      KeptOnly(front, skip);
      var rest := Kept(front, skip);
      assert last == Plain(jobs)[|jobs| - 1];
      assert Plain(rest + [last]) == Plain(rest) + [last];
    }
  }

  lemma {:induction false} FilteredPlain(jobs: seq<Job>, a: Availability)
    ensures Plain(Filtered(jobs, a)) == Filtered(jobs, a) && InListOrder(Filtered(jobs, a))
  {
    forall i | 0 <= i < |jobs|
      ensures Filtered(jobs, a)[i].originalIndex == i && Filtered(jobs, a)[i].startMs == 0
    {
      FilteredAt(jobs, a, i);
    }
  }

  method FilterJobs(jobs: seq<Job>, a: Availability) returns (runnable: seq<LaunchJob>, skipped: seq<LaunchJob>)
    ensures runnable == Kept(Filtered(jobs, a), false) && skipped == Kept(Filtered(jobs, a), true)
  {
    runnable, skipped := [], [];
    ghost var all := Filtered(jobs, a);
    for i := 0 to |jobs|
      invariant runnable == Kept(all[..i], false) && skipped == Kept(all[..i], true)
    {
      var job := FilterJobChannels(Planned(jobs[i], i), a);
      assert all[..i + 1][..i] == all[..i];
      if job.skipJob { skipped := skipped + [job]; } else { runnable := runnable + [job]; }
    }
    assert all[..|jobs|] == all;
  }

  lemma {:induction false} ScheduledRunnable(scheduled: seq<LaunchJob>, runnable: seq<LaunchJob>)
    requires multiset(Plain(scheduled)) == multiset(runnable)
    requires forall k :: 0 <= k < |runnable| ==> !runnable[k].skipJob
    ensures |scheduled| == |runnable|
    ensures forall k :: 0 <= k < |scheduled| ==> !scheduled[k].skipJob
  {
    assert |multiset(Plain(scheduled))| == |multiset(runnable)|;
    forall k | 0 <= k < |scheduled|
      ensures !scheduled[k].skipJob
    {
      assert Plain(scheduled)[k] in multiset(Plain(scheduled));
      assert Plain(scheduled)[k] in multiset(runnable);
    }
  }

  lemma {:induction false} ListedOnce(all: seq<LaunchJob>, scheduled: seq<LaunchJob>)
    requires Plain(all) == all && InListOrder(all)
    requires multiset(Plain(scheduled)) == multiset(Kept(all, false))
    ensures |scheduled| == |Kept(all, false)|
    ensures multiset(Plain(scheduled + Kept(all, true))) == multiset(all)
    ensures DistinctIndices(scheduled + Kept(all, true))
    ensures forall k :: 0 <= k < |scheduled| ==> !scheduled[k].skipJob
  {
    KeptSplits(all);
    KeptOnly(all, false);
    KeptOnly(all, true);
    var skipped := Kept(all, true);
    ScheduledRunnable(scheduled, Kept(all, false));
    assert Plain(scheduled + skipped) == Plain(scheduled) + skipped;
    PermutationKeepsDistinct(scheduled + skipped, all);
  }

  /** The plan lists every job once: the runnable ones as a greedy schedule, the skipped ones after
      them in the order of the preset. */
  method BuildPlan(preset: Preset, a: Availability) returns (plan: Plan)
    ensures plan.waveSize == Max(1, preset.launchWaveSize) && plan.staggerMs == Max(0, preset.launchStaggerMs)
    ensures plan.cooldownMs == Max(0, preset.sameExchangeCooldownMs)
    ensures plan.maxActiveJobs == Max(1, preset.maxActiveJobs)
    ensures plan.runnableJobs + plan.skippedJobs == |plan.jobs|
    ensures multiset(Plain(plan.jobs)) == multiset(Filtered(preset.jobs, a))
    ensures DistinctIndices(plan.jobs)
    ensures forall k :: 0 <= k < |plan.jobs| ==> (plan.jobs[k].skipJob <==> k >= plan.runnableJobs)
    ensures Greedy(plan.jobs[..plan.runnableJobs], plan.waveSize, plan.staggerMs, plan.cooldownMs)
    ensures InListOrder(plan.jobs[plan.runnableJobs..])
    ensures Plain(plan.jobs[plan.runnableJobs..]) == plan.jobs[plan.runnableJobs..]
  {
    var runnable, skipped := FilterJobs(preset.jobs, a);
    ghost var all := Filtered(preset.jobs, a);
    FilteredPlain(preset.jobs, a);
    KeptOnly(all, false);
    var wave, stagger, cooldown :=
      Max(1, preset.launchWaveSize), Max(0, preset.launchStaggerMs), Max(0, preset.sameExchangeCooldownMs);
    var scheduled := ScheduleRunnable(runnable, wave, stagger, cooldown);
    plan := Plan(wave, stagger, cooldown, Max(1, preset.maxActiveJobs), scheduled + skipped, |runnable|, |skipped|);
    ListedOnce(all, scheduled);
    KeptOnly(all, true);
    assert plan.jobs[..|runnable|] == scheduled;
    assert plan.jobs[|runnable|..] == skipped;
  }
}
