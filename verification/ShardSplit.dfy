/** Splitting a preset into shards, one child process each: jobs are gathered into groups and the
    groups are dealt out in turn. */
module ShardSplit {
  import opened Numbers
  import opened Presets

  datatype Grouping = BySymbol | ByVenue | ByJob

  datatype Group = Group(key: string, jobs: seq<Job>)

  /** Folder name under which a symbol's recordings are kept. */
  type FolderOf = (string, string, string) -> string

  function KeyOf(job: Job, mode: Grouping, folder: FolderOf): string {
    match mode
    case ByJob => job.name
    case ByVenue => job.exchange + "|" + job.market
    case BySymbol =>
      var f := folder(job.exchange, job.market, job.symbol);
      if f == "" then job.symbol else f
  }

  // ---------------------------------------------------------------------------------------------
  // Gathering.

  predicate DistinctKeys(gs: seq<Group>) {
    forall i, j :: 0 <= i < j < |gs| ==> gs[i].key != gs[j].key
  }

  predicate Sound(g: Group, mode: Grouping, folder: FolderOf) {
    && g.jobs != []
    && (forall k :: 0 <= k < |g.jobs| ==> KeyOf(g.jobs[k], mode, folder) == g.key)
    && (mode.ByJob? ==> |g.jobs| == 1)
  }

  predicate Grouped(gs: seq<Group>, mode: Grouping, folder: FolderOf) {
    && (forall i :: 0 <= i < |gs| ==> Sound(gs[i], mode, folder))
    && (!mode.ByJob? ==> DistinctKeys(gs))
  }

  function Flat(gs: seq<Group>): seq<Job> {
    if gs == [] then [] else Flat(gs[..|gs| - 1]) + gs[|gs| - 1].jobs
  }

  /** The same jobs, each as often, in any order. */
  predicate SameJobs(a: seq<Job>, b: seq<Job>) { multiset(a) == multiset(b) }

  lemma {:induction false} OneMore(was: seq<Job>, now: seq<Job>, jobs: seq<Job>, n: nat)
    requires n < |jobs| && SameJobs(was, jobs[..n]) && SameJobs(now, was + [jobs[n]])
    ensures SameJobs(now, jobs[..n + 1])
  {
    assert jobs[..n + 1] == jobs[..n] + [jobs[n]];
  }

  lemma {:induction false} FlatUpdated(gs: seq<Group>, i: nat, job: Job)
    requires i < |gs|
    ensures SameJobs(Flat(gs[i := Group(gs[i].key, gs[i].jobs + [job])]), Flat(gs) + [job])
  {
    var last := |gs| - 1;
    var after := gs[i := Group(gs[i].key, gs[i].jobs + [job])];
    if i < last {
      FlatUpdated(gs[..last], i, job);
      assert after[..last] == gs[..last][i := Group(gs[i].key, gs[i].jobs + [job])];
    } else {
      assert after[..last] == gs[..last];
    }
  }

  method FindGroup(gs: seq<Group>, key: string) returns (i: nat)
    ensures i <= |gs| && (i < |gs| ==> gs[i].key == key)
    ensures forall j :: 0 <= j < i ==> gs[j].key != key
  {
    i := 0;
    while i < |gs| && gs[i].key != key
      invariant i <= |gs| && forall j :: 0 <= j < i ==> gs[j].key != key
    {
      i := i + 1;
    }
  }

  method Place(gs: seq<Group>, job: Job, mode: Grouping, folder: FolderOf) returns (after: seq<Group>)
    requires Grouped(gs, mode, folder)
    ensures Grouped(after, mode, folder) && after != []
    ensures SameJobs(Flat(after), Flat(gs) + [job])
    ensures mode.ByJob? ==> |after| == |gs| + 1
  {
    var key := KeyOf(job, mode, folder);
    var i := |gs|;
    if !mode.ByJob? { i := FindGroup(gs, key); }
    if i == |gs| {
      after := gs + [Group(key, [job])];
      assert after[..|gs|] == gs;
    } else {
      after := gs[i := Group(key, gs[i].jobs + [job])];
      FlatUpdated(gs, i, job);
    }
  }

  /** Nothing is lost or invented, each group holds one key, and no key has two groups. */
  method Gather(jobs: seq<Job>, mode: Grouping, folder: FolderOf) returns (gs: seq<Group>)
    ensures Grouped(gs, mode, folder)
    ensures SameJobs(Flat(gs), jobs)
    ensures jobs != [] ==> gs != []
    ensures mode.ByJob? ==> |gs| == |jobs|
  {
    gs := [];
    for n := 0 to |jobs|
      invariant Grouped(gs, mode, folder) && SameJobs(Flat(gs), jobs[..n])
      invariant (n > 0 ==> gs != []) && (mode.ByJob? ==> |gs| == n)
    {
      var after := Place(gs, jobs[n], mode, folder);
      OneMore(Flat(gs), Flat(after), jobs, n);
      gs := after;
    }
    assert jobs[..|jobs|] == jobs;
  }

  // ---------------------------------------------------------------------------------------------
  // Dealing.

  function KeysOf(jobs: seq<Job>, mode: Grouping, folder: FolderOf): set<string> {
    set k | 0 <= k < |jobs| :: KeyOf(jobs[k], mode, folder)
  }

  /** How many groups a shard holds, read off its jobs. */
  function Weight(jobs: seq<Job>, mode: Grouping, folder: FolderOf): nat {
    if mode.ByJob? then |jobs| else |KeysOf(jobs, mode, folder)|
  }

  /** After `n` groups every hand has `n / c` of them, the first `n % c` hands one more. */
  function Share(n: nat, c: nat, s: nat): nat
    requires c > 0
  {
    n / c + (if s < n % c then 1 else 0)
  }

  lemma {:induction false} DealtRound(n: nat, c: nat)
    requires c > 0
    ensures n % c + 1 < c ==> (n + 1) / c == n / c && (n + 1) % c == n % c + 1
    ensures n % c + 1 == c ==> (n + 1) / c == n / c + 1 && (n + 1) % c == 0
  {
    var q, r := n / c, n % c;
    assert n == q * c + r;
    if r + 1 < c {
      Quotient(n + 1, c, q, r + 1);
    } else {
      assert (q + 1) * c == q * c + c;
      Quotient(n + 1, c, q + 1, 0);
    }
  }

  lemma {:induction false} Quotient(n: nat, c: nat, q: nat, r: nat)
    requires c > 0 && r < c && n == q * c + r
    ensures n / c == q && n % c == r
  {
    var q2, r2 := n / c, n % c;
    assert n == q2 * c + r2;
    if q > q2 { NextMultiple(q2, q, c); }
    if q < q2 { NextMultiple(q, q2, c); }
  }

  lemma {:induction false} NextMultiple(a: nat, b: nat, c: nat)
    requires a < b
    ensures a * c + c <= b * c
  {
    assert b * c == a * c + c + (b - a - 1) * c;
  }

  lemma {:induction false} Dealt(n: nat, c: nat, s: nat)
    requires c > 0 && s < c
    ensures Share(n + 1, c, s) == Share(n, c, s) + (if s == n % c then 1 else 0)
  {
    DealtRound(n, c);
  }

  predicate From(gs: seq<Group>, n: nat, c: nat, s: nat, job: Job)
    requires n <= |gs| && c > 0
  {
    exists k :: 0 <= k < n && k % c == s && job in gs[k].jobs
  }

  predicate Dealing(hands: seq<seq<Job>>, gs: seq<Group>, n: nat, mode: Grouping, folder: FolderOf)
    requires n <= |gs| && hands != []
  {
    && (forall s, k :: 0 <= s < |hands| && 0 <= k < |hands[s]| ==> From(gs, n, |hands|, s, hands[s][k]))
    && (forall s :: 0 <= s < |hands| ==> Weight(hands[s], mode, folder) == Share(n, |hands|, s))
  }

  lemma {:induction false} KeysJoined(jobs: seq<Job>, g: Group, mode: Grouping, folder: FolderOf)
    requires Sound(g, mode, folder)
    ensures KeysOf(jobs + g.jobs, mode, folder) == KeysOf(jobs, mode, folder) + {g.key}
  {
    var all := jobs + g.jobs;
    forall key | key in KeysOf(jobs, mode, folder) + {g.key}
      ensures key in KeysOf(all, mode, folder)
    {
      if key == g.key {
        assert KeyOf(all[|jobs|], mode, folder) == key;
      } else {
        var k :| 0 <= k < |jobs| && KeyOf(jobs[k], mode, folder) == key;
        assert all[k] == jobs[k];
      }
    }
    forall key | key in KeysOf(all, mode, folder)
      ensures key in KeysOf(jobs, mode, folder) + {g.key}
    {
      var k :| 0 <= k < |all| && KeyOf(all[k], mode, folder) == key;
      if k >= |jobs| { assert all[k] == g.jobs[k - |jobs|]; }
    }
  }

  /** A key that arrives is new: its group is the only one that has it. */
  lemma {:induction false} KeyIsNew(
      hands: seq<seq<Job>>, gs: seq<Group>, n: nat, s: nat, mode: Grouping, folder: FolderOf)
    requires n < |gs| && hands != [] && s < |hands| && !mode.ByJob?
    requires Grouped(gs, mode, folder) && Dealing(hands, gs, n, mode, folder)
    ensures gs[n].key !in KeysOf(hands[s], mode, folder)
  {
    forall k | 0 <= k < |hands[s]|
      ensures KeyOf(hands[s][k], mode, folder) != gs[n].key
    {
      assert From(gs, n, |hands|, s, hands[s][k]);
      var i :| 0 <= i < n && i % |hands| == s && hands[s][k] in gs[i].jobs;
      assert Sound(gs[i], mode, folder);
    }
  }

  lemma {:induction false} DealtOne(hands: seq<seq<Job>>, gs: seq<Group>, n: nat, mode: Grouping, folder: FolderOf)
    requires n < |gs| && hands != []
    requires Grouped(gs, mode, folder) && Dealing(hands, gs, n, mode, folder)
    ensures Dealing(hands[n % |hands| := hands[n % |hands|] + gs[n].jobs], gs, n + 1, mode, folder)
  {
    var c := |hands|;
    var t := n % c;
    var after := hands[t := hands[t] + gs[n].jobs];
    assert Sound(gs[n], mode, folder);
    forall s, k | 0 <= s < c && 0 <= k < |after[s]|
      ensures From(gs, n + 1, c, s, after[s][k])
    {
      if k < |hands[s]| {
        assert From(gs, n, c, s, hands[s][k]);
        var i :| 0 <= i < n && i % c == s && hands[s][k] in gs[i].jobs;
        assert 0 <= i < n + 1 && i % c == s && after[s][k] in gs[i].jobs;
      } else {
        assert after[s][k] in gs[n].jobs;
      }
    }
    forall s | 0 <= s < c
      ensures Weight(after[s], mode, folder) == Share(n + 1, c, s)
    {
      Dealt(n, c, s);
      if s == t && !mode.ByJob? {
        KeysJoined(hands[s], gs[n], mode, folder);
        KeyIsNew(hands, gs, n, s, mode, folder);
      }
    }
  }

  lemma {:induction false} KeyAbsent(gs: seq<Group>, key: string, mode: Grouping, folder: FolderOf)
    requires Grouped(gs, mode, folder) && forall i :: 0 <= i < |gs| ==> gs[i].key != key
    ensures key !in KeysOf(Flat(gs), mode, folder)
  {
    if gs != [] {
      var last := |gs| - 1;
      KeyAbsent(gs[..last], key, mode, folder);
      assert Sound(gs[last], mode, folder);
      KeysJoined(Flat(gs[..last]), gs[last], mode, folder);
    }
  }

  lemma {:induction false} FlatKeys(gs: seq<Group>, mode: Grouping, folder: FolderOf)
    requires Grouped(gs, mode, folder) && !mode.ByJob?
    ensures |KeysOf(Flat(gs), mode, folder)| == |gs|
  {
    if gs == [] {
      assert KeysOf([], mode, folder) == {};
    } else {
      var last := |gs| - 1;
      var front := gs[..last];
      FlatKeys(front, mode, folder);
      assert Sound(gs[last], mode, folder);
      KeysJoined(Flat(front), gs[last], mode, folder);
      KeyAbsent(front, gs[last].key, mode, folder);
    }
  }

  lemma {:induction false} SameKeys(a: seq<Job>, b: seq<Job>, mode: Grouping, folder: FolderOf)
    requires SameJobs(a, b)
    ensures KeysOf(a, mode, folder) <= KeysOf(b, mode, folder)
  {
    forall k | 0 <= k < |a|
      ensures KeyOf(a[k], mode, folder) in KeysOf(b, mode, folder)
    {
      assert a[k] in multiset(a) && a[k] in multiset(b);
      var j :| 0 <= j < |b| && b[j] == a[k];
    }
  }

  lemma {:induction false} GroupsCounted(gs: seq<Group>, jobs: seq<Job>, mode: Grouping, folder: FolderOf)
    requires Grouped(gs, mode, folder) && SameJobs(Flat(gs), jobs) && (mode.ByJob? ==> |gs| == |jobs|)
    ensures |gs| == Weight(jobs, mode, folder)
  {
    if !mode.ByJob? {
      FlatKeys(gs, mode, folder);
      SameKeys(Flat(gs), jobs, mode, folder);
      SameKeys(jobs, Flat(gs), mode, folder);
      assert KeysOf(jobs, mode, folder) == KeysOf(Flat(gs), mode, folder);
    }
  }

  function Joined(hands: seq<seq<Job>>): seq<Job> {
    if hands == [] then [] else Joined(hands[..|hands| - 1]) + hands[|hands| - 1]
  }

  lemma {:induction false} JoinedMore(hands: seq<seq<Job>>, t: nat, jobs: seq<Job>)
    requires t < |hands|
    ensures SameJobs(Joined(hands[t := hands[t] + jobs]), Joined(hands) + jobs)
  {
    var last := |hands| - 1;
    var after := hands[t := hands[t] + jobs];
    if t < last {
      JoinedMore(hands[..last], t, jobs);
      assert after[..last] == hands[..last][t := hands[t] + jobs];
    } else {
      assert after[..last] == hands[..last];
    }
  }

  lemma {:induction false} JoinedEmpty(hands: seq<seq<Job>>)
    requires forall s :: 0 <= s < |hands| ==> hands[s] == []
    ensures Joined(hands) == []
  {
    if hands != [] { JoinedEmpty(hands[..|hands| - 1]); }
  }

  lemma {:induction false} MoreOf(a: seq<Job>, b: seq<Job>, after: seq<Job>, jobs: seq<Job>)
    requires SameJobs(a, b) && SameJobs(after, a + jobs)
    ensures SameJobs(after, b + jobs)
  {
  }

  method Deal(gs: seq<Group>, count: nat, mode: Grouping, folder: FolderOf) returns (hands: seq<seq<Job>>)
    requires count > 0 && Grouped(gs, mode, folder)
    ensures |hands| == count && Dealing(hands, gs, |gs|, mode, folder)
    ensures SameJobs(Joined(hands), Flat(gs))
  {
    hands := seq(count, s => []);
    JoinedEmpty(hands);
    forall s | 0 <= s < count
      ensures Weight(hands[s], mode, folder) == Share(0, count, s)
    {
      assert KeysOf([], mode, folder) == {};
    }
    for n := 0 to |gs|
      invariant |hands| == count && Dealing(hands, gs, n, mode, folder)
      invariant SameJobs(Joined(hands), Flat(gs[..n]))
    {
      DealtOne(hands, gs, n, mode, folder);
      JoinedMore(hands, n % count, gs[n].jobs);
      assert gs[..n + 1][..n] == gs[..n];
      var t := n % count;
      MoreOf(Joined(hands), Flat(gs[..n]), Joined(hands[t := hands[t] + gs[n].jobs]), gs[n].jobs);
      hands := hands[t := hands[t] + gs[n].jobs];
    }
    assert gs[..|gs|] == gs;
  }

  // ---------------------------------------------------------------------------------------------
  // The split.

  function HandsOf(shards: seq<Preset>): (r: seq<seq<Job>>)
    ensures |r| == |shards| && forall s :: 0 <= s < |shards| ==> r[s] == shards[s].jobs
  {
    seq(|shards|, s requires 0 <= s < |shards| => shards[s].jobs)
  }

  /** No job of one shard belongs to a group of another. */
  predicate GroupsApart(hands: seq<seq<Job>>, mode: Grouping, folder: FolderOf) {
    forall s, t, i, j :: 0 <= s < |hands| && 0 <= t < |hands| && 0 <= i < |hands[s]| && 0 <= j < |hands[t]| ==>
      KeyOf(hands[s][i], mode, folder) == KeyOf(hands[t][j], mode, folder) ==> s == t
  }

  lemma {:induction false} DealtApart(hands: seq<seq<Job>>, gs: seq<Group>, mode: Grouping, folder: FolderOf)
    requires hands != [] && Grouped(gs, mode, folder) && Dealing(hands, gs, |gs|, mode, folder) && !mode.ByJob?
    ensures GroupsApart(hands, mode, folder)
  {
    forall s, t, i, j | 0 <= s < |hands| && 0 <= t < |hands| && 0 <= i < |hands[s]| && 0 <= j < |hands[t]|
      && KeyOf(hands[s][i], mode, folder) == KeyOf(hands[t][j], mode, folder)
      ensures s == t
    {
      assert From(gs, |gs|, |hands|, s, hands[s][i]) && From(gs, |gs|, |hands|, t, hands[t][j]);
      var a :| 0 <= a < |gs| && a % |hands| == s && hands[s][i] in gs[a].jobs;
      var b :| 0 <= b < |gs| && b % |hands| == t && hands[t][j] in gs[b].jobs;
      assert Sound(gs[a], mode, folder) && Sound(gs[b], mode, folder);
      assert a == b;
    }
  }

  /** A shard is the preset with other jobs and its own limit on active jobs. */
  function ShardsOf(preset: Preset, hands: seq<seq<Job>>, maxActivePerShard: int): (r: seq<Preset>)
    ensures |r| == |hands| && HandsOf(r) == hands
  {
    seq(|hands|, s requires 0 <= s < |hands| =>
      preset.(jobs := hands[s], maxActiveJobs := Max(1, maxActivePerShard)))
  }

  predicate Filled(hands: seq<seq<Job>>) { forall s :: 0 <= s < |hands| ==> hands[s] != [] }

  lemma {:induction false} HandsFilled(hands: seq<seq<Job>>, gs: seq<Group>, mode: Grouping, folder: FolderOf)
    requires 1 <= |hands| <= |gs| && Dealing(hands, gs, |gs|, mode, folder)
    ensures Filled(hands)
  {
    assert |gs| == |gs| / |hands| * |hands| + |gs| % |hands|;
    assert |gs| / |hands| >= 1;
    assert KeysOf([], mode, folder) == {};
    assert Weight([], mode, folder) == 0;
  }

  predicate Even(hands: seq<seq<Job>>, mode: Grouping, folder: FolderOf) {
    forall s, t :: 0 <= s < |hands| && 0 <= t < |hands| ==>
      Weight(hands[s], mode, folder) <= Weight(hands[t], mode, folder) + 1
  }

  lemma {:induction false} DealtEvenly(hands: seq<seq<Job>>, gs: seq<Group>, mode: Grouping, folder: FolderOf)
    requires hands != [] && Dealing(hands, gs, |gs|, mode, folder)
    ensures Even(hands, mode, folder)
  {
  }

  /** The split keeps every job, keeps groups together and spreads them evenly. */
  method SplitPreset(preset: Preset, shardCount: int, maxActivePerShard: int, mode: Grouping, folder: FolderOf)
    returns (shards: seq<Preset>)
    ensures |shards| == Max(1, Min(shardCount, Max(1, Weight(preset.jobs, mode, folder))))
    ensures shards == ShardsOf(preset, HandsOf(shards), maxActivePerShard)
    ensures SameJobs(Joined(HandsOf(shards)), preset.jobs)
    ensures !mode.ByJob? ==> GroupsApart(HandsOf(shards), mode, folder)
    ensures Even(HandsOf(shards), mode, folder)
    ensures preset.jobs != [] ==> Filled(HandsOf(shards))
  {
    var gs := Gather(preset.jobs, mode, folder);
    GroupsCounted(gs, preset.jobs, mode, folder);
    var groupCount := if gs == [] then 1 else |gs|;
    var count := Max(1, Min(shardCount, groupCount));
    var hands := Deal(gs, count, mode, folder);
    shards := ShardsOf(preset, hands, maxActivePerShard);
    assert HandsOf(shards) == hands;
    assert preset.jobs != [] ==> Filled(hands) by { if gs != [] { HandsFilled(hands, gs, mode, folder); } }
    DealtEvenly(hands, gs, mode, folder);
    if !mode.ByJob? { DealtApart(hands, gs, mode, folder); }
  }

  // ---------------------------------------------------------------------------------------------
  // Limits.

  /** A limit on active shards lies between one and the number of shards. */
  function ClampMaxActive(requested: int, shardCount: int): (limit: int)
    ensures 1 <= limit <= Max(1, shardCount)
    ensures 1 <= requested <= shardCount ==> limit == requested
  {
    Max(1, Min(Max(1, requested), Max(1, shardCount)))
  }

  datatype LaunchState = LaunchState(launched: bool, exited: bool, stopping: bool)

  predicate Running(s: LaunchState) { s.launched && !s.exited }

  predicate Waiting(s: LaunchState) { !s.launched && !s.exited && !s.stopping }

  function Count(states: seq<LaunchState>, p: LaunchState -> bool): (n: nat)
    ensures n <= |states|
  {
    if states == [] then 0 else Count(states[..|states| - 1], p) + (if p(states[|states| - 1]) then 1 else 0)
  }

  method CountStates(states: seq<LaunchState>) returns (active: nat, queued: nat)
    ensures active == Count(states, Running) && queued == Count(states, Waiting)
  {
    active, queued := 0, 0;
    for i := 0 to |states|
      invariant active == Count(states[..i], Running) && queued == Count(states[..i], Waiting)
    {
      assert states[..i + 1][..i] == states[..i];
      if states[i].launched && !states[i].exited { active := active + 1; }
      if !states[i].launched && !states[i].exited && !states[i].stopping { queued := queued + 1; }
    }
    assert states[..|states|] == states;
  }

  /** The indices are, in order, exactly the waiting ones below `i`. */
  predicate Picked(states: seq<LaunchState>, indices: seq<nat>, i: nat)
    requires i <= |states|
  {
    && (forall k :: 0 <= k < |indices| ==> indices[k] < i && Waiting(states[indices[k]]))
    && (forall j, k :: 0 <= j < k < |indices| ==> indices[j] < indices[k])
    && (forall j :: 0 <= j < i && Waiting(states[j]) ==> j in indices)
  }

  /** The launches chosen are the waiting shards with the smallest indices, as many as there is room. */
  method ChooseQueued(states: seq<LaunchState>, maxActive: int)
    returns (indices: seq<nat>, active: nat, queued: nat, ghost below: nat)
    ensures active == Count(states, Running) && queued == Count(states, Waiting)
    ensures |indices| == Min(queued, Max(0, ClampMaxActive(maxActive, |states|) - active))
    ensures below <= |states| && Picked(states, indices, below)
  {
    var limit := ClampMaxActive(maxActive, |states|);
    active, queued := CountStates(states);
    indices := [];
    var slots := Max(0, limit - active);
    var i := 0;
    while i < |states| && slots > 0
      invariant i <= |states| && 0 <= slots && |indices| + slots == Max(0, limit - active)
      invariant Picked(states, indices, i) && |indices| == Count(states[..i], Waiting)
    {
      assert states[..i + 1][..i] == states[..i];
      if !(states[i].launched || states[i].exited || states[i].stopping) {
        PickedMore(states, indices, i);
        indices := indices + [i];
        slots := slots - 1;
      } else {
        PickedSame(states, indices, i);
      }
      i := i + 1;
    }
    below := i;
    CountGrows(states, i);
    if i == |states| { assert states[..i] == states; }
  }

  lemma {:induction false} PickedSame(states: seq<LaunchState>, indices: seq<nat>, i: nat)
    requires i < |states| && Picked(states, indices, i) && !Waiting(states[i])
    ensures Picked(states, indices, i + 1)
  {
  }

  lemma {:induction false} PickedMore(states: seq<LaunchState>, indices: seq<nat>, i: nat)
    requires i < |states| && Picked(states, indices, i) && Waiting(states[i])
    ensures Picked(states, indices + [i], i + 1)
  {
    var after := indices + [i];
    forall j | 0 <= j < i + 1 && Waiting(states[j])
      ensures j in after
    {
      if j == i { assert after[|indices|] == i; } else { assert j in indices; }
    }
  }

  lemma {:induction false} CountGrows(states: seq<LaunchState>, i: nat)
    requires i <= |states|
    ensures Count(states[..i], Waiting) <= Count(states, Waiting)
  {
    if i < |states| {
      CountGrows(states[..|states| - 1], i);
      assert states[..|states| - 1][..i] == states[..i];
    } else {
      assert states[..i] == states;
    }
  }
}
