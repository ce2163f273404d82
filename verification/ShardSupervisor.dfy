/** The shard supervisor: it starts queued child processes within its limits, stops and reaps them.
    Forks, exits and memory readings are what the environment decides, so they are inputs. */
module ShardSupervisor {
  import opened Numbers
  import opened Presets

  const RESERVE_KB: nat := 512 * 1024

  function Reserved(shards: nat): nat { shards * RESERVE_KB }

  datatype Shard = Shard(
    pid: int, launched: bool, stopping: bool, exited: bool, rssKb: nat, keys: seq<string>)

  datatype Limits = Limits(maxActive: int, memoryLimitKb: nat, gradual: bool)

  predicate Active(s: Shard) { s.launched && !s.exited }

  /** A shard whose market-data sessions count: a stopping one gives its sessions up. */
  predicate Live(s: Shard) { Active(s) && !s.stopping }

  predicate Queued(s: Shard) { !s.launched && !s.exited && !s.stopping }

  predicate Share(a: Shard, b: Shard) { exists k :: 0 <= k < |a.keys| && a.keys[k] in b.keys }

  function Charge(s: Shard): nat {
    if !Active(s) then 0 else if s.rssKb != 0 then s.rssKb else RESERVE_KB
  }

  function ActiveCount(ss: seq<Shard>): nat {
    if ss == [] then 0 else ActiveCount(ss[..|ss| - 1]) + (if Active(ss[|ss| - 1]) then 1 else 0)
  }

  /** The memory the active shards are taken to need. */
  function Estimate(ss: seq<Shard>): nat {
    if ss == [] then 0 else Estimate(ss[..|ss| - 1]) + Charge(ss[|ss| - 1])
  }

  function QueuedCount(ss: seq<Shard>): nat {
    if ss == [] then 0 else QueuedCount(ss[..|ss| - 1]) + (if Queued(ss[|ss| - 1]) then 1 else 0)
  }

  predicate LiveConflict(candidate: Shard, s: Shard) { Live(s) && Share(candidate, s) }

  predicate Conflict(candidate: Shard, ss: seq<Shard>) {
    exists j :: 0 <= j < |ss| && LiveConflict(candidate, ss[j])
  }

  /** No two live shards hold the same exclusive session. */
  predicate SessionsApart(ss: seq<Shard>) {
    forall i, j :: 0 <= i < |ss| && 0 <= j < |ss| && i != j && Live(ss[i]) ==> !LiveConflict(ss[i], ss[j])
  }

  /** A shard that was never started has no process and no memory. */
  predicate Unborn(s: Shard) { !s.launched ==> s.pid <= 0 && s.rssKb == 0 }

  predicate Unspoilt(ss: seq<Shard>) { forall i :: 0 <= i < |ss| ==> Unborn(ss[i]) }

  predicate Safe(ss: seq<Shard>, limits: Limits) {
    ActiveCount(ss) <= Max(0, limits.maxActive) && SessionsApart(ss) && Unspoilt(ss)
  }

  // ---------------------------------------------------------------------------------------------
  // Counting.

  lemma {:induction false} Updated(ss: seq<Shard>, i: nat, s: Shard)
    requires i < |ss|
    ensures ActiveCount(ss[i := s])
         == ActiveCount(ss) - (if Active(ss[i]) then 1 else 0) + (if Active(s) then 1 else 0)
    ensures Estimate(ss[i := s]) == Estimate(ss) - Charge(ss[i]) + Charge(s)
    ensures QueuedCount(ss[i := s])
         == QueuedCount(ss) - (if Queued(ss[i]) then 1 else 0) + (if Queued(s) then 1 else 0)
  {
    var last := |ss| - 1;
    var after := ss[i := s];
    if i < last {
      Updated(ss[..last], i, s);
      assert after[..last] == ss[..last][i := s];
    } else {
      assert after[..last] == ss[..last];
    }
  }

  // ---------------------------------------------------------------------------------------------
  // Admission.

  datatype Admission = Admission(shards: seq<Shard>, launched: nat)

  function Spawned(s: Shard, pid: int): Shard { s.(launched := true, pid := pid, exited := pid < 0) }

  /** Admission of the shards from position `i` on.  `spawn` gives the result of each fork. */
  function Admit(ss: seq<Shard>, i: nat, slots: nat, admittedKb: nat, limitKb: nat, spawn: nat -> int): (r: Admission)
    requires i <= |ss|
    ensures |r.shards| == |ss|
    decreases |ss| - i
  {
    if i == |ss| || slots == 0 then Admission(ss, 0)
    else if !Queued(ss[i]) || Conflict(ss[i], ss) then Admit(ss, i + 1, slots, admittedKb, limitKb, spawn)
    else if limitKb != 0 && admittedKb + RESERVE_KB > limitKb then Admission(ss, 0)
    else
      var pid := spawn(i);
      var ok := pid >= 0;
      var r := Admit(ss[i := Spawned(ss[i], pid)], i + 1, slots - 1,
                     admittedKb + (if ok then RESERVE_KB else 0), limitKb, spawn);
      Admission(r.shards, r.launched + (if ok then 1 else 0))
  }

  function Slots(ss: seq<Shard>, limits: Limits): nat {
    var free := Max(0, limits.maxActive - ActiveCount(ss));
    if limits.gradual then Min(free, 1) else free
  }

  function Start(ss: seq<Shard>, limits: Limits, spawn: nat -> int): Admission {
    Admit(ss, 0, Slots(ss, limits), Estimate(ss), limits.memoryLimitKb, spawn)
  }

  lemma {:induction false} ShareSymmetric(a: Shard, b: Shard)
    ensures Share(a, b) ==> Share(b, a)
  {
    if Share(a, b) {
      var k :| 0 <= k < |a.keys| && a.keys[k] in b.keys;
      var j :| 0 <= j < |b.keys| && b.keys[j] == a.keys[k];
    }
  }

  /** One launch keeps the sessions apart: the conflict test saw every live shard. */
  lemma {:induction false} SpawnKeepsApart(ss: seq<Shard>, i: nat, pid: int)
    requires i < |ss| && Queued(ss[i]) && !Conflict(ss[i], ss) && SessionsApart(ss) && Unspoilt(ss)
    ensures SessionsApart(ss[i := Spawned(ss[i], pid)]) && Unspoilt(ss[i := Spawned(ss[i], pid)])
  {
    var s := Spawned(ss[i], pid);
    var after := ss[i := s];
    forall a, b | 0 <= a < |after| && 0 <= b < |after| && a != b && Live(after[a])
      ensures !LiveConflict(after[a], after[b])
    {
      if a == i {
        assert !LiveConflict(ss[i], ss[b]);
        assert Share(s, ss[b]) ==> Share(ss[i], ss[b]);
      } else if b == i {
        assert !LiveConflict(ss[i], ss[a]);
        ShareSymmetric(ss[a], s);
        assert Share(s, ss[a]) ==> Share(ss[i], ss[a]);
      } else {
        assert !LiveConflict(ss[a], ss[b]);
      }
    }
  }

  /** A round keeps the sessions apart. */
  lemma {:induction false} AdmitApart(
      ss: seq<Shard>, i: nat, slots: nat, admittedKb: nat, limitKb: nat, spawn: nat -> int)
    requires i <= |ss| && SessionsApart(ss) && Unspoilt(ss)
    ensures var after := Admit(ss, i, slots, admittedKb, limitKb, spawn).shards; SessionsApart(after) && Unspoilt(after)
    decreases |ss| - i
  {
    if i == |ss| || slots == 0 {
    } else if !Queued(ss[i]) || Conflict(ss[i], ss) {
      AdmitApart(ss, i + 1, slots, admittedKb, limitKb, spawn);
    } else if limitKb != 0 && admittedKb + RESERVE_KB > limitKb {
    } else {
      SpawnKeepsApart(ss, i, spawn(i));
      AdmitApart(ss[i := Spawned(ss[i], spawn(i))], i + 1, slots - 1,
                 admittedKb + (if spawn(i) >= 0 then RESERVE_KB else 0), limitKb, spawn);
    }
  }

  lemma {:induction false} OneMoreReserved(n: nat)
    ensures Reserved(0) == 0 && Reserved(n + 1) == Reserved(n) + RESERVE_KB
  {
  }

  /** The round launched at most as many as it had slots for, and each is paid for. */
  predicate PaidFor(ss: seq<Shard>, slots: nat, admittedKb: nat, limitKb: nat, r: Admission) {
    && ActiveCount(r.shards) == ActiveCount(ss) + r.launched && r.launched <= slots
    && Estimate(r.shards) == Estimate(ss) + Reserved(r.launched)
    && (limitKb != 0 && r.launched > 0 ==> admittedKb + Reserved(r.launched) <= limitKb)
  }

  lemma {:induction false} PaidBefore(
      ss: seq<Shard>, i: nat, pid: int, slots: nat, admittedKb: nat, limitKb: nat, r: Admission)
    requires i < |ss| && Queued(ss[i]) && Unborn(ss[i]) && slots > 0
    requires limitKb != 0 ==> admittedKb + RESERVE_KB <= limitKb
    requires PaidFor(ss[i := Spawned(ss[i], pid)], slots - 1,
                     admittedKb + (if pid >= 0 then RESERVE_KB else 0), limitKb, r)
    ensures PaidFor(ss, slots, admittedKb, limitKb, r.(launched := r.launched + if pid >= 0 then 1 else 0))
  {
    Updated(ss, i, Spawned(ss[i], pid));
    OneMoreReserved(r.launched);
  }

  lemma {:induction false} PaidNone(ss: seq<Shard>, slots: nat, admittedKb: nat, limitKb: nat)
    ensures PaidFor(ss, slots, admittedKb, limitKb, Admission(ss, 0))
  {
    OneMoreReserved(0);
  }

  lemma {:induction false} SpawnUnspoilt(ss: seq<Shard>, i: nat, pid: int)
    requires i < |ss| && Unspoilt(ss)
    ensures Unborn(ss[i]) && Unspoilt(ss[i := Spawned(ss[i], pid)])
  {
  }

  lemma {:induction false} AdmitPaid(
      ss: seq<Shard>, i: nat, slots: nat, admittedKb: nat, limitKb: nat, spawn: nat -> int)
    requires i <= |ss| && Unspoilt(ss)
    ensures PaidFor(ss, slots, admittedKb, limitKb, Admit(ss, i, slots, admittedKb, limitKb, spawn))
    decreases |ss| - i
  {
    if i == |ss| || slots == 0 {
      PaidNone(ss, slots, admittedKb, limitKb);
    } else if !Queued(ss[i]) || Conflict(ss[i], ss) {
      AdmitPaid(ss, i + 1, slots, admittedKb, limitKb, spawn);
    } else if limitKb != 0 && admittedKb + RESERVE_KB > limitKb {
      PaidNone(ss, slots, admittedKb, limitKb);
    } else {
      var next := ss[i := Spawned(ss[i], spawn(i))];
      var kb := admittedKb + (if spawn(i) >= 0 then RESERVE_KB else 0);
      SpawnUnspoilt(ss, i, spawn(i));
      AdmitPaid(next, i + 1, slots - 1, kb, limitKb, spawn);
      PaidBefore(ss, i, spawn(i), slots, admittedKb, limitKb, Admit(next, i + 1, slots - 1, kb, limitKb, spawn));
    }
  }

  /** A round changes nothing but queued shards at or after its position, which it launches. */
  lemma {:induction false} AdmitLaunches(
      ss: seq<Shard>, i: nat, slots: nat, admittedKb: nat, limitKb: nat, spawn: nat -> int, j: nat)
    requires i <= |ss| && j < |ss|
    ensures var after := Admit(ss, i, slots, admittedKb, limitKb, spawn).shards[j];
      after == ss[j] || (i <= j && Queued(ss[j]) && after == Spawned(ss[j], spawn(j)))
    decreases |ss| - i
  {
    if i == |ss| || slots == 0 {
    } else if !Queued(ss[i]) || Conflict(ss[i], ss) {
      AdmitLaunches(ss, i + 1, slots, admittedKb, limitKb, spawn, j);
    } else if limitKb != 0 && admittedKb + RESERVE_KB > limitKb {
    } else {
      AdmitLaunches(ss[i := Spawned(ss[i], spawn(i))], i + 1, slots - 1,
                    admittedKb + (if spawn(i) >= 0 then RESERVE_KB else 0), limitKb, spawn, j);
    }
  }

  lemma {:induction false} ConflictStays(ss: seq<Shard>, after: seq<Shard>, candidate: Shard)
    requires |after| == |ss| && Conflict(candidate, ss)
    requires forall j :: 0 <= j < |ss| && Live(ss[j]) ==> after[j] == ss[j]
    ensures Conflict(candidate, after)
  {
    var j :| 0 <= j < |ss| && LiveConflict(candidate, ss[j]);
    assert after[j] == ss[j];
    assert LiveConflict(candidate, after[j]);
  }

  /** A shard passed over because of a conflict is still in conflict when the round ends. */
  lemma {:induction false} PassedOver(
      ss: seq<Shard>, i: nat, slots: nat, admittedKb: nat, limitKb: nat, spawn: nat -> int)
    requires i < |ss| && Queued(ss[i]) && Conflict(ss[i], ss)
    ensures var after := Admit(ss, i + 1, slots, admittedKb, limitKb, spawn).shards;
      after[i] == ss[i] && Conflict(after[i], after)
  {
    var after := Admit(ss, i + 1, slots, admittedKb, limitKb, spawn).shards;
    forall k | 0 <= k < |ss| && (k == i || Live(ss[k]))
      ensures after[k] == ss[k]
    {
      AdmitLaunches(ss, i + 1, slots, admittedKb, limitKb, spawn, k);
    }
    ConflictStays(ss, after, ss[i]);
  }

  /** One more reserve on top of `kb` is over the limit. */
  predicate OverMemory(kb: nat, limitKb: nat) { limitKb != 0 && kb + RESERVE_KB > limitKb }

  /** Shard j is not left in the queue by this round from ss, or the slots were used up, or memory is
      short for one more shard, or j competes with a live shard for a session. */
  predicate LeftForCause(ss: seq<Shard>, slots: nat, admittedKb: nat, limitKb: nat, r: Admission, j: nat)
    requires j < |r.shards|
  {
    QueuedCount(r.shards) + slots > QueuedCount(ss) && Queued(r.shards[j]) ==>
      Conflict(r.shards[j], r.shards) || OverMemory(admittedKb + Reserved(r.launched), limitKb)
  }

  lemma {:induction false} CauseBefore(
      ss: seq<Shard>, i: nat, pid: int, slots: nat, admittedKb: nat, limitKb: nat, r: Admission, j: nat)
    requires i < |ss| && Queued(ss[i]) && j < |r.shards| && slots > 0
    requires LeftForCause(ss[i := Spawned(ss[i], pid)], slots - 1,
                          admittedKb + (if pid >= 0 then RESERVE_KB else 0), limitKb, r, j)
    ensures LeftForCause(ss, slots, admittedKb, limitKb, r.(launched := r.launched + if pid >= 0 then 1 else 0), j)
  {
    Updated(ss, i, Spawned(ss[i], pid));
    OneMoreReserved(r.launched);
  }

  /** A round leaves no shard in the queue without a cause. */
  lemma {:induction false} AdmitIsGreedy(
      ss: seq<Shard>, i: nat, slots: nat, admittedKb: nat, limitKb: nat, spawn: nat -> int, j: nat)
    requires i <= j < |ss|
    ensures LeftForCause(ss, slots, admittedKb, limitKb, Admit(ss, i, slots, admittedKb, limitKb, spawn), j)
    decreases |ss| - i
  {
    OneMoreReserved(0);
    if slots == 0 {
      assert Admit(ss, i, slots, admittedKb, limitKb, spawn).shards == ss;
    } else if !Queued(ss[i]) || Conflict(ss[i], ss) {
      if i < j {
        AdmitIsGreedy(ss, i + 1, slots, admittedKb, limitKb, spawn, j);
      } else if Queued(ss[i]) {
        PassedOver(ss, i, slots, admittedKb, limitKb, spawn);
      } else {
        AdmitLaunches(ss, i + 1, slots, admittedKb, limitKb, spawn, i);
      }
    } else if !OverMemory(admittedKb, limitKb) {
      var next := ss[i := Spawned(ss[i], spawn(i))];
      var kb := admittedKb + (if spawn(i) >= 0 then RESERVE_KB else 0);
      if i < j {
        AdmitIsGreedy(next, i + 1, slots - 1, kb, limitKb, spawn, j);
      } else {
        AdmitLaunches(next, i + 1, slots - 1, kb, limitKb, spawn, i);
      }
      CauseBefore(ss, i, spawn(i), slots, admittedKb, limitKb, Admit(next, i + 1, slots - 1, kb, limitKb, spawn), j);
    }
  }

  /** A shard stays in the queue after a start only if the start tried as many shards as it had slots
      for, or one more shard does not fit the memory limit beside the active ones, or the shard
      competes with a live one for a session. */
  lemma {:induction false} StartIsGreedy(ss: seq<Shard>, limits: Limits, spawn: nat -> int, j: nat)
    requires j < |ss| && Unspoilt(ss)
    ensures var after := Start(ss, limits, spawn).shards;
      Queued(after[j]) ==>
        || QueuedCount(ss) - QueuedCount(after) >= Slots(ss, limits)
        || OverMemory(Estimate(after), limits.memoryLimitKb) || Conflict(after[j], after)
  {
    AdmitPaid(ss, 0, Slots(ss, limits), Estimate(ss), limits.memoryLimitKb, spawn);
    AdmitIsGreedy(ss, 0, Slots(ss, limits), Estimate(ss), limits.memoryLimitKb, spawn, j);
  }

  // ---------------------------------------------------------------------------------------------
  // The other steps.

  /** `gone`: the process has ended. */
  function Reaped(s: Shard, gone: bool): Shard {
    if s.pid <= 0 || s.exited || !gone then s else s.(exited := true, rssKb := 0)
  }

  /** The reading is None when the process table has no entry for the process. */
  function Refreshed(s: Shard, hasReading: bool, rssKb: nat): Shard {
    if s.exited || s.pid <= 0 || !hasReading then s else s.(rssKb := rssKb)
  }

  function Stopped(s: Shard): Shard {
    if s.exited || s.stopping then s
    else if !s.launched then s.(stopping := true, exited := true)
    else if s.pid <= 0 then s
    else s.(stopping := true)
  }

  function KillSent(s: Shard): Shard {
    if s.exited || !s.launched || s.pid <= 0 then s else s.(stopping := true, exited := true, rssKb := 0)
  }

  datatype Event =
    | Starting(spawn: nat -> int)
    | Reaping(index: nat, gone: bool)
    | Reading(index: nat, hasReading: bool, rssKb: nat)
    | Stopping(index: nat)
    | Killing(index: nat)

  function Step(ss: seq<Shard>, limits: Limits, e: Event): (after: seq<Shard>)
    ensures |after| == |ss|
  {
    match e
    case Starting(spawn) => Start(ss, limits, spawn).shards
    case Reaping(i, gone) => if i < |ss| then ss[i := Reaped(ss[i], gone)] else ss
    case Reading(i, has, kb) => if i < |ss| then ss[i := Refreshed(ss[i], has, kb)] else ss
    case Stopping(i) => if i < |ss| then ss[i := Stopped(ss[i])] else ss
    case Killing(i) => if i < |ss| then ss[i := KillSent(ss[i])] else ss
  }

  /** Reaping, reading, stopping and killing bring nothing to life and change no session keys. */
  predicate Winds(s: Shard, after: Shard) {
    after.keys == s.keys && (Live(after) ==> Live(s)) && (Active(after) ==> Active(s)) && (Unborn(s) ==> Unborn(after))
  }

  lemma {:induction false} WindingKeepsSafe(ss: seq<Shard>, limits: Limits, i: nat, s: Shard)
    requires i < |ss| && Safe(ss, limits) && Winds(ss[i], s)
    ensures Safe(ss[i := s], limits)
  {
    Updated(ss, i, s);
    var after := ss[i := s];
    forall a, b | 0 <= a < |after| && 0 <= b < |after| && a != b && Live(after[a])
      ensures !LiveConflict(after[a], after[b])
    {
      assert !LiveConflict(ss[a], ss[b]);
      assert Share(after[a], after[b]) ==> Share(ss[a], ss[b]);
    }
  }

  lemma {:induction false} StartKeepsSafe(ss: seq<Shard>, limits: Limits, spawn: nat -> int)
    requires Safe(ss, limits)
    ensures var r := Start(ss, limits, spawn);
      && Safe(r.shards, limits)
      && (r.launched > 0 && limits.memoryLimitKb != 0 ==> Estimate(r.shards) <= limits.memoryLimitKb)
      && (limits.gradual ==> r.launched <= 1)
  {
    AdmitApart(ss, 0, Slots(ss, limits), Estimate(ss), limits.memoryLimitKb, spawn);
    AdmitPaid(ss, 0, Slots(ss, limits), Estimate(ss), limits.memoryLimitKb, spawn);
  }

  lemma {:induction false} StepKeepsSafe(ss: seq<Shard>, limits: Limits, e: Event)
    requires Safe(ss, limits)
    ensures Safe(Step(ss, limits, e), limits)
  {
    match e
    case Starting(spawn) => StartKeepsSafe(ss, limits, spawn);
    case Reaping(i, gone) => if i < |ss| { assert Unborn(ss[i]); WindingKeepsSafe(ss, limits, i, Reaped(ss[i], gone)); }
    case Reading(i, has, kb) =>
      if i < |ss| { assert Unborn(ss[i]); WindingKeepsSafe(ss, limits, i, Refreshed(ss[i], has, kb)); }
    case Stopping(i) => if i < |ss| { assert Unborn(ss[i]); WindingKeepsSafe(ss, limits, i, Stopped(ss[i])); }
    case Killing(i) => if i < |ss| { assert Unborn(ss[i]); WindingKeepsSafe(ss, limits, i, KillSent(ss[i])); }
  }

  function After(ss: seq<Shard>, limits: Limits, events: seq<Event>): seq<Shard> {
    if events == [] then ss else Step(After(ss, limits, events[..|events| - 1]), limits, events[|events| - 1])
  }

  predicate Fresh(ss: seq<Shard>) {
    forall i :: 0 <= i < |ss| ==> Queued(ss[i]) && ss[i].pid == -1 && ss[i].rssKb == 0
  }

  lemma {:induction false} NoneActive(ss: seq<Shard>)
    requires forall i :: 0 <= i < |ss| ==> !Active(ss[i])
    ensures ActiveCount(ss) == 0
  {
    if ss != [] { NoneActive(ss[..|ss| - 1]); }
  }

  /** In every state the supervisor can reach, the number of active shards is within its limit and
      no two live shards hold one exclusive session. */
  lemma {:induction false} SupervisorSafe(ss: seq<Shard>, limits: Limits, events: seq<Event>)
    requires Fresh(ss)
    ensures Safe(After(ss, limits, events), limits)
  {
    if events == [] {
      NoneActive(ss);
    } else {
      SupervisorSafe(ss, limits, events[..|events| - 1]);
      StepKeepsSafe(After(ss, limits, events[..|events| - 1]), limits, events[|events| - 1]);
    }
  }

  /** Whenever a round launches anything under a memory limit, all active shards, the new ones at
      their reserve, fit it. */
  lemma {:induction false} LaunchesFitMemory(ss: seq<Shard>, limits: Limits, events: seq<Event>, spawn: nat -> int)
    requires Fresh(ss) && limits.memoryLimitKb != 0
    ensures var r := Start(After(ss, limits, events), limits, spawn);
      r.launched > 0 ==> Estimate(r.shards) <= limits.memoryLimitKb
  {
    SupervisorSafe(ss, limits, events);
    StartKeepsSafe(After(ss, limits, events), limits, spawn);
  }

  // ---------------------------------------------------------------------------------------------
  // The supervisor object.

  method SessionConflict(candidate: Shard, ss: seq<Shard>) returns (c: bool)
    ensures c == Conflict(candidate, ss)
  {
    if candidate.keys == [] { return false; }
    for j := 0 to |ss|
      invariant forall n :: 0 <= n < j ==> !LiveConflict(candidate, ss[n])
    {
      if !ss[j].launched || ss[j].exited || ss[j].stopping { continue; }
      for k := 0 to |candidate.keys|
        invariant forall n :: 0 <= n < k ==> candidate.keys[n] !in ss[j].keys
      {
        if candidate.keys[k] in ss[j].keys {
          assert LiveConflict(candidate, ss[j]);
          return true;
        }
      }
    }
    c := false;
  }

  method SurveyActive(ss: seq<Shard>) returns (active: nat, admittedKb: nat)
    ensures active == ActiveCount(ss) && admittedKb == Estimate(ss)
  {
    active, admittedKb := 0, 0;
    for i := 0 to |ss|
      invariant active == ActiveCount(ss[..i]) && admittedKb == Estimate(ss[..i])
    {
      assert ss[..i + 1][..i] == ss[..i];
      if ss[i].launched && !ss[i].exited {
        active := active + 1;
        admittedKb := admittedKb + (if ss[i].rssKb != 0 then ss[i].rssKb else RESERVE_KB);
      }
    }
    assert ss[..|ss|] == ss;
  }

  class Supervisor {
    var shards: seq<Shard>
    const limits: Limits

    constructor (ss: seq<Shard>, limits: Limits)
      requires Fresh(ss)
      ensures shards == ss && this.limits == limits && Safe(shards, limits)
    {
      shards := ss;
      this.limits := limits;
      NoneActive(ss);
    }

    method StartQueued(spawn: nat -> int) returns (launched: nat)
      requires Safe(shards, limits)
      modifies this
      ensures Admission(shards, launched) == Start(old(shards), limits, spawn)
      ensures Safe(shards, limits)
      ensures launched > 0 && limits.memoryLimitKb != 0 ==> Estimate(shards) <= limits.memoryLimitKb
    {
      var active: nat, admittedKb: nat := SurveyActive(shards);
      var slots: int := Max(0, limits.maxActive - active);
      if limits.gradual { slots := Min(slots, 1); }
      StartKeepsSafe(shards, limits, spawn);
      ghost var whole := Start(shards, limits, spawn);
      launched := 0;
      var i := 0;
      while i < |shards| && slots > 0
        invariant i <= |shards| && 0 <= slots
        invariant whole.shards == Admit(shards, i, slots, admittedKb, limits.memoryLimitKb, spawn).shards
        invariant whole.launched == launched + Admit(shards, i, slots, admittedKb, limits.memoryLimitKb, spawn).launched
        decreases |shards| - i
      {
        var s := shards[i];
        var conflict := SessionConflict(s, shards);
        if s.launched || s.exited || s.stopping || conflict {
          i := i + 1;
          continue;
        }
        if limits.memoryLimitKb != 0 && admittedKb + RESERVE_KB > limits.memoryLimitKb { break; }
        var pid := spawn(i);
        if pid < 0 {
          shards := shards[i := s.(launched := true, pid := pid, exited := true)];
        } else {
          shards := shards[i := s.(launched := true, pid := pid)];
          launched := launched + 1;
          admittedKb := admittedKb + RESERVE_KB;
        }
        slots := slots - 1;
        i := i + 1;
      }
    }

    method Reap(i: nat, gone: bool)
      requires i < |shards| && Safe(shards, limits)
      modifies this
      ensures shards == Step(old(shards), limits, Reaping(i, gone)) && Safe(shards, limits)
      ensures if gone && shards[i].pid > 0 then !Active(shards[i]) else shards == old(shards)
    {
      StepKeepsSafe(shards, limits, Reaping(i, gone));
      if shards[i].pid <= 0 || shards[i].exited { return; }
      if gone { shards := shards[i := shards[i].(exited := true, rssKb := 0)]; }
    }

    method Refresh(i: nat, hasReading: bool, rssKb: nat)
      requires i < |shards| && Safe(shards, limits)
      modifies this
      ensures shards == Step(old(shards), limits, Reading(i, hasReading, rssKb)) && Safe(shards, limits)
      ensures hasReading && rssKb != 0 && Active(shards[i]) && shards[i].pid > 0 ==> Charge(shards[i]) == rssKb
    {
      StepKeepsSafe(shards, limits, Reading(i, hasReading, rssKb));
      if shards[i].exited || shards[i].pid <= 0 { return; }
      if hasReading { shards := shards[i := shards[i].(rssKb := rssKb)]; }
    }

    method Stop(i: nat)
      requires i < |shards| && Safe(shards, limits)
      modifies this
      ensures shards == Step(old(shards), limits, Stopping(i)) && Safe(shards, limits)
      ensures !Queued(shards[i]) && (Live(shards[i]) ==> shards[i].pid <= 0)
    {
      StepKeepsSafe(shards, limits, Stopping(i));
      var s := shards[i];
      if s.exited || s.stopping { return; }
      if !s.launched {
        shards := shards[i := s.(stopping := true, exited := true)];
        return;
      }
      if s.pid <= 0 { return; }
      shards := shards[i := s.(stopping := true)];
    }

    /** After a stop request nothing is queued, and whatever still runs is stopping. */
    method StopAll()
      requires Safe(shards, limits)
      modifies this
      ensures Safe(shards, limits) && |shards| == |old(shards)|
      ensures forall i :: 0 <= i < |shards| ==> shards[i] == Stopped(old(shards)[i])
      ensures forall i :: 0 <= i < |shards| ==> !Queued(shards[i]) && (Live(shards[i]) ==> shards[i].pid <= 0)
    {
      for i := 0 to |shards|
        invariant |shards| == |old(shards)| && Safe(shards, limits)
        invariant forall n :: 0 <= n < i ==> shards[n] == Stopped(old(shards)[n])
        invariant forall n :: i <= n < |shards| ==> shards[n] == old(shards)[n]
      {
        Stop(i);
      }
    }

    method MarkKillSent(i: nat)
      requires i < |shards| && Safe(shards, limits)
      modifies this
      ensures shards == Step(old(shards), limits, Killing(i)) && Safe(shards, limits)
      ensures shards[i].pid > 0 ==> !Active(shards[i])
    {
      StepKeepsSafe(shards, limits, Killing(i));
      if shards[i].exited || !shards[i].launched || shards[i].pid <= 0 { return; }
      shards := shards[i := shards[i].(stopping := true, exited := true, rssKb := 0)];
    }
  }
}
