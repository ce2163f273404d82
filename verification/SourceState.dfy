/** The per-source lifecycle and health automaton that writer and readers advance record by record
    (src/Runtime/src/Corpus/BinaryMarketSourceState.hpp). */
module SourceState {
  import opened Records

  /** `administrative` and `recoveryPending` are resident overlays, never stored. */
  datatype State = State(
    metadata: Source, generation: u64, available: set<Channel>, directoryRevision: u64,
    unhealthy: set<Channel>, administrative: set<Channel>, recoveryPending: set<Channel>)

  function Initial(s: Source): State {
    State(s, if s.initiallyPresent then s.initialGeneration else 0,
          if s.initiallyPresent then s.available else {}, 0, {}, {}, {})
  }

  predicate SameIdentity(a: Source, b: Source) { a.sourceId == b.sourceId && a.identity == b.identity }

  predicate SameRules(a: Source, b: Source) { a.rules == b.rules }

  /** Market data is admitted only on an available channel at the promised compatibility. */
  predicate Admits(s: State, r: Record) {
    && ChannelBit(r.channel) != {} && ChannelBit(r.channel) <= s.available
    && CompatibilityOf(s.metadata, r.channel) != Unavailable
    && (Compatible(r) ==> CompatibilityOf(s.metadata, r.channel) == ExactTraderReplay)
  }

  /** A compatible depth row that proves the book usable again. */
  predicate FreshDepth(r: Record, rebase: bool) {
    && r.channel == Depth && Compatible(r) && DepthCoverage !in r.flags && r.payload.DepthRow?
    && (r.payload.chunk.state == Healthy || r.payload.chunk.state == Partial || rebase)
  }

  function AdvanceMarket(r: Record, s: State, rebase: bool): Option<State>
    requires r.channel != SourceLifecycle
  {
    if s.generation != r.sourceGeneration then None
    else if IsSourceHealth(r) then Some(s.(unhealthy := s.unhealthy + ChannelBit(r.channel)))
    else if !Admits(s, r) then None
    else if !Compatible(r) then Some(s)
    else if r.channel != Depth then Some(s.(unhealthy := s.unhealthy - ChannelBit(r.channel)))
    else if FreshDepth(r, rebase) && Depth !in s.administrative then
      Some(s.(unhealthy := s.unhealthy - {Depth}, recoveryPending := s.recoveryPending - {Depth}))
    else Some(s)
  }

  /** A native lane-health marker: it moves the masks and the generation, never the membership. */
  function AdvanceNative(r: Record, p: Lifecycle, s: State): Option<State>
    requires p.affected.Some?
  {
    if || p.kind != DirectoryChanged || !SameRules(s.metadata, p.source)
       || r.sourceGeneration < s.generation
       || (r.sourceGeneration != s.generation && p.cause != NativeRecovered)
       || p.before != p.after then None
    else
      var c := p.affected.value;
      var t := s.(generation := r.sourceGeneration);
      if Unhealthy(p.cause) then
        if c == Depth then
          Some(t.(unhealthy := s.unhealthy + ChannelBit(c),
                  administrative := s.administrative + ChannelBit(c),
                  recoveryPending := s.recoveryPending - ChannelBit(c)))
        else Some(t.(unhealthy := s.unhealthy + ChannelBit(c)))
      else if p.cause == NativeRecovered then
        if c == Depth then
          Some(t.(administrative := s.administrative - ChannelBit(c),
                  recoveryPending := s.recoveryPending + ChannelBit(c),
                  unhealthy := s.unhealthy + ChannelBit(c)))
        else Some(t.(unhealthy := s.unhealthy - ChannelBit(c)))
      else Some(t)
  }

  predicate KindAllowed(r: Record, p: Lifecycle, s: State) {
    match p.kind
    case Added => p.after != {} && p.after - p.before != {} && p.before <= p.after
    case Removed =>
      r.sourceGeneration == s.generation && p.before != {} && p.before - p.after != {} && p.after <= p.before
    case Readded => p.after != {} && s.generation != 0 && p.after - p.before != {} && p.before <= p.after
    case DirectoryChanged => p.before == p.after && s.generation != 0
  }

  /** A subscription boundary: the only step that changes membership. */
  function AdvanceSubscription(r: Record, p: Lifecycle, s: State): Option<State> {
    if || p.previousGeneration != s.generation || p.before != s.available
       || r.sourceGeneration < s.generation || p.directoryRevision <= s.directoryRevision
       || !KindAllowed(r, p, s) then None
    else
      var changed := (p.before - p.after) + (p.after - p.before);
      var t := if r.sourceGeneration != s.generation
               then s.(unhealthy := {}, administrative := {}, recoveryPending := {})
               else s.(unhealthy := s.unhealthy - changed, administrative := s.administrative - changed,
                       recoveryPending := s.recoveryPending - changed);
      Some(t.(metadata := p.source, generation := r.sourceGeneration, available := p.after,
              directoryRevision := p.directoryRevision))
  }

  /** One record against one source; None is a refusal and leaves the source where it was. */
  function Advance(r: Record, s: State, rebase: bool): Option<State>
    requires ValidRecord(r)
  {
    if r.channel != SourceLifecycle then AdvanceMarket(r, s, rebase)
    else
      var p := r.payload.lifecycle;
      if !SameIdentity(s.metadata, p.source) then None
      else if p.cause != Subscription then AdvanceNative(r, p, s)
      else AdvanceSubscription(r, p, s)
  }

  ghost predicate AllValid(rs: seq<Record>) { forall i :: 0 <= i < |rs| ==> ValidRecord(rs[i]) }

  /** A whole run; `rebase` is the flag a caller computes for each record. */
  ghost function Replay(s: State, rs: seq<Record>, rebase: Record -> bool): Option<State>
    requires AllValid(rs)
    decreases |rs|
  {
    if rs == [] then Some(s)
    else
      var t := Advance(rs[0], s, rebase(rs[0]));
      if t.None? then None else Replay(t.value, rs[1..], rebase)
  }

  /** The writer's choice of flag. */
  predicate NeverRebase(r: Record) { false }

  lemma {:induction false} ReplayPrefix(s: State, rs: seq<Record>, n: nat, rebase: Record -> bool)
    requires AllValid(rs) && n <= |rs| && Replay(s, rs, rebase).Some?
    ensures Replay(s, rs[..n], rebase).Some?
    decreases n
  {
    if n > 0 {
      assert rs[..n][0] == rs[0] && rs[..n][1..] == rs[1..][..n - 1];
      ReplayPrefix(Advance(rs[0], s, rebase(rs[0])).value, rs[1..], n - 1, rebase);
    }
  }

  lemma {:induction false} ReplayAppend(s: State, rs: seq<Record>, r: Record, rebase: Record -> bool)
    requires AllValid(rs) && ValidRecord(r)
    ensures AllValid(rs + [r])
    ensures Replay(s, rs + [r], rebase) ==
            if Replay(s, rs, rebase).None? then None else Advance(r, Replay(s, rs, rebase).value, rebase(r))
    decreases |rs|
  {
    if rs == [] {
      assert rs + [r] == [r] && [r][1..] == [];
    } else {
      assert (rs + [r])[1..] == rs[1..] + [r];
      if Advance(rs[0], s, rebase(rs[0])).Some? {
        ReplayAppend(Advance(rs[0], s, rebase(rs[0])).value, rs[1..], r, rebase);
      }
    }
  }

  // --- Health over whole runs ---------------------------------------------------------------

  ghost predicate Masks(s: State) {
    && s.administrative <= {Depth}
    && s.recoveryPending <= {Depth}
    && s.administrative !! s.recoveryPending
    && s.administrative + s.recoveryPending <= s.unhealthy
  }

  lemma {:induction false} AdvanceKeepsMasks(r: Record, s: State, rebase: bool)
    requires ValidRecord(r) && Masks(s) && Advance(r, s, rebase).Some?
    ensures Masks(Advance(r, s, rebase).value)
    ensures s.generation <= Advance(r, s, rebase).value.generation
    ensures s.directoryRevision <= Advance(r, s, rebase).value.directoryRevision
  {
  }

  /** In every accepted run the overlay masks stay disjoint, Depth-only and inside the unhealthy
      mask, and neither the generation nor the directory revision ever goes back. */
  lemma {:induction false} HealthOverRuns(s: State, rs: seq<Record>, rebase: Record -> bool)
    requires AllValid(rs) && Masks(s) && Replay(s, rs, rebase).Some?
    ensures Masks(Replay(s, rs, rebase).value)
    ensures s.generation <= Replay(s, rs, rebase).value.generation
    ensures s.directoryRevision <= Replay(s, rs, rebase).value.directoryRevision
    decreases |rs|
  {
    if rs != [] {
      AdvanceKeepsMasks(rs[0], s, rebase(rs[0]));
      HealthOverRuns(Advance(rs[0], s, rebase(rs[0])).value, rs[1..], rebase);
    }
  }

  /** So they do in every run of a registered source. */
  lemma {:induction false} HealthFromStart(source: Source, rs: seq<Record>, rebase: Record -> bool)
    requires AllValid(rs) && Replay(Initial(source), rs, rebase).Some?
    ensures Masks(Replay(Initial(source), rs, rebase).value)
    ensures Initial(source).generation <= Replay(Initial(source), rs, rebase).value.generation
  {
    HealthOverRuns(Initial(source), rs, rebase);
  }

  ghost predicate IsSubscription(r: Record) {
    r.payload.LifecycleRow? && r.channel == SourceLifecycle && r.payload.lifecycle.cause == Subscription
  }

  ghost predicate DepthMarker(r: Record) {
    && r.payload.LifecycleRow? && r.channel == SourceLifecycle
    && r.payload.lifecycle.affected == Some(Depth)
  }

  ghost predicate RecoveryMarker(r: Record) {
    DepthMarker(r) && r.payload.lifecycle.cause == NativeRecovered
  }

  ghost predicate DegradationMarker(r: Record) {
    DepthMarker(r) && Unhealthy(r.payload.lifecycle.cause)
  }

  /** The evidence of a recovery: a NativeRecovered marker at `i`, a fresh depth row at `j` after
      it, and no depth degradation in between. */
  ghost predicate Recovery(rs: seq<Record>, rebase: Record -> bool, i: int, j: int) {
    && 0 <= i < j < |rs|
    && RecoveryMarker(rs[i])
    && FreshDepth(rs[j], rebase(rs[j])) && !IsSourceHealth(rs[j])
    && (forall k :: i < k < j ==> !DegradationMarker(rs[k]))
  }

  ghost predicate FreshAfter(rs: seq<Record>, rebase: Record -> bool, j: int) {
    && 0 <= j < |rs|
    && FreshDepth(rs[j], rebase(rs[j])) && !IsSourceHealth(rs[j])
    && (forall k :: 0 <= k < j ==> !DegradationMarker(rs[k]))
  }

  lemma {:induction false} RecoveryShift(rs: seq<Record>, rebase: Record -> bool)
    requires rs != []
    requires exists i, j :: Recovery(rs[1..], rebase, i, j)
    ensures exists i, j :: Recovery(rs, rebase, i, j)
  {
    var i, j :| Recovery(rs[1..], rebase, i, j);
    assert rs[i + 1] == rs[1..][i] && rs[j + 1] == rs[1..][j];
    forall k | i + 1 < k < j + 1
      ensures !DegradationMarker(rs[k])
    {
      assert rs[k] == rs[1..][k - 1];
    }
    assert Recovery(rs, rebase, i + 1, j + 1);
  }

  lemma {:induction false} FreshShift(rs: seq<Record>, rebase: Record -> bool)
    requires rs != [] && !DegradationMarker(rs[0])
    requires exists j :: FreshAfter(rs[1..], rebase, j)
    ensures exists j :: FreshAfter(rs, rebase, j)
  {
    var j :| FreshAfter(rs[1..], rebase, j);
    assert rs[j + 1] == rs[1..][j];
    forall k | 0 <= k < j + 1
      ensures !DegradationMarker(rs[k])
    {
      if k > 0 { assert rs[k] == rs[1..][k - 1]; }
    }
    assert FreshAfter(rs, rebase, j + 1);
  }

  /** From the recovery marker on: only a fresh depth row ends the pending state, and a new
      degradation puts the source back under administration. */
  lemma {:induction false} PendingEndsFresh(s: State, rs: seq<Record>, rebase: Record -> bool)
    requires AllValid(rs) && Masks(s) && Replay(s, rs, rebase).Some?
    requires forall k :: 0 <= k < |rs| ==> !IsSubscription(rs[k])
    requires Depth in s.recoveryPending
    requires Depth !in Replay(s, rs, rebase).value.unhealthy
    ensures || (exists j :: FreshAfter(rs, rebase, j))
            || (exists i, j :: Recovery(rs, rebase, i, j))
    decreases |rs|
  {
    assert rs != [];
    var r := rs[0];
    var t := Advance(r, s, rebase(r)).value;
    AdvanceKeepsMasks(r, s, rebase(r));
    if Depth !in t.unhealthy {
      assert FreshAfter(rs, rebase, 0);
    } else if DegradationMarker(r) {
      assert Depth in t.administrative;
      AdministrationEndsInRecovery(t, rs[1..], rebase);
      RecoveryShift(rs, rebase);
    } else {
      PendingEndsFresh(t, rs[1..], rebase);
      if exists j :: FreshAfter(rs[1..], rebase, j) { FreshShift(rs, rebase); } else { RecoveryShift(rs, rebase); }
    }
  }

  /** Without a subscription boundary, a run that starts with Depth administratively degraded and
      ends with Depth healthy contains a NativeRecovered marker followed by a later compatible
      fresh Depth record, with no new degradation between them. */
  lemma {:induction false} AdministrationEndsInRecovery(s: State, rs: seq<Record>, rebase: Record -> bool)
    requires AllValid(rs) && Masks(s) && Replay(s, rs, rebase).Some?
    requires forall k :: 0 <= k < |rs| ==> !IsSubscription(rs[k])
    requires Depth in s.administrative
    requires Depth !in Replay(s, rs, rebase).value.unhealthy
    ensures exists i, j :: Recovery(rs, rebase, i, j)
    decreases |rs|
  {
    assert rs != [];
    var r := rs[0];
    var t := Advance(r, s, rebase(r)).value;
    AdvanceKeepsMasks(r, s, rebase(r));
    if RecoveryMarker(r) {
      assert Depth in t.recoveryPending;
      PendingEndsFresh(t, rs[1..], rebase);
      if exists j :: FreshAfter(rs[1..], rebase, j) {
        var j :| FreshAfter(rs[1..], rebase, j);
        assert rs[j + 1] == rs[1..][j];
        forall k | 0 < k < j + 1
          ensures !DegradationMarker(rs[k])
        {
          assert rs[k] == rs[1..][k - 1];
        }
        assert Recovery(rs, rebase, 0, j + 1);
      } else {
        RecoveryShift(rs, rebase);
      }
    } else {
      assert Depth in t.administrative;
      AdministrationEndsInRecovery(t, rs[1..], rebase);
      RecoveryShift(rs, rebase);
    }
  }

  // --- Writer and reader run the same automaton ---------------------------------------------

  /** Everything acceptance depends on agrees; the reader may only have cleared more health. */
  ghost predicate Simulates(writer: State, reader: State) {
    && writer.metadata == reader.metadata && writer.generation == reader.generation
    && writer.available == reader.available && writer.directoryRevision == reader.directoryRevision
    && writer.administrative == reader.administrative
    && reader.unhealthy <= writer.unhealthy
    && reader.recoveryPending <= writer.recoveryPending
  }

  lemma {:induction false} AdvanceSimulates(r: Record, w: State, d: State, rebase: bool)
    requires ValidRecord(r) && Simulates(w, d)
    ensures Advance(r, w, false).Some? == Advance(r, d, rebase).Some?
    ensures Advance(r, w, false).Some? ==> Simulates(Advance(r, w, false).value, Advance(r, d, rebase).value)
  {
  }

  /** The writer, which never computes the rebase flag, and a reader, which computes any flag it
      likes, accept exactly the same runs and end in simulating states. */
  lemma {:induction false} WriterReaderSimulation(w: State, d: State, rs: seq<Record>, rebase: Record -> bool)
    requires AllValid(rs) && Simulates(w, d)
    ensures Replay(w, rs, NeverRebase).Some? == Replay(d, rs, rebase).Some?
    ensures Replay(w, rs, NeverRebase).Some? ==>
              Simulates(Replay(w, rs, NeverRebase).value, Replay(d, rs, rebase).value)
    decreases |rs|
  {
    if rs != [] {
      AdvanceSimulates(rs[0], w, d, rebase(rs[0]));
      if Advance(rs[0], w, false).Some? {
        WriterReaderSimulation(Advance(rs[0], w, false).value, Advance(rs[0], d, rebase(rs[0])).value, rs[1..], rebase);
      }
    }
  }
}
