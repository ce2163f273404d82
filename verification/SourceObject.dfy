/** The resident state of a source, advanced in place
    (src/Runtime/src/Corpus/BinaryMarketSourceState.hpp, advanceBinaryMarketSourceState). */
module SourceObject {
  import opened Records
  import SS = SourceState

  class BinaryMarketSourceState {
    var metadata: Source
    var generation: u64
    var availableMask: set<Channel>
    var directoryRevision: u64
    var unhealthyMask: set<Channel>
    var administrativeUnhealthyMask: set<Channel>
    var recoveryPendingMask: set<Channel>

    ghost function Value(): SS.State
      reads this
    {
      SS.State(metadata, generation, availableMask, directoryRevision, unhealthyMask, administrativeUnhealthyMask,
               recoveryPendingMask)
    }

    constructor (source: Source)
      ensures Value() == SS.Initial(source)
    {
      metadata := source;
      generation := if source.initiallyPresent then source.initialGeneration else 0;
      availableMask := if source.initiallyPresent then source.available else {};
      directoryRevision, unhealthyMask, administrativeUnhealthyMask, recoveryPendingMask := 0, {}, {}, {};
    }

    /** A market data or health record. */
    method AdvanceMarket(r: Record, rebase: bool) returns (ok: bool)
      requires ValidRecord(r) && r.channel != SourceLifecycle
      modifies this`unhealthyMask, this`recoveryPendingMask
      ensures ok <==> SS.AdvanceMarket(r, old(Value()), rebase).Some?
      ensures Value() == if ok then SS.AdvanceMarket(r, old(Value()), rebase).value else old(Value())
    {
      var bit := ChannelBit(r.channel);
      if generation != r.sourceGeneration { return false; }
      if IsSourceHealth(r) {
        unhealthyMask := unhealthyMask + bit;
        return true;
      }
      var compatibility := CompatibilityOf(metadata, r.channel);
      ok := bit != {} && bit <= availableMask && compatibility != Unavailable &&
          (Compatible(r) ==> compatibility == ExactTraderReplay);
      if ok && Compatible(r) {
        if r.channel != Depth {
          unhealthyMask := unhealthyMask - bit;
        } else if SS.FreshDepth(r, rebase) && Depth !in administrativeUnhealthyMask {
          unhealthyMask := unhealthyMask - {Depth};
          recoveryPendingMask := recoveryPendingMask - {Depth};
        }
      }
    }

    /** A marker of native lane health. */
    method AdvanceNative(r: Record, p: Lifecycle) returns (ok: bool)
      requires p.affected.Some?
      modifies this`unhealthyMask, this`administrativeUnhealthyMask, this`recoveryPendingMask, this`generation
      ensures ok <==> SS.AdvanceNative(r, p, old(Value())).Some?
      ensures Value() == if ok then SS.AdvanceNative(r, p, old(Value())).value else old(Value())
    {
      if p.kind != DirectoryChanged || !SS.SameRules(metadata, p.source) { return false; }
      if r.sourceGeneration < generation || (r.sourceGeneration != generation && p.cause != NativeRecovered) {
        return false;
      }
      if p.before != p.after { return false; }
      var bit := ChannelBit(p.affected.value);
      if Unhealthy(p.cause) {
        unhealthyMask := unhealthyMask + bit;
        if p.affected.value == Depth {
          administrativeUnhealthyMask := administrativeUnhealthyMask + bit;
          recoveryPendingMask := recoveryPendingMask - bit;
        }
      } else if p.cause == NativeRecovered {
        if p.affected.value == Depth {
          administrativeUnhealthyMask := administrativeUnhealthyMask - bit;
          recoveryPendingMask := recoveryPendingMask + bit;
          unhealthyMask := unhealthyMask + bit;
        } else {
          unhealthyMask := unhealthyMask - bit;
        }
      }
      generation := r.sourceGeneration;
      return true;
    }

    /** A subscription boundary. */
    method AdvanceSubscription(r: Record, p: Lifecycle) returns (ok: bool)
      modifies this
      ensures ok <==> SS.AdvanceSubscription(r, p, old(Value())).Some?
      ensures Value() == if ok then SS.AdvanceSubscription(r, p, old(Value())).value else old(Value())
    {
      if p.previousGeneration != generation || p.before != availableMask { return false; }
      if r.sourceGeneration < generation || p.directoryRevision <= directoryRevision { return false; }
      match p.kind {
        case Added =>
          if p.after == {} || p.after - p.before == {} || !(p.before <= p.after) { return false; }
        case Removed =>
          if r.sourceGeneration != generation || p.before == {} || p.before - p.after == {} || !(p.after <= p.before) {
            return false;
          }
        case Readded =>
          if p.after == {} || generation == 0 || p.after - p.before == {} || !(p.before <= p.after) { return false; }
        case DirectoryChanged =>
          if p.before != p.after || generation == 0 { return false; }
      }
      var changed := (p.before - p.after) + (p.after - p.before);
      if r.sourceGeneration != generation {
        unhealthyMask, administrativeUnhealthyMask, recoveryPendingMask := {}, {}, {};
      } else {
        unhealthyMask := unhealthyMask - changed;
        administrativeUnhealthyMask := administrativeUnhealthyMask - changed;
        recoveryPendingMask := recoveryPendingMask - changed;
      }
      metadata, generation := p.source, r.sourceGeneration;
      availableMask, directoryRevision := p.after, p.directoryRevision;
      return true;
    }

    /** One record; a refused one leaves the state as it was. */
    method Advance(r: Record, rebase: bool) returns (ok: bool)
      requires ValidRecord(r)
      modifies this
      ensures ok <==> SS.Advance(r, old(Value()), rebase).Some?
      ensures Value() == if ok then SS.Advance(r, old(Value()), rebase).value else old(Value())
      ensures old(SS.Masks(Value())) ==> SS.Masks(Value()) && old(generation) <= generation
    {
      if r.channel != SourceLifecycle {
        ok := AdvanceMarket(r, rebase);
      } else if !SS.SameIdentity(metadata, r.payload.lifecycle.source) {
        ok := false;
      } else if r.payload.lifecycle.cause != Subscription {
        ok := AdvanceNative(r, r.payload.lifecycle);
      } else {
        ok := AdvanceSubscription(r, r.payload.lifecycle);
      }
      if ok && old(SS.Masks(Value())) { SS.AdvanceKeepsMasks(r, old(Value()), rebase); }
    }
  }
}
