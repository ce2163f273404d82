/** What the state of a source says after any accepted run, told from the rows alone
    (src/Runtime/src/Corpus/BinaryMarketSourceState.hpp, advanceBinaryMarketSourceState). */
module SourceHealth {
  import opened Records
  import opened SourceState

  // --- What a row says about a channel ----------------------------------------------------------------

  /** A market or health row of the channel. */
  ghost predicate OnChannel(r: Record, ch: Channel) { r.channel == ch && ch != SourceLifecycle }

  /** A native marker about the channel. */
  ghost predicate MarkerOf(r: Record, ch: Channel) {
    && r.channel == SourceLifecycle && r.payload.LifecycleRow? && r.payload.lifecycle.cause != Subscription
    && r.payload.lifecycle.affected == Some(ch)
  }

  /** A subscription boundary that starts a new generation, or changes the channel's membership. */
  ghost predicate Resets(r: Record, ch: Channel) {
    && IsSubscription(r)
    && var p := r.payload.lifecycle;
       r.sourceGeneration != p.previousGeneration || ((ch in p.before) != (ch in p.after))
  }

  /** The row declares the channel unhealthy: a health row, or a marker of a degradation. */
  ghost predicate Degrades(r: Record, ch: Channel) {
    || (OnChannel(r, ch) && IsSourceHealth(r))
    || (MarkerOf(r, ch) && Unhealthy(r.payload.lifecycle.cause))
  }

  /** The row declares a channel other than Depth healthy: a compatible market row, a marker of a
      recovery, or a boundary. */
  ghost predicate Restores(r: Record, ch: Channel) {
    || (OnChannel(r, ch) && !IsSourceHealth(r) && Compatible(r))
    || (MarkerOf(r, ch) && r.payload.lifecycle.cause == NativeRecovered)
    || Resets(r, ch)
  }

  // --- The last word ----------------------------------------------------------------------------------

  /** Row k is the last one that sets or clears something. */
  ghost predicate LastWord(rs: seq<Record>, sets: Record -> bool, clears: Record -> bool, k: int) {
    0 <= k < |rs| && (sets(rs[k]) || clears(rs[k])) && forall j :: k < j < |rs| ==> !sets(rs[j]) && !clears(rs[j])
  }

  /** Something is set at the end of the rows: the last row that speaks about it sets it, or none
      speaks and it was set before. */
  ghost predicate Ends(rs: seq<Record>, sets: Record -> bool, clears: Record -> bool, before: bool) {
    || (exists k :: LastWord(rs, sets, clears, k) && sets(rs[k]))
    || (before && forall k :: 0 <= k < |rs| ==> !sets(rs[k]) && !clears(rs[k]))
  }

  lemma {:induction false} EndsMore(
      rs: seq<Record>, r: Record, sets: Record -> bool, clears: Record -> bool, before: bool)
    ensures Ends(rs + [r], sets, clears, before)
            <==> if sets(r) || clears(r) then sets(r) else Ends(rs, sets, clears, before)
  {
    var more := rs + [r];
    assert more[|rs|] == r && forall i :: 0 <= i < |rs| ==> more[i] == rs[i];
    if sets(r) || clears(r) {
      assert LastWord(more, sets, clears, |rs|);
      assert forall k :: LastWord(more, sets, clears, k) ==> k == |rs|;
    } else {
      forall k
        ensures LastWord(more, sets, clears, k) <==> LastWord(rs, sets, clears, k)
      {
        if LastWord(more, sets, clears, k) { assert forall j :: k < j < |rs| ==> more[j] == rs[j]; }
      }
      if forall k :: 0 <= k < |more| ==> !sets(more[k]) && !clears(more[k]) {
        assert forall k :: 0 <= k < |rs| ==> more[k] == rs[k];
      }
    }
  }

  lemma {:induction false} LastRow(s: State, rs: seq<Record>, rebase: Record -> bool)
    requires AllValid(rs) && rs != [] && Replay(s, rs, rebase).Some?
    ensures var m := |rs| - 1;
            && rs == rs[..m] + [rs[m]] && AllValid(rs[..m]) && Replay(s, rs[..m], rebase).Some?
            && Advance(rs[m], Replay(s, rs[..m], rebase).value, rebase(rs[m])) == Replay(s, rs, rebase)
  {
    var m := |rs| - 1;
    assert rs == rs[..m] + [rs[m]];
    ReplayAppend(s, rs[..m], rs[m], rebase);
  }

  // --- Channels other than Depth ------------------------------------------------------------------------

  ghost function Degrading(ch: Channel): Record -> bool { r => Degrades(r, ch) }

  ghost function Restoring(ch: Channel): Record -> bool { r => Restores(r, ch) }

  lemma {:induction false} AdvanceSays(r: Record, s: State, rebase: bool, ch: Channel)
    requires ValidRecord(r) && Advance(r, s, rebase).Some? && ch != Depth && ch != SourceLifecycle
    ensures var t := Advance(r, s, rebase).value;
            ch in t.unhealthy <==> Degrades(r, ch) || (!Restores(r, ch) && ch in s.unhealthy)
  {
  }

  /** In every accepted run a channel other than Depth is unhealthy at the end if and only if the last
      row that speaks about its health degrades it, or none speaks and it was unhealthy before. */
  lemma {:induction false} HealthIsLastWord(s: State, rs: seq<Record>, rebase: Record -> bool, ch: Channel)
    requires AllValid(rs) && Replay(s, rs, rebase).Some? && ch != Depth && ch != SourceLifecycle
    ensures ch in Replay(s, rs, rebase).value.unhealthy <==> Ends(rs, Degrading(ch), Restoring(ch), ch in s.unhealthy)
    decreases |rs|
  {
    if rs != [] {
      var m := |rs| - 1;
      LastRow(s, rs, rebase);
      HealthIsLastWord(s, rs[..m], rebase, ch);
      AdvanceSays(rs[m], Replay(s, rs[..m], rebase).value, rebase(rs[m]), ch);
      EndsMore(rs[..m], rs[m], Degrading(ch), Restoring(ch), ch in s.unhealthy);
    }
  }

  // --- Depth --------------------------------------------------------------------------------------------

  ghost predicate Administers(r: Record) { MarkerOf(r, Depth) && Unhealthy(r.payload.lifecycle.cause) }

  ghost predicate Recovers(r: Record) { MarkerOf(r, Depth) && r.payload.lifecycle.cause == NativeRecovered }

  /** A fresh compatible row of the book. */
  ghost predicate Freshens(r: Record, rebase: Record -> bool) { FreshDepth(r, rebase(r)) && !IsSourceHealth(r) }

  ghost function Administering(): Record -> bool { r => Administers(r) }

  ghost function Releasing(): Record -> bool { r => Recovers(r) || Resets(r, Depth) }

  ghost function Recovering(): Record -> bool { r => Recovers(r) }

  ghost function Settling(rebase: Record -> bool): Record -> bool {
    r => Administers(r) || Resets(r, Depth) || Freshens(r, rebase)
  }

  lemma {:induction false} AdvanceDepth(r: Record, s: State, rebase: Record -> bool)
    requires ValidRecord(r) && Masks(s) && Advance(r, s, rebase(r)).Some?
    ensures var t := Advance(r, s, rebase(r)).value;
            && (Depth in t.administrative <==>
                  Administers(r) || (!Recovers(r) && !Resets(r, Depth) && Depth in s.administrative))
            && (Depth in t.recoveryPending <==>
                  || Recovers(r)
                  || (!Administers(r) && !Resets(r, Depth) && !Freshens(r, rebase) && Depth in s.recoveryPending))
            && (Depth in t.unhealthy <==>
                  || Disturbs(r)
                  || (&& Depth in s.unhealthy && !Resets(r, Depth)
                      && !(Freshens(r, rebase) && Depth !in s.administrative)))
  {
  }

  /** In every accepted run Depth is under administration at the end if and only if the last marker or
      boundary that concerns it was a degradation, and awaits recovery if and only if the last row that
      bears on that is a recovery marker. */
  lemma {:induction false} DepthIsLastWord(s: State, rs: seq<Record>, rebase: Record -> bool)
    requires AllValid(rs) && Masks(s) && Replay(s, rs, rebase).Some?
    ensures var t := Replay(s, rs, rebase).value;
            && (Depth in t.administrative <==> Ends(rs, Administering(), Releasing(), Depth in s.administrative))
            && (Depth in t.recoveryPending <==> Ends(rs, Recovering(), Settling(rebase), Depth in s.recoveryPending))
    decreases |rs|
  {
    if rs != [] {
      var m := |rs| - 1;
      LastRow(s, rs, rebase);
      DepthIsLastWord(s, rs[..m], rebase);
      HealthOverRuns(s, rs[..m], rebase);
      AdvanceDepth(rs[m], Replay(s, rs[..m], rebase).value, rebase);
      EndsMore(rs[..m], rs[m], Administering(), Releasing(), Depth in s.administrative);
      EndsMore(rs[..m], rs[m], Recovering(), Settling(rebase), Depth in s.recoveryPending);
    }
  }

  /** The row makes Depth unhealthy: a health row, or either marker. */
  ghost predicate Disturbs(r: Record) {
    (OnChannel(r, Depth) && IsSourceHealth(r)) || Administers(r) || Recovers(r)
  }

  /** Row j makes Depth healthy: a boundary, or a fresh row that does not come under administration. */
  ghost predicate Heals(s: State, rs: seq<Record>, rebase: Record -> bool, j: int) {
    && 0 <= j < |rs|
    && (|| Resets(rs[j], Depth)
        || (Freshens(rs[j], rebase) && !Ends(rs[..j], Administering(), Releasing(), Depth in s.administrative)))
  }

  ghost predicate QuietFrom(rs: seq<Record>, j: int) { forall k :: 0 <= j <= k < |rs| ==> !Disturbs(rs[k]) }

  /** Depth was healed and not disturbed since, or was healthy and never disturbed. */
  ghost predicate EndsHealthy(s: State, rs: seq<Record>, rebase: Record -> bool) {
    || (exists j :: Heals(s, rs, rebase, j) && QuietFrom(rs, j + 1))
    || (Depth !in s.unhealthy && QuietFrom(rs, 0))
  }

  lemma {:induction false} HealsPrefix(s: State, rs: seq<Record>, r: Record, rebase: Record -> bool, j: int)
    requires 0 <= j < |rs|
    ensures Heals(s, rs + [r], rebase, j) <==> Heals(s, rs, rebase, j)
    ensures QuietFrom(rs + [r], j + 1) <==> QuietFrom(rs, j + 1) && !Disturbs(r)
  {
    var more := rs + [r];
    assert more[..j] == rs[..j] && more[j] == rs[j] && more[|rs|] == r;
    assert forall k :: 0 <= k < |rs| ==> more[k] == rs[k];
  }

  lemma {:induction false} QuietMore(rs: seq<Record>, r: Record)
    ensures QuietFrom(rs + [r], 0) <==> QuietFrom(rs, 0) && !Disturbs(r)
  {
    var more := rs + [r];
    assert more[|rs|] == r && forall k :: 0 <= k < |rs| ==> more[k] == rs[k];
  }

  lemma {:induction false} HealthyMore(s: State, rs: seq<Record>, r: Record, rebase: Record -> bool)
    requires !(Resets(r, Depth) && Disturbs(r)) && !(Freshens(r, rebase) && Disturbs(r))
    ensures EndsHealthy(s, rs + [r], rebase) <==>
            || Heals(s, rs + [r], rebase, |rs|)
            || (!Disturbs(r) && EndsHealthy(s, rs, rebase))
  {
    var more := rs + [r];
    assert more[|rs|] == r;
    QuietMore(rs, r);
    if Heals(s, more, rebase, |rs|) { assert QuietFrom(more, |rs| + 1); }
    if j :| Heals(s, rs, rebase, j) && QuietFrom(rs, j + 1) { HealsPrefix(s, rs, r, rebase, j); }
    if j :| Heals(s, more, rebase, j) && QuietFrom(more, j + 1) {
      if j < |rs| { HealsPrefix(s, rs, r, rebase, j); }
    }
  }

  /** In every accepted run Depth is healthy at the end if and only if a boundary or a fresh row outside
      administration healed it and nothing has disturbed it since, or it was healthy and nothing ever
      disturbed it.  In particular a recovery marker and an admitted fresh row behind it, with no
      degradation or health row after that marker, end healthy. */
  lemma {:induction false} DepthHealthExact(s: State, rs: seq<Record>, rebase: Record -> bool)
    requires AllValid(rs) && Masks(s) && Replay(s, rs, rebase).Some?
    ensures Depth !in Replay(s, rs, rebase).value.unhealthy <==> EndsHealthy(s, rs, rebase)
    decreases |rs|
  {
    if rs != [] {
      var m := |rs| - 1;
      LastRow(s, rs, rebase);
      var front := rs[..m];
      DepthHealthExact(s, front, rebase);
      DepthIsLastWord(s, front, rebase);
      HealthOverRuns(s, front, rebase);
      AdvanceDepth(rs[m], Replay(s, front, rebase).value, rebase);
      HealthyMore(s, front, rs[m], rebase);
    }
  }

  /** The converse of leaving administration: a recovery marker, later a fresh row, and behind the
      marker neither a degradation nor a health row nor another marker. */
  lemma {:induction false} RecoveryHeals(s: State, rs: seq<Record>, rebase: Record -> bool, i: nat, j: nat)
    requires AllValid(rs) && Masks(s) && Replay(s, rs, rebase).Some?
    requires i < j < |rs| && Recovers(rs[i]) && Freshens(rs[j], rebase) && QuietFrom(rs, i + 1)
    ensures Depth !in Replay(s, rs, rebase).value.unhealthy
  {
    var front := rs[..j];
    assert front[i] == rs[i] && forall k :: 0 <= k < j ==> front[k] == rs[k];
    assert Releasing()(front[i]) && forall k :: i < k < j ==> !Administering()(front[k]);
    assert Heals(s, rs, rebase, j) && QuietFrom(rs, j + 1);
    DepthHealthExact(s, rs, rebase);
  }

  // --- Membership ---------------------------------------------------------------------------------------

  lemma {:induction false} AdvanceMembers(r: Record, s: State, rebase: bool)
    requires ValidRecord(r) && Advance(r, s, rebase).Some?
    ensures var t := Advance(r, s, rebase).value;
            && t.generation == r.sourceGeneration
            && if IsSubscription(r)
               then var p := r.payload.lifecycle;
                 t.available == p.after && t.metadata == p.source && t.directoryRevision == p.directoryRevision
               else t.available == s.available && t.metadata == s.metadata && t.directoryRevision == s.directoryRevision
  {
  }

  /** What the last boundary left of membership, metadata and revision. */
  ghost function MembersAfter(s: State, rs: seq<Record>): State
    decreases |rs|
  {
    if rs == [] then s
    else
      var m := |rs| - 1;
      var t := MembersAfter(s, rs[..m]);
      if !IsSubscription(rs[m]) then t
      else
        var p := rs[m].payload.lifecycle;
        t.(available := p.after, metadata := p.source, directoryRevision := p.directoryRevision)
  }

  ghost function GenerationAfter(s: State, rs: seq<Record>): u64 {
    if rs == [] then s.generation else rs[|rs| - 1].sourceGeneration
  }

  /** In every accepted run membership, metadata and directory revision are those of the last boundary, and
      the generation is that of the last row. */
  lemma {:induction false} MembershipOverRuns(s: State, rs: seq<Record>, rebase: Record -> bool)
    requires AllValid(rs) && Replay(s, rs, rebase).Some?
    ensures var t, u := Replay(s, rs, rebase).value, MembersAfter(s, rs);
            && t.available == u.available && t.metadata == u.metadata && t.directoryRevision == u.directoryRevision
            && t.generation == GenerationAfter(s, rs)
    decreases |rs|
  {
    if rs != [] {
      var m := |rs| - 1;
      LastRow(s, rs, rebase);
      MembershipOverRuns(s, rs[..m], rebase);
      AdvanceMembers(rs[m], Replay(s, rs[..m], rebase).value, rebase(rs[m]));
    }
  }

  // --- Acceptance ---------------------------------------------------------------------------------------

  /** A market row belongs: to the generation in force and, unless it only reports its feed's health, to
      an available channel, with no more compatibility than the source has on it. */
  ghost predicate MarketBelongs(generation: u64, members: State, r: Record) {
    && r.sourceGeneration == generation
    && (|| IsSourceHealth(r)
        || (&& r.channel in members.available
            && match CompatibilityOf(members.metadata, r.channel)
               case Unavailable => false
               case RecordedOnly => !Compatible(r)
               case ExactTraderReplay => true))
  }

  /** A marker belongs: it describes the same source under the same rules and changes no membership; only
      a recovery may move the generation, and only forward. */
  ghost predicate MarkerBelongs(generation: u64, members: State, r: Record, p: Lifecycle) {
    && SameIdentity(members.metadata, p.source) && SameRules(members.metadata, p.source)
    && p.kind == DirectoryChanged && p.before == p.after
    && (r.sourceGeneration == generation || (p.cause == NativeRecovered && r.sourceGeneration > generation))
  }

  /** A boundary belongs: it names the generation and membership it replaces, a newer revision, and a
      change that fits its kind. */
  ghost predicate BoundaryBelongs(generation: u64, members: State, r: Record, p: Lifecycle) {
    && SameIdentity(members.metadata, p.source)
    && p.previousGeneration == generation && p.before == members.available
    && r.sourceGeneration >= generation && p.directoryRevision > members.directoryRevision
    && match p.kind
       case Added => p.before < p.after
       case Readded => p.before < p.after && generation != 0
       case Removed => p.after < p.before && r.sourceGeneration == generation
       case DirectoryChanged => p.after == p.before && generation != 0
  }

  ghost predicate Belongs(generation: u64, members: State, r: Record)
    requires ValidRecord(r)
  {
    if r.channel != SourceLifecycle then MarketBelongs(generation, members, r)
    else if r.payload.lifecycle.cause == Subscription then BoundaryBelongs(generation, members, r, r.payload.lifecycle)
    else MarkerBelongs(generation, members, r, r.payload.lifecycle)
  }

  /** One set lies properly inside the other. */
  lemma {:induction false} Proper(a: set<Channel>, b: set<Channel>)
    ensures a < b <==> a <= b && b - a != {}
    ensures a < b ==> b != {}
  {
    if a <= b && b - a == {} {
      assert forall ch :: ch in b ==> ch !in b - a;
      assert a == b;
    }
  }

  lemma {:induction false} KindExact(r: Record, p: Lifecycle, s: State)
    ensures KindAllowed(r, p, s) <==>
            match p.kind
            case Added => p.before < p.after
            case Readded => p.before < p.after && s.generation != 0
            case Removed => p.after < p.before && r.sourceGeneration == s.generation
            case DirectoryChanged => p.after == p.before && s.generation != 0
  {
    Proper(p.before, p.after);
    Proper(p.after, p.before);
  }

  lemma {:induction false} AdvanceAccepts(r: Record, s: State, rebase: bool)
    requires ValidRecord(r)
    ensures Advance(r, s, rebase).Some? <==> Belongs(s.generation, s, r)
  {
    if r.channel == SourceLifecycle {
      KindExact(r, r.payload.lifecycle, s);
    } else {
      assert ChannelBit(r.channel) == {r.channel};
    }
  }

  lemma {:induction false} SameBelonging(generation: u64, a: State, b: State, r: Record)
    requires ValidRecord(r)
    requires a.available == b.available && a.metadata == b.metadata && a.directoryRevision == b.directoryRevision
    ensures Belongs(generation, a, r) <==> Belongs(generation, b, r)
  {
  }

  /** Behind any accepted rows the next one is accepted if and only if it belongs there, whatever flag
      the caller computes. */
  lemma {:induction false} AcceptedExactly(s: State, rs: seq<Record>, rebase: Record -> bool, r: Record)
    requires AllValid(rs) && ValidRecord(r) && Replay(s, rs, rebase).Some?
    ensures AllValid(rs + [r])
    ensures Replay(s, rs + [r], rebase).Some? <==> Belongs(GenerationAfter(s, rs), MembersAfter(s, rs), r)
  {
    ReplayAppend(s, rs, r, rebase);
    MembershipOverRuns(s, rs, rebase);
    AdvanceAccepts(r, Replay(s, rs, rebase).value, rebase(r));
    SameBelonging(GenerationAfter(s, rs), Replay(s, rs, rebase).value, MembersAfter(s, rs), r);
  }
}
