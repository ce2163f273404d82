/** When the sealed reader's catalog check can fail: a configured source that starts absent yet
    carries a generation.  Without such a source no run ever accepts a row older than its source. */
module Generations {
  import opened Records
  import opened Storage
  import opened Formats
  import opened Index
  import opened Writer
  import opened WriterAppend
  import opened WriterRuns
  import opened SealedAcceptance
  import SS = SourceState
  import SR = SealedReader

  /** A source present from the start, or without a generation, or announced by a row of exactly the
      generation it is catalogued with. */
  ghost predicate Anchored(x: Source, rows: seq<Record>) {
    x.initiallyPresent || x.initialGeneration == 0 || (rows != [] && rows[0].sourceGeneration == x.initialGeneration)
  }

  ghost predicate AnchoredAt(s: State, H: seq<Record>, i: int)
    requires 0 <= i < |s.sources|
  {
    Anchored(s.sources[i], OfSource(H, i + 1))
  }

  ghost predicate AllAnchored(s: State, H: seq<Record>) {
    forall i {:trigger AnchoredAt(s, H, i)} :: 0 <= i < |s.sources| ==> AnchoredAt(s, H, i)
  }

  /** No configured source is absent and yet carries a generation. */
  predicate CatalogAnchored(g: Config) {
    forall i :: 0 <= i < |g.sources| && !g.sources[i].initiallyPresent ==> g.sources[i].initialGeneration == 0
  }

  // --- Generations along a source's rows ------------------------------------------------------------

  lemma {:induction false} AdvanceNotBefore(r: Record, s: SS.State, rebase: bool)
    requires ValidRecord(r) && SS.Advance(r, s, rebase).Some?
    ensures s.generation <= r.sourceGeneration
    ensures SS.Advance(r, s, rebase).value.generation == r.sourceGeneration
  {
  }

  lemma {:induction false} RowsNotBefore(s: SS.State, rs: seq<Record>, rebase: Record -> bool, i: nat)
    requires SS.AllValid(rs) && SS.Replay(s, rs, rebase).Some? && i < |rs|
    ensures s.generation <= rs[0].sourceGeneration <= rs[i].sourceGeneration
    decreases |rs|
  {
    var t := SS.Advance(rs[0], s, rebase(rs[0])).value;
    AdvanceNotBefore(rs[0], s, rebase(rs[0]));
    if i > 0 {
      RowsNotBefore(t, rs[1..], rebase, i - 1);
      assert rs[1..][i - 1] == rs[i];
    }
  }

  /** An anchored source has no row older than its catalog entry. */
  lemma {:induction false} AnchoredCovers(x: Source, rows: seq<Record>, state: SS.State, i: nat)
    requires Leads(x, rows, state) && Anchored(x, rows) && i < |rows|
    ensures rows[i].sourceGeneration >= x.initialGeneration
  {
    RowsNotBefore(SS.Initial(x), rows, SS.NeverRebase, i);
  }

  lemma {:induction false} OfSourceMember(rs: seq<Record>, i: nat) returns (j: nat)
    requires i < |rs|
    ensures j < |OfSource(rs, rs[i].sourceId)| && OfSource(rs, rs[i].sourceId)[j] == rs[i]
    decreases |rs|
  {
    var m := |rs| - 1;
    if i == m {
      j := |OfSource(rs[..m], rs[i].sourceId)|;
    } else {
      assert rs[..m][i] == rs[i];
      j := OfSourceMember(rs[..m], i);
    }
  }

  lemma {:induction false} AnchoredHistory(s: State, H: seq<Record>, i: nat)
    requires |s.sources| == |s.sourceStates| && AllAnchored(s, H) && i < |H| && 0 < H[i].sourceId <= |s.sources|
    requires forall k {:trigger SourceAt(s, H, k)} :: 0 <= k < |s.sources| ==> SourceAt(s, H, k)
    ensures RowCovered(s, H[i])
  {
    var k := H[i].sourceId - 1;
    var j := OfSourceMember(H, i);
    assert SourceAt(s, H, k) && AnchoredAt(s, H, k);
    AnchoredCovers(s.sources[k], OfSource(H, k + 1), s.sourceStates[k], j);
  }

  // --- Every step keeps sources anchored --------------------------------------------------------------

  lemma {:induction false} AnchoredGrows(x: Source, rows: seq<Record>, more: seq<Record>)
    requires Anchored(x, rows)
    ensures Anchored(x, rows + more)
  {
    if rows != [] { assert (rows + more)[0] == rows[0]; }
  }

  lemma {:induction false} AnchoredOld(s: State, t: State, H: seq<Record>, rows: seq<Record>, i: nat)
    requires AllAnchored(s, H) && s.sources <= t.sources && i < |s.sources| && (rows == [] || |rows| == 1)
    ensures AnchoredAt(t, H + rows, i)
  {
    assert AnchoredAt(s, H, i);
    if rows == [] {
      assert H + rows == H;
    } else {
      assert rows == [rows[0]];
      OfSourceAppend(H, rows[0], i + 1);
      AnchoredGrows(s.sources[i], OfSource(H, i + 1), if rows[0].sourceId == i + 1 then [rows[0]] else []);
    }
  }

  lemma {:induction false} RegisterAnchors(c: Codec, s: State, H: seq<Record>, incoming: seq<Source>)
    requires Inv(c, s, H) && AllAnchored(s, H)
    ensures AllAnchored(RegisterSources(s, incoming).state, H)
  {
    var t := RegisterSources(s, incoming).state;
    RegisterQuiet(c, s, incoming);
    RegisterBare(s, incoming);
    forall i | 0 <= i < |t.sources|
      ensures AnchoredAt(t, H, i)
    {
      if i < |s.sources| {
        AnchoredOld(s, t, H, [], i);
        assert H + [] == H;
      }
    }
  }

  /** Registered sources carry no generation. */
  lemma {:induction false} RegisterBare(s: State, incoming: seq<Source>)
    requires |s.sourceStates| == |s.sources|
    ensures var t := RegisterSources(s, incoming).state;
            forall i :: |s.sources| <= i < |t.sources| ==> t.sources[i].initialGeneration == 0
  {
    if RegisterSources(s, incoming).status == Ok {
      var added := RegisteredCount(s, incoming, |s.sources|).value - |s.sources|;
      AddedBare(s.(projectedBytes := s.projectedBytes + added * SOURCE_RESERVATION,
                   cutReservedBytes := s.cutReservedBytes + added * (2 * SOURCE_STORAGE)), incoming, |s.sources|);
    }
  }

  lemma {:induction false} AddedBare(s: State, incoming: seq<Source>, n: nat)
    requires n <= |s.sources| && forall i :: n <= i < |s.sources| ==> s.sources[i].initialGeneration == 0
    ensures var t := AddSources(s, incoming);
            n <= |t.sources| && forall i :: n <= i < |t.sources| ==> t.sources[i].initialGeneration == 0
    decreases |incoming|
  {
    if incoming != [] {
      var x := incoming[0];
      if x.sourceId <= |s.sources| {
        AddedBare(s, incoming[1..], n);
      } else {
        AddedBare(s.(sources := s.sources + [Inactive(x)], sourceStates := s.sourceStates + [SS.Initial(Inactive(x))]),
            incoming[1..], n);
      }
    }
  }

  lemma {:induction false} AppendAnchors(c: Codec, s: State, H: seq<Record>, r: Record)
    requires Lawful(c) && Inv(c, s, H) && Ready(s) && AllAnchored(s, H) && Append(c, s, r).Done?
    ensures AllAnchored(Append(c, s, r).state, H + (if Append(c, s, r).status == Ok then [r] else []))
  {
    AppendRefinesStreams(c, s, r);
    var t := Append(c, s, r).state;
    if Append(c, s, r).status == Ok {
      RowAnchors(s, t, H, r, Judge(s, r));
    } else {
      QuietAnchors(s, t, H);
      assert H + [] == H;
    }
  }

  lemma {:induction false} QuietAnchors(s: State, t: State, H: seq<Record>)
    requires AllAnchored(s, H) && t.sources == s.sources
    ensures AllAnchored(t, H)
  {
    forall i | 0 <= i < |t.sources|
      ensures AnchoredAt(t, H, i)
    {
      assert AnchoredAt(s, H, i);
    }
  }

  /** A source announced by a row is catalogued with that row's generation. */
  lemma {:induction false} RowAnchors(s: State, t: State, H: seq<Record>, r: Record, v: Verdict)
    requires Ready(s) && Judge(s, r) == v && v.Accept? && RowFields(s, t, r, v) && AllAnchored(s, H)
    requires forall i {:trigger RowInRange(s, H, i)} :: 0 <= i < |H| ==> RowInRange(s, H, i)
    ensures AllAnchored(t, H + [r])
  {
    forall i | 0 <= i < |t.sources|
      ensures AnchoredAt(t, H + [r], i)
    {
      if i < |s.sources| {
        AnchoredOld(s, t, H, [r], i);
      } else {
        UnknownSource(s, H, i);
        OfSourceAppend(H, r, i + 1);
        assert t.sources[i] == v.added.value;
      }
    }
  }

  lemma {:induction false} StepAnchors(c: Codec, l: Layout, m: Moment, step: Step, m': Moment)
    requires Lawful(c) && MomentOk(c, m) && StepTo(c, l, m, step, m') && AllAnchored(m.state, m.accepted)
    ensures AllAnchored(m'.state, m'.accepted)
  {
    if step.Register? {
      RegisterAnchors(c, m.state, m.accepted, step.sources);
      assert m.accepted + [] == m.accepted;
    } else if step.AppendRow? {
      AppendAnchors(c, m.state, m.accepted, step.record);
    } else {
      SameSources(c, l, m, step, m');
      QuietAnchors(m.state, m'.state, m.accepted);
    }
  }

  lemma {:induction false} SameSources(c: Codec, l: Layout, m: Moment, step: Step, m': Moment)
    requires Lawful(c) && MomentOk(c, m) && StepTo(c, l, m, step, m') && !step.Register? && !step.AppendRow?
    ensures m'.state.sources == m.state.sources && m'.accepted == m.accepted
  {
    if step.Publish? {
      PublishClosed(c, m.state, m.accepted, step.now);
    } else if step.Seal? {
      FinalizeSources(c, l, m.state, m.accepted, step.reason, step.finalizedReceiveNs, step.committedNow);
    }
  }

  lemma {:induction false} FinalizeSources(
      c: Codec, l: Layout, s: State, H: seq<Record>, reason: StopReason, at: i64, now: nat)
    requires Lawful(c) && Inv(c, s, H) && Finalize(c, l, s, reason, at, now).Done?
    ensures Finalize(c, l, s, reason, at, now).state.sources == s.sources
  {
    if s.active && at > 0 && !exists n :: 0 <= n < |s.depth| && s.depth[n].Open? {
      var u := SealAll(c, s, |s.segments|).value;
      SealAllKeeps(c, s, H);
      ManifestKeeps(c, l, u, H, reason, at);
      PublishClosed(c, u.(manifest := FinalManifest(c, l, u, reason, at)), H, now);
    }
  }

  lemma {:induction false} StartAnchors(c: Codec, l: Layout, g: Config, ms: seq<Moment>, steps: seq<Step>)
    requires IsRun(c, l, g, ms, steps) && CatalogAnchored(g)
    ensures AllAnchored(ms[0].state, ms[0].accepted)
  {
    assert Begins(c, g, ms[0]);
    forall i | 0 <= i < |ms[0].state.sources|
      ensures AnchoredAt(ms[0].state, [], i)
    {
    }
  }

  lemma {:induction false} RunAnchors(c: Codec, l: Layout, g: Config, ms: seq<Moment>, steps: seq<Step>, n: nat)
    requires Lawful(c) && IsRun(c, l, g, ms, steps) && CatalogAnchored(g) && n <= |steps|
    ensures AllAnchored(ms[n].state, ms[n].accepted)
    decreases n
  {
    if n == 0 {
      StartAnchors(c, l, g, ms, steps);
    } else {
      RunAnchors(c, l, g, ms, steps, n - 1);
      RunInv(c, l, g, ms, steps, n - 1);
      assert StepAt(c, l, ms, steps, n - 1);
      StepAnchors(c, l, ms[n - 1], steps[n - 1], ms[n]);
    }
  }

  /** With an anchored configuration the catalog check of the sealed reader can never fail. */
  lemma {:induction false} AnchoredRunsCovered(
      c: Codec, l: Layout, g: Config, ms: seq<Moment>, steps: seq<Step>, n: nat)
    requires Lawful(c) && IsRun(c, l, g, ms, steps) && CatalogAnchored(g) && n <= |steps|
    ensures GenerationsCovered(ms[n].state, ms[n].accepted)
  {
    RunAnchors(c, l, g, ms, steps, n);
    RunInv(c, l, g, ms, steps, n);
    HistoryCovered(c, ms[n]);
  }

  lemma {:induction false} HistoryCovered(c: Codec, m: Moment)
    requires MomentOk(c, m) && AllAnchored(m.state, m.accepted)
    ensures GenerationsCovered(m.state, m.accepted)
  {
    forall i | 0 <= i < |m.accepted|
      ensures RowCovered(m.state, m.accepted[i])
    {
      assert RowInRange(m.state, m.accepted, i);
      AnchoredHistory(m.state, m.accepted, i);
    }
  }

  // --- Where it fails -----------------------------------------------------------------------------------

  const ABSENT: Source := Source(1, 5, false, {Trade}, {Trade}, {}, map[Trade := RecordedOnly], 7, 9, true)

  const ANNOUNCEMENT: Record :=
    Record(1, 2, 0, 1, 0, 0, 1, 1, 1, 1, 0, SourceLifecycle, {TraderReplayCompatible, LifecycleFlag}, {},
           LifecycleRow(Lifecycle(1, 0, {}, {Trade}, Added, None, Subscription, ABSENT.(initialGeneration := 2))), true,
               true)

  /** A configured source that starts absent with generation 5 accepts its announcement at generation
      2; the index entry of that row predates the catalog and the sealed reader refuses the corpus. */
  lemma {:induction false} EarlyAnnouncement()
    ensures ValidSource(ABSENT, 0) && ValidRecord(ANNOUNCEMENT)
    ensures SS.Advance(ANNOUNCEMENT, SS.Initial(ABSENT), false).Some?
    ensures ANNOUNCEMENT.sourceGeneration < ABSENT.initialGeneration
    ensures forall k: nat :: !SealedReaderAccepts(Touch(Fresh(k, 0, KeyOf(ANNOUNCEMENT)), ANNOUNCEMENT), [ABSENT])
  {
    assert {Trade} - {} == {Trade};
  }

  predicate SealedReaderAccepts(e: Entry, sources: seq<Source>) {
    0 < e.key.sourceId <= |sources| && SR.NotBefore(e, sources)
  }
}
