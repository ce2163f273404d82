/** Cut durability as a protocol of single file-system steps: the writer writes, syncs, renames,
    syncs the directory and only then acknowledges; a reader may look in between any two of them
    (src/Runtime/src/Corpus/CorpusCut.cpp, writeCorpusCut, finalizedCutIsDurable and refresh). */
module Durability {
  import opened Records
  import opened Formats

  /** How far the publication of a cut has come. */
  datatype Stage = Resting | Written(cut: Cut) | Synced(cut: Cut) | Renamed(cut: Cut) | Secured(cut: Cut) | Failed

  /** `visible` is what cut.bin shows; `durable` holds every cut whose rename has been secured;
      `seen` every cut that was ever visible; `approved` is the acknowledged generation; `manifest`
      is what manifest.bin shows. */
  datatype Store = Store(
    stage: Stage, visible: Option<Cut>, durable: set<Cut>, seen: set<Cut>, published: Option<Cut>, approved: nat,
    manifest: Option<Manifest>)

  /** A refresh in progress: the candidate and the authorities it has collected for it. */
  datatype Reader =
    | Looking
    | Holding(cut: Cut, acknowledged: bool, archived: bool, approval: Option<nat>)
    | Adopted(cut: Cut)

  /** `last` is the generation the reader adopted last, 0 before the first. */
  datatype World = World(store: Store, reader: Reader, last: nat)

  const EMPTY: World := World(Store(Resting, None, {}, {}, None, 0, None), Looking, 0)

  datatype Event =
    | Begin(cut: Cut) | SyncFile | Rename | SyncDirectory | Acknowledge | Fail | WriteManifest
    | TakePublished | ReadFile | CheckManifest | AskApproval | Adopt | LookAgain

  /** A writer that stops for good after a failure, and one that would try the generation again. */
  predicate MayBegin(s: Store, cut: Cut, retries: bool) {
    cut.generation == s.approved + 1 && s.manifest.None? && (s.stage.Resting? || (retries && s.stage.Failed?))
  }

  /** The manifest of the last acknowledged cut is written once it is a finalized one. */
  predicate MaySeal(s: Store) {
    s.stage.Resting? && s.published.Some? && s.published.value.finalized && s.manifest.None?
  }

  predicate Witnessed(s: Store, cut: Cut) { cut.finalized && s.manifest == Some(cut.manifest) }

  function WriterStep(s: Store, e: Event, retries: bool): Option<Store> {
    match e
    case Begin(cut) => if MayBegin(s, cut, retries) then Some(s.(stage := Written(cut))) else None
    case SyncFile => if s.stage.Written? then Some(s.(stage := Synced(s.stage.cut))) else None
    case Rename =>
      if s.stage.Synced? then
        Some(s.(stage := Renamed(s.stage.cut), visible := Some(s.stage.cut), seen := s.seen + {s.stage.cut})) else None
    case SyncDirectory => if s.stage.Renamed? then
      Some(s.(stage := Secured(s.stage.cut), durable := s.durable + {s.stage.cut})) else None
    case Acknowledge =>
      if s.stage.Secured? then
        Some(s.(stage := Resting, published := Some(s.stage.cut), approved := s.stage.cut.generation)) else None
    case Fail => if s.stage.Resting? || s.stage.Failed? then None else Some(s.(stage := Failed))
    case WriteManifest => if MaySeal(s) then Some(s.(manifest := Some(s.published.value.manifest))) else None
    case _ => None
  }

  /** Any of the three authorities is enough. */
  predicate MayAdopt(r: Reader) {
    r.Holding? && (r.acknowledged || r.archived || (r.approval.Some? && r.cut.generation <= r.approval.value))
  }

  function ReaderStep(s: Store, r: Reader, e: Event): Option<Reader> {
    match e
    case TakePublished => if r.Looking? && s.published.Some? then Some(Holding(s.published.value, true, false, None))
        else None
    case ReadFile => if r.Looking? && s.visible.Some? then Some(Holding(s.visible.value, false, false, None)) else None
    case CheckManifest => if r.Holding? then Some(r.(archived := Witnessed(s, r.cut))) else None
    case AskApproval => if r.Holding? then Some(r.(approval := Some(s.approved))) else None
    case Adopt => if MayAdopt(r) then Some(Adopted(r.cut)) else None
    case LookAgain => Some(Looking)
    case _ => None
  }

  predicate OfReader(e: Event) {
    e.TakePublished? || e.ReadFile? || e.CheckManifest? || e.AskApproval? || e.Adopt? || e.LookAgain?
  }

  function Step(w: World, e: Event, retries: bool): Option<World> {
    if OfReader(e) then
      match ReaderStep(w.store, w.reader, e)
      case Some(r) => Some(w.(reader := r, last := if r.Adopted? then r.cut.generation else w.last))
      case None => None
    else
      match WriterStep(w.store, e, retries) case Some(s) => Some(w.(store := s)) case None => None
  }

  /** The world after a sequence of steps, if each of them was possible. */
  function Play(w: World, es: seq<Event>, retries: bool): Option<World>
    decreases |es|
  {
    if es == [] then Some(w)
    else
      match Step(w, es[0], retries)
      case None => None
      case Some(v) => Play(v, es[1..], retries)
  }

  // --- Without retries ----------------------------------------------------------------------------

  /** The one cut that may be visible without being durable. */
  ghost predicate InFlight(s: Store, cut: Cut) { s.stage.Failed? || (s.stage.Renamed? && s.stage.cut == cut) }

  /** Everything ever visible is durable, or is the cut in flight, one generation ahead. */
  ghost predicate StoreSafe(s: Store) {
    && (forall cut :: cut in s.seen && cut !in s.durable ==> InFlight(s, cut) && cut.generation == s.approved + 1)
    && (forall cut :: cut in s.durable ==> SecuredUpTo(s, cut))
    && (s.published.Some? ==> s.published.value in s.durable && s.published.value.generation == s.approved)
    && (s.visible.Some? ==> s.visible.value in s.seen && s.visible.value.generation >= s.approved)
    && (s.manifest.Some? ==> s.stage.Resting?)
    && (!s.stage.Resting? && !s.stage.Failed? ==> s.stage.cut.generation == s.approved + 1)
    && (s.stage.Renamed? || s.stage.Secured? ==> s.visible == Some(s.stage.cut))
    && (s.stage.Secured? ==> s.stage.cut in s.durable)
  }

  /** A durable cut is acknowledged, or about to be. */
  ghost predicate SecuredUpTo(s: Store, cut: Cut) {
    cut.generation <= s.approved || (cut.generation == s.approved + 1 && (s.stage.Secured? || s.stage.Failed?))
  }

  /** The cut is durable and its generation has been acknowledged. */
  ghost predicate Standing(s: Store, cut: Cut) { cut in s.durable && cut.generation <= s.approved }

  ghost predicate ReaderSafe(s: Store, r: Reader, last: nat) {
    && last <= s.approved
    && match r
       case Looking => true
       case Holding(cut, acknowledged, archived, approval) =>
         && cut in s.seen + s.durable && cut.generation >= last
         && (acknowledged || archived ==> Standing(s, cut)) && (approval.Some? ==> approval.value <= s.approved)
       case Adopted(cut) => Standing(s, cut) && cut.generation == last
  }

  ghost predicate Safe(w: World) { StoreSafe(w.store) && ReaderSafe(w.store, w.reader, w.last) }

  lemma {:induction false} WriterSafe(s: Store, r: Reader, last: nat, e: Event)
    requires StoreSafe(s) && ReaderSafe(s, r, last) && WriterStep(s, e, false).Some?
    ensures StoreSafe(WriterStep(s, e, false).value) && ReaderSafe(WriterStep(s, e, false).value, r, last)
  {
  }

  /** Any authority is good for the cut it is held for. */
  lemma {:induction false} AuthorityStands(s: Store, r: Reader, last: nat)
    requires StoreSafe(s) && ReaderSafe(s, r, last) && MayAdopt(r)
    ensures Standing(s, r.cut) && last <= r.cut.generation
  {
  }

  lemma {:induction false} StepSafe(w: World, e: Event)
    requires Safe(w) && Step(w, e, false).Some?
    ensures Safe(Step(w, e, false).value)
  {
    if OfReader(e) {
      if e.Adopt? { AuthorityStands(w.store, w.reader, w.last); }
    } else {
      WriterSafe(w.store, w.reader, w.last, e);
    }
  }

  lemma {:induction false} PlaySafe(w: World, es: seq<Event>)
    requires Safe(w) && Play(w, es, false).Some?
    ensures Safe(Play(w, es, false).value)
    decreases |es|
  {
    if es != [] {
      StepSafe(w, es[0]);
      PlaySafe(Step(w, es[0], false).value, es[1..]);
    }
  }

  /** Durability: in any interleaving of a writer that stops after a failed publication with a reader
      that collects its authorities step by step, an adopted cut is already durable and acknowledged,
      whichever authority admitted it. */
  lemma {:induction false} AdoptedIsDurable(es: seq<Event>)
    requires Play(EMPTY, es, false).Some? && Play(EMPTY, es, false).value.reader.Adopted?
    ensures var w := Play(EMPTY, es, false).value; Standing(w.store, w.reader.cut)
  {
    PlaySafe(EMPTY, es);
  }

  // --- With retries -------------------------------------------------------------------------------

  lemma {:induction false} PlayConcat(w: World, a: seq<Event>, b: seq<Event>, retries: bool)
    requires Play(w, a, retries).Some?
    ensures Play(w, a + b, retries) == Play(Play(w, a, retries).value, b, retries)
    decreases |a|
  {
    if a == [] {
      assert a + b == b;
    } else {
      assert (a + b)[1..] == a[1..] + b && (a + b)[0] == a[0];
      PlayConcat(Step(w, a[0], retries).value, a[1..], b, retries);
    }
  }

  function Then(e: Event, es: seq<Event>): seq<Event> { [e] + es }

  /** A first attempt that becomes visible but is not secured, while a reader picks it up. */
  function FirstAttempt(a: Cut): seq<Event> {
    Then(Begin(a), Then(SyncFile, Then(Rename, Then(ReadFile, Then(Fail, [])))))
  }

  /** A second attempt at the same generation that succeeds, and the reader's approval query. */
  function SecondAttempt(b: Cut): seq<Event> {
    Then(Begin(b),
        Then(SyncFile, Then(Rename, Then(SyncDirectory, Then(Acknowledge, Then(AskApproval, Then(Adopt, [])))))))
  }

  lemma {:induction false} PlayThen(w: World, e: Event, es: seq<Event>, v: World)
    requires Step(w, e, true) == Some(v)
    ensures Play(w, Then(e, es), true) == Play(v, es, true)
  {
    assert Then(e, es)[1..] == es;
  }

  /** The world between the two attempts: a file nobody secured, and a reader that holds it. */
  function Between(a: Cut): World {
    World(Store(Failed, Some(a), {}, {} + {a}, None, 0, None), Holding(a, false, false, None), 0)
  }

  lemma {:induction false} FirstLeaves(a: Cut)
    requires a.generation == 1
    ensures Play(EMPTY, FirstAttempt(a), true) == Some(Between(a))
  {
    var s := EMPTY.store;
    var w1, w2 := World(s.(stage := Written(a)), Looking, 0), World(s.(stage := Synced(a)), Looking, 0);
    var w3 := World(s.(stage := Renamed(a), visible := Some(a), seen := {} + {a}), Looking, 0);
    var w4 := World(w3.store, Holding(a, false, false, None), 0);
    PlayThen(EMPTY, Begin(a), Then(SyncFile, Then(Rename, Then(ReadFile, Then(Fail, [])))), w1);
    PlayThen(w1, SyncFile, Then(Rename, Then(ReadFile, Then(Fail, []))), w2);
    PlayThen(w2, Rename, Then(ReadFile, Then(Fail, [])), w3);
    PlayThen(w3, ReadFile, Then(Fail, []), w4);
    PlayThen(w4, Fail, [], Between(a));
  }

  /** The world after the second attempt. */
  function After(a: Cut, b: Cut): World {
    World(Store(Resting, Some(b), {} + {b}, {} + {a} + {b}, Some(b), 1, None), Adopted(a), 1)
  }

  lemma {:induction false} SecondWrites(a: Cut, b: Cut, es: seq<Event>)
    requires a.generation == 1 && b.generation == 1
    ensures Play(Between(a), Then(Begin(b), Then(SyncFile, Then(Rename, es))), true) ==
            Play(World(Store(Renamed(b), Some(b), {}, {} + {a} + {b}, None, 0, None), Holding(a, false, false, None),
                0), es, true)
  {
    var w0 := Between(a);
    var w1, w2 := w0.(store := w0.store.(stage := Written(b))), w0.(store := w0.store.(stage := Synced(b)));
    var w3 := World(Store(Renamed(b), Some(b), {}, {} + {a} + {b}, None, 0, None), Holding(a, false, false, None), 0);
    PlayThen(w0, Begin(b), Then(SyncFile, Then(Rename, es)), w1);
    PlayThen(w1, SyncFile, Then(Rename, es), w2);
    PlayThen(w2, Rename, es, w3);
  }

  lemma {:induction false} SecondAcknowledges(a: Cut, b: Cut, es: seq<Event>)
    requires b.generation == 1
    ensures Play(World(Store(Renamed(b), Some(b), {}, {} + {a} + {b}, None, 0, None), Holding(a, false, false, None),
            0),
                 Then(SyncDirectory, Then(Acknowledge, es)), true) ==
            Play(World(After(a, b).store, Holding(a, false, false, None), 0), es, true)
  {
    var held := Holding(a, false, false, None);
    var w3 := World(Store(Renamed(b), Some(b), {}, {} + {a} + {b}, None, 0, None), held, 0);
    var w4 := World(Store(Secured(b), Some(b), {} + {b}, {} + {a} + {b}, None, 0, None), held, 0);
    PlayThen(w3, SyncDirectory, Then(Acknowledge, es), w4);
    PlayThen(w4, Acknowledge, es, World(After(a, b).store, held, 0));
  }

  lemma {:induction false} SecondAdopts(a: Cut, b: Cut)
    requires a.generation == 1 && b.generation == 1
    ensures Play(Between(a), SecondAttempt(b), true) == Some(After(a, b))
  {
    var last := Then(AskApproval, Then(Adopt, []));
    SecondWrites(a, b, Then(SyncDirectory, Then(Acknowledge, last)));
    SecondAcknowledges(a, b, last);
    SecondReads(a, b);
  }

  lemma {:induction false} SecondReads(a: Cut, b: Cut)
    requires a.generation == 1
    ensures Play(World(After(a, b).store, Holding(a, false, false, None), 0), Then(AskApproval, Then(Adopt, [])),
            true) ==
            Some(After(a, b))
  {
    var w5 := World(After(a, b).store, Holding(a, false, false, None), 0);
    var w6 := World(w5.store, w5.reader.(approval := Some(1)), 0);
    PlayThen(w5, AskApproval, Then(Adopt, []), w6);
    PlayThen(w6, Adopt, [], After(a, b));
  }

  /** If a failed publication were tried again at the same generation with other contents, a reader
      that read the first file and then asked for approval would adopt a cut that never became
      durable. */
  lemma {:induction false} RetryBreaksDurability(a: Cut, b: Cut)
    requires a.generation == 1 && b.generation == 1 && a != b
    ensures var w := Play(EMPTY, FirstAttempt(a) + SecondAttempt(b), true);
            w.Some? && w.value.reader == Adopted(a) && a !in w.value.store.durable
  {
    FirstLeaves(a);
    PlayConcat(EMPTY, FirstAttempt(a), SecondAttempt(b), true);
    SecondAdopts(a, b);
  }

  /** Whatever happens, an adopted cut is durable and acknowledged. */
  ghost predicate AlwaysDurable(retries: bool) {
    forall es {:trigger Play(EMPTY, es, retries)} ::
      Play(EMPTY, es, retries).Some? && Play(EMPTY, es, retries).value.reader.Adopted? ==>
        Standing(Play(EMPTY, es, retries).value.store, Play(EMPTY, es, retries).value.reader.cut)
  }

  /** So durability is exactly what a writer buys by stopping after a failed publication. */
  lemma {:induction false} DurableExactly(retries: bool, some: Cut)
    ensures AlwaysDurable(retries) <==> !retries
  {
    if retries {
      var a, b := some.(generation := 1, committedMonotonicNs := 1), some.(generation := 1, committedMonotonicNs := 2);
      RetryBreaksDurability(a, b);
      assert Play(EMPTY, FirstAttempt(a) + SecondAttempt(b), retries).Some?;
    } else {
      forall es | Play(EMPTY, es, retries).Some? && Play(EMPTY, es, retries).value.reader.Adopted?
        ensures Standing(Play(EMPTY, es, retries).value.store, Play(EMPTY, es, retries).value.reader.cut)
      {
        AdoptedIsDurable(es);
      }
    }
  }
}
