/** The control service's messages: configuration, status, packets and replies, as functions from
    values to bytes and back, with the theorems that each way undoes the other. */
module ServiceProtocol {
  import opened Records
  import opened WireFormat

  type Bytes = seq<u8>

  function Repeat(k: Kind, n: nat): (ks: seq<Kind>)
    ensures |ks| == n && forall i :: 0 <= i < n ==> ks[i] == k
  {
    seq(n, i => k)
  }

  predicate Kinded(fs: seq<Field>, ks: seq<Kind>) { KindsOf(fs) == ks && AllEncodable(fs) }

  lemma {:induction false} Numbers(fs: seq<Field>, ks: seq<Kind>)
    requires Kinded(fs, ks)
    ensures |fs| == |ks|
    ensures forall i :: 0 <= i < |ks| && ks[i].NumberKind? ==>
      fs[i] == Number(ks[i].width, ValueOf(fs[i])) && ValueOf(fs[i]) < Bound(ks[i].width)
  {
    forall i | 0 <= i < |ks| && ks[i].NumberKind?
      ensures fs[i] == Number(ks[i].width, ValueOf(fs[i])) && ValueOf(fs[i]) < Bound(ks[i].width)
    {
      assert KindsOf(fs)[i] == fs[i].kind && Encodable(fs[i]);
      NumberBack(fs[i]);
    }
  }

  lemma {:induction false} Flags(fs: seq<Field>, ks: seq<Kind>)
    requires Kinded(fs, ks)
    ensures |fs| == |ks|
    ensures forall i :: 0 <= i < |ks| && ks[i].FlagKind? ==> |fs[i].image| == 1 && fs[i] == Boolean(IsOn(fs[i]))
  {
    forall i | 0 <= i < |ks| && ks[i].FlagKind?
      ensures |fs[i].image| == 1 && fs[i] == Boolean(IsOn(fs[i]))
    {
      assert KindsOf(fs)[i] == fs[i].kind && Encodable(fs[i]);
    }
  }

  predicate IsText(f: Field, m: u32) {
    |f.image| >= 4 && f == Text(m, TextOf(f)) && Sendable(TextOf(f), m)
  }

  lemma {:induction false} Texts(fs: seq<Field>, ks: seq<Kind>)
    requires Kinded(fs, ks)
    ensures |fs| == |ks|
    ensures forall i :: 0 <= i < |ks| && ks[i].TextKind? ==> IsText(fs[i], ks[i].maximum)
  {
    forall i | 0 <= i < |ks| && ks[i].TextKind?
      ensures IsText(fs[i], ks[i].maximum)
    {
      assert KindsOf(fs)[i] == fs[i].kind && Encodable(fs[i]);
      TextBack(fs[i]);
    }
  }

  // ---------------------------------------------------------------------------------------------
  // Configuration.

  datatype Venue = Venue(exchange: Bytes, market: Bytes, fullUniverse: bool, instruments: seq<Bytes>)

  datatype Config = Config(
    workspaceRoot: Bytes, parserTemplate: Bytes, envPath: Bytes, outputRoot: Bytes,
    channelMask: u16, durationSec: u64, maximumBytes: u64, segmentBytes: u64,
    retainedCompressedBytes: u64, maximumReferenceBytes: u64, writerQueueRecords: u32,
    venues: seq<Venue>)

  const MAXIMUM_VENUES: nat := 64
  const MAXIMUM_INSTRUMENTS: nat := 4096

  function PathFields(c: Config): seq<Field> {
    [Text(4096, c.workspaceRoot), Text(4096, c.parserTemplate), Text(4096, c.envPath), Text(4096, c.outputRoot)]
  }

  const PATH_KINDS: seq<Kind> := Repeat(TextKind(4096), 4)

  function LimitFields(c: Config): seq<Field> {
    [Number(2, c.channelMask), Number(8, c.durationSec), Number(8, c.maximumBytes), Number(8, c.segmentBytes),
     Number(8, c.retainedCompressedBytes), Number(8, c.maximumReferenceBytes), Number(4, c.writerQueueRecords),
     Number(4, |c.venues|)]
  }

  const LIMIT_KINDS: seq<Kind> := [NumberKind(2)] + Repeat(NumberKind(8), 5) + Repeat(NumberKind(4), 2)

  function VenueHead(v: Venue): seq<Field> {
    [Text(48, v.exchange), Text(48, v.market), Boolean(v.fullUniverse), Number(4, |v.instruments|)]
  }

  const VENUE_KINDS: seq<Kind> := Repeat(TextKind(48), 2) + [FlagKind, NumberKind(4)]

  function NameFields(names: seq<Bytes>): (fs: seq<Field>)
    ensures |fs| == |names| && forall i :: 0 <= i < |names| ==> fs[i] == Text(128, names[i])
  {
    seq(|names|, i requires 0 <= i < |names| => Text(128, names[i]))
  }

  function NameKinds(n: nat): seq<Kind> { Repeat(TextKind(128), n) }

  function VenueFields(v: Venue): seq<Field> { VenueHead(v) + NameFields(v.instruments) }

  function VenuesFields(vs: seq<Venue>): seq<Field> {
    if vs == [] then [] else VenuesFields(vs[..|vs| - 1]) + VenueFields(vs[|vs| - 1])
  }

  function ConfigFields(c: Config): seq<Field> { PathFields(c) + LimitFields(c) + VenuesFields(c.venues) }

  predicate AllSendable(ts: seq<Bytes>, m: nat) { forall i :: 0 <= i < |ts| ==> Sendable(ts[i], m) }

  predicate VenueOk(v: Venue) {
    && Sendable(v.exchange, 48) && Sendable(v.market, 48)
    && |v.instruments| <= MAXIMUM_INSTRUMENTS && AllSendable(v.instruments, 128)
  }

  predicate VenuesOk(vs: seq<Venue>) { forall i :: 0 <= i < |vs| ==> VenueOk(vs[i]) }

  predicate PathsOk(c: Config) {
    && Sendable(c.workspaceRoot, 4096) && Sendable(c.parserTemplate, 4096)
    && Sendable(c.envPath, 4096) && Sendable(c.outputRoot, 4096)
  }

  /** What may be sent at all. */
  predicate ConfigOk(c: Config) {
    PathsOk(c) && 1 <= |c.venues| <= MAXIMUM_VENUES && VenuesOk(c.venues)
  }

  datatype GotVenue = GotVenue(venue: Venue, end: nat) | NoVenue
  datatype GotVenues = GotVenues(venues: seq<Venue>, end: nat) | NoVenues
  datatype GotConfig = GotConfig(config: Config, end: nat) | NoConfig

  function TextsOf(fs: seq<Field>): (ts: seq<Bytes>)
    requires forall i :: 0 <= i < |fs| ==> |fs[i].image| >= 4
    ensures |ts| == |fs| && forall i :: 0 <= i < |fs| ==> ts[i] == TextOf(fs[i])
  {
    seq(|fs|, i requires 0 <= i < |fs| => TextOf(fs[i]))
  }

  function VenueOf(fs: seq<Field>, ns: seq<Field>): Venue
    requires Kinded(fs, VENUE_KINDS) && Kinded(ns, NameKinds(|ns|))
  {
    Texts(fs, VENUE_KINDS);
    Flags(fs, VENUE_KINDS);
    Texts(ns, NameKinds(|ns|));
    Venue(TextOf(fs[0]), TextOf(fs[1]), IsOn(fs[2]), TextsOf(ns))
  }

  function ReadVenue(b: Bytes, at: nat): (r: GotVenue)
    requires at <= |b|
    ensures r.GotVenue? ==> at <= r.end <= |b|
  {
    var head := ReadAll(b, at, VENUE_KINDS);
    if head.Malformed? then NoVenue
    else
      MessageStands(b, at, VENUE_KINDS);
      var count := ValueOf(head.fields[3]);
      if count > MAXIMUM_INSTRUMENTS then NoVenue
      else
        var names := ReadAll(b, head.end, NameKinds(count));
        if names.Malformed? then NoVenue
        else
          MessageStands(b, head.end, NameKinds(count));
          GotVenue(VenueOf(head.fields, names.fields), names.end)
  }

  function ReadVenues(b: Bytes, at: nat, n: nat): (r: GotVenues)
    requires at <= |b|
    ensures r.GotVenues? ==> at <= r.end <= |b| && |r.venues| == n
  {
    if n == 0 then GotVenues([], at)
    else
      var front := ReadVenues(b, at, n - 1);
      if front.NoVenues? then NoVenues
      else
        var last := ReadVenue(b, front.end);
        if last.NoVenue? then NoVenues else GotVenues(front.venues + [last.venue], last.end)
  }

  function ConfigOf(ps: seq<Field>, ls: seq<Field>, venues: seq<Venue>): Config
    requires Kinded(ps, PATH_KINDS) && Kinded(ls, LIMIT_KINDS)
  {
    Texts(ps, PATH_KINDS);
    Numbers(ls, LIMIT_KINDS);
    Bounds();
    Config(TextOf(ps[0]), TextOf(ps[1]), TextOf(ps[2]), TextOf(ps[3]), ValueOf(ls[0]), ValueOf(ls[1]), ValueOf(ls[2]),
           ValueOf(ls[3]), ValueOf(ls[4]), ValueOf(ls[5]), ValueOf(ls[6]), venues)
  }

  function ReadConfig(b: Bytes, at: nat): (r: GotConfig)
    requires at <= |b|
    ensures r.GotConfig? ==> at <= r.end <= |b|
  {
    var paths := ReadAll(b, at, PATH_KINDS);
    if paths.Malformed? then NoConfig
    else
      MessageStands(b, at, PATH_KINDS);
      var limits := ReadAll(b, paths.end, LIMIT_KINDS);
      if limits.Malformed? then NoConfig
      else
        MessageStands(b, paths.end, LIMIT_KINDS);
        var n := ValueOf(limits.fields[7]);
        if n == 0 || n > MAXIMUM_VENUES then NoConfig
        else
          var venues := ReadVenues(b, limits.end, n);
          if venues.NoVenues? then NoConfig
          else GotConfig(ConfigOf(paths.fields, limits.fields, venues.venues), venues.end)
  }

  // ---------------------------------------------------------------------------------------------
  // Reading undoes writing.

  lemma {:induction false} VenueShape(v: Venue)
    requires VenueOk(v)
    ensures Kinded(VenueHead(v), VENUE_KINDS) && ValueOf(VenueHead(v)[3]) == |v.instruments|
    ensures Kinded(NameFields(v.instruments), NameKinds(|v.instruments|))
    ensures VenueOf(VenueHead(v), NameFields(v.instruments)) == v
  {
    var hs, ns := VenueHead(v), NameFields(v.instruments);
    assert KindsOf(hs) == VENUE_KINDS;
    TextField(48, v.exchange);
    TextField(48, v.market);
    FlagField(v.fullUniverse);
    Bounds();
    NumberField(4, |v.instruments|);
    assert KindsOf(ns) == NameKinds(|v.instruments|);
    forall i | 0 <= i < |ns|
      ensures Encodable(ns[i]) && |ns[i].image| >= 4 && TextOf(ns[i]) == v.instruments[i]
    {
      assert Sendable(v.instruments[i], 128);
      TextField(128, v.instruments[i]);
    }
    assert TextsOf(ns) == v.instruments;
  }

  lemma {:induction false} VenueAssembles(b: Bytes, at: nat, fs: seq<Field>, ns: seq<Field>, mid: nat, end: nat)
    requires at <= |b| && mid <= |b| && Kinded(fs, VENUE_KINDS) && ValueOf(fs[3]) == |ns|
    requires |ns| <= MAXIMUM_INSTRUMENTS && Kinded(ns, NameKinds(|ns|))
    requires ReadAll(b, at, VENUE_KINDS) == Message(fs, mid) && ReadAll(b, mid, NameKinds(|ns|)) == Message(ns, end)
    ensures ReadVenue(b, at) == GotVenue(VenueOf(fs, ns), end)
  {
  }

  lemma {:induction false} VenuePartsRead(b: Bytes, at: nat, fs: seq<Field>, ns: seq<Field>, end: nat)
    requires Kinded(fs, VENUE_KINDS) && ValueOf(fs[3]) == |ns|
    requires |ns| <= MAXIMUM_INSTRUMENTS && Kinded(ns, NameKinds(|ns|)) && Spelled(b, at, fs + ns, end)
    ensures at <= |b| && ReadVenue(b, at) == GotVenue(VenueOf(fs, ns), end)
  {
    var mid := at + |WireAll(fs)|;
    SpelledJoin(b, at, fs, ns, end);
    MessageReads(b, at, fs, mid);
    MessageReads(b, mid, ns, end);
    VenueAssembles(b, at, fs, ns, mid, end);
  }

  lemma {:induction false} VenueReads(b: Bytes, at: nat, v: Venue, end: nat)
    requires VenueOk(v) && Spelled(b, at, VenueFields(v), end)
    ensures at <= |b| && ReadVenue(b, at) == GotVenue(v, end)
  {
    VenueShape(v);
    VenuePartsRead(b, at, VenueHead(v), NameFields(v.instruments), end);
  }

  lemma {:induction false} VenuesLast(vs: seq<Venue>, v: Venue)
    ensures VenuesFields(vs + [v]) == VenuesFields(vs) + VenueFields(v)
  {
    assert (vs + [v])[..|vs|] == vs;
  }

  lemma {:induction false} VenuesReadLast(b: Bytes, at: nat, vs: seq<Venue>, mid: nat, v: Venue, end: nat)
    requires at <= |b| && mid <= |b| && ReadVenues(b, at, |vs|) == GotVenues(vs, mid)
    requires ReadVenue(b, mid) == GotVenue(v, end)
    ensures ReadVenues(b, at, |vs + [v]|) == GotVenues(vs + [v], end)
  {
  }

  /** Two parts spelled one after the other. */
  lemma {:induction false} SpelledApart(b: Bytes, at: nat, fs: seq<Field>, gs: seq<Field>, end: nat) returns (mid: nat)
    requires Spelled(b, at, fs + gs, end)
    ensures Spelled(b, at, fs, mid) && Spelled(b, mid, gs, end) && at <= mid <= |b|
  {
    SpelledJoin(b, at, fs, gs, end);
    mid := at + |WireAll(fs)|;
  }

  lemma {:induction false} VenuesRead(b: Bytes, at: nat, vs: seq<Venue>, end: nat)
    requires VenuesOk(vs) && Spelled(b, at, VenuesFields(vs), end)
    ensures at <= |b| && ReadVenues(b, at, |vs|) == GotVenues(vs, end)
  {
    if vs != [] {
      var front, last := vs[..|vs| - 1], vs[|vs| - 1];
      assert vs == front + [last];
      VenuesLast(front, last);
      var mid := SpelledApart(b, at, VenuesFields(front), VenueFields(last), end);
      VenuesRead(b, at, front, mid);
      VenueReads(b, mid, last, end);
      VenuesReadLast(b, at, front, mid, last, end);
    }
  }

  lemma {:induction false} ConfigShape(c: Config)
    requires PathsOk(c) && |c.venues| <= MAXIMUM_VENUES
    ensures Kinded(PathFields(c), PATH_KINDS) && Kinded(LimitFields(c), LIMIT_KINDS)
    ensures ValueOf(LimitFields(c)[7]) == |c.venues|
    ensures ConfigOf(PathFields(c), LimitFields(c), c.venues) == c
  {
    assert KindsOf(PathFields(c)) == PATH_KINDS;
    TextField(4096, c.workspaceRoot);
    TextField(4096, c.parserTemplate);
    TextField(4096, c.envPath);
    TextField(4096, c.outputRoot);
    assert KindsOf(LimitFields(c)) == LIMIT_KINDS;
    Bounds();
    NumberField(2, c.channelMask);
    NumberField(8, c.durationSec);
    NumberField(8, c.maximumBytes);
    NumberField(8, c.segmentBytes);
    NumberField(8, c.retainedCompressedBytes);
    NumberField(8, c.maximumReferenceBytes);
    NumberField(4, c.writerQueueRecords);
    NumberField(4, |c.venues|);
  }

  lemma {:induction false} ConfigAssembles(
      b: Bytes, at: nat, ps: seq<Field>, ls: seq<Field>, vs: seq<Venue>, e1: nat, e2: nat, e3: nat)
    requires at <= |b| && e1 <= |b| && e2 <= |b| && 1 <= |vs| <= MAXIMUM_VENUES
    requires Kinded(ps, PATH_KINDS) && Kinded(ls, LIMIT_KINDS) && ValueOf(ls[7]) == |vs|
    requires ReadAll(b, at, PATH_KINDS) == Message(ps, e1) && ReadAll(b, e1, LIMIT_KINDS) == Message(ls, e2)
    requires ReadVenues(b, e2, |vs|) == GotVenues(vs, e3)
    ensures ReadConfig(b, at) == GotConfig(ConfigOf(ps, ls, vs), e3)
  {
  }

  lemma {:induction false} ConfigPartsRead(b: Bytes, at: nat, ps: seq<Field>, ls: seq<Field>, vs: seq<Venue>, end: nat)
    requires 1 <= |vs| <= MAXIMUM_VENUES && VenuesOk(vs)
    requires Kinded(ps, PATH_KINDS) && Kinded(ls, LIMIT_KINDS) && ValueOf(ls[7]) == |vs|
    requires Spelled(b, at, ps + ls + VenuesFields(vs), end)
    ensures at <= |b| && ReadConfig(b, at) == GotConfig(ConfigOf(ps, ls, vs), end)
  {
    var e1, e2 := at + |WireAll(ps)|, at + |WireAll(ps + ls)|;
    SpelledJoin(b, at, ps + ls, VenuesFields(vs), end);
    SpelledJoin(b, at, ps, ls, e2);
    MessageReads(b, at, ps, e1);
    MessageReads(b, e1, ls, e2);
    VenuesRead(b, e2, vs, end);
    ConfigAssembles(b, at, ps, ls, vs, e1, e2, end);
  }

  /** An encoded configuration decodes to itself, and the decoder stops where the encoding ends. */
  lemma {:induction false} ConfigReads(b: Bytes, at: nat, c: Config, end: nat)
    requires ConfigOk(c) && Spelled(b, at, ConfigFields(c), end)
    ensures at <= |b| && ReadConfig(b, at) == GotConfig(c, end)
  {
    ConfigShape(c);
    ConfigPartsRead(b, at, PathFields(c), LimitFields(c), c.venues, end);
  }

  // ---------------------------------------------------------------------------------------------
  // Writing undoes reading.

  lemma {:induction false} VenueFieldsBack(fs: seq<Field>, ns: seq<Field>)
    requires Kinded(fs, VENUE_KINDS) && Kinded(ns, NameKinds(|ns|)) && ValueOf(fs[3]) == |ns| <= MAXIMUM_INSTRUMENTS
    ensures VenueHead(VenueOf(fs, ns)) == fs && NameFields(VenueOf(fs, ns).instruments) == ns
    ensures VenueOk(VenueOf(fs, ns))
  {
    Texts(fs, VENUE_KINDS);
    Flags(fs, VENUE_KINDS);
    Numbers(fs, VENUE_KINDS);
    Texts(ns, NameKinds(|ns|));
  }

  lemma {:induction false} SpelledTogether(b: Bytes, at: nat, fs: seq<Field>, mid: nat, gs: seq<Field>, end: nat)
    requires Spelled(b, at, fs, mid) && Spelled(b, mid, gs, end)
    ensures Spelled(b, at, fs + gs, end)
  {
    SpelledJoin(b, at, fs, gs, end);
  }

  lemma {:induction false} VenuePartsStand(b: Bytes, at: nat, fs: seq<Field>, mid: nat, ns: seq<Field>, end: nat)
    requires Kinded(fs, VENUE_KINDS) && Kinded(ns, NameKinds(|ns|)) && ValueOf(fs[3]) == |ns| <= MAXIMUM_INSTRUMENTS
    requires Spelled(b, at, fs, mid) && Spelled(b, mid, ns, end)
    ensures VenueOk(VenueOf(fs, ns)) && Spelled(b, at, VenueFields(VenueOf(fs, ns)), end)
  {
    VenueFieldsBack(fs, ns);
    SpelledTogether(b, at, fs, mid, ns, end);
  }

  lemma {:induction false} ReadVenueStands(b: Bytes, at: nat)
    requires at <= |b| && ReadVenue(b, at).GotVenue?
    ensures var r := ReadVenue(b, at); VenueOk(r.venue) && Spelled(b, at, VenueFields(r.venue), r.end)
  {
    var head := ReadAll(b, at, VENUE_KINDS);
    MessageStands(b, at, VENUE_KINDS);
    var names := ReadAll(b, head.end, NameKinds(ValueOf(head.fields[3])));
    MessageStands(b, head.end, NameKinds(ValueOf(head.fields[3])));
    VenuePartsStand(b, at, head.fields, head.end, names.fields, names.end);
  }

  lemma {:induction false} VenuesSpelledMore(b: Bytes, at: nat, vs: seq<Venue>, mid: nat, v: Venue, end: nat)
    requires VenuesOk(vs) && Spelled(b, at, VenuesFields(vs), mid) && VenueOk(v) && Spelled(b, mid, VenueFields(v), end)
    ensures VenuesOk(vs + [v]) && Spelled(b, at, VenuesFields(vs + [v]), end)
  {
    VenuesLast(vs, v);
    SpelledTogether(b, at, VenuesFields(vs), mid, VenueFields(v), end);
  }

  lemma {:induction false} ReadVenuesStand(b: Bytes, at: nat, n: nat)
    requires at <= |b| && ReadVenues(b, at, n).GotVenues?
    ensures var r := ReadVenues(b, at, n); VenuesOk(r.venues) && Spelled(b, at, VenuesFields(r.venues), r.end)
  {
    if n > 0 {
      var front := ReadVenues(b, at, n - 1);
      ReadVenuesStand(b, at, n - 1);
      ReadVenueStands(b, front.end);
      var last := ReadVenue(b, front.end);
      VenuesSpelledMore(b, at, front.venues, front.end, last.venue, last.end);
    }
  }

  lemma {:induction false} ConfigFieldsBack(ps: seq<Field>, ls: seq<Field>, venues: seq<Venue>)
    requires Kinded(ps, PATH_KINDS) && Kinded(ls, LIMIT_KINDS) && ValueOf(ls[7]) == |venues|
    ensures PathFields(ConfigOf(ps, ls, venues)) == ps && LimitFields(ConfigOf(ps, ls, venues)) == ls
    ensures PathsOk(ConfigOf(ps, ls, venues))
  {
    Texts(ps, PATH_KINDS);
    Numbers(ls, LIMIT_KINDS);
  }

  lemma {:induction false} ThreeSpelled(
      b: Bytes, at: nat, fs: seq<Field>, e1: nat, gs: seq<Field>, e2: nat, hs: seq<Field>, e3: nat)
    requires Spelled(b, at, fs, e1) && Spelled(b, e1, gs, e2) && Spelled(b, e2, hs, e3)
    ensures Spelled(b, at, fs + gs + hs, e3)
  {
    SpelledTogether(b, at, fs, e1, gs, e2);
    SpelledTogether(b, at, fs + gs, e2, hs, e3);
  }

  lemma {:induction false} ConfigPartsStand(
      b: Bytes, at: nat, ps: seq<Field>, e1: nat, ls: seq<Field>, e2: nat, vs: seq<Venue>, e3: nat)
    requires Kinded(ps, PATH_KINDS) && Kinded(ls, LIMIT_KINDS) && 1 <= ValueOf(ls[7]) == |vs| <= MAXIMUM_VENUES
    requires Spelled(b, at, ps, e1) && Spelled(b, e1, ls, e2) && VenuesOk(vs) && Spelled(b, e2, VenuesFields(vs), e3)
    ensures ConfigOk(ConfigOf(ps, ls, vs)) && Spelled(b, at, ConfigFields(ConfigOf(ps, ls, vs)), e3)
  {
    ConfigFieldsBack(ps, ls, vs);
    ThreeSpelled(b, at, ps, e1, ls, e2, VenuesFields(vs), e3);
  }

  /** A part that was read, with what its bytes are. */
  lemma {:induction false} PartTaken(b: Bytes, at: nat, ks: seq<Kind>) returns (fs: seq<Field>, end: nat)
    requires at <= |b| && ReadAll(b, at, ks).Message?
    ensures ReadAll(b, at, ks) == Message(fs, end) && end <= |b| && |fs| == |ks| && Kinded(fs, ks)
    ensures Spelled(b, at, fs, end)
  {
    MessageStands(b, at, ks);
    fs, end := ReadAll(b, at, ks).fields, ReadAll(b, at, ks).end;
  }

  lemma {:induction false} PathsTaken(b: Bytes, at: nat)
    requires at <= |b| && ReadConfig(b, at).GotConfig?
    ensures ReadAll(b, at, PATH_KINDS).Message?
  {
  }

  lemma {:induction false} LimitsTaken(b: Bytes, at: nat, ps: seq<Field>, e1: nat)
    requires at <= |b| && e1 <= |b| && ReadConfig(b, at).GotConfig? && ReadAll(b, at, PATH_KINDS) == Message(ps, e1)
    ensures ReadAll(b, e1, LIMIT_KINDS).Message?
  {
  }

  lemma {:induction false} VenuesTaken(b: Bytes, at: nat, ps: seq<Field>, e1: nat, ls: seq<Field>, e2: nat)
    requires at <= |b| && e1 <= |b| && e2 <= |b| && ReadConfig(b, at).GotConfig?
    requires ReadAll(b, at, PATH_KINDS) == Message(ps, e1) && ReadAll(b, e1, LIMIT_KINDS) == Message(ls, e2)
    requires |ls| == 8
    ensures 1 <= ValueOf(ls[7]) <= MAXIMUM_VENUES && ReadVenues(b, e2, ValueOf(ls[7])).GotVenues?
  {
  }

  /** The parts an accepted configuration was put together from. */
  lemma {:induction false} ConfigTaken(b: Bytes, at: nat)
    returns (ps: seq<Field>, e1: nat, ls: seq<Field>, e2: nat, vs: seq<Venue>, e3: nat)
    requires at <= |b| && ReadConfig(b, at).GotConfig?
    ensures Kinded(ps, PATH_KINDS) && Spelled(b, at, ps, e1) && Kinded(ls, LIMIT_KINDS) && Spelled(b, e1, ls, e2)
    ensures 1 <= ValueOf(ls[7]) == |vs| <= MAXIMUM_VENUES && VenuesOk(vs) && Spelled(b, e2, VenuesFields(vs), e3)
    ensures ReadConfig(b, at) == GotConfig(ConfigOf(ps, ls, vs), e3)
  {
    PathsTaken(b, at);
    ps, e1 := PartTaken(b, at, PATH_KINDS);
    LimitsTaken(b, at, ps, e1);
    ls, e2 := PartTaken(b, e1, LIMIT_KINDS);
    VenuesTaken(b, at, ps, e1, ls, e2);
    var venues := ReadVenues(b, e2, ValueOf(ls[7]));
    ReadVenuesStand(b, e2, ValueOf(ls[7]));
    vs, e3 := venues.venues, venues.end;
    ConfigAssembles(b, at, ps, ls, vs, e1, e2, e3);
  }

  /** Whatever the decoder accepts as a configuration is byte for byte what the encoder writes for it. */
  lemma {:induction false} ReadConfigStands(b: Bytes, at: nat)
    requires at <= |b| && ReadConfig(b, at).GotConfig?
    ensures var r := ReadConfig(b, at); ConfigOk(r.config) && Spelled(b, at, ConfigFields(r.config), r.end)
  {
    var ps, e1, ls, e2, vs, e3 := ConfigTaken(b, at);
    ConfigPartsStand(b, at, ps, e1, ls, e2, vs, e3);
  }

  lemma {:induction false} SpelledWhole(b: Bytes, fs: seq<Field>)
    ensures Spelled(b, 0, fs, |b|) <==> b == WireAll(fs)
  {
    StandsSlice(b, 0, WireAll(fs));
  }

  /** A fully consumed payload decodes to a configuration exactly when it is the encoding of that
      configuration. */
  lemma {:induction false} ConfigRoundTrip(b: Bytes, c: Config)
    ensures ReadConfig(b, 0) == GotConfig(c, |b|) <==> ConfigOk(c) && b == WireAll(ConfigFields(c))
  {
    if ReadConfig(b, 0) == GotConfig(c, |b|) {
      ReadConfigStands(b, 0);
      SpelledWhole(b, ConfigFields(c));
    }
    if ConfigOk(c) && b == WireAll(ConfigFields(c)) {
      SpelledWhole(b, ConfigFields(c));
      ConfigReads(b, 0, c, |b|);
    }
  }

  // ---------------------------------------------------------------------------------------------
  // Status.

  datatype Report = Report(
    configured: bool, active: bool, connected: bool, complete: bool, stopping: bool, selectionPending: bool,
    captureStatus: Status, producerEpoch: u64, lossEpoch: u64, cutGeneration: u64, safeMonotonicNs: u64,
    records: u64, gaps: u64, projectedBytes: u64, sourceCount: u32, startedReceiveNs: i64, startedMonotonicNs: u64,
    sessionPath: Bytes, sourceIdentity: Bytes, error: Bytes)

  const STATUSES: seq<Status> :=
    [Status.Ok, InvalidArgument, IoError, OutOfRange, CorruptData, Unimplemented, Cancelled, Unknown]

  function CodeOf(s: Status): (n: nat)
    ensures n < |STATUSES| && STATUSES[n] == s
  {
    match s
    case Ok => 0
    case InvalidArgument => 1
    case IoError => 2
    case OutOfRange => 3
    case CorruptData => 4
    case Unimplemented => 5
    case Cancelled => 6
    case Unknown => 7
  }

  lemma {:induction false} StatusOfCode(n: nat)
    requires n < |STATUSES|
    ensures CodeOf(STATUSES[n]) == n
  {
  }

  /** Two's complement. */
  function BitsOf(v: i64): u64 { if v < 0 then v + 0x1_0000_0000_0000_0000 else v }

  function SignedOf(v: u64): i64 { if v >= 0x8000_0000_0000_0000 then v - 0x1_0000_0000_0000_0000 else v }

  function FlagFields(v: Report): seq<Field> {
    [Boolean(v.configured), Boolean(v.active), Boolean(v.connected), Boolean(v.complete), Boolean(v.stopping),
        Boolean(v.selectionPending)]
  }

  const FLAG_KINDS: seq<Kind> := Repeat(FlagKind, 6)

  function EpochFields(v: Report): seq<Field> {
    [Number(4, CodeOf(v.captureStatus)), Number(8, v.producerEpoch), Number(8, v.lossEpoch), Number(8, v.cutGeneration),
     Number(8, v.safeMonotonicNs), Number(8, v.records)]
  }

  const EPOCH_KINDS: seq<Kind> := [NumberKind(4)] + Repeat(NumberKind(8), 5)

  function TotalFields(v: Report): seq<Field> {
    [Number(8, v.gaps), Number(8, v.projectedBytes), Number(4, v.sourceCount), Number(8, BitsOf(v.startedReceiveNs)),
     Number(8, v.startedMonotonicNs)]
  }

  const TOTAL_KINDS: seq<Kind> := Repeat(NumberKind(8), 2) + [NumberKind(4)] + Repeat(NumberKind(8), 2)

  function CounterFields(v: Report): seq<Field> { EpochFields(v) + TotalFields(v) }

  const COUNTER_KINDS: seq<Kind> := EPOCH_KINDS + TOTAL_KINDS

  function NoteFields(v: Report): seq<Field> {
    [Text(4096, v.sessionPath), Text(4096, v.sourceIdentity), Text(4096, v.error)]
  }

  const NOTE_KINDS: seq<Kind> := Repeat(TextKind(4096), 3)

  function ReportFields(v: Report): seq<Field> { FlagFields(v) + CounterFields(v) + NoteFields(v) }

  predicate ReportOk(v: Report) {
    Sendable(v.sessionPath, 4096) && Sendable(v.sourceIdentity, 4096) && Sendable(v.error, 4096)
  }

  datatype GotReport = GotReport(report: Report, end: nat) | NoReport

  function ReportOf(fs: seq<Field>, ns: seq<Field>, ts: seq<Field>): Report
    requires Kinded(fs, FLAG_KINDS) && Kinded(ns, COUNTER_KINDS) && Kinded(ts, NOTE_KINDS)
    requires ValueOf(ns[0]) < |STATUSES|
  {
    Flags(fs, FLAG_KINDS);
    Numbers(ns, COUNTER_KINDS);
    Texts(ts, NOTE_KINDS);
    Bounds();
    Report(IsOn(fs[0]), IsOn(fs[1]), IsOn(fs[2]), IsOn(fs[3]), IsOn(fs[4]), IsOn(fs[5]), STATUSES[ValueOf(ns[0])],
           ValueOf(ns[1]), ValueOf(ns[2]), ValueOf(ns[3]), ValueOf(ns[4]), ValueOf(ns[5]), ValueOf(ns[6]),
               ValueOf(ns[7]),
           ValueOf(ns[8]), SignedOf(ValueOf(ns[9])), ValueOf(ns[10]), TextOf(ts[0]), TextOf(ts[1]), TextOf(ts[2]))
  }

  function ReadReport(b: Bytes, at: nat): (r: GotReport)
    requires at <= |b|
    ensures r.GotReport? ==> at <= r.end <= |b|
  {
    var flags := ReadAll(b, at, FLAG_KINDS);
    if flags.Malformed? then NoReport
    else
      MessageStands(b, at, FLAG_KINDS);
      var counters := ReadAll(b, flags.end, COUNTER_KINDS);
      if counters.Malformed? then NoReport
      else
        MessageStands(b, flags.end, COUNTER_KINDS);
        var notes := ReadAll(b, counters.end, NOTE_KINDS);
        if notes.Malformed? || ValueOf(counters.fields[0]) >= |STATUSES| then NoReport
        else
          MessageStands(b, counters.end, NOTE_KINDS);
          GotReport(ReportOf(flags.fields, counters.fields, notes.fields), notes.end)
  }

  lemma {:induction false} FlagsShape(v: Report)
    ensures Kinded(FlagFields(v), FLAG_KINDS)
  {
    assert KindsOf(FlagFields(v)) == FLAG_KINDS;
  }

  lemma {:induction false} NotesShape(v: Report)
    requires ReportOk(v)
    ensures Kinded(NoteFields(v), NOTE_KINDS)
  {
    assert KindsOf(NoteFields(v)) == NOTE_KINDS;
    TextField(4096, v.sessionPath);
    TextField(4096, v.sourceIdentity);
    TextField(4096, v.error);
  }

  function Epochs(v: Report): (cs: seq<nat>)
    ensures |cs| == 6
  {
    [CodeOf(v.captureStatus), v.producerEpoch, v.lossEpoch, v.cutGeneration, v.safeMonotonicNs, v.records]
  }

  function Totals(v: Report): (cs: seq<nat>)
    ensures |cs| == 5
  {
    [v.gaps, v.projectedBytes, v.sourceCount, BitsOf(v.startedReceiveNs), v.startedMonotonicNs]
  }

  function Counters(v: Report): (cs: seq<nat>)
    ensures |cs| == 11
  {
    Epochs(v) + Totals(v)
  }

  lemma {:induction false} EpochsShape(v: Report)
    ensures Kinded(EpochFields(v), EPOCH_KINDS)
    ensures forall i :: 0 <= i < 6 ==> ValueOf(EpochFields(v)[i]) == Epochs(v)[i]
  {
    assert KindsOf(EpochFields(v)) == EPOCH_KINDS;
    Bounds();
    NumberField(4, CodeOf(v.captureStatus));
    NumberField(8, v.producerEpoch);
    NumberField(8, v.lossEpoch);
    NumberField(8, v.cutGeneration);
    NumberField(8, v.safeMonotonicNs);
    NumberField(8, v.records);
  }

  lemma {:induction false} TotalsShape(v: Report)
    ensures Kinded(TotalFields(v), TOTAL_KINDS)
    ensures forall i :: 0 <= i < 5 ==> ValueOf(TotalFields(v)[i]) == Totals(v)[i]
  {
    assert KindsOf(TotalFields(v)) == TOTAL_KINDS;
    Bounds();
    NumberField(8, v.gaps);
    NumberField(8, v.projectedBytes);
    NumberField(4, v.sourceCount);
    NumberField(8, BitsOf(v.startedReceiveNs));
    NumberField(8, v.startedMonotonicNs);
  }

  lemma {:induction false} KindedTogether(fs: seq<Field>, ks: seq<Kind>, gs: seq<Field>, ls: seq<Kind>)
    requires Kinded(fs, ks) && Kinded(gs, ls)
    ensures Kinded(fs + gs, ks + ls)
  {
    assert KindsOf(fs + gs) == KindsOf(fs) + KindsOf(gs);
  }

  lemma {:induction false} CountersShape(v: Report)
    ensures Kinded(CounterFields(v), COUNTER_KINDS)
    ensures forall i :: 0 <= i < 11 ==> ValueOf(CounterFields(v)[i]) == Counters(v)[i]
  {
    EpochsShape(v);
    TotalsShape(v);
    KindedTogether(EpochFields(v), EPOCH_KINDS, TotalFields(v), TOTAL_KINDS);
    forall i | 0 <= i < 11
      ensures ValueOf(CounterFields(v)[i]) == Counters(v)[i]
    {
      if i >= 6 { assert CounterFields(v)[i] == TotalFields(v)[i - 6] && Counters(v)[i] == Totals(v)[i - 6]; }
    }
  }

  lemma {:induction false} ReportShape(v: Report)
    requires ReportOk(v)
    ensures Kinded(FlagFields(v), FLAG_KINDS) && Kinded(CounterFields(v), COUNTER_KINDS)
    ensures Kinded(NoteFields(v), NOTE_KINDS)
    ensures ValueOf(CounterFields(v)[0]) < |STATUSES|
    ensures ReportOf(FlagFields(v), CounterFields(v), NoteFields(v)) == v
  {
    FlagsShape(v);
    NotesShape(v);
    CountersShape(v);
    TextField(4096, v.sessionPath);
    TextField(4096, v.sourceIdentity);
    TextField(4096, v.error);
    assert ValueOf(CounterFields(v)[0]) == CodeOf(v.captureStatus);
  }

  lemma {:induction false} ReportAssembles(
      b: Bytes, at: nat, fs: seq<Field>, ns: seq<Field>, ts: seq<Field>, e1: nat, e2: nat, e3: nat)
    requires at <= |b| && e1 <= |b| && e2 <= |b|
    requires Kinded(fs, FLAG_KINDS) && Kinded(ns, COUNTER_KINDS) && Kinded(ts, NOTE_KINDS)
    requires ValueOf(ns[0]) < |STATUSES|
    requires ReadAll(b, at, FLAG_KINDS) == Message(fs, e1) && ReadAll(b, e1, COUNTER_KINDS) == Message(ns, e2)
    requires ReadAll(b, e2, NOTE_KINDS) == Message(ts, e3)
    ensures ReadReport(b, at) == GotReport(ReportOf(fs, ns, ts), e3)
  {
  }

  lemma {:induction false} ReportPartsRead(b: Bytes, at: nat, fs: seq<Field>, ns: seq<Field>, ts: seq<Field>, end: nat)
    requires Kinded(fs, FLAG_KINDS) && Kinded(ns, COUNTER_KINDS) && Kinded(ts, NOTE_KINDS)
    requires ValueOf(ns[0]) < |STATUSES|
    requires Spelled(b, at, fs + ns + ts, end)
    ensures at <= |b| && ReadReport(b, at) == GotReport(ReportOf(fs, ns, ts), end)
  {
    var e1, e2 := at + |WireAll(fs)|, at + |WireAll(fs + ns)|;
    SpelledJoin(b, at, fs + ns, ts, end);
    SpelledJoin(b, at, fs, ns, e2);
    MessageReads(b, at, fs, e1);
    MessageReads(b, e1, ns, e2);
    MessageReads(b, e2, ts, end);
    ReportAssembles(b, at, fs, ns, ts, e1, e2, end);
  }

  /** An encoded status decodes to itself, and the decoder stops where the encoding ends. */
  lemma {:induction false} ReportReads(b: Bytes, at: nat, v: Report, end: nat)
    requires ReportOk(v) && Spelled(b, at, ReportFields(v), end)
    ensures at <= |b| && ReadReport(b, at) == GotReport(v, end)
  {
    ReportShape(v);
    ReportPartsRead(b, at, FlagFields(v), CounterFields(v), NoteFields(v), end);
  }

  lemma {:induction false} CounterAt(v: Report, i: nat)
    requires i < 11
    ensures CounterFields(v)[i] == Number(COUNTER_KINDS[i].width, Counters(v)[i])
  {
  }

  lemma {:induction false} CountersBack(v: Report, ns: seq<Field>)
    requires Kinded(ns, COUNTER_KINDS)
    requires forall i :: 0 <= i < 11 ==> Counters(v)[i] == ValueOf(ns[i])
    ensures CounterFields(v) == ns
  {
    Numbers(ns, COUNTER_KINDS);
    var fs := CounterFields(v);
    forall i | 0 <= i < 11
      ensures fs[i] == ns[i]
    {
      CounterAt(v, i);
    }
  }

  lemma {:induction false} FlagsBack(v: Report, fs: seq<Field>)
    requires Kinded(fs, FLAG_KINDS) && forall i :: 0 <= i < 6 ==> |fs[i].image| == 1
    requires v.configured == IsOn(fs[0]) && v.active == IsOn(fs[1]) && v.connected == IsOn(fs[2])
    requires v.complete == IsOn(fs[3]) && v.stopping == IsOn(fs[4]) && v.selectionPending == IsOn(fs[5])
    ensures FlagFields(v) == fs
  {
    Flags(fs, FLAG_KINDS);
  }

  lemma {:induction false} NotesBack(v: Report, ts: seq<Field>)
    requires Kinded(ts, NOTE_KINDS) && forall i :: 0 <= i < 3 ==> |ts[i].image| >= 4
    requires v.sessionPath == TextOf(ts[0]) && v.sourceIdentity == TextOf(ts[1]) && v.error == TextOf(ts[2])
    ensures ReportOk(v) && NoteFields(v) == ts
  {
    Texts(ts, NOTE_KINDS);
  }

  lemma {:induction false} ReportFieldsBack(fs: seq<Field>, ns: seq<Field>, ts: seq<Field>)
    requires Kinded(fs, FLAG_KINDS) && Kinded(ns, COUNTER_KINDS) && Kinded(ts, NOTE_KINDS)
    requires ValueOf(ns[0]) < |STATUSES|
    ensures var v := ReportOf(fs, ns, ts);
      ReportOk(v) && FlagFields(v) == fs && CounterFields(v) == ns && NoteFields(v) == ts
  {
    var v := ReportOf(fs, ns, ts);
    assert forall i :: 0 <= i < 6 ==> |fs[i].image| == 1 by { Flags(fs, FLAG_KINDS); }
    assert forall i :: 0 <= i < 3 ==> |ts[i].image| >= 4 by { Texts(ts, NOTE_KINDS); }
    FlagsBack(v, fs);
    NotesBack(v, ts);
    StatusOfCode(ValueOf(ns[0]));
    CountersBack(v, ns);
  }

  lemma {:induction false} ReportPartsStand(
      b: Bytes, at: nat, fs: seq<Field>, e1: nat, ns: seq<Field>, e2: nat, ts: seq<Field>, e3: nat)
    requires Kinded(fs, FLAG_KINDS) && Kinded(ns, COUNTER_KINDS) && Kinded(ts, NOTE_KINDS)
    requires ValueOf(ns[0]) < |STATUSES|
    requires Spelled(b, at, fs, e1) && Spelled(b, e1, ns, e2) && Spelled(b, e2, ts, e3)
    ensures ReportOk(ReportOf(fs, ns, ts)) && Spelled(b, at, ReportFields(ReportOf(fs, ns, ts)), e3)
  {
    ReportFieldsBack(fs, ns, ts);
    ThreeSpelled(b, at, fs, e1, ns, e2, ts, e3);
  }

  lemma {:induction false} FlagsTaken(b: Bytes, at: nat)
    requires at <= |b| && ReadReport(b, at).GotReport?
    ensures ReadAll(b, at, FLAG_KINDS).Message?
  {
  }

  lemma {:induction false} CountersTaken(b: Bytes, at: nat, fs: seq<Field>, e1: nat)
    requires at <= |b| && e1 <= |b| && ReadReport(b, at).GotReport? && ReadAll(b, at, FLAG_KINDS) == Message(fs, e1)
    ensures ReadAll(b, e1, COUNTER_KINDS).Message?
  {
  }

  lemma {:induction false} NotesTaken(b: Bytes, at: nat, fs: seq<Field>, e1: nat, ns: seq<Field>, e2: nat)
    requires at <= |b| && e1 <= |b| && e2 <= |b| && ReadReport(b, at).GotReport?
    requires ReadAll(b, at, FLAG_KINDS) == Message(fs, e1) && ReadAll(b, e1, COUNTER_KINDS) == Message(ns, e2)
    requires |ns| == 11
    ensures ValueOf(ns[0]) < |STATUSES| && ReadAll(b, e2, NOTE_KINDS).Message?
  {
  }

  lemma {:induction false} ReportTaken(b: Bytes, at: nat)
    returns (fs: seq<Field>, e1: nat, ns: seq<Field>, e2: nat, ts: seq<Field>, e3: nat)
    requires at <= |b| && ReadReport(b, at).GotReport?
    ensures Kinded(fs, FLAG_KINDS) && Spelled(b, at, fs, e1) && Kinded(ns, COUNTER_KINDS) && Spelled(b, e1, ns, e2)
    ensures Kinded(ts, NOTE_KINDS) && Spelled(b, e2, ts, e3) && ValueOf(ns[0]) < |STATUSES|
    ensures ReadReport(b, at) == GotReport(ReportOf(fs, ns, ts), e3)
  {
    FlagsTaken(b, at);
    fs, e1 := PartTaken(b, at, FLAG_KINDS);
    CountersTaken(b, at, fs, e1);
    ns, e2 := PartTaken(b, e1, COUNTER_KINDS);
    NotesTaken(b, at, fs, e1, ns, e2);
    ts, e3 := PartTaken(b, e2, NOTE_KINDS);
    ReportAssembles(b, at, fs, ns, ts, e1, e2, e3);
  }

  /** Whatever the decoder accepts as a status is byte for byte what the encoder writes for it. */
  lemma {:induction false} ReadReportStands(b: Bytes, at: nat)
    requires at <= |b| && ReadReport(b, at).GotReport?
    ensures var r := ReadReport(b, at); ReportOk(r.report) && Spelled(b, at, ReportFields(r.report), r.end)
  {
    var fs, e1, ns, e2, ts, e3 := ReportTaken(b, at);
    ReportPartsStand(b, at, fs, e1, ns, e2, ts, e3);
  }

  /** The same for a status. */
  lemma {:induction false} ReportRoundTrip(b: Bytes, v: Report)
    ensures ReadReport(b, 0) == GotReport(v, |b|) <==> ReportOk(v) && b == WireAll(ReportFields(v))
  {
    if ReadReport(b, 0) == GotReport(v, |b|) {
      ReadReportStands(b, 0);
      SpelledWhole(b, ReportFields(v));
    }
    if ReportOk(v) && b == WireAll(ReportFields(v)) {
      SpelledWhole(b, ReportFields(v));
      ReportReads(b, 0, v, |b|);
    }
  }

  // ---------------------------------------------------------------------------------------------
  // Packets.

  const MAGIC: nat := 0x5352_4348
  const HEADER_BYTES: nat := 16

  predicate IsOperation(op: nat) { 1 <= op <= 8 }

  /** The two bytes between the operation and the reserved word are padding: nobody reads them. */
  function Frame(op: nat, payload: Bytes, padding: Bytes): Bytes {
    Put(4, MAGIC) + Put(4, |payload|) + Put(2, op) + padding + Put(4, 0) + payload
  }

  /** Empty when the payload is not valid or does not fit a message. */
  function Packet(op: nat, payload: Bytes, valid: bool, padding: Bytes): Bytes {
    if !valid || |payload| > MAXIMUM_MESSAGE - HEADER_BYTES then [] else Frame(op, payload, padding)
  }

  datatype Parsed = Parsed(op: nat, payload: Bytes) | Unparsed

  function ParsePacket(b: Bytes): Parsed {
    if |b| < HEADER_BYTES then Unparsed
    else
      var op := Take(b[8..10]);
      if Take(b[0..4]) != MAGIC || Take(b[12..16]) != 0 || Take(b[4..8]) != |b| - HEADER_BYTES || !IsOperation(op)
      then Unparsed else Parsed(op, b[HEADER_BYTES..])
  }

  lemma {:induction false} Sections(m: Bytes, s: Bytes, o: Bytes, p: Bytes, z: Bytes, payload: Bytes)
    requires |m| == |s| == |z| == 4 && |o| == |p| == 2
    ensures var b := m + s + o + p + z + payload;
      && |b| == 16 + |payload| && b[0..4] == m && b[4..8] == s && b[8..10] == o && b[10..12] == p && b[12..16] == z
      && b[16..] == payload
  {
  }

  /** A frame parses to its operation and payload, whatever its padding. */
  lemma {:induction false} FrameParses(op: nat, payload: Bytes, padding: Bytes)
    requires IsOperation(op) && |payload| < 0x1_0000_0000 && |padding| == 2
    ensures ParsePacket(Frame(op, payload, padding)) == Parsed(op, payload)
  {
    Bounds();
    Sections(Put(4, MAGIC), Put(4, |payload|), Put(2, op), padding, Put(4, 0), payload);
    NumberRoundTrip(4, MAGIC, Put(4, MAGIC));
    NumberRoundTrip(4, |payload|, Put(4, |payload|));
    NumberRoundTrip(2, op, Put(2, op));
    NumberRoundTrip(4, 0, Put(4, 0));
  }

  lemma {:induction false} Pieces(b: Bytes)
    requires |b| >= 16
    ensures b == b[0..4] + b[4..8] + b[8..10] + b[10..12] + b[12..16] + b[16..]
  {
  }

  /** Only frames parse. */
  lemma {:induction false} ParsedIsFrame(b: Bytes)
    requires ParsePacket(b).Parsed?
    ensures var p := ParsePacket(b); IsOperation(p.op) && b == Frame(p.op, p.payload, b[10..12])
  {
    Pieces(b);
    NumberRoundTrip(4, 0, b[0..4]);
    NumberRoundTrip(4, 0, b[4..8]);
    NumberRoundTrip(2, 0, b[8..10]);
    NumberRoundTrip(4, 0, b[12..16]);
  }

  // ---------------------------------------------------------------------------------------------
  // Replies.

  datatype Explanation = Sent(text: Bytes) | BadFraming | BadEnvelope

  datatype Reply = Reply(status: Status, error: Explanation, body: Bytes)

  function EnvelopeFields(status: Status, error: Bytes): seq<Field> {
    [Number(4, CodeOf(status)), Text(4096, error)]
  }

  const ENVELOPE_KINDS: seq<Kind> := [NumberKind(4)] + Repeat(TextKind(4096), 1)

  /** What the server sends back: the envelope, and the body when the operation succeeded. */
  function Respond(op: nat, status: Status, refusal: Bytes, body: Bytes, bodyValid: bool, padding: Bytes): Bytes {
    Packet(op, WireAll(EnvelopeFields(status, refusal)) + (if status.Ok? then body else []),
           bodyValid && Sendable(refusal, 4096), padding)
  }

  function DecodeReply(b: Bytes, expected: nat): Reply {
    var p := ParsePacket(b);
    if p.Unparsed? || p.op != expected then Reply(CorruptData, BadFraming, [])
    else
      var envelope := ReadAll(p.payload, 0, ENVELOPE_KINDS);
      if envelope.Malformed? then Reply(CorruptData, BadEnvelope, [])
      else
        MessageStands(p.payload, 0, ENVELOPE_KINDS);
        Texts(envelope.fields, ENVELOPE_KINDS);
        var code := ValueOf(envelope.fields[0]);
        if code >= |STATUSES| || (code != 0 && envelope.end != |p.payload|) then Reply(CorruptData, BadEnvelope, [])
        else Reply(STATUSES[code], Sent(TextOf(envelope.fields[1])), if code == 0 then p.payload[envelope.end..]
        else [])
  }

  lemma {:induction false} EnvelopeShape(status: Status, error: Bytes)
    requires Sendable(error, 4096)
    ensures var fs := EnvelopeFields(status, error);
      Kinded(fs, ENVELOPE_KINDS) && ValueOf(fs[0]) == CodeOf(status) && TextOf(fs[1]) == error
  {
    assert KindsOf(EnvelopeFields(status, error)) == ENVELOPE_KINDS;
    Bounds();
    NumberField(4, CodeOf(status));
    TextField(4096, error);
  }

  lemma {:induction false} EnvelopeReads(fs: seq<Field>, body: Bytes)
    requires Kinded(fs, ENVELOPE_KINDS)
    ensures ReadAll(WireAll(fs) + body, 0, ENVELOPE_KINDS) == Message(fs, |WireAll(fs)|)
  {
    StandsSlice(WireAll(fs) + body, 0, WireAll(fs));
    MessageReads(WireAll(fs) + body, 0, fs, |WireAll(fs)|);
  }

  lemma {:induction false} ReplyReads(op: nat, fs: seq<Field>, body: Bytes, padding: Bytes)
    requires IsOperation(op) && |padding| == 2 && |WireAll(fs) + body| < 0x1_0000_0000
    requires Kinded(fs, ENVELOPE_KINDS) && ValueOf(fs[0]) < |STATUSES| && (ValueOf(fs[0]) != 0 ==> body == [])
    ensures DecodeReply(Frame(op, WireAll(fs) + body, padding), op).status == STATUSES[ValueOf(fs[0])]
    ensures |fs[1].image| >= 4 && DecodeReply(Frame(op, WireAll(fs) + body, padding), op).error == Sent(TextOf(fs[1]))
    ensures DecodeReply(Frame(op, WireAll(fs) + body, padding), op).body == body
  {
    FrameParses(op, WireAll(fs) + body, padding);
    EnvelopeReads(fs, body);
    Texts(fs, ENVELOPE_KINDS);
    assert (WireAll(fs) + body)[|WireAll(fs)|..] == body;
  }

  lemma {:induction false} EnvelopeLength(status: Status, error: Bytes)
    ensures |WireAll(EnvelopeFields(status, error))| == 8 + |error|
  {
    var n, t := Number(4, CodeOf(status)), Text(4096, error);
    WireLast([n], t);
    WireLast([], n);
    assert [] + [n] == [n] && [n] + [t] == EnvelopeFields(status, error);
  }

  /** The client receives the status, the explanation and the body the server put in; the server
      answers at all exactly when the explanation can be sent, the body is valid and the whole fits
      a message. */
  lemma {:induction false} ReplyRoundTrip(
      op: nat, status: Status, refusal: Bytes, body: Bytes, bodyValid: bool, padding: Bytes)
    requires IsOperation(op) && |padding| == 2
    ensures var response := Respond(op, status, refusal, body, bodyValid, padding);
      var sent := if status.Ok? then body else [];
      && (response != [] ==> DecodeReply(response, op) == Reply(status, Sent(refusal), sent))
      && (response != [] <==>
          bodyValid && Sendable(refusal, 4096) && 24 + |refusal| + |sent| <= MAXIMUM_MESSAGE)
  {
    var sent := if status.Ok? then body else [];
    EnvelopeLength(status, refusal);
    var fs := EnvelopeFields(status, refusal);
    if bodyValid && Sendable(refusal, 4096) && |WireAll(fs) + sent| <= MAXIMUM_MESSAGE - HEADER_BYTES {
      EnvelopeShape(status, refusal);
      ReplyReads(op, fs, sent, padding);
    }
  }

  lemma {:induction false} EnvelopeBack(fs: seq<Field>)
    requires Kinded(fs, ENVELOPE_KINDS) && ValueOf(fs[0]) < |STATUSES|
    ensures |fs[1].image| >= 4 && EnvelopeFields(STATUSES[ValueOf(fs[0])], TextOf(fs[1])) == fs
    ensures Sendable(TextOf(fs[1]), 4096)
  {
    Numbers(fs, ENVELOPE_KINDS);
    Texts(fs, ENVELOPE_KINDS);
    StatusOfCode(ValueOf(fs[0]));
  }

  lemma {:induction false} EnvelopeStands(payload: Bytes)
    requires ReadAll(payload, 0, ENVELOPE_KINDS).Message?
    ensures var e := ReadAll(payload, 0, ENVELOPE_KINDS);
      Kinded(e.fields, ENVELOPE_KINDS) && payload == WireAll(e.fields) + payload[e.end..] &&
          e.end == |WireAll(e.fields)|
  {
    var e := ReadAll(payload, 0, ENVELOPE_KINDS);
    MessageStands(payload, 0, ENVELOPE_KINDS);
    StandsSlice(payload, 0, WireAll(e.fields));
    assert payload == payload[0..e.end] + payload[e.end..];
  }

  /** A reply that is not rejected is the frame of exactly what it is taken to say. */
  lemma {:induction false} ReplyIsFramed(b: Bytes, expected: nat)
    requires DecodeReply(b, expected).error.Sent?
    ensures var r := DecodeReply(b, expected);
      && |b| >= HEADER_BYTES && Sendable(r.error.text, 4096) && (!r.status.Ok? ==> r.body == [])
      && b == Frame(expected, WireAll(EnvelopeFields(r.status, r.error.text)) + r.body, b[10..12])
  {
    var p := ParsePacket(b);
    ParsedIsFrame(b);
    EnvelopeStands(p.payload);
    EnvelopeBack(ReadAll(p.payload, 0, ENVELOPE_KINDS).fields);
  }
}
