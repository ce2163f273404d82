/** The encoder and decoder objects of the control service, proved against the message functions:
    the encoder is valid at the end exactly when everything it was given may be sent and fits, and
    the decoder exactly when the bytes spell a message. */
module ServiceObject {
  import opened Records
  import opened WireFormat
  import opened ServiceProtocol

  // ---------------------------------------------------------------------------------------------
  // Encoding.

  class Encoder {
    var bytes: Bytes
    var valid: bool
    /** Everything the encoder was asked to write. */
    ghost var asked: seq<Field>
    /** Whether the message was refused for a reason other than one of its fields. */
    ghost var vetoed: bool

    ghost predicate Valid()
      reads this
    {
      && |bytes| <= MAXIMUM_MESSAGE
      && (valid <==> !vetoed && AllEncodable(asked) && |WireAll(asked)| <= MAXIMUM_MESSAGE)
      && (valid ==> bytes == WireAll(asked))
    }

    constructor ()
      ensures Valid() && asked == [] && !vetoed && bytes == [] && valid
    {
      bytes, valid, asked, vetoed := [], true, [], false;
    }

    /** Fixed-width value: refused when it does not fit the rest of the message. */
    method Pod(w: nat, v: nat)
      requires Valid() && v < Bound(w)
      modifies this
      ensures Valid() && asked == old(asked) + [Number(w, v)] && vetoed == old(vetoed)
    {
      NumberField(w, v);
      WireLast(asked, Number(w, v));
      AskedMore(asked, Number(w, v));
      asked := asked + [Number(w, v)];
      if w > MAXIMUM_MESSAGE - |bytes| {
        valid := false;
        return;
      }
      bytes := bytes + Put(w, v);
    }

    method String(t: Bytes, maximum: u32)
      requires Valid()
      modifies this
      ensures Valid() && asked == old(asked) + [Text(maximum, t)] && vetoed == old(vetoed)
    {
      TextField(maximum, t);
      WireLast(asked, Text(maximum, t));
      AskedMore(asked, Text(maximum, t));
      asked := asked + [Text(maximum, t)];
      if |t| > maximum || 0 in t || |t| + 4 > MAXIMUM_MESSAGE - |bytes| {
        valid := false;
        return;
      }
      bytes := bytes + Put(4, |t|);
      Assoc(old(bytes), Put(4, |t|), t);
      bytes := bytes + t;
    }

    method Flag(on: bool)
      requires Valid()
      modifies this
      ensures Valid() && asked == old(asked) + [Boolean(on)] && vetoed == old(vetoed)
    {
      Bounds();
      var v := if on then 1 else 0;
      assert Put(1, v) == [v];
      WireLast(asked, Boolean(on));
      AskedMore(asked, Boolean(on));
      asked := asked + [Boolean(on)];
      if 1 > MAXIMUM_MESSAGE - |bytes| {
        valid := false;
        return;
      }
      bytes := bytes + Put(1, v);
    }

    method Refuse()
      requires Valid()
      modifies this
      ensures Valid() && vetoed && !valid
    {
      valid, vetoed := false, true;
    }
  }

  lemma {:induction false} AskedMore(fs: seq<Field>, f: Field)
    ensures AllEncodable(fs + [f]) <==> AllEncodable(fs) && Encodable(f)
  {
    if AllEncodable(fs + [f]) {
      assert Encodable((fs + [f])[|fs|]);
      forall i | 0 <= i < |fs| ensures Encodable(fs[i]) { assert Encodable((fs + [f])[i]); }
    }
  }

  method EncodePaths(out: Encoder, c: Config)
    requires out.Valid()
    modifies out
    ensures out.Valid() && out.asked == old(out.asked) + PathFields(c) && out.vetoed == old(out.vetoed)
  {
    out.String(c.workspaceRoot, 4096);
    out.String(c.parserTemplate, 4096);
    out.String(c.envPath, 4096);
    out.String(c.outputRoot, 4096);
    assert out.asked == old(out.asked) + PathFields(c);
  }

  method EncodeLimits(out: Encoder, c: Config)
    requires out.Valid()
    modifies out
    ensures out.Valid() && out.asked == old(out.asked) + LimitFields(c)[..7] && out.vetoed == old(out.vetoed)
  {
    Bounds();
    out.Pod(2, c.channelMask);
    out.Pod(8, c.durationSec);
    out.Pod(8, c.maximumBytes);
    out.Pod(8, c.segmentBytes);
    out.Pod(8, c.retainedCompressedBytes);
    out.Pod(8, c.maximumReferenceBytes);
    out.Pod(4, c.writerQueueRecords);
    assert out.asked == old(out.asked) + LimitFields(c)[..7];
  }

  method EncodeNames(out: Encoder, names: seq<Bytes>)
    requires out.Valid()
    modifies out
    ensures out.Valid() && out.asked == old(out.asked) + NameFields(names) && out.vetoed == old(out.vetoed)
  {
    for i := 0 to |names|
      invariant out.Valid() && out.asked == old(out.asked) + NameFields(names)[..i] && out.vetoed == old(out.vetoed)
    {
      out.String(names[i], 128);
      assert NameFields(names)[..i + 1] == NameFields(names)[..i] + [Text(128, names[i])];
    }
    assert NameFields(names)[..|names|] == NameFields(names);
  }

  /** Vetoes a venue with too many instruments. */
  method EncodeVenue(out: Encoder, v: Venue)
    requires out.Valid() && !out.vetoed
    modifies out
    ensures out.Valid() && (out.vetoed <==> |v.instruments| > MAXIMUM_INSTRUMENTS)
    ensures !out.vetoed ==> out.asked == old(out.asked) + VenueFields(v)
  {
    out.String(v.exchange, 48);
    out.String(v.market, 48);
    out.Flag(v.fullUniverse);
    if |v.instruments| > MAXIMUM_INSTRUMENTS {
      out.Refuse();
      return;
    }
    Bounds();
    out.Pod(4, |v.instruments|);
    assert out.asked == old(out.asked) + VenueHead(v);
    EncodeNames(out, v.instruments);
    assert out.asked == old(out.asked) + VenueFields(v);
  }

  predicate Shaped(c: Config) {
    1 <= |c.venues| <= MAXIMUM_VENUES && forall i :: 0 <= i < |c.venues| ==>
        |c.venues[i].instruments| <= MAXIMUM_INSTRUMENTS
  }

  method EncodeVenues(out: Encoder, vs: seq<Venue>)
    requires out.Valid() && !out.vetoed
    modifies out
    ensures out.Valid()
    ensures out.vetoed <==> exists i :: 0 <= i < |vs| && |vs[i].instruments| > MAXIMUM_INSTRUMENTS
    ensures !out.vetoed ==> out.asked == old(out.asked) + VenuesFields(vs)
  {
    for i := 0 to |vs|
      invariant out.Valid() && !out.vetoed && out.asked == old(out.asked) + VenuesFields(vs[..i])
      invariant forall n :: 0 <= n < i ==> |vs[n].instruments| <= MAXIMUM_INSTRUMENTS
    {
      EncodeVenue(out, vs[i]);
      if |vs[i].instruments| > MAXIMUM_INSTRUMENTS { return; }
      assert vs[..i + 1] == vs[..i] + [vs[i]];
      VenuesLast(vs[..i], vs[i]);
      Append2(old(out.asked), VenuesFields(vs[..i]), VenueFields(vs[i]));
    }
    assert vs[..|vs|] == vs;
  }

  /** A fresh encoder ends valid exactly when the configuration may be sent and its encoding fits a
      message, and then holds that encoding. */
  method EncodeConfig(c: Config) returns (out: Encoder)
    ensures fresh(out) && |out.bytes| <= MAXIMUM_MESSAGE
    ensures out.valid <==> ConfigOk(c) && |WireAll(ConfigFields(c))| <= MAXIMUM_MESSAGE
    ensures out.valid ==> out.bytes == WireAll(ConfigFields(c))
  {
    out := new Encoder();
    EncodePaths(out, c);
    EncodeLimits(out, c);
    if |c.venues| == 0 || |c.venues| > MAXIMUM_VENUES {
      out.Refuse();
      return;
    }
    Bounds();
    out.Pod(4, |c.venues|);
    assert out.asked == PathFields(c) + LimitFields(c);
    EncodeVenues(out, c.venues);
    if !out.vetoed {
      assert out.asked == ConfigFields(c);
      SendableConfig(c);
    }
  }

  lemma {:induction false} SendableParts(fs: seq<Field>, gs: seq<Field>)
    ensures AllEncodable(fs + gs) <==> AllEncodable(fs) && AllEncodable(gs)
  {
    if AllEncodable(fs + gs) {
      forall i | 0 <= i < |fs| ensures Encodable(fs[i]) { assert Encodable((fs + gs)[i]); }
      forall i | 0 <= i < |gs| ensures Encodable(gs[i]) { assert Encodable((fs + gs)[|fs| + i]); }
    }
  }

  lemma {:induction false} SendableNames(names: seq<Bytes>)
    ensures AllEncodable(NameFields(names)) <==> AllSendable(names, 128)
  {
    forall i | 0 <= i < |names|
      ensures Encodable(NameFields(names)[i]) <==> Sendable(names[i], 128)
    {
      TextField(128, names[i]);
    }
  }

  lemma {:induction false} SendableVenue(v: Venue)
    requires |v.instruments| <= MAXIMUM_INSTRUMENTS
    ensures AllEncodable(VenueFields(v)) <==> VenueOk(v)
  {
    SendableParts(VenueHead(v), NameFields(v.instruments));
    SendableNames(v.instruments);
    var hs := VenueHead(v);
    Bounds();
    TextField(48, v.exchange);
    TextField(48, v.market);
    FlagField(v.fullUniverse);
    NumberField(4, |v.instruments|);
    assert AllEncodable(hs) <==> Encodable(hs[0]) && Encodable(hs[1]) && Encodable(hs[2]) && Encodable(hs[3]);
  }

  lemma {:induction false} SendableVenues(vs: seq<Venue>)
    requires forall i :: 0 <= i < |vs| ==> |vs[i].instruments| <= MAXIMUM_INSTRUMENTS
    ensures AllEncodable(VenuesFields(vs)) <==> VenuesOk(vs)
  {
    if vs != [] {
      var front, last := vs[..|vs| - 1], vs[|vs| - 1];
      SendableVenues(front);
      SendableVenue(last);
      SendableParts(VenuesFields(front), VenueFields(last));
    }
  }

  lemma {:induction false} SendableConfig(c: Config)
    requires Shaped(c)
    ensures AllEncodable(ConfigFields(c)) <==> ConfigOk(c)
  {
    SendableParts(PathFields(c) + LimitFields(c), VenuesFields(c.venues));
    SendableParts(PathFields(c), LimitFields(c));
    SendableVenues(c.venues);
    SendablePaths(c);
    SendableLimits(c);
  }

  lemma {:induction false} SendablePaths(c: Config)
    ensures AllEncodable(PathFields(c)) <==> PathsOk(c)
  {
    var ps := PathFields(c);
    TextField(4096, c.workspaceRoot);
    TextField(4096, c.parserTemplate);
    TextField(4096, c.envPath);
    TextField(4096, c.outputRoot);
    assert AllEncodable(ps) <==> Encodable(ps[0]) && Encodable(ps[1]) && Encodable(ps[2]) && Encodable(ps[3]);
  }

  lemma {:induction false} SendableLimits(c: Config)
    requires |c.venues| <= MAXIMUM_VENUES
    ensures AllEncodable(LimitFields(c))
  {
    Bounds();
  }

  method EncodeFlags(out: Encoder, v: Report)
    requires out.Valid()
    modifies out
    ensures out.Valid() && out.asked == old(out.asked) + FlagFields(v) && out.vetoed == old(out.vetoed)
  {
    out.Flag(v.configured);
    out.Flag(v.active);
    out.Flag(v.connected);
    out.Flag(v.complete);
    out.Flag(v.stopping);
    out.Flag(v.selectionPending);
    assert out.asked == old(out.asked) + FlagFields(v);
  }

  method EncodeEpochs(out: Encoder, v: Report)
    requires out.Valid()
    modifies out
    ensures out.Valid() && out.asked == old(out.asked) + EpochFields(v) && out.vetoed == old(out.vetoed)
  {
    Bounds();
    out.Pod(4, CodeOf(v.captureStatus));
    out.Pod(8, v.producerEpoch);
    out.Pod(8, v.lossEpoch);
    out.Pod(8, v.cutGeneration);
    out.Pod(8, v.safeMonotonicNs);
    out.Pod(8, v.records);
    assert out.asked == old(out.asked) + EpochFields(v);
  }

  method EncodeTotals(out: Encoder, v: Report)
    requires out.Valid()
    modifies out
    ensures out.Valid() && out.asked == old(out.asked) + TotalFields(v) && out.vetoed == old(out.vetoed)
  {
    Bounds();
    out.Pod(8, v.gaps);
    out.Pod(8, v.projectedBytes);
    out.Pod(4, v.sourceCount);
    out.Pod(8, BitsOf(v.startedReceiveNs));
    out.Pod(8, v.startedMonotonicNs);
    assert out.asked == old(out.asked) + TotalFields(v);
  }

  method EncodeNotes(out: Encoder, v: Report)
    requires out.Valid()
    modifies out
    ensures out.Valid() && out.asked == old(out.asked) + NoteFields(v) && out.vetoed == old(out.vetoed)
  {
    out.String(v.sessionPath, 4096);
    out.String(v.sourceIdentity, 4096);
    out.String(v.error, 4096);
    assert out.asked == old(out.asked) + NoteFields(v);
  }

  lemma {:induction false} SendableReport(v: Report)
    ensures AllEncodable(ReportFields(v)) <==> ReportOk(v)
  {
    SendableParts(FlagFields(v) + CounterFields(v), NoteFields(v));
    SendableParts(FlagFields(v), CounterFields(v));
    FlagsShape(v);
    CountersShape(v);
    var ts := NoteFields(v);
    TextField(4096, v.sessionPath);
    TextField(4096, v.sourceIdentity);
    TextField(4096, v.error);
    assert AllEncodable(ts) <==> Encodable(ts[0]) && Encodable(ts[1]) && Encodable(ts[2]);
  }

  method EncodeStatus(v: Report) returns (out: Encoder)
    ensures fresh(out) && |out.bytes| <= MAXIMUM_MESSAGE
    ensures out.valid <==> ReportOk(v) && |WireAll(ReportFields(v))| <= MAXIMUM_MESSAGE
    ensures out.valid ==> out.bytes == WireAll(ReportFields(v))
  {
    out := new Encoder();
    EncodeFlags(out, v);
    EncodeEpochs(out, v);
    EncodeTotals(out, v);
    EncodeNotes(out, v);
    assert out.asked == ReportFields(v);
    SendableReport(v);
  }

  // ---------------------------------------------------------------------------------------------
  // Decoding.

  /** A length and that many bytes, none of them zero; `end` is as far as the decoder got. */
  method TextAt(b: Bytes, at: nat, maximum: u32) returns (ok: bool, t: Bytes, end: nat)
    requires at <= |b|
    ensures at <= end <= |b|
    ensures ReadOne(b, at, TextKind(maximum)) == if ok then Got(Field(TextKind(maximum), b[at..end]), end) else Bad
    ensures ok ==> end - at >= 4 && t == b[at..end][4..]
  {
    ok, t, end := false, [], at;
    if 4 > |b| - at { return; }
    var size := Take(b[at..at + 4]);
    end := at + 4;
    assert ReadOne(b, at, NumberKind(4)) == Got(Field(NumberKind(4), b[at..end]), end);
    if size > maximum || size > |b| - end { return; }
    t := b[end..end + size];
    ok, end := 0 !in t, end + size;
  }

  class Decoder {
    const bytes: Bytes
    var position: nat
    var valid: bool
    /** The part being read: where it starts, whether the decoder was valid there, the kinds asked for
        and the fields found. */
    ghost var start: nat
    ghost var sound: bool
    ghost var kinds: seq<Kind>
    ghost var taken: seq<Field>

    ghost predicate Valid()
      reads this
    {
      && position <= |bytes| && start <= |bytes|
      && (valid ==> sound)
      && (sound ==> ReadAll(bytes, start, kinds) == if valid then Message(taken, position) else Malformed)
    }

    constructor (b: Bytes)
      ensures Valid() && bytes == b && position == 0 && valid
    {
      bytes, position, valid, start, sound, kinds, taken := b, 0, true, 0, true, [], [];
    }

    ghost method Begin()
      requires position <= |bytes|
      modifies this`start, this`sound, this`kinds, this`taken
      ensures Valid() && start == position && sound == valid && kinds == [] && taken == []
    {
      start, sound, kinds, taken := position, valid, [], [];
    }

    /** A decoder that is no longer valid reads nothing more. */
    method Skip(k: Kind)
      requires Valid() && !valid
      modifies this
      ensures Valid() && !valid && start == old(start) && sound == old(sound) && kinds == old(kinds) + [k]
    {
      assert (kinds + [k])[..|kinds|] == kinds;
      kinds := kinds + [k];
    }

    /** The next field has been looked at: it ends at `end`, or the decoder stops being valid there. */
    method Advance(k: Kind, ok: bool, end: nat, ghost f: Field)
      requires Valid() && valid && end <= |bytes|
      requires ReadOne(bytes, position, k) == if ok then Got(f, end) else Bad
      modifies this
      ensures Valid() && valid == ok && start == old(start) && sound == old(sound) && kinds == old(kinds) + [k]
      ensures ok ==> taken == old(taken) + [f]
    {
      ReadLast(bytes, start, kinds, k, Message(taken, position), ReadOne(bytes, position, k));
      valid, position, kinds := ok, end, kinds + [k];
      if ok { taken := taken + [f]; }
    }

    /** Fixed-width value; refused when the bytes run out. */
    method Pod(w: nat) returns (v: nat, ghost f: Field)
      requires Valid()
      modifies this
      ensures Valid() && start == old(start) && sound == old(sound) && (valid ==> old(valid))
      ensures kinds == old(kinds) + [NumberKind(w)]
      ensures v < Bound(w) && (valid ==> taken == old(taken) + [f] && v == ValueOf(f))
    {
      v, f := 0, Field(NumberKind(w), []);
      if !valid {
        Skip(NumberKind(w));
      } else if w > |bytes| - position {
        Advance(NumberKind(w), false, position, f);
      } else {
        v := Take(bytes[position..position + w]);
        f := Field(NumberKind(w), bytes[position..position + w]);
        Advance(NumberKind(w), true, position + w, f);
      }
    }

    method String(maximum: u32) returns (t: Bytes, ghost f: Field)
      requires Valid()
      modifies this
      ensures Valid() && start == old(start) && sound == old(sound) && (valid ==> old(valid))
      ensures kinds == old(kinds) + [TextKind(maximum)]
      ensures valid ==> taken == old(taken) + [f] && |f.image| >= 4 && t == TextOf(f)
    {
      t, f := [], Field(TextKind(maximum), []);
      if !valid {
        Skip(TextKind(maximum));
      } else {
        var ok, text, end := TextAt(bytes, position, maximum);
        t, f := text, Field(TextKind(maximum), bytes[position..end]);
        Advance(TextKind(maximum), ok, end, f);
      }
    }

    method Flag() returns (on: bool, ghost f: Field)
      requires Valid()
      modifies this
      ensures Valid() && start == old(start) && sound == old(sound) && (valid ==> old(valid))
      ensures kinds == old(kinds) + [FlagKind]
      ensures valid ==> taken == old(taken) + [f] && f.image != [] && on == IsOn(f)
    {
      on, f := false, Field(FlagKind, []);
      if !valid {
        Skip(FlagKind);
      } else if 1 > |bytes| - position {
        Advance(FlagKind, false, position, f);
      } else {
        var flag := bytes[position];
        on, f := flag != 0, Field(FlagKind, bytes[position..position + 1]);
        Advance(FlagKind, flag <= 1, position + 1, f);
      }
    }

    /** Three numbers in a row. */
    method Pods(w0: nat, w1: nat, w2: nat) returns (v0: nat, v1: nat, v2: nat, ghost fs: seq<Field>)
      requires Valid()
      modifies this
      ensures Valid() && start == old(start) && sound == old(sound) && (valid ==> old(valid))
      ensures kinds == old(kinds) + [NumberKind(w0), NumberKind(w1), NumberKind(w2)]
      ensures v0 < Bound(w0) && v1 < Bound(w1) && v2 < Bound(w2) && |fs| == 3
      ensures valid ==> taken == old(taken) + fs && v0 == ValueOf(fs[0]) && v1 == ValueOf(fs[1]) && v2 == ValueOf(fs[2])
    {
      ghost var f0, f1, f2;
      v0, f0 := Pod(w0);
      v1, f1 := Pod(w1);
      v2, f2 := Pod(w2);
      fs := [f0, f1, f2];
    }

    method PodPair(w0: nat, w1: nat) returns (v0: nat, v1: nat, ghost fs: seq<Field>)
      requires Valid()
      modifies this
      ensures Valid() && start == old(start) && sound == old(sound) && (valid ==> old(valid))
      ensures kinds == old(kinds) + [NumberKind(w0), NumberKind(w1)]
      ensures v0 < Bound(w0) && v1 < Bound(w1) && |fs| == 2
      ensures valid ==> taken == old(taken) + fs && v0 == ValueOf(fs[0]) && v1 == ValueOf(fs[1])
    {
      ghost var f0, f1;
      v0, f0 := Pod(w0);
      v1, f1 := Pod(w1);
      fs := [f0, f1];
    }

    /** Three flags in a row. */
    method Flags() returns (b0: bool, b1: bool, b2: bool, ghost fs: seq<Field>)
      requires Valid()
      modifies this
      ensures Valid() && start == old(start) && sound == old(sound) && (valid ==> old(valid))
      ensures kinds == old(kinds) + [FlagKind, FlagKind, FlagKind]
      ensures |fs| == 3
      ensures (valid ==> taken == old(taken) + fs && fs[0].image != [] && fs[1].image != [] && fs[2].image != [])
      ensures valid ==> b0 == IsOn(fs[0]) && b1 == IsOn(fs[1]) && b2 == IsOn(fs[2])
    {
      ghost var f0, f1, f2;
      b0, f0 := Flag();
      b1, f1 := Flag();
      b2, f2 := Flag();
      fs := [f0, f1, f2];
    }

    /** Two texts in a row. */
    method Strings(m0: u32, m1: u32) returns (t0: Bytes, t1: Bytes, ghost fs: seq<Field>)
      requires Valid()
      modifies this
      ensures Valid() && start == old(start) && sound == old(sound) && (valid ==> old(valid))
      ensures kinds == old(kinds) + [TextKind(m0), TextKind(m1)]
      ensures |fs| == 2 && (valid ==> taken == old(taken) + fs && |fs[0].image| >= 4 && |fs[1].image| >= 4)
      ensures valid ==> t0 == TextOf(fs[0]) && t1 == TextOf(fs[1])
    {
      ghost var f0, f1;
      t0, f0 := String(m0);
      t1, f1 := String(m1);
      fs := [f0, f1];
    }

    predicate Done()
      reads this
    {
      valid && position == |bytes|
    }
  }

  /** The decoder has read a part of these kinds from where it stood. */
  ghost predicate HasRead(d: Decoder, wasValid: bool, at: nat, ks: seq<Kind>, fs: seq<Field>)
    reads d
  {
    && d.position <= |d.bytes| && at <= |d.bytes| && (d.valid ==> wasValid)
    && (wasValid ==> ReadAll(d.bytes, at, ks) == if d.valid then Message(fs, d.position) else Malformed)
  }

  /** What asking for further fields did to the decoder's record of its part. */
  twostate predicate Asked(d: Decoder, ks: seq<Kind>, fs: seq<Field>)
    reads d
  {
    && d.Valid() && d.start == old(d.start) && d.sound == old(d.sound) && (d.valid ==> old(d.valid))
    && d.kinds == old(d.kinds) + ks && (d.valid ==> d.taken == old(d.taken) + fs)
  }

  lemma {:induction false} Append2<T>(a: seq<T>, b: seq<T>, c: seq<T>)
    ensures a + b + c == a + (b + c)
  {
  }

  lemma {:induction false} Append3<T>(a: seq<T>, b: seq<T>, c: seq<T>, d: seq<T>)
    ensures a + b + c + d == a + (b + c + d)
  {
  }

  method AskPaths(d: Decoder) returns (ps: seq<Bytes>, ghost fs: seq<Field>)
    requires d.Valid()
    modifies d
    ensures Asked(d, PATH_KINDS, fs) && |ps| == 4 && |fs| == 4
    ensures d.valid ==> forall i :: 0 <= i < 4 ==> |fs[i].image| >= 4 && ps[i] == TextOf(fs[i])
  {
    var a, b, f0 := d.Strings(4096, 4096);
    var c, e, f1 := d.Strings(4096, 4096);
    ps, fs := [a, b, c, e], f0 + f1;
    ghost var ks := [TextKind(4096), TextKind(4096)];
    Append2(old(d.kinds), ks, ks);
    assert ks + ks == PATH_KINDS;
    Append2(old(d.taken), f0, f1);
  }

  method DecodePaths(d: Decoder) returns (ps: seq<Bytes>, ghost fs: seq<Field>)
    requires d.position <= |d.bytes|
    modifies d
    ensures HasRead(d, old(d.valid), old(d.position), PATH_KINDS, fs) && |ps| == 4 && |fs| == 4
    ensures d.valid ==> forall i :: 0 <= i < 4 ==> |fs[i].image| >= 4 && ps[i] == TextOf(fs[i])
  {
    d.Begin();
    ps, fs := AskPaths(d);
    assert [] + PATH_KINDS == PATH_KINDS && [] + fs == fs;
  }

  method AskLimits(d: Decoder) returns (ls: seq<nat>, ghost fs: seq<Field>)
    requires d.Valid()
    modifies d
    ensures Asked(d, LIMIT_KINDS, fs) && |ls| == 8 && |fs| == 8
    ensures ls[0] < 0x1_0000 && ls[6] < 0x1_0000_0000 && forall i :: 0 <= i < 8 ==> ls[i] <= U64_MAX
    ensures d.valid ==> forall i :: 0 <= i < 8 ==> ls[i] == ValueOf(fs[i])
  {
    Bounds();
    var mask, duration, maximum, f0 := d.Pods(2, 8, 8);
    var segment, retained, reference, f1 := d.Pods(8, 8, 8);
    var queue, count, f2 := d.PodPair(4, 4);
    ls, fs := [mask, duration, maximum, segment, retained, reference, queue, count], f0 + f1 + f2;
    ghost var k0 := [NumberKind(2), NumberKind(8), NumberKind(8)];
    ghost var k1 := [NumberKind(8), NumberKind(8), NumberKind(8)];
    ghost var k2 := [NumberKind(4), NumberKind(4)];
    Append3(old(d.kinds), k0, k1, k2);
    assert k0 + k1 + k2 == LIMIT_KINDS;
    Append3(old(d.taken), f0, f1, f2);
  }

  method DecodeLimits(d: Decoder) returns (ls: seq<nat>, ghost fs: seq<Field>)
    requires d.position <= |d.bytes|
    modifies d
    ensures HasRead(d, old(d.valid), old(d.position), LIMIT_KINDS, fs) && |ls| == 8 && |fs| == 8
    ensures ls[0] < 0x1_0000 && ls[6] < 0x1_0000_0000 && forall i :: 0 <= i < 8 ==> ls[i] <= U64_MAX
    ensures d.valid ==> forall i :: 0 <= i < 8 ==> ls[i] == ValueOf(fs[i])
  {
    d.Begin();
    ls, fs := AskLimits(d);
    assert [] + LIMIT_KINDS == LIMIT_KINDS && [] + fs == fs;
  }

  method DecodeNames(d: Decoder, n: nat) returns (names: seq<Bytes>, ghost fs: seq<Field>)
    requires d.position <= |d.bytes|
    modifies d
    ensures HasRead(d, old(d.valid), old(d.position), NameKinds(n), fs) && |names| == n
    ensures d.valid ==> |fs| == n && forall i :: 0 <= i < n ==> |fs[i].image| >= 4 && names[i] == TextOf(fs[i])
  {
    d.Begin();
    names := [];
    for i := 0 to n
      invariant d.Valid() && d.start == old(d.position) && d.sound == old(d.valid)
      invariant d.kinds == NameKinds(i) && |names| == i
      invariant d.valid ==> |d.taken| == i
      invariant d.valid ==> forall j :: 0 <= j < i ==> |d.taken[j].image| >= 4 && names[j] == TextOf(d.taken[j])
    {
      var name, _ := d.String(128);
      names := names + [name];
      assert d.kinds == NameKinds(i + 1);
    }
    fs := d.taken;
  }

  method AskVenueHead(d: Decoder) returns (exchange: Bytes, market: Bytes, full: bool, count: nat, ghost fs: seq<Field>)
    requires d.Valid()
    modifies d
    ensures Asked(d, VENUE_KINDS, fs) && |fs| == 4
    ensures d.valid ==> |fs[0].image| >= 4 && |fs[1].image| >= 4 && fs[2].image != []
    ensures d.valid ==>
            exchange == TextOf(fs[0]) && market == TextOf(fs[1]) && full == IsOn(fs[2]) && count == ValueOf(fs[3])
  {
    var a, b, f0 := d.Strings(48, 48);
    var on, f1 := d.Flag();
    var n, f2 := d.Pod(4);
    exchange, market, full, count, fs := a, b, on, n, f0 + [f1] + [f2];
    Append3(old(d.kinds), [TextKind(48), TextKind(48)], [FlagKind], [NumberKind(4)]);
    assert [TextKind(48), TextKind(48)] + [FlagKind] + [NumberKind(4)] == VENUE_KINDS;
    Append3(old(d.taken), f0, [f1], [f2]);
  }

  method DecodeVenueHead(
      d: Decoder) returns (exchange: Bytes, market: Bytes, full: bool, count: nat, ghost fs: seq<Field>)
    requires d.position <= |d.bytes|
    modifies d
    ensures HasRead(d, old(d.valid), old(d.position), VENUE_KINDS, fs) && |fs| == 4
    ensures d.valid ==> |fs[0].image| >= 4 && |fs[1].image| >= 4 && fs[2].image != []
    ensures d.valid ==>
            exchange == TextOf(fs[0]) && market == TextOf(fs[1]) && full == IsOn(fs[2]) && count == ValueOf(fs[3])
  {
    d.Begin();
    exchange, market, full, count, fs := AskVenueHead(d);
    assert [] + VENUE_KINDS == VENUE_KINDS && [] + fs == fs;
  }

  method DecodeVenue(d: Decoder) returns (v: Venue)
    requires d.position <= |d.bytes|
    modifies d
    ensures d.position <= |d.bytes|
    ensures d.valid <==> old(d.valid) && ReadVenue(d.bytes, old(d.position)).GotVenue?
    ensures d.valid ==> ReadVenue(d.bytes, old(d.position)) == GotVenue(v, d.position)
  {
    ghost var at, wasValid := d.position, d.valid;
    var exchange, market, full, count, fs := DecodeVenueHead(d);
    v := Venue(exchange, market, full, []);
    if !d.valid || count > MAXIMUM_INSTRUMENTS {
      d.valid := false;
      return;
    }
    MessageStands(d.bytes, at, VENUE_KINDS);
    ghost var mid := d.position;
    var names, ns := DecodeNames(d, count);
    v := Venue(exchange, market, full, names);
    if d.valid {
      MessageStands(d.bytes, mid, NameKinds(count));
      VenueAssembles(d.bytes, at, fs, ns, mid, d.position);
      assert VenueOf(fs, ns).instruments == names;
    }
  }

  method DecodeVenues(d: Decoder, n: nat) returns (vs: seq<Venue>)
    requires d.position <= |d.bytes|
    modifies d
    ensures d.position <= |d.bytes|
    ensures d.valid <==> old(d.valid) && ReadVenues(d.bytes, old(d.position), n).GotVenues?
    ensures d.valid ==> ReadVenues(d.bytes, old(d.position), n) == GotVenues(vs, d.position)
  {
    vs := [];
    for i := 0 to n
      invariant d.position <= |d.bytes|
      invariant d.valid <==> old(d.valid) && ReadVenues(d.bytes, old(d.position), i).GotVenues?
      invariant d.valid ==> ReadVenues(d.bytes, old(d.position), i) == GotVenues(vs, d.position)
    {
      var v := DecodeVenue(d);
      vs := vs + [v];
    }
  }

  /** The decoder is valid at the end exactly when the bytes spell a configuration, and then holds it;
      it never reads past the end. */
  method DecodeConfig(d: Decoder) returns (c: Config)
    requires d.position <= |d.bytes|
    modifies d
    ensures d.position <= |d.bytes|
    ensures d.valid <==> old(d.valid) && ReadConfig(d.bytes, old(d.position)).GotConfig?
    ensures d.valid ==> ReadConfig(d.bytes, old(d.position)) == GotConfig(c, d.position)
  {
    ghost var at := d.position;
    var ps, pf := DecodePaths(d);
    ghost var e1 := d.position;
    var ls, lf := DecodeLimits(d);
    ghost var e2 := d.position;
    Bounds();
    c := Config(ps[0], ps[1], ps[2], ps[3], ls[0], ls[1], ls[2], ls[3], ls[4], ls[5], ls[6], []);
    var n := ls[7];
    if !d.valid || n == 0 || n > MAXIMUM_VENUES {
      d.valid := false;
      return;
    }
    MessageStands(d.bytes, at, PATH_KINDS);
    MessageStands(d.bytes, e1, LIMIT_KINDS);
    var vs := DecodeVenues(d, n);
    c := c.(venues := vs);
    if d.valid { ConfigAssembles(d.bytes, at, pf, lf, vs, e1, e2, d.position); }
  }

  method AskFlags(d: Decoder) returns (fs: seq<bool>, ghost ff: seq<Field>)
    requires d.Valid()
    modifies d
    ensures Asked(d, FLAG_KINDS, ff) && |fs| == 6 && |ff| == 6
    ensures d.valid ==> forall i :: 0 <= i < 6 ==> ff[i].image != [] && fs[i] == IsOn(ff[i])
  {
    var configured, active, connected, f0 := d.Flags();
    var complete, stopping, pending, f1 := d.Flags();
    fs, ff := [configured, active, connected, complete, stopping, pending], f0 + f1;
    ghost var ks := [FlagKind, FlagKind, FlagKind];
    Append2(old(d.kinds), ks, ks);
    assert ks + ks == FLAG_KINDS;
    Append2(old(d.taken), f0, f1);
  }

  method DecodeFlags(d: Decoder) returns (fs: seq<bool>, ghost ff: seq<Field>)
    requires d.position <= |d.bytes|
    modifies d
    ensures HasRead(d, old(d.valid), old(d.position), FLAG_KINDS, ff) && |fs| == 6 && |ff| == 6
    ensures d.valid ==> forall i :: 0 <= i < 6 ==> ff[i].image != [] && fs[i] == IsOn(ff[i])
  {
    d.Begin();
    fs, ff := AskFlags(d);
    assert [] + FLAG_KINDS == FLAG_KINDS && [] + ff == ff;
  }

  method AskEpochs(d: Decoder) returns (ns: seq<nat>, ghost nf: seq<Field>)
    requires d.Valid()
    modifies d
    ensures Asked(d, EPOCH_KINDS, nf) && |ns| == 6 && |nf| == 6
    ensures ns[0] < 0x1_0000_0000 && forall i :: 0 <= i < 6 ==> ns[i] <= U64_MAX
    ensures d.valid ==> forall i :: 0 <= i < 6 ==> ns[i] == ValueOf(nf[i])
  {
    Bounds();
    var status, producer, loss, f0 := d.Pods(4, 8, 8);
    var generation, safe, records, f1 := d.Pods(8, 8, 8);
    ns, nf := [status, producer, loss, generation, safe, records], f0 + f1;
    ghost var k0 := [NumberKind(4), NumberKind(8), NumberKind(8)];
    ghost var k1 := [NumberKind(8), NumberKind(8), NumberKind(8)];
    Append2(old(d.kinds), k0, k1);
    assert k0 + k1 == EPOCH_KINDS;
    Append2(old(d.taken), f0, f1);
  }

  method AskTotals(d: Decoder) returns (ns: seq<nat>, ghost nf: seq<Field>)
    requires d.Valid()
    modifies d
    ensures Asked(d, TOTAL_KINDS, nf) && |ns| == 5 && |nf| == 5
    ensures ns[2] < 0x1_0000_0000 && forall i :: 0 <= i < 5 ==> ns[i] <= U64_MAX
    ensures d.valid ==> forall i :: 0 <= i < 5 ==> ns[i] == ValueOf(nf[i])
  {
    Bounds();
    var gaps, projected, sources, f0 := d.Pods(8, 8, 4);
    var received, started, f1 := d.PodPair(8, 8);
    ns, nf := [gaps, projected, sources, received, started], f0 + f1;
    ghost var k0 := [NumberKind(8), NumberKind(8), NumberKind(4)];
    ghost var k1 := [NumberKind(8), NumberKind(8)];
    Append2(old(d.kinds), k0, k1);
    assert k0 + k1 == TOTAL_KINDS;
    Append2(old(d.taken), f0, f1);
  }

  method AskCounters(d: Decoder) returns (ns: seq<nat>, ghost nf: seq<Field>)
    requires d.Valid()
    modifies d
    ensures Asked(d, COUNTER_KINDS, nf) && |ns| == 11 && |nf| == 11
    ensures ns[0] < 0x1_0000_0000 && ns[8] < 0x1_0000_0000 && forall i :: 0 <= i < 11 ==> ns[i] <= U64_MAX
    ensures d.valid ==> forall i :: 0 <= i < 11 ==> ns[i] == ValueOf(nf[i])
  {
    var epochs, f0 := AskEpochs(d);
    var totals, f1 := AskTotals(d);
    ns, nf := epochs + totals, f0 + f1;
    Append2(old(d.kinds), EPOCH_KINDS, TOTAL_KINDS);
    Append2(old(d.taken), f0, f1);
  }

  method DecodeCounters(d: Decoder) returns (ns: seq<nat>, ghost nf: seq<Field>)
    requires d.position <= |d.bytes|
    modifies d
    ensures HasRead(d, old(d.valid), old(d.position), COUNTER_KINDS, nf) && |ns| == 11 && |nf| == 11
    ensures ns[0] < 0x1_0000_0000 && ns[8] < 0x1_0000_0000 && forall i :: 0 <= i < 11 ==> ns[i] <= U64_MAX
    ensures d.valid ==> forall i :: 0 <= i < 11 ==> ns[i] == ValueOf(nf[i])
  {
    d.Begin();
    ns, nf := AskCounters(d);
    assert [] + COUNTER_KINDS == COUNTER_KINDS && [] + nf == nf;
  }

  method AskNotes(d: Decoder) returns (ts: seq<Bytes>, ghost tf: seq<Field>)
    requires d.Valid()
    modifies d
    ensures Asked(d, NOTE_KINDS, tf) && |ts| == 3 && |tf| == 3
    ensures d.valid ==> forall i :: 0 <= i < 3 ==> |tf[i].image| >= 4 && ts[i] == TextOf(tf[i])
  {
    var path, identity, f0 := d.Strings(4096, 4096);
    var error, f1 := d.String(4096);
    ts, tf := [path, identity, error], f0 + [f1];
    Append2(old(d.kinds), [TextKind(4096), TextKind(4096)], [TextKind(4096)]);
    assert [TextKind(4096), TextKind(4096)] + [TextKind(4096)] == NOTE_KINDS;
    Append2(old(d.taken), f0, [f1]);
  }

  method DecodeNotes(d: Decoder) returns (ts: seq<Bytes>, ghost tf: seq<Field>)
    requires d.position <= |d.bytes|
    modifies d
    ensures HasRead(d, old(d.valid), old(d.position), NOTE_KINDS, tf) && |ts| == 3 && |tf| == 3
    ensures d.valid ==> forall i :: 0 <= i < 3 ==> |tf[i].image| >= 4 && ts[i] == TextOf(tf[i])
  {
    d.Begin();
    ts, tf := AskNotes(d);
    assert [] + NOTE_KINDS == NOTE_KINDS && [] + tf == tf;
  }

  /** The same for a status, whose status code must also be one there is. */
  method DecodeStatus(d: Decoder) returns (v: Report)
    requires d.position <= |d.bytes|
    modifies d
    ensures d.position <= |d.bytes|
    ensures d.valid <==> old(d.valid) && ReadReport(d.bytes, old(d.position)).GotReport?
    ensures d.valid ==> ReadReport(d.bytes, old(d.position)) == GotReport(v, d.position)
  {
    ghost var at := d.position;
    var fs, ff := DecodeFlags(d);
    ghost var e1 := d.position;
    var ns, nf := DecodeCounters(d);
    ghost var e2 := d.position;
    var ts, tf := DecodeNotes(d);
    Bounds();
    var status := if ns[0] < |STATUSES| then STATUSES[ns[0]] else Unknown;
    v := Report(fs[0], fs[1], fs[2], fs[3], fs[4], fs[5], status, ns[1], ns[2], ns[3], ns[4], ns[5], ns[6], ns[7],
                ns[8], SignedOf(ns[9]), ns[10], ts[0], ts[1], ts[2]);
    if d.valid {
      MessageStands(d.bytes, at, FLAG_KINDS);
      MessageStands(d.bytes, e1, COUNTER_KINDS);
      MessageStands(d.bytes, e2, NOTE_KINDS);
      if ns[0] < |STATUSES| { ReportAssembles(d.bytes, at, ff, nf, tf, e1, e2, d.position); }
    }
    if ns[0] >= |STATUSES| { d.valid := false; }
  }
}
