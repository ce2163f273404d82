/** The control service's wire format, field by field: fixed-width little-endian numbers, one-byte
    flags and length-prefixed texts.  A message is a sequence of fields; its reader knows their kinds. */
module WireFormat {
  import opened Records

  const MAXIMUM_MESSAGE: nat := 256 * 1024

  // ---------------------------------------------------------------------------------------------
  // Numbers.

  /** How many values a number of `w` bytes has. */
  function Bound(w: nat): (n: nat)
    ensures n > 0
  {
    if w == 0 then 1 else 0x100 * Bound(w - 1)
  }

  lemma {:induction false} Bounds()
    ensures Bound(1) == 0x100 && Bound(2) == 0x1_0000 && Bound(4) == 0x1_0000_0000
    ensures Bound(8) == 0x1_0000_0000_0000_0000
  {
    assert Bound(0) == 1;
    assert Bound(3) == 0x100_0000;
    assert Bound(5) == 0x100_0000_0000;
    assert Bound(6) == 0x1_0000_0000_0000;
    assert Bound(7) == 0x100_0000_0000_0000;
  }

  /** Least significant byte first. */
  function Put(w: nat, v: nat): (b: seq<u8>)
    ensures |b| == w
  {
    if w == 0 then [] else [v % 0x100] + Put(w - 1, v / 0x100)
  }

  function Take(b: seq<u8>): (v: nat)
    ensures v < Bound(|b|)
  {
    if b == [] then 0
    else
      var low: int := b[0];
      low + 0x100 * Take(b[1..])
  }

  /** Bytes and numbers of one width determine each other. */
  lemma {:induction false} NumberRoundTrip(w: nat, v: nat, b: seq<u8>)
    requires v < Bound(w) && |b| == w
    ensures Take(Put(w, v)) == v && Put(w, Take(b)) == b
  {
    if w > 0 {
      NumberRoundTrip(w - 1, v / 0x100, b[1..]);
      assert Put(w, v)[1..] == Put(w - 1, v / 0x100);
      ByteSplit(b[0], Take(b[1..]));
      assert b == [b[0]] + b[1..];
    }
  }

  lemma {:induction false} ByteSplit(low: int, high: int)
    requires 0 <= low < 0x100
    ensures (low + 0x100 * high) % 0x100 == low && (low + 0x100 * high) / 0x100 == high
  {
  }

  // ---------------------------------------------------------------------------------------------
  // Fields.

  datatype Kind = NumberKind(width: nat) | FlagKind | TextKind(maximum: u32)

  /** A field carries its kind and its bytes on the wire. */
  datatype Field = Field(kind: Kind, image: seq<u8>)

  /** The images a field of its kind may have: of one width, a flag of 0 or 1, a length followed by
      that many bytes, within the maximum and none of them zero. */
  predicate Encodable(f: Field) {
    match f.kind
    case NumberKind(w) => |f.image| == w
    case FlagKind => |f.image| == 1 && f.image[0] <= 1
    case TextKind(m) =>
      && 4 <= |f.image| && Take(f.image[..4]) == |f.image| - 4 <= m
      && 0 !in f.image[4..]
  }

  function Number(w: nat, v: nat): Field { Field(NumberKind(w), Put(w, v)) }

  function Boolean(on: bool): Field { Field(FlagKind, [if on then 1 else 0]) }

  function Text(m: u32, t: seq<u8>): Field { Field(TextKind(m), Put(4, |t|) + t) }

  function ValueOf(f: Field): (v: nat)
    ensures v < Bound(|f.image|)
  {
    Take(f.image)
  }

  predicate IsOn(f: Field)
    requires f.image != []
  {
    f.image[0] == 1
  }

  function TextOf(f: Field): seq<u8>
    requires |f.image| >= 4
  {
    f.image[4..]
  }

  /** A text the encoder accepts. */
  predicate Sendable(t: seq<u8>, m: nat) { |t| <= m && 0 !in t }

  lemma {:induction false} NumberField(w: nat, v: nat)
    requires v < Bound(w)
    ensures Encodable(Number(w, v)) && ValueOf(Number(w, v)) == v
  {
    NumberRoundTrip(w, v, Put(w, v));
  }

  lemma {:induction false} NumberBack(f: Field)
    requires f.kind.NumberKind? && Encodable(f)
    ensures f == Number(f.kind.width, ValueOf(f)) && ValueOf(f) < Bound(f.kind.width)
  {
    NumberRoundTrip(f.kind.width, 0, f.image);
  }

  lemma {:induction false} FlagField(on: bool)
    ensures Encodable(Boolean(on)) && IsOn(Boolean(on)) == on
  {
  }

  lemma {:induction false} TextField(m: u32, t: seq<u8>)
    ensures Encodable(Text(m, t)) <==> Sendable(t, m)
    ensures TextOf(Text(m, t)) == t
  {
    var p := Put(4, |t|);
    assert Take(p) < 0x1_0000_0000 && (|t| < 0x1_0000_0000 ==> Take(p) == |t|) by {
      Bounds();
      if |t| < 0x1_0000_0000 { NumberRoundTrip(4, |t|, p); }
    }
    assert (p + t)[..4] == p && (p + t)[4..] == t;
  }

  lemma {:induction false} TextBack(f: Field)
    requires f.kind.TextKind? && Encodable(f)
    ensures f == Text(f.kind.maximum, TextOf(f)) && Sendable(TextOf(f), f.kind.maximum)
  {
    NumberRoundTrip(4, 0, f.image[..4]);
    assert f.image == f.image[..4] + f.image[4..];
  }

  // ---------------------------------------------------------------------------------------------
  // Reading one field.

  datatype Got = Got(field: Field, end: nat) | Bad

  function ReadOne(b: seq<u8>, at: nat, k: Kind): (r: Got)
    requires at <= |b|
    ensures r.Got? ==> r.end == at + |r.field.image| <= |b| && r.field.kind == k
    decreases if k.TextKind? then 1 else 0
  {
    match k
    case NumberKind(w) =>
      if w > |b| - at then Bad else Got(Field(k, b[at..at + w]), at + w)
    case FlagKind =>
      if 1 > |b| - at || b[at] > 1 then Bad else Got(Field(k, b[at..at + 1]), at + 1)
    case TextKind(m) =>
      var size := ReadOne(b, at, NumberKind(4));
      if size.Bad? || !FitsText(b, size.end, ValueOf(size.field), m) then Bad
      else Got(Field(k, b[at..size.end + ValueOf(size.field)]), size.end + ValueOf(size.field))
  }

  predicate FitsText(b: seq<u8>, at: nat, size: nat, m: nat) {
    size <= m && at + size <= |b| && 0 !in b[at..at + size]
  }

  /** `w` stands in `b` at position `at`. */
  predicate Stands(b: seq<u8>, at: nat, w: seq<u8>) {
    at + |w| <= |b| && forall i {:trigger w[i]} :: 0 <= i < |w| ==> b[at + i] == w[i]
  }

  lemma {:induction false} StandsSlice(b: seq<u8>, at: nat, w: seq<u8>)
    ensures Stands(b, at, w) <==> at + |w| <= |b| && b[at..at + |w|] == w
  {
    if at + |w| <= |b| {
      var s := b[at..at + |w|];
      assert forall i {:trigger w[i]} :: 0 <= i < |w| ==> s[i] == b[at + i];
    }
  }

  lemma {:induction false} StandsBoth(b: seq<u8>, at: nat, v: seq<u8>, w: seq<u8>)
    ensures Stands(b, at, v + w) <==> Stands(b, at, v) && Stands(b, at + |v|, w)
  {
    var vw := v + w;
    if Stands(b, at, vw) {
      forall i | 0 <= i < |v| ensures b[at + i] == v[i] { assert vw[i] == v[i]; }
      forall i | 0 <= i < |w| ensures b[at + |v| + i] == w[i] { assert vw[|v| + i] == w[i]; }
    }
  }

  /** Reading finds what stands there. */
  lemma {:induction false} ReadsWhatStands(b: seq<u8>, at: nat, f: Field)
    requires Encodable(f) && Stands(b, at, f.image)
    ensures ReadOne(b, at, f.kind) == Got(f, at + |f.image|)
  {
    StandsSlice(b, at, f.image);
    if f.kind.TextKind? {
      assert b[at..at + 4] == f.image[..4];
      assert b[at + 4..at + |f.image|] == f.image[4..];
    }
  }

  /** What was read stands there, and is an image the encoder could have written. */
  lemma {:induction false} StandsWhatIsRead(b: seq<u8>, at: nat, k: Kind)
    requires at <= |b| && ReadOne(b, at, k).Got?
    ensures Encodable(ReadOne(b, at, k).field) && Stands(b, at, ReadOne(b, at, k).field.image)
  {
    var r := ReadOne(b, at, k);
    StandsSlice(b, at, r.field.image);
    if k.TextKind? {
      assert r.field.image[..4] == b[at..at + 4];
      assert r.field.image[4..] == b[at + 4..r.end];
    }
  }

  // ---------------------------------------------------------------------------------------------
  // Messages.

  predicate AllEncodable(fs: seq<Field>) { forall i :: 0 <= i < |fs| ==> Encodable(fs[i]) }

  function KindsOf(fs: seq<Field>): (ks: seq<Kind>)
    ensures |ks| == |fs| && forall i :: 0 <= i < |fs| ==> ks[i] == fs[i].kind
  {
    seq(|fs|, i requires 0 <= i < |fs| => fs[i].kind)
  }

  function WireAll(fs: seq<Field>): seq<u8> {
    if fs == [] then [] else WireAll(fs[..|fs| - 1]) + fs[|fs| - 1].image
  }

  datatype Message = Message(fields: seq<Field>, end: nat) | Malformed

  function ReadAll(b: seq<u8>, at: nat, ks: seq<Kind>): (r: Message)
    requires at <= |b|
    ensures r.Message? ==> at <= r.end <= |b|
  {
    if ks == [] then Message([], at)
    else
      var front := ReadAll(b, at, ks[..|ks| - 1]);
      if front.Malformed? then Malformed
      else
        var last := ReadOne(b, front.end, ks[|ks| - 1]);
        if last.Bad? then Malformed else Message(front.fields + [last.field], last.end)
  }

  lemma {:induction false} WireLast(fs: seq<Field>, f: Field)
    ensures WireAll(fs + [f]) == WireAll(fs) + f.image
  {
    assert (fs + [f])[..|fs|] == fs;
  }

  lemma {:induction false} Assoc(x: seq<u8>, y: seq<u8>, z: seq<u8>)
    ensures (x + y) + z == x + (y + z)
  {
  }

  lemma {:induction false} WireJoin(fs: seq<Field>, gs: seq<Field>)
    ensures WireAll(fs + gs) == WireAll(fs) + WireAll(gs)
  {
    if gs == [] {
      assert fs + gs == fs;
    } else {
      var front, last := gs[..|gs| - 1], gs[|gs| - 1];
      WireJoin(fs, front);
      assert (fs + gs)[..|fs + gs| - 1] == fs + front;
      Assoc(WireAll(fs), WireAll(front), last.image);
    }
  }

  lemma {:induction false} ReadLast(b: seq<u8>, at: nat, ks: seq<Kind>, k: Kind, front: Message, last: Got)
    requires at <= |b|
    requires front == ReadAll(b, at, ks) && front.Message? && last == ReadOne(b, front.end, k)
    ensures ReadAll(b, at, ks + [k]) ==
      if last.Bad? then Malformed else Message(front.fields + [last.field], last.end)
  {
    assert (ks + [k])[..|ks|] == ks;
  }

  lemma {:induction false} KindsLast(fs: seq<Field>, f: Field)
    ensures KindsOf(fs + [f]) == KindsOf(fs) + [f.kind]
  {
  }

  predicate ReadsBack(b: seq<u8>, at: nat, fs: seq<Field>, end: nat) {
    at <= |b| && ReadAll(b, at, KindsOf(fs)) == Message(fs, end)
  }

  lemma {:induction false} MessageGrows(b: seq<u8>, at: nat, fs: seq<Field>, f: Field, mid: nat)
    requires Encodable(f) && ReadsBack(b, at, fs, mid) && Stands(b, mid, f.image)
    ensures ReadsBack(b, at, fs + [f], mid + |f.image|)
  {
    KindsLast(fs, f);
    ReadsWhatStands(b, mid, f);
    ReadLast(b, at, KindsOf(fs), f.kind, Message(fs, mid), Got(f, mid + |f.image|));
  }

  /** The fields stand in `b` from `at` to `end`. */
  predicate Spelled(b: seq<u8>, at: nat, fs: seq<Field>, end: nat) {
    end == at + |WireAll(fs)| && Stands(b, at, WireAll(fs))
  }

  lemma {:induction false} SpelledLast(b: seq<u8>, at: nat, fs: seq<Field>, f: Field, end: nat)
    ensures Spelled(b, at, fs + [f], end)
       <==> Spelled(b, at, fs, at + |WireAll(fs)|) && Stands(b, at + |WireAll(fs)|, f.image)
            && end == at + |WireAll(fs)| + |f.image|
  {
    WireLast(fs, f);
    StandsBoth(b, at, WireAll(fs), f.image);
  }

  lemma {:induction false} SpelledJoin(b: seq<u8>, at: nat, fs: seq<Field>, gs: seq<Field>, end: nat)
    ensures Spelled(b, at, fs + gs, end)
       <==> Spelled(b, at, fs, at + |WireAll(fs)|) && Spelled(b, at + |WireAll(fs)|, gs, end)
  {
    WireJoin(fs, gs);
    StandsBoth(b, at, WireAll(fs), WireAll(gs));
  }

  lemma {:induction false} LastApart(b: seq<u8>, at: nat, fs: seq<Field>, f: Field, end: nat) returns (mid: nat)
    requires Spelled(b, at, fs + [f], end)
    ensures Spelled(b, at, fs, mid) && Stands(b, mid, f.image) && end == mid + |f.image|
  {
    SpelledLast(b, at, fs, f, end);
    mid := at + |WireAll(fs)|;
  }

  /** A message reads back as the fields that were written. */
  lemma {:induction false} MessageReads(b: seq<u8>, at: nat, fs: seq<Field>, end: nat)
    requires AllEncodable(fs) && Spelled(b, at, fs, end)
    ensures ReadsBack(b, at, fs, end)
  {
    if fs == [] {
      assert KindsOf(fs) == [];
    } else {
      var front, last := fs[..|fs| - 1], fs[|fs| - 1];
      assert fs == front + [last];
      var mid := LastApart(b, at, front, last, end);
      MessageReads(b, at, front, mid);
      MessageGrows(b, at, front, last, mid);
    }
  }

  lemma {:induction false} SpelledMore(b: seq<u8>, at: nat, fs: seq<Field>, mid: nat, k: Kind)
    requires Spelled(b, at, fs, mid) && AllEncodable(fs) && mid <= |b|
    requires ReadOne(b, mid, k).Got?
    ensures var r := ReadOne(b, mid, k); AllEncodable(fs + [r.field]) && Spelled(b, at, fs + [r.field], r.end)
    ensures KindsOf(fs + [ReadOne(b, mid, k).field]) == KindsOf(fs) + [k]
  {
    StandsWhatIsRead(b, mid, k);
    var r := ReadOne(b, mid, k);
    SpelledLast(b, at, fs, r.field, r.end);
  }

  /** The fields that were read are the only ones those bytes spell. */
  lemma {:induction false} MessageStands(b: seq<u8>, at: nat, ks: seq<Kind>)
    requires at <= |b| && ReadAll(b, at, ks).Message?
    ensures var r := ReadAll(b, at, ks);
      AllEncodable(r.fields) && KindsOf(r.fields) == ks && Spelled(b, at, r.fields, r.end)
  {
    if ks != [] {
      var last := |ks| - 1;
      MessageStands(b, at, ks[..last]);
      var front := ReadAll(b, at, ks[..last]);
      SpelledMore(b, at, front.fields, front.end, ks[last]);
      assert ks == ks[..last] + [ks[last]];
    }
  }
}
