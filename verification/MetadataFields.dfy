/** The fields of the instrument metadata record, in the order in which they are printed. */
module MetadataFields {
  import opened Records
  import opened Json
  import opened InstrumentMetadata

  const FIELDS: nat := 39

  /** A field's name and the value it has when the document does not give one. */
  datatype Slot = Slot(key: string, default: Value)

  function Slots0(i: nat): Slot {
    if i == 0 then Slot("exchange", Plain(""))
    else if i == 1 then Slot("exchange_source", Plain("unknown"))
    else if i == 2 then Slot("market", Plain(""))
    else if i == 3 then Slot("market_source", Plain("unknown"))
    else if i == 4 then Slot("symbol", Plain(""))
    else if i == 5 then Slot("symbol_source", Plain("unknown"))
    else if i == 6 then Slot("instrument_type", Plain(""))
    else if i == 7 then Slot("instrument_type_source", Plain("unknown"))
    else if i == 8 then Slot("base_asset", MaybeText(None))
    else Slot("base_asset_source", Plain("unknown"))
  }

  function Slots1(i: nat): Slot {
    if i == 10 then Slot("quote_asset", MaybeText(None))
    else if i == 11 then Slot("quote_asset_source", Plain("unknown"))
    else if i == 12 then Slot("settlement_asset", MaybeText(None))
    else if i == 13 then Slot("settlement_asset_source", Plain("unknown"))
    else if i == 14 then Slot("price_scale_digits", MaybeNumber(None))
    else if i == 15 then Slot("price_scale_digits_source", Plain("unknown"))
    else if i == 16 then Slot("qty_scale_digits", MaybeNumber(None))
    else if i == 17 then Slot("qty_scale_digits_source", Plain("unknown"))
    else if i == 18 then Slot("canonical_base_multiplier", MaybeNumber(None))
    else Slot("native_base_multiplier", MaybeNumber(None))
  }

  function Slots2(i: nat): Slot {
    if i == 20 then Slot("price_power_of_ten_adjustment", MaybeNumber(None))
    else if i == 21 then Slot("spot_quantity_power_of_ten_adjustment", MaybeNumber(None))
    else if i == 22 then Slot("denomination_generation", MaybeNumber(None))
    else if i == 23 then Slot("denomination_catalog_digest", MaybeText(None))
    else if i == 24 then Slot("denomination_source", Plain("unknown"))
    else if i == 25 then Slot("tick_size_e8", MaybeNumber(None))
    else if i == 26 then Slot("tick_size_source", Plain("unknown"))
    else if i == 27 then Slot("lot_size_e8", MaybeNumber(None))
    else if i == 28 then Slot("lot_size_source", Plain("unknown"))
    else Slot("contract_base_qty_e8", MaybeNumber(None))
  }

  function Slots3(i: nat): Slot {
    if i == 30 then Slot("contract_base_qty_source", Plain("unknown"))
    else if i == 31 then Slot("price_basis_qty_e8", MaybeNumber(None))
    else if i == 32 then Slot("price_basis_qty_source", Plain("unknown"))
    else if i == 33 then Slot("expiry_utc_ns", MaybeNumber(None))
    else if i == 34 then Slot("expiry_utc_ns_source", Plain("unknown"))
    else if i == 35 then Slot("instrument_status", MaybeText(None))
    else if i == 36 then Slot("instrument_status_source", Plain("unknown"))
    else if i == 37 then Slot("metadata_source", Plain("recorder_inference"))
    else Slot("metadata_warning", MaybeText(None))
  }

  function SlotOf(i: nat): Slot
    requires i < FIELDS
  {
    if i < 10 then Slots0(i) else if i < 20 then Slots1(i) else if i < 30 then Slots2(i) else Slots3(i)
  }

  const INSTRUMENT: Schema := Schema(
    seq(FIELDS, i requires 0 <= i < FIELDS => SlotOf(i).key),
    seq(FIELDS, i requires 0 <= i < FIELDS => KindOf(SlotOf(i).default)),
    seq(FIELDS, i requires 0 <= i < FIELDS => SlotOf(i).default),
    {0, 2, 4, 37})

  // ---------------------------------------------------------------------------------------------
  // The names are plain and all different.

  predicate IsNameChar(c: char) { 'a' <= c <= 'z' || '0' <= c <= '9' || c == '_' }

  predicate IsName(s: string) { forall i :: 0 <= i < |s| ==> IsNameChar(s[i]) }

  /** Length, first character and sixth character from the end: enough to tell the names apart. */
  function Mark(s: string): int {
    if |s| < 6 then 0 else |s| * 65536 + s[0] as int * 256 + s[|s| - 6] as int
  }

  function PlaceOf(mark: int): int {
    if mark == 550243 then 0
    else if mark == 1009011 then 1
    else if mark == 421229 then 2
    else if mark == 879987 then 3
    else if mark == 422771 then 4
    else if mark == 881523 then 5
    else if mark == 1010036 then 6
    else if mark == 1468787 then 7
    else if mark == 680543 then 8
    else if mark == 1139315 then 9
    else if mark == 749919 then 10
    else if mark == 1208691 then 11
    else if mark == 1078111 then 12
    else if mark == 1536883 then 13
    else if mark == 1208420 then 14
    else if mark == 1667187 then 15
    else if mark == 1077604 then 16
    else if mark == 1536371 then 17
    else if mark == 1663849 then 18
    else if mark == 1470057 then 19
    else if mark == 1929331 then 20
    else if mark == 2454387 then 21
    else if mark == 1533042 then 22
    else if mark == 1795172 then 23
    else if mark == 1270899 then 24
    else if mark == 816233 then 25
    else if mark == 1078387 then 26
    else if mark == 748649 then 27
    else if mark == 1010803 then 28
    else if mark == 1336177 then 29
    else if mark == 1598323 then 30
    else if mark == 1208433 then 31
    else if mark == 1470579 then 32
    else if mark == 877941 then 33
    else if mark == 1336691 then 34
    else if mark == 1141107 then 35
    else if mark == 1599859 then 36
    else if mark == 1011059 then 37
    else if mark == 1076577 then 38
    else -1
  }

  predicate NameAt(key: string, i: int) { IsName(key) && PlaceOf(Mark(key)) == i }

  lemma {:induction false} Names0()
    ensures NameAt("exchange", 0)
    ensures NameAt("exchange_source", 1)
  {
  }

  lemma {:induction false} Names1()
    ensures NameAt("market", 2)
    ensures NameAt("market_source", 3)
  {
  }

  lemma {:induction false} Names2()
    ensures NameAt("symbol", 4)
    ensures NameAt("symbol_source", 5)
  {
  }

  lemma {:induction false} Names3()
    ensures NameAt("instrument_type", 6)
    ensures NameAt("instrument_type_source", 7)
  {
  }

  lemma {:induction false} Names4()
    ensures NameAt("base_asset", 8)
    ensures NameAt("base_asset_source", 9)
  {
  }

  lemma {:induction false} Names5()
    ensures NameAt("quote_asset", 10)
    ensures NameAt("quote_asset_source", 11)
  {
  }

  lemma {:induction false} Names6()
    ensures NameAt("settlement_asset", 12)
    ensures NameAt("settlement_asset_source", 13)
  {
  }

  lemma {:induction false} Names7()
    ensures NameAt("price_scale_digits", 14)
    ensures NameAt("price_scale_digits_source", 15)
  {
  }

  lemma {:induction false} Names8()
    ensures NameAt("qty_scale_digits", 16)
    ensures NameAt("qty_scale_digits_source", 17)
  {
  }

  lemma {:induction false} Names9()
    ensures NameAt("canonical_base_multiplier", 18)
    ensures NameAt("native_base_multiplier", 19)
  {
  }

  lemma {:induction false} Names10()
    ensures NameAt("price_power_of_ten_adjustment", 20)
    ensures NameAt("spot_quantity_power_of_ten_adjustment", 21)
  {
  }

  lemma {:induction false} Names11()
    ensures NameAt("denomination_generation", 22)
    ensures NameAt("denomination_catalog_digest", 23)
  {
  }

  lemma {:induction false} Names12()
    ensures NameAt("denomination_source", 24)
    ensures NameAt("tick_size_e8", 25)
  {
  }

  lemma {:induction false} Names13()
    ensures NameAt("tick_size_source", 26)
    ensures NameAt("lot_size_e8", 27)
  {
  }

  lemma {:induction false} Names14()
    ensures NameAt("lot_size_source", 28)
    ensures NameAt("contract_base_qty_e8", 29)
  {
  }

  lemma {:induction false} Names15()
    ensures NameAt("contract_base_qty_source", 30)
    ensures NameAt("price_basis_qty_e8", 31)
  {
  }

  lemma {:induction false} Names16()
    ensures NameAt("price_basis_qty_source", 32)
    ensures NameAt("expiry_utc_ns", 33)
  {
  }

  lemma {:induction false} Names17()
    ensures NameAt("expiry_utc_ns_source", 34)
    ensures NameAt("instrument_status", 35)
  {
  }

  lemma {:induction false} Names18()
    ensures NameAt("instrument_status_source", 36)
    ensures NameAt("metadata_source", 37)
  {
  }

  lemma {:induction false} Names19()
    ensures NameAt("metadata_warning", 38)
  {
  }

  lemma {:induction false} Quarter0(i: nat)
    requires 0 <= i < 10
    ensures NameAt(SlotOf(i).key, i)
  {
    if i < 2 { Names0(); }
    else if i < 4 { Names1(); }
    else if i < 6 { Names2(); }
    else if i < 8 { Names3(); }
    else { Names4(); }
  }

  lemma {:induction false} Quarter1(i: nat)
    requires 10 <= i < 20
    ensures NameAt(SlotOf(i).key, i)
  {
    if i < 12 { Names5(); }
    else if i < 14 { Names6(); }
    else if i < 16 { Names7(); }
    else if i < 18 { Names8(); }
    else { Names9(); }
  }

  lemma {:induction false} Quarter2(i: nat)
    requires 20 <= i < 30
    ensures NameAt(SlotOf(i).key, i)
  {
    if i < 22 { Names10(); }
    else if i < 24 { Names11(); }
    else if i < 26 { Names12(); }
    else if i < 28 { Names13(); }
    else { Names14(); }
  }

  lemma {:induction false} Quarter3(i: nat)
    requires 30 <= i < 39
    ensures NameAt(SlotOf(i).key, i)
  {
    if i < 32 { Names15(); }
    else if i < 34 { Names16(); }
    else if i < 36 { Names17(); }
    else if i < 38 { Names18(); }
    else { Names19(); }
  }

  lemma {:induction false} Named(i: nat)
    requires i < FIELDS
    ensures NameAt(SlotOf(i).key, i)
  {
    if i < 10 { Quarter0(i); }
    else if i < 20 { Quarter1(i); }
    else if i < 30 { Quarter2(i); }
    else { Quarter3(i); }
  }

  lemma {:induction false} NameUnescaped(s: string)
    requires IsName(s)
    ensures EscapeAll(s) == s
  {
    if s != "" {
      assert IsNameChar(s[0]);
      assert IsName(s[1..]);
      NameUnescaped(s[1..]);
      assert s == [s[0]] + s[1..];
    }
  }

  lemma {:induction false} InstrumentOk()
    ensures SchemaOk(INSTRUMENT) && PlainKeys(INSTRUMENT.keys) && |INSTRUMENT.keys| == FIELDS
  {
    var keys := INSTRUMENT.keys;
    forall i | 0 <= i < |keys|
      ensures EscapeAll(keys[i]) == keys[i] && PlaceOf(Mark(keys[i])) == i
    {
      Named(i);
      NameUnescaped(keys[i]);
    }
  }

  /** Every record reads back from its printed form exactly, whatever bytes its texts hold and
      whatever 64-bit integers its numbers are. */
  lemma {:induction false} MetadataRoundTrip(m: seq<Value>)
    requires Fits(INSTRUMENT, m)
    ensures SchemaOk(INSTRUMENT) && Parse(INSTRUMENT, Render(INSTRUMENT, m)) == Some(m)
  {
    InstrumentOk();
    RoundTrip(INSTRUMENT, m);
  }
}
