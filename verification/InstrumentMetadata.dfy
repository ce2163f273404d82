/** The instrument metadata document: printed line by line, read back key by key.  A metadata record
    is the sequence of its fields in the order in which they are printed. */
module InstrumentMetadata {
  import opened Records
  import opened Json
  import JV = JsonValues

  datatype Kind = PlainKind | MaybeTextKind | MaybeNumberKind

  datatype Value = Plain(text: string) | MaybeText(string: Option<string>) | MaybeNumber(number: Option<i64>)

  function KindOf(v: Value): Kind {
    match v
    case Plain(_) => PlainKind
    case MaybeText(_) => MaybeTextKind
    case MaybeNumber(_) => MaybeNumberKind
  }

  /** The fields a document may have: name, kind, the value of a field that is missing, and which must
      not be missing. */
  datatype Schema = Schema(keys: seq<string>, kinds: seq<Kind>, defaults: seq<Value>, required: set<nat>)

  predicate DistinctKeys(keys: seq<string>) {
    forall i, j :: 0 <= i < j < |keys| ==> keys[i] != keys[j]
  }

  predicate Fits(sc: Schema, m: seq<Value>) {
    |m| == |sc.kinds| && forall i :: 0 <= i < |m| ==> KindOf(m[i]) == sc.kinds[i]
  }

  predicate SchemaOk(sc: Schema) {
    && |sc.keys| == |sc.kinds| && Fits(sc, sc.defaults) && DistinctKeys(sc.keys)
    && forall i :: i in sc.required ==> i < |sc.keys|
  }

  // ---------------------------------------------------------------------------------------------
  // Printing.

  function ValueText(v: Value): string {
    match v
    case Plain(t) => Quote(t)
    case MaybeText(o) => if o.None? then "null" else Quote(o.value)
    case MaybeNumber(o) => if o.None? then "null" else Decimal(o.value)
  }

  function Line(key: string, v: Value, last: bool): string {
    "  \"" + key + "\": " + ValueText(v) + (if last then "\n" else ",\n")
  }

  function Lines(keys: seq<string>, m: seq<Value>, i: nat): string
    requires |m| == |keys| && i <= |m|
    decreases |m| - i
  {
    if i == |m| then "" else Line(keys[i], m[i], i + 1 == |m|) + Lines(keys, m, i + 1)
  }

  function Render(sc: Schema, m: seq<Value>): string
    requires |m| == |sc.keys|
  {
    "{\n" + Lines(sc.keys, m, 0) + "}\n"
  }

  // ---------------------------------------------------------------------------------------------
  // Reading.

  function ReadValue(k: Kind, s: string): (r: Got<Value>)
    ensures r.Got? ==> |r.rest| < |s| && KindOf(r.value) == k
  {
    if k.PlainKind? then
      var t := ReadString(s);
      (if t.Fail? then Fail else Got(Plain(t.value), t.rest))
    else if Starts(Ws(s), 'n') then
      var v := SkipValue(s);
      (if v.Stuck? then Fail else Got(if k.MaybeTextKind? then MaybeText(None) else MaybeNumber(None), v.text))
    else if k.MaybeTextKind? then
      var t := ReadString(s);
      (if t.Fail? then Fail else Got(MaybeText(Some(t.value)), t.rest))
    else
      var n := ReadInt(s);
      (if n.Fail? then Fail else Got(MaybeNumber(Some(n.value)), n.rest))
  }

  /** Position of a key, or the number of keys when it is none of them. */
  function Find(keys: seq<string>, key: string): (i: nat)
    ensures i <= |keys| && (i < |keys| ==> keys[i] == key) && (i == |keys| ==> key !in keys)
  {
    if keys == [] then 0 else if keys[0] == key then 0 else 1 + Find(keys[1..], key)
  }

  /** Fields read so far, which of them were in the document, and the text left. */
  datatype State = State(values: seq<Value>, seen: set<nat>, rest: string) | Corrupt

  function ReadMember(sc: Schema, st: State): (r: State)
    requires st.State? && SchemaOk(sc) && Fits(sc, st.values)
    ensures r.State? ==> |r.rest| < |st.rest| && Fits(sc, r.values)
  {
    var key := ReadKey(st.rest);
    if key.Fail? then Corrupt
    else
      var i := Find(sc.keys, key.value);
      if i == |sc.keys| then
        var v := SkipValue(key.rest);
        (if v.Stuck? then Corrupt else State(st.values, st.seen, v.text))
      else
        var v := ReadValue(sc.kinds[i], key.rest);
        (if v.Fail? then Corrupt else State(st.values[i := v.value], st.seen + {i}, v.rest))
  }

  function ReadMembers(sc: Schema, st: State): (r: State)
    requires st.State? && SchemaOk(sc) && Fits(sc, st.values)
    ensures r.State? ==> Fits(sc, r.values)
    decreases |st.rest|
  {
    var next := ReadMember(sc, st);
    if next.Corrupt? then Corrupt
    else
      var w := Ws(next.rest);
      if Starts(w, ',') then ReadMembers(sc, next.(rest := w[1..])) else next.(rest := w)
  }

  function Parse(sc: Schema, document: string): Option<seq<Value>>
    requires SchemaOk(sc)
  {
    var w := Ws(document);
    if !Starts(w, '{') then None
    else
      var inner := Ws(w[1..]);
      var start := State(sc.defaults, {}, inner);
      Finish(sc, if Starts(inner, '}') then start else ReadMembers(sc, start))
  }

  function Finish(sc: Schema, st: State): Option<seq<Value>> {
    if st.State? && sc.required <= st.seen && Starts(st.rest, '}') && Ws(st.rest[1..]) == ""
    then Some(st.values) else None
  }

  // ---------------------------------------------------------------------------------------------
  // Documents in general: known and unknown members in any order, spaced in any way.

  datatype Content = Known(index: nat, value: Value) | Unknown(key: string, other: JV.Value, gap: string)

  datatype Entry = Entry(lead: string, afterKey: string, beforeValue: string, afterValue: string, content: Content)

  predicate ContentOk(sc: Schema, c: Content) {
    match c
    case Known(i, v) => i < |sc.keys| && i < |sc.kinds| && KindOf(v) == sc.kinds[i]
    case Unknown(key, v, gap) => key !in sc.keys && JV.WellFormed(v) && JV.AllSpace(gap)
  }

  predicate EntryOk(sc: Schema, e: Entry) {
    && JV.AllSpace(e.lead) && JV.AllSpace(e.afterKey) && JV.AllSpace(e.beforeValue) && JV.AllSpace(e.afterValue)
    && ContentOk(sc, e.content)
  }

  function KeyText(sc: Schema, c: Content): string
    requires ContentOk(sc, c)
  {
    if c.Known? then sc.keys[c.index] else c.key
  }

  function ContentText(sc: Schema, c: Content): string
    requires ContentOk(sc, c)
  {
    if c.Known? then ValueText(c.value) else JV.Print(c.other, c.gap)
  }

  function EntryText(sc: Schema, e: Entry): string
    requires EntryOk(sc, e)
  {
    e.lead + (Quote(KeyText(sc, e.content)) + (e.afterKey + (":" + (e.beforeValue
      + (ContentText(sc, e.content) + e.afterValue)))))
  }

  predicate EntriesOk(sc: Schema, es: seq<Entry>) { forall i :: 0 <= i < |es| ==> EntryOk(sc, es[i]) }

  function EntriesText(sc: Schema, es: seq<Entry>, i: nat): string
    requires EntriesOk(sc, es) && i < |es|
    decreases |es| - i
  {
    EntryText(sc, es[i]) + (if i + 1 < |es| then "," + EntriesText(sc, es, i + 1) else "")
  }

  function Document(sc: Schema, es: seq<Entry>, gap: string, trail: string): string
    requires EntriesOk(sc, es)
  {
    "{" + (if es == [] then gap else EntriesText(sc, es, 0)) + "}" + trail
  }

  /** The last word on every field. */
  function Written(vs: seq<Value>, es: seq<Entry>, i: nat): (r: seq<Value>)
    requires i <= |es|
    ensures |r| == |vs|
    decreases |es| - i
  {
    if i == |es| then vs
    else
      var c := es[i].content;
      Written(if c.Known? && c.index < |vs| then vs[c.index := c.value] else vs, es, i + 1)
  }

  function Named(es: seq<Entry>, i: nat): set<nat>
    requires i <= |es|
    decreases |es| - i
  {
    if i == |es| then {} else (if es[i].content.Known? then {es[i].content.index} else {}) + Named(es, i + 1)
  }

  // ---------------------------------------------------------------------------------------------
  // Reading one value.

  lemma {:induction false} NullSkipped(rest: string)
    ensures SkipValue("null" + rest) == Rest(rest) && Starts(Ws("null" + rest), 'n')
  {
    JV.WordSkipped("null", rest);
    assert ("null" + rest)[0] == 'n';
  }

  lemma {:induction false} PlainStart(s: string, rest: string)
    requires s != "" && !IsSpace(s[0])
    ensures Ws(s + rest) == s + rest && (s + rest)[0] == s[0]
  {
  }

  lemma {:induction false} DecimalStarts(v: i64)
    ensures Decimal(v) != "" && !IsSpace(Decimal(v)[0]) && Decimal(v)[0] != 'n'
  {
  }

  lemma {:induction false} ValueReads(v: Value, rest: string)
    requires Ends(rest)
    ensures ReadValue(KindOf(v), ValueText(v) + rest) == Got(v, rest)
  {
    match v
    case Plain(t) => StringReads(t, rest);
    case MaybeText(o) =>
      if o.None? {
        NullSkipped(rest);
      } else {
        StringReads(o.value, rest);
        PlainStart(Quote(o.value), rest);
      }
    case MaybeNumber(o) =>
      if o.None? {
        NullSkipped(rest);
      } else {
        IntReads(o.value, rest);
        DecimalStarts(o.value);
        PlainStart(Decimal(o.value), rest);
      }
  }

  lemma {:induction false} GapBeforeValue(k: Kind, gap: string, s: string)
    requires JV.AllSpace(gap)
    ensures ReadValue(k, gap + s) == ReadValue(k, s)
  {
    JV.GapSkipped(gap, s);
    JV.GapBefore(gap, s);
  }

  lemma {:induction false} GapBeforeKey(gap: string, s: string)
    requires JV.AllSpace(gap)
    ensures ReadKey(gap + s) == ReadKey(s)
  {
    JV.GapSkipped(gap, s);
  }

  lemma {:induction false} Found(keys: seq<string>, i: nat)
    requires DistinctKeys(keys) && i < |keys|
    ensures Find(keys, keys[i]) == i
  {
  }

  lemma {:induction false} NotFound(keys: seq<string>, key: string)
    requires key !in keys
    ensures Find(keys, key) == |keys|
  {
  }

  // ---------------------------------------------------------------------------------------------
  // Reading members.

  lemma {:induction false} EntryParts(lead: string, q: string, a: string, b: string, c: string, d: string, tail: string)
    ensures lead + (q + (a + (":" + (b + (c + d))))) + tail == lead + (q + (a + (":" + (b + (c + (d + tail))))))
  {
  }

  lemma {:induction false} EntryKeyReads(sc: Schema, e: Entry, tail: string)
    requires EntryOk(sc, e)
    ensures ReadKey(EntryText(sc, e) + tail)
         == Got(KeyText(sc, e.content), e.beforeValue + (ContentText(sc, e.content) + (e.afterValue + tail)))
  {
    var key, text := KeyText(sc, e.content), ContentText(sc, e.content);
    var value := e.beforeValue + (text + (e.afterValue + tail));
    EntryParts(e.lead, Quote(key), e.afterKey, e.beforeValue, text, e.afterValue, tail);
    GapBeforeKey(e.lead, Quote(key) + (e.afterKey + (":" + value)));
    JV.KeyPassed(key, e.afterKey, value);
  }

  /** What a member does to the fields read so far. */
  function Effect(st: State, c: Content, rest: string): (r: State)
    requires st.State? && (c.Known? ==> c.index < |st.values|)
    ensures r.State? && r.rest == rest
  {
    if c.Known? then State(st.values[c.index := c.value], st.seen + {c.index}, rest)
    else State(st.values, st.seen, rest)
  }

  lemma {:induction false} EntryReads(sc: Schema, st: State, e: Entry, tail: string)
    requires SchemaOk(sc) && st.State? && Fits(sc, st.values) && EntryOk(sc, e)
    requires Ends(e.afterValue + tail) && st.rest == EntryText(sc, e) + tail
    ensures ReadMember(sc, st) == Effect(st, e.content, e.afterValue + tail)
  {
    EntryKeyReads(sc, e, tail);
    var after := e.afterValue + tail;
    var text := ContentText(sc, e.content);
    match e.content
    case Known(i, v) =>
      Found(sc.keys, i);
      ValueReads(v, after);
      GapBeforeValue(sc.kinds[i], e.beforeValue, text + after);
    case Unknown(key, v, gap) =>
      NotFound(sc.keys, key);
      JV.ValueSkipped(v, gap, after);
      JV.GapBefore(e.beforeValue, text + after);
  }

  lemma {:induction false} MemberEnds(gap: string, c: char, s: string)
    requires JV.AllSpace(gap) && IsDelimiter(c) && !IsSpace(c)
    ensures Ends(gap + ([c] + s)) && Ws(gap + ([c] + s)) == [c] + s && ([c] + s)[1..] == s
  {
    JV.GapEnds(gap, [c] + s);
    JV.GapSkipped(gap, [c] + s);
  }

  lemma {:induction false} TextSplits(x: string, y: string, z: string)
    ensures x + ("," + y) + z == x + ([','] + (y + z))
  {
  }

  lemma {:induction false} MoreMembers(sc: Schema, st: State, next: State, gap: string, more: string)
    requires SchemaOk(sc) && st.State? && Fits(sc, st.values) && JV.AllSpace(gap)
    requires next.State? && ReadMember(sc, st) == next.(rest := gap + ([','] + more)) && Fits(sc, next.values)
    ensures ReadMembers(sc, st) == ReadMembers(sc, next.(rest := more))
  {
    MemberEnds(gap, ',', more);
  }

  lemma {:induction false} LastMember(sc: Schema, st: State, next: State, gap: string, trail: string)
    requires SchemaOk(sc) && st.State? && Fits(sc, st.values) && JV.AllSpace(gap)
    requires next.State? && ReadMember(sc, st) == next.(rest := gap + (['}'] + trail))
    ensures ReadMembers(sc, st) == next.(rest := "}" + trail)
  {
    MemberEnds(gap, '}', trail);
  }

  lemma {:induction false} EffectWritten(st: State, es: seq<Entry>, i: nat, rest: string)
    requires st.State? && i < |es| && (es[i].content.Known? ==> es[i].content.index < |st.values|)
    ensures var next := Effect(st, es[i].content, rest);
      && Written(st.values, es, i) == Written(next.values, es, i + 1)
      && st.seen + Named(es, i) == next.seen + Named(es, i + 1)
  {
  }

  lemma {:induction false} EffectFits(sc: Schema, st: State, c: Content, rest: string)
    requires SchemaOk(sc) && st.State? && Fits(sc, st.values) && ContentOk(sc, c)
    ensures Fits(sc, Effect(st, c, rest).values)
  {
  }

  /** One member of several: the text after its comma is what is left to read. */
  lemma {:induction false} EntryStep(sc: Schema, st: State, e: Entry, more: string)
    requires SchemaOk(sc) && st.State? && Fits(sc, st.values) && EntryOk(sc, e)
    requires st.rest == EntryText(sc, e) + ([','] + more)
    ensures Fits(sc, Effect(st, e.content, more).values)
    ensures ReadMembers(sc, st) == ReadMembers(sc, Effect(st, e.content, more))
  {
    MemberEnds(e.afterValue, ',', more);
    EntryReads(sc, st, e, [','] + more);
    EffectFits(sc, st, e.content, more);
    MoreMembers(sc, st, Effect(st, e.content, more), e.afterValue, more);
  }

  lemma {:induction false} EntryLast(sc: Schema, st: State, e: Entry, trail: string)
    requires SchemaOk(sc) && st.State? && Fits(sc, st.values) && EntryOk(sc, e)
    requires st.rest == EntryText(sc, e) + (['}'] + trail)
    ensures ReadMembers(sc, st) == Effect(st, e.content, "}" + trail)
  {
    MemberEnds(e.afterValue, '}', trail);
    EntryReads(sc, st, e, ['}'] + trail);
    LastMember(sc, st, Effect(st, e.content, ""), e.afterValue, trail);
  }

  lemma {:induction false} EntriesSplit(sc: Schema, es: seq<Entry>, i: nat, tail: string)
    requires EntriesOk(sc, es) && i < |es|
    ensures EntriesText(sc, es, i) + tail == EntryText(sc, es[i])
         + (if i + 1 < |es| then [','] + (EntriesText(sc, es, i + 1) + tail) else tail)
  {
    if i + 1 < |es| {
      TextSplits(EntryText(sc, es[i]), EntriesText(sc, es, i + 1), tail);
    } else {
      assert EntryText(sc, es[i]) + "" == EntryText(sc, es[i]);
    }
  }

  /** All members are read, whatever their order, and the last word on a field counts. */
  lemma {:induction false} EntriesRead(sc: Schema, st: State, es: seq<Entry>, i: nat, trail: string)
    requires SchemaOk(sc) && st.State? && Fits(sc, st.values) && EntriesOk(sc, es) && i < |es|
    requires st.rest == EntriesText(sc, es, i) + ("}" + trail)
    ensures ReadMembers(sc, st) == State(Written(st.values, es, i), st.seen + Named(es, i), "}" + trail)
    decreases |es| - i
  {
    assert EntryOk(sc, es[i]);
    EntriesSplit(sc, es, i, "}" + trail);
    if i + 1 < |es| {
      var more := EntriesText(sc, es, i + 1) + ("}" + trail);
      EntryStep(sc, st, es[i], more);
      EffectWritten(st, es, i, more);
      EntriesRead(sc, Effect(st, es[i].content, more), es, i + 1, trail);
    } else {
      EntryLast(sc, st, es[i], trail);
      EffectWritten(st, es, i, "}" + trail);
      AtEnd(Effect(st, es[i].content, "}" + trail).values, es);
    }
  }

  lemma {:induction false} AtEnd(vs: seq<Value>, es: seq<Entry>)
    ensures Written(vs, es, |es|) == vs && Named(es, |es|) == {}
  {
  }

  lemma {:induction false} GapBeforeMembers(sc: Schema, st: State, s: string)
    requires SchemaOk(sc) && st.State? && Fits(sc, st.values) && Ws(st.rest) == Ws(s)
    ensures ReadMembers(sc, st) == ReadMembers(sc, st.(rest := s))
  {
  }

  lemma {:induction false} DocumentOpens(sc: Schema, inside: string, trail: string)
    requires SchemaOk(sc)
    ensures Parse(sc, "{" + inside + "}" + trail) ==
      var inner := Ws(inside + ("}" + trail));
      var start := State(sc.defaults, {}, inner);
      Finish(sc, if Starts(inner, '}') then start else ReadMembers(sc, start))
  {
    var d := "{" + inside + "}" + trail;
    assert d[0] == '{' && d[1..] == inside + ("}" + trail);
  }

  lemma {:induction false} Finished(sc: Schema, st: State, trail: string)
    requires st.State? && st.rest == "}" + trail && JV.AllSpace(trail)
    ensures Finish(sc, st) == if sc.required <= st.seen then Some(st.values) else None
  {
    assert ("}" + trail)[1..] == trail;
    SpaceOnly(trail);
  }

  lemma {:induction false} MembersParse(sc: Schema, es: seq<Entry>, trail: string)
    requires SchemaOk(sc) && EntriesOk(sc, es) && es != []
    ensures var inner := Ws(EntriesText(sc, es, 0) + ("}" + trail));
      && !Starts(inner, '}')
      && ReadMembers(sc, State(sc.defaults, {}, inner)) == State(Written(sc.defaults, es, 0), Named(es, 0), "}" + trail)
  {
    var text := EntriesText(sc, es, 0) + ("}" + trail);
    FirstEntry(sc, es, "}" + trail);
    EntriesRead(sc, State(sc.defaults, {}, text), es, 0, trail);
    WsTwice(text);
    GapBeforeMembers(sc, State(sc.defaults, {}, Ws(text)), text);
    assert {} + Named(es, 0) == Named(es, 0);
  }

  /** Every document of this form parses to the last word on every field, or is refused exactly when a
      required field has none. */
  lemma {:induction false} DocumentParses(sc: Schema, es: seq<Entry>, gap: string, trail: string)
    requires SchemaOk(sc) && EntriesOk(sc, es) && JV.AllSpace(gap) && JV.AllSpace(trail)
    ensures Parse(sc, Document(sc, es, gap, trail))
         == if sc.required <= Named(es, 0) then Some(Written(sc.defaults, es, 0)) else None
  {
    if es == [] {
      DocumentOpens(sc, gap, trail);
      JV.GapSkipped(gap, "}" + trail);
      Finished(sc, State(sc.defaults, {}, "}" + trail), trail);
      AtEnd(sc.defaults, es);
    } else {
      DocumentOpens(sc, EntriesText(sc, es, 0), trail);
      MembersParse(sc, es, trail);
      Finished(sc, State(Written(sc.defaults, es, 0), Named(es, 0), "}" + trail), trail);
    }
  }

  lemma {:induction false} SpaceOnly(s: string)
    requires JV.AllSpace(s)
    ensures Ws(s) == ""
  {
    JV.GapSkipped(s, "");
    assert s + "" == s;
  }

  lemma {:induction false} WsTwice(s: string)
    ensures Ws(Ws(s)) == Ws(s)
  {
  }

  /** A document with members does not look empty. */
  lemma {:induction false} FirstEntry(sc: Schema, es: seq<Entry>, tail: string)
    requires EntriesOk(sc, es) && es != []
    ensures !Starts(Ws(EntriesText(sc, es, 0) + tail), '}')
  {
    var e := es[0];
    assert EntryOk(sc, e);
    var more := if 1 < |es| then [','] + (EntriesText(sc, es, 1) + tail) else tail;
    EntriesSplit(sc, es, 0, tail);
    EntryKeyReads(sc, e, more);
  }

  // ---------------------------------------------------------------------------------------------
  // The printed document.

  predicate PlainKeys(keys: seq<string>) { forall i :: 0 <= i < |keys| ==> EscapeAll(keys[i]) == keys[i] }

  function EntryAt(m: seq<Value>, i: nat): Entry
    requires i < |m|
  {
    Entry("\n  ", "", " ", if i + 1 == |m| then "\n" else "", Known(i, m[i]))
  }

  function EntriesOf(m: seq<Value>): (es: seq<Entry>)
    ensures |es| == |m| && forall i :: 0 <= i < |m| ==> es[i] == EntryAt(m, i)
  {
    seq(|m|, i requires 0 <= i < |m| => EntryAt(m, i))
  }

  lemma {:induction false} PrintedOk(sc: Schema, m: seq<Value>)
    requires SchemaOk(sc) && Fits(sc, m)
    ensures EntriesOk(sc, EntriesOf(m))
  {
    assert JV.AllSpace("\n  ") && JV.AllSpace("") && JV.AllSpace(" ") && JV.AllSpace("\n");
  }

  lemma {:induction false} LineText(key: string, text: string, end: string)
    ensures "  \"" + key + "\": " + text + end == "  " + (("\"" + key + "\"") + ("" + (":" + (" " + (text + end)))))
  {
  }

  lemma {:induction false} MoveBreak(line: string, more: string)
    ensures "\n" + (line + (",\n" + more)) == ("\n" + line) + ("," + ("\n" + more))
  {
  }

  /** The text of a line up to what ends it. */
  function Body(key: string, v: Value): string { "  \"" + key + "\": " + ValueText(v) }

  lemma {:induction false} EntryIsLine(sc: Schema, m: seq<Value>, i: nat)
    requires SchemaOk(sc) && Fits(sc, m) && i < |m| && PlainKeys(sc.keys) && EntryOk(sc, EntryAt(m, i))
    ensures EntryText(sc, EntryAt(m, i)) == "\n" + (Body(sc.keys[i], m[i]) + EntryAt(m, i).afterValue)
  {
    var end := EntryAt(m, i).afterValue;
    LineText(sc.keys[i], ValueText(m[i]), end);
    BreakFirst(("\"" + sc.keys[i] + "\"") + ("" + (":" + (" " + (ValueText(m[i]) + end)))));
  }

  lemma {:induction false} BreakFirst(s: string)
    ensures "\n  " + s == "\n" + ("  " + s)
  {
  }

  lemma {:induction false} LinesSplit(keys: seq<string>, m: seq<Value>, i: nat)
    requires |m| == |keys| && i < |m|
    ensures Lines(keys, m, i) ==
      if i + 1 == |m| then Body(keys[i], m[i]) + "\n" else Body(keys[i], m[i]) + (",\n" + Lines(keys, m, i + 1))
  {
    var end := if i + 1 == |m| then "\n" else ",\n";
    Together(Body(keys[i], m[i]), end, Lines(keys, m, i + 1));
    assert Line(keys[i], m[i], i + 1 == |m|) == Body(keys[i], m[i]) + end;
  }

  lemma {:induction false} Together(x: string, y: string, z: string)
    ensures x + y + z == x + (y + z) && (z == "" ==> x + y + z == x + y)
  {
  }

  /** The lines, with the line break moved from the end of each to the front of the next. */
  lemma {:induction false} LinesAreEntries(sc: Schema, m: seq<Value>, i: nat)
    requires SchemaOk(sc) && Fits(sc, m) && i < |m| && PlainKeys(sc.keys) && EntriesOk(sc, EntriesOf(m))
    ensures "\n" + Lines(sc.keys, m, i) == EntriesText(sc, EntriesOf(m), i)
    decreases |m| - i
  {
    var es := EntriesOf(m);
    var b := Body(sc.keys[i], m[i]);
    assert EntryOk(sc, es[i]);
    EntryIsLine(sc, m, i);
    LinesSplit(sc.keys, m, i);
    EntriesSplit(sc, es, i, "");
    Unpadded(sc, es, i);
    if i + 1 < |m| {
      LinesAreEntries(sc, m, i + 1);
      MoveBreak(b, Lines(sc.keys, m, i + 1));
      assert b + "" == b;
      Unpadded(sc, es, i + 1);
    }
  }

  lemma {:induction false} Unpadded(sc: Schema, es: seq<Entry>, i: nat)
    requires EntriesOk(sc, es) && i < |es|
    ensures EntriesText(sc, es, i) + "" == EntriesText(sc, es, i) && EntryText(sc, es[i]) + "" == EntryText(sc, es[i])
  {
  }

  lemma {:induction false} Braces(lines: string)
    ensures "{\n" + lines + "}\n" == "{" + ("\n" + lines) + "}" + "\n"
  {
  }

  lemma {:induction false} RenderedIsDocument(sc: Schema, m: seq<Value>)
    requires SchemaOk(sc) && Fits(sc, m) && m != [] && PlainKeys(sc.keys) && EntriesOk(sc, EntriesOf(m))
    ensures Render(sc, m) == Document(sc, EntriesOf(m), "", "\n")
  {
    LinesAreEntries(sc, m, 0);
    Braces(Lines(sc.keys, m, 0));
  }

  lemma {:induction false} AllWritten(vs: seq<Value>, m: seq<Value>, i: nat)
    requires |vs| == |m| && i <= |m| && vs[..i] == m[..i]
    ensures Written(vs, EntriesOf(m), i) == m
    decreases |m| - i
  {
    if i < |m| {
      var next := vs[i := m[i]];
      assert next[..i + 1] == m[..i + 1];
      AllWritten(next, m, i + 1);
    }
  }

  lemma {:induction false} AllNamed(m: seq<Value>, i: nat, n: nat)
    requires i <= n < |m|
    ensures n in Named(EntriesOf(m), i)
    decreases n - i
  {
    if i < n { AllNamed(m, i + 1, n); }
  }

  /** A printed record reads back as itself. */
  lemma {:induction false} RoundTrip(sc: Schema, m: seq<Value>)
    requires SchemaOk(sc) && Fits(sc, m) && m != [] && PlainKeys(sc.keys)
    ensures Parse(sc, Render(sc, m)) == Some(m)
  {
    PrintedOk(sc, m);
    RenderedIsDocument(sc, m);
    DocumentParses(sc, EntriesOf(m), "", "\n");
    AllWritten(sc.defaults, m, 0);
    forall n | n in sc.required
      ensures n in Named(EntriesOf(m), 0)
    {
      AllNamed(m, 0, n);
    }
  }

  /** Whatever unknown members are put into a document, wherever, it reads the same. */
  lemma {:induction false} UnknownIgnored(
      sc: Schema, before: seq<Entry>, e: Entry, after: seq<Entry>, gap: string, trail: string)
    requires SchemaOk(sc) && EntriesOk(sc, before) && EntryOk(sc, e) && EntriesOk(sc, after) && e.content.Unknown?
    requires JV.AllSpace(gap) && JV.AllSpace(trail)
    ensures EntriesOk(sc, before + [e] + after) && EntriesOk(sc, before + after)
    ensures Parse(sc, Document(sc, before + [e] + after, gap, trail)) == Parse(sc,
            Document(sc, before + after, gap, trail))
  {
    DocumentParses(sc, before + [e] + after, gap, trail);
    DocumentParses(sc, before + after, gap, trail);
    WrittenWithout(sc.defaults, before, e, after, 0);
    NamedWithout(before, e, after, 0);
  }

  lemma {:induction false} WrittenShifted(vs: seq<Value>, es: seq<Entry>, i: nat, fs: seq<Entry>, j: nat)
    requires i <= |es| && j <= |fs| && es[i..] == fs[j..]
    ensures Written(vs, es, i) == Written(vs, fs, j)
    decreases |es| - i
  {
    if i < |es| {
      assert es[i] == es[i..][0] == fs[j..][0] == fs[j];
      assert es[i + 1..] == es[i..][1..] == fs[j..][1..] == fs[j + 1..];
      var c := es[i].content;
      WrittenShifted(if c.Known? && c.index < |vs| then vs[c.index := c.value] else vs, es, i + 1, fs, j + 1);
    }
  }

  lemma {:induction false} NamedShifted(es: seq<Entry>, i: nat, fs: seq<Entry>, j: nat)
    requires i <= |es| && j <= |fs| && es[i..] == fs[j..]
    ensures Named(es, i) == Named(fs, j)
    decreases |es| - i
  {
    if i < |es| {
      assert es[i] == es[i..][0] == fs[j..][0] == fs[j];
      assert es[i + 1..] == es[i..][1..] == fs[j..][1..] == fs[j + 1..];
      NamedShifted(es, i + 1, fs, j + 1);
    }
  }

  lemma {:induction false} WrittenWithout(vs: seq<Value>, before: seq<Entry>, e: Entry, after: seq<Entry>, i: nat)
    requires i <= |before| && e.content.Unknown?
    ensures Written(vs, before + [e] + after, i) == Written(vs, before + after, i)
    decreases |before| - i
  {
    var es, fs := before + [e] + after, before + after;
    if i < |before| {
      var c := before[i].content;
      WrittenWithout(if c.Known? && c.index < |vs| then vs[c.index := c.value] else vs, before, e, after, i + 1);
    } else {
      assert es[i] == e && es[i + 1..] == after && fs[i..] == after;
      WrittenShifted(vs, es, i + 1, fs, i);
    }
  }

  lemma {:induction false} NamedWithout(before: seq<Entry>, e: Entry, after: seq<Entry>, i: nat)
    requires i <= |before| && e.content.Unknown?
    ensures Named(before + [e] + after, i) == Named(before + after, i)
    decreases |before| - i
  {
    var es, fs := before + [e] + after, before + after;
    if i < |before| {
      NamedWithout(before, e, after, i + 1);
    } else {
      assert es[i] == e && es[i + 1..] == after && fs[i..] == after;
      NamedShifted(es, i + 1, fs, i);
    }
  }
}
