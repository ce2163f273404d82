/** The parser object, which advances a position over a text, and the loops that print strings and read
    the metadata document, proved against the functions on the text that is left. */
module JsonObject {
  import opened Records
  import opened Json
  import IM = InstrumentMetadata

  lemma {:induction false} EscapeLast(t: string, c: char)
    ensures EscapeAll(t + [c]) == EscapeAll(t) + Escape(c)
  {
    if t == "" {
      assert t + [c] == [c] && [c][1..] == "";
      assert Escape(c) + "" == "" + Escape(c);
    } else {
      assert (t + [c])[1..] == t[1..] + [c];
      EscapeLast(t[1..], c);
      assert Escape(t[0]) + (EscapeAll(t[1..]) + Escape(c)) == Escape(t[0]) + EscapeAll(t[1..]) + Escape(c);
    }
  }

  method AppendEscaped(before: string, value: string) returns (out: string)
    ensures out == before + EscapeAll(value)
  {
    out := before;
    for i := 0 to |value|
      invariant out == before + EscapeAll(value[..i])
    {
      EscapeLast(value[..i], value[i]);
      assert value[..i + 1] == value[..i] + [value[i]];
      IM.Together(before, EscapeAll(value[..i]), Escape(value[i]));
      out := out + Escape(value[i]);
    }
    assert value[..|value|] == value;
  }

  /** What was collected in front of what is still to come. */
  function After(front: string, g: Got<string>): Got<string> {
    if g.Fail? then Fail else Got(front + g.value, g.rest)
  }

  lemma {:induction false} InsideStep(front: string, s: string)
    requires s != "" && s[0] != '\"'
    ensures After(front, Inside(s)) ==
      var p := Piece(s); if p.Fail? then Fail else After(front + p.value, Inside(p.rest))
  {
    var p := Piece(s);
    if p.Got? && Inside(p.rest).Got? {
      assert front + (p.value + Inside(p.rest).value) == front + p.value + Inside(p.rest).value;
    }
  }

  class MiniJsonParser {
    const json: string
    var pos: nat

    ghost predicate Valid()
      reads this
    {
      pos <= |json|
    }

    function Left(): string
      requires Valid()
      reads this
    {
      json[pos..]
    }

    constructor (text: string)
      ensures Valid() && Left() == text
    {
      json, pos := text, 0;
    }

    method SkipWs()
      requires Valid()
      modifies this
      ensures Valid() && pos >= old(pos) && Left() == Ws(old(Left()))
    {
      while pos < |json| && IsSpace(json[pos])
        invariant Valid() && pos >= old(pos) && Ws(Left()) == Ws(old(Left()))
      {
        assert Left()[1..] == json[pos + 1..];
        pos := pos + 1;
      }
    }

    method Consume(c: char) returns (ok: bool)
      requires Valid()
      modifies this
      ensures Valid() && pos >= old(pos) && ok == Starts(old(Left()), c)
      ensures Left() == if ok then old(Left())[1..] else old(Left())
    {
      ok := pos < |json| && json[pos] == c;
      if ok { pos := pos + 1; }
    }

    method Peek(c: char) returns (ok: bool)
      requires Valid()
      modifies this
      ensures Valid() && pos >= old(pos) && Left() == Ws(old(Left())) && ok == Starts(Left(), c)
    {
      SkipWs();
      ok := pos < |json| && json[pos] == c;
    }

    /** Four hexadecimal digits. */
    method ParseHex() returns (v: int)
      requires Valid()
      modifies this
      ensures Valid() && pos >= old(pos)
      ensures v >= 0 <==> |old(Left())| >= 4 && Hex4(old(Left())) >= 0
      ensures v >= 0 ==> v == Hex4(old(Left())) && v < 0x1_0000 && Left() == old(Left())[4..]
    {
      v := 0;
      ghost var start := pos;
      for i := 0 to 4
        invariant Valid() && pos == start + i
        invariant 0 <= v < if i == 0 then 1 else if i == 1 then 16 else if i == 2 then 256 else if i == 3 then 4096
            else 65536
        invariant i >= 1 ==> 0 <= HexDigit(json[start]) < 16
        invariant i >= 2 ==> 0 <= HexDigit(json[start + 1]) < 16
        invariant i >= 3 ==> 0 <= HexDigit(json[start + 2]) < 16
        invariant i >= 4 ==> 0 <= HexDigit(json[start + 3]) < 16
        invariant v == Shifted(json, start, i)
      {
        if pos >= |json| { return -1; }
        var d := HexDigit(json[pos]);
        pos := pos + 1;
        if d < 0 { return -1; }
        v := v * 16 + d;
      }
      assert Shifted(json, start, 2) == Shifted(json, start, 1) * 16 + HexDigit(json[start + 1]);
      assert Shifted(json, start, 1) == HexDigit(json[start]);
    }

    /** One piece of a string's inside. */
    method ParsePiece() returns (ok: bool, text: string)
      requires Valid() && Left() != "" && Left()[0] != '\"'
      modifies this
      ensures Valid() && pos > old(pos) && ok == Piece(old(Left())).Got?
      ensures ok ==> Got(text, Left()) == Piece(old(Left()))
    {
      ghost var s := Left();
      var c := json[pos];
      pos := pos + 1;
      ok, text := false, "";
      assert Left() == s[1..];
      if c != '\\' {
        ok, text := c >= 32 as char, [c];
        return;
      }
      if pos >= |json| { return; }
      var e := json[pos];
      pos := pos + 1;
      assert Left() == s[2..];
      if e == 'u' {
        var v := ParseHex();
        if v < 0 { return; }
        ok, text := true, Utf8(v);
      } else {
        ok, text := Unescape(e) != 0 as char, [Unescape(e)];
      }
    }

    method ParseString() returns (ok: bool, out: string)
      requires Valid()
      modifies this
      ensures Valid() && pos >= old(pos) && ok == ReadString(old(Left())).Got?
      ensures ok ==> Got(out, Left()) == ReadString(old(Left())) && pos > old(pos)
    {
      SkipWs();
      ok := Consume('\"');
      out := "";
      if !ok { return; }
      ghost var inside := Inside(Left());
      ghost var start := pos;
      assert After("", inside) == inside by { if inside.Got? { assert "" + inside.value == inside.value; } }
      while pos < |json|
        invariant Valid() && pos >= start && After(out, Inside(Left())) == inside
        decreases |json| - pos
      {
        if json[pos] == '\"' {
          assert Left()[1..] == json[pos + 1..] && out + "" == out;
          pos := pos + 1;
          return;
        }
        InsideStep(out, Left());
        var more, text := ParsePiece();
        if !more { return false, out; }
        out := out + text;
      }
      ok := false;
    }

    method ParseKey() returns (ok: bool, key: string)
      requires Valid()
      modifies this
      ensures Valid() && pos >= old(pos) && ok == ReadKey(old(Left())).Got?
      ensures ok ==> Got(key, Left()) == ReadKey(old(Left())) && pos > old(pos)
    {
      ok, key := ParseString();
      if !ok { return; }
      SkipWs();
      ok := Consume(':');
    }

    /** Digits, stopping short of a 64-bit overflow. */
    method ParseDigits() returns (ok: bool, v: nat)
      requires Valid() && Left() != "" && IsDigit(Left()[0])
      modifies this
      ensures Valid() && pos >= old(pos) && ok == Accumulate(old(Left()), 0, old(Left())[0] == '0').Got?
      ensures ok ==> Got(v, Left()) == Accumulate(old(Left()), 0, old(Left())[0] == '0')
    {
      v := 0;
      var leadingZero := json[pos] == '0';
      ghost var whole := Accumulate(Left(), 0, leadingZero);
      ok := false;
      while pos < |json| && IsDigit(json[pos])
        invariant Valid() && pos >= old(pos) && Accumulate(Left(), v, leadingZero) == whole
        decreases |json| - pos
      {
        var d := DigitOf(json[pos]);
        ghost var s := Left();
        if v > (U64_MAX - d) / 10 { return; }
        v := v * 10 + d;
        pos := pos + 1;
        assert Left() == s[1..];
        if leadingZero && pos < |json| && IsDigit(json[pos]) {
          assert s[1] == json[pos];
          return;
        }
      }
      ok := true;
    }

    method AtEnd() returns (ok: bool)
      requires Valid()
      ensures ok == Ends(Left())
    {
      ok := pos >= |json| || IsDelimiter(json[pos]);
    }

    method ParseInt64() returns (ok: bool, v: int)
      requires Valid()
      modifies this
      ensures Valid() && pos >= old(pos) && ok == ReadInt(old(Left())).Got?
      ensures ok ==> ReadInt(old(Left())) == Got(v, Left())
    {
      SkipWs();
      v := 0;
      var neg := Consume('-');
      if pos >= |json| || !IsDigit(json[pos]) { return false, 0; }
      var n;
      ok, n := ParseDigits();
      if !ok { return; }
      ok := AtEnd();
      if !ok { return; }
      if neg {
        ok, v := n <= I64_MAX + 1, -n;
      } else {
        ok, v := n <= I64_MAX, n;
      }
    }

    /** At least one digit, and all that follow. */
    method SkipDigits() returns (ok: bool)
      requires Valid()
      modifies this
      ensures Valid() && pos >= old(pos) && ok == SomeDigits(old(Left())).Rest?
      ensures ok ==> SomeDigits(old(Left())) == Rest(Left())
    {
      ok := pos < |json| && IsDigit(json[pos]);
      if !ok { return; }
      ghost var first := Left();
      pos := pos + 1;
      assert Left() == first[1..];
      while pos < |json| && IsDigit(json[pos])
        invariant Valid() && pos > old(pos) && AfterDigits(Left()) == AfterDigits(first[1..])
      {
        assert Left()[1..] == json[pos + 1..];
        pos := pos + 1;
      }
    }

    method SkipInteger() returns (ok: bool)
      requires Valid()
      modifies this
      ensures Valid() && pos >= old(pos) && ok == SkipWhole(old(Left())).Rest?
      ensures ok ==> SkipWhole(old(Left())) == Rest(Left())
    {
      if pos >= |json| { return false; }
      if json[pos] == '0' {
        ghost var s := Left();
        pos := pos + 1;
        assert Left() == s[1..];
        ok := !(pos < |json| && IsDigit(json[pos]));
      } else {
        ok := SkipDigits();
      }
    }

    method SkipDecimals() returns (ok: bool)
      requires Valid()
      modifies this
      ensures Valid() && pos >= old(pos) && ok == SkipFraction(old(Left())).Rest?
      ensures ok ==> SkipFraction(old(Left())) == Rest(Left())
    {
      var dot := Consume('.');
      if !dot { return true; }
      ok := SkipDigits();
    }

    method SkipPower() returns (ok: bool)
      requires Valid()
      modifies this
      ensures Valid() && pos >= old(pos) && ok == SkipExponent(old(Left())).Rest?
      ensures ok ==> SkipExponent(old(Left())) == Rest(Left())
    {
      var lower := Consume('e');
      if !lower {
        var upper := Consume('E');
        if !upper { return true; }
      }
      var plus := Consume('+');
      if !plus { var minus := Consume('-'); }
      ok := SkipDigits();
    }

    method SkipNumberText() returns (ok: bool)
      requires Valid()
      modifies this
      ensures Valid() && pos >= old(pos) && ok == SkipNumber(old(Left())).Rest?
      ensures ok ==> SkipNumber(old(Left())) == Rest(Left())
    {
      var minus := Consume('-');
      ok := SkipInteger();
      if !ok { return; }
      ok := SkipDecimals();
      if !ok { return; }
      ok := SkipPower();
      if !ok { return; }
      ok := AtEnd();
    }

    method ConsumeLiteral(word: string) returns (ok: bool)
      requires Valid() && word != ""
      modifies this
      ensures Valid() && pos >= old(pos) && ok == Literal(old(Left()), word).Rest?
      ensures ok ==> Literal(old(Left()), word) == Rest(Left())
    {
      ok := |word| <= |json| - pos && json[pos..pos + |word|] == word;
      ghost var s := Left();
      assert |word| <= |s| ==> s[..|word|] == json[pos..pos + |word|];
      if ok {
        pos := pos + |word|;
        assert Left() == s[|word|..];
      }
    }

    /** Any value; the recursion is bounded by the text that is left. */
    method SkipAny() returns (ok: bool)
      requires Valid()
      modifies this
      ensures Valid() && pos >= old(pos) && ok == SkipValue(old(Left())).Rest?
      ensures ok ==> SkipValue(old(Left())) == Rest(Left()) && pos > old(pos)
      decreases |json| - pos, 2
    {
      SkipWs();
      if pos >= |json| { return false; }
      var c := json[pos];
      ghost var s := Left();
      if c == '{' {
        ok := SkipObject();
      } else if c == '[' {
        ok := SkipArray();
      } else if c == '\"' {
        var text;
        ok, text := ParseString();
      } else if c == 't' {
        ok := ConsumeLiteral("true");
      } else if c == 'f' {
        ok := ConsumeLiteral("false");
      } else if c == 'n' {
        ok := ConsumeLiteral("null");
      } else {
        ok := SkipNumberText();
      }
      if ok { Moved(old(Left()), old(pos)); }
    }

    /** Text that got shorter is text further on. */
    lemma {:induction false} Moved(before: string, was: nat)
      requires Valid() && was <= |json| && before == json[was..] && |Left()| < |before|
      ensures pos > was
    {
    }

    method SkipObject() returns (ok: bool)
      requires Valid() && Starts(Left(), '{')
      modifies this
      ensures Valid() && pos >= old(pos)
      ensures var inner := Ws(old(Left())[1..]);
        var r := if Starts(inner, '}') then Rest(inner[1..]) else SkipMembers(inner);
        ok == r.Rest? && (ok ==> r == Rest(Left()))
      decreases |json| - pos, 1
    {
      ok := Consume('{');
      var empty := Peek('}');
      if empty {
        ok := Consume('}');
        return;
      }
      ghost var whole := SkipMembers(Left());
      ghost var entry := pos;
      var more := true;
      while more
        invariant Valid() && pos >= entry && (more ==> SkipMembers(Left()) == whole)
        invariant !more ==> whole == if Starts(Left(), '}') then Rest(Left()[1..]) else Stuck
        decreases more, |json| - pos
      {
        var key;
        ok, key := ParseKey();
        if !ok { return; }
        ok := SkipAny();
        if !ok { return; }
        var last := Peek('}');
        more := false;
        if !last { more := Consume(','); }
      }
      ok := Consume('}');
    }

    method SkipArray() returns (ok: bool)
      requires Valid() && Starts(Left(), '[')
      modifies this
      ensures Valid() && pos >= old(pos)
      ensures var inner := Ws(old(Left())[1..]);
        var r := if Starts(inner, ']') then Rest(inner[1..]) else SkipElements(inner);
        ok == r.Rest? && (ok ==> r == Rest(Left()))
      decreases |json| - pos, 1
    {
      ok := Consume('[');
      var empty := Peek(']');
      if empty {
        ok := Consume(']');
        return;
      }
      ghost var whole := SkipElements(Left());
      ghost var entry := pos;
      var more := true;
      while more
        invariant Valid() && pos >= entry && (more ==> SkipElements(Left()) == whole)
        invariant !more ==> whole == if Starts(Left(), ']') then Rest(Left()[1..]) else Stuck
        decreases more, |json| - pos
      {
        ok := SkipAny();
        if !ok { return; }
        var last := Peek(']');
        more := false;
        if !last { more := Consume(','); }
      }
      ok := Consume(']');
    }
  }

  method ParseOptional(p: MiniJsonParser, k: IM.Kind) returns (ok: bool, v: IM.Value)
    requires p.Valid()
    modifies p
    ensures p.Valid() && p.pos >= old(p.pos) && ok == IM.ReadValue(k, old(p.Left())).Got?
    ensures ok ==> Got(v, p.Left()) == IM.ReadValue(k, old(p.Left())) && p.pos > old(p.pos)
  {
    v := IM.Plain("");
    if k.PlainKind? {
      var t;
      ok, t := p.ParseString();
      v := IM.Plain(t);
      return;
    }
    var isNull := p.Peek('n');
    AfterSpace(old(p.Left()), k);
    if isNull {
      ok := p.SkipAny();
      v := if k.MaybeTextKind? then IM.MaybeText(None) else IM.MaybeNumber(None);
    } else if k.MaybeTextKind? {
      var t;
      ok, t := p.ParseString();
      v := IM.MaybeText(Some(t));
    } else {
      var n;
      ok, n := p.ParseInt64();
      if ok { v := IM.MaybeNumber(Some(n)); }
    }
    if ok { p.Moved(old(p.Left()), old(p.pos)); }
  }

  lemma {:induction false} AfterSpace(s: string, k: IM.Kind)
    ensures IM.ReadValue(k, Ws(s)) == IM.ReadValue(k, s) && Ws(Ws(s)) == Ws(s)
    ensures SkipValue(Ws(s)) == SkipValue(s) && ReadString(Ws(s)) == ReadString(s) && ReadInt(Ws(s)) == ReadInt(s)
  {
    IM.WsTwice(s);
  }

  method FindKey(keys: seq<string>, key: string) returns (i: nat)
    ensures i == IM.Find(keys, key)
  {
    i := 0;
    while i < |keys| && keys[i] != key
      invariant i <= |keys| && IM.Find(keys, key) == i + IM.Find(keys[i..], key)
    {
      i := i + 1;
    }
  }

  method ParseMember(sc: IM.Schema, p: MiniJsonParser, values: seq<IM.Value>, seen: set<nat>)
    returns (ok: bool, after: seq<IM.Value>, now: set<nat>)
    requires p.Valid() && IM.SchemaOk(sc) && IM.Fits(sc, values)
    modifies p
    ensures p.Valid() && p.pos >= old(p.pos)
    ensures ok == IM.ReadMember(sc, IM.State(values, seen, old(p.Left()))).State?
    ensures ok ==> IM.State(after, now, p.Left()) == IM.ReadMember(sc, IM.State(values, seen, old(p.Left())))
    ensures ok ==> p.pos > old(p.pos) && IM.Fits(sc, after)
  {
    after, now := values, seen;
    var key;
    ok, key := p.ParseKey();
    if !ok { return; }
    var i := FindKey(sc.keys, key);
    if i == |sc.keys| {
      ok := p.SkipAny();
    } else {
      var v;
      ok, v := ParseOptional(p, sc.kinds[i]);
      if ok { after, now := values[i := v], seen + {i}; }
    }
  }

  /** Accepts a document exactly when the function does, with the same fields. */
  method ParseMetadata(sc: IM.Schema, document: string) returns (r: Option<seq<IM.Value>>)
    requires IM.SchemaOk(sc)
    ensures r == IM.Parse(sc, document)
  {
    var p := new MiniJsonParser(document);
    var values, seen: set<nat> := sc.defaults, {};
    p.SkipWs();
    var open := p.Consume('{');
    if !open { return None; }
    var empty := p.Peek('}');
    ghost var whole := IM.ReadMembers(sc, IM.State(values, seen, p.Left()));
    var more := !empty;
    while more
      invariant p.Valid() && IM.Fits(sc, values) && fresh(p)
      invariant more ==> IM.ReadMembers(sc, IM.State(values, seen, p.Left())) == whole
      invariant !more && !empty ==> whole == IM.State(values, seen, p.Left())
      invariant empty ==> !more && values == sc.defaults && seen == {} && Starts(p.Left(), '}')
      invariant empty ==> p.Left() == Ws(Ws(document)[1..])
      decreases more, |p.json| - p.pos
    {
      var ok, after, now := ParseMember(sc, p, values, seen);
      if !ok { return None; }
      values, seen := after, now;
      var last := p.Peek('}');
      more := false;
      if !last { more := p.Consume(','); }
    }
    var complete := sc.required <= seen;
    var closed := p.Consume('}');
    if !complete || !closed { return None; }
    p.SkipWs();
    r := if p.pos == |p.json| then Some(values) else None;
  }

  /** Value of the first `n` hexadecimal digits at a position. */
  function Shifted(s: string, at: nat, n: nat): int
    requires at + n <= |s| && n <= 4
  {
    if n == 0 then 0 else Shifted(s, at, n - 1) * 16 + HexDigit(s[at + n - 1])
  }
}
