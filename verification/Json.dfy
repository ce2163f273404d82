/** JSON text: the printer's strings and integers, and the small parser that reads them back.
    A character stands for one byte; the parser functions take the text that is left and return
    the text that is left after them. */
module Json {
  import opened Records

  datatype Got<+T> = Got(value: T, rest: string) | Fail

  // ---------------------------------------------------------------------------------------------
  // White space and single characters.

  predicate IsSpace(c: char) { c == ' ' || c == '\t' || c == '\n' || c == '\r' }

  predicate IsDigit(c: char) { '0' <= c <= '9' }

  function Ws(s: string): (r: string)
    ensures |r| <= |s| && (r != "" ==> !IsSpace(r[0]))
  {
    if s != "" && IsSpace(s[0]) then Ws(s[1..]) else s
  }

  predicate Starts(s: string, c: char) { s != "" && s[0] == c }

  // ---------------------------------------------------------------------------------------------
  // Strings.

  const HEX: string := "0123456789abcdef"

  function Escape(c: char): string {
    if c == '\\' then "\\\\"
    else if c == '\"' then "\\\""
    else if c == 8 as char then "\\b"
    else if c == 12 as char then "\\f"
    else if c == '\n' then "\\n"
    else if c == '\r' then "\\r"
    else if c == '\t' then "\\t"
    else if c < 32 as char then ['\\', 'u', '0', '0', HEX[c as int / 16], HEX[c as int % 16]]
    else [c]
  }

  function EscapeAll(t: string): string {
    if t == "" then "" else Escape(t[0]) + EscapeAll(t[1..])
  }

  function Quote(t: string): string { "\"" + EscapeAll(t) + "\"" }

  function HexDigit(c: char): int {
    if '0' <= c <= '9' then c as int - '0' as int
    else if 'a' <= c <= 'f' then c as int - 'a' as int + 10
    else if 'A' <= c <= 'F' then c as int - 'A' as int + 10
    else -1
  }

  /** Value of four hexadecimal digits; negative when one of them is none. */
  function Hex4(s: string): (v: int)
    requires |s| >= 4
    ensures v < 0x1_0000
  {
    var a, b, c, d := HexDigit(s[0]), HexDigit(s[1]), HexDigit(s[2]), HexDigit(s[3]);
    if a < 0 || b < 0 || c < 0 || d < 0 then -1 else a * 4096 + b * 256 + c * 16 + d
  }

  function Utf8(v: nat): string
    requires v < 0x1_0000
  {
    if v <= 0x7f then [v as char]
    else if v <= 0x7ff then [(0xc0 + v / 64) as char, (0x80 + v % 64) as char]
    else [(0xe0 + v / 4096) as char, (0x80 + v / 64 % 64) as char, (0x80 + v % 64) as char]
  }

  /** The one-character escapes; 0 for none. */
  function Unescape(c: char): char {
    if c == '\"' then '\"'
    else if c == '\\' then '\\'
    else if c == '/' then '/'
    else if c == 'b' then 8 as char
    else if c == 'f' then 12 as char
    else if c == 'n' then '\n'
    else if c == 'r' then '\r'
    else if c == 't' then '\t'
    else 0 as char
  }

  /** The next piece of a string's inside: what it stands for and what is left; Fail at a control
      character, an unknown or unfinished escape. */
  function Piece(s: string): (r: Got<string>)
    requires s != "" && s[0] != '\"'
    ensures r.Got? ==> |r.rest| < |s|
  {
    if s[0] != '\\' then (if s[0] < 32 as char then Fail else Got([s[0]], s[1..]))
    else if |s| < 2 then Fail
    else if s[1] == 'u' then
      (if |s| < 6 || Hex4(s[2..]) < 0 then Fail else Got(Utf8(Hex4(s[2..])), s[6..]))
    else if Unescape(s[1]) != 0 as char then Got([Unescape(s[1])], s[2..])
    else Fail
  }

  function Inside(s: string): (r: Got<string>)
    ensures r.Got? ==> |r.rest| < |s|
    decreases |s|
  {
    if s == "" then Fail
    else if s[0] == '\"' then Got("", s[1..])
    else
      var p := Piece(s);
      if p.Fail? then Fail
      else
        var q := Inside(p.rest);
        if q.Fail? then Fail else Got(p.value + q.value, q.rest)
  }

  function ReadString(s: string): (r: Got<string>)
    ensures r.Got? ==> |r.rest| < |s|
  {
    var w := Ws(s);
    if Starts(w, '\"') then Inside(w[1..]) else Fail
  }

  lemma {:induction false} EscapedControl(c: char, rest: string)
    requires c < 32 as char
    ensures Hex4(['0', '0', HEX[c as int / 16], HEX[c as int % 16]] + rest) == c as int
  {
    var n := c as int;
    assert HexDigit(HEX[n / 16]) == n / 16 && HexDigit(HEX[n % 16]) == n % 16 by {
      HexOf(n / 16);
      HexOf(n % 16);
    }
  }

  lemma {:induction false} HexOf(n: nat)
    requires n < 16
    ensures HexDigit(HEX[n]) == n
  {
  }

  /** A printed character is one piece, and stands for itself. */
  lemma {:induction false} EscapeReads(c: char, rest: string)
    ensures var s := Escape(c) + rest; s[0] != '\"' && Piece(s) == Got([c], rest)
  {
    var e := Escape(c);
    var s := e + rest;
    assert forall i :: 0 <= i < |e| ==> s[i] == e[i];
    assert s[|e|..] == rest;
    if |e| == 6 {
      EscapedControl(c, rest);
      assert s[2..] == e[2..] + rest;
      assert e[2..] == ['0', '0', HEX[c as int / 16], HEX[c as int % 16]];
    }
  }

  lemma {:induction false} InsideReads(t: string, rest: string)
    ensures Inside(EscapeAll(t) + "\"" + rest) == Got(t, rest)
  {
    if t == "" {
      assert EscapeAll(t) + "\"" + rest == "\"" + rest;
    } else {
      var tail := EscapeAll(t[1..]) + "\"" + rest;
      InsideReads(t[1..], rest);
      EscapeReads(t[0], tail);
      assert EscapeAll(t) + "\"" + rest == Escape(t[0]) + tail;
      assert t == [t[0]] + t[1..];
    }
  }

  /** Reading undoes quoting, for every string whatever its bytes. */
  lemma {:induction false} StringReads(t: string, rest: string)
    ensures ReadString(Quote(t) + rest) == Got(t, rest)
  {
    var s := Quote(t) + rest;
    assert s[0] == '\"';
    assert s[1..] == EscapeAll(t) + "\"" + rest;
    InsideReads(t, rest);
  }

  // ---------------------------------------------------------------------------------------------
  // Integers.

  function DigitOf(c: char): nat
    requires IsDigit(c)
  {
    c as int - '0' as int
  }

  predicate AllDigits(ds: string) { forall i :: 0 <= i < |ds| ==> IsDigit(ds[i]) }

  /** `v` followed by the digits `ds`. */
  function Extend(v: nat, ds: string): (n: nat)
    requires AllDigits(ds)
    ensures n >= v
    decreases |ds|
  {
    if ds == "" then v else Extend(v * 10 + DigitOf(ds[0]), ds[1..])
  }

  /** The accumulation loop: it stops short of overflowing 64 bits and, after a leading zero, at any
      further digit. */
  function Accumulate(s: string, v: nat, leadingZero: bool): (r: Got<nat>)
    ensures r.Got? ==> |r.rest| <= |s| && !(r.rest != "" && IsDigit(r.rest[0]))
    decreases |s|
  {
    if s == "" || !IsDigit(s[0]) then Got(v, s)
    else
      var d := DigitOf(s[0]);
      if v > (U64_MAX - d) / 10 then Fail
      else if leadingZero && |s| > 1 && IsDigit(s[1]) then Fail
      else Accumulate(s[1..], v * 10 + d, leadingZero)
  }

  predicate IsDelimiter(c: char) { IsSpace(c) || c == ',' || c == ']' || c == '}' }

  predicate Ends(s: string) { s == "" || IsDelimiter(s[0]) }

  function ReadUnsigned(s: string): (r: Got<nat>)
    ensures r.Got? ==> |r.rest| < |s| && Ends(r.rest)
  {
    if s == "" || !IsDigit(s[0]) then Fail
    else
      var r := Accumulate(s, 0, s[0] == '0');
      if r.Fail? || !Ends(r.rest) then Fail else AccumulateMoves(s, 0, s[0] == '0'); r
  }

  lemma {:induction false} AccumulateMoves(s: string, v: nat, leadingZero: bool)
    requires s != "" && IsDigit(s[0]) && Accumulate(s, v, leadingZero).Got?
    ensures |Accumulate(s, v, leadingZero).rest| < |s|
  {
  }

  function ReadInt(s: string): (r: Got<i64>)
    ensures r.Got? ==> |r.rest| < |s|
  {
    var w := Ws(s);
    var neg := Starts(w, '-');
    var u := ReadUnsigned(if neg then w[1..] else w);
    if u.Fail? then Fail
    else if neg then
      var n: int := u.value;
      (if n > I64_MAX + 1 then Fail else Got(-n, u.rest))
    else (if u.value > I64_MAX then Fail else Got(u.value, u.rest))
  }

  /** The overflow test is exact: the digits are read if and only if their value fits 64 bits. */
  lemma {:induction false} AccumulateExact(ds: string, rest: string, v: nat, leadingZero: bool)
    requires AllDigits(ds) && !(rest != "" && IsDigit(rest[0])) && (leadingZero ==> |ds| <= 1)
    requires v <= U64_MAX
    ensures Accumulate(ds + rest, v, leadingZero)
         == if Extend(v, ds) <= U64_MAX then Got(Extend(v, ds), rest) else Fail
    decreases |ds|
  {
    var s := ds + rest;
    if ds == "" {
      assert s == rest;
    } else {
      var d := DigitOf(ds[0]);
      assert s[0] == ds[0] && s[1..] == ds[1..] + rest;
      assert |s| > 1 ==> s[1] == (ds[1..] + rest)[0];
      DivisionExact(v, d);
      if v * 10 + d <= U64_MAX { AccumulateExact(ds[1..], rest, v * 10 + d, leadingZero); }
    }
  }

  lemma {:induction false} DivisionExact(v: nat, d: nat)
    requires d <= 9
    ensures v > (U64_MAX - d) / 10 <==> v * 10 + d > U64_MAX
  {
  }

  /** A number without superfluous zeros is accepted exactly when it fits a signed 64-bit integer, and
      read as its value. */
  lemma {:induction false} IntExact(neg: bool, ds: string, rest: string)
    requires ds != "" && AllDigits(ds) && (ds[0] == '0' ==> |ds| == 1) && Ends(rest)
    ensures var n: int := Extend(0, ds); var v := if neg then -n else n;
      ReadInt((if neg then "-" else "") + ds + rest)
      == if -0x8000_0000_0000_0000 <= v <= I64_MAX then Got(v, rest) else Fail
  {
    var s := (if neg then "-" else "") + ds + rest;
    assert s[0] == if neg then '-' else ds[0];
    assert !IsSpace(s[0]);
    assert (if neg then s[1..] else s) == ds + rest;
    AccumulateExact(ds, rest, 0, ds[0] == '0');
  }

  function Digits(n: nat): (ds: string)
    ensures ds != "" && AllDigits(ds)
  {
    var last := (n % 10 + '0' as int) as char;
    if n < 10 then [last] else Digits(n / 10) + [last]
  }

  function Decimal(v: i64): string {
    var n: int := v;
    if n < 0 then "-" + Digits(-n) else Digits(n)
  }

  lemma {:induction false} ExtendLast(v: nat, ds: string, c: char)
    requires AllDigits(ds) && IsDigit(c)
    ensures AllDigits(ds + [c]) && Extend(v, ds + [c]) == Extend(v, ds) * 10 + DigitOf(c)
    decreases |ds|
  {
    if ds == "" {
      assert ds + [c] == [c];
      assert [c][1..] == "";
    } else {
      ExtendLast(v * 10 + DigitOf(ds[0]), ds[1..], c);
      assert (ds + [c])[1..] == ds[1..] + [c];
    }
  }

  lemma {:induction false} DigitsSpell(n: nat)
    ensures Extend(0, Digits(n)) == n && (Digits(n)[0] == '0' ==> |Digits(n)| == 1)
  {
    var last := (n % 10 + '0' as int) as char;
    if n < 10 {
      ExtendLast(0, "", last);
      assert "" + [last] == [last];
    } else {
      DigitsSpell(n / 10);
      ExtendLast(0, Digits(n / 10), last);
      DigitsPositive(n / 10);
    }
  }

  lemma {:induction false} DigitsPositive(n: nat)
    requires n > 0
    ensures Digits(n)[0] != '0'
  {
    if n >= 10 { DigitsPositive(n / 10); }
  }

  /** Reading undoes printing, for every 64-bit integer. */
  lemma {:induction false} IntReads(v: i64, rest: string)
    requires Ends(rest)
    ensures ReadInt(Decimal(v) + rest) == Got(v, rest)
  {
    var m: int := v;
    var n := if m < 0 then -m else m;
    DigitsSpell(n);
    IntExact(v < 0, Digits(n), rest);
    assert v >= 0 ==> "" + Digits(n) == Digits(n);
  }

  // ---------------------------------------------------------------------------------------------
  // Skipping a value.

  datatype Rest = Rest(text: string) | Stuck

  function Literal(s: string, word: string): (r: Rest)
    requires word != ""
    ensures r.Rest? ==> |r.text| < |s|
  {
    if word <= s then Rest(s[|word|..]) else Stuck
  }

  function AfterDigits(s: string): (r: string)
    ensures |r| <= |s| && !(r != "" && IsDigit(r[0]))
  {
    if s != "" && IsDigit(s[0]) then AfterDigits(s[1..]) else s
  }

  /** One digit at least. */
  function SomeDigits(s: string): (r: Rest)
    ensures r.Rest? ==> |r.text| < |s|
  {
    if s == "" || !IsDigit(s[0]) then Stuck else Rest(AfterDigits(s[1..]))
  }

  function SkipWhole(s: string): (r: Rest)
    ensures r.Rest? ==> |r.text| < |s|
  {
    if s == "" then Stuck
    else if s[0] == '0' then (if |s| > 1 && IsDigit(s[1]) then Stuck else Rest(s[1..]))
    else SomeDigits(s)
  }

  function SkipFraction(s: string): (r: Rest)
    ensures r.Rest? ==> |r.text| <= |s|
  {
    if Starts(s, '.') then SomeDigits(s[1..]) else Rest(s)
  }

  function SkipExponent(s: string): (r: Rest)
    ensures r.Rest? ==> |r.text| <= |s|
  {
    if Starts(s, 'e') || Starts(s, 'E') then
      var t := s[1..];
      SomeDigits(if Starts(t, '+') || Starts(t, '-') then t[1..] else t)
    else Rest(s)
  }

  function SkipNumber(s: string): (r: Rest)
    ensures r.Rest? ==> |r.text| < |s|
  {
    var whole := SkipWhole(if Starts(s, '-') then s[1..] else s);
    if whole.Stuck? then Stuck
    else
      var fraction := SkipFraction(whole.text);
      if fraction.Stuck? then Stuck
      else
        var exponent := SkipExponent(fraction.text);
        if exponent.Stuck? || !Ends(exponent.text) then Stuck else exponent
  }

  function ReadKey(s: string): (r: Got<string>)
    ensures r.Got? ==> |r.rest| < |s|
  {
    var k := ReadString(s);
    if k.Fail? then Fail
    else
      var w := Ws(k.rest);
      if Starts(w, ':') then Got(k.value, w[1..]) else Fail
  }

  function SkipValue(s: string): (r: Rest)
    ensures r.Rest? ==> |r.text| < |s|
    decreases |s|, 0
  {
    var w := Ws(s);
    if w == "" then Stuck
    else if w[0] == '{' then
      var inner := Ws(w[1..]);
      (if Starts(inner, '}') then Rest(inner[1..]) else SkipMembers(inner))
    else if w[0] == '[' then
      var inner := Ws(w[1..]);
      (if Starts(inner, ']') then Rest(inner[1..]) else SkipElements(inner))
    else if w[0] == '\"' then
      var t := ReadString(w);
      (if t.Fail? then Stuck else Rest(t.rest))
    else if w[0] == 't' then Literal(w, "true")
    else if w[0] == 'f' then Literal(w, "false")
    else if w[0] == 'n' then Literal(w, "null")
    else SkipNumber(w)
  }

  function SkipMembers(s: string): (r: Rest)
    ensures r.Rest? ==> |r.text| < |s|
    decreases |s|, 1
  {
    var k := ReadKey(s);
    if k.Fail? then Stuck
    else
      var v := SkipValue(k.rest);
      if v.Stuck? then Stuck
      else
        var w := Ws(v.text);
        if Starts(w, '}') then Rest(w[1..]) else if Starts(w, ',') then SkipMembers(w[1..]) else Stuck
  }

  function SkipElements(s: string): (r: Rest)
    ensures r.Rest? ==> |r.text| < |s|
    decreases |s|, 1
  {
    var v := SkipValue(s);
    if v.Stuck? then Stuck
    else
      var w := Ws(v.text);
      if Starts(w, ']') then Rest(w[1..]) else if Starts(w, ',') then SkipElements(w[1..]) else Stuck
  }
}
