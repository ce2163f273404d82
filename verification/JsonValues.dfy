/** Every JSON value, however it is nested and spaced, is skipped as a whole. */
module JsonValues {
  import opened Json

  datatype Value =
    | Null
    | Truth(on: bool)
    | Text(text: string)
    | Number(neg: bool, whole: string, fraction: string, exponent: string, marker: char, sign: string)
    | Array(elements: seq<Value>)
    | Object(keys: seq<string>, values: seq<Value>)

  /** Numbers as section 6 of RFC 8259 writes them; an empty fraction or exponent is absent. */
  predicate NumberOk(v: Value)
    requires v.Number?
  {
    && v.whole != "" && AllDigits(v.whole) && (v.whole[0] == '0' ==> |v.whole| == 1)
    && AllDigits(v.fraction) && AllDigits(v.exponent)
    && (v.marker == 'e' || v.marker == 'E') && (v.sign == "" || v.sign == "+" || v.sign == "-")
  }

  predicate WellFormed(v: Value) {
    match v
    case Number(_, _, _, _, _, _) => NumberOk(v)
    case Array(es) => forall i :: 0 <= i < |es| ==> WellFormed(es[i])
    case Object(ks, vs) => |ks| == |vs| && forall i :: 0 <= i < |vs| ==> WellFormed(vs[i])
    case _ => true
  }

  predicate AllSpace(gap: string) { forall i :: 0 <= i < |gap| ==> IsSpace(gap[i]) }

  function Fraction(v: Value): string
    requires v.Number?
  {
    if v.fraction == "" then "" else "." + v.fraction
  }

  function Exponent(v: Value): string
    requires v.Number?
  {
    if v.exponent == "" then "" else [v.marker] + v.sign + v.exponent
  }

  /** The text of a value, with the white space `gap` at every place the grammar allows some. */
  function Print(v: Value, gap: string): string
    requires WellFormed(v)
    decreases v, 1, 0
  {
    match v
    case Null => "null"
    case Truth(on) => if on then "true" else "false"
    case Text(t) => Quote(t)
    case Number(neg, whole, _, _, _, _) => (if neg then "-" else "") + (whole + (Fraction(v) + Exponent(v)))
    case Array(es) => "[" + gap + (if es == [] then "]" else Elements(v, 0, gap))
    case Object(ks, vs) => "{" + gap + (if vs == [] then "}" else Members(v, 0, gap))
  }

  function Elements(v: Value, i: nat, gap: string): string
    requires WellFormed(v) && v.Array? && i < |v.elements|
    decreases v, 0, |v.elements| - i
  {
    Print(v.elements[i], gap) + (gap + (if i + 1 < |v.elements| then "," + (gap + Elements(v, i + 1, gap)) else "]"))
  }

  function Members(v: Value, i: nat, gap: string): string
    requires WellFormed(v) && v.Object? && i < |v.values|
    decreases v, 0, |v.values| - i
  {
    Quote(v.keys[i]) + (gap + ":" + (gap + (Print(v.values[i], gap)
      + (gap + (if i + 1 < |v.values| then "," + (gap + Members(v, i + 1, gap)) else "}")))))
  }

  // ---------------------------------------------------------------------------------------------
  // Pieces of text.

  lemma {:induction false} GapSkipped(gap: string, s: string)
    requires AllSpace(gap)
    ensures Ws(gap + s) == Ws(s)
  {
    if gap == "" {
      assert gap + s == s;
    } else {
      assert (gap + s)[1..] == gap[1..] + s;
      GapSkipped(gap[1..], s);
    }
  }

  lemma {:induction false} GapEnds(gap: string, s: string)
    requires AllSpace(gap) && Ends(s)
    ensures Ends(gap + s)
  {
    if gap == "" { assert gap + s == s; } else { assert (gap + s)[0] == gap[0]; }
  }

  lemma {:induction false} DigitsPassed(ds: string, s: string)
    requires AllDigits(ds) && !(s != "" && IsDigit(s[0]))
    ensures AfterDigits(ds + s) == s
  {
    if ds == "" {
      assert ds + s == s;
    } else {
      assert (ds + s)[1..] == ds[1..] + s;
      DigitsPassed(ds[1..], s);
    }
  }

  lemma {:induction false} SomePassed(ds: string, s: string)
    requires ds != "" && AllDigits(ds) && !(s != "" && IsDigit(s[0]))
    ensures SomeDigits(ds + s) == Rest(s)
  {
    assert (ds + s)[1..] == ds[1..] + s;
    DigitsPassed(ds[1..], s);
  }

  lemma {:induction false} WholePassed(ds: string, s: string)
    requires ds != "" && AllDigits(ds) && (ds[0] == '0' ==> |ds| == 1) && !(s != "" && IsDigit(s[0]))
    ensures SkipWhole(ds + s) == Rest(s)
  {
    SomePassed(ds, s);
    if ds[0] == '0' { assert (ds + s)[1..] == s; }
  }

  lemma {:induction false} FractionPassed(v: Value, s: string)
    requires v.Number? && NumberOk(v) && !(s != "" && (IsDigit(s[0]) || s[0] == '.'))
    ensures SkipFraction(Fraction(v) + s) == Rest(s)
  {
    if v.fraction == "" {
      assert Fraction(v) + s == s;
    } else {
      assert (Fraction(v) + s)[1..] == v.fraction + s;
      SomePassed(v.fraction, s);
    }
  }

  lemma {:induction false} SignPassed(sign: string, ds: string, s: string)
    requires ds != "" && AllDigits(ds) && (sign == "" || sign == "+" || sign == "-")
    ensures var t := sign + (ds + s); (if Starts(t, '+') || Starts(t, '-') then t[1..] else t) == ds + s
  {
    var t := sign + (ds + s);
    if sign == "" { assert t == ds + s && t[0] == ds[0]; } else { assert t[0] == sign[0] && t[1..] == ds + s; }
  }

  lemma {:induction false} ExponentPassed(marker: char, sign: string, ds: string, s: string)
    requires ds != "" && AllDigits(ds) && (marker == 'e' || marker == 'E') && (sign == "" || sign == "+" || sign == "-")
    requires Ends(s)
    ensures SkipExponent([marker] + sign + ds + s) == Rest(s)
  {
    var t := [marker] + sign + ds + s;
    assert t[0] == marker && t[1..] == sign + (ds + s);
    SignPassed(sign, ds, s);
    SomePassed(ds, s);
  }

  lemma {:induction false} TailPassed(v: Value, s: string)
    requires v.Number? && NumberOk(v) && Ends(s)
    ensures SkipExponent(Exponent(v) + s) == Rest(s)
    ensures !(Exponent(v) + s != "" && (IsDigit((Exponent(v) + s)[0]) || (Exponent(v) + s)[0] == '.'))
  {
    if v.exponent == "" {
      assert Exponent(v) + s == s;
    } else {
      ExponentPassed(v.marker, v.sign, v.exponent, s);
    }
  }

  lemma {:induction false} NumberParts(sign: string, whole: string, f: string, e: string, rest: string)
    ensures sign + (whole + (f + e)) + rest == sign + (whole + (f + (e + rest)))
  {
  }

  lemma {:induction false} MinusPassed(neg: bool, w: string)
    requires w != "" && IsDigit(w[0])
    ensures var s := (if neg then "-" else "") + w; (if Starts(s, '-') then s[1..] else s) == w
  {
    if neg { assert ("-" + w)[1..] == w; } else { assert "" + w == w; }
  }

  lemma {:induction false} NumberSkipped(v: Value, rest: string)
    requires v.Number? && NumberOk(v) && Ends(rest)
    ensures SkipNumber((if v.neg then "-" else "") + (v.whole + (Fraction(v) + Exponent(v))) + rest) == Rest(rest)
  {
    var e := Exponent(v) + rest;
    var f := Fraction(v) + e;
    TailPassed(v, rest);
    FractionPassed(v, e);
    FractionStarts(v, e);
    WholePassed(v.whole, f);
    MinusPassed(v.neg, v.whole + f);
    NumberParts(if v.neg then "-" else "", v.whole, Fraction(v), Exponent(v), rest);
  }

  lemma {:induction false} FractionStarts(v: Value, s: string)
    requires v.Number? && !(s != "" && IsDigit(s[0]))
    ensures !(Fraction(v) + s != "" && IsDigit((Fraction(v) + s)[0]))
  {
    if v.fraction == "" { assert Fraction(v) + s == s; }
  }

  // ---------------------------------------------------------------------------------------------
  // Values.

  lemma {:induction false} Opened(open: char, gap: string, s: string, rest: string)
    requires AllSpace(gap) && !IsSpace(open)
    ensures var t := [open] + gap + s + rest; Ws(t) == t && t[0] == open && Ws(t[1..]) == Ws(s + rest)
  {
    var t := [open] + gap + s + rest;
    assert t[1..] == gap + (s + rest);
    GapSkipped(gap, s + rest);
  }

  lemma {:induction false} PrintStarts(v: Value, gap: string)
    requires WellFormed(v)
    ensures Print(v, gap) != "" && !IsSpace(Print(v, gap)[0])
    ensures Print(v, gap)[0] !in [',', ':', ']', '}']
  {
    if v.Number? { assert Print(v, gap)[0] == if v.neg then '-' else v.whole[0]; }
  }

  lemma {:induction false} GapBefore(gap: string, s: string)
    requires AllSpace(gap)
    ensures SkipElements(gap + s) == SkipElements(s) && SkipMembers(gap + s) == SkipMembers(s)
    ensures SkipValue(gap + s) == SkipValue(s) && Ws(gap + s) == Ws(s)
  {
    GapSkipped(gap, s);
  }

  /** An array whose inside is skipped is skipped. */
  lemma {:induction false} ArraySkipped(gap: string, inside: string, rest: string)
    requires AllSpace(gap) && inside != "" && !IsSpace(inside[0])
    requires if inside[0] == ']' then inside == "]" else SkipElements(inside + rest) == Rest(rest)
    ensures SkipValue("[" + gap + inside + rest) == Rest(rest)
  {
    Opened('[', gap, inside, rest);
    assert (inside + rest)[0] == inside[0];
    if inside[0] == ']' { assert (inside + rest)[1..] == rest; }
  }

  lemma {:induction false} ObjectSkipped(gap: string, inside: string, rest: string)
    requires AllSpace(gap) && inside != "" && !IsSpace(inside[0])
    requires if inside[0] == '}' then inside == "}" else SkipMembers(inside + rest) == Rest(rest)
    ensures SkipValue("{" + gap + inside + rest) == Rest(rest)
  {
    Opened('{', gap, inside, rest);
    assert (inside + rest)[0] == inside[0];
    if inside[0] == '}' { assert (inside + rest)[1..] == rest; }
  }

  lemma {:induction false} WordSkipped(word: string, rest: string)
    requires word == "null" || word == "true" || word == "false"
    ensures SkipValue(word + rest) == Rest(rest)
  {
    var s := word + rest;
    assert s[0] == word[0] && Ws(s) == s;
    assert s[..|word|] == word && s[|word|..] == rest;
  }

  lemma {:induction false} TextSkipped(t: string, rest: string)
    ensures SkipValue(Quote(t) + rest) == Rest(rest)
  {
    var s := Quote(t) + rest;
    assert s[0] == '\"' && Ws(s) == s;
    StringReads(t, rest);
  }

  lemma {:induction false} DigitsSkipped(s: string)
    requires s != "" && (s[0] == '-' || IsDigit(s[0]))
    ensures SkipValue(s) == SkipNumber(s)
  {
  }

  lemma {:induction false} NumberStarts(neg: bool, whole: string, tail: string, rest: string)
    requires whole != "" && IsDigit(whole[0])
    ensures var s := (if neg then "-" else "") + (whole + tail) + rest; s != "" && (s[0] == '-' || IsDigit(s[0]))
  {
    if !neg { assert "" + (whole + tail) == whole + tail; }
  }

  lemma {:induction false} NumberValueSkipped(v: Value, gap: string, rest: string)
    requires v.Number? && NumberOk(v) && Ends(rest)
    ensures SkipValue(Print(v, gap) + rest) == Rest(rest)
  {
    NumberStarts(v.neg, v.whole, Fraction(v) + Exponent(v), rest);
    DigitsSkipped(Print(v, gap) + rest);
    NumberSkipped(v, rest);
  }

  /** Any value, however it is nested and spaced, is skipped exactly. */
  lemma {:induction false} ValueSkipped(v: Value, gap: string, rest: string)
    requires WellFormed(v) && AllSpace(gap) && Ends(rest)
    ensures SkipValue(Print(v, gap) + rest) == Rest(rest)
    decreases v, 1, 0
  {
    match v
    case Null => WordSkipped("null", rest);
    case Truth(on) => WordSkipped(if on then "true" else "false", rest);
    case Text(t) => TextSkipped(t, rest);
    case Number(_, _, _, _, _, _) => NumberValueSkipped(v, gap, rest);
    case Array(es) =>
      if es == [] {
        ArraySkipped(gap, "]", rest);
      } else {
        ElementsSkipped(v, 0, gap, rest);
        ArraySkipped(gap, Elements(v, 0, gap), rest);
      }
    case Object(ks, vs) =>
      if vs == [] {
        ObjectSkipped(gap, "}", rest);
      } else {
        MembersSkipped(v, 0, gap, rest);
        ObjectSkipped(gap, Members(v, 0, gap), rest);
      }
  }

  /** One element, then the end of the array or a comma and more elements. */
  lemma {:induction false} ElementStep(e: string, gap: string, more: string, rest: string)
    requires AllSpace(gap) && SkipValue(e + (gap + (more + rest))) == Rest(gap + (more + rest))
    requires more == "]" || (more != "" && more[0] == ',' && SkipElements(more[1..] + rest) == Rest(rest))
    ensures SkipElements(e + (gap + more) + rest) == Rest(rest)
  {
    assert e + (gap + more) + rest == e + (gap + (more + rest));
    GapSkipped(gap, more + rest);
    assert (more + rest)[0] == more[0] && (more + rest)[1..] == more[1..] + rest;
  }

  lemma {:induction false} TailEnds(gap: string, more: string, rest: string)
    requires AllSpace(gap) && more != "" && IsDelimiter(more[0])
    ensures Ends(gap + (more + rest))
  {
    assert (more + rest)[0] == more[0];
    GapEnds(gap, more + rest);
  }

  lemma {:induction false} CommaPassed(gap: string, more: string, rest: string)
    requires AllSpace(gap)
    ensures var m := "," + (gap + more); m[0] == ',' && m[1..] + rest == gap + (more + rest)
    ensures SkipElements(gap + (more + rest)) == SkipElements(more + rest)
    ensures SkipMembers(gap + (more + rest)) == SkipMembers(more + rest)
  {
    GapBefore(gap, more + rest);
  }

  lemma {:induction false} ElementsSkipped(v: Value, i: nat, gap: string, rest: string)
    requires WellFormed(v) && v.Array? && i < |v.elements| && AllSpace(gap) && Ends(rest)
    ensures SkipElements(Elements(v, i, gap) + rest) == Rest(rest)
    ensures Elements(v, i, gap) != "" && !IsSpace(Elements(v, i, gap)[0]) && Elements(v, i, gap)[0] != ']'
    decreases v, 0, |v.elements| - i
  {
    var e := Print(v.elements[i], gap);
    PrintStarts(v.elements[i], gap);
    if i + 1 < |v.elements| {
      var after := Elements(v, i + 1, gap);
      ElementsSkipped(v, i + 1, gap, rest);
      CommaPassed(gap, after, rest);
      TailEnds(gap, "," + (gap + after), rest);
      ValueSkipped(v.elements[i], gap, gap + ("," + (gap + after) + rest));
      ElementStep(e, gap, "," + (gap + after), rest);
    } else {
      TailEnds(gap, "]", rest);
      ValueSkipped(v.elements[i], gap, gap + ("]" + rest));
      ElementStep(e, gap, "]", rest);
    }
  }

  lemma {:induction false} KeyPassed(key: string, gap: string, s: string)
    requires AllSpace(gap)
    ensures ReadKey(Quote(key) + (gap + (":" + s))) == Got(key, s)
  {
    StringReads(key, gap + (":" + s));
    GapSkipped(gap, ":" + s);
    assert (":" + s)[1..] == s;
  }

  lemma {:induction false} MemberParts(q: string, gap: string, e: string, more: string, rest: string)
    ensures q + (gap + ":" + (gap + (e + (gap + more)))) + rest == q +
            (gap + (":" + (gap + (e + (gap + (more + rest))))))
  {
  }

  /** One member, then the end of the object or a comma and more members. */
  lemma {:induction false} MemberStep(key: string, gap: string, e: string, more: string, rest: string)
    requires AllSpace(gap) && SkipValue(e + (gap + (more + rest))) == Rest(gap + (more + rest))
    requires more == "}" || (more != "" && more[0] == ',' && SkipMembers(more[1..] + rest) == Rest(rest))
    ensures SkipMembers(Quote(key) + (gap + ":" + (gap + (e + (gap + more)))) + rest) == Rest(rest)
  {
    var tail := e + (gap + (more + rest));
    MemberParts(Quote(key), gap, e, more, rest);
    KeyPassed(key, gap, gap + tail);
    assert SkipValue(gap + tail) == SkipValue(tail) by { GapBefore(gap, tail); }
    GapSkipped(gap, more + rest);
    assert (more + rest)[0] == more[0] && (more + rest)[1..] == more[1..] + rest;
  }

  lemma {:induction false} MembersSkipped(v: Value, i: nat, gap: string, rest: string)
    requires WellFormed(v) && v.Object? && i < |v.values| && AllSpace(gap) && Ends(rest)
    ensures SkipMembers(Members(v, i, gap) + rest) == Rest(rest)
    ensures Members(v, i, gap) != "" && Members(v, i, gap)[0] == '\"'
    decreases v, 0, |v.values| - i
  {
    var e := Print(v.values[i], gap);
    if i + 1 < |v.values| {
      var after := Members(v, i + 1, gap);
      MembersSkipped(v, i + 1, gap, rest);
      CommaPassed(gap, after, rest);
      TailEnds(gap, "," + (gap + after), rest);
      ValueSkipped(v.values[i], gap, gap + ("," + (gap + after) + rest));
      MemberStep(v.keys[i], gap, e, "," + (gap + after), rest);
    } else {
      TailEnds(gap, "}", rest);
      ValueSkipped(v.values[i], gap, gap + ("}" + rest));
      MemberStep(v.keys[i], gap, e, "}", rest);
    }
  }
}
