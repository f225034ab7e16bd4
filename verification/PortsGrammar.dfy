// What json.Unmarshal takes for a list of integers, independently of how it is read: the texts that
// sections 2, 5 and 6 of RFC 8259 allow for one, and no others.
module PortsGrammar {
  import opened Wrappers
  import opened Decimal
  import opened PortsJson

  predicate Spaces(s: string) {
    forall k :: 0 <= k < |s| ==> IsSpace(s[k])
  }

  // A number without fraction and exponent: no leading zero, and there is a minus zero.
  predicate IsNumber(literal: string, x: int) {
    literal == ItoaInt(x) || (literal == "-0" && x == 0)
  }

  // White space, the number, white space, and then the rest, which begins with something else.
  ghost predicate SpellsElement(s: string, x: int, rest: string) {
    && rest != "" && rest[0] in [',', ']']
    && exists a, literal, b :: Spaces(a) && IsNumber(literal, x) && Spaces(b) && s == a + (literal + (b + rest))
  }

  // The elements, with commas between them, and the closing bracket with only white space after it.
  ghost predicate SpellsElements(s: string, ports: seq<GoInt>)
    requires ports != []
    decreases |ports|, 1
  {
    exists rest :: SpellsElement(s, ports[0], rest) && SpellsRest(rest, ports)
  }

  ghost predicate SpellsRest(rest: string, ports: seq<GoInt>)
    requires ports != []
    decreases |ports|, 0
  {
    && rest != ""
    && if |ports| == 1 then rest[0] == ']' && Spaces(rest[1..])
       else rest[0] == ',' && SpellsElements(rest[1..], ports[1..])
  }

  ghost predicate Spells(text: string, ports: seq<GoInt>) {
    exists a, s :: Spaces(a) && text == a + ("[" + s) &&
      if ports == [] then ClosesEmpty(s) else SpellsElements(s, ports)
  }

  ghost predicate ClosesEmpty(s: string) {
    exists a, b :: Spaces(a) && Spaces(b) && s == a + ("]" + b)
  }

  // ----- White space

  lemma {:induction false} SkipSplits(s: string) returns (a: string)
    ensures Spaces(a) && s == a + SkipSpace(s)
    ensures SkipSpace(s) != "" ==> !IsSpace(SkipSpace(s)[0])
  {
    if s != "" && IsSpace(s[0]) {
      a := SkipSplits(s[1..]);
      a := [s[0]] + a;
    } else {
      a := "";
    }
  }

  lemma {:induction false} SkipsOver(a: string, t: string)
    requires Spaces(a) && (t != "" ==> !IsSpace(t[0]))
    ensures SkipSpace(a + t) == t
  {
    if a == "" {
      assert a + t == t;
    } else {
      assert (a + t)[1..] == a[1..] + t;
      SkipsOver(a[1..], t);
    }
  }

  lemma OnlySpaces(s: string)
    ensures SkipSpace(s) == "" <==> Spaces(s)
  {
    if Spaces(s) {
      SkipsOver(s, "");
      assert s + "" == s;
    }
    var a := SkipSplits(s);
    if SkipSpace(s) != "" {
      assert s[|a|] == SkipSpace(s)[0];
    }
  }

  // ----- Numbers

  lemma {:induction false} ItoaOfValue(d: string)
    requires AllDigits(d) && d != "" && (|d| > 1 ==> d[0] != '0')
    ensures Itoa(Value(d)) == d
  {
    hide Itoa, Value, DigitValue;
    var n := |d| - 1;
    ValueOfLast(d);
    assert d == d[..n] + [d[n]];
    if n == 0 {
      ItoaOfDigit(d[0]);
    } else {
      ItoaOfValue(d[..n]);
      ZeroText();
      assert Value(d[..n]) != 0;
      ItoaOneMore(Value(d[..n]), d[n]);
    }
  }

  lemma ValueOfLast(d: string)
    requires AllDigits(d) && d != ""
    ensures Value(d) == Value(d[..|d| - 1]) * 10 + DigitValue(d[|d| - 1])
    ensures |d| == 1 ==> Value(d) == DigitValue(d[0])
  {
    hide DigitValue;
    if |d| == 1 {
      NoValue(d[..0]);
    }
  }

  lemma NoValue(s: string)
    requires s == ""
    ensures Value(s) == 0
  {
  }

  lemma ItoaOfDigit(c: char)
    requires IsDigit(c)
    ensures Itoa(DigitValue(c)) == [c]
  {
  }

  lemma ItoaOneMore(v: nat, c: char)
    requires v > 0 && IsDigit(c)
    ensures Itoa(v * 10 + DigitValue(c)) == Itoa(v) + [c]
  {
    var n := v * 10 + DigitValue(c);
    assert n / 10 == v && n % 10 == DigitValue(c);
  }

  // The sign, the digits and what follows them.
  lemma ParsedParts(s: string) returns (negative: bool, digits: string)
    requires ParseInt(s).Some?
    ensures AllDigits(digits) && digits != "" && (|digits| > 1 ==> digits[0] != '0')
    ensures s == (if negative then "-" else "") + digits + ParseInt(s).value.1
    ensures ParseInt(s).value.0 == Value(digits) * if negative then -1 else 1
  {
    hide Value, DigitSpan, IsDigit;
    negative := s[0] == '-';
    var t := if negative then s[1..] else s;
    digits := t[..DigitSpan(t)];
    assert t == digits + ParseInt(s).value.1;
  }

  lemma ParsedIsNumber(s: string)
    requires ParseInt(s).Some?
    ensures var (x, rest) := ParseInt(s).value;
            exists literal :: IsNumber(literal, x) && s == literal + rest
  {
    hide Itoa, Value, ParseInt;
    var negative, digits := ParsedParts(s);
    ItoaOfValue(digits);
    ZeroText();
    assert IsNumber((if negative then "-" else "") + digits, ParseInt(s).value.0) by {
      assert "" + digits == digits;
    }
  }

  lemma ZeroText()
    ensures Itoa(0) == "0"
  {
  }

  // What may follow a number.
  predicate Ends(rest: string) {
    rest != "" && (rest[0] in [',', ']'] || IsSpace(rest[0]))
  }

  lemma NumberIsParsed(literal: string, x: int, rest: string)
    requires IsNumber(literal, x) && Ends(rest)
    ensures ParseInt(literal + rest) == Some((x, rest))
  {
    if literal == ItoaInt(x) {
      ParseIntOfItoa(x, rest);
    } else {
      MinusZero(rest);
    }
  }

  lemma MinusZero(rest: string)
    requires Ends(rest)
    ensures ParseInt("-0" + rest) == Some((0, rest))
  {
    hide DigitSpan;
    var s := "-0" + rest;
    assert s[1..] == "0" + rest;
    DigitSpanOfDigits("0", rest);
    assert s[1..][..1] == "0" && s[1..][1..] == rest;
    assert "0"[..0] == [];
  }

  // ----- Elements

  lemma NumberStart(literal: string, x: int)
    requires IsNumber(literal, x)
    ensures literal != "" && !IsSpace(literal[0])
  {
    SignThenDigits(x);
  }

  lemma ElementExactly(s: string, x: GoInt, rest: string)
    requires rest != "" && rest[0] in [',', ']']
    ensures ParseElement(s) == Some((x, rest)) <==> SpellsElement(s, x, rest)
  {
    hide ParseInt, SkipSpace, IsNumber, Spaces;
    if ParseElement(s) == Some((x, rest)) {
      var a := SkipSplits(s);
      ParsedIsNumber(SkipSpace(s));
      var literal :| IsNumber(literal, x) && SkipSpace(s) == literal + ParseInt(SkipSpace(s)).value.1;
      var b := SkipSplits(ParseInt(SkipSpace(s)).value.1);
      assert s == a + (literal + (b + rest));
    }
    if SpellsElement(s, x, rest) {
      var a, literal, b :| Spaces(a) && IsNumber(literal, x) && Spaces(b) && s == a + (literal + (b + rest));
      ElementIsParsed(a, literal, x, b, rest);
    }
  }

  lemma ElementIsParsed(a: string, literal: string, x: GoInt, b: string, rest: string)
    requires Spaces(a) && IsNumber(literal, x) && Spaces(b) && rest != "" && rest[0] in [',', ']']
    ensures ParseElement(a + (literal + (b + rest))) == Some((x, rest))
  {
    hide ParseInt, SkipSpace, IsNumber;
    NumberStart(literal, x);
    SkipsOver(a, literal + (b + rest));
    NumberIsParsed(literal, x, b + rest);
    SkipsOver(b, rest);
  }

  // An element is taken only where a comma or the bracket follows it.
  lemma {:induction false} ElementsExactly(s: string, ports: seq<GoInt>)
    requires ports != []
    ensures ParseElements(s) == Some(ports) <==> SpellsElements(s, ports)
    decreases |ports|
  {
    hide ParseElement, SpellsElement, SkipSpace;
    if ParseElements(s) == Some(ports) {
      var (x, rest) := ParseElement(s).value;
      ElementExactly(s, x, rest);
      if rest[0] == ']' {
        OnlySpaces(rest[1..]);
        assert SpellsRest(rest, ports);
      } else {
        var xs := ParseElements(rest[1..]).value;
        assert ports == [x] + xs && ports[1..] == xs;
        SomeElements(rest[1..]);
        ElementsExactly(rest[1..], ports[1..]);
        assert SpellsRest(rest, ports);
      }
    }
    if SpellsElements(s, ports) {
      ElementsAreParsed(s, ports);
    }
  }

  lemma SomeElements(s: string)
    requires ParseElements(s).Some?
    ensures ParseElements(s).value != []
  {
  }

  lemma {:induction false} ElementsAreParsed(s: string, ports: seq<GoInt>)
    requires ports != [] && SpellsElements(s, ports)
    ensures ParseElements(s) == Some(ports)
    decreases |ports|
  {
    hide ParseElement, ParseElements, SkipSpace, SpellsElement, Spaces;
    var rest :| SpellsElement(s, ports[0], rest) && SpellsRest(rest, ports);
    FollowedByToken(s, ports[0], rest);
    ElementExactly(s, ports[0], rest);
    ParseOneMore(s, ports[0], rest);
    if |ports| == 1 {
      OnlySpaces(rest[1..]);
      assert [ports[0]] == ports;
    } else {
      ElementsAreParsed(rest[1..], ports[1..]);
      assert [ports[0]] + ports[1..] == ports;
    }
  }

  lemma FollowedByToken(s: string, x: int, rest: string)
    requires SpellsElement(s, x, rest)
    ensures rest != "" && rest[0] in [',', ']']
  {
  }

  lemma ParseOneMore(s: string, x: GoInt, rest: string)
    requires ParseElement(s) == Some((x, rest)) && rest != ""
    ensures rest[0] == ']' && SkipSpace(rest[1..]) == "" ==> ParseElements(s) == Some([x])
    ensures rest[0] == ',' && ParseElements(rest[1..]).Some? ==>
              ParseElements(s) == Some([x] + ParseElements(rest[1..]).value)
  {
  }

  // ----- The whole text

  // The reader takes exactly the texts that spell a list of 64-bit integers, for the list they spell.
  lemma UnmarshalExactly(text: string, ports: seq<GoInt>)
    ensures Unmarshal(text) == Some(ports) <==> Spells(text, ports)
  {
    hide ParseElements, SkipSpace, SpellsElements, ClosesEmpty;
    var a := SkipSplits(text);
    var s := SkipSpace(text);
    if Unmarshal(text) == Some(ports) {
      assert s == "[" + s[1..];
      InnerExactly(s[1..], ports);
      assert text == a + ("[" + s[1..]);
    }
    if Spells(text, ports) {
      var b, inner :| Spaces(b) && text == b + ("[" + inner) &&
        if ports == [] then ClosesEmpty(inner) else SpellsElements(inner, ports);
      SkipsOver(b, "[" + inner);
      assert ("[" + inner)[1..] == inner;
      InnerExactly(inner, ports);
    }
  }

  // After the opening bracket.
  function Inner(s: string): Option<seq<GoInt>> {
    var t := SkipSpace(s);
    if t != "" && t[0] == ']' then
      if SkipSpace(t[1..]) == "" then Some([]) else None
    else ParseElements(s)
  }

  lemma InnerExactly(s: string, ports: seq<GoInt>)
    ensures Inner(s) == Some(ports) <==> if ports == [] then ClosesEmpty(s) else SpellsElements(s, ports)
  {
    hide ParseElements, SkipSpace, SpellsElements;
    var a := SkipSplits(s);
    var t := SkipSpace(s);
    if t != "" && t[0] == ']' {
      OnlySpaces(t[1..]);
      assert t == "]" + t[1..];
      if ports == [] {
        EmptyExactly(s);
      } else if SpellsElements(s, ports) {
        ElementsStartElsewhere(s, ports);
      }
    } else {
      if ports == [] {
        EmptyExactly(s);
        if ParseElements(s).Some? {
          SomeElements(s);
        }
      } else {
        ElementsExactly(s, ports);
      }
    }
  }

  lemma EmptyExactly(s: string)
    ensures ClosesEmpty(s) <==> var t := SkipSpace(s); t != "" && t[0] == ']' && SkipSpace(t[1..]) == ""
  {
    hide SkipSpace;
    var a := SkipSplits(s);
    var t := SkipSpace(s);
    if t != "" && t[0] == ']' && SkipSpace(t[1..]) == "" {
      OnlySpaces(t[1..]);
      assert t == "]" + t[1..];
    }
    if ClosesEmpty(s) {
      var b, c :| Spaces(b) && Spaces(c) && s == b + ("]" + c);
      SkipsOver(b, "]" + c);
      OnlySpaces(c);
      assert ("]" + c)[1..] == c;
    }
  }

  lemma ElementsStartElsewhere(s: string, ports: seq<GoInt>)
    requires ports != [] && SpellsElements(s, ports)
    ensures SkipSpace(s) != "" && SkipSpace(s)[0] != ']'
  {
    hide SkipSpace, Spaces;
    var rest :| SpellsElement(s, ports[0], rest);
    var a, literal, b :| Spaces(a) && IsNumber(literal, ports[0]) && Spaces(b) && s == a + (literal + (b + rest));
    NumberStart(literal, ports[0]);
    SkipsOver(a, literal + (b + rest));
    NumberNotBracket(literal, ports[0]);
  }

  lemma NumberNotBracket(literal: string, x: int)
    requires IsNumber(literal, x)
    ensures literal != "" && literal[0] != ']'
  {
    SignThenDigits(x);
  }
}
