// The ports column: a list of Go ints printed by json.Marshal and read back by
// json.Unmarshal, following the array and number grammar of RFC 8259 (sections 2, 5 and 6).
module PortsJson {
  import opened Wrappers
  import opened Decimal

  const MIN_INT: int := -0x8000_0000_0000_0000
  const MAX_INT: int := 0x7fff_ffff_ffff_ffff

  // Go's int on a 64-bit host.
  type GoInt = x: int | MIN_INT <= x <= MAX_INT

  function Marshal(ports: seq<GoInt>): string {
    if ports == [] then "[]" else "[" + Elements(ports)
  }

  // The elements and the closing bracket.
  function Elements(ports: seq<GoInt>): (s: string)
    requires ports != []
    ensures s != ""
    decreases |ports|, 1
  {
    ItoaInt(ports[0]) + AfterFirst(ports)
  }

  function AfterFirst(ports: seq<GoInt>): (s: string)
    requires ports != []
    ensures s != "" && s[0] in [',', ']']
    decreases |ports|, 0
  {
    if |ports| == 1 then "]" else "," + Elements(ports[1..])
  }

  // The numbers, with commas between them.
  function Listed(ports: seq<GoInt>): string
    requires ports != []
  {
    var n := |ports| - 1;
    if n == 0 then ItoaInt(ports[0]) else Listed(ports[..n]) + "," + ItoaInt(ports[n])
  }

  // The text in full: brackets around them.
  lemma MarshalText(ports: seq<GoInt>)
    ensures Marshal(ports) == if ports == [] then "[]" else "[" + Listed(ports) + "]"
  {
    hide Listed, Elements;
    if ports != [] {
      ElementsListed(ports);
      assert "[" + (Listed(ports) + "]") == "[" + Listed(ports) + "]";
    }
  }

  lemma {:induction false} ElementsListed(ports: seq<GoInt>)
    requires ports != []
    ensures Elements(ports) == Listed(ports) + "]"
  {
    hide ItoaInt, Listed;
    if |ports| == 1 {
      ListedOne(ports);
    } else {
      ElementsListed(ports[1..]);
      ListedRest(ports);
      var first, rest := ItoaInt(ports[0]), Listed(ports[1..]);
      assert first + ("," + (rest + "]")) == first + "," + rest + "]";
    }
  }

  lemma ListedOne(ports: seq<GoInt>)
    requires |ports| == 1
    ensures Listed(ports) == ItoaInt(ports[0])
  {
  }

  lemma {:induction false} ListedRest(ports: seq<GoInt>)
    requires |ports| > 1
    ensures Listed(ports) == ItoaInt(ports[0]) + "," + Listed(ports[1..])
  {
    hide ItoaInt;
    var n := |ports| - 1;
    if n > 1 {
      ListedRest(ports[..n]);
      assert ports[..n][1..] == ports[1..][..n - 1] && ports[1..][n - 1] == ports[n];
      var first, mid, last := ItoaInt(ports[0]), Listed(ports[1..][..n - 1]), ItoaInt(ports[n]);
      assert first + "," + mid + "," + last == first + "," + (mid + "," + last);
    }
  }

  predicate IsSpace(c: char) {
    c == ' ' || c == '\t' || c == '\n' || c == '\r'
  }

  function SkipSpace(s: string): (rest: string)
    ensures |rest| <= |s|
  {
    if s != "" && IsSpace(s[0]) then SkipSpace(s[1..]) else s
  }

  function DigitSpan(s: string): (n: nat)
    ensures n <= |s| && AllDigits(s[..n])
    ensures n < |s| ==> !IsDigit(s[n])
  {
    if s != "" && IsDigit(s[0]) then
      var n := 1 + DigitSpan(s[1..]);
      assert forall k | 1 <= k < n :: s[..n][k] == s[1..][..n - 1][k - 1];
      n
    else 0
  }

  // A number at the head of s and what follows it. A leading zero is not a number, and a
  // fraction or exponent is not an integer.
  function ParseInt(s: string): (r: Option<(int, string)>)
    ensures r.Some? ==> |r.value.1| < |s|
  {
    var negative := s != "" && s[0] == '-';
    var t := if negative then s[1..] else s;
    var n := DigitSpan(t);
    if n == 0 || (n > 1 && t[0] == '0') then None
    else if n < |t| && t[n] in ['.', 'e', 'E'] then None
    else
      var magnitude: int := Value(t[..n]);
      Some((if negative then -magnitude else magnitude, t[n..]))
  }

  function ParseElement(s: string): (r: Option<(GoInt, string)>)
    ensures r.Some? ==> |r.value.1| < |s|
  {
    match ParseInt(SkipSpace(s))
    case None => None
    case Some((x, rest)) =>
      if MIN_INT <= x <= MAX_INT then Some((x, SkipSpace(rest))) else None
  }

  // The elements from here to the closing bracket, which must end the text.
  function ParseElements(s: string): Option<seq<GoInt>>
    decreases |s|
  {
    match ParseElement(s)
    case None => None
    case Some((x, rest)) =>
      if rest == "" then None
      else if rest[0] == ']' then
        if SkipSpace(rest[1..]) == "" then Some([x]) else None
      else if rest[0] == ',' then
        match ParseElements(rest[1..])
        case None => None
        case Some(xs) => Some([x] + xs)
      else None
  }

  function Unmarshal(text: string): Option<seq<GoInt>> {
    var s := SkipSpace(text);
    if s == "" || s[0] != '[' then None
    else
      var t := SkipSpace(s[1..]);
      if t != "" && t[0] == ']' then
        if SkipSpace(t[1..]) == "" then Some([]) else None
      else ParseElements(s[1..])
  }

  lemma {:induction false} DigitSpanOfDigits(digits: string, rest: string)
    requires AllDigits(digits)
    requires rest != "" ==> !IsDigit(rest[0])
    ensures DigitSpan(digits + rest) == |digits|
  {
    var s := digits + rest;
    if digits == "" {
      assert s == rest;
    } else {
      assert s[1..] == digits[1..] + rest;
      DigitSpanOfDigits(digits[1..], rest);
    }
  }

  // The sign, and then the digits of the magnitude.
  lemma SignThenDigits(x: int)
    ensures ItoaInt(x)[0] == '-' <==> x < 0
    ensures (if x < 0 then ItoaInt(x)[1..] else ItoaInt(x)) == Itoa(if x < 0 then -x else x)
    ensures IsDigit(ItoaInt(x)[0]) <==> x >= 0
  {
    assert IsDigit(Itoa(if x < 0 then -x else x)[0]);
  }

  lemma DigitsReadBack(m: nat, rest: string)
    requires rest != "" && (rest[0] in [',', ']'] || IsSpace(rest[0]))
    ensures var t := Itoa(m) + rest;
            var n := DigitSpan(t);
            && 0 < n < |t| && t[..n] == Itoa(m) && t[n..] == rest && Value(t[..n]) == m
            && (t[0] == '0' ==> n == 1)
  {
    hide DigitSpan, Value, Itoa;
    var t := Itoa(m) + rest;
    DigitSpanOfDigits(Itoa(m), rest);
    assert t[0] == Itoa(m)[0];
    assert t[..|Itoa(m)|] == Itoa(m) && t[|Itoa(m)|..] == rest;
    ValueOfItoa(m);
  }

  lemma ParseIntOfItoa(x: int, rest: string)
    requires rest != "" && (rest[0] in [',', ']'] || IsSpace(rest[0]))
    ensures ParseInt(ItoaInt(x) + rest) == Some((x, rest))
  {
    hide DigitSpan, Value, Itoa, ItoaInt, IsDigit;
    var m: nat := if x < 0 then -x else x;
    var s, t := ItoaInt(x) + rest, Itoa(m) + rest;
    SignThenDigits(x);
    assert s[0] == ItoaInt(x)[0];
    assert t == if x < 0 then s[1..] else s;
    DigitsReadBack(m, rest);
    assert t[DigitSpan(t)] == t[DigitSpan(t)..][0] == rest[0];
  }

  lemma ParseElementOfItoa(x: GoInt, rest: string)
    requires rest != "" && rest[0] in [',', ']']
    ensures ParseElement(ItoaInt(x) + rest) == Some((x, rest))
  {
    hide ParseInt, ItoaInt;
    ParseIntOfItoa(x, rest);
    SignThenDigits(x);
    assert !IsSpace((ItoaInt(x) + rest)[0]);
    assert !IsSpace(rest[0]);
  }

  lemma {:induction false} ParseElementsOfElements(ports: seq<GoInt>)
    requires ports != []
    ensures ParseElements(Elements(ports)) == Some(ports)
  {
    var rest := AfterFirst(ports);
    ParseElementOfItoa(ports[0], rest);
    assert [ports[0]] + ports[1..] == ports;
    if |ports| == 1 {
      assert rest[1..] == "" && [ports[0]] == ports;
    } else {
      assert rest[1..] == Elements(ports[1..]);
      ParseElementsOfElements(ports[1..]);
    }
  }

  // Whatever list of ports is stored, the text read back yields the same list in the same order.
  lemma PortsRoundTrip(ports: seq<GoInt>)
    ensures Unmarshal(Marshal(ports)) == Some(ports)
  {
    if ports == [] {
      assert "[]"[1..] == "]" && "]"[1..] == "";
    } else {
      hide ParseElements, Elements, SkipSpace;
      ElementsStart(ports);
      ParseElementsOfElements(ports);
      OpenBracket(Elements(ports));
    }
  }

  // The first element is not white space, nor the end of the list.
  lemma ElementsStart(ports: seq<GoInt>)
    requires ports != []
    ensures Elements(ports)[0] == '-' || IsDigit(Elements(ports)[0])
  {
    hide ItoaInt, AfterFirst;
    SignThenDigits(ports[0]);
    assert Elements(ports)[0] == ItoaInt(ports[0])[0];
  }

  lemma OpenBracket(elements: string)
    requires elements != "" && (elements[0] == '-' || IsDigit(elements[0]))
    ensures SkipSpace("[" + elements) == "[" + elements && ("[" + elements)[1..] == elements
    ensures SkipSpace(elements) == elements
  {
  }

  // Distinct lists are stored as distinct texts.
  lemma MarshalInjective(p: seq<GoInt>, q: seq<GoInt>)
    requires Marshal(p) == Marshal(q)
    ensures p == q
  {
    PortsRoundTrip(p);
    PortsRoundTrip(q);
  }
}
