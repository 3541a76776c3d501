/** Decimal formatting and parsing of int64 values (fmt %d and strconv.ParseInt). */
module Decimal {
  import opened Wrappers

  predicate InInt64(n: int) {
    -0x8000_0000_0000_0000 <= n < 0x8000_0000_0000_0000
  }

  function Digit(d: nat): char
    requires d < 10
  {
    ('0' as int + d) as char
  }

  predicate IsDigit(c: char) {
    '0' <= c <= '9'
  }

  function Value(c: char): nat
    requires IsDigit(c)
  {
    c as int - '0' as int
  }

  function FormatNat(n: nat): string {
    if n < 10 then [Digit(n)] else FormatNat(n / 10) + [Digit(n % 10)]
  }

  function FormatInt(n: int): string {
    if n < 0 then "-" + FormatNat(-n) else FormatNat(n)
  }

  /** All characters are digits; read most significant first. */
  function ParseNat(s: string): Option<nat> {
    if s == "" then None
    else
      var c := s[|s| - 1];
      if !IsDigit(c) then None
      else if |s| == 1 then Some(Value(c))
      else
        var rest := ParseNat(s[..|s| - 1]);
        if rest.None? then None else Some(10 * rest.value + Value(c))
  }

  function ParseInt(s: string): Option<int> {
    if s == "" then None
    else
      var signed := s[0] == '-' || s[0] == '+';
      var magnitude := ParseNat(if signed then s[1..] else s);
      if magnitude.None? then None
      else
        var m: int := magnitude.value;
        var n := if s[0] == '-' then -m else m;
        if InInt64(n) then Some(n) else None
  }

  lemma {:induction false} NatRoundTrip(n: nat)
    ensures ParseNat(FormatNat(n)) == Some(n)
    ensures FormatNat(n) != "" && forall i :: 0 <= i < |FormatNat(n)| ==> IsDigit(FormatNat(n)[i])
  {
    if n < 10 {
    } else {
      NatRoundTrip(n / 10);
      var s := FormatNat(n / 10) + [Digit(n % 10)];
      assert s[..|s| - 1] == FormatNat(n / 10);
    }
  }

  /** Exactly the non-empty digit strings are numbers. */
  lemma {:induction false} ParseNatAccepts(s: string)
    ensures ParseNat(s).Some? <==> s != "" && forall i :: 0 <= i < |s| ==> IsDigit(s[i])
  {
    if |s| > 1 {
      ParseNatAccepts(s[..|s| - 1]);
    }
  }

  function Unsigned(s: string): string {
    if s != "" && (s[0] == '-' || s[0] == '+') then s[1..] else s
  }

  /** One optional sign, then digits only, and a value that fits: exactly those texts are numbers. */
  lemma ParseIntAccepts(s: string)
    ensures ParseInt(s).Some? <==>
      && Unsigned(s) != "" && (forall i :: 0 <= i < |Unsigned(s)| ==> IsDigit(Unsigned(s)[i]))
      && ParseNat(Unsigned(s)).Some?
      && var m: int := ParseNat(Unsigned(s)).value; InInt64(if s[0] == '-' then -m else m)
    ensures ParseInt(s).Some? ==> InInt64(ParseInt(s).value)
  {
    ParseNatAccepts(Unsigned(s));
  }

  lemma SignedParse(n: int)
    requires InInt64(n)
    ensures ParseInt(FormatInt(n)) == Some(n)
  {
    var text := FormatNat(if n < 0 then -n else n);
    NatRoundTrip(if n < 0 then -n else n);
    if n < 0 {
      assert FormatInt(n)[0] == '-' && FormatInt(n)[1..] == text;
    } else {
      assert IsDigit(text[0]) && FormatInt(n) == text;
    }
  }

  /** The most significant digit comes first, after the sign. */
  lemma FormatExample()
    ensures FormatInt(-120) == "-120" && ParseInt("-120") == Some(-120) && ParseInt("+007") == Some(7)
  {
    assert FormatNat(12) == FormatNat(1) + [Digit(2)] == "12";
    assert FormatNat(120) == FormatNat(12) + [Digit(0)] == "120";
    SignedParse(-120);
    assert "00"[..1] == "0" && "007"[..2] == "00" && "+007"[1..] == "007";
    assert ParseNat("0") == Some(0) && ParseNat("00") == Some(0) && ParseNat("007") == Some(7);
  }

  lemma FormatIsPlain(n: int)
    ensures forall i :: 0 <= i < |FormatInt(n)| ==> FormatInt(n)[i] == '-' || IsDigit(FormatInt(n)[i])
  {
    NatRoundTrip(if n < 0 then -n else n);
  }

  lemma IntRoundTrip(n: int)
    requires InInt64(n)
    ensures ParseInt(FormatInt(n)) == Some(n)
    ensures '|' !in FormatInt(n)
  {
    SignedParse(n);
    FormatIsPlain(n);
  }
}
