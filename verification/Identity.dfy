/** Phone canonicalisation (identity/identity.go). */
module Identity {
  predicate Digit(c: char) {
    '0' <= c <= '9'
  }

  predicate AllDigits(s: string) {
    forall i :: 0 <= i < |s| ==> Digit(s[i])
  }

  function Digits(raw: string): (d: string)
    ensures AllDigits(d)
  {
    if raw == "" then ""
    else (if Digit(raw[0]) then [raw[0]] else []) + Digits(raw[1..])
  }

  function TrimZeros(d: string): (r: string)
    ensures r != "" ==> r[0] != '0'
    ensures AllDigits(d) ==> AllDigits(r)
  {
    if d != "" && d[0] == '0' then TrimZeros(d[1..]) else d
  }

  /** The canonical key of a raw number, given the country code in force. */
  function Canonical(raw: string, countryCode: string): string {
    var d := Digits(raw);
    if d != "" && d[0] == '0' then countryCode + TrimZeros(d) else d
  }

  lemma {:induction false} DigitsOfAppend(a: string, b: string)
    ensures Digits(a + b) == Digits(a) + Digits(b)
  {
    if a == "" {
      assert a + b == b;
    } else {
      assert (a + b)[0] == a[0] && (a + b)[1..] == a[1..] + b;
      DigitsOfAppend(a[1..], b);
      var first := if Digit(a[0]) then [a[0]] else "";
      assert Digits(a + b) == first + (Digits(a[1..]) + Digits(b)) == (first + Digits(a[1..])) + Digits(b);
    }
  }

  /** Character by character, the ten digits are kept and nothing else. */
  lemma DigitsOfOne(c: char)
    ensures Digits([c]) == if c in {'0', '1', '2', '3', '4', '5', '6', '7', '8', '9'} then [c] else ""
  {
    assert [c][1..] == "";
  }

  lemma {:induction false} DigitsOfDigits(d: string)
    requires AllDigits(d)
    ensures Digits(d) == d
  {
    if d != "" {
      DigitsOfDigits(d[1..]);
    }
  }

  /** The builder loop: keeps the digits, in order. */
  method KeepDigits(raw: string) returns (b: string)
    ensures b == Digits(raw)
  {
    b := "";
    for i := 0 to |raw|
      invariant b == Digits(raw[..i])
    {
      DigitsOfAppend(raw[..i], [raw[i]]);
      assert raw[..i] + [raw[i]] == raw[..i + 1];
      if '0' <= raw[i] <= '9' {
        b := b + [raw[i]];
      }
    }
    assert raw[..|raw|] == raw;
  }

  method Normalize(raw: string, countryCode: string) returns (r: string)
    ensures r == Canonical(raw, countryCode)
  {
    var b := KeepDigits(raw);
    if b == "" {
      return "";
    }
    if b[0] == '0' {
      b := countryCode + TrimZeros(b);
    }
    return b;
  }

  /** What makes the key of `raw` usable for comparing identities: digits only, empty exactly for
      input without digits, no national trunk zero left, stable under normalising again, and a
      function of the digits alone. */
  predicate GoodKey(raw: string, countryCode: string) {
    var r := Canonical(raw, countryCode);
    && AllDigits(r)
    && (r == "" <==> Digits(raw) == "")
    && (r != "" ==> r[0] != '0')
    && Canonical(r, countryCode) == r
    && Canonical(Digits(raw), countryCode) == r
  }

  predicate GoodCode(countryCode: string) {
    AllDigits(countryCode) && countryCode != "" && countryCode[0] != '0'
  }

  lemma GoodCodeGivesGoodKey(raw: string, countryCode: string)
    requires GoodCode(countryCode)
    ensures GoodKey(raw, countryCode)
  {
    var d := Digits(raw);
    var r := Canonical(raw, countryCode);
    assert Digits(d) == d by {
      DigitsOfDigits(d);
    }
    assert AllDigits(r);
    assert Digits(r) == r by {
      DigitsOfDigits(r);
    }
  }

  /** Normalising yields good keys for all input exactly for the country codes that are themselves
      non-empty digit strings without a leading zero, which the default "972" is. */
  lemma NormalizeIsCanonical(countryCode: string)
    ensures (forall raw: string :: GoodKey(raw, countryCode)) <==> GoodCode(countryCode)
  {
    if GoodCode(countryCode) {
      forall raw: string ensures GoodKey(raw, countryCode) {
        GoodCodeGivesGoodKey(raw, countryCode);
      }
    } else {
      var zero := ['0'];
      assert Digits(zero) == zero && TrimZeros(zero) == "";
      assert Canonical(zero, countryCode) == countryCode + "" == countryCode;
      assert !GoodKey(zero, countryCode);
    }
  }

  /** Spacing, dashes and a plus sign anywhere in a number do not change its key. */
  lemma PunctuationIsIgnored(a: string, junk: string, b: string, countryCode: string)
    requires forall i :: 0 <= i < |junk| ==> !Digit(junk[i])
    ensures Canonical(a + junk + b, countryCode) == Canonical(a + b, countryCode)
  {
    assert Digits(a + junk + b) == Digits(a + b) by {
      NoDigits(junk);
      DigitsOfAppend(a + junk, b);
      DigitsOfAppend(a, junk);
      DigitsOfAppend(a, b);
      assert Digits(a) + "" == Digits(a);
    }
  }

  lemma {:induction false} NoDigits(s: string)
    requires forall i :: 0 <= i < |s| ==> !Digit(s[i])
    ensures Digits(s) == ""
  {
    if s != "" {
      NoDigits(s[1..]);
    }
  }

  // ---------------------------------------------------------------------------------------------
  // The key keeps the number
  // ---------------------------------------------------------------------------------------------

  /** `d` starts with exactly `n` zeros. */
  predicate LeadingZeros(d: string, n: nat) {
    && n <= |d|
    && (forall i :: 0 <= i < n ==> d[i] == '0')
    && (n < |d| ==> d[n] != '0')
  }

  lemma {:induction false} TrimmedAfterZeros(d: string) returns (n: nat)
    ensures LeadingZeros(d, n) && TrimZeros(d) == d[n..]
  {
    if d != "" && d[0] == '0' {
      var m := TrimmedAfterZeros(d[1..]);
      n := m + 1;
      assert forall i :: 0 < i < n ==> d[i] == d[1..][i - 1];
      assert d[1..][m..] == d[n..];
    } else {
      n := 0;
      assert d[0..] == d;
    }
  }

  lemma ZerosAreCounted(d: string, n: nat, m: nat)
    requires LeadingZeros(d, n) && LeadingZeros(d, m)
    ensures n == m
  {
    assert n < |d| ==> d[n] != '0';
    assert m < |d| ==> d[m] != '0';
  }

  /** The key is the digits of the number as they stand, or, for a national number, the country code and
      the digits after the trunk zeros. */
  lemma KeyKeepsTheNumber(raw: string, countryCode: string, n: nat)
    requires LeadingZeros(Digits(raw), n)
    ensures Canonical(raw, countryCode) == if n == 0 then Digits(raw) else countryCode + Digits(raw)[n..]
  {
    var m := TrimmedAfterZeros(Digits(raw));
    ZerosAreCounted(Digits(raw), n, m);
  }

  /** Two national numbers share a key exactly when they agree after their trunk zeros, and a national number
      shares one with an international number exactly when that is the code and those digits. */
  lemma KeysOfNationalNumbers(a: string, n: nat, b: string, m: nat, countryCode: string)
    requires LeadingZeros(Digits(a), n) && LeadingZeros(Digits(b), m) && n > 0
    ensures m > 0 ==>
      (Canonical(a, countryCode) == Canonical(b, countryCode) <==> Digits(a)[n..] == Digits(b)[m..])
    ensures m == 0 ==>
      (Canonical(a, countryCode) == Canonical(b, countryCode) <==> Digits(b) == countryCode + Digits(a)[n..])
  {
    KeyKeepsTheNumber(a, countryCode, n);
    KeyKeepsTheNumber(b, countryCode, m);
    var x, y := Digits(a)[n..], Digits(b)[m..];
    assert x == (countryCode + x)[|countryCode|..] && y == (countryCode + y)[|countryCode|..];
  }
}
