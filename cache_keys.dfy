/**
 * The key under which one page of the notification list is cached:
 * "notifications_page_" + page + "_limit_" + limit, with both numbers in decimal.
 * Distinct (page, limit) pairs give distinct keys, shown by decoding the key back
 * into its pair.
 */
module CacheKeys {
  import opened Wrappers

  const PagePrefix := "notifications_page_"
  const LimitInfix := "_limit_"

  predicate IsDigit(c: char) {
    '0' <= c <= '9'
  }

  predicate AllDigits(s: string) {
    forall i :: 0 <= i < |s| ==> IsDigit(s[i])
  }

  /** The decimal digit for `d`. */
  function DigitChar(d: nat): (c: char)
    requires d < 10
    ensures IsDigit(c) && c as int - '0' as int == d
  {
    ('0' as int + d) as char
  }

  /** The decimal numeral of `n`, without sign or leading zeros, as string interpolation writes it. */
  function Decimal(n: nat): (s: string)
    ensures |s| >= 1 && AllDigits(s)
    ensures s[0] == '0' ==> n == 0
  {
    if n < 10 then [DigitChar(n)] else Decimal(n / 10) + [DigitChar(n % 10)]
  }

  /** The number a string of decimal digits denotes. */
  function DecimalValue(s: string): nat
    requires AllDigits(s)
  {
    if s == [] then 0 else DecimalValue(s[..|s| - 1]) * 10 + (s[|s| - 1] as int - '0' as int)
  }

  /** Reading a numeral gives back the number it was written from. */
  lemma {:induction false} DecimalRoundTrip(n: nat)
    ensures DecimalValue(Decimal(n)) == n
  {
    var s := Decimal(n);
    if n >= 10 {
      DecimalRoundTrip(n / 10);
      assert s[..|s| - 1] == Decimal(n / 10);
    }
  }

  /** The longest prefix of `s` made of digits. */
  function LeadingDigits(s: string): (d: string)
    ensures AllDigits(d) && d <= s
    ensures |d| < |s| ==> !IsDigit(s[|d|])
  {
    if s == [] || !IsDigit(s[0]) then [] else [s[0]] + LeadingDigits(s[1..])
  }

  /** A run of digits followed by a non-digit (or nothing) is read back whole. */
  lemma {:induction false} LeadingDigitsOf(d: string, rest: string)
    requires AllDigits(d)
    requires rest == [] || !IsDigit(rest[0])
    ensures LeadingDigits(d + rest) == d
  {
    if d != [] {
      assert (d + rest)[1..] == d[1..] + rest;
      LeadingDigitsOf(d[1..], rest);
    }
  }

  /** The cache key of one list page. */
  function CacheKey(page: nat, limit: nat): string {
    PagePrefix + Decimal(page) + LimitInfix + Decimal(limit)
  }

  /** Decode a cache key into its (page, limit) pair; None when the string is not shaped like a key. */
  function ParseCacheKey(key: string): Option<(nat, nat)> {
    if PagePrefix <= key then ParseNumbers(key[|PagePrefix|..]) else None
  }

  /** Decode "<digits>_limit_<digits>", the part of a key after its prefix. */
  function ParseNumbers(rest: string): Option<(nat, nat)> {
    var pageDigits := LeadingDigits(rest);
    var tail := rest[|pageDigits|..];
    if pageDigits == [] || !(LimitInfix <= tail) then None
    else
      var limitDigits := tail[|LimitInfix|..];
      if limitDigits == [] || !AllDigits(limitDigits) then None
      else Some((DecimalValue(pageDigits), DecimalValue(limitDigits)))
  }

  /** The part after the prefix decodes back into the pair it was built from. */
  lemma ParseNumbersRoundTrip(page: nat, limit: nat)
    ensures ParseNumbers(Decimal(page) + (LimitInfix + Decimal(limit))) == Some((page, limit))
  {
    var p, l := Decimal(page), Decimal(limit);
    var rest := p + (LimitInfix + l);
    LeadingDigitsOf(p, LimitInfix + l);
    assert rest[|p|..] == LimitInfix + l;
    assert (LimitInfix + l)[|LimitInfix|..] == l;
    DecimalRoundTrip(page);
    DecimalRoundTrip(limit);
  }

  /** Decoding a key gives back the pair it was built from. */
  lemma CacheKeyRoundTrip(page: nat, limit: nat)
    ensures ParseCacheKey(CacheKey(page, limit)) == Some((page, limit))
  {
    var rest := Decimal(page) + (LimitInfix + Decimal(limit));
    assert CacheKey(page, limit) == PagePrefix + rest;
    assert (PagePrefix + rest)[|PagePrefix|..] == rest;
    ParseNumbersRoundTrip(page, limit);
  }

  /** Distinct (page, limit) pairs never share a cache key, so cached pages never collide. */
  lemma CacheKeyInjective(page1: nat, limit1: nat, page2: nat, limit2: nat)
    requires CacheKey(page1, limit1) == CacheKey(page2, limit2)
    ensures page1 == page2 && limit1 == limit2
  {
    CacheKeyRoundTrip(page1, limit1);
    CacheKeyRoundTrip(page2, limit2);
  }
}
