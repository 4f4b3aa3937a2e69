/** Character classes and string helpers shared by both scripts, restricted to ASCII:
    Python's Unicode-aware `\d`, `\s`, `lower()`, `upper()` and `strip()` agree with these
    definitions on ASCII text. */
module Text {
  import opened Wrappers

  /** `\d` on ASCII. */
  predicate IsDigit(c: char) {
    '0' <= c <= '9'
  }

  /** `str.isspace()` (and so `\s` and the default `strip()`) on ASCII: tab, line feed,
      vertical tab, form feed, carriage return, the separators 0x1C-0x1F and space. */
  predicate IsSpace(c: char) {
    9 <= c as int <= 13 || 28 <= c as int <= 32
  }

  predicate IsAsciiLetter(c: char) {
    'A' <= c <= 'Z' || 'a' <= c <= 'z'
  }

  function Lower(c: char): char {
    if 'A' <= c <= 'Z' then (c as int + 32) as char else c
  }

  function Upper(c: char): char {
    if 'a' <= c <= 'z' then (c as int - 32) as char else c
  }

  function LowerString(s: string): (r: string)
    ensures |r| == |s| && forall k :: 0 <= k < |s| ==> r[k] == Lower(s[k])
  {
    seq(|s|, k requires 0 <= k < |s| => Lower(s[k]))
  }

  function UpperString(s: string): (r: string)
    ensures |r| == |s| && forall k :: 0 <= k < |s| ==> r[k] == Upper(s[k])
  {
    seq(|s|, k requires 0 <= k < |s| => Upper(s[k]))
  }

  /** Python truthiness of an optional string: present and non-empty. */
  predicate Truthy(o: Option<string>) {
    o.Some? && o.value != ""
  }

  predicate AllSpace(s: string) {
    forall k :: 0 <= k < |s| ==> IsSpace(s[k])
  }

  /** `s.lstrip()` */
  function TrimLeft(s: string): (r: string)
    ensures |r| <= |s| && r == s[|s| - |r|..]
    ensures AllSpace(s[..|s| - |r|])
    ensures r == [] || !IsSpace(r[0])
    decreases |s|
  {
    if |s| > 0 && IsSpace(s[0]) then
      var r := TrimLeft(s[1..]);
      assert s[1..][|s| - 1 - |r|..] == s[|s| - |r|..];
      assert s[..|s| - |r|] == [s[0]] + s[1..][..|s| - 1 - |r|];
      r
    else s
  }

  /** `s.rstrip()` */
  function TrimRight(s: string): (r: string)
    ensures |r| <= |s| && r == s[..|r|]
    ensures AllSpace(s[|r|..])
    ensures r == [] || !IsSpace(r[|r| - 1])
    decreases |s|
  {
    if |s| > 0 && IsSpace(s[|s| - 1]) then TrimRight(s[..|s| - 1]) else s
  }

  /** `s.strip()` */
  function Strip(s: string): (r: string)
    ensures |r| <= |s|
  {
    TrimRight(TrimLeft(s))
  }

  /** `r` is `s` from `a` on, with only whitespace on either side of it. */
  predicate Trimmed(s: string, a: nat, r: string) {
    a + |r| <= |s| && r == s[a..a + |r|] && AllSpace(s[..a]) && AllSpace(s[a + |r|..])
  }

  /** What `strip()` leaves: the middle of `s` once the whitespace on both ends is
      removed; nothing exactly when `s` is all whitespace; otherwise something that
      neither starts nor ends with whitespace. */
  lemma StripSpec(s: string)
    ensures exists a: nat :: Trimmed(s, a, Strip(s))
    ensures Strip(s) == [] <==> AllSpace(s)
    ensures var r := Strip(s); r != [] ==> !IsSpace(r[0]) && !IsSpace(r[|r| - 1])
  {
    var l := TrimLeft(s);
    var r := TrimRight(l);
    assert Strip(s) == r;
    StripParts(s, l, r);
    var a: nat := |s| - |l|;
    assert Trimmed(s, a, r);
  }

  lemma StripParts(s: string, l: string, r: string)
    requires |l| <= |s| && l == s[|s| - |l|..] && AllSpace(s[..|s| - |l|])
    requires |r| <= |l| && r == l[..|r|] && AllSpace(l[|r|..])
    requires l == [] || !IsSpace(l[0])
    ensures Trimmed(s, |s| - |l|, r)
    ensures r == [] <==> AllSpace(s)
    ensures r != [] ==> !IsSpace(r[0])
  {
    var a := |s| - |l|;
    assert s[a + |r|..] == l[|r|..];
    assert r == s[a..a + |r|];
    if r == [] {
      assert l == [];
      assert s == s[..a];
    } else {
      assert r[0] == s[a];
      assert !IsSpace(s[a]);
    }
  }

  /** `s.replace(',', '')` */
  function RemoveCommas(s: string): (r: string)
    ensures ',' !in r
    ensures |r| <= |s|
    ensures ',' !in s ==> r == s
    decreases |s|
  {
    if |s| == 0 then []
    else (if s[0] == ',' then [] else [s[0]]) + RemoveCommas(s[1..])
  }

  /** Text without whitespace is left as it is by `strip()`. */
  lemma StripNoSpace(s: string)
    requires forall k :: 0 <= k < |s| ==> !IsSpace(s[k])
    ensures Strip(s) == s
  {
    assert TrimLeft(s) == s;
    assert TrimRight(s) == s;
  }

  /** Removing the commas leaves nothing exactly when there was nothing but commas. */
  lemma RemoveCommasEmpty(s: string)
    ensures RemoveCommas(s) == [] <==> forall k :: 0 <= k < |s| ==> s[k] == ','
  {
    if exists k :: 0 <= k < |s| && s[k] != ',' {
      var k :| 0 <= k < |s| && s[k] != ',';
      RemoveCommasKeeps(s, s[k]);
    }
  }

  /** Every character other than a comma survives comma removal, and no other appears. */
  lemma {:induction false} RemoveCommasKeeps(s: string, c: char)
    requires c != ','
    ensures c in RemoveCommas(s) <==> c in s
    decreases |s|
  {
    if |s| > 0 {
      RemoveCommasKeeps(s[1..], c);
      assert c in s <==> c == s[0] || c in s[1..];
    }
  }

  predicate AllDigits(s: string) {
    forall k :: 0 <= k < |s| ==> IsDigit(s[k])
  }

  function DigitValue(c: char): nat
    requires IsDigit(c)
  {
    c as int - '0' as int
  }

  function Pow10(n: nat): nat {
    if n == 0 then 1 else 10 * Pow10(n - 1)
  }

  /** `int(s)` for a non-empty run of ASCII digits (leading zeros allowed). */
  function DecimalValue(s: string): (n: nat)
    requires AllDigits(s)
    ensures n < Pow10(|s|)
    decreases |s|
  {
    if |s| == 0 then 0 else 10 * DecimalValue(s[..|s| - 1]) + DigitValue(s[|s| - 1])
  }

  /** The canonical decimal spelling of `n`, as `str(n)` gives it. */
  function Digits(n: nat): (s: string)
    ensures |s| > 0 && AllDigits(s)
    ensures s[0] == '0' ==> n == 0
  {
    if n < 10 then ['0' + n as char]
    else Digits(n / 10) + ['0' + (n % 10) as char]
  }

  /** Comma removal works character by character, so it distributes over concatenation. */
  lemma {:induction false} RemoveCommasAppend(a: string, b: string)
    ensures RemoveCommas(a + b) == RemoveCommas(a) + RemoveCommas(b)
    decreases |a|
  {
    if |a| > 0 {
      assert (a + b)[0] == a[0] && (a + b)[1..] == a[1..] + b;
      RemoveCommasAppend(a[1..], b);
      var h := if a[0] == ',' then [] else [a[0]];
      assert RemoveCommas(a + b) == h + RemoveCommas(a[1..] + b);
      assert RemoveCommas(a) == h + RemoveCommas(a[1..]);
    } else {
      assert a + b == b;
    }
  }

  /** Removing commas twice is the same as removing them once. */
  lemma RemoveCommasIdempotent(s: string)
    ensures RemoveCommas(RemoveCommas(s)) == RemoveCommas(s)
  {
  }

  /** `int(str(n)) == n`. */
  lemma {:induction false} DecimalValueOfDigits(n: nat)
    ensures DecimalValue(Digits(n)) == n
  {
    if n >= 10 {
      var s := Digits(n / 10) + ['0' + (n % 10) as char];
      assert s[..|s| - 1] == Digits(n / 10);
      DecimalValueOfDigits(n / 10);
    }
  }

  /** Leading zeros do not change the value, as with `int("007") == 7`. */
  lemma {:induction false} LeadingZeroIgnored(s: string)
    requires AllDigits(s)
    ensures DecimalValue(['0'] + s) == DecimalValue(s)
    decreases |s|
  {
    if |s| > 0 {
      var t := ['0'] + s;
      assert t[..|t| - 1] == ['0'] + s[..|s| - 1];
      LeadingZeroIgnored(s[..|s| - 1]);
    }
  }
}
