/**
 * The few string operations the deployment code relies on: ASCII case folding
 * (JavaScript's toLowerCase on hexadecimal addresses), substring search
 * (String.prototype.includes), joining (Array.prototype.join) and decimal
 * rendering of a natural number.
 */
module Text {

  predicate IsUpper(c: char) { 'A' <= c <= 'Z' }

  function LowerChar(c: char): (d: char)
    ensures !IsUpper(d)
    ensures !IsUpper(c) ==> d == c
  {
    if IsUpper(c) then (c as int + 32) as char else c
  }

  /** Lower-cases every ASCII capital and keeps every other character. */
  function ToLower(s: string): (r: string)
    ensures |r| == |s|
    ensures forall i :: 0 <= i < |s| ==> r[i] == LowerChar(s[i])
  {
    if s == [] then [] else [LowerChar(s[0])] + ToLower(s[1..])
  }

  /** `a.toLowerCase() === b.toLowerCase()` */
  predicate EqualsIgnoreCase(a: string, b: string) {
    ToLower(a) == ToLower(b)
  }

  /** Two strings match ignoring case exactly when they agree character by character after folding. */
  lemma EqualsIgnoreCaseIff(a: string, b: string)
    ensures EqualsIgnoreCase(a, b) <==>
            |a| == |b| && forall i :: 0 <= i < |a| ==> LowerChar(a[i]) == LowerChar(b[i])
  {
    if |a| == |b| && forall i :: 0 <= i < |a| ==> LowerChar(a[i]) == LowerChar(b[i]) {
      assert forall i :: 0 <= i < |a| ==> ToLower(a)[i] == ToLower(b)[i];
    }
  }

  /** An address written with capital hex digits matches its lower-case spelling. */
  lemma MixedCaseAddressMatches()
    ensures EqualsIgnoreCase("0xABCdef", "0xabcDEF")
  {
    EqualsIgnoreCaseIff("0xABCdef", "0xabcDEF");
  }

  predicate StartsWith(s: string, prefix: string) {
    |prefix| <= |s| && s[..|prefix|] == prefix
  }

  /** `s.includes(t)`: t occurs somewhere in s. */
  predicate Contains(s: string, t: string)
    decreases |s|
  {
    StartsWith(s, t) || (s != [] && Contains(s[1..], t))
  }

  /** Contains agrees with "t occurs at some offset of s". */
  lemma {:induction false} ContainsIff(s: string, t: string)
    ensures Contains(s, t) <==> exists i :: 0 <= i <= |s| - |t| && StartsWith(s[i..], t)
    decreases |s|
  {
    if StartsWith(s, t) {
      assert s[0..] == s;
    }
    if s != [] {
      ContainsIff(s[1..], t);
      if exists i :: 0 <= i <= |s| - |t| && StartsWith(s[i..], t) {
        var i :| 0 <= i <= |s| - |t| && StartsWith(s[i..], t);
        if i > 0 {
          assert s[1..][i - 1..] == s[i..];
        }
      }
      if Contains(s[1..], t) {
        var i :| 0 <= i <= |s[1..]| - |t| && StartsWith(s[1..][i..], t);
        assert s[1..][i..] == s[i + 1..];
      }
    } else {
      if exists i :: 0 <= i <= |s| - |t| && StartsWith(s[i..], t) {
        var i :| 0 <= i <= |s| - |t| && StartsWith(s[i..], t);
        assert i == 0 && s[i..] == s;
      }
    }
  }

  lemma {:induction false} ContainsLeft(a: string, b: string, t: string)
    requires Contains(a, t)
    ensures Contains(a + b, t)
    decreases |a|
  {
    if StartsWith(a, t) {
      assert (a + b)[..|t|] == a[..|t|];
    } else {
      assert (a + b)[1..] == a[1..] + b;
      ContainsLeft(a[1..], b, t);
    }
  }

  lemma {:induction false} ContainsRight(a: string, b: string, t: string)
    requires Contains(b, t)
    ensures Contains(a + b, t)
    decreases |a|
  {
    if a != [] {
      assert (a + b)[1..] == a[1..] + b;
      ContainsRight(a[1..], b, t);
    } else {
      assert a + b == b;
    }
  }

  lemma ContainsSelf(t: string)
    ensures Contains(t, t)
  {
    assert t[..|t|] == t;
  }

  /** `parts.join(sep)`; every part occurs in the joined text. */
  function Join(parts: seq<string>, sep: string): (r: string)
    ensures forall i :: 0 <= i < |parts| ==> Contains(r, parts[i])
  {
    if |parts| == 0 then ""
    else if |parts| == 1 then (ContainsSelf(parts[0]); parts[0])
    else
      var rest := Join(parts[1..], sep);
      ContainsSelf(parts[0]);
      ContainsLeft(parts[0], sep + rest, parts[0]);
      assert parts[0] + sep + rest == parts[0] + (sep + rest);
      forall i | 1 <= i < |parts|
        ensures Contains(parts[0] + sep + rest, parts[i])
      {
        assert parts[1..][i - 1] == parts[i];
        ContainsRight(parts[0] + sep, rest, parts[i]);
      }
      parts[0] + sep + rest
  }

  function DigitChar(d: nat): (c: char)
    requires d < 10
    ensures '0' <= c <= '9'
  {
    ('0' as int + d) as char
  }

  /** The decimal rendering of n, as `${n}` prints it. */
  function NatToString(n: nat): (r: string)
    ensures r != []
    ensures forall i :: 0 <= i < |r| ==> '0' <= r[i] <= '9'
  {
    if n < 10 then [DigitChar(n)] else NatToString(n / 10) + [DigitChar(n % 10)]
  }
}
