/** Python `str` operations the lead validators rely on, over `seq<char>`.
    Case mapping is ASCII-only; whitespace is the ASCII and Latin-1 part of
    Python's `str.isspace()`. */
module Text {

  /** Python `str.isspace()` for one character (ASCII and Latin-1 range). */
  predicate IsSpace(c: char) {
    c == ' ' || c == '\t' || c == '\n' || c == '\r' || c == '\U{000B}' || c == '\U{000C}'
    || c == '\U{001C}' || c == '\U{001D}' || c == '\U{001E}' || c == '\U{001F}'
    || c == '\U{0085}' || c == '\U{00A0}'
  }

  predicate IsDigit(c: char) { '0' <= c <= '9' }

  predicate IsUpperLetter(c: char) { 'A' <= c <= 'Z' }

  predicate IsLowerLetter(c: char) { 'a' <= c <= 'z' }

  predicate IsLetter(c: char) { IsUpperLetter(c) || IsLowerLetter(c) }

  predicate IsAlnum(c: char) { IsLetter(c) || IsDigit(c) }

  predicate AllDigits(s: string) { forall i :: 0 <= i < |s| ==> IsDigit(s[i]) }

  /** Python `str.isdigit()`: non-empty and every character a digit. */
  predicate IsDigits(s: string) { |s| > 0 && AllDigits(s) }

  function DigitValue(c: char): (d: nat)
    requires IsDigit(c)
    ensures d < 10
  {
    c as int - '0' as int
  }

  function DigitChar(d: nat): (c: char)
    requires d < 10
    ensures IsDigit(c) && DigitValue(c) == d
  {
    ('0' as int + d) as char
  }

  /** Python `int(s)` for a string of decimal digits. */
  function DigitsValue(s: string): nat
    requires AllDigits(s)
  {
    if s == [] then 0 else 10 * DigitsValue(s[..|s| - 1]) + DigitValue(s[|s| - 1])
  }

  /** Python `str(n)` for a natural number. */
  function NatText(n: nat): (s: string)
    ensures IsDigits(s)
    decreases n
  {
    if n < 10 then [DigitChar(n)] else NatText(n / 10) + [DigitChar(n % 10)]
  }

  lemma {:induction false} NatTextValue(n: nat)
    ensures DigitsValue(NatText(n)) == n
    decreases n
  {
    if n >= 10 {
      var s := NatText(n);
      assert s[..|s| - 1] == NatText(n / 10);
      NatTextValue(n / 10);
    }
  }

  /** Python `str(i)` for an integer. */
  function IntText(i: int): string {
    if i < 0 then "-" + NatText(-i) else NatText(i)
  }

  function UpperChar(c: char): char {
    if IsLowerLetter(c) then (c as int - 32) as char else c
  }

  function LowerChar(c: char): char {
    if IsUpperLetter(c) then (c as int + 32) as char else c
  }

  /** Python `str.upper()` (ASCII letters only). */
  function Upper(s: string): (r: string)
    ensures |r| == |s|
    ensures forall i :: 0 <= i < |s| ==> r[i] == UpperChar(s[i])
  {
    seq(|s|, i requires 0 <= i < |s| => UpperChar(s[i]))
  }

  /** Python `str.lower()` (ASCII letters only). */
  function Lower(s: string): (r: string)
    ensures |r| == |s|
    ensures forall i :: 0 <= i < |s| ==> r[i] == LowerChar(s[i])
  {
    seq(|s|, i requires 0 <= i < |s| => LowerChar(s[i]))
  }

  function TrimStart(s: string): (r: string)
    ensures |r| <= |s|
    ensures r == [] || !IsSpace(r[0])
  {
    if |s| > 0 && IsSpace(s[0]) then TrimStart(s[1..]) else s
  }

  function TrimEnd(s: string): (r: string)
    ensures |r| <= |s|
    ensures r == [] || !IsSpace(r[|r| - 1])
  {
    if |s| > 0 && IsSpace(s[|s| - 1]) then TrimEnd(s[..|s| - 1]) else s
  }

  lemma {:induction false} TrimStartEmptyIff(s: string)
    ensures TrimStart(s) == [] <==> forall i :: 0 <= i < |s| ==> IsSpace(s[i])
  {
    if |s| > 0 && IsSpace(s[0]) {
      TrimStartEmptyIff(s[1..]);
      assert forall i :: 1 <= i < |s| ==> s[i] == s[1..][i - 1];
    }
  }

  lemma {:induction false} TrimEndKeepsFirst(s: string)
    requires s != [] && !IsSpace(s[0])
    ensures TrimEnd(s) != []
  {
    if |s| > 1 && IsSpace(s[|s| - 1]) {
      TrimEndKeepsFirst(s[..|s| - 1]);
    }
  }

  /** `TrimStart` drops a prefix: what it keeps is a suffix of its input. */
  lemma {:induction false} TrimStartSuffix(s: string)
    ensures TrimStart(s) == s[|s| - |TrimStart(s)|..]
  {
    if |s| > 0 && IsSpace(s[0]) {
      TrimStartSuffix(s[1..]);
    }
  }

  /** `TrimEnd` drops a suffix: what it keeps is a prefix of its input. */
  lemma {:induction false} TrimEndPrefix(s: string)
    ensures TrimEnd(s) == s[..|TrimEnd(s)|]
  {
    if |s| > 0 && IsSpace(s[|s| - 1]) {
      TrimEndPrefix(s[..|s| - 1]);
    }
  }

  /** Python `str.strip()` with no argument. */
  function Strip(s: string): (r: string)
    ensures |r| <= |s|
    ensures r == [] || (!IsSpace(r[0]) && !IsSpace(r[|r| - 1]))
  {
    var t := TrimStart(s);
    TrimEndPrefix(t);
    TrimEnd(t)
  }

  /** `strip()` yields "" exactly for all-whitespace strings. */
  lemma StripEmptyIff(s: string)
    ensures Strip(s) == [] <==> forall i :: 0 <= i < |s| ==> IsSpace(s[i])
  {
    var t := TrimStart(s);
    if t != [] {
      assert TrimEnd(t) != [] by { TrimEndKeepsFirst(t); }
    }
    TrimStartEmptyIff(s);
  }

  /** A string with no whitespace at either end is its own `strip()`. */
  lemma StripUnchanged(s: string)
    requires s == [] || (!IsSpace(s[0]) && !IsSpace(s[|s| - 1]))
    ensures Strip(s) == s
  {
  }

  lemma {:induction false} TrimStartSpaces(pre: string, s: string)
    requires forall i :: 0 <= i < |pre| ==> IsSpace(pre[i])
    requires s != [] && !IsSpace(s[0])
    ensures TrimStart(pre + s) == s
  {
    if pre == [] {
      assert pre + s == s;
    } else {
      assert (pre + s)[1..] == pre[1..] + s;
      TrimStartSpaces(pre[1..], s);
    }
  }

  lemma {:induction false} TrimEndSpaces(s: string, post: string)
    requires forall i :: 0 <= i < |post| ==> IsSpace(post[i])
    requires s != [] && !IsSpace(s[|s| - 1])
    ensures TrimEnd(s + post) == s
  {
    if post == [] {
      assert s + post == s;
    } else {
      var p := post[..|post| - 1];
      assert (s + post)[..|s + post| - 1] == s + p;
      TrimEndSpaces(s, p);
    }
  }

  /** Whitespace padding around a stripped value is what `strip()` removes. */
  lemma StripPadded(pre: string, s: string, post: string)
    requires forall i :: 0 <= i < |pre| ==> IsSpace(pre[i])
    requires forall i :: 0 <= i < |post| ==> IsSpace(post[i])
    requires s != [] && !IsSpace(s[0]) && !IsSpace(s[|s| - 1])
    ensures Strip(pre + s + post) == s
  {
    assert pre + s + post == pre + (s + post);
    TrimStartSpaces(pre, s + post);
    TrimEndSpaces(s, post);
  }

  lemma StripIdempotent(s: string)
    ensures Strip(Strip(s)) == Strip(s)
  {
    StripUnchanged(Strip(s));
  }

  lemma {:induction false} TrimStartLower(s: string)
    ensures TrimStart(Lower(s)) == Lower(TrimStart(s))
  {
    if |s| > 0 {
      var l := Lower(s);
      assert IsSpace(l[0]) == IsSpace(s[0]);
      if IsSpace(s[0]) {
        assert l[1..] == Lower(s[1..]);
        TrimStartLower(s[1..]);
      }
    }
  }

  lemma {:induction false} TrimEndLower(s: string)
    ensures TrimEnd(Lower(s)) == Lower(TrimEnd(s))
  {
    if |s| > 0 {
      var l := Lower(s);
      assert IsSpace(l[|s| - 1]) == IsSpace(s[|s| - 1]);
      if IsSpace(s[|s| - 1]) {
        assert l[..|s| - 1] == Lower(s[..|s| - 1]);
        TrimEndLower(s[..|s| - 1]);
      }
    }
  }

  /** `strip()` and `lower()` commute: case mapping never touches whitespace. */
  lemma StripLower(s: string)
    ensures Strip(Lower(s)) == Lower(Strip(s))
  {
    TrimStartLower(s);
    TrimEndLower(TrimStart(s));
  }

  lemma {:induction false} TrimStartUpper(s: string)
    ensures TrimStart(Upper(s)) == Upper(TrimStart(s))
  {
    if |s| > 0 {
      var u := Upper(s);
      assert IsSpace(u[0]) == IsSpace(s[0]);
      if IsSpace(s[0]) {
        assert u[1..] == Upper(s[1..]);
        TrimStartUpper(s[1..]);
      }
    }
  }

  lemma {:induction false} TrimEndUpper(s: string)
    ensures TrimEnd(Upper(s)) == Upper(TrimEnd(s))
  {
    if |s| > 0 {
      var u := Upper(s);
      assert IsSpace(u[|s| - 1]) == IsSpace(s[|s| - 1]);
      if IsSpace(s[|s| - 1]) {
        assert u[..|s| - 1] == Upper(s[..|s| - 1]);
        TrimEndUpper(s[..|s| - 1]);
      }
    }
  }

  lemma StripUpper(s: string)
    ensures Strip(Upper(s)) == Upper(Strip(s))
  {
    TrimStartUpper(s);
    TrimEndUpper(TrimStart(s));
  }

  /** `s.strip().upper()`, the key both CIF lookups normalise to. */
  function UpperStripped(s: string): (r: string)
    ensures |r| <= |s|
    ensures |r| == |Strip(s)|
    ensures forall i :: 0 <= i < |r| ==> r[i] == UpperChar(Strip(s)[i])
    ensures forall i :: 0 <= i < |r| ==> !IsLowerLetter(r[i])
  {
    Upper(Strip(s))
  }

  lemma LowerIdempotent(s: string)
    ensures Lower(Lower(s)) == Lower(s)
  {
  }

  lemma UpperIdempotent(s: string)
    ensures Upper(Upper(s)) == Upper(s)
  {
  }

  lemma LowerOfUpper(s: string)
    ensures Lower(Upper(s)) == Lower(s)
  {
  }

  lemma UpperAppend(a: string, b: string)
    ensures Upper(a + b) == Upper(a) + Upper(b)
  {
  }

  lemma UpperOfLower(s: string)
    ensures Upper(Lower(s)) == Upper(s)
  {
  }

  /** Removes every character satisfying `drop`, as chained `str.replace(c, "")`. */
  function Remove(s: string, drop: char -> bool): (r: string)
    ensures |r| <= |s|
    ensures forall i :: 0 <= i < |r| ==> !drop(r[i])
  {
    if s == [] then []
    else if drop(s[0]) then Remove(s[1..], drop)
    else [s[0]] + Remove(s[1..], drop)
  }

  lemma {:induction false} RemoveNothing(s: string, drop: char -> bool)
    requires forall i :: 0 <= i < |s| ==> !drop(s[i])
    ensures Remove(s, drop) == s
  {
    if s != [] { RemoveNothing(s[1..], drop); }
  }

  /** Every character that `drop` spares survives the removal. */
  lemma {:induction false} RemoveKeeps(s: string, drop: char -> bool, i: nat)
    requires i < |s| && !drop(s[i])
    ensures s[i] in Remove(s, drop)
  {
    if i > 0 {
      assert s[1..][i - 1] == s[i];
      RemoveKeeps(s[1..], drop, i - 1);
    }
  }

  /** Removing characters keeps any property every character had. */
  lemma {:induction false} RemovePreserves(s: string, drop: char -> bool, p: char -> bool)
    requires forall i :: 0 <= i < |s| ==> p(s[i])
    ensures forall i :: 0 <= i < |Remove(s, drop)| ==> p(Remove(s, drop)[i])
  {
    if s != [] { RemovePreserves(s[1..], drop, p); }
  }

  lemma {:induction false} RemoveAppend(a: string, b: string, drop: char -> bool)
    ensures Remove(a + b, drop) == Remove(a, drop) + Remove(b, drop)
  {
    if a != [] {
      assert (a + b)[1..] == a[1..] + b;
      RemoveAppend(a[1..], b, drop);
    } else {
      assert a + b == b;
    }
  }

  /** Dropping every whitespace character makes a prior `strip()` redundant. */
  lemma {:induction false} RemoveTrimStart(s: string, drop: char -> bool)
    requires forall c :: IsSpace(c) ==> drop(c)
    ensures Remove(TrimStart(s), drop) == Remove(s, drop)
  {
    if |s| > 0 && IsSpace(s[0]) {
      RemoveTrimStart(s[1..], drop);
    }
  }

  lemma {:induction false} RemoveTrimEnd(s: string, drop: char -> bool)
    requires forall c :: IsSpace(c) ==> drop(c)
    ensures Remove(TrimEnd(s), drop) == Remove(s, drop)
  {
    if |s| > 0 && IsSpace(s[|s| - 1]) {
      var init := s[..|s| - 1];
      assert s == init + [s[|s| - 1]];
      RemoveAppend(init, [s[|s| - 1]], drop);
      assert Remove([s[|s| - 1]], drop) == [];
      RemoveTrimEnd(init, drop);
    }
  }

  lemma RemoveStrip(s: string, drop: char -> bool)
    requires forall c :: IsSpace(c) ==> drop(c)
    ensures Remove(Strip(s), drop) == Remove(s, drop)
  {
    RemoveTrimEnd(TrimStart(s), drop);
    RemoveTrimStart(s, drop);
  }

  /** Python `s.startswith(p)`. */
  predicate StartsWith(s: string, p: string) {
    |p| <= |s| && s[..|p|] == p
  }

  /** Python `sub in s`. */
  predicate Contains(s: string, sub: string)
    decreases |s|
  {
    StartsWith(s, sub) || (|s| > 0 && Contains(s[1..], sub))
  }

  lemma {:induction false} ContainsAt(s: string, sub: string, k: nat)
    requires k + |sub| <= |s| && s[k..k + |sub|] == sub
    ensures Contains(s, sub)
    decreases k
  {
    if k > 0 {
      assert s[1..][k - 1..k - 1 + |sub|] == sub;
      ContainsAt(s[1..], sub, k - 1);
    }
  }

  /** An occurrence in `b` is an occurrence in `a + b`. */
  lemma {:induction false} ContainsAppend(a: string, b: string, sub: string)
    requires Contains(b, sub)
    ensures Contains(a + b, sub)
    decreases |a|
  {
    if a == [] {
      assert a + b == b;
    } else {
      assert (a + b)[1..] == a[1..] + b;
      ContainsAppend(a[1..], b, sub);
    }
  }

  /** `sep.join(parts)`. */
  function Join(parts: seq<string>, sep: string): (r: string)
    ensures parts == [] ==> r == []
    ensures (exists i :: 0 <= i < |parts| && parts[i] != []) ==> r != []
  {
    if parts == [] then []
    else if |parts| == 1 then parts[0]
    else parts[0] + sep + Join(parts[1..], sep)
  }

  /** Every part occurs in the joined text. */
  lemma {:induction false} JoinContains(parts: seq<string>, sep: string, i: nat)
    requires i < |parts|
    ensures Contains(Join(parts, sep), parts[i])
    decreases |parts|
  {
    var r := Join(parts, sep);
    if i == 0 {
      if |parts| > 1 {
        assert r == parts[0] + (sep + Join(parts[1..], sep));
      }
      assert r[0..|parts[0]|] == parts[0];
      ContainsAt(r, parts[0], 0);
    } else {
      assert parts[1..][i - 1] == parts[i];
      JoinContains(parts[1..], sep, i - 1);
      assert r == (parts[0] + sep) + Join(parts[1..], sep);
      ContainsAppend(parts[0] + sep, Join(parts[1..], sep), parts[i]);
    }
  }

  /** Index of the first occurrence of `c`, or `|s|` when absent. */
  function IndexOf(s: string, c: char): (k: nat)
    ensures k <= |s|
    ensures forall i :: 0 <= i < k ==> s[i] != c
    ensures k < |s| ==> s[k] == c
    ensures k == |s| <==> c !in s
  {
    if s == [] then 0 else if s[0] == c then 0 else 1 + IndexOf(s[1..], c)
  }
}
