/**
 * Characters and strings as the Python source sees them: the regex classes
 * \d, \w, \s (restricted to ASCII), str.lower, the `in` operator on strings,
 * str.replace, the slice s[-8:], and decimal numerals (str(n) and int(s)).
 */
module Text {

  predicate IsDigit(c: char) { '0' <= c <= '9' }

  /** \s: space, tab, newline, carriage return, vertical tab, form feed. */
  predicate IsSpace(c: char) {
    c == ' ' || c == '\t' || c == '\n' || c == '\r' || c == '\U{000B}' || c == '\U{000C}'
  }

  /** \w: letters, digits and the underscore. */
  predicate IsWordChar(c: char) { 'a' <= c <= 'z' || 'A' <= c <= 'Z' || IsDigit(c) || c == '_' }

  /** [\w-]: the characters an asset token may hold. */
  predicate IsAssetChar(c: char) { IsWordChar(c) || c == '-' }

  predicate AllDigits(s: string) { forall i :: 0 <= i < |s| ==> IsDigit(s[i]) }

  function LowerChar(c: char): char {
    if 'A' <= c <= 'Z' then (c as int + 32) as char else c
  }

  /** str.lower() on ASCII letters. */
  function Lower(s: string): (r: string)
    ensures |r| == |s|
  {
    seq(|s|, i requires 0 <= i < |s| => LowerChar(s[i]))
  }

  /** Lowering twice is lowering once, and word characters stay word characters. */
  lemma LowerProperties(s: string)
    ensures Lower(Lower(s)) == Lower(s)
    ensures (forall i :: 0 <= i < |s| ==> IsWordChar(s[i])) ==> forall i :: 0 <= i < |s| ==> IsWordChar(Lower(s)[i])
    ensures forall i :: 0 <= i < |s| ==> !('A' <= Lower(s)[i] <= 'Z')
  {
  }

  predicate StartsWith(s: string, p: string) { |p| <= |s| && s[..|p|] == p }

  /** Python's `p in s` on strings. */
  predicate Contains(s: string, p: string)
    decreases |s|
  {
    StartsWith(s, p) || (|s| > 0 && Contains(s[1..], p))
  }

  /** No character of `a` occurs in `b`. */
  predicate Disjoint(a: string, b: string) {
    forall i, j :: 0 <= i < |a| && 0 <= j < |b| ==> a[i] != b[j]
  }

  /** str.replace(pat, rep): left to right, non-overlapping occurrences. */
  function Replace(s: string, pat: string, rep: string): string
    requires pat != []
    decreases |s|
  {
    if s == [] then []
    else if StartsWith(s, pat) then rep + Replace(s[|pat|..], pat, rep)
    else [s[0]] + Replace(s[1..], pat, rep)
  }

  /** The slice s[-8:]: the last eight characters, or all of s when it is shorter. */
  function Last8(s: string): (r: string)
    ensures |r| == (if |s| < 8 then |s| else 8)
  {
    if |s| <= 8 then s else s[|s| - 8..]
  }

  /** s[-8:] is what remains of `s` after the characters before it. */
  lemma Last8Split(s: string)
    ensures s == s[..|s| - |Last8(s)|] + Last8(s)
  {
  }

  /** s[-8:] of a string of digits is a string of digits. */
  lemma Last8Digits(s: string)
    requires AllDigits(s)
    ensures AllDigits(Last8(s))
  {
    var r := Last8(s);
    forall i | 0 <= i < |r| ensures IsDigit(r[i]) { assert r[i] == s[|s| - |r| + i]; }
  }

  /** Regrouping a concatenation, as its own step so that larger proofs need not rediscover it. */
  lemma Assoc<T>(p: seq<T>, q: seq<T>, r: seq<T>)
    ensures p + (q + r) == (p + q) + r
  {
  }

  // ---------------------------------------------------------------------
  // str.replace

  /** A string without an occurrence of `pat` is left as it is. */
  lemma {:induction false} ReplaceAbsent(s: string, pat: string, rep: string)
    requires pat != [] && !Contains(s, pat)
    ensures Replace(s, pat, rep) == s
    decreases |s|
  {
    if s != [] {
      ReplaceAbsent(s[1..], pat, rep);
    }
  }

  /** A leading occurrence is replaced and the scan resumes after it. */
  lemma ReplaceLeading(pat: string, s: string, rep: string)
    requires pat != []
    ensures Replace(pat + s, pat, rep) == rep + Replace(s, pat, rep)
  {
    assert StartsWith(pat + s, pat);
    assert (pat + s)[|pat|..] == s;
  }

  /** A prefix that never meets the first character of `rep`, found in the result, was already a prefix of the input. */
  lemma {:induction false} ReplaceKeepsPrefix(t: string, pat: string, rep: string, u: string)
    requires pat != [] && rep != []
    requires forall i :: 0 <= i < |u| ==> u[i] != rep[0]
    requires StartsWith(Replace(t, pat, rep), u)
    ensures StartsWith(t, u)
    decreases |t|
  {
    if u != [] && t != [] {
      assert Replace(t, pat, rep)[0] == u[0];
      if StartsWith(t, pat) {
        assert false;
      } else {
        var r := Replace(t[1..], pat, rep);
        assert Replace(t, pat, rep) == [t[0]] + r;
        assert StartsWith(r, u[1..]) by {
          assert r[..|u| - 1] == ([t[0]] + r)[1..|u|];
        }
        ReplaceKeepsPrefix(t[1..], pat, rep, u[1..]);
        assert t[..|u|] == [t[0]] + t[1..][..|u| - 1];
      }
    }
  }

  /** An occurrence of `p` in `a + b` lies in `b` when no character of `a` can start one. */
  lemma {:induction false} ContainsSkip(a: string, b: string, p: string)
    requires p != []
    requires forall i :: 0 <= i < |a| ==> a[i] != p[0]
    requires Contains(a + b, p)
    ensures Contains(b, p)
    decreases |a|
  {
    if a == [] {
      assert a + b == b;
    } else {
      assert (a + b)[0] == a[0];
      assert !StartsWith(a + b, p);
      assert (a + b)[1..] == a[1..] + b;
      ContainsSkip(a[1..], b, p);
    }
  }

  /** Replacing by a non-empty string that shares no character with `pat` leaves no occurrence of `pat`. */
  lemma {:induction false} ReplaceRemovesAll(s: string, pat: string, rep: string)
    requires pat != [] && rep != [] && Disjoint(rep, pat)
    ensures !Contains(Replace(s, pat, rep), pat)
    decreases |s|
  {
    if s == [] {
    } else if StartsWith(s, pat) {
      ReplaceRemovesAll(s[|pat|..], pat, rep);
      if Contains(rep + Replace(s[|pat|..], pat, rep), pat) {
        ContainsSkip(rep, Replace(s[|pat|..], pat, rep), pat);
      }
    } else {
      var r := Replace(s[1..], pat, rep);
      ReplaceRemovesAll(s[1..], pat, rep);
      assert Replace(s, pat, rep) == [s[0]] + r;
      assert ([s[0]] + r)[1..] == r;
      if StartsWith([s[0]] + r, pat) {
        assert StartsWith(r, pat[1..]) by {
          assert r[..|pat| - 1] == ([s[0]] + r)[1..|pat|];
        }
        ReplaceKeepsPrefix(s[1..], pat, rep, pat[1..]);
        assert false;
      }
    }
  }

  lemma {:induction false} ContainsSuffix(s: string, k: nat, p: string)
    requires k <= |s| && Contains(s[k..], p)
    ensures Contains(s, p)
    decreases k
  {
    if k > 0 {
      assert s[1..][k - 1..] == s[k..];
      ContainsSuffix(s[1..], k - 1, p);
    }
  }

  /**
   * The replacement creates no occurrence of `u` when `u` cannot start inside
   * `rep` and never meets the first character of `rep`.
   */
  lemma {:induction false} ReplaceCreatesNothing(t: string, pat: string, rep: string, u: string)
    requires pat != [] && rep != [] && u != []
    requires forall i :: 0 <= i < |rep| ==> rep[i] != u[0]
    requires forall i :: 0 <= i < |u| ==> u[i] != rep[0]
    requires Contains(Replace(t, pat, rep), u)
    ensures Contains(t, u)
    decreases |t|
  {
    if t == [] {
    } else if StartsWith(t, pat) {
      var r := Replace(t[|pat|..], pat, rep);
      ContainsSkip(rep, r, u);
      ReplaceCreatesNothing(t[|pat|..], pat, rep, u);
      ContainsSuffix(t, |pat|, u);
    } else {
      var r := Replace(t[1..], pat, rep);
      assert Replace(t, pat, rep) == [t[0]] + r;
      assert ([t[0]] + r)[1..] == r;
      if StartsWith([t[0]] + r, u) {
        assert StartsWith(r, u[1..]) by {
          assert r[..|u| - 1] == ([t[0]] + r)[1..|u|];
        }
        ReplaceKeepsPrefix(t[1..], pat, rep, u[1..]);
        assert t[..|u|] == [t[0]] + t[1..][..|u| - 1];
      } else {
        ReplaceCreatesNothing(t[1..], pat, rep, u);
        ContainsSuffix(t, 1, u);
      }
    }
  }

  /**
   * Replacing `a` by `b` and then `b` by `a` gives the text back, when the text
   * holds no `b` of its own and `b` cannot overlap itself at its first character.
   */
  lemma {:induction false} ReplaceInverse(s: string, a: string, b: string)
    requires a != [] && b != []
    requires forall i :: 1 <= i < |b| ==> b[i] != b[0]
    requires !Contains(s, b)
    ensures Replace(Replace(s, a, b), b, a) == s
    decreases |s|
  {
    if s == [] {
    } else if StartsWith(s, a) {
      var rest := s[|a|..];
      if Contains(rest, b) { ContainsSuffix(s, |a|, b); }
      ReplaceInverse(rest, a, b);
      ReplaceLeading(b, Replace(rest, a, b), a);
      assert s == a + rest;
    } else {
      var r := Replace(s[1..], a, b);
      ReplaceInverse(s[1..], a, b);
      assert Replace(s, a, b) == [s[0]] + r;
      assert ([s[0]] + r)[1..] == r;
      if StartsWith([s[0]] + r, b) {
        assert StartsWith(r, b[1..]) by {
          assert r[..|b| - 1] == ([s[0]] + r)[1..|b|];
        }
        ReplaceKeepsPrefix(s[1..], a, b, b[1..]);
        assert false;
      }
      assert s == [s[0]] + s[1..];
    }
  }

  /** Replacing by asset characters keeps a string of asset characters one. */
  lemma {:induction false} ReplaceKeepsAssetChars(s: string, pat: string, rep: string)
    requires pat != []
    requires forall i :: 0 <= i < |s| ==> IsAssetChar(s[i])
    requires forall i :: 0 <= i < |rep| ==> IsAssetChar(rep[i])
    ensures forall i :: 0 <= i < |Replace(s, pat, rep)| ==> IsAssetChar(Replace(s, pat, rep)[i])
    decreases |s|
  {
    if s != [] {
      if StartsWith(s, pat) {
        ReplaceKeepsAssetChars(s[|pat|..], pat, rep);
        var r := Replace(s[|pat|..], pat, rep);
        forall i | 0 <= i < |rep + r| ensures IsAssetChar((rep + r)[i]) {
          if i >= |rep| { assert (rep + r)[i] == r[i - |rep|]; }
        }
      } else {
        ReplaceKeepsAssetChars(s[1..], pat, rep);
        var r := Replace(s[1..], pat, rep);
        forall i | 0 <= i < |[s[0]] + r| ensures IsAssetChar(([s[0]] + r)[i]) {
          if i >= 1 { assert ([s[0]] + r)[i] == r[i - 1]; }
        }
      }
    }
  }

  /** Removing "frx" can leave an "frx" behind. */
  lemma RemovalCanRecreateFrx()
    ensures Replace("ffrxrx", "frx", "") == "frx"
  {
    assert !StartsWith("ffrxrx", "frx");
    assert "ffrxrx"[1..] == "frxrx";
    assert StartsWith("frxrx", "frx");
    assert "frxrx"[3..] == "rx";
    assert Replace("rx", "frx", "") == "rx";
  }

  /** Removing "-op" can leave an "-op" behind: the removal joins two halves into a new occurrence. */
  lemma RemovalCanRecreate()
    ensures Replace("--opop", "-op", "") == "-op"
  {
    assert !StartsWith("--opop", "-op");
    assert "--opop"[1..] == "-opop";
    assert StartsWith("-opop", "-op");
    assert "-opop"[3..] == "op";
    assert Replace("op", "-op", "") == "op";
  }

  // ---------------------------------------------------------------------
  // Decimal numerals: str(n) for n >= 0 and int(s) on a string of digits

  function DigitVal(c: char): nat
    requires IsDigit(c)
  {
    c as int - '0' as int
  }

  function DigitChar(d: nat): char
    requires d < 10
  {
    ('0' as int + d) as char
  }

  function Pow10(k: nat): nat {
    if k == 0 then 1 else 10 * Pow10(k - 1)
  }

  /** int(s) for a non-empty string of ASCII digits (leading zeros are dropped). */
  function DigitsValue(s: string): nat
    requires AllDigits(s)
    decreases |s|
  {
    if s == [] then 0 else 10 * DigitsValue(s[..|s| - 1]) + DigitVal(s[|s| - 1])
  }

  /** str(n) for n >= 0. */
  function NatText(n: nat): (r: string)
    ensures r != [] && AllDigits(r)
    decreases n
  {
    if n < 10 then [DigitChar(n)] else NatText(n / 10) + [DigitChar(n % 10)]
  }

  /** str(i) for any integer: a minus sign before negative values. */
  function IntText(i: int): string {
    if i < 0 then "-" + NatText(-i) else NatText(i)
  }

  /** int(str(n)) == n. */
  lemma {:induction false} NatTextValue(n: nat)
    ensures DigitsValue(NatText(n)) == n
    decreases n
  {
    if n >= 10 {
      var t := NatText(n / 10);
      NatTextValue(n / 10);
      assert (t + [DigitChar(n % 10)])[..|t|] == t;
    }
  }

  lemma {:induction false} DigitsValueBound(s: string)
    requires AllDigits(s)
    ensures DigitsValue(s) < Pow10(|s|)
    decreases |s|
  {
    if s != [] {
      DigitsValueBound(s[..|s| - 1]);
    }
  }

  lemma AllDigitsConcat(a: string, b: string)
    requires AllDigits(a) && AllDigits(b)
    ensures AllDigits(a + b)
  {
    forall i | 0 <= i < |a + b| ensures IsDigit((a + b)[i]) {
      if i >= |a| { assert (a + b)[i] == b[i - |a|]; }
    }
  }

  /** Appending one more digit to a numeral: int(s + [c]) == 10 * int(s) + c. */
  lemma DigitsValueSnoc(a: string, b: string)
    requires AllDigits(a) && AllDigits(b) && b != []
    ensures AllDigits(a + b) && AllDigits(a + b[..|b| - 1])
    ensures DigitsValue(a + b) == 10 * DigitsValue(a + b[..|b| - 1]) + DigitVal(b[|b| - 1])
  {
    AllDigitsConcat(a, b);
    var b' := b[..|b| - 1];
    assert AllDigits(b');
    AllDigitsConcat(a, b');
    assert (a + b)[..|a + b| - 1] == a + b';
    assert (a + b)[|a + b| - 1] == b[|b| - 1];
  }

  lemma Regroup10(x: int, p: int, y: int, d: int)
    ensures 10 * (x * p + y) + d == x * (10 * p) + (10 * y + d)
  {
  }

  /** int(a + b) == int(a) * 10^|b| + int(b). */
  lemma {:induction false} DigitsValueConcat(a: string, b: string)
    requires AllDigits(a) && AllDigits(b)
    ensures AllDigits(a + b)
    ensures DigitsValue(a + b) == DigitsValue(a) * Pow10(|b|) + DigitsValue(b)
    decreases |b|
  {
    AllDigitsConcat(a, b);
    if b == [] {
      assert a + b == a;
    } else {
      var b' := b[..|b| - 1];
      assert AllDigits(b');
      DigitsValueSnoc(a, b);
      DigitsValueConcat(a, b');
      Regroup10(DigitsValue(a), Pow10(|b'|), DigitsValue(b'), DigitVal(b[|b| - 1]));
    }
  }

  lemma Pow10Eight()
    ensures Pow10(8) == 100000000
  {
    assert Pow10(2) == 100;
    assert Pow10(4) == 10000;
    assert Pow10(6) == 1000000;
  }

  /** int(s[-8:]) is int(s) modulo 10^8: the last eight digits keep the low-order part of the number. */
  lemma SuffixValue(s: string)
    requires AllDigits(s)
    ensures AllDigits(Last8(s))
    ensures DigitsValue(Last8(s)) == DigitsValue(s) % 100000000
  {
    Pow10Eight();
    var r := Last8(s);
    var h := s[..|s| - |r|];
    Last8Split(s);
    Last8Digits(s);
    DigitsValueBound(r);
    if |s| < 8 {
      assert r == s;
      Pow10Monotone(|s|, 8);
      ModSplit(0, DigitsValue(s));
    } else {
      assert AllDigits(h);
      DigitsValueConcat(h, r);
      ModSplit(DigitsValue(h), DigitsValue(r));
    }
  }

  /** Taking the remainder by 10^8 keeps exactly the low-order part. */
  lemma ModSplit(q: nat, r: nat)
    requires r < 100000000
    ensures (q * 100000000 + r) % 100000000 == r
  {
  }

  lemma {:induction false} Pow10Monotone(i: nat, j: nat)
    requires i <= j
    ensures Pow10(i) <= Pow10(j)
    decreases j
  {
    if i < j { Pow10Monotone(i, j - 1); }
  }
}
