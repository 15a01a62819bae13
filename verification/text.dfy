/** The handful of Python `str` operations the stock modules rely on:
    `strip`, `upper`, `lower`, `isdigit`, `zfill`, `split('.')[0]`,
    `startswith` and the `in` substring test. */
module Text {

  /** The characters Python's `str.isspace` accepts, which `str.strip()` removes. */
  predicate IsSpace(c: char) {
    || c == ' '
    || ('\t' <= c <= '\r')
    || ('\U{1C}' <= c <= '\U{1F}')
    || c == '\U{85}' || c == '\U{A0}' || c == '\U{1680}'
    || ('\U{2000}' <= c <= '\U{200A}')
    || c == '\U{2028}' || c == '\U{2029}' || c == '\U{202F}' || c == '\U{205F}' || c == '\U{3000}'
  }

  predicate IsDigit(c: char) {
    '0' <= c <= '9'
  }

  /** Python's `str.isdigit`: non-empty and every character a digit. */
  predicate IsDigits(s: string) {
    |s| > 0 && forall i :: 0 <= i < |s| ==> IsDigit(s[i])
  }

  function UpperChar(c: char): char {
    if 'a' <= c <= 'z' then (c as int - 32) as char else c
  }

  function LowerChar(c: char): char {
    if 'A' <= c <= 'Z' then (c as int + 32) as char else c
  }

  function Upper(s: string): (r: string)
    ensures |r| == |s|
    ensures forall i :: 0 <= i < |s| ==> r[i] == UpperChar(s[i])
  {
    seq(|s|, i requires 0 <= i < |s| => UpperChar(s[i]))
  }

  function Lower(s: string): (r: string)
    ensures |r| == |s|
    ensures forall i :: 0 <= i < |s| ==> r[i] == LowerChar(s[i])
  {
    seq(|s|, i requires 0 <= i < |s| => LowerChar(s[i]))
  }

  /** Upper-casing twice is upper-casing once. */
  lemma UpperIdempotent(s: string)
    ensures Upper(Upper(s)) == Upper(s)
  {
  }

  /** Removes leading whitespace: what is dropped is all whitespace, and what is
      kept does not start with whitespace. */
  function StripLeft(s: string): (r: string)
    ensures |r| <= |s| && r == s[|s| - |r|..]
    ensures forall i :: 0 <= i < |s| - |r| ==> IsSpace(s[i])
    ensures |r| > 0 ==> !IsSpace(r[0])
  {
    if |s| > 0 && IsSpace(s[0]) then StripLeft(s[1..]) else s
  }

  /** Removes trailing whitespace: what is dropped is all whitespace, and what is
      kept does not end with whitespace. */
  function StripRight(s: string): (r: string)
    ensures |r| <= |s| && r == s[..|r|]
    ensures forall i :: |r| <= i < |s| ==> IsSpace(s[i])
    ensures |r| > 0 ==> !IsSpace(r[|r| - 1])
  {
    if |s| > 0 && IsSpace(s[|s| - 1]) then StripRight(s[..|s| - 1]) else s
  }

  /** Python's `str.strip()` with no argument. */
  function Strip(s: string): (r: string)
    ensures |r| <= |s|
    ensures |r| > 0 ==> !IsSpace(r[0]) && !IsSpace(r[|r| - 1])
  {
    StripRight(StripLeft(s))
  }

  /** A string with whitespace at neither end is its own strip. */
  lemma StripUnchanged(s: string)
    requires |s| > 0 ==> !IsSpace(s[0]) && !IsSpace(s[|s| - 1])
    ensures Strip(s) == s
  {
  }

  lemma StripIdempotent(s: string)
    ensures Strip(Strip(s)) == Strip(s)
  {
    StripUnchanged(Strip(s));
  }

  /** Upper-casing neither creates nor removes whitespace. */
  lemma UpperCharKeepsSpace(c: char)
    ensures IsSpace(UpperChar(c)) <==> IsSpace(c)
  {
  }

  /** `s.split('.')[0]`: everything before the first '.', or all of `s`. */
  function BeforeDot(s: string): (r: string)
    ensures |r| <= |s| && r == s[..|r|]
    ensures '.' !in r
    ensures |r| < |s| ==> s[|r|] == '.'
  {
    if |s| == 0 || s[0] == '.' then "" else [s[0]] + BeforeDot(s[1..])
  }

  /** A dot-free prefix followed by a '.' is exactly what survives the split. */
  lemma {:induction false} BeforeDotOfDotless(a: string, rest: string)
    requires '.' !in a && |rest| > 0 && rest[0] == '.'
    ensures BeforeDot(a + rest) == a
  {
    if |a| > 0 {
      assert (a + rest)[1..] == a[1..] + rest;
      BeforeDotOfDotless(a[1..], rest);
    }
  }

  function Zeros(n: nat): (r: string)
    ensures |r| == n
    ensures forall i :: 0 <= i < n ==> r[i] == '0'
  {
    seq(n, i => '0')
  }

  /** A string that starts with a non-space is its own left strip. */
  lemma StripLeftUnchanged(s: string)
    requires |s| > 0 && !IsSpace(s[0])
    ensures StripLeft(s) == s
  {
  }

  /** Stripping on the right keeps any prefix that ends in a non-space. */
  lemma StripRightKeeps(s: string, n: nat)
    requires 0 < n <= |s| && !IsSpace(s[n - 1])
    ensures |StripRight(s)| >= n && StripRight(s)[..n] == s[..n]
  {
  }

  /** Stripping keeps a head that starts with a non-space together with the
      non-space that follows it. */
  lemma StripKeepsHead(head: string, rest: string)
    requires |head| > 0 && !IsSpace(head[0]) && |rest| > 0 && !IsSpace(rest[0])
    ensures |Strip(head + rest)| > |head|
    ensures Strip(head + rest)[..|head|] == head && Strip(head + rest)[|head|] == rest[0]
  {
    var t := head + rest;
    assert t[|head|] == rest[0];
    StripLeftUnchanged(t);
    StripRightKeeps(t, |head| + 1);
    assert t[..|head| + 1][..|head|] == head;
  }

  /** Stripping, upper-casing and cutting at the first '.' recover an upper-case,
      dot-free head that starts with a non-space from `head + rest` when `rest`
      starts with the '.'. Whitespace at the end of the head survives. */
  lemma CutAtDot(head: string, rest: string)
    requires |head| > 0 && !IsSpace(head[0]) && '.' !in head && Upper(head) == head
    requires |rest| > 0 && rest[0] == '.'
    ensures BeforeDot(Upper(Strip(head + rest))) == head
  {
    StripKeepsHead(head, rest);
    var s := Strip(head + rest);
    var u := Upper(s);
    UpperKeepsHead(head, s);
    assert u == head + u[|head|..];
    BeforeDotOfDotless(head, u[|head|..]);
  }

  /** Upper-casing keeps an upper-case head and a '.' after it. */
  lemma UpperKeepsHead(head: string, s: string)
    requires Upper(head) == head && |s| > |head| && s[..|head|] == head && s[|head|] == '.'
    ensures Upper(s)[..|head|] == head && Upper(s)[|head|] == '.'
  {
    forall i | 0 <= i < |head| ensures Upper(s)[i] == head[i] {
      assert s[i] == head[i];
      assert Upper(head)[i] == UpperChar(head[i]);
    }
  }

  /** Python's `str.zfill(width)`: pads with '0' on the left up to `width`,
      keeping a leading sign in front of the padding. */
  function ZFill(s: string, width: nat): (r: string)
    ensures |r| == if |s| < width then width else |s|
  {
    var pad := if |s| < width then width - |s| else 0;
    if |s| > 0 && (s[0] == '+' || s[0] == '-') then [s[0]] + Zeros(pad) + s[1..]
    else Zeros(pad) + s
  }

  /** Zero-padding yields digits exactly when the input was digits or empty
      (the empty code pads to all zeros; a sign never becomes a digit). */
  lemma ZFillDigits(s: string, width: nat)
    requires width > 0
    ensures IsDigits(ZFill(s, width)) <==> (s == "" || IsDigits(s))
  {
    var r := ZFill(s, width);
    var pad := if |s| < width then width - |s| else 0;
    if |s| > 0 && (s[0] == '+' || s[0] == '-') {
      assert r[0] == s[0];
      assert !IsDigits(s) && !IsDigits(r);
    } else {
      assert r == Zeros(pad) + s;
      if IsDigits(s) || s == "" {
        assert forall i :: 0 <= i < |r| ==> IsDigit(r[i]) by {
          forall i | 0 <= i < |r| ensures IsDigit(r[i]) {
            if i >= pad { assert r[i] == s[i - pad]; }
          }
        }
      }
      if IsDigits(r) && s != "" {
        forall i | 0 <= i < |s| ensures IsDigit(s[i]) {
          assert s[i] == r[pad + i];
        }
      }
    }
  }

  /** Padding a digit string keeps it as its tail, and padding again changes nothing. */
  lemma ZFillDigitsIdempotent(s: string, width: nat)
    requires IsDigits(s)
    ensures ZFill(s, width)[|ZFill(s, width)| - |s|..] == s
    ensures ZFill(ZFill(s, width), width) == ZFill(s, width)
  {
    var r := ZFill(s, width);
    assert s[0] != '+' && s[0] != '-' by { assert IsDigit(s[0]); }
    assert r[0] != '+' && r[0] != '-' by {
      if |s| < width { assert r[0] == '0'; } else { assert r[0] == s[0]; }
    }
    assert ZFill(r, width) == Zeros(0) + r;
  }

  /** Python's `s.startswith(p)`. */
  predicate StartsWith(s: string, p: string) {
    |p| <= |s| && s[..|p|] == p
  }

  /** Python's `k in s` for strings: `k` occurs as a contiguous substring. */
  predicate Contains(s: string, k: string)
    decreases |s|
  {
    |k| <= |s| && (s[..|k|] == k || Contains(s[1..], k))
  }

  /** `k` occurs in `s` starting at offset `i`. */
  predicate OccursAt(s: string, k: string, i: int) {
    0 <= i <= |s| - |k| && s[i..i + |k|] == k
  }

  /** The recursive substring test agrees with "some offset matches". */
  lemma {:induction false} ContainsAt(s: string, k: string)
    ensures Contains(s, k) <==> exists i :: OccursAt(s, k, i)
    decreases |s|
  {
    if |k| <= |s| && s[..|k|] == k {
      assert OccursAt(s, k, 0);
    } else if |k| <= |s| {
      ContainsAt(s[1..], k);
      if Contains(s[1..], k) {
        var i :| OccursAt(s[1..], k, i);
        assert OccursAt(s, k, i + 1);
      }
      if exists i :: OccursAt(s, k, i) {
        var i :| OccursAt(s, k, i);
        assert i != 0;
        assert OccursAt(s[1..], k, i - 1);
      }
    }
  }

  /** The empty keyword occurs in every string. */
  lemma ContainsEmpty(s: string)
    ensures Contains(s, "")
  {
  }

  /** A keyword occurs in any string built around it. */
  lemma ContainsInfix(a: string, k: string, b: string)
    ensures Contains(a + k + b, k)
  {
    var s := a + k + b;
    assert OccursAt(s, k, |a|);
    ContainsAt(s, k);
  }
}
