/** The fragments of Python's `str` behaviour the scoring code relies on:
    `str.isspace`, `strip`/`lstrip`, `split` on one character, `replace`, `endswith`,
    the `in` substring test, `str(int)` and `int(str)`. Strings are sequences of
    code points, as in Python 3. */
module Text {
  import opened Wrappers

  predicate IsDigit(c: char) { '0' <= c <= '9' }

  function DigitValue(c: char): (d: nat)
    requires IsDigit(c)
    ensures d < 10
  {
    (c as int) - ('0' as int)
  }

  function DigitChar(d: nat): (c: char)
    requires d < 10
    ensures IsDigit(c) && DigitValue(c) == d
  {
    (('0' as int) + d) as char
  }

  /** The characters for which Python's `str.isspace()` holds, i.e. the ones `strip()` removes. */
  predicate IsPySpace(c: char) {
    c == ' ' || ('\t' <= c <= '\r') || ('\U{1c}' <= c <= '\U{1f}') || c == '\U{85}' || c == '\U{a0}'
    || c == '\U{1680}' || ('\U{2000}' <= c <= '\U{200a}') || c == '\U{2028}' || c == '\U{2029}'
    || c == '\U{202f}' || c == '\U{205f}' || c == '\U{3000}'
  }

  /** `s.lstrip()`: drop the leading whitespace. */
  function LStrip(s: string): string
    decreases |s|
  {
    if s != [] && IsPySpace(s[0]) then LStrip(s[1..]) else s
  }

  /** `s.rstrip()`: drop the trailing whitespace. */
  function RStrip(s: string): string
    decreases |s|
  {
    if s != [] && IsPySpace(s[|s| - 1]) then RStrip(s[..|s| - 1]) else s
  }

  /** `s.strip()` with no argument: remove leading and trailing whitespace. */
  function Strip(s: string): string {
    RStrip(LStrip(s))
  }

  /** `lstrip` keeps a suffix, removes only whitespace, and stops at a non-space. */
  lemma {:induction false} LStripMeaning(s: string)
    ensures |LStrip(s)| <= |s| && LStrip(s) == s[|s| - |LStrip(s)|..]
    ensures forall i :: 0 <= i < |s| - |LStrip(s)| ==> IsPySpace(s[i])
    ensures LStrip(s) != [] ==> !IsPySpace(LStrip(s)[0])
    decreases |s|
  {
    if s != [] && IsPySpace(s[0]) {
      LStripMeaning(s[1..]);
      forall i | 0 <= i < |s| - |LStrip(s)| ensures IsPySpace(s[i]) {
        if i > 0 {
          assert s[i] == s[1..][i - 1];
        }
      }
    }
  }

  /** `rstrip` keeps a prefix, removes only whitespace, and stops at a non-space. */
  lemma {:induction false} RStripMeaning(s: string)
    ensures |RStrip(s)| <= |s| && RStrip(s) == s[..|RStrip(s)|]
    ensures forall i :: |RStrip(s)| <= i < |s| ==> IsPySpace(s[i])
    ensures RStrip(s) != [] ==> !IsPySpace(RStrip(s)[|RStrip(s)| - 1])
    decreases |s|
  {
    if s != [] && IsPySpace(s[|s| - 1]) {
      RStripMeaning(s[..|s| - 1]);
      forall i | |RStrip(s)| <= i < |s| ensures IsPySpace(s[i]) {
        if i < |s| - 1 {
          assert s[i] == s[..|s| - 1][i];
        }
      }
    }
  }

  /** `sub in s` for strings. */
  predicate Contains(s: string, sub: string)
    decreases |s|
  {
    |sub| <= |s| && (s[..|sub|] == sub || (s != [] && Contains(s[1..], sub)))
  }

  predicate EndsWith(s: string, suffix: string) {
    |suffix| <= |s| && s[|s| - |suffix|..] == suffix
  }

  /** `s.replace(pat, rep)`: left-to-right, non-overlapping replacement of every occurrence. */
  function Replace(s: string, pat: string, rep: string): string
    requires pat != []
    decreases |s|
  {
    if |s| < |pat| then s
    else if s[..|pat|] == pat then rep + Replace(s[|pat|..], pat, rep)
    else [s[0]] + Replace(s[1..], pat, rep)
  }

  /** `s.split(c)` for a one-character separator. */
  function Split(s: string, c: char): (parts: seq<string>)
    ensures |parts| >= 1
    decreases |s|
  {
    if s == [] then [""]
    else
      var rest := Split(s[1..], c);
      if s[0] == c then [""] + rest else [[s[0]] + rest[0]] + rest[1..]
  }

  /** `c.join(parts)`, the inverse of `Split`. */
  function Join(parts: seq<string>, c: char): string
    requires |parts| >= 1
    decreases |parts|
  {
    if |parts| == 1 then parts[0] else parts[0] + [c] + Join(parts[1..], c)
  }

  /** Splitting and joining again gives back the string, and no piece holds the separator. */
  lemma {:induction false} SplitJoin(s: string, c: char)
    ensures Join(Split(s, c), c) == s
    ensures forall k :: 0 <= k < |Split(s, c)| ==> c !in Split(s, c)[k]
    decreases |s|
  {
    if s != [] {
      SplitJoin(s[1..], c);
      var rest := Split(s[1..], c);
      if s[0] == c {
        assert Split(s, c) == [""] + rest;
        assert ([""] + rest)[1..] == rest;
      } else {
        var parts := [[s[0]] + rest[0]] + rest[1..];
        assert Split(s, c) == parts;
        if |rest| == 1 {
          assert Join(parts, c) == [s[0]] + rest[0];
        } else {
          assert parts[1..] == rest[1..];
          assert Join(rest, c) == rest[0] + [c] + Join(rest[1..], c);
        }
        assert [s[0]] + s[1..] == s;
        forall k | 0 <= k < |parts| ensures c !in parts[k] {
          if k == 0 {
            assert c !in rest[0];
          } else {
            assert parts[k] == rest[k];
          }
        }
      }
    }
  }

  /** Python's `str(n)` for a non-negative integer. */
  function NatToString(n: nat): (s: string)
    ensures |s| >= 1 && forall i :: 0 <= i < |s| ==> IsDigit(s[i])
    decreases n
  {
    if n < 10 then [DigitChar(n)] else NatToString(n / 10) + [DigitChar(n % 10)]
  }

  /** Python's `str(n)` for any integer. */
  function IntToString(n: int): string {
    if n < 0 then "-" + NatToString(-n) else NatToString(n)
  }

  /** The digit strings Python's `int()` accepts: a digit, then digits each optionally
      preceded by a single underscore. */
  predicate UnderscoredDigits(s: string)
    decreases |s|
  {
    |s| > 0 && IsDigit(s[0]) &&
    (|s| == 1 || (if s[1] == '_' then UnderscoredDigits(s[2..]) else UnderscoredDigits(s[1..])))
  }

  /** The value of a digit string, underscores ignored. */
  function DigitsValue(s: string): nat
    decreases |s|
  {
    if s == [] then 0
    else if IsDigit(s[|s| - 1]) then DigitsValue(s[..|s| - 1]) * 10 + DigitValue(s[|s| - 1])
    else DigitsValue(s[..|s| - 1])
  }

  /** Python's `int(s)` on a string: surrounding whitespace, an optional sign and ASCII digits
      with optional single underscores; `None` stands for the `ValueError` it raises otherwise. */
  function ParseInt(s: string): Option<int> {
    var t := Strip(s);
    if t != [] && (t[0] == '-' || t[0] == '+') then
      if UnderscoredDigits(t[1..]) then
        var v: int := DigitsValue(t[1..]);
        Some(if t[0] == '-' then -v else v)
      else None
    else if UnderscoredDigits(t) then Some(DigitsValue(t))
    else None
  }

  lemma {:induction false} DigitsValueOfNatToString(n: nat)
    ensures DigitsValue(NatToString(n)) == n
    decreases n
  {
    if n >= 10 {
      DigitsValueOfNatToString(n / 10);
      var s := NatToString(n / 10) + [DigitChar(n % 10)];
      assert s[..|s| - 1] == NatToString(n / 10);
    }
  }

  lemma StripOfNumeral(s: string)
    requires s != [] && !IsPySpace(s[0]) && !IsPySpace(s[|s| - 1])
    ensures Strip(s) == s
  {
  }

  lemma {:induction false} AllDigitsUnderscored(s: string)
    requires s != [] && forall i :: 0 <= i < |s| ==> IsDigit(s[i])
    ensures UnderscoredDigits(s)
    decreases |s|
  {
    if |s| > 1 {
      AllDigitsUnderscored(s[1..]);
    }
  }

  /** `int()` reads a plain digit string as its value. */
  lemma ParseIntOfDigits(digits: string)
    requires UnderscoredDigits(digits) && IsDigit(digits[|digits| - 1])
    ensures ParseInt(digits) == Some(DigitsValue(digits))
  {
    StripOfNumeral(digits);
  }

  /** `int()` reads a minus sign followed by a digit string as the negated value. */
  lemma ParseIntOfNegated(digits: string)
    requires UnderscoredDigits(digits) && IsDigit(digits[|digits| - 1])
    ensures ParseInt(['-'] + digits) == Some(-(DigitsValue(digits) as int))
  {
    var s := ['-'] + digits;
    StripOfSigned(digits);
    assert s[1..] == digits;
    ParseIntOfSigned(s);
  }

  /** `int()` on a text that strips to a sign followed by a digit string. */
  lemma ParseIntOfSigned(s: string)
    requires Strip(s) != [] && Strip(s)[0] == '-' && UnderscoredDigits(Strip(s)[1..])
    ensures ParseInt(s) == Some(-(DigitsValue(Strip(s)[1..]) as int))
  {
  }

  lemma StripOfSigned(digits: string)
    requires digits != [] && IsDigit(digits[|digits| - 1])
    ensures Strip(['-'] + digits) == ['-'] + digits
  {
    var s := ['-'] + digits;
    assert s[|s| - 1] == digits[|digits| - 1];
    StripOfNumeral(s);
  }

  /** `int(str(n)) == n`: the numeral printer and Python's integer parser are inverse. */
  lemma ParseIntOfIntToString(n: int)
    ensures ParseInt(IntToString(n)) == Some(n)
  {
    var m: nat := if n < 0 then -n else n;
    var digits := NatToString(m);
    DigitsValueOfNatToString(m);
    AllDigitsUnderscored(digits);
    if n < 0 {
      ParseIntOfNegated(digits);
    } else {
      ParseIntOfDigits(digits);
    }
  }

  /** The digits of `s`, in order (`''.join(filter(str.isdigit, s))` for ASCII digits). */
  function FilterDigits(s: string): (r: string)
    ensures |r| <= |s| && forall i :: 0 <= i < |r| ==> IsDigit(r[i])
    decreases |s|
  {
    if s == [] then [] else (if IsDigit(s[0]) then [s[0]] else []) + FilterDigits(s[1..])
  }

  /** Filtering distributes over concatenation: the digits of `a + b` are the digits of
      `a` followed by those of `b`. */
  lemma {:induction false} FilterDigitsConcat(a: string, b: string)
    ensures FilterDigits(a + b) == FilterDigits(a) + FilterDigits(b)
    decreases |a|
  {
    if a == [] {
      assert a + b == b;
    } else {
      assert (a + b)[0] == a[0];
      assert (a + b)[1..] == a[1..] + b;
      FilterDigitsConcat(a[1..], b);
    }
  }

  /** One character is kept exactly when it is a digit. Together with `FilterDigitsConcat`
      this fixes the result on every text: the input's digits, in their order. */
  lemma FilterDigitsChar(c: char)
    ensures FilterDigits([c]) == if IsDigit(c) then [c] else []
  {
    assert [c][1..] == [];
  }

  /** Filtering a string that is already all digits leaves it unchanged. */
  lemma {:induction false} FilterDigitsOfDigits(s: string)
    requires forall i :: 0 <= i < |s| ==> IsDigit(s[i])
    ensures FilterDigits(s) == s
    decreases |s|
  {
    if s != [] {
      FilterDigitsOfDigits(s[1..]);
      assert [s[0]] + s[1..] == s;
    }
  }

  /** `s.lower()` restricted to ASCII letters. */
  function LowerAscii(s: string): (r: string)
    ensures |r| == |s|
    ensures forall i :: 0 <= i < |s| ==> r[i] == (if 'A' <= s[i] <= 'Z' then (s[i] as int + 32) as char else s[i])
  {
    seq(|s|, i requires 0 <= i < |s| => if 'A' <= s[i] <= 'Z' then (s[i] as int + 32) as char else s[i])
  }

  /** Replacing a one-character pattern that does not occur changes nothing. */
  lemma {:induction false} ReplaceAbsentChar(s: string, c: char, rep: string)
    requires c !in s
    ensures Replace(s, [c], rep) == s
    decreases |s|
  {
    if |s| >= 1 {
      assert s[..1] == [s[0]];
      ReplaceAbsentChar(s[1..], c, rep);
      assert [s[0]] + s[1..] == s;
    }
  }

  /** Replacing every `c` by nothing leaves no `c`. */
  lemma {:induction false} ReplaceRemovesChar(s: string, c: char)
    ensures c !in Replace(s, [c], "")
    decreases |s|
  {
    if |s| >= 1 {
      assert s[..1] == [s[0]];
      ReplaceRemovesChar(s[1..], c);
    }
  }

  /** After replacing every `c` by `rep`, a character occurs only if it occurred in `s`
      (other than `c`) or in `rep`. */
  lemma {:induction false} ReplaceCharContents(s: string, c: char, rep: string, x: char)
    requires x in Replace(s, [c], rep)
    ensures (x in s && x != c) || x in rep
    decreases |s|
  {
    if |s| >= 1 {
      assert s[..1] == [s[0]];
      if s[0] == c {
        var tail := Replace(s[1..], [c], rep);
        assert Replace(s, [c], rep) == rep + tail;
        if x !in rep {
          assert x in tail;
          ReplaceCharContents(s[1..], c, rep, x);
        }
      } else {
        var tail := Replace(s[1..], [c], rep);
        assert Replace(s, [c], rep) == [s[0]] + tail;
        if x != s[0] {
          assert x in tail;
          ReplaceCharContents(s[1..], c, rep, x);
        }
      }
    }
  }

  /** A string without the separator splits into itself alone. */
  lemma {:induction false} SplitOfSeparatorFree(s: string, c: char)
    requires c !in s
    ensures Split(s, c) == [s]
    decreases |s|
  {
    if s != [] {
      SplitOfSeparatorFree(s[1..], c);
      assert [s[0]] + s[1..] == s;
    }
  }

  /** A leading piece free of the separator comes off as the first part. */
  lemma {:induction false} SplitAfterPiece(a: string, rest: string, c: char)
    requires c !in a
    ensures Split(a + [c] + rest, c) == [a] + Split(rest, c)
    decreases |a|
  {
    if a == [] {
      assert a + [c] + rest == [c] + rest;
      assert ([c] + rest)[1..] == rest;
    } else {
      assert (a + [c] + rest)[1..] == a[1..] + [c] + rest;
      SplitAfterPiece(a[1..], rest, c);
      assert [a[0]] + a[1..] == a;
    }
  }

  /** Character-by-character substitution of `c` by `rep`: the reference for `Replace`
      with a one-character pattern. */
  function CharSubst(s: string, c: char, rep: string): string
    decreases |s|
  {
    if s == [] then [] else (if s[0] == c then rep else [s[0]]) + CharSubst(s[1..], c, rep)
  }

  lemma {:induction false} ReplaceIsCharSubst(s: string, c: char, rep: string)
    ensures Replace(s, [c], rep) == CharSubst(s, c, rep)
    decreases |s|
  {
    if s != [] {
      assert s[..1] == [s[0]];
      ReplaceIsCharSubst(s[1..], c, rep);
    }
  }

  lemma {:induction false} CharSubstConcat(a: string, b: string, c: char, rep: string)
    ensures CharSubst(a + b, c, rep) == CharSubst(a, c, rep) + CharSubst(b, c, rep)
    decreases |a|
  {
    if a != [] {
      assert (a + b)[1..] == a[1..] + b;
      CharSubstConcat(a[1..], b, c, rep);
    } else {
      assert a + b == b;
    }
  }

  /** `str(n)` is made of digits and at most a minus sign. */
  lemma IntToStringChars(n: int)
    ensures forall i :: 0 <= i < |IntToString(n)| ==> IsDigit(IntToString(n)[i]) || IntToString(n)[i] == '-'
    ensures ' ' !in IntToString(n)
  {
    var s := IntToString(n);
    if n < 0 {
      var d := NatToString(-n);
      assert s == "-" + d;
      assert forall i :: 1 <= i < |s| ==> s[i] == d[i - 1];
    }
    assert forall i :: 0 <= i < |s| ==> s[i] != ' ';
  }

  /** Substituting one character by one character keeps the length and every other
      character in place, and leaves no occurrence of the replaced character. */
  lemma {:induction false} CharSubstOneForOne(s: string, c: char, d: char)
    ensures |CharSubst(s, c, [d])| == |s|
    ensures forall i :: 0 <= i < |s| ==> CharSubst(s, c, [d])[i] == (if s[i] == c then d else s[i])
    ensures c != d ==> c !in CharSubst(s, c, [d])
    decreases |s|
  {
    if s != [] {
      CharSubstOneForOne(s[1..], c, d);
      var t := CharSubst(s, c, [d]);
      assert t == [if s[0] == c then d else s[0]] + CharSubst(s[1..], c, [d]);
      assert forall i :: 1 <= i < |s| ==> t[i] == CharSubst(s[1..], c, [d])[i - 1];
    }
  }
}
