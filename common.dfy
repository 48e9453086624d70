/** Failure-carrying values used in place of the source's exceptions and `None` returns. */
module Wrappers {

  datatype Option<+T> = None | Some(value: T)

  datatype Result<+T, +E> = Ok(value: T) | Err(error: E)

  /** An action that either completes or raises an exception with the given message. */
  datatype Outcome = Pass | Fail(message: string)
}

/** The handful of Python `str` operations the core relies on, on `seq<char>`. */
module Text {
  import opened Wrappers

  /** Regrouping a concatenation, kept apart so that larger proofs need not rediscover it. */
  lemma ConcatAssoc<T>(a: seq<T>, b: seq<T>, c: seq<T>)
    ensures (a + b) + c == a + (b + c)
  {
  }

  // ---------------------------------------------------------------------------
  // Substring search: Python's `sub in s`
  // ---------------------------------------------------------------------------

  /** `sub` occurs in `s` starting at index `i`. */
  predicate OccursAt(s: string, sub: string, i: int)
  {
    0 <= i && i + |sub| <= |s| && s[i..i + |sub|] == sub
  }

  predicate Contains(s: string, sub: string)
    decreases |s|
  {
    sub <= s || (|s| > 0 && Contains(s[1..], sub))
  }

  lemma {:induction false} OccursAtContains(s: string, sub: string, i: int)
    requires OccursAt(s, sub, i)
    ensures Contains(s, sub)
    decreases i
  {
    if i == 0 {
      assert s[..|sub|] == sub;
    } else {
      assert s[1..][i - 1..i - 1 + |sub|] == s[i..i + |sub|];
      OccursAtContains(s[1..], sub, i - 1);
    }
  }

  lemma {:induction false} ContainsOccurs(s: string, sub: string) returns (i: int)
    requires Contains(s, sub)
    ensures OccursAt(s, sub, i)
    decreases |s|
  {
    if sub <= s {
      i := 0;
    } else {
      var j := ContainsOccurs(s[1..], sub);
      assert s[1..][j..j + |sub|] == s[j + 1..j + 1 + |sub|];
      i := j + 1;
    }
  }

  /** The recursive search agrees with "occurs at some index". */
  lemma ContainsIffOccurs(s: string, sub: string)
    ensures Contains(s, sub) <==> exists i :: OccursAt(s, sub, i)
  {
    if Contains(s, sub) {
      var i := ContainsOccurs(s, sub);
    }
    forall i | OccursAt(s, sub, i) ensures Contains(s, sub) {
      OccursAtContains(s, sub, i);
    }
  }

  lemma ContainsPrefix(s: string, sub: string)
    requires sub <= s
    ensures Contains(s, sub)
  {
  }

  lemma {:induction false} ContainsAppendLeft(a: string, b: string, sub: string)
    requires Contains(a, sub)
    ensures Contains(a + b, sub)
    decreases |a|
  {
    if sub <= a {
      assert a <= a + b;
    } else {
      assert (a + b)[1..] == a[1..] + b;
      ContainsAppendLeft(a[1..], b, sub);
    }
  }

  lemma {:induction false} ContainsAppendRight(a: string, b: string, sub: string)
    requires Contains(b, sub)
    ensures Contains(a + b, sub)
    decreases |a|
  {
    if |a| > 0 {
      assert (a + b)[1..] == a[1..] + b;
      ContainsAppendRight(a[1..], b, sub);
    } else {
      assert a + b == b;
    }
  }

  /** A single character `c` is contained exactly when it is an element. */
  lemma {:induction false} ContainsChar(s: string, c: char)
    ensures Contains(s, [c]) <==> c in s
    decreases |s|
  {
    if |s| > 0 {
      ContainsChar(s[1..], c);
      assert s == [s[0]] + s[1..];
    }
  }

  /** Every character of a contained string is a character of the containing one. */
  lemma ContainsCharOf(s: string, sub: string, c: char)
    requires Contains(s, sub) && c in sub
    ensures c in s
  {
    var k := ContainsOccurs(s, sub);
    var j :| 0 <= j < |sub| && sub[j] == c;
    assert s[k..k + |sub|][j] == c;
    assert s[k + j] == c;
  }

  /** `s.split(sep)[0]`: the text before the first occurrence of a non-empty `sep`. */
  function BeforeFirst(s: string, sep: string): (r: string)
    requires |sep| > 0
    ensures r <= s
    ensures !Contains(s, sep) ==> r == s
    ensures Contains(s, sep) ==> OccursAt(s, sep, |r|) && forall i :: 0 <= i < |r| ==> !OccursAt(s, sep, i)
    decreases |s|
  {
    if sep <= s then ""
    else if |s| == 0 then ""
    else
      var rest := BeforeFirst(s[1..], sep);
      assert Contains(s, sep) ==> OccursAt(s, sep, |rest| + 1) && forall i :: 0 <= i < |rest| + 1 ==> !OccursAt(s, sep, i) by {
        if Contains(s, sep) {
          assert s[|rest| + 1..|rest| + 1 + |sep|] == s[1..][|rest|..|rest| + |sep|];
          forall i | 0 < i < |rest| + 1 ensures !OccursAt(s, sep, i) {
            assert !OccursAt(s[1..], sep, i - 1);
            if i + |sep| <= |s| {
              assert s[i..i + |sep|] == s[1..][i - 1..i - 1 + |sep|];
            }
          }
        }
      }
      [s[0]] + rest
  }

  /** The text before the first `c` of `a + [c] + b`, where `a` has no `c`, is `a`. */
  lemma {:induction false} BeforeFirstJoin(a: string, c: char, b: string)
    requires c !in a
    ensures BeforeFirst(a + [c] + b, [c]) == a
    decreases |a|
  {
    var s := a + [c] + b;
    if |a| > 0 {
      assert !([c] <= s) by { assert s[0] == a[0]; }
      assert s[1..] == a[1..] + [c] + b;
      BeforeFirstJoin(a[1..], c, b);
      assert [s[0]] + a[1..] == a;
    } else {
      assert [c] <= s;
    }
  }

  // ---------------------------------------------------------------------------
  // Whitespace and str.strip()
  // ---------------------------------------------------------------------------

  /** The characters for which Python's `str.isspace()` holds. */
  predicate IsSpace(c: char)
  {
    c in {'\t', '\n', '\U{000B}', '\U{000C}', '\r', '\U{001C}', '\U{001D}', '\U{001E}', '\U{001F}', ' ',
          '\U{0085}', '\U{00A0}', '\U{1680}', '\U{2000}', '\U{2001}', '\U{2002}', '\U{2003}', '\U{2004}',
          '\U{2005}', '\U{2006}', '\U{2007}', '\U{2008}', '\U{2009}', '\U{200A}', '\U{2028}', '\U{2029}',
          '\U{202F}', '\U{205F}', '\U{3000}'}
  }

  predicate NoSpace(s: string)
  {
    forall k :: 0 <= k < |s| ==> !IsSpace(s[k])
  }

  /** `s.lstrip()`. */
  function TrimStart(s: string): (r: string)
    ensures |r| <= |s|
    decreases |s|
  {
    if |s| > 0 && IsSpace(s[0]) then TrimStart(s[1..]) else s
  }

  /** `lstrip()` drops the leading whitespace and nothing else. */
  lemma {:induction false} TrimStartSpec(s: string)
    ensures var r := TrimStart(s);
      && r == s[|s| - |r|..]
      && (forall k :: 0 <= k < |s| - |r| ==> IsSpace(s[k]))
      && (|r| > 0 ==> !IsSpace(r[0]))
    decreases |s|
  {
    if |s| > 0 && IsSpace(s[0]) {
      TrimStartSpec(s[1..]);
      var r := TrimStart(s);
      assert s[1..][|s| - 1 - |r|..] == s[|s| - |r|..];
      forall k | 1 <= k < |s| - |r| ensures IsSpace(s[k]) {
        assert s[k] == s[1..][k - 1];
      }
    }
  }

  /** `s.rstrip()`. */
  function TrimEnd(s: string): (r: string)
    ensures |r| <= |s|
    decreases |s|
  {
    if |s| > 0 && IsSpace(s[|s| - 1]) then TrimEnd(s[..|s| - 1]) else s
  }

  /** `rstrip()` drops the trailing whitespace and nothing else. */
  lemma {:induction false} TrimEndSpec(s: string)
    ensures var r := TrimEnd(s);
      && r == s[..|r|]
      && (forall k :: |r| <= k < |s| ==> IsSpace(s[k]))
      && (|r| > 0 ==> !IsSpace(r[|r| - 1]))
    decreases |s|
  {
    if |s| > 0 && IsSpace(s[|s| - 1]) {
      TrimEndSpec(s[..|s| - 1]);
      var r := TrimEnd(s);
      assert s[..|s| - 1][..|r|] == s[..|r|];
      forall k | |r| <= k < |s| - 1 ensures IsSpace(s[k]) {
        assert s[k] == s[..|s| - 1][k];
      }
    }
  }

  /** `s.strip()`: no longer than `s`, and with no whitespace left at either end. */
  function Strip(s: string): (r: string)
    ensures |r| <= |s|
    ensures r != [] ==> !IsSpace(r[0]) && !IsSpace(r[|r| - 1])
  {
    var t := TrimStart(s);
    TrimStartSpec(s);
    TrimEndSpec(t);
    TrimEnd(t)
  }

  /** What `strip()` returns: the slice of `s` from `i` on, where everything cut away at
      either end is whitespace and no whitespace is left at either end of the result. */
  lemma StripSpec(s: string) returns (i: nat)
    ensures i + |Strip(s)| <= |s| && Strip(s) == s[i..i + |Strip(s)|]
    ensures forall k :: 0 <= k < i ==> IsSpace(s[k])
    ensures forall k :: i + |Strip(s)| <= k < |s| ==> IsSpace(s[k])
    ensures Strip(s) != [] ==> !IsSpace(Strip(s)[0]) && !IsSpace(Strip(s)[|Strip(s)| - 1])
  {
    var t := TrimStart(s);
    var r := TrimEnd(t);
    TrimStartSpec(s);
    TrimEndSpec(t);
    i := |s| - |t|;
    assert r == s[i..i + |r|];
    forall k | i + |r| <= k < |s| ensures IsSpace(s[k]) {
      assert s[k] == t[k - i];
    }
    if r != [] {
      assert r[0] == t[0];
    }
  }

  /** A string with no whitespace at either end is its own strip. */
  lemma StripTrimmed(s: string)
    requires s == [] || (!IsSpace(s[0]) && !IsSpace(s[|s| - 1]))
    ensures Strip(s) == s
  {
    if s != [] {
      assert TrimStart(s) == s;
      assert TrimEnd(s) == s;
    }
  }

  lemma StripNoSpace(s: string)
    requires NoSpace(s)
    ensures Strip(s) == s
  {
    if |s| > 0 {
      assert !IsSpace(s[0]);
      assert !IsSpace(s[|s| - 1]);
    }
    StripTrimmed(s);
  }

  /** Stripping twice changes nothing. */
  lemma StripIdempotent(s: string)
    ensures Strip(Strip(s)) == Strip(s)
  {
    var r := Strip(s);
    var i := StripSpec(s);
    if r != [] {
      assert TrimStart(r) == r;
      assert TrimEnd(r) == r;
    }
  }

  /** `[p.strip() for p in pieces]`. */
  function StripAll(pieces: seq<string>): (r: seq<string>)
    ensures |r| == |pieces|
    ensures forall k :: 0 <= k < |r| ==> r[k] == Strip(pieces[k])
  {
    if pieces == [] then [] else [Strip(pieces[0])] + StripAll(pieces[1..])
  }

  /** Each stripped piece is its own strip and holds no character its piece lacks. */
  lemma StripAllStripped(pieces: seq<string>, c: char)
    ensures forall k :: 0 <= k < |pieces| ==> Strip(StripAll(pieces)[k]) == StripAll(pieces)[k]
    ensures forall k :: 0 <= k < |pieces| && c !in pieces[k] ==> c !in StripAll(pieces)[k]
  {
    forall k | 0 <= k < |pieces|
      ensures Strip(StripAll(pieces)[k]) == StripAll(pieces)[k]
      ensures c !in pieces[k] ==> c !in StripAll(pieces)[k]
    {
      StripIdempotent(pieces[k]);
      var i := StripSpec(pieces[k]);
    }
  }

  /** Stripping pieces that are already stripped changes nothing. */
  lemma StripAllTrimmed(pieces: seq<string>)
    requires forall k :: 0 <= k < |pieces| ==> Strip(pieces[k]) == pieces[k]
    ensures StripAll(pieces) == pieces
  {
    var r := StripAll(pieces);
    assert forall k :: 0 <= k < |r| ==> r[k] == pieces[k];
  }

  lemma {:induction false} TrimStartAround(before: string, s: string)
    requires |s| > 0 && !IsSpace(s[0])
    requires forall k :: 0 <= k < |before| ==> IsSpace(before[k])
    ensures TrimStart(before + s) == s
    decreases |before|
  {
    if before == [] {
      assert before + s == s;
    } else {
      assert (before + s)[0] == before[0];
      assert (before + s)[1..] == before[1..] + s;
      TrimStartAround(before[1..], s);
    }
  }

  lemma {:induction false} TrimEndAround(s: string, after: string)
    requires |s| > 0 && !IsSpace(s[|s| - 1])
    requires forall k :: 0 <= k < |after| ==> IsSpace(after[k])
    ensures TrimEnd(s + after) == s
    decreases |after|
  {
    if after == [] {
      assert s + after == s;
    } else {
      var t := s + after;
      assert t[|t| - 1] == after[|after| - 1];
      assert t[..|t| - 1] == s + after[..|after| - 1];
      TrimEndAround(s, after[..|after| - 1]);
    }
  }

  /** Blanks around a text with no blank at either end are exactly what `strip()` removes. */
  lemma StripAround(before: string, s: string, after: string)
    requires |s| > 0 && !IsSpace(s[0]) && !IsSpace(s[|s| - 1])
    requires forall k :: 0 <= k < |before| ==> IsSpace(before[k])
    requires forall k :: 0 <= k < |after| ==> IsSpace(after[k])
    ensures Strip(before + s + after) == s
  {
    assert before + s + after == before + (s + after);
    assert (s + after)[0] == s[0];
    TrimStartAround(before, s + after);
    TrimEndAround(s, after);
  }

  // ---------------------------------------------------------------------------
  // str.split(c) for a one-character separator, and str.join
  // ---------------------------------------------------------------------------

  function Count(s: string, c: char): nat
    decreases |s|
  {
    if s == [] then 0 else (if s[0] == c then 1 else 0) + Count(s[1..], c)
  }

  /** `s.split(c)`: one piece more than there are separators, none of them holding `c`. */
  function Split(s: string, c: char): (r: seq<string>)
    ensures |r| == Count(s, c) + 1
    ensures forall k :: 0 <= k < |r| ==> c !in r[k]
    decreases |s|
  {
    if s == [] then [""]
    else
      var rest := Split(s[1..], c);
      if s[0] == c then [""] + rest else [[s[0]] + rest[0]] + rest[1..]
  }

  /** `sep.join(parts)`. */
  function Join(parts: seq<string>, sep: string): string
    decreases |parts|
  {
    if |parts| == 0 then ""
    else if |parts| == 1 then parts[0]
    else parts[0] + sep + Join(parts[1..], sep)
  }

  /** Joining the pieces with the separator gives the string back. */
  lemma {:induction false} JoinSplit(s: string, c: char)
    ensures Join(Split(s, c), [c]) == s
    decreases |s|
  {
    if s != [] {
      var rest := Split(s[1..], c);
      JoinSplit(s[1..], c);
      if s[0] != c {
        if |rest| == 1 {
          assert Split(s, c) == [[s[0]] + rest[0]];
        } else {
          var r := Split(s, c);
          assert r[1..] == rest[1..];
          assert Join(r, [c]) == [s[0]] + (rest[0] + [c] + Join(rest[1..], [c]));
        }
      } else {
        assert Split(s, c)[1..] == rest;
      }
    }
  }

  lemma JoinFour(a: string, b: string, x: string, y: string, c: char)
    ensures Join([a, b, x, y], [c]) == a + [c] + b + [c] + x + [c] + y
  {
    assert [a, b, x, y][1..] == [b, x, y];
    assert [b, x, y][1..] == [x, y];
    assert [x, y][1..] == [y];
    assert Join([x, y], [c]) == x + [c] + y;
    assert Join([b, x, y], [c]) == b + [c] + (x + [c] + y);
  }

  /** A character in neither the parts nor the separator is not in the joined string. */
  lemma {:induction false} JoinAvoids(parts: seq<string>, sep: string, c: char)
    requires forall k :: 0 <= k < |parts| ==> c !in parts[k]
    requires c !in sep
    ensures c !in Join(parts, sep)
    decreases |parts|
  {
    if |parts| > 1 {
      JoinAvoids(parts[1..], sep, c);
    }
  }

  lemma {:induction false} SplitNoSep(a: string, c: char)
    requires c !in a
    ensures Split(a, c) == [a]
    decreases |a|
  {
    if a != [] {
      SplitNoSep(a[1..], c);
      assert a == [a[0]] + a[1..];
    }
  }

  /** A piece free of the separator, followed by the separator, is split off as a whole. */
  lemma {:induction false} SplitFirstPiece(a: string, c: char, t: string)
    requires c !in a
    ensures Split(a + [c] + t, c) == [a] + Split(t, c)
    decreases |a|
  {
    var s := a + [c] + t;
    if a == [] {
      assert s[1..] == t;
    } else {
      assert s[1..] == a[1..] + [c] + t;
      SplitFirstPiece(a[1..], c, t);
      assert s[0] == a[0] != c;
      assert a == [a[0]] + a[1..];
    }
  }

  /** Splitting a join of separator-free pieces recovers the pieces. */
  lemma {:induction false} SplitJoin(parts: seq<string>, c: char)
    requires |parts| >= 1
    requires forall k :: 0 <= k < |parts| ==> c !in parts[k]
    ensures Split(Join(parts, [c]), c) == parts
    decreases |parts|
  {
    if |parts| == 1 {
      SplitNoSep(parts[0], c);
    } else {
      var rest := Join(parts[1..], [c]);
      assert Join(parts, [c]) == parts[0] + [c] + rest;
      SplitJoin(parts[1..], c);
      SplitFirstPiece(parts[0], c, rest);
      assert parts == [parts[0]] + parts[1..];
    }
  }

  // ---------------------------------------------------------------------------
  // Decimal numbers: str(n) and int(s)
  // ---------------------------------------------------------------------------

  predicate IsDigit(c: char)
  {
    '0' <= c <= '9'
  }

  predicate AllDigits(s: string)
  {
    forall k :: 0 <= k < |s| ==> IsDigit(s[k])
  }

  function DigitChar(d: nat): (c: char)
    requires d < 10
    ensures IsDigit(c)
  {
    ('0' as int + d) as char
  }

  function DigitValue(c: char): (d: nat)
    requires IsDigit(c)
    ensures d < 10
  {
    (c as int - '0' as int) as nat
  }

  /** The number a string of decimal digits denotes (most significant digit first). */
  function DigitsValue(s: string): nat
    requires AllDigits(s)
    decreases |s|
  {
    if s == [] then 0 else DigitsValue(s[..|s| - 1]) * 10 + DigitValue(s[|s| - 1])
  }

  /** `str(n)` for a natural number. */
  function NatToString(n: nat): (s: string)
    ensures |s| >= 1 && AllDigits(s)
    decreases n
  {
    if n < 10 then [DigitChar(n)] else NatToString(n / 10) + [DigitChar(n % 10)]
  }

  /** `str(n)` for any integer. */
  function IntToString(n: int): (s: string)
    ensures |s| >= 1
  {
    if n < 0 then "-" + NatToString(-n) else NatToString(n)
  }

  lemma {:induction false} NatToStringValue(n: nat)
    ensures DigitsValue(NatToString(n)) == n
    decreases n
  {
    var s := NatToString(n);
    if n >= 10 {
      NatToStringValue(n / 10);
      assert s[..|s| - 1] == NatToString(n / 10);
    }
  }

  /** `n` written with exactly `width` digits, keeping the low-order ones (zero-padded). */
  function FixedDigits(n: nat, width: nat): (s: string)
    ensures |s| == width && AllDigits(s)
    decreases width
  {
    if width == 0 then "" else FixedDigits(n / 10, width - 1) + [DigitChar(n % 10)]
  }

  function Pow10(k: nat): (p: nat)
    ensures p >= 1
  {
    if k == 0 then 1 else 10 * Pow10(k - 1)
  }

  /** Reading the digits back gives the number, when it fits in `width` digits. */
  lemma {:induction false} FixedDigitsValue(n: nat, width: nat)
    requires n < Pow10(width)
    ensures DigitsValue(FixedDigits(n, width)) == n
    decreases width
  {
    if width > 0 {
      var s := FixedDigits(n, width);
      assert s[..|s| - 1] == FixedDigits(n / 10, width - 1);
      assert n / 10 < Pow10(width - 1);
      FixedDigitsValue(n / 10, width - 1);
    } else {
      assert n == 0;
    }
  }

  /** The digits, with optional single underscores between them, that Python's `int()`
      accepts after the sign. */
  predicate IsDigitGroup(s: string)
  {
    && |s| > 0
    && IsDigit(s[0]) && IsDigit(s[|s| - 1])
    && (forall k :: 0 <= k < |s| ==> IsDigit(s[k]) || s[k] == '_')
    && (forall k :: 0 <= k < |s| - 1 ==> s[k] == '_' ==> s[k + 1] != '_')
  }

  function WithoutUnderscores(s: string): (r: string)
    requires forall k :: 0 <= k < |s| ==> IsDigit(s[k]) || s[k] == '_'
    ensures AllDigits(r)
    ensures AllDigits(s) ==> r == s
    decreases |s|
  {
    if s == [] then "" else (if s[0] == '_' then "" else [s[0]]) + WithoutUnderscores(s[1..])
  }

  /** The unsigned part of `int(s)`. */
  function ParseDigits(s: string): Option<nat>
  {
    if IsDigitGroup(s) then Some(DigitsValue(WithoutUnderscores(s))) else None
  }

  /** Python's `int(s)` on a string: surrounding whitespace, an optional sign, decimal digits
      with optional single underscores between them. `None` stands for the `ValueError`. */
  function ParseInt(s: string): (r: Option<int>)
    ensures r.Some? ==> var t := Strip(s);
      |t| > 0 && IsDigit(t[|t| - 1]) && (IsDigit(t[0]) || t[0] == '+' || t[0] == '-')
  {
    var t := Strip(s);
    if |t| > 0 && (t[0] == '+' || t[0] == '-') then
      match ParseDigits(t[1..])
      case None => None
      case Some(v) => Some(if t[0] == '-' then -(v as int) else v as int)
    else
      match ParseDigits(t)
      case None => None
      case Some(v) => Some(v)
  }

  lemma DigitNotSpace(c: char)
    requires IsDigit(c) || c == '-'
    ensures !IsSpace(c)
  {
  }

  lemma ParseDigitsNat(m: nat)
    ensures ParseDigits(NatToString(m)) == Some(m)
  {
    var d := NatToString(m);
    NatToStringValue(m);
    assert IsDigitGroup(d);
  }

  lemma NoSpaceIntToString(n: int)
    ensures NoSpace(IntToString(n))
  {
    var s := IntToString(n);
    var m: nat := if n < 0 then -n else n;
    var d := NatToString(m);
    forall k | 0 <= k < |s| ensures !IsSpace(s[k]) {
      if n < 0 && k > 0 {
        assert s[k] == d[k - 1];
      }
      DigitNotSpace(s[k]);
    }
  }

  /** `int(str(n)) == n`. */
  lemma ParseIntToString(n: int)
    ensures ParseInt(IntToString(n)) == Some(n)
  {
    var s := IntToString(n);
    var m: nat := if n < 0 then -n else n;
    NoSpaceIntToString(n);
    StripNoSpace(s);
    assert Strip(s) == s;
    ParseDigitsNat(m);
    if n < 0 {
      assert s[1..] == NatToString(m);
    } else {
      assert IsDigit(s[0]);
    }
  }
}
