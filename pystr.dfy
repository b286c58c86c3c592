/**
  The fragment of Python's (and JavaScript's) string and number semantics that the
  scrapers and the web client rely on: `str.strip()`, `str.split(c)[0]`,
  `str.replace(c, "")`, `str.startswith`, `str.lower()` and `String.includes`,
  and the conversions `int(text)` and `int(float(text))`.
*/
module PyStr {
  import opened Wrappers

  const Rupee: char := '\U{20B9}'

  // ---------------------------------------------------------------------------
  // Whitespace and str.strip()
  // ---------------------------------------------------------------------------

  /** The characters for which Python's `str.isspace()` holds; `str.strip()` removes exactly these. */
  predicate IsSpace(c: char) {
    c == ' ' || ('\t' <= c <= '\r') || ('\U{1C}' <= c <= '\U{1F}') ||
    c == '\U{85}' || c == '\U{A0}' || c == '\U{1680}' || ('\U{2000}' <= c <= '\U{200A}') ||
    c == '\U{2028}' || c == '\U{2029}' || c == '\U{202F}' || c == '\U{205F}' || c == '\U{3000}'
  }

  /** `s.lstrip()`: the suffix of `s` left after every leading whitespace character is removed. */
  function TrimLeft(s: string): (r: string)
    ensures |r| <= |s|
  {
    if s != [] && IsSpace(s[0]) then TrimLeft(s[1..]) else s
  }

  /** `lstrip()` removes a run of leading whitespace and nothing else. */
  lemma {:induction false} TrimLeftShape(s: string)
    ensures TrimLeft(s) == s[|s| - |TrimLeft(s)|..]
    ensures TrimLeft(s) == [] || !IsSpace(TrimLeft(s)[0])
    ensures forall k :: 0 <= k < |s| - |TrimLeft(s)| ==> IsSpace(s[k])
  {
    if s != [] && IsSpace(s[0]) {
      TrimLeftShape(s[1..]);
      assert s[1..][|s| - 1 - |TrimLeft(s)|..] == s[|s| - |TrimLeft(s)|..];
      forall k | 1 <= k < |s| - |TrimLeft(s)| ensures IsSpace(s[k]) {
        assert s[k] == s[1..][k - 1];
      }
    }
  }

  /** `s.rstrip()`: the prefix of `s` left after every trailing whitespace character is removed. */
  function TrimRight(s: string): (r: string)
    ensures |r| <= |s|
  {
    if s != [] && IsSpace(s[|s| - 1]) then TrimRight(s[..|s| - 1]) else s
  }

  /** `rstrip()` removes a run of trailing whitespace and nothing else. */
  lemma {:induction false} TrimRightShape(s: string)
    ensures TrimRight(s) == s[..|TrimRight(s)|]
    ensures TrimRight(s) == [] || !IsSpace(TrimRight(s)[|TrimRight(s)| - 1])
    ensures forall k :: |TrimRight(s)| <= k < |s| ==> IsSpace(s[k])
  {
    if s != [] && IsSpace(s[|s| - 1]) {
      var t := s[..|s| - 1];
      TrimRightShape(t);
      assert t[..|TrimRight(s)|] == s[..|TrimRight(s)|];
      forall k | |TrimRight(s)| <= k < |s| ensures IsSpace(s[k]) {
        if k < |s| - 1 {
          assert s[k] == t[k];
        }
      }
    }
  }

  /** `s.strip()`. */
  function Strip(s: string): string {
    TrimRight(TrimLeft(s))
  }

  /** The stripped text has no whitespace at either end. */
  predicate Stripped(s: string) {
    s == [] || (!IsSpace(s[0]) && !IsSpace(s[|s| - 1]))
  }

  /** `r` occurs in `s` at index `i` with only whitespace before and after it. */
  predicate Padded(s: string, i: int, r: string) {
    && 0 <= i <= |s| - |r|
    && r == s[i..i + |r|]
    && (forall k :: 0 <= k < i ==> IsSpace(s[k]))
    && (forall k :: i + |r| <= k < |s| ==> IsSpace(s[k]))
  }

  /**
    `Strip(s)` is the part of `s` between a run of leading and a run of trailing
    whitespace, and begins and ends with a non-whitespace character.
  */
  lemma StripShape(s: string)
    ensures Stripped(Strip(s))
    ensures exists i :: Padded(s, i, Strip(s))
  {
    var l := TrimLeft(s);
    var r := TrimRight(l);
    var i := |s| - |l|;
    TrimLeftShape(s);
    TrimRightShape(l);
    assert r == s[i..i + |r|];
    if r != [] {
      assert r[0] == l[0];
    }
    forall k | i + |r| <= k < |s|
      ensures IsSpace(s[k])
    {
      assert s[k] == l[k - i];
    }
    assert Padded(s, i, r);
  }

  /** Text with no whitespace at its ends is its own strip. */
  lemma StripOfStripped(s: string)
    requires Stripped(s)
    ensures Strip(s) == s
  {
  }

  /** A trailing space after stripped text is what `strip()` removes. */
  lemma StripTrailingSpace(s: string)
    requires Stripped(s)
    ensures Strip(s + " ") == s
  {
    var t := s + " ";
    if s != [] {
      assert t[0] == s[0];
      assert TrimLeft(t) == t;
      assert t[..|t| - 1] == s;
      assert TrimRight(s) == s;
    } else {
      assert TrimLeft(t) == [];
    }
  }

  /** `strip()` is idempotent. */
  lemma StripIdempotent(s: string)
    ensures Strip(Strip(s)) == Strip(s)
  {
    StripShape(s);
    StripOfStripped(Strip(s));
  }

  // ---------------------------------------------------------------------------
  // split, replace, startswith, includes, lower
  // ---------------------------------------------------------------------------

  /**
    `s.split(c)[0]`: the longest prefix of `s` that does not contain `c`, so `s` is cut
    at the first occurrence of `c` (and kept whole when `c` does not occur).
  */
  function BeforeFirst(s: string, c: char): (r: string)
    ensures |r| <= |s| && r == s[..|r|]
    ensures c !in r
    ensures |r| < |s| ==> s[|r|] == c
  {
    if s == [] || s[0] == c then [] else [s[0]] + BeforeFirst(s[1..], c)
  }

  /** A string that does not contain the delimiter is not cut. */
  lemma BeforeFirstAbsent(s: string, c: char)
    requires c !in s
    ensures BeforeFirst(s, c) == s
  {
    var r := BeforeFirst(s, c);
    assert forall k :: 0 <= k < |s| ==> s[k] != c;
  }

  /** Cutting `a + [c] + b` at the first `c` gives `a` when `a` has no `c`. */
  lemma BeforeFirstConcat(a: string, c: char, b: string)
    requires c !in a
    ensures BeforeFirst(a + [c] + b, c) == a
  {
    var s := a + [c] + b;
    var r := BeforeFirst(s, c);
    assert forall k :: 0 <= k < |a| ==> s[k] == a[k] && a[k] in a;
    assert s[|a|] == c;
    assert forall k :: 0 <= k < |r| ==> r[k] != c;
  }

  /** Cutting `a + b` where `a` has no `c` cuts inside `b`. */
  lemma {:induction false} BeforeFirstAppend(a: string, b: string, c: char)
    requires c !in a
    ensures BeforeFirst(a + b, c) == a + BeforeFirst(b, c)
  {
    if a != [] {
      assert (a + b)[0] == a[0];
      assert (a + b)[1..] == a[1..] + b;
      BeforeFirstAppend(a[1..], b, c);
    } else {
      assert a + b == b;
    }
  }

  /** `s.replace(c, "")` for a one-character `c`: every `c` removed, the rest kept in order. */
  function RemoveAll(s: string, c: char): (r: string)
    ensures |r| <= |s|
  {
    if s == [] then [] else (if s[0] == c then [] else [s[0]]) + RemoveAll(s[1..], c)
  }

  /** What `replace(c, "")` leaves: exactly the characters of `s` other than `c`. */
  lemma {:induction false} RemoveAllMembers(s: string, c: char)
    ensures c !in RemoveAll(s, c)
    ensures forall x :: x in RemoveAll(s, c) <==> x in s && x != c
  {
    if s != [] {
      RemoveAllMembers(s[1..], c);
      assert s == [s[0]] + s[1..];
    }
  }

  /** Removing a character distributes over concatenation. */
  lemma {:induction false} RemoveAllConcat(a: string, b: string, c: char)
    ensures RemoveAll(a + b, c) == RemoveAll(a, c) + RemoveAll(b, c)
  {
    if a != [] {
      assert (a + b)[0] == a[0];
      assert (a + b)[1..] == a[1..] + b;
      RemoveAllConcat(a[1..], b, c);
    } else {
      assert a + b == b;
    }
  }

  /** A string without `c` is left alone by `replace(c, "")`. */
  lemma {:induction false} RemoveAllAbsent(s: string, c: char)
    requires c !in s
    ensures RemoveAll(s, c) == s
  {
    if s != [] {
      assert s == [s[0]] + s[1..];
      RemoveAllAbsent(s[1..], c);
    }
  }

  /** Removing a separator that occurs only once joins the two sides. */
  lemma RemoveAllSeparator(a: string, c: char, b: string)
    requires c !in a && c !in b
    ensures RemoveAll(a + [c] + b, c) == a + b
  {
    var ac := a + [c];
    RemoveAllConcat(ac, b, c);
    RemoveAllConcat(a, [c], c);
    RemoveAllAbsent(a, c);
    RemoveAllAbsent(b, c);
    var one: string := [c];
    assert RemoveAll(one, c) == [] by {
      assert one[1..] == [];
    }
    assert RemoveAll(ac, c) == a;
  }

  /** `s.startswith(p)`. */
  predicate StartsWith(s: string, p: string) {
    |p| <= |s| && s[..|p|] == p
  }

  /** `s.endswith(p)`. */
  predicate EndsWith(s: string, p: string) {
    |p| <= |s| && s[|s| - |p|..] == p
  }

  /** JavaScript's `s.includes(p)`: `p` occurs in `s` at some position. */
  predicate Contains(s: string, p: string)
    decreases |s|
  {
    StartsWith(s, p) || (s != [] && Contains(s[1..], p))
  }

  /** `p` occurs in `s` starting at index `i`. */
  predicate OccursAt(s: string, p: string, i: int) {
    0 <= i <= |s| - |p| && s[i..i + |p|] == p
  }

  /** `Contains` holds exactly when `p` occurs at some index of `s`. */
  lemma {:induction false} ContainsAt(s: string, p: string)
    ensures Contains(s, p) <==> exists i :: OccursAt(s, p, i)
    decreases |s|
  {
    if StartsWith(s, p) {
      assert OccursAt(s, p, 0);
    } else if s != [] {
      ContainsAt(s[1..], p);
      if Contains(s[1..], p) {
        var i :| OccursAt(s[1..], p, i);
        assert s[i + 1..i + 1 + |p|] == s[1..][i..i + |p|];
        assert OccursAt(s, p, i + 1);
      }
      if exists i :: OccursAt(s, p, i) {
        var i :| OccursAt(s, p, i);
        assert i != 0;
        assert s[1..][i - 1..i - 1 + |p|] == s[i..i + |p|];
        assert OccursAt(s[1..], p, i - 1);
      }
    }
  }
  /** A text that contains a non-empty `p` holds the first character of `p`. */
  lemma ContainsFirstChar(s: string, p: string)
    requires |p| > 0 && Contains(s, p)
    ensures p[0] in s
  {
    ContainsAt(s, p);
    var i :| OccursAt(s, p, i);
    assert s[i] == s[i..i + |p|][0];
  }


  /** The ASCII case mapping of `str.lower()`. */
  function LowerChar(c: char): (d: char)
    ensures 'A' <= c <= 'Z' ==> 'a' <= d <= 'z'
    ensures !('A' <= c <= 'Z') ==> d == c
  {
    if 'A' <= c <= 'Z' then (c as int - 'A' as int + 'a' as int) as char else c
  }

  /** `s.lower()`, character by character. */
  function Lower(s: string): (r: string)
    ensures |r| == |s|
    ensures forall i :: 0 <= i < |s| ==> r[i] == LowerChar(s[i])
  {
    seq(|s|, i requires 0 <= i < |s| => LowerChar(s[i]))
  }

  // ---------------------------------------------------------------------------
  // int(text) and int(float(text))
  // ---------------------------------------------------------------------------

  predicate IsDigit(c: char) {
    '0' <= c <= '9'
  }

  predicate AllDigits(s: string) {
    forall i :: 0 <= i < |s| ==> IsDigit(s[i])
  }

  /** The value of a run of decimal digits (0 for the empty run). */
  function DigitsValue(s: string): (n: nat)
    requires AllDigits(s)
  {
    if s == [] then 0 else DigitsValue(s[..|s| - 1]) * 10 + (s[|s| - 1] as int - '0' as int)
  }

  /**
    The digit part Python's `int()` and `float()` accept: digits, with single
    underscores allowed between two digits (PEP 515).
  */
  predicate DigitGroup(s: string) {
    |s| > 0 && IsDigit(s[0]) && GroupRest(s[1..])
  }

  /** What may follow the first digit of a group: digits, each `_` followed by a digit. */
  predicate GroupRest(s: string)
    decreases |s|
  {
    || s == []
    || (IsDigit(s[0]) && GroupRest(s[1..]))
    || (|s| >= 2 && s[0] == '_' && IsDigit(s[1]) && GroupRest(s[2..]))
  }

  /** Dropping the underscores of the rest of a group leaves digits only. */
  lemma {:induction false} GroupRestDigits(s: string)
    requires GroupRest(s)
    ensures AllDigits(RemoveAll(s, '_'))
    decreases |s|
  {
    if s == [] {
    } else if IsDigit(s[0]) && GroupRest(s[1..]) {
      GroupRestDigits(s[1..]);
    } else {
      GroupRestDigits(s[2..]);
      assert s[1..][1..] == s[2..];
    }
  }

  /** A digit group holds nothing but digits and underscores. */
  lemma {:induction false} GroupRestExcludes(s: string, c: char)
    requires GroupRest(s) && !IsDigit(c) && c != '_'
    ensures c !in s
    decreases |s|
  {
    if s == [] {
    } else if IsDigit(s[0]) && GroupRest(s[1..]) {
      GroupRestExcludes(s[1..], c);
      assert s == [s[0]] + s[1..];
    } else {
      GroupRestExcludes(s[2..], c);
      assert s == [s[0], s[1]] + s[2..];
    }
  }

  /** The value of a digit group: its digits, underscores dropped. */
  function GroupValue(s: string): (n: nat)
    requires DigitGroup(s)
  {
    GroupRestDigits(s[1..]);
    assert RemoveAll(s, '_') == [s[0]] + RemoveAll(s[1..], '_');
    DigitsValue(RemoveAll(s, '_'))
  }

  /** Splits off an optional `+` or `-` sign: the sign factor and the rest. */
  function SplitSign(t: string): (r: (int, string))
    ensures r.0 == 1 || r.0 == -1
    ensures |r.1| <= |t|
  {
    if t != [] && (t[0] == '+' || t[0] == '-') then (if t[0] == '-' then -1 else 1, t[1..]) else (1, t)
  }

  /**
    Python's `int(text)` in base 10: surrounding whitespace, an optional sign and a
    digit group; `None` where Python raises `ValueError`.
  */
  function ParseInt(text: string): (r: Option<int>)
  {
    var (sign, body) := SplitSign(Strip(text));
    if DigitGroup(body) then Some(sign * GroupValue(body)) else None
  }

  /**
    Python's `int(float(text))` for decimal notation: optional sign, an integer part
    and an optional fraction after `.` (either part may be empty, not both), the
    result truncated toward zero. `None` where Python raises (including "nan" and "inf").
  */
  function ParseFloatTrunc(text: string): (r: Option<int>)
  {
    var (sign, body) := SplitSign(Strip(text));
    var whole := BeforeFirst(body, '.');
    if |whole| == |body| then
      (if DigitGroup(body) then Some(sign * GroupValue(body)) else None)
    else
      var frac := body[|whole| + 1..];
      if (whole == [] || DigitGroup(whole)) && (frac == [] || DigitGroup(frac)) && (whole != [] || frac != [])
      then Some(if whole == [] then 0 else sign * GroupValue(whole))
      else None
  }

  /** The decimal rendering of a natural number, as `str(n)` gives it. */
  function Decimal(n: nat): (s: string)
    ensures |s| > 0 && AllDigits(s)
  {
    if n < 10 then [('0' as int + n) as char] else Decimal(n / 10) + [('0' as int + n % 10) as char]
  }

  /** A digit run has the value its digits denote: the rendering of `n` reads back as `n`. */
  lemma {:induction false} DigitsValueDecimal(n: nat)
    ensures DigitsValue(Decimal(n)) == n
  {
    var s := Decimal(n);
    if n >= 10 {
      DigitsValueDecimal(n / 10);
      assert s[..|s| - 1] == Decimal(n / 10);
    }
  }

  /** Plain digits form the rest of a group. */
  lemma {:induction false} DigitsAreGroupRest(s: string)
    requires AllDigits(s)
    ensures GroupRest(s)
    decreases |s|
  {
    if s != [] {
      DigitsAreGroupRest(s[1..]);
    }
  }

  /** A non-empty run of plain digits is a digit group whose value is the run's value. */
  lemma DigitsAreGroup(s: string)
    requires |s| > 0 && AllDigits(s)
    ensures DigitGroup(s) && GroupValue(s) == DigitsValue(s)
  {
    DigitsAreGroupRest(s[1..]);
    RemoveAllAbsent(s, '_');
  }

  /** Plain digits have no whitespace at their ends. */
  lemma DigitsStripped(s: string)
    requires AllDigits(s)
    ensures Strip(s) == s
  {
    StripOfStripped(s);
  }

  /** `int()` reads a non-empty run of plain digits as the number it denotes. */
  lemma ParseIntDigits(s: string)
    requires |s| > 0 && AllDigits(s)
    ensures ParseInt(s) == Some(DigitsValue(s))
  {
    DigitsStripped(s);
    DigitsAreGroup(s);
  }

  /** `int(str(n)) == n` for every natural number. */
  lemma ParseIntDecimal(n: nat)
    ensures ParseInt(Decimal(n)) == Some(n)
  {
    ParseIntDigits(Decimal(n));
    DigitsValueDecimal(n);
  }

  /** On every string `int()` accepts, `int(float(text))` gives the same number. */
  lemma ParseFloatTruncExtendsParseInt(text: string)
    requires ParseInt(text).Some?
    ensures ParseFloatTrunc(text) == ParseInt(text)
  {
    var (sign, body) := SplitSign(Strip(text));
    GroupRestExcludes(body[1..], '.');
    assert body == [body[0]] + body[1..];
    BeforeFirstAbsent(body, '.');
  }

  /** `int(float("n.m")) == n`: the fraction is dropped. */
  lemma ParseFloatTruncFraction(n: nat, m: nat)
    ensures ParseFloatTrunc(Decimal(n) + "." + Decimal(m)) == Some(n)
  {
    var a, b := Decimal(n), Decimal(m);
    var s := a + "." + b;
    assert AllDigits(a) && AllDigits(b);
    assert Stripped(s);
    StripOfStripped(s);
    assert s[0] == a[0];
    BeforeFirstConcat(a, '.', b);
    assert s[|a| + 1..] == b;
    DigitsAreGroup(a);
    DigitsAreGroup(b);
    DigitsValueDecimal(n);
  }
}
