/** The JavaScript string primitives the subtitle code relies on:
    the whitespace class shared by `String.prototype.trim` and the regular-expression
    escape `\s`, `trim`, `split` on a single character, `join`, `parseInt` with no
    radix, and the decimal rendering of an integer in a template string. */
module JsText {
  import opened Types

  /** WhiteSpace and LineTerminator code points of ECMAScript (the set `trim` removes and `\s` matches). */
  predicate IsWhitespace(c: char)
  {
    var n := c as int;
    n == 0x09 || n == 0x0A || n == 0x0B || n == 0x0C || n == 0x0D || n == 0x20 ||
    n == 0xA0 || n == 0x1680 || (0x2000 <= n <= 0x200A) || n == 0x2028 || n == 0x2029 ||
    n == 0x202F || n == 0x205F || n == 0x3000 || n == 0xFEFF
  }

  predicate IsDigit(c: char)
  {
    '0' <= c <= '9'
  }

  predicate IsHexDigit(c: char)
  {
    IsDigit(c) || ('a' <= c <= 'f') || ('A' <= c <= 'F')
  }

  function DigitValue(c: char): (v: nat)
    requires IsHexDigit(c)
    ensures v < 16
    ensures IsDigit(c) ==> v < 10
  {
    if IsDigit(c) then c as int - '0' as int
    else if 'a' <= c <= 'f' then c as int - 'a' as int + 10
    else c as int - 'A' as int + 10
  }

  // ---------------------------------------------------------------------------
  // trim

  /** The index of the first non-whitespace character at or after `i` (|s| if none). */
  function StartIndex(s: string, i: nat): (r: nat)
    requires i <= |s|
    ensures i <= r <= |s|
    ensures forall k :: i <= k < r ==> IsWhitespace(s[k])
    ensures r < |s| ==> !IsWhitespace(s[r])
    decreases |s| - i
  {
    if i < |s| && IsWhitespace(s[i]) then StartIndex(s, i + 1) else i
  }

  /** The end of the text before `j` once trailing whitespace is dropped, never below `lo`. */
  function EndIndex(s: string, lo: nat, j: nat): (r: nat)
    requires lo <= j <= |s|
    ensures lo <= r <= j
    ensures forall k :: r <= k < j ==> IsWhitespace(s[k])
    ensures r > lo ==> !IsWhitespace(s[r - 1])
    decreases j
  {
    if j > lo && IsWhitespace(s[j - 1]) then EndIndex(s, lo, j - 1) else j
  }

  /** `s.trimStart()`: leading whitespace removed. */
  function TrimStart(s: string): string
  {
    s[StartIndex(s, 0)..]
  }

  /** `s.trim()`: leading and trailing whitespace removed. */
  function Trim(s: string): string
  {
    var a := StartIndex(s, 0);
    s[a..EndIndex(s, a, |s|)]
  }

  /** `s.trim()` is the slice `s[i..j]` with only whitespace outside it and, when it is
      not empty, no whitespace at either end. */
  lemma TrimSlice(s: string) returns (i: nat, j: nat)
    ensures i <= j <= |s| && Trim(s) == s[i..j]
    ensures forall k :: 0 <= k < i ==> IsWhitespace(s[k])
    ensures forall k :: j <= k < |s| ==> IsWhitespace(s[k])
    ensures i < j ==> !IsWhitespace(s[i]) && !IsWhitespace(s[j - 1])
  {
    i := StartIndex(s, 0);
    j := EndIndex(s, i, |s|);
  }

  /** The trim is empty exactly when the string is all whitespace. */
  lemma TrimEmpty(s: string)
    ensures (forall k :: 0 <= k < |s| ==> IsWhitespace(s[k])) <==> Trim(s) == []
  {
    var i := StartIndex(s, 0);
    var j := EndIndex(s, i, |s|);
    assert |Trim(s)| == j - i;
  }

  /** A string that already has no surrounding whitespace is its own trim. */
  lemma TrimIdentity(s: string)
    requires s != [] ==> !IsWhitespace(s[0]) && !IsWhitespace(s[|s| - 1])
    ensures Trim(s) == s
  {
    assert StartIndex(s, 0) == 0;
    assert EndIndex(s, 0, |s|) == |s|;
  }

  // ---------------------------------------------------------------------------
  // split and join on one separator

  /** `s.split(c)` for a one-character separator. */
  function SplitOn(s: string, c: char): (r: seq<string>)
    ensures |r| >= 1
    ensures forall k :: 0 <= k < |r| ==> c !in r[k]
    ensures c !in s ==> r == [s]
  {
    if |s| == 0 then [""]
    else if s[0] == c then [""] + SplitOn(s[1..], c)
    else
      var rest := SplitOn(s[1..], c);
      assert c !in s ==> s == [s[0]] + s[1..];
      [[s[0]] + rest[0]] + rest[1..]
  }

  /** `parts.join(sep)`. */
  function Join(parts: seq<string>, sep: string): (r: string)
  {
    if |parts| == 0 then ""
    else if |parts| == 1 then parts[0]
    else parts[0] + sep + Join(parts[1..], sep)
  }

  /** Splitting at a string that starts with a non-separator glues that character to the
      first piece of the rest. */
  lemma SplitOnCons(x: char, t: string, c: char)
    requires x != c
    ensures SplitOn([x] + t, c) == [[x] + SplitOn(t, c)[0]] + SplitOn(t, c)[1..]
  {
    assert ([x] + t)[1..] == t;
  }

  /** Splitting at a string that starts with the separator gives an empty first piece. */
  lemma SplitOnSep(t: string, c: char)
    ensures SplitOn([c] + t, c) == [""] + SplitOn(t, c)
  {
    assert ([c] + t)[1..] == t;
  }

  /** A piece without the separator, then the separator, then anything: the piece comes
      first, then the pieces of the rest. */
  lemma {:induction false} SplitAfterPiece(a: string, c: char, b: string)
    requires c !in a
    ensures SplitOn(a + [c] + b, c) == [a] + SplitOn(b, c)
  {
    if |a| == 0 {
      assert a + [c] + b == [c] + b;
      SplitOnSep(b, c);
    } else {
      var t := a[1..] + [c] + b;
      assert a + [c] + b == [a[0]] + t;
      SplitAfterPiece(a[1..], c, b);
      SplitOnCons(a[0], t, c);
      assert [a[0]] + a[1..] == a;
      assert ([a[1..]] + SplitOn(b, c))[1..] == SplitOn(b, c);
    }
  }

  /** Joining a list whose first piece is `p`. */
  lemma JoinCons(p: string, rest: seq<string>, sep: string)
    requires |rest| >= 1
    ensures Join([p] + rest, sep) == p + sep + Join(rest, sep)
  {
    assert ([p] + rest)[1..] == rest;
  }

  /** Prefixing the first piece of a list prefixes its join. */
  lemma JoinPrefixHead(x: string, rest: seq<string>, sep: string)
    requires |rest| >= 1
    ensures Join([x + rest[0]] + rest[1..], sep) == x + Join(rest, sep)
  {
    if |rest| > 1 {
      JoinCons(x + rest[0], rest[1..], sep);
      assert rest == [rest[0]] + rest[1..];
      JoinCons(rest[0], rest[1..], sep);
    } else {
      assert [x + rest[0]] + rest[1..] == [x + rest[0]];
    }
  }

  /** Joining the pieces of a split with the same separator restores the string. */
  lemma {:induction false} JoinSplit(s: string, c: char)
    ensures Join(SplitOn(s, c), [c]) == s
  {
    if |s| > 0 {
      var rest := SplitOn(s[1..], c);
      JoinSplit(s[1..], c);
      assert s == [s[0]] + s[1..];
      if s[0] == c {
        SplitOnSep(s[1..], c);
        JoinCons("", rest, [c]);
      } else {
        SplitOnCons(s[0], s[1..], c);
        JoinPrefixHead([s[0]], rest, [c]);
      }
    }
  }

  // ---------------------------------------------------------------------------
  // parseInt and integer rendering

  /** Length of the longest prefix of `s` made of decimal digits. */
  function DigitPrefixLen(s: string): (n: nat)
    ensures n <= |s|
    ensures forall k :: 0 <= k < n ==> IsDigit(s[k])
    ensures n < |s| ==> !IsDigit(s[n])
  {
    if |s| > 0 && IsDigit(s[0]) then 1 + DigitPrefixLen(s[1..]) else 0
  }

  /** Length of the longest prefix of `s` made of hexadecimal digits. */
  function HexPrefixLen(s: string): (n: nat)
    ensures n <= |s|
    ensures forall k :: 0 <= k < n ==> IsHexDigit(s[k])
    ensures n < |s| ==> !IsHexDigit(s[n])
  {
    if |s| > 0 && IsHexDigit(s[0]) then 1 + HexPrefixLen(s[1..]) else 0
  }

  /** The value of a digit string in the given radix, most significant digit first. */
  function DigitsValue(s: string, radix: nat): nat
    requires radix == 10 || radix == 16
    requires forall k :: 0 <= k < |s| ==> IsHexDigit(s[k])
  {
    if |s| == 0 then 0
    else DigitsValue(s[..|s| - 1], radix) * radix + DigitValue(s[|s| - 1])
  }

  /** The unsigned part of `parseInt`: a `0x`/`0X` prefix selects radix 16, otherwise
      radix 10, and the longest digit prefix is converted; no digits gives NaN (None). */
  function ParseDigits(rest: string): Option<nat>
  {
    if |rest| >= 2 && rest[0] == '0' && (rest[1] == 'x' || rest[1] == 'X') then
      var h := HexPrefixLen(rest[2..]);
      if h == 0 then None else Some(DigitsValue(rest[2..][..h], 16))
    else
      var d := DigitPrefixLen(rest);
      if d == 0 then None else Some(DigitsValue(rest[..d], 10))
  }

  /** `parseInt(s)` with no radix argument: leading whitespace is skipped, then an
      optional sign, then the digits. */
  function ParseInt(s: string): Option<int>
  {
    var t := TrimStart(s);
    var sign := if |t| > 0 && t[0] == '-' then -1 else 1;
    var rest := if |t| > 0 && (t[0] == '-' || t[0] == '+') then t[1..] else t;
    match ParseDigits(rest)
    case None => None
    case Some(v) => Some(sign * v)
  }

  function DigitChar(d: nat): (c: char)
    requires d < 10
    ensures IsDigit(c) && IsHexDigit(c) && DigitValue(c) == d
  {
    ['0', '1', '2', '3', '4', '5', '6', '7', '8', '9'][d]
  }

  /** Decimal digits of a natural number, without leading zeros. */
  function NatToString(n: nat): (r: string)
    ensures |r| >= 1
    ensures forall k :: 0 <= k < |r| ==> IsDigit(r[k])
    ensures |r| > 1 ==> r[0] != '0'
  {
    if n < 10 then [DigitChar(n)] else NatToString(n / 10) + [DigitChar(n % 10)]
  }

  /** `${n}` for an integer-valued number. */
  function IntToString(n: int): (r: string)
    ensures |r| >= 1 && (IsDigit(r[0]) || r[0] == '-')
    ensures forall k :: 0 <= k < |r| ==> r[k] != '\n' && !IsWhitespace(r[k])
  {
    if n < 0 then "-" + NatToString(-n) else NatToString(n)
  }

  lemma {:induction false} DigitsValueOfNat(n: nat)
    ensures forall k :: 0 <= k < |NatToString(n)| ==> IsHexDigit(NatToString(n)[k])
    ensures DigitsValue(NatToString(n), 10) == n
  {
    var s := NatToString(n);
    if n >= 10 {
      DigitsValueOfNat(n / 10);
      assert s[..|s| - 1] == NatToString(n / 10);
    }
  }

  lemma {:induction false} DigitPrefixOfDigits(s: string)
    requires forall k :: 0 <= k < |s| ==> IsDigit(s[k])
    ensures DigitPrefixLen(s) == |s|
  {
    if |s| > 0 {
      DigitPrefixOfDigits(s[1..]);
    }
  }

  /** The digit part of `parseInt` on a non-zero-led run of decimal digits. */
  lemma ParseDigitsOfDigits(digits: string)
    requires |digits| >= 1 && !(|digits| > 1 && digits[0] == '0')
    requires forall k :: 0 <= k < |digits| ==> IsDigit(digits[k])
    ensures forall k :: 0 <= k < |digits| ==> IsHexDigit(digits[k])
    ensures ParseDigits(digits) == Some(DigitsValue(digits, 10))
  {
    DigitPrefixOfDigits(digits);
    assert digits[..|digits|] == digits;
  }

  /** `parseInt` on a string with no leading whitespace: the sign, then the digit part. */
  lemma ParseIntUnfold(t: string)
    requires |t| > 0 && !IsWhitespace(t[0])
    ensures t[0] == '-' ==> (ParseInt(t).Some? <==> ParseDigits(t[1..]).Some?)
    ensures t[0] == '-' && ParseInt(t).Some? ==> ParseInt(t).value == -(ParseDigits(t[1..]).value as int)
    ensures t[0] != '-' && t[0] != '+' ==> (ParseInt(t).Some? <==> ParseDigits(t).Some?)
    ensures t[0] != '-' && t[0] != '+' && ParseInt(t).Some? ==> ParseInt(t).value == ParseDigits(t).value
  {
    assert StartIndex(t, 0) == 0;
  }

  /** `parseInt` reads back the integer that `${n}` printed. */
  lemma ParseIntToString(n: int)
    ensures ParseInt(IntToString(n)) == Some(n)
  {
    var m: nat := if n < 0 then -n else n;
    var digits := NatToString(m);
    DigitsValueOfNat(m);
    ParseDigitsOfDigits(digits);
    var t := IntToString(n);
    ParseIntUnfold(t);
    if n < 0 {
      assert t[1..] == digits;
    }
  }

  lemma {:induction false} DigitPrefixThen(s: string, t: string)
    requires forall k :: 0 <= k < |s| ==> IsDigit(s[k])
    requires t == [] || !IsDigit(t[0])
    ensures DigitPrefixLen(s + t) == |s|
  {
    if |s| == 0 {
      assert s + t == t;
    } else {
      assert (s + t)[1..] == s[1..] + t;
      DigitPrefixThen(s[1..], t);
    }
  }

  /** `parseInt` stops at the first character that is not a digit: a decimal digit run
      followed by anything else reads as the run alone (after a single `0` the next
      character must not be `x` or `X`, which would select hexadecimal). */
  lemma ParseDigitsPrefix(digits: string, t: string)
    requires |digits| >= 1 && !(|digits| > 1 && digits[0] == '0')
    requires forall k :: 0 <= k < |digits| ==> IsDigit(digits[k])
    requires t == [] || !IsDigit(t[0])
    requires digits[0] == '0' ==> t == [] || (t[0] != 'x' && t[0] != 'X')
    ensures forall k :: 0 <= k < |digits| ==> IsHexDigit(digits[k])
    ensures ParseDigits(digits + t) == Some(DigitsValue(digits, 10))
  {
    var r := digits + t;
    assert r[0] == digits[0];
    assert !(|r| >= 2 && r[0] == '0' && (r[1] == 'x' || r[1] == 'X')) by {
      if |r| >= 2 && r[0] == '0' {
        assert |digits| == 1 && r[1] == t[0];
      }
    }
    DigitPrefixThen(digits, t);
    assert r[..|digits|] == digits;
  }

  lemma NatDigitsPrefix(m: nat, t: string)
    requires t == [] || !IsDigit(t[0])
    requires m == 0 ==> t == [] || (t[0] != 'x' && t[0] != 'X')
    ensures ParseDigits(NatToString(m) + t) == Some(m)
  {
    var digits := NatToString(m);
    DigitsValueOfNat(m);
    if digits[0] == '0' {
      assert |digits| == 1 && digits[..0] == [];
    }
    ParseDigitsPrefix(digits, t);
  }

  /** `parseInt` reads the integer `${n}` printed at the start of a longer text, when
      what follows is not a digit (and, after `0`, not `x` or `X`). */
  lemma ParseIntPrefix(n: int, t: string)
    requires t == [] || !IsDigit(t[0])
    requires n == 0 ==> t == [] || (t[0] != 'x' && t[0] != 'X')
    ensures ParseInt(IntToString(n) + t) == Some(n)
  {
    var m: nat := if n < 0 then -n else n;
    var d := NatToString(m);
    assert IntToString(n) == if n < 0 then "-" + d else d;
    NatDigitsPrefix(m, t);
    if n < 0 {
      ParseIntMinus(d + t, m);
      assert IntToString(n) + t == "-" + (d + t);
    } else {
      ParseIntUnsigned(d + t, m);
    }
  }

  lemma ParseIntUnsigned(u: string, v: nat)
    requires |u| > 0 && IsDigit(u[0]) && ParseDigits(u) == Some(v)
    ensures ParseInt(u) == Some(v)
  {
    assert StartIndex(u, 0) == 0;
    assert TrimStart(u) == u;
  }

  lemma ParseIntMinus(u: string, v: nat)
    requires ParseDigits(u) == Some(v)
    ensures ParseInt("-" + u) == Some(-(v as int))
  {
    var s := "-" + u;
    assert StartIndex(s, 0) == 0;
    assert TrimStart(s) == s;
    assert s[1..] == u;
  }

  /** `parseInt` gives NaN when the first character after the leading whitespace is neither
      a sign nor a digit, or when it is a sign that no digit follows. */
  lemma ParseIntNaN(s: string)
    ensures var u := TrimStart(s);
      u == [] || (u[0] != '-' && u[0] != '+' && !IsDigit(u[0])) ==> ParseInt(s).None?
    ensures var u := TrimStart(s);
      |u| >= 1 && (u[0] == '-' || u[0] == '+') && (|u| == 1 || !IsDigit(u[1])) ==> ParseInt(s).None?
  {
  }
}
