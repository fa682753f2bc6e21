/**
 * The java.lang behaviour the shop's code leans on: `trim`, `split(",")`, `Long.parseLong`,
 * `Integer.parseInt`, decimal rendering of integers, `toUpperCase`/`toLowerCase`, `contains`,
 * string ordering and 32-bit `int` arithmetic.
 */
module JavaText {
  import opened Wrappers

  const MinInt32: int := -0x8000_0000
  const MaxInt32: int := 0x7FFF_FFFF
  const MinInt64: int := -0x8000_0000_0000_0000
  const MaxInt64: int := 0x7FFF_FFFF_FFFF_FFFF

  /** The values of a Java `int` (and of a non-null `Integer`). */
  type Int32 = x: int | MinInt32 <= x <= MaxInt32

  /** Java `int` arithmetic: the exact result wrapped into 32-bit two's complement. */
  function WrapInt32(x: int): (r: Int32)
    ensures (r - x) % 0x1_0000_0000 == 0
    ensures MinInt32 <= x <= MaxInt32 ==> r == x
  {
    (x - MinInt32) % 0x1_0000_0000 + MinInt32
  }

  /** `a - b` on two Java `int`s: the difference wraps around at most once. */
  function SubInt32(a: Int32, b: Int32): (r: Int32)
    ensures MinInt32 <= a - b <= MaxInt32 ==> r == a - b
  {
    var d := a - b;
    if d > MaxInt32 then d - 0x1_0000_0000 else if d < MinInt32 then d + 0x1_0000_0000 else d
  }

  /** The single correction `SubInt32` makes is the 32-bit wrap-around. */
  lemma SubInt32Wraps(a: Int32, b: Int32)
    ensures SubInt32(a, b) == WrapInt32(a - b)
  {
  }

  // ---------------------------------------------------------------- trim / blank

  /** The characters `String.trim()` removes: every code unit at or below U+0020. */
  predicate IsTrimmed(c: char)
  {
    c <= ' '
  }

  /** Drops the leading trimmable characters. */
  function TrimStart(s: string): (r: string)
    ensures |r| <= |s| && r == s[|s| - |r|..]
    ensures r == [] || !IsTrimmed(r[0])
    ensures forall k :: 0 <= k < |s| - |r| ==> IsTrimmed(s[k])
    decreases |s|
  {
    if s != [] && IsTrimmed(s[0]) then TrimStart(s[1..]) else s
  }

  /** Drops the trailing trimmable characters. */
  function TrimEnd(s: string): (r: string)
    ensures |r| <= |s| && r == s[..|r|]
    ensures r == [] || !IsTrimmed(r[|r| - 1])
    ensures forall k :: |r| <= k < |s| ==> IsTrimmed(s[k])
    decreases |s|
  {
    if s != [] && IsTrimmed(s[|s| - 1]) then TrimEnd(s[..|s| - 1]) else s
  }

  /** `String.trim()`: the infix of `s` left after both trimmable ends are dropped. */
  function Trim(s: string): (r: string)
    ensures |r| <= |s|
    ensures r == [] || (!IsTrimmed(r[0]) && !IsTrimmed(r[|r| - 1]))
  {
    TrimEnd(TrimStart(s))
  }

  /** Trimming a trimmed string changes nothing. */
  lemma TrimIdempotent(s: string)
    ensures Trim(Trim(s)) == Trim(s)
  {
    var t := Trim(s);
    assert TrimStart(t) == t;
    assert TrimEnd(t) == t;
  }

  /** `s.trim().isEmpty()`. */
  predicate IsBlank(s: string)
  {
    Trim(s) == []
  }

  /** `s == null || s.trim().isEmpty()`, the guard the controllers put on request parameters. */
  predicate IsNullOrBlank(s: Option<string>)
  {
    s.None? || IsBlank(s.value)
  }

  /** A string is blank exactly when every one of its characters is trimmable. */
  lemma BlankIffAllTrimmed(s: string)
    ensures IsBlank(s) <==> forall k :: 0 <= k < |s| ==> IsTrimmed(s[k])
  {
    var t := TrimStart(s);
    if t != [] {
      assert !IsTrimmed(t[0]);
      assert !IsTrimmed(s[|s| - |t|]);
    }
  }

  // ---------------------------------------------------------------- split

  /** The first position of `c` in `s`. */
  function IndexOf(s: string, c: char): (i: nat)
    requires c in s
    ensures i < |s| && s[i] == c && c !in s[..i]
  {
    if s[0] == c then 0 else 1 + IndexOf(s[1..], c)
  }

  /** Every piece of `s` between occurrences of `sep`, empty ones included. */
  function Pieces(s: string, sep: char): (r: seq<string>)
    ensures |r| >= 1
    ensures forall k :: 0 <= k < |r| ==> sep !in r[k]
    decreases |s|
  {
    if sep !in s then [s]
    else
      var i := IndexOf(s, sep);
      [s[..i]] + Pieces(s[i + 1..], sep)
  }

  /** Glues pieces back together with `sep` between neighbours. */
  function Join(r: seq<string>, sep: char): string
  {
    if r == [] then []
    else if |r| == 1 then r[0]
    else r[0] + [sep] + Join(r[1..], sep)
  }

  /** Cutting at every separator loses nothing: joining the pieces restores the string. */
  lemma {:induction false} JoinPieces(s: string, sep: char)
    ensures Join(Pieces(s, sep), sep) == s
    decreases |s|
  {
    if sep in s {
      var i := IndexOf(s, sep);
      var rest := Pieces(s[i + 1..], sep);
      JoinPieces(s[i + 1..], sep);
      assert Pieces(s, sep) == [s[..i]] + rest;
      assert ([s[..i]] + rest)[1..] == rest;
      assert s == s[..i] + [sep] + s[i + 1..];
    }
  }

  /** Drops the empty strings at the end of `r`. */
  function DropTrailingEmpty(r: seq<string>): (t: seq<string>)
    ensures |t| <= |r| && t == r[..|t|]
    ensures t == [] || t[|t| - 1] != []
    ensures forall k :: |t| <= k < |r| ==> r[k] == []
  {
    if r == [] || r[|r| - 1] != [] then r else DropTrailingEmpty(r[..|r| - 1])
  }

  /**
   * `s.split(String.valueOf(sep))` for a one-character, non-special separator: a string without
   * the separator is its own single piece (so `""` gives `[""]`); otherwise the pieces with the
   * trailing empty ones removed (so `",,"` gives no piece at all).
   */
  function Split(s: string, sep: char): (r: seq<string>)
    ensures forall k :: 0 <= k < |r| ==> sep !in r[k]
    ensures sep !in s ==> r == [s]
    ensures sep in s ==> r == DropTrailingEmpty(Pieces(s, sep))
  {
    if sep !in s then [s] else DropTrailingEmpty(Pieces(s, sep))
  }

  /** Two separator-free pieces, the second non-empty, split back into exactly those two. */
  lemma SplitTwo(a: string, b: string, sep: char)
    requires sep !in a && sep !in b && b != []
    ensures Split(a + [sep] + b, sep) == [a, b]
  {
    var s := a + [sep] + b;
    assert sep in s by { assert s[|a|] == sep; }
    assert IndexOf(s, sep) == |a| by {
      var i := IndexOf(s, sep);
      assert forall j :: 0 <= j < |a| ==> s[j] == a[j];
      assert forall j :: 0 <= j < i ==> s[..i][j] == s[j];
    }
    assert s[..|a|] == a;
    assert s[|a| + 1..] == b;
    assert Pieces(s, sep) == [a] + Pieces(b, sep);
    assert Pieces(s, sep) == [a, b];
  }

  /** The count of commas plus one bounds the pieces `split(",")` returns. */
  lemma {:induction false} SplitLengthBound(s: string, sep: char)
    ensures |Split(s, sep)| <= |s| + 1
  {
    PiecesLength(s, sep);
  }

  lemma {:induction false} PiecesLength(s: string, sep: char)
    ensures |Pieces(s, sep)| <= |s| + 1
    decreases |s|
  {
    if sep in s {
      PiecesLength(s[IndexOf(s, sep) + 1..], sep);
    }
  }

  /** When the last piece is not empty, `split` drops nothing and joining restores the string. */
  lemma SplitJoinWhenLastNonEmpty(s: string, sep: char)
    requires s != [] && s[|s| - 1] != sep
    ensures Join(Split(s, sep), sep) == s
  {
    JoinPieces(s, sep);
    if sep in s {
      LastPiece(s, sep);
    }
  }

  lemma {:induction false} LastPiece(s: string, sep: char)
    requires s != [] && s[|s| - 1] != sep
    ensures var r := Pieces(s, sep); r[|r| - 1] != []
    decreases |s|
  {
    if sep in s {
      var i := IndexOf(s, sep);
      LastPiece(s[i + 1..], sep);
    }
  }

  // ---------------------------------------------------------------- integers

  predicate IsDigit(c: char)
  {
    '0' <= c <= '9'
  }

  predicate AllDigits(s: string)
  {
    forall k :: 0 <= k < |s| ==> IsDigit(s[k])
  }

  /** The number a run of decimal digits denotes, most significant first. */
  function DigitsValue(s: string): nat
    requires AllDigits(s)
    decreases |s|
  {
    if s == [] then 0
    else DigitsValue(s[..|s| - 1]) * 10 + ((s[|s| - 1] as int) - ('0' as int))
  }

  /** An optional `+` or `-` followed by at least one ASCII digit, read without any range limit. */
  function ParseInteger(t: string): Option<int>
  {
    if t != [] && (t[0] == '-' || t[0] == '+') then
      if |t| > 1 && AllDigits(t[1..]) then
        var v: int := DigitsValue(t[1..]);
        Some(if t[0] == '-' then -v else v)
      else None
    else if t != [] && AllDigits(t) then Some(DigitsValue(t))
    else None
  }

  /** `Long.parseLong`: `None` stands for the `NumberFormatException` (bad syntax or outside 64 bits). */
  function ParseLong(t: string): (r: Option<int>)
    ensures r.Some? ==> t != [] && MinInt64 <= r.value <= MaxInt64
  {
    var v := ParseInteger(t);
    if v.Some? && MinInt64 <= v.value <= MaxInt64 then v else None
  }

  /** `Integer.parseInt`: `None` stands for the `NumberFormatException` (bad syntax or outside 32 bits). */
  function ParseInt(t: string): (r: Option<Int32>)
    ensures r.Some? ==> t != []
  {
    var v := ParseInteger(t);
    if v.Some? && MinInt32 <= v.value <= MaxInt32 then Some(v.value) else None
  }

  function DigitChar(d: nat): (c: char)
    requires d < 10
    ensures IsDigit(c) && (c as int) - ('0' as int) == d
  {
    ('0' as int + d) as char
  }

  /** Decimal digits of a natural number, no leading zero. */
  function NatText(n: nat): (s: string)
    ensures s != [] && AllDigits(s)
    decreases n
  {
    if n < 10 then [DigitChar(n)] else NatText(n / 10) + [DigitChar(n % 10)]
  }

  /** `Long.toString` / `Integer.toString`: what string concatenation makes of an integer. */
  function IntText(n: int): (s: string)
    ensures s != []
  {
    if n < 0 then "-" + NatText(-n) else NatText(n)
  }

  /** The digits `NatText` writes read back as the same number. */
  lemma {:induction false} NatTextValue(n: nat)
    ensures DigitsValue(NatText(n)) == n
    decreases n
  {
    if n >= 10 {
      NatTextValue(n / 10);
      var s := NatText(n);
      assert s[..|s| - 1] == NatText(n / 10);
    }
  }

  /** Parsing is the inverse of rendering for every value of a `long`. */
  lemma ParseLongOfText(n: int)
    requires MinInt64 <= n <= MaxInt64
    ensures ParseLong(IntText(n)) == Some(n)
  {
    NatTextValue(if n < 0 then -n else n);
    if n < 0 {
      assert IntText(n)[1..] == NatText(-n);
    }
  }

  /** Parsing is the inverse of rendering for every value of an `int`. */
  lemma ParseIntOfText(n: Int32)
    ensures ParseInt(IntText(n)) == Some(n)
  {
    var m: int := n;
    NatTextValue(if m < 0 then -m else m);
    if m < 0 {
      assert IntText(n)[1..] == NatText(-m);
    }
  }

  /** An accepted token never holds the separator or a space: it is a sign and digits only. */
  lemma ParsedTokenHasNoSeparator(t: string, c: char)
    requires ParseInteger(t).Some?
    requires !IsDigit(c) && c != '-' && c != '+'
    ensures c !in t
  {
  }

  /** The text of an integer starts and ends with a character `trim` keeps and holds no comma. */
  lemma NotBlankNoComma(n: int)
    ensures var s := IntText(n); ',' !in s && Trim(s) == s && !IsBlank(s)
  {
    var s := IntText(n);
    assert forall k :: 0 < k < |s| ==> IsDigit(s[k]);
    assert IsDigit(s[0]) || s[0] == '-';
    assert TrimStart(s) == s;
    assert TrimEnd(s) == s;
  }

  // ---------------------------------------------------------------- case

  /** `Character.toUpperCase` on ASCII letters; every other character is kept. */
  function UpperChar(c: char): char
  {
    if 'a' <= c <= 'z' then (c as int - 32) as char else c
  }

  /** `Character.toLowerCase` on ASCII letters; every other character is kept. */
  function LowerChar(c: char): char
  {
    if 'A' <= c <= 'Z' then (c as int + 32) as char else c
  }

  function ToUpperCase(s: string): (r: string)
    ensures |r| == |s|
  {
    seq(|s|, k requires 0 <= k < |s| => UpperChar(s[k]))
  }

  function ToLowerCase(s: string): (r: string)
    ensures |r| == |s|
  {
    seq(|s|, k requires 0 <= k < |s| => LowerChar(s[k]))
  }

  /** Upper-casing twice is upper-casing once, and the result has no lower-case ASCII letter. */
  lemma ToUpperCaseIdempotent(s: string)
    ensures ToUpperCase(ToUpperCase(s)) == ToUpperCase(s)
    ensures forall k :: 0 <= k < |s| ==> !('a' <= ToUpperCase(s)[k] <= 'z')
  {
  }

  // ---------------------------------------------------------------- search and order

  /** `s.contains(t)`; also SQL `LIKE '%t%'` when `t` holds no wildcard. */
  function Contains(s: string, t: string): bool
    decreases |s|
  {
    if t <= s then true
    else if s == [] then false
    else Contains(s[1..], t)
  }

  /** `t` occurs in `s` starting at position `i`. */
  predicate OccursAt(s: string, t: string, i: int)
  {
    0 <= i <= |s| - |t| && s[i..i + |t|] == t
  }

  /** `Contains` holds exactly when `t` occurs at some position of `s`. */
  lemma {:induction false} ContainsIff(s: string, t: string)
    ensures Contains(s, t) <==> exists i :: OccursAt(s, t, i)
    decreases |s|
  {
    if t <= s {
      assert OccursAt(s, t, 0);
    } else if s == [] {
      assert forall i :: !OccursAt(s, t, i);
    } else {
      ContainsIff(s[1..], t);
      if Contains(s[1..], t) {
        var i :| OccursAt(s[1..], t, i);
        assert s[i + 1..i + 1 + |t|] == s[1..][i..i + |t|];
        assert OccursAt(s, t, i + 1);
      } else {
        forall i | 0 < i <= |s| - |t|
          ensures !OccursAt(s, t, i)
        {
          assert s[i..i + |t|] == s[1..][i - 1..i - 1 + |t|];
          assert !OccursAt(s[1..], t, i - 1);
        }
        assert !OccursAt(s, t, 0);
      }
    }
  }

  /**
   * Lexicographic order on characters, standing in for `String.compareTo`: the two agree except
   * between a supplementary character and one in U+E000..U+FFFF, which UTF-16 code units order
   * the other way round.
   */
  predicate StrLess(a: string, b: string)
    decreases |a|
  {
    if a == [] then b != []
    else if b == [] then false
    else if a[0] != b[0] then a[0] < b[0]
    else StrLess(a[1..], b[1..])
  }

  lemma {:induction false} StrLessIrreflexive(a: string)
    ensures !StrLess(a, a)
    decreases |a|
  {
    if a != [] {
      StrLessIrreflexive(a[1..]);
    }
  }

  lemma {:induction false} StrLessTransitive(a: string, b: string, c: string)
    requires StrLess(a, b) && StrLess(b, c)
    ensures StrLess(a, c)
    decreases |a|
  {
    if a != [] && b != [] && c != [] && a[0] == b[0] && b[0] == c[0] {
      StrLessTransitive(a[1..], b[1..], c[1..]);
    }
  }

  /** Any two distinct strings are ordered one way or the other. */
  lemma {:induction false} StrLessTotal(a: string, b: string)
    ensures a == b || StrLess(a, b) || StrLess(b, a)
    decreases |a|
  {
    if a != [] && b != [] && a[0] == b[0] {
      StrLessTotal(a[1..], b[1..]);
      if a[1..] == b[1..] {
        assert a == [a[0]] + a[1..] && b == [b[0]] + b[1..];
      }
    }
  }
}
