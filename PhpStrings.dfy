/**
 * The PHP string built-ins the library relies on (explode, implode, trim,
 * strtolower, strpos, str_replace, integer casts), on byte strings written as
 * `string`.  Each function states what the built-in computes; the lemmas give
 * the round trips the signing code depends on.
 */
module PhpStrings {
  import opened Wrappers

  /** strpos with a one-character needle: the first index of `c` in `s`. */
  function IndexOf(s: string, c: char): (r: Option<nat>)
    ensures r.None? <==> c !in s
    ensures r.Some? ==> r.value < |s| && s[r.value] == c && c !in s[..r.value]
  {
    if |s| == 0 then None
    else if s[0] == c then Some(0)
    else match IndexOf(s[1..], c)
      case None => None
      case Some(i) => assert s[1..][..i] == s[1..i + 1]; Some(i + 1)
  }

  /** explode(sep, s) for a one-character separator. */
  function Explode(sep: char, s: string): (parts: seq<string>)
    ensures |parts| >= 1
    ensures forall i :: 0 <= i < |parts| ==> sep !in parts[i]
    decreases |s|
  {
    match IndexOf(s, sep)
    case None => [s]
    case Some(i) => [s[..i]] + Explode(sep, s[i + 1..])
  }

  /** implode(sep, parts). */
  function Implode(sep: string, parts: seq<string>): string
  {
    if |parts| == 0 then ""
    else if |parts| == 1 then parts[0]
    else parts[0] + sep + Implode(sep, parts[1..])
  }

  /** Joining what explode split gives back the original string. */
  lemma {:induction false} ImplodeExplode(sep: char, s: string)
    ensures Implode([sep], Explode(sep, s)) == s
    decreases |s|
  {
    match IndexOf(s, sep)
    case None =>
    case Some(i) =>
      var rest := s[i + 1..];
      var parts := Explode(sep, rest);
      ImplodeExplode(sep, rest);
      var all := [s[..i]] + parts;
      assert Explode(sep, s) == all;
      assert all[0] == s[..i] && all[1..] == parts && |all| >= 2;
      calc {
        Implode([sep], all);
        s[..i] + [sep] + Implode([sep], parts);
        s[..i] + [sep] + rest;
        { assert s[i] == sep; }
        s;
      }
  }

  /** Splitting a join gives back the parts, provided no part holds the separator. */
  lemma {:induction false} ExplodeImplode(sep: char, parts: seq<string>)
    requires |parts| >= 1
    requires forall i :: 0 <= i < |parts| ==> sep !in parts[i]
    ensures Explode(sep, Implode([sep], parts)) == parts
    decreases |parts|
  {
    if |parts| == 1 {
      assert IndexOf(parts[0], sep).None?;
    } else {
      var s := Implode([sep], parts);
      var tail := Implode([sep], parts[1..]);
      assert s == parts[0] + [sep] + tail;
      var i := |parts[0]|;
      assert s[i] == sep;
      assert s[..i] == parts[0];
      assert IndexOf(s, sep) == Some(i);
      assert s[i + 1..] == tail;
      ExplodeImplode(sep, parts[1..]);
    }
  }

  /** The first separator of `a + [c] + b` is the one after `a` when `a` has none. */
  lemma {:induction false} IndexOfAfter(a: string, c: char, b: string)
    requires c !in a
    ensures IndexOf(a + [c] + b, c) == Some(|a|)
    decreases |a|
  {
    if |a| > 0 {
      assert (a + [c] + b)[1..] == a[1..] + [c] + b;
      IndexOfAfter(a[1..], c, b);
    }
  }

  /** A separator found in `a` is still the first one once text is appended. */
  lemma {:induction false} IndexOfExtend(a: string, t: string, c: char)
    requires IndexOf(a, c).Some?
    ensures IndexOf(a + t, c) == IndexOf(a, c)
    decreases |a|
  {
    if a[0] != c {
      assert (a + t)[1..] == a[1..] + t;
      IndexOfExtend(a[1..], t, c);
    }
  }

  /** Splitting a string joined at a separator splits each side. */
  lemma {:induction false} ExplodeJoin(sep: char, a: string, b: string)
    ensures Explode(sep, a + [sep] + b) == Explode(sep, a) + Explode(sep, b)
    decreases |a|
  {
    if sep !in a {
      ExplodeJoinPlain(sep, a, b);
    } else {
      var i := IndexOf(a, sep).value;
      ExplodeJoin(sep, a[i + 1..], b);
      ExplodeJoinCombine(sep, a, b, i);
    }
  }

  lemma ExplodeJoinCombine(sep: char, a: string, b: string, i: nat)
    requires IndexOf(a, sep) == Some(i)
    requires Explode(sep, a[i + 1..] + [sep] + b) == Explode(sep, a[i + 1..]) + Explode(sep, b)
    ensures Explode(sep, a + [sep] + b) == Explode(sep, a) + Explode(sep, b)
  {
    ExplodeJoinStep(sep, a, b, i);
    ConsAppend(Explode(sep, a + [sep] + b), Explode(sep, a), a[..i],
               Explode(sep, a[i + 1..] + [sep] + b), Explode(sep, a[i + 1..]), Explode(sep, b));
  }

  /** Concatenation is associative (stated once, for any element type). */
  lemma AppendAssoc<T>(a: seq<T>, b: seq<T>, c: seq<T>)
    ensures a + (b + c) == (a + b) + c
  {
  }

  lemma ConsAppend<T>(e: seq<T>, ea: seq<T>, x: T, m: seq<T>, l: seq<T>, r: seq<T>)
    requires e == [x] + m && m == l + r && ea == [x] + l
    ensures e == ea + r
  {
  }

  lemma ExplodeJoinPlain(sep: char, a: string, b: string)
    requires sep !in a
    ensures Explode(sep, a + [sep] + b) == [a] + Explode(sep, b)
    ensures Explode(sep, a) == [a]
  {
    var s := a + [sep] + b;
    IndexOfAfter(a, sep, b);
    assert s[..|a|] == a && s[|a| + 1..] == b;
  }

  lemma ExplodeJoinStep(sep: char, a: string, b: string, i: nat)
    requires IndexOf(a, sep) == Some(i)
    ensures Explode(sep, a + [sep] + b) == [a[..i]] + Explode(sep, a[i + 1..] + [sep] + b)
    ensures Explode(sep, a) == [a[..i]] + Explode(sep, a[i + 1..])
  {
    JoinSlices(a, sep, b, i);
    IndexOfExtend(a, [sep] + b, sep);
    ExplodeAt(sep, a + [sep] + b, i);
    ExplodeAt(sep, a, i);
  }

  lemma JoinSlices(a: string, c: char, b: string, i: nat)
    requires i < |a|
    ensures a + [c] + b == a + ([c] + b)
    ensures (a + [c] + b)[..i] == a[..i]
    ensures (a + [c] + b)[i + 1..] == a[i + 1..] + [c] + b
  {
  }

  /** Unfolding explode at its first separator. */
  lemma ExplodeAt(sep: char, s: string, i: nat)
    requires IndexOf(s, sep) == Some(i)
    ensures Explode(sep, s) == [s[..i]] + Explode(sep, s[i + 1..])
  {
  }

  /** explode(sep, s, 2): the text before the first separator and, if there is one, the rest. */
  function SplitFirst(sep: char, s: string): (r: (string, Option<string>))
    ensures r.1.None? <==> sep !in s
    ensures r.1.None? ==> r.0 == s
    ensures r.1.Some? ==> s == r.0 + [sep] + r.1.value && sep !in r.0
  {
    match IndexOf(s, sep)
    case None => (s, None)
    case Some(i) => (s[..i], Some(s[i + 1..]))
  }

  /** `sub` occurs somewhere in `s` (strpos(s, sub) !== false; the empty needle is found). */
  predicate Contains(sub: string, s: string)
    decreases |s|
  {
    sub <= s || (|s| > 0 && Contains(sub, s[1..]))
  }

  /** The default character list of trim(). */
  const Whitespace: set<char> := {' ', '\t', '\n', '\r', '\0', 11 as char}

  /** ltrim(s, chars). */
  function TrimLeft(s: string, chars: set<char>): (r: string)
    ensures |r| <= |s| && r == s[|s| - |r|..]
    ensures forall i :: 0 <= i < |s| - |r| ==> s[i] in chars
    ensures |r| > 0 ==> r[0] !in chars
    decreases |s|
  {
    if |s| > 0 && s[0] in chars then TrimLeft(s[1..], chars) else s
  }

  /** rtrim(s, chars). */
  function TrimRight(s: string, chars: set<char>): (r: string)
    ensures |r| <= |s| && r == s[..|r|]
    ensures forall i :: |r| <= i < |s| ==> s[i] in chars
    ensures |r| > 0 ==> r[|r| - 1] !in chars
    decreases |s|
  {
    if |s| > 0 && s[|s| - 1] in chars then TrimRight(s[..|s| - 1], chars) else s
  }

  /** trim(s, chars): the longest middle part of `s` that neither starts nor ends with a character of `chars`. */
  function Trim(s: string, chars: set<char>): (r: string)
    ensures |r| > 0 ==> r[0] !in chars && r[|r| - 1] !in chars
    ensures |r| <= |TrimLeft(s, chars)| <= |s|
    ensures forall i :: 0 <= i < |s| - |TrimLeft(s, chars)| ==> s[i] in chars
    ensures r == s[|s| - |TrimLeft(s, chars)|..][..|r|]
  {
    TrimRight(TrimLeft(s, chars), chars)
  }

  /** Trimming twice trims nothing more. */
  lemma TrimIdempotent(s: string, chars: set<char>)
    ensures Trim(Trim(s, chars), chars) == Trim(s, chars)
  {
    var r := Trim(s, chars);
    assert TrimLeft(r, chars) == r;
  }

  /** A string with no character of `chars` is its own trim. */
  lemma TrimNothing(s: string, chars: set<char>)
    requires forall c :: c in s ==> c !in chars
    ensures Trim(s, chars) == s
  {
    assert TrimLeft(s, chars) == s;
  }

  /** ltrim of a string with one trimmed character appended. */
  lemma {:induction false} TrimLeftSnoc(x: string, c: char, chars: set<char>)
    requires c in chars
    ensures TrimLeft(x + [c], chars) == if TrimLeft(x, chars) == "" then "" else TrimLeft(x, chars) + [c]
    decreases |x|
  {
    if |x| == 0 {
      assert (x + [c])[1..] == [];
    } else if x[0] in chars {
      assert (x + [c])[1..] == x[1..] + [c];
      TrimLeftSnoc(x[1..], c, chars);
    } else {
      assert (x + [c])[0] == x[0];
    }
  }

  /** A trailing character of `chars` makes no difference to trim. */
  lemma TrimSnoc(x: string, c: char, chars: set<char>)
    requires c in chars
    ensures Trim(x + [c], chars) == Trim(x, chars)
  {
    TrimLeftSnoc(x, c, chars);
    var y := TrimLeft(x, chars);
    if y != "" {
      assert (y + [c])[..|y|] == y;
    }
  }

  /** Joining the first `n` parts gives a prefix of joining them all. */
  lemma {:induction false} ImplodePrefix(sep: string, parts: seq<string>, n: nat)
    requires n <= |parts|
    ensures Implode(sep, parts[..n]) <= Implode(sep, parts)
    decreases n
  {
    if n == |parts| {
      assert parts[..n] == parts;
    } else if n >= 2 {
      assert parts[..n][1..] == parts[1..][..n - 1];
      ImplodePrefix(sep, parts[1..], n - 1);
    }
  }

  /** strtolower on one byte (ASCII only, as PHP 8.2 and later do). */
  function LowerChar(c: char): char
  {
    if 'A' <= c <= 'Z' then (c as int + 32) as char else c
  }

  /** strtolower. */
  function Lower(s: string): (r: string)
    ensures |r| == |s|
    ensures forall i :: 0 <= i < |s| ==> r[i] == LowerChar(s[i])
  {
    if |s| == 0 then "" else [LowerChar(s[0])] + Lower(s[1..])
  }

  /**
   * str_replace(search, replace, subject): every occurrence, left to right,
   * without overlaps; a subject without the search text comes back as it is.
   */
  function StrReplace(search: string, replace: string, subject: string): (r: string)
    requires |search| > 0
    ensures !Contains(search, subject) ==> r == subject
    decreases |subject|
  {
    if |subject| < |search| then subject
    else if subject[..|search|] == search then replace + StrReplace(search, replace, subject[|search|..])
    else
      assert subject == [subject[0]] + subject[1..];
      [subject[0]] + StrReplace(search, replace, subject[1..])
  }

  /** A text shorter than `sub` does not contain it. */
  lemma {:induction false} ContainsLength(sub: string, s: string)
    requires Contains(sub, s)
    ensures |sub| <= |s|
    decreases |s|
  {
    if !(sub <= s) {
      ContainsLength(sub, s[1..]);
    }
  }

  /**
   * The first occurrence is replaced and scanning resumes after it: the
   * replacement text is never searched again, and nothing before the
   * occurrence changes.
   */
  lemma {:induction false} StrReplaceFirst(search: string, replace: string, pre: string, post: string)
    requires |search| > 0
    requires !Contains(search, pre + search[..|search| - 1])
    ensures StrReplace(search, replace, pre + search + post) == pre + replace + StrReplace(search, replace, post)
    decreases |pre|
  {
    if |pre| == 0 {
      assert pre + search + post == search + post;
      StrReplaceMatch(search, replace, post);
    } else {
      ContainsNoneStep(search, pre);
      StrReplaceFirst(search, replace, pre[1..], post);
      StrReplaceSkip(search, replace, pre, post);
      ConsSplit(pre, replace, StrReplace(search, replace, post));
    }
  }

  /** Dropping the first character of a text without the needle leaves a text without it. */
  lemma ContainsNoneStep(search: string, pre: string)
    requires |search| > 0 && |pre| > 0
    requires !Contains(search, pre + search[..|search| - 1])
    ensures !(search <= pre + search[..|search| - 1])
    ensures !Contains(search, pre[1..] + search[..|search| - 1])
  {
    assert (pre + search[..|search| - 1])[1..] == pre[1..] + search[..|search| - 1];
  }

  /** A text that starts with the needle has it replaced and is scanned after it. */
  lemma StrReplaceMatch(search: string, replace: string, post: string)
    requires |search| > 0
    ensures StrReplace(search, replace, search + post) == replace + StrReplace(search, replace, post)
  {
    var subject := search + post;
    assert subject[..|search|] == search && subject[|search|..] == post;
  }

  /** A text that does not start with the needle keeps its first character and is scanned from the next. */
  lemma StrReplaceSkip(search: string, replace: string, pre: string, post: string)
    requires |search| > 0 && |pre| > 0
    requires !(search <= pre + search[..|search| - 1])
    ensures StrReplace(search, replace, pre + search + post) == [pre[0]] + StrReplace(search, replace, pre[1..] + search + post)
  {
    var subject := pre + search + post;
    assert subject[..|search|] == (pre + search[..|search| - 1])[..|search|];
    assert subject[1..] == pre[1..] + search + post;
  }

  /** Splitting off the first element of a concatenation. */
  lemma ConsSplit<T>(p: seq<T>, q: seq<T>, x: seq<T>)
    requires |p| > 0
    ensures [p[0]] + (p[1..] + q + x) == p + q + x
  {
    assert p == [p[0]] + p[1..];
  }

  /** A needle starting with ':' found in a text whose prefix has no ':' is found in the rest. */
  lemma {:induction false} ContainsAfterColonFree(search: string, pre: string, t: string)
    requires |search| > 0 && search[0] == ':' && ':' !in pre
    requires Contains(search, pre + t)
    ensures Contains(search, t)
    decreases |pre|
  {
    if |pre| > 0 {
      assert (pre + t)[0] == pre[0];
      assert !(search <= pre + t);
      assert (pre + t)[1..] == pre[1..] + t;
      ContainsAfterColonFree(search, pre[1..], t);
    } else {
      assert pre + t == t;
    }
  }

  /** str_replace with a one-character search and replacement. */
  function ReplaceChar(s: string, from: char, to: char): (r: string)
    ensures |r| == |s|
    ensures forall i :: 0 <= i < |s| ==> r[i] == (if s[i] == from then to else s[i])
  {
    if |s| == 0 then "" else [if s[0] == from then to else s[0]] + ReplaceChar(s[1..], from, to)
  }

  /** str_replace of one character works piecewise. */
  lemma ReplaceCharConcat(a: string, b: string, from: char, to: char)
    ensures ReplaceChar(a + b, from, to) == ReplaceChar(a, from, to) + ReplaceChar(b, from, to)
  {
    var l := ReplaceChar(a + b, from, to);
    var r := ReplaceChar(a, from, to) + ReplaceChar(b, from, to);
    assert forall i | 0 <= i < |l| :: l[i] == r[i];
  }

  predicate IsDigit(c: char) { '0' <= c <= '9' }

  function DigitChar(d: nat): char
    requires d < 10
  {
    ('0' as int + d) as char
  }

  /** The decimal text of a natural number, as PHP prints integers. */
  function NatToString(n: nat): (r: string)
    ensures |r| > 0 && forall i :: 0 <= i < |r| ==> IsDigit(r[i])
  {
    if n < 10 then [DigitChar(n)] else NatToString(n / 10) + [DigitChar(n % 10)]
  }

  /** (string) of an integer. */
  function IntToString(n: int): (r: string)
    ensures |r| > 0
  {
    if n >= 0 then NatToString(n) else "-" + NatToString(-n)
  }

  /** The value of one decimal digit. */
  function DigitValue(c: char): (r: nat)
    requires IsDigit(c)
    ensures r < 10
  {
    c as int - '0' as int
  }

  /** The value of a run of decimal digits (it is only applied to digits; anything else would count as 0). */
  function DigitsValue(d: string): nat
  {
    if |d| == 0 then 0
    else DigitsValue(d[..|d| - 1]) * 10 + (if IsDigit(d[|d| - 1]) then DigitValue(d[|d| - 1]) else 0)
  }

  /** The longest prefix of `s` made of digits. */
  function LeadingDigits(s: string): (r: string)
    ensures |r| <= |s|
  {
    if |s| > 0 && IsDigit(s[0]) then [s[0]] + LeadingDigits(s[1..]) else ""
  }

  /** The leading digits are a prefix, all digits, and stop at the first non-digit. */
  lemma {:induction false} LeadingDigitsRun(s: string)
    ensures LeadingDigits(s) <= s
    ensures forall i :: 0 <= i < |LeadingDigits(s)| ==> IsDigit(LeadingDigits(s)[i])
    ensures |LeadingDigits(s)| < |s| ==> !IsDigit(s[|LeadingDigits(s)|])
    decreases |s|
  {
    if |s| > 0 && IsDigit(s[0]) {
      LeadingDigitsRun(s[1..]);
    }
  }

  /** Whitespace that PHP skips before (and, in a numeric string, after) a number. */
  predicate IsNumericSpace(c: char)
  {
    c == ' ' || c == '\t' || c == '\n' || c == '\r' || c == 11 as char || c == 12 as char
  }

  /** The string without its leading numeric whitespace. */
  function SkipSpace(s: string): (r: string)
    ensures |r| <= |s|
  {
    if |s| > 0 && IsNumericSpace(s[0]) then SkipSpace(s[1..]) else s
  }

  /** The string is numeric whitespace only. */
  predicate AllSpace(s: string)
  {
    |s| == 0 || (IsNumericSpace(s[0]) && AllSpace(s[1..]))
  }

  /** PHP_INT_MAX and PHP_INT_MIN of a 64-bit build. */
  const MaxLong: int := 0x7FFF_FFFF_FFFF_FFFF
  const MinLong: int := -0x8000_0000_0000_0000

  /**
   * The least magnitude that correctly rounded parsing into an IEEE 754 double
   * turns into infinity: 2^1024 - 2^970, half-way between the largest double
   * and 2^1024.
   */
  const DoubleOverflow: nat := 0xFFFF_FFFF_FFFF_FC00_0000_0000_0000_0000_0000_0000_0000_0000_0000_0000_0000_0000_0000_0000_0000_0000_0000_0000_0000_0000_0000_0000_0000_0000_0000_0000_0000_0000_0000_0000_0000_0000_0000_0000_0000_0000_0000_0000_0000_0000_0000_0000_0000_0000_0000_0000_0000_0000_0000_0000_0000_0000_0000_0000_0000_0000_0000_0000_0000_0000

  function Pow10(n: nat): (r: nat)
    ensures r >= 1
  {
    if n == 0 then 1 else 10 * Pow10(n - 1)
  }

  /**
   * A number read from the head of a string: the value
   * `(-1)^negative * mantissa * 10^scale`, spelled by its first `length`
   * characters.
   */
  datatype Numeral = Numeral(negative: bool, mantissa: nat, scale: int, length: nat)

  /** An exponent read after a mantissa: its value and the number of characters spelling it. */
  datatype Exponent = Exponent(value: int, length: nat)

  /** The optional exponent (`e` or `E`, an optional sign, digits) at the head of `s`; length 0 when absent. */
  function ExponentPart(s: string): (r: Exponent)
    ensures r.length <= |s|
    ensures r.length == 0 <==> !(|s| >= 2 && (s[0] == 'e' || s[0] == 'E') &&
                                 (IsDigit(s[1]) || (|s| >= 3 && (s[1] == '+' || s[1] == '-') && IsDigit(s[2]))))
  {
    if |s| < 2 || (s[0] != 'e' && s[0] != 'E') then Exponent(0, 0)
    else if IsDigit(s[1]) then
      var d := LeadingDigits(s[1..]);
      Exponent(DigitsValue(d), 1 + |d|)
    else if |s| >= 3 && (s[1] == '+' || s[1] == '-') && IsDigit(s[2]) then
      var d := LeadingDigits(s[2..]);
      Exponent(if s[1] == '-' then 0 - DigitsValue(d) else DigitsValue(d), 2 + |d|)
    else Exponent(0, 0)
  }

  /** The numeral spelled by `digits`, of which the last `fracLen` follow the point, then the exponent at the head of `tail`. */
  function Finish(digits: string, fracLen: nat, mantLen: nat, tail: string): (n: Numeral)
    ensures !n.negative && mantLen <= n.length <= mantLen + |tail|
  {
    var exp := ExponentPart(tail);
    Numeral(false, DigitsValue(digits), exp.value - fracLen, mantLen + exp.length)
  }

  /** The unsigned number made of the digits `whole` and what follows them. */
  function ScanAfterWhole(whole: string, rest: string): (r: Option<Numeral>)
    ensures r.Some? ==> 0 < r.value.length <= |whole| + |rest| && !r.value.negative
    ensures r.None? <==> |whole| == 0 && !(|rest| > 1 && rest[0] == '.' && IsDigit(rest[1]))
  {
    if |rest| > 0 && rest[0] == '.' then
      var frac := LeadingDigits(rest[1..]);
      if |whole| == 0 && |frac| == 0 then None
      else
        Some(Finish(whole + frac, |frac|, |whole| + 1 + |frac|, rest[1 + |frac|..]))
    else if |whole| == 0 then None
    else Some(Finish(whole, 0, |whole|, rest))
  }

  /**
   * The unsigned number at the head of `u`: digits with an optional '.' and
   * fraction (at least one digit on either side of the point), then an
   * optional exponent; `None` when `u` does not start with one.
   */
  function ScanUnsigned(u: string): (r: Option<Numeral>)
    ensures r.Some? ==> 0 < r.value.length <= |u| && !r.value.negative
    ensures r.None? <==> !((|u| > 0 && IsDigit(u[0])) || (|u| > 1 && u[0] == '.' && IsDigit(u[1])))
  {
    var whole := LeadingDigits(u);
    ScanAfterWhole(whole, u[|whole|..])
  }

  /** The number at the head of `t` in PHP's numeric-string grammar: an optional sign, then an unsigned number. */
  function ScanNumber(t: string): (r: Option<Numeral>)
    ensures r.Some? ==> 0 < r.value.length <= |t|
  {
    if |t| > 0 && (t[0] == '-' || t[0] == '+') then
      match ScanUnsigned(t[1..])
      case None => None
      case Some(n) => Some(n.(negative := t[0] == '-', length := n.length + 1))
    else ScanUnsigned(t)
  }

  /** The integer part of the numeral's magnitude. */
  function Truncated(n: Numeral): (r: nat)
    ensures n.scale == 0 ==> r == n.mantissa
  {
    if n.scale == 0 then n.mantissa
    else if n.scale > 0 then n.mantissa * Pow10(n.scale)
    else DropDigits(n.mantissa, -n.scale)
  }

  /** `m` without its last `k` decimal digits: `m / 10^k`. */
  function DropDigits(m: nat, k: nat): nat
  {
    if k == 0 then m else DropDigits(m / 10, k - 1)
  }

  /**
   * The numeral converted to `int`: a magnitude past the largest double gives
   * 0; otherwise the value is truncated toward zero and saturated at
   * PHP_INT_MIN and PHP_INT_MAX.
   */
  function ToLong(n: Numeral): (r: int)
    ensures MinLong <= r <= MaxLong
    ensures MinLong <= Truncated(n) * (if n.negative then -1 else 1) <= MaxLong
            ==> r == Truncated(n) * (if n.negative then -1 else 1)
  {
    var m := Truncated(n);
    var v := if n.negative then 0 - m else m;
    if m >= DoubleOverflow then 0
    else if v < MinLong then MinLong
    else if v > MaxLong then MaxLong
    else v
  }

  /**
   * (int) and intval() of a string: the number after leading whitespace, read
   * up to the first character that cannot continue it; 0 when there is none.
   */
  function IntVal(s: string): (r: int)
    ensures MinLong <= r <= MaxLong
  {
    match ScanNumber(SkipSpace(s))
    case None => 0
    case Some(n) => ToLong(n)
  }

  /**
   * The number a numeric string stands for: leading whitespace, a number,
   * trailing whitespace and nothing else (the PHP 8 rule); `None` for any
   * other string.
   */
  function NumericValue(s: string): (r: Option<Numeral>)
  {
    var t := SkipSpace(s);
    match ScanNumber(t)
    case None => None
    case Some(n) => if AllSpace(t[n.length..]) then Some(n) else None
  }

  /** The two numerals denote the same number. */
  predicate SameNumber(a: Numeral, b: Numeral)
  {
    if a.mantissa == 0 || b.mantissa == 0 then a.mantissa == b.mantissa
    else
      a.negative == b.negative &&
      if a.scale <= b.scale then a.mantissa == b.mantissa * Pow10(b.scale - a.scale)
      else a.mantissa * Pow10(a.scale - b.scale) == b.mantissa
  }

  /** `$a == $b` on two strings: as numbers when both are numeric strings, otherwise byte for byte. */
  predicate LooseEquals(a: string, b: string)
  {
    var x, y := NumericValue(a), NumericValue(b);
    if x.Some? && y.Some? then SameNumber(x.value, y.value) else a == b
  }

  /** `in_array($needle, $haystack)` without the strict flag, on strings. */
  predicate LooselyIn(needle: string, haystack: seq<string>)
  {
    exists i :: 0 <= i < |haystack| && LooseEquals(haystack[i], needle)
  }

  lemma {:induction false} DigitsValueOfNat(n: nat)
    ensures DigitsValue(NatToString(n)) == n
  {
    var s := NatToString(n);
    if n >= 10 {
      DigitsValueOfNat(n / 10);
      assert s[..|s| - 1] == NatToString(n / 10);
    }
  }

  lemma {:induction false} LeadingDigitsOfDigits(s: string)
    requires forall i :: 0 <= i < |s| ==> IsDigit(s[i])
    ensures LeadingDigits(s) == s
    decreases |s|
  {
    if |s| > 0 {
      LeadingDigitsOfDigits(s[1..]);
    }
  }

  /** A run of digits reads as an integer numeral spelled by the whole run. */
  lemma ScanDigits(d: string)
    requires |d| > 0 && forall i :: 0 <= i < |d| ==> IsDigit(d[i])
    ensures ScanUnsigned(d) == Some(Numeral(false, DigitsValue(d), 0, |d|))
  {
    LeadingDigitsOfDigits(d);
    assert d[|d|..] == "";
    assert ScanUnsigned(d) == ScanAfterWhole(d, "");
    assert Finish(d, 0, |d|, "") == Numeral(false, DigitsValue(d), 0, |d|) by {
      assert ExponentPart("") == Exponent(0, 0);
    }
  }

  /** Reading back the decimal text of a natural number within PHP_INT_MAX gives the number. */
  lemma IntValOfNat(n: nat)
    requires n <= MaxLong
    ensures IntVal(NatToString(n)) == n
  {
    var s := NatToString(n);
    assert IsDigit(s[0]);
    assert !IsNumericSpace(s[0]);
    assert SkipSpace(s) == s;
    ScanDigits(s);
    DigitsValueOfNat(n);
  }

  /** Reading back the decimal text of any PHP integer gives the integer. */
  lemma IntValOfInt(n: int)
    requires MinLong <= n <= MaxLong
    ensures IntVal(IntToString(n)) == n
  {
    if n >= 0 {
      IntValOfNat(n);
    } else {
      var d := NatToString(-n);
      var s := "-" + d;
      assert s[0] == '-' && !IsNumericSpace('-');
      assert SkipSpace(s) == s;
      assert s[1..] == d;
      ScanDigits(d);
      DigitsValueOfNat(-n);
    }
  }

  /** The leading digits of `d + rest` stop where `rest` starts with a non-digit. */
  lemma {:induction false} LeadingDigitsStop(d: string, rest: string)
    requires forall i :: 0 <= i < |d| ==> IsDigit(d[i])
    requires |rest| > 0 && !IsDigit(rest[0])
    ensures LeadingDigits(d + rest) == d
    decreases |d|
  {
    if |d| > 0 {
      assert (d + rest)[1..] == d[1..] + rest;
      LeadingDigitsStop(d[1..], rest);
    } else {
      assert d + rest == rest;
    }
  }

  /** After a non-empty run of digits, the scan goes on with what follows them. */
  lemma ScanAfterDigits(d: string, rest: string)
    requires |d| > 0 && forall i :: 0 <= i < |d| ==> IsDigit(d[i])
    requires |rest| > 0 && !IsDigit(rest[0])
    ensures ScanUnsigned(d + rest) == ScanAfterWhole(d, rest)
  {
    LeadingDigitsStop(d, rest);
    assert (d + rest)[|d|..] == rest;
  }

  /** Digits not followed by a point are the whole mantissa. */
  lemma WholeWithoutPoint(d: string, rest: string)
    requires |d| > 0 && forall i :: 0 <= i < |d| ==> IsDigit(d[i])
    requires |rest| == 0 || rest[0] != '.'
    ensures ScanAfterWhole(d, rest) == Some(Finish(d, 0, |d|, rest))
  {
  }

  /** `e` then digits is an exponent of that value. */
  lemma ExponentOfDigits(e: string, t: string)
    requires |e| > 0 && forall i :: 0 <= i < |e| ==> IsDigit(e[i])
    requires t == "e" + e
    ensures ExponentPart(t) == Exponent(DigitsValue(e), 1 + |e|)
  {
    LeadingDigitsOfDigits(e);
    assert t[1..] == e;
  }

  /** The numeral ends with the exponent that follows the mantissa. */
  lemma FinishWith(d: string, tail: string, x: Exponent)
    requires forall i :: 0 <= i < |d| ==> IsDigit(d[i])
    requires ExponentPart(tail) == x
    ensures Finish(d, 0, |d|, tail) == Numeral(false, DigitsValue(d), x.value, |d| + x.length)
  {
  }

  /** Digits, `e` and exponent digits read as `mantissa * 10^exponent`. */
  lemma ScanExponent(d: string, e: string, u: string)
    requires |d| > 0 && forall i :: 0 <= i < |d| ==> IsDigit(d[i])
    requires |e| > 0 && forall i :: 0 <= i < |e| ==> IsDigit(e[i])
    requires u == d + "e" + e
    ensures ScanUnsigned(u) == Some(Numeral(false, DigitsValue(d), DigitsValue(e), |d| + 1 + |e|))
  {
    ScanExponentOf(d, e, "e" + e, u);
  }

  lemma ScanExponentOf(d: string, e: string, t: string, u: string)
    requires |d| > 0 && forall i :: 0 <= i < |d| ==> IsDigit(d[i])
    requires |e| > 0 && forall i :: 0 <= i < |e| ==> IsDigit(e[i])
    requires t == "e" + e && u == d + t
    ensures ScanUnsigned(u) == Some(Numeral(false, DigitsValue(d), DigitsValue(e), |d| + 1 + |e|))
  {
    assert t[0] == 'e';
    ScanDigitsThen(d, t);
    FinishExponent(d, e, t);
  }

  /** Digits followed by neither a digit nor a point are scanned as a whole number, then an exponent. */
  lemma ScanDigitsThen(d: string, t: string)
    requires |d| > 0 && forall i :: 0 <= i < |d| ==> IsDigit(d[i])
    requires |t| > 0 && !IsDigit(t[0]) && t[0] != '.'
    ensures ScanUnsigned(d + t) == Some(Finish(d, 0, |d|, t))
  {
    ScanAfterDigits(d, t);
    WholeWithoutPoint(d, t);
  }

  /** A whole number followed by `e` and digits is scaled by those digits' value. */
  lemma FinishExponent(d: string, e: string, t: string)
    requires |e| > 0 && forall i :: 0 <= i < |e| ==> IsDigit(e[i])
    requires t == "e" + e
    ensures Finish(d, 0, |d|, t) == Numeral(false, DigitsValue(d), DigitsValue(e), |d| + 1 + |e|)
  {
    ExponentOfDigits(e, t);
  }

  /** A point and fraction digits that run to the end make the mantissa, with no exponent. */
  lemma WholeWithFraction(d: string, f: string, t: string)
    requires |d| > 0 && forall i :: 0 <= i < |d| ==> IsDigit(d[i])
    requires forall i :: 0 <= i < |f| ==> IsDigit(f[i])
    requires t == "." + f
    ensures forall i :: 0 <= i < |d + f| ==> IsDigit((d + f)[i])
    ensures ScanAfterWhole(d, t) == Some(Numeral(false, DigitsValue(d + f), 0 - |f|, |d| + 1 + |f|))
  {
    LeadingDigitsOfDigits(f);
    assert t[1..] == f;
    assert t[1 + |f|..] == "";
    assert ExponentPart("") == Exponent(0, 0);
  }

  /** Digits, '.' and fraction digits read as the digits together, scaled down by the fraction's length. */
  lemma ScanFraction(d: string, f: string, u: string)
    requires |d| > 0 && forall i :: 0 <= i < |d| ==> IsDigit(d[i])
    requires forall i :: 0 <= i < |f| ==> IsDigit(f[i])
    requires u == d + "." + f
    ensures forall i :: 0 <= i < |d + f| ==> IsDigit((d + f)[i])
    ensures ScanUnsigned(u) == Some(Numeral(false, DigitsValue(d + f), 0 - |f|, |d| + 1 + |f|))
  {
    ScanFractionOf(d, f, "." + f, u);
  }

  lemma ScanFractionOf(d: string, f: string, t: string, u: string)
    requires |d| > 0 && forall i :: 0 <= i < |d| ==> IsDigit(d[i])
    requires forall i :: 0 <= i < |f| ==> IsDigit(f[i])
    requires t == "." + f && u == d + t
    ensures forall i :: 0 <= i < |d + f| ==> IsDigit((d + f)[i])
    ensures ScanUnsigned(u) == Some(Numeral(false, DigitsValue(d + f), 0 - |f|, |d| + 1 + |f|))
  {
    ScanAfterDigits(d, t);
    WholeWithFraction(d, f, t);
  }

  /** (int) of digits with an exponent: the number they spell, saturated at PHP_INT_MAX. */
  lemma IntValExponent(d: string, e: string, s: string)
    requires |d| > 0 && forall i :: 0 <= i < |d| ==> IsDigit(d[i])
    requires |e| > 0 && forall i :: 0 <= i < |e| ==> IsDigit(e[i])
    requires s == d + "e" + e
    requires DigitsValue(d) * Pow10(DigitsValue(e)) < DoubleOverflow
    ensures IntVal(s) == if DigitsValue(d) * Pow10(DigitsValue(e)) > MaxLong then MaxLong
                                   else DigitsValue(d) * Pow10(DigitsValue(e))
  {
    assert s[0] == d[0];
    ScanExponent(d, e, s);
    var n := Numeral(false, DigitsValue(d), DigitsValue(e), |d| + 1 + |e|);
    IntValOfUnsigned(s, n);
    ToLongScaled(n);
  }

  /** A non-negative numeral with a non-negative scale converts to its value, capped at PHP_INT_MAX. */
  lemma ToLongScaled(n: Numeral)
    requires !n.negative && n.scale >= 0
    requires n.mantissa * Pow10(n.scale) < DoubleOverflow
    ensures ToLong(n) == if n.mantissa * Pow10(n.scale) > MaxLong then MaxLong else n.mantissa * Pow10(n.scale)
  {
    if n.scale == 0 {
      assert Pow10(0) == 1;
    }
  }

  /** Dropping the fraction's digits from the value of whole and fraction digits leaves the whole part. */
  lemma {:induction false} DropFraction(d: string, f: string)
    requires forall i :: 0 <= i < |d + f| ==> IsDigit((d + f)[i])
    ensures DropDigits(DigitsValue(d + f), |f|) == DigitsValue(d)
    decreases |f|
  {
    if |f| == 0 {
      assert d + f == d;
    } else {
      var g := f[..|f| - 1];
      assert (d + f)[..|d + f| - 1] == d + g;
      assert IsDigit((d + f)[|d + f| - 1]);
      assert DigitsValue(d + f) / 10 == DigitsValue(d + g);
      assert forall i :: 0 <= i < |d + g| ==> (d + g)[i] == (d + f)[i];
      DropFraction(d, g);
    }
  }

  /** (int) of digits with a fraction: the whole part, the fraction cut off. */
  lemma IntValFraction(d: string, f: string, s: string)
    requires |d| > 0 && forall i :: 0 <= i < |d| ==> IsDigit(d[i])
    requires forall i :: 0 <= i < |f| ==> IsDigit(f[i])
    requires s == d + "." + f
    ensures DigitsValue(d) <= MaxLong ==> IntVal(s) == DigitsValue(d)
  {
    assert s[0] == d[0];
    ScanFraction(d, f, s);
    var n := Numeral(false, DigitsValue(d + f), 0 - |f|, |d| + 1 + |f|);
    IntValOfUnsigned(s, n);
    DropFraction(d, f);
    WholeOfFraction(n, DigitsValue(d));
  }

  /** A numeral whose truncation is a whole part within PHP_INT_MAX converts to that whole part. */
  lemma WholeOfFraction(n: Numeral, whole: nat)
    requires !n.negative && n.scale <= 0 && DropDigits(n.mantissa, -n.scale) == whole
    ensures whole <= MaxLong ==> ToLong(n) == whole
  {
    if n.scale == 0 {
      assert DropDigits(n.mantissa, 0) == n.mantissa;
    }
  }

  /** A string starting with an unsigned number converts to that number's integer. */
  lemma IntValOfUnsigned(s: string, n: Numeral)
    requires |s| > 0 && !IsNumericSpace(s[0]) && s[0] != '-' && s[0] != '+'
    requires ScanUnsigned(s) == Some(n)
    ensures IntVal(s) == ToLong(n)
  {
    assert SkipSpace(s) == s;
  }

  /** (int) of the decimal text of a number past PHP_INT_MAX saturates at PHP_INT_MAX. */
  lemma IntValSaturates(n: nat)
    requires MaxLong < n < DoubleOverflow
    ensures IntVal(NatToString(n)) == MaxLong
  {
    var s := NatToString(n);
    assert IsDigit(s[0]);
    assert !IsNumericSpace(s[0]);
    assert SkipSpace(s) == s;
    ScanDigits(s);
    DigitsValueOfNat(n);
  }

  lemma ExampleSpellings()
    ensures "1" + "e" + "3" == "1e3"
    ensures "1" + "." + "9" == "1.9"
  {
  }

  /** `(int)"1e3"` is 1000: the exponent is read. */
  lemma IntValOfExponentExample(s: string)
    requires s == "1e3"
    ensures IntVal(s) == 1000
  {
    ExampleSpellings();
    assert DigitsValue("1") == 1 && DigitsValue("3") == 3 && Pow10(3) == 1000;
    IntValExponent("1", "3", s);
  }

  /** `(int)"1.9"` is 1: the fraction is cut off. */
  lemma IntValOfFractionExample(s: string)
    requires s == "1.9"
    ensures IntVal(s) == 1
  {
    ExampleSpellings();
    assert DigitsValue("1") == 1;
    IntValFraction("1", "9", s);
  }


  /** Every string equals itself under `==`. */
  lemma LooseEqualsReflexive(a: string)
    ensures LooseEquals(a, a)
  {
  }

  lemma SameNumberSymmetric(x: Numeral, y: Numeral)
    ensures SameNumber(x, y) == SameNumber(y, x)
  {
    if x.mantissa != 0 && y.mantissa != 0 && x.scale == y.scale {
      assert Pow10(0) == 1;
    }
  }

  /** `==` on strings does not depend on the order of its operands. */
  lemma LooseEqualsSymmetric(a: string, b: string)
    ensures LooseEquals(a, b) == LooseEquals(b, a)
  {
    var na, nb := NumericValue(a), NumericValue(b);
    if na.Some? && nb.Some? {
      SameNumberSymmetric(na.value, nb.value);
    }
  }

  /** A string starting with a letter is not numeric. */
  lemma LetterNotNumeric(s: string)
    requires |s| > 0 && 'a' <= s[0] <= 'z'
    ensures NumericValue(s).None?
  {
    assert SkipSpace(s) == s;
  }

  /** A value appended to a list is loosely in it. */
  lemma LooselyInAppended(x: string, a: seq<string>)
    ensures LooselyIn(x, a + [x])
  {
    LooseEqualsReflexive(x);
    assert (a + [x])[|a|] == x;
  }

  /** A value loosely in a list stays so when the list is extended. */
  lemma LooselyInPrefix(needle: string, a: seq<string>, b: seq<string>)
    requires LooselyIn(needle, a) && a <= b
    ensures LooselyIn(needle, b)
  {
    var i :| 0 <= i < |a| && LooseEquals(a[i], needle);
    assert b[i] == a[i];
  }

  /** A string that is not numeric is loosely equal only to itself. */
  lemma LooseEqualsNonNumeric(a: string, b: string)
    requires NumericValue(a).None?
    ensures LooseEquals(a, b) <==> a == b
  {
  }

  /** An unsigned number spelling the whole string is its numeric value. */
  lemma NumericOfWhole(s: string, n: Numeral)
    requires |s| > 0 && !IsNumericSpace(s[0]) && s[0] != '-' && s[0] != '+'
    requires ScanUnsigned(s) == Some(n) && n.length == |s|
    ensures NumericValue(s) == Some(n)
  {
    assert SkipSpace(s) == s;
  }

  /** A run of digits is a numeric string of that value. */
  lemma NumericOfDigits(s: string)
    requires |s| > 0 && forall i :: 0 <= i < |s| ==> IsDigit(s[i])
    ensures NumericValue(s) == Some(Numeral(false, DigitsValue(s), 0, |s|))
  {
    ScanDigits(s);
    assert IsDigit(s[0]);
    assert !IsNumericSpace(s[0]) && s[0] != '-' && s[0] != '+';
    NumericOfWhole(s, Numeral(false, DigitsValue(s), 0, |s|));
  }

  /** Digits, `e` and exponent digits make a numeric string of that value. */
  lemma NumericOfExponent(d: string, e: string, s: string)
    requires |d| > 0 && forall i :: 0 <= i < |d| ==> IsDigit(d[i])
    requires |e| > 0 && forall i :: 0 <= i < |e| ==> IsDigit(e[i])
    requires s == d + "e" + e
    ensures NumericValue(s) == Some(Numeral(false, DigitsValue(d), DigitsValue(e), |d| + 1 + |e|))
  {
    ScanExponent(d, e, s);
    assert s[0] == d[0] && |s| == |d| + 1 + |e|;
    NumericOfWhole(s, Numeral(false, DigitsValue(d), DigitsValue(e), |d| + 1 + |e|));
  }

  /** Leading zeros do not matter: `"1" == "01"`. */
  lemma LooseEqualsLeadingZero(a: string, b: string)
    requires a == "1" && b == "01"
    ensures LooseEquals(a, b)
  {
    NumericOfDigits(a);
    NumericOfDigits(b);
    assert b[..1] == "0";
  }

  /** An exponent is read: `"10" == "1e1"`. */
  lemma LooseEqualsExponent(a: string, b: string)
    requires a == "10" && b == "1e1"
    ensures LooseEquals(a, b)
  {
    NumericOfDigits(a);
    assert a[..1] == "1";
    assert b == "1" + "e" + "1";
    NumericOfExponent("1", "1", b);
    assert Pow10(1) == 10;
  }

  /** A number followed by other text is not numeric, so it compares as text: `"1" != "1a"`. */
  lemma LooseEqualsTrailingText(a: string, b: string)
    requires a == "1" && b == "1a"
    ensures !LooseEquals(a, b)
  {
    assert b == "1" + "a";
    ScanAfterDigits("1", "a");
    WholeWithoutPoint("1", "a");
    FinishWith("1", "a", Exponent(0, 0));
    assert SkipSpace(b) == b;
    assert ScanNumber(b) == Some(Numeral(false, DigitsValue("1"), 0, 1));
    assert !IsNumericSpace(b[1]);
  }

  /** For a needle that is not numeric, the loose search is the exact one. */
  lemma LooselyInNonNumeric(needle: string, haystack: seq<string>)
    requires NumericValue(needle).None?
    ensures LooselyIn(needle, haystack) <==> needle in haystack
  {
    if needle in haystack {
      var i :| 0 <= i < |haystack| && haystack[i] == needle;
      LooseEqualsReflexive(needle);
    }
    if LooselyIn(needle, haystack) {
      var i :| 0 <= i < |haystack| && LooseEquals(haystack[i], needle);
      LooseEqualsSymmetric(haystack[i], needle);
      LooseEqualsNonNumeric(needle, haystack[i]);
    }
  }
}
