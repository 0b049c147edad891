/** The Python built-ins whose behaviour the report loop depends on:
 *  `int(str)`, `str.lower()` and `os.path.join` (POSIX flavour). `str(int)`
 *  is here only to state which selection texts denote the number n. */
module PyBuiltins {
  import opened Outcomes

  /** The ASCII white space `int()` skips around its digits: the space, HT,
   *  LF, VT, FF and CR. The information separators 0x1C-0x1F, which
   *  `str.isspace()` accepts, are not skipped. */
  predicate IsSpace(c: char) {
    c == ' ' || '\t' <= c <= '\r'
  }

  predicate AllSpace(s: string) {
    forall i :: 0 <= i < |s| ==> IsSpace(s[i])
  }

  predicate IsDigit(c: char) {
    '0' <= c <= '9'
  }

  function DigitValue(c: char): (d: nat)
    requires IsDigit(c)
    ensures d < 10
  {
    c as int - '0' as int
  }

  function DigitChar(d: nat): (c: char)
    requires d < 10
    ensures IsDigit(c) && DigitValue(c) == d
  {
    ('0' as int + d) as char
  }

  // ---------------------------------------------------------------------------
  // The white space `int()` strips

  /** Drops leading white space: the result is the suffix of `s` that starts at
   *  its first non-space character. */
  function StripLeft(s: string): (r: string)
    ensures |r| <= |s| && r == s[|s| - |r|..]
    ensures r == [] || !IsSpace(r[0])
  {
    if |s| > 0 && IsSpace(s[0]) then StripLeft(s[1..]) else s
  }

  /** Drops trailing white space: the result is the prefix of `s` that ends at
   *  its last non-space character. */
  function StripRight(s: string): (r: string)
    ensures |r| <= |s| && r == s[..|r|]
    ensures r == [] || !IsSpace(r[|r| - 1])
  {
    if |s| > 0 && IsSpace(s[|s| - 1]) then StripRight(s[..|s| - 1]) else s
  }

  function Strip(s: string): string {
    StripRight(StripLeft(s))
  }

  lemma {:induction false} StripLeftSkipsSpace(pre: string, s: string)
    requires AllSpace(pre)
    ensures StripLeft(pre + s) == StripLeft(s)
  {
    if pre == [] {
      assert pre + s == s;
    } else {
      assert (pre + s)[0] == pre[0];
      assert (pre + s)[1..] == pre[1..] + s;
      StripLeftSkipsSpace(pre[1..], s);
    }
  }

  lemma {:induction false} StripRightSkipsSpace(s: string, post: string)
    requires AllSpace(post)
    ensures StripRight(s + post) == StripRight(s)
  {
    if post == [] {
      assert s + post == s;
    } else {
      var last := |post| - 1;
      assert (s + post)[|s + post| - 1] == post[last];
      assert (s + post)[..|s + post| - 1] == s + post[..last];
      StripRightSkipsSpace(s, post[..last]);
    }
  }

  /** White space around a token that neither starts nor ends with a space is
   *  exactly what `strip()` removes. */
  lemma StripPadded(pre: string, t: string, post: string)
    requires AllSpace(pre) && AllSpace(post)
    requires t != [] && !IsSpace(t[0]) && !IsSpace(t[|t| - 1])
    ensures Strip(pre + t + post) == t
  {
    assert pre + t + post == pre + (t + post);
    StripLeftSkipsSpace(pre, t + post);
    assert StripLeft(t + post) == t + post;
    StripRightSkipsSpace(t, post);
  }

  // ---------------------------------------------------------------------------
  // int(str), base 10

  /** A run of decimal digits in which single underscores may separate digits
   *  (PEP 515): it ends in a digit, and what precedes that digit is nothing,
   *  a digit group, or a digit group followed by one underscore. */
  predicate IsDigitGroup(t: string)
    decreases |t|
  {
    |t| > 0 && IsDigit(t[|t| - 1]) &&
    var init := t[..|t| - 1];
    init == [] || IsDigitGroup(init) ||
    (init[|init| - 1] == '_' && IsDigitGroup(init[..|init| - 1]))
  }

  /** The number a run of digits denotes, underscores skipped. */
  function DecimalValue(t: string): nat {
    if t == [] then 0
    else
      var init, c := t[..|t| - 1], t[|t| - 1];
      if IsDigit(c) then DecimalValue(init) * 10 + DigitValue(c) else DecimalValue(init)
  }

  /** How many decimal digits `t` holds; underscores are not counted. */
  function DigitCount(t: string): nat {
    if t == [] then 0
    else DigitCount(t[..|t| - 1]) + if IsDigit(t[|t| - 1]) then 1 else 0
  }

  /** The default of `sys.get_int_max_str_digits()`: `int()` refuses a decimal
   *  string with more digits than this. */
  const MaxStrDigits: nat := 4300

  /** `int(s)` for a string `s`: `None` where Python raises `ValueError`.
   *  Surrounding white space is ignored, one sign is allowed, the digits may
   *  be grouped with underscores, and at most `MaxStrDigits` digits are
   *  converted. An accepted text ends in a digit and holds between one and
   *  `MaxStrDigits` of them; a negative result was written with a minus. */
  function ParseInt(s: string): (r: Option<int>)
    ensures r.Some? ==> var t := Strip(s);
      t != [] && IsDigit(t[|t| - 1]) && 0 < DigitCount(t) <= MaxStrDigits
    ensures r.Some? && r.value < 0 ==> Strip(s)[0] == '-'
  {
    var t := Strip(s);
    if |t| > 0 && (t[0] == '+' || t[0] == '-') then
      var body := t[1..];
      if IsDigitGroup(body) && DigitCount(body) <= MaxStrDigits then
        var v: int := DecimalValue(body);
        SignedCount(t);
        Some(if t[0] == '-' then -v else v)
      else None
    else if IsDigitGroup(t) && DigitCount(t) <= MaxStrDigits then Some(DecimalValue(t))
    else None
  }

  /** The digits of a string are those of its first character and of the rest. */
  lemma {:induction false} DigitCountCons(c: char, u: string)
    ensures DigitCount([c] + u) == (if IsDigit(c) then 1 else 0) + DigitCount(u)
    decreases |u|
  {
    var w := [c] + u;
    if u == [] {
      assert w[..|w| - 1] == [];
    } else {
      assert w[..|w| - 1] == [c] + u[..|u| - 1];
      DigitCountCons(c, u[..|u| - 1]);
    }
  }

  /** A leading sign adds no digit. */
  lemma SignedCount(t: string)
    requires |t| > 0 && !IsDigit(t[0]) && IsDigitGroup(t[1..])
    ensures DigitCount(t) == DigitCount(t[1..]) > 0 && IsDigit(t[|t| - 1])
  {
    assert t == [t[0]] + t[1..];
    DigitCountCons(t[0], t[1..]);
    assert t[1..][|t| - 2] == t[|t| - 1];
  }

  /** A digit group starts with a digit. */
  lemma {:induction false} GroupStartsWithDigit(t: string)
    requires IsDigitGroup(t)
    ensures IsDigit(t[0])
    decreases |t|
  {
    var init := t[..|t| - 1];
    if init != [] {
      if IsDigitGroup(init) {
        GroupStartsWithDigit(init);
      } else {
        GroupStartsWithDigit(init[..|init| - 1]);
      }
    }
  }

  /** The information separators 0x1C-0x1F are not white space to `int()`: a
   *  line that starts with one raises, as "\x1c1" does. */
  lemma ParseIntRejectsSeparator(s: string)
    requires |s| > 0 && '\U{1C}' <= s[0] <= '\U{1F}'
    ensures ParseInt(s) == None
  {
    var t := Strip(s);
    if t != [] {
      assert t[0] == s[0];
      if IsDigitGroup(t) {
        GroupStartsWithDigit(t);
      }
    }
  }

  /** A digit group ends in a digit, with or without a leading sign. */
  lemma GroupEndsInDigit(t: string)
    requires t != [] && !IsDigit(t[|t| - 1])
    ensures !IsDigitGroup(t) && !IsDigitGroup(t[1..])
  {
    assert |t| > 1 ==> t[1..][|t| - 2] == t[|t| - 1];
  }

  /** A string holding no decimal digit is never accepted by `int()`. */
  lemma ParseIntNeedsDigit(s: string)
    requires forall i :: 0 <= i < |s| ==> !IsDigit(s[i])
    ensures ParseInt(s) == None
  {
    var left := StripLeft(s);
    var t := StripRight(left);
    if t != [] {
      var k := |s| - |left|;
      assert t[|t| - 1] == left[|t| - 1] == s[k + |t| - 1];
      GroupEndsInDigit(t);
    }
  }

  // ---------------------------------------------------------------------------
  // str(int)

  /** The decimal digits of `n`, most significant first, without leading zeros. */
  function Decimal(n: nat): (r: string)
    ensures |r| > 0 && IsDigit(r[0]) && IsDigit(r[|r| - 1])
  {
    if n < 10 then [DigitChar(n)] else Decimal(n / 10) + [DigitChar(n % 10)]
  }

  /** `str(n)`: an optional minus sign followed by the digits of `|n|`. */
  function Show(n: int): string {
    if n < 0 then "-" + Decimal(-n) else Decimal(n)
  }

  lemma {:induction false} DecimalIsDigitGroup(n: nat)
    ensures IsDigitGroup(Decimal(n)) && DecimalValue(Decimal(n)) == n
  {
    if n >= 10 {
      DecimalIsDigitGroup(n / 10);
      var d := Decimal(n / 10);
      assert Decimal(n)[..|Decimal(n)| - 1] == d;
    }
  }

  /** `int()` reads back what `str()` writes, whatever white space surrounds
   *  it (the typed selection "  3\t" is the number 3), as long as it holds at
   *  most `MaxStrDigits` digits; a longer one raises. */
  lemma ParseIntShow(pre: string, n: int, post: string)
    requires AllSpace(pre) && AllSpace(post)
    ensures ParseInt(pre + Show(n) + post) == if DigitCount(Show(n)) <= MaxStrDigits then Some(n) else None
  {
    var t := Show(n);
    ShowToken(n);
    StripPadded(pre, t, post);
    ParseIntOfToken(pre + t + post, t);
  }

  /** `str(n)` is a digit group, or a minus sign followed by one, with value `n`. */
  lemma ShowToken(n: int)
    ensures var t := Show(n);
      t != [] && !IsSpace(t[0]) && !IsSpace(t[|t| - 1])
    ensures var t := Show(n);
      n < 0 ==> t[0] == '-' && IsDigitGroup(t[1..]) && 0 - DecimalValue(t[1..]) as int == n &&
                DigitCount(t[1..]) == DigitCount(t)
    ensures var t := Show(n);
      n >= 0 ==> IsDigit(t[0]) && IsDigitGroup(t) && DecimalValue(t) == n
  {
    if n < 0 {
      DecimalIsDigitGroup(-n);
      assert Show(n)[1..] == Decimal(-n);
      SignedCount(Show(n));
    } else {
      DecimalIsDigitGroup(n);
    }
  }

  /** `int()` decides on the stripped text alone. */
  lemma ParseIntOfToken(s: string, t: string)
    requires Strip(s) == t
    ensures t != [] && t[0] == '-' && IsDigitGroup(t[1..]) ==>
      ParseInt(s) == if DigitCount(t[1..]) <= MaxStrDigits then Some(0 - DecimalValue(t[1..]) as int) else None
    ensures t != [] && IsDigit(t[0]) && IsDigitGroup(t) ==>
      ParseInt(s) == if DigitCount(t) <= MaxStrDigits then Some(DecimalValue(t)) else None
  {
  }

  // ---------------------------------------------------------------------------
  // str.lower()

  function LowerChar(c: char): char {
    if 'A' <= c <= 'Z' then (c as int + ('a' as int - 'A' as int)) as char else c
  }

  /** `s.lower()` on ASCII letters; every other character is kept. */
  function Lower(s: string): (r: string)
    ensures |r| == |s|
    ensures forall i :: 0 <= i < |s| ==> r[i] == LowerChar(s[i])
  {
    if s == [] then [] else [LowerChar(s[0])] + Lower(s[1..])
  }

  // ---------------------------------------------------------------------------
  // os.path.join

  /** `posixpath.join(a, b)`: an absolute `b` discards `a`; otherwise a single
   *  separator is placed between them unless `a` is empty or already ends in one. */
  function JoinPath(a: string, b: string): (r: string)
    ensures |b| > 0 && b[0] == '/' ==> r == b
    ensures !(|b| > 0 && b[0] == '/') ==>
      |r| >= |a| + |b| && r[..|a|] == a && r[|r| - |b|..] == b &&
      (|r| > |a| + |b| <==> a != [] && a[|a| - 1] != '/') &&
      |r| <= |a| + |b| + 1 && (|r| > |a| + |b| ==> r[|a|] == '/')
  {
    if |b| > 0 && b[0] == '/' then b
    else if a == [] || a[|a| - 1] == '/' then a + b
    else a + "/" + b
  }
}
