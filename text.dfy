/**
 * Character-level helpers shared by the whole model: the C library routines the
 * program relies on for text (strtok_r, atoi, the %d and %s conversions of
 * sscanf, the %d conversion of snprintf and strncpy), stated on `string`.
 */
module Text {

  datatype Option<T> = None | Some(value: T)

  /** isspace() in the C locale: space, \t, \n, \v, \f, \r. */
  const Whitespace: set<char> := {' ', '\t', '\n', 11 as char, 12 as char, '\r'}

  predicate IsSpace(c: char) { c in Whitespace }

  predicate IsDigit(c: char) { '0' <= c <= '9' }

  predicate AllDigits(s: string) { forall i :: 0 <= i < |s| ==> IsDigit(s[i]) }

  predicate NoneIn(s: string, delims: set<char>) { forall i :: 0 <= i < |s| ==> s[i] !in delims }

  predicate AllIn(s: string, delims: set<char>) { forall i :: 0 <= i < |s| ==> s[i] in delims }

  function Pow10(k: nat): (r: nat)
    ensures r >= 1
  {
    if k == 0 then 1 else 10 * Pow10(k - 1)
  }

  // ---------------------------------------------------------------------------
  // strncpy(dst, src, n) into a buffer that keeps at most n characters
  // ---------------------------------------------------------------------------

  /** The first `n` characters of `s`, or all of `s` when it is shorter. */
  function Truncate(s: string, n: nat): (r: string)
    ensures |r| <= n && r <= s
    ensures |s| <= n ==> r == s
    ensures |s| > n ==> |r| == n
  {
    if |s| <= n then s else s[..n]
  }

  // ---------------------------------------------------------------------------
  // strtok_r: maximal runs of non-delimiter characters; empty fields vanish
  // ---------------------------------------------------------------------------

  /** Tokens of `s`, where `cur` is the token read so far. */
  function TokensFrom(s: string, delims: set<char>, cur: string): (r: seq<string>)
    requires NoneIn(cur, delims)
    ensures forall i :: 0 <= i < |r| ==> r[i] != [] && NoneIn(r[i], delims)
    decreases |s|
  {
    if s == [] then
      (if cur == [] then [] else [cur])
    else if s[0] in delims then
      (if cur == [] then [] else [cur]) + TokensFrom(s[1..], delims, [])
    else
      TokensFrom(s[1..], delims, cur + [s[0]])
  }

  /** What successive strtok_r calls on `s` with delimiter set `delims` return. */
  function Tokens(s: string, delims: set<char>): (r: seq<string>)
    ensures forall i :: 0 <= i < |r| ==> r[i] != [] && NoneIn(r[i], delims)
  {
    TokensFrom(s, delims, [])
  }

  /** `toks` written out with `c` between consecutive tokens. */
  function Join(toks: seq<string>, c: char): string
  {
    if |toks| == 0 then []
    else if |toks| == 1 then toks[0]
    else toks[0] + [c] + Join(toks[1..], c)
  }

  lemma {:induction false} TokensFromRun(t: string, rest: string, delims: set<char>, cur: string)
    requires NoneIn(cur, delims) && NoneIn(t, delims)
    ensures NoneIn(cur + t, delims)
    ensures TokensFrom(t + rest, delims, cur) == TokensFrom(rest, delims, cur + t)
  {
    if t == [] {
      assert t + rest == rest;
      assert cur + t == cur;
    } else {
      assert (t + rest)[0] == t[0];
      assert (t + rest)[1..] == t[1..] + rest;
      assert NoneIn(cur + [t[0]], delims);
      TokensFromRun(t[1..], rest, delims, cur + [t[0]]);
      assert cur + [t[0]] + t[1..] == cur + t;
    }
  }

  /** The non-empty strings of `fields`, in order. */
  function Present(fields: seq<string>): (r: seq<string>)
    ensures |r| <= |fields|
    ensures forall i :: 0 <= i < |r| ==> r[i] != []
  {
    if fields == [] then [] else (if fields[0] == [] then [] else [fields[0]]) + Present(fields[1..])
  }

  /**
   * Splitting fields joined by a delimiter gives back the non-empty fields:
   * strtok_r reads two adjacent delimiters as one.
   */
  lemma {:induction false} TokensOfJoinFields(fields: seq<string>, c: char, delims: set<char>)
    requires c in delims
    requires forall i :: 0 <= i < |fields| ==> NoneIn(fields[i], delims)
    ensures Tokens(Join(fields, c), delims) == Present(fields)
  {
    if |fields| == 0 {
    } else if |fields| == 1 {
      TokensFromRun(fields[0], [], delims, []);
      assert fields[0] + [] == fields[0];
      assert [] + fields[0] == fields[0];
    } else {
      var rest := Join(fields[1..], c);
      assert Join(fields, c) == fields[0] + ([c] + rest);
      TokensFromRun(fields[0], [c] + rest, delims, []);
      assert [] + fields[0] == fields[0];
      assert ([c] + rest)[1..] == rest;
      TokensOfJoinFields(fields[1..], c, delims);
    }
  }

  lemma {:induction false} PresentAll(fields: seq<string>)
    requires forall i :: 0 <= i < |fields| ==> fields[i] != []
    ensures Present(fields) == fields
  {
    if fields != [] {
      PresentAll(fields[1..]);
      assert fields == [fields[0]] + fields[1..];
    }
  }

  lemma {:induction false} PresentDrops(fields: seq<string>, k: nat)
    requires k < |fields| && fields[k] == []
    ensures |Present(fields)| < |fields|
  {
    if k > 0 {
      PresentDrops(fields[1..], k - 1);
    }
  }

  /** Splitting a joined list of non-empty, delimiter-free tokens gives the list back. */
  lemma TokensOfJoin(toks: seq<string>, c: char, delims: set<char>)
    requires c in delims
    requires forall i :: 0 <= i < |toks| ==> toks[i] != [] && NoneIn(toks[i], delims)
    ensures Tokens(Join(toks, c), delims) == toks
  {
    TokensOfJoinFields(toks, c, delims);
    PresentAll(toks);
  }

  /** Delimiters before the text are skipped: strtok_r starts at the first non-delimiter. */
  lemma {:induction false} TokensSkipLead(lead: string, s: string, delims: set<char>)
    requires AllIn(lead, delims)
    ensures Tokens(lead + s, delims) == Tokens(s, delims)
  {
    if lead != [] {
      assert (lead + s)[0] == lead[0];
      assert (lead + s)[1..] == lead[1..] + s;
      TokensSkipLead(lead[1..], s, delims);
    } else {
      assert lead + s == s;
    }
  }

  /** A run of delimiters separates tokens exactly as a single delimiter does. */
  lemma {:induction false} TokensCollapseRun(run: string, b: string, c: char, delims: set<char>, cur: string)
    requires run != [] && AllIn(run, delims) && c in delims && NoneIn(cur, delims)
    ensures TokensFrom(run + b, delims, cur) == TokensFrom([c] + b, delims, cur)
    decreases |run|
  {
    assert (run + b)[0] == run[0] && (run + b)[1..] == run[1..] + b;
    assert ([c] + b)[0] == c && ([c] + b)[1..] == b;
    if run[1..] != [] {
      TokensCollapseRun(run[1..], b, c, delims, []);
      assert ([c] + b)[1..] == b;
    } else {
      assert run[1..] + b == b;
    }
  }

  lemma {:induction false} TokensCollapseAt(a: string, run: string, b: string, c: char, delims: set<char>, cur: string)
    requires run != [] && AllIn(run, delims) && c in delims && NoneIn(cur, delims)
    ensures TokensFrom(a + run + b, delims, cur) == TokensFrom(a + [c] + b, delims, cur)
    decreases |a|
  {
    if a == [] {
      assert a + run + b == run + b && a + [c] + b == [c] + b;
      TokensCollapseRun(run, b, c, delims, cur);
    } else {
      assert (a + run + b)[0] == a[0] && (a + run + b)[1..] == a[1..] + run + b;
      assert (a + [c] + b)[0] == a[0] && (a + [c] + b)[1..] == a[1..] + [c] + b;
      if a[0] in delims {
        TokensCollapseAt(a[1..], run, b, c, delims, []);
      } else {
        TokensCollapseAt(a[1..], run, b, c, delims, cur + [a[0]]);
      }
    }
  }

  /** Widening a gap between tokens to any run of delimiters yields the same tokens. */
  lemma TokensCollapse(a: string, run: string, b: string, c: char, delims: set<char>)
    requires run != [] && AllIn(run, delims) && c in delims
    ensures Tokens(a + run + b, delims) == Tokens(a + [c] + b, delims)
  {
    TokensCollapseAt(a, run, b, c, delims, []);
  }

  // ---------------------------------------------------------------------------
  // Decimal integers: reading (%d, atoi) and writing (%d of snprintf)
  // ---------------------------------------------------------------------------

  function SkipSpaces(s: string): (r: string)
    ensures |r| <= |s| && r == s[|s| - |r|..]
    ensures r == [] || !IsSpace(r[0])
  {
    if s != [] && IsSpace(s[0]) then SkipSpaces(s[1..]) else s
  }

  /** Length of the run of digits at the start of `s`. */
  function DigitRun(s: string): (n: nat)
    ensures n <= |s| && AllDigits(s[..n])
    ensures n < |s| ==> !IsDigit(s[n])
  {
    if s != [] && IsDigit(s[0]) then 1 + DigitRun(s[1..]) else 0
  }

  function DigitValue(c: char): nat
    requires IsDigit(c)
  {
    c as int - '0' as int
  }

  function DigitsValue(ds: string): nat
    requires AllDigits(ds)
  {
    if ds == [] then 0 else DigitsValue(ds[..|ds| - 1]) * 10 + DigitValue(ds[|ds| - 1])
  }

  /** An optional leading sign: whether it is '-', and what follows it. */
  function SplitSign(s: string): (bool, string)
  {
    if |s| > 0 && (s[0] == '-' || s[0] == '+') then (s[0] == '-', s[1..]) else (false, s)
  }

  function Signed(negative: bool, magnitude: nat): int
  {
    var m: int := magnitude;
    if negative then -m else m
  }

  /**
   * The %d conversion of sscanf (also what atoi and strtol read): leading white
   * space, an optional sign, then at least one digit. None when no digit follows.
   */
  function ScanInt(s: string): Option<int>
  {
    var (negative, u) := SplitSign(SkipSpaces(s));
    var n := DigitRun(u);
    if n == 0 then None else Some(Signed(negative, DigitsValue(u[..n])))
  }

  /** atoi: the value ScanInt reads, or 0 when nothing can be read. */
  function Atoi(s: string): int
  {
    match ScanInt(s)
    case Some(v) => v
    case None => 0
  }

  function Digit(d: nat): (c: char)
    requires d < 10
    ensures IsDigit(c) && DigitValue(c) == d
  {
    ('0' as int + d) as char
  }

  /** The decimal digits of `n`, without leading zeros. */
  function FormatNat(n: nat): (r: string)
    ensures r != [] && AllDigits(r) && DigitsValue(r) == n
  {
    if n < 10 then
      [Digit(n)]
    else
      var r := FormatNat(n / 10) + [Digit(n % 10)];
      assert r[..|r| - 1] == FormatNat(n / 10);
      r
  }

  /** snprintf's %d. */
  function FormatInt(n: int): (r: string)
    ensures r != []
  {
    if n < 0 then "-" + FormatNat(-n) else FormatNat(n)
  }

  lemma {:induction false} DigitRunOfDigits(ds: string, rest: string)
    requires AllDigits(ds)
    requires rest == [] || !IsDigit(rest[0])
    ensures DigitRun(ds + rest) == |ds|
  {
    if ds != [] {
      assert (ds + rest)[1..] == ds[1..] + rest;
      DigitRunOfDigits(ds[1..], rest);
    } else {
      assert ds + rest == rest;
    }
  }

  /** %d reads a run of digits followed by a non-digit as the value of the run. */
  lemma ScanDigits(negative: bool, f: string, rest: string)
    requires f != [] && AllDigits(f)
    requires rest == [] || !IsDigit(rest[0])
    ensures var (neg, u) := SplitSign((if negative then "-" else "") + f + rest);
            neg == negative && DigitRun(u) == |f| && u[..|f|] == f
  {
    var s := (if negative then "-" else "") + f + rest;
    if negative {
      assert s[0] == '-' && s[1..] == f + rest;
    } else {
      assert s == f + rest && IsDigit(s[0]);
    }
    DigitRunOfDigits(f, rest);
    assert (f + rest)[..|f|] == f;
  }

  /** Writing an integer with %d and reading it back with %d gives the integer. */
  lemma ScanFormatted(n: int, rest: string)
    requires rest == [] || !IsDigit(rest[0])
    ensures ScanInt(FormatInt(n) + rest) == Some(n)
  {
    var f := FormatNat(if n < 0 then -n else n);
    var s := (if n < 0 then "-" else "") + f + rest;
    assert FormatInt(n) + rest == s;
    assert !IsSpace(s[0]);
    assert SkipSpaces(s) == s;
    ScanDigits(n < 0, f, rest);
  }

  /** atoi of a number written with %d and followed by a non-digit is that number. */
  lemma AtoiFormatted(n: int, rest: string)
    requires rest == [] || !IsDigit(rest[0])
    ensures Atoi(FormatInt(n) + rest) == n
  {
    ScanFormatted(n, rest);
  }

  lemma {:induction false} FormatNatLength(n: nat, k: nat)
    requires k >= 1 && n < Pow10(k)
    ensures |FormatNat(n)| <= k
  {
    if n >= 10 {
      assert Pow10(1) == 10;
      assert n / 10 < Pow10(k - 1);
      FormatNatLength(n / 10, k - 1);
    }
  }

  /** Every 32-bit int prints in at most 11 characters (sign and ten digits). */
  lemma FormatInt32Length(n: int)
    requires -0x8000_0000 <= n < 0x8000_0000
    ensures |FormatInt(n)| <= 11
  {
    assert Pow10(10) == 10_000_000_000;
    FormatNatLength(if n < 0 then -n else n, 10);
  }

  // ---------------------------------------------------------------------------
  // Whole-token numbers (the model's reading of a %d or %f conversion that
  // consumes one white-space delimited token)
  // ---------------------------------------------------------------------------

  /** A token that is entirely an optionally signed decimal integer. */
  function WholeInt(tok: string): Option<int>
  {
    var (negative, u) := SplitSign(tok);
    if u != [] && AllDigits(u) then Some(Signed(negative, DigitsValue(u))) else None
  }

  function SignedReal(negative: bool, magnitude: real): real
  {
    if negative then -magnitude else magnitude
  }

  /** A token that is entirely an optionally signed decimal fraction: digits, '.', digits. */
  function Decimal(tok: string): Option<real>
  {
    var (negative, u) := SplitSign(tok);
    var n := DigitRun(u);
    if n == |u| then
      if n == 0 then None else Some(SignedReal(negative, DigitsValue(u) as real))
    else if u[n] == '.' && AllDigits(u[n + 1..]) && |u| > 1 then
      Some(SignedReal(negative, PointValue(u[..n], u[n + 1..])))
    else
      None
  }

  /** The value of the digits `whole`, a point, and the digits `fraction`. */
  function PointValue(whole: string, fraction: string): real
    requires AllDigits(whole) && AllDigits(fraction)
  {
    DigitsValue(whole) as real + DigitsValue(fraction) as real / Pow10(|fraction|) as real
  }

  /** An unsigned `digits.digits` token reads as its whole part plus its scaled fraction. */
  lemma DecimalOfPoint(whole: string, fraction: string)
    requires whole != [] && AllDigits(whole) && AllDigits(fraction)
    ensures Decimal(whole + "." + fraction) == Some(PointValue(whole, fraction))
  {
    var u := whole + "." + fraction;
    var n := |whole|;
    assert SplitSign(u) == (false, u) && DigitRun(u) == n by {
      assert u == whole + ("." + fraction);
      assert u[0] == whole[0];
      DigitRunOfDigits(whole, "." + fraction);
    }
    assert u[..n] == whole && u[n] == '.' && u[n + 1..] == fraction;
  }

  lemma DigitRunAll(u: string)
    requires AllDigits(u)
    ensures DigitRun(u) == |u|
  {
    DigitRunOfDigits(u, []);
    assert u + [] == u;
  }

  /** A whole-token integer is what %d reads from that token. */
  lemma WholeIntIsScanned(tok: string)
    requires WholeInt(tok).Some?
    ensures ScanInt(tok) == WholeInt(tok)
  {
    var (negative, u) := SplitSign(tok);
    assert SkipSpaces(tok) == tok;
    DigitRunAll(u);
    assert u[..|u|] == u;
  }

  /** A whole-token integer also reads as a decimal fraction with the same value. */
  lemma WholeIntIsDecimal(tok: string)
    requires WholeInt(tok).Some?
    ensures Decimal(tok) == Some(WholeInt(tok).value as real)
  {
    var (negative, u) := SplitSign(tok);
    DigitRunAll(u);
  }

  /** What %d prints is a whole-token integer. */
  lemma WholeIntOfFormat(n: int)
    ensures WholeInt(FormatInt(n)) == Some(n)
  {
    var f := FormatNat(if n < 0 then -n else n);
    if n < 0 {
      assert FormatInt(n) == "-" + f;
      assert SplitSign("-" + f) == (true, f);
    } else {
      assert SplitSign(f) == (false, f);
    }
  }
}
