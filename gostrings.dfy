/** The parts of Go's `strings` and `strconv` packages that serve.go relies on:
    `strings.Split` with a one-character separator, `strings.Trim` with the
    cutset " ", and `strconv.ParseInt(s, 10, 64)`. */
module GoStrings {
  import opened Wrappers

  // ---------------------------------------------------------------------
  // Runs of characters of one class, by index

  /** Every character of t[lo..hi] satisfies p. */
  ghost predicate AllInRange(t: string, lo: int, hi: int, p: char -> bool)
    requires 0 <= lo && hi <= |t|
  {
    forall i :: lo <= i < hi ==> p(t[i])
  }

  /** The start of the longest run of p-characters that ends at hi. */
  function RunStart(t: string, hi: nat, p: char -> bool): (lo: nat)
    requires hi <= |t|
    ensures lo <= hi
    ensures AllInRange(t, lo, hi, p)
    ensures lo == 0 || !p(t[lo - 1])
    decreases hi
  {
    if hi > 0 && p(t[hi - 1]) then RunStart(t, hi - 1, p) else hi
  }

  /** The end of the longest run of p-characters that starts at lo. */
  function RunEnd(t: string, lo: nat, p: char -> bool): (hi: nat)
    requires lo <= |t|
    ensures lo <= hi <= |t|
    ensures AllInRange(t, lo, hi, p)
    ensures hi == |t| || !p(t[hi])
    decreases |t| - lo
  {
    if lo < |t| && p(t[lo]) then RunEnd(t, lo + 1, p) else lo
  }

  /** A run of p-characters bounded by non-p characters (or the ends of t)
      is the one RunStart finds. */
  lemma RunStartExact(t: string, hi: nat, p: char -> bool, lo: nat)
    requires lo <= hi <= |t|
    requires AllInRange(t, lo, hi, p)
    requires lo == 0 || !p(t[lo - 1])
    ensures RunStart(t, hi, p) == lo
  {
  }

  /** RunStart reaches at least as far left as any run of p-characters ending at hi. */
  lemma RunStartBelow(t: string, hi: nat, p: char -> bool, lo: nat)
    requires lo <= hi <= |t|
    requires AllInRange(t, lo, hi, p)
    ensures RunStart(t, hi, p) <= lo
  {
  }

  // ---------------------------------------------------------------------
  // strings.Split

  /** strings.Split(s, string(sep)): the pieces of s between occurrences of
      sep, in order. There is always one piece more than there are
      separators, so the empty string gives one empty piece. */
  function Split(s: string, sep: char): (pieces: seq<string>)
    ensures |pieces| >= 1
    ensures forall i :: 0 <= i < |pieces| ==> sep !in pieces[i]
    decreases |s|
  {
    if s == [] then [[]]
    else
      assert s == [s[0]] + s[1..];
      if s[0] == sep then [[]] + Split(s[1..], sep)
      else
        var rest := Split(s[1..], sep);
        [[s[0]] + rest[0]] + rest[1..]
  }

  /** strings.Join(pieces, string(sep)), the inverse of Split. */
  function Join(pieces: seq<string>, sep: char): string
    requires |pieces| >= 1
    decreases |pieces|
  {
    if |pieces| == 1 then pieces[0] else pieces[0] + [sep] + Join(pieces[1..], sep)
  }

  /** Joining the pieces again gives back the split string. */
  lemma {:induction false} JoinSplit(s: string, sep: char)
    ensures Join(Split(s, sep), sep) == s
    decreases |s|
  {
    if s != [] {
      JoinSplit(s[1..], sep);
      var rest := Split(s[1..], sep);
      assert s == [s[0]] + s[1..];
      if s[0] == sep {
        assert Split(s, sep) == [[]] + rest;
        assert ([[]] + rest)[1..] == rest;
      } else {
        var pieces := [[s[0]] + rest[0]] + rest[1..];
        assert Split(s, sep) == pieces;
        if |rest| == 1 {
          assert Join(pieces, sep) == [s[0]] + rest[0];
        } else {
          assert pieces[1..] == rest[1..];
          assert Join(rest, sep) == rest[0] + [sep] + Join(rest[1..], sep);
          assert Join(pieces, sep) == [s[0]] + rest[0] + [sep] + Join(rest[1..], sep);
        }
      }
    }
  }

  /** Splitting x + rest, where x holds no separator, glues x onto the first piece of rest. */
  lemma {:induction false} SplitPrefix(x: string, rest: string, sep: char)
    requires sep !in x
    ensures Split(x + rest, sep) == [x + Split(rest, sep)[0]] + Split(rest, sep)[1..]
    decreases |x|
  {
    if x != [] {
      SplitPrefix(x[1..], rest, sep);
      var xr := x + rest;
      assert xr[0] == x[0] && xr[1..] == x[1..] + rest;
      var tail := Split(xr[1..], sep);
      var r := Split(rest, sep);
      assert Split(xr, sep) == [[x[0]] + tail[0]] + tail[1..];
      assert tail == [x[1..] + r[0]] + r[1..];
      assert tail[0] == x[1..] + r[0] && tail[1..] == r[1..];
      assert [x[0]] + x[1..] == x;
      assert [x[0]] + (x[1..] + r[0]) == x + r[0];
    } else {
      var r := Split(rest, sep);
      assert x + rest == rest && x + r[0] == r[0];
      assert r == [r[0]] + r[1..];
    }
  }

  /** Splitting a join of separator-free pieces gives back the pieces. */
  lemma {:induction false} SplitJoin(pieces: seq<string>, sep: char)
    requires |pieces| >= 1
    requires forall i :: 0 <= i < |pieces| ==> sep !in pieces[i]
    ensures Split(Join(pieces, sep), sep) == pieces
    decreases |pieces|
  {
    if |pieces| == 1 {
      SplitPrefix(pieces[0], [], sep);
      assert pieces[0] + [] == pieces[0];
    } else {
      var tail := Join(pieces[1..], sep);
      SplitJoin(pieces[1..], sep);
      SplitPrefix(pieces[0], [sep] + tail, sep);
      assert Join(pieces, sep) == pieces[0] + ([sep] + tail);
      var st := [sep] + tail;
      assert st[0] == sep && st[1..] == tail;
      assert Split(st, sep) == [[]] + pieces[1..];
      assert Split(st, sep)[0] == [] && Split(st, sep)[1..] == pieces[1..];
      assert pieces[0] + [] == pieces[0];
      assert pieces == [pieces[0]] + pieces[1..];
    }
  }

  // ---------------------------------------------------------------------
  // strings.Trim(s, " ")

  predicate IsBlank(c: char) { c == ' ' }

  /** strings.Trim(s, " "): s without its leading and trailing ' ' characters. */
  function Trim(s: string): (r: string)
    ensures r == [] || (r[0] != ' ' && r[|r| - 1] != ' ')
    ensures r == [] ==> AllInRange(s, 0, |s|, IsBlank)
    ensures r != [] ==>
              (exists lo :: 0 <= lo && lo + |r| <= |s| && r == s[lo..lo + |r|]
                 && AllInRange(s, 0, lo, IsBlank) && AllInRange(s, lo + |r|, |s|, IsBlank))
  {
    var lo := RunEnd(s, 0, IsBlank);
    var hi := RunStart(s, |s|, IsBlank);
    if hi <= lo then
      assert AllInRange(s, 0, |s|, IsBlank) by {
        forall i | 0 <= i < |s| ensures IsBlank(s[i]) {
          assert i < lo || hi <= i;
        }
      }
      []
    else
      assert s[lo..hi] == s[lo..lo + (hi - lo)];
      s[lo..hi]
  }

  // ---------------------------------------------------------------------
  // strconv.ParseInt(s, 10, 64)

  const MinInt64: int := -0x8000_0000_0000_0000
  const MaxInt64: int := 0x7fff_ffff_ffff_ffff

  predicate IsDigit(c: char) { '0' <= c <= '9' }

  predicate IsNonDigit(c: char) { !IsDigit(c) }

  predicate AllDigits(s: string) { forall i :: 0 <= i < |s| ==> IsDigit(s[i]) }

  function DigitValue(c: char): nat
    requires IsDigit(c)
  {
    (c as int) - ('0' as int)
  }

  function DigitChar(d: nat): (c: char)
    requires d < 10
    ensures IsDigit(c) && DigitValue(c) == d
  {
    ('0' as int + d) as char
  }

  /** The value of a string of decimal digits, most significant first. */
  function DecimalValue(ds: string): nat
    requires AllDigits(ds)
    decreases |ds|
  {
    if ds == [] then 0 else DecimalValue(ds[..|ds| - 1]) * 10 + DigitValue(ds[|ds| - 1])
  }

  /** strconv.ParseInt(s, 10, 64): an optional '+' or '-', then one or more
      ASCII digits (no underscores in base 10) whose value fits in int64;
      anything else is a syntax or range error. */
  function ParseInt64(s: string): (r: Option<int>)
    ensures r.Some? ==> MinInt64 <= r.value <= MaxInt64
  {
    if s == [] then None
    else
      var digits := if s[0] == '+' || s[0] == '-' then s[1..] else s;
      if digits == [] || !AllDigits(digits) then None
      else
        var v: int := if s[0] == '-' then -(DecimalValue(digits) as int) else DecimalValue(digits);
        if MinInt64 <= v <= MaxInt64 then Some(v) else None
  }

  /** The shortest decimal numeral of n (strconv.Itoa for n >= 0). */
  function Digits(n: nat): (ds: string)
    ensures |ds| >= 1 && AllDigits(ds)
    ensures DecimalValue(ds) == n
    ensures ds[0] == '0' ==> n == 0
    decreases n
  {
    if n < 10 then [DigitChar(n)]
    else
      var ds := Digits(n / 10) + [DigitChar(n % 10)];
      assert ds[..|ds| - 1] == Digits(n / 10);
      assert ds[0] == Digits(n / 10)[0];
      ds
  }

  /** strconv.FormatInt(x, 10). */
  function FormatInt(x: int): string
  {
    if x < 0 then "-" + Digits(-x) else Digits(x)
  }

  /** Every int64 survives printing in base 10 and parsing back. */
  lemma ParseFormatInt(x: int)
    requires MinInt64 <= x <= MaxInt64
    ensures ParseInt64(FormatInt(x)) == Some(x)
  {
    if x < 0 {
      assert FormatInt(x)[1..] == Digits(-x);
    } else {
      assert IsDigit(Digits(x)[0]);
    }
  }

  /** A string ParseInt64 accepts holds digits only, but for a leading sign. */
  lemma ParseInt64Chars(s: string)
    requires ParseInt64(s).Some?
    ensures forall i :: 0 <= i < |s| ==> IsDigit(s[i]) || (i == 0 && (s[0] == '+' || s[0] == '-'))
  {
    if s[0] == '+' || s[0] == '-' {
      forall i | 1 <= i < |s| ensures IsDigit(s[i]) {
        assert s[1..][i - 1] == s[i];
      }
    }
  }

  /** A string with a character outside digits and a leading sign is rejected. */
  lemma ParseInt64Rejects(s: string, i: nat)
    requires i < |s| && !IsDigit(s[i]) && !(i == 0 && (s[0] == '+' || s[0] == '-'))
    ensures ParseInt64(s) == None
  {
    if s[0] == '+' || s[0] == '-' {
      assert s[1..][i - 1] == s[i];
    }
  }
}
