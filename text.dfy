/** String helpers shared by the parsers and filters: `str::split` on one
    character, Rust's `u64::from_str`, decimal rendering, substring search
    and ASCII lower-casing. */
module Text {
  import opened Wrappers

  const U64_MAX: nat := 0xFFFF_FFFF_FFFF_FFFF

  /** The three ways Rust's integer parsing fails (`IntErrorKind`). */
  datatype IntErrorKind = Empty | InvalidDigit | PosOverflow

  /** The message `ParseIntError` displays for each kind. */
  function IntErrorText(k: IntErrorKind): string {
    match k
    case Empty => "cannot parse integer from empty string"
    case InvalidDigit => "invalid digit found in string"
    case PosOverflow => "number too large to fit in target type"
  }

  predicate IsDigit(c: char) { '0' <= c <= '9' }

  function DigitValue(c: char): (d: nat)
    requires IsDigit(c)
    ensures d < 10
  {
    (c as int - '0' as int) as nat
  }

  function DigitChar(d: nat): (c: char)
    requires d < 10
    ensures IsDigit(c) && DigitValue(c) == d
  {
    (('0' as int) + d) as char
  }

  predicate AllDigits(s: string) {
    forall i :: 0 <= i < |s| ==> IsDigit(s[i])
  }

  /** The value of the digits `ds` read after an accumulated prefix `acc`
      (Horner's rule, most significant digit first). */
  function Horner(acc: nat, ds: string): nat
    requires AllDigits(ds)
    decreases |ds|
  {
    if ds == [] then acc else Horner(acc * 10 + DigitValue(ds[0]), ds[1..])
  }

  /** The left-to-right digit loop of Rust's `from_str_radix` for `u64`:
      at each position the digit is checked first, then the multiply-add
      for overflow. */
  function ScanDigits(ds: string, acc: nat): (r: Result<nat, IntErrorKind>)
    requires acc <= U64_MAX
    ensures r.Ok? ==> r.value <= U64_MAX
    ensures r.Ok? ==> AllDigits(ds) && r.value == Horner(acc, ds)
    ensures r != Err(Empty)
  {
    if ds == [] then Ok(acc)
    else if !IsDigit(ds[0]) then Err(InvalidDigit)
    else
      var next := acc * 10 + DigitValue(ds[0]);
      if next > U64_MAX then Err(PosOverflow) else ScanDigits(ds[1..], next)
  }

  /** `s.parse::<u64>()` (and `usize` on a 64-bit target): an optional
      leading `+`, then one or more decimal digits, value at most 2^64 - 1. */
  function ParseU64(s: string): (r: Result<nat, IntErrorKind>)
    ensures r.Ok? ==> r.value <= U64_MAX
    ensures s == [] <==> r == Err(Empty)
  {
    if s == [] then Err(Empty)
    else if (s[0] == '+' || s[0] == '-') && |s| == 1 then Err(InvalidDigit)
    else ScanDigits(if s[0] == '+' then s[1..] else s, 0)
  }

  /** `n.to_string()` for an unsigned integer. */
  function Decimal(n: nat): (s: string)
    ensures |s| > 0 && AllDigits(s)
  {
    if n < 10 then [DigitChar(n)] else Decimal(n / 10) + [DigitChar(n % 10)]
  }

  lemma {:induction false} HornerSnoc(acc: nat, ds: string, c: char)
    requires AllDigits(ds) && IsDigit(c)
    ensures AllDigits(ds + [c])
    ensures Horner(acc, ds + [c]) == Horner(acc, ds) * 10 + DigitValue(c)
    decreases |ds|
  {
    if ds != [] {
      assert (ds + [c])[1..] == ds[1..] + [c];
      HornerSnoc(acc * 10 + DigitValue(ds[0]), ds[1..], c);
    }
  }

  lemma {:induction false} HornerDecimal(n: nat)
    ensures Horner(0, Decimal(n)) == n
  {
    if n >= 10 {
      HornerDecimal(n / 10);
      HornerSnoc(0, Decimal(n / 10), DigitChar(n % 10));
    } else {
      assert Decimal(n)[1..] == [];
    }
  }

  lemma {:induction false} HornerGrows(acc: nat, ds: string)
    requires AllDigits(ds)
    ensures acc <= Horner(acc, ds)
    decreases |ds|
  {
    if ds != [] {
      HornerGrows(acc * 10 + DigitValue(ds[0]), ds[1..]);
    }
  }

  lemma {:induction false} ScanDigitsOk(ds: string, acc: nat)
    requires acc <= U64_MAX && AllDigits(ds) && Horner(acc, ds) <= U64_MAX
    ensures ScanDigits(ds, acc) == Ok(Horner(acc, ds))
    decreases |ds|
  {
    if ds != [] {
      var next := acc * 10 + DigitValue(ds[0]);
      HornerGrows(next, ds[1..]);
      ScanDigitsOk(ds[1..], next);
    }
  }

  /** Parsing the decimal rendering of any `u64` gives the number back. */
  lemma ParseDecimal(n: nat)
    requires n <= U64_MAX
    ensures ParseU64(Decimal(n)) == Ok(n)
  {
    HornerDecimal(n);
    ScanDigitsOk(Decimal(n), 0);
  }

  /** `s.split(sep).collect::<Vec<_>>()`: the maximal pieces between the
      separators, empty pieces included; always at least one piece. */
  function Split(s: string, sep: char): (parts: seq<string>)
    ensures |parts| >= 1
  {
    if s == [] then [""]
    else if s[0] == sep then [""] + Split(s[1..], sep)
    else
      var rest := Split(s[1..], sep);
      [[s[0]] + rest[0]] + rest[1..]
  }

  lemma {:induction false} SplitNoSep(s: string, sep: char)
    requires sep !in s
    ensures Split(s, sep) == [s]
  {
    if s != [] {
      SplitNoSep(s[1..], sep);
      assert [s[0]] + s[1..] == s;
    }
  }

  lemma {:induction false} SplitPiece(a: string, sep: char, rest: string)
    requires sep !in a
    ensures Split(a + [sep] + rest, sep) == [a] + Split(rest, sep)
  {
    if a == [] {
      assert a + [sep] + rest == [sep] + rest;
    } else {
      assert (a + [sep] + rest)[1..] == a[1..] + [sep] + rest;
      SplitPiece(a[1..], sep, rest);
      assert [a[0]] + a[1..] == a;
    }
  }

  /** No piece of a split holds the separator. */
  lemma {:induction false} SplitPiecesNoSep(s: string, sep: char)
    ensures forall k | 0 <= k < |Split(s, sep)| :: sep !in Split(s, sep)[k]
  {
    if s != [] {
      SplitPiecesNoSep(s[1..], sep);
    }
  }

  /** Python's `needle in hay` for strings: a search from the left. */
  predicate Contains(hay: string, needle: string)
    decreases |hay|
  {
    |needle| <= |hay| && (hay[..|needle|] == needle || (hay != [] && Contains(hay[1..], needle)))
  }

  /** `needle in hay` holds exactly when the needle occurs at some
      position of the hay. */
  lemma {:induction false} ContainsOccurs(hay: string, needle: string)
    ensures Contains(hay, needle) <==> exists i | 0 <= i <= |hay| - |needle| :: OccursAt(hay, needle, i)
    decreases |hay|
  {
    if |needle| <= |hay| && hay[..|needle|] == needle {
      assert OccursAt(hay, needle, 0);
    } else if |needle| <= |hay| && hay != [] {
      ContainsOccurs(hay[1..], needle);
      if Contains(hay[1..], needle) {
        var i :| 0 <= i <= |hay| - 1 - |needle| && OccursAt(hay[1..], needle, i);
        assert hay[i + 1..i + 1 + |needle|] == hay[1..][i..i + |needle|];
        assert OccursAt(hay, needle, i + 1);
      }
      if exists i | 0 <= i <= |hay| - |needle| :: OccursAt(hay, needle, i) {
        var i :| 0 <= i <= |hay| - |needle| && OccursAt(hay, needle, i);
        assert i > 0;
        if i > 0 {
          assert hay[1..][i - 1..i - 1 + |needle|] == hay[i..i + |needle|];
          assert OccursAt(hay[1..], needle, i - 1);
        }
      }
    }
  }

  predicate OccursAt(hay: string, needle: string, i: int) {
    0 <= i <= |hay| - |needle| && hay[i..i + |needle|] == needle
  }

  function LowerChar(c: char): char {
    if 'A' <= c <= 'Z' then ((c as int) + 32) as char else c
  }

  /** `s.lower()` restricted to ASCII letters. */
  function Lower(s: string): (r: string)
    ensures |r| == |s|
    ensures forall i :: 0 <= i < |s| ==> r[i] == LowerChar(s[i])
  {
    seq(|s|, i requires 0 <= i < |s| => LowerChar(s[i]))
  }
}
