/** Shared vocabulary of the model: the Rust integer widths the library uses,
    `Option`, decimal formatting as `format!("{}")` produces it, splitting a
    string at a separator character, and the UTF-8 length that `str::len` and
    `str::bytes` measure. */
module Common {

  datatype Option<+T> = None | Some(value: T)

  /** Rust `u16`. */
  const U16_MAX: nat := 65535
  type U16 = n: nat | n <= 65535

  /** Rust `i32`. */
  const I32_MIN: int := -0x8000_0000
  const I32_MAX: int := 0x7FFF_FFFF
  type I32 = n: int | -0x8000_0000 <= n <= 0x7FFF_FFFF

  /** Rust `usize` (64-bit targets). */
  const USIZE_MAX: nat := 0xFFFF_FFFF_FFFF_FFFF

  function Max(a: int, b: int): int { if a >= b then a else b }
  function Min(a: int, b: int): int { if a <= b then a else b }

  // ---------------------------------------------------------------------
  // Decimal formatting (`format!("{}", n)` for unsigned integers)
  // ---------------------------------------------------------------------

  predicate IsDigit(c: char) { '0' <= c <= '9' }

  predicate AllDigits(s: string) { forall i :: 0 <= i < |s| ==> IsDigit(s[i]) }

  function DigitChar(d: nat): (c: char)
    requires d < 10
    ensures IsDigit(c) && c as int - '0' as int == d
  {
    (d + '0' as int) as char
  }

  /** The shortest decimal spelling of `n`, as Rust's `Display` for integers prints it. */
  function Decimal(n: nat): (s: string)
    ensures 1 <= |s| && AllDigits(s)
    ensures |s| > 1 ==> s[0] != '0'
    decreases n
  {
    if n < 10 then [DigitChar(n)] else Decimal(n / 10) + [DigitChar(n % 10)]
  }

  /** The value a string of decimal digits denotes (the inverse of `Decimal`). */
  function DecimalValue(s: string): nat
    requires AllDigits(s)
  {
    if s == [] then 0
    else DecimalValue(s[..|s| - 1]) * 10 + (s[|s| - 1] as int - '0' as int)
  }

  lemma {:induction false} DecimalRoundTrip(n: nat)
    ensures DecimalValue(Decimal(n)) == n
  {
    if n >= 10 {
      var s := Decimal(n);
      assert s[..|s| - 1] == Decimal(n / 10);
      DecimalRoundTrip(n / 10);
    }
  }

  lemma DecimalInjective(m: nat, n: nat)
    requires Decimal(m) == Decimal(n)
    ensures m == n
  {
    DecimalRoundTrip(m);
    DecimalRoundTrip(n);
  }

  // ---------------------------------------------------------------------
  // Splitting at a separator character (every piece, including empty ones)
  // ---------------------------------------------------------------------

  predicate Lacks(s: string, sep: char) { forall i :: 0 <= i < |s| ==> s[i] != sep }

  /** The pieces between occurrences of `sep`; k separators give k + 1 pieces. */
  function Split(s: string, sep: char): (r: seq<string>)
    ensures |r| >= 1
    decreases |s|
  {
    if s == [] then [[]]
    else
      var init := Split(s[..|s| - 1], sep);
      if s[|s| - 1] == sep then init + [[]]
      else init[..|init| - 1] + [init[|init| - 1] + [s[|s| - 1]]]
  }

  /** Joins pieces with `sep` between consecutive ones. */
  function Join(parts: seq<string>, sep: char): string
    requires |parts| >= 1
  {
    if |parts| == 1 then parts[0]
    else Join(parts[..|parts| - 1], sep) + [sep] + parts[|parts| - 1]
  }

  lemma JoinSnoc(front: seq<string>, x: string, sep: char)
    requires |front| >= 1
    ensures Join(front + [x], sep) == Join(front, sep) + [sep] + x
  {
    assert (front + [x])[..|front|] == front;
  }

  /** Number of occurrences of `c` in `s`. */
  function Count(c: char, s: string): nat
  {
    if s == [] then 0 else Count(c, s[..|s| - 1]) + (if s[|s| - 1] == c then 1 else 0)
  }

  /** One more character either starts a new piece or extends the last one. */
  lemma SplitSnoc(p: string, c: char, sep: char)
    ensures var init := Split(p, sep);
      Split(p + [c], sep) ==
        if c == sep then init + [[]]
        else init[..|init| - 1] + [init[|init| - 1] + [c]]
  {
    assert (p + [c])[..|p + [c]| - 1] == p;
  }

  lemma {:induction false} SplitCount(s: string, sep: char)
    ensures |Split(s, sep)| == Count(sep, s) + 1
    decreases |s|
  {
    if s != [] {
      var p := s[..|s| - 1];
      assert p + [s[|s| - 1]] == s;
      SplitCount(p, sep);
      SplitSnoc(p, s[|s| - 1], sep);
    }
  }

  lemma {:induction false} SplitPiecesLackSep(s: string, sep: char)
    ensures forall k :: 0 <= k < |Split(s, sep)| ==> Lacks(Split(s, sep)[k], sep)
    decreases |s|
  {
    if s != [] {
      var p, c := s[..|s| - 1], s[|s| - 1];
      assert p + [c] == s;
      SplitPiecesLackSep(p, sep);
      SplitSnoc(p, c, sep);
      var init, r := Split(p, sep), Split(s, sep);
      forall k | 0 <= k < |r| ensures Lacks(r[k], sep) {
        if c == sep {
          if k < |init| { assert r[k] == init[k]; }
        } else if k < |init| - 1 {
          assert r[k] == init[k];
        } else {
          assert r[k] == init[|init| - 1] + [c];
        }
      }
    }
  }

  /** Joining the pieces with the separator gives the string back. */
  lemma {:induction false} SplitJoin(s: string, sep: char)
    ensures Join(Split(s, sep), sep) == s
    decreases |s|
  {
    if s != [] {
      var p, c := s[..|s| - 1], s[|s| - 1];
      assert p + [c] == s;
      SplitJoin(p, sep);
      SplitSnoc(p, c, sep);
      var init, r := Split(p, sep), Split(s, sep);
      if c == sep {
        assert r[..|r| - 1] == init;
        assert Join(r, sep) == Join(init, sep) + [sep] + [];
      } else {
        var last := init[|init| - 1] + [c];
        if |init| == 1 {
          assert Join(r, sep) == last;
        } else {
          var front := init[..|init| - 1];
          assert r[..|r| - 1] == front;
          assert Join(init, sep) == Join(front, sep) + [sep] + init[|init| - 1];
          assert Join(r, sep) == Join(front, sep) + [sep] + last;
        }
      }
    }
  }

  /** A separator splits the string into the pieces of its two sides. */
  lemma {:induction false} SplitAtSep(a: string, b: string, sep: char)
    ensures Split(a + [sep] + b, sep) == Split(a, sep) + Split(b, sep)
    decreases |b|
  {
    var an := a + [sep];
    if b == [] {
      assert an + b == an;
      SplitSnoc(a, sep, sep);
    } else {
      var b', c := b[..|b| - 1], b[|b| - 1];
      assert b' + [c] == b;
      assert an + b == (an + b') + [c];
      SplitAtSep(a, b', sep);
      SplitAtSepStep(an + b', b', c, Split(a, sep), sep);
    }
  }

  lemma SplitAtSepStep(x: string, b': string, c: char, left: seq<string>, sep: char)
    requires Split(x, sep) == left + Split(b', sep)
    ensures Split(x + [c], sep) == left + Split(b' + [c], sep)
  {
    var right := Split(b', sep);
    SplitSnoc(x, c, sep);
    assert Split(x + [c], sep) == PiecesSnoc(left + right, c, sep);
    SnocPieces(left, right, c, sep);
    SplitSnoc(b', c, sep);
    assert Split(b' + [c], sep) == PiecesSnoc(right, c, sep);
  }

  /** The pieces after one more character: a new empty piece, or a longer last one. */
  function PiecesSnoc(pieces: seq<string>, c: char, sep: char): seq<string>
    requires |pieces| >= 1
  {
    if c == sep then pieces + [[]] else pieces[..|pieces| - 1] + [pieces[|pieces| - 1] + [c]]
  }

  /** Extending `left + right` by a character touches only the `right` part. */
  lemma SnocPieces(left: seq<string>, right: seq<string>, c: char, sep: char)
    requires |right| >= 1
    ensures PiecesSnoc(left + right, c, sep) == left + PiecesSnoc(right, c, sep)
  {
    var init := left + right;
    if c != sep {
      var n := |right| - 1;
      assert init[..|init| - 1] == left + right[..n];
      assert init[|init| - 1] == right[n];
    }
  }

  lemma {:induction false} SplitLacking(a: string, sep: char)
    requires Lacks(a, sep)
    ensures Split(a, sep) == [a]
    decreases |a|
  {
    if a != [] {
      SplitLacking(a[..|a| - 1], sep);
      assert a[..|a| - 1] + [a[|a| - 1]] == a;
      SplitSnoc(a[..|a| - 1], a[|a| - 1], sep);
    }
  }

  /** Splitting undoes joining, when no piece contains the separator. */
  lemma {:induction false} JoinSplit(parts: seq<string>, sep: char)
    requires |parts| >= 1
    requires forall k :: 0 <= k < |parts| ==> Lacks(parts[k], sep)
    ensures Split(Join(parts, sep), sep) == parts
    decreases |parts|
  {
    var last := parts[|parts| - 1];
    SplitLacking(last, sep);
    if |parts| > 1 {
      var front := parts[..|parts| - 1];
      JoinSplit(front, sep);
      SplitAtSep(Join(front, sep), last, sep);
      assert front + [last] == parts;
    }
  }

  // ---------------------------------------------------------------------
  // UTF-8 lengths (`str::len`, the number of `str::bytes`)
  // ---------------------------------------------------------------------

  /** Number of bytes in the UTF-8 encoding of `c`. */
  function Utf8Len(c: char): (n: nat)
    ensures 1 <= n <= 4
    ensures n == 1 <==> c as int < 0x80
  {
    if c as int < 0x80 then 1
    else if c as int < 0x800 then 2
    else if c as int < 0x1_0000 then 3
    else 4
  }

  function ByteLen(s: string): nat
  {
    if s == [] then 0 else ByteLen(s[..|s| - 1]) + Utf8Len(s[|s| - 1])
  }

  predicate IsAscii(s: string) { forall i :: 0 <= i < |s| ==> s[i] as int < 0x80 }

  lemma {:induction false} ByteLenAppend(a: string, b: string)
    ensures ByteLen(a + b) == ByteLen(a) + ByteLen(b)
    decreases |b|
  {
    if b != [] {
      var b' := b[..|b| - 1];
      assert (a + b)[..|a + b| - 1] == a + b';
      assert (a + b)[|a + b| - 1] == b[|b| - 1];
      ByteLenAppend(a, b');
      assert ByteLen(a + b) == ByteLen(a + b') + Utf8Len(b[|b| - 1]);
      assert ByteLen(b) == ByteLen(b') + Utf8Len(b[|b| - 1]);
    } else {
      assert a + b == a;
    }
  }

  lemma {:induction false} AsciiByteLen(s: string)
    requires IsAscii(s)
    ensures ByteLen(s) == |s|
    decreases |s|
  {
    if s != [] {
      AsciiByteLen(s[..|s| - 1]);
    }
  }

  /** `s.repeat(n)`. */
  function Repeat(s: string, n: nat): (r: string)
    ensures |r| == n * |s|
  {
    if n == 0 then [] else Repeat(s, n - 1) + s
  }

  /** The largest element, or 0 for no elements. */
  function SeqMax(xs: seq<nat>): nat
  {
    if xs == [] then 0 else Max(SeqMax(xs[..|xs| - 1]), xs[|xs| - 1])
  }

  lemma SeqMaxSnoc(xs: seq<nat>, x: nat)
    ensures SeqMax(xs + [x]) == Max(SeqMax(xs), x)
  {
    assert (xs + [x])[..|xs|] == xs;
  }

  /** `SeqMax` bounds every element and, for a non-empty sequence, is one of them. */
  lemma {:induction false} SeqMaxIsMax(xs: seq<nat>)
    ensures forall i :: 0 <= i < |xs| ==> xs[i] <= SeqMax(xs)
    ensures |xs| > 0 ==> exists i :: 0 <= i < |xs| && xs[i] == SeqMax(xs)
  {
    if xs != [] {
      var init := xs[..|xs| - 1];
      SeqMaxIsMax(init);
      assert forall i :: 0 <= i < |init| ==> xs[i] == init[i];
      if SeqMax(xs) != xs[|xs| - 1] {
        var i :| 0 <= i < |init| && init[i] == SeqMax(init);
        assert xs[i] == SeqMax(xs);
      }
    }
  }

  lemma {:induction false} SeqMaxAppend(xs: seq<nat>, ys: seq<nat>)
    ensures SeqMax(xs + ys) == Max(SeqMax(xs), SeqMax(ys))
    decreases |ys|
  {
    if ys == [] {
      assert xs + ys == xs;
    } else {
      var ys', y := ys[..|ys| - 1], ys[|ys| - 1];
      assert xs + ys == (xs + ys') + [y];
      assert ys == ys' + [y];
      SeqMaxAppend(xs, ys');
      SeqMaxSnoc(xs + ys', y);
      SeqMaxSnoc(ys', y);
    }
  }

  function Abs(n: int): (r: nat)
    ensures r == n || r == -n
  {
    if n < 0 then -n else n
  }

  /** `iter().position(|v| v == x)`: the index of the first element equal to `x`. */
  function Position<T(==)>(xs: seq<T>, x: T): (r: Option<nat>)
    ensures r.None? <==> x !in xs
    ensures r.Some? ==> r.value < |xs| && xs[r.value] == x && x !in xs[..r.value]
  {
    if xs == [] then None
    else if xs[0] == x then Some(0)
    else match Position(xs[1..], x)
      case None => None
      case Some(i) =>
        assert xs[..i + 1] == [xs[0]] + xs[1..][..i];
        Some(i + 1)
  }

  /** Stepping an index forward or back with wrap-around, as remainders. */
  lemma WrapSteps(i: nat, n: nat)
    ensures i < n ==> (i + 1) % n == if i + 1 < n then i + 1 else 0
    ensures i < n ==> (i + n - 1) % n == if i > 0 then i - 1 else n - 1
  {
    if i < n {
      if i + 1 < n {
        ModBelow(i + 1, n);
      } else {
        ModShift(0, n);
      }
      if i > 0 {
        ModShift(i - 1, n);
      } else {
        ModBelow(n - 1, n);
      }
    }
  }

  lemma ModBelow(a: nat, n: nat)
    requires a < n
    ensures a % n == a
  {
  }

  lemma ModShift(a: nat, n: nat)
    requires a < n
    ensures (a + n) % n == a
  {
    ModBelow(a, n);
  }
}
