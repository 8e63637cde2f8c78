/** Select Graphic Rendition control sequences of ECMA-48 (section 8.3.117):
    ESC '[' followed by decimal parameters separated by ';' and a final 'm'.
    `Sequence` writes one; `Parameters` reads one back. The colour and font
    escapes of the library are stated against these two. */
module Sgr {
  import opened Common

  const ESC: char := '\U{1B}'

  /** The decimal spellings of `ps`, in order. */
  function Spell(ps: seq<nat>): (r: seq<string>)
    ensures |r| == |ps|
    ensures forall k :: 0 <= k < |r| ==> r[k] == Decimal(ps[k])
  {
    if ps == [] then [] else Spell(ps[..|ps| - 1]) + [Decimal(ps[|ps| - 1])]
  }

  /** `ESC [ p1 ; p2 ; ... m`. */
  function Sequence(ps: seq<nat>): string
    requires |ps| >= 1
  {
    [ESC, '['] + Join(Spell(ps), ';') + ['m']
  }

  predicate IsField(f: string) { |f| >= 1 && AllDigits(f) }

  /** The values of a list of decimal fields. */
  function Values(fields: seq<string>): (r: seq<nat>)
    requires forall k :: 0 <= k < |fields| ==> AllDigits(fields[k])
    ensures |r| == |fields|
    ensures forall k :: 0 <= k < |r| ==> r[k] == DecimalValue(fields[k])
  {
    if fields == [] then [] else Values(fields[..|fields| - 1]) + [DecimalValue(fields[|fields| - 1])]
  }

  /** Reads the parameters of an SGR sequence; `None` when `s` is not one. */
  function Parameters(s: string): Option<seq<nat>>
  {
    if |s| >= 3 && s[0] == ESC && s[1] == '[' && s[|s| - 1] == 'm' then
      var fields := Split(s[2..|s| - 1], ';');
      if forall k :: 0 <= k < |fields| ==> IsField(fields[k]) then Some(Values(fields))
      else None
    else None
  }

  lemma SpellSplit(ps: seq<nat>)
    requires |ps| >= 1
    ensures Split(Join(Spell(ps), ';'), ';') == Spell(ps)
  {
    var fields := Spell(ps);
    forall k | 0 <= k < |fields| ensures Lacks(fields[k], ';') {
      assert AllDigits(fields[k]);
    }
    JoinSplit(fields, ';');
  }

  lemma SpellValues(ps: seq<nat>)
    ensures Values(Spell(ps)) == ps
  {
    var vs := Values(Spell(ps));
    forall k | 0 <= k < |ps| ensures vs[k] == ps[k] {
      DecimalRoundTrip(ps[k]);
    }
  }

  /** Reading a written sequence gives back its parameters. */
  lemma RoundTrip(ps: seq<nat>)
    requires |ps| >= 1
    ensures Parameters(Sequence(ps)) == Some(ps)
  {
    var fields := Spell(ps);
    var s := Sequence(ps);
    assert s[2..|s| - 1] == Join(fields, ';');
    SpellSplit(ps);
    SpellValues(ps);
    ReadFields(s, fields);
  }

  /** `Parameters` of a sequence whose body splits into the given fields. */
  lemma ReadFields(s: string, fields: seq<string>)
    requires |s| >= 3 && s[0] == ESC && s[1] == '[' && s[|s| - 1] == 'm'
    requires Split(s[2..|s| - 1], ';') == fields
    requires forall k :: 0 <= k < |fields| ==> |fields[k]| >= 1 && AllDigits(fields[k])
    ensures Parameters(s) == Some(Values(fields))
  {
  }

  /** Distinct parameter lists give distinct sequences. */
  lemma Injective(ps: seq<nat>, qs: seq<nat>)
    requires |ps| >= 1 && |qs| >= 1 && Sequence(ps) == Sequence(qs)
    ensures ps == qs
  {
    RoundTrip(ps);
    RoundTrip(qs);
  }

  /** A sequence of five parameters, spelled out. */
  lemma Sequence5(a: nat, b: nat, c: nat, d: nat, e: nat)
    ensures Sequence([a, b, c, d, e]) ==
      [ESC, '['] + Decimal(a) + ";" + Decimal(b) + ";" + Decimal(c) + ";" + Decimal(d) + ";" + Decimal(e) + "m"
  {
    var da, db, dc, dd, de := Decimal(a), Decimal(b), Decimal(c), Decimal(d), Decimal(e);
    assert Spell([a, b, c, d, e]) == [da, db, dc, dd, de];
    Join5(da, db, dc, dd, de, ';');
    Regroup5([ESC, '['], da, db, dc, dd, de, ";", "m");
  }

  lemma Join5(a: string, b: string, c: string, d: string, e: string, sep: char)
    ensures Join([a, b, c, d, e], sep) == a + [sep] + b + [sep] + c + [sep] + d + [sep] + e
  {
    JoinSnoc([a], b, sep);
    assert [a] + [b] == [a, b];
    JoinSnoc([a, b], c, sep);
    assert [a, b] + [c] == [a, b, c];
    JoinSnoc([a, b, c], d, sep);
    assert [a, b, c] + [d] == [a, b, c, d];
    JoinSnoc([a, b, c, d], e, sep);
    assert [a, b, c, d] + [e] == [a, b, c, d, e];
  }

  lemma Regroup5(p: string, a: string, b: string, c: string, d: string, e: string, sep: string, m: string)
    ensures p + (a + sep + b + sep + c + sep + d + sep + e) + m == p + a + sep + b + sep + c + sep + d + sep + e + m
  {
  }

  /** A sequence with one parameter of one or two digits, spelled out. */
  lemma ShortCode(p: nat)
    requires p < 100
    ensures p < 10 ==> Sequence([p]) == [ESC, '[', DigitChar(p), 'm']
    ensures 10 <= p ==> Sequence([p]) == [ESC, '[', DigitChar(p / 10), DigitChar(p % 10), 'm']
  {
    assert Spell([p]) == [Decimal(p)];
    assert Join([Decimal(p)], ';') == Decimal(p);
  }

  /** `ESC [ 0 m`, the reset sequence appended after styled text. */
  const Reset: string := Sequence([0])

  /** The characters a terminal shows for `s`: every escape sequence, from ESC up to
      and including the next 'm', is dropped. */
  function Visible(s: string): (r: string)
    ensures |r| <= |s|
    decreases |s|, 1
  {
    if s == [] then []
    else if s[0] == ESC then VisibleAfterEsc(s[1..])
    else [s[0]] + Visible(s[1..])
  }

  function VisibleAfterEsc(s: string): (r: string)
    ensures |r| <= |s|
    decreases |s|, 0
  {
    if s == [] then []
    else if s[0] == 'm' then Visible(s[1..])
    else VisibleAfterEsc(s[1..])
  }

  /** Text without ESC is shown as it is. */
  lemma {:induction false} VisiblePlain(a: string, b: string)
    requires forall i :: 0 <= i < |a| ==> a[i] != ESC
    ensures Visible(a + b) == a + Visible(b)
    decreases |a|
  {
    if a != [] {
      assert (a + b)[0] == a[0] && (a + b)[1..] == a[1..] + b;
      VisiblePlain(a[1..], b);
      assert [a[0]] + a[1..] == a;
    } else {
      assert a + b == b;
    }
  }

  /** Joining pieces that lack `c` with a separator other than `c` gives a string
      that lacks `c`. */
  lemma {:induction false} JoinLacks(parts: seq<string>, sep: char, c: char)
    requires |parts| >= 1 && c != sep
    requires forall k :: 0 <= k < |parts| ==> Lacks(parts[k], c)
    ensures Lacks(Join(parts, sep), c)
    decreases |parts|
  {
    if |parts| > 1 {
      JoinLacks(parts[..|parts| - 1], sep, c);
    }
  }

  /** After an ESC, everything up to the first 'm' is dropped. */
  lemma {:induction false} VisibleAfterEscSkips(x: string, b: string)
    requires Lacks(x, 'm')
    ensures VisibleAfterEsc(x + ['m'] + b) == Visible(b)
    decreases |x|
  {
    if x == [] {
      assert (x + ['m'] + b)[1..] == b;
    } else {
      assert (x + ['m'] + b)[1..] == x[1..] + ['m'] + b;
      VisibleAfterEscSkips(x[1..], b);
    }
  }

  /** Every SGR sequence shows nothing. */
  lemma VisibleSequence(ps: seq<nat>, b: string)
    requires |ps| >= 1
    ensures Visible(Sequence(ps) + b) == Visible(b)
  {
    var body := Join(Spell(ps), ';');
    forall k | 0 <= k < |ps| ensures Lacks(Spell(ps)[k], 'm') {
      assert AllDigits(Spell(ps)[k]);
    }
    JoinLacks(Spell(ps), ';', 'm');
    var s := Sequence(ps) + b;
    assert s[1..] == ['['] + body + ['m'] + b;
    VisibleAfterEscSkips(['['] + body, b);
  }
}
