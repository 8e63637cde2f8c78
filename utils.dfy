/** Text measurement and true-colour escapes (src/utils.rs). */
module Utils {
  import opened Common
  import Sgr

  // ---------------------------------------------------------------------
  // str_size
  // ---------------------------------------------------------------------

  /** The byte length of each line. */
  function Widths(lines: seq<string>): (r: seq<nat>)
    ensures |r| == |lines|
    ensures forall k :: 0 <= k < |r| ==> r[k] == ByteLen(lines[k])
  {
    if lines == [] then [] else Widths(lines[..|lines| - 1]) + [ByteLen(lines[|lines| - 1])]
  }

  /** The size `str_size` reports for `s`: the widest '\n'-separated piece,
      in bytes, and the number of pieces. */
  function Size(s: string): Extent
  {
    var lines := Split(s, '\n');
    Extent(SeqMax(Widths(lines)), |lines|)
  }

  datatype Extent = Extent(width: nat, height: nat)

  /** The counters of `str_size` after reading `p`: the number of lines so
      far, the byte length of the line being read and the widest line before it. */
  predicate Scanned(p: string, height: nat, current: nat, maxWidth: nat)
  {
    var lines := Split(p, '\n');
    height == |lines| &&
    current == ByteLen(lines[|lines| - 1]) &&
    maxWidth == SeqMax(Widths(lines[..|lines| - 1]))
  }

  lemma ScannedNewline(p: string, height: nat, current: nat, maxWidth: nat)
    requires Scanned(p, height, current, maxWidth)
    ensures Scanned(p + ['\n'], height + 1, 0, Max(maxWidth, current))
  {
    var lines := Split(p, '\n');
    SplitSnoc(p, '\n', '\n');
    var next := Split(p + ['\n'], '\n');
    assert next[..|next| - 1] == lines;
    assert lines == lines[..|lines| - 1] + [lines[|lines| - 1]];
    WidthsAppend(lines[..|lines| - 1], [lines[|lines| - 1]]);
    SeqMaxSnoc(Widths(lines[..|lines| - 1]), current);
  }

  lemma ScannedOther(p: string, c: char, height: nat, current: nat, maxWidth: nat)
    requires c != '\n' && Scanned(p, height, current, maxWidth)
    ensures Scanned(p + [c], height, current + Utf8Len(c), maxWidth)
  {
    var lines := Split(p, '\n');
    SplitSnoc(p, c, '\n');
    var next := Split(p + [c], '\n');
    var last := lines[|lines| - 1];
    assert next[..|next| - 1] == lines[..|lines| - 1];
    assert (last + [c])[..|last|] == last;
  }

  lemma ScannedSize(s: string, height: nat, current: nat, maxWidth: nat)
    requires Scanned(s, height, current, maxWidth)
    ensures Size(s) == Extent(Max(maxWidth, current), height)
  {
    var lines := Split(s, '\n');
    assert lines == lines[..|lines| - 1] + [lines[|lines| - 1]];
    WidthsAppend(lines[..|lines| - 1], [lines[|lines| - 1]]);
    SeqMaxSnoc(Widths(lines[..|lines| - 1]), current);
  }

  /** `str_size`: one pass over the bytes, counting '\n' as a line break. The
      counters only grow, so a result that fits `u16` means that none of the
      additions on the way overflowed. */
  method StrSize(s: string) returns (width: U16, height: U16)
    requires Size(s).width <= U16_MAX && Size(s).height <= U16_MAX
    ensures width == Size(s).width && height == Size(s).height
  {
    var h: nat := 1;
    var maxWidth: nat := 0;
    var current: nat := 0;
    ScannedStart(s);
    var i := 0;
    while i < |s|
      invariant 0 <= i <= |s|
      invariant Scanned(s[..i], h, current, maxWidth)
    {
      ScannedStep(s, i, h, current, maxWidth);
      if s[i] == '\n' {
        h := h + 1;
        maxWidth := Max(maxWidth, current);
        current := 0;
      } else {
        current := current + Utf8Len(s[i]);
      }
      i := i + 1;
    }
    ScannedAll(s, h, current, maxWidth);
    width, height := Max(maxWidth, current), h;
  }

  lemma ScannedStart(s: string)
    ensures Scanned(s[..0], 1, 0, 0)
  {
    assert s[..0] == [];
  }

  lemma ScannedStep(s: string, i: nat, height: nat, current: nat, maxWidth: nat)
    requires i < |s| && Scanned(s[..i], height, current, maxWidth)
    ensures s[i] == '\n' ==> Scanned(s[..i + 1], height + 1, 0, Max(maxWidth, current))
    ensures s[i] != '\n' ==> Scanned(s[..i + 1], height, current + Utf8Len(s[i]), maxWidth)
  {
    assert s[..i + 1] == s[..i] + [s[i]];
    if s[i] == '\n' {
      ScannedNewline(s[..i], height, current, maxWidth);
    } else {
      ScannedOther(s[..i], s[i], height, current, maxWidth);
    }
  }

  lemma ScannedAll(s: string, height: nat, current: nat, maxWidth: nat)
    requires Scanned(s[..|s|], height, current, maxWidth)
    ensures Size(s) == Extent(Max(maxWidth, current), height)
  {
    assert s[..|s|] == s;
    ScannedSize(s, height, current, maxWidth);
  }

  /** The height is one more than the number of '\n' characters. */
  lemma SizeHeight(s: string)
    ensures Size(s).height == Count('\n', s) + 1
  {
    SplitCount(s, '\n');
  }

  /** The width bounds the byte length of every line and is reached by one. */
  lemma SizeWidth(s: string)
    ensures forall k :: 0 <= k < |Split(s, '\n')| ==> ByteLen(Split(s, '\n')[k]) <= Size(s).width
    ensures exists k :: 0 <= k < |Split(s, '\n')| && ByteLen(Split(s, '\n')[k]) == Size(s).width
  {
    var lines := Split(s, '\n');
    var ws := Widths(lines);
    SeqMaxIsMax(ws);
    var k :| 0 <= k < |ws| && ws[k] == SeqMax(ws);
    assert ByteLen(lines[k]) == Size(s).width;
  }

  lemma WidthsAppend(xs: seq<string>, ys: seq<string>)
    ensures Widths(xs + ys) == Widths(xs) + Widths(ys)
  {
    var l, r := Widths(xs + ys), Widths(xs) + Widths(ys);
    assert |l| == |r|;
    forall k | 0 <= k < |l| ensures l[k] == r[k] {
      if k < |xs| { assert (xs + ys)[k] == xs[k]; } else { assert (xs + ys)[k] == ys[k - |xs|]; }
    }
  }

  /** Two texts stacked with a line break between them measure as the wider
      of the two and the sum of their heights. */
  lemma SizeStack(a: string, b: string)
    ensures Size(a + "\n" + b).width == Max(Size(a).width, Size(b).width)
    ensures Size(a + "\n" + b).height == Size(a).height + Size(b).height
  {
    var la, lb := Split(a, '\n'), Split(b, '\n');
    var ab := a + "\n" + b;
    assert ab == a + ['\n'] + b;
    SplitAtSep(a, b, '\n');
    assert Split(ab, '\n') == la + lb;
    WidthsAppend(la, lb);
    assert Widths(Split(ab, '\n')) == Widths(la) + Widths(lb);
    SeqMaxAppend(Widths(la), Widths(lb));
    assert Size(ab).width == Max(SeqMax(Widths(la)), SeqMax(Widths(lb)));
    assert Size(ab).height == |la| + |lb|;
  }

  /** A text without line breaks is one line as wide as its byte length. */
  lemma SizeSingleLine(s: string)
    requires Lacks(s, '\n')
    ensures Size(s) == Extent(ByteLen(s), 1)
  {
    SplitLacking(s, '\n');
    assert Widths([s]) == [ByteLen(s)];
  }

  /** Two ASCII lines joined by a line break measure as the longer line by 2. */
  lemma SizeTwoAsciiLines(a: string, b: string)
    requires IsAscii(a) && IsAscii(b) && Lacks(a, '\n') && Lacks(b, '\n')
    ensures Size(a + "\n" + b) == Extent(Max(|a|, |b|), 2)
  {
    SizeStack(a, b);
    SizeSingleLine(a);
    SizeSingleLine(b);
    AsciiByteLen(a);
    AsciiByteLen(b);
  }

  /** The library's own example text, "Hello\nWorld!", measures 6 by 2 (the
      documentation comment above `str_size` states 5 by 2). */
  lemma SizeOfHelloWorld()
    ensures Size("Hello\nWorld!") == Extent(6, 2)
  {
    var a, b := "Hello", "World!";
    assert "Hello\nWorld!" == a + "\n" + b;
    SizeTwoAsciiLines(a, b);
  }

  // ---------------------------------------------------------------------
  // hex_ansi / hex_ansi_bg
  // ---------------------------------------------------------------------

  /** `(hex >> 16) & 0xFF`, `(hex >> 8) & 0xFF` and `hex & 0xFF`. */
  function Red(hex: nat): nat { (hex / 0x1_0000) % 0x100 }
  function Green(hex: nat): nat { (hex / 0x100) % 0x100 }
  function Blue(hex: nat): nat { hex % 0x100 }

  /** `hex_ansi`: a 24-bit foreground colour escape for `0xRRGGBB`. */
  function HexAnsi(hex: nat): (s: string)
    requires hex < 0x1_0000_0000
  {
    "\U{1B}[38;2;" + Decimal(Red(hex)) + ";" + Decimal(Green(hex)) + ";" + Decimal(Blue(hex)) + "m"
  }

  /** `hex_ansi_bg`: the same for the background. */
  function HexAnsiBg(hex: nat): (s: string)
    requires hex < 0x1_0000_0000
  {
    "\U{1B}[48;2;" + Decimal(Red(hex)) + ";" + Decimal(Green(hex)) + ";" + Decimal(Blue(hex)) + "m"
  }

  /** The channels of `r * 65536 + g * 256 + b` are `r`, `g` and `b`. */
  lemma ChannelsOf(r: nat, g: nat, b: nat)
    requires r < 256 && g < 256 && b < 256
    ensures var hex := r * 0x1_0000 + g * 0x100 + b;
      Red(hex) == r && Green(hex) == g && Blue(hex) == b
  {
    var hex := r * 0x1_0000 + g * 0x100 + b;
    assert hex / 0x1_0000 == r;
    assert hex / 0x100 == r * 0x100 + g;
  }

  /** `hex_ansi` is the SGR sequence 38;2;r;g;b of the colour's channels, so a
      terminal reading it back finds exactly the red, green and blue bytes. */
  lemma HexAnsiIsSgr(hex: nat)
    requires hex < 0x1_0000_0000
    ensures HexAnsi(hex) == Sgr.Sequence([38, 2, Red(hex), Green(hex), Blue(hex)])
    ensures Sgr.Parameters(HexAnsi(hex)) == Some([38, 2, Red(hex), Green(hex), Blue(hex)])
  {
    var ps := [38, 2, Red(hex), Green(hex), Blue(hex)];
    assert Sgr.Sequence(ps) == "\U{1B}[38;2;" + Decimal(Red(hex)) + ";" + Decimal(Green(hex)) + ";" + Decimal(Blue(hex)) + "m" by {
      Sgr.Sequence5(38, 2, Red(hex), Green(hex), Blue(hex));
      assert Decimal(38) == "38";
      assert Decimal(2) == "2";
      assert [Sgr.ESC, '['] + "38" + ";" + "2" + ";" == "\U{1B}[38;2;";
    }
    Sgr.RoundTrip(ps);
  }

  /** The same for `hex_ansi_bg`, with 48. */
  lemma HexAnsiBgIsSgr(hex: nat)
    requires hex < 0x1_0000_0000
    ensures HexAnsiBg(hex) == Sgr.Sequence([48, 2, Red(hex), Green(hex), Blue(hex)])
    ensures Sgr.Parameters(HexAnsiBg(hex)) == Some([48, 2, Red(hex), Green(hex), Blue(hex)])
  {
    var ps := [48, 2, Red(hex), Green(hex), Blue(hex)];
    assert Sgr.Sequence(ps) == "\U{1B}[48;2;" + Decimal(Red(hex)) + ";" + Decimal(Green(hex)) + ";" + Decimal(Blue(hex)) + "m" by {
      Sgr.Sequence5(48, 2, Red(hex), Green(hex), Blue(hex));
      assert Decimal(48) == "48";
      assert Decimal(2) == "2";
      assert [Sgr.ESC, '['] + "48" + ";" + "2" + ";" == "\U{1B}[48;2;";
    }
    Sgr.RoundTrip(ps);
  }

  /** The top byte of the `u32` is masked away. */
  lemma HexAnsiIgnoresTopByte(hex: nat)
    requires hex < 0x1_0000_0000
    ensures HexAnsi(hex) == HexAnsi(hex % 0x100_0000)
    ensures HexAnsiBg(hex) == HexAnsiBg(hex % 0x100_0000)
  {
    var low := hex % 0x100_0000;
    var top := hex / 0x100_0000;
    RedOfLow(hex, top, low);
    GreenOfLow(hex, top, low);
    BlueOfLow(hex, top, low);
  }

  lemma RedOfLow(hex: nat, top: nat, low: nat)
    requires low < 0x100_0000 && hex == top * 0x100_0000 + low
    ensures Red(hex) == Red(low)
  {
    assert hex == (top * 0x100 + low / 0x1_0000) * 0x1_0000 + low % 0x1_0000;
    assert hex / 0x1_0000 == top * 0x100 + low / 0x1_0000;
  }

  lemma GreenOfLow(hex: nat, top: nat, low: nat)
    requires low < 0x100_0000 && hex == top * 0x100_0000 + low
    ensures Green(hex) == Green(low)
  {
    assert hex == (top * 0x1_0000 + low / 0x100) * 0x100 + low % 0x100;
    assert hex / 0x100 == top * 0x1_0000 + low / 0x100;
    assert top * 0x1_0000 + low / 0x100 == (top * 0x100) * 0x100 + low / 0x100;
  }

  lemma BlueOfLow(hex: nat, top: nat, low: nat)
    requires low < 0x100_0000 && hex == top * 0x100_0000 + low
    ensures Blue(hex) == Blue(low)
  {
    assert hex == (top * 0x1_0000 + low / 0x100) * 0x100 + low % 0x100;
  }
}
