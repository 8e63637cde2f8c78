/** The benchmark engine of `src/engine/benchmark.rs`: it renders 40 frames,
    collects the render time of each in microseconds, and reduces them to the
    smallest, the largest, the sum and the average, next to the total time of the
    run. Clock readings are inputs here: `sample(k)` is the time the `k`-th frame
    took, and `total` the time of the whole loop. */
module Benchmark {
  import opened Common

  /** The number of frames `run` renders. */
  const Frames: nat := 40

  datatype BenchmarkResult = BenchmarkResult(average: nat, min: nat, max: nat, totalRender: nat, total: nat)

  function Sum(xs: seq<nat>): nat
  {
    if xs == [] then 0 else Sum(xs[..|xs| - 1]) + xs[|xs| - 1]
  }

  /** `iter().min()`, or 0 for no samples. */
  function SeqMin(xs: seq<nat>): (r: nat)
    ensures xs != [] ==> r in xs && forall k :: 0 <= k < |xs| ==> r <= xs[k]
    ensures xs == [] ==> r == 0
  {
    if xs == [] then 0
    else if |xs| == 1 then xs[0]
    else
      var m := SeqMin(xs[..|xs| - 1]);
      assert forall k :: 0 <= k < |xs| - 1 ==> xs[..|xs| - 1][k] == xs[k];
      if m <= xs[|xs| - 1] then m else xs[|xs| - 1]
  }

  /** The collection loop of `run`: one sample per frame, in order. */
  method Collect(sample: nat -> nat) returns (times: seq<nat>)
    ensures |times| == Frames && forall k :: 0 <= k < Frames ==> times[k] == sample(k)
  {
    times := [];
    for i := 0 to Frames
      invariant |times| == i && forall k :: 0 <= k < i ==> times[k] == sample(k)
    {
      times := times + [sample(i)];
    }
  }

  /** The `BenchmarkResult` built from the samples: the smallest and largest
      sample (0 when there are none), their sum, the sum divided by their number
      rounded down (0 when there are none), and the total time. */
  function Aggregate(times: seq<nat>, total: nat): (r: BenchmarkResult)
    ensures r.totalRender == Sum(times) && r.total == total
    ensures times == [] ==> r.min == 0 && r.max == 0 && r.average == 0
    ensures times != [] ==> (r.min in times && r.max in times &&
      forall k :: 0 <= k < |times| ==> r.min <= times[k] <= r.max)
    ensures times != [] ==> r.average * |times| <= r.totalRender < (r.average + 1) * |times|
  {
    SeqMaxIsMax(times);
    var sum := Sum(times);
    if |times| > 0 then
      var average := sum / |times|;
      FloorDivision(sum, |times|, average);
      BenchmarkResult(average, SeqMin(times), SeqMax(times), sum, total)
    else BenchmarkResult(0, 0, 0, 0, total)
  }

  lemma FloorDivision(s: nat, n: nat, q: nat)
    requires n > 0 && q == s / n
    ensures q * n <= s < (q + 1) * n
  {
    assert s == q * n + s % n;
    assert (q + 1) * n == q * n + n;
  }

  /** The samples `run` collects. */
  function Samples(sample: nat -> nat): (r: seq<nat>)
    ensures |r| == Frames && forall k :: 0 <= k < Frames ==> r[k] == sample(k)
  {
    seq(Frames, k requires 0 <= k < Frames => sample(k))
  }

  /** `run`: collects a sample per frame and aggregates them. */
  method Run(sample: nat -> nat, total: nat) returns (r: BenchmarkResult)
    ensures r == Aggregate(Samples(sample), total)
  {
    var times := Collect(sample);
    assert times == Samples(sample);
    r := Aggregate(times, total);
  }

  lemma {:induction false} SumBound(xs: seq<nat>, b: nat)
    requires forall k :: 0 <= k < |xs| ==> xs[k] <= b
    ensures Sum(xs) <= |xs| * b
    decreases |xs|
  {
    if xs != [] {
      SumBound(xs[..|xs| - 1], b);
    }
  }

  lemma {:induction false} SumAtLeast(xs: seq<nat>, b: nat)
    requires forall k :: 0 <= k < |xs| ==> b <= xs[k]
    ensures |xs| * b <= Sum(xs)
    decreases |xs|
  {
    if xs != [] {
      SumAtLeast(xs[..|xs| - 1], b);
    }
  }

  lemma {:induction false} MulMonotone(a: nat, b: nat, n: nat)
    requires a <= b
    ensures a * n <= b * n
    decreases n
  {
    if n > 0 {
      MulMonotone(a, b, n - 1);
    }
  }

  /** With at least one sample, the average lies between the smallest and the
      largest sample. */
  lemma AverageBetween(times: seq<nat>, total: nat)
    requires times != []
    ensures Aggregate(times, total).min <= Aggregate(times, total).average <= Aggregate(times, total).max
  {
    var r := Aggregate(times, total);
    SumAtLeast(times, r.min);
    SumBound(times, r.max);
    QuotientBetween(r.totalRender, |times|, r.min, r.max, r.average);
  }

  /** A quotient of a sum of `n` values, each between `lo` and `hi`, lies between them. */
  lemma QuotientBetween(s: nat, n: nat, lo: nat, hi: nat, q: nat)
    requires n > 0 && n * lo <= s <= n * hi
    requires q * n <= s < (q + 1) * n
    ensures lo <= q <= hi
  {
    if lo > q {
      MulMonotone(q + 1, lo, n);
      assert false;
    }
    if q > hi {
      MulMonotone(hi + 1, q, n);
      assert false;
    }
  }

  /** One labelled line of the report. */
  function Line(name: string, value: string): string
  {
    "- " + name + ": " + value + " µs"
  }

  /** `Display`: five labelled lines, in the order average, min, max, total render,
      total. */
  function Display(r: BenchmarkResult): string
  {
    Report(Decimal(r.average), Decimal(r.min), Decimal(r.max), Decimal(r.totalRender), Decimal(r.total))
  }

  /** The `write!` format of `Display`, filled with the five numbers' digits. */
  function Report(a: string, b: string, c: string, d: string, e: string): string
  {
    "- Average: " + a + " µs\n- Min: " + b + " µs\n- Max: " + c +
    " µs\n- Total Render: " + d + " µs\n- Total: " + e + " µs"
  }

  /** One more value in the report: the text so far is the earlier lines and ends
      in " µs", and the separator literal starts the next labelled line. */
  lemma Glue(so: string, earlier: seq<string>, sep: string, name: string, d: string)
    requires |earlier| >= 1 && so + " µs" == Join(earlier, '\n')
    requires sep == " µs\n- " + name + ": "
    ensures so + sep + d + " µs" == Join(earlier + [Line(name, d)], '\n')
  {
    JoinSnoc(earlier, Line(name, d), '\n');
    assert " µs\n- " == " µs" + "\n" + "- ";
    Reassociate(so, name, d);
  }

  lemma Reassociate(so: string, name: string, d: string)
    ensures so + (" µs" + "\n" + "- " + name + ": ") + d + " µs" == (so + " µs") + "\n" + ("- " + name + ": " + d + " µs")
  {
  }

  /** The report is the five labelled lines joined by line breaks. */
  lemma ReportIsLines(a: string, b: string, c: string, d: string, e: string)
    ensures Report(a, b, c, d, e) == Join([Line("Average", a), Line("Min", b),
      Line("Max", c), Line("Total Render", d), Line("Total", e)], '\n')
  {
    var l1, l2, l3, l4, l5 := Line("Average", a), Line("Min", b), Line("Max", c), Line("Total Render", d), Line("Total", e);
    var s1 := "- Average: " + a;
    Separators();
    assert s1 + " µs" == Join([l1], '\n');
    var s2 := s1 + " µs\n- Min: " + b;
    Glue(s1, [l1], " µs\n- Min: ", "Min", b);
    assert [l1] + [l2] == [l1, l2];
    var s3 := s2 + " µs\n- Max: " + c;
    Glue(s2, [l1, l2], " µs\n- Max: ", "Max", c);
    assert [l1, l2] + [l3] == [l1, l2, l3];
    var s4 := s3 + " µs\n- Total Render: " + d;
    Glue(s3, [l1, l2, l3], " µs\n- Total Render: ", "Total Render", d);
    assert [l1, l2, l3] + [l4] == [l1, l2, l3, l4];
    var s5 := s4 + " µs\n- Total: " + e;
    Glue(s4, [l1, l2, l3, l4], " µs\n- Total: ", "Total", e);
    assert [l1, l2, l3, l4] + [l5] == [l1, l2, l3, l4, l5];
    assert Report(a, b, c, d, e) == s5 + " µs";
  }

  /** The literals of the format split into the line prefix `- ` and the labels. */
  lemma Separators()
    ensures "- Average: " == "- " + "Average" + ": "
    ensures " µs\n- Min: " == " µs\n- " + "Min" + ": "
    ensures " µs\n- Max: " == " µs\n- " + "Max" + ": "
    ensures " µs\n- Total Render: " == " µs\n- " + "Total Render" + ": "
    ensures " µs\n- Total: " == " µs\n- " + "Total" + ": "
  {
  }

  /** The report's lines are exactly the five labelled values, in order. */
  lemma DisplayLines(r: BenchmarkResult)
    ensures Split(Display(r), '\n') == [Line("Average", Decimal(r.average)), Line("Min", Decimal(r.min)),
      Line("Max", Decimal(r.max)), Line("Total Render", Decimal(r.totalRender)), Line("Total", Decimal(r.total))]
  {
    var lines := [Line("Average", Decimal(r.average)), Line("Min", Decimal(r.min)),
      Line("Max", Decimal(r.max)), Line("Total Render", Decimal(r.totalRender)), Line("Total", Decimal(r.total))];
    LineLacksBreak("Average", r.average);
    LineLacksBreak("Min", r.min);
    LineLacksBreak("Max", r.max);
    LineLacksBreak("Total Render", r.totalRender);
    LineLacksBreak("Total", r.total);
    ReportIsLines(Decimal(r.average), Decimal(r.min), Decimal(r.max), Decimal(r.totalRender), Decimal(r.total));
    JoinSplit(lines, '\n');
  }

  lemma LineLacksBreak(name: string, value: nat)
    requires Lacks(name, '\n')
    ensures Lacks(Line(name, Decimal(value)), '\n')
  {
    var d := Decimal(value);
    assert Lacks(d, '\n') by {
      forall i | 0 <= i < |d| ensures d[i] != '\n' {
        assert IsDigit(d[i]);
      }
    }
  }
}
