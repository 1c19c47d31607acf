/** The performance evaluation of main (src/MidTermProject_Camera_Student.cpp,
    lines 209-269): every detector is tried with every descriptor, in the
    order the two lists give; each compatible pair runs ProcessImages and
    writes one result line, identically to the console and to Results.dat. */
module Benchmark {
  import opened Decimal
  import opened Compatibility
  import opened Pipeline

  /** detectorTypes, line 209. */
  const DETECTOR_TYPES: seq<string> := ["HARRIS", "FAST", "BRISK", "ORB", "AKAZE", "SIFT"]
  /** descriptorTypes, line 210 (FREAK is not in the list). */
  const DESCRIPTOR_TYPES: seq<string> := ["BRISK", "BRIEF", "ORB", "AKAZE", "SIFT"]
  /** The header of lines 213-214; endl writes a newline. */
  const HEADER: string := "Detector Type, Descriptor Type\n"

  /** Each value as `show` writes it, followed by ", ": what the loops of
      lines 241-245, 250-254 and 259-263 write. */
  function Fields<X>(xs: seq<X>, show: X -> string): string
  {
    if xs == [] then [] else Fields(xs[..|xs| - 1], show) + show(xs[|xs| - 1]) + ", "
  }

  /** The line written for one pair, lines 238-266: the two names, the match
      counts, the detector times and the descriptor times, each group a run
      of fields, ended by a newline. `fmt` is how the stream prints a double. */
  function ResultLine(detectorType: string, descriptorType: string, counts: seq<int>,
                      detectorTimes: seq<real>, descriptorTimes: seq<real>, fmt: real -> string): string
  {
    detectorType + ", " + descriptorType + ", " + Fields(counts, IntToString) +
    "Detector Times, " + Fields(detectorTimes, fmt) +
    "Descriptor Times, " + Fields(descriptorTimes, fmt) + "\n"
  }

  /** The line for the pair, filled with the results ProcessImages returns
      for it. */
  function CellLine(v: Vision, fmt: real -> string, detectorType: string, descriptorType: string): string
  {
    ResultLine(detectorType, descriptorType,
               MatchCounts(v, detectorType, descriptorType, NUM_IMAGES),
               DetectorTimes(v, detectorType, descriptorType, NUM_IMAGES),
               DescriptorTimes(v, detectorType, descriptorType, NUM_IMAGES), fmt)
  }

  /** What the inner loop writes for one detector over `descs`: a line for
      each compatible descriptor, nothing for the others. */
  function RowOutput(v: Vision, fmt: real -> string, detectorType: string, descs: seq<string>): string
  {
    if descs == [] then []
    else
      var last := descs[|descs| - 1];
      RowOutput(v, fmt, detectorType, descs[..|descs| - 1]) +
      (if Compatible(detectorType, last) then CellLine(v, fmt, detectorType, last) else [])
  }

  /** What the outer loop writes after the header. */
  function SweepOutput(v: Vision, fmt: real -> string, dets: seq<string>, descs: seq<string>): string
  {
    if dets == [] then []
    else SweepOutput(v, fmt, dets[..|dets| - 1], descs) + RowOutput(v, fmt, dets[|dets| - 1], descs)
  }

  /** The loops of lines 241-245, 250-254 and 259-263: the text they write,
      a field at a time. */
  method FormatFields<X>(xs: seq<X>, show: X -> string) returns (text: string)
    ensures text == Fields(xs, show)
  {
    text := [];
    var i := 0;
    while i < |xs|
      invariant 0 <= i <= |xs|
      invariant text == Fields(xs[..i], show)
    {
      text := text + show(xs[i]) + ", ";
      assert xs[..i + 1][..i] == xs[..i];
      i := i + 1;
    }
    assert xs[..i] == xs;
  }

  /** Lines 236-266 for one compatible pair: run ProcessImages and lay out
      its results as the line written to both streams. */
  method RunCell(v: Vision, fmt: real -> string, detectorType: string, descriptorType: string) returns (line: string)
    ensures line == CellLine(v, fmt, detectorType, descriptorType)
  {
    var matchCount, detectorTimes, descriptorTimes, _ := ProcessImages(v, detectorType, descriptorType);
    var countFields := FormatFields(matchCount, IntToString);
    var detectorFields := FormatFields(detectorTimes, fmt);
    var descriptorFields := FormatFields(descriptorTimes, fmt);
    line := detectorType + ", " + descriptorType + ", " + countFields +
            "Detector Times, " + detectorFields +
            "Descriptor Times, " + descriptorFields + "\n";
  }

  /** The inner loop, lines 219-268, for one detector: the text written for
      the compatible descriptors, in list order. */
  method RunRow(v: Vision, fmt: real -> string, detectorType: string, descriptorTypes: seq<string>) returns (text: string)
    ensures text == RowOutput(v, fmt, detectorType, descriptorTypes)
  {
    text := [];
    var j := 0;
    while j < |descriptorTypes|
      invariant 0 <= j <= |descriptorTypes|
      invariant text == RowOutput(v, fmt, detectorType, descriptorTypes[..j])
    {
      var descriptorType := descriptorTypes[j];
      if Compatible(detectorType, descriptorType) {
        var line := RunCell(v, fmt, detectorType, descriptorType);
        text := text + line;
      }
      assert descriptorTypes[..j + 1][..j] == descriptorTypes[..j];
      j := j + 1;
    }
    assert descriptorTypes[..j] == descriptorTypes;
  }

  /** Lines 211-269 over any two lists: the header, then one row per
      detector. Both streams start empty (Results.dat is opened for writing)
      and receive the same text. */
  method Sweep(v: Vision, fmt: real -> string, detectorTypes: seq<string>, descriptorTypes: seq<string>)
    returns (console: string, resultsFile: string)
    ensures console == HEADER + SweepOutput(v, fmt, detectorTypes, descriptorTypes)
    ensures resultsFile == console
  {
    console, resultsFile := HEADER, HEADER;
    var i := 0;
    while i < |detectorTypes|
      invariant 0 <= i <= |detectorTypes|
      invariant console == resultsFile == HEADER + SweepOutput(v, fmt, detectorTypes[..i], descriptorTypes)
    {
      var text := RunRow(v, fmt, detectorTypes[i], descriptorTypes);
      console := console + text;
      resultsFile := resultsFile + text;
      assert detectorTypes[..i + 1][..i] == detectorTypes[..i];
      i := i + 1;
    }
    assert detectorTypes[..i] == detectorTypes;
  }

  /** The performance evaluation as main runs it, over the declared lists. */
  method RunPerformanceEvaluation(v: Vision, fmt: real -> string) returns (console: string, resultsFile: string)
    ensures console == HEADER + SweepOutput(v, fmt, DETECTOR_TYPES, DESCRIPTOR_TYPES)
    ensures resultsFile == console
  {
    console, resultsFile := Sweep(v, fmt, DETECTOR_TYPES, DESCRIPTOR_TYPES);
  }

  /** The (detector, descriptor) pairs of one row, in list order. */
  function Row(detectorType: string, descs: seq<string>): seq<(string, string)>
  {
    if descs == [] then [] else Row(detectorType, descs[..|descs| - 1]) + [(detectorType, descs[|descs| - 1])]
  }

  /** Every pair the nested loops visit, in visiting order. */
  function Cells(dets: seq<string>, descs: seq<string>): seq<(string, string)>
  {
    if dets == [] then [] else Cells(dets[..|dets| - 1], descs) + Row(dets[|dets| - 1], descs)
  }

  /** The compatible pairs of `cells`, in their order. */
  function Allowed(cells: seq<(string, string)>): seq<(string, string)>
  {
    if cells == [] then []
    else
      var last := cells[|cells| - 1];
      Allowed(cells[..|cells| - 1]) + (if Compatible(last.0, last.1) then [last] else [])
  }

  /** The texts `line` gives for each of `cells`, one after the other. */
  function Concat<C>(cells: seq<C>, line: C -> string): string
  {
    if cells == [] then [] else Concat(cells[..|cells| - 1], line) + line(cells[|cells| - 1])
  }

  /** The result lines of `cells`, one after the other. */
  function Lines(v: Vision, fmt: real -> string, cells: seq<(string, string)>): string
  {
    Concat(cells, (c: (string, string)) => CellLine(v, fmt, c.0, c.1))
  }

  /** The number of lines of a text: its newline characters. */
  function LineCount(s: string): nat
  {
    multiset(s)['\n']
  }

  /** Entry j of a row pairs the detector with descriptor j. */
  lemma {:induction false} RowAt(detectorType: string, descs: seq<string>)
    ensures |Row(detectorType, descs)| == |descs|
    ensures forall j :: 0 <= j < |descs| ==> Row(detectorType, descs)[j] == (detectorType, descs[j])
  {
    if descs != [] {
      RowAt(detectorType, descs[..|descs| - 1]);
    }
  }

  /** Index i * m + j of an i-major grid of m columns lies before row n when
      i < n. */
  lemma IndexBelowRow(i: nat, j: nat, m: nat, n: nat)
    requires i < n && j < m
    ensures i * m + j < n * m
  {
    assert n * m == (i + 1) * m + (n - i - 1) * m;
  }

  /** The loops visit |dets| * |descs| pairs. */
  lemma {:induction false} CellsLength(dets: seq<string>, descs: seq<string>)
    ensures |Cells(dets, descs)| == |dets| * |descs|
  {
    if dets != [] {
      var init := dets[..|dets| - 1];
      CellsLength(init, descs);
      RowAt(dets[|dets| - 1], descs);
      RowsGrow(|init|, |descs|);
    }
  }

  /** Pair i * |descs| + j of the visiting order is (dets[i], descs[j]). */
  lemma {:induction false} CellAt(dets: seq<string>, descs: seq<string>, i: nat, j: nat)
    requires i < |dets| && j < |descs|
    ensures i * |descs| + j < |Cells(dets, descs)|
    ensures Cells(dets, descs)[i * |descs| + j] == (dets[i], descs[j])
  {
    var init := dets[..|dets| - 1];
    var m := |descs|;
    CellsLength(init, descs);
    CellsLength(dets, descs);
    IndexBelowRow(i, j, m, |dets|);
    if i < |init| {
      CellAt(init, descs, i, j);
      IndexBelowRow(i, j, m, |init|);
    } else {
      RowAt(dets[i], descs);
      assert i * m + j == |Cells(init, descs)| + j;
    }
  }

  /** The loops visit the pairs detector-major: pair i * |descs| + j is
      (dets[i], descs[j]), and there are |dets| * |descs| of them. */
  lemma CellsAt(dets: seq<string>, descs: seq<string>)
    ensures |Cells(dets, descs)| == |dets| * |descs|
    ensures forall i, j :: 0 <= i < |dets| && 0 <= j < |descs| ==>
      i * |descs| + j < |Cells(dets, descs)| && Cells(dets, descs)[i * |descs| + j] == (dets[i], descs[j])
  {
    CellsLength(dets, descs);
    forall i, j | 0 <= i < |dets| && 0 <= j < |descs|
      ensures i * |descs| + j < |Cells(dets, descs)| && Cells(dets, descs)[i * |descs| + j] == (dets[i], descs[j])
    {
      CellAt(dets, descs, i, j);
    }
  }

  /** One more row of m columns adds m entries. */
  lemma RowsGrow(n: nat, m: nat)
    ensures (n + 1) * m == n * m + m
  {
  }

  /** Filtering distributes over concatenation. */
  lemma {:induction false} AllowedAppend(a: seq<(string, string)>, b: seq<(string, string)>)
    ensures Allowed(a + b) == Allowed(a) + Allowed(b)
    decreases |b|
  {
    if b == [] {
      assert a + b == a;
    } else {
      AllowedAppend(a, b[..|b| - 1]);
      assert (a + b)[..|a + b| - 1] == a + b[..|b| - 1];
    }
  }

  /** A pair runs exactly when the loops visit it and it is compatible. */
  lemma {:induction false} AllowedMembership(cells: seq<(string, string)>, c: (string, string))
    ensures c in Allowed(cells) <==> c in cells && Compatible(c.0, c.1)
  {
    if cells != [] {
      var init := cells[..|cells| - 1];
      AllowedMembership(init, c);
      assert cells == init + [cells[|cells| - 1]];
    }
  }

  /** The text of a concatenation is the text of each part. */
  lemma {:induction false} ConcatAppend<C>(a: seq<C>, b: seq<C>, line: C -> string)
    ensures Concat(a + b, line) == Concat(a, line) + Concat(b, line)
    decreases |b|
  {
    if b == [] {
      assert a + b == a;
    } else {
      ConcatAppend(a, b[..|b| - 1], line);
      assert (a + b)[..|a + b| - 1] == a + b[..|b| - 1];
    }
  }

  /** The inner loop writes the lines of the compatible pairs of its row. */
  lemma {:induction false} RowIsAllowedLines(v: Vision, fmt: real -> string, detectorType: string, descs: seq<string>)
    ensures RowOutput(v, fmt, detectorType, descs) == Lines(v, fmt, Allowed(Row(detectorType, descs)))
  {
    if descs != [] {
      var init := descs[..|descs| - 1];
      var last := descs[|descs| - 1];
      RowIsAllowedLines(v, fmt, detectorType, init);
      ConcatAppend(Allowed(Row(detectorType, init)), if Compatible(detectorType, last) then [(detectorType, last)] else [],
                   (c: (string, string)) => CellLine(v, fmt, c.0, c.1));
    }
  }

  /** The sweep writes, after the header, one result line per compatible
      pair, in the order the nested loops visit the pairs. */
  lemma {:induction false} SweepIsAllowedLines(v: Vision, fmt: real -> string, dets: seq<string>, descs: seq<string>)
    ensures SweepOutput(v, fmt, dets, descs) == Lines(v, fmt, Allowed(Cells(dets, descs)))
  {
    if dets != [] {
      var init := dets[..|dets| - 1];
      var last := dets[|dets| - 1];
      SweepIsAllowedLines(v, fmt, init, descs);
      RowIsAllowedLines(v, fmt, last, descs);
      AllowedAppend(Cells(init, descs), Row(last, descs));
      ConcatAppend(Allowed(Cells(init, descs)), Allowed(Row(last, descs)), (c: (string, string)) => CellLine(v, fmt, c.0, c.1));
    }
  }

  /** Adding a detector adds the compatible pairs of its row at the end. */
  lemma AllowedCellsSnoc(dets: seq<string>, d: string, descs: seq<string>)
    ensures Allowed(Cells(dets + [d], descs)) == Allowed(Cells(dets, descs)) + Allowed(Row(d, descs))
  {
    assert (dets + [d])[..|dets|] == dets;
    AllowedAppend(Cells(dets, descs), Row(d, descs));
  }

  /** The pair as a one-element run when it is compatible, else nothing. */
  function Keep(d: string, e: string): seq<(string, string)>
  {
    if Compatible(d, e) then [(d, e)] else []
  }

  /** The compatible pairs of a declared row, descriptor by descriptor. */
  lemma {:induction false} DeclaredRow(d: string)
    ensures Allowed(Row(d, DESCRIPTOR_TYPES)) ==
      Keep(d, "BRISK") + Keep(d, "BRIEF") + Keep(d, "ORB") + Keep(d, "AKAZE") + Keep(d, "SIFT")
  {
    var r := Row(d, DESCRIPTOR_TYPES);
    RowAt(d, DESCRIPTOR_TYPES);
    assert r == [(d, "BRISK"), (d, "BRIEF"), (d, "ORB"), (d, "AKAZE"), (d, "SIFT")];
    assert r[..1][..0] == [];
    assert Allowed(r[..1]) == Keep(d, "BRISK");
    assert r[..2][..1] == r[..1];
    assert Allowed(r[..2]) == Allowed(r[..1]) + Keep(d, "BRIEF");
    assert r[..3][..2] == r[..2];
    assert Allowed(r[..3]) == Allowed(r[..2]) + Keep(d, "ORB");
    assert r[..4][..3] == r[..3];
    assert Allowed(r[..4]) == Allowed(r[..3]) + Keep(d, "AKAZE");
    assert r[..4] == r[..|r| - 1];
    assert Allowed(r) == Allowed(r[..4]) + Keep(d, "SIFT");
  }

  /** The compatible pairs of each declared row: the first three
      descriptors after HARRIS, FAST, BRISK and ORB; all but SIFT after
      AKAZE; BRISK and BRIEF after SIFT. */
  lemma DeclaredRowPairs()
    ensures Allowed(Row("HARRIS", DESCRIPTOR_TYPES)) == [("HARRIS", "BRISK"), ("HARRIS", "BRIEF"), ("HARRIS", "ORB")]
    ensures Allowed(Row("FAST", DESCRIPTOR_TYPES)) == [("FAST", "BRISK"), ("FAST", "BRIEF"), ("FAST", "ORB")]
    ensures Allowed(Row("BRISK", DESCRIPTOR_TYPES)) == [("BRISK", "BRISK"), ("BRISK", "BRIEF"), ("BRISK", "ORB")]
    ensures Allowed(Row("ORB", DESCRIPTOR_TYPES)) == [("ORB", "BRISK"), ("ORB", "BRIEF"), ("ORB", "ORB")]
    ensures Allowed(Row("AKAZE", DESCRIPTOR_TYPES)) ==
      [("AKAZE", "BRISK"), ("AKAZE", "BRIEF"), ("AKAZE", "ORB"), ("AKAZE", "AKAZE")]
    ensures Allowed(Row("SIFT", DESCRIPTOR_TYPES)) == [("SIFT", "BRISK"), ("SIFT", "BRIEF")]
  {
    DeclaredRow("HARRIS");
    DeclaredRow("FAST");
    DeclaredRow("BRISK");
    DeclaredRow("ORB");
    DeclaredRow("AKAZE");
    DeclaredRow("SIFT");
  }

  /** The loops visit 30 declared pairs; these 18 run, row by row in loop
      order, and the other 12 are blocked, so no pair with the SIFT
      descriptor runs. */
  lemma DeclaredSweepPairs()
    ensures |Cells(DETECTOR_TYPES, DESCRIPTOR_TYPES)| == 30
    ensures Allowed(Cells(DETECTOR_TYPES, DESCRIPTOR_TYPES)) ==
      [("HARRIS", "BRISK"), ("HARRIS", "BRIEF"), ("HARRIS", "ORB")] +
      [("FAST", "BRISK"), ("FAST", "BRIEF"), ("FAST", "ORB")] +
      [("BRISK", "BRISK"), ("BRISK", "BRIEF"), ("BRISK", "ORB")] +
      [("ORB", "BRISK"), ("ORB", "BRIEF"), ("ORB", "ORB")] +
      [("AKAZE", "BRISK"), ("AKAZE", "BRIEF"), ("AKAZE", "ORB"), ("AKAZE", "AKAZE")] +
      [("SIFT", "BRISK"), ("SIFT", "BRIEF")]
  {
    CellsLength(DETECTOR_TYPES, DESCRIPTOR_TYPES);
    DeclaredRowPairs();
    AllowedCellsSix("HARRIS", "FAST", "BRISK", "ORB", "AKAZE", "SIFT", DESCRIPTOR_TYPES);
  }

  /** Six detectors: the compatible pairs of their rows, one row after the
      other. */
  lemma AllowedCellsSix(a: string, b: string, c: string, d: string, e: string, f: string, descs: seq<string>)
    ensures Allowed(Cells([a, b, c, d, e, f], descs)) ==
      Allowed(Row(a, descs)) + Allowed(Row(b, descs)) + Allowed(Row(c, descs)) +
      Allowed(Row(d, descs)) + Allowed(Row(e, descs)) + Allowed(Row(f, descs))
  {
    var none: seq<string> := [];
    var one := none + [a];
    var two := one + [b];
    var three := two + [c];
    var four := three + [d];
    var five := four + [e];
    AllowedCellsSnoc(none, a, descs);
    assert Allowed(Cells(one, descs)) == Allowed(Row(a, descs));
    AllowedCellsSnoc(one, b, descs);
    AllowedCellsSnoc(two, c, descs);
    AllowedCellsSnoc(three, d, descs);
    AllowedCellsSnoc(four, e, descs);
    AllowedCellsSnoc(five, f, descs);
    assert five + [f] == [a, b, c, d, e, f];
  }

  /** The pairs of a row are the detector with each descriptor of the list. */
  lemma RowMembership(d: string, descs: seq<string>, c: (string, string))
    ensures c in Row(d, descs) <==> c.0 == d && c.1 in descs
  {
    RowAt(d, descs);
    if c.0 == d && c.1 in descs {
      var j :| 0 <= j < |descs| && descs[j] == c.1;
      assert Row(d, descs)[j] == c;
    }
  }

  /** The loops visit exactly the pairs of a listed detector and a listed
      descriptor. */
  lemma {:induction false} CellsMembership(dets: seq<string>, descs: seq<string>, c: (string, string))
    ensures c in Cells(dets, descs) <==> c.0 in dets && c.1 in descs
  {
    if dets != [] {
      var init := dets[..|dets| - 1];
      var last := dets[|dets| - 1];
      CellsMembership(init, descs, c);
      RowMembership(last, descs, c);
      assert dets == init + [last];
    }
  }

  /** The decimal text of an int is on one line. */
  lemma IntTextSingleLine(n: int)
    ensures '\n' !in IntToString(n)
  {
  }

  /** A run of fields is on one line when every field is. */
  lemma {:induction false} FieldsSingleLine<X>(xs: seq<X>, show: X -> string)
    requires forall k :: 0 <= k < |xs| ==> '\n' !in show(xs[k])
    ensures '\n' !in Fields(xs, show)
  {
    if xs != [] {
      FieldsSingleLine(xs[..|xs| - 1], show);
    }
  }

  /** A result line is exactly one line, ended by its newline, when the names
      and the printed doubles contain no newline. */
  lemma ResultLineIsOneLine(detectorType: string, descriptorType: string, counts: seq<int>,
                            detectorTimes: seq<real>, descriptorTimes: seq<real>, fmt: real -> string)
    requires '\n' !in detectorType && '\n' !in descriptorType
    requires forall r :: '\n' !in fmt(r)
    ensures var line := ResultLine(detectorType, descriptorType, counts, detectorTimes, descriptorTimes, fmt);
      LineCount(line) == 1 && line[|line| - 1] == '\n'
  {
    forall k | 0 <= k < |counts|
      ensures '\n' !in IntToString(counts[k])
    {
      IntTextSingleLine(counts[k]);
    }
    forall k | 0 <= k < |detectorTimes|
      ensures '\n' !in fmt(detectorTimes[k])
    {
      var r := detectorTimes[k];
      assert '\n' !in fmt(r);
    }
    forall k | 0 <= k < |descriptorTimes|
      ensures '\n' !in fmt(descriptorTimes[k])
    {
      var r := descriptorTimes[k];
      assert '\n' !in fmt(r);
    }
    FieldsSingleLine(counts, IntToString);
    FieldsSingleLine(detectorTimes, fmt);
    FieldsSingleLine(descriptorTimes, fmt);
    LabelsSingleLine();
    var body := detectorType + ", " + descriptorType + ", " + Fields(counts, IntToString) +
                "Detector Times, " + Fields(detectorTimes, fmt) +
                "Descriptor Times, " + Fields(descriptorTimes, fmt);
    assert ResultLine(detectorType, descriptorType, counts, detectorTimes, descriptorTimes, fmt) == body + "\n";
    NewlineEndsLine(body);
  }

  /** The separators and labels of a result line hold no newline. */
  lemma LabelsSingleLine()
    ensures '\n' !in ", " && '\n' !in "Detector Times, " && '\n' !in "Descriptor Times, "
  {
  }

  /** A text without newlines followed by one newline is one line. */
  lemma NewlineEndsLine(body: string)
    requires '\n' !in body
    ensures LineCount(body + "\n") == 1 && (body + "\n")[|body|] == '\n'
  {
    assert multiset(body)['\n'] == 0;
    assert multiset(body + "\n") == multiset(body) + multiset("\n");
  }

  /** The result lines of `cells` are |cells| lines. */
  lemma {:induction false} LinesCount(v: Vision, fmt: real -> string, cells: seq<(string, string)>)
    requires forall c :: c in cells ==> '\n' !in c.0 && '\n' !in c.1
    requires forall r :: '\n' !in fmt(r)
    ensures LineCount(Lines(v, fmt, cells)) == |cells|
  {
    if cells != [] {
      var last := cells[|cells| - 1];
      LinesCount(v, fmt, cells[..|cells| - 1]);
      ResultLineIsOneLine(last.0, last.1,
                          MatchCounts(v, last.0, last.1, NUM_IMAGES),
                          DetectorTimes(v, last.0, last.1, NUM_IMAGES),
                          DescriptorTimes(v, last.0, last.1, NUM_IMAGES), fmt);
    }
  }

  /** After the header, the sweep writes one line per compatible pair. */
  lemma SweepLineCount(v: Vision, fmt: real -> string, dets: seq<string>, descs: seq<string>)
    requires forall k :: 0 <= k < |dets| ==> '\n' !in dets[k]
    requires forall k :: 0 <= k < |descs| ==> '\n' !in descs[k]
    requires forall r :: '\n' !in fmt(r)
    ensures LineCount(SweepOutput(v, fmt, dets, descs)) == |Allowed(Cells(dets, descs))|
  {
    SweepIsAllowedLines(v, fmt, dets, descs);
    forall c | c in Allowed(Cells(dets, descs))
      ensures '\n' !in c.0 && '\n' !in c.1
    {
      AllowedMembership(Cells(dets, descs), c);
      CellsMembership(dets, descs, c);
    }
    LinesCount(v, fmt, Allowed(Cells(dets, descs)));
  }

  /** The header is one line. */
  lemma HeaderIsOneLine()
    ensures LineCount(HEADER) == 1
  {
    var title := "Detector Type, Descriptor Type";
    assert HEADER == title + "\n";
    NewlineEndsLine(title);
  }

  /** No declared detector or descriptor name holds a newline. */
  lemma DeclaredNamesSingleLine()
    ensures forall k :: 0 <= k < |DETECTOR_TYPES| ==> '\n' !in DETECTOR_TYPES[k]
    ensures forall k :: 0 <= k < |DESCRIPTOR_TYPES| ==> '\n' !in DESCRIPTOR_TYPES[k]
  {
  }

  /** The console and Results.dat each end up with 19 lines: the header and
      one line for each of the 18 pairs that run. */
  lemma DeclaredReportLines(v: Vision, fmt: real -> string)
    requires forall r :: '\n' !in fmt(r)
    ensures LineCount(HEADER + SweepOutput(v, fmt, DETECTOR_TYPES, DESCRIPTOR_TYPES)) == 19
  {
    DeclaredNamesSingleLine();
    SweepLineCount(v, fmt, DETECTOR_TYPES, DESCRIPTOR_TYPES);
    DeclaredSweepPairs();
    HeaderIsOneLine();
    assert multiset(HEADER + SweepOutput(v, fmt, DETECTOR_TYPES, DESCRIPTOR_TYPES)) ==
           multiset(HEADER) + multiset(SweepOutput(v, fmt, DETECTOR_TYPES, DESCRIPTOR_TYPES));
  }
}
