/**
  The host calibration script: pulling a reading and its label out of a
  serial line, averaging the samples taken for one weight, and the guards
  around the linear fit. The fit itself (`np.polyfit`) is library numerics:
  its slope and intercept are inputs here.
 */
module CalibrationScript {
  import opened Options
  import opened Reals
  import opened DecimalText
  import opened SerialPattern

  const ZAxisKeyword: Keyword := "Z-axis"
  const KgToNewtons: real := 9.80665

  /** What `extract_sensor_value` returns: a value and a sensor label, both `None` when nothing matched. */
  datatype Extracted = Extracted(value: Option<real>, sensorLabel: Option<string>)

  /** The reading a match denotes: `float(group 2)`, and group 1 or, when that is empty, the keyword. */
  function FromMatch(line: string, kw: string, m: Match): Extracted
    requires IsMatch(line, kw, m)
  {
    var group1 := line[m.labelStart..m.labelEnd];
    Extracted(Some(DecimalValue(line[m.numStart..m.numEnd])), Some(if |group1| > 0 then group1 else kw))
  }

  function ExtractSensorValue(line: string, kw: Keyword): (r: Extracted)
    ensures r.value.Some? <==> r.sensorLabel.Some?
    ensures !OccursFrom(line, kw, 0) ==> r == Extracted(None, None)
    ensures r.value.Some? <==> Search(line, kw).Some?
    ensures Search(line, kw).Some? ==> r == FromMatch(line, kw, Search(line, kw).value)
    ensures r.sensorLabel.Some? ==> r.sensorLabel.value == kw || (|r.sensorLabel.value| > 0 && ')' !in r.sensorLabel.value)
  {
    if !OccursFrom(line, kw, 0) then Extracted(None, None)
    else
      match Search(line, kw)
      case None => Extracted(None, None)
      case Some(m) =>
        assert forall k :: 0 <= k < m.labelEnd - m.labelStart ==> line[m.labelStart..m.labelEnd][k] == line[m.labelStart + k];
        FromMatch(line, kw, m)
  }

  /** The extractor reports a reading exactly when the pattern matches somewhere in the line. */
  lemma ExtractFindsEveryMatch(line: string, kw: Keyword)
    ensures ExtractSensorValue(line, kw).value.Some? <==> exists m :: IsMatch(line, kw, m)
  {
    if m :| IsMatch(line, kw, m) {
      SearchLeftmostGreedy(line, kw, m);
    }
  }

  /**
    Of all the ways the pattern matches a line, the extractor reports the one
    `re.search` picks: no other match starts earlier, and one starting at the
    same place has a label that ends no later and, with the same label, a
    number that ends no later.
   */
  lemma ExtractReportsLeftmostLongest(line: string, kw: Keyword, m: Match)
    requires IsMatch(line, kw, m)
    ensures Search(line, kw).Some?
    ensures var r := Search(line, kw).value;
      && ExtractSensorValue(line, kw) == FromMatch(line, kw, r)
      && r.start <= m.start
      && (r.start == m.start ==>
            && r.labelStart >= m.labelStart
            && r.labelEnd >= m.labelEnd
            && (r.labelEnd == m.labelEnd ==> r.numStart == m.numStart && r.numEnd >= m.numEnd))
  {
    SearchLeftmostGreedy(line, kw, m);
  }

  /** The positions of the readings that are present, in increasing order: which weight each clean reading came from. */
  function PresentIndices(xs: seq<Option<real>>): (idx: seq<nat>)
    ensures |idx| <= |xs|
    ensures |idx| == 0 <==> forall i :: 0 <= i < |xs| ==> xs[i].None?
    ensures forall k :: 0 <= k < |idx| ==> idx[k] < |xs| && xs[idx[k]].Some?
    ensures forall j, k :: 0 <= j < k < |idx| ==> idx[j] < idx[k]
  {
    if |xs| == 0 then []
    else
      var n := |xs| - 1;
      var init := PresentIndices(xs[..n]);
      assert forall i :: 0 <= i < n ==> xs[..n][i] == xs[i];
      init + if xs[n].Some? then [n] else []
  }

  /** The values of the readings that are present, in order: the clean readings. */
  function Present(xs: seq<Option<real>>): (ys: seq<real>)
    ensures |ys| == |PresentIndices(xs)| <= |xs|
    ensures |ys| == 0 <==> forall i :: 0 <= i < |xs| ==> xs[i].None?
    ensures forall k :: 0 <= k < |ys| ==> xs[PresentIndices(xs)[k]].Some? && ys[k] == xs[PresentIndices(xs)[k]].value
  {
    var idx := PresentIndices(xs);
    seq(|idx|, k requires 0 <= k < |idx| => xs[idx[k]].value)
  }

  /** One more reading adds its position, if it is present, to the end of the positions. */
  lemma PresentIndicesSnoc(xs: seq<Option<real>>, x: Option<real>)
    ensures PresentIndices(xs + [x]) == PresentIndices(xs) + if x.Some? then [|xs|] else []
  {
    assert (xs + [x])[..|xs|] == xs;
  }

  /** One more reading adds its value, if any, to the end of the clean readings. */
  lemma PresentSnoc(xs: seq<Option<real>>, x: Option<real>)
    ensures Present(xs + [x]) == Present(xs) + if x.Some? then [x.value] else []
  {
    PresentIndicesSnoc(xs, x);
    var a := Present(xs + [x]);
    var b := Present(xs) + if x.Some? then [x.value] else [];
    forall k | 0 <= k < |a|
      ensures a[k] == b[k]
    {
      PresentSnocAt(xs, x, k);
    }
  }

  lemma PresentSnocAt(xs: seq<Option<real>>, x: Option<real>, k: nat)
    requires PresentIndices(xs + [x]) == PresentIndices(xs) + if x.Some? then [|xs|] else []
    requires k < |PresentIndices(xs + [x])|
    ensures k < |PresentIndices(xs)| ==> Present(xs + [x])[k] == Present(xs)[k]
    ensures k == |PresentIndices(xs)| ==> x.Some? && Present(xs + [x])[k] == x.value
  {
    var idx := PresentIndices(xs);
    if k < |idx| {
      assert (xs + [x])[idx[k]] == xs[idx[k]];
    }
  }

  /** Every reading that is present is among the clean readings. */
  lemma {:induction false} PresentIndicesComplete(xs: seq<Option<real>>, i: nat)
    requires i < |xs| && xs[i].Some?
    ensures exists k :: 0 <= k < |PresentIndices(xs)| && PresentIndices(xs)[k] == i
  {
    var n := |xs| - 1;
    var init := xs[..n];
    var a := PresentIndices(init);
    assert PresentIndices(xs) == a + if xs[n].Some? then [n] else [];
    if i < n {
      assert init[i] == xs[i];
      PresentIndicesComplete(init, i);
      var k :| 0 <= k < |a| && a[k] == i;
      assert PresentIndices(xs)[k] == i;
    } else {
      assert PresentIndices(xs)[|a|] == i;
    }
  }

  /** Every present value lies in any interval that contains all the readings. */
  lemma {:induction false} PresentBounds(xs: seq<Option<real>>, lo: real, hi: real)
    requires forall i :: 0 <= i < |xs| && xs[i].Some? ==> lo <= xs[i].value <= hi
    ensures forall k :: 0 <= k < |Present(xs)| ==> lo <= Present(xs)[k] <= hi
  {
    if |xs| > 0 {
      var init := xs[..|xs| - 1];
      assert forall i :: 0 <= i < |init| ==> init[i] == xs[i];
      PresentBounds(init, lo, hi);
    }
  }

  function Values(attempts: seq<Extracted>): (vs: seq<Option<real>>)
    ensures |vs| == |attempts|
    ensures forall i :: 0 <= i < |attempts| ==> vs[i] == attempts[i].value
  {
    seq(|attempts|, i requires 0 <= i < |attempts| => attempts[i].value)
  }

  /** The label of the last reading that carried a value. */
  function LastLabel(attempts: seq<Extracted>): (l: Option<string>)
    ensures (forall i :: 0 <= i < |attempts| ==> attempts[i].value.None?) ==> l.None?
    ensures l.Some? ==> exists i :: 0 <= i < |attempts| && attempts[i].value.Some? && attempts[i].sensorLabel == l
  {
    if |attempts| == 0 then None
    else if attempts[|attempts| - 1].value.Some? then attempts[|attempts| - 1].sensorLabel
    else
      var l := LastLabel(attempts[..|attempts| - 1]);
      assert forall i :: 0 <= i < |attempts| - 1 ==> attempts[..|attempts| - 1][i] == attempts[i];
      l
  }

  /**
    `collect_samples`: one attempt per sample; the readings that carry a value
    are averaged, and the label kept is that of the last of them.
   */
  method CollectSamples(attempts: seq<Extracted>) returns (r: Extracted)
    ensures r.value.None? <==> forall i :: 0 <= i < |attempts| ==> attempts[i].value.None?
    ensures r.value.None? ==> r.sensorLabel.None?
    ensures r.value.Some? ==> r.value.value == Mean(Present(Values(attempts))) && r.sensorLabel == LastLabel(attempts)
  {
    var samples: seq<real> := [];
    var sensorLabel: Option<string> := None;
    for i := 0 to |attempts|
      invariant samples == Present(Values(attempts[..i]))
      invariant sensorLabel == LastLabel(attempts[..i])
    {
      CollectStep(attempts, i);
      if attempts[i].value.Some? {
        samples := samples + [attempts[i].value.value];
        sensorLabel := attempts[i].sensorLabel;
      }
    }
    assert attempts[..|attempts|] == attempts;
    NoSamplesExactly(attempts);
    if |samples| == 0 {
      return Extracted(None, None);
    }
    return Extracted(Some(Mean(samples)), sensorLabel);
  }

  /** One more attempt adds its value, if any, to the samples, and its label replaces the last one. */
  lemma CollectStep(attempts: seq<Extracted>, i: nat)
    requires i < |attempts|
    ensures Present(Values(attempts[..i + 1]))
         == Present(Values(attempts[..i])) + if attempts[i].value.Some? then [attempts[i].value.value] else []
    ensures LastLabel(attempts[..i + 1])
         == if attempts[i].value.Some? then attempts[i].sensorLabel else LastLabel(attempts[..i])
  {
    assert Values(attempts[..i + 1]) == Values(attempts[..i]) + [attempts[i].value];
    PresentSnoc(Values(attempts[..i]), attempts[i].value);
    assert attempts[..i + 1][..i] == attempts[..i];
  }

  /** No sample is collected exactly when no attempt carried a value. */
  lemma NoSamplesExactly(attempts: seq<Extracted>)
    ensures |Present(Values(attempts))| == 0 <==> forall i :: 0 <= i < |attempts| ==> attempts[i].value.None?
  {
    var vs := Values(attempts);
    assert forall i :: 0 <= i < |attempts| ==> vs[i] == attempts[i].value;
  }

  /** The average of the collected samples lies within the range of the readings. */
  lemma CollectedMeanBounds(attempts: seq<Extracted>, lo: real, hi: real)
    requires exists i :: 0 <= i < |attempts| && attempts[i].value.Some?
    requires forall i :: 0 <= i < |attempts| && attempts[i].value.Some? ==> lo <= attempts[i].value.value <= hi
    ensures |Present(Values(attempts))| > 0
    ensures lo <= Mean(Present(Values(attempts))) <= hi
  {
    var vs := Values(attempts);
    PresentBounds(vs, lo, hi);
    MeanBounds(Present(vs), lo, hi);
  }

  /** The calibration record written for the Z-axis sensor. */
  datatype Calibration = Calibration(slope: real, intercept: real, rSquared: real, sensorLabel: string)

  /** Fewer than two weights stop the script; otherwise the Z-axis entry is a record or `null`. */
  datatype FitOutcome = TooFewPoints | Fitted(zAxis: Option<Calibration>)

  function Forces(weightsKg: seq<real>): (fs: seq<real>)
    ensures |fs| == |weightsKg|
    ensures forall i :: 0 <= i < |fs| ==> fs[i] == weightsKg[i] * KgToNewtons
  {
    seq(|weightsKg|, i requires 0 <= i < |weightsKg| => weightsKg[i] * KgToNewtons)
  }

  /** `forces - (slope * readings + intercept)`, element by element. */
  function Residuals(readings: seq<real>, forces: seq<real>, slope: real, intercept: real): (rs: seq<real>)
    requires |readings| == |forces|
    ensures |rs| == |readings|
    ensures forall i :: 0 <= i < |rs| ==> rs[i] == forces[i] - (slope * readings[i] + intercept)
  {
    seq(|readings|, i requires 0 <= i < |readings| => forces[i] - (slope * readings[i] + intercept))
  }

  /** The coefficient of determination, defined as 0 when the forces do not vary. */
  function RSquared(readings: seq<real>, forces: seq<real>, slope: real, intercept: real): real
    requires |readings| == |forces| > 0
  {
    var ssRes := SquaredDeviation(Residuals(readings, forces, slope, intercept), 0.0);
    var ssTot := SquaredDeviation(forces, Mean(forces));
    if ssTot > 0.0 then 1.0 - ssRes / ssTot else 0.0
  }

  /**
    The fit step of the calibration script, for the weights entered, the
    averaged reading per weight (`None` when no sample arrived) and the label
    per weight. The clean readings are paired with the leading forces, as
    the script does.
   */
  function Calibrate(weightsKg: seq<real>, readings: seq<Option<real>>, labels: seq<Option<string>>,
                     slope: real, intercept: real): (r: FitOutcome)
    requires |readings| == |weightsKg| == |labels|
    ensures r.TooFewPoints? <==> |weightsKg| < 2
    ensures r.Fitted? ==> (r.zAxis.Some? <==> |Present(readings)| >= 2)
    ensures r.Fitted? && r.zAxis.Some? ==> r.zAxis.value.slope == slope && r.zAxis.value.intercept == intercept
    ensures r.Fitted? && r.zAxis.Some? ==>
      r.zAxis.value.sensorLabel == (if labels[0].Some? && |labels[0].value| > 0 then labels[0].value else ZAxisKeyword)
    ensures r.Fitted? && r.zAxis.Some? ==>
      r.zAxis.value.rSquared == RSquared(Present(readings), Forces(weightsKg)[..|Present(readings)|], slope, intercept)
  {
    if |weightsKg| < 2 then TooFewPoints
    else
      var forces := Forces(weightsKg);
      var clean := Present(readings);
      if clean == [] || |clean| < 2 then Fitted(None)
      else
        var paired := forces[..|clean|];
        var name := if labels[0].Some? && |labels[0].value| > 0 then labels[0].value else ZAxisKeyword;
        Fitted(Some(Calibration(slope, intercept, RSquared(clean, paired, slope, intercept), name)))
  }

  /** The force of the weight each clean reading was taken under. */
  function AlignedForces(forces: seq<real>, readings: seq<Option<real>>): (fs: seq<real>)
    requires |forces| == |readings|
    ensures |fs| == |Present(readings)|
    ensures forall k :: 0 <= k < |fs| ==> fs[k] == forces[PresentIndices(readings)[k]]
  {
    var idx := PresentIndices(readings);
    seq(|idx|, k requires 0 <= k < |idx| => forces[idx[k]])
  }

  /**
    The fit step with each clean reading paired with the force of its own
    weight. It differs from `Calibrate` only in that pairing.
   */
  function CalibrateAligned(weightsKg: seq<real>, readings: seq<Option<real>>, labels: seq<Option<string>>,
                            slope: real, intercept: real): (r: FitOutcome)
    requires |readings| == |weightsKg| == |labels|
    ensures r.TooFewPoints? <==> |weightsKg| < 2
    ensures r.Fitted? ==> (r.zAxis.Some? <==> |Present(readings)| >= 2)
    ensures r.Fitted? && r.zAxis.Some? ==> r.zAxis.value.slope == slope && r.zAxis.value.intercept == intercept
    ensures r.Fitted? && r.zAxis.Some? ==>
      r.zAxis.value.sensorLabel == (if labels[0].Some? && |labels[0].value| > 0 then labels[0].value else ZAxisKeyword)
    ensures r.Fitted? && r.zAxis.Some? ==>
      r.zAxis.value.rSquared == RSquared(Present(readings), AlignedForces(Forces(weightsKg), readings), slope, intercept)
  {
    if |weightsKg| < 2 then TooFewPoints
    else
      var clean := Present(readings);
      if |clean| < 2 then Fitted(None)
      else
        var name := if labels[0].Some? && |labels[0].value| > 0 then labels[0].value else ZAxisKeyword;
        Fitted(Some(Calibration(slope, intercept, RSquared(clean, AlignedForces(Forces(weightsKg), readings), slope, intercept), name)))
  }

  /** Every clean reading, paired with the force at the same position, lies on the line. */
  predicate PairsOnLine(clean: seq<real>, forces: seq<real>, slope: real, intercept: real)
    requires |clean| == |forces|
  {
    forall k :: 0 <= k < |clean| ==> forces[k] == slope * clean[k] + intercept
  }

  /** Every weight whose reading arrived lies on the line. */
  predicate WeighingsOnLine(forces: seq<real>, readings: seq<Option<real>>, slope: real, intercept: real)
    requires |forces| == |readings|
  {
    forall i :: 0 <= i < |readings| && readings[i].Some? ==> forces[i] == slope * readings[i].value + intercept
  }

  /** The aligned pairs all lie on a line exactly when every weighing with a reading lies on it. */
  lemma AlignedPairsOnLine(forces: seq<real>, readings: seq<Option<real>>, slope: real, intercept: real)
    requires |forces| == |readings|
    ensures PairsOnLine(Present(readings), AlignedForces(forces, readings), slope, intercept)
        <==> WeighingsOnLine(forces, readings, slope, intercept)
  {
    if WeighingsOnLine(forces, readings, slope, intercept) {
      WeighingsGivePairs(forces, readings, slope, intercept);
    }
    if PairsOnLine(Present(readings), AlignedForces(forces, readings), slope, intercept) {
      PairsGiveWeighings(forces, readings, slope, intercept);
    }
  }

  lemma WeighingsGivePairs(forces: seq<real>, readings: seq<Option<real>>, slope: real, intercept: real)
    requires |forces| == |readings|
    requires WeighingsOnLine(forces, readings, slope, intercept)
    ensures PairsOnLine(Present(readings), AlignedForces(forces, readings), slope, intercept)
  {
    var clean := Present(readings);
    var fs := AlignedForces(forces, readings);
    forall k | 0 <= k < |clean|
      ensures fs[k] == slope * clean[k] + intercept
    {
      WeighingGivesPair(forces, readings, slope, intercept, k);
    }
  }

  lemma WeighingGivesPair(forces: seq<real>, readings: seq<Option<real>>, slope: real, intercept: real, k: nat)
    requires |forces| == |readings| && k < |Present(readings)|
    requires WeighingsOnLine(forces, readings, slope, intercept)
    ensures AlignedForces(forces, readings)[k] == slope * Present(readings)[k] + intercept
  {
    var i := PresentIndices(readings)[k];
    assert AlignedForces(forces, readings)[k] == forces[i];
    assert readings[i].Some? && readings[i].value == Present(readings)[k];
  }

  lemma PairsGiveWeighings(forces: seq<real>, readings: seq<Option<real>>, slope: real, intercept: real)
    requires |forces| == |readings|
    requires PairsOnLine(Present(readings), AlignedForces(forces, readings), slope, intercept)
    ensures WeighingsOnLine(forces, readings, slope, intercept)
  {
    forall i | 0 <= i < |readings| && readings[i].Some?
      ensures forces[i] == slope * readings[i].value + intercept
    {
      PairGivesWeighing(forces, readings, slope, intercept, i);
    }
  }

  lemma PairGivesWeighing(forces: seq<real>, readings: seq<Option<real>>, slope: real, intercept: real, i: nat)
    requires |forces| == |readings| && i < |readings| && readings[i].Some?
    requires PairsOnLine(Present(readings), AlignedForces(forces, readings), slope, intercept)
    ensures forces[i] == slope * readings[i].value + intercept
  {
    var idx := PresentIndices(readings);
    PresentIndicesComplete(readings, i);
    var k :| 0 <= k < |idx| && idx[k] == i;
    var clean := Present(readings);
    var fs := AlignedForces(forces, readings);
    assert fs[k] == forces[i] && clean[k] == readings[i].value;
    assert fs[k] == slope * clean[k] + intercept;
  }

  /**
    With the aligned pairing, `r_squared` is one exactly when every weight
    whose reading arrived lies on the fitted line (forces varying).
   */
  lemma AlignedPerfectFit(weightsKg: seq<real>, readings: seq<Option<real>>, labels: seq<Option<string>>,
                          slope: real, intercept: real)
    requires |readings| == |weightsKg| == |labels| >= 2 && |Present(readings)| >= 2
    requires var fs := AlignedForces(Forces(weightsKg), readings); SquaredDeviation(fs, Mean(fs)) > 0.0
    ensures var r := CalibrateAligned(weightsKg, readings, labels, slope, intercept);
      r.Fitted? && r.zAxis.Some? &&
      (r.zAxis.value.rSquared == 1.0 <==> WeighingsOnLine(Forces(weightsKg), readings, slope, intercept))
  {
    var forces := Forces(weightsKg);
    RSquaredOneExactlyOnPerfectFit(Present(readings), AlignedForces(forces, readings), slope, intercept);
    AlignedPairsOnLine(forces, readings, slope, intercept);
  }

  /** When every reading is present, the clean readings come from positions 0, 1, 2, ... */
  lemma {:induction false} AllPresentIndices(xs: seq<Option<real>>)
    requires forall i :: 0 <= i < |xs| ==> xs[i].Some?
    ensures |PresentIndices(xs)| == |xs|
    ensures forall k :: 0 <= k < |xs| ==> PresentIndices(xs)[k] == k
  {
    if |xs| > 0 {
      var n := |xs| - 1;
      var init := xs[..n];
      assert forall i :: 0 <= i < |init| ==> init[i].Some? by {
        assert forall i :: 0 <= i < n ==> init[i] == xs[i];
      }
      AllPresentIndices(init);
      var a := PresentIndices(init);
      assert PresentIndices(xs) == a + [n] by {
        assert xs[n].Some?;
      }
    }
  }

  /** When every weight produced a reading, the leading forces are the aligned ones and both fits agree. */
  lemma CompleteReadingsAlign(weightsKg: seq<real>, readings: seq<Option<real>>, labels: seq<Option<string>>,
                              slope: real, intercept: real)
    requires |readings| == |weightsKg| == |labels|
    requires forall i :: 0 <= i < |readings| ==> readings[i].Some?
    ensures |Present(readings)| == |readings|
    ensures AlignedForces(Forces(weightsKg), readings) == Forces(weightsKg)[..|Present(readings)|]
    ensures Calibrate(weightsKg, readings, labels, slope, intercept) == CalibrateAligned(weightsKg, readings, labels, slope, intercept)
  {
    AllPresentIndices(readings);
  }

  /** The clean readings of the counterexample below, and where they came from. */
  lemma SkippedFirstReading()
    ensures var r: seq<Option<real>> := [None, Some(10.0), Some(20.0)];
      Present(r) == [10.0, 20.0] && PresentIndices(r) == [1, 2]
  {
    var r: seq<Option<real>> := [None, Some(10.0), Some(20.0)];
    assert r[..2][..1] == [None];
    assert r[..2] == [None, Some(10.0)];
    assert Present(r[..2][..1]) == [];
    assert PresentIndices(r[..2][..1]) == [];
  }

  /**
    The script as written pairs the clean readings with the leading forces.
    With weights 1, 2 and 3 kg and no reading for the first, the readings 10
    and 20 mT, taken under 2 and 3 kg, are fitted against the forces of 1 and
    2 kg. Those two pairs lie exactly on force = 0.980665 * z, so that is the
    line the fit returns, and the script scores it `r_squared` 1 although it
    misses the real weighings: 9.80665 N at 10 mT where 19.6133 N was applied.
    The aligned pairs lie on force = 0.980665 * z + 9.80665, which passes
    through every real weighing and also scores 1.
   */
  lemma LeadingForcesMisaligned()
    ensures var w := [1.0, 2.0, 3.0];
      var r: seq<Option<real>> := [None, Some(10.0), Some(20.0)];
      var l: seq<Option<string>> := [None, None, None];
      var fs := Forces(w);
      var written := Calibrate(w, r, l, 0.980665, 0.0);
      var aligned := CalibrateAligned(w, r, l, 0.980665, 9.80665);
      && |fs| == |r|
      && PairsOnLine(Present(r), fs[..|Present(r)|], 0.980665, 0.0)
      && written.Fitted? && written.zAxis.Some? && written.zAxis.value.rSquared == 1.0
      && !WeighingsOnLine(fs, r, 0.980665, 0.0)
      && PairsOnLine(Present(r), AlignedForces(fs, r), 0.980665, 9.80665)
      && aligned.Fitted? && aligned.zAxis.Some? && aligned.zAxis.value.rSquared == 1.0
      && WeighingsOnLine(fs, r, 0.980665, 9.80665)
  {
    var w := [1.0, 2.0, 3.0];
    var r: seq<Option<real>> := [None, Some(10.0), Some(20.0)];
    ExampleForces();
    var fs := Forces(w);
    var clean := [10.0, 20.0];
    var leading := [9.80665, 19.6133];
    var own := [19.6133, 29.41995];
    FitHits(clean, leading, 0.0);
    FitHits(clean, own, 9.80665);
    WrittenLineMisses(fs, r);
    AlignedPairsOnLine(fs, r, 0.980665, 9.80665);
  }

  /** The clean readings of the example and the two ways of pairing them with forces. */
  lemma ExampleForces()
    ensures var w := [1.0, 2.0, 3.0];
      var r: seq<Option<real>> := [None, Some(10.0), Some(20.0)];
      && Present(r) == [10.0, 20.0]
      && Forces(w)[..|Present(r)|] == [9.80665, 19.6133]
      && AlignedForces(Forces(w), r) == [19.6133, 29.41995]
  {
    var w := [1.0, 2.0, 3.0];
    var r: seq<Option<real>> := [None, Some(10.0), Some(20.0)];
    SkippedFirstReading();
    var fs := Forces(w);
    assert fs[0] == 9.80665 && fs[1] == 19.6133 && fs[2] == 29.41995;
    assert AlignedForces(fs, r) == [fs[1], fs[2]];
  }

  /** Two different forces vary. */
  lemma TwoForcesVary(fs: seq<real>)
    requires |fs| == 2 && fs[0] != fs[1]
    ensures SquaredDeviation(fs, Mean(fs)) > 0.0
  {
    var i := if fs[0] != Mean(fs) then 0 else 1;
    RSquaredOfConstantForces(fs, fs, 0.0, 0.0);
    assert fs[i] != Mean(fs);
  }

  /** Two readings whose forces lie on a line of slope 0.980665 score `r_squared` 1 on it. */
  lemma FitHits(clean: seq<real>, fs: seq<real>, intercept: real)
    requires |clean| == |fs| == 2 && clean[0] != clean[1]
    requires fs[0] == 0.980665 * clean[0] + intercept && fs[1] == 0.980665 * clean[1] + intercept
    ensures PairsOnLine(clean, fs, 0.980665, intercept)
    ensures RSquared(clean, fs, 0.980665, intercept) == 1.0
  {
    TwoForcesVary(fs);
    RSquaredOneExactlyOnPerfectFit(clean, fs, 0.980665, intercept);
  }

  /** The line through the leading pairs misses the weighing that gave the first clean reading. */
  lemma WrittenLineMisses(fs: seq<real>, r: seq<Option<real>>)
    requires |fs| == |r| == 3 && fs[1] == 19.6133 && r[1] == Some(10.0)
    ensures !WeighingsOnLine(fs, r, 0.980665, 0.0)
  {
    assert fs[1] != 0.980665 * r[1].value + 0.0;
  }

  /** `r_squared` is zero exactly when the paired forces are all equal, i.e. `ss_tot` vanishes. */
  lemma RSquaredOfConstantForces(readings: seq<real>, forces: seq<real>, slope: real, intercept: real)
    requires |readings| == |forces| > 0
    ensures (forall i :: 0 <= i < |forces| ==> forces[i] == Mean(forces)) ==>
              RSquared(readings, forces, slope, intercept) == 0.0
    ensures (exists i :: 0 <= i < |forces| && forces[i] != Mean(forces)) ==>
              SquaredDeviation(forces, Mean(forces)) > 0.0
  {
    SquaredDeviationZero(forces, Mean(forces));
    SquaredDeviationNonNegative(forces, Mean(forces));
  }

  /** `r_squared` never exceeds one. */
  lemma RSquaredAtMostOne(readings: seq<real>, forces: seq<real>, slope: real, intercept: real)
    requires |readings| == |forces| > 0
    ensures RSquared(readings, forces, slope, intercept) <= 1.0
  {
    var ssRes := SquaredDeviation(Residuals(readings, forces, slope, intercept), 0.0);
    var ssTot := SquaredDeviation(forces, Mean(forces));
    SquaredDeviationNonNegative(Residuals(readings, forces, slope, intercept), 0.0);
    if ssTot > 0.0 {
      assert ssRes / ssTot >= 0.0;
    }
  }

  /** A line through every point, on forces that vary, gives `r_squared == 1`; any miss gives less. */
  lemma RSquaredOneExactlyOnPerfectFit(readings: seq<real>, forces: seq<real>, slope: real, intercept: real)
    requires |readings| == |forces| > 0
    requires SquaredDeviation(forces, Mean(forces)) > 0.0
    ensures RSquared(readings, forces, slope, intercept) == 1.0 <==> PairsOnLine(readings, forces, slope, intercept)
  {
    var rs := Residuals(readings, forces, slope, intercept);
    var ssRes := SquaredDeviation(rs, 0.0);
    var ssTot := SquaredDeviation(forces, Mean(forces));
    SquaredDeviationZero(rs, 0.0);
    SquaredDeviationNonNegative(rs, 0.0);
    assert RSquared(readings, forces, slope, intercept) == 1.0 - ssRes / ssTot;
    if ssRes != 0.0 {
      assert ssRes / ssTot > 0.0;
    }
    assert PairsOnLine(readings, forces, slope, intercept) <==> (forall i :: 0 <= i < |rs| ==> rs[i] == 0.0);
  }
}
