/**
  The serial link end to end: the lines the firmware prints, read back by
  the host scripts' extractor.
 */
module SerialRoundTrip {
  import opened Options
  import opened DecimalText
  import opened SerialPattern
  import opened CalibrationScript
  import opened SampleLoop

  /** Text of the form `[-+]?\d+\.?\d*` sitting at `x` in a line is a number span there. */
  lemma NumberSpanIn(line: string, x: nat, num: string)
    requires x + |num| <= |line| && line[x..x + |num|] == num
    requires NumberSpan(num, 0, |num|)
    ensures NumberSpan(line, x, x + |num|)
  {
    assert forall k :: 0 <= k < |num| ==> line[x + k] == num[k];
  }

  /** A number span stops where the line stops continuing it. */
  lemma NumberSpanEnd(line: string, x: nat, y: nat, e: nat)
    requires x < y <= e <= |line|
    requires y == |line| || (!IsDigit(line[y]) && line[y] != '.')
    requires NumberSpan(line, x, e)
    ensures e == y
  {
  }

  /** A label never runs past a closing parenthesis. */
  lemma LabelStopsAtParenthesis(line: string, kw: string, m: Match, close: nat)
    requires IsMatch(line, kw, m) && m.labelStart <= close < |line| && line[close] == ')'
    ensures m.labelEnd <= close
  {
  }

  /**
    Where the keyword starts the line and is followed by `(tag): number`, the
    scan matches exactly that: the label runs to the closing parenthesis and
    the number is taken whole.
   */
  lemma LabelledSearch(line: string, kw: string, close: nat, y: nat)
    requires KeywordAt(line, kw, 0) && |kw| < close && close + 3 < y <= |line|
    requires line[|kw|] == '('
    requires forall k :: |kw| + 1 <= k < close ==> line[k] != ')'
    requires line[close] == ')' && line[close + 1] == ':' && line[close + 2] == ' '
    requires NumberSpan(line, close + 3, y)
    requires y == |line| || (!IsDigit(line[y]) && line[y] != '.')
    ensures Search(line, kw) == Some(Match(0, |kw| + 1, close, close + 1, close + 3, y))
  {
    var m0 := Match(0, |kw| + 1, close, close + 1, close + 3, y);
    assert IsMatch(line, kw, m0);
    SearchLeftmostGreedy(line, kw, m0);
    LabelledMatchFields(line, kw, Search(line, kw).value, close, y);
  }

  /** A match that begins no later, and labels and numbers no shorter, than the `(tag): number` one is that one. */
  lemma LabelledMatchFields(line: string, kw: string, r: Match, close: nat, y: nat)
    requires KeywordAt(line, kw, 0) && |kw| < close && close + 3 < y <= |line|
    requires line[|kw|] == '(' && line[close] == ')' && line[close + 1] == ':' && line[close + 2] == ' '
    requires y == |line| || (!IsDigit(line[y]) && line[y] != '.')
    requires IsMatch(line, kw, r) && r.start <= 0 && r.labelStart >= |kw| + 1 && r.labelEnd >= close
    requires r.labelEnd == close ==> r.numStart == close + 3 && r.numEnd >= y
    ensures r == Match(0, |kw| + 1, close, close + 1, close + 3, y)
  {
    LabelStopsAtParenthesis(line, kw, r, close);
    NumberSpanEnd(line, close + 3, y, r.numEnd);
  }

  /**
    A labelled reading, `Keyword(tag): number` and then anything that does
    not continue the number, yields that number and that tag (or the
    keyword when the tag is empty).
   */
  lemma LabelledLine(kw: Keyword, tag: string, num: string, tail: string)
    requires ')' !in tag
    requires NumberSpan(num, 0, |num|)
    requires tail == [] || (!IsDigit(tail[0]) && tail[0] != '.')
    ensures var line := kw + "(" + tag + "): " + num + tail;
      ExtractSensorValue(line, kw) == Extracted(Some(DecimalValue(num)), Some(if |tag| > 0 then tag else kw))
  {
    var line := kw + "(" + tag + "): " + num + tail;
    var close := |kw| + 1 + |tag|;
    var x := close + 3;
    var y := x + |num|;
    assert line[..|kw|] == kw;
    assert forall k :: |kw| + 1 <= k < close ==> line[k] == tag[k - |kw| - 1];
    assert line[|kw| + 1..close] == tag;
    assert line[x..y] == num;
    assert y < |line| ==> line[y] == tail[0];
    NumberSpanIn(line, x, num);
    LabelledSearch(line, kw, close, y);
  }

  /**
    Where the keyword starts the line and is followed by `: number` with no
    further colon, the scan matches exactly that, with an empty label.
   */
  lemma UnlabelledSearch(line: string, kw: string, y: nat)
    requires KeywordAt(line, kw, 0) && |kw| + 2 < y <= |line|
    requires line[|kw|] == ':' && line[|kw| + 1] == ' '
    requires NumberSpan(line, |kw| + 2, y)
    requires y == |line| || (!IsDigit(line[y]) && line[y] != '.')
    requires forall k :: |kw| < k < |line| ==> line[k] != ':'
    ensures Search(line, kw) == Some(Match(0, |kw|, |kw|, |kw|, |kw| + 2, y))
  {
    var p := |kw|;
    var m0 := Match(0, p, p, p, p + 2, y);
    assert IsMatch(line, kw, m0);
    SearchLeftmostGreedy(line, kw, m0);
    var r := Search(line, kw).value;
    assert r.start == 0;
    assert r.colon == p;
    NumberSpanEnd(line, p + 2, y, r.numEnd);
  }

  /**
    An unlabelled reading, `Keyword: number` and then a tail without a colon
    that does not continue the number, yields that number and the keyword as
    the label.
   */
  lemma UnlabelledLine(kw: Keyword, num: string, tail: string)
    requires NumberSpan(num, 0, |num|)
    requires tail == [] || (!IsDigit(tail[0]) && tail[0] != '.')
    requires ':' !in tail
    ensures ExtractSensorValue(kw + ": " + num + tail, kw) == Extracted(Some(DecimalValue(num)), Some(kw))
  {
    var line := kw + ": " + num + tail;
    var p := |kw|;
    var x := p + 2;
    var y := x + |num|;
    assert line[..p] == kw;
    assert line[x..y] == num;
    assert forall k :: x <= k < y ==> line[k] == num[k - x];
    assert forall k :: y <= k < |line| ==> line[k] == tail[k - y];
    assert forall k :: x <= k < y ==> line[k] != ':';
    NumberSpanIn(line, x, num);
    UnlabelledSearch(line, kw, y);
    assert line[p..p] == [];
  }

  /** The shape of `%.3f` text: an optional minus, digits, one point, three digits. */
  lemma FixedThreeIsNumber(k: int)
    ensures NumberSpan(FixedThree(k), 0, |FixedThree(k)|)
  {
    var m := if k < 0 then -k else k;
    var w := NatText(m / 1000);
    var f := ThreeDigits(m % 1000);
    var body := w + "." + f;
    var t := FixedThree(k);
    assert forall j :: 0 <= j < |body| ==> IsDigit(body[j]) || body[j] == '.';
    assert forall j :: 0 <= j < |body| && body[j] == '.' ==> j == |w|;
    if k < 0 {
      assert t == "-" + body;
      assert forall j :: 1 <= j < |t| ==> t[j] == body[j - 1];
    } else {
      assert t == body;
    }
  }

  /** The firmware's reading line for a value of `k` thousandths. */
  function FirmwareLine(k: int): string
  {
    "Z-axis(M1): " + FixedThree(k) + " mT"
  }

  /** The firmware's line around any number text reads back as that number, labelled `M1`. */
  lemma FirmwareLineOf(num: string)
    requires NumberSpan(num, 0, |num|)
    ensures ExtractSensorValue("Z-axis(M1): " + num + " mT", ZAxisKeyword) == Extracted(Some(DecimalValue(num)), Some("M1"))
  {
    assert "Z-axis(M1): " + num + " mT" == ZAxisKeyword + "(" + "M1" + "): " + num + " mT";
    LabelledLine(ZAxisKeyword, "M1", num, " mT");
  }

  /** The firmware's reading line for `k` thousandths reads back as its `%.3f` text. */
  lemma FirmwareLineText(k: int)
    ensures ExtractSensorValue(FirmwareLine(k), ZAxisKeyword) == Extracted(Some(DecimalValue(FixedThree(k))), Some("M1"))
  {
    var num := FixedThree(k);
    FixedThreeIsNumber(k);
    FirmwareLineOf(num);
    assert FirmwareLine(k) == "Z-axis(M1): " + num + " mT";
  }

  /** Any line the firmware prints for a reading parses back to exactly its thousandths, labelled `M1`. */
  lemma FirmwareLineRoundTrip(k: int)
    ensures var e := ExtractSensorValue(FirmwareLine(k), ZAxisKeyword);
      e.value.Some? && e.value.value == k as real / 1000.0 && e.sensorLabel == Some("M1")
  {
    FirmwareLineText(k);
    FixedThreeValue(k);
  }

  /** A reading printed by the loop is recovered to within the half-thousandth that `%.3f` rounds away. */
  lemma ReadingRoundTrip(v: real)
    ensures var e := ExtractSensorValue(Render(Reading(v)), ZAxisKeyword);
      && e.value.Some? && e.sensorLabel == Some("M1")
      && v - 0.0005 < e.value.value <= v + 0.0005
  {
    FirmwareLineRoundTrip(Thousandths(v));
    assert Render(Reading(v)) == FirmwareLine(Thousandths(v));
  }

  /** The keyword never occurs in a line without its first character. */
  lemma {:induction false} AbsentKeyword(line: string, kw: string, i: nat)
    requires |kw| > 0
    requires forall j :: i <= j < |line| ==> line[j] != kw[0]
    ensures !OccursFrom(line, kw, i)
    decreases |line| + 1 - i
  {
    if i + |kw| <= |line| {
      assert line[i..i + |kw|][0] == line[i];
      AbsentKeyword(line, kw, i + 1);
    }
  }

  /** "Sensor not initialized" carries no reading. */
  lemma NotInitializedLineRejected()
    ensures ExtractSensorValue(Render(NotInitialized), ZAxisKeyword) == Extracted(None, None)
  {
    AbsentKeyword(Render(NotInitialized), ZAxisKeyword, 0);
  }

  /** A line whose only colon is followed by no digit at all cannot match. */
  lemma NoNumberAfterColon(line: string, kw: string, c: nat)
    requires forall k :: 0 <= k < |line| && line[k] == ':' ==> k == c
    requires forall k :: c < k < |line| ==> !IsDigit(line[k])
    ensures forall m :: !IsMatch(line, kw, m)
  {
    forall m | IsMatch(line, kw, m)
      ensures false
    {
    }
  }

  /** "Z-axis(M1): ERROR" carries no reading: nothing after its only colon is a digit. */
  lemma ErrorLineRejected()
    ensures ExtractSensorValue(Render(ReadError), ZAxisKeyword) == Extracted(None, None)
  {
    var line := Render(ReadError);
    assert line == "Z-axis(M1): ERROR";
    assert forall k :: 0 <= k < |line| && line[k] == ':' ==> k == 10;
    assert forall k :: 10 < k < |line| ==> !IsDigit(line[k]);
    NoNumberAfterColon(line, ZAxisKeyword, 10);
    ExtractFindsEveryMatch(line, ZAxisKeyword);
  }

  /** "12.693": a numeral the firmware prints, read back exactly. */
  lemma NumeralValue12693()
    ensures NumberSpan("12.693", 0, 6) && DecimalValue("12.693") == 12.693
  {
    DigitsValue12();
    DigitsValue693();
    PointNumberValue("12", "693");
    assert "12" + "." + "693" == "12.693";
  }

  lemma DigitsValue12()
    ensures DigitsValue("12") == 12
  {
    assert "12"[..1] == "1";
  }

  lemma DigitsValue693()
    ensures DigitsValue("693") == 693
  {
    assert "693"[..2] == "69";
    assert "69"[..1] == "6";
  }

  /** "0.013", read back exactly. */
  lemma NumeralValue0013()
    ensures NumberSpan("0.013", 0, 5) && DecimalValue("0.013") == 0.013
  {
    assert DigitsValue("0") == 0 by { assert "0"[..0] == ""; }
    assert DigitsValue("013") == 13 by { assert "013"[..2] == "01"; assert "01"[..1] == "0"; }
    PointNumberValue("0", "013");
    assert "0" + "." + "013" == "0.013";
  }

  /** The labelled example the calibration script documents, as the firmware prints it. */
  lemma LabelledExample()
    ensures var e := ExtractSensorValue("Z-axis(M1): 12.693 mT", ZAxisKeyword);
      e.value.Some? && e.value.value == 12.693 && e.sensorLabel == Some("M1")
  {
    NumeralValue12693();
    LabelledExampleText();
    LabelledLine(ZAxisKeyword, "M1", "12.693", " mT");
  }

  lemma LabelledExampleText()
    ensures ZAxisKeyword + "(" + "M1" + "): " + "12.693" + " mT" == "Z-axis(M1): 12.693 mT"
  {
  }

  /** The same pattern with another keyword: "Current(M1): 0.013 A". */
  lemma OtherKeywordExample()
    ensures var e := ExtractSensorValue("Current(M1): 0.013 A", "Current");
      e.value.Some? && e.value.value == 0.013 && e.sensorLabel == Some("M1")
  {
    NumeralValue0013();
    assert "Current" + "(" + "M1" + "): " + "0.013" + " A" == "Current(M1): 0.013 A";
    LabelledLine("Current", "M1", "0.013", " A");
  }

  /** Without a label the keyword stands in for it: "Z-axis: 12.693". */
  lemma UnlabelledExample()
    ensures var e := ExtractSensorValue("Z-axis: 12.693", ZAxisKeyword);
      e.value.Some? && e.value.value == 12.693 && e.sensorLabel == Some("Z-axis")
  {
    NumeralValue12693();
    assert ZAxisKeyword + ": " + "12.693" + "" == "Z-axis: 12.693";
    UnlabelledLine(ZAxisKeyword, "12.693", "");
  }

  /** A leading sign is part of the number: "Z-axis: -1.5" reads as -1.5. */
  lemma SignedExample()
    ensures var e := ExtractSensorValue("Z-axis: -1.5", ZAxisKeyword);
      e.value.Some? && e.value.value == -1.5 && e.sensorLabel == Some("Z-axis")
  {
    assert NumberSpan("-1.5", 0, 4);
    assert DecimalValue("-1.5") == -1.5;
    assert ZAxisKeyword + ": " + "-1.5" + "" == "Z-axis: -1.5";
    UnlabelledLine(ZAxisKeyword, "-1.5", "");
  }

  /**
    "Z-axis(a:1): 2" matches twice from the start: with label "a" and
    number 1, and with label "a:1" and number 2. The extractor reports the
    longer label and so the reading 2.
   */
  lemma AmbiguousLabelExample()
    ensures IsMatch("Z-axis(a:1): 2", ZAxisKeyword, Match(0, 7, 8, 8, 9, 10))
    ensures DecimalValue("Z-axis(a:1): 2"[9..10]) == 1.0
    ensures var e := ExtractSensorValue("Z-axis(a:1): 2", ZAxisKeyword);
      e.value.Some? && e.value.value == 2.0 && e.sensorLabel == Some("a:1")
  {
    ShortLabelMatch();
    LongLabelReported();
  }

  /** The match that stops the label at the first colon. */
  lemma ShortLabelMatch()
    ensures IsMatch("Z-axis(a:1): 2", ZAxisKeyword, Match(0, 7, 8, 8, 9, 10))
    ensures DecimalValue("Z-axis(a:1): 2"[9..10]) == 1.0
  {
    var line := "Z-axis(a:1): 2";
    assert line[0..6] == ZAxisKeyword;
    assert line[9..10] == "1";
    assert DecimalValue("1") == 1.0;
  }

  /** The match `re.search` reports: the label runs up to the parenthesis. */
  lemma LongLabelReported()
    ensures var e := ExtractSensorValue("Z-axis(a:1): 2", ZAxisKeyword);
      e.value.Some? && e.value.value == 2.0 && e.sensorLabel == Some("a:1")
  {
    assert NumberSpan("2", 0, 1) && DecimalValue("2") == 2.0;
    assert ZAxisKeyword + "(" + "a:1" + "): " + "2" + "" == "Z-axis(a:1): 2";
    LabelledLine(ZAxisKeyword, "a:1", "2", "");
  }
}
