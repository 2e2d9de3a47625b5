/**
 * Recommendations for a rainwater-harvesting site: the lines of the
 * language model's reply, cleaned of bullets and blanks, or, when the reply
 * yields no line or the call fails, a fixed rule-based list built from five
 * figures of the site data.
 *
 * The HTTP call is not part of this model: its parsed JSON body is a
 * parameter, `None` when the request or the body parsing fails.
 */
module Recommendations {
  import opened JsValues
  import opened JsStrings

  /** The five figures the fallback list depends on, as `Number(...)` made them. */
  datatype FallbackInputs = FallbackInputs(
    roofArea: JsNumber, rainfall: JsNumber, roi: JsNumber, score: JsNumber, resilience: JsNumber)

  /** `Number(data?.a?.b ?? data?.c?.d ?? 0)` for a preferred and an alternative path. */
  function NumberAt(preferred: Option<Json>, alternative: Option<Json>, rt: Runtime): (n: JsNumber)
    ensures preferred.Some? && !preferred.value.JNull? ==> n == ToNumber(preferred.value, rt)
    ensures (preferred.None? || preferred.value.JNull?) && alternative.Some? && !alternative.value.JNull?
            ==> n == ToNumber(alternative.value, rt)
    ensures (preferred.None? || preferred.value.JNull?) && (alternative.None? || alternative.value.JNull?)
            ==> n == Num(0.0)
    ensures ReadsAs(n, preferred, alternative, rt)
  {
    ToNumber(Coalesce(CoalesceOpt(preferred, alternative), JNum(0.0)), rt)
  }

  /**
   * The figures read from the site data: `roofArea` before `roofArea_m2`,
   * `annualRainfall` before `annualRainfall_mm`, the ROI of the economic
   * analysis before that of the financials, the climate trend's resilience
   * before the climate's; each 0 when absent.
   */
  function ExtractInputs(data: Option<Json>, rt: Runtime): (r: FallbackInputs)
    ensures var v := Field(data, "roofArea");
      v.Some? && !v.value.JNull? ==> r.roofArea == ToNumber(v.value, rt)
    ensures var v, w := Field(data, "roofArea"), Field(data, "roofArea_m2");
      (v.None? || v.value.JNull?) && w.Some? && !w.value.JNull? ==> r.roofArea == ToNumber(w.value, rt)
    ensures var v := Field(data, "annualRainfall");
      v.Some? && !v.value.JNull? ==> r.rainfall == ToNumber(v.value, rt)
    ensures var v := Field(Field(data, "economicAnalysis"), "roi");
      v.Some? && !v.value.JNull? ==> r.roi == ToNumber(v.value, rt)
    ensures var v := Field(Field(data, "climateTrend"), "climateResilience");
      v.Some? && !v.value.JNull? ==> r.resilience == ToNumber(v.value, rt)
    ensures var v := Field(data, "score"); v.None? || v.value.JNull? ==> r.score == Num(0.0)
    ensures data.None? ==> r == FallbackInputs(Num(0.0), Num(0.0), Num(0.0), Num(0.0), Num(0.0))
    ensures ReadsAs(r.roofArea, Field(data, "roofArea"), Field(data, "roofArea_m2"), rt)
    ensures ReadsAs(r.rainfall, Field(data, "annualRainfall"), Field(data, "annualRainfall_mm"), rt)
    ensures ReadsAs(r.roi, Field(Field(data, "economicAnalysis"), "roi"), Field(Field(data, "financials"), "roi_percent"), rt)
    ensures ReadsAs(r.score, Field(data, "score"), None, rt)
    ensures ReadsAs(r.resilience, Field(Field(data, "climateTrend"), "climateResilience"),
                    Field(Field(data, "climate"), "resilience"), rt)
  {
    FallbackInputs(
      NumberAt(Field(data, "roofArea"), Field(data, "roofArea_m2"), rt),
      NumberAt(Field(data, "annualRainfall"), Field(data, "annualRainfall_mm"), rt),
      NumberAt(Field(Field(data, "economicAnalysis"), "roi"), Field(Field(data, "financials"), "roi_percent"), rt),
      NumberAt(Field(data, "score"), None, rt),
      NumberAt(Field(Field(data, "climateTrend"), "climateResilience"), Field(Field(data, "climate"), "resilience"), rt))
  }

  /** Site data without any of the fields gives all-zero figures. */
  lemma EmptyDataGivesZeros(rt: Runtime)
    ensures ExtractInputs(None, rt) == FallbackInputs(Num(0.0), Num(0.0), Num(0.0), Num(0.0), Num(0.0))
    ensures ExtractInputs(Some(JObj(map[])), rt) == FallbackInputs(Num(0.0), Num(0.0), Num(0.0), Num(0.0), Num(0.0))
  {
  }

  const RechargePits := "Install recharge pits or soakaways to improve groundwater retention in low-rainfall zones."
  const FirstFlush := "Use a first-flush diverter and mesh filter to maintain good harvested water quality."
  const AddCatchment := "Add adjacent roofs or paved areas to increase total catchment area."
  const MultipleInlets := "Divide collection into multiple inlets to prevent overflow losses."
  const Subsidies := "Leverage local municipal or state subsidies to improve ROI and reduce payback period."
  const GreywaterReuse := "Consider integrating greywater reuse for even higher long-term savings."
  const DualTank := "Install modular storage or dual-tank systems to handle rainfall variability."
  const MonitorFlows := "Monitor tank inflow/outflow to fine-tune resilience and efficiency under changing rainfall patterns."
  const AnnualMaintenance := "Perform annual gutter and tank maintenance to sustain current performance levels."
  const RealignDownpipes := "Inspect and realign downpipes to reduce conveyance losses and improve efficiency."
  const IotSensors := "Add IoT-based water level sensors for smarter tank management and usage tracking."

  /** The rainfall item: recharge pits below 700 mm. */
  function RainfallItem(inp: FallbackInputs): string
  {
    if Lt(inp.rainfall, 700.0) then RechargePits else FirstFlush
  }

  /** The catchment item: present only for a roof under 100 m² or over 200 m². */
  function CatchmentItems(inp: FallbackInputs): seq<string>
  {
    if Lt(inp.roofArea, 100.0) then [AddCatchment]
    else if Gt(inp.roofArea, 200.0) then [MultipleInlets]
    else []
  }

  /** The financial item: subsidies below an ROI of 5%. */
  function FinancialItem(inp: FallbackInputs): string
  {
    if Lt(inp.roi, 5.0) then Subsidies else GreywaterReuse
  }

  /** The resilience item: dual tanks below a resilience of 70. */
  function ResilienceItem(inp: FallbackInputs): string
  {
    if Lt(inp.resilience, 70.0) then DualTank else MonitorFlows
  }

  /** The score item: maintenance from a score of 75. */
  function ScoreItem(inp: FallbackInputs): string
  {
    if Ge(inp.score, 75.0) then AnnualMaintenance else RealignDownpipes
  }

  /** The fallback list in its fixed order. */
  function FallbackList(inp: FallbackInputs): (r: seq<string>)
    ensures 5 <= |r| <= 6
    ensures r[|r| - 1] == IotSensors
  {
    [RainfallItem(inp)] + CatchmentItems(inp)
    + [FinancialItem(inp), ResilienceItem(inp), ScoreItem(inp), IotSensors]
  }

  /**
   * The list has six items when the roof is under 100 m² or over 200 m²,
   * five otherwise (a roof area that is not a number is neither); it opens
   * with the rainfall item and closes with the sensor item, and each branch
   * picks its text exactly under its condition.
   */
  lemma FallbackListShape(inp: FallbackInputs)
    ensures var recs := FallbackList(inp);
      && (|recs| == 6 <==> Lt(inp.roofArea, 100.0) || Gt(inp.roofArea, 200.0))
      && (|recs| == 5 <==> !Lt(inp.roofArea, 100.0) && !Gt(inp.roofArea, 200.0))
      && (inp.roofArea.Num? ==> (|recs| == 5 <==> 100.0 <= inp.roofArea.v <= 200.0))
      && (recs[0] == RechargePits <==> Lt(inp.rainfall, 700.0))
      && (recs[0] == FirstFlush <==> !Lt(inp.rainfall, 700.0))
      && (recs[|recs| - 4] == Subsidies <==> Lt(inp.roi, 5.0))
      && (recs[|recs| - 3] == DualTank <==> Lt(inp.resilience, 70.0))
      && (recs[|recs| - 2] == AnnualMaintenance <==> Ge(inp.score, 75.0))
      && recs[|recs| - 1] == IotSensors
      && (recs[1] == AddCatchment <==> Lt(inp.roofArea, 100.0))
      && (recs[1] == MultipleInlets <==> Gt(inp.roofArea, 200.0))
      && (recs[|recs| - 4] == GreywaterReuse <==> !Lt(inp.roi, 5.0))
      && (recs[|recs| - 3] == MonitorFlows <==> !Lt(inp.resilience, 70.0))
      && (recs[|recs| - 2] == RealignDownpipes <==> !Ge(inp.score, 75.0))
  {
  }

  /** No recommendation appears twice in the fallback list. */
  lemma FallbackListDistinct(inp: FallbackInputs)
    ensures forall i, j :: 0 <= i < j < |FallbackList(inp)| ==> FallbackList(inp)[i] != FallbackList(inp)[j]
  {
  }

  /** `generateFallbackRecommendations`: pushes the items one by one. */
  method GenerateFallbackRecommendations(inp: FallbackInputs) returns (recs: seq<string>)
    ensures recs == FallbackList(inp)
    ensures 5 <= |recs| <= 6 && recs[|recs| - 1] == IotSensors
  {
    recs := [];
    // rainfall
    recs := recs + [if Lt(inp.rainfall, 700.0) then RechargePits else FirstFlush];
    assert recs == [RainfallItem(inp)];
    // catchment
    if Lt(inp.roofArea, 100.0) {
      recs := recs + [AddCatchment];
    } else if Gt(inp.roofArea, 200.0) {
      recs := recs + [MultipleInlets];
    }
    ghost var head := recs;
    assert head == [RainfallItem(inp)] + CatchmentItems(inp);
    // finances
    recs := recs + [if Lt(inp.roi, 5.0) then Subsidies else GreywaterReuse];
    assert recs == head + [FinancialItem(inp)];
    // climate resilience
    recs := recs + [if Lt(inp.resilience, 70.0) then DualTank else MonitorFlows];
    assert recs == head + [FinancialItem(inp), ResilienceItem(inp)];
    // general practice
    recs := recs + [if Ge(inp.score, 75.0) then AnnualMaintenance else RealignDownpipes];
    assert recs == head + [FinancialItem(inp), ResilienceItem(inp), ScoreItem(inp)];
    // monitoring
    recs := recs + [IotSensors];
    assert recs == head + [FinancialItem(inp), ResilienceItem(inp), ScoreItem(inp), IotSensors];
  }

  // ---------------------------------------------------------------- the model's reply

  predicate IsBullet(c: char)
  {
    c == '-' || c == '*' || c == '•'
  }

  // `r.replace(/^[-*•]\s*/, "")`: one leading bullet and the blanks after it.
  function StripBullet(r: string): (s: string)
    ensures |s| <= |r| && s == r[|r| - |s|..]
    ensures r == [] || !IsBullet(r[0]) ==> s == r
    ensures r != [] && IsBullet(r[0]) ==>
      && |s| < |r| && (s == [] || !IsWhitespace(s[0]))
      && forall i :: 1 <= i < |r| - |s| ==> IsWhitespace(r[i])
  {
    if r != [] && IsBullet(r[0]) then TrimStart(r[1..]) else r
  }

  /** One line of the reply, its bullet and surrounding blanks removed. */
  function CleanLine(r: string): (c: string)
    ensures Trimmed(c)
    ensures forall ch :: ch in c ==> ch in r
    ensures r == [] || !IsBullet(r[0]) ==> c == Trim(r)
    ensures r != [] && IsBullet(r[0]) ==> c == Trim(r[1..])
  {
    StrippedLineTrim(r);
    StrippedLineChars(r);
    Trim(StripBullet(r))
  }

  /** Removing the bullet and trimming is trimming what follows the bullet. */
  lemma StrippedLineTrim(r: string)
    ensures r == [] || !IsBullet(r[0]) ==> Trim(StripBullet(r)) == Trim(r)
    ensures r != [] && IsBullet(r[0]) ==> Trim(StripBullet(r)) == Trim(r[1..])
  {
    if r != [] && IsBullet(r[0]) {
      TrimAfterTrimStart(r[1..]);
    }
  }

  /** The cleaned line holds only characters of the line. */
  lemma StrippedLineChars(r: string)
    ensures forall c :: c in Trim(StripBullet(r)) ==> c in r
  {
    var s := StripBullet(r);
    assert forall c :: c in s ==> c in r by {
      forall c | c in s ensures c in r {
        var i :| 0 <= i < |s| && s[i] == c;
        assert s[i] == r[|r| - |s| + i];
      }
    }
    TrimKeepsChars(s);
  }

  /** Dropping leading blanks before trimming changes nothing. */
  lemma TrimAfterTrimStart(s: string)
    ensures Trim(TrimStart(s)) == Trim(s)
  {
    var a := TrimStart(s);
    if a != [] {
      assert TrimStart(a) == a;
    }
  }

  /** Exactly one bullet is removed: what follows it is only trimmed, even if it is another bullet. */
  lemma OneBulletRemoved(b: char, s: string)
    requires IsBullet(b)
    ensures CleanLine([b] + s) == Trim(s)
  {
    var line := [b] + s;
    assert line[0] == b && line[1..] == s;
  }

  /** `lines.map(clean)` */
  function CleanEach(lines: seq<string>): (r: seq<string>)
    ensures |r| == |lines|
    ensures forall i :: 0 <= i < |lines| ==> r[i] == CleanLine(lines[i])
  {
    seq(|lines|, i requires 0 <= i < |lines| => CleanLine(lines[i]))
  }

  /** `filter(Boolean)` on strings: the non-empty ones, in their order. */
  function NonEmpty(s: seq<string>): (r: seq<string>)
    ensures |r| <= |s|
    ensures forall i :: 0 <= i < |r| ==> r[i] != [] && r[i] in s
    ensures forall x :: x in s && x != [] ==> x in r
    ensures (forall i :: 0 <= i < |s| ==> s[i] == []) ==> r == []
  {
    if s == [] then []
    else if s[0] == [] then NonEmpty(s[1..])
    else [s[0]] + NonEmpty(s[1..])
  }

  /** Filtering keeps every non-empty string as often as it occurs and drops every empty one. */
  lemma {:induction false} NonEmptyCounts(s: seq<string>)
    ensures multiset(NonEmpty(s)) == multiset(s)[[] := 0]
  {
    if s != [] {
      NonEmptyCounts(s[1..]);
      assert s == [s[0]] + s[1..];
      assert multiset(s) == multiset{s[0]} + multiset(s[1..]);
    }
  }

  /** Filtering keeps the order: the filtered concatenation is the concatenation of the filtered parts. */
  lemma {:induction false} NonEmptyAppend(a: seq<string>, b: seq<string>)
    ensures NonEmpty(a + b) == NonEmpty(a) + NonEmpty(b)
  {
    if a == [] {
      assert a + b == b;
    } else {
      assert (a + b)[0] == a[0];
      assert (a + b)[1..] == a[1..] + b;
      NonEmptyAppend(a[1..], b);
    }
  }

  /** The reply text split into lines and cleaned: no line is empty, holds a line break, or starts or ends with a blank. */
  function CleanLines(text: string): (r: seq<string>)
    ensures forall i :: 0 <= i < |r| ==> WellFormedLine(r[i])
  {
    var cleaned := CleanEach(SplitLines(text));
    CleanEachWellFormed(SplitLines(text));
    NonEmptyWellFormed(cleaned);
    NonEmpty(cleaned)
  }

  /** A line of the cleaned reply: not empty, no line break, no blank at either end. */
  predicate WellFormedLine(line: string)
  {
    line != [] && '\n' !in line && Trimmed(line)
  }

  /** Cleaning a piece of the split reply gives nothing or a well-formed line. */
  lemma CleanPieceWellFormed(piece: string)
    requires '\n' !in piece
    ensures CleanLine(piece) == [] || WellFormedLine(CleanLine(piece))
  {
  }

  /** Keeping the non-empty strings of a list of blanks and well-formed lines keeps only well-formed lines. */
  lemma NonEmptyWellFormed(s: seq<string>)
    requires forall i :: 0 <= i < |s| ==> s[i] == [] || WellFormedLine(s[i])
    ensures forall i :: 0 <= i < |NonEmpty(s)| ==> WellFormedLine(NonEmpty(s)[i])
  {
    var r := NonEmpty(s);
    forall i | 0 <= i < |r| ensures WellFormedLine(r[i]) {
      var k :| 0 <= k < |s| && s[k] == r[i];
    }
  }

  /** Cleaning pieces without line breaks gives blanks and well-formed lines only. */
  lemma CleanEachWellFormed(lines: seq<string>)
    requires forall i :: 0 <= i < |lines| ==> '\n' !in lines[i]
    ensures forall i :: 0 <= i < |lines| ==> CleanEach(lines)[i] == [] || WellFormedLine(CleanEach(lines)[i])
  {
    forall i | 0 <= i < |lines| ensures CleanEach(lines)[i] == [] || WellFormedLine(CleanEach(lines)[i]) {
      CleanPieceWellFormed(lines[i]);
    }
  }

  /** Cleaning each line and dropping the empty results keeps every line that is not blank once cleaned. */
  lemma CleanEachKeepsContent(lines: seq<string>)
    ensures forall k :: 0 <= k < |lines| && CleanLine(lines[k]) != [] ==> CleanLine(lines[k]) in NonEmpty(CleanEach(lines))
  {
    var cleaned := CleanEach(lines);
    forall k | 0 <= k < |lines| && CleanLine(lines[k]) != [] ensures CleanLine(lines[k]) in NonEmpty(cleaned) {
      assert cleaned[k] in cleaned;
    }
  }

  /** Every line of the reply that is not blank once cleaned is kept. */
  lemma CleanLinesKeepsContent(text: string)
    ensures forall line :: line in SplitLines(text) && CleanLine(line) != [] ==> CleanLine(line) in CleanLines(text)
  {
    var lines := SplitLines(text);
    CleanEachKeepsContent(lines);
    forall line | line in lines && CleanLine(line) != [] ensures CleanLine(line) in CleanLines(text) {
      var k :| 0 <= k < |lines| && lines[k] == line;
    }
  }

  /** The cleaned reply is empty exactly when every one of its lines is blank or a lone bullet. */
  lemma NoLinesIffAllBlank(text: string)
    ensures CleanLines(text) == [] <==> forall line :: line in SplitLines(text) ==> CleanLine(line) == []
  {
    CleanLinesKeepsContent(text);
    var lines := SplitLines(text);
    var cleaned := CleanEach(lines);
    if forall line :: line in lines ==> CleanLine(line) == [] {
      forall i | 0 <= i < |cleaned| ensures cleaned[i] == [] {
        assert lines[i] in lines;
      }
    }
  }

  /** `result?.candidates?.[0]?.content?.parts?.[0]?.text ?? ""` */
  function ReplyText(result: Option<Json>): (r: Json)
    ensures !r.JNull?
    ensures result.None? ==> r == JStr("")
  {
    var candidate := First(Field(result, "candidates"));
    var part := First(Field(Field(candidate, "content"), "parts"));
    Coalesce(Field(part, "text"), JStr(""))
  }

  /** The text of the first part of the first candidate is the reply text, whatever it is. */
  lemma ReplyTextOfResponse(text: Json)
    requires !text.JNull?
    ensures var part := JObj(map["text" := text]);
      var content := JObj(map["parts" := JArr([part])]);
      ReplyText(Some(JObj(map["candidates" := JArr([JObj(map["content" := content])])]))) == text
  {
  }

  /** A response without candidates, or whose first part has no text, gives the empty string. */
  lemma ReplyTextMissing(result: Json)
    requires result.JObj? && "candidates" !in result.fields
    ensures ReplyText(Some(result)) == JStr("")
  {
  }

  /**
   * `generateRecommendationsWithGemini(data)` given the parsed response
   * body (`None` when the request failed): the cleaned reply lines, or the
   * fallback list when there are none or the reply text is not a string
   * (splitting it throws).
   */
  method GenerateRecommendations(data: Option<Json>, result: Option<Json>, rt: Runtime) returns (recs: seq<string>)
    ensures recs != []
    ensures result.Some? && ReplyText(result).JStr? && CleanLines(ReplyText(result).s) != []
            ==> recs == CleanLines(ReplyText(result).s)
    ensures !(result.Some? && ReplyText(result).JStr? && CleanLines(ReplyText(result).s) != [])
            ==> recs == FallbackList(ExtractInputs(data, rt))
  {
    var inp := ExtractInputs(data, rt);
    var text := ReplyText(result);
    var lines := [];
    if result.Some? && text.JStr? {
      lines := CleanLines(text.s);
    }
    if |lines| == 0 {
      recs := GenerateFallbackRecommendations(inp);
    } else {
      recs := lines;
    }
  }
}
