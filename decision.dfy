/**
 * The decision summary of a feasibility report: a verdict and a one-line
 * message. The language model's reply is cleaned, parsed and checked for a
 * verdict and a message; without a reply, with an unparsable one or with
 * one that lacks either field, a local rule table decides instead.
 *
 * The model call itself is not part of this model: its reply text is a
 * parameter, `None` when there is no API key or the call fails.
 */
module Decision {
  import opened JsValues
  import opened JsStrings
  import Feasibility

  datatype Decision = Decision(verdict: string, message: string)

  const HighlyFeasible := "Highly Feasible"
  const ModeratelyFeasible := "Moderately Feasible"
  const LowFeasibility := "Low Feasibility"
  const FeasibilityUnknown := "Feasibility Unknown"
  const InsufficientData := "Insufficient data to determine system feasibility."

  /** The decision as the object `{ verdict, message }`. */
  function AsJson(d: Decision): (j: Json)
    ensures j.JObj? && j.fields.Keys == {"verdict", "message"}
    ensures j.fields["verdict"] == JStr(d.verdict) && j.fields["message"] == JStr(d.message)
  {
    JObj(map["verdict" := JStr(d.verdict), "message" := JStr(d.message)])
  }

  /** `report.a?.b ?? 0`: a missing figure counts as 0. */
  function Figure(report: Json, section: string, key: string): (j: Json)
    ensures var v := Field(Field(Some(report), section), key);
      && (v.Some? && !v.value.JNull? ==> j == v.value)
      && (v.None? || v.value.JNull? ==> j == JNum(0.0))
  {
    Coalesce(Field(Field(Some(report), section), key), JNum(0.0))
  }

  /** `report.score ?? report.summary?.score ?? 0` */
  function ScoreField(report: Json): (j: Json)
    ensures Field(Some(report), "score").Some? && !Field(Some(report), "score").value.JNull? ==>
      j == Field(Some(report), "score").value
  {
    Coalesce(CoalesceOpt(Field(Some(report), "score"), Field(Field(Some(report), "summary"), "score")), JNum(0.0))
  }

  /** The four figures the rule table reads, each through `Number(...)`. */
  datatype Figures = Figures(score: JsNumber, roi: JsNumber, reliability: JsNumber, coverage: JsNumber)

  /**
   * The figures of a report: its score (else the summary's score), the
   * financial ROI, the reliability and the coverage, each the present
   * non-null value through `Number(...)`, else 0. A report without a
   * section reads 0 for each figure of that section.
   */
  function ReadFigures(report: Json, rt: Runtime): (f: Figures)
    ensures !report.JObj? ==> f == Figures(Num(0.0), Num(0.0), Num(0.0), Num(0.0))
    ensures report.JObj? && "financials" !in report.fields ==> f.roi == Num(0.0)
    ensures report.JObj? && "reliability" !in report.fields ==> f.reliability == Num(0.0)
    ensures report.JObj? && "summary" !in report.fields ==> f.coverage == Num(0.0)
    ensures ReadsAs(f.score, Field(Some(report), "score"), Field(Field(Some(report), "summary"), "score"), rt)
    ensures ReadsAs(f.roi, Field(Field(Some(report), "financials"), "roi_percent"), None, rt)
    ensures ReadsAs(f.reliability, Field(Field(Some(report), "reliability"), "reliability_percent"), None, rt)
    ensures ReadsAs(f.coverage, Field(Field(Some(report), "summary"), "coverage_percent"), None, rt)
  {
    Figures(
      ToNumber(ScoreField(report), rt),
      ToNumber(Figure(report, "financials", "roi_percent"), rt),
      ToNumber(Figure(report, "reliability", "reliability_percent"), rt),
      ToNumber(Figure(report, "summary", "coverage_percent"), rt))
  }

  /**
   * The verdict of the rule table: a score of 75, or an ROI of 10% with a
   * reliability of 80%, is highly feasible; then a score of 50 is moderately
   * feasible; then any positive score is of low feasibility; otherwise (a
   * score of 0 or below, or not a number) the feasibility is unknown.
   */
  function Verdict(f: Figures): (v: string)
    ensures v in {HighlyFeasible, ModeratelyFeasible, LowFeasibility, FeasibilityUnknown}
    ensures v == HighlyFeasible <==> Ge(f.score, 75.0) || (Ge(f.roi, 10.0) && Ge(f.reliability, 80.0))
    ensures v == ModeratelyFeasible <==>
      !Ge(f.score, 75.0) && !(Ge(f.roi, 10.0) && Ge(f.reliability, 80.0)) && Ge(f.score, 50.0)
    ensures v == LowFeasibility <==>
      !(Ge(f.roi, 10.0) && Ge(f.reliability, 80.0)) && Gt(f.score, 0.0) && !Ge(f.score, 50.0)
    ensures v == FeasibilityUnknown <==>
      !(Ge(f.roi, 10.0) && Ge(f.reliability, 80.0)) && !Gt(f.score, 0.0)
  {
    if Ge(f.score, 75.0) || (Ge(f.roi, 10.0) && Ge(f.reliability, 80.0)) then HighlyFeasible
    else if Ge(f.score, 50.0) then ModeratelyFeasible
    else if Gt(f.score, 0.0) then LowFeasibility
    else FeasibilityUnknown
  }

  /** The message that goes with each verdict, the figures written in as JavaScript prints them. */
  function Message(f: Figures, rt: Runtime): (m: string)
    ensures m != []
    ensures Verdict(f) == FeasibilityUnknown <==> m == InsufficientData
  {
    var roi := rt.numberToString(f.roi);
    var reliability := rt.numberToString(f.reliability);
    var coverage := rt.numberToString(f.coverage);
    var v := Verdict(f);
    if v == HighlyFeasible then
      var text := "Excellent rainfall potential, ROI of " + roi + "% and strong reliability (" + reliability
        + "%). This site is well-suited for RWH with minimal optimization.";
      assert text[0] == 'E';
      text
    else if v == ModeratelyFeasible then
      var text := "Moderate performance \U{2014} " + coverage + "% coverage and ROI near " + roi
        + "%. Improving tank size or recharge rate could enhance results.";
      assert text[0] == 'M';
      text
    else if v == LowFeasibility then
      var text := "Low ROI (" + roi + "%) or insufficient rainfall detected. Consider smaller-scale recharge structures or roof optimization.";
      assert text[0] == 'L';
      text
    else InsufficientData
  }

  /** `fallbackDecision(report)`; reading a field of `null` throws, so the report is not null. */
  function FallbackDecision(report: Json, rt: Runtime): (d: Decision)
    requires !report.JNull?
    ensures d.verdict in {HighlyFeasible, ModeratelyFeasible, LowFeasibility, FeasibilityUnknown}
    ensures d.verdict != [] && d.message != []
    ensures d.verdict == Verdict(ReadFigures(report, rt))
    ensures d.verdict == FeasibilityUnknown <==> d.message == InsufficientData
  {
    var f := ReadFigures(report, rt);
    Decision(Verdict(f), Message(f, rt))
  }

  /** The verdicts in increasing order of feasibility. */
  function Rank(verdict: string): nat
  {
    if verdict == HighlyFeasible then 3
    else if verdict == ModeratelyFeasible then 2
    else if verdict == LowFeasibility then 1
    else 0
  }

  /** A higher score, with the other figures unchanged, never gives a weaker verdict. */
  lemma VerdictMonotoneInScore(f: Figures, s1: real, s2: real)
    requires s1 <= s2
    ensures Rank(Verdict(f.(score := Num(s1)))) <= Rank(Verdict(f.(score := Num(s2))))
  {
  }

  /** An absent score falls back to the summary's score, and with neither the score is 0. */
  lemma MissingScoreDefaults(report: Json, rt: Runtime)
    requires report.JObj? && "score" !in report.fields
    ensures ReadFigures(report, rt).score ==
      (if "summary" in report.fields && report.fields["summary"].JObj? && "score" in report.fields["summary"].fields
          && !report.fields["summary"].fields["score"].JNull?
       then ToNumber(report.fields["summary"].fields["score"], rt)
       else Num(0.0))
  {
  }

  /** A report whose own score is a number of at least 75 is highly feasible, whatever else it holds. */
  lemma HighScoreIsHighlyFeasible(report: Json, rt: Runtime)
    requires report.JObj? && "score" in report.fields && report.fields["score"].JNum?
    requires report.fields["score"].n >= 75.0
    ensures FallbackDecision(report, rt).verdict == HighlyFeasible
  {
  }

  /**
   * On a report produced by the feasibility engine (a numeric score from 0
   * to 100), the verdict follows the category: "Feasible" is highly
   * feasible, "Marginal" at least moderately feasible, and "Not Feasible"
   * never moderately feasible.
   */
  lemma VerdictFollowsCategory(score: int, roi: JsNumber, reliability: JsNumber, coverage: JsNumber)
    requires 0 <= score <= 100
    ensures var v := Verdict(Figures(Num(score as real), roi, reliability, coverage));
      && (Feasibility.Category(score) == "Feasible" ==> v == HighlyFeasible)
      && (Feasibility.Category(score) == "Marginal" ==> v in {HighlyFeasible, ModeratelyFeasible})
      && (Feasibility.Category(score) == "Not Feasible" ==> v in {HighlyFeasible, LowFeasibility, FeasibilityUnknown})
      && (Feasibility.Category(score) == "Not Feasible" && score > 0 ==> v != FeasibilityUnknown)
  {
  }

  // ---------------------------------------------------------------- the model's reply

  /**
   * The reply cleaner: trim, drop every "```json" (any case) and every
   * "```", drop control characters, trim again.
   */
  function CleanReply(raw: string): (r: string)
    ensures forall c :: c in r ==> !IsControl(c)
    ensures Trimmed(r)
    ensures forall c :: c in r ==> c in raw
    ensures '`' !in raw && (forall c :: c in raw ==> !IsControl(c)) ==> r == Trim(raw)
    ensures FencedJson(raw) && (forall c :: c in raw ==> !IsControl(c)) ==> r == Trim(raw[7..|raw| - 3])
    ensures '`' !in raw ==> r == Trim(RemoveControlChars(Trim(raw)))
    ensures FencedJson(Trim(raw)) ==> r == Trim(RemoveControlChars(Trim(raw)[7..|Trim(raw)| - 3]))
  {
    var trimmed := Trim(raw);
    TrimKeepsChars(raw);
    var noJsonFence := ReplaceAll(trimmed, "```json", "", true);
    var noFence := ReplaceAll(noJsonFence, Fence, "", false);
    var clean := RemoveControlChars(noFence);
    TrimKeepsChars(clean);
    ReplyCleaning(raw);
    Trim(clean)
  }

  /**
   * What the cleaning chain leaves before the final trim: a reply without
   * backticks loses only its control characters, and a trimmed reply
   * wrapped in a "```json" fence becomes its body without control
   * characters.
   */
  lemma ReplyCleaning(raw: string)
    ensures var t := Trim(raw);
      var clean := RemoveControlChars(ReplaceAll(ReplaceAll(t, "```json", "", true), Fence, "", false));
      && ('`' !in raw ==> clean == RemoveControlChars(t))
      && (FencedJson(t) ==> clean == RemoveControlChars(t[7..|t| - 3]))
      && ('`' !in raw && (forall c :: c in raw ==> !IsControl(c)) ==> Trim(clean) == t)
      && (FencedJson(raw) && (forall c :: c in raw ==> !IsControl(c)) ==> clean == raw[7..|raw| - 3])
  {
    var t := Trim(raw);
    if '`' !in raw {
      TrimKeepsChars(raw);
      NoTicksNoFences(t);
      if forall c :: c in raw ==> !IsControl(c) {
        CleanTextUntouched(raw);
      }
    }
    if FencedJson(t) {
      FencedJsonUnwraps(t);
    }
    if FencedJson(raw) && forall c :: c in raw ==> !IsControl(c) {
      FencedReplyCleans(raw);
    }
  }

  /** The line breaks of a fenced reply are dropped: its lines come back joined. */
  lemma FencedLinesJoin(a: string, b: string)
    requires '`' !in a && '`' !in b
    requires forall c :: c in a ==> !IsControl(c)
    ensures CleanReply("```json" + (a + "\n" + b) + "```") == Trim(a + RemoveControlChars(b))
  {
    var body := a + "\n" + b;
    var raw := "```json" + body + "```";
    assert CleanReply(raw) == Trim(RemoveControlChars(body)) by {
      FencedAround(body);
      assert Trim(raw) == raw;
    }
    assert RemoveControlChars(body) == a + RemoveControlChars(b) by {
      RemoveControlCharsBreak(a, b);
    }
  }

  /** A reply wrapped in a "```json" fence loses the fence and keeps its body. */
  lemma FencedReplyCleans(raw: string)
    requires FencedJson(raw) && forall c :: c in raw ==> !IsControl(c)
    ensures RemoveControlChars(ReplaceAll(ReplaceAll(Trim(raw), "```json", "", true), Fence, "", false))
            == raw[7..|raw| - 3]
  {
    var body := raw[7..|raw| - 3];
    assert raw == "```json" + body + "```" by {
      assert raw == raw[..7] + raw[7..|raw| - 3] + raw[|raw| - 3..];
    }
    assert Trimmed(raw);
    UnwrapFence(body);
    assert forall c :: c in body ==> !IsControl(c) by {
      forall c | c in body ensures !IsControl(c) {
        var k :| 0 <= k < |body| && body[k] == c;
        assert raw[7 + k] == c;
      }
    }
  }

  /** A reply without backticks or control characters is only trimmed. */
  lemma CleanTextUntouched(raw: string)
    requires '`' !in raw && forall c :: c in raw ==> !IsControl(c)
    ensures var t := Trim(raw);
      Trim(RemoveControlChars(ReplaceAll(ReplaceAll(t, "```json", "", true), Fence, "", false))) == t
  {
    var t := Trim(raw);
    TrimKeepsChars(raw);
    assert forall c :: c in t ==> Fold(c, true) != Fold('`', true);
    assert ReplaceAll(t, "```json", "", true) == t;
    assert ReplaceAll(t, Fence, "", false) == t;
    assert RemoveControlChars(t) == t;
    TrimIdempotent(raw);
  }

  /** `!parsed?.verdict || !parsed?.message`: the reply lacks one of the two fields. */
  predicate LacksFields(parsed: Json)
    ensures !LacksFields(parsed) ==> parsed.JObj? && "verdict" in parsed.fields && "message" in parsed.fields
    ensures !LacksFields(parsed) ==> parsed.fields["verdict"] != JNull && parsed.fields["message"] != JNull
  {
    !Truthy(Field(Some(parsed), "verdict")) || !Truthy(Field(Some(parsed), "message"))
  }

  /**
   * `generateDecisionWithGemini(report)` given the model's reply (`None`
   * when there is none): the parsed reply when it has a truthy verdict and
   * message, the fallback decision otherwise.
   */
  function GenerateDecision(report: Json, reply: Option<string>, rt: Runtime): (r: Json)
    requires !report.JNull?
    ensures Truthy(Field(Some(r), "verdict")) && Truthy(Field(Some(r), "message"))
    ensures reply.None? ==> r == AsJson(FallbackDecision(report, rt))
    ensures reply.Some? && rt.parseJson(CleanReply(reply.value)).Some?
            && !LacksFields(rt.parseJson(CleanReply(reply.value)).value)
            ==> r == rt.parseJson(CleanReply(reply.value)).value
    ensures r == AsJson(FallbackDecision(report, rt)) ||
            (reply.Some? && rt.parseJson(CleanReply(reply.value)) == Some(r))
  {
    var fallback := AsJson(FallbackDecision(report, rt));
    if reply.None? then fallback
    else
      var parsed := rt.parseJson(CleanReply(reply.value));
      var candidate := if parsed.Some? then parsed.value else fallback;
      if LacksFields(candidate) then fallback else candidate
  }
}
