/**
 * The planning module's reader of the language model's reply: it strips
 * Markdown fences and escaped line breaks, parses the JSON (retrying on the
 * text between the first `{` and the last `}`), and normalises the result
 * to a plan in which every expected key is present, filling in defaults.
 *
 * `JSON.parse` is the runtime's `parseJson`, `None` where it throws.
 */
module PlanParser {
  import opened JsValues
  import opened JsStrings

  datatype Tank = Tank(recommendedSizeL: Json, kind: Json, alternatives: Json, justification: Json)
  datatype Filtration = Filtration(firstFlush: Json, filters: Json, notes: Json)
  datatype Cost = Cost(estimatedINR: Json, installationINR: Json, subsidyINR: Json, netCostINR: Json)
  datatype Maintenance = Maintenance(tasks: Json, frequency: Json)
  datatype Meta = Meta(confidence: Json, notes: Json)

  /**
   * A normalised plan. The scalar leaves keep whatever non-null value the
   * reply had (`??` keeps 0, "" and false), so they stay JSON values; the
   * three lists are always arrays.
   */
  datatype Plan = Plan(
    tank: Tank, filtration: Filtration, cost: Cost,
    subsidies: seq<Json>, vendors: seq<Json>, timeline: seq<Json>,
    maintenance: Maintenance, meta: Meta)

  /** No scalar leaf of the plan is null: every key has a value. */
  predicate Complete(p: Plan)
  {
    && !p.tank.recommendedSizeL.JNull? && !p.tank.kind.JNull?
    && !p.tank.alternatives.JNull? && !p.tank.justification.JNull?
    && !p.filtration.firstFlush.JNull? && !p.filtration.filters.JNull? && !p.filtration.notes.JNull?
    && !p.cost.estimatedINR.JNull? && !p.cost.installationINR.JNull?
    && !p.cost.subsidyINR.JNull? && !p.cost.netCostINR.JNull?
    && !p.maintenance.tasks.JNull? && !p.maintenance.frequency.JNull?
    && !p.meta.confidence.JNull? && !p.meta.notes.JNull?
  }

  const SectionKeys: set<string> := {"tank", "filtration", "cost", "maintenance", "meta"}
  const ListKeys: set<string> := {"subsidies", "vendors", "timeline"}

  function TankJson(t: Tank): Json
  {
    JObj(map["recommendedSizeL" := t.recommendedSizeL, "type" := t.kind,
             "alternatives" := t.alternatives, "justification" := t.justification])
  }

  function FiltrationJson(f: Filtration): Json
  {
    JObj(map["firstFlush" := f.firstFlush, "filters" := f.filters, "notes" := f.notes])
  }

  function CostJson(c: Cost): Json
  {
    JObj(map["estimatedINR" := c.estimatedINR, "installationINR" := c.installationINR,
             "subsidyINR" := c.subsidyINR, "netCostINR" := c.netCostINR])
  }

  function MaintenanceJson(m: Maintenance): Json
  {
    JObj(map["tasks" := m.tasks, "frequency" := m.frequency])
  }

  function MetaJson(m: Meta): Json
  {
    JObj(map["confidence" := m.confidence, "notes" := m.notes])
  }

  /** The plan as the JavaScript object the parser returns: five sections that are objects, three arrays. */
  function AsJson(p: Plan): (j: Json)
    ensures j.JObj? && j.fields.Keys == SectionKeys + ListKeys
    ensures forall key :: key in SectionKeys ==> j.fields[key].JObj?
    ensures forall key :: key in ListKeys ==> j.fields[key].JArr?
  {
    JObj(map[
      "tank" := TankJson(p.tank),
      "filtration" := FiltrationJson(p.filtration),
      "cost" := CostJson(p.cost),
      "subsidies" := JArr(p.subsidies),
      "vendors" := JArr(p.vendors),
      "timeline" := JArr(p.timeline),
      "maintenance" := MaintenanceJson(p.maintenance),
      "meta" := MetaJson(p.meta)])
  }

  /** `data?.section?.key ?? default` */
  function Leaf(data: Json, section: string, key: string, default: Json): (v: Json)
    requires !default.JNull?
    ensures !v.JNull?
    ensures var given := Field(Field(Some(data), section), key);
      && (given.Some? && !given.value.JNull? ==> v == given.value)
      && (given.None? || given.value.JNull? ==> v == default)
  {
    Coalesce(Field(Field(Some(data), section), key), default)
  }

  /** `Array.isArray(data?.key) ? data.key : []` */
  function List(data: Json, key: string): (items: seq<Json>)
    ensures data.JObj? && key in data.fields && data.fields[key].JArr? ==> items == data.fields[key].items
    ensures !(data.JObj? && key in data.fields && data.fields[key].JArr?) ==> items == []
  {
    var v := Field(Some(data), key);
    if v.Some? && v.value.JArr? then v.value.items else []
  }

  /** The tank section: no leaf is null, and a missing section gives every default. */
  function NormalizeTank(data: Json): (t: Tank)
    ensures !t.recommendedSizeL.JNull? && !t.kind.JNull? && !t.alternatives.JNull? && !t.justification.JNull?
    ensures !(data.JObj? && "tank" in data.fields) ==>
      t == Tank(JNum(0.0), JStr("Not specified"), JArr([]), JStr("No justification provided."))
  {
    Tank(Leaf(data, "tank", "recommendedSizeL", JNum(0.0)),
         Leaf(data, "tank", "type", JStr("Not specified")),
         Leaf(data, "tank", "alternatives", JArr([])),
         Leaf(data, "tank", "justification", JStr("No justification provided.")))
  }

  /** The filtration section: no leaf is null, and a missing section gives every default. */
  function NormalizeFiltration(data: Json): (f: Filtration)
    ensures !f.firstFlush.JNull? && !f.filters.JNull? && !f.notes.JNull?
    ensures !(data.JObj? && "filtration" in data.fields) ==> f == Filtration(JStr("Not provided"), JArr([]), JStr(""))
  {
    Filtration(Leaf(data, "filtration", "firstFlush", JStr("Not provided")),
               Leaf(data, "filtration", "filters", JArr([])),
               Leaf(data, "filtration", "notes", JStr("")))
  }

  /** The cost section: no leaf is null, and a missing section costs 0 throughout. */
  function NormalizeCost(data: Json): (c: Cost)
    ensures !c.estimatedINR.JNull? && !c.installationINR.JNull? && !c.subsidyINR.JNull? && !c.netCostINR.JNull?
    ensures !(data.JObj? && "cost" in data.fields) ==> c == Cost(JNum(0.0), JNum(0.0), JNum(0.0), JNum(0.0))
  {
    Cost(Leaf(data, "cost", "estimatedINR", JNum(0.0)),
         Leaf(data, "cost", "installationINR", JNum(0.0)),
         Leaf(data, "cost", "subsidyINR", JNum(0.0)),
         Leaf(data, "cost", "netCostINR", JNum(0.0)))
  }

  /** The maintenance section: no leaf is null, and a missing section gives every default. */
  function NormalizeMaintenance(data: Json): (m: Maintenance)
    ensures !m.tasks.JNull? && !m.frequency.JNull?
    ensures !(data.JObj? && "maintenance" in data.fields) ==> m == Maintenance(JArr([]), JStr("Not specified"))
  {
    Maintenance(Leaf(data, "maintenance", "tasks", JArr([])),
                Leaf(data, "maintenance", "frequency", JStr("Not specified")))
  }

  /** The meta section: no leaf is null, and a missing section gives every default. */
  function NormalizeMeta(data: Json): (m: Meta)
    ensures !m.confidence.JNull? && !m.notes.JNull?
    ensures !(data.JObj? && "meta" in data.fields) ==> m == Meta(JNum(0.0), JStr("No notes available."))
  {
    Meta(Leaf(data, "meta", "confidence", JNum(0.0)),
         Leaf(data, "meta", "notes", JStr("No notes available.")))
  }

  /** `normalize(data)`: every key present, each missing or null leaf replaced by its default. */
  function Normalize(data: Json): (p: Plan)
    ensures Complete(p)
    ensures p.subsidies == List(data, "subsidies") && p.vendors == List(data, "vendors")
    ensures p.timeline == List(data, "timeline")
  {
    Plan(NormalizeTank(data), NormalizeFiltration(data), NormalizeCost(data),
         List(data, "subsidies"), List(data, "vendors"), List(data, "timeline"),
         NormalizeMaintenance(data), NormalizeMeta(data))
  }

  /** `emptyPlan()` */
  function EmptyPlan(): (p: Plan)
    ensures Complete(p)
    ensures p.subsidies == [] && p.vendors == [] && p.timeline == []
  {
    Plan(
      Tank(JNum(0.0), JStr("Unknown"), JArr([]), JStr("No data available.")),
      Filtration(JStr(""), JArr([]), JStr("")),
      Cost(JNum(0.0), JNum(0.0), JNum(0.0), JNum(0.0)),
      [], [], [],
      Maintenance(JArr([]), JStr("Not specified")),
      Meta(JNum(0.0), JStr("Plan could not be generated.")))
  }

  lemma TankRoundTrip(p: Plan)
    requires Complete(p)
    ensures NormalizeTank(AsJson(p)) == p.tank
  {
    assert Field(Some(AsJson(p)), "tank") == Some(TankJson(p.tank));
  }

  lemma FiltrationRoundTrip(p: Plan)
    requires Complete(p)
    ensures NormalizeFiltration(AsJson(p)) == p.filtration
  {
    assert Field(Some(AsJson(p)), "filtration") == Some(FiltrationJson(p.filtration));
  }

  lemma CostRoundTrip(p: Plan)
    requires Complete(p)
    ensures NormalizeCost(AsJson(p)) == p.cost
  {
    assert Field(Some(AsJson(p)), "cost") == Some(CostJson(p.cost));
  }

  lemma MaintenanceRoundTrip(p: Plan)
    requires Complete(p)
    ensures NormalizeMaintenance(AsJson(p)) == p.maintenance
  {
    assert Field(Some(AsJson(p)), "maintenance") == Some(MaintenanceJson(p.maintenance));
  }

  lemma MetaRoundTrip(p: Plan)
    requires Complete(p)
    ensures NormalizeMeta(AsJson(p)) == p.meta
  {
    assert Field(Some(AsJson(p)), "meta") == Some(MetaJson(p.meta));
  }

  lemma ListsRoundTrip(p: Plan)
    ensures List(AsJson(p), "subsidies") == p.subsidies
    ensures List(AsJson(p), "vendors") == p.vendors
    ensures List(AsJson(p), "timeline") == p.timeline
  {
    var j := AsJson(p);
    assert Field(Some(j), "subsidies") == Some(JArr(p.subsidies));
    assert Field(Some(j), "vendors") == Some(JArr(p.vendors));
    assert Field(Some(j), "timeline") == Some(JArr(p.timeline));
  }

  /** A complete plan survives a trip through its JavaScript form and `normalize` unchanged. */
  lemma NormalizeAsJson(p: Plan)
    requires Complete(p)
    ensures Normalize(AsJson(p)) == p
  {
    TankRoundTrip(p);
    FiltrationRoundTrip(p);
    CostRoundTrip(p);
    MaintenanceRoundTrip(p);
    MetaRoundTrip(p);
    ListsRoundTrip(p);
  }

  /** Normalising a normalised plan changes nothing. */
  lemma NormalizeIdempotent(data: Json)
    ensures Normalize(AsJson(Normalize(data))) == Normalize(data)
  {
    NormalizeAsJson(Normalize(data));
  }

  /** The empty plan is a fixed point of `normalize`. */
  lemma NormalizeEmptyPlan()
    ensures Normalize(AsJson(EmptyPlan())) == EmptyPlan()
  {
    NormalizeAsJson(EmptyPlan());
  }

  /**
   * Normalising nothing is not the empty plan: the defaults of `normalize`
   * ("Not specified", "No notes available.") differ from the empty plan's
   * ("Unknown", "Plan could not be generated.").
   */
  lemma NormalizeNullIsNotEmptyPlan()
    ensures Normalize(JNull).tank.kind == JStr("Not specified") != EmptyPlan().tank.kind
    ensures Normalize(JNull).meta.notes == JStr("No notes available.") != EmptyPlan().meta.notes
  {
  }

  /**
   * The cleaning step: drop every "```json" (any case) and every "```",
   * turn each escaped line break (a backslash and an n) into a real one,
   * trim. No fence and no escaped line break is left, every character
   * comes from the reply (or is a line break that replaced an escaped one).
   * A reply without backticks, or one wrapped in a "```json" fence, keeps
   * its text (inside the fence) with the escapes replaced, then trimmed.
   */
  function CleanPlanText(raw: string): (r: string)
    ensures NoFence(r) && NoEscapedNewline(r)
    ensures Trimmed(r)
    ensures forall c :: c in r ==> c in raw || c == '\n'
    ensures '`' !in raw && '\\' !in raw ==> r == Trim(raw)
    ensures FencedJson(raw) && '\\' !in raw ==> r == Trim(raw[7..|raw| - 3])
    ensures '`' !in raw ==> r == Trim(ReplaceAll(raw, "\\n", "\n", false))
    ensures FencedJson(raw) ==> r == Trim(ReplaceAll(raw[7..|raw| - 3], "\\n", "\n", false))
  {
    var noJsonFence := ReplaceAll(raw, "```json", "", true);
    var noFence := ReplaceAll(noJsonFence, Fence, "", false);
    RemoveFencesLeavesNone(noJsonFence);
    var unescaped := ReplaceAll(noFence, "\\n", "\n", false);
    ReplaceKeepsNoFence(noFence, "\\n", "\n");
    UnescapeLeavesNone(noFence);
    TrimKeepsNoFence(unescaped);
    TrimKeepsNoEscapedNewline(unescaped);
    TrimKeepsChars(unescaped);
    if '`' !in raw then
      NoTicksNoFences(raw);
      if '\\' !in raw then
        PlainTextUntouched(raw);
        Trim(unescaped)
      else
        Trim(unescaped)
    else if FencedJson(raw) then
      FencedJsonUnwraps(raw);
      if '\\' !in raw then
        FencedPlanCleans(raw);
        Trim(unescaped)
      else
        Trim(unescaped)
    else
      Trim(unescaped)
  }

  /** An escaped line break inside a fenced plan becomes a real one. */
  lemma FencedEscapeUnescaped(a: string, b: string)
    requires '`' !in a && '`' !in b && '\\' !in a
    ensures CleanPlanText("```json" + (a + "\\n" + b) + "```") == Trim(a + "\n" + ReplaceAll(b, "\\n", "\n", false))
  {
    var body := a + "\\n" + b;
    FencedAround(body);
    assert ReplaceAll(body, "\\n", "\n", false) == a + "\n" + ReplaceAll(b, "\\n", "\n", false) by {
      UnescapeFirst(a, b);
    }
  }

  /** The replacements turn a reply wrapped in a "```json" fence into its body. */
  lemma FencedPlanCleans(raw: string)
    requires FencedJson(raw) && '\\' !in raw
    ensures ReplaceAll(ReplaceAll(ReplaceAll(raw, "```json", "", true), Fence, "", false), "\\n", "\n", false)
            == raw[7..|raw| - 3]
  {
    var body := raw[7..|raw| - 3];
    assert raw == "```json" + body + "```" by {
      assert raw == raw[..7] + raw[7..|raw| - 3] + raw[|raw| - 3..];
    }
    assert '\\' !in body by {
      forall k | 0 <= k < |body| ensures body[k] != '\\' { assert raw[7 + k] == body[k]; }
    }
    UnwrapFence(body);
    assert ReplaceAll(body, "\\n", "\n", false) == body;
  }

  /** A reply without backticks or backslashes goes through the replacements unchanged. */
  lemma PlainTextUntouched(raw: string)
    requires '`' !in raw && '\\' !in raw
    ensures ReplaceAll(ReplaceAll(ReplaceAll(raw, "```json", "", true), Fence, "", false), "\\n", "\n", false) == raw
  {
    assert forall c :: c in raw ==> Fold(c, true) != Fold('`', true);
    assert ReplaceAll(raw, "```json", "", true) == raw;
    assert ReplaceAll(raw, Fence, "", false) == raw;
  }

  /** Trimming takes a piece of the text, so it adds no fence. */
  lemma {:induction false} TrimKeepsNoFence(s: string)
    requires NoFence(s)
    ensures NoFence(Trim(s))
  {
    var t := TrimStart(s);
    assert NoFence(t) by {
      NoFencePiece(s, |s| - |t|, t);
    }
    NoFencePiece(t, 0, TrimEnd(t));
  }

  /** Trimming takes a piece of the text, so it adds no escaped line break. */
  lemma {:induction false} TrimKeepsNoEscapedNewline(s: string)
    requires NoEscapedNewline(s)
    ensures NoEscapedNewline(Trim(s))
  {
    var t := TrimStart(s);
    assert NoEscapedNewline(t) by {
      NoEscapedNewlinePiece(s, |s| - |t|, t);
    }
    NoEscapedNewlinePiece(t, 0, TrimEnd(t));
  }

  /**
   * The retry text: from the first `{` to the last `}` of the uncleaned
   * reply, both included; `None` when either brace is missing. When the
   * last `}` comes before the first `{` the slice is empty.
   */
  function BraceSlice(raw: string): (r: Option<string>)
    ensures r.None? <==> '{' !in raw || '}' !in raw
    ensures r.Some? ==> (r.value == [] <==> LastIndexOf(raw, '}') < IndexOf(raw, '{'))
    ensures r.Some? && r.value != [] ==> r.value[0] == '{' && r.value[|r.value| - 1] == '}'
    ensures r.Some? && r.value != [] ==>
      exists i :: 0 <= i <= |raw| - |r.value| && r.value == raw[i..i + |r.value|]
        && '{' !in raw[..i] && '}' !in raw[i + |r.value|..]
  {
    var start := IndexOf(raw, '{');
    var end := LastIndexOf(raw, '}');
    if start != -1 && end != -1 then
      var slice := Slice(raw, start, end + 1);
      assert slice != [] ==> slice == raw[start..end + 1];
      Some(slice)
    else None
  }

  /**
   * `ModelPlanParser.parse(raw)`: the empty plan for a missing, empty or
   * non-string reply; otherwise the normalised parse of the cleaned text,
   * else of the brace slice, else the empty plan.
   */
  function Parse(raw: Option<Json>, rt: Runtime): (p: Plan)
    ensures Complete(p)
    ensures Normalize(AsJson(p)) == p
    ensures !(raw.Some? && raw.value.JStr? && raw.value.s != "") ==> p == EmptyPlan()
    ensures raw.Some? && raw.value.JStr? && raw.value.s != "" && rt.parseJson(CleanPlanText(raw.value.s)).Some?
            ==> p == Normalize(rt.parseJson(CleanPlanText(raw.value.s)).value)
    ensures raw.Some? && raw.value.JStr? && raw.value.s != "" && rt.parseJson(CleanPlanText(raw.value.s)).None?
            ==> p == (var slice := BraceSlice(raw.value.s);
                      if slice.Some? && rt.parseJson(slice.value).Some? then Normalize(rt.parseJson(slice.value).value)
                      else EmptyPlan())
  {
    if !(raw.Some? && raw.value.JStr? && raw.value.s != "") then
      NormalizeEmptyPlan();
      EmptyPlan()
    else
      var text := raw.value.s;
      var parsed := rt.parseJson(CleanPlanText(text));
      if parsed.Some? then
        NormalizeIdempotent(parsed.value);
        Normalize(parsed.value)
      else
        var slice := BraceSlice(text);
        var retried := if slice.Some? then rt.parseJson(slice.value) else None;
        if retried.Some? then
          NormalizeIdempotent(retried.value);
          Normalize(retried.value)
        else
          NormalizeEmptyPlan();
          EmptyPlan()
  }
}
