/**
 * `is_json` and the validation part of `create_chart`: telling a chart answer
 * from a plain one, and checking a chart specification before it is plotted.
 * `json.loads`, `str()` of a non-string JSON value and the plotting itself are
 * oracles given as parameters.
 */
module ChartGenerator {
  import opened Wrappers
  import opened Text

  /** A value `json.loads` returns. */
  datatype Json =
    | JNull
    | JBool(b: bool)
    | JInt(i: int)
    | JFloat(f: real)
    | JStr(s: string)
    | JArray(items: seq<Json>)
    | JObject(fields: map<string, Json>)

  /** `json.loads(text)`: the decoded value, or None where it raises `JSONDecodeError`. */
  type Loads = string -> Option<Json>

  // ---------------------------------------------------------------------------
  // is_json: a leftmost, lazy, DOTALL search for a fenced json block
  // ---------------------------------------------------------------------------

  const FenceOpen: string := "```json"
  const FenceClose: string := "```"

  /**
   * The regular expression as a relation: the opening fence at `p`, optional
   * whitespace up to the `{` at `q`, anything (newlines included) up to the
   * `}` at `e`, optional whitespace up to the closing fence at `k`. Group 1 is
   * `s[q..e + 1]`.
   */
  ghost predicate PatternMatch(s: string, p: nat, q: nat, e: nat, k: nat) {
    && p + |FenceOpen| <= q < e < k && k + |FenceClose| <= |s|
    && s[p..p + |FenceOpen|] == FenceOpen && SpaceIn(s, p + |FenceOpen|, q) && s[q] == '{'
    && s[e] == '}' && SpaceIn(s, e + 1, k) && s[k..k + |FenceClose|] == FenceClose
  }

  /** What a greedy `\s*` starting at `i` consumes: up to the next non-space. */
  function SkipSpace(s: string, i: nat): (j: nat)
    requires i <= |s|
    ensures i <= j <= |s| && SpaceIn(s, i, j) && (j == |s| || !IsSpace(s[j]))
    decreases |s| - i
  {
    if i < |s| && IsSpace(s[i]) then SkipSpace(s, i + 1) else i
  }

  /** A run of whitespace that ends at a non-space is exactly what `SkipSpace` consumes. */
  lemma {:induction false} SkipSpaceAt(s: string, i: nat, j: nat)
    requires i <= j <= |s| && SpaceIn(s, i, j) && (j == |s| || !IsSpace(s[j]))
    ensures SkipSpace(s, i) == j
    decreases j - i
  {
    if i < j {
      assert IsSpace(s[i]);
      assert SpaceIn(s, i + 1, j) by {
        forall k | i + 1 <= k < j ensures IsSpace(s[k]) {
          assert IsSpace(s[k]);
        }
      }
      SkipSpaceAt(s, i + 1, j);
    }
  }

  /** The opening fence at `p`, followed by whitespace and a `{`. */
  predicate OpensAt(s: string, p: nat) {
    && p + |FenceOpen| <= |s|
    && s[p..p + |FenceOpen|] == FenceOpen
    && SkipSpace(s, p + |FenceOpen|) < |s|
    && s[SkipSpace(s, p + |FenceOpen|)] == '{'
  }

  /** A `}` at `e`, followed by whitespace and the closing fence. */
  predicate ClosesAt(s: string, e: nat) {
    && e < |s| && s[e] == '}'
    && SkipSpace(s, e + 1) + |FenceClose| <= |s|
    && s[SkipSpace(s, e + 1)..SkipSpace(s, e + 1) + |FenceClose|] == FenceClose
  }

  /** The lazy `.*?\}`: the first closing `}` at or after `from`. */
  function FirstClose(s: string, from: nat): (r: Option<nat>)
    ensures r.Some? ==> from <= r.value < |s| && ClosesAt(s, r.value)
    ensures r.Some? ==> forall e :: from <= e < r.value ==> !ClosesAt(s, e)
    ensures r.None? ==> forall e :: from <= e < |s| ==> !ClosesAt(s, e)
    decreases |s| - from
  {
    if from >= |s| then None
    else if ClosesAt(s, from) then Some(from)
    else FirstClose(s, from + 1)
  }

  /** The pattern can match starting at `p`. */
  predicate MatchesAt(s: string, p: nat) {
    OpensAt(s, p) && FirstClose(s, SkipSpace(s, p + |FenceOpen|) + 1).Some?
  }

  /** A match object: where it starts and where group 1 begins and ends. */
  datatype Fence = Fence(start: nat, open: nat, close: nat)

  /** `re.search` from `p` on: the first start position at which the pattern matches. */
  function SearchFrom(s: string, p: nat): (r: Option<Fence>)
    ensures r.Some? ==> p <= r.value.start && MatchesAt(s, r.value.start)
    ensures r.Some? ==> r.value.open == SkipSpace(s, r.value.start + |FenceOpen|)
    ensures r.Some? ==> FirstClose(s, r.value.open + 1) == Some(r.value.close)
    decreases |s| - p
  {
    if p + |FenceOpen| > |s| then None
    else if MatchesAt(s, p) then
      var q := SkipSpace(s, p + |FenceOpen|);
      Some(Fence(p, q, FirstClose(s, q + 1).value))
    else SearchFrom(s, p + 1)
  }

  function FencedSearch(s: string): Option<Fence> {
    SearchFrom(s, 0)
  }

  /** No start position before the one `SearchFrom` returns has a match. */
  lemma {:induction false} SearchFromIsFirst(s: string, p: nat, p': nat)
    requires p <= p'
    requires SearchFrom(s, p).None? || p' < SearchFrom(s, p).value.start
    ensures !MatchesAt(s, p')
    decreases p' - p
  {
    if p + |FenceOpen| <= |s| && !MatchesAt(s, p) && p < p' {
      SearchFromIsFirst(s, p + 1, p');
    }
  }

  /** Every way the pattern matches at `p` goes through `MatchesAt` at `p`. */
  lemma PatternMatchIsScanned(s: string, p: nat, q: nat, e: nat, k: nat)
    requires PatternMatch(s, p, q, e, k)
    ensures q == SkipSpace(s, p + |FenceOpen|) && OpensAt(s, p)
    ensures k == SkipSpace(s, e + 1) && ClosesAt(s, e)
    ensures MatchesAt(s, p) && FirstClose(s, q + 1).value <= e
  {
    SkipSpaceAt(s, p + |FenceOpen|, q);
    SkipSpaceAt(s, e + 1, k);
    assert OpensAt(s, p);
    assert ClosesAt(s, e);
    assert q + 1 <= e < |s|;
    var first := FirstClose(s, q + 1);
    assert first.Some?;
    assert first.value <= e;
  }

  /** The fence the search returns is a match of the pattern. */
  lemma FencedSearchMatches(s: string)
    requires FencedSearch(s).Some?
    ensures var m := FencedSearch(s).value;
      PatternMatch(s, m.start, m.open, m.close, SkipSpace(s, m.close + 1))
  {
    var m := FencedSearch(s).value;
    assert OpensAt(s, m.start);
    assert ClosesAt(s, m.close);
    assert s[m.open] == '{';
  }

  /** Every match of the pattern starts no earlier than the search's result, and one exists. */
  lemma FencedSearchFindsEveryMatch(s: string, p: nat, q: nat, e: nat, k: nat)
    requires PatternMatch(s, p, q, e, k)
    ensures FencedSearch(s).Some? && FencedSearch(s).value.start <= p
    ensures p == FencedSearch(s).value.start ==> q == FencedSearch(s).value.open && FencedSearch(s).value.close <= e
  {
    PatternMatchIsScanned(s, p, q, e, k);
    if FencedSearch(s).None? || p < FencedSearch(s).value.start {
      SearchFromIsFirst(s, 0, p);
    }
  }

  /**
   * `FencedSearch` is `re.search`: it finds the leftmost start at which the
   * pattern matches, and for that start the shortest group (the lazy `.*?`);
   * when it finds nothing, the pattern matches nowhere.
   */
  lemma FencedSearchIsLeftmostLazy(s: string)
    ensures FencedSearch(s).Some? ==>
      var m := FencedSearch(s).value;
      && PatternMatch(s, m.start, m.open, m.close, SkipSpace(s, m.close + 1))
      && forall p: nat, q: nat, e: nat, k: nat :: PatternMatch(s, p, q, e, k) ==>
           m.start <= p && (p == m.start ==> q == m.open && m.close <= e)
    ensures FencedSearch(s).None? ==> forall p: nat, q: nat, e: nat, k: nat :: !PatternMatch(s, p, q, e, k)
  {
    forall p: nat, q: nat, e: nat, k: nat | PatternMatch(s, p, q, e, k)
      ensures FencedSearch(s).Some? && FencedSearch(s).value.start <= p
      ensures p == FencedSearch(s).value.start ==> q == FencedSearch(s).value.open && FencedSearch(s).value.close <= e
    {
      FencedSearchFindsEveryMatch(s, p, q, e, k);
    }
    if FencedSearch(s).Some? {
      FencedSearchMatches(s);
    }
  }

  /** `is_json(text)`: (True, group 1) for a fenced block, else (True, text) if it parses. */
  function IsJson(text: string, loads: Loads): (r: (bool, Option<string>))
    ensures r.0 <==> r.1.Some?
    ensures r.0 <==> FencedSearch(text).Some? || loads(text).Some?
  {
    match FencedSearch(text)
    case Some(m) => (true, Some(text[m.open..m.close + 1]))
    case None =>
      if loads(text).Some? then (true, Some(text)) else (false, None)
  }

  /**
   * A fenced block wins over the whole-text parse and is returned without
   * being decoded: its text runs from a `{` to a `}`, and `json.loads` is not
   * consulted at all.
   */
  lemma FencedBlockWins(text: string, loads: Loads, others: Loads)
    requires FencedSearch(text).Some?
    ensures IsJson(text, loads) == IsJson(text, others)
    ensures IsJson(text, loads).0
    ensures var g := IsJson(text, loads).1.value; |g| >= 2 && g[0] == '{' && g[|g| - 1] == '}'
  {
    var m := FencedSearch(text).value;
    assert ClosesAt(text, m.close) && m.open + 1 <= m.close;
    assert text[m.open] == '{';
    var g := text[m.open..m.close + 1];
    assert g[0] == text[m.open] && g[|g| - 1] == text[m.close];
  }

  /** Without a fenced block, the whole text is accepted unchanged exactly when it decodes. */
  lemma UnfencedFallsBackToParse(text: string, loads: Loads)
    requires FencedSearch(text).None?
    ensures IsJson(text, loads) == if loads(text).Some? then (true, Some(text)) else (false, None)
  {
  }

  // ---------------------------------------------------------------------------
  // create_chart: the checks made before plotting
  // ---------------------------------------------------------------------------

  datatype ChartKind = Bar | Line | Pie

  /** What is handed to the plotting code. */
  datatype Figure = Figure(kind: ChartKind, title: Json, xLabel: Json, yLabel: Json, xData: Json, yData: Json)

  /** Drawing the figure: None when it succeeds, or the text of the exception it raised. */
  type Plot = Figure -> Option<string>

  /** Python truthiness of a decoded value. */
  predicate Truthy(j: Json) {
    match j
    case JNull => false
    case JBool(b) => b
    case JInt(i) => i != 0
    case JFloat(f) => f != 0.0
    case JStr(s) => s != ""
    case JArray(items) => items != []
    case JObject(fields) => fields != map[]
  }

  /** The name of a decoded value's Python type. */
  function TypeName(j: Json): string {
    match j
    case JNull => "NoneType"
    case JBool(_) => "bool"
    case JInt(_) => "int"
    case JFloat(_) => "float"
    case JStr(_) => "str"
    case JArray(_) => "list"
    case JObject(_) => "dict"
  }

  /** `str(v)`; for floats, lists and dicts Python's own rendering is the oracle `repr`. */
  function PyStr(j: Json, repr: Json -> string): string {
    match j
    case JNull => "None"
    case JBool(b) => if b then "True" else "False"
    case JInt(i) => if i < 0 then "-" + NatToString(-i) else NatToString(i)
    case JStr(s) => s
    case _ => repr(j)
  }

  /** Dictionary lookup falling back to `default` for a missing key. */
  function Get(d: map<string, Json>, key: string, default: Json): Json {
    if key in d then d[key] else default
  }

  const InvalidJsonMessage: string := "Error: Invalid JSON format received from the model."
  const IncompleteMessage: string := "Error: Incomplete chart data provided in JSON."

  function UnsupportedMessage(chartType: Json, repr: Json -> string): string {
    "Error: Unsupported chart type '" + PyStr(chartType, repr) + "'."
  }

  /** The message of the catch-all `except Exception as e`. */
  function CaughtMessage(e: string): string {
    "An error occurred while generating the chart: " + e
  }

  /** The `AttributeError` text for calling `.get` on a value that is not a dict. */
  function NoGetMessage(j: Json): string {
    "'" + TypeName(j) + "' object has no attribute 'get'"
  }

  /** The chart type the whitelist accepts, if any. */
  function KindOf(chartType: Json): Option<ChartKind> {
    if chartType == JStr("bar") then Some(Bar)
    else if chartType == JStr("line") then Some(Line)
    else if chartType == JStr("pie") then Some(Pie)
    else None
  }

  /** The specification fields as `create_chart` reads them, in the order it reads them. */
  datatype Reading =
    | NotADict(value: Json)
    | Read(chartType: Json, title: Json, xLabel: Json, yLabel: Json, xData: Json, yData: Json)

  function ReadSpec(chartData: Json): Reading {
    if !chartData.JObject? then NotADict(chartData)
    else
      var d := chartData.fields;
      var chartType := Get(d, "chart_type", JNull);
      var title := Get(d, "title", JStr("Chart"));
      var xAxis := Get(d, "x_axis", JObject(map[]));
      if !xAxis.JObject? then NotADict(xAxis)
      else
        var xLabel := Get(xAxis.fields, "label", JStr("X-Axis"));
        var yAxis := Get(d, "y_axis", JObject(map[]));
        if !yAxis.JObject? then NotADict(yAxis)
        else
          var yLabel := Get(yAxis.fields, "label", JStr("Y-Axis"));
          var xData := Get(xAxis.fields, "data", JArray([]));
          var yData := Get(yAxis.fields, "data", JArray([]));
          Read(chartType, title, xLabel, yLabel, xData, yData)
  }

  /**
   * The checks of `create_chart` on the decoded value, in source order: the
   * `.get` chain, then completeness, then the chart-type whitelist. Success
   * carries the figure to plot, failure the message returned.
   */
  function Validate(chartData: Json, repr: Json -> string): Result<Figure, string> {
    match ReadSpec(chartData)
    case NotADict(v) => Failure(CaughtMessage(NoGetMessage(v)))
    case Read(chartType, title, xLabel, yLabel, xData, yData) =>
      if !(Truthy(chartType) && Truthy(xData) && Truthy(yData)) then
        Failure(IncompleteMessage)
      else if KindOf(chartType).None? then
        Failure(UnsupportedMessage(chartType, repr))
      else
        Success(Figure(KindOf(chartType).value, title, xLabel, yLabel, xData, yData))
  }

  /** `create_chart(chart_data_str)`: (figure, None) or (None, message), never both, never neither. */
  function CreateChart(chartDataStr: string, loads: Loads, repr: Json -> string, plot: Plot)
    : (r: (Option<Figure>, Option<string>))
    ensures r.0.Some? != r.1.Some?
    ensures loads(chartDataStr).None? ==> r.1 == Some(InvalidJsonMessage)
    ensures r.0.Some? ==> loads(chartDataStr).Some? && Validate(loads(chartDataStr).value, repr) == Success(r.0.value)
    ensures loads(chartDataStr).Some? && Validate(loads(chartDataStr).value, repr).Failure? ==>
      r == (None, Some(Validate(loads(chartDataStr).value, repr).error))
    ensures (loads(chartDataStr).Some? && Validate(loads(chartDataStr).value, repr).Success?
             && plot(Validate(loads(chartDataStr).value, repr).value).Some?) ==>
      r == (None, Some(CaughtMessage(plot(Validate(loads(chartDataStr).value, repr).value).value)))
  {
    match loads(chartDataStr)
    case None => (None, Some(InvalidJsonMessage))
    case Some(chartData) =>
      match Validate(chartData, repr)
      case Failure(message) => (None, Some(message))
      case Success(figure) =>
        match plot(figure)
        case None => (Some(figure), None)
        case Some(e) => (None, Some(CaughtMessage(e)))
  }

  /**
   * A chart specification in the shape the answer prompt asks for: a dict,
   * its axes dicts when present, a chart type out of bar, line and pie, and
   * non-empty data on both axes.
   */
  ghost predicate WellFormedSpec(j: Json) {
    && j.JObject?
    && ("x_axis" in j.fields ==> j.fields["x_axis"].JObject?)
    && ("y_axis" in j.fields ==> j.fields["y_axis"].JObject?)
    && "chart_type" in j.fields && j.fields["chart_type"] in {JStr("bar"), JStr("line"), JStr("pie")}
    && "x_axis" in j.fields && "data" in j.fields["x_axis"].fields && Truthy(j.fields["x_axis"].fields["data"])
    && "y_axis" in j.fields && "data" in j.fields["y_axis"].fields && Truthy(j.fields["y_axis"].fields["data"])
  }

  /** The checks pass exactly on a well-formed specification. */
  lemma ValidateAcceptsExactlyWellFormed(j: Json, repr: Json -> string)
    ensures Validate(j, repr).Success? <==> WellFormedSpec(j)
  {
    if j.JObject? {
      var d := j.fields;
      var xAxis := Get(d, "x_axis", JObject(map[]));
      var yAxis := Get(d, "y_axis", JObject(map[]));
      if xAxis.JObject? && yAxis.JObject? {
        assert ReadSpec(j).xData == Get(xAxis.fields, "data", JArray([]));
        assert ReadSpec(j).yData == Get(yAxis.fields, "data", JArray([]));
      }
    }
  }

  /** A figure comes out exactly when the text decodes to a well-formed specification that plots. */
  lemma FigureExactlyForWellFormed(s: string, loads: Loads, repr: Json -> string, plot: Plot)
    ensures CreateChart(s, loads, repr, plot).0.Some? <==>
      && loads(s).Some? && WellFormedSpec(loads(s).value)
      && plot(Validate(loads(s).value, repr).value).None?
  {
    if loads(s).Some? {
      ValidateAcceptsExactlyWellFormed(loads(s).value, repr);
    }
  }

  /** Missing or empty chart type or data is reported as incomplete, whatever the chart type is. */
  lemma IncompleteComesFirst(j: Json, repr: Json -> string)
    requires ReadSpec(j).Read?
    requires !Truthy(ReadSpec(j).chartType) || !Truthy(ReadSpec(j).xData) || !Truthy(ReadSpec(j).yData)
    ensures Validate(j, repr) == Failure("Error: Incomplete chart data provided in JSON.")
  {
  }

  /** A complete specification with a type outside bar, line and pie is rejected by name. */
  lemma UnsupportedTypeNamed(j: Json, repr: Json -> string)
    requires ReadSpec(j).Read?
    requires Truthy(ReadSpec(j).chartType) && Truthy(ReadSpec(j).xData) && Truthy(ReadSpec(j).yData)
    requires ReadSpec(j).chartType !in {JStr("bar"), JStr("line"), JStr("pie")}
    ensures Validate(j, repr) ==
      Failure("Error: Unsupported chart type '" + PyStr(ReadSpec(j).chartType, repr) + "'.")
  {
  }

  /** Text that does not decode is reported as invalid JSON, before any other check. */
  lemma UndecodableIsInvalidJson(s: string, loads: Loads, repr: Json -> string, plot: Plot)
    requires loads(s).None?
    ensures CreateChart(s, loads, repr, plot) == (None, Some("Error: Invalid JSON format received from the model."))
  {
  }
}
