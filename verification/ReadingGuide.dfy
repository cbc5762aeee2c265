/** The reading guide of a saved plan: its strict validator and the generator that must satisfy it. */
module ReadingGuide {
  import opened Prelude

  // ---------- JavaScript strings ----------

  /** A UTF-16 code unit. */
  type Unit = u: int | 0 <= u < 0x10000
  type Js = seq<Unit>

  const NEWLINE: Unit := 10

  predicate IsSpace(u: Unit) {
    || 9 <= u <= 13 || u == 32 || u == 0xA0 || u == 0x1680 || 0x2000 <= u <= 0x200A
    || u == 0x2028 || u == 0x2029 || u == 0x202F || u == 0x205F || u == 0x3000 || u == 0xFEFF
  }

  predicate IsHigh(u: Unit) { 0xD800 <= u <= 0xDBFF }

  predicate IsLow(u: Unit) { 0xDC00 <= u <= 0xDFFF }

  function TrimStart(s: Js): Js { if s != [] && IsSpace(s[0]) then TrimStart(s[1..]) else s }

  function TrimEnd(s: Js): Js { if s != [] && IsSpace(s[|s| - 1]) then TrimEnd(s[..|s| - 1]) else s }

  function Trim(s: Js): Js { TrimEnd(TrimStart(s)) }

  predicate Blank(s: Js) { Trim(s) == [] }

  function Prefix(s: Js, n: nat): Js { if |s| <= n then s else s[..n] }

  /** The trimmed text cut to a limit, without half of a surrogate pair at its end. */
  function Excerpt(value: Js, limit: nat): Js {
    var text := Prefix(Trim(value), limit);
    if text != [] && IsHigh(text[|text| - 1]) then text[..|text| - 1] else text
  }

  /** A nonblank text within a limit. */
  predicate GoodText(value: Js, max: nat) { !Blank(value) && |value| <= max }

  ghost predicate OccursAt(s: Js, t: Js, k: int) { 0 <= k && k + |t| <= |s| && s[k..k + |t|] == t }

  ghost predicate Includes(s: Js, t: Js) { exists k :: OccursAt(s, t, k) }

  /** A literal as code units. */
  function Literal(s: string): Js {
    seq(|s|, i requires 0 <= i < |s| => if s[i] as int < 0x10000 then s[i] as int else 0)
  }

  // ---------- lines ----------

  function Split(s: Js): (lines: seq<Js>)
    ensures lines != []
  {
    if s == [] then [[]]
    else
      var rest := Split(s[1..]);
      if s[0] == NEWLINE then [[]] + rest else [[s[0]] + rest[0]] + rest[1..]
  }

  function Join(lines: seq<Js>): Js {
    if lines == [] then [] else if |lines| == 1 then lines[0] else lines[0] + [NEWLINE] + Join(lines[1..])
  }

  lemma {:induction false} JoinSplit(s: Js)
    ensures Join(Split(s)) == s
  {
    if s != [] {
      JoinSplit(s[1..]);
      var rest := Split(s[1..]);
      if s[0] == NEWLINE {
        assert ([[]] + rest)[1..] == rest;
      } else {
        assert ([[s[0]] + rest[0]] + rest[1..])[1..] == rest[1..];
      }
    }
  }

  lemma {:induction false} JoinAppend(a: seq<Js>, b: seq<Js>)
    requires a != [] && b != []
    ensures Join(a + b) == Join(a) + [NEWLINE] + Join(b)
  {
    if |a| == 1 {
      assert (a + b)[1..] == b;
    } else {
      JoinAppend(a[1..], b);
      assert (a + b)[1..] == a[1..] + b;
    }
  }

  // ---------- plans and guides ----------

  const NAMES := ["method", "materials", "design", "analysis", "validation", "interpretation", "minimum_deliverable"]

  /** A row of the plan; only string-valued fields appear, and `None` among the unknowns is not a string. */
  datatype Question = Question(ref: Option<Js>, fields: map<string, Js>, unknowns: seq<Option<Js>>)

  /** The question rows; `None` is a null row. */
  type Plan = seq<Option<Question>>

  datatype Binding = Binding(projectRef: string, inputVersion: int, intentSha: string, manifestSha: string,
                             revision: Option<(string, int)>)

  datatype Source = Source(pointer: string, quote: Js)

  datatype Node = Node(id: string, kind: string, title: Js, detail: Js, sources: seq<Source>)

  datatype Edge = Edge(from: string, to: string, text: Js, sources: seq<Source>)

  datatype Graph = Graph(nodes: seq<Node>, edges: seq<Edge>)

  datatype Entry = Entry(texts: seq<Js>, sources: seq<Source>)

  datatype Guide = Guide(kind: string, version: int, binding: Binding, questionRef: Js,
                         flow: Graph, loop: Graph, materials: seq<Entry>, baselines: seq<Entry>)

  function Decimal(n: nat): string {
    if n < 10 then [(n + '0' as int) as char] else Decimal(n / 10) + [(n % 10 + '0' as int) as char]
  }

  function PointerPrefix(index: nat): string { "/question_plans/" + Decimal(index) + "/" }

  // ---------- the validator ----------

  /** Searching the rows for a reference; reading a null row throws. */
  datatype Found = At(index: nat) | Absent | Threw

  function FindFrom(plan: Plan, ref: Js, i: nat): Found
    requires i <= |plan|
    decreases |plan| - i
  {
    if i == |plan| then Absent
    else if plan[i].None? then Threw
    else if plan[i].value.ref == Some(ref) then At(i)
    else FindFrom(plan, ref, i + 1)
  }

  predicate IsDigit(c: char) { '0' <= c <= '9' }

  /** The value of a numbered unknown: `0`, or one or two digits without a leading zero. */
  function UnknownIndex(s: string): Option<nat> {
    if |s| == 1 && IsDigit(s[0]) then Some(s[0] as int - '0' as int)
    else if |s| == 2 && '1' <= s[0] <= '9' && IsDigit(s[1]) then Some((s[0] as int - '0' as int) * 10 + (s[1] as int - '0' as int))
    else None
  }

  /** The text a pointer's field names in a question, if the field is one a pointer may name. */
  function FieldText(q: Question, field: string): Option<Js> {
    if field in NAMES then (if field in q.fields then Some(q.fields[field]) else None)
    else if "unknowns/" <= field then
      var n := UnknownIndex(field[9..]);
      if n.Some? && n.value < |q.unknowns| then q.unknowns[n.value] else None
    else None
  }

  ghost predicate GoodSource(q: Question, prefix: string, s: Source) {
    && GoodText(s.quote, 2200) && prefix <= s.pointer
    && FieldText(q, s.pointer[|prefix|..]).Some?
    && Includes(FieldText(q, s.pointer[|prefix|..]).value, s.quote)
  }

  ghost predicate GoodSources(q: Question, prefix: string, ss: seq<Source>) {
    0 < |ss| <= 3 && forall i :: 0 <= i < |ss| ==> GoodSource(q, prefix, ss[i])
  }

  const KINDS := ["question", "material", "decision", "method", "comparison", "validation", "output", "fallback"]

  predicate GoodIdChar(c: char) { 'a' <= c <= 'z' || IsDigit(c) || c == '_' || c == '-' }

  predicate GoodId(id: string) {
    1 <= |id| <= 41 && 'a' <= id[0] <= 'z' && forall i :: 0 <= i < |id| ==> GoodIdChar(id[i])
  }

  ghost predicate GoodNode(q: Question, prefix: string, n: Node) {
    && GoodId(n.id) && n.kind in KINDS && GoodText(n.title, 320) && GoodText(n.detail, 420)
    && GoodSources(q, prefix, n.sources)
  }

  ghost predicate GoodEdge(q: Question, prefix: string, nodes: seq<Node>, e: Edge) {
    && (exists i :: 0 <= i < |nodes| && nodes[i].id == e.from) && (exists i :: 0 <= i < |nodes| && nodes[i].id == e.to)
    && e.from != e.to && GoodText(e.text, 180) && GoodSources(q, prefix, e.sources)
  }

  ghost predicate DistinctIds(nodes: seq<Node>) { forall i, j :: 0 <= i < j < |nodes| ==> nodes[i].id != nodes[j].id }

  ghost predicate GoodGraph(q: Question, prefix: string, g: Graph, most: nat, least: nat) {
    && least <= |g.nodes| <= most && |g.edges| <= 18
    && DistinctIds(g.nodes)
    && (forall i :: 0 <= i < |g.nodes| ==> GoodNode(q, prefix, g.nodes[i]))
    && (forall i :: 0 <= i < |g.edges| ==> GoodEdge(q, prefix, g.nodes, g.edges[i]))
    && (forall i, j :: 0 <= i < j < |g.edges| ==> (g.edges[i].from, g.edges[i].to) != (g.edges[j].from, g.edges[j].to))
  }

  ghost predicate GoodEntry(q: Question, prefix: string, e: Entry) {
    |e.texts| == 3 && (forall i :: 0 <= i < 3 ==> GoodText(e.texts[i], 420)) && GoodSources(q, prefix, e.sources)
  }

  ghost predicate GoodEntries(q: Question, prefix: string, es: seq<Entry>) {
    |es| <= 8 && forall i :: 0 <= i < |es| ==> GoodEntry(q, prefix, es[i])
  }

  /** Whether the validator returns the guide instead of throwing. */
  ghost predicate Accepted(g: Guide, binding: Binding, plan: Plan) {
    && g.kind == "Stage3ResearchPresentation" && g.version == (if binding.revision.Some? then 2 else 1) && g.binding == binding
    && GoodText(g.questionRef, 240)
    && FindFrom(plan, g.questionRef, 0).At?
    && var index := FindFrom(plan, g.questionRef, 0).index;
       index < |plan| && plan[index].Some?
       && var q, prefix := plan[index].value, PointerPrefix(index);
          && GoodGraph(q, prefix, g.flow, 12, 1) && GoodGraph(q, prefix, g.loop, 8, 0)
          && GoodEntries(q, prefix, g.materials) && GoodEntries(q, prefix, g.baselines)
  }

  // ---------- the generator ----------

  /** Whether a row is one the generator may explain. */
  predicate Eligible(row: Option<Question>, context: Option<set<Js>>, ref: Option<Js>) {
    && row.Some? && row.value.ref.Some? && GoodText(row.value.ref.value, 240)
    && (ref.None? || row.value.ref == ref)
    && (context.None? || row.value.ref.value in context.value)
  }

  function QuestionIndexFrom(plan: Plan, context: Option<set<Js>>, ref: Option<Js>, i: nat): Option<nat>
    requires i <= |plan|
    decreases |plan| - i
  {
    if i == |plan| then None
    else if Eligible(plan[i], context, ref) then Some(i)
    else QuestionIndexFrom(plan, context, ref, i + 1)
  }

  datatype Shown = Shown(field: string, kind: string, title: string)

  const LABELS := [
    Shown("materials", "material", "Materials"), Shown("method", "method", "Method"), Shown("design", "comparison", "Design"),
    Shown("validation", "validation", "Validation"), Shown("analysis", "method", "Analysis"),
    Shown("interpretation", "decision", "Interpretation"), Shown("minimum_deliverable", "output", "Deliverable")]

  predicate HasText(q: Question, field: string) { field in q.fields && !Blank(q.fields[field]) }

  function FieldNode(q: Question, prefix: string, s: Shown): Node
    requires s.field in q.fields
  {
    Node(s.field, s.kind, Literal(s.title), Excerpt(q.fields[s.field], 400),
         [Source(prefix + s.field, Excerpt(q.fields[s.field], 2200))])
  }

  /** One node per field that has text, in the order of the labels. */
  function FlowNodes(q: Question, prefix: string, labels: seq<Shown>): seq<Node> {
    if labels == [] then []
    else
      var last := labels[|labels| - 1];
      FlowNodes(q, prefix, labels[..|labels| - 1]) + if HasText(q, last.field) then [FieldNode(q, prefix, last)] else []
  }

  /** Lines per group, so that there are at most eight groups. */
  function Width(n: nat): nat { if (n + 7) / 8 < 1 then 1 else (n + 7) / 8 }

  function Min(a: int, b: int): int { if a <= b then a else b }

  /** Contiguous groups of lines. */
  function Groups(lines: seq<Js>, width: nat): seq<seq<Js>>
    requires width >= 1
    decreases |lines|
  {
    if lines == [] then []
    else [lines[..Min(width, |lines|)]] + Groups(lines[Min(width, |lines|)..], width)
  }

  function GroupText(group: seq<Js>): Js { Trim(Join(group)) }

  function StepNode(prefix: string, count: nat, text: Js): Node {
    Node("method-" + Decimal(count), "method", Excerpt(Split(text)[0], 100), Excerpt(text, 400),
         [Source(prefix + "method", Excerpt(text, 2200))])
  }

  /** One step per group that is not blank, numbered in order. */
  function Steps(prefix: string, groups: seq<seq<Js>>): seq<Node> {
    if groups == [] then []
    else
      var before, text := Steps(prefix, groups[..|groups| - 1]), GroupText(groups[|groups| - 1]);
      if text == [] then before else before + [StepNode(prefix, |before|, text)]
  }

  function MethodGroups(q: Question): seq<seq<Js>>
    requires "method" in q.fields
  {
    var lines := Split(q.fields["method"]);
    Groups(lines, Width(|lines|))
  }

  datatype Refusal = BadBinding | BadQuestions | NoQuestion | NoMethod

  /** The guide the generator hands to the validator, once its own checks pass. */
  function Drafted(binding: Binding, plan: Plan, context: Option<set<Js>>, ref: Option<Js>): Result<Guide, Refusal>
  {
    if binding.inputVersion <= 0 then Err(BadBinding)
    else if !(0 < |plan| <= 32) then Err(BadQuestions)
    else
      var index := QuestionIndexFrom(plan, context, ref, 0);
      if index.None? || index.value >= |plan| || plan[index.value].None? || plan[index.value].value.ref.None? then Err(NoQuestion)
      else
        var q, prefix := plan[index.value].value, PointerPrefix(index.value);
        if !HasText(q, "method") then Err(NoMethod)
        else Ok(Guide("Stage3ResearchPresentation", if binding.revision.Some? then 2 else 1, binding, q.ref.value,
                      Graph(FlowNodes(q, prefix, LABELS), []), Graph(Steps(prefix, MethodGroups(q)), []), [], []))
  }
}
