/** What a drafted guide is about and shows, and what the validator's acceptance vouches for. */
module ReadingGuideMeaning {
  import opened Prelude
  import opened ReadingGuide
  import opened ReadingGuideTheorems

  // ---------- which question ----------

  /** A row with a usable reference that is the one asked for, if any, and one of the context, if any. */
  ghost predicate Explains(row: Option<Question>, context: Option<set<Js>>, ref: Option<Js>) {
    && row.Some? && row.value.ref.Some? && !Blank(row.value.ref.value) && |row.value.ref.value| <= 240
    && (ref.Some? ==> row.value.ref.value == ref.value)
    && (context.Some? ==> row.value.ref.value in context.value)
  }

  ghost predicate FirstToExplain(plan: Plan, context: Option<set<Js>>, ref: Option<Js>, k: int) {
    0 <= k < |plan| && Explains(plan[k], context, ref) && forall j :: 0 <= j < k ==> !Explains(plan[j], context, ref)
  }

  lemma {:induction false} IndexFound(plan: Plan, context: Option<set<Js>>, ref: Option<Js>, i: nat, k: nat)
    requires i <= k < |plan| && Explains(plan[k], context, ref) && forall j :: i <= j < k ==> !Explains(plan[j], context, ref)
    ensures QuestionIndexFrom(plan, context, ref, i) == Some(k)
    decreases k - i
  {
    if i < k {
      assert !Eligible(plan[i], context, ref);
      IndexFound(plan, context, ref, i + 1, k);
    }
  }

  lemma IndexIsFirst(plan: Plan, context: Option<set<Js>>, ref: Option<Js>)
    ensures QuestionIndexFrom(plan, context, ref, 0).Some? <==> exists k :: FirstToExplain(plan, context, ref, k)
    ensures forall k :: FirstToExplain(plan, context, ref, k) ==> QuestionIndexFrom(plan, context, ref, 0) == Some(k)
  {
    forall k | FirstToExplain(plan, context, ref, k) ensures QuestionIndexFrom(plan, context, ref, 0) == Some(k) {
      IndexFound(plan, context, ref, 0, k);
    }
    if QuestionIndexFrom(plan, context, ref, 0).Some? {
      IndexIsEligible(plan, context, ref, 0);
      var k := QuestionIndexFrom(plan, context, ref, 0).value;
      forall j | 0 <= j < k ensures !Explains(plan[j], context, ref) { assert !Eligible(plan[j], context, ref); }
      assert FirstToExplain(plan, context, ref, k);
    }
  }

  /**
   * A guide is drafted if and only if the input version is positive, there are 1 to 32 rows, and the
   * first row that fits the request and the context has a method; and it is about that row.
   */
  lemma DraftedIff(binding: Binding, plan: Plan, context: Option<set<Js>>, ref: Option<Js>)
    ensures var d := Drafted(binding, plan, context, ref);
            && (d.Ok? <==> && binding.inputVersion > 0 && 1 <= |plan| <= 32
                           && exists k :: FirstToExplain(plan, context, ref, k) && HasText(plan[k].value, "method"))
            && (d.Ok? ==> && d.value.binding == binding
                          && (ref.Some? ==> d.value.questionRef == ref.value)
                          && (context.Some? ==> d.value.questionRef in context.value)
                          && exists k :: FirstToExplain(plan, context, ref, k) && plan[k].value.ref == Some(d.value.questionRef))
  {
    IndexIsFirst(plan, context, ref);
  }

  // ---------- what is shown ----------

  /** The beginning of a trimmed text up to a limit, less one unit where that would split a surrogate pair. */
  ghost predicate CutOf(shown: Js, value: Js, limit: nat) {
    var t := Trim(value);
    var m := if |t| <= limit then |t| else limit;
    shown == t[..if m > 0 && 0xD800 <= t[m - 1] <= 0xDBFF then m - 1 else m]
  }

  lemma ExcerptCuts(value: Js, limit: nat)
    ensures CutOf(Excerpt(value, limit), value, limit)
  {
    var t := Trim(value);
    var m := if |t| <= limit then |t| else limit;
    assert Prefix(t, limit) == t[..m];
    if m > 0 { assert t[..m][..m - 1] == t[..m - 1]; }
  }

  /** The node of a field: its label, and the beginning of its text, quoted from the field itself. */
  ghost predicate ShowsField(n: Node, q: Question, prefix: string, s: Shown) {
    && s.field in q.fields && n.id == s.field && n.kind == s.kind && n.title == Literal(s.title)
    && CutOf(n.detail, q.fields[s.field], 400)
    && |n.sources| == 1 && n.sources[0].pointer == prefix + s.field && CutOf(n.sources[0].quote, q.fields[s.field], 2200)
  }

  /** The labels of the fields that have text, in order. */
  function WithText(q: Question, labels: seq<Shown>): seq<Shown> {
    if labels == [] then []
    else WithText(q, labels[..|labels| - 1]) + if HasText(q, labels[|labels| - 1].field) then [labels[|labels| - 1]] else []
  }

  /** The flow shows the fields that have text, in the order of the labels, and nothing else. */
  lemma {:induction false} FlowShows(q: Question, prefix: string, labels: seq<Shown>)
    ensures ShowsFlow(FlowNodes(q, prefix, labels), q, prefix, WithText(q, labels))
  {
    if labels != [] {
      FlowShows(q, prefix, labels[..|labels| - 1]);
      var last := labels[|labels| - 1];
      if HasText(q, last.field) {
        ExcerptCuts(q.fields[last.field], 400);
        ExcerptCuts(q.fields[last.field], 2200);
      }
    }
  }

  /** The groups that are not blank, in order. */
  function NotBlank(groups: seq<seq<Js>>): seq<seq<Js>> {
    if groups == [] then []
    else NotBlank(groups[..|groups| - 1]) + if Blank(Join(groups[|groups| - 1])) then [] else [groups[|groups| - 1]]
  }

  ghost predicate ShowsGroup(n: Node, prefix: string, k: nat, group: seq<Js>) {
    && n.id == "method-" + Decimal(k) && n.kind == "method"
    && CutOf(n.title, Split(Trim(Join(group)))[0], 100) && CutOf(n.detail, Trim(Join(group)), 400)
    && |n.sources| == 1 && n.sources[0].pointer == prefix + "method" && CutOf(n.sources[0].quote, Trim(Join(group)), 2200)
  }

  /** The steps show the groups of lines that are not blank, numbered in order. */
  lemma {:induction false} StepsShow(prefix: string, groups: seq<seq<Js>>)
    ensures ShowsSteps(Steps(prefix, groups), prefix, NotBlank(groups))
  {
    if groups != [] {
      var before, last := groups[..|groups| - 1], groups[|groups| - 1];
      StepsShow(prefix, before);
      var k := |Steps(prefix, before)|;
      StepShows(prefix, k, last);
      OneMoreStep(prefix, Steps(prefix, before), NotBlank(before), StepNode(prefix, k, GroupText(last)), last);
    }
  }

  lemma OneMoreStep(prefix: string, nodes: seq<Node>, shown: seq<seq<Js>>, n: Node, group: seq<Js>)
    requires ShowsSteps(nodes, prefix, shown) && ShowsGroup(n, prefix, |nodes|, group)
    ensures ShowsSteps(nodes + [n], prefix, shown + [group])
  {
  }

  lemma StepShows(prefix: string, k: nat, group: seq<Js>)
    ensures ShowsGroup(StepNode(prefix, k, GroupText(group)), prefix, k, group)
  {
    var text := Trim(Join(group));
    ExcerptCuts(Split(text)[0], 100);
    ExcerptCuts(text, 400);
    ExcerptCuts(text, 2200);
  }

  /**
   * A drafted guide shows the question's fields that have text, in the fixed order, and as steps the
   * groups of method lines that are not blank; it draws no edges and lists nothing.
   */
  lemma DraftShows(binding: Binding, plan: Plan, context: Option<set<Js>>, ref: Option<Js>, k: nat)
    requires Drafted(binding, plan, context, ref).Ok? && FirstToExplain(plan, context, ref, k)
    ensures HasText(plan[k].value, "method")
    ensures var g, q, prefix := Drafted(binding, plan, context, ref).value, plan[k].value, "/question_plans/" + Decimal(k) + "/";
            && g.flow.edges == [] && g.loop.edges == [] && g.materials == [] && g.baselines == []
            && ShowsFlow(g.flow.nodes, q, prefix, WithText(q, LABELS)) && ShowsSteps(g.loop.nodes, prefix, NotBlank(MethodGroups(q)))
  {
    IndexIsFirst(plan, context, ref);
    var q, prefix := plan[k].value, PointerPrefix(k);
    FlowShows(q, prefix, LABELS);
    StepsShow(prefix, MethodGroups(q));
  }

  ghost predicate ShowsFlow(nodes: seq<Node>, q: Question, prefix: string, shown: seq<Shown>) {
    |nodes| == |shown| && forall i :: 0 <= i < |nodes| ==> ShowsField(nodes[i], q, prefix, shown[i])
  }

  ghost predicate ShowsSteps(nodes: seq<Node>, prefix: string, groups: seq<seq<Js>>) {
    |nodes| == |groups| && forall i :: 0 <= i < |nodes| ==> ShowsGroup(nodes[i], prefix, i, groups[i])
  }

  /** Lines hold no newline. */
  lemma {:induction false} LinesAreLines(s: Js)
    ensures forall i, k :: 0 <= i < |Split(s)| && 0 <= k < |Split(s)[i]| ==> Split(s)[i][k] != NEWLINE
  {
    if s != [] { LinesAreLines(s[1..]); }
  }

  /** The groups are as small as eight groups allow, and all but the last are equally long. */
  lemma {:induction false} GroupsAreEven(lines: seq<Js>, width: nat)
    requires width >= 1
    ensures forall i :: 0 <= i < |Groups(lines, width)| - 1 ==> |Groups(lines, width)[i]| == width
    decreases |lines|
  {
    if lines != [] {
      var m := Min(width, |lines|);
      GroupsAreEven(lines[m..], width);
      assert Groups(lines, width)[1..] == Groups(lines[m..], width);
    }
  }

  lemma WidthIsLeast(n: nat)
    ensures Width(n) >= 1 && n <= 8 * Width(n) && (Width(n) > 1 ==> 8 * (Width(n) - 1) < n)
  {
  }

  // ---------- what acceptance vouches for ----------

  lemma UnknownOfDecimal(n: nat)
    requires n < 100
    ensures UnknownIndex(Decimal(n)) == Some(n)
  {
    if n >= 10 { assert Decimal(n / 10) == [(n / 10 + '0' as int) as char]; }
  }

  lemma DecimalOfUnknown(s: string)
    requires UnknownIndex(s).Some?
    ensures UnknownIndex(s).value < 100 && s == Decimal(UnknownIndex(s).value)
  {
    var n := UnknownIndex(s).value;
    if |s| == 2 {
      assert n / 10 == s[0] as int - '0' as int && n % 10 == s[1] as int - '0' as int;
      assert Decimal(n / 10) == [s[0]];
      assert s == [s[0]] + [s[1]];
    } else {
      assert s == [s[0]];
    }
  }

  predicate FieldName(f: string) {
    f in {"method", "materials", "design", "analysis", "validation", "interpretation", "minimum_deliverable"}
  }

  /** The question has the text under a field, or as one of its first hundred unknowns. */
  ghost predicate HasUnder(q: Question, field: string, text: Js) {
    || (FieldName(field) && field in q.fields && q.fields[field] == text)
    || (exists n: nat :: n < 100 && field == "unknowns/" + Decimal(n) && n < |q.unknowns| && q.unknowns[n] == Some(text))
  }

  lemma FieldTextExact(q: Question, field: string, text: Js)
    ensures FieldText(q, field) == Some(text) <==> HasUnder(q, field, text)
  {
    FieldNameIff(field);
    if field !in NAMES && "unknowns/" <= field {
      var rest := field[9..];
      assert field == "unknowns/" + rest;
      if UnknownIndex(rest).Some? { DecimalOfUnknown(rest); }
    }
    if n: nat :| n < 100 && field == "unknowns/" + Decimal(n) && n < |q.unknowns| && q.unknowns[n] == Some(text) {
      UnknownOfDecimal(n);
      assert field[..9] == "unknowns/" && field[9..] == Decimal(n);
      assert field[0] == 'u';
    }
  }

  lemma FieldNameIff(f: string)
    ensures f in NAMES <==> FieldName(f)
    ensures f != "" && f[0] == 'u' ==> !FieldName(f)
  {
    assert NAMES == ["method", "materials", "design", "analysis", "validation", "interpretation", "minimum_deliverable"];
  }

  /** The source quotes, in at most 2200 units, words that stand in the field it points to. */
  ghost predicate Quotes(q: Question, prefix: string, s: Source) {
    && !Blank(s.quote) && |s.quote| <= 2200
    && exists field, text :: s.pointer == prefix + field && HasUnder(q, field, text) && Includes(text, s.quote)
  }

  lemma GoodSourceIff(q: Question, prefix: string, s: Source)
    ensures GoodSource(q, prefix, s) <==> Quotes(q, prefix, s)
  {
    if prefix <= s.pointer {
      var field := s.pointer[|prefix|..];
      assert s.pointer == prefix + field;
      if FieldText(q, field).Some? { FieldTextExact(q, field, FieldText(q, field).value); }
    }
    if field, text :| s.pointer == prefix + field && HasUnder(q, field, text) && Includes(text, s.quote) {
      assert s.pointer[..|prefix|] == prefix && s.pointer[|prefix|..] == field;
      FieldTextExact(q, field, text);
    }
  }

  ghost predicate AllQuote(q: Question, prefix: string, ss: seq<Source>) {
    1 <= |ss| <= 3 && forall i :: 0 <= i < |ss| ==> Quotes(q, prefix, ss[i])
  }

  lemma SourcesQuote(q: Question, prefix: string, ss: seq<Source>)
    ensures GoodSources(q, prefix, ss) <==> AllQuote(q, prefix, ss)
  {
    forall i | 0 <= i < |ss| ensures GoodSource(q, prefix, ss[i]) <==> Quotes(q, prefix, ss[i]) { GoodSourceIff(q, prefix, ss[i]); }
  }

  ghost predicate GroundedNode(q: Question, prefix: string, n: Node) {
    && !Blank(n.title) && |n.title| <= 320 && !Blank(n.detail) && |n.detail| <= 420 && AllQuote(q, prefix, n.sources)
    && 1 <= |n.id| <= 41 && 'a' <= n.id[0] <= 'z'
    && n.kind in {"question", "material", "decision", "method", "comparison", "validation", "output", "fallback"}
  }

  ghost predicate GroundedEdge(q: Question, prefix: string, nodes: seq<Node>, e: Edge) {
    && !Blank(e.text) && |e.text| <= 180 && e.from != e.to && AllQuote(q, prefix, e.sources)
    && exists i, j :: 0 <= i < |nodes| && 0 <= j < |nodes| && nodes[i].id == e.from && nodes[j].id == e.to
  }

  /** Nodes with names of their own, at most 18 edges between different ones, no edge twice, all of it quoted. */
  ghost predicate GroundedGraph(q: Question, prefix: string, g: Graph) {
    && |g.edges| <= 18
    && (forall i :: 0 <= i < |g.nodes| ==> GroundedNode(q, prefix, g.nodes[i]))
    && (forall i :: 0 <= i < |g.edges| ==> GroundedEdge(q, prefix, g.nodes, g.edges[i]))
    && (forall i, k :: 0 <= i < k < |g.nodes| ==> g.nodes[i].id != g.nodes[k].id)
    && (forall i, k :: 0 <= i < k < |g.edges| ==> g.edges[i].from != g.edges[k].from || g.edges[i].to != g.edges[k].to)
  }

  lemma NodeGrounded(q: Question, prefix: string, n: Node)
    requires GoodNode(q, prefix, n)
    ensures GroundedNode(q, prefix, n)
  {
    SourcesQuote(q, prefix, n.sources);
  }

  lemma EdgeGrounded(q: Question, prefix: string, nodes: seq<Node>, e: Edge)
    requires GoodEdge(q, prefix, nodes, e)
    ensures GroundedEdge(q, prefix, nodes, e)
  {
    SourcesQuote(q, prefix, e.sources);
  }

  lemma GraphGrounded(q: Question, prefix: string, g: Graph, most: nat, least: nat)
    requires GoodGraph(q, prefix, g, most, least)
    ensures GroundedGraph(q, prefix, g) && least <= |g.nodes| <= most
  {
    forall i | 0 <= i < |g.nodes| ensures GroundedNode(q, prefix, g.nodes[i]) { NodeGrounded(q, prefix, g.nodes[i]); }
    forall i | 0 <= i < |g.edges| ensures GroundedEdge(q, prefix, g.nodes, g.edges[i]) { EdgeGrounded(q, prefix, g.nodes, g.edges[i]); }
  }

  ghost predicate GroundedEntries(q: Question, prefix: string, es: seq<Entry>) {
    |es| <= 8 && forall i :: 0 <= i < |es| ==>
      && AllQuote(q, prefix, es[i].sources) && |es[i].texts| == 3
      && forall k :: 0 <= k < 3 ==> !Blank(es[i].texts[k]) && |es[i].texts[k]| <= 420
  }

  lemma EntriesGrounded(q: Question, prefix: string, es: seq<Entry>)
    requires GoodEntries(q, prefix, es)
    ensures GroundedEntries(q, prefix, es)
  {
    forall i | 0 <= i < |es| ensures AllQuote(q, prefix, es[i].sources) {
      assert GoodEntry(q, prefix, es[i]);
      SourcesQuote(q, prefix, es[i].sources);
    }
    forall i | 0 <= i < |es| ensures |es[i].texts| == 3 && forall k :: 0 <= k < 3 ==> !Blank(es[i].texts[k]) && |es[i].texts[k]| <= 420 {
      assert GoodEntry(q, prefix, es[i]);
    }
  }

  lemma {:induction false} FoundIsFirst(plan: Plan, ref: Js, i: nat)
    requires i <= |plan| && FindFrom(plan, ref, i).At?
    ensures var k := FindFrom(plan, ref, i).index;
            i <= k < |plan| && plan[k].Some? && plan[k].value.ref == Some(ref)
            && forall j :: i <= j < k ==> plan[j].Some? && plan[j].value.ref != Some(ref)
    decreases |plan| - i
  {
    if plan[i].Some? && plan[i].value.ref != Some(ref) { FoundIsFirst(plan, ref, i + 1); }
  }

  /**
   * A guide the validator accepts, drafted or written by hand, belongs to the binding, is about the
   * first row with its reference, and says nothing in its graphs or lists without quoting words that
   * stand in that row.
   */
  lemma AcceptedIsGrounded(g: Guide, binding: Binding, plan: Plan)
    requires Accepted(g, binding, plan)
    ensures g.binding == binding && g.version == (if binding.revision.Some? then 2 else 1)
    ensures exists k :: && 0 <= k < |plan| && plan[k].Some? && plan[k].value.ref == Some(g.questionRef)
                        && (forall j :: 0 <= j < k ==> plan[j].Some? && plan[j].value.ref != Some(g.questionRef))
                        && Grounded(g, plan[k].value, "/question_plans/" + Decimal(k) + "/")
  {
    FoundIsFirst(plan, g.questionRef, 0);
    var k := FindFrom(plan, g.questionRef, 0).index;
    var q, prefix := plan[k].value, "/question_plans/" + Decimal(k) + "/";
    assert PointerPrefix(k) == prefix;
    GraphGrounded(q, prefix, g.flow, 12, 1);
    GraphGrounded(q, prefix, g.loop, 8, 0);
    EntriesGrounded(q, prefix, g.materials);
    EntriesGrounded(q, prefix, g.baselines);
  }

  ghost predicate Grounded(g: Guide, q: Question, prefix: string) {
    && 1 <= |g.flow.nodes| <= 12 && |g.loop.nodes| <= 8
    && GroundedGraph(q, prefix, g.flow) && GroundedGraph(q, prefix, g.loop)
    && GroundedEntries(q, prefix, g.materials) && GroundedEntries(q, prefix, g.baselines)
  }
}
