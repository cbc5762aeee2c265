/** When the generator's output satisfies the validator, and how it covers the method. */
module ReadingGuideTheorems {
  import opened Prelude
  import opened ReadingGuide

  // ---------- trimming and excerpts ----------

  lemma {:induction false} TrimStartOf(s: Js)
    ensures |TrimStart(s)| <= |s| && s[|s| - |TrimStart(s)|..] == TrimStart(s)
    ensures TrimStart(s) != [] ==> !IsSpace(TrimStart(s)[0])
    ensures s != [] && !IsSpace(s[0]) ==> TrimStart(s) == s
  {
    if s != [] && IsSpace(s[0]) {
      TrimStartOf(s[1..]);
      assert s[|s| - |TrimStart(s)|..] == s[1..][|s[1..]| - |TrimStart(s)|..];
    }
  }

  lemma {:induction false} TrimEndOf(s: Js)
    ensures |TrimEnd(s)| <= |s| && s[..|TrimEnd(s)|] == TrimEnd(s)
    ensures s != [] && !IsSpace(s[0]) ==> TrimEnd(s) != []
    ensures TrimEnd(s) != [] ==> !IsSpace(TrimEnd(s)[|TrimEnd(s)| - 1])
    ensures s != [] && !IsSpace(s[|s| - 1]) ==> TrimEnd(s) == s
  {
    if s != [] && IsSpace(s[|s| - 1]) {
      TrimEndOf(s[..|s| - 1]);
      assert s[..|TrimEnd(s)|] == s[..|s| - 1][..|TrimEnd(s)|];
    }
  }

  /** The trimmed text is part of the text and has no space at either end. */
  lemma TrimOf(s: Js)
    ensures Includes(s, Trim(s))
    ensures Trim(s) != [] ==> !IsSpace(Trim(s)[0]) && !IsSpace(Trim(s)[|Trim(s)| - 1])
    ensures s != [] && !IsSpace(s[0]) ==> !Blank(s)
    ensures s != [] && !IsSpace(s[0]) && !IsSpace(s[|s| - 1]) ==> Trim(s) == s
  {
    TrimStartOf(s);
    var t := TrimStart(s);
    TrimEndOf(t);
    var k := |s| - |t|;
    assert s[k..k + |Trim(s)|] == t[..|Trim(s)|];
    assert OccursAt(s, Trim(s), k);
  }

  lemma IncludesTransitive(a: Js, b: Js, c: Js)
    requires Includes(a, b) && Includes(b, c)
    ensures Includes(a, c)
  {
    var k :| OccursAt(a, b, k);
    var m :| OccursAt(b, c, m);
    forall i | 0 <= i < |c| ensures a[k + m..k + m + |c|][i] == c[i] {
      assert b[m..m + |c|][i] == b[m + i] && a[k..k + |b|][m + i] == a[k + m + i];
    }
    assert OccursAt(a, c, k + m);
  }

  lemma IncludesPrefix(a: Js, n: nat)
    requires n <= |a|
    ensures Includes(a, a[..n])
  {
    assert OccursAt(a, a[..n], 0);
  }

  /** Text that is nothing but one unpaired high surrogate. */
  predicate Lone(s: Js) { |Trim(s)| == 1 && IsHigh(Trim(s)[0]) }

  /** An excerpt is part of its text and within its limit; it is blank only for a lone surrogate. */
  lemma ExcerptOf(value: Js, limit: nat)
    requires !Blank(value) && limit >= 2
    ensures |Excerpt(value, limit)| <= limit && Includes(value, Excerpt(value, limit))
    ensures Blank(Excerpt(value, limit)) <==> Lone(value)
  {
    TrimOf(value);
    var t := Trim(value);
    var p, e := Prefix(t, limit), Excerpt(value, limit);
    assert p == t[..|p|];
    assert e == t[..|e|];
    IncludesPrefix(t, |e|);
    IncludesTransitive(value, t, e);
    if e != [] {
      assert e[0] == t[0];
      TrimOf(e);
    }
  }

  lemma ExcerptGood(value: Js, limit: nat, max: nat)
    requires !Blank(value) && 2 <= limit <= max
    ensures GoodText(Excerpt(value, limit), max) <==> !Lone(value)
  {
    ExcerptOf(value, limit);
  }

  // ---------- both pick the same question ----------

  lemma {:induction false} IndexIsEligible(plan: Plan, context: Option<set<Js>>, ref: Option<Js>, i: nat)
    requires i <= |plan| && QuestionIndexFrom(plan, context, ref, i).Some?
    ensures var k := QuestionIndexFrom(plan, context, ref, i).value;
            i <= k < |plan| && Eligible(plan[k], context, ref) && forall j :: i <= j < k ==> !Eligible(plan[j], context, ref)
    decreases |plan| - i
  {
    if !Eligible(plan[i], context, ref) { IndexIsEligible(plan, context, ref, i + 1); }
  }

  ghost predicate NoNullBefore(plan: Plan, k: nat) { forall i :: 0 <= i < k && i < |plan| ==> plan[i].Some? }

  /**
   * Even with repeated references, the validator finds the row the generator chose, unless it
   * trips over a null row before it.
   */
  lemma {:induction false} SameIndex(plan: Plan, context: Option<set<Js>>, ref: Option<Js>, k: nat, i: nat)
    requires i <= k < |plan| && Eligible(plan[k], context, ref)
    requires forall j :: 0 <= j < k ==> !Eligible(plan[j], context, ref)
    ensures var found := FindFrom(plan, plan[k].value.ref.value, i);
            if forall j :: i <= j < k ==> plan[j].Some? then found == At(k) else found == Threw
    decreases |plan| - i
  {
    if i < k && plan[i].Some? {
      SameIndex(plan, context, ref, k, i + 1);
      assert plan[i].value.ref != plan[k].value.ref by { assert !Eligible(plan[i], context, ref); }
    }
  }

  // ---------- the flow ----------

  predicate GoodLabel(s: Shown) {
    s.field in NAMES && GoodId(s.field) && s.kind in KINDS && GoodText(Literal(s.title), 320)
  }

  lemma TitleGood(title: string)
    requires 0 < |title| <= 320 && 'A' <= title[0] <= 'Z'
    ensures GoodText(Literal(title), 320)
  {
    assert Literal(title)[0] == title[0] as int;
    TrimOf(Literal(title));
  }

  lemma FieldNamed(i: nat)
    requires i < |LABELS|
    ensures LABELS[i].field in NAMES
  {
    assert NAMES[0] == "method" && NAMES[1] == "materials" && NAMES[2] == "design" && NAMES[3] == "analysis";
    assert NAMES[4] == "validation" && NAMES[5] == "interpretation" && NAMES[6] == "minimum_deliverable";
  }

  lemma KindNamed(i: nat)
    requires i < |LABELS|
    ensures LABELS[i].kind in KINDS
  {
    assert KINDS[1] == "material" && KINDS[2] == "decision" && KINDS[3] == "method" && KINDS[4] == "comparison";
    assert KINDS[5] == "validation" && KINDS[6] == "output";
  }

  lemma FieldIsId(i: nat)
    requires i < |LABELS|
    ensures GoodId(LABELS[i].field)
  {
  }

  lemma LabelGood(i: nat)
    requires i < |LABELS|
    ensures GoodLabel(LABELS[i])
  {
    FieldNamed(i);
    KindNamed(i);
    FieldIsId(i);
    TitleGood(LABELS[i].title);
  }

  lemma LabelsDistinct()
    ensures forall i, j :: 0 <= i < j < |LABELS| ==> LABELS[i].field != LABELS[j].field
  {
    assert |LABELS[0].field| == 9 && |LABELS[1].field| == 6 && LABELS[1].field[0] == 'm';
    assert |LABELS[2].field| == 6 && LABELS[2].field[0] == 'd' && |LABELS[3].field| == 10;
    assert |LABELS[4].field| == 8 && |LABELS[5].field| == 14 && |LABELS[6].field| == 19;
  }

  lemma FieldNodeGood(q: Question, prefix: string, s: Shown)
    requires GoodLabel(s) && HasText(q, s.field)
    ensures GoodNode(q, prefix, FieldNode(q, prefix, s)) <==> !Lone(q.fields[s.field])
  {
    var value := q.fields[s.field];
    ExcerptGood(value, 400, 420);
    ExcerptGood(value, 2200, 2200);
    ExcerptOf(value, 2200);
    var n := FieldNode(q, prefix, s);
    assert n.sources[0].pointer[|prefix|..] == s.field;
  }

  predicate FieldClean(q: Question, field: string) { HasText(q, field) ==> !Lone(q.fields[field]) }

  /** Every text field shown in the flow is more than a lone surrogate. */
  predicate FieldsClean(q: Question, labels: seq<Shown>) {
    labels != [] ==> FieldsClean(q, labels[..|labels| - 1]) && FieldClean(q, labels[|labels| - 1].field)
  }

  predicate AllLabels(labels: seq<Shown>) {
    labels != [] ==> AllLabels(labels[..|labels| - 1]) && GoodLabel(labels[|labels| - 1])
  }

  ghost predicate AllGood(q: Question, prefix: string, nodes: seq<Node>) {
    nodes != [] ==> AllGood(q, prefix, nodes[..|nodes| - 1]) && GoodNode(q, prefix, nodes[|nodes| - 1])
  }

  lemma {:induction false} AllGoodEach(q: Question, prefix: string, nodes: seq<Node>)
    ensures AllGood(q, prefix, nodes) <==> forall i :: 0 <= i < |nodes| ==> GoodNode(q, prefix, nodes[i])
  {
    if nodes != [] {
      var n := |nodes| - 1;
      AllGoodEach(q, prefix, nodes[..n]);
      assert forall i :: 0 <= i < n ==> nodes[..n][i] == nodes[i];
    }
  }

  lemma AllLabelsGood()
    ensures AllLabels(LABELS)
  {
    AllLabelsUpTo(|LABELS|);
    assert LABELS[..|LABELS|] == LABELS;
  }

  lemma {:induction false} AllLabelsUpTo(n: nat)
    requires n <= |LABELS|
    ensures AllLabels(LABELS[..n])
  {
    if n > 0 {
      AllLabelsUpTo(n - 1);
      LabelGood(n - 1);
      assert LABELS[..n][..n - 1] == LABELS[..n - 1];
    }
  }

  /** The flow shows distinct fields, at least one if any has text. */
  lemma {:induction false} FlowShape(q: Question, prefix: string, labels: seq<Shown>)
    requires forall i, j :: 0 <= i < j < |labels| ==> labels[i].field != labels[j].field
    ensures var nodes := FlowNodes(q, prefix, labels);
            && |nodes| <= |labels| && DistinctIds(nodes)
            && (forall i :: 0 <= i < |nodes| ==> exists j :: 0 <= j < |labels| && nodes[i].id == labels[j].field)
            && ((exists i :: 0 <= i < |labels| && HasText(q, labels[i].field)) ==> nodes != [])
  {
    if labels != [] {
      var n := |labels| - 1;
      FlowShape(q, prefix, labels[..n]);
      var before, nodes := FlowNodes(q, prefix, labels[..n]), FlowNodes(q, prefix, labels);
      forall i | 0 <= i < |before| ensures (exists j :: 0 <= j < n && before[i].id == labels[j].field) {
        var j :| 0 <= j < n && before[i].id == labels[..n][j].field;
        assert labels[..n][j] == labels[j];
      }
      if HasText(q, labels[n].field) { assert nodes[|before|].id == labels[n].field; }
      else if exists i :: 0 <= i < |labels| && HasText(q, labels[i].field) {
        var i :| 0 <= i < |labels| && HasText(q, labels[i].field);
        assert labels[..n][i] == labels[i];
      }
    }
  }

  /** All nodes of the flow are good exactly when the texts they show are clean. */
  lemma {:induction false} FlowGood(q: Question, prefix: string, labels: seq<Shown>)
    requires AllLabels(labels)
    ensures AllGood(q, prefix, FlowNodes(q, prefix, labels)) <==> FieldsClean(q, labels)
  {
    if labels != [] {
      var n := |labels| - 1;
      FlowGood(q, prefix, labels[..n]);
      if HasText(q, labels[n].field) {
        FieldNodeGood(q, prefix, labels[n]);
        GoodStep(q, prefix, FlowNodes(q, prefix, labels[..n]), FieldNode(q, prefix, labels[n]));
      } else {
        assert FlowNodes(q, prefix, labels) == FlowNodes(q, prefix, labels[..n]);
      }
    }
  }

  lemma GoodStep(q: Question, prefix: string, before: seq<Node>, last: Node)
    ensures AllGood(q, prefix, before + [last]) <==> AllGood(q, prefix, before) && GoodNode(q, prefix, last)
  {
    assert (before + [last])[..|before|] == before;
  }

  // ---------- groups of lines ----------

  function Flatten(groups: seq<seq<Js>>): seq<Js> { if groups == [] then [] else groups[0] + Flatten(groups[1..]) }

  /** The groups are contiguous and cover every line, in order, and none is empty. */
  lemma {:induction false} GroupsCover(lines: seq<Js>, width: nat)
    requires width >= 1
    ensures Flatten(Groups(lines, width)) == lines
    ensures forall i :: 0 <= i < |Groups(lines, width)| ==> Groups(lines, width)[i] != []
    decreases |lines|
  {
    if lines != [] {
      var m := Min(width, |lines|);
      GroupsCover(lines[m..], width);
      assert Groups(lines, width)[1..] == Groups(lines[m..], width);
      assert lines[..m] + lines[m..] == lines;
    }
  }

  lemma {:induction false} GroupsCount(lines: seq<Js>, width: nat, most: nat)
    requires width >= 1 && |lines| <= most * width
    ensures |Groups(lines, width)| <= most
    decreases |lines|
  {
    if lines != [] {
      var m := Min(width, |lines|);
      assert most == 0 ==> most * width == 0;
      assert |lines[m..]| <= (most - 1) * width by {
        assert most * width == (most - 1) * width + width;
      }
      GroupsCount(lines[m..], width, most - 1);
    }
  }

  lemma AtMostEightGroups(lines: seq<Js>)
    ensures |Groups(lines, Width(|lines|))| <= 8
  {
    GroupsCount(lines, Width(|lines|), 8);
  }

  /** Joined lines before and after a stretch of lines surround it with newlines. */
  lemma JoinAround(pre: seq<Js>, mid: seq<Js>, post: seq<Js>)
    requires mid != []
    ensures Join(pre + mid + post) ==
              (if pre == [] then [] else Join(pre) + [NEWLINE]) + Join(mid) + (if post == [] then [] else [NEWLINE] + Join(post))
  {
    if post != [] { JoinAppend(pre + mid, post); } else { assert pre + mid + post == pre + mid; }
    if pre != [] { JoinAppend(pre, mid); } else { assert pre + mid == mid; }
  }

  lemma {:induction false} FlattenSplit(groups: seq<seq<Js>>, i: nat)
    requires i < |groups|
    ensures Flatten(groups) == Flatten(groups[..i]) + groups[i] + Flatten(groups[i + 1..])
  {
    if i > 0 {
      FlattenSplit(groups[1..], i - 1);
      assert groups[1..][..i - 1] == groups[..i][1..] && groups[1..][i - 1] == groups[i] && groups[1..][i..] == groups[i + 1..];
      assert groups[..i][0] == groups[0];
    }
  }

  lemma GroupInText(s: Js, width: nat, i: nat)
    requires width >= 1 && i < |Groups(Split(s), width)|
    ensures Includes(s, GroupText(Groups(Split(s), width)[i]))
  {
    var lines := Split(s);
    var group := Groups(lines, width)[i];
    GroupsCover(lines, width);
    FlattenSplit(Groups(lines, width), i);
    var pre, post := Flatten(Groups(lines, width)[..i]), Flatten(Groups(lines, width)[i + 1..]);
    JoinAround(pre, group, post);
    JoinSplit(s);
    var a := if pre == [] then [] else Join(pre) + [NEWLINE];
    var b := if post == [] then [] else [NEWLINE] + Join(post);
    assert s == a + Join(group) + b;
    assert s[|a|..|a| + |Join(group)|] == Join(group);
    assert OccursAt(s, Join(group), |a|);
    TrimOf(Join(group));
    IncludesTransitive(s, Join(group), GroupText(group));
  }

  // ---------- the steps ----------

  lemma DigitsDistinct(a: nat, b: nat)
    requires a < 10 && b < 10 && a != b
    ensures "method-" + Decimal(a) != "method-" + Decimal(b)
  {
    assert ("method-" + Decimal(a))[7] == Decimal(a)[0] && ("method-" + Decimal(b))[7] == Decimal(b)[0];
  }

  /** The steps are numbered in order, one per group that is not blank. */
  lemma {:induction false} StepsShape(prefix: string, groups: seq<seq<Js>>)
    ensures var nodes := Steps(prefix, groups);
            |nodes| <= |groups| && forall i :: 0 <= i < |nodes| ==> nodes[i].id == "method-" + Decimal(i)
  {
    if groups != [] {
      var n := |groups| - 1;
      StepsShape(prefix, groups[..n]);
      var before, text := Steps(prefix, groups[..n]), GroupText(groups[n]);
      var last := StepNode(prefix, |before|, text);
      assert last.id == "method-" + Decimal(|before|);
      assert Steps(prefix, groups) == before || Steps(prefix, groups) == before + [last];
    }
  }

  lemma StepsDistinct(prefix: string, groups: seq<seq<Js>>)
    requires |groups| <= 8
    ensures DistinctIds(Steps(prefix, groups))
  {
    StepsShape(prefix, groups);
    var nodes := Steps(prefix, groups);
    forall i, j | 0 <= i < j < |nodes| ensures nodes[i].id != nodes[j].id { DigitsDistinct(i, j); }
  }

  lemma StepIdGood(count: nat)
    requires count < 10
    ensures GoodId("method-" + Decimal(count))
  {
    var id := "method-" + Decimal(count);
    assert Decimal(count) == [(count + '0' as int) as char];
    forall i | 0 <= i < |id| ensures GoodIdChar(id[i]) {
      if i < 7 { assert id[i] == "method-"[i]; }
    }
  }

  /** The first line of a trimmed text starts with a character that is not a space. */
  lemma FirstLine(text: Js)
    requires text != [] && !IsSpace(text[0])
    ensures var line := Split(text)[0]; line != [] && line[0] == text[0] && !Blank(line) && |line| <= |text| && text[..|line|] == line
  {
    SplitFirst(text);
    var line := Split(text)[0];
    TrimOf(line);
  }

  lemma {:induction false} SplitFirst(s: Js)
    ensures var line := Split(s)[0];
            && |line| <= |s| && s[..|line|] == line && (|line| < |s| ==> s[|line|] == NEWLINE)
            && (s != [] && s[0] != NEWLINE ==> line != [] && line[0] == s[0])
  {
    if s != [] && s[0] != NEWLINE {
      SplitFirst(s[1..]);
      var line := Split(s[1..])[0];
      assert Split(s)[0] == [s[0]] + line;
      assert s[..1 + |line|] == [s[0]] + s[1..][..|line|];
    }
  }

  /** The titles, details and quotes of a step all come out nonblank. */
  predicate TextClean(text: Js) { text != [] ==> !Lone(Split(text)[0]) }

  lemma LoneTextLoneLine(text: Js)
    requires text != [] && Trim(text) == text && Lone(text)
    ensures Lone(Split(text)[0])
  {
    TrimOf(text);
    FirstLine(text);
    var line := Split(text)[0];
    assert line == text;
  }

  lemma StepGood(q: Question, prefix: string, count: nat, text: Js)
    requires count < 10 && text != [] && Trim(text) == text
    requires "method" in q.fields && Includes(q.fields["method"], text)
    ensures GoodNode(q, prefix, StepNode(prefix, count, text)) <==> TextClean(text)
  {
    TrimOf(text);
    FirstLine(text);
    var node := StepNode(prefix, count, text);
    StepIdGood(count);
    assert KINDS[3] == "method" && NAMES[0] == "method";
    ExcerptGood(Split(text)[0], 100, 320);
    ExcerptGood(text, 400, 420);
    ExcerptGood(text, 2200, 2200);
    ExcerptOf(text, 2200);
    IncludesTransitive(q.fields["method"], text, Excerpt(text, 2200));
    assert node.sources[0].pointer[|prefix|..] == "method";
    if Lone(text) { LoneTextLoneLine(text); }
  }

  predicate GroupsClean(groups: seq<seq<Js>>) {
    groups != [] ==> GroupsClean(groups[..|groups| - 1]) && TextClean(GroupText(groups[|groups| - 1]))
  }

  ghost predicate GroupsIn(s: Js, groups: seq<seq<Js>>) {
    groups != [] ==> GroupsIn(s, groups[..|groups| - 1]) && Includes(s, GroupText(groups[|groups| - 1]))
  }

  lemma TrimTwice(s: Js)
    ensures Trim(Trim(s)) == Trim(s)
  {
    TrimOf(s);
    TrimOf(Trim(s));
  }

  lemma {:induction false} StepsGood(q: Question, prefix: string, groups: seq<seq<Js>>)
    requires |groups| <= 8 && "method" in q.fields && GroupsIn(q.fields["method"], groups)
    ensures AllGood(q, prefix, Steps(prefix, groups)) <==> GroupsClean(groups)
  {
    if groups != [] {
      var n := |groups| - 1;
      StepsGood(q, prefix, groups[..n]);
      StepsShape(prefix, groups[..n]);
      var before, text := Steps(prefix, groups[..n]), GroupText(groups[n]);
      TrimTwice(Join(groups[n]));
      if text != [] {
        StepGood(q, prefix, |before|, text);
        GoodStep(q, prefix, before, StepNode(prefix, |before|, text));
      }
    }
  }

  lemma {:induction false} GroupsAreIn(s: Js, width: nat, n: nat)
    requires width >= 1 && n <= |Groups(Split(s), width)|
    ensures GroupsIn(s, Groups(Split(s), width)[..n])
  {
    if n > 0 {
      GroupsAreIn(s, width, n - 1);
      GroupInText(s, width, n - 1);
      assert Groups(Split(s), width)[..n][..n - 1] == Groups(Split(s), width)[..n - 1];
    }
  }

  // ---------- the theorem ----------

  /** No text the guide shows is, or starts with a line that is, nothing but an unpaired high surrogate. */
  predicate TextsClean(q: Question)
    requires "method" in q.fields
  {
    FieldsClean(q, LABELS) && GroupsClean(MethodGroups(q))
  }

  lemma FlowAccepted(q: Question, prefix: string)
    requires HasText(q, "method")
    ensures GoodGraph(q, prefix, Graph(FlowNodes(q, prefix, LABELS), []), 12, 1) <==> FieldsClean(q, LABELS)
  {
    var nodes := FlowNodes(q, prefix, LABELS);
    LabelsDistinct();
    AllLabelsGood();
    FlowShape(q, prefix, LABELS);
    assert LABELS[1].field == "method";
    FlowGood(q, prefix, LABELS);
    AllGoodEach(q, prefix, nodes);
  }

  lemma LoopAccepted(q: Question, prefix: string)
    requires "method" in q.fields
    ensures GoodGraph(q, prefix, Graph(Steps(prefix, MethodGroups(q)), []), 8, 0) <==> GroupsClean(MethodGroups(q))
  {
    var s, groups := q.fields["method"], MethodGroups(q);
    var width := Width(|Split(s)|);
    AtMostEightGroups(Split(s));
    GroupsAreIn(s, width, |groups|);
    assert groups[..|groups|] == groups;
    StepsShape(prefix, groups);
    StepsDistinct(prefix, groups);
    StepsGood(q, prefix, groups);
    AllGoodEach(q, prefix, Steps(prefix, groups));
  }

  /**
   * For every plan that passes the generator's own checks, the guide it drafts is accepted by the
   * validator exactly when no null row precedes the chosen question and no text shown is a lone
   * surrogate.
   */
  lemma GeneratedGuideAccepted(binding: Binding, plan: Plan, context: Option<set<Js>>, ref: Option<Js>)
    requires Drafted(binding, plan, context, ref).Ok?
    ensures var index := QuestionIndexFrom(plan, context, ref, 0).value;
            Accepted(Drafted(binding, plan, context, ref).value, binding, plan) <==>
              NoNullBefore(plan, index) && TextsClean(plan[index].value)
  {
    IndexIsEligible(plan, context, ref, 0);
    var index := QuestionIndexFrom(plan, context, ref, 0).value;
    var q, prefix := plan[index].value, PointerPrefix(index);
    SameIndex(plan, context, ref, index, 0);
    FlowAccepted(q, prefix);
    LoopAccepted(q, prefix);
    assert NoNullBefore(plan, index) <==> forall j :: 0 <= j < index ==> plan[j].Some?;
  }

  /** The steps cover the method: contiguous groups of lines, at most eight, that give back every line in order. */
  lemma StepsCoverMethod(q: Question)
    requires "method" in q.fields
    ensures |MethodGroups(q)| <= 8 && Flatten(MethodGroups(q)) == Split(q.fields["method"])
    ensures Join(Flatten(MethodGroups(q))) == q.fields["method"]
  {
    var lines := Split(q.fields["method"]);
    AtMostEightGroups(lines);
    GroupsCover(lines, Width(|lines|));
    JoinSplit(q.fields["method"]);
  }

  // ---------- well-formed text is clean ----------

  /** Every high surrogate is followed by a low one. */
  predicate Paired(s: Js) { forall i :: 0 <= i < |s| && IsHigh(s[i]) ==> i + 1 < |s| && IsLow(s[i + 1]) }

  lemma PairedPart(a: Js, u: Unit, b: Js)
    requires Paired(a + [u] + b) && !IsLow(u)
    ensures Paired(a) && Paired(b)
  {
    var s := a + [u] + b;
    forall i | 0 <= i < |a| && IsHigh(a[i]) ensures i + 1 < |a| && IsLow(a[i + 1]) {
      assert s[i] == a[i] && s[|a|] == u && (i + 1 < |a| ==> s[i + 1] == a[i + 1]);
    }
    forall i | 0 <= i < |b| && IsHigh(b[i]) ensures i + 1 < |b| && IsLow(b[i + 1]) {
      assert s[|a| + 1 + i] == b[i] && (i + 1 < |b| ==> s[|a| + 2 + i] == b[i + 1]);
    }
  }

  lemma {:induction false} PairedTrim(s: Js)
    requires Paired(s)
    ensures Paired(Trim(s))
  {
    PairedTrimStart(s);
    PairedTrimEnd(TrimStart(s));
  }

  lemma {:induction false} PairedTrimStart(s: Js)
    requires Paired(s)
    ensures Paired(TrimStart(s))
  {
    if s != [] && IsSpace(s[0]) {
      assert s == [] + [s[0]] + s[1..];
      PairedPart([], s[0], s[1..]);
      PairedTrimStart(s[1..]);
    }
  }

  lemma {:induction false} PairedTrimEnd(s: Js)
    requires Paired(s)
    ensures Paired(TrimEnd(s))
  {
    if s != [] && IsSpace(s[|s| - 1]) {
      var n := |s| - 1;
      assert s == s[..n] + [s[n]] + [];
      PairedPart(s[..n], s[n], []);
      PairedTrimEnd(s[..n]);
    }
  }

  lemma PairedNotLone(s: Js)
    requires Paired(s)
    ensures !Lone(s)
  {
    PairedTrim(s);
  }

  lemma PairedFirstLine(text: Js)
    requires Paired(text)
    ensures Paired(Split(text)[0])
  {
    SplitFirst(text);
    var line := Split(text)[0];
    if |line| < |text| {
      assert text == line + [NEWLINE] + text[|line| + 1..];
      PairedPart(line, NEWLINE, text[|line| + 1..]);
    } else {
      assert line == text;
    }
  }

  lemma PairedGroup(s: Js, width: nat, i: nat)
    requires Paired(s) && width >= 1 && i < |Groups(Split(s), width)|
    ensures TextClean(GroupText(Groups(Split(s), width)[i]))
  {
    var lines := Split(s);
    var groups := Groups(lines, width);
    GroupsCover(lines, width);
    FlattenSplit(groups, i);
    var pre, post := Flatten(groups[..i]), Flatten(groups[i + 1..]);
    JoinAround(pre, groups[i], post);
    JoinSplit(s);
    var a := if pre == [] then [] else Join(pre) + [NEWLINE];
    var mid := Join(groups[i]);
    assert s == a + mid + if post == [] then [] else [NEWLINE] + Join(post);
    assert Paired(a + mid) by {
      if post == [] { assert s == a + mid; }
      else { assert s == (a + mid) + [NEWLINE] + Join(post); PairedPart(a + mid, NEWLINE, Join(post)); }
    }
    assert Paired(mid) by {
      if pre == [] { assert a + mid == mid; } else { assert a + mid == Join(pre) + [NEWLINE] + mid; PairedPart(Join(pre), NEWLINE, mid); }
    }
    PairedTrim(mid);
    PairedFirstLine(Trim(mid));
    PairedNotLone(Split(Trim(mid))[0]);
  }

  lemma {:induction false} PairedGroups(s: Js, width: nat, n: nat)
    requires Paired(s) && width >= 1 && n <= |Groups(Split(s), width)|
    ensures GroupsClean(Groups(Split(s), width)[..n])
  {
    if n > 0 {
      PairedGroups(s, width, n - 1);
      PairedGroup(s, width, n - 1);
      assert Groups(Split(s), width)[..n][..n - 1] == Groups(Split(s), width)[..n - 1];
    }
  }

  lemma {:induction false} PairedFields(q: Question, labels: seq<Shown>)
    requires forall f :: f in q.fields ==> Paired(q.fields[f])
    ensures FieldsClean(q, labels)
  {
    if labels != [] {
      PairedFields(q, labels[..|labels| - 1]);
      var f := labels[|labels| - 1].field;
      if f in q.fields { PairedNotLone(q.fields[f]); }
    }
  }

  /** Well-formed text is always clean, so only a null row can make a drafted guide unacceptable. */
  lemma WellFormedTextAccepted(binding: Binding, plan: Plan, context: Option<set<Js>>, ref: Option<Js>)
    requires Drafted(binding, plan, context, ref).Ok?
    requires forall i, f :: 0 <= i < |plan| && plan[i].Some? && f in plan[i].value.fields ==> Paired(plan[i].value.fields[f])
    ensures Accepted(Drafted(binding, plan, context, ref).value, binding, plan) <==>
              NoNullBefore(plan, QuestionIndexFrom(plan, context, ref, 0).value)
  {
    IndexIsEligible(plan, context, ref, 0);
    var q := plan[QuestionIndexFrom(plan, context, ref, 0).value].value;
    var s := q.fields["method"];
    PairedFields(q, LABELS);
    PairedGroups(s, Width(|Split(s)|), |MethodGroups(q)|);
    assert MethodGroups(q)[..|MethodGroups(q)|] == MethodGroups(q);
    GeneratedGuideAccepted(binding, plan, context, ref);
  }

  /** A plan whose first row is null: the generator skips it, the validator throws on it. */
  lemma NullRowIsRejected()
    ensures var binding := Binding("project", 1, "intent", "manifest", None);
            var plan := [None, Some(Question(Some(Literal("q")), map["method" := Literal("run")], []))];
            var draft := Drafted(binding, plan, None, None);
            draft.Ok? && !Accepted(draft.value, binding, plan)
  {
    var q, run := Literal("q"), Literal("run");
    var plan := [None, Some(Question(Some(q), map["method" := run], []))];
    assert q[0] == 'q' as int && run[0] == 'r' as int;
    TrimOf(q);
    TrimOf(run);
    assert !Eligible(plan[0], None, None) && Eligible(plan[1], None, None);
    assert QuestionIndexFrom(plan, None, None, 1) == Some(1);
  }

  lemma {:induction false} LoneFieldIsUnclean(q: Question, labels: seq<Shown>, i: nat)
    requires i < |labels| && !FieldClean(q, labels[i].field)
    ensures !FieldsClean(q, labels)
  {
    if i < |labels| - 1 { LoneFieldIsUnclean(q, labels[..|labels| - 1], i); }
  }

  /** A plan whose method is one lone high surrogate: drafted with an empty excerpt, and rejected. */
  lemma LoneSurrogateIsRejected()
    ensures var binding := Binding("project", 1, "intent", "manifest", None);
            var plan := [Some(Question(Some(Literal("q")), map["method" := [0xD800]], []))];
            var draft := Drafted(binding, plan, None, None);
            draft.Ok? && !Accepted(draft.value, binding, plan)
  {
    var binding := Binding("project", 1, "intent", "manifest", None);
    var q := Question(Some(Literal("q")), map["method" := [0xD800]], []);
    var plan := [Some(q)];
    assert Literal("q")[0] == 'q' as int;
    TrimOf(Literal("q"));
    assert Trim([0xD800]) == [0xD800];
    assert Eligible(plan[0], None, None) && QuestionIndexFrom(plan, None, None, 0) == Some(0);
    assert !FieldsClean(q, LABELS) by { LoneFieldIsUnclean(q, LABELS, 1); }
    GeneratedGuideAccepted(binding, plan, None, None);
  }
}
