/** The loops of the guide generator and validator, proved against the definitions. */
module ReadingGuideLoops {
  import opened Prelude
  import opened ReadingGuide
  import opened ReadingGuideTheorems

  lemma GroupsNext(lines: seq<Js>, width: nat, offset: nat, done: seq<seq<Js>>)
    requires width >= 1 && offset < |lines| && done + Groups(lines[offset..], width) == Groups(lines, width)
    ensures var end := Min(offset + width, |lines|);
            done + [lines[offset..end]] + Groups(lines[end..], width) == Groups(lines, width)
  {
    var rest, end := lines[offset..], Min(offset + width, |lines|);
    assert rest[..Min(width, |rest|)] == lines[offset..end] && rest[Min(width, |rest|)..] == lines[end..];
  }

  lemma StepsNext(prefix: string, done: seq<seq<Js>>, group: seq<Js>)
    ensures var before, text := Steps(prefix, done), GroupText(group);
            Steps(prefix, done + [group]) == if text == [] then before else before + [StepNode(prefix, |before|, text)]
  {
    assert (done + [group])[..|done|] == done;
  }

  /** Pushes one step per nonblank group of lines. */
  method BuildSteps(prefix: string, text: Js) returns (steps: seq<Node>)
    ensures steps == Steps(prefix, Groups(Split(text), Width(|Split(text)|)))
  {
    var lines := Split(text);
    var width := Width(|lines|);
    steps := [];
    var offset := 0;
    ghost var done: seq<seq<Js>> := [];
    assert lines[0..] == lines;
    while offset < |lines|
      invariant 0 <= offset <= |lines| && steps == Steps(prefix, done)
      invariant done + Groups(lines[offset..], width) == Groups(lines, width)
      decreases |lines| - offset
    {
      var end := Min(offset + width, |lines|);
      var body := Trim(Join(lines[offset..end]));
      GroupsNext(lines, width, offset, done);
      StepsNext(prefix, done, lines[offset..end]);
      if body != [] { steps := steps + [StepNode(prefix, |steps|, body)]; }
      done := done + [lines[offset..end]];
      offset := end;
    }
    assert done + [] == done;
  }

  /** Collects node identifiers in a set and stops at a repetition. */
  method UniqueNodes(nodes: seq<Node>) returns (ok: bool)
    ensures ok <==> DistinctIds(nodes)
  {
    var ids: set<string> := {};
    for i := 0 to |nodes|
      invariant forall x :: x in ids <==> exists j :: 0 <= j < i && nodes[j].id == x
      invariant DistinctIds(nodes[..i])
    {
      if nodes[i].id in ids {
        var j :| 0 <= j < i && nodes[j].id == nodes[i].id;
        return false;
      }
      ids := ids + {nodes[i].id};
      assert forall j :: 0 <= j < i ==> nodes[..i][j] == nodes[j];
    }
    assert nodes[..|nodes|] == nodes;
    ok := true;
  }

  /** The key under which the validator remembers an edge. */
  function EdgeKey(e: Edge): string { e.from + "/" + e.to }

  /** Identifiers hold no slash, so the key tells the two ends apart. */
  lemma EdgeKeyInjective(a: Edge, b: Edge)
    requires GoodId(a.from) && GoodId(b.from) && EdgeKey(a) == EdgeKey(b)
    ensures a.from == b.from && a.to == b.to
  {
    var k := EdgeKey(a);
    assert k[|a.from|] == '/' && k[|b.from|] == '/';
    assert a.from == k[..|a.from|] && b.from == k[..|b.from|];
    assert a.to == k[|a.from| + 1..] && b.to == k[|b.from| + 1..];
  }

  ghost predicate DistinctEdges(edges: seq<Edge>) {
    forall i, j :: 0 <= i < j < |edges| ==> (edges[i].from, edges[i].to) != (edges[j].from, edges[j].to)
  }

  /** Collects edge keys in a set and stops at a repetition. */
  method UniqueEdges(edges: seq<Edge>) returns (ok: bool)
    requires forall i :: 0 <= i < |edges| ==> GoodId(edges[i].from)
    ensures ok <==> DistinctEdges(edges)
  {
    var pairs: set<string> := {};
    for i := 0 to |edges|
      invariant forall x :: x in pairs <==> exists j :: 0 <= j < i && EdgeKey(edges[j]) == x
      invariant DistinctEdges(edges[..i])
    {
      if EdgeKey(edges[i]) in pairs {
        var j :| 0 <= j < i && EdgeKey(edges[j]) == EdgeKey(edges[i]);
        EdgeKeyInjective(edges[j], edges[i]);
        return false;
      }
      assert forall j :: 0 <= j < i ==> edges[..i][j] == edges[j] && EdgeKey(edges[j]) != EdgeKey(edges[i]);
      pairs := pairs + {EdgeKey(edges[i])};
    }
    assert edges[..|edges|] == edges;
    ok := true;
  }
}
