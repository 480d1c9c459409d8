/**
 * What the mapper's grouping means, stated against an independent reference:
 * the keys are the source tokens in order of first appearance and each key's
 * list is the targets of that key's edges in arrival order.
 */
module MapperFacts {
  import opened Wrappers
  import opened PyText
  import opened Mapper

  /** The edges of classified lines, one per `Edge`, in input order. */
  function EdgesOf(ks: seq<LineKind>): (es: seq<(string, string)>)
    ensures |es| <= |ks|
  {
    if ks == [] then []
    else
      EdgesOf(ks[..|ks| - 1]) +
        match ks[|ks| - 1]
        case Edge(f, t) => [(f, t)]
        case _ => []
  }

  /** The edges of the input, one per edge line, in input order. */
  function Edges(lines: seq<string>): (es: seq<(string, string)>)
    ensures |es| <= |lines|
  {
    EdgesOf(Kinds(lines))
  }

  predicate NoneMalformed(ks: seq<LineKind>) {
    forall i :: 0 <= i < |ks| ==> !ks[i].Malformed?
  }

  predicate NoMalformed(lines: seq<string>) {
    forall i :: 0 <= i < |lines| ==> !Classify(lines[i]).Malformed?
  }

  lemma NoMalformedKinds(lines: seq<string>)
    ensures NoMalformed(lines) <==> NoneMalformed(Kinds(lines))
  {
    assert forall i :: 0 <= i < |lines| ==> Kinds(lines)[i] == Classify(lines[i]);
  }

  /** How many classified lines are not comments. */
  function CommentFree(ks: seq<LineKind>): nat
  {
    if ks == [] then 0
    else CommentFree(ks[..|ks| - 1]) + if ks[|ks| - 1].Comment? then 0 else 1
  }

  /** How many lines are not comments. */
  function NonCommentCount(lines: seq<string>): nat
  {
    if lines == [] then 0
    else NonCommentCount(lines[..|lines| - 1]) + if IsComment(lines[|lines| - 1]) then 0 else 1
  }

  /** Counting the non-comment lines is counting the non-comment classifications. */
  lemma {:induction false} NonCommentKinds(lines: seq<string>)
    ensures NonCommentCount(lines) == CommentFree(Kinds(lines))
  {
    if lines != [] {
      var last := |lines| - 1;
      NonCommentKinds(lines[..last]);
      KindsPrefix(lines, last);
      ClassifyMeaning(lines[last]);
      assert Kinds(lines)[last] == Classify(lines[last]);
    }
  }

  function Froms(es: seq<(string, string)>): (fs: seq<string>)
    ensures |fs| == |es| && forall i :: 0 <= i < |es| ==> fs[i] == es[i].0
  {
    seq(|es|, i requires 0 <= i < |es| => es[i].0)
  }

  /** The distinct elements of `s`, each where it first occurs. */
  function FirstAppearance(s: seq<string>): (r: seq<string>)
    ensures forall x :: x in r <==> x in s
    ensures forall i, j :: 0 <= i < j < |r| ==> r[i] != r[j]
  {
    if s == [] then []
    else
      var prev := FirstAppearance(s[..|s| - 1]);
      var x := s[|s| - 1];
      assert forall y :: y in s <==> y in s[..|s| - 1] || y == x;
      if x in prev then prev else prev + [x]
  }

  /** Where `x` first occurs in `s`. */
  function FirstIndex(s: seq<string>, x: string): (p: nat)
    requires x in s
    ensures p < |s| && s[p] == x && x !in s[..p]
  {
    if s[0] == x then 0
    else
      var p := 1 + FirstIndex(s[1..], x);
      assert s[..p] == [s[0]] + s[1..][..p - 1];
      p
  }

  /** A position holding `x` with no `x` before it is the first occurrence. */
  lemma FirstIndexUnique(s: seq<string>, x: string, p: nat)
    requires p < |s| && s[p] == x && x !in s[..p]
    ensures FirstIndex(s, x) == p
  {
  }

  /** The distinct elements are listed in the order of their first occurrences in `s`. */
  lemma {:induction false} FirstAppearanceOrder(s: seq<string>)
    ensures forall i, j :: 0 <= i < j < |FirstAppearance(s)| ==>
              FirstIndex(s, FirstAppearance(s)[i]) < FirstIndex(s, FirstAppearance(s)[j])
  {
    if s != [] {
      var init := s[..|s| - 1];
      var x := s[|s| - 1];
      FirstAppearanceOrder(init);
      var prev := FirstAppearance(init);
      forall y | y in init
        ensures FirstIndex(s, y) == FirstIndex(init, y)
      {
        var p := FirstIndex(init, y);
        assert s[..p] == init[..p];
        FirstIndexUnique(s, y, p);
      }
      if x !in prev {
        assert s[..|init|] == init;
        FirstIndexUnique(s, x, |init|);
        forall i | 0 <= i < |prev|
          ensures prev[i] in init && FirstIndex(s, prev[i]) < |init|
        {
        }
      }
    }
  }

  /** The targets of the edges whose source is `k`, in arrival order, duplicates kept. */
  function TargetsOf(es: seq<(string, string)>, k: string): seq<string>
  {
    if es == [] then []
    else
      var e := es[|es| - 1];
      TargetsOf(es[..|es| - 1], k) + if e.0 == k then [e.1] else []
  }

  /** The grouping defined directly from the edge list. */
  function Reference(es: seq<(string, string)>): Groups
  {
    var fs := Froms(es);
    Groups(FirstAppearance(fs), map k | k in fs :: TargetsOf(es, k))
  }

  /** Sum of the list lengths over the keys in `order`. */
  function TotalLength(order: seq<string>, targets: map<string, seq<string>>): nat
    requires forall k :: k in order ==> k in targets
  {
    if order == [] then 0
    else TotalLength(order[..|order| - 1], targets) + |targets[order[|order| - 1]]|
  }

  lemma {:induction false} TargetsOfAbsent(es: seq<(string, string)>, k: string)
    requires k !in Froms(es)
    ensures TargetsOf(es, k) == []
  {
    if es != [] {
      assert Froms(es[..|es| - 1]) == Froms(es)[..|es| - 1];
      TargetsOfAbsent(es[..|es| - 1], k);
    }
  }

  /** One more edge puts its source at the end of the source list. */
  lemma FromsSnoc(es: seq<(string, string)>, f: string, t: string)
    ensures Froms(es + [(f, t)]) == Froms(es) + [f]
  {
  }

  /** One more edge adds its target to its own source's list only. */
  lemma TargetsOfSnoc(es: seq<(string, string)>, f: string, t: string, k: string)
    ensures TargetsOf(es + [(f, t)], k) == TargetsOf(es, k) + if k == f then [t] else []
  {
    assert (es + [(f, t)])[..|es|] == es;
  }

  /** The reference grouping's key order after one more edge: the source is appended when it is new. */
  lemma ReferenceOrderStep(es: seq<(string, string)>, f: string, t: string)
    ensures Reference(es + [(f, t)]).order
         == if f in Froms(es) then Reference(es).order else Reference(es).order + [f]
  {
    FromsSnoc(es, f, t);
    assert (Froms(es) + [f])[..|es|] == Froms(es);
  }

  /** One key's list in the reference grouping after one more edge, compared with adding the edge. */
  lemma ReferenceTargetsAt(es: seq<(string, string)>, f: string, t: string, k: string)
    ensures var g, h := AddEdge(Reference(es), f, t).targets, Reference(es + [(f, t)]).targets;
      (k in g <==> k in h) && (k in h ==> g[k] == h[k])
  {
    FromsSnoc(es, f, t);
    TargetsOfSnoc(es, f, t, k);
    if k !in Froms(es) {
      TargetsOfAbsent(es, k);
    }
  }

  /** The reference grouping's lists after one more edge: the target joins its source's list, which is created when new. */
  lemma ReferenceTargetsStep(es: seq<(string, string)>, f: string, t: string)
    ensures AddEdge(Reference(es), f, t).targets == Reference(es + [(f, t)]).targets
  {
    var g, h := AddEdge(Reference(es), f, t).targets, Reference(es + [(f, t)]).targets;
    forall k ensures (k in g <==> k in h) && (k in h ==> g[k] == h[k]) {
      ReferenceTargetsAt(es, f, t, k);
    }
    MapsAgree(g, h);
  }

  /** Two maps with the same keys and the same value at each key are equal. */
  lemma MapsAgree(a: map<string, seq<string>>, b: map<string, seq<string>>)
    requires forall k :: (k in a <==> k in b) && (k in b ==> a[k] == b[k])
    ensures a == b
  {
    assert a.Keys == b.Keys;
  }

  /** Adding an edge to the reference grouping of a list is the reference grouping of the longer list. */
  lemma ReferenceStep(es: seq<(string, string)>, f: string, t: string)
    ensures AddEdge(Reference(es), f, t) == Reference(es + [(f, t)])
  {
    ReferenceOrderStep(es, f, t);
    ReferenceTargetsStep(es, f, t);
  }

  /**
   * Grouping classified lines succeeds exactly when none is malformed, and
   * then it is the reference grouping of their edges.
   */
  lemma {:induction false} GroupIsReference(ks: seq<LineKind>)
    ensures Group(ks).Ok? <==> NoneMalformed(ks)
    ensures NoneMalformed(ks) ==> Group(ks) == Ok(Reference(EdgesOf(ks)))
  {
    if ks == [] {
      assert Reference([]).targets == map[];
    } else {
      var init, k := ks[..|ks| - 1], ks[|ks| - 1];
      assert init + [k] == ks;
      GroupIsReference(init);
      NoneMalformedSnoc(init, k);
      GroupSnoc(init, k);
      if NoneMalformed(init) && !k.Malformed? {
        ReferenceSnoc(init, k);
      }
    }
  }

  lemma NoneMalformedSnoc(init: seq<LineKind>, k: LineKind)
    ensures NoneMalformed(init + [k]) <==> NoneMalformed(init) && !k.Malformed?
  {
    assert forall i :: 0 <= i < |init| ==> (init + [k])[i] == init[i];
    assert (init + [k])[|init|] == k;
  }

  /** One more classified line adds its edge, if it is one. */
  lemma EdgesSnoc(ks: seq<LineKind>, k: LineKind)
    ensures EdgesOf(ks + [k]) == if k.Edge? then EdgesOf(ks) + [(k.from, k.to)] else EdgesOf(ks)
  {
    assert (ks + [k])[..|ks|] == ks;
    assert EdgesOf(ks) + [] == EdgesOf(ks);
  }

  /** One more edge keeps the grouping equal to the reference grouping. */
  lemma ReferenceSnocEdge(init: seq<LineKind>, f: string, t: string)
    requires Group(init) == Ok(Reference(EdgesOf(init)))
    ensures Group(init + [Edge(f, t)]) == Ok(Reference(EdgesOf(init + [Edge(f, t)])))
  {
    GroupSnoc(init, Edge(f, t));
    EdgesSnoc(init, Edge(f, t));
    ReferenceStep(EdgesOf(init), f, t);
  }

  /** One more comment keeps the grouping and the edges as they were. */
  lemma ReferenceSnocComment(init: seq<LineKind>)
    requires Group(init) == Ok(Reference(EdgesOf(init)))
    ensures Group(init + [Comment]) == Ok(Reference(EdgesOf(init + [Comment])))
  {
    GroupSnoc(init, Comment);
    EdgesSnoc(init, Comment);
  }

  /** One more comment or edge keeps the grouping equal to the reference grouping. */
  lemma ReferenceSnoc(init: seq<LineKind>, k: LineKind)
    requires !k.Malformed?
    requires Group(init) == Ok(Reference(EdgesOf(init)))
    ensures Group(init + [k]) == Ok(Reference(EdgesOf(init + [k])))
  {
    match k
    case Edge(f, t) => ReferenceSnocEdge(init, f, t);
    case Comment => ReferenceSnocComment(init);
  }

  /**
   * The grouping succeeds exactly when no line is malformed, and then it is
   * the reference grouping of the input's edges.
   */
  lemma GroupLinesIsReference(lines: seq<string>)
    ensures GroupLines(lines).Ok? <==> NoMalformed(lines)
    ensures NoMalformed(lines) ==> GroupLines(lines) == Ok(Reference(Edges(lines)))
  {
    NoMalformedKinds(lines);
    GroupIsReference(Kinds(lines));
  }

  /** A failure of classified lines names the first malformed one. */
  lemma {:induction false} GroupErrorIsFirst(ks: seq<LineKind>, i: nat, n: nat)
    requires Group(ks) == Err(FieldCount(i, n))
    ensures i < |ks| && ks[i] == Malformed(n)
    ensures NoneMalformed(ks[..i])
  {
    var last := |ks| - 1;
    var init := ks[..last];
    if Group(init).Err? {
      GroupErrorIsFirst(init, i, n);
      assert ks[..i] == init[..i];
    } else {
      GroupIsReference(init);
      assert ks[..i] == init;
    }
  }

  /** A failure names the first malformed line and its field count. */
  lemma ErrorIsFirstMalformed(lines: seq<string>, i: nat, n: nat)
    requires GroupLines(lines) == Err(FieldCount(i, n))
    ensures i < |lines| && Classify(lines[i]) == Malformed(n)
    ensures NoMalformed(lines[..i])
  {
    GroupErrorIsFirst(Kinds(lines), i, n);
    KindsPrefix(lines, i);
    NoMalformedKinds(lines[..i]);
    assert Kinds(lines)[i] == Classify(lines[i]);
  }

  lemma {:induction false} TotalLengthUnrelated(order: seq<string>, targets: map<string, seq<string>>, k: string, v: seq<string>)
    requires forall x :: x in order ==> x in targets
    requires k !in order
    ensures TotalLength(order, targets[k := v]) == TotalLength(order, targets)
  {
    if order != [] {
      TotalLengthUnrelated(order[..|order| - 1], targets, k, v);
    }
  }

  lemma {:induction false} TotalLengthGrow(order: seq<string>, targets: map<string, seq<string>>, k: string, t: string)
    requires forall x :: x in order ==> x in targets
    requires forall i, j :: 0 <= i < j < |order| ==> order[i] != order[j]
    requires k in order
    ensures TotalLength(order, targets[k := targets[k] + [t]]) == TotalLength(order, targets) + 1
  {
    var last := |order| - 1;
    var init := order[..last];
    if order[last] == k {
      assert k !in init by {
        forall i | 0 <= i < last ensures init[i] != k { assert order[i] != order[last]; }
      }
      TotalLengthUnrelated(init, targets, k, targets[k] + [t]);
    } else {
      assert k in init;
      TotalLengthGrow(init, targets, k, t);
    }
  }

  /** Every `Edge` adds exactly one target, so the targets number the classified lines that are not comments. */
  lemma {:induction false} GroupTotal(ks: seq<LineKind>)
    requires Group(ks).Ok?
    ensures TotalLength(Group(ks).value.order, Group(ks).value.targets) == CommentFree(ks)
  {
    if ks != [] {
      var last := |ks| - 1;
      var init := ks[..last];
      GroupTotal(init);
      var g := Group(init).value;
      match ks[last]
      case Comment =>
      case Edge(f, t) =>
        if f in g.targets {
          TotalLengthGrow(g.order, g.targets, f, t);
        } else {
          TotalLengthUnrelated(g.order, g.targets, f, [t]);
          assert (g.order + [f])[..|g.order|] == g.order;
        }
      case Malformed(_) =>
    }
  }

  /** Every edge line adds exactly one target, so the targets number the non-comment lines. */
  lemma TotalTargets(lines: seq<string>)
    requires GroupLines(lines).Ok?
    ensures TotalLength(GroupLines(lines).value.order, GroupLines(lines).value.targets) == NonCommentCount(lines)
  {
    GroupTotal(Kinds(lines));
    NonCommentKinds(lines);
  }

  /**
   * The printed output: one line per distinct source token in order of first
   * appearance, each followed by that token's targets in arrival order.
   */
  lemma MapperOutputMeaning(lines: seq<string>)
    requires NoMalformed(lines)
    ensures var keys := FirstAppearance(Froms(Edges(lines)));
            && MapperOutput(lines).Ok?
            && |MapperOutput(lines).value| == |keys|
            && forall i :: 0 <= i < |keys| ==>
                 MapperOutput(lines).value[i] == FormatLine(keys[i], TargetsOf(Edges(lines), keys[i]))
  {
    GroupLinesIsReference(lines);
    var es := Edges(lines);
    var g := Reference(es);
    forall i | 0 <= i < |g.order| ensures g.order[i] in Froms(es) && g.targets[g.order[i]] == TargetsOf(es, g.order[i]) {
      assert g.order[i] in g.order;
    }
  }

  /** An empty line has one (empty) tab field. */
  lemma ClassifyBlank()
    ensures Classify("") == Malformed(1)
  {
    assert Strip("") == [];
    assert Split("", '\t') == [""];
  }

  /** A blank line has one field, not two, and stops the run. */
  lemma BlankLineFails(lines: seq<string>)
    requires NoMalformed(lines)
    ensures GroupLines(lines + [""]) == Err(FieldCount(|lines|, 1))
  {
    GroupLinesIsReference(lines);
    KindsSnoc(lines, "");
    ClassifyBlank();
    GroupSnoc(Kinds(lines), Malformed(1));
  }

  /**
   * One more edge line `f<TAB>t`: a source text not yet a key becomes a new
   * last key with the one-element list `[t]`; a known one gets `t` appended.
   * Keys are compared as text, never as numbers, so `01` after `1` is a new key.
   */
  lemma EdgeLineExtends(lines: seq<string>, f: string, t: string)
    requires EdgeTokens(f, t)
    requires GroupLines(lines).Ok?
    ensures var g := GroupLines(lines).value;
            var r := GroupLines(lines + [f + "\t" + t]);
            && r.Ok?
            && (f !in g.targets ==> r.value.order == g.order + [f] && r.value.targets == g.targets[f := [t]])
            && (f in g.targets ==> r.value.order == g.order && r.value.targets == g.targets[f := g.targets[f] + [t]])
  {
    KindsSnoc(lines, f + "\t" + t);
    ClassifyEdgeLine(f, t);
    GroupSnoc(Kinds(lines), Edge(f, t));
  }

  /**
   * Two tab-free tokens joined by one tab form an edge line, when the text
   * neither starts with whitespace or `#` nor ends with whitespace.
   */
  predicate EdgeTokens(f: string, t: string) {
    && f != [] && t != []
    && !IsSpace(f[0]) && f[0] != '#' && !IsSpace(t[|t| - 1])
    && '\t' !in f && '\t' !in t
  }

  lemma ClassifyEdgeLine(f: string, t: string)
    requires EdgeTokens(f, t)
    ensures Classify(f + "\t" + t) == Edge(f, t)
  {
    var line := f + "\t" + t;
    assert line == f + ['\t'] + t;
    assert line[0] == f[0] && line[|line| - 1] == t[|t| - 1];
    TrimFixed(line, Whitespace);
    SplitPrefix(f, t, '\t');
    SplitNoSeparator(t, '\t');
  }
}
