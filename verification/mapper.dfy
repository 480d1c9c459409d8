/**
 * The mapper script: reads `from<TAB>to` edge lines, skips `#` comments,
 * groups the targets under their source token (first-appearance key order,
 * arrival order of targets, duplicates kept) and prints one line per key,
 * `key [t1, t2, ...]`.  Tokens stay strings throughout.
 */
module Mapper {
  import opened Wrappers
  import opened PyText

  /** Unpacking a line's tab-separated fields into two names failed: line `index` (from 0) had `fields` fields. */
  datatype LineError = FieldCount(index: nat, fields: nat)

  /** What one input line is to the mapper, after `strip()`. */
  datatype LineKind = Comment | Edge(from: string, to: string) | Malformed(fields: nat)

  /** An ordered grouping: the keys in insertion order and each key's targets. */
  datatype Groups = Groups(order: seq<string>, targets: map<string, seq<string>>)

  predicate IsComment(line: string) {
    var s := Strip(line);
    s != [] && s[0] == '#'
  }

  function Classify(line: string): LineKind
  {
    var s := Strip(line);
    if s != [] && s[0] == '#' then Comment
    else
      var fields := Split(s, '\t');
      if |fields| == 2 then Edge(fields[0], fields[1]) else Malformed(|fields|)
  }

  /**
   * After stripping, a line starting with `#` is a comment; any other line is
   * an edge exactly when it splits on tab into two fields, and then the two
   * fields are the text before and after its only tab.
   */
  lemma ClassifyMeaning(line: string)
    ensures Classify(line).Comment? <==> IsComment(line)
    ensures Classify(line).Edge? <==> !IsComment(line) && |Split(Strip(line), '\t')| == 2
    ensures Classify(line).Edge? ==>
              var k := Classify(line);
              Strip(line) == k.from + "\t" + k.to && '\t' !in k.from && '\t' !in k.to
    ensures Classify(line).Malformed? ==> Classify(line).fields != 2
  {
    var fields := Split(Strip(line), '\t');
    if !IsComment(line) && |fields| == 2 {
      assert Join(fields[1..], "\t") == fields[1];
    }
  }

  /** The dictionary invariant: keys listed once each, in `order`, every list non-empty. */
  ghost predicate WellFormed(g: Groups) {
    && (forall i, j :: 0 <= i < j < |g.order| ==> g.order[i] != g.order[j])
    && (forall k :: k in g.targets <==> k in g.order)
    && (forall k :: k in g.targets ==> g.targets[k] != [])
  }

  /** One edge: a new key gets a one-element list, a known key has the target appended. */
  function AddEdge(g: Groups, from: string, to: string): Groups
  {
    if from !in g.targets then Groups(g.order + [from], g.targets[from := [to]])
    else Groups(g.order, g.targets[from := g.targets[from] + [to]])
  }

  lemma AddEdgeWellFormed(g: Groups, from: string, to: string)
    requires WellFormed(g)
    ensures WellFormed(AddEdge(g, from, to))
  {
    var h := AddEdge(g, from, to);
    if from !in g.targets {
      assert from !in g.order;
      forall i, j | 0 <= i < j < |h.order| ensures h.order[i] != h.order[j] {
        if j == |g.order| {
          assert h.order[i] == g.order[i];
        }
      }
    }
  }

  /** Each input line classified, in input order. */
  function Kinds(lines: seq<string>): (ks: seq<LineKind>)
    ensures |ks| == |lines|
  {
    seq(|lines|, i requires 0 <= i < |lines| => Classify(lines[i]))
  }

  /** Classifying a prefix of the input gives the prefix of the classification. */
  lemma KindsPrefix(lines: seq<string>, k: nat)
    requires k <= |lines|
    ensures Kinds(lines[..k]) == Kinds(lines)[..k]
  {
  }

  /** The grouping loop over classified lines, stopping at the first malformed one. */
  function Group(ks: seq<LineKind>): (r: Result<Groups, LineError>)
    ensures r.Ok? ==> WellFormed(r.value)
    ensures r.Err? ==> r.error.index < |ks|
  {
    if ks == [] then Ok(Groups([], map[]))
    else
      var last := |ks| - 1;
      match Group(ks[..last])
      case Err(e) => Err(e)
      case Ok(g) =>
        match ks[last]
        case Comment => Ok(g)
        case Edge(f, t) =>
          AddEdgeWellFormed(g, f, t);
          Ok(AddEdge(g, f, t))
        case Malformed(n) => Err(FieldCount(last, n))
  }

  /** The grouping loop over the input lines. */
  function GroupLines(lines: seq<string>): (r: Result<Groups, LineError>)
    ensures r.Ok? ==> WellFormed(r.value)
    ensures r.Err? ==> r.error.index < |lines|
  {
    Group(Kinds(lines))
  }

  /** Once a prefix has failed, the whole sequence fails with the same error. */
  lemma {:induction false} GroupErrorPersists(ks: seq<LineKind>, k: nat)
    requires k <= |ks|
    requires Group(ks[..k]).Err?
    ensures Group(ks) == Group(ks[..k])
    decreases |ks|
  {
    if k < |ks| {
      var last := |ks| - 1;
      assert ks[..last][..k] == ks[..k];
      GroupErrorPersists(ks[..last], k);
    } else {
      assert ks[..k] == ks;
    }
  }

  /** Once a prefix of the input has failed, the whole input fails with the same error. */
  lemma ErrorPersists(lines: seq<string>, k: nat)
    requires k <= |lines|
    requires GroupLines(lines[..k]).Err?
    ensures GroupLines(lines) == GroupLines(lines[..k])
  {
    KindsPrefix(lines, k);
    GroupErrorPersists(Kinds(lines), k);
  }

  /** The loop body's effect on the grouping of the classified lines read so far. */
  lemma GroupStep(ks: seq<LineKind>, i: nat, g: Groups)
    requires i < |ks|
    requires Group(ks[..i]) == Ok(g)
    ensures Group(ks[..i + 1]) ==
      match ks[i]
      case Comment => Ok(g)
      case Edge(f, t) => Ok(AddEdge(g, f, t))
      case Malformed(n) => Err(FieldCount(i, n))
  {
    assert ks[..i + 1][..i] == ks[..i];
  }

  /** Classifying one more line appends its kind. */
  lemma KindsSnoc(lines: seq<string>, line: string)
    ensures Kinds(lines + [line]) == Kinds(lines) + [Classify(line)]
  {
    var all := lines + [line];
    assert forall i :: 0 <= i < |lines| ==> all[i] == lines[i];
  }

  /** One more classified line: an error stays, a comment changes nothing, an edge is added, a malformed line fails. */
  lemma GroupSnoc(ks: seq<LineKind>, k: LineKind)
    ensures Group(ks + [k]) ==
      match Group(ks)
      case Err(e) => Err(e)
      case Ok(g) =>
        match k
        case Comment => Ok(g)
        case Edge(f, t) => Ok(AddEdge(g, f, t))
        case Malformed(n) => Err(FieldCount(|ks|, n))
  {
    assert (ks + [k])[..|ks|] == ks;
  }

  /** The loop body's effect on the grouping of the lines read so far. */
  lemma GroupLinesStep(lines: seq<string>, i: nat, g: Groups)
    requires i < |lines|
    requires GroupLines(lines[..i]) == Ok(g)
    ensures GroupLines(lines[..i + 1]) ==
      match Classify(lines[i])
      case Comment => Ok(g)
      case Edge(f, t) => Ok(AddEdge(g, f, t))
      case Malformed(n) => Err(FieldCount(i, n))
  {
    KindsPrefix(lines, i);
    KindsPrefix(lines, i + 1);
    GroupStep(Kinds(lines), i, g);
  }

  /** One printed line: the key as text, a space, then the target list's repr with single quotes removed. */
  function FormatLine(key: string, ts: seq<string>): (r: string)
    ensures |r| >= |key| + 3
    ensures r[..|key| + 2] == key + " ["
    ensures r[|r| - 1] == ']'
    ensures '\'' !in r[|key|..]
  {
    var body := Join(seq(|ts|, i requires 0 <= i < |ts| => Repr(ts[i])), ", ");
    BracketedUnquoted(body);
    var value := RemoveChar("[" + body + "]", '\'');
    assert (key + " " + value)[|key|..] == " " + value;
    key + " " + value
  }

  /** Removing the quotes from a bracketed text keeps the brackets. */
  lemma BracketedUnquoted(body: string)
    ensures RemoveChar("[" + body + "]", '\'') == "[" + RemoveChar(body, '\'') + "]"
  {
    assert "[" + body + "]" == "[" + (body + "]");
    RemoveCharAppend("[", body + "]", '\'');
    RemoveCharAbsent("[", '\'');
    RemoveCharAbsent("]", '\'');
    RemoveCharAppend(body, "]", '\'');
  }

  /** Everything the mapper prints, one line per key in insertion order. */
  function Output(g: Groups): (out: seq<string>)
    requires forall k :: k in g.order ==> k in g.targets
  {
    seq(|g.order|, i requires 0 <= i < |g.order| => FormatLine(g.order[i], g.targets[g.order[i]]))
  }

  /** The whole script: its output lines, or the error of the first malformed line. */
  function MapperOutput(lines: seq<string>): Result<seq<string>, LineError>
  {
    match GroupLines(lines)
    case Ok(g) => Ok(Output(g))
    case Err(e) => Err(e)
  }

  /** The `graph` dictionary of the script, updated in place. */
  class EdgeGrouper {
    var order: seq<string>
    var targets: map<string, seq<string>>

    ghost predicate Valid()
      reads this
    {
      WellFormed(Groups(order, targets))
    }

    function Snapshot(): Groups
      reads this
    {
      Groups(order, targets)
    }

    constructor ()
      ensures Valid() && order == [] && targets == map[]
    {
      order := [];
      targets := map[];
    }

    /** Records one edge: a new source becomes a key with a one-target list, a known one gets the target appended. */
    method Add(from: string, to: string)
      requires Valid()
      modifies this
      ensures Valid()
      ensures from !in old(targets) ==> order == old(order) + [from] && targets == old(targets)[from := [to]]
      ensures from in old(targets) ==> order == old(order) && targets == old(targets)[from := old(targets)[from] + [to]]
    {
      if from !in targets {
        targets := targets[from := [to]];
        order := order + [from];
      } else {
        targets := targets[from := targets[from] + [to]];
      }
    }

    /** The printing loop: one formatted line per key, in insertion order. */
    method Emit() returns (out: seq<string>)
      requires Valid()
      ensures |out| == |order|
      ensures forall i :: 0 <= i < |order| ==> out[i] == FormatLine(order[i], targets[order[i]])
    {
      out := [];
      var i := 0;
      while i < |order|
        invariant 0 <= i <= |order|
        invariant |out| == i
        invariant forall j :: 0 <= j < i ==> out[j] == FormatLine(order[j], targets[order[j]])
      {
        var key := order[i];
        out := out + [FormatLine(key, targets[key])];
        i := i + 1;
      }
    }
  }

  /** The script's two loops: group every line into the dictionary, then print it. */
  method RunMapper(lines: seq<string>) returns (r: Result<seq<string>, LineError>)
    ensures r == MapperOutput(lines)
  {
    var graph := new EdgeGrouper();
    var i := 0;
    while i < |lines|
      invariant 0 <= i <= |lines|
      invariant graph.Valid()
      invariant GroupLines(lines[..i]) == Ok(graph.Snapshot())
    {
      ghost var before := graph.Snapshot();
      GroupLinesStep(lines, i, before);
      match Classify(lines[i]) {
        case Comment =>
        case Edge(f, t) =>
          graph.Add(f, t);
          assert graph.Snapshot() == AddEdge(before, f, t);
        case Malformed(n) =>
          ErrorPersists(lines, i + 1);
          return Err(FieldCount(i, n));
      }
      i := i + 1;
    }
    assert lines[..i] == lines;
    var out := graph.Emit();
    assert out == Output(graph.Snapshot());
    return Ok(out);
  }
}
