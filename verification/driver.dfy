/**
 * The reducer's driver: each input line `id [a, b, ...]` is parsed into an
 * id and its successor list and stored in a dictionary, a later line for the
 * same id replacing the earlier one; the final scores are listed as
 * `(score, node)` pairs in descending order.
 */
module Driver {
  import opened Wrappers
  import opened PyText

  /** Why `int()` or the tuple unpacking of a line raises. */
  datatype ParseError =
    | NoSpace                              // `key, value = line.split(" ", 1)` with one part
    | BadId(key: string)                   // `int(key)` rejects the key
    | BadTarget(index: nat, text: string)  // `int(x)` rejects the field at `index`

  /** What one line gives: an id with its successor list, or the reason it raises. */
  type Parsed = Result<(int, seq<int>), ParseError>

  /** The first failing line and why it failed. */
  datatype LineFailure = LineFailure(line: nat, error: ParseError)

  /** The values `int()` gives the fields, in order, or the index of the first field it rejects. */
  function FirstFailure(vals: seq<Option<int>>): (r: Result<seq<int>, nat>)
    ensures r.Ok? ==> |r.value| == |vals| && forall i :: 0 <= i < |vals| ==> vals[i] == Some(r.value[i])
    ensures r.Err? ==> r.error < |vals| && vals[r.error].None? && forall j :: 0 <= j < r.error ==> vals[j].Some?
  {
    if vals == [] then Ok([])
    else
      match vals[0]
      case None => Err(0)
      case Some(v) =>
        match FirstFailure(vals[1..])
        case Err(i) => Err(i + 1)
        case Ok(vs) => Ok([v] + vs)
  }

  /** When `int()` accepts every field, the list holds exactly the values it gives. */
  lemma {:induction false} FirstFailureOk(vals: seq<Option<int>>, vs: seq<int>)
    requires |vals| == |vs| && forall i :: 0 <= i < |vals| ==> vals[i] == Some(vs[i])
    ensures FirstFailure(vals) == Ok(vs)
  {
    if vals != [] {
      FirstFailureOk(vals[1..], vs[1..]);
      assert vs == [vs[0]] + vs[1..];
    }
  }

  /** `int(x)` for each field. */
  function Ints(fields: seq<string>): (vals: seq<Option<int>>)
    ensures |vals| == |fields|
  {
    seq(|fields|, i requires 0 <= i < |fields| => ParseInt(fields[i]))
  }

  /** The fields of a list text: brackets stripped from both ends, then cut at every comma. */
  function ListFields(value: string): seq<string>
  {
    Split(StripBrackets(value), ',')
  }

  /** The successor list of a list text: every field's value, or the first field `int()` rejects. */
  function ParseList(value: string): (r: Result<seq<int>, ParseError>)
    ensures r.Ok? ==> |r.value| == |ListFields(value)| >= 1
    ensures r.Ok? ==> forall i :: 0 <= i < |r.value| ==> Ints(ListFields(value))[i] == Some(r.value[i])
    ensures r.Err? ==> r.error.BadTarget? && r.error.index < |ListFields(value)|
                       && r.error.text == ListFields(value)[r.error.index] && ParseInt(r.error.text).None?
    ensures r.Err? ==> forall j :: 0 <= j < r.error.index ==> Ints(ListFields(value))[j].Some?
  {
    var fields := ListFields(value);
    match FirstFailure(Ints(fields))
    case Err(i) => Err(BadTarget(i, fields[i]))
    case Ok(vs) => Ok(vs)
  }

  /**
   * One input line: stripped, cut at its first space into the id and the
   * list text. The assignment evaluates the list before the id, so a bad
   * field is reported even when the id is bad too.
   */
  function ParseLine(line: string): (r: Parsed)
    ensures r == Err(NoSpace) <==> ' ' !in Strip(line)
    ensures r.Ok? ==> |r.value.1| >= 1
    ensures r.Err? && r.error.BadTarget? ==> ParseInt(r.error.text).None?
    ensures r.Err? && r.error.BadId? ==>
              var parts := SplitOnce(Strip(line), ' ');
              |parts| == 2 && r.error.key == parts[0] && ParseInt(parts[0]).None? && ParseList(parts[1]).Ok?
    ensures r.Ok? ==>
              var parts := SplitOnce(Strip(line), ' ');
              |parts| == 2 && ParseInt(parts[0]) == Some(r.value.0) && ParseList(parts[1]) == Ok(r.value.1)
  {
    var parts := SplitOnce(Strip(line), ' ');
    if |parts| == 1 then Err(NoSpace)
    else
      match ParseList(parts[1])
      case Err(e) => Err(e)
      case Ok(vs) =>
        match ParseInt(parts[0])
        case None => Err(BadId(parts[0]))
        case Some(id) => Ok((id, vs))
  }

  /** `split(sep, 1)` cuts at the first separator. */
  lemma {:induction false} SplitOnceAt(p: string, rest: string, sep: char)
    requires sep !in p
    ensures SplitOnce(p + [sep] + rest, sep) == [p, rest]
  {
    var s := p + [sep] + rest;
    if p == [] {
      assert s[1..] == rest;
    } else {
      assert s[1..] == p[1..] + [sep] + rest;
      SplitOnceAt(p[1..], rest, sep);
      assert [p[0]] + p[1..] == p;
    }
  }

  /** Digits and whitespace-free text is its own `strip()`. */
  lemma StripDigits(t: string)
    requires t != [] && AllDigits(t)
    ensures Strip(t) == t
  {
    TrimFixed(t, Whitespace);
  }

  /** `"[]".strip("[]")` is empty, and so is its only comma field. */
  lemma EmptyBrackets()
    ensures Split(StripBrackets("[]"), ',') == [""]
  {
    assert "[]"[1..] == "]";
    assert "]"[1..] == "";
    assert TrimLeft("[]", Brackets) == "";
    assert StripBrackets("[]") == "";
    SplitNoSeparator("", ',');
  }

  /** `key + " []"` for a digit key: its own `strip()`, cut at the space into the key and `"[]"`. */
  lemma EmptyListLine(key: string)
    requires key != [] && AllDigits(key)
    ensures Strip(key + " []") == key + " []"
    ensures SplitOnce(key + " []", ' ') == [key, "[]"]
  {
    var line := key + " []";
    assert line[0] == key[0] && line[|line| - 1] == ']';
    TrimFixed(line, Whitespace);
    assert ' ' !in key;
    assert line == key + [' '] + "[]";
    SplitOnceAt(key, "[]", ' ');
  }

  /** An id followed by an empty list is rejected: `int("")` raises on the single empty field. */
  lemma EmptyListRejected(key: string)
    requires key != [] && AllDigits(key)
    ensures ParseLine(key + " []") == Err(BadTarget(0, ""))
  {
    EmptyListLine(key);
    StripDigits(key);
    ParseDigits(key);
    EmptyBrackets();
    ParseBlank("");
    assert Ints([""]) == [None];
    assert FirstFailure(Ints([""])) == Err(0);
  }

  /** `int("y")` raises. */
  lemma LetterRejected()
    ensures ParseInt("y") == None
  {
    TrimFixed("y", Whitespace);
  }

  /** The list text `[y]` fails on its only field. */
  lemma LetterListRejected()
    ensures ParseList("[y]") == Err(BadTarget(0, "y"))
  {
    assert "[y]"[1..] == "y]" && "y]"[..1] == "y";
    assert StripBrackets("[y]") == "y";
    SplitNoSeparator("y", ',');
    LetterRejected();
    assert Ints(["y"]) == [None];
  }

  /** `x [y]`: both the id and the field are rejected, and the field is the one reported. */
  lemma FieldBeforeId()
    ensures ParseLine("x [y]") == Err(BadTarget(0, "y"))
  {
    LetterLine();
    LetterListRejected();
  }

  /** `x [y]` is its own `strip()` and cuts at its space into `x` and `[y]`. */
  lemma LetterLine()
    ensures Strip("x [y]") == "x [y]"
    ensures SplitOnce("x [y]", ' ') == ["x", "[y]"]
  {
    var line := "x [y]";
    assert line[0] == 'x' && line[|line| - 1] == ']';
    TrimFixed(line, Whitespace);
    assert ' ' !in "x";
    assert line == "x" + [' '] + "[y]";
    SplitOnceAt("x", "[y]", ' ');
  }

  /** The dictionary after the parsed lines: the failure of the first bad line, or every id with its last list. */
  function Collect(rs: seq<Parsed>): (r: Result<map<int, seq<int>>, LineFailure>)
    ensures r.Err? ==> r.error.line < |rs| && rs[r.error.line] == Err(r.error.error)
  {
    if rs == [] then Ok(map[])
    else
      match Collect(rs[..|rs| - 1])
      case Err(f) => Err(f)
      case Ok(g) =>
        match rs[|rs| - 1]
        case Err(e) => Err(LineFailure(|rs| - 1, e))
        case Ok(entry) => Ok(g[entry.0 := entry.1])
  }

  /** Each line parsed on its own. */
  function ParsedLines(lines: seq<string>): (rs: seq<Parsed>)
    ensures |rs| == |lines|
  {
    seq(|lines|, i requires 0 <= i < |lines| => ParseLine(lines[i]))
  }

  /** The `graph` dictionary the driver builds from its input lines. */
  function ParseGraph(lines: seq<string>): Result<map<int, seq<int>>, LineFailure>
  {
    Collect(ParsedLines(lines))
  }

  /** Line `i` parsed to id `id`. */
  predicate Names(rs: seq<Parsed>, i: int, id: int)
  {
    0 <= i < |rs| && rs[i].Ok? && rs[i].value.0 == id
  }

  /**
   * When every line parses, the ids are exactly those of the lines and each
   * one maps to the list of the last line that names it.
   */
  lemma {:induction false} CollectLast(rs: seq<Parsed>, id: int)
    requires Collect(rs).Ok?
    ensures id in Collect(rs).value <==> exists i :: Names(rs, i, id)
    ensures forall i :: Names(rs, i, id) && (forall j :: i < j < |rs| ==> !Names(rs, j, id))
               ==> Collect(rs).value[id] == rs[i].value.1
  {
    if rs != [] {
      var init := rs[..|rs| - 1];
      var k := |rs| - 1;
      CollectLast(init, id);
      assert forall i :: 0 <= i < k ==> (Names(rs, i, id) <==> Names(init, i, id));
      if !Names(rs, k, id) {
        forall i | Names(rs, i, id) && (forall j :: i < j < |rs| ==> !Names(rs, j, id))
          ensures Collect(rs).value[id] == rs[i].value.1
        {
          assert Names(init, i, id);
        }
      }
    }
  }

  /**
   * Lines that parse to ids `keys` with lists `lists` give the dictionary
   * whose ids are the `keys`, each with the list of its last line.
   */
  lemma CollectKeys(rs: seq<Parsed>, keys: seq<int>, lists: seq<seq<int>>)
    requires |rs| == |keys| == |lists|
    requires forall i :: 0 <= i < |rs| ==> rs[i] == Ok((keys[i], lists[i]))
    ensures Collect(rs).Ok?
    ensures forall id :: id in Collect(rs).value <==> id in keys
    ensures forall i :: 0 <= i < |keys| && (forall j :: i < j < |keys| ==> keys[j] != keys[i]) ==>
              Collect(rs).value[keys[i]] == lists[i]
  {
    CollectOk(rs);
    forall id ensures id in Collect(rs).value <==> id in keys {
      CollectLast(rs, id);
      if id in keys {
        var i :| 0 <= i < |keys| && keys[i] == id;
        assert Names(rs, i, id);
      }
    }
    forall i | 0 <= i < |keys| && (forall j :: i < j < |keys| ==> keys[j] != keys[i])
      ensures Collect(rs).value[keys[i]] == lists[i]
    {
      CollectLast(rs, keys[i]);
      assert Names(rs, i, keys[i]);
    }
  }

  /** Every line before a failing one parsed, and the error is that line's. */
  lemma {:induction false} CollectFails(rs: seq<Parsed>, k: nat)
    requires k < |rs| && rs[k].Err? && forall j :: 0 <= j < k ==> rs[j].Ok?
    ensures Collect(rs) == Err(LineFailure(k, rs[k].error))
  {
    if k < |rs| - 1 {
      CollectFails(rs[..|rs| - 1], k);
    } else {
      CollectOk(rs[..k]);
    }
  }

  /** Lines that all parse give a dictionary. */
  lemma {:induction false} CollectOk(rs: seq<Parsed>)
    requires forall j :: 0 <= j < |rs| ==> rs[j].Ok?
    ensures Collect(rs).Ok?
  {
    if rs != [] {
      CollectOk(rs[..|rs| - 1]);
    }
  }

  /** The driver's `for line in sys.stdin` loop, filling the dictionary in place. */
  method ReadGraph(lines: seq<string>) returns (r: Result<map<int, seq<int>>, LineFailure>)
    ensures r == ParseGraph(lines)
  {
    var graph: map<int, seq<int>> := map[];
    var i := 0;
    while i < |lines|
      invariant 0 <= i <= |lines|
      invariant Collect(ParsedLines(lines)[..i]) == Ok(graph)
    {
      var parsed := ParseLine(lines[i]);
      assert ParsedLines(lines)[i] == parsed;
      ghost var rs := ParsedLines(lines);
      match parsed {
        case Err(e) =>
          CollectStepErr(rs, i, graph);
          return Err(LineFailure(i, e));
        case Ok(entry) =>
          CollectStepOk(rs, i, graph);
          graph := graph[entry.0 := entry.1];
      }
      i := i + 1;
    }
    assert ParsedLines(lines)[..|lines|] == ParsedLines(lines);
    return Ok(graph);
  }

  /** A line that parses stores its list under its id, replacing any earlier one. */
  lemma CollectStepOk(rs: seq<Parsed>, i: nat, g: map<int, seq<int>>)
    requires i < |rs| && Collect(rs[..i]) == Ok(g) && rs[i].Ok?
    ensures Collect(rs[..i + 1]) == Ok(g[rs[i].value.0 := rs[i].value.1])
  {
    assert rs[..i + 1][..i] == rs[..i];
  }

  /** A line that fails after lines that all parsed is the failure of the whole input. */
  lemma CollectStepErr(rs: seq<Parsed>, i: nat, g: map<int, seq<int>>)
    requires i < |rs| && Collect(rs[..i]) == Ok(g) && rs[i].Err?
    ensures Collect(rs) == Err(LineFailure(i, rs[i].error))
  {
    forall j | 0 <= j < i
      ensures rs[j].Ok?
    {
      CollectPrefixOk(rs, i, j);
    }
    CollectFails(rs, i);
  }

  /** A prefix that gives a dictionary has only lines that parse. */
  lemma {:induction false} CollectPrefixOk(rs: seq<Parsed>, k: nat, j: nat)
    requires j < k <= |rs| && Collect(rs[..k]).Ok?
    ensures rs[j].Ok?
  {
    if j < k - 1 {
      assert rs[..k][..k - 1] == rs[..k - 1];
      CollectPrefixOk(rs, k - 1, j);
    }
  }

  // ---- ranking ----

  /** One `(score, node)` tuple of the report. */
  datatype Entry = Entry(score: real, node: nat)

  /** Python's tuple order: by score, then by node. */
  predicate Above(a: Entry, b: Entry) {
    a.score > b.score || (a.score == b.score && a.node > b.node)
  }

  /** Strictly descending, as `sorted(..., reverse=True)` leaves distinct tuples. */
  predicate Descending(r: seq<Entry>) {
    forall i, j :: 0 <= i < j < |r| ==> Above(r[i], r[j])
  }

  /** `enumerate(pagerank)` as `(score, node)` tuples. */
  function Entries(scores: seq<real>): (es: seq<Entry>)
    ensures |es| == |scores|
  {
    seq(|scores|, i requires 0 <= i < |scores| => Entry(scores[i], i))
  }

  /** Places `e` before the first entry it is above. */
  function Insert(e: Entry, r: seq<Entry>): (out: seq<Entry>)
    ensures multiset(out) == multiset(r) + multiset{e}
  {
    if r == [] || Above(e, r[0]) then [e] + r
    else
      assert r == [r[0]] + r[1..];
      [r[0]] + Insert(e, r[1..])
  }

  lemma {:induction false} InsertDescending(e: Entry, r: seq<Entry>)
    requires Descending(r) && e !in r
    ensures Descending(Insert(e, r))
  {
    if r != [] && !Above(e, r[0]) {
      var rest := Insert(e, r[1..]);
      assert Descending(r[1..]);
      InsertDescending(e, r[1..]);
      forall j | 0 <= j < |rest|
        ensures Above(r[0], rest[j])
      {
        assert rest[j] in multiset(rest);
        if rest[j] != e {
          assert rest[j] in multiset(r[1..]);
          var k :| 0 <= k < |r[1..]| && r[1..][k] == rest[j];
          assert r[k + 1] == rest[j];
        }
      }
    }
  }

  /** The scores paired with their node indexes as `(score, node)` and sorted from the largest pair down. */
  function Ranked(scores: seq<real>): (r: seq<Entry>)
    ensures multiset(r) == multiset(Entries(scores))
  {
    if scores == [] then []
    else
      var k := |scores| - 1;
      assert Entries(scores) == Entries(scores[..k]) + [Entry(scores[k], k)];
      Insert(Entry(scores[k], k), Ranked(scores[..k]))
  }

  /** Every tuple of the report is some node's own `(score, node)`. */
  lemma RankedEntries(scores: seq<real>)
    ensures forall x :: x in Ranked(scores) ==> x.node < |scores| && x.score == scores[x.node]
  {
    var es := Entries(scores);
    forall x | x in Ranked(scores)
      ensures x.node < |scores| && x.score == scores[x.node]
    {
      assert x in multiset(Ranked(scores));
      assert x in es;
    }
  }

  /** The report is strictly descending by `(score, node)`. */
  lemma {:induction false} RankedDescending(scores: seq<real>)
    ensures Descending(Ranked(scores))
  {
    if scores != [] {
      var k := |scores| - 1;
      RankedDescending(scores[..k]);
      RankedEntries(scores[..k]);
      InsertDescending(Entry(scores[k], k), Ranked(scores[..k]));
    }
  }

  /** The report lists every node of `[0, n)` exactly once, each with its own score. */
  lemma RankedCoversNodes(scores: seq<real>)
    ensures var r := Ranked(scores);
      && |r| == |scores|
      && (forall i :: 0 <= i < |r| ==> r[i].node < |scores| && r[i].score == scores[r[i].node])
      && (forall i, j :: 0 <= i < j < |r| ==> r[i].node != r[j].node)
      && (forall v :: 0 <= v < |scores| ==> Entry(scores[v], v) in r)
  {
    var r := Ranked(scores);
    var es := Entries(scores);
    assert |r| == |multiset(r)| == |multiset(es)| == |scores|;
    RankedEntries(scores);
    assert forall i :: 0 <= i < |r| ==> r[i] in r;
    RankedDescending(scores);
    forall v | 0 <= v < |scores|
      ensures Entry(scores[v], v) in r
    {
      assert es[v] in multiset(r);
    }
  }

  /** The head of a descending list is above everything else in it. */
  lemma HeadIsTop(a: seq<Entry>)
    requires Descending(a) && a != []
    ensures forall x :: x in a ==> x == a[0] || Above(a[0], x)
  {
  }

  lemma SameTail(a: seq<Entry>, b: seq<Entry>)
    requires a != [] && b != [] && a[0] == b[0] && multiset(a) == multiset(b)
    ensures multiset(a[1..]) == multiset(b[1..])
  {
    assert a == [a[0]] + a[1..];
    assert b == [b[0]] + b[1..];
    assert multiset(a[1..]) == multiset(a) - multiset{a[0]};
    assert multiset(b[1..]) == multiset(b) - multiset{b[0]};
  }

  /** Only one arrangement of a set of entries is strictly descending, so the report is determined by the scores. */
  lemma {:induction false} DescendingUnique(a: seq<Entry>, b: seq<Entry>)
    requires Descending(a) && Descending(b) && multiset(a) == multiset(b)
    ensures a == b
  {
    if a != [] {
      assert a[0] in multiset(b);
      assert b != [];
      HeadIsTop(a);
      HeadIsTop(b);
      assert b[0] in multiset(a);
      assert a[0] == b[0];
      SameTail(a, b);
      DescendingUnique(a[1..], b[1..]);
      assert a == [a[0]] + a[1..] && b == [b[0]] + b[1..];
    }
  }

  /** Any strictly descending arrangement of the `(score, node)` tuples is the report. */
  lemma RankedIsTheSortedOrder(scores: seq<real>, r: seq<Entry>)
    requires Descending(r) && multiset(r) == multiset(Entries(scores))
    ensures r == Ranked(scores)
  {
    RankedDescending(scores);
    DescendingUnique(r, Ranked(scores));
  }
}
