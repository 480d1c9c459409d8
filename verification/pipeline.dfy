/**
 * The two scripts chained: every line the mapper prints for decimal tokens is
 * a line the reducer's driver reads back as the id with the same successor
 * list, and the driver's dictionary holds each key's list.
 */
module Pipeline {
  import opened Wrappers
  import opened PyText
  import opened Mapper
  import opened Driver

  /** A token written in decimal digits, such as the node ids of the edge files. */
  predicate Token(t: string) {
    t != [] && AllDigits(t)
  }

  /** What `int()` makes of each token of a list. */
  function Values(ts: seq<string>): (vs: seq<int>)
    ensures |vs| == |ts|
  {
    seq(|ts|, i requires 0 <= i < |ts| => DigitsValue(ts[i]) as int)
  }

  /** The quoted form of each token, as `repr` of the list prints it. */
  function Quoted(ts: seq<string>): (qs: seq<string>)
    ensures |qs| == |ts|
  {
    seq(|ts|, i requires 0 <= i < |ts| => Repr(ts[i]))
  }

  /** Each token after the first with the blank that `", "` leaves in front of it. */
  function Blanked(ts: seq<string>): (bs: seq<string>)
    ensures |bs| == |ts|
  {
    seq(|ts|, i requires 0 <= i < |ts| => " " + ts[i])
  }

  /** The comma fields of the joined list text: the first token, then the blank-led rest. */
  function Fields(ts: seq<string>): seq<string>
    requires ts != []
  {
    [ts[0]] + Blanked(ts[1..])
  }

  /** A digit token is printed between single quotes and nothing is escaped. */
  lemma ReprDigits(t: string)
    requires AllDigits(t)
    ensures Repr(t) == "'" + t + "'"
  {
    assert '\'' !in t by {
      forall i | 0 <= i < |t| ensures t[i] != '\'' {
        assert IsDigit(t[i]);
      }
    }
    EscapePlain(t, '\'');
  }

  /** Dropping the quotes from a digit token's `repr` gives the token back. */
  lemma UnquotedToken(t: string)
    requires Token(t)
    ensures RemoveChar(Repr(t), '\'') == t
  {
    ReprDigits(t);
    assert '\'' !in t by {
      forall i | 0 <= i < |t| ensures t[i] != '\'' {
        assert IsDigit(t[i]);
      }
    }
    RemoveCharAppend("'" + t, "'", '\'');
    RemoveCharAppend("'", t, '\'');
    RemoveCharAbsent(t, '\'');
    assert RemoveChar("'", '\'') == [];
  }

  /** Dropping quotes from `head + ", " + rest` drops them from both parts. */
  lemma UnquotedJoin(head: string, rest: string)
    ensures RemoveChar(head + ", " + rest, '\'') == RemoveChar(head, '\'') + ", " + RemoveChar(rest, '\'')
  {
    assert head + ", " + rest == head + (", " + rest);
    RemoveCharAppend(head, ", " + rest, '\'');
    RemoveCharAppend(", ", rest, '\'');
    RemoveCharAbsent(", ", '\'');
  }

  /** Dropping the quotes from the joined quoted tokens leaves the tokens joined by `", "`. */
  lemma {:induction false} Unquoted(ts: seq<string>)
    requires forall i :: 0 <= i < |ts| ==> Token(ts[i])
    ensures RemoveChar(Join(Quoted(ts), ", "), '\'') == Join(ts, ", ")
  {
    if ts != [] {
      var qs := Quoted(ts);
      UnquotedToken(ts[0]);
      if |ts| > 1 {
        assert qs[1..] == Quoted(ts[1..]);
        Unquoted(ts[1..]);
        assert Join(qs, ", ") == qs[0] + ", " + Join(qs[1..], ", ");
        UnquotedJoin(qs[0], Join(qs[1..], ", "));
      } else {
        assert Join(qs, ", ") == qs[0];
      }
    }
  }

  /** The printed line spelt out: the key, a blank, and the list repr without quotes. */
  lemma FormatQuoted(key: string, ts: seq<string>)
    ensures FormatLine(key, ts) == key + " " + RemoveChar("[" + Join(Quoted(ts), ", ") + "]", '\'')
  {
  }

  /** The list repr of digit tokens without its quotes: the tokens in brackets joined by `", "`. */
  lemma UnquotedList(ts: seq<string>)
    requires forall i :: 0 <= i < |ts| ==> Token(ts[i])
    ensures RemoveChar("[" + Join(Quoted(ts), ", ") + "]", '\'') == "[" + Join(ts, ", ") + "]"
  {
    BracketedUnquoted(Join(Quoted(ts), ", "));
    Unquoted(ts);
  }

  /** Joining with `", "` is joining with `","` once the blanks move into the fields. */
  lemma {:induction false} BlankedJoin(ts: seq<string>)
    requires ts != []
    ensures " " + Join(ts, ", ") == Join(Blanked(ts), ",")
  {
    if |ts| > 1 {
      BlankedJoin(ts[1..]);
      assert Blanked(ts)[1..] == Blanked(ts[1..]);
      assert " " + Join(ts, ", ") == (" " + ts[0]) + "," + (" " + Join(ts[1..], ", "));
    }
  }

  lemma FieldsJoin(ts: seq<string>)
    requires ts != []
    ensures Join(ts, ", ") == Join(Fields(ts), ",")
  {
    if |ts| > 1 {
      BlankedJoin(ts[1..]);
      assert Fields(ts)[1..] == Blanked(ts[1..]);
      assert Join(ts, ", ") == ts[0] + "," + (" " + Join(ts[1..], ", "));
    }
  }

  /** The joined text starts with the first token's first character and ends with the last token's last. */
  lemma {:induction false} JoinEnds(ts: seq<string>)
    requires ts != [] && forall i :: 0 <= i < |ts| ==> Token(ts[i])
    ensures var j := Join(ts, ", ");
            j != [] && IsDigit(j[0]) && IsDigit(j[|j| - 1])
  {
    assert Token(ts[0]);
    if |ts| > 1 {
      JoinEnds(ts[1..]);
    }
  }

  /** `"[" + j + "]".strip("[]")` is `j` when `j` begins and ends with a digit. */
  lemma Unbracketed(j: string)
    requires j != [] && IsDigit(j[0]) && IsDigit(j[|j| - 1])
    ensures StripBrackets("[" + j + "]") == j
  {
    UnbracketLeft(j);
    UnbracketRight(j);
  }

  /** The opening bracket goes and the digit after it stops the left trim. */
  lemma UnbracketLeft(j: string)
    requires j != [] && IsDigit(j[0])
    ensures TrimLeft("[" + j + "]", Brackets) == j + "]"
  {
    var s := "[" + j + "]";
    assert s[0] == '[' && s[1] == j[0];
    TrimLeftOne(s, Brackets);
    assert s[1..] == j + "]";
  }

  /** Only the first character goes when the second is not in `drop`. */
  lemma TrimLeftOne(s: string, drop: CharSet)
    requires |s| >= 2 && In(s[0], drop) && !In(s[1], drop)
    ensures TrimLeft(s, drop) == s[1..]
  {
    TrimLeftStop(s[1..], drop);
  }

  /** A text whose first character is not in `drop` is its own left trim. */
  lemma TrimLeftStop(t: string, drop: CharSet)
    requires t != [] && !In(t[0], drop)
    ensures TrimLeft(t, drop) == t
  {
  }

  /** The closing bracket goes and the digit before it stops the right trim. */
  lemma UnbracketRight(j: string)
    requires j != [] && IsDigit(j[|j| - 1])
    ensures TrimRight(j + "]", Brackets) == j
  {
    assert (j + "]")[..|j|] == j;
  }

  /** A leading character in `drop` is trimmed away. */
  lemma TrimLeftSkip(c: char, t: string, drop: CharSet)
    requires In(c, drop)
    ensures TrimLeft([c] + t, drop) == TrimLeft(t, drop)
  {
    assert ([c] + t)[1..] == t;
  }

  /** No digit is whitespace. */
  lemma DigitNotSpace(c: char)
    requires IsDigit(c)
    ensures !In(c, Whitespace)
  {
  }

  /** Text that begins with a digit has no leading whitespace to trim. */
  lemma TrimLeftDigit(t: string)
    requires t != [] && IsDigit(t[0])
    ensures TrimLeft(t, Whitespace) == t
  {
    DigitNotSpace(t[0]);
  }

  /** Text that ends with a digit has no trailing whitespace to trim. */
  lemma TrimRightDigit(t: string)
    requires t != [] && IsDigit(t[|t| - 1])
    ensures TrimRight(t, Whitespace) == t
  {
    DigitNotSpace(t[|t| - 1]);
  }

  /** `" " + t` strips to the digit token `t`. */
  lemma StripBlanked(t: string)
    requires Token(t)
    ensures Strip(" " + t) == t
  {
    TrimLeftSkip(' ', t, Whitespace);
    assert " " + t == [' '] + t;
    TrimLeftDigit(t);
    TrimRightDigit(t);
  }

  /** `int(" " + t)` for a digit token is the token's value: `int()` strips the blank. */
  lemma ParseBlanked(t: string)
    requires Token(t)
    ensures ParseInt(" " + t) == Some(DigitsValue(t) as int)
  {
    StripBlanked(t);
    ParseDigits(" " + t);
  }

  /** `int()` reads comma field `i` of a digit list as token `i`'s value. */
  lemma FieldParses(ts: seq<string>, i: nat)
    requires i < |ts| && Token(ts[i])
    ensures ParseInt(Fields(ts)[i]) == Some(DigitsValue(ts[i]) as int)
  {
    if i == 0 {
      StripDigits(ts[0]);
      ParseDigits(ts[0]);
    } else {
      assert Fields(ts)[i] == " " + ts[i];
      ParseBlanked(ts[i]);
    }
  }

  /** Every comma field of a digit list is read by `int()` as its token's value. */
  lemma FieldsParse(ts: seq<string>)
    requires ts != [] && forall i :: 0 <= i < |ts| ==> Token(ts[i])
    ensures FirstFailure(Ints(Fields(ts))) == Ok(Values(ts))
  {
    var vals := Ints(Fields(ts));
    forall i | 0 <= i < |ts| ensures vals[i] == Some(Values(ts)[i]) {
      FieldParses(ts, i);
    }
    FirstFailureOk(vals, Values(ts));
  }

  /** No comma field of a digit list holds a comma. */
  lemma FieldsCommaFree(ts: seq<string>)
    requires ts != [] && forall i :: 0 <= i < |ts| ==> Token(ts[i])
    ensures forall i :: 0 <= i < |ts| ==> ',' !in Fields(ts)[i]
  {
    forall i | 0 <= i < |ts| ensures ',' !in Fields(ts)[i] {
      assert Token(ts[i]);
      assert forall c :: c in ts[i] ==> IsDigit(c);
      if i > 0 {
        assert Fields(ts)[i] == " " + ts[i];
      }
    }
  }

  /** The comma fields of the joined digit list are exactly `Fields(ts)`. */
  lemma FieldsSplit(ts: seq<string>)
    requires ts != [] && forall i :: 0 <= i < |ts| ==> Token(ts[i])
    ensures Split(StripBrackets("[" + Join(ts, ", ") + "]"), ',') == Fields(ts)
  {
    JoinEnds(ts);
    Unbracketed(Join(ts, ", "));
    FieldsJoin(ts);
    FieldsCommaFree(ts);
    SplitJoin(Fields(ts), ',');
  }

  /** The text of a printed line is its own `strip()` and cuts at its first blank into key and list. */
  lemma LineCut(key: string, list: string)
    requires Token(key) && list != [] && list[|list| - 1] == ']'
    ensures Strip(key + " " + list) == key + " " + list
    ensures SplitOnce(Strip(key + " " + list), ' ') == [key, list]
  {
    var line := key + " " + list;
    assert line[0] == key[0] && line[|line| - 1] == ']';
    TrimFixed(line, Whitespace);
    assert ' ' !in key by {
      assert forall c :: c in key ==> IsDigit(c);
    }
    assert line == key + [' '] + list;
    SplitOnceAt(key, list, ' ');
  }

  /**
   * Mapper then reducer: the line the mapper prints for a digit key and a
   * non-empty list of digit targets parses back to the key's value and the
   * targets' values, in order and with repeats kept.
   */
  lemma LineRoundTrip(key: string, ts: seq<string>)
    requires Token(key) && ts != [] && forall i :: 0 <= i < |ts| ==> Token(ts[i])
    ensures ParseLine(FormatLine(key, ts)) == Ok((DigitsValue(key) as int, Values(ts)))
  {
    FormatQuoted(key, ts);
    UnquotedList(ts);
    var list := "[" + Join(ts, ", ") + "]";
    assert FormatLine(key, ts) == key + " " + list;
    LineCut(key, list);
    StripDigits(key);
    ParseDigits(key);
    FieldsSplit(ts);
    FieldsParse(ts);
  }

  /** Every key and target of a grouping is a digit token. */
  ghost predicate DigitGroups(g: Groups)
    requires WellFormed(g)
  {
    forall k :: k in g.targets ==> Token(k) && forall i :: 0 <= i < |g.targets[k]| ==> Token(g.targets[k][i])
  }

  /** The successor lists the driver reads from the mapper's lists, in key order. */
  ghost function ListValues(g: Groups): (lists: seq<seq<int>>)
    requires WellFormed(g)
    ensures |lists| == |g.order|
  {
    seq(|g.order|, i requires 0 <= i < |g.order| => Values(g.targets[g.order[i]]))
  }

  /** Every line the mapper prints for digit tokens parses to its key's value and its list's values. */
  lemma OutputLinesParse(g: Groups)
    requires WellFormed(g) && DigitGroups(g)
    ensures |ParsedLines(Output(g))| == |g.order|
    ensures forall i :: 0 <= i < |g.order| ==>
              ParsedLines(Output(g))[i] == Ok((Values(g.order)[i], ListValues(g)[i]))
  {
    forall i | 0 <= i < |g.order|
      ensures ParsedLines(Output(g))[i] == Ok((Values(g.order)[i], ListValues(g)[i]))
    {
      var k := g.order[i];
      assert k in g.targets;
      LineRoundTrip(k, g.targets[k]);
    }
  }

  /**
   * The mapper's whole output read by the driver: every line parses, the ids
   * are the values of the mapper's keys, and a key's list is the one the
   * driver keeps unless a later key has the same value (`1` and `01`).
   */
  lemma OutputRoundTrip(g: Groups)
    requires WellFormed(g) && DigitGroups(g)
    ensures var ids := Values(g.order);
            var d := ParseGraph(Output(g));
            && d.Ok?
            && (forall id :: id in d.value <==> id in ids)
            && (forall i :: 0 <= i < |ids| && (forall j :: i < j < |ids| ==> ids[j] != ids[i]) ==>
                  d.value[ids[i]] == ListValues(g)[i])
  {
    OutputLinesParse(g);
    CollectKeys(ParsedLines(Output(g)), Values(g.order), ListValues(g));
  }
}
