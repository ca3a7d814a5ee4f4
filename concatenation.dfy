/**
 * The `query_concatenation` test of src/query.rs: sub-queries merged with
 * `and` and `push`. After a merge the cursor has drifted past the end of
 * the buffer, so the host is no longer a written state; its text, offsets,
 * args and flag still are, and rendering reads nothing else.
 */
module Concatenation {
  import opened Placeholders
  import opened Render
  import opened QuerySpec
  import opened QueryBuilder
  import opened Scenarios

  /** Two states that agree on everything but the cursor. */
  ghost predicate SameText<V>(st: State<V>, t: State<V>)
  {
    st.args == t.args && st.argIndexes == t.argIndexes && st.buffer == t.buffer && st.separated == t.separated
  }

  /** Plain delimiters around a text are copied around its stripped form. */
  lemma DelimitedText(open: string, x: string, close: string)
    requires '?' !in open && '?' !in close
    ensures Stripped(open + x + close) == open + Stripped(x) + close
  {
    PlainText(open, 0);
    PlainText(close, 0);
    StrippedAppend(open + x, close);
    StrippedAppend(open, x);
  }

  /** A plain prefix records nothing and moves the offsets of what follows by its length. */
  lemma PlainPrefixOffsets(open: string, x: string, n: nat)
    requires '?' !in open
    ensures Offsets(open + x, n) == Offsets(x, n + |open|)
  {
    var ox := Offsets(x, n + |Stripped(open)|);
    assert Offsets(open + x, n) == Offsets(open, n) + ox by {
      OffsetsAppend(open, x, n);
    }
    assert Offsets(open, n) == [] && |Stripped(open)| == |open| by {
      PlainText(open, n);
    }
    assert [] + ox == ox;
  }

  /** A plain suffix records nothing. */
  lemma PlainSuffixOffsets(y: string, close: string, n: nat)
    requires '?' !in close
    ensures Offsets(y + close, n) == Offsets(y, n)
  {
    PlainText(close, n + |Stripped(y)|);
    OffsetsAppend(y, close, n);
    assert Offsets(y + close, n) == Offsets(y, n) + [];
  }

  /** Plain delimiters around a text move its offsets past the opening one. */
  lemma DelimitedOffsets(open: string, x: string, close: string, n: nat)
    requires '?' !in open && '?' !in close
    ensures Offsets(open + x + close, n) == Shift(Offsets(x, 0), n + |open|)
  {
    var d := n + |open|;
    var ox := Offsets(x, d);
    assert Offsets(open + x + close, n) == ox by {
      PlainSuffixOffsets(open + x, close, n);
      PlainPrefixOffsets(open, x, n);
    }
    assert ox == Shift(Offsets(x, 0), d) by {
      OffsetsShifted(x, 0, d);
      assert 0 + d == d;
    }
  }

  /** The text and offsets of `w` followed by `p`, where `p`'s offsets are `x`'s shifted by `d`. */
  lemma Followed(w: string, p: string, x: string, d: nat)
    requires Offsets(p, |Stripped(w)|) == Shift(Offsets(x, 0), d)
    ensures Offsets(w + p, 0) == Offsets(w, 0) + Shift(Offsets(x, 0), d)
    ensures Stripped(w + p) == Stripped(w) + Stripped(p)
  {
    var n := |Stripped(w)|;
    assert Offsets(w + p, 0) == Offsets(w, 0) + Offsets(p, 0 + n) by {
      OffsetsAppend(w, p, 0);
    }
    assert 0 + n == n;
    StrippedAppend(w, p);
  }

  /**
   * Merging a written sub-query into a written host leaves the text, offsets
   * and args of the host followed by the sub-query's SQL, in parentheses when
   * the host is separated.
   */
  lemma MergeWritten<V>(w: string, a: seq<V>, separated: bool, x: string, b: seq<V>, sx: bool)
    ensures SameText(MergeAsWritten(WrittenState(w, a, separated), WrittenState(x, b, sx)),
                     WrittenState(w + (if separated then "(" + x + ")" else x), a + b, separated))
  {
    var st := WrittenState(w, a, separated);
    var q := WrittenState(x, b, sx);
    MergeAsWrittenEffect(st, q);
    var p := if separated then "(" + x + ")" else x;
    assert Offsets(w + p, 0) == Offsets(w, 0) + Shift(Offsets(x, 0), |Stripped(w)| + if separated then 1 else 0)
        && Stripped(w + p) == Stripped(w) + (if separated then "(" + Stripped(x) + ")" else Stripped(x)) by {
      if separated {
        MergedInParentheses(w, x);
      } else {
        MergedBare(w, x);
      }
    }
  }

  /** The text and offsets of `w` followed by `x` in parentheses. */
  lemma MergedInParentheses(w: string, x: string)
    ensures Offsets(w + ("(" + x + ")"), 0) == Offsets(w, 0) + Shift(Offsets(x, 0), |Stripped(w)| + 1)
    ensures Stripped(w + ("(" + x + ")")) == Stripped(w) + ("(" + Stripped(x) + ")")
  {
    var n := |Stripped(w)|;
    GluesArePlain();
    DelimitedText("(", x, ")");
    DelimitedOffsets("(", x, ")", n);
    Followed(w, "(" + x + ")", x, n + 1);
  }

  /** The text and offsets of `w` followed by `x`. */
  lemma MergedBare(w: string, x: string)
    ensures Offsets(w + x, 0) == Offsets(w, 0) + Shift(Offsets(x, 0), |Stripped(w)| + 0)
    ensures Stripped(w + x) == Stripped(w) + Stripped(x)
  {
    var n := |Stripped(w)|;
    OffsetsShifted(x, 0, n);
    assert 0 + n == n + 0;
    Followed(w, x, x, n + 0);
  }

  /**
   * A call whose fragment is a written sub-query, on a written host: the
   * joiner, then the sub-query's SQL, parenthesised when an `and`, `or` or
   * `comma` finds the host separated.
   */
  lemma SubStep<V>(w: string, a: seq<V>, separated: bool, c: Call<V>, x: string, b: seq<V>, sx: bool)
    requires c.frag == Sub(WrittenState(x, b, sx)) && w != [] && w[0] != '?'
    ensures var inner := !c.Push? && separated;
      SameText(Apply(WrittenState(w, a, separated), c),
               WrittenState(w + Separator(c, separated, false) + (if inner then "(" + x + ")" else x),
                            a + b, !c.Push?))
  {
    var st := WrittenState(w, a, separated);
    assert st.buffer != [] by {
      assert w == [w[0]] + w[1..];
      StrippedAppend([w[0]], w[1..]);
    }
    var glue := Separator(c, separated, false);
    var inner := !c.Push? && separated;
    GluesArePlain();
    var glued := WrittenState(w + glue, a, inner);
    AppendToWritten(w, a, inner, glue, []);
    assert a + [] == a;
    var q := WrittenState(x, b, sx);
    assert PushFragment(glued, c.frag) == MergeAsWritten(glued, q);
    MergeWritten(w + glue, a, inner, x, b, sx);
    match c
    case Push(f) =>
      assert st.(separated := false) == WrittenState(w, a, false);
      assert Apply(st, c) == PushFragment(glued, f);
    case And(f) =>
      assert Apply(st, c) == Joined(st, " AND ", f);
      assert Joined(st, " AND ", f) == PushFragment(glued, f).(separated := true);
    case Or(f) =>
      assert Apply(st, c) == Joined(st, " OR ", f);
      assert Joined(st, " OR ", f) == PushFragment(glued, f).(separated := true);
    case Comma(f) =>
      assert Apply(st, c) == Joined(st, ",", f);
      assert Joined(st, ",", f) == PushFragment(glued, f).(separated := true);
  }

  /**
   * A call with a plain `&str` fragment: the joiner and the text are copied,
   * no offset is recorded and no value bound, whatever the cursor.
   */
  lemma PlainCallEffect<V>(st: State<V>, c: Call<V>)
    requires c.frag.Str? && '?' !in c.frag.text
    ensures var r := Apply(st, c);
      && r.buffer == st.buffer + Separator(c, st.separated, st.buffer == []) + c.frag.text
      && r.argIndexes == st.argIndexes && r.args == st.args && r.separated == !c.Push?
  {
    GluesArePlain();
    var g := Separator(c, st.separated, st.buffer == []);
    var s1 := if c.Push? then st.(separated := false) else st;
    var s2 := if g == [] then s1 else AppendText(s1, g, []);
    if g != [] {
      AppendPlain(s1, g, []);
    }
    assert s2.buffer == st.buffer + g && s2.argIndexes == st.argIndexes && s2.args == st.args;
    AppendPlain(s2, c.frag.text, []);
    assert st.args + [] == st.args;
    assert PushFragment(s2, c.frag) == AppendText(s2, c.frag.text, []);
    match c
    case Push(f) =>
      assert Apply(st, c) == PushFragment(s2, f);
    case And(f) =>
      assert Apply(st, c) == Joined(st, " AND ", f);
      assert Joined(st, " AND ", f) == PushFragment(s2, f).(separated := true);
    case Or(f) =>
      assert Apply(st, c) == Joined(st, " OR ", f);
      assert Joined(st, " OR ", f) == PushFragment(s2, f).(separated := true);
    case Comma(f) =>
      assert Apply(st, c) == Joined(st, ",", f);
      assert Joined(st, ",", f) == PushFragment(s2, f).(separated := true);
  }

  /** A plain call on a host whose cursor has drifted writes what it writes on the written state. */
  lemma PlainStepAfterMerge<V>(st: State<V>, w: string, a: seq<V>, separated: bool, c: Call<V>)
    requires SameText(st, WrittenState(w, a, separated)) && w != [] && w[0] != '?'
    requires c.frag.Str? && '?' !in c.frag.text
    ensures SameText(Apply(st, c), WrittenState(w + Separator(c, separated, false) + c.frag.text, a, !c.Push?))
  {
    var g := Separator(c, separated, false);
    var t := c.frag.text;
    assert st.buffer != [] by {
      assert w == [w[0]] + w[1..];
      StrippedAppend([w[0]], w[1..]);
    }
    PlainCallEffect(st, c);
    GluesArePlain();
    StrippedAppend(w + g, t);
    StrippedAppend(w, g);
    OffsetsAppend(w + g, t, 0);
    OffsetsAppend(w, g, 0);
    PlainText(g, |Stripped(w)|);
    PlainText(t, |Stripped(w + g)|);
  }

  // ---------------------------------------------------------------------------
  // `query_a`: a closure of three `or`s pushed onto an empty query.

  /** The closure of `query_a` writes its three comparisons joined by ` OR `. */
  lemma ThreeOrs<V>(x: string, y: string, z: string, three: V, four: V)
    requires x != [] && '?' !in x
    ensures var c := Push(Closure([Or(Tuple(x + "?", [three])), Or(Str(y)), Or(Tuple(z + "?", [four]))]));
      && NoSubs(c.frag)
      && WrittenCall(c, false, true) == Effect(x + "?" + (" OR " + y + " OR " + z + "?"), true)
  {
    var body := [Or(Tuple(x + "?", [three])), Or(Str(y)), Or(Tuple(z + "?", [four]))];
    var tail := [Or(Str(y)), Or(Tuple(z + "?", [four]))];
    assert body[1..] == tail;
    assert body[0] == Or(Tuple(x + "?", [three]));
    LeadingOr(x, three);
    OrsTail<V>(y, z, four);
    var first := WrittenCall(body[0], false, true);
    var second := WrittenCalls(tail, true, false);
    assert WrittenCalls(body, false, true) == Effect(first.text + second.text, true);
  }

  /** The first alternative of a closure written as a comparison opens the text with no separator. */
  lemma LeadingOr<V>(x: string, three: V)
    requires x != [] && '?' !in x
    ensures WrittenCall(Or(Tuple(x + "?", [three])), false, true) == Effect(x + "?", true)
  {
    assert Stripped(x + "?") != [] by {
      StrippedAppend(x, "?");
      PlainText(x, 0);
    }
    assert WrittenFragment(Tuple(x + "?", [three]), false, true) == Effect(x + "?", false);
    assert Separator(Or(Tuple(x + "?", [three])), false, true) == [];
    assert WrittenCall(Or(Tuple(x + "?", [three])), false, true) == Effect([] + (x + "?"), true);
  }

  /** After an opening alternative, each further `or` adds ` OR ` and its fragment. */
  lemma OrsTail<V>(y: string, z: string, four: V)
    ensures WrittenCalls([Or(Str(y)), Or(Tuple(z + "?", [four]))], true, false)
         == Effect(" OR " + y + " OR " + z + "?", true)
  {
    var tail := [Or(Str(y)), Or(Tuple(z + "?", [four]))];
    var last := tail[1..];
    assert last == [Or(Tuple(z + "?", [four]))];
    assert last[1..] == [];
    assert WrittenCall(last[0], true, false) == Effect(" OR " + (z + "?"), true);
    assert WrittenCalls(last[1..], true, false) == Effect([], true);
    var third := WrittenCalls(last, true, false);
    assert third == Effect(" OR " + (z + "?") + [], true);
    assert WrittenCall(tail[0], true, false) == Effect(" OR " + y, true);
    assert WrittenCalls(tail, true, false) == Effect(" OR " + y + third.text, true);
  }

  /** The closure of `query_a` binds its two values in order. */
  lemma ThreeOrsArgs<V>(x: string, y: string, z: string, three: V, four: V)
    ensures CallArgs(Push(Closure([Or(Tuple(x + "?", [three])), Or(Str(y)), Or(Tuple(z + "?", [four]))])))
         == [three, four]
  {
    var body := [Or(Tuple(x + "?", [three])), Or(Str(y)), Or(Tuple(z + "?", [four]))];
    var tail := body[1..];
    var last := tail[1..];
    assert tail == [Or(Str(y)), Or(Tuple(z + "?", [four]))] && last == [Or(Tuple(z + "?", [four]))];
    assert last[1..] == [];
    assert CallsArgs(last[1..]) == [];
    assert CallArgs(last[0]) == [four];
    assert CallsArgs(last) == [four] + [];
    assert CallArgs(tail[0]) == [];
    assert CallsArgs(tail) == [] + [four];
    assert CallArgs(body[0]) == [three];
    assert CallsArgs(body) == [three] + [four];
  }

  /** `query_a` as built: the written state of its SQL, with its two values, separated. */
  lemma QueryA<V>(x: string, y: string, z: string, three: V, four: V)
    requires x != [] && '?' !in x
    ensures var c := Push(Closure([Or(Tuple(x + "?", [three])), Or(Str(y)), Or(Tuple(z + "?", [four]))]));
      Apply(Initial<V>(), c) == WrittenState(x + "?" + (" OR " + y + " OR " + z + "?"), [three, four], true)
  {
    var c := Push(Closure([Or(Tuple(x + "?", [three])), Or(Str(y)), Or(Tuple(z + "?", [four]))]));
    ThreeOrs(x, y, z, three, four);
    ThreeOrsArgs(x, y, z, three, four);
    WrittenCallMatches(Initial<V>(), c);
    AppendedIsWritten<V>(x + "?" + (" OR " + y + " OR " + z + "?"), [three, four], true);
  }

  // ---------------------------------------------------------------------------
  // `query_b`: two `and`s of comparisons, then `and` of `query_a`.

  /** `Query::new(select)` and two `and`s of comparisons. */
  lemma TwoComparisons<V>(select: string, a: string, b: string, one: V, two: V)
    requires select != [] && select[0] != '?'
    ensures var st := PushFragment(Initial<V>(), Str(select));
      Apply(Apply(st, And(Tuple(a + "?", [one]))), And(Tuple(b + "?", [two])))
        == WrittenState(select + " " + a + "?" + " AND " + b + "?", [one, two], true)
  {
    AppendedIsWritten<V>(select, [], false);
    var w1 := select + " " + a + "?";
    assert select + (" " + (a + "?")) == w1;
    assert [] + CallArgs(And(Tuple(a + "?", [one]))) == [one];
    Step<V>(select, [], false, And(Tuple(a + "?", [one])), w1, true);
    var w2 := w1 + " AND " + b + "?";
    assert w1 + (" AND " + (b + "?")) == w2;
    assert [one] + CallArgs(And(Tuple(b + "?", [two]))) == [one, two];
    Step<V>(w1, [one], true, And(Tuple(b + "?", [two])), w2, true);
  }

  /** `and` of a written sub-query on a separated host: ` AND `, then the sub-query in parentheses. */
  lemma AndSubQuery<V>(w: string, a: seq<V>, x: string, b: seq<V>)
    requires w != [] && w[0] != '?'
    ensures SameText(Apply(WrittenState(w, a, true), And(Sub(WrittenState(x, b, true)))),
                     WrittenState(w + " AND " + ("(" + x + ")"), a + b, true))
  {
    SubStep(w, a, true, And(Sub(WrittenState(x, b, true))), x, b, true);
  }

  // ---------------------------------------------------------------------------
  // `fields`: `comma`s on an empty query, pushed into `Query::new(select)`.

  /** `comma` of two plain names on an empty query, then of a text that starts with its placeholder. */
  lemma FieldsList<V>(f1: string, f2: string, g: string, v: V)
    requires f1 != [] && f1[0] != '?'
    ensures Apply(Apply(Apply(Initial<V>(), Comma(Str(f1))), Comma(Str(f2))), Comma(Tuple("?" + g, [v])))
         == WrittenState(f1 + "," + f2 + "," + "?" + g, [v], true)
  {
    var c1 := Comma(Str(f1));
    var s1 := Apply(Initial<V>(), c1);
    assert s1 == WrittenState(f1, [], true) by {
      assert WrittenCall(c1, false, true) == Effect([] + f1, true);
      assert [] + f1 == f1 && CallArgs(c1) == [];
      WrittenCallMatches(Initial<V>(), c1);
      AppendedIsWritten<V>(f1, [], true);
    }
    var w2 := f1 + "," + f2;
    assert Apply(s1, Comma(Str(f2))) == WrittenState(w2, [], true) by {
      assert WrittenCall<V>(Comma(Str(f2)), true, false) == Effect("," + f2, true);
      assert f1 + ("," + f2) == w2;
      TextStep<V>(f1, [], true, Comma(Str(f2)), w2, true);
    }
    var c3 := Comma(Tuple("?" + g, [v]));
    assert w2[0] == f1[0];
    assert WrittenCall(c3, true, false) == Effect("," + ("?" + g), true);
    assert w2 + ("," + ("?" + g)) == w2 + "," + "?" + g;
    assert [] + CallArgs(c3) == [v];
    Step<V>(w2, [], true, c3, w2 + "," + "?" + g, true);
  }

  /** `push` of a written sub-query and then of plain text onto `Query::new(select)`. */
  lemma FieldsPushed<V>(select: string, x: string, v: V, from: string)
    requires select != [] && select[0] != '?' && '?' !in from
    ensures var st := PushFragment(Initial<V>(), Str(select));
      SameText(Apply(Apply(st, Push(Sub(WrittenState(x, [v], true)))), Push(Str(from))),
               WrittenState(select + " " + x + " " + from, [v], false))
  {
    AppendedIsWritten<V>(select, [], false);
    var c := Push(Sub(WrittenState(x, [v], true)));
    SubStep<V>(select, [], false, c, x, [v], true);
    assert [] + [v] == [v];
    var st1 := Apply(WrittenState<V>(select, [], false), c);
    PlainStepAfterMerge(st1, select + " " + x, [v], false, Push(Str(from)));
  }

  /** A single `?` between plain texts is numbered `$1`. */
  lemma OneMarkerNumbered(p: string, t: string)
    requires '?' !in p && '?' !in t
    ensures NumberMarkers(p + "?" + t, 1) == p + "$1" + t
  {
    NumberMarkersPlain(p, 1);
    assert Decimal(1) == "1";
    MarkerTail(p, 1, "$1");
    PlainTail(p + "?", t, 1);
  }

  /** The state `fields` leaves in `Query::new(select)`, then `push(from)`: its renderings and its values. */
  lemma FieldsRender<V>(f1: string, f2: string, g: string, v: V, select: string, from: string)
    requires f1 != [] && '?' !in f1 && '?' !in f2 && '?' !in g
    requires select != [] && '?' !in select && '?' !in from
    ensures var fields := Apply(Apply(Apply(Initial<V>(), Comma(Str(f1))), Comma(Str(f2))), Comma(Tuple("?" + g, [v])));
      var st := Apply(Apply(PushFragment(Initial<V>(), Str(select)), Push(Sub(fields))), Push(Str(from)));
      var p := select + " " + f1 + "," + f2 + ",";
      && Render.Render(st.buffer, st.argIndexes, false) == Some(p + "?" + (g + " " + from))
      && Render.Render(st.buffer, st.argIndexes, true) == Some(p + "$1" + (g + " " + from))
      && st.args == [v]
  {
    var x := f1 + "," + f2 + "," + "?" + g;
    var fields := Apply(Apply(Apply(Initial<V>(), Comma(Str(f1))), Comma(Str(f2))), Comma(Tuple("?" + g, [v])));
    assert fields == WrittenState(x, [v], true) by {
      assert f1[0] in f1;
      FieldsList(f1, f2, g, v);
    }
    var p := select + " " + f1 + "," + f2 + ",";
    var text := p + "?" + (g + " " + from);
    var st := Apply(Apply(PushFragment(Initial<V>(), Str(select)), Push(Sub(fields))), Push(Str(from)));
    assert SameText(st, WrittenState(text, [v], false)) by {
      assert select[0] in select;
      FieldsPushed(select, x, v, from);
      FieldsText(select, f1, f2, g, from);
    }
    assert '?' !in p && '?' !in g + " " + from;
    assert text[0] == select[0];
    WrittenRenders(text, [v], false);
    OneMarkerNumbered(p, g + " " + from);
  }

  /** The SQL of `fields` pushed between `select` and `from`, regrouped around its placeholder. */
  lemma FieldsText(select: string, f1: string, f2: string, g: string, from: string)
    ensures select + " " + (f1 + "," + f2 + "," + "?" + g) + " " + from
         == select + " " + f1 + "," + f2 + "," + "?" + (g + " " + from)
  {
    var p := select + " " + f1 + "," + f2 + ",";
    assert select + " " + (f1 + "," + f2 + "," + "?" + g) == p + "?" + g;
    SeqAssoc(p + "?", g, " " + from);
    SeqAssoc(p + "?" + g, " ", from);
  }

  /**
   * The `fields` part of `query_concatenation`, for any plain names and any
   * value: the builder calls of the test on two `Query` objects, the first
   * moved into the second.
   */
  method Fields<V>(f1: string, f2: string, g: string, v: V, select: string, from: string)
      returns (sql: Option<string>, numbered: Option<string>, args: seq<V>)
    requires f1 != [] && '?' !in f1 && '?' !in f2 && '?' !in g
    requires select != [] && '?' !in select && '?' !in from
    ensures var p := select + " " + f1 + "," + f2 + ",";
      && sql == Some(p + "?" + (g + " " + from))
      && numbered == Some(p + "$1" + (g + " " + from))
    ensures args == [v]
  {
    var fields := new Query.Empty();
    fields.Comma(Str(f1));
    fields.Comma(Str(f2));
    fields.Comma(Tuple("?" + g, [v]));
    var q := new Query.New(Str(select));
    q.Push(Sub(fields.Model()));
    q.Push(Str(from));
    FieldsRender(f1, f2, g, v, select, from);
    sql := q.Fmt(false);
    numbered := q.Fmt(true);
    args := q.IntoArgs();
  }

  /** The `fields` scenario with the test's own text and value, as the default build binds it. */
  method FieldsTest() returns (sql: Option<string>, numbered: Option<string>, args: seq<string>)
    ensures sql == Some("SELECT foo,bar,? as foobar FROM my_table")
    ensures numbered == Some("SELECT foo,bar,$1 as foobar FROM my_table")
    ensures args == ["1000"]
  {
    sql, numbered, args := Fields("foo", "bar", " as foobar", "1000", "SELECT", "FROM my_table");
    FieldsSql();
    FieldsNumberedSql();
  }

  /** The pieces of the `fields` test around its placeholder make up its expected SQL. */
  lemma FieldsSql()
    ensures "SELECT" + " " + "foo" + "," + "bar" + "," + "?" + (" as foobar" + " " + "FROM my_table")
         == "SELECT foo,bar,? as foobar FROM my_table"
  {
    FieldsPieces();
    assert "SELECT foo,bar," + "?" == "SELECT foo,bar,?";
    assert "SELECT foo,bar,?" + " as foobar FROM my_table" == "SELECT foo,bar,? as foobar FROM my_table";
  }

  /** The plain pieces of the `fields` test on either side of its placeholder. */
  lemma FieldsPieces()
    ensures "SELECT" + " " + "foo" + "," + "bar" + "," == "SELECT foo,bar,"
    ensures " as foobar" + " " + "FROM my_table" == " as foobar FROM my_table"
  {
    assert "SELECT" + " " == "SELECT ";
    assert "SELECT " + "foo" == "SELECT foo";
    assert "SELECT foo" + "," == "SELECT foo,";
    assert "SELECT foo," + "bar" == "SELECT foo,bar";
    assert " as foobar" + " " == " as foobar ";
  }

  /** The same pieces around the marker `$1`. */
  lemma FieldsNumberedSql()
    ensures "SELECT" + " " + "foo" + "," + "bar" + "," + "$1" + (" as foobar" + " " + "FROM my_table")
         == "SELECT foo,bar,$1 as foobar FROM my_table"
  {
    FieldsPieces();
    assert "SELECT foo,bar," + "$1" == "SELECT foo,bar,$1";
    assert "SELECT foo,bar,$1" + " as foobar FROM my_table" == "SELECT foo,bar,$1 as foobar FROM my_table";
  }

  // ---------------------------------------------------------------------------
  // `query_b` rendered.

  /** A parenthesised group of two alternatives after a joiner, regrouped around the markers `m1` and `m2`. */
  lemma GroupText(g: string, open: string, x: string, m1: string, or: string, y: string, z: string, m2: string,
                  close: string)
    ensures g + (open + (x + m1 + (or + y + or + z + m2)) + close)
         == g + open + x + m1 + or + (y + or + z) + m2 + close
  {
    var r := or + y + or + z;
    assert r == or + (y + or + z);
    assert g + (open + (x + m1 + (r + m2)) + close) == g + open + x + m1 + r + m2 + close;
  }

  /** Two `?`s, each after plain glue and text, are numbered `m1` and `m2`, counting from `c`. */
  lemma TwoMarkedOpen(g1: string, d: string, g2: string, e: string, c: nat, m1: string, m2: string)
    requires '?' !in g1 && '?' !in d && '?' !in g2 && '?' !in e
    requires m1 == "$" + Decimal(c) && m2 == "$" + Decimal(c + 1)
    ensures NumberMarkers(g1 + d + "?" + g2 + e + "?", c) == g1 + d + m1 + g2 + e + m2
    ensures Count(g1 + d + "?" + g2 + e + "?") == 2
  {
    MarkedPiece([], g1, d, c, m1);
    assert [] + g1 == g1;
    MarkedPiece(g1 + d + "?", g2, e, c, m2);
  }

  /**
   * The shape of `query_b`'s SQL: two comparisons, then a joiner and a
   * parenthesised group of two alternatives; its four `?`s are numbered
   * `$1` to `$4` in order.
   */
  lemma FourMarked(g1: string, a: string, g2: string, b: string, g: string, open: string, x: string,
                   or: string, y: string, z: string, close: string)
    requires '?' !in g1 && '?' !in a && '?' !in g2 && '?' !in b && '?' !in g && '?' !in open
    requires '?' !in x && '?' !in or && '?' !in y && '?' !in z && '?' !in close
    ensures NumberMarkers(g1 + a + "?" + g2 + b + "?" + (g + (open + (x + "?" + (or + y + or + z + "?")) + close)), 1)
         == g1 + a + "$1" + g2 + b + "$2" + (g + (open + (x + "$3" + (or + y + or + z + "$4")) + close))
  {
    var t := g + (open + (x + "?" + (or + y + or + z + "?")) + close);
    var tn := g + (open + (x + "$3" + (or + y + or + z + "$4")) + close);
    assert NumberMarkers(t, 3) == tn by {
      GroupText(g, open, x, "?", or, y, z, "?", close);
      GroupText(g, open, x, "$3", or, y, z, "$4", close);
      assert Decimal(3) == "3" && Decimal(3 + 1) == "4";
      assert '?' !in g + open && '?' !in y + or + z;
      TwoMarked(g + open, x, or, y + or + z, close, 3, "$3", "$4");
      SeqAssoc(g, open, x);
    }
    NumberedAfterTwo(g1, a, g2, b, t, tn);
  }

  /** The numbered SQL of `query_b`: `$1` to `$4` in order, across the merged sub-query. */
  lemma QueryBNumbered(select: string, a: string, b: string, x: string, y: string, z: string)
    requires '?' !in select && '?' !in a && '?' !in b && '?' !in x && '?' !in y && '?' !in z
    ensures NumberMarkers(select + " " + a + "?" + " AND " + b + "?"
                          + (" AND " + ("(" + (x + "?" + (" OR " + y + " OR " + z + "?")) + ")")), 1)
         == select + " " + a + "$1" + " AND " + b + "$2"
            + (" AND " + ("(" + (x + "$3" + (" OR " + y + " OR " + z + "$4")) + ")"))
  {
    GluesArePlain();
    assert '?' !in select + " ";
    FourMarked(select + " ", a, " AND ", b, " AND ", "(", x, " OR ", y, z, ")");
  }

  /** Text after two `?`s, each after plain glue and text, is numbered from 3. */
  lemma NumberedAfterTwo(g1: string, d: string, g2: string, e: string, t: string, tn: string)
    requires '?' !in g1 && '?' !in d && '?' !in g2 && '?' !in e
    requires NumberMarkers(t, 3) == tn
    ensures NumberMarkers(g1 + d + "?" + g2 + e + "?" + t, 1) == g1 + d + "$1" + g2 + e + "$2" + tn
  {
    var w := g1 + d + "?" + g2 + e + "?";
    NumberMarkersAppend(w, t, 1);
    assert Decimal(1) == "1" && Decimal(1 + 1) == "2";
    TwoMarkedOpen(g1, d, g2, e, 1, "$1", "$2");
  }

  /**
   * `query_b` after `and(query_a)`: it renders as the host's SQL, ` AND `,
   * and `query_a`'s SQL in parentheses, with the four values in order.
   */
  lemma QueryBRender<V>(select: string, a: string, b: string, x: string, y: string, z: string,
                        one: V, two: V, three: V, four: V)
    requires select != [] && '?' !in select && '?' !in a && '?' !in b
    requires x != [] && '?' !in x && '?' !in y && '?' !in z
    ensures var queryA := Apply(Initial<V>(), Push(Closure([Or(Tuple(x + "?", [three])), Or(Str(y)), Or(Tuple(z + "?", [four]))])));
      var host := Apply(Apply(PushFragment(Initial<V>(), Str(select)), And(Tuple(a + "?", [one]))), And(Tuple(b + "?", [two])));
      var st := Apply(host, And(Sub(queryA)));
      var w := select + " " + a + "?" + " AND " + b + "?";
      var n := select + " " + a + "$1" + " AND " + b + "$2";
      && Render.Render(st.buffer, st.argIndexes, false)
         == Some(w + (" AND " + ("(" + (x + "?" + (" OR " + y + " OR " + z + "?")) + ")")))
      && Render.Render(st.buffer, st.argIndexes, true)
         == Some(n + (" AND " + ("(" + (x + "$3" + (" OR " + y + " OR " + z + "$4")) + ")")))
      && st.args == [one, two, three, four]
  {
    var xa := x + "?" + (" OR " + y + " OR " + z + "?");
    var queryA := Apply(Initial<V>(), Push(Closure([Or(Tuple(x + "?", [three])), Or(Str(y)), Or(Tuple(z + "?", [four]))])));
    assert queryA == WrittenState(xa, [three, four], true) by {
      QueryA(x, y, z, three, four);
    }
    var w := select + " " + a + "?" + " AND " + b + "?";
    var host := Apply(Apply(PushFragment(Initial<V>(), Str(select)), And(Tuple(a + "?", [one]))), And(Tuple(b + "?", [two])));
    assert select[0] in select;
    assert host == WrittenState(w, [one, two], true) by {
      TwoComparisons(select, a, b, one, two);
    }
    var text := w + (" AND " + ("(" + xa + ")"));
    var st := Apply(host, And(Sub(queryA)));
    assert SameText(st, WrittenState(text, [one, two, three, four], true)) by {
      assert w[0] == select[0];
      AndSubQuery(w, [one, two], xa, [three, four]);
      assert [one, two] + [three, four] == [one, two, three, four];
      SeqAssoc(w, " AND ", "(" + xa + ")");
    }
    assert text[0] == select[0];
    WrittenRenders(text, [one, two, three, four], true);
    QueryBNumbered(select, a, b, x, y, z);
  }

  /**
   * `query_concatenation`'s `query_a` and `query_b`, for any plain text
   * pieces and any four values: the builder calls of the test on two
   * `Query` objects, `query_a` moved into `query_b` by `and`.
   */
  method QueryConcatenation<V>(x: string, y: string, z: string, select: string, a: string, b: string,
                               one: V, two: V, three: V, four: V)
      returns (sql: Option<string>, numbered: Option<string>, args: seq<V>)
    requires select != [] && '?' !in select && '?' !in a && '?' !in b
    requires x != [] && '?' !in x && '?' !in y && '?' !in z
    ensures sql == Some(select + " " + a + "?" + " AND " + b + "?"
                        + (" AND " + ("(" + (x + "?" + (" OR " + y + " OR " + z + "?")) + ")")))
    ensures numbered == Some(select + " " + a + "$1" + " AND " + b + "$2"
                             + (" AND " + ("(" + (x + "$3" + (" OR " + y + " OR " + z + "$4")) + ")")))
    ensures args == [one, two, three, four]
  {
    var queryA := new Query.Empty();
    queryA.Push(Closure([Or(Tuple(x + "?", [three])), Or(Str(y)), Or(Tuple(z + "?", [four]))]));
    var queryB := new Query.New(Str(select));
    queryB.And(Tuple(a + "?", [one]));
    queryB.And(Tuple(b + "?", [two]));
    queryB.And(Sub(queryA.Model()));
    QueryBRender(select, a, b, x, y, z, one, two, three, four);
    sql := queryB.Fmt(false);
    numbered := queryB.Fmt(true);
    args := queryB.IntoArgs();
  }

  /** The pieces of `query_b` make up its expected SQL: the host's part. */
  lemma QueryBSqlHead()
    ensures "SELECT * FROM test WHERE" + " " + "a = " + "?" + " AND " + "b = " + "?"
         == "SELECT * FROM test WHERE a = ? AND b = ?"
  {
    assert "SELECT * FROM test WHERE" + " " + "a = " == "SELECT * FROM test WHERE a = ";
    assert " AND " + "b = " + "?" == " AND b = ?";
  }

  /** The pieces of `query_b` make up its expected SQL: the merged sub-query's part. */
  lemma QueryBSqlTail()
    ensures " AND " + ("(" + ("c = " + "?" + (" OR " + "d = 4" + " OR " + "e = " + "?")) + ")")
         == " AND (c = ? OR d = 4 OR e = ?)"
  {
    QueryBSqlOrs();
    QueryBSqlGroup();
  }

  /** The alternatives after the first in `query_a`. */
  lemma QueryBSqlOrs()
    ensures " OR " + "d = 4" + " OR " + "e = " + "?" == " OR d = 4 OR e = ?"
  {
    assert " OR " + "d = 4" == " OR d = 4";
    assert " OR d = 4" + " OR " == " OR d = 4 OR ";
    assert " OR d = 4 OR " + "e = " == " OR d = 4 OR e = ";
  }

  /** `query_a` in parentheses. */
  lemma QueryBSqlGroup()
    ensures "(" + ("c = " + "?" + " OR d = 4 OR e = ?") + ")" == "(c = ? OR d = 4 OR e = ?)"
  {
    assert "c = " + "?" + " OR d = 4 OR e = ?" == "c = ? OR d = 4 OR e = ?" by {
      assert "c = " + "?" == "c = ?";
    }
    assert "(" + "c = ? OR d = 4 OR e = ?" == "(c = ? OR d = 4 OR e = ?";
  }

  /** The pieces of `query_b` make up its expected SQL: both parts together. */
  lemma QueryBSql()
    ensures "SELECT * FROM test WHERE a = ? AND b = ?" + " AND (c = ? OR d = 4 OR e = ?)"
         == "SELECT * FROM test WHERE a = ? AND b = ? AND (c = ? OR d = 4 OR e = ?)"
  {
  }

  /** The pieces of `query_b` around its markers make up its expected numbered SQL: the host's part. */
  lemma QueryBIndexedHead()
    ensures "SELECT * FROM test WHERE" + " " + "a = " + "$1" + " AND " + "b = " + "$2"
         == "SELECT * FROM test WHERE a = $1 AND b = $2"
  {
    assert "SELECT * FROM test WHERE" + " " + "a = " == "SELECT * FROM test WHERE a = ";
    assert " AND " + "b = " + "$2" == " AND b = $2";
  }

  /** The pieces of `query_b` around its markers make up its expected numbered SQL: the merged sub-query's part. */
  lemma QueryBIndexedTail()
    ensures " AND " + ("(" + ("c = " + "$3" + (" OR " + "d = 4" + " OR " + "e = " + "$4")) + ")")
         == " AND (c = $3 OR d = 4 OR e = $4)"
  {
    QueryBIndexedOrs();
    QueryBIndexedGroup();
  }

  /** The alternatives after the first in `query_a`. */
  lemma QueryBIndexedOrs()
    ensures " OR " + "d = 4" + " OR " + "e = " + "$4" == " OR d = 4 OR e = $4"
  {
    assert " OR " + "d = 4" == " OR d = 4";
    assert " OR d = 4" + " OR " == " OR d = 4 OR ";
    assert " OR d = 4 OR " + "e = " == " OR d = 4 OR e = ";
  }

  /** `query_a` in parentheses. */
  lemma QueryBIndexedGroup()
    ensures "(" + ("c = " + "$3" + " OR d = 4 OR e = $4") + ")" == "(c = $3 OR d = 4 OR e = $4)"
  {
    assert "c = " + "$3" + " OR d = 4 OR e = $4" == "c = $3 OR d = 4 OR e = $4" by {
      assert "c = " + "$3" == "c = $3";
    }
    assert "(" + "c = $3 OR d = 4 OR e = $4" == "(c = $3 OR d = 4 OR e = $4";
  }

  /** The pieces of `query_b` around its markers make up its expected numbered SQL: both parts together. */
  lemma QueryBIndexed()
    ensures "SELECT * FROM test WHERE a = $1 AND b = $2" + " AND (c = $3 OR d = 4 OR e = $4)"
         == "SELECT * FROM test WHERE a = $1 AND b = $2 AND (c = $3 OR d = 4 OR e = $4)"
  {
  }

  /** `query_concatenation`'s `query_b` with the test's own text and values, as the default build binds them. */
  method QueryConcatenationTest() returns (sql: Option<string>, numbered: Option<string>, args: seq<string>)
    ensures sql == Some("SELECT * FROM test WHERE a = ? AND b = ? AND (c = ? OR d = 4 OR e = ?)")
    ensures numbered == Some("SELECT * FROM test WHERE a = $1 AND b = $2 AND (c = $3 OR d = 4 OR e = $4)")
    ensures args == ["1", "2", "3", "4"]
  {
    sql, numbered, args := QueryConcatenation("c = ", "d = 4", "e = ", "SELECT * FROM test WHERE", "a = ", "b = ",
                                              "1", "2", "3", "4");
    QueryBSqlHead();
    QueryBSqlTail();
    QueryBSql();
    QueryBIndexedHead();
    QueryBIndexedTail();
    QueryBIndexed();
  }
}

