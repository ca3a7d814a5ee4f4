/**
 * The `simple_query` test of src/query.rs, built through the `Query` class
 * for any plain text pieces and any values, and its expected renderings;
 * the test's own instance binds its values as the strings the default
 * build sends.
 */
module Scenarios {
  import opened Placeholders
  import opened Render
  import opened QuerySpec
  import opened QueryBuilder

  /** The state of a query whose SQL so far is `w`, with values `a`. */
  function WrittenState<V>(w: string, a: seq<V>, separated: bool): State<V>
  {
    State(a, Offsets(w, 0), Stripped(w), |Stripped(w)|, separated)
  }

  /** Appending `w` with its values to an empty query gives the written state of `w`. */
  lemma AppendedIsWritten<V>(w: string, a: seq<V>, separated: bool)
    ensures AppendText(Initial<V>(), w, a).(separated := separated) == WrittenState(w, a, separated)
  {
    assert [] + Stripped(w) == Stripped(w);
    assert [] + Offsets(w, 0) == Offsets(w, 0);
    assert [] + a == a;
  }

  /** Appending text to a written state writes on. */
  lemma AppendToWritten<V>(w: string, a: seq<V>, separated: bool, t: string, vs: seq<V>)
    ensures AppendText(WrittenState(w, a, separated), t, vs) == WrittenState(w + t, a + vs, separated)
  {
    StrippedAppend(w, t);
    OffsetsAppend(w, t, 0);
  }

  /** One call on a query that has written `w`, which starts with text, writes on to `next`. */
  lemma Step<V>(w: string, a: seq<V>, separated: bool, c: Call<V>, next: string, nextSeparated: bool)
    requires NoSubs(c.frag) && w != [] && w[0] != '?'
    requires w + WrittenCall(c, separated, false).text == next
    requires WrittenCall(c, separated, false).separated == nextSeparated
    ensures Apply(WrittenState(w, a, separated), c) == WrittenState(next, a + CallArgs(c), nextSeparated)
  {
    var st := WrittenState(w, a, separated);
    assert st.buffer != [] by {
      assert w == [w[0]] + w[1..];
      StrippedAppend([w[0]], w[1..]);
    }
    WrittenCallMatches(st, c);
    var e := WrittenCall(c, separated, false);
    AppendedIsWritten(w, a, separated);
    AppendTwice(Initial<V>(), w, a, e.text, CallArgs(c));
    AppendedIsWritten(next, a + CallArgs(c), nextSeparated);
  }

  /** A call with a plain `&str` fragment binds no value. */
  lemma TextStep<V>(w: string, a: seq<V>, separated: bool, c: Call<V>, next: string, nextSeparated: bool)
    requires c.frag.Str? && w != [] && w[0] != '?'
    requires w + WrittenCall(c, separated, false).text == next
    requires WrittenCall(c, separated, false).separated == nextSeparated
    ensures Apply(WrittenState(w, a, separated), c) == WrittenState(next, a, nextSeparated)
  {
    Step(w, a, separated, c, next, nextSeparated);
    assert a + CallArgs(c) == a + [] == a;
  }

  /** A query that has written `s` renders it back, `?`s in place, numbered in order when indexed. */
  lemma WrittenRenders<V>(s: string, a: seq<V>, separated: bool)
    requires s != [] && s[0] != '?'
    ensures var st := WrittenState(s, a, separated);
      && Render.Render(st.buffer, st.argIndexes, false) == Some(s)
      && Render.Render(st.buffer, st.argIndexes, true) == Some(NumberMarkers(s, 1))
  {
    RenderInvertsAppend(s);
    IndexedRenderNumbersMarkers(Stripped(s), Offsets(s, 0));
  }

  /** A closure of two `or`s of comparisons, pushed with `and` on a separated query. */
  lemma ParenthesisedOrs<V>(d: string, e: string, ten: V, twenty: V)
    ensures var c := And(Closure([Or(Tuple(d + "?", [ten])), Or(Tuple(e + "?", [twenty]))]));
      && NoSubs(c.frag)
      && WrittenCall(c, true, false) == Effect(" AND ( " + d + "?" + " OR " + e + "?" + ")", true)
      && CallArgs(c) == [ten, twenty]
  {
    var body := [Or(Tuple(d + "?", [ten])), Or(Tuple(e + "?", [twenty]))];
    var tail := [Or(Tuple(e + "?", [twenty]))];
    assert body[1..] == tail && tail[1..] == [];
    assert WrittenCall(tail[0], true, false) == Effect(" OR " + (e + "?"), true);
    assert WrittenCalls(tail[1..], true, false) == Effect([], true);
    assert WrittenCalls(tail, true, false) == Effect(" OR " + (e + "?") + [], true);
    assert CallsArgs(tail[1..]) == [];
    assert CallArgs(tail[0]) == [twenty];
    assert CallsArgs(tail) == [twenty] + [];
    assert CallArgs(body[0]) == [ten];
    assert CallsArgs(body) == [ten] + [twenty];
    assert WrittenCall(body[0], false, false) == Effect(" " + (d + "?"), true);
    var inner := WrittenCalls(body, false, false).text;
    assert inner == " " + (d + "?") + (" OR " + (e + "?") + []);
    assert " AND " + ("(" + inner + ")") == " AND ( " + d + "?" + " OR " + e + "?" + ")";
  }

  /** `comma` three times after `Query::new(select)`: a space, then commas. */
  lemma CommaList<V>(select: string, a: string, b: string, c: string)
    requires select != [] && select[0] != '?'
    ensures var st := PushFragment(Initial<V>(), Str(select));
      Apply(Apply(Apply(st, Comma(Str(a))), Comma(Str(b))), Comma(Str(c)))
        == WrittenState(select + " " + a + "," + b + "," + c, [], true)
  {
    var st := PushFragment(Initial<V>(), Str(select));
    assert st == WrittenState(select, [], false) by {
      AppendedIsWritten<V>(select, [], false);
    }
    var s1 := select + " " + a;
    var st1 := Apply(st, Comma(Str(a)));
    assert st1 == WrittenState(s1, [], true) by {
      assert WrittenCall<V>(Comma(Str(a)), false, false) == Effect(" " + a, true);
      assert select + (" " + a) == s1;
      TextStep<V>(select, [], false, Comma(Str(a)), s1, true);
    }
    var s2 := s1 + "," + b;
    var st2 := Apply(st1, Comma(Str(b)));
    assert st2 == WrittenState(s2, [], true) by {
      assert WrittenCall<V>(Comma(Str(b)), true, false) == Effect("," + b, true);
      assert s1 + ("," + b) == s2 && s1[0] == select[0];
      TextStep<V>(s1, [], true, Comma(Str(b)), s2, true);
    }
    assert WrittenCall<V>(Comma(Str(c)), true, false) == Effect("," + c, true);
    assert s2 + ("," + c) == s2 + "," + c && s2[0] == select[0];
    TextStep<V>(s2, [], true, Comma(Str(c)), s2 + "," + c, true);
  }

  /** `push` clears the flag, so the `and` after it joins with a space. */
  lemma PushThenAnd<V>(w: string, separated: bool, from: string, foo: string)
    requires w != [] && w[0] != '?'
    ensures Apply(Apply(WrittenState<V>(w, [], separated), Push(Str(from))), And(Str(foo)))
         == WrittenState(w + " " + from + " " + foo, [], true)
  {
    TextStep<V>(w, [], separated, Push(Str(from)), w + " " + from, false);
    TextStep<V>(w + " " + from, [], false, And(Str(foo)), w + " " + from + " " + foo, true);
  }

  /** On a separated query, `and` of a comparison and then of a closure of two `or`s of comparisons. */
  lemma AndThenClosure<V>(w: string, bar: string, d: string, e: string, one: V, ten: V, twenty: V)
    requires w != [] && w[0] != '?'
    ensures var body := [Or(Tuple(d + "?", [ten])), Or(Tuple(e + "?", [twenty]))];
      Apply(Apply(WrittenState<V>(w, [], true), And(Tuple(bar + "?", [one]))), And(Closure(body)))
        == WrittenState(w + " AND " + bar + "?" + (" AND ( " + d + "?" + " OR " + e + "?" + ")"), [one, ten, twenty], true)
  {
    var s6 := w + " AND " + bar + "?";
    assert w + (" AND " + (bar + "?")) == s6;
    assert [] + CallArgs(And(Tuple(bar + "?", [one]))) == [one];
    Step<V>(w, [], true, And(Tuple(bar + "?", [one])), s6, true);
    var body := [Or(Tuple(d + "?", [ten])), Or(Tuple(e + "?", [twenty]))];
    ParenthesisedOrs(d, e, ten, twenty);
    assert [one] + [ten, twenty] == [one, ten, twenty];
    Step<V>(s6, [one], true, And(Closure(body)), s6 + (" AND ( " + d + "?" + " OR " + e + "?" + ")"), true);
  }

  /** Plain text at the end is copied as it is and adds no marker. */
  lemma PlainTail(w: string, t: string, c: nat)
    requires '?' !in t
    ensures NumberMarkers(w + t, c) == NumberMarkers(w, c) + t
    ensures Count(w + t) == Count(w)
  {
    NumberMarkersAppend(w, t, c);
    NumberMarkersPlain(t, c + Count(w));
    CountAppend(w, t);
  }

  /** A `?` at the end becomes the marker `m` numbered after those before it. */
  lemma MarkerTail(w: string, c: nat, m: string)
    requires m == "$" + Decimal(c + Count(w))
    ensures NumberMarkers(w + "?", c) == NumberMarkers(w, c) + m
    ensures Count(w + "?") == Count(w) + 1
  {
    NumberMarkersAppend(w, "?", c);
    CountAppend(w, "?");
    assert "?"[1..] == [];
  }

  /** Plain glue, plain text and a `?` at the end: the glue and text are copied, the `?` numbered. */
  lemma MarkedPiece(w: string, glue: string, x: string, c: nat, m: string)
    requires '?' !in glue && '?' !in x
    requires m == "$" + Decimal(c + Count(w))
    ensures NumberMarkers(w + glue + x + "?", c) == NumberMarkers(w, c) + glue + x + m
    ensures Count(w + glue + x + "?") == Count(w) + 1
  {
    PlainTail(w, glue, c);
    PlainTail(w + glue, x, c);
    MarkerTail(w + glue + x, c, m);
  }

  /** Two `?`s between plain pieces are numbered `m1` and `m2`, counting from `c`. */
  lemma TwoMarked(g1: string, d: string, g2: string, e: string, g3: string, c: nat, m1: string, m2: string)
    requires '?' !in g1 && '?' !in d && '?' !in g2 && '?' !in e && '?' !in g3
    requires m1 == "$" + Decimal(c) && m2 == "$" + Decimal(c + 1)
    ensures NumberMarkers(g1 + d + "?" + g2 + e + "?" + g3, c) == g1 + d + m1 + g2 + e + m2 + g3
  {
    MarkedPiece([], g1, d, c, m1);
    assert [] + g1 == g1;
    var y3 := g1 + d + "?";
    MarkedPiece(y3, g2, e, c, m2);
    PlainTail(y3 + g2 + e + "?", g3, c);
  }

  /** The closure of `simple_query` after one earlier placeholder: its markers are `$2` and `$3`. */
  lemma ClosureNumbered(d: string, e: string)
    requires '?' !in d && '?' !in e
    ensures NumberMarkers(" AND ( " + d + "?" + " OR " + e + "?" + ")", 2)
         == " AND ( " + d + "$2" + " OR " + e + "$3" + ")"
  {
    assert Decimal(2) == "2" && Decimal(3) == "3";
    TwoMarked(" AND ( ", d, " OR ", e, ")", 2, "$2", "$3");
  }

  /** The three placeholders of `simple_query` are numbered `$1`, `$2`, `$3` in order. */
  lemma SimpleQueryNumbered(p: string, d: string, e: string)
    requires '?' !in p && '?' !in d && '?' !in e
    ensures NumberMarkers(p + "?" + (" AND ( " + d + "?" + " OR " + e + "?" + ")"), 1)
         == p + "$1" + (" AND ( " + d + "$2" + " OR " + e + "$3" + ")")
  {
    NumberMarkersPlain(p, 1);
    assert Decimal(1) == "1";
    MarkerTail(p, 1, "$1");
    ClosureNumbered(d, e);
    NumberMarkersAppend(p + "?", " AND ( " + d + "?" + " OR " + e + "?" + ")", 1);
  }

  /**
   * `simple_query`, for any plain text pieces and any three values: the
   * builder calls of the test, in order, on a `Query` object. Each `?` of
   * the test is the `?` after `bar`, `d` and `e`.
   */
  method SimpleQuery<V>(select: string, a: string, b: string, c: string, from: string, foo: string,
                        bar: string, d: string, e: string, one: V, ten: V, twenty: V)
      returns (sql: Option<string>, numbered: Option<string>, args: seq<V>)
    requires select != [] && '?' !in select && '?' !in a && '?' !in b && '?' !in c
    requires '?' !in from && '?' !in foo && '?' !in bar && '?' !in d && '?' !in e
    ensures var p := select + " " + a + "," + b + "," + c + " " + from + " " + foo + " AND " + bar;
      && sql == Some(p + "?" + (" AND ( " + d + "?" + " OR " + e + "?" + ")"))
      && numbered == Some(p + "$1" + (" AND ( " + d + "$2" + " OR " + e + "$3" + ")"))
    ensures args == [one, ten, twenty]
  {
    var w3 := select + " " + a + "," + b + "," + c;
    var w5 := w3 + " " + from + " " + foo;
    var p := w5 + " AND " + bar;
    assert '?' !in p;
    var q := new Query.New(Str(select));
    q.Comma(Str(a));
    q.Comma(Str(b));
    q.Comma(Str(c));
    assert select[0] in select;
    CommaList<V>(select, a, b, c);
    q.Push(Str(from));
    q.And(Str(foo));
    assert w3[0] == select[0];
    PushThenAnd<V>(w3, true, from, foo);
    var body := [Or(Tuple(d + "?", [ten])), Or(Tuple(e + "?", [twenty]))];
    q.And(Tuple(bar + "?", [one]));
    q.And(Closure(body));
    assert w5[0] == select[0];
    AndThenClosure<V>(w5, bar, d, e, one, ten, twenty);
    var text := p + "?" + (" AND ( " + d + "?" + " OR " + e + "?" + ")");
    assert text[0] == select[0];
    WrittenRenders(text, [one, ten, twenty], true);
    SimpleQueryNumbered(p, d, e);
    sql := q.Fmt(false);
    numbered := q.Fmt(true);
    args := q.IntoArgs();
  }

  /** The text of `simple_query` up to its first placeholder, assembled from the test's pieces. */
  lemma SimpleQueryPrefix()
    ensures "SELECT" + " " + "a" + "," + "b" + "," + "c" + " " + "FROM foobar WHERE" + " " + "foo = 'bar'"
            + " AND " + "bar = " == "SELECT a,b,c FROM foobar WHERE foo = 'bar' AND bar = "
  {
    assert "SELECT" + " " == "SELECT ";
    assert "SELECT " + "a" == "SELECT a";
    assert "SELECT a" + "," == "SELECT a,";
    assert "SELECT a," + "b" == "SELECT a,b";
    assert "SELECT a,b" + "," == "SELECT a,b,";
    assert "SELECT a,b," + "c" == "SELECT a,b,c";
    assert "SELECT a,b,c" + " " == "SELECT a,b,c ";
    assert "SELECT a,b,c " + "FROM foobar WHERE" == "SELECT a,b,c FROM foobar WHERE";
    assert "SELECT a,b,c FROM foobar WHERE" + " " == "SELECT a,b,c FROM foobar WHERE ";
    assert "SELECT a,b,c FROM foobar WHERE " + "foo = 'bar'" == "SELECT a,b,c FROM foobar WHERE foo = 'bar'";
    assert "SELECT a,b,c FROM foobar WHERE foo = 'bar'" + " AND " == "SELECT a,b,c FROM foobar WHERE foo = 'bar' AND ";
  }

  /** The rest of `simple_query`'s text, with `?` markers. */
  lemma SimpleQueryTail()
    ensures "SELECT a,b,c FROM foobar WHERE foo = 'bar' AND bar = " + "?"
            + (" AND ( " + "d = " + "?" + " OR " + "e != " + "?" + ")")
         == "SELECT a,b,c FROM foobar WHERE foo = 'bar' AND bar = ? AND ( d = ? OR e != ?)"
  {
    SimpleQueryClosure();
    assert "SELECT a,b,c FROM foobar WHERE foo = 'bar' AND bar = " + "?" == "SELECT a,b,c FROM foobar WHERE foo = 'bar' AND bar = ?";
  }

  /** The closure of `simple_query`, with `?` markers. */
  lemma SimpleQueryClosure()
    ensures " AND ( " + "d = " + "?" + " OR " + "e != " + "?" + ")" == " AND ( d = ? OR e != ?)"
  {
    assert " AND ( " + "d = " == " AND ( d = ";
    assert " AND ( d = " + "?" == " AND ( d = ?";
    assert " AND ( d = ?" + " OR " == " AND ( d = ? OR ";
    assert " AND ( d = ? OR " + "e != " == " AND ( d = ? OR e != ";
    assert " AND ( d = ? OR e != " + "?" == " AND ( d = ? OR e != ?";
  }

  /** The rest of `simple_query`'s text, with numbered markers. */
  lemma SimpleQueryNumberedTail()
    ensures "SELECT a,b,c FROM foobar WHERE foo = 'bar' AND bar = " + "$1"
            + (" AND ( " + "d = " + "$2" + " OR " + "e != " + "$3" + ")")
         == "SELECT a,b,c FROM foobar WHERE foo = 'bar' AND bar = $1 AND ( d = $2 OR e != $3)"
  {
    SimpleQueryNumberedClosure();
    assert "SELECT a,b,c FROM foobar WHERE foo = 'bar' AND bar = " + "$1" == "SELECT a,b,c FROM foobar WHERE foo = 'bar' AND bar = $1";
  }

  /** The closure of `simple_query`, with numbered markers. */
  lemma SimpleQueryNumberedClosure()
    ensures " AND ( " + "d = " + "$2" + " OR " + "e != " + "$3" + ")" == " AND ( d = $2 OR e != $3)"
  {
    assert " AND ( " + "d = " == " AND ( d = ";
    assert " AND ( d = " + "$2" == " AND ( d = $2";
    assert " AND ( d = $2" + " OR " == " AND ( d = $2 OR ";
    assert " AND ( d = $2 OR " + "e != " == " AND ( d = $2 OR e != ";
    assert " AND ( d = $2 OR e != " + "$3" == " AND ( d = $2 OR e != $3";
  }

  /** `simple_query` with the test's own text and its values as the default build binds them, as strings. */
  method SimpleQueryTest() returns (sql: Option<string>, numbered: Option<string>, args: seq<string>)
    ensures sql == Some("SELECT a,b,c FROM foobar WHERE foo = 'bar' AND bar = ? AND ( d = ? OR e != ?)")
    ensures numbered == Some("SELECT a,b,c FROM foobar WHERE foo = 'bar' AND bar = $1 AND ( d = $2 OR e != $3)")
    ensures args == ["1", "10", "20"]
  {
    sql, numbered, args := SimpleQuery("SELECT", "a", "b", "c", "FROM foobar WHERE", "foo = 'bar'",
                                       "bar = ", "d = ", "e != ", "1", "10", "20");
    SimpleQueryPrefix();
    SimpleQueryTail();
    SimpleQueryNumberedTail();
  }
}
