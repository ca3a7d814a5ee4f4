/**
 * The placeholder-binding query buffer of src/query.rs as values: the
 * fields of `struct Query`, the fragments it accepts (`impl Fragment`), the
 * joining calls `push`/`and`/`or`/`comma`, and the merge of a sub-query.
 * The class in query.dfy is proved against these functions.
 */
module QuerySpec {
  import opened Placeholders
  import opened Render

  /** The fields of `struct Query`. */
  datatype State<V> = State(
    args: seq<V>,
    argIndexes: seq<nat>,
    buffer: string,
    cursor: nat,
    separated: bool)

  /** `Query::empty()`, the derived default. */
  function Initial<V>(): State<V>
  {
    State([], [], [], 0, false)
  }

  /**
   * The implementors of `Fragment`: `&str`, `(&str, A[, B[, C]])`, a closure
   * over `&mut Query` (given as the builder calls its body makes) and a
   * `Query` moved in as a sub-query.
   */
  datatype Fragment<V> =
    | Str(text: string)
    | Tuple(text: string, values: seq<V>)
    | Closure(body: seq<Call<V>>)
    | Sub(query: State<V>)

  /** A call of `push`, `and`, `or` or `comma` with its fragment. */
  datatype Call<V> =
    | Push(frag: Fragment<V>)
    | And(frag: Fragment<V>)
    | Or(frag: Fragment<V>)
    | Comma(frag: Fragment<V>)

  /** `append_buffer_with_args`. */
  function AppendText<V>(st: State<V>, text: string, values: seq<V>): State<V>
  {
    st.(buffer := st.buffer + Stripped(text),
        argIndexes := st.argIndexes + Offsets(text, st.cursor),
        cursor := st.cursor + |Stripped(text)|,
        args := st.args + values)
  }

  /** `and`/`or`/`comma`: the glue when separated, else a space unless the buffer is empty. */
  function Joined<V>(st: State<V>, glue: string, f: Fragment<V>): State<V>
    decreases f, 2
  {
    var s := if st.separated then AppendText(st, glue, [])
             else if st.buffer != [] then AppendText(st, " ", [])
             else st;
    PushFragment(s, f).(separated := true)
  }

  function Apply<V>(st: State<V>, c: Call<V>): State<V>
    decreases c
  {
    match c
    case Push(f) =>
      var s := st.(separated := false);
      PushFragment(if s.buffer != [] then AppendText(s, " ", []) else s, f)
    case And(f) => Joined(st, " AND ", f)
    case Or(f) => Joined(st, " OR ", f)
    case Comma(f) => Joined(st, ",", f)
  }

  /** The calls a closure body makes, in order. */
  function RunCalls<V>(st: State<V>, body: seq<Call<V>>): State<V>
    decreases body, 0
  {
    if body == [] then st else RunCalls(Apply(st, body[0]), body[1..])
  }

  /** `Fragment::push_to_query`. */
  function PushFragment<V>(st: State<V>, f: Fragment<V>): State<V>
    decreases f, 1
  {
    match f
    case Str(t) => AppendText(st, t, [])
    case Tuple(t, vs) => AppendText(st, t, vs)
    case Closure(body) =>
      if st.separated then
        var paren := AppendText(st.(separated := false), "(", []);
        AppendText(RunCalls(paren, body).(separated := true), ")", [])
      else
        RunCalls(st, body)
    case Sub(q) => MergeAsWritten(st, q)
  }

  /**
   * `impl Fragment for Query` as written: the host cursor is advanced by
   * the sub-query's cursor and then again while its buffer is copied.
   */
  function MergeAsWritten<V>(st: State<V>, q: State<V>): State<V>
  {
    var withArgs := st.(args := st.args + q.args);
    var paren := if withArgs.separated then AppendText(withArgs, "(", []) else withArgs;
    var shifted := paren.(argIndexes := paren.argIndexes + Shift(q.argIndexes, paren.cursor),
                           cursor := paren.cursor + q.cursor);
    var copied := AppendText(shifted, q.buffer, []);
    if copied.separated then AppendText(copied, ")", []) else copied
  }

  /** The merge without the extra cursor advance: copying the buffer moves the cursor once. */
  function MergeKeepingCursor<V>(st: State<V>, q: State<V>): State<V>
  {
    var withArgs := st.(args := st.args + q.args);
    var paren := if withArgs.separated then AppendText(withArgs, "(", []) else withArgs;
    var shifted := paren.(argIndexes := paren.argIndexes + Shift(q.argIndexes, paren.cursor));
    var copied := AppendText(shifted, q.buffer, []);
    if copied.separated then AppendText(copied, ")", []) else copied
  }

  // ---------------------------------------------------------------------------
  // Invariants.

  /**
   * What every reachable query satisfies: no `?` left in the buffer, offsets
   * in order and never beyond the cursor, and the cursor never behind the
   * end of the buffer.
   */
  predicate Valid<V>(st: State<V>)
  {
    && '?' !in st.buffer
    && |st.buffer| <= st.cursor
    && Sorted(st.argIndexes)
    && forall i :: 0 <= i < |st.argIndexes| ==> st.argIndexes[i] <= st.cursor
  }

  /** Valid, with the cursor exactly at the end of the buffer. */
  predicate Aligned<V>(st: State<V>)
  {
    Valid(st) && st.cursor == |st.buffer|
  }

  /** Every sub-query inside `f` is valid. */
  predicate WellFormed<V>(f: Fragment<V>)
    decreases f
  {
    match f
    case Sub(q) => Valid(q)
    case Closure(body) => forall i :: 0 <= i < |body| ==> WellFormed(body[i].frag)
    case _ => true
  }

  /** `f` merges no sub-query. */
  predicate NoSubs<V>(f: Fragment<V>)
    decreases f
  {
    match f
    case Sub(_) => false
    case Closure(body) => forall i :: 0 <= i < |body| ==> NoSubs(body[i].frag)
    case _ => true
  }

  lemma SortedConcat(a: seq<nat>, b: seq<nat>, m: nat)
    requires Sorted(a) && Sorted(b)
    requires forall i :: 0 <= i < |a| ==> a[i] <= m
    requires forall i :: 0 <= i < |b| ==> m <= b[i]
    ensures Sorted(a + b)
  {
  }

  /** Appending text keeps a query valid, and aligned if it was. */
  lemma AppendKeepsValid<V>(st: State<V>, text: string, values: seq<V>)
    requires Valid(st)
    ensures Valid(AppendText(st, text, values))
    ensures Aligned(st) ==> Aligned(AppendText(st, text, values))
  {
    OffsetsSorted(text, st.cursor);
    SortedConcat(st.argIndexes, Offsets(text, st.cursor), st.cursor);
  }

  /** Appending glue that holds no `?`: copied verbatim, no offset recorded. */
  lemma AppendPlain<V>(st: State<V>, glue: string, values: seq<V>)
    requires '?' !in glue
    ensures AppendText(st, glue, values)
         == st.(buffer := st.buffer + glue, cursor := st.cursor + |glue|, args := st.args + values)
  {
    PlainText(glue, st.cursor);
  }

  lemma GluesArePlain()
    ensures '?' !in " " && '?' !in " AND " && '?' !in " OR " && '?' !in ","
    ensures '?' !in "(" && '?' !in ")"
  {
  }

  // ---------------------------------------------------------------------------
  // Merging a sub-query.

  /**
   * Merging a valid sub-query: its args follow the host's, its offsets are
   * shifted by the host cursor measured after any `(`, and its text is
   * parenthesised exactly when the host is separated. The cursor ends up
   * advanced by the sub-query's cursor on top of the copied text.
   */
  lemma MergeAsWrittenEffect<V>(st: State<V>, q: State<V>)
    requires '?' !in q.buffer
    ensures var open := if st.separated then 1 else 0;
      var r := MergeAsWritten(st, q);
      && r.args == st.args + q.args
      && r.argIndexes == st.argIndexes + Shift(q.argIndexes, st.cursor + open)
      && r.buffer == st.buffer + (if st.separated then "(" + q.buffer + ")" else q.buffer)
      && r.cursor == st.cursor + q.cursor + |q.buffer| + 2 * open
      && r.separated == st.separated
  {
    GluesArePlain();
    var withArgs := st.(args := st.args + q.args);
    var paren := if withArgs.separated then AppendText(withArgs, "(", []) else withArgs;
    if withArgs.separated {
      AppendPlain(withArgs, "(", []);
    }
    var shifted := paren.(argIndexes := paren.argIndexes + Shift(q.argIndexes, paren.cursor),
                           cursor := paren.cursor + q.cursor);
    AppendPlain(shifted, q.buffer, []);
    var copied := AppendText(shifted, q.buffer, []);
    if copied.separated {
      AppendPlain(copied, ")", []);
      assert copied.buffer + ")" == st.buffer + ("(" + q.buffer + ")");
    }
  }

  /** The corrected merge: as above, but the cursor moves by the copied text only. */
  lemma MergeKeepingCursorEffect<V>(st: State<V>, q: State<V>)
    requires '?' !in q.buffer
    ensures var open := if st.separated then 1 else 0;
      var r := MergeKeepingCursor(st, q);
      && r.args == st.args + q.args
      && r.argIndexes == st.argIndexes + Shift(q.argIndexes, st.cursor + open)
      && r.buffer == st.buffer + (if st.separated then "(" + q.buffer + ")" else q.buffer)
      && r.cursor == st.cursor + |q.buffer| + 2 * open
      && r.separated == st.separated
  {
    GluesArePlain();
    var withArgs := st.(args := st.args + q.args);
    var paren := if withArgs.separated then AppendText(withArgs, "(", []) else withArgs;
    if withArgs.separated {
      AppendPlain(withArgs, "(", []);
    }
    var shifted := paren.(argIndexes := paren.argIndexes + Shift(q.argIndexes, paren.cursor));
    AppendPlain(shifted, q.buffer, []);
    var copied := AppendText(shifted, q.buffer, []);
    if copied.separated {
      AppendPlain(copied, ")", []);
      assert copied.buffer + ")" == st.buffer + ("(" + q.buffer + ")");
    }
  }

  /** Merging a valid sub-query keeps the host valid. */
  lemma MergeKeepsValid<V>(st: State<V>, q: State<V>)
    requires Valid(st) && Valid(q)
    ensures Valid(MergeAsWritten(st, q))
  {
    MergeAsWrittenEffect(st, q);
    var open := if st.separated then 1 else 0;
    var shifted := Shift(q.argIndexes, st.cursor + open);
    var r := MergeAsWritten(st, q);
    assert '?' !in r.buffer by {
      WrappedPlain(st.buffer, q.buffer, st.separated);
    }
    assert Sorted(r.argIndexes) by {
      SortedConcat(st.argIndexes, shifted, st.cursor + open);
    }
  }

  /** Text without `?` stays without `?` once copied after a host, in parentheses or not. */
  lemma WrappedPlain(host: string, t: string, wrapped: bool)
    requires '?' !in host && '?' !in t
    ensures '?' !in host + (if wrapped then "(" + t + ")" else t)
  {
    var u := if wrapped then "(" + t + ")" else t;
    assert forall x :: x in u ==> x in t || x == '(' || x == ')';
  }

  /**
   * As written, merging a non-empty aligned sub-query into an aligned host
   * leaves the cursor past the end of the buffer by the sub-query's length.
   */
  lemma MergeDrifts<V>(st: State<V>, q: State<V>)
    requires Aligned(st) && Aligned(q)
    ensures MergeAsWritten(st, q).cursor == |MergeAsWritten(st, q).buffer| + |q.buffer|
  {
    MergeAsWrittenEffect(st, q);
  }

  /** The corrected merge keeps both the validity and the alignment of the host. */
  lemma MergeKeepingCursorAligned<V>(st: State<V>, q: State<V>)
    requires Aligned(st) && Aligned(q)
    ensures Aligned(MergeKeepingCursor(st, q))
  {
    MergeKeepingCursorEffect(st, q);
    var open := if st.separated then 1 else 0;
    var shifted := Shift(q.argIndexes, st.cursor + open);
    var r := MergeKeepingCursor(st, q);
    assert '?' !in r.buffer by {
      WrappedPlain(st.buffer, q.buffer, st.separated);
    }
    assert Sorted(r.argIndexes) by {
      SortedConcat(st.argIndexes, shifted, st.cursor + open);
    }
  }

  /** An aligned query renders without panicking. */
  lemma AlignedRenders<V>(st: State<V>, indexed: bool)
    requires Aligned(st)
    ensures Render.Render(st.buffer, st.argIndexes, indexed).Some?
  {
  }

  /** Appending text whose only `?` is its last character. */
  lemma AppendTrailingPlaceholder<V>(st: State<V>, prefix: string, values: seq<V>)
    requires '?' !in prefix
    ensures AppendText(st, prefix + "?", values)
         == st.(buffer := st.buffer + prefix,
                argIndexes := st.argIndexes + [st.cursor + |prefix|],
                cursor := st.cursor + |prefix|,
                args := st.args + values)
  {
    StrippedAppend(prefix, "?");
    OffsetsAppend(prefix, "?", st.cursor);
    PlainText(prefix, st.cursor);
  }

  /**
   * `Query::new(x)` followed by `push(Query::new(ab))`, as written: the
   * cursor ends `|ab|` past the end of the buffer.
   */
  lemma MergeAsWrittenOfText<V>(x: string, ab: string)
    requires x != [] && '?' !in x && '?' !in ab
    ensures var sub := PushFragment(Initial<V>(), Str(ab));
      Apply(PushFragment(Initial<V>(), Str(x)), Push(Sub(sub)))
        == State([], [], x + " " + ab, |x| + 1 + 2 * |ab|, false)
  {
    var start := Initial<V>();
    var xs := PushFragment(start, Str(x));
    assert xs == State([], [], x, |x|, false) by {
      AppendPlain(start, x, []);
    }
    var sub := PushFragment(start, Str(ab));
    assert sub == State([], [], ab, |ab|, false) by {
      AppendPlain(start, ab, []);
    }
    var host := AppendText(xs, " ", []);
    assert host == State([], [], x + " ", |x| + 1, false) by {
      GluesArePlain();
      AppendPlain(xs, " ", []);
    }
    assert Apply(xs, Push(Sub(sub))) == MergeAsWritten(host, sub) by {
      assert xs.(separated := false) == xs;
    }
    MergeAsWrittenEffect(host, sub);
  }

  /** `push((c + "?", v))` onto a non-empty buffer: a space, the comparison, one placeholder. */
  lemma PushComparison<V>(st: State<V>, c: string, v: V)
    requires st.buffer != [] && '?' !in c
    ensures Apply(st, Push(Tuple(c + "?", [v])))
         == st.(buffer := st.buffer + " " + c,
                argIndexes := st.argIndexes + [st.cursor + 1 + |c|],
                cursor := st.cursor + 1 + |c|,
                args := st.args + [v],
                separated := false)
  {
    GluesArePlain();
    var s := st.(separated := false);
    AppendPlain(s, " ", []);
    var spaced := AppendText(s, " ", []);
    AppendTrailingPlaceholder(spaced, c, [v]);
  }

  /**
   * `Query::new(x)`, `push(Query::new(ab))`, `push((c + "?", v))`: the
   * placeholder is recorded at `|x| + 2|ab| + |c| + 2` in a buffer of
   * `|x| + |ab| + |c| + 2` characters, so rendering panics as soon as the
   * sub-query is not empty (with `x = "x"`, `ab = "ab"` and `c = "c = "`:
   * offset 11 in 9 characters).
   */
  lemma CursorDriftBreaksRendering<V>(x: string, ab: string, c: string, v: V)
    requires x != [] && ab != [] && '?' !in x && '?' !in ab && '?' !in c
    ensures var sub := PushFragment(Initial<V>(), Str(ab));
      var drifted := Apply(Apply(PushFragment(Initial<V>(), Str(x)), Push(Sub(sub))), Push(Tuple(c + "?", [v])));
      && drifted.buffer == x + " " + ab + " " + c && drifted.argIndexes == [|x| + 2 * |ab| + |c| + 2]
      && Render.Render(drifted.buffer, drifted.argIndexes, false).None?
  {
    var sub := PushFragment(Initial<V>(), Str(ab));
    var merged := Apply(PushFragment(Initial<V>(), Str(x)), Push(Sub(sub)));
    assert merged == State([], [], x + " " + ab, |x| + 1 + 2 * |ab|, false) by {
      MergeAsWrittenOfText<V>(x, ab);
    }
    PushComparison(merged, c, v);
    assert [] + [merged.cursor + 1 + |c|] == [|x| + 2 * |ab| + |c| + 2];
  }

  /**
   * The same calls with the corrected merge render the placeholder in place,
   * for any host text `x`, sub-query text `ab` and comparison `c`.
   */
  lemma CursorKeptRendersExample<V>(x: string, ab: string, c: string, v: V)
    requires x != [] && '?' !in x && '?' !in ab && '?' !in c
    ensures var sub := PushFragment(Initial<V>(), Str(ab));
      var host := AppendText(PushFragment(Initial<V>(), Str(x)), " ", []);
      var kept := Apply(MergeKeepingCursor(host, sub), Push(Tuple(c + "?", [v])));
      Render.Render(kept.buffer, kept.argIndexes, false) == Some(x + " " + ab + " " + c + "?")
  {
    CursorKeptState(x, ab, c, v);
    RenderOfKept(x, ab, c);
  }

  lemma RenderOfKept(x: string, ab: string, c: string)
    requires x != [] && '?' !in x && '?' !in ab && '?' !in c
    ensures Render.Render(x + " " + ab + " " + c, [|x| + |ab| + |c| + 2], false) == Some(x + " " + ab + " " + c + "?")
  {
    var p := x + " " + ab + " " + c;
    assert '?' !in " ";
    RenderTrailingPlaceholder(p);
  }

  lemma CursorKeptState<V>(x: string, ab: string, c: string, v: V)
    requires '?' !in x && '?' !in ab && '?' !in c
    ensures var sub := PushFragment(Initial<V>(), Str(ab));
      var host := AppendText(PushFragment(Initial<V>(), Str(x)), " ", []);
      var kept := Apply(MergeKeepingCursor(host, sub), Push(Tuple(c + "?", [v])));
      kept.buffer == x + " " + ab + " " + c && kept.argIndexes == [|x| + |ab| + |c| + 2]
  {
    var sub := PushFragment(Initial<V>(), Str(ab));
    var host := AppendText(PushFragment(Initial<V>(), Str(x)), " ", []);
    var fixed := MergeKeepingCursor(host, sub);
    assert fixed == State([], [], x + " " + ab, |x| + 1 + |ab|, false) by {
      CorrectedMergeOfText<V>(x, ab);
    }
    PushComparison(fixed, c, v);
    assert [] + [fixed.cursor + 1 + |c|] == [|x| + |ab| + |c| + 2];
  }

  /** `Query::new(x)` with `Query::new(ab)` merged by the corrected merge. */
  lemma CorrectedMergeOfText<V>(x: string, ab: string)
    requires '?' !in x && '?' !in ab
    ensures var sub := PushFragment(Initial<V>(), Str(ab));
      var host := AppendText(PushFragment(Initial<V>(), Str(x)), " ", []);
      MergeKeepingCursor(host, sub) == State([], [], x + " " + ab, |x| + 1 + |ab|, false)
  {
    GluesArePlain();
    var start := Initial<V>();
    AppendPlain(start, ab, []);
    AppendPlain(start, x, []);
    var xs := AppendText(start, x, []);
    AppendPlain(xs, " ", []);
    var host := AppendText(xs, " ", []);
    var sub := AppendText(start, ab, []);
    MergeKeepingCursorEffect(host, sub);
  }

  /** A buffer whose only placeholder sits at its end renders with a trailing `?`. */
  lemma RenderTrailingPlaceholder(prefix: string)
    requires '?' !in prefix && prefix != []
    ensures Render.Render(prefix, [|prefix|], false) == Some(prefix + "?")
  {
    var s := prefix + "?";
    StrippedAppend(prefix, "?");
    OffsetsAppend(prefix, "?", 0);
    PlainText(prefix, 0);
    assert Stripped("?") == [] && Offsets("?", |prefix|) == [|prefix|];
    assert Stripped(s) == prefix && Offsets(s, 0) == [|prefix|];
    assert s[0] == prefix[0] && prefix[0] in prefix;
    RenderInvertsAppend(s);
  }

  // ---------------------------------------------------------------------------
  // Args.

  /** The values a fragment carries, in order. */
  function ArgsOf<V>(f: Fragment<V>): seq<V>
    decreases f, 1
  {
    match f
    case Str(_) => []
    case Tuple(_, vs) => vs
    case Closure(body) => CallsArgs(body)
    case Sub(q) => q.args
  }

  function CallsArgs<V>(body: seq<Call<V>>): seq<V>
    decreases body, 0
  {
    if body == [] then [] else CallArgs(body[0]) + CallsArgs(body[1..])
  }

  function CallArgs<V>(c: Call<V>): seq<V>
    decreases c
  {
    ArgsOf(c.frag)
  }

  /** Pushing a fragment appends exactly its values after the existing args. */
  lemma {:induction false} FragmentArgsAppended<V>(st: State<V>, f: Fragment<V>)
    ensures PushFragment(st, f).args == st.args + ArgsOf(f)
    decreases f, 1
  {
    match f
    case Str(_) =>
    case Tuple(_, _) =>
    case Closure(body) =>
      if st.separated {
        var paren := AppendText(st.(separated := false), "(", []);
        CallsArgsAppended(paren, body);
      } else {
        CallsArgsAppended(st, body);
      }
    case Sub(q) =>
  }

  lemma {:induction false} CallsArgsAppended<V>(st: State<V>, body: seq<Call<V>>)
    ensures RunCalls(st, body).args == st.args + CallsArgs(body)
    decreases body, 0
  {
    if body != [] {
      CallArgsAppended(st, body[0]);
      CallsArgsAppended(Apply(st, body[0]), body[1..]);
    }
  }

  lemma {:induction false} CallArgsAppended<V>(st: State<V>, c: Call<V>)
    ensures Apply(st, c).args == st.args + ArgsOf(c.frag)
    decreases c
  {
    var sep := if c.Push? then st.(separated := false) else st;
    var glue := match c
      case Push(_) => " " case And(_) => " AND " case Or(_) => " OR " case Comma(_) => ",";
    var s := if sep.separated then AppendText(sep, glue, [])
             else if sep.buffer != [] then AppendText(sep, " ", [])
             else sep;
    assert s.args == st.args;
    FragmentArgsAppended(s, c.frag);
  }

  // ---------------------------------------------------------------------------
  // Validity.

  /** Every fragment keeps a valid query valid. */
  lemma {:induction false} FragmentKeepsValid<V>(st: State<V>, f: Fragment<V>)
    requires Valid(st) && WellFormed(f)
    ensures Valid(PushFragment(st, f))
    decreases f, 1
  {
    match f
    case Str(t) => AppendKeepsValid(st, t, []);
    case Tuple(t, vs) => AppendKeepsValid(st, t, vs);
    case Closure(body) =>
      if st.separated {
        AppendKeepsValid(st.(separated := false), "(", []);
        var paren := AppendText(st.(separated := false), "(", []);
        CallsKeepValid(paren, body);
        AppendKeepsValid(RunCalls(paren, body).(separated := true), ")", []);
      } else {
        CallsKeepValid(st, body);
      }
    case Sub(q) => MergeKeepsValid(st, q);
  }

  lemma {:induction false} CallsKeepValid<V>(st: State<V>, body: seq<Call<V>>)
    requires Valid(st)
    requires forall i :: 0 <= i < |body| ==> WellFormed(body[i].frag)
    ensures Valid(RunCalls(st, body))
    decreases body, 0
  {
    if body != [] {
      CallKeepsValid(st, body[0]);
      CallsKeepValid(Apply(st, body[0]), body[1..]);
    }
  }

  lemma {:induction false} CallKeepsValid<V>(st: State<V>, c: Call<V>)
    requires Valid(st) && WellFormed(c.frag)
    ensures Valid(Apply(st, c))
    decreases c
  {
    var sep := if c.Push? then st.(separated := false) else st;
    var glue := match c
      case Push(_) => " " case And(_) => " AND " case Or(_) => " OR " case Comma(_) => ",";
    AppendKeepsValid(sep, glue, []);
    AppendKeepsValid(sep, " ", []);
    var s := if sep.separated then AppendText(sep, glue, [])
             else if sep.buffer != [] then AppendText(sep, " ", [])
             else sep;
    FragmentKeepsValid(s, c.frag);
  }

  /** Without sub-queries every call keeps the cursor at the end of the buffer. */
  lemma {:induction false} FragmentKeepsAligned<V>(st: State<V>, f: Fragment<V>)
    requires Aligned(st) && NoSubs(f)
    ensures Aligned(PushFragment(st, f))
    decreases f, 1
  {
    match f
    case Str(t) => AppendKeepsValid(st, t, []);
    case Tuple(t, vs) => AppendKeepsValid(st, t, vs);
    case Closure(body) =>
      if st.separated {
        AppendKeepsValid(st.(separated := false), "(", []);
        var paren := AppendText(st.(separated := false), "(", []);
        CallsKeepAligned(paren, body);
        AppendKeepsValid(RunCalls(paren, body).(separated := true), ")", []);
      } else {
        CallsKeepAligned(st, body);
      }
  }

  lemma {:induction false} CallsKeepAligned<V>(st: State<V>, body: seq<Call<V>>)
    requires Aligned(st)
    requires forall i :: 0 <= i < |body| ==> NoSubs(body[i].frag)
    ensures Aligned(RunCalls(st, body))
    decreases body, 0
  {
    if body != [] {
      CallKeepsAligned(st, body[0]);
      CallsKeepAligned(Apply(st, body[0]), body[1..]);
    }
  }

  lemma {:induction false} CallKeepsAligned<V>(st: State<V>, c: Call<V>)
    requires Aligned(st) && NoSubs(c.frag)
    ensures Aligned(Apply(st, c))
    decreases c
  {
    var sep := if c.Push? then st.(separated := false) else st;
    var glue := match c
      case Push(_) => " " case And(_) => " AND " case Or(_) => " OR " case Comma(_) => ",";
    AppendKeepsValid(sep, glue, []);
    AppendKeepsValid(sep, " ", []);
    var s := if sep.separated then AppendText(sep, glue, [])
             else if sep.buffer != [] then AppendText(sep, " ", [])
             else sep;
    FragmentKeepsAligned(s, c.frag);
  }

  // ---------------------------------------------------------------------------
  // Placeholders against bound values. The builder never compares the two:
  // a tuple's values are appended whatever number of `?` its text holds.

  /** As many recorded placeholders as bound values. */
  predicate Matched<V>(st: State<V>)
  {
    |st.argIndexes| == |st.args|
  }

  /** Every piece of `f` binds as many values as its text has placeholders. */
  predicate Balanced<V>(f: Fragment<V>)
    decreases f
  {
    match f
    case Str(t) => Count(t) == 0
    case Tuple(t, vs) => Count(t) == |vs|
    case Closure(body) => forall i :: 0 <= i < |body| ==> Balanced(body[i].frag)
    case Sub(q) => Matched(q) && '?' !in q.buffer
  }

  /** Balanced fragments keep the placeholders and the values in step. */
  lemma {:induction false} FragmentKeepsBalanced<V>(st: State<V>, f: Fragment<V>)
    requires Matched(st) && Balanced(f)
    ensures Matched(PushFragment(st, f))
    decreases f, 1
  {
    match f
    case Str(_) =>
    case Tuple(_, _) =>
    case Closure(body) =>
      GluesArePlain();
      PlainText("(", 0);
      PlainText(")", 0);
      if st.separated {
        var paren := AppendText(st.(separated := false), "(", []);
        CallsKeepBalanced(paren, body);
      } else {
        CallsKeepBalanced(st, body);
      }
    case Sub(q) => MergeAsWrittenEffect(st, q);
  }

  lemma {:induction false} CallsKeepBalanced<V>(st: State<V>, body: seq<Call<V>>)
    requires Matched(st)
    requires forall i :: 0 <= i < |body| ==> Balanced(body[i].frag)
    ensures Matched(RunCalls(st, body))
    decreases body, 0
  {
    if body != [] {
      CallKeepBalanced(st, body[0]);
      CallsKeepBalanced(Apply(st, body[0]), body[1..]);
    }
  }

  lemma {:induction false} CallKeepBalanced<V>(st: State<V>, c: Call<V>)
    requires Matched(st) && Balanced(c.frag)
    ensures Matched(Apply(st, c))
    decreases c
  {
    GluesArePlain();
    var sep := if c.Push? then st.(separated := false) else st;
    var glue := match c
      case Push(_) => " " case And(_) => " AND " case Or(_) => " OR " case Comma(_) => ",";
    PlainText(glue, 0);
    PlainText(" ", 0);
    var s := if sep.separated then AppendText(sep, glue, [])
             else if sep.buffer != [] then AppendText(sep, " ", [])
             else sep;
    FragmentKeepsBalanced(s, c.frag);
  }

  /**
   * A matched query that renders writes one marker per bound value exactly
   * when no placeholder was recorded at offset 0.
   */
  lemma MarkersMatchArgs<V>(st: State<V>)
    requires Valid(st) && Matched(st)
    requires Render.Render(st.buffer, st.argIndexes, false).Some?
    ensures Count(Render.Render(st.buffer, st.argIndexes, false).value) == |st.args|
        <==> forall i :: 0 <= i < |st.argIndexes| ==> st.argIndexes[i] != 0
  {
    RenderedMarkers(st.buffer, st.argIndexes);
    NonZeroLength(st.argIndexes);
  }

  // ---------------------------------------------------------------------------
  // The text each call adds, independently of offsets and args.

  /** The text a piece of building adds to the buffer, and the flag it leaves. */
  datatype Effect = Effect(text: string, separated: bool)

  /**
   * The joiner a call inserts before its fragment, given the flag and
   * whether the buffer is empty: `push` a space unless empty; `and`, `or`
   * and `comma` their glue when separated, else a space unless empty.
   */
  function Separator<V>(c: Call<V>, separated: bool, empty: bool): string
  {
    match c
    case Push(_) => if empty then [] else " "
    case And(_) => if separated then " AND " else if empty then [] else " "
    case Or(_) => if separated then " OR " else if empty then [] else " "
    case Comma(_) => if separated then "," else if empty then [] else " "
  }

  function CallText<V>(c: Call<V>, separated: bool, empty: bool): Effect
    decreases c
  {
    var sep := Separator(c, separated, empty);
    var e := FragmentText(c.frag, !c.Push? && separated, empty && sep == []);
    Effect(sep + e.text, !c.Push? || e.separated)
  }

  function CallsText<V>(body: seq<Call<V>>, separated: bool, empty: bool): Effect
    decreases body, 0
  {
    if body == [] then Effect([], separated)
    else
      var first := CallText(body[0], separated, empty);
      var rest := CallsText(body[1..], first.separated, empty && first.text == []);
      Effect(first.text + rest.text, rest.separated)
  }

  /**
   * A closure's body runs unseparated, wrapped in parentheses exactly when
   * the host was separated; a sub-query's text is wrapped the same way.
   */
  function FragmentText<V>(f: Fragment<V>, separated: bool, empty: bool): Effect
    decreases f, 1
  {
    match f
    case Str(t) => Effect(Stripped(t), separated)
    case Tuple(t, _) => Effect(Stripped(t), separated)
    case Closure(body) =>
      if separated then Effect("(" + CallsText(body, false, false).text + ")", true)
      else CallsText(body, false, empty)
    case Sub(q) =>
      Effect(if separated then "(" + Stripped(q.buffer) + ")" else Stripped(q.buffer), separated)
  }

  /** The text a sub-query merge adds, and the flag it keeps. */
  lemma MergeText<V>(st: State<V>, q: State<V>)
    ensures MergeAsWritten(st, q).buffer
         == st.buffer + (if st.separated then "(" + Stripped(q.buffer) + ")" else Stripped(q.buffer))
    ensures MergeAsWritten(st, q).separated == st.separated
  {
    GluesArePlain();
    var withArgs := st.(args := st.args + q.args);
    if withArgs.separated {
      AppendPlain(withArgs, "(", []);
    }
    var paren := if withArgs.separated then AppendText(withArgs, "(", []) else withArgs;
    var shifted := paren.(argIndexes := paren.argIndexes + Shift(q.argIndexes, paren.cursor),
                           cursor := paren.cursor + q.cursor);
    var copied := AppendText(shifted, q.buffer, []);
    if copied.separated {
      AppendPlain(copied, ")", []);
      assert copied.buffer + ")" == st.buffer + ("(" + Stripped(q.buffer) + ")");
    }
  }

  /** Pushing a fragment adds exactly its text and leaves the flag it describes. */
  lemma {:induction false} FragmentTextMatches<V>(st: State<V>, f: Fragment<V>)
    ensures var e := FragmentText(f, st.separated, st.buffer == []);
      PushFragment(st, f).buffer == st.buffer + e.text && PushFragment(st, f).separated == e.separated
    decreases f, 1
  {
    match f
    case Str(_) =>
    case Tuple(_, _) =>
    case Closure(body) =>
      if st.separated {
        GluesArePlain();
        AppendPlain(st.(separated := false), "(", []);
        var paren := AppendText(st.(separated := false), "(", []);
        assert paren.buffer == st.buffer + "(" && !paren.separated;
        CallsTextMatches(paren, body);
        var ran := RunCalls(paren, body).(separated := true);
        AppendPlain(ran, ")", []);
        assert ran.buffer + ")" == st.buffer + ("(" + CallsText(body, false, false).text + ")");
      } else {
        CallsTextMatches(st, body);
      }
    case Sub(q) => MergeText(st, q);
  }

  lemma {:induction false} CallsTextMatches<V>(st: State<V>, body: seq<Call<V>>)
    ensures var e := CallsText(body, st.separated, st.buffer == []);
      RunCalls(st, body).buffer == st.buffer + e.text && RunCalls(st, body).separated == e.separated
    decreases body, 0
  {
    if body != [] {
      CallTextMatches(st, body[0]);
      var next := Apply(st, body[0]);
      CallsTextMatches(next, body[1..]);
      var first := CallText(body[0], st.separated, st.buffer == []);
      var rest := CallsText(body[1..], first.separated, st.buffer == [] && first.text == []);
      assert (next.buffer == []) == (st.buffer == [] && first.text == []) by {
        assert |next.buffer| == |st.buffer| + |first.text|;
      }
      SeqAssoc(st.buffer, first.text, rest.text);
    }
  }

  /** `and`, `or`, `comma` with any plain glue: the joiner, then the fragment's text. */
  lemma {:induction false} JoinedTextMatches<V>(st: State<V>, glue: string, f: Fragment<V>)
    requires '?' !in glue
    ensures var sep := if st.separated then glue else if st.buffer == [] then [] else " ";
      var e := FragmentText(f, st.separated, st.buffer == [] && sep == []);
      Joined(st, glue, f).buffer == st.buffer + (sep + e.text) && Joined(st, glue, f).separated
    decreases f, 2
  {
    var sep := if st.separated then glue else if st.buffer == [] then [] else " ";
    var s: State<V>;
    if st.separated {
      s := AppendText(st, glue, []);
      AppendPlain(st, glue, []);
    } else if st.buffer != [] {
      s := AppendText(st, " ", []);
      GluesArePlain();
      AppendPlain(st, " ", []);
    } else {
      s := st;
      assert st.buffer + [] == st.buffer;
    }
    assert Joined(st, glue, f) == PushFragment(s, f).(separated := true);
    assert s.buffer == st.buffer + sep && s.separated == st.separated;
    FragmentTextMatches(s, f);
    var e := FragmentText(f, st.separated, st.buffer == [] && sep == []);
    SeqAssoc(st.buffer, sep, e.text);
  }

  /** `push`: a space unless the buffer is empty, then the fragment's text, unseparated. */
  lemma {:induction false} PushTextMatches<V>(st: State<V>, f: Fragment<V>)
    ensures var sep := if st.buffer == [] then [] else " ";
      var e := FragmentText(f, false, st.buffer == []);
      Apply(st, Push(f)).buffer == st.buffer + (sep + e.text) && Apply(st, Push(f)).separated == e.separated
    decreases f, 2
  {
    var sep := if st.buffer == [] then [] else " ";
    var s0 := st.(separated := false);
    var s := if s0.buffer != [] then AppendText(s0, " ", []) else s0;
    assert s.buffer == st.buffer + sep && !s.separated by {
      GluesArePlain();
      AppendPlain(s0, " ", []);
    }
    FragmentTextMatches(s, f);
    var e := FragmentText(f, false, st.buffer == []);
    SeqAssoc(st.buffer, sep, e.text);
  }

  /**
   * `push`, `and`, `or` and `comma`: the buffer grows by the joiner and then
   * the fragment's text; `push` pushes unseparated, the others leave the
   * flag set.
   */
  lemma {:induction false} CallTextMatches<V>(st: State<V>, c: Call<V>)
    ensures var e := CallText(c, st.separated, st.buffer == []);
      Apply(st, c).buffer == st.buffer + e.text && Apply(st, c).separated == e.separated
    decreases c
  {
    GluesArePlain();
    match c
    case Push(f) => PushTextMatches(st, f);
    case And(f) => JoinedTextMatches(st, " AND ", f);
    case Or(f) => JoinedTextMatches(st, " OR ", f);
    case Comma(f) => JoinedTextMatches(st, ",", f);
  }

  // ---------------------------------------------------------------------------
  // The SQL as written: the text with its placeholders still in place.

  /** Appending twice is appending the concatenation. */
  lemma AppendTwice<V>(st: State<V>, a: string, va: seq<V>, b: string, vb: seq<V>)
    ensures AppendText(AppendText(st, a, va), b, vb) == AppendText(st, a + b, va + vb)
  {
    StrippedAppend(a, b);
    OffsetsAppend(a, b, st.cursor);
    assert st.buffer + Stripped(a) + Stripped(b) == st.buffer + (Stripped(a) + Stripped(b));
    assert st.argIndexes + Offsets(a, st.cursor) + Offsets(b, st.cursor + |Stripped(a)|)
        == st.argIndexes + (Offsets(a, st.cursor) + Offsets(b, st.cursor + |Stripped(a)|));
    assert st.args + va + vb == st.args + (va + vb);
  }

  /**
   * The SQL a fragment without sub-queries writes, joiners and parentheses
   * included and `?` kept, with the flag it leaves. `empty` tells whether
   * the buffer is empty, which placeholders alone do not change.
   */
  function WrittenFragment<V>(f: Fragment<V>, separated: bool, empty: bool): Effect
    requires NoSubs(f)
    decreases f, 1
  {
    match f
    case Str(t) => Effect(t, separated)
    case Tuple(t, _) => Effect(t, separated)
    case Closure(body) =>
      if separated then Effect("(" + WrittenCalls(body, false, false).text + ")", true)
      else WrittenCalls(body, false, empty)
  }

  function WrittenCalls<V>(body: seq<Call<V>>, separated: bool, empty: bool): Effect
    requires forall i :: 0 <= i < |body| ==> NoSubs(body[i].frag)
    decreases body, 0
  {
    if body == [] then Effect([], separated)
    else
      var first := WrittenCall(body[0], separated, empty);
      var rest := WrittenCalls(body[1..], first.separated, empty && Stripped(first.text) == []);
      Effect(first.text + rest.text, rest.separated)
  }

  function WrittenCall<V>(c: Call<V>, separated: bool, empty: bool): Effect
    requires NoSubs(c.frag)
    decreases c
  {
    var sep := Separator(c, separated, empty);
    var e := WrittenFragment(c.frag, !c.Push? && separated, empty && sep == []);
    Effect(sep + e.text, !c.Push? || e.separated)
  }

  /**
   * The two accounts of a fragment's text agree: the buffer gains the
   * written SQL with its `?` removed.
   */
  lemma {:induction false} WrittenFragmentStripped<V>(f: Fragment<V>, separated: bool, empty: bool)
    requires NoSubs(f)
    ensures var w := WrittenFragment(f, separated, empty);
      FragmentText(f, separated, empty) == Effect(Stripped(w.text), w.separated)
    decreases f, 1
  {
    match f
    case Str(_) =>
    case Tuple(_, _) =>
    case Closure(body) =>
      WrittenCallsStripped(body, false, empty);
      if separated {
        WrittenCallsStripped(body, false, false);
        var w := WrittenCalls(body, false, false).text;
        GluesArePlain();
        PlainText("(", 0);
        PlainText(")", 0);
        StrippedAppend("(", w);
        StrippedAppend("(" + w, ")");
      }
  }

  lemma {:induction false} WrittenCallsStripped<V>(body: seq<Call<V>>, separated: bool, empty: bool)
    requires forall i :: 0 <= i < |body| ==> NoSubs(body[i].frag)
    ensures var w := WrittenCalls(body, separated, empty);
      CallsText(body, separated, empty) == Effect(Stripped(w.text), w.separated)
    decreases body, 0
  {
    if body != [] {
      WrittenCallStripped(body[0], separated, empty);
      var first := WrittenCall(body[0], separated, empty);
      WrittenCallsStripped(body[1..], first.separated, empty && Stripped(first.text) == []);
      StrippedAppend(first.text, WrittenCalls(body[1..], first.separated, empty && Stripped(first.text) == []).text);
    }
  }

  lemma {:induction false} WrittenCallStripped<V>(c: Call<V>, separated: bool, empty: bool)
    requires NoSubs(c.frag)
    ensures var w := WrittenCall(c, separated, empty);
      CallText(c, separated, empty) == Effect(Stripped(w.text), w.separated)
    decreases c
  {
    var sep := Separator(c, separated, empty);
    GluesArePlain();
    PlainText(sep, 0);
    WrittenFragmentStripped(c.frag, !c.Push? && separated, empty && sep == []);
    StrippedAppend(sep, WrittenFragment(c.frag, !c.Push? && separated, empty && sep == []).text);
  }

  /**
   * Pushing a fragment without sub-queries is appending its written SQL in
   * one go, with its values: buffer, offsets, cursor and args alike.
   */
  lemma {:induction false} WrittenFragmentMatches<V>(st: State<V>, f: Fragment<V>)
    requires NoSubs(f)
    ensures var e := WrittenFragment(f, st.separated, st.buffer == []);
      PushFragment(st, f) == AppendText(st, e.text, ArgsOf(f)).(separated := e.separated)
    decreases f, 1
  {
    match f
    case Str(_) =>
    case Tuple(_, _) =>
    case Closure(body) =>
      if st.separated {
        GluesArePlain();
        var cleared := st.(separated := false);
        AppendPlain(cleared, "(", []);
        var paren := AppendText(cleared, "(", []);
        WrittenCallsMatch(paren, body);
        var b := WrittenCalls(body, false, false);
        AppendTwice(cleared, "(", [], b.text, CallsArgs(body));
        AppendTwice(cleared, "(" + b.text, CallsArgs(body), ")", []);
        assert CallsArgs(body) + [] == CallsArgs(body);
      } else {
        WrittenCallsMatch(st, body);
      }
  }

  lemma {:induction false} WrittenCallsMatch<V>(st: State<V>, body: seq<Call<V>>)
    requires forall i :: 0 <= i < |body| ==> NoSubs(body[i].frag)
    ensures var e := WrittenCalls(body, st.separated, st.buffer == []);
      RunCalls(st, body) == AppendText(st, e.text, CallsArgs(body)).(separated := e.separated)
    decreases body, 0
  {
    if body == [] {
      assert AppendText(st, [], []) == st;
    } else {
      WrittenCallMatches(st, body[0]);
      var first := WrittenCall(body[0], st.separated, st.buffer == []);
      var next := Apply(st, body[0]);
      WrittenCallsMatch(next, body[1..]);
      var flagged := st.(separated := first.separated);
      assert next == AppendText(flagged, first.text, CallArgs(body[0]));
      assert next.separated == first.separated;
      assert (next.buffer == []) == (st.buffer == [] && Stripped(first.text) == []);
      var rest := WrittenCalls(body[1..], first.separated, st.buffer == [] && Stripped(first.text) == []);
      AppendTwice(flagged, first.text, CallArgs(body[0]), rest.text, CallsArgs(body[1..]));
      assert RunCalls(st, body) == RunCalls(next, body[1..]);
      assert CallsArgs(body) == CallArgs(body[0]) + CallsArgs(body[1..]);
      assert WrittenCalls(body, st.separated, st.buffer == []).text == first.text + rest.text;
    }
  }

  /** `and`, `or`, `comma` with any plain glue, as one append of the written SQL. */
  lemma {:induction false} WrittenJoinedMatches<V>(st: State<V>, glue: string, f: Fragment<V>)
    requires '?' !in glue && NoSubs(f)
    ensures var sep := if st.separated then glue else if st.buffer == [] then [] else " ";
      var e := WrittenFragment(f, st.separated, st.buffer == [] && sep == []);
      Joined(st, glue, f) == AppendText(st, sep + e.text, ArgsOf(f)).(separated := true)
    decreases f, 2
  {
    var sep := if st.separated then glue else if st.buffer == [] then [] else " ";
    var s := AppendText(st, sep, []);
    assert s == st.(buffer := st.buffer + sep, cursor := st.cursor + |sep|) by {
      GluesArePlain();
      AppendPlain(st, sep, []);
      assert st.args + [] == st.args;
    }
    var joinedFrom := if st.separated then AppendText(st, glue, [])
                      else if st.buffer != [] then AppendText(st, " ", [])
                      else st;
    assert joinedFrom == s by {
      if !st.separated && st.buffer == [] {
        assert st.buffer + [] == st.buffer;
      }
    }
    assert Joined(st, glue, f) == PushFragment(s, f).(separated := true);
    WrittenFragmentMatches(s, f);
    var e := WrittenFragment(f, st.separated, st.buffer == [] && sep == []);
    AppendTwice(st, sep, [], e.text, ArgsOf(f));
    assert [] + ArgsOf(f) == ArgsOf(f);
  }

  /** `push`, as one append of the written SQL, unseparated. */
  lemma {:induction false} WrittenPushMatches<V>(st: State<V>, f: Fragment<V>)
    requires NoSubs(f)
    ensures var sep := if st.buffer == [] then [] else " ";
      var e := WrittenFragment(f, false, st.buffer == []);
      Apply(st, Push(f)) == AppendText(st, sep + e.text, ArgsOf(f)).(separated := e.separated)
    decreases f, 2
  {
    var sep := if st.buffer == [] then [] else " ";
    var s0 := st.(separated := false);
    var s := AppendText(s0, sep, []);
    assert s == s0.(buffer := st.buffer + sep, cursor := st.cursor + |sep|) by {
      GluesArePlain();
      AppendPlain(s0, sep, []);
      assert st.args + [] == st.args;
    }
    assert Apply(st, Push(f)) == PushFragment(s, f);
    WrittenFragmentMatches(s, f);
    var e := WrittenFragment(f, false, st.buffer == []);
    AppendTwice(s0, sep, [], e.text, ArgsOf(f));
    assert [] + ArgsOf(f) == ArgsOf(f);
  }

  lemma {:induction false} WrittenCallMatches<V>(st: State<V>, c: Call<V>)
    requires NoSubs(c.frag)
    ensures var e := WrittenCall(c, st.separated, st.buffer == []);
      Apply(st, c) == AppendText(st, e.text, CallArgs(c)).(separated := e.separated)
    decreases c
  {
    GluesArePlain();
    match c
    case Push(f) => WrittenPushMatches(st, f);
    case And(f) => WrittenJoinedMatches(st, " AND ", f);
    case Or(f) => WrittenJoinedMatches(st, " OR ", f);
    case Comma(f) => WrittenJoinedMatches(st, ",", f);
  }

  /**
   * A query built from scratch without sub-queries renders back to the SQL
   * as written, with every `?` restored, and carries the fragments' values
   * in order. The render of `Display::fmt` agrees unless the text starts
   * with a placeholder (see `LeadingPlaceholderDropped`).
   */
  lemma WrittenQueryRenders<V>(f: Fragment<V>)
    requires NoSubs(f)
    ensures var e := WrittenFragment(f, false, true);
      var st := PushFragment(Initial<V>(), f);
      && st.args == ArgsOf(f)
      && Aligned(st)
      && RenderFixed(st.buffer, st.argIndexes, false) == Some(e.text)
      && (e.text == [] || e.text[0] != '?' ==> Render.Render(st.buffer, st.argIndexes, false) == Some(e.text))
  {
    var e := WrittenFragment(f, false, true);
    WrittenFragmentMatches(Initial<V>(), f);
    var st := PushFragment(Initial<V>(), f);
    assert st.buffer == Stripped(e.text) && st.argIndexes == Offsets(e.text, 0);
    OffsetsSorted(e.text, 0);
    RenderFixedInvertsAppend(e.text);
    if e.text == [] || e.text[0] != '?' {
      RenderInvertsAppend(e.text);
    }
  }
}
