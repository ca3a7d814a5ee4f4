/**
 * `struct Query` of src/query.rs as a mutable object. Every method is proved
 * to leave the object in the state the matching function of QuerySpec
 * computes from the old state, so the lemmas about those functions carry
 * over to the object.
 */
module QueryBuilder {
  import opened Placeholders
  import Render
  import QuerySpec

  class Query<V> {
    var args: seq<V>
    var argIndexes: seq<nat>
    var buffer: string
    var cursor: nat
    var separated: bool

    /** The fields as a value. */
    function Model(): QuerySpec.State<V>
      reads this
    {
      QuerySpec.State(args, argIndexes, buffer, cursor, separated)
    }

    /** `Query::empty()`. */
    constructor Empty()
      ensures Model() == QuerySpec.Initial()
    {
      args := [];
      argIndexes := [];
      buffer := [];
      cursor := 0;
      separated := false;
    }

    /** `Query::new(frag)`: an empty query with the fragment pushed onto it. */
    constructor New(f: QuerySpec.Fragment<V>)
      ensures Model() == QuerySpec.PushFragment(QuerySpec.Initial(), f)
    {
      args := [];
      argIndexes := [];
      buffer := [];
      cursor := 0;
      separated := false;
      new;
      PushFragment(f);
    }

    /** `push`: clears the flag and puts a space before the fragment unless the buffer is empty. */
    method Push(f: QuerySpec.Fragment<V>)
      modifies this
      ensures Model() == QuerySpec.Apply(old(Model()), QuerySpec.Push(f))
      decreases f, 2
    {
      separated := false;
      if buffer != [] {
        AppendBuffer(" ");
      }
      PushFragment(f);
    }

    /** `and`, `or` and `comma`, which differ only in their glue. */
    method Join(glue: string, f: QuerySpec.Fragment<V>)
      modifies this
      ensures Model() == QuerySpec.Joined(old(Model()), glue, f)
      decreases f, 2
    {
      if separated {
        AppendBuffer(glue);
      } else if buffer != [] {
        AppendBuffer(" ");
      }
      PushFragment(f);
      separated := true;
    }

    method And(f: QuerySpec.Fragment<V>)
      modifies this
      ensures Model() == QuerySpec.Apply(old(Model()), QuerySpec.And(f))
      decreases f, 3
    {
      Join(" AND ", f);
    }

    method Comma(f: QuerySpec.Fragment<V>)
      modifies this
      ensures Model() == QuerySpec.Apply(old(Model()), QuerySpec.Comma(f))
      decreases f, 3
    {
      Join(",", f);
    }

    method Or(f: QuerySpec.Fragment<V>)
      modifies this
      ensures Model() == QuerySpec.Apply(old(Model()), QuerySpec.Or(f))
      decreases f, 3
    {
      Join(" OR ", f);
    }

    /** `append_buffer`: text without args. */
    method AppendBuffer(text: string)
      modifies this
      ensures Model() == QuerySpec.AppendText(old(Model()), text, [])
    {
      AppendBufferWithArgs(text, []);
    }

    /**
     * `append_buffer_with_args`: each `?` records the cursor, every other
     * character is copied and advances the cursor; the args go last.
     */
    method AppendBufferWithArgs(text: string, values: seq<V>)
      modifies this
      ensures Model() == QuerySpec.AppendText(old(Model()), text, values)
    {
      var i := 0;
      while i < |text|
        invariant 0 <= i <= |text|
        invariant buffer == old(buffer) + Stripped(text[..i])
        invariant argIndexes == old(argIndexes) + Offsets(text[..i], old(cursor))
        invariant cursor == old(cursor) + |Stripped(text[..i])|
        invariant args == old(args) && separated == old(separated)
      {
        var c := text[i];
        assert text[..i + 1] == text[..i] + [c];
        AppendChar(text[..i], c, old(cursor));
        if c == '?' {
          argIndexes := argIndexes + [cursor];
        } else {
          buffer := buffer + [c];
          cursor := cursor + 1;
        }
        i := i + 1;
      }
      assert text[..i] == text;
      args := args + values;
    }

    /** `Fragment::push_to_query` for each implementor. */
    method PushFragment(f: QuerySpec.Fragment<V>)
      modifies this
      ensures Model() == QuerySpec.PushFragment(old(Model()), f)
      decreases f, 1
    {
      match f
      case Str(t) => AppendBuffer(t);
      case Tuple(t, vs) => AppendBufferWithArgs(t, vs);
      case Closure(body) => PushClosure(body);
      case Sub(q) => Merge(q);
    }

    /** The closure implementor: parentheses and a cleared flag around the body when separated. */
    method PushClosure(body: seq<QuerySpec.Call<V>>)
      modifies this
      ensures Model() == QuerySpec.PushFragment(old(Model()), QuerySpec.Closure(body))
      decreases QuerySpec.Closure(body), 0
    {
      var wasSeparated := separated;
      if wasSeparated {
        separated := false;
        AppendBuffer("(");
      }
      RunCalls(body);
      if wasSeparated {
        separated := true;
        AppendBuffer(")");
      }
    }

    /** The calls a closure body makes on the query, in order. */
    method RunCalls(body: seq<QuerySpec.Call<V>>)
      modifies this
      ensures Model() == QuerySpec.RunCalls(old(Model()), body)
      decreases body, 0
    {
      var k := 0;
      while k < |body|
        invariant 0 <= k <= |body|
        invariant QuerySpec.RunCalls(old(Model()), body) == QuerySpec.RunCalls(Model(), body[k..])
      {
        assert body[k..][1..] == body[k + 1..];
        Run(body[k]);
        k := k + 1;
      }
    }

    method Run(c: QuerySpec.Call<V>)
      modifies this
      ensures Model() == QuerySpec.Apply(old(Model()), c)
      decreases c
    {
      match c
      case Push(f) => Push(f);
      case And(f) => Join(" AND ", f);
      case Or(f) => Join(" OR ", f);
      case Comma(f) => Join(",", f);
    }

    /** The `Query` implementor, with the sub-query moved in as its fields. */
    method PushQuery(other: Query<V>)
      requires other != this
      modifies this
      ensures Model() == QuerySpec.MergeAsWritten(old(Model()), old(other.Model()))
    {
      Merge(other.Model());
    }

    /**
     * `impl Fragment for Query`: args first, then `(` when separated, the
     * shifted offsets, the cursor advanced by the sub-query's cursor, the
     * copied text and `)`.
     */
    method Merge(q: QuerySpec.State<V>)
      modifies this
      ensures Model() == QuerySpec.MergeAsWritten(old(Model()), q)
    {
      args := args + q.args;
      if separated {
        AppendBuffer("(");
      }
      argIndexes := argIndexes + Shift(q.argIndexes, cursor);
      cursor := cursor + q.cursor;
      AppendBuffer(q.buffer);
      if separated {
        AppendBuffer(")");
      }
    }

    /** `into_args`: the values in the order they were bound. */
    method IntoArgs() returns (a: seq<V>)
      ensures a == args
    {
      a := args;
    }

    /**
     * `Display::fmt`: walks the windows of `[0] ++ arg_indexes ++
     * [buffer.len()]`, writing a marker before each window that does not
     * start at 0 and then the slice of the buffer it covers. A slice out of
     * order or out of range panics, which is `None` here.
     */
    method Fmt(indexed: bool) returns (r: Render.Option<string>)
      ensures r == Render.Render(buffer, argIndexes, indexed)
    {
      var w := [0] + argIndexes + [|buffer|];
      var out := "";
      var c: nat := 1;
      ghost var g: nat := 1;
      var k := 0;
      assert w[k..] == w;
      if Render.RenderWindows(buffer, w, g, indexed).Some? {
        assert out + Render.RenderWindows(buffer, w, g, indexed).value
            == Render.RenderWindows(buffer, w, g, indexed).value;
      }
      while k + 1 < |w|
        invariant 0 <= k < |w|
        invariant indexed ==> c == g
        invariant Render.Render(buffer, argIndexes, indexed)
               == Render.Prepend(out, Render.RenderWindows(buffer, w[k..], g, indexed))
      {
        var lo := w[k];
        var hi := w[k + 1];
        Render.WindowStep(buffer, w, k, g, indexed);
        if !(lo <= hi <= |buffer|) {
          return Render.None;
        }
        ghost var old_g := g;
        var piece := "";
        if lo != 0 {
          if indexed {
            piece := "$" + Render.Decimal(c);
            c := c + 1;
          } else {
            piece := "?";
          }
          g := g + 1;
        }
        assert piece == (if lo != 0 then Render.Marker(old_g, indexed) else "");
        Render.PrependPrepend(out, piece + buffer[lo..hi], Render.RenderWindows(buffer, w[k + 1..], g, indexed));
        out := out + (piece + buffer[lo..hi]);
        k := k + 1;
      }
      assert Render.RenderWindows(buffer, w[k..], g, indexed) == Render.Some([]);
      assert out + [] == out;
      r := Render.Some(out);
    }
  }
}
