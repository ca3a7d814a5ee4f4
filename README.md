# A verified model of the esql query builder

esql builds SQL text and its bound arguments together. A `Query` holds four things:
- a text buffer;
- the list of arguments;
- the byte offsets into the buffer at which each argument's placeholder belongs;
- a cursor, together with a `separated` flag that records whether the last call was a joining one.

Fragments are appended with `push`, `and`, `or` and `comma`. A fragment can be any of:
- a plain `&str`;
- a tuple of a `&str` and values;
- a closure that makes further builder calls;
- another `Query` (a sub-query).

Each `?` in a fragment's text is removed from the buffer, and its position goes into the offset list. A tuple's values go into the argument list. The builder never checks that a tuple has one value per `?`.
`Display` re-inserts a marker at each recorded non-zero offset: `?`, or `$1`, `$2`, … when the `indexed-args` feature is on. A placeholder recorded at offset 0 loses its marker (see "## Findings").
`Type` is the argument union a driver binds, and its `Into` conversions come from Rust scalars, strings and `Option`.

The model has seven modules.
- `Types` (types.dfy) covers the `Type` enum and its `Into` conversions. Each fixed-width integer is a newtype bounded to its range. `f32`/`f64` are their bit patterns.
- `Placeholders` (placeholders.dfy) turns fragment text into buffer text and placeholder offsets:
  - `Stripped` is the buffer a text leaves;
  - `Offsets` is the offsets it records;
  - `Count` is the number of `?`;
  - `Shift` moves offsets.
- `Render` (render.dfy) is `Display::fmt`, modelled as a pure function over the windows between consecutive offsets. The slice that can panic gives `None`; the `indexed` flag picks `$n` over `?`.
- `QuerySpec` (query_spec.dfy) holds the value-level model:
  - `State` (the struct's fields);
  - `Fragment` (`Str`, `Tuple`, `Closure` as the sequence of builder `Call`s its body makes, `Sub` for a sub-query moved in by value);
  - the specification functions for every operation;
  - the invariants `Valid` (no `?` in the buffer, offsets sorted and at most the cursor, buffer no longer than the cursor) and `Aligned` (also cursor = buffer length). Only `Aligned` keeps every offset within the buffer, and a merge as written breaks it;
  - `Balanced` (each piece binds as many values as its text has `?`) and `Matched` (as many offsets as arguments);
  - the lemmas about them.
- `QueryBuilder` (query.dfy) is the class `Query<V>`. Its fields are the struct's, and its methods update them in place. `append_buffer_with_args` is the character loop of the source. Every method is proved to leave `Model()` equal to the specification function applied to the old state.
- `Scenarios` (scenarios.dfy) and `Concatenation` (concatenation.dfy) replay the two tests of src/query.rs through the class. They prove the expected renderings:
  - for any texts and values;
  - for the tests' literal ones.

The arguments are generic (`V`). The tests bind the strings that the default build (no driver feature) sends.

## Model

| member | source | states |
|---|---|---|
| Types.Into | src/types.rs:14-72 | A scalar becomes the `Type` variant that carries it. `&str` and `String` become `String` with the same text. The result is `Null` exactly when the value is a (nested) `None` |
| Types.OptionsAreTransparent | src/types.rs:53-60 | `Some(x)` converts as `x` does, and a `None` at any depth converts to `Null` |
| Types.AbsentEndsInNone | src/types.rs:53-60 | A value converts through `Option` to `Null` exactly when its innermost value is `None` |
| Types.SameConversion | src/types.rs:14-72 | Two values convert to the same `Type` iff their innermost values agree, with `&str` and `String` of equal text identified |
| Placeholders.Shift | src/query.rs:282-284 | Every offset is moved by the same distance, and the length is kept |
| Placeholders.Stripped | src/query.rs:150-157 | The buffer text has no `?`, and its length plus the number of `?` is the text's length |
| Placeholders.Offsets | src/query.rs:150-157 | One offset is recorded per `?` |
| Placeholders.OffsetsSorted | src/query.rs:150-157 | Recorded offsets are non-decreasing and lie between the start cursor and the cursor after the text |
| Placeholders.CountAppend | src/query.rs:150-157 | The placeholders of a concatenation are those of its parts |
| Placeholders.StrippedAppend | src/query.rs:150-157 | Appending two texts leaves the same buffer as appending their concatenation |
| Placeholders.OffsetsAppend | src/query.rs:150-157 | Appending two texts records the same offsets as appending their concatenation, the second part's counted from the cursor the first leaves |
| Placeholders.OffsetsShifted | src/query.rs:282-284 | Starting from a later cursor shifts every recorded offset by the difference |
| Placeholders.PlainText | src/query.rs:150-157 | A text without `?` is copied unchanged and records nothing |
| Placeholders.OffsetAtPlaceholder | src/query.rs:151-152 | The k-th `?` records the cursor reached after the text before it |
| Placeholders.AppendChar | src/query.rs:150-156 | One loop iteration: a `?` records the cursor, any other character is pushed |
| Render.Decimal | src/query.rs:176 | The index printed after `$` is a non-empty string of decimal digits |
| Render.DecimalRoundTrip | src/query.rs:176 | The digits printed after `$` denote the counter: reading them back in base 10 gives `c` |
| Render.DecimalInjective | src/query.rs:176 | Two counters print the same digits iff they are equal, so `$k` names exactly one argument |
| Render.Marker | src/query.rs:172-181 | The marker is `?`, or `$` and the counter with `indexed-args`; `IndexedRenderNumbersMarkers` relates the two |
| Render.RenderWindows | src/query.rs:168-185 | The window loop over `[0] + offsets + [len]`: marker when the window start is non-zero, then the slice, `None` on a bad slice. `WindowStep` and `WindowsDefined` state this |
| Render.RenderEvery | src/query.rs:168-185 | The corrected loop, which marks every offset including 0. `RenderEveryOfAppended` and `AppendOfRenderEvery` make it the inverse of appending |
| Render.RenderFixed | src/query.rs:163-189 | The corrected `fmt`, numbering from 1. `RenderFixedInvertsAppend` and `AppendInvertsRenderFixed` state the round trip |
| Render.NonZeroSorted | src/query.rs:172 | Dropping the zero offsets keeps them sorted and within the same bounds |
| Render.NonZeroLength | src/query.rs:172 | Dropping zero offsets loses one exactly when some offset is 0 |
| Render.RenderedMarkers | src/query.rs:168-185 | `Display` writes one marker per non-zero offset, whatever the number of arguments |
| Render.WindowStep | src/query.rs:168-185 | Each window writes the marker when its start is non-zero, then the slice, and fails when the slice is out of range |
| Render.Render | src/query.rs:163-189 | With no offsets the buffer is written as is. Rendering succeeds iff the offsets are sorted and within the buffer |
| Render.WindowsWithoutOffsets | src/query.rs:168-184 | The single window of a query without arguments writes the whole buffer |
| Render.WindowsDefined | src/query.rs:168-184 | Every window slice is in range iff the offsets are sorted and lie between the start and the buffer length |
| Render.NonZero | src/query.rs:172 | Only non-zero offsets are kept |
| Render.RenderDropsOffsetZero | src/query.rs:172-184 | For sorted offsets, the rendering as written equals a rendering that marks every offset with the zero offsets removed |
| Render.WindowsFromStart | src/query.rs:168-184 | The windows from 0 render like marking each non-zero offset |
| Render.WindowsFromMarkedOffset | src/query.rs:172-184 | A window starting at a non-zero offset writes a marker before its slice |
| Render.RenderEveryOfAppended | src/query.rs:150-157 | Rendering what appending a text recorded gives that text back, whatever prefix came before it |
| Render.RenderFixedInvertsAppend | src/query.rs:163-189 | Marking every recorded offset gives back exactly the text that was appended |
| Render.AppendOfRenderEvery | src/query.rs:150-157 | Appending a rendering records the original buffer and offsets again |
| Render.AppendInvertsRenderFixed | src/query.rs:150-157 | For valid offsets, appending the fixed rendering restores buffer and offsets |
| Render.RenderInvertsAppend | src/query.rs:163-189 | When a text does not start with `?`, rendering what appending it recorded gives the text back |
| Render.AppendInvertsRender | src/query.rs:150-157 | For sorted, non-zero offsets within a `?`-free buffer, appending the rendering restores buffer and offsets |
| Render.LeadingPlaceholderDropped | src/query.rs:172 | `? AS total` records offset 0 and renders as ` AS total`: its marker is lost |
| Render.NumberMarkersAppend | src/query.rs:173-177 | Numbering a concatenation continues the count where the first part stopped |
| Render.NumberMarkersPlain | src/query.rs:173-177 | Text without markers is not renumbered |
| Render.IndexedWindows | src/query.rs:165-185 | The `$n` rendering is the `?` rendering with its markers numbered from the window counter |
| Render.IndexedRenderNumbersMarkers | src/query.rs:165-185 | The `indexed-args` rendering is the plain one with its markers numbered `$1`, `$2`, … in order |
| QuerySpec.Initial | src/query.rs:30-32 | The derived default: no arguments, no offsets, empty buffer, cursor 0, not separated. The `Empty` constructor establishes it |
| QuerySpec.AppendText | src/query.rs:148-160 | `append_buffer_with_args` as a value: the stripped text, the offsets, the cursor and the values. `AppendKeepsValid`, `AppendTwice` and the class's loop are proved against it |
| QuerySpec.Joined | src/query.rs:48-91 | The shared step of `and`, `or` and `comma`. `JoinedTextMatches` and `WrittenJoinedMatches` state its effect |
| QuerySpec.Apply | src/query.rs:34-91 | One builder call. `CallTextMatches`, `CallArgsAppended`, `CallKeepsValid` and `CallKeepBalanced` state its effect |
| QuerySpec.RunCalls | src/query.rs:265 | A closure body's calls in order. `CallsTextMatches` and `CallsArgsAppended` state its effect |
| QuerySpec.PushFragment | src/query.rs:191-294 | `push_to_query` of each kind of fragment. `FragmentTextMatches`, `FragmentArgsAppended` and `FragmentKeepsValid` state its effect |
| QuerySpec.MergeAsWritten | src/query.rs:274-294 | The sub-query merge as written. `MergeAsWrittenEffect` gives its closed form |
| QuerySpec.MergeKeepingCursor | src/query.rs:274-294 | The corrected merge, which moves the cursor once. `MergeKeepingCursorEffect` and `MergeKeepingCursorAligned` state it |
| QuerySpec.AppendKeepsValid | src/query.rs:148-160 | Appending keeps no `?` in the buffer, the offsets sorted and at most the cursor, and the buffer no longer than the cursor. It also keeps the cursor equal to the buffer length |
| QuerySpec.AppendPlain | src/query.rs:93-95 | Appending glue without `?` extends buffer and cursor by it and records nothing |
| QuerySpec.AppendTwice | src/query.rs:148-160 | Two appends equal one append of the joined text and values |
| QuerySpec.AppendTrailingPlaceholder | src/query.rs:148-160 | A text ending in `?` records the cursor after its prefix |
| QuerySpec.MergeAsWrittenEffect | src/query.rs:274-294 | A sub-query merge as written: the arguments are appended and the offsets shifted by the cursor after `(`. The buffer gains the text, parenthesised when separated. The cursor grows by the sub-query's cursor and again by its buffer |
| QuerySpec.MergeKeepingCursorEffect | src/query.rs:274-294 | The corrected merge has the same effect except that the cursor grows only by the text written |
| QuerySpec.MergeKeepsValid | src/query.rs:274-294 | A merge as written keeps `Valid`: offsets sorted and at most the cursor. Offsets may then lie past the buffer end (see `MergeDrifts`) |
| QuerySpec.MergeText | src/query.rs:278-292 | The merged buffer is the host's plus the sub-query's text, in parentheses when the host is separated |
| QuerySpec.MergeDrifts | src/query.rs:286-288 | For a host and a sub-query whose cursors each equal their buffer length, the cursor after the merge as written exceeds the buffer length by the sub-query's buffer length |
| QuerySpec.MergeKeepingCursorAligned | src/query.rs:286-288 | The corrected merge keeps the cursor equal to the buffer length |
| QuerySpec.AlignedRenders | src/query.rs:163-189 | A state whose cursor matches its buffer always renders without a slice panic |
| QuerySpec.MergeAsWrittenOfText | src/query.rs:274-294 | Pushing a plain sub-query after a plain text leaves the cursor larger than the buffer by the sub-query's length |
| QuerySpec.PushComparison | src/query.rs:34-46 | `push((c + "?", v))` adds a space and `c`, records the cursor after them and appends `v` |
| QuerySpec.CursorDriftBreaksRendering | src/query.rs:286-288 | After a non-empty sub-query is merged as written, a later placeholder records an offset past the end of the buffer, and rendering fails |
| QuerySpec.CursorKeptState | src/query.rs:286-288 | With the corrected merge, the same placeholder is recorded at the end of the buffer |
| QuerySpec.CorrectedMergeOfText | src/query.rs:274-294 | The corrected merge of plain text leaves the cursor equal to the buffer length |
| QuerySpec.CursorKeptRendersExample | src/query.rs:286-288 | With the corrected merge, the same calls render the intended text |
| QuerySpec.RenderTrailingPlaceholder | src/query.rs:168-184 | An offset at the end of a non-empty buffer renders as a trailing marker |
| QuerySpec.FragmentArgsAppended | src/query.rs:195-294 | Pushing any fragment appends exactly its values, in order, to the arguments |
| QuerySpec.CallsArgsAppended | src/query.rs:253-272 | A closure's calls append their values in call order |
| QuerySpec.CallArgsAppended | src/query.rs:34-91 | Each builder call appends exactly its fragment's values |
| QuerySpec.FragmentKeepsValid | src/query.rs:195-294 | Pushing a fragment whose sub-queries are valid keeps `Valid`: offsets sorted and at most the cursor |
| QuerySpec.CallsKeepValid | src/query.rs:253-272 | A closure body keeps `Valid` |
| QuerySpec.CallKeepsValid | src/query.rs:34-91 | Every builder call keeps `Valid` |
| QuerySpec.FragmentKeepsBalanced | src/query.rs:195-294 | With as many offsets as arguments, pushing a balanced fragment keeps the two counts equal. This covers text, tuples, closures and matched sub-queries |
| QuerySpec.CallsKeepBalanced | src/query.rs:253-272 | A closure body of balanced calls keeps the counts equal |
| QuerySpec.CallKeepBalanced | src/query.rs:34-91 | Every builder call with a balanced fragment keeps the counts equal, since the glues hold no `?` |
| QuerySpec.MarkersMatchArgs | src/query.rs:163-189 | For a valid query with as many offsets as arguments that renders, the rendering has one `?` per argument iff no offset is 0 |
| QuerySpec.FragmentKeepsAligned | src/query.rs:195-272 | Fragments without sub-queries keep the cursor equal to the buffer length |
| QuerySpec.CallsKeepAligned | src/query.rs:253-272 | So do closure bodies without sub-queries |
| QuerySpec.CallKeepsAligned | src/query.rs:34-91 | So do builder calls whose fragment holds no sub-query |
| QuerySpec.FragmentTextMatches | src/query.rs:195-294 | The buffer grows by the fragment's text with its `?` removed, and the separated flag follows the fragment |
| QuerySpec.CallsTextMatches | src/query.rs:253-272 | A closure body writes its calls' texts in order |
| QuerySpec.JoinedTextMatches | src/query.rs:48-91 | `and`/`or`/`comma` write their glue when separated, else a space when the buffer is non-empty, then the fragment, and leave the query separated |
| QuerySpec.PushTextMatches | src/query.rs:34-46 | `push` clears separated, writes a space when the buffer is non-empty, then the fragment |
| QuerySpec.CallTextMatches | src/query.rs:34-91 | Each call's buffer change is its separator and fragment text |
| QuerySpec.WrittenFragmentStripped | src/query.rs:195-272 | Without sub-queries, the text a fragment adds to the buffer is its written SQL with the `?` removed, and both accounts leave the same flag |
| QuerySpec.WrittenCallsStripped | src/query.rs:253-272 | The same holds for a closure body |
| QuerySpec.WrittenCallStripped | src/query.rs:34-91 | The same holds for a builder call |
| QuerySpec.WrittenFragmentMatches | src/query.rs:195-272 | Without sub-queries, pushing a fragment is appending its written text (markers included) with its values |
| QuerySpec.WrittenCallsMatch | src/query.rs:253-272 | A closure body is appending its calls' written texts |
| QuerySpec.WrittenJoinedMatches | src/query.rs:48-91 | A joining call is appending its glue and written fragment |
| QuerySpec.WrittenPushMatches | src/query.rs:34-46 | `push` is appending a space (when needed) and the written fragment |
| QuerySpec.WrittenCallMatches | src/query.rs:34-91 | Every builder call is appending its written text and values |
| QuerySpec.WrittenQueryRenders | src/query.rs:21-28 | `Query::new` of a fragment without sub-queries keeps exactly its values. Marking every offset renders its written text; so does `Display` unless that text starts with `?` |
| QueryBuilder.Query.Empty | src/query.rs:30-32 | The empty query is the default state |
| QueryBuilder.Query.New | src/query.rs:21-28 | `new` is the empty query with the fragment pushed |
| QueryBuilder.Query.Push | src/query.rs:34-46 | The new state is `push` applied to the old one |
| QueryBuilder.Query.Join | src/query.rs:48-91 | The new state is the shared joining step with the given glue |
| QueryBuilder.Query.And | src/query.rs:48-61 | The new state is `and` applied to the old one |
| QueryBuilder.Query.Comma | src/query.rs:63-76 | The new state is `comma` applied to the old one |
| QueryBuilder.Query.Or | src/query.rs:78-91 | The new state is `or` applied to the old one |
| QueryBuilder.Query.AppendBuffer | src/query.rs:93-95 | Appending text binds no values |
| QueryBuilder.Query.AppendBufferWithArgs | src/query.rs:148-160 | The character loop leaves the buffer, offsets and cursor that the text dictates, and then appends the values |
| QueryBuilder.Query.PushFragment | src/query.rs:191-294 | Each kind of fragment updates the state as its `push_to_query` does |
| QueryBuilder.Query.PushClosure | src/query.rs:253-272 | A closure is wrapped in parentheses, and separated cleared while it runs, when the query was separated |
| QueryBuilder.Query.RunCalls | src/query.rs:265 | The closure body's calls are applied in order |
| QueryBuilder.Query.Run | src/query.rs:34-91 | One builder call applied to the query |
| QueryBuilder.Query.PushQuery | src/query.rs:274-294 | Pushing another `Query` merges its state, as written |
| QueryBuilder.Query.Merge | src/query.rs:274-294 | The merge of a moved sub-query state, as written |
| QueryBuilder.Query.IntoArgs | src/query.rs:109-112 | The arguments, in the order they were bound |
| QueryBuilder.Query.Fmt | src/query.rs:163-189 | The rendering of the current buffer and offsets |
| Scenarios.WrittenRenders | src/query.rs:163-189 | A state recorded from text not starting with `?` renders that text, and with `indexed-args` that text numbered from `$1` |
| Scenarios.ParenthesisedOrs | src/query.rs:306-309 | An `and` of a closure of two `or` comparisons writes ` AND ( d? OR e?)` and binds both values |
| Scenarios.CommaList | src/query.rs:298-301 | `new("SELECT")` followed by three `comma` calls writes `SELECT a,b,c` |
| Scenarios.PushThenAnd | src/query.rs:302-303 | `push` then `and` on a separated query write single spaces, with no ` AND ` |
| Scenarios.AndThenClosure | src/query.rs:304-309 | A bound comparison and the closure extend the text and bind `[1, 10, 20]` in order |
| Scenarios.SimpleQueryNumbered | src/query.rs:311-315 | The three markers of `simple_query` are numbered `$1`, `$2`, `$3` |
| Scenarios.SimpleQuery | src/query.rs:296-322 | For any plain pieces and values, the class renders the `?` text and the `$n` text the test expects, with the values in call order |
| Scenarios.SimpleQueryTest | src/query.rs:296-322 | The test's own strings render exactly as asserted in both feature settings, with arguments `["1", "10", "20"]` |
| Concatenation.MergeWritten | src/query.rs:274-294 | Merging a recorded sub-query writes its text, parenthesised when the host is separated, with offsets and values following the host's |
| Concatenation.SubStep | src/query.rs:274-294 | A joining call with a sub-query writes its separator and then the merged text |
| Concatenation.PlainStepAfterMerge | src/query.rs:195-199 | A plain text after a merge extends the written text |
| Concatenation.ThreeOrs | src/query.rs:328-332 | `query_a`'s closure of three `or`s on an empty query writes `c = ? OR d = 4 OR e = ?` without parentheses |
| Concatenation.ThreeOrsArgs | src/query.rs:328-332 | That closure binds `[3, 4]` |
| Concatenation.QueryA | src/query.rs:326-332 | `query_a` is the recorded state of that text and those values, left separated |
| Concatenation.TwoComparisons | src/query.rs:334-336 | `new` and two bound `and`s write `a = ? AND b = ?` and bind `[1, 2]` |
| Concatenation.AndSubQuery | src/query.rs:337 | `and(query_a)` on a separated query writes ` AND (` … `)` |
| Concatenation.QueryBRender | src/query.rs:326-349 | `query_b` renders the expected `?` and `$1`…`$4` texts and binds `[1, 2, 3, 4]` |
| Concatenation.QueryBNumbered | src/query.rs:339-343 | The four markers are numbered in order across the sub-query |
| Concatenation.QueryConcatenation | src/query.rs:326-349 | The class-level run of `query_a` and `query_b` for any plain pieces and values |
| Concatenation.QueryConcatenationTest | src/query.rs:324-349 | The test's own strings render as asserted, with arguments `["1", "2", "3", "4"]` |
| Concatenation.FieldsList | src/query.rs:351-354 | Three `comma` calls on an empty query write `foo,bar,? as foobar` and bind `[1000]` |
| Concatenation.FieldsPushed | src/query.rs:356-358 | Pushing the field list and `FROM my_table` writes them separated by single spaces |
| Concatenation.FieldsRender | src/query.rs:351-370 | The resulting query renders the `?` and `$1` texts and binds the single value |
| Concatenation.Fields | src/query.rs:351-370 | The class-level run of the field-list part of the test |
| Concatenation.FieldsTest | src/query.rs:351-370 | The test's own strings render as asserted, with arguments `["1000"]` |

## Left out

- The driver-specific argument types (`tokio-postgres` boxed `ToSql`, `mysql-async` `Value`) and their copies of `into_args` and `append_buffer_with_args` are left out. Arguments are a type parameter `V`, and the loop is the same in all three builds.
- The feature-gated `Type` variants `Json`, `OffsetDateTime` and `Uuid` and their conversions are left out, because they wrap foreign types.
- `Types.Into`: floats are carried as their bit patterns, because floating-point values are not modelled.
- `Types.SameConversion`: equality of `Float`/`Double` is equality of bit patterns. Rust's derived `PartialEq` on `Type` (src/types.rs:8) has NaN unequal to itself and 0.0 equal to -0.0, so the iff differs from Rust's `==` on those values.
- `isize` and `usize` are fixed at 64 bits. In Rust their width depends on the platform.
- The query cursor (`usize`, src/query.rs:16) and the `indexed-args` marker counter (an `i32`, src/query.rs:166) are unbounded naturals. `Render.Decimal` prints any counter, where the source's counter would overflow after 2^31 - 1 markers.
- A `Tuple` fragment takes any number of values. The source implements tuples of a text and one to three values (src/query.rs:249-251), so tuples of none or more than three are a generalisation.
- A mismatch between the number of `?` and the number of values bound is not detected, as in the source. `Balanced` and `FragmentKeepsBalanced` state when the counts agree, and `MarkersMatchArgs` states what `Display` then writes.
- Characters are one unit wide. `c.len_utf8()` is always 1 for the ASCII text the builder is used with, so multi-byte UTF-8 offsets are not modelled.
- A slice of the buffer out of range (a panic in `fmt`) is `None`. A `Formatter` write error is not modelled, because writing to a string does not fail.
- A closure is modelled as the sequence of builder calls its body makes. Closures that branch or compute are not modelled.
- `QueryBuilder.Query.PushQuery` and `QueryBuilder.Query.Merge` keep the cursor drift of the source as written. The corrected merge exists only at the value level (`MergeKeepingCursor`).
- src/serde.rs, src/database.rs, src/database/mysql.rs and src/database/pg.rs are not part of this model. They are deserialisation and query-execution glue over the driver libraries.
- tests/query.rs is not part of this model. It exercises a newer builder API (`query`, `wh`, `expr`, `in_expr`, `build(ArgFormat)`) whose implementation is not in src/query.rs.
- `ToString` of the tuple values is not modelled. The test instances bind the strings that the default build would send.

## Findings

| source | as written | input that shows it | evidently intended | confidence | as-written member | corrected member |
|---|---|---|---|---|---|---|
| src/query.rs:286-288 | a merged sub-query advances the cursor by its cursor, and `append_buffer` then advances it again by its buffer | `Query::new("x")`, then `push(Query::new("ab"))`, then `push(("c = ?", 1))`: the offset recorded is 11 in a 9-character buffer, so `to_string` panics on the slice | the cursor advances once, by the text written | not executed | QuerySpec.CursorDriftBreaksRendering | QuerySpec.MergeKeepingCursorAligned |
| src/query.rs:172 | a window starting at offset 0 writes no marker | `Query::new(("? AS total", 5))` records offset 0 and renders as ` AS total` | every recorded offset gets its marker | not executed | Render.LeadingPlaceholderDropped | Render.RenderFixedInvertsAppend |
