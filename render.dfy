/**
 * Rendering of the query buffer (`Display for Query`, src/query.rs): the
 * buffer is cut at the recorded offsets and a marker is written before each
 * cut, `?` by default or `$1`, `$2`, ... with the indexed-args feature.
 * Slicing the buffer out of order or past its end panics; the panic is
 * `None` here.
 */
module Render {
  import opened Placeholders

  datatype Option<T> = None | Some(value: T)

  function Digit(d: nat): char
    requires d < 10
  {
    "0123456789"[d]
  }

  /** Decimal notation of `n` (`to_string` on the marker counter). */
  function Decimal(n: nat): (r: string)
    ensures |r| >= 1
    ensures forall i :: 0 <= i < |r| ==> '0' <= r[i] <= '9'
  {
    if n < 10 then [Digit(n)] else Decimal(n / 10) + [Digit(n % 10)]
  }

  /** The value of a decimal digit. */
  function DigitValue(ch: char): nat
  {
    if '0' <= ch <= '9' then (ch as int) - ('0' as int) else 0
  }

  /** The number a string of decimal digits denotes, most significant first. */
  function DecimalValue(s: string): nat
  {
    if s == [] then 0 else 10 * DecimalValue(s[..|s| - 1]) + DigitValue(s[|s| - 1])
  }

  lemma DigitRoundTrip(d: nat)
    requires d < 10
    ensures DigitValue(Digit(d)) == d
  {
    assert "0123456789"[d] as int == '0' as int + d;
  }

  /** The digits written after `$` denote the counter itself. */
  lemma {:induction false} DecimalRoundTrip(n: nat)
    ensures DecimalValue(Decimal(n)) == n
  {
    if n < 10 {
      DigitRoundTrip(n);
      assert [Digit(n)][..0] == [];
    } else {
      DecimalRoundTrip(n / 10);
      DigitRoundTrip(n % 10);
      var r := Decimal(n / 10) + [Digit(n % 10)];
      assert r[..|r| - 1] == Decimal(n / 10);
    }
  }

  /** Different counters give different markers. */
  lemma DecimalInjective(m: nat, n: nat)
    ensures Decimal(m) == Decimal(n) <==> m == n
  {
    DecimalRoundTrip(m);
    DecimalRoundTrip(n);
  }

  /** The marker written for the `k`-th placeholder. */
  function Marker(k: nat, indexed: bool): string
  {
    if indexed then "$" + Decimal(k) else "?"
  }

  function Prepend(s: string, o: Option<string>): Option<string>
  {
    match o
    case None => None
    case Some(t) => Some(s + t)
  }

  lemma PrependPrepend(a: string, b: string, o: Option<string>)
    ensures Prepend(a, Prepend(b, o)) == Prepend(a + b, o)
  {
    if o.Some? {
      assert a + (b + o.value) == (a + b) + o.value;
    }
  }

  /**
   * The loop of `fmt` over the windows `(w[k], w[k+1])`: a marker when the
   * window starts at a non-zero offset, then the slice of the buffer.
   * `c` is the number of the next indexed marker.
   */
  function RenderWindows(buffer: string, w: seq<nat>, c: nat, indexed: bool): Option<string>
    decreases |w|
  {
    if |w| < 2 then Some([])
    else if !(w[0] <= w[1] <= |buffer|) then None
    else if w[0] != 0 then
      Prepend(Marker(c, indexed) + buffer[w[0]..w[1]], RenderWindows(buffer, w[1..], c + 1, indexed))
    else
      Prepend(buffer[w[0]..w[1]], RenderWindows(buffer, w[1..], c, indexed))
  }

  /** One turn of the window loop at position `k` of `w`. */
  lemma WindowStep(buffer: string, w: seq<nat>, k: nat, c: nat, indexed: bool)
    requires k + 1 < |w|
    ensures var lo, hi := w[k], w[k + 1];
      RenderWindows(buffer, w[k..], c, indexed)
        == if !(lo <= hi <= |buffer|) then None
           else Prepend((if lo != 0 then Marker(c, indexed) else "") + buffer[lo..hi],
                        RenderWindows(buffer, w[k + 1..], if lo != 0 then c + 1 else c, indexed))
  {
    assert w[k..][1..] == w[k + 1..];
    if w[k] <= w[k + 1] <= |buffer| {
      assert "" + buffer[w[k]..w[k + 1]] == buffer[w[k]..w[k + 1]];
    }
  }

  /** Windows of `[0] ++ offsets ++ [buffer.len()]`, as `fmt` walks them. */
  function Render(buffer: string, offsets: seq<nat>, indexed: bool): (r: Option<string>)
    ensures offsets == [] ==> r == Some(buffer)
    ensures r.Some? <==> Sorted(offsets) && forall i :: 0 <= i < |offsets| ==> offsets[i] <= |buffer|
  {
    WindowsDefined(buffer, 0, offsets, 1, indexed);
    WindowsWithoutOffsets(buffer, offsets, indexed);
    RenderWindows(buffer, [0] + offsets + [|buffer|], 1, indexed)
  }

  lemma WindowsWithoutOffsets(buffer: string, offsets: seq<nat>, indexed: bool)
    ensures offsets == [] ==> RenderWindows(buffer, [0] + offsets + [|buffer|], 1, indexed) == Some(buffer)
  {
    if offsets == [] {
      var w := [0] + offsets + [|buffer|];
      assert w[1..] == [|buffer|];
      assert RenderWindows(buffer, w[1..], 2, indexed) == Some([]);
      assert buffer[0..|buffer|] + [] == buffer;
    }
  }

  /** Rendering panics exactly when some window runs backwards or past the end. */
  lemma {:induction false} WindowsDefined(buffer: string, p: nat, offsets: seq<nat>, c: nat, indexed: bool)
    ensures RenderWindows(buffer, [p] + offsets + [|buffer|], c, indexed).Some? <==>
      && p <= |buffer|
      && Sorted(offsets)
      && forall i :: 0 <= i < |offsets| ==> p <= offsets[i] <= |buffer|
    decreases |offsets|
  {
    var w := [p] + offsets + [|buffer|];
    if offsets == [] {
      assert w == [p, |buffer|];
      assert w[1..] == [|buffer|];
    } else {
      var rest := offsets[1..];
      assert w[1..] == [offsets[0]] + rest + [|buffer|];
      WindowsDefined(buffer, offsets[0], rest, c + 1, indexed);
      WindowsDefined(buffer, offsets[0], rest, c, indexed);
      assert forall i :: 0 <= i < |rest| ==> rest[i] == offsets[i + 1];
      if Sorted(offsets) && (forall i :: 0 <= i < |offsets| ==> p <= offsets[i] <= |buffer|) {
        assert Sorted(rest);
      }
    }
  }

  // ---------------------------------------------------------------------------
  // The rendering the window loop evidently intends: a marker for every
  // recorded offset, including offset 0.

  /** Text from `from` up to each offset, then a marker; then the rest of the buffer. */
  function RenderEvery(buffer: string, offsets: seq<nat>, from: nat, c: nat, indexed: bool): Option<string>
    decreases |offsets|
  {
    if offsets == [] then
      (if from <= |buffer| then Some(buffer[from..]) else None)
    else if !(from <= offsets[0] <= |buffer|) then None
    else Prepend(buffer[from..offsets[0]] + Marker(c, indexed), RenderEvery(buffer, offsets[1..], offsets[0], c + 1, indexed))
  }

  /** Corrected rendering: one marker per recorded offset. */
  function RenderFixed(buffer: string, offsets: seq<nat>, indexed: bool): Option<string>
  {
    RenderEvery(buffer, offsets, 0, 1, indexed)
  }

  /** The offsets that the window loop marks: those that are not 0. */
  function NonZero(offsets: seq<nat>): (r: seq<nat>)
    ensures forall i :: 0 <= i < |r| ==> r[i] != 0
  {
    if offsets == [] then []
    else if offsets[0] == 0 then NonZero(offsets[1..])
    else [offsets[0]] + NonZero(offsets[1..])
  }

  lemma {:induction false} NonZeroOfPositive(offsets: seq<nat>)
    requires forall i :: 0 <= i < |offsets| ==> offsets[i] != 0
    ensures NonZero(offsets) == offsets
  {
    if offsets != [] {
      NonZeroOfPositive(offsets[1..]);
    }
  }

  /** Dropping the zero offsets keeps order and bounds. */
  lemma {:induction false} NonZeroSorted(offsets: seq<nat>, lo: nat, hi: nat)
    requires Sorted(offsets)
    requires forall i :: 0 <= i < |offsets| ==> lo <= offsets[i] <= hi
    ensures Sorted(NonZero(offsets))
    ensures forall i :: 0 <= i < |NonZero(offsets)| ==> lo <= NonZero(offsets)[i] <= hi
  {
    if offsets != [] {
      var tail := offsets[1..];
      assert Sorted(tail) by {
        assert forall i, j :: 0 <= i < j < |tail| ==> tail[i] == offsets[i + 1] && tail[j] == offsets[j + 1];
      }
      if offsets[0] == 0 {
        NonZeroSorted(tail, lo, hi);
      } else {
        NonZeroSorted(tail, offsets[0], hi);
        NonZeroSorted(tail, lo, hi);
      }
    }
  }

  /** Only zero offsets are dropped: no offset is lost exactly when none is 0. */
  lemma {:induction false} NonZeroLength(offsets: seq<nat>)
    ensures |NonZero(offsets)| <= |offsets|
    ensures |NonZero(offsets)| == |offsets| <==> forall i :: 0 <= i < |offsets| ==> offsets[i] != 0
  {
    if offsets != [] {
      NonZeroLength(offsets[1..]);
      assert forall i :: 1 <= i < |offsets| ==> offsets[i] == offsets[1..][i - 1];
    }
  }

  /** From a window that starts at a non-zero offset on, both renderings agree. */
  lemma {:induction false} WindowsFromMarkedOffset(buffer: string, p: nat, offsets: seq<nat>, c: nat, indexed: bool)
    requires p != 0
    ensures RenderWindows(buffer, [p] + offsets + [|buffer|], c, indexed)
         == Prepend(Marker(c, indexed), RenderEvery(buffer, offsets, p, c + 1, indexed))
    decreases |offsets|
  {
    var w := [p] + offsets + [|buffer|];
    if offsets == [] {
      assert w == [p, |buffer|];
      assert w[1..] == [|buffer|];
      assert RenderWindows(buffer, w[1..], c + 1, indexed) == Some([]);
      if p <= |buffer| {
        assert Marker(c, indexed) + buffer[p..|buffer|] + [] == Marker(c, indexed) + buffer[p..];
      }
    } else {
      var o := offsets[0];
      assert w[1..] == [o] + offsets[1..] + [|buffer|];
      if p <= o <= |buffer| {
        WindowsFromMarkedOffset(buffer, o, offsets[1..], c + 1, indexed);
        var tail := RenderEvery(buffer, offsets[1..], o, c + 2, indexed);
        PrependPrepend(Marker(c, indexed) + buffer[p..o], Marker(c + 1, indexed), tail);
        PrependPrepend(Marker(c, indexed), buffer[p..o] + Marker(c + 1, indexed), tail);
        assert Marker(c, indexed) + buffer[p..o] + Marker(c + 1, indexed)
            == Marker(c, indexed) + (buffer[p..o] + Marker(c + 1, indexed));
      }
    }
  }

  /**
   * As written, rendering sorted offsets is the corrected rendering of the
   * offsets that are not 0: a placeholder recorded at offset 0 gets no marker.
   */
  lemma {:induction false} RenderDropsOffsetZero(buffer: string, offsets: seq<nat>, indexed: bool)
    requires Sorted(offsets)
    ensures Render(buffer, offsets, indexed) == RenderFixed(buffer, NonZero(offsets), indexed)
  {
    WindowsFromStart(buffer, offsets, 1, indexed);
  }

  lemma {:induction false} WindowsFromStart(buffer: string, offsets: seq<nat>, c: nat, indexed: bool)
    requires Sorted(offsets)
    ensures RenderWindows(buffer, [0] + offsets + [|buffer|], c, indexed)
         == RenderEvery(buffer, NonZero(offsets), 0, c, indexed)
    decreases |offsets|
  {
    if offsets == [] {
      var w := [0] + offsets + [|buffer|];
      assert w[1..] == [|buffer|];
      assert RenderWindows(buffer, w[1..], c, indexed) == Some([]);
      assert buffer[0..|buffer|] + [] == buffer[0..];
    } else if offsets[0] == 0 {
      assert Sorted(offsets[1..]);
      WindowsFromStart(buffer, offsets[1..], c, indexed);
      SkipZeroWindow(buffer, offsets, c, indexed);
    } else {
      FirstMarkedWindow(buffer, offsets, c, indexed);
    }
  }

  lemma SkipZeroWindow(buffer: string, offsets: seq<nat>, c: nat, indexed: bool)
    requires offsets != [] && offsets[0] == 0
    ensures RenderWindows(buffer, [0] + offsets + [|buffer|], c, indexed)
         == RenderWindows(buffer, [0] + offsets[1..] + [|buffer|], c, indexed)
    ensures NonZero(offsets) == NonZero(offsets[1..])
  {
    var w := [0] + offsets + [|buffer|];
    assert w[1..] == [0] + offsets[1..] + [|buffer|];
    assert buffer[0..0] == [];
    var tail := RenderWindows(buffer, w[1..], c, indexed);
    assert Prepend([], tail) == tail by {
      if tail.Some? { assert [] + tail.value == tail.value; }
    }
  }

  lemma FirstMarkedWindow(buffer: string, offsets: seq<nat>, c: nat, indexed: bool)
    requires Sorted(offsets)
    requires offsets != [] && offsets[0] != 0
    ensures RenderWindows(buffer, [0] + offsets + [|buffer|], c, indexed)
         == RenderEvery(buffer, NonZero(offsets), 0, c, indexed)
  {
    var o, rest := offsets[0], offsets[1..];
    var w := [0] + offsets + [|buffer|];
    assert w[1..] == [o] + rest + [|buffer|];
    assert forall i :: 0 <= i < |offsets| ==> offsets[i] != 0 by {
      forall i | 0 <= i < |offsets| ensures offsets[i] != 0 {
        assert offsets[0] <= offsets[i];
      }
    }
    NonZeroOfPositive(offsets);
    if o <= |buffer| {
      WindowsFromMarkedOffset(buffer, o, rest, c, indexed);
      PrependPrepend(buffer[0..o], Marker(c, indexed), RenderEvery(buffer, rest, o, c + 1, indexed));
    }
  }

  // ---------------------------------------------------------------------------
  // Round trips between rendering with `?` markers and appending.

  /** A slice is its first character followed by the rest. */
  lemma SliceStepBack(buffer: string, from: nat, to: nat)
    requires from < to <= |buffer|
    ensures buffer[from..to] == [buffer[from]] + buffer[from + 1..to]
  {
  }

  /** Stepping back over a character before a marked offset. */
  lemma MarkedStepBack(buffer: string, offsets: seq<nat>, from: nat, c: nat, indexed: bool)
    requires offsets != [] && from < offsets[0] <= |buffer|
    ensures RenderEvery(buffer, offsets, from, c, indexed)
         == Prepend([buffer[from]], RenderEvery(buffer, offsets, from + 1, c, indexed))
  {
    var o := offsets[0];
    var m := Marker(c, indexed);
    var tail := RenderEvery(buffer, offsets[1..], o, c + 1, indexed);
    var head := buffer[from + 1..o] + m;
    assert RenderEvery(buffer, offsets, from, c, indexed) == Prepend(buffer[from..o] + m, tail);
    assert RenderEvery(buffer, offsets, from + 1, c, indexed) == Prepend(head, tail);
    assert [buffer[from]] + head == buffer[from..o] + m by {
      SliceStepBack(buffer, from, o);
    }
    PrependPrepend([buffer[from]], head, tail);
  }

  lemma RenderEveryStepBack(buffer: string, offsets: seq<nat>, from: nat, c: nat, indexed: bool)
    requires from < |buffer|
    requires offsets != [] ==> from < offsets[0]
    ensures RenderEvery(buffer, offsets, from, c, indexed)
         == Prepend([buffer[from]], RenderEvery(buffer, offsets, from + 1, c, indexed))
  {
    if offsets == [] {
      SliceStepBack(buffer, from, |buffer|);
      assert buffer[from..] == buffer[from..|buffer|];
      assert buffer[from + 1..] == buffer[from + 1..|buffer|];
    } else if offsets[0] <= |buffer| {
      MarkedStepBack(buffer, offsets, from, c, indexed);
    }
  }

  lemma {:induction false} RenderEveryOfAppended(prefix: string, s: string, c: nat)
    ensures RenderEvery(prefix + Stripped(s), Offsets(s, |prefix|), |prefix|, c, false) == Some(s)
    decreases |s|
  {
    if s == [] {
      assert prefix + Stripped(s) == prefix;
    } else if s[0] == '?' {
      RenderEveryOfAppended(prefix, s[1..], c + 1);
      LeadingMarker(prefix, s, c);
    } else {
      RenderEveryOfAppended(prefix + [s[0]], s[1..], c);
      LeadingCharacter(prefix, s, c);
    }
  }

  lemma LeadingMarker(prefix: string, s: string, c: nat)
    requires s != [] && s[0] == '?'
    requires RenderEvery(prefix + Stripped(s[1..]), Offsets(s[1..], |prefix|), |prefix|, c + 1, false) == Some(s[1..])
    ensures RenderEvery(prefix + Stripped(s), Offsets(s, |prefix|), |prefix|, c, false) == Some(s)
  {
    var buffer := prefix + Stripped(s);
    assert buffer == prefix + Stripped(s[1..]);
    var offsets := Offsets(s, |prefix|);
    assert offsets == [|prefix|] + Offsets(s[1..], |prefix|);
    assert offsets[1..] == Offsets(s[1..], |prefix|);
    assert buffer[|prefix|..|prefix|] + Marker(c, false) == "?";
    assert s == "?" + s[1..];
  }

  lemma SeqAssoc(a: string, b: string, c: string)
    ensures a + (b + c) == a + b + c
  {
  }

  lemma LeadingCharacter(prefix: string, s: string, c: nat)
    requires s != [] && s[0] != '?'
    requires RenderEvery(prefix + [s[0]] + Stripped(s[1..]), Offsets(s[1..], |prefix| + 1), |prefix| + 1, c, false) == Some(s[1..])
    ensures RenderEvery(prefix + Stripped(s), Offsets(s, |prefix|), |prefix|, c, false) == Some(s)
  {
    var x := Stripped(s[1..]);
    var buffer := prefix + [s[0]] + x;
    var offsets := Offsets(s[1..], |prefix| + 1);
    assert Stripped(s) == [s[0]] + x;
    SeqAssoc(prefix, [s[0]], x);
    assert Offsets(s, |prefix|) == offsets;
    assert buffer[|prefix|] == s[0];
    RenderEveryStepBack(buffer, offsets, |prefix|, c, false);
    assert [s[0]] + s[1..] == s;
  }

  /** Corrected rendering puts every `?` of appended text back where it stood. */
  lemma RenderFixedInvertsAppend(s: string)
    ensures RenderFixed(Stripped(s), Offsets(s, 0), false) == Some(s)
  {
    RenderEveryOfAppended([], s, 1);
    assert [] + Stripped(s) == Stripped(s);
  }

  lemma {:induction false} AppendOfRenderEvery(buffer: string, offsets: seq<nat>, from: nat, c: nat)
    requires '?' !in buffer
    requires Sorted(offsets)
    requires from <= |buffer|
    requires forall i :: 0 <= i < |offsets| ==> from <= offsets[i] <= |buffer|
    ensures RenderEvery(buffer, offsets, from, c, false).Some?
    ensures Stripped(RenderEvery(buffer, offsets, from, c, false).value) == buffer[from..]
    ensures Offsets(RenderEvery(buffer, offsets, from, c, false).value, from) == offsets
    decreases |offsets|
  {
    if offsets == [] {
      assert forall x :: x in buffer[from..] ==> x in buffer;
      PlainText(buffer[from..], from);
    } else {
      var o := offsets[0];
      var rest := offsets[1..];
      assert Sorted(rest);
      AppendOfRenderEvery(buffer, rest, o, c + 1);
      var tail := RenderEvery(buffer, rest, o, c + 1, false).value;
      var seg := buffer[from..o];
      assert forall x :: x in seg ==> x in buffer;
      assert RenderEvery(buffer, offsets, from, c, false) == Some(seg + "?" + tail);
      MarkedSegment(seg, tail, from);
      assert buffer[from..] == seg + buffer[o..];
    }
  }

  /** A `?`-free segment, a generic marker, then the rest. */
  lemma MarkedSegment(seg: string, tail: string, from: nat)
    requires '?' !in seg
    ensures Stripped(seg + "?" + tail) == seg + Stripped(tail)
    ensures Offsets(seg + "?" + tail, from) == [from + |seg|] + Offsets(tail, from + |seg|)
  {
    PlainText(seg, from);
    assert seg + "?" + tail == seg + ("?" + tail);
    StrippedAppend(seg, "?" + tail);
    OffsetsAppend(seg, "?" + tail, from);
    assert ("?" + tail)[0] == '?' && ("?" + tail)[1..] == tail;
  }

  /**
   * Appending the corrected rendering (generic markers) of a well-formed
   * buffer reproduces that buffer and its offsets.
   */
  lemma AppendInvertsRenderFixed(buffer: string, offsets: seq<nat>)
    requires '?' !in buffer
    requires Sorted(offsets)
    requires forall i :: 0 <= i < |offsets| ==> offsets[i] <= |buffer|
    ensures RenderFixed(buffer, offsets, false).Some?
    ensures Stripped(RenderFixed(buffer, offsets, false).value) == buffer
    ensures Offsets(RenderFixed(buffer, offsets, false).value, 0) == offsets
  {
    AppendOfRenderEvery(buffer, offsets, 0, 1);
  }

  /**
   * As written, rendering restores appended text as long as it does not
   * start with a placeholder.
   */
  lemma RenderInvertsAppend(s: string)
    requires s == [] || s[0] != '?'
    ensures Render(Stripped(s), Offsets(s, 0), false) == Some(s)
  {
    var offsets := Offsets(s, 0);
    if s != [] {
      assert offsets == Offsets(s[1..], 1);
      OffsetsSorted(s[1..], 1);
    }
    NonZeroOfPositive(offsets);
    RenderDropsOffsetZero(Stripped(s), offsets, false);
    RenderFixedInvertsAppend(s);
  }

  /**
   * As written, rendering a well-formed buffer whose offsets are all
   * non-zero writes exactly one `?` at each offset.
   */
  lemma AppendInvertsRender(buffer: string, offsets: seq<nat>)
    requires '?' !in buffer
    requires Sorted(offsets)
    requires forall i :: 0 <= i < |offsets| ==> 0 < offsets[i] <= |buffer|
    ensures Render(buffer, offsets, false).Some?
    ensures Stripped(Render(buffer, offsets, false).value) == buffer
    ensures Offsets(Render(buffer, offsets, false).value, 0) == offsets
  {
    NonZeroOfPositive(offsets);
    RenderDropsOffsetZero(buffer, offsets, false);
    AppendInvertsRenderFixed(buffer, offsets);
  }

  /** `Display` writes one marker per non-zero offset, however many were recorded. */
  lemma RenderedMarkers(buffer: string, offsets: seq<nat>)
    requires '?' !in buffer
    requires Render(buffer, offsets, false).Some?
    ensures Count(Render(buffer, offsets, false).value) == |NonZero(offsets)|
  {
    RenderDropsOffsetZero(buffer, offsets, false);
    NonZeroSorted(offsets, 0, |buffer|);
    AppendInvertsRenderFixed(buffer, NonZero(offsets));
  }

  /** `Query::new(("? AS total", 5))`: the marker for offset 0 is lost. */
  lemma LeadingPlaceholderDropped()
    ensures Stripped("? AS total") == " AS total"
    ensures Offsets("? AS total", 0) == [0]
    ensures Render(" AS total", [0], false) == Some(" AS total")
    ensures RenderFixed(" AS total", [0], false) == Some("? AS total")
  {
    var text, buffer := "? AS total", " AS total";
    assert text == "?" + buffer;
    RenderFixedInvertsAppend(text);
    StrippedAppend("?", buffer);
    OffsetsAppend("?", buffer, 0);
    PlainText(buffer, 0);
    RenderDropsOffsetZero(buffer, [0], false);
    assert NonZero([0]) == [];
  }

  // ---------------------------------------------------------------------------
  // Indexed markers.

  /** The reference numbering: the k-th `?` of `s` (from 0) becomes `$(c + k)`. */
  function NumberMarkers(s: string, c: nat): string
  {
    if s == [] then []
    else if s[0] == '?' then "$" + Decimal(c) + NumberMarkers(s[1..], c + 1)
    else [s[0]] + NumberMarkers(s[1..], c)
  }

  lemma {:induction false} NumberMarkersAppend(a: string, b: string, c: nat)
    ensures NumberMarkers(a + b, c) == NumberMarkers(a, c) + NumberMarkers(b, c + Count(a))
  {
    if a == [] {
      assert a + b == b;
    } else {
      assert (a + b)[1..] == a[1..] + b;
      var head := if a[0] == '?' then "$" + Decimal(c) else [a[0]];
      var next := if a[0] == '?' then c + 1 else c;
      NumberMarkersAppend(a[1..], b, next);
      assert NumberMarkers(a + b, c) == head + NumberMarkers(a[1..] + b, next);
      assert NumberMarkers(a, c) == head + NumberMarkers(a[1..], next);
      assert c + Count(a) == next + Count(a[1..]);
      SeqAssoc(head, NumberMarkers(a[1..], next), NumberMarkers(b, next + Count(a[1..])));
    }
  }

  lemma {:induction false} NumberMarkersPlain(s: string, c: nat)
    requires '?' !in s
    ensures NumberMarkers(s, c) == s
    ensures Count(s) == 0
  {
    if s != [] {
      assert s[0] in s;
      assert forall x :: x in s[1..] ==> x in s;
      NumberMarkersPlain(s[1..], c);
    }
  }

  function Numbered(o: Option<string>, c: nat): Option<string>
  {
    match o
    case None => None
    case Some(s) => Some(NumberMarkers(s, c))
  }

  /** Numbering a window that starts with a marker and holds plain text. */
  lemma MarkedWindowNumbered(seg: string, rest: string, c: nat)
    requires '?' !in seg
    ensures NumberMarkers("?" + seg + rest, c) == "$" + Decimal(c) + seg + NumberMarkers(rest, c + 1)
  {
    NumberMarkersAppend("?" + seg, rest, c);
    NumberMarkersAppend("?", seg, c);
    NumberMarkersPlain(seg, c + 1);
    CountAppend("?", seg);
  }

  /** Numbering a window of plain text. */
  lemma PlainWindowNumbered(seg: string, rest: string, c: nat)
    requires '?' !in seg
    ensures NumberMarkers(seg + rest, c) == seg + NumberMarkers(rest, c)
  {
    NumberMarkersPlain(seg, c);
    var k := c + Count(seg);
    assert k == c;
    NumberMarkersAppend(seg, rest, c);
  }

  lemma {:induction false} IndexedWindows(buffer: string, w: seq<nat>, c: nat)
    requires '?' !in buffer
    ensures RenderWindows(buffer, w, c, true) == Numbered(RenderWindows(buffer, w, c, false), c)
    decreases |w|
  {
    if |w| >= 2 && w[0] <= w[1] <= |buffer| {
      var seg := buffer[w[0]..w[1]];
      assert '?' !in seg by {
        assert forall x :: x in seg ==> x in buffer;
      }
      if w[0] != 0 {
        IndexedWindows(buffer, w[1..], c + 1);
        var rest := RenderWindows(buffer, w[1..], c + 1, false);
        assert RenderWindows(buffer, w, c, false) == Prepend("?" + seg, rest);
        if rest.Some? {
          MarkedWindowNumbered(seg, rest.value, c);
        }
      } else {
        IndexedWindows(buffer, w[1..], c);
        var rest := RenderWindows(buffer, w[1..], c, false);
        if rest.Some? {
          PlainWindowNumbered(seg, rest.value, c);
        }
      }
    }
  }

  /**
   * With indexed-args the output is the generic output with its k-th `?`
   * replaced by `$k`, counting from 1 in left-to-right order.
   */
  lemma IndexedRenderNumbersMarkers(buffer: string, offsets: seq<nat>)
    requires '?' !in buffer
    ensures Render(buffer, offsets, true) == Numbered(Render(buffer, offsets, false), 1)
  {
    IndexedWindows(buffer, [0] + offsets + [|buffer|], 1);
  }
}
