/**
 * Placeholder bookkeeping of the query buffer (src/query.rs): appending text
 * keeps every character except `?`, and records, for each `?`, the cursor at
 * the moment it was seen. Characters are modelled with unit width, so the
 * cursor of a buffer built only by appending is its length.
 */
module Placeholders {

  /** Offsets that never decrease from left to right. */
  predicate Sorted(s: seq<nat>)
  {
    forall i, j :: 0 <= i < j < |s| ==> s[i] <= s[j]
  }

  /** Every offset of `s` moved right by `d` (the sub-query merge). */
  function Shift(s: seq<nat>, d: nat): (r: seq<nat>)
    ensures |r| == |s|
    ensures forall i :: 0 <= i < |s| ==> r[i] == s[i] + d
  {
    seq(|s|, i requires 0 <= i < |s| => s[i] + d)
  }

  /** Number of `?` placeholders in `s`. */
  function Count(s: string): nat
  {
    if s == [] then 0 else (if s[0] == '?' then 1 else 0) + Count(s[1..])
  }

  /** The text that appending `s` adds to the buffer: `s` without its `?`s. */
  function Stripped(s: string): (r: string)
    ensures '?' !in r
    ensures |r| + Count(s) == |s|
  {
    if s == [] then []
    else if s[0] == '?' then Stripped(s[1..])
    else [s[0]] + Stripped(s[1..])
  }

  /**
   * The offsets that appending `s` at cursor `base` records: one per `?`,
   * each the cursor reached by the characters copied before it.
   */
  function Offsets(s: string, base: nat): (r: seq<nat>)
    ensures |r| == Count(s)
  {
    if s == [] then []
    else if s[0] == '?' then [base] + Offsets(s[1..], base)
    else Offsets(s[1..], base + 1)
  }

  /** The recorded offsets never decrease and lie between the starting and the final cursor. */
  lemma {:induction false} OffsetsSorted(s: string, base: nat)
    ensures Sorted(Offsets(s, base))
    ensures forall i :: 0 <= i < |Offsets(s, base)| ==> base <= Offsets(s, base)[i] <= base + |Stripped(s)|
  {
    if s != [] {
      if s[0] == '?' {
        OffsetsSorted(s[1..], base);
      } else {
        OffsetsSorted(s[1..], base + 1);
      }
    }
  }

  lemma {:induction false} CountAppend(a: string, b: string)
    ensures Count(a + b) == Count(a) + Count(b)
  {
    if a == [] {
      assert a + b == b;
    } else {
      assert (a + b)[1..] == a[1..] + b;
      CountAppend(a[1..], b);
    }
  }

  /** Stripping distributes over concatenation. */
  lemma {:induction false} StrippedAppend(a: string, b: string)
    ensures Stripped(a + b) == Stripped(a) + Stripped(b)
  {
    if a == [] {
      assert a + b == b;
    } else {
      assert (a + b)[1..] == a[1..] + b;
      StrippedAppend(a[1..], b);
    }
  }

  /** The offsets of `b` follow those of `a`, measured from where `a` left the cursor. */
  lemma {:induction false} OffsetsAppend(a: string, b: string, base: nat)
    ensures Offsets(a + b, base) == Offsets(a, base) + Offsets(b, base + |Stripped(a)|)
  {
    if a == [] {
      assert a + b == b;
    } else {
      assert (a + b)[1..] == a[1..] + b;
      if a[0] == '?' {
        OffsetsAppend(a[1..], b, base);
      } else {
        OffsetsAppend(a[1..], b, base + 1);
      }
    }
  }

  /** Appending the same text further right records the same offsets, shifted. */
  lemma {:induction false} OffsetsShifted(s: string, base: nat, d: nat)
    ensures Offsets(s, base + d) == Shift(Offsets(s, base), d)
  {
    if s != [] {
      if s[0] == '?' {
        OffsetsShifted(s[1..], base, d);
        assert Shift([base] + Offsets(s[1..], base), d) == [base + d] + Shift(Offsets(s[1..], base), d);
      } else {
        OffsetsShifted(s[1..], base + 1, d);
      }
    }
  }

  /** Text without placeholders is copied verbatim and records no offset. */
  lemma {:induction false} PlainText(s: string, base: nat)
    requires '?' !in s
    ensures Stripped(s) == s
    ensures Offsets(s, base) == []
  {
    if s != [] {
      assert s[0] in s;
      assert forall c :: c in s[1..] ==> c in s;
      PlainText(s[1..], base + 1);
    }
  }

  /**
   * The `?` at position `j` of `s` is the `Count(s[..j])`-th placeholder, and
   * its recorded offset is the cursor after copying the characters before it.
   */
  lemma OffsetAtPlaceholder(s: string, base: nat, j: nat)
    requires j < |s| && s[j] == '?'
    ensures Count(s[..j]) < |Offsets(s, base)|
    ensures Offsets(s, base)[Count(s[..j])] == base + |Stripped(s[..j])|
  {
    assert s == s[..j] + s[j..];
    OffsetsAppend(s[..j], s[j..], base);
    assert Offsets(s[j..], base + |Stripped(s[..j])|)[0] == base + |Stripped(s[..j])|;
  }

  /** One more character: copied, or recorded at the cursor reached so far. */
  lemma AppendChar(prefix: string, c: char, base: nat)
    ensures Stripped(prefix + [c]) == Stripped(prefix) + (if c == '?' then [] else [c])
    ensures Offsets(prefix + [c], base)
         == Offsets(prefix, base) + (if c == '?' then [base + |Stripped(prefix)|] else [])
  {
    StrippedAppend(prefix, [c]);
    OffsetsAppend(prefix, [c], base);
    assert [c][1..] == [];
  }
}
