/**
 * `text.split(/(?<=\.)\s+/)`: the first half of the chat page's paragraph
 * splitter. A boundary is a maximal run of whitespace whose first character
 * follows a `.`; the run is consumed and the period stays with the sentence
 * before it.
 */
module Sentences {
  import opened Text

  /** A whitespace run that can begin at index `i`: the lookbehind `(?<=\.)`
      needs a `.` just before, and `\s+` needs whitespace at `i`. */
  predicate BoundaryAt(s: string, i: int)
  {
    0 < i < |s| && s[i - 1] == '.' && IsSpace(s[i])
  }

  /** No boundary begins anywhere inside `s`. */
  predicate NoBoundary(s: string)
  {
    forall i :: 0 <= i < |s| ==> !BoundaryAt(s, i)
  }

  /** Where the greedy `\s+` that starts at `q` stops. */
  function RunEnd(s: string, q: nat): (e: nat)
    requires q <= |s|
    ensures q <= e <= |s|
    ensures AllSpace(s[q..e])
    ensures e == |s| || !IsSpace(s[e])
    decreases |s| - q
  {
    if q < |s| && IsSpace(s[q]) then RunEnd(s, q + 1) else q
  }

  /** The split loop of ECMAScript's `@@split` for this pattern: `p` is where
      the current piece starts, `q` the position the match is tried at. */
  function SplitFrom(s: string, p: nat, q: nat): seq<string>
    requires p <= q <= |s|
    decreases |s| - q
  {
    if q == |s| then [s[p..]]
    else if BoundaryAt(s, q) then
      var e := RunEnd(s, q);
      [s[p..q]] + SplitFrom(s, e, e)
    else SplitFrom(s, p, q + 1)
  }

  /** The sentences of `s`. The empty string gives `[""]`, as in JavaScript,
      because the pattern cannot match the empty string. */
  function Split(s: string): seq<string>
  {
    SplitFrom(s, 0, 0)
  }

  /** Pieces written back with their separators between them. */
  function Interleave(pieces: seq<string>, seps: seq<string>): string
    requires |pieces| == |seps| + 1
    decreases |seps|
  {
    if seps == [] then pieces[0]
    else pieces[0] + seps[0] + Interleave(pieces[1..], seps[1..])
  }

  /** What every piece of a split looks like: nonempty and ending in `.`
      except the last, never starting with whitespace except the first,
      and without a boundary inside. */
  ghost predicate WellSplit(pieces: seq<string>)
  {
    |pieces| >= 1 &&
    (forall k :: 0 <= k < |pieces| - 1 ==> pieces[k] != [] && pieces[k][|pieces[k]| - 1] == '.') &&
    (forall k :: 1 <= k < |pieces| ==> pieces[k] == [] || !IsSpace(pieces[k][0])) &&
    (forall k :: 0 <= k < |pieces| ==> NoBoundary(pieces[k]))
  }

  lemma {:induction false} SplitFromShape(s: string, p: nat, q: nat) returns (seps: seq<string>)
    requires p <= q <= |s|
    requires forall i :: p < i < q ==> !BoundaryAt(s, i)
    requires !BoundaryAt(s, p)
    ensures |seps| + 1 == |SplitFrom(s, p, q)|
    ensures Interleave(SplitFrom(s, p, q), seps) == s[p..]
    ensures forall k :: 0 <= k < |seps| ==> seps[k] != [] && AllSpace(seps[k])
    ensures WellSplit(SplitFrom(s, p, q))
    decreases |s| - q
  {
    var pieces := SplitFrom(s, p, q);
    if q == |s| {
      seps := [];
      NoBoundaryPiece(s, p, q);
      assert s[p..q] == s[p..];
    } else if BoundaryAt(s, q) {
      var e := RunEnd(s, q);
      var rest := SplitFromShape(s, e, e);
      seps := [s[q..e]] + rest;
      assert pieces == [s[p..q]] + SplitFrom(s, e, e);
      assert pieces[1..] == SplitFrom(s, e, e);
      assert s[p..] == s[p..q] + s[q..e] + s[e..];
      NoBoundaryPiece(s, p, q);
      assert !BoundaryAt(s, e) by { assert IsSpace(s[q..e][e - q - 1]); }
      assert q > 0 && s[q - 1] == '.';
      assert pieces[0] != [] && pieces[0][|pieces[0]| - 1] == '.';
      forall k | 0 <= k < |pieces| - 1
        ensures pieces[k] != [] && pieces[k][|pieces[k]| - 1] == '.'
      {
        if k > 0 { assert pieces[k] == SplitFrom(s, e, e)[k - 1]; }
      }
      forall k | 1 <= k < |pieces|
        ensures pieces[k] == [] || !IsSpace(pieces[k][0])
      {
        assert pieces[k] == SplitFrom(s, e, e)[k - 1];
        if k == 1 {
          assert SplitFrom(s, e, e)[0] == [] || SplitFrom(s, e, e)[0][0] == s[e];
        }
      }
      forall k | 0 <= k < |pieces|
        ensures NoBoundary(pieces[k])
      {
        if k > 0 { assert pieces[k] == SplitFrom(s, e, e)[k - 1]; }
      }
    } else {
      seps := SplitFromShape(s, p, q + 1);
    }
  }

  /** The first piece `s[p..q]` has no boundary inside when none begins
      strictly between `p` and `q`. */
  lemma NoBoundaryPiece(s: string, p: nat, q: nat)
    requires p <= q <= |s|
    requires forall i :: p < i < q ==> !BoundaryAt(s, i)
    ensures NoBoundary(s[p..q])
  {
    var t := s[p..q];
    forall i | 0 <= i < |t|
      ensures !BoundaryAt(t, i)
    {
      if 0 < i {
        assert t[i - 1] == s[p + i - 1] && t[i] == s[p + i];
        assert !BoundaryAt(s, p + i);
      }
    }
  }

  /** Splitting loses nothing: the sentences, written back with the
      whitespace runs the split consumed (each nonempty and whitespace only),
      give the text again; and every sentence has the shape `WellSplit`
      describes. */
  lemma SplitReassembles(s: string) returns (seps: seq<string>)
    ensures |seps| + 1 == |Split(s)|
    ensures Interleave(Split(s), seps) == s
    ensures forall k :: 0 <= k < |seps| ==> seps[k] != [] && AllSpace(seps[k])
    ensures WellSplit(Split(s))
  {
    seps := SplitFromShape(s, 0, 0);
  }

  lemma {:induction false} SplitFromNoBoundary(s: string, p: nat, q: nat)
    requires p <= q <= |s|
    requires forall i :: q <= i < |s| ==> !BoundaryAt(s, i)
    ensures SplitFrom(s, p, q) == [s[p..]]
    decreases |s| - q
  {
    if q < |s| {
      SplitFromNoBoundary(s, p, q + 1);
    }
  }

  /** A text is a single sentence exactly when no boundary occurs in it. */
  lemma SplitSingle(s: string)
    ensures Split(s) == [s] <==> NoBoundary(s)
  {
    if NoBoundary(s) {
      SplitFromNoBoundary(s, 0, 0);
    }
    var _ := SplitReassembles(s);
  }

  lemma SplitTwo()
    ensures Split("A. B.") == ["A.", "B."]
  {
    var text := "A. B.";
    assert !BoundaryAt(text, 0) && !BoundaryAt(text, 1) && BoundaryAt(text, 2);
    assert !BoundaryAt(text, 3) && !BoundaryAt(text, 4);
    assert RunEnd(text, 2) == 3;
    assert text[3..] == "B." && text[0..2] == "A.";
    assert SplitFrom(text, 3, 5) == ["B."];
    assert SplitFrom(text, 3, 4) == ["B."];
    assert SplitFrom(text, 3, 3) == ["B."];
    assert SplitFrom(text, 0, 2) == ["A.", "B."];
    assert SplitFrom(text, 0, 1) == ["A.", "B."];
  }

  lemma SplitThree()
    ensures Split("A. B. C.") == ["A.", "B.", "C."]
  {
    var text := "A. B. C.";
    assert !BoundaryAt(text, 0) && !BoundaryAt(text, 1) && BoundaryAt(text, 2);
    assert !BoundaryAt(text, 3) && !BoundaryAt(text, 4) && BoundaryAt(text, 5);
    assert !BoundaryAt(text, 6) && !BoundaryAt(text, 7);
    assert RunEnd(text, 2) == 3 && RunEnd(text, 5) == 6;
    assert text[6..] == "C." && text[3..5] == "B." && text[0..2] == "A.";
    assert SplitFrom(text, 6, 8) == ["C."];
    assert SplitFrom(text, 6, 7) == ["C."];
    assert SplitFrom(text, 6, 6) == ["C."];
    assert SplitFrom(text, 3, 5) == ["B.", "C."];
    assert SplitFrom(text, 3, 4) == ["B.", "C."];
    assert SplitFrom(text, 3, 3) == ["B.", "C."];
    assert SplitFrom(text, 0, 2) == ["A.", "B.", "C."];
    assert SplitFrom(text, 0, 1) == ["A.", "B.", "C."];
  }
}
