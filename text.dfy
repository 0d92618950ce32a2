/**
 * The string primitives the paragraph splitter of the chat page relies on:
 * the whitespace class `\s` of its regular expression, `String.prototype.trim`,
 * and joining sentences with a single space.
 */
module Text {

  /** ECMAScript WhiteSpace and LineTerminator code points: the class `\s`,
      which is also the set `trim` removes. */
  predicate IsSpace(c: char)
  {
    c == '\t' || c == '\n' || c == '\U{B}' || c == '\U{C}' || c == '\r' || c == ' ' ||
    c == '\U{A0}' || c == '\U{1680}' || ('\U{2000}' <= c <= '\U{200A}') ||
    c == '\U{2028}' || c == '\U{2029}' || c == '\U{202F}' || c == '\U{205F}' ||
    c == '\U{3000}' || c == '\U{FEFF}'
  }

  predicate AllSpace(s: string)
  {
    forall i :: 0 <= i < |s| ==> IsSpace(s[i])
  }

  /** Leading whitespace removed: what is left does not start with
      whitespace. */
  function TrimStart(s: string): (r: string)
    ensures |r| <= |s|
    ensures r == [] || !IsSpace(r[0])
  {
    if s != [] && IsSpace(s[0]) then TrimStart(s[1..]) else s
  }

  /** Trailing whitespace removed: what is left does not end with
      whitespace. */
  function TrimEnd(s: string): (r: string)
    ensures |r| <= |s|
    ensures r == [] || !IsSpace(r[|r| - 1])
  {
    if s != [] && IsSpace(s[|s| - 1]) then TrimEnd(s[..|s| - 1]) else s
  }

  /** `TrimStart` keeps a suffix and drops only whitespace. */
  lemma {:induction false} TrimStartDropsSpace(s: string)
    ensures TrimStart(s) == s[|s| - |TrimStart(s)|..]
    ensures AllSpace(s[..|s| - |TrimStart(s)|])
  {
    if s != [] && IsSpace(s[0]) {
      TrimStartDropsSpace(s[1..]);
      var k := |s| - |TrimStart(s)|;
      assert s[1..][k - 1..] == s[k..];
      forall i | 0 <= i < k
        ensures IsSpace(s[..k][i])
      {
        if i > 0 { assert s[..k][i] == s[1..][..k - 1][i - 1]; }
      }
    }
  }

  /** `TrimEnd` keeps a prefix and drops only whitespace. */
  lemma {:induction false} TrimEndDropsSpace(s: string)
    ensures TrimEnd(s) == s[..|TrimEnd(s)|]
    ensures AllSpace(s[|TrimEnd(s)|..])
  {
    if s != [] && IsSpace(s[|s| - 1]) {
      var t := s[..|s| - 1];
      TrimEndDropsSpace(t);
      var k := |TrimEnd(s)|;
      assert t[..k] == s[..k];
      forall i | 0 <= i < |s| - k
        ensures IsSpace(s[k..][i])
      {
        if i < |s| - 1 - k { assert s[k..][i] == t[k..][i]; }
      }
    }
  }

  /** What `trim` keeps is a slice of `s`, and everything before and after
      that slice is whitespace. */
  lemma TrimSlice(s: string) returns (i: nat, j: nat)
    ensures i <= j <= |s| && Trim(s) == s[i..j]
    ensures AllSpace(s[..i]) && AllSpace(s[j..])
  {
    var t := TrimStart(s);
    TrimStartDropsSpace(s);
    TrimEndDropsSpace(t);
    i := |s| - |t|;
    j := i + |TrimEnd(t)|;
    assert t == s[i..];
    assert Trim(s) == t[..j - i] == s[i..j];
    forall k | 0 <= k < |s| - j
      ensures IsSpace(s[j..][k])
    {
      assert s[j..][k] == t[j - i..][k];
    }
  }

  /** `String.prototype.trim`: leading and trailing whitespace removed. */
  function Trim(s: string): (r: string)
    ensures |r| <= |s|
    ensures r == [] || (!IsSpace(r[0]) && !IsSpace(r[|r| - 1]))
  {
    TrimEndDropsSpace(TrimStart(s));
    TrimEnd(TrimStart(s))
  }

  lemma {:induction false} TrimStartAllSpace(s: string)
    requires AllSpace(s)
    ensures TrimStart(s) == []
  {
    if s != [] {
      assert IsSpace(s[0]);
      TrimStartAllSpace(s[1..]);
    }
  }

  /** Trimming a string that is whitespace only leaves the empty string, and
      trimming one without surrounding whitespace leaves it as it is. */
  lemma TrimCases(s: string)
    ensures AllSpace(s) ==> Trim(s) == []
    ensures s == [] || (!IsSpace(s[0]) && !IsSpace(s[|s| - 1])) ==> Trim(s) == s
  {
    if AllSpace(s) {
      TrimStartAllSpace(s);
    }
  }

  /** A code point's length in UTF-16 code units: what JavaScript's
      `length` counts for it. */
  function CodeUnits(c: char): (n: nat)
    ensures 1 <= n <= 2
    ensures c == ' ' ==> n == 1
  {
    if c as int < 0x1_0000 then 1 else 2
  }

  /** JavaScript's `length` of a string: UTF-16 code units, not code points. */
  function Length(s: string): (n: nat)
    ensures |s| <= n <= 2 * |s|
  {
    if s == [] then 0 else Length(s[..|s| - 1]) + CodeUnits(s[|s| - 1])
  }

  /** For text inside the Basic Multilingual Plane, such as ASCII,
      JavaScript's `length` is the number of characters. */
  lemma {:induction false} LengthBmp(s: string)
    requires forall i :: 0 <= i < |s| ==> s[i] as int < 0x1_0000
    ensures Length(s) == |s|
  {
    if s != [] {
      LengthBmp(s[..|s| - 1]);
    }
  }

  /** `length` of a concatenation is the sum of the lengths. */
  lemma {:induction false} LengthConcat(a: string, b: string)
    ensures Length(a + b) == Length(a) + Length(b)
  {
    if b != [] {
      assert (a + b)[..|a + b| - 1] == a + b[..|b| - 1];
      LengthConcat(a, b[..|b| - 1]);
    } else {
      assert a + b == a;
    }
  }

  /** A piece of a string is no longer than the whole. */
  lemma LengthSlice(s: string, i: nat, j: nat)
    requires i <= j <= |s|
    ensures Length(s[i..j]) <= Length(s)
  {
    assert s == s[..i] + s[i..j] + s[j..];
    LengthConcat(s[..i] + s[i..j], s[j..]);
    LengthConcat(s[..i], s[i..j]);
  }

  /** Trimming never makes a string longer. */
  lemma TrimLength(s: string)
    ensures Length(Trim(s)) <= Length(s)
  {
    var t := TrimStart(s);
    TrimStartDropsSpace(s);
    TrimEndDropsSpace(t);
    LengthSlice(s, |s| - |t|, |s|);
    assert s[|s| - |t|..|s|] == t;
    var r := TrimEnd(t);
    LengthSlice(t, 0, |r|);
    assert t[0..|r|] == r;
  }

  /** The sentences of a paragraph written one after the other with a single
      space between neighbours. */
  function Join(run: seq<string>): (r: string)
    ensures |run| == 1 ==> r == run[0]
  {
    if |run| <= 1 then (if run == [] then "" else run[0])
    else Join(run[..|run| - 1]) + " " + run[|run| - 1]
  }

  /** Joining is empty only for no sentence or one empty sentence. */
  lemma {:induction false} JoinEmpty(run: seq<string>)
    ensures Join(run) == "" <==> run == [] || run == [""]
  {
  }

  /** The length of a join: the sentences' lengths plus one per gap. */
  lemma {:induction false} JoinAppend(run: seq<string>, s: string)
    requires run != []
    ensures Join(run + [s]) == Join(run) + " " + s
    ensures Length(Join(run + [s])) == Length(Join(run)) + 1 + Length(s)
  {
    assert (run + [s])[..|run|] == run;
    LengthConcat(Join(run), " ");
    LengthConcat(Join(run) + " ", s);
  }
}
