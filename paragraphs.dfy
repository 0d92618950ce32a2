/**
 * `splitTextAfterPeriods`: the chat page breaks every message into display
 * paragraphs by splitting it into sentences and packing consecutive
 * sentences greedily into paragraphs of at most `maxLength` characters.
 *
 * Two quirks of the packing are kept: the length test measures
 * `currentParagraph + sentence` without the joining space, so a paragraph of
 * two or more sentences can be `maxLength + 1` long; and a sentence that is
 * longer than `maxLength` becomes a paragraph of its own and is not cut.
 */
module Paragraphs {
  import opened Text
  import opened Sentences

  /** The default of the `maxLength` parameter, the only value the page uses. */
  const DefaultMaxLength: int := 500

  /** The `forEach` loop over `rest` from accumulator `cur`, followed by the
      final push: the specification of `SplitTextAfterPeriods`. */
  function PackFrom(cur: string, rest: seq<string>, maxLength: int): seq<string>
    decreases |rest|
  {
    if rest == [] then
      (if cur != "" then [Trim(cur)] else [])
    else if Length(cur + rest[0]) <= maxLength then
      PackFrom(cur + (if cur != "" then " " else "") + rest[0], rest[1..], maxLength)
    else
      (if cur != "" then [Trim(cur)] else []) + PackFrom(rest[0], rest[1..], maxLength)
  }

  /** The paragraphs `splitTextAfterPeriods(text, maxLength)` returns. */
  function Paragraphs(text: string, maxLength: int): seq<string>
  {
    PackFrom("", Split(text), maxLength)
  }

  /** The splitter as the page runs it: split into sentences, then one pass
      that grows `currentParagraph` and pushes closed paragraphs. The page
      calls it without `maxLength`, so the default applies. */
  method SplitTextAfterPeriods(text: string, maxLength: int := DefaultMaxLength) returns (paragraphs: seq<string>)
    ensures paragraphs == Paragraphs(text, maxLength)
  {
    var sentences := Split(text);
    paragraphs := [];
    var currentParagraph := "";
    var i := 0;
    assert sentences[i..] == sentences;
    while i < |sentences|
      invariant 0 <= i <= |sentences|
      invariant paragraphs + PackFrom(currentParagraph, sentences[i..], maxLength) == Paragraphs(text, maxLength)
    {
      var sentence := sentences[i];
      assert sentences[i..][0] == sentence && sentences[i..][1..] == sentences[i + 1..];
      if Length(currentParagraph + sentence) <= maxLength {
        PackFromExtend(currentParagraph, sentences[i..], maxLength);
        currentParagraph := currentParagraph + (if currentParagraph != "" then " " else "") + sentence;
      } else {
        PackFromClose(currentParagraph, sentences[i..], maxLength);
        if currentParagraph != "" {
          AppendAssoc(paragraphs, [Trim(currentParagraph)], PackFrom(sentence, sentences[i + 1..], maxLength));
          paragraphs := paragraphs + [Trim(currentParagraph)];
        }
        currentParagraph := sentence;
      }
      i := i + 1;
    }
    assert sentences[i..] == [];
    if currentParagraph != "" {
      paragraphs := paragraphs + [Trim(currentParagraph)];
    }
  }

  lemma AppendAssoc<T>(a: seq<T>, b: seq<T>, c: seq<T>)
    ensures a + b + c == a + (b + c)
  {
  }

  /** Moving the first of `rest` to the end of `run` keeps the whole. */
  lemma ShiftOne<T>(run: seq<T>, rest: seq<T>)
    requires rest != []
    ensures run + rest == (run + [rest[0]]) + rest[1..]
  {
    assert rest == [rest[0]] + rest[1..];
    AppendAssoc(run, [rest[0]], rest[1..]);
  }

  /** The runs written one after the other. */
  function Flatten(runs: seq<seq<string>>): seq<string>
  {
    if runs == [] then [] else runs[0] + Flatten(runs[1..])
  }

  /** Every sentence after the first in a run passed the length test when it
      was added: the run so far plus the sentence, without the joining space. */
  ghost predicate Fits(run: seq<string>, maxLength: int)
    decreases |run|
  {
    |run| <= 1 ||
    (Fits(run[..|run| - 1], maxLength) && Length(Join(run[..|run| - 1])) + Length(run[|run| - 1]) <= maxLength)
  }

  /** Each run was closed only because the next run's first sentence failed
      the length test against it. */
  ghost predicate Closed(runs: seq<seq<string>>, maxLength: int)
    requires forall k :: 0 <= k < |runs| ==> runs[k] != []
  {
    forall k :: 0 <= k < |runs| - 1 ==> Length(Join(runs[k])) + Length(runs[k + 1][0]) > maxLength
  }

  /** Only the last sentence may be empty. */
  ghost predicate EmptyOnlyLast(sentences: seq<string>)
  {
    forall i :: 0 <= i < |sentences| - 1 ==> sentences[i] != ""
  }

  /** The runs partition a prefix of the sentences, in order; what they
      leave over is empty sentences only. */
  ghost predicate Covers(runs: seq<seq<string>>, sentences: seq<string>)
  {
    Flatten(runs) <= sentences &&
    forall i :: |Flatten(runs)| <= i < |sentences| ==> sentences[i] == ""
  }

  lemma {:induction false} FlattenAppendFront(run: seq<string>, runs: seq<seq<string>>)
    ensures Flatten([run] + runs) == run + Flatten(runs)
  {
    assert ([run] + runs)[1..] == runs;
  }

  /** Adding a sentence that passed the length test keeps a run fitting. */
  lemma ExtendFits(run: seq<string>, s: string, maxLength: int)
    requires Fits(run, maxLength)
    requires run != [] && Length(Join(run)) + Length(s) <= maxLength
    ensures Fits(run + [s], maxLength)
  {
    assert (run + [s])[..|run|] == run;
  }

  /** Closing `run` in front of the runs of `rest`, whose first sentence
      failed the length test against it. */
  lemma PrependRun(run: seq<string>, rest: seq<string>, tail: seq<seq<string>>, maxLength: int)
    requires run != [] && Fits(run, maxLength) && rest != []
    requires Length(Join(run)) + Length(rest[0]) > maxLength
    requires Grouped(tail, maxLength)
    requires Covers(tail, rest)
    requires rest[0] != "" ==> tail != [] && [rest[0]] <= tail[0]
    requires rest[0] == "" ==> tail == []
    ensures Grouped([run] + tail, maxLength)
    ensures Covers([run] + tail, run + rest)
  {
    var runs := [run] + tail;
    FlattenAppendFront(run, tail);
    forall k | 0 <= k < |runs|
      ensures runs[k] != [] && Fits(runs[k], maxLength)
    {
      if k > 0 { assert runs[k] == tail[k - 1]; }
    }
    forall k | 0 <= k < |runs| - 1
      ensures Length(Join(runs[k])) + Length(runs[k + 1][0]) > maxLength
    {
      if k > 0 { assert runs[k] == tail[k - 1] && runs[k + 1] == tail[k]; }
      else { assert runs[1][0] == rest[0]; }
    }
    forall i | |Flatten(runs)| <= i < |run + rest|
      ensures (run + rest)[i] == ""
    {
      assert (run + rest)[i] == rest[i - |run|];
    }
  }

  /** `runs` is how the loop, started from the run `run` with `rest` still
      to come, groups the sentences: each run fits, each was closed by a
      sentence that did not fit, together they cover `run + rest`, the first
      extends `run`, and the loop pushes their trimmed joins. */
  ghost predicate Packs(run: seq<string>, rest: seq<string>, runs: seq<seq<string>>, maxLength: int)
  {
    Grouped(runs, maxLength) &&
    Covers(runs, run + rest) &&
    (Join(run) != "" ==> runs != [] && run <= runs[0]) &&
    Emits(PackFrom(Join(run), rest, maxLength), runs)
  }

  /** Every run is nonempty and fits, and each was closed by a sentence that
      did not fit. */
  ghost predicate Grouped(runs: seq<seq<string>>, maxLength: int)
  {
    (forall k :: 0 <= k < |runs| ==> runs[k] != [] && Fits(runs[k], maxLength)) &&
    Closed(runs, maxLength)
  }

  /** The paragraphs are the trimmed joins of the runs, one each. */
  ghost predicate Emits(paragraphs: seq<string>, runs: seq<seq<string>>)
  {
    |paragraphs| == |runs| &&
    forall k :: 0 <= k < |runs| ==> paragraphs[k] == Trim(Join(runs[k]))
  }

  /** The final push. */
  lemma PacksDone(run: seq<string>, maxLength: int)
    requires Fits(run, maxLength)
    ensures Packs(run, [], if Join(run) != "" then [run] else [], maxLength)
  {
    JoinEmpty(run);
    FlattenAppendFront(run, []);
    assert run + [] == run;
    if Join(run) != "" {
      assert Flatten([run]) == run;
    } else {
      assert Flatten([]) == [];
    }
  }

  /** A sentence that passes the length test joins the current run. */
  lemma PacksExtend(run: seq<string>, rest: seq<string>, runs: seq<seq<string>>, maxLength: int)
    requires EmptyOnlyLast(run + rest) && Fits(run, maxLength) && rest != []
    requires Length(Join(run) + rest[0]) <= maxLength
    requires Packs(run + [rest[0]], rest[1..], runs, maxLength)
    ensures Packs(run, rest, runs, maxLength)
  {
    var cur, s := Join(run), rest[0];
    var next := run + [s];
    JoinEmpty(run);
    if cur != "" {
      JoinAppend(run, s);
    } else {
      assert (run + rest)[0] != "" || |run + rest| == 1;
      assert run == [];
      assert next == [s];
    }
    assert Join(next) == cur + (if cur != "" then " " else "") + s;
    PackFromExtend(cur, rest, maxLength);
    ShiftOne(run, rest);
    assert run <= next;
  }

  /** One unfolding of `PackFrom` for a sentence that passes the test. */
  lemma PackFromExtend(cur: string, rest: seq<string>, maxLength: int)
    requires rest != [] && Length(cur + rest[0]) <= maxLength
    ensures PackFrom(cur, rest, maxLength) == PackFrom(cur + (if cur != "" then " " else "") + rest[0], rest[1..], maxLength)
  {
  }

  /** One unfolding of `PackFrom` for a sentence that fails the test. */
  lemma PackFromClose(cur: string, rest: seq<string>, maxLength: int)
    requires rest != [] && Length(cur + rest[0]) > maxLength
    ensures PackFrom(cur, rest, maxLength) == (if cur != "" then [Trim(cur)] else []) + PackFrom(rest[0], rest[1..], maxLength)
  {
  }

  /** A sentence that fails the length test closes the current run, if it
      is not empty, and starts the next one. */
  lemma PacksClose(run: seq<string>, rest: seq<string>, tail: seq<seq<string>>, maxLength: int)
    requires EmptyOnlyLast(run + rest) && Fits(run, maxLength) && rest != []
    requires Length(Join(run) + rest[0]) > maxLength
    requires Packs([rest[0]], rest[1..], tail, maxLength)
    ensures Packs(run, rest, if Join(run) != "" then [run] + tail else tail, maxLength)
  {
    JoinEmpty(run);
    if Join(run) != "" {
      PacksCloseRun(run, rest, tail, maxLength);
    } else {
      assert (run + rest)[0] != "" || |run + rest| == 1;
      assert run == [];
      assert run + rest == [rest[0]] + rest[1..];
      assert Join([rest[0]]) == rest[0];
      PackFromClose(Join(run), rest, maxLength);
    }
  }

  lemma PacksCloseRun(run: seq<string>, rest: seq<string>, tail: seq<seq<string>>, maxLength: int)
    requires EmptyOnlyLast(run + rest) && Fits(run, maxLength) && rest != [] && Join(run) != ""
    requires Length(Join(run) + rest[0]) > maxLength
    requires Packs([rest[0]], rest[1..], tail, maxLength)
    ensures Packs(run, rest, [run] + tail, maxLength)
  {
    var cur, s := Join(run), rest[0];
    var runs := [run] + tail;
    JoinEmpty(run);
    assert Join([s]) == s;
    var p, t := PackFrom(cur, rest, maxLength), PackFrom(s, rest[1..], maxLength);
    PackFromClose(cur, rest, maxLength);
    assert p == [Trim(cur)] + t;
    assert rest == [s] + rest[1..];
    assert EmptyOnlyLast(rest) by {
      forall i | 0 <= i < |rest| - 1 ensures rest[i] != "" {
        assert rest[i] == (run + rest)[|run| + i];
      }
    }
    JoinEmpty([s]);
    LengthConcat(cur, s);
    if s == "" {
      assert rest == [""];
      assert t == [];
    }
    PrependRun(run, rest, tail, maxLength);
    EmitsPrepend(t, run, tail);
  }

  lemma EmitsPrepend(t: seq<string>, run: seq<string>, tail: seq<seq<string>>)
    requires Emits(t, tail)
    ensures Emits([Trim(Join(run))] + t, [run] + tail)
  {
    var p, runs := [Trim(Join(run))] + t, [run] + tail;
    forall k | 0 <= k < |runs|
      ensures p[k] == Trim(Join(runs[k]))
    {
      if k > 0 { assert p[k] == t[k - 1] && runs[k] == tail[k - 1]; }
    }
  }

  lemma {:induction false} PackRuns(run: seq<string>, rest: seq<string>, maxLength: int) returns (runs: seq<seq<string>>)
    requires EmptyOnlyLast(run + rest)
    requires Fits(run, maxLength)
    ensures Packs(run, rest, runs, maxLength)
    decreases |rest|
  {
    if rest == [] {
      runs := if Join(run) != "" then [run] else [];
      PacksDone(run, maxLength);
    } else if Length(Join(run) + rest[0]) <= maxLength {
      ShiftOne(run, rest);
      ExtendFitsAny(run, rest, maxLength);
      runs := PackRuns(run + [rest[0]], rest[1..], maxLength);
      PacksExtend(run, rest, runs, maxLength);
    } else {
      assert EmptyOnlyLast([rest[0]] + rest[1..]) by {
        assert rest == [rest[0]] + rest[1..];
        forall i | 0 <= i < |rest| - 1 ensures rest[i] != "" {
          assert rest[i] == (run + rest)[|run| + i];
        }
      }
      var tail := PackRuns([rest[0]], rest[1..], maxLength);
      runs := if Join(run) != "" then [run] + tail else tail;
      PacksClose(run, rest, tail, maxLength);
    }
  }

  /** The run the loop continues with after a sentence passed the test fits,
      whether or not the current run was empty. */
  lemma ExtendFitsAny(run: seq<string>, rest: seq<string>, maxLength: int)
    requires EmptyOnlyLast(run + rest) && Fits(run, maxLength) && rest != []
    requires Length(Join(run) + rest[0]) <= maxLength
    ensures Fits(run + [rest[0]], maxLength)
  {
    JoinEmpty(run);
    LengthConcat(Join(run), rest[0]);
    if Join(run) != "" {
      ExtendFits(run, rest[0], maxLength);
    } else {
      assert (run + rest)[0] != "" || |run + rest| == 1;
      assert run == [];
      assert run + [rest[0]] == [rest[0]];
    }
  }

  /** No sentence is split, dropped, duplicated or reordered: each paragraph
      is the trimmed single-space join of a run of consecutive sentences; the
      runs cover the sentences in order and leave over nothing but an empty
      sentence. A sentence joins a run only when the run's untrimmed text and
      the sentence fit in `maxLength` together, and a run is closed only when
      the next sentence does not fit. */
  lemma ParagraphsAreRuns(text: string, maxLength: int) returns (runs: seq<seq<string>>)
    ensures |Paragraphs(text, maxLength)| == |runs|
    ensures forall k :: 0 <= k < |runs| ==> Paragraphs(text, maxLength)[k] == Trim(Join(runs[k]))
    ensures forall k :: 0 <= k < |runs| ==> runs[k] != [] && Fits(runs[k], maxLength)
    ensures Closed(runs, maxLength)
    ensures Covers(runs, Split(text))
  {
    var _ := SplitReassembles(text);
    var sentences := Split(text);
    assert EmptyOnlyLast(sentences) by {
      forall i | 0 <= i < |sentences| - 1 ensures sentences[i] != "" {
        assert sentences[i] != [] && sentences[i][|sentences[i]| - 1] == '.';
      }
    }
    assert [] + sentences == sentences;
    runs := PackRuns([], sentences, maxLength);
  }

  /** The two length quirks of a single run: with two or more sentences its
      paragraph is at most `maxLength + 1` long, the one extra character being
      a joining space the test never saw; and a sentence longer than
      `maxLength` is alone in its run, so its paragraph is the whole sentence,
      trimmed and not cut. */
  lemma {:induction false} RunLength(run: seq<string>, maxLength: int)
    requires run != [] && Fits(run, maxLength)
    ensures |run| >= 2 ==> Length(Trim(Join(run))) <= maxLength + 1
    ensures forall j :: 0 <= j < |run| && Length(run[j]) > maxLength ==> run == [run[j]]
  {
    if |run| >= 2 {
      var j := |run| - 1;
      assert run[..j] + [run[j]] == run;
      JoinAppend(run[..j], run[j]);
      TrimLength(Join(run));
      FitsSentences(run, maxLength);
    }
  }

  /** In a run of two or more sentences every sentence fits in `maxLength`. */
  lemma {:induction false} FitsSentences(run: seq<string>, maxLength: int)
    requires |run| >= 2 && Fits(run, maxLength)
    ensures forall j :: 0 <= j < |run| ==> Length(run[j]) <= maxLength
    decreases |run|
  {
    var prefix := run[..|run| - 1];
    if |prefix| >= 2 {
      FitsSentences(prefix, maxLength);
    }
    forall j | 0 <= j < |run|
      ensures Length(run[j]) <= maxLength
    {
      if j < |prefix| { assert run[j] == prefix[j]; }
    }
  }

  /** Length bounds on the paragraphs, in terms of the runs they join. */
  lemma ParagraphLengths(text: string, maxLength: int) returns (runs: seq<seq<string>>)
    ensures |Paragraphs(text, maxLength)| == |runs|
    ensures forall k :: 0 <= k < |runs| ==> Paragraphs(text, maxLength)[k] == Trim(Join(runs[k]))
    ensures forall k :: 0 <= k < |runs| && |runs[k]| >= 2 ==> Length(Paragraphs(text, maxLength)[k]) <= maxLength + 1
    ensures forall k, j :: 0 <= k < |runs| && 0 <= j < |runs[k]| && Length(runs[k][j]) > maxLength ==>
              Paragraphs(text, maxLength)[k] == Trim(runs[k][j]) && runs[k] == [runs[k][j]]
  {
    runs := ParagraphsAreRuns(text, maxLength);
    forall k | 0 <= k < |runs|
      ensures |runs[k]| >= 2 ==> Length(Trim(Join(runs[k]))) <= maxLength + 1
      ensures forall j :: 0 <= j < |runs[k]| && Length(runs[k][j]) > maxLength ==> runs[k] == [runs[k][j]]
    {
      RunLength(runs[k], maxLength);
    }
  }

  /** Empty text gives no paragraph at all: its one sentence is `""`, which
      never makes `currentParagraph` truthy. */
  lemma EmptyTextNoParagraphs(maxLength: int)
    ensures Paragraphs("", maxLength) == []
  {
    assert Split("") == [""];
  }

  /** A nonempty text without a boundary is one paragraph, the trimmed text,
      whatever `maxLength` is; a whitespace-only text therefore gives `[""]`. */
  lemma SingleSentenceText(text: string, maxLength: int)
    requires text != "" && NoBoundary(text)
    ensures Paragraphs(text, maxLength) == [Trim(text)]
    ensures AllSpace(text) ==> Paragraphs(text, maxLength) == [""]
  {
    SplitSingle(text);
    assert "" + text == text;
    assert "" + "" + text == text;
    assert PackFrom("", [text], maxLength) == [Trim(text)] by {
      assert PackFrom(text, [], maxLength) == [Trim(text)];
      assert [text][1..] == [];
    }
    TrimCases(text);
  }

  /** The bound `maxLength + 1` is reached: two sentences whose lengths add
      up to exactly `maxLength` pass the test together, and the paragraph
      they make is one longer, by the joining space. */
  lemma JoiningSpaceNotMeasured(a: string, b: string, maxLength: int)
    requires a != "" && b != "" && !IsSpace(a[0]) && !IsSpace(b[|b| - 1])
    requires Length(a) + Length(b) == maxLength
    ensures PackFrom("", [a, b], maxLength) == [a + " " + b]
    ensures Length(a + " " + b) == maxLength + 1
  {
    assert "" + a == a && "" + "" + a == a;
    LengthConcat(a, b);
    PackFromExtend("", [a, b], maxLength);
    assert [a, b][1..] == [b];
    PackFromExtend(a, [b], maxLength);
    var ab := a + " " + b;
    assert ab[0] == a[0] && ab[|ab| - 1] == b[|b| - 1];
    TrimCases(ab);
    LengthConcat(a, " ");
    LengthConcat(a + " ", b);
  }

  /** Three sentences, none with surrounding whitespace, where no two
      neighbours pass the length test together: each is a paragraph of its
      own. */
  lemma {:induction false} EachSentenceAlone(a: string, b: string, c: string, maxLength: int)
    requires a != "" && b != "" && c != ""
    requires Trim(a) == a && Trim(b) == b && Trim(c) == c
    requires Length(a) <= maxLength
    requires Length(a + b) > maxLength && Length(b + c) > maxLength
    ensures PackFrom("", [a, b, c], maxLength) == [a, b, c]
  {
    assert "" + a == a && "" + "" + a == a;
    PackFromExtend("", [a, b, c], maxLength);
    assert [a, b, c][1..] == [b, c] && [b, c][1..] == [c] && [c][1..] == [];
    PackFromClose(a, [b, c], maxLength);
    PackFromClose(b, [c], maxLength);
    assert PackFrom(c, [], maxLength) == [c];
  }

  /** Three short sentences with `maxLength` 3: each passes the test only
      alone, so each is a paragraph of its own. */
  lemma ThreeSentencesAtMaxThree()
    ensures Paragraphs("A. B. C.", 3) == ["A.", "B.", "C."]
  {
    SplitThree();
    ShortSentenceLengths();
    ShortSentencesTrimmed();
    EachSentenceAlone("A.", "B.", "C.", 3);
  }

  lemma ShortSentenceLengths()
    ensures Length("A.") == 2 && Length("A." + "B.") == 4 && Length("B." + "C.") == 4
  {
    LengthBmp("A.");
    LengthBmp("A." + "B.");
    LengthBmp("B." + "C.");
  }

  lemma ShortSentencesTrimmed()
    ensures Trim("A.") == "A." && Trim("B.") == "B." && Trim("C.") == "C."
  {
    TrimCases("A.");
    TrimCases("B.");
    TrimCases("C.");
  }
}
