/**
 * The sentence chunker of the voice assistant's `handleUserInput`: every
 * streamed chunk is appended to an accumulator; as soon as the accumulator
 * contains `.`, `!` or `?` anywhere, the whole trimmed accumulator is spoken
 * (text after the terminator included) and the accumulator is emptied. When
 * the stream ends, a remainder that is not blank is spoken once.
 */
module Segmenter {
  import opened Text

  predicate IsTerminator(c: char)
  {
    c == '.' || c == '!' || c == '?'
  }

  /** `/[.!?]/.test(s)` */
  predicate HasTerminator(s: string)
  {
    exists k :: 0 <= k < |s| && IsTerminator(s[k])
  }

  /**
   * The chunker's progress: `raw` holds the accumulators at the moments they
   * were spoken (before trimming), `rest` is the accumulator now.
   */
  datatype Segmentation = Segmentation(raw: seq<string>, rest: string)

  /** One loop iteration: append the chunk; speak and reset when a terminator is present. */
  function Feed(g: Segmentation, chunk: string): (g': Segmentation)
    ensures |g'.raw| == |g.raw| || |g'.raw| == |g.raw| + 1
    ensures g'.raw[..|g.raw|] == g.raw
  {
    var acc := g.rest + chunk;
    if HasTerminator(acc) then Segmentation(g.raw + [acc], "") else Segmentation(g.raw, acc)
  }

  /** The chunker's state after the given chunks, starting from nothing. */
  function Segment(chunks: seq<string>): Segmentation
  {
    if chunks == [] then Segmentation([], "")
    else Feed(Segment(chunks[..|chunks| - 1]), chunks[|chunks| - 1])
  }

  /** What `speak` received inside the loop: each spoken accumulator, trimmed. */
  function Spoken(g: Segmentation): (r: seq<string>)
    ensures |r| == |g.raw|
  {
    seq(|g.raw|, i requires 0 <= i < |g.raw| => Trim(g.raw[i]))
  }

  /** The remainder spoken after the loop: the trimmed accumulator, unless it is blank. */
  function Flush(g: Segmentation): seq<string>
  {
    if Trim(g.rest) != "" then [Trim(g.rest)] else []
  }

  /** Everything a stream that ends normally has spoken, in order. */
  function Utterances(chunks: seq<string>): seq<string>
  {
    Spoken(Segment(chunks)) + Flush(Segment(chunks))
  }

  // ----- Properties -----

  /**
   * Nothing is lost or reordered: the spoken accumulators followed by the
   * remainder are the concatenation of all chunks.
   */
  lemma {:induction false} SegmentConserves(chunks: seq<string>)
    ensures Concat(Segment(chunks).raw) + Segment(chunks).rest == Concat(chunks)
  {
    if chunks != [] {
      var init, last := chunks[..|chunks| - 1], chunks[|chunks| - 1];
      var g := Segment(init);
      SegmentConserves(init);
      var acc := g.rest + last;
      if HasTerminator(acc) {
        ConcatAppend(g.raw, [acc]);
        assert Concat([acc]) == Concat([]) + acc;
        assert [acc][..0] == [];
      }
    }
  }

  /**
   * At most one utterance per chunk; every spoken accumulator contains a
   * terminator, and the remainder never does.
   */
  lemma {:induction false} SegmentShape(chunks: seq<string>)
    ensures |Segment(chunks).raw| <= |chunks|
    ensures forall i :: 0 <= i < |Segment(chunks).raw| ==> HasTerminator(Segment(chunks).raw[i])
    ensures !HasTerminator(Segment(chunks).rest)
  {
    if chunks != [] {
      SegmentShape(chunks[..|chunks| - 1]);
    }
  }

  /** The utterances of two runs of spoken accumulators are the two runs' utterances one after the other. */
  lemma SpokenAppend(a: seq<string>, b: seq<string>, r: string)
    ensures Spoken(Segmentation(a + b, r)) == Spoken(Segmentation(a, r)) + Spoken(Segmentation(b, r))
  {
    var x, y, z := Spoken(Segmentation(a + b, r)), Spoken(Segmentation(a, r)), Spoken(Segmentation(b, r));
    forall i | 0 <= i < |x| ensures x[i] == (y + z)[i] {
      if i >= |a| {
        assert (a + b)[i] == b[i - |a|];
      }
    }
  }

  /** Trimming keeps a terminator, so the trimmed text is not empty and still has it. */
  lemma TrimKeepsTerminator(s: string)
    requires HasTerminator(s)
    ensures Trim(s) != "" && HasTerminator(Trim(s))
  {
    var k :| 0 <= k < |s| && IsTerminator(s[k]);
    TrimBounds(s);
    var x, y := TrimFrom(s), TrimTo(s);
    assert x <= k < y;
    assert Trim(s)[k - x] == s[k];
  }

  /** Every utterance spoken inside the loop is non-empty, trimmed, and ends a sentence somewhere. */
  lemma SpokenAreSentences(chunks: seq<string>)
    ensures forall i :: 0 <= i < |Spoken(Segment(chunks))| ==>
      var u := Spoken(Segment(chunks))[i];
      u != "" && IsTrimmed(u) && HasTerminator(u)
  {
    SegmentShape(chunks);
    var g := Segment(chunks);
    forall i | 0 <= i < |g.raw| ensures Trim(g.raw[i]) != "" && HasTerminator(Trim(g.raw[i])) {
      TrimKeepsTerminator(g.raw[i]);
    }
  }

  /** The remainder is spoken at most once, trimmed and non-empty, and only when it is not blank. */
  lemma FlushShape(g: Segmentation)
    ensures |Flush(g)| <= 1
    ensures |Flush(g)| == 1 <==> !AllSpace(g.rest)
    ensures forall i :: 0 <= i < |Flush(g)| ==> Flush(g)[i] != "" && IsTrimmed(Flush(g)[i])
  {
  }

  lemma HasTerminatorAppend(a: string, b: string)
    ensures HasTerminator(a + b) <==> HasTerminator(a) || HasTerminator(b)
  {
    if HasTerminator(a + b) {
      var k :| 0 <= k < |a + b| && IsTerminator((a + b)[k]);
      if k >= |a| {
        assert b[k - |a|] == (a + b)[k];
      } else {
        assert a[k] == (a + b)[k];
      }
    }
    if HasTerminator(a) {
      var k :| 0 <= k < |a| && IsTerminator(a[k]);
      assert (a + b)[k] == a[k];
    }
    if HasTerminator(b) {
      var k :| 0 <= k < |b| && IsTerminator(b[k]);
      assert (a + b)[|a| + k] == b[k];
    }
  }

  /**
   * A reply without any terminator is spoken once, at the end, as a whole
   * (when it is not blank).
   */
  lemma {:induction false} NoTerminatorSpokenOnce(chunks: seq<string>)
    requires forall i :: 0 <= i < |chunks| ==> !HasTerminator(chunks[i])
    ensures Segment(chunks) == Segmentation([], Concat(chunks))
    ensures Utterances(chunks) == if AllSpace(Concat(chunks)) then [] else [Trim(Concat(chunks))]
  {
    if chunks != [] {
      var init, last := chunks[..|chunks| - 1], chunks[|chunks| - 1];
      NoTerminatorSpokenOnce(init);
      HasTerminatorAppend(Concat(init), last);
    }
  }

  /**
   * The chunker does not cut at sentence boundaries: with the chunks
   * "Hello world. How are" and " you? Fine." it speaks "Hello world. How are"
   * and then "you? Fine.", not "Hello world.", "How are you?" and "Fine.".
   */
  lemma ChunksNotSentences()
    ensures Utterances(["Hello world. How are", " you? Fine."]) == ["Hello world. How are", "you? Fine."]
  {
    var c0, c1 := "Hello world. How are", " you? Fine.";
    ExampleSegments(c0, c1);
    ExampleTrims(c0, c1);
    var g := Segmentation([c0, c1], "");
    assert Spoken(g) == [Trim(c0), Trim(c1)];
    assert Flush(g) == [] by {
      assert Trim("") == "";
    }
  }

  lemma ExampleSegments(c0: string, c1: string)
    requires c0 == "Hello world. How are" && c1 == " you? Fine."
    ensures Segment([c0, c1]) == Segmentation([c0, c1], "")
  {
    assert [c0, c1][..1] == [c0];
    var none: seq<string> := [];
    assert [c0][..0] == none;
    assert "" + c0 == c0 && "" + c1 == c1;
    assert IsTerminator(("" + c0)[11]);
    var g0 := Segmentation([c0], "");
    assert Segment([c0]) == g0;
    assert IsTerminator(("" + c1)[4]);
    assert Segment([c0, c1]) == Feed(g0, c1);
  }

  lemma ExampleTrims(c0: string, c1: string)
    requires c0 == "Hello world. How are" && c1 == " you? Fine."
    ensures Trim(c0) == c0 && Trim(c1) == "you? Fine."
  {
    assert TrimFrom(c0) == 0;
    assert TrimTo(c0) == |c0|;
    assert SkipSpace(c1, 1) == 1;
    assert TrimFrom(c1) == 1;
    assert TrimTo(c1) == |c1|;
  }
}
