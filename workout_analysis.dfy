/**
 * `parseAnalysisResult`, which turns the Markdown the video-analysis model
 * writes into a repetition count and two bullet lists. The live-workout view
 * and the uploaded-video view carry character-for-character the same copy;
 * both are modelled by this one module.
 *
 * The three regular expressions are stated here in terms of `indexOf` and
 * `trim`. For `/H\s*([\s\S]*?)\s*(?=###|$)/` (no flags, so `$` is the end of
 * the input) the leftmost match starts at the first occurrence of the heading
 * H, because the rest of the pattern can always match; the capture starts
 * after the white space that follows H and stops before the white space that
 * precedes the next `###` or the end. `LazyCapture` proves that this is
 * exactly the trimmed text between H and the next `###`. For
 * `/H\s*([\s\S]*?)(?=$)/` the capture runs to the end of the input.
 */
module WorkoutAnalysis {
  import opened Wrappers
  import opened Text

  /** `ParsedAnalysis` */
  datatype ParsedAnalysis = ParsedAnalysis(repCount: string, assessment: seq<string>, tips: seq<string>)

  const RepCountHeading: string := "### Repetition Count"
  const AssessmentHeading: string := "### Form Assessment"
  const TipsHeading: string := "### Tips for Improvement"
  const SectionMarker: string := "###"
  const NotAvailable: string := "N/A"

  /** The index just past the first occurrence of `heading`, if it occurs. */
  function HeadingEnd(md: string, heading: string): (r: Option<nat>)
    ensures r.Some? ==> |heading| <= r.value <= |md| && OccursAt(md, heading, r.value - |heading|)
    ensures r.None? <==> forall k :: !OccursAt(md, heading, k)
  {
    match IndexOf(md, heading, 0)
    case None => None
    case Some(k) => Some(k + |heading|)
  }

  /** Where a section that starts at `from` stops: the next `###`, or the end of the input. */
  function SectionEnd(md: string, from: nat): (e: nat)
    requires from <= |md|
    ensures from <= e <= |md|
    ensures e == |md| || OccursAt(md, SectionMarker, e)
    ensures forall k :: from <= k < e ==> !OccursAt(md, SectionMarker, k)
  {
    match IndexOf(md, SectionMarker, from)
    case None => |md|
    case Some(k) => k
  }

  /** Capture group 1 of `md.match(/heading\s*([\s\S]*?)\s*(?=###|$)/)`, or `None` when it does not match. */
  function SectionBeforeNext(md: string, heading: string): Option<string>
  {
    match HeadingEnd(md, heading)
    case None => None
    case Some(h) => Some(Trim(md[h..SectionEnd(md, h)]))
  }

  /** Capture group 1 of `md.match(/heading\s*([\s\S]*?)(?=$)/)`, or `None` when it does not match. */
  function SectionToEnd(md: string, heading: string): Option<string>
  {
    match HeadingEnd(md, heading)
    case None => None
    case Some(h) => Some(TrimStart(md[h..]))
  }

  /** `item.replace(/^- /, '')`: one leading "- " is removed, nothing else. */
  function StripBullet(line: string): string
  {
    if StartsWith(line, "- ") then line[2..] else line
  }

  /** `item.replace(/^- /, '').trim()` */
  function CleanLine(line: string): (r: string)
    ensures IsTrimmed(r)
  {
    Trim(StripBullet(line))
  }

  /** The items of one line: its cleaned text, unless that is empty. */
  function LineItems(line: string): (items: seq<string>)
    ensures |items| <= 1
    ensures forall k :: 0 <= k < |items| ==> items[k] != "" && IsTrimmed(items[k])
  {
    if CleanLine(line) == "" then [] else [CleanLine(line)]
  }

  /** `lines.map(CleanLine).filter(Boolean)`: the non-empty cleaned lines. */
  function ListItems(lines: seq<string>): seq<string>
  {
    FlatMap(LineItems, lines)
  }

  /** The results of `f` on each element, concatenated in order. */
  function FlatMap<T, U>(f: T -> seq<U>, xs: seq<T>): seq<U>
  {
    if xs == [] then [] else FlatMap(f, xs[..|xs| - 1]) + f(xs[|xs| - 1])
  }

  /** `parseList`: no list for a missing or empty section, else one item per non-blank line. */
  function ParseList(section: Option<string>): seq<string>
  {
    if section.None? || section.value == "" then []
    else ListItems(Split(Trim(section.value), '\n'))
  }

  /** `parseAnalysisResult` */
  function ParseAnalysisResult(md: string): ParsedAnalysis
  {
    var repCount := match SectionBeforeNext(md, RepCountHeading)
      case None => NotAvailable
      case Some(section) => Trim(section);
    ParsedAnalysis(repCount,
                   ParseList(SectionBeforeNext(md, AssessmentHeading)),
                   ParseList(SectionToEnd(md, TipsHeading)))
  }

  // ----- The regular expression, read literally -----

  /** `(?=###|$)` holds at position `p`. */
  predicate LookaheadAt(md: string, p: nat)
  {
    p == |md| || OccursAt(md, SectionMarker, p)
  }

  /** `\s*(?=###|$)` can match from position `p`: a run of white space from `p` reaches a lookahead position. */
  ghost predicate TailMatchesAt(md: string, p: nat)
    requires p <= |md|
  {
    exists p' :: p <= p' <= |md| && AllSpace(md[p..p']) && LookaheadAt(md, p')
  }

  /**
   * The capture of `heading\s*([\s\S]*?)\s*(?=###|$)`, once the heading has
   * matched and ends at `h`: the greedy `\s*` takes all white space from `h`
   * up to `q`; the lazy group then ends at the FIRST `p` from which the tail
   * can match. The text between `q` and `p` is what `SectionBeforeNext` gives.
   */
  lemma LazyCapture(md: string, h: nat) returns (q: nat, p: nat)
    requires h <= |md|
    ensures h <= q <= p <= |md|
    ensures AllSpace(md[h..q])
    ensures q == |md| || !IsSpace(md[q])
    ensures TailMatchesAt(md, p)
    ensures forall p0 :: q <= p0 < p ==> !TailMatchesAt(md, p0)
    ensures md[q..p] == Trim(md[h..SectionEnd(md, h)])
  {
    var e := SectionEnd(md, h);
    var x, y := TrimFrom(md[h..e]), TrimTo(md[h..e]);
    CaptureAt(md, h, e, x, y);
    q, p := h + x, h + y;
    assert md[q..p] == Trim(md[h..e]) by {
      SliceOfSlice(md, h, e, x, y);
    }
  }

  /** `LazyCapture` for a section `md[h..e]` whose trimmed part is `md[h..e][x..y]`. */
  lemma CaptureAt(md: string, h: nat, e: nat, x: nat, y: nat)
    requires h <= e <= |md|
    requires LookaheadAt(md, e)
    requires forall k :: h <= k < e ==> !OccursAt(md, SectionMarker, k)
    requires x == TrimFrom(md[h..e]) && y == TrimTo(md[h..e])
    ensures AllSpace(md[h..h + x])
    ensures h + x == |md| || !IsSpace(md[h + x])
    ensures TailMatchesAt(md, h + y)
    ensures forall p0 :: h + x <= p0 < h + y ==> !TailMatchesAt(md, p0)
  {
    var q, p := h + x, h + y;
    TrimBounds(md[h..e]);
    forall m | h <= m < q ensures IsSpace(md[m]) {
      assert md[m] == md[h..e][m - h];
    }
    if q == e && q < |md| {
      assert md[e] == md[e..e + |SectionMarker|][0];
    } else if q < e {
      assert md[q] == md[h..e][x];
    }
    forall m | p <= m < e ensures IsSpace(md[m]) {
      assert md[m] == md[h..e][m - h];
    }
    assert TailMatchesAt(md, p) by {
      assert AllSpace(md[p..e]) && LookaheadAt(md, e);
    }
    if x < y {
      assert md[p - 1] == md[h..e][y - 1];
      forall p0 | q <= p0 < p ensures !TailMatchesAt(md, p0) {
        NoEarlierTail(md, h, e, p0, p);
      }
    }
  }

  lemma SliceOfSlice(s: string, a: nat, b: nat, i: nat, j: nat)
    requires a <= b <= |s| && i <= j <= b - a
    ensures s[a..b][i..j] == s[a + i..a + j]
  {
    assert forall x :: 0 <= x < j - i ==> s[a..b][i..j][x] == s[a + i..a + j][x];
  }

  /** No white-space run from inside the capture reaches a lookahead position before `e`, and none passes `p - 1`. */
  lemma NoEarlierTail(md: string, h: nat, e: nat, p0: nat, p: nat)
    requires h <= p0 < p <= e <= |md|
    requires forall k :: h <= k < e ==> !OccursAt(md, SectionMarker, k)
    requires !IsSpace(md[p - 1])
    ensures !TailMatchesAt(md, p0)
  {
    forall p' | p0 <= p' <= |md| ensures !(AllSpace(md[p0..p']) && LookaheadAt(md, p')) {
      if p' < e {
        assert !LookaheadAt(md, p');
      } else {
        assert md[p0..p'][p - 1 - p0] == md[p - 1];
        assert !AllSpace(md[p0..p']);
      }
    }
  }

  // ----- Properties of the repetition count -----

  /** Without the heading the count is "N/A". */
  lemma RepCountWithoutHeading(md: string)
    requires forall k :: !OccursAt(md, RepCountHeading, k)
    ensures ParseAnalysisResult(md).repCount == NotAvailable
  {
  }

  /** The first occurrence of a heading fixes where its section starts. */
  lemma HeadingEndFirst(md: string, heading: string, k: nat)
    requires OccursAt(md, heading, k)
    requires forall j :: 0 <= j < k ==> !OccursAt(md, heading, j)
    ensures HeadingEnd(md, heading) == Some(k + |heading|)
  {
    var r := IndexOf(md, heading, 0);
    assert r.Some? && r.value == k;
  }

  /**
   * With the heading, the count is the trimmed text from the end of its first
   * occurrence up to the next `###` or the end of the input.
   */
  lemma RepCountWithHeading(md: string, k: nat)
    requires OccursAt(md, RepCountHeading, k)
    requires forall j :: 0 <= j < k ==> !OccursAt(md, RepCountHeading, j)
    ensures var h := k + |RepCountHeading|;
      ParseAnalysisResult(md).repCount == Trim(md[h..SectionEnd(md, h)])
  {
    HeadingEndFirst(md, RepCountHeading, k);
    var h := k + |RepCountHeading|;
    var section := Trim(md[h..SectionEnd(md, h)]);
    assert SectionBeforeNext(md, RepCountHeading) == Some(section);
    TrimTrimmed(section);
  }

  /**
   * "N/A" does not mean the heading was missing: a report whose count reads
   * "N/A" gives the same result as one without the heading.
   */
  lemma NotAvailableIsAmbiguous()
    ensures ParseAnalysisResult(RepCountHeading + " N/A").repCount == NotAvailable
  {
    var md := RepCountHeading + " N/A";
    var h := |RepCountHeading|;
    assert OccursAt(md, RepCountHeading, 0) by {
      assert md[..h] == RepCountHeading;
    }
    NoMarkerAfterCount(md);
    assert SectionEnd(md, h) == |md|;
    assert md[h..|md|] == " N/A";
    TrimNotAvailable();
    RepCountWithHeading(md, 0);
  }

  lemma NoMarkerAfterCount(md: string)
    requires md == RepCountHeading + " N/A"
    ensures forall k :: |RepCountHeading| <= k ==> !OccursAt(md, SectionMarker, k)
  {
    forall k | |RepCountHeading| <= k ensures !OccursAt(md, SectionMarker, k) {
      if k + |SectionMarker| <= |md| {
        assert md[k] == " N/A"[k - |RepCountHeading|];
        assert md[k..k + |SectionMarker|][0] == md[k];
      }
    }
  }

  lemma TrimNotAvailable()
    ensures Trim(" N/A") == NotAvailable
  {
    assert SkipSpace(" N/A", 1) == 1;
    assert TrimFrom(" N/A") == 1;
    assert TrimTo(" N/A") == 4;
  }

  // ----- Properties of the lists -----

  /**
   * The items of a run of lines are the items of its parts, in order: each
   * line is cleaned on its own, blank ones are dropped, and the order of the
   * lines is kept.
   */
  lemma ItemsFollowLines(a: seq<string>, b: seq<string>)
    ensures ListItems(a + b) == ListItems(a) + ListItems(b)
  {
    FlatMapAppend(LineItems, a, b);
  }

  lemma {:induction false} FlatMapAppend<T, U>(f: T -> seq<U>, a: seq<T>, b: seq<T>)
    ensures FlatMap(f, a + b) == FlatMap(f, a) + FlatMap(f, b)
    decreases |b|
  {
    if b == [] {
      assert a + b == a;
    } else {
      FlatMapAppend(f, a, b[..|b| - 1]);
      assert (a + b)[..|a + b| - 1] == a + b[..|b| - 1];
    }
  }

  /** Every item is non-empty and has no white space at either end. */
  lemma {:induction false} ItemsAreClean(lines: seq<string>)
    ensures forall k :: 0 <= k < |ListItems(lines)| ==>
      ListItems(lines)[k] != "" && IsTrimmed(ListItems(lines)[k])
  {
    if lines != [] {
      var init := lines[..|lines| - 1];
      ItemsAreClean(init);
      assert ListItems(lines) == ListItems(init) + LineItems(lines[|lines| - 1]);
    }
  }

  /** Each line gives at most one item. */
  lemma {:induction false} ItemsPerLine(lines: seq<string>)
    ensures |ListItems(lines)| <= |lines|
  {
    if lines != [] {
      var init := lines[..|lines| - 1];
      ItemsPerLine(init);
      assert ListItems(lines) == ListItems(init) + LineItems(lines[|lines| - 1]);
    }
  }

  /** One line yields at most one item: its cleaned text, when not empty. */
  lemma SingleLineItems(line: string)
    ensures ListItems([line]) == LineItems(line)
  {
    assert [line][..0] == [];
    assert FlatMap(LineItems, [line]) == FlatMap(LineItems, []) + LineItems(line);
  }

  /** A missing section, an empty one and an all-blank one give no items. */
  lemma BlankSectionHasNoItems(section: Option<string>)
    requires section.Some? ==> AllSpace(section.value)
    ensures ParseList(section) == []
  {
    if section.Some? && section.value != "" {
      assert Trim(section.value) == "";
      assert Split("", '\n') == [""];
      assert CleanLine("") == "" by {
        assert StripBullet("") == "";
      }
      SingleLineItems("");
    }
  }

  /** At most one item per `\n`-separated line of the trimmed section. */
  lemma ItemsAtMostLines(section: string)
    ensures |ParseList(Some(section))| <= Count(Trim(section), '\n') + 1
  {
    SplitLength(Trim(section), '\n');
    ItemsPerLine(Split(Trim(section), '\n'));
  }

  /** A bullet line loses exactly one leading "- ": "- - tip" becomes "- tip". */
  lemma BulletStripped(item: string)
    requires IsTrimmed(item)
    ensures CleanLine("- " + item) == item
  {
    assert ("- " + item)[..2] == "- ";
    assert ("- " + item)[2..] == item;
    TrimTrimmed(item);
  }

  /**
   * The assessment stops at the first `###` after its heading; the tips run to
   * the end of the input (even across later headings).
   */
  lemma SectionBounds(md: string)
    ensures match HeadingEnd(md, AssessmentHeading)
      case None => ParseAnalysisResult(md).assessment == []
      case Some(h) => ParseAnalysisResult(md).assessment == ParseList(Some(Trim(md[h..SectionEnd(md, h)])))
    ensures match HeadingEnd(md, TipsHeading)
      case None => ParseAnalysisResult(md).tips == []
      case Some(h) => ParseAnalysisResult(md).tips == ParseList(Some(TrimStart(md[h..])))
  {
  }
}
