/**
 * The JavaScript string operations the components rely on: white space as
 * ECMAScript defines it, `trim`, `split` on one character, `indexOf`, and
 * the left-to-right concatenation that `+=` and `join('')` perform.
 */
module Text {
  import opened Wrappers

  /**
   * ECMAScript's WhiteSpace and LineTerminator code points: tab, line feed,
   * vertical tab, form feed, carriage return, space, no-break space, ogham
   * space mark, the spaces U+2000 to U+200A, line and paragraph separator,
   * narrow no-break space, medium mathematical space, ideographic space and
   * the byte order mark. The regular expression class `\s` and
   * `String.prototype.trim` use this same set.
   */
  predicate IsSpace(c: char)
  {
    ('\t' <= c <= '\r') || c == ' ' || c == '\U{00A0}' || c == '\U{1680}'
    || ('\U{2000}' <= c <= '\U{200A}') || c == '\U{2028}' || c == '\U{2029}'
    || c == '\U{202F}' || c == '\U{205F}' || c == '\U{3000}' || c == '\U{FEFF}'
  }

  predicate AllSpace(s: string)
  {
    forall i :: 0 <= i < |s| ==> IsSpace(s[i])
  }

  /** Neither end of `s` is white space (what `trim` leaves behind). */
  predicate IsTrimmed(s: string)
  {
    s == [] || (!IsSpace(s[0]) && !IsSpace(s[|s| - 1]))
  }

  /** The first index at or after `i` that is not white space, or `|s|`. */
  function SkipSpace(s: string, i: nat): (k: nat)
    requires i <= |s|
    ensures i <= k <= |s|
    ensures forall m :: i <= m < k ==> IsSpace(s[m])
    ensures k < |s| ==> !IsSpace(s[k])
    decreases |s| - i
  {
    if i < |s| && IsSpace(s[i]) then SkipSpace(s, i + 1) else i
  }

  /** The last index at or before `j`, and not before `lo`, that follows a character that is not white space, or `lo`. */
  function SkipSpaceBack(s: string, lo: nat, j: nat): (k: nat)
    requires lo <= j <= |s|
    ensures lo <= k <= j
    ensures forall m :: k <= m < j ==> IsSpace(s[m])
    ensures k > lo ==> !IsSpace(s[k - 1])
    decreases j
  {
    if j > lo && IsSpace(s[j - 1]) then SkipSpaceBack(s, lo, j - 1) else j
  }

  /** `s.trimStart()`: drops the longest all-space prefix. */
  function TrimStart(s: string): (r: string)
    ensures |r| <= |s| && r == s[|s| - |r|..]
    ensures AllSpace(s[..|s| - |r|])
    ensures r == [] || !IsSpace(r[0])
  {
    var x := SkipSpace(s, 0);
    assert forall m :: 0 <= m < x ==> s[..x][m] == s[m];
    s[x..]
  }

  /** Where `s.trim()` starts: the first character that is not white space. */
  function TrimFrom(s: string): (x: nat)
    ensures x <= |s|
  {
    SkipSpace(s, 0)
  }

  /** Where `s.trim()` ends: just past the last character that is not white space. */
  function TrimTo(s: string): (y: nat)
    ensures TrimFrom(s) <= y <= |s|
  {
    SkipSpaceBack(s, TrimFrom(s), |s|)
  }

  /** `s.trim()`: the part of `s` between its leading and trailing white space. */
  function Trim(s: string): (r: string)
    ensures IsTrimmed(r)
    ensures r == [] <==> AllSpace(s)
  {
    var x, y := TrimFrom(s), TrimTo(s);
    TrimEnds(s, x, y);
    s[x..y]
  }

  lemma TrimEnds(s: string, x: nat, y: nat)
    requires x <= y <= |s|
    requires forall m :: 0 <= m < x ==> IsSpace(s[m])
    requires x < |s| ==> !IsSpace(s[x])
    requires forall m :: y <= m < |s| ==> IsSpace(s[m])
    requires y > x ==> !IsSpace(s[y - 1])
    ensures IsTrimmed(s[x..y])
    ensures s[x..y] == [] <==> AllSpace(s)
  {
    if x < y {
      assert s[x..y][0] == s[x];
      assert s[x..y][y - x - 1] == s[y - 1];
    }
  }

  /** `trim` keeps one contiguous slice: white space before it, white space after it, none at its ends. */
  lemma TrimBounds(s: string)
    ensures Trim(s) == s[TrimFrom(s)..TrimTo(s)]
    ensures forall m :: 0 <= m < TrimFrom(s) ==> IsSpace(s[m])
    ensures forall m :: TrimTo(s) <= m < |s| ==> IsSpace(s[m])
    ensures TrimFrom(s) < |s| ==> !IsSpace(s[TrimFrom(s)])
    ensures TrimFrom(s) < TrimTo(s) ==> !IsSpace(s[TrimTo(s) - 1])
  {
  }

  lemma AllSpaceAppend(a: string, b: string)
    ensures AllSpace(a + b) <==> AllSpace(a) && AllSpace(b)
  {
    if AllSpace(a) && AllSpace(b) {
      forall i | 0 <= i < |a + b| ensures IsSpace((a + b)[i]) {
        if i >= |a| { assert (a + b)[i] == b[i - |a|]; }
      }
    }
    if AllSpace(a + b) {
      forall i | 0 <= i < |b| ensures IsSpace(b[i]) {
        assert b[i] == (a + b)[|a| + i];
      }
      forall i | 0 <= i < |a| ensures IsSpace(a[i]) {
        assert a[i] == (a + b)[i];
      }
    }
  }

  /** Trimming a string that is already trimmed changes nothing. */
  lemma TrimTrimmed(s: string)
    requires IsTrimmed(s)
    ensures Trim(s) == s
  {
  }

  /** `s.startsWith(prefix)` */
  predicate StartsWith(s: string, prefix: string)
  {
    |prefix| <= |s| && s[..|prefix|] == prefix
  }

  /** `pattern` occurs in `s` starting at index `k`. */
  predicate OccursAt(s: string, pattern: string, k: nat)
  {
    k + |pattern| <= |s| && s[k..k + |pattern|] == pattern
  }

  /** `s.indexOf(pattern, from)`, with "not found" as `None`. */
  function IndexOf(s: string, pattern: string, from: nat): (r: Option<nat>)
    ensures r.Some? ==> from <= r.value && OccursAt(s, pattern, r.value)
    ensures r.Some? ==> forall k :: from <= k < r.value ==> !OccursAt(s, pattern, k)
    ensures r.None? <==> forall k :: from <= k ==> !OccursAt(s, pattern, k)
    decreases |s| - from
  {
    if from + |pattern| > |s| then None
    else if s[from..from + |pattern|] == pattern then
      assert OccursAt(s, pattern, from);
      Some(from)
    else IndexOf(s, pattern, from + 1)
  }

  /** `parts.join(sep)` for a one-character separator. */
  function Join(parts: seq<string>, sep: char): string
  {
    if parts == [] then ""
    else if |parts| == 1 then parts[0]
    else parts[0] + [sep] + Join(parts[1..], sep)
  }

  /** `s.split(sep)` for a one-character separator: the pieces between separators, at least one. */
  function Split(s: string, sep: char): (r: seq<string>)
    ensures |r| >= 1
    ensures forall i :: 0 <= i < |r| ==> sep !in r[i]
    ensures Join(r, sep) == s
  {
    if s == [] then [""]
    else
      var rest := Split(s[1..], sep);
      if s[0] == sep then [""] + rest
      else
        var r := [[s[0]] + rest[0]] + rest[1..];
        assert r[1..] == rest[1..];
        r
  }

  /** The number of occurrences of `c` in `s`. */
  function Count(s: string, c: char): nat
  {
    if s == [] then 0 else (if s[0] == c then 1 else 0) + Count(s[1..], c)
  }

  /** `split` cuts once per separator, so it yields one piece more than there are separators. */
  lemma {:induction false} SplitLength(s: string, sep: char)
    ensures |Split(s, sep)| == Count(s, sep) + 1
  {
    if s != [] {
      SplitLength(s[1..], sep);
    }
  }

  /** `split` undoes `join` when no part contains the separator. */
  lemma {:induction false} SplitJoin(parts: seq<string>, sep: char)
    requires parts != []
    requires forall i :: 0 <= i < |parts| ==> sep !in parts[i]
    ensures Split(Join(parts, sep), sep) == parts
  {
    if |parts| == 1 {
      NoSepSplit(parts[0], sep);
    } else {
      SplitJoin(parts[1..], sep);
      SplitAppend(parts[0], Join(parts[1..], sep), sep);
    }
  }

  lemma {:induction false} NoSepSplit(s: string, sep: char)
    requires sep !in s
    ensures Split(s, sep) == [s]
  {
    if s != [] {
      NoSepSplit(s[1..], sep);
    }
  }

  lemma {:induction false} SplitAppend(p: string, t: string, sep: char)
    requires sep !in p
    ensures Split(p + [sep] + t, sep) == [p] + Split(t, sep)
  {
    if p == [] {
      assert (p + [sep] + t)[1..] == t;
    } else {
      SplitAppend(p[1..], t, sep);
      var whole := p + [sep] + t;
      assert whole[0] == p[0] && whole[1..] == p[1..] + [sep] + t;
      var rest := Split(whole[1..], sep);
      assert rest == [p[1..]] + Split(t, sep);
      assert Split(whole, sep) == [[p[0]] + rest[0]] + rest[1..];
      assert [p[0]] + p[1..] == p;
    }
  }

  /** Left-to-right concatenation: what repeated `acc += part` and `join('')` build. */
  function Concat(parts: seq<string>): string
  {
    if parts == [] then "" else Concat(parts[..|parts| - 1]) + parts[|parts| - 1]
  }

  lemma {:induction false} ConcatAppend(a: seq<string>, b: seq<string>)
    ensures Concat(a + b) == Concat(a) + Concat(b)
    decreases |b|
  {
    if b == [] {
      assert a + b == a;
    } else {
      ConcatAppend(a, b[..|b| - 1]);
      assert (a + b)[..|a + b| - 1] == a + b[..|b| - 1];
    }
  }

  /** Concatenating more parts only extends the text: an earlier total is a prefix of a later one. */
  lemma {:induction false} ConcatGrows(parts: seq<string>, i: nat, j: nat)
    requires i <= j <= |parts|
    ensures StartsWith(Concat(parts[..j]), Concat(parts[..i]))
    decreases j - i
  {
    if i < j {
      ConcatGrows(parts, i, j - 1);
      assert parts[..j][..j - 1] == parts[..j - 1];
    }
  }
}
