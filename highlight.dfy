/**
 * Evidence highlighting (utils/highlight.py): finding every occurrence of a
 * needle, merging the resulting character spans, and rendering the text as
 * HTML-escaped `<pre>` markup with `<mark>` around the merged spans.
 */
module Highlight {
  import opened Text

  /** A half-open character range `[start, end)` of the text, as the Python tuple `(s, e)`. */
  datatype Span = Span(start: int, end: int)

  predicate CoversAt(sp: Span, p: int) {
    sp.start <= p < sp.end
  }

  /** Position `p` lies in at least one span of `spans`. */
  ghost predicate Covers(spans: seq<Span>, p: int) {
    exists x :: x in spans && CoversAt(x, p)
  }

  predicate SortedByStart(s: seq<Span>) {
    forall i, j :: 0 <= i < j < |s| ==> s[i].start <= s[j].start
  }

  /** Each span starts strictly after the previous one ends. */
  predicate Separated(s: seq<Span>) {
    forall k :: 0 < k < |s| ==> s[k - 1].end < s[k].start
  }

  /** Every span is well-formed (start not after end) and lies within `[0, n]`. */
  predicate WithinText(s: seq<Span>, n: int) {
    forall x :: x in s ==> 0 <= x.start <= x.end <= n
  }

  // ----- find_spans -----

  /**
   * find_spans: every occurrence of `needle` in `text`, overlapping ones
   * included, in ascending order; nothing for an empty needle.
   */
  method FindSpans(text: string, needle: string) returns (spans: seq<Span>)
    ensures needle == [] ==> spans == []
    ensures forall k :: 0 <= k < |spans| ==>
      0 <= spans[k].start && spans[k].end == spans[k].start + |needle| && OccursAt(text, needle, spans[k].start)
    ensures forall k :: 0 < k < |spans| ==> spans[k - 1].start < spans[k].start
    ensures needle != [] ==>
      forall i: nat :: OccursAt(text, needle, i) ==> exists k :: 0 <= k < |spans| && spans[k].start == i
  {
    spans := [];
    if needle == [] {
      return;
    }
    var start: nat := 0;
    while true
      invariant start <= |text|
      invariant forall k :: 0 <= k < |spans| ==>
        0 <= spans[k].start < start && spans[k].end == spans[k].start + |needle| && OccursAt(text, needle, spans[k].start)
      invariant forall k :: 0 < k < |spans| ==> spans[k - 1].start < spans[k].start
      invariant forall i: nat :: i < start && OccursAt(text, needle, i) ==> exists k :: 0 <= k < |spans| && spans[k].start == i
      decreases |text| - start
    {
      var idx := FindFrom(text, needle, start);
      if idx == -1 {
        break;
      }
      var spans' := spans + [Span(idx, idx + |needle|)];
      forall i: nat | i < idx + 1 && OccursAt(text, needle, i)
        ensures exists k :: 0 <= k < |spans'| && spans'[k].start == i
      {
        if i < start {
          var k :| 0 <= k < |spans| && spans[k].start == i;
          assert spans'[k].start == i;
        } else {
          assert i == idx;
          assert spans'[|spans|].start == i;
        }
      }
      spans := spans';
      start := idx + 1;
    }
  }

  // ----- merge_spans -----

  function Max(a: int, b: int): int {
    if a >= b then a else b
  }

  /** Inserts `x` after every span whose start is not greater than its own (stable). */
  function Insert(x: Span, s: seq<Span>): (r: seq<Span>)
    ensures multiset(r) == multiset(s) + multiset{x}
    ensures forall y :: y in r <==> y in s || y == x
  {
    if s == [] then [x]
    else if s[0].start <= x.start then
      assert s == [s[0]] + s[1..];
      [s[0]] + Insert(x, s[1..])
    else [x] + s
  }

  lemma {:induction false} InsertSorted(x: Span, s: seq<Span>)
    requires SortedByStart(s)
    ensures SortedByStart(Insert(x, s))
  {
    if s != [] && s[0].start <= x.start {
      var t := Insert(x, s[1..]);
      assert SortedByStart(s[1..]);
      InsertSorted(x, s[1..]);
      forall y | y in t ensures s[0].start <= y.start {
        if y != x {
          var j :| 0 <= j < |s[1..]| && s[1..][j] == y;
          assert s[j + 1] == y;
        }
      }
      var r := [s[0]] + t;
      forall i, j | 0 <= i < j < |r| ensures r[i].start <= r[j].start {
        assert r[j] == t[j - 1] && t[j - 1] in t;
        if i > 0 { assert r[i] == t[i - 1]; }
      }
    }
  }

  /** Python's `sorted(spans, key=lambda x: x[0])`: a stable sort on the start position. */
  function SortByStart(s: seq<Span>): (r: seq<Span>)
    ensures multiset(r) == multiset(s)
    ensures SortedByStart(r)
  {
    if s == [] then []
    else
      assert s == s[..|s| - 1] + [s[|s| - 1]];
      InsertSorted(s[|s| - 1], SortByStart(s[..|s| - 1]));
      Insert(s[|s| - 1], SortByStart(s[..|s| - 1]))
  }

  /** One iteration of the merge loop: extend the last merged span, or append. */
  function MergeStep(merged: seq<Span>, x: Span): seq<Span>
    requires merged != []
  {
    var last := merged[|merged| - 1];
    if x.start <= last.end then merged[..|merged| - 1] + [Span(last.start, Max(last.end, x.end))]
    else merged + [x]
  }

  /** The merged list after the first `n` sorted spans have been processed. */
  function MergePrefix(sorted: seq<Span>, n: nat): (r: seq<Span>)
    requires 1 <= n <= |sorted|
    ensures 1 <= |r| <= n
  {
    if n == 1 then [sorted[0]] else MergeStep(MergePrefix(sorted, n - 1), sorted[n - 1])
  }

  /** merge_spans, as a function of its argument. */
  function Merged(spans: seq<Span>): (r: seq<Span>)
    ensures r == [] <==> spans == []
  {
    var sorted := SortByStart(spans);
    if sorted == [] then [] else MergePrefix(sorted, |sorted|)
  }

  lemma CoversCons(s: seq<Span>, x: Span, p: int)
    ensures Covers(s + [x], p) <==> Covers(s, p) || CoversAt(x, p)
  {
    if CoversAt(x, p) {
      assert x in s + [x];
    }
    if Covers(s, p) {
      var y :| y in s && CoversAt(y, p);
      assert y in s + [x];
    }
  }

  /** One merge step keeps the list sorted and separated, given a next span that starts no earlier than the last. */
  lemma StepOrder(m0: seq<Span>, x: Span)
    requires m0 != [] && SortedByStart(m0) && Separated(m0)
    requires m0[|m0| - 1].start <= x.start
    ensures var m := MergeStep(m0, x);
      SortedByStart(m) && Separated(m) && m[|m| - 1].start <= x.start
  {
    var last := m0[|m0| - 1];
    if x.start > last.end {
      var m := m0 + [x];
      forall i, j | 0 <= i < j < |m| ensures m[i].start <= m[j].start {
        if j == |m0| { assert m[i] == m0[i]; assert m0[i].start <= last.start; }
      }
    }
  }

  /** One merge step covers what the list and the next span covered, provided the next span starts within the last's range. */
  lemma StepCovers(m0: seq<Span>, x: Span, p: int)
    requires m0 != [] && m0[|m0| - 1].start <= x.start
    ensures Covers(MergeStep(m0, x), p) <==> Covers(m0, p) || CoversAt(x, p)
  {
    var last := m0[|m0| - 1];
    var init := m0[..|m0| - 1];
    assert m0 == init + [last];
    CoversCons(init, last, p);
    if x.start <= last.end {
      CoversCons(init, Span(last.start, Max(last.end, x.end)), p);
    } else {
      CoversCons(m0, x, p);
    }
  }

  lemma StepWithin(m0: seq<Span>, x: Span, bound: int)
    requires m0 != [] && WithinText(m0, bound) && WithinText([x], bound)
    ensures WithinText(MergeStep(m0, x), bound)
  {
    var last := m0[|m0| - 1];
    assert last in m0 && x in [x];
  }

  /** The merge loop keeps its list sorted and separated, by induction on the number of processed spans. */
  lemma {:induction false} MergePrefixOrder(sorted: seq<Span>, n: nat)
    requires SortedByStart(sorted) && 1 <= n <= |sorted|
    ensures var m := MergePrefix(sorted, n);
      SortedByStart(m) && Separated(m) && m[|m| - 1].start <= sorted[n - 1].start
  {
    if n > 1 {
      MergePrefixOrder(sorted, n - 1);
      assert sorted[n - 2].start <= sorted[n - 1].start;
      StepOrder(MergePrefix(sorted, n - 1), sorted[n - 1]);
    }
  }

  /** The merge loop's list covers exactly what the processed spans cover. */
  lemma {:induction false} MergePrefixCovers(sorted: seq<Span>, n: nat)
    requires SortedByStart(sorted) && 1 <= n <= |sorted|
    ensures forall p :: Covers(MergePrefix(sorted, n), p) <==> Covers(sorted[..n], p)
  {
    if n == 1 {
      assert sorted[..1] == [sorted[0]];
    } else {
      var m0 := MergePrefix(sorted, n - 1);
      MergePrefixCovers(sorted, n - 1);
      MergePrefixOrder(sorted, n - 1);
      var x := sorted[n - 1];
      assert sorted[..n] == sorted[..n - 1] + [x];
      assert sorted[n - 2].start <= x.start;
      forall p ensures Covers(MergeStep(m0, x), p) <==> Covers(sorted[..n], p) {
        StepCovers(m0, x, p);
        CoversCons(sorted[..n - 1], x, p);
      }
    }
  }

  /** Spans within the text merge into spans within the text. */
  lemma {:induction false} MergePrefixWithin(sorted: seq<Span>, n: nat, bound: int)
    requires 1 <= n <= |sorted| && WithinText(sorted[..n], bound)
    ensures WithinText(MergePrefix(sorted, n), bound)
  {
    if n == 1 {
      assert sorted[0] in sorted[..1];
    } else {
      var x := sorted[n - 1];
      assert sorted[..n] == sorted[..n - 1] + [x];
      assert WithinText(sorted[..n - 1], bound);
      MergePrefixWithin(sorted, n - 1, bound);
      assert x in sorted[..n];
      StepWithin(MergePrefix(sorted, n - 1), x, bound);
    }
  }

  /** What merge_spans promises: sorted, separated, and covering exactly the positions its input covers. */
  lemma MergedProps(spans: seq<Span>, bound: int)
    ensures SortedByStart(Merged(spans)) && Separated(Merged(spans))
    ensures forall p :: Covers(Merged(spans), p) <==> Covers(spans, p)
    ensures WithinText(spans, bound) ==> WithinText(Merged(spans), bound)
  {
    var sorted := SortByStart(spans);
    if sorted != [] {
      assert sorted[..|sorted|] == sorted;
      forall x ensures x in sorted <==> x in spans {
        assert x in sorted <==> x in multiset(sorted);
      }
      MergePrefixOrder(sorted, |sorted|);
      MergePrefixCovers(sorted, |sorted|);
      if WithinText(spans, bound) {
        MergePrefixWithin(sorted, |sorted|, bound);
      }
    } else {
      assert spans == [];
    }
  }

  lemma {:induction false} SortSortedIsIdentity(s: seq<Span>)
    requires SortedByStart(s)
    ensures SortByStart(s) == s
  {
    if s != [] {
      var init := s[..|s| - 1];
      assert SortedByStart(init);
      SortSortedIsIdentity(init);
      InsertAfterAll(s[|s| - 1], init);
      assert init + [s[|s| - 1]] == s;
    }
  }

  lemma {:induction false} InsertAfterAll(x: Span, s: seq<Span>)
    requires forall y :: y in s ==> y.start <= x.start
    ensures Insert(x, s) == s + [x]
  {
    if s != [] {
      assert s[0] in s;
      InsertAfterAll(x, s[1..]);
      assert s == [s[0]] + s[1..];
    }
  }

  lemma {:induction false} MergeSeparatedIsIdentity(s: seq<Span>, n: nat)
    requires Separated(s) && 1 <= n <= |s|
    ensures MergePrefix(s, n) == s[..n]
  {
    if n == 1 {
      assert s[..1] == [s[0]];
    } else {
      MergeSeparatedIsIdentity(s, n - 1);
      assert s[..n] == s[..n - 1] + [s[n - 1]];
    }
  }

  /** Applying merge_spans twice equals applying it once. */
  lemma MergedIdempotent(spans: seq<Span>)
    ensures Merged(Merged(spans)) == Merged(spans)
  {
    var m := Merged(spans);
    MergedProps(spans, 0);
    SortSortedIsIdentity(m);
    if m != [] {
      MergeSeparatedIsIdentity(m, |m|);
      assert m[..|m|] == m;
    }
  }

  /**
   * merge_spans: sort by start, then fold the spans left to right, extending
   * the last merged span when the next one starts at or before its end.
   */
  method MergeSpans(spans: seq<Span>) returns (merged: seq<Span>)
    ensures merged == Merged(spans)
    ensures SortedByStart(merged) && Separated(merged)
    ensures forall p :: Covers(merged, p) <==> Covers(spans, p)
  {
    if spans == [] {
      return [];
    }
    var sorted := SortByStart(spans);
    merged := [sorted[0]];
    for i := 1 to |sorted|
      invariant merged == MergePrefix(sorted, i)
    {
      var last := merged[|merged| - 1];
      if sorted[i].start <= last.end {
        merged := merged[..|merged| - 1] + [Span(last.start, Max(last.end, sorted[i].end))];
      } else {
        merged := merged + [sorted[i]];
      }
    }
    MergedProps(spans, 0);
  }

  // ----- render_highlight -----

  /** Python's slice `text[a:b]`: negative bounds count from the end, and both are clamped to the text. */
  function PySlice(text: string, a: int, b: int): (r: string)
    ensures 0 <= a <= b <= |text| ==> r == text[a..b]
  {
    var lo := if a < 0 then Max(a + |text|, 0) else if a > |text| then |text| else a;
    var hi := if b < 0 then Max(b + |text|, 0) else if b > |text| then |text| else b;
    if lo < hi then text[lo..hi] else ""
  }

  function EscapeChar(c: char): string {
    if c == '&' then "&amp;"
    else if c == '<' then "&lt;"
    else if c == '>' then "&gt;"
    else if c == '"' then "&quot;"
    else if c == '\'' then "&#x27;"
    else [c]
  }

  /** Python's `html.escape(s)` (quote=True). */
  function Escape(s: string): (r: string)
    ensures '<' !in r
  {
    if s == [] then [] else EscapeChar(s[0]) + Escape(s[1..])
  }

  /** The inverse of `Escape` on its five entities. */
  function Unescape(s: string): string {
    if s == [] then []
    else if StartsWith(s, "&amp;") then "&" + Unescape(s[5..])
    else if StartsWith(s, "&lt;") then "<" + Unescape(s[4..])
    else if StartsWith(s, "&gt;") then ">" + Unescape(s[4..])
    else if StartsWith(s, "&quot;") then "\"" + Unescape(s[6..])
    else if StartsWith(s, "&#x27;") then "'" + Unescape(s[6..])
    else [s[0]] + Unescape(s[1..])
  }

  const PreOpen: string := "<pre style='white-space: pre-wrap; word-wrap: break-word;'>"
  const PreClose: string := "</pre>"
  const MarkOpen: string := "<mark>"
  const MarkClose: string := "</mark>"

  function Marked(inner: string): string {
    MarkOpen + inner + MarkClose
  }

  /** The body render_highlight builds for the merged spans `ms`, the previous span having ended at `last`. */
  function BodyFrom(text: string, ms: seq<Span>, last: int): string
  {
    if ms == [] then Escape(PySlice(text, last, |text|))
    else
      Escape(PySlice(text, last, ms[0].start))
      + (Marked(Escape(PySlice(text, ms[0].start, ms[0].end))) + BodyFrom(text, ms[1..], ms[0].end))
  }

  /** Python's `"".join(parts)`. */
  function Join(parts: seq<string>): string {
    if parts == [] then "" else Join(parts[..|parts| - 1]) + parts[|parts| - 1]
  }

  lemma JoinSnoc(parts: seq<string>, x: string)
    ensures Join(parts + [x]) == Join(parts) + x
  {
    assert (parts + [x])[..|parts|] == parts;
  }

  lemma BodyFromCons(text: string, ms: seq<Span>, last: int)
    requires ms != []
    ensures BodyFrom(text, ms, last)
      == Escape(PySlice(text, last, ms[0].start)) + (Marked(Escape(PySlice(text, ms[0].start, ms[0].end))) + BodyFrom(text, ms[1..], ms[0].end))
  {
  }

  lemma Assoc4(w: string, x: string, y: string, z: string)
    ensures w + x + y + z == w + (x + (y + z))
  {
  }

  /** One iteration of the render loop appends the gap and the marked span. */
  lemma RenderStep(text: string, ms: seq<Span>, i: nat, last: int, out: seq<string>)
    requires i < |ms|
    ensures var a := Escape(PySlice(text, last, ms[i].start));
      var b := Marked(Escape(PySlice(text, ms[i].start, ms[i].end)));
      Join(out + [a, b]) + BodyFrom(text, ms[i + 1..], ms[i].end) == Join(out) + BodyFrom(text, ms[i..], last)
  {
    var a := Escape(PySlice(text, last, ms[i].start));
    var b := Marked(Escape(PySlice(text, ms[i].start, ms[i].end)));
    var rest := BodyFrom(text, ms[i + 1..], ms[i].end);
    assert ms[i..][0] == ms[i] && ms[i..][1..] == ms[i + 1..];
    BodyFromCons(text, ms[i..], last);
    assert out + [a, b] == (out + [a]) + [b];
    JoinSnoc(out, a);
    JoinSnoc(out + [a], b);
    Assoc4(Join(out), a, b, rest);
  }

  /** render_highlight: the `<pre>` wrapper around the escaped text with `<mark>` around each merged span. */
  method RenderHighlight(text: string, spans: seq<Span>) returns (html: string)
    ensures html == PreOpen + BodyFrom(text, Merged(spans), 0) + PreClose
    ensures spans == [] ==> html == PreOpen + Escape(text) + PreClose
  {
    var ms := MergeSpans(spans);
    var out: seq<string> := [];
    var last := 0;
    assert ms[0..] == ms && Join(out) + BodyFrom(text, ms, 0) == BodyFrom(text, ms, 0);
    for i := 0 to |ms|
      invariant Join(out) + BodyFrom(text, ms[i..], last) == BodyFrom(text, ms, 0)
    {
      var s, e := ms[i].start, ms[i].end;
      RenderStep(text, ms, i, last, out);
      out := out + [Escape(PySlice(text, last, s)), Marked(Escape(PySlice(text, s, e)))];
      last := e;
    }
    var tail := Escape(PySlice(text, last, |text|));
    JoinSnoc(out, tail);
    assert ms[|ms|..] == [];
    assert BodyFrom(text, [], last) == tail;
    out := out + [tail];
    html := PreOpen + Join(out) + PreClose;
    if spans == [] {
      assert ms == [] && text[0..|text|] == text;
      assert BodyFrom(text, ms, 0) == Escape(PySlice(text, 0, |text|)) == Escape(text);
    }
  }

  // ----- properties of the rendered body -----

  /** Removes every `<mark>` and `</mark>` tag. */
  function StripMarks(s: string): string {
    if s == [] then []
    else if StartsWith(s, MarkOpen) then StripMarks(s[|MarkOpen|..])
    else if StartsWith(s, MarkClose) then StripMarks(s[|MarkClose|..])
    else [s[0]] + StripMarks(s[1..])
  }

  /** The number of `<mark>` tags. */
  function CountMarks(s: string): nat {
    if s == [] then 0
    else if StartsWith(s, MarkOpen) then 1 + CountMarks(s[|MarkOpen|..])
    else CountMarks(s[1..])
  }

  lemma PrefixOfConcat(p: string, r: string)
    ensures StartsWith(p + r, p) && (p + r)[|p|..] == r
  {
    assert (p + r)[..|p|] == p;
  }

  /** A string that differs from `p` at position `i` does not start with `p`. */
  lemma NotPrefixAt(s: string, p: string, i: nat)
    requires i < |p| && i < |s| && s[i] != p[i]
    ensures !StartsWith(s, p)
  {
    if |p| <= |s| {
      assert s[..|p|][i] == s[i];
    }
  }

  lemma {:induction false} NoTagInText(a: string, b: string)
    requires '<' !in a
    ensures StripMarks(a + b) == a + StripMarks(b)
    ensures CountMarks(a + b) == CountMarks(b)
  {
    if a == [] {
      assert a + b == b;
    } else {
      var s := a + b;
      assert s[0] == a[0] && a[0] in a;
      NotPrefixAt(s, MarkOpen, 0);
      NotPrefixAt(s, MarkClose, 0);
      assert s[1..] == a[1..] + b;
      assert '<' !in a[1..] by {
        forall k | 0 <= k < |a[1..]| ensures a[1..][k] != '<' { assert a[1..][k] == a[k + 1]; }
      }
      NoTagInText(a[1..], b);
      assert a == [a[0]] + a[1..];
    }
  }

  lemma DropConcat(p: string, r: string, n: nat)
    requires n <= |p|
    ensures (p + r)[n..] == p[n..] + r
  {
  }

  lemma Assoc3(x: string, y: string, z: string, w: string)
    ensures x + y + z + w == x + (y + (z + w))
  {
  }

  lemma TagsAround(inner: string, b: string)
    requires '<' !in inner
    ensures StripMarks(Marked(inner) + b) == inner + StripMarks(b)
    ensures CountMarks(Marked(inner) + b) == 1 + CountMarks(b)
  {
    var t := MarkClose + b;
    Assoc3(MarkOpen, inner, MarkClose, b);
    PrefixOfConcat(MarkOpen, inner + t);
    NoTagInText(inner, t);
    PrefixOfConcat(MarkClose, b);
    NotPrefixAt(t, MarkOpen, 1);
    DropConcat(MarkClose, b, 1);
    assert '<' !in MarkClose[1..];
    NoTagInText(MarkClose[1..], b);
  }

  lemma {:induction false} EscapeConcat(a: string, b: string)
    ensures Escape(a + b) == Escape(a) + Escape(b)
  {
    if a == [] {
      assert a + b == b;
    } else {
      assert (a + b)[0] == a[0];
      assert (a + b)[1..] == a[1..] + b;
      EscapeConcat(a[1..], b);
    }
  }

  lemma {:induction false} UnescapeEscape(t: string)
    ensures Unescape(Escape(t)) == t
  {
    if t != [] {
      var c, rest := t[0], Escape(t[1..]);
      var s := EscapeChar(c) + rest;
      assert Escape(t) == s;
      UnescapeEscape(t[1..]);
      if c == '&' {
        PrefixOfConcat("&amp;", rest);
      } else if c == '<' {
        PrefixOfConcat("&lt;", rest);
        NotPrefixAt(s, "&amp;", 1);
      } else if c == '>' {
        PrefixOfConcat("&gt;", rest);
        NotPrefixAt(s, "&amp;", 1);
        NotPrefixAt(s, "&lt;", 1);
      } else if c == '"' {
        PrefixOfConcat("&quot;", rest);
        NotPrefixAt(s, "&amp;", 1);
        NotPrefixAt(s, "&lt;", 1);
        NotPrefixAt(s, "&gt;", 1);
      } else if c == '\'' {
        PrefixOfConcat("&#x27;", rest);
        NotPrefixAt(s, "&amp;", 1);
        NotPrefixAt(s, "&lt;", 1);
        NotPrefixAt(s, "&gt;", 1);
        NotPrefixAt(s, "&quot;", 1);
      } else {
        assert s[0] == c && s[1..] == rest;
        NotPrefixAt(s, "&amp;", 0);
        NotPrefixAt(s, "&lt;", 0);
        NotPrefixAt(s, "&gt;", 0);
        NotPrefixAt(s, "&quot;", 0);
        NotPrefixAt(s, "&#x27;", 0);
      }
      assert t == [c] + t[1..];
    }
  }

  /** The body holds one `<mark>` tag per merged span. */
  lemma {:induction false} BodyMarkCount(text: string, ms: seq<Span>, last: int)
    ensures CountMarks(BodyFrom(text, ms, last)) == |ms|
  {
    if ms == [] {
      var x := Escape(PySlice(text, last, |text|));
      NoTagInText(x, "");
      assert x + "" == x;
    } else {
      var a := Escape(PySlice(text, last, ms[0].start));
      var inner := Escape(PySlice(text, ms[0].start, ms[0].end));
      var rest := BodyFrom(text, ms[1..], ms[0].end);
      NoTagInText(a, Marked(inner) + rest);
      TagsAround(inner, rest);
      BodyMarkCount(text, ms[1..], ms[0].end);
    }
  }

  /** With the tags removed, the body of the first span onwards is the escaping of the text from `last` on. */
  /** A gap, a marked piece and a rest whose tags strip to an escaped string strip to the escaped concatenation. */
  lemma PieceWithoutTags(gap: string, piece: string, restText: string, restBody: string)
    requires StripMarks(restBody) == Escape(restText)
    ensures StripMarks(Escape(gap) + (Marked(Escape(piece)) + restBody)) == Escape(gap + (piece + restText))
  {
    NoTagInText(Escape(gap), Marked(Escape(piece)) + restBody);
    TagsAround(Escape(piece), restBody);
    EscapeConcat(piece, restText);
    EscapeConcat(gap, piece + restText);
  }

  lemma SliceSplit(t: string, i: nat, j: nat, k: nat)
    requires i <= j <= k <= |t|
    ensures t[i..j] + (t[j..k] + t[k..]) == t[i..]
  {
  }

  lemma BodyStepWithoutTags(text: string, ms: seq<Span>, last: int)
    requires ms != [] && 0 <= last <= ms[0].start <= ms[0].end <= |text|
    requires StripMarks(BodyFrom(text, ms[1..], ms[0].end)) == Escape(text[ms[0].end..])
    ensures StripMarks(BodyFrom(text, ms, last)) == Escape(text[last..])
  {
    var s, e := ms[0].start, ms[0].end;
    var g, p, r := text[last..s], text[s..e], text[e..];
    var body := BodyFrom(text, ms[1..], e);
    BodyFromCons(text, ms, last);
    assert PySlice(text, last, s) == g && PySlice(text, s, e) == p;
    assert BodyFrom(text, ms, last) == Escape(g) + (Marked(Escape(p)) + body);
    PieceWithoutTags(g, p, r, body);
    var whole := g + (p + r);
    SliceSplit(text, last, s, e);
    assert Escape(whole) == Escape(text[last..]);
    assert StripMarks(BodyFrom(text, ms, last)) == Escape(whole);
  }
  lemma {:induction false} BodyWithoutTags(text: string, ms: seq<Span>, last: int)
    requires 0 <= last <= |text|
    requires Separated(ms) && WithinText(ms, |text|)
    requires ms != [] ==> last <= ms[0].start
    ensures StripMarks(BodyFrom(text, ms, last)) == Escape(text[last..])
  {
    if ms == [] {
      var x := Escape(text[last..]);
      assert PySlice(text, last, |text|) == text[last..|text|] == text[last..];
      assert BodyFrom(text, ms, last) == x;
      NoTagInText(x, "");
      assert x + "" == x;
      assert StripMarks(x) == x;
    } else {
      assert ms[0] in ms;
      var tl := ms[1..];
      assert Separated(tl) by {
        forall k | 0 < k < |tl| ensures tl[k - 1].end < tl[k].start {
          assert tl[k - 1] == ms[k] && tl[k] == ms[k + 1];
        }
      }
      assert WithinText(tl, |text|) by {
        forall x | x in tl ensures x in ms { }
      }
      if tl != [] {
        assert tl[0] == ms[1];
      }
      BodyWithoutTags(text, tl, ms[0].end);
      BodyStepWithoutTags(text, ms, last);
    }
  }

  /**
   * When every span lies within the text, removing the tags and unescaping
   * the body gives back the text, and the body has one `<mark>` per merged span.
   */
  lemma RenderRoundTrip(text: string, spans: seq<Span>)
    requires WithinText(spans, |text|)
    ensures Unescape(StripMarks(BodyFrom(text, Merged(spans), 0))) == text
    ensures CountMarks(BodyFrom(text, Merged(spans), 0)) == |Merged(spans)|
  {
    var ms := Merged(spans);
    MergedProps(spans, |text|);
    if ms != [] {
      assert ms[0] in ms;
    }
    BodyWithoutTags(text, ms, 0);
    assert text[0..] == text;
    UnescapeEscape(text);
    BodyMarkCount(text, ms, 0);
  }
}
