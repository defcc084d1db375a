/**
 * Locating the JSON object in a model's output
 * (utils/json_utils/json_utils.py): a ```json fence around a brace block
 * wins; otherwise the text from the first `{` to the last `}`.
 *
 * The two regular expressions are modelled by the searches they perform:
 * `re.search` tries the start positions from left to right, `\s*` is greedy,
 * `.*?` is lazy and `.*` greedy, and DOTALL lets `.` match a newline.
 */
module JsonBlock {
  import opened Wrappers
  import opened Text

  const Fence: string := "```json"
  const Ticks: string := "```"

  /** The end of the run of whitespace (`\s`) that starts at `i`. */
  function SkipWs(text: string, i: nat): (j: nat)
    requires i <= |text|
    ensures i <= j <= |text|
    ensures forall k :: i <= k < j ==> PyIsSpace(text[k])
    ensures j == |text| || !PyIsSpace(text[j])
    decreases |text| - i
  {
    if i < |text| && PyIsSpace(text[i]) then SkipWs(text, i + 1) else i
  }

  /** `\}\s*```` matches with its `}` at `k`. */
  predicate ClosesAt(text: string, k: nat) {
    k < |text| && text[k] == '}' && StartsWith(text[SkipWs(text, k + 1)..], Ticks)
  }

  /** The lazy `.*?`: the first `k >= from` at which the closing part matches. */
  function FirstClose(text: string, from: nat): (r: Option<nat>)
    requires from <= |text|
    ensures r.Some? ==> from <= r.value < |text| && ClosesAt(text, r.value)
    ensures r.Some? ==> forall k :: from <= k < r.value ==> !ClosesAt(text, k)
    ensures r.None? ==> forall k :: from <= k ==> !ClosesAt(text, k)
    decreases |text| - from
  {
    if from == |text| then None
    else if ClosesAt(text, from) then Some(from)
    else FirstClose(text, from + 1)
  }

  /** The position of the `{` the fenced pattern would capture when started at `p`. */
  function OpenAfterFence(text: string, p: nat): nat
    requires OccursAt(text, Fence, p)
  {
    SkipWs(text, p + |Fence|)
  }

  /** The captured group `(\{.*?\})` when the fenced pattern is tried at `p`, as its `[q, k]` bounds. */
  function FencedAt(text: string, p: nat): (r: Option<(nat, nat)>)
    requires p <= |text|
    ensures r.Some? ==> (
      && OccursAt(text, Fence, p) && r.value.0 == OpenAfterFence(text, p)
      && r.value.0 < r.value.1 < |text| && text[r.value.0] == '{' && ClosesAt(text, r.value.1))
  {
    if !OccursAt(text, Fence, p) then None
    else
      var q := OpenAfterFence(text, p);
      if q < |text| && text[q] == '{' then
        match FirstClose(text, q + 1)
        case Some(k) => Some((q, k))
        case None => None
      else None
  }

  /** The least `s` with `k <= s <= n` that satisfies `p`, if any. */
  function FirstAtOrAfter(p: nat -> bool, k: nat, n: nat): (r: Option<nat>)
    requires k <= n
    ensures r.Some? ==> k <= r.value <= n && p(r.value)
    ensures r.Some? ==> forall s :: k <= s < r.value ==> !p(s)
    ensures r.None? ==> forall s :: k <= s <= n ==> !p(s)
    decreases n - k
  {
    if p(k) then Some(k)
    else if k == n then None
    else FirstAtOrAfter(p, k + 1, n)
  }

  /** The fenced pattern matches when tried at `s`. */
  predicate FencedMatch(text: string, s: nat) {
    s <= |text| && FencedAt(text, s).Some?
  }

  /** The leftmost start position at or after `p` where the fenced pattern matches. */
  function SearchFenced(text: string, p: nat): (r: Option<nat>)
    requires p <= |text|
    ensures r.Some? ==> p <= r.value <= |text| && FencedAt(text, r.value).Some?
    ensures r.Some? ==> forall s :: p <= s < r.value ==> FencedAt(text, s).None?
    ensures r.None? ==> forall s :: p <= s <= |text| ==> FencedAt(text, s).None?
  {
    var m := (s: nat) => FencedMatch(text, s);
    var r := FirstAtOrAfter(m, p, |text|);
    assert forall s :: p <= s <= |text| ==> (m(s) <==> FencedAt(text, s).Some?);
    r
  }

  /** The first index at or after `i` holding `c`. */
  function IndexFrom(text: string, c: char, i: nat): (r: Option<nat>)
    requires i <= |text|
    ensures r.Some? ==> i <= r.value < |text| && text[r.value] == c && forall k :: i <= k < r.value ==> text[k] != c
    ensures r.None? ==> forall k :: i <= k < |text| ==> text[k] != c
    decreases |text| - i
  {
    if i == |text| then None else if text[i] == c then Some(i) else IndexFrom(text, c, i + 1)
  }

  /** The last index below `n` holding `c`. */
  function LastIndexBelow(text: string, c: char, n: nat): (r: Option<nat>)
    requires n <= |text|
    ensures r.Some? ==> r.value < n && text[r.value] == c && forall k :: r.value < k < n ==> text[k] != c
    ensures r.None? ==> forall k :: 0 <= k < n ==> text[k] != c
  {
    if n == 0 then None else if text[n - 1] == c then Some(n - 1) else LastIndexBelow(text, c, n - 1)
  }

  /** `re.search(r"(\{.*\})", text, re.DOTALL)`: the first `{` through the last `}`, when that `}` comes after it. */
  function BraceBlock(text: string): (r: Option<string>)
    ensures r.Some? ==> |r.value| >= 2 && r.value[0] == '{' && r.value[|r.value| - 1] == '}'
  {
    match IndexFrom(text, '{', 0)
    case None => None
    case Some(i) =>
      match LastIndexBelow(text, '}', |text|)
      case None => None
      case Some(j) => if i < j then Some(text[i..j + 1]) else None
  }

  /** The captured group of the fenced match at `p`. */
  function FencedPiece(text: string, p: nat): (b: string)
    requires p <= |text| && FencedAt(text, p).Some?
    ensures |b| >= 2 && b[0] == '{' && b[|b| - 1] == '}'
  {
    var m := FencedAt(text, p).value;
    PieceShape(text, m.0, m.1);
    text[m.0..m.1 + 1]
  }

  /** extract_json_block. */
  function ExtractJsonBlock(text: string): (r: Option<string>)
    ensures r.Some? ==> |r.value| >= 2 && r.value[0] == '{' && r.value[|r.value| - 1] == '}'
  {
    var f := SearchFenced(text, 0);
    if f.Some? then Some(FencedPiece(text, f.value)) else BraceBlock(text)
  }

  /** If the fenced pattern matches anywhere, the result is the brace block of its leftmost match. */
  lemma FencedWins(text: string, p: nat)
    requires p <= |text| && FencedAt(text, p).Some?
    ensures exists s :: (
      && 0 <= s <= p && FencedAt(text, s).Some?
      && (forall t :: 0 <= t < s ==> FencedAt(text, t).None?)
      && ExtractJsonBlock(text) == Some(FencedPiece(text, s)))
  {
    var s := SearchFenced(text, 0).value;
    assert s <= p;
    assert ExtractJsonBlock(text) == Some(FencedPiece(text, s));
  }

  /** Without a fenced match, the result is the first `{` through the last `}` after it. */
  lemma BraceFallback(text: string)
    requires forall s :: 0 <= s <= |text| ==> FencedAt(text, s).None?
    ensures ExtractJsonBlock(text) == BraceBlock(text)
  {
  }

  lemma PieceShape(text: string, i: nat, j: nat)
    requires i < j < |text| && text[i] == '{' && text[j] == '}'
    ensures var b := text[i..j + 1]; |b| >= 2 && b[0] == '{' && b[|b| - 1] == '}' && OccursAt(text, b, i)
  {
  }

  /** Where in the input the result was cut from. */
  lemma PieceBounds(text: string) returns (i: nat, j: nat)
    requires ExtractJsonBlock(text).Some?
    ensures i < j < |text| && text[i] == '{' && text[j] == '}' && ExtractJsonBlock(text).value == text[i..j + 1]
  {
    var f := SearchFenced(text, 0);
    if f.Some? {
      var m := FencedAt(text, f.value).value;
      assert ExtractJsonBlock(text).value == FencedPiece(text, f.value) == text[m.0..m.1 + 1];
      i, j := m.0, m.1;
    } else {
      i, j := IndexFrom(text, '{', 0).value, LastIndexBelow(text, '}', |text|).value;
    }
  }

  /** Any result is a piece of the input that starts with `{` and ends with `}`. */
  lemma ResultShape(text: string)
    ensures ExtractJsonBlock(text).Some? ==> (
      var b := ExtractJsonBlock(text).value;
      |b| >= 2 && b[0] == '{' && b[|b| - 1] == '}' && exists i: nat :: OccursAt(text, b, i))
  {
    if ExtractJsonBlock(text).Some? {
      var i, j := PieceBounds(text);
      PieceShape(text, i, j);
    }
  }

  /** The result is absent exactly when no `{` is followed later by a `}`. */
  lemma NoneIff(text: string)
    ensures ExtractJsonBlock(text).None? <==> !exists i, j :: 0 <= i < j < |text| && text[i] == '{' && text[j] == '}'
  {
    if exists i, j :: 0 <= i < j < |text| && text[i] == '{' && text[j] == '}' {
      var i, j :| 0 <= i < j < |text| && text[i] == '{' && text[j] == '}';
      var f := IndexFrom(text, '{', 0);
      var l := LastIndexBelow(text, '}', |text|);
      assert f.Some? && f.value <= i;
      assert l.Some? && j <= l.value;
      if SearchFenced(text, 0).None? {
        assert BraceBlock(text).Some?;
      }
    }
  }
}
