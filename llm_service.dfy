/**
 * The tail of the resume analysis: the language model's reply is cleaned of
 * Markdown code fences and parsed as JSON, and any failure becomes `None`.
 * The model call itself and `json.loads` are supplied from outside.
 */
module LlmService {
  import opened Wrappers
  import opened PyJson

  /** Python's `str.isspace` for one character (the Unicode whitespace code points). */
  predicate IsSpace(c: char) {
    var k := c as int;
    || k == 0x20 || 0x09 <= k <= 0x0d || 0x1c <= k <= 0x1f || k == 0x85 || k == 0xa0
    || k == 0x1680 || 0x2000 <= k <= 0x200a || k == 0x2028 || k == 0x2029
    || k == 0x202f || k == 0x205f || k == 0x3000
  }

  predicate AllSpace(s: string) {
    forall i | 0 <= i < |s| :: IsSpace(s[i])
  }

  /** Leading whitespace removed: a suffix of `s` that is empty or starts with a non-space. */
  function TrimStart(s: string): (r: string)
    ensures |r| <= |s| && r == s[|s| - |r|..]
    ensures r == [] || !IsSpace(r[0])
    ensures AllSpace(s[..|s| - |r|])
    decreases |s|
  {
    if s != [] && IsSpace(s[0]) then
      var r := TrimStart(s[1..]);
      assert s[1..][..|s| - 1 - |r|] == s[1..|s| - |r|];
      r
    else s
  }

  /** Trailing whitespace removed: a prefix of `s` that is empty or ends with a non-space. */
  function TrimEnd(s: string): (r: string)
    ensures |r| <= |s| && r == s[..|r|]
    ensures r == [] || !IsSpace(r[|r| - 1])
    ensures AllSpace(s[|r|..])
    decreases |s|
  {
    if s != [] && IsSpace(s[|s| - 1]) then
      var r := TrimEnd(s[..|s| - 1]);
      assert s[..|s| - 1][|r|..] + [s[|s| - 1]] == s[|r|..];
      r
    else s
  }

  /** `r` is `s[i..i + |r|]` and everything of `s` around it is whitespace. */
  predicate SpacedAround(s: string, r: string, i: int) {
    0 <= i <= |s| - |r| && r == s[i..i + |r|] && AllSpace(s[..i]) && AllSpace(s[i + |r|..])
  }

  /** `str.strip()`: the slice of `s` left once the whitespace on both sides is gone. */
  function Strip(s: string): (r: string)
    ensures r == [] || (!IsSpace(r[0]) && !IsSpace(r[|r| - 1]))
    ensures exists i :: SpacedAround(s, r, i)
  {
    var t := TrimStart(s);
    SuffixThenPrefix(s, t, TrimEnd(t));
    TrimEnd(t)
  }

  /** A prefix `r` of a suffix `t` of `s`, each cut at whitespace, is a slice of `s` with whitespace around. */
  lemma SuffixThenPrefix(s: string, t: string, r: string)
    requires |t| <= |s| && t == s[|s| - |t|..] && AllSpace(s[..|s| - |t|])
    requires |r| <= |t| && r == t[..|r|] && AllSpace(t[|r|..])
    ensures r != [] ==> r[0] == t[0]
    ensures SpacedAround(s, r, |s| - |t|)
  {
    var i := |s| - |t|;
    assert s[i + |r|..] == t[|r|..];
    assert s[i..i + |r|] == t[..|r|];
  }

  /** `pat` occurs in `s` starting at index `p`. */
  predicate OccursAt(s: string, pat: string, p: int) {
    0 <= p && p + |pat| <= |s| && forall k | 0 <= k < |pat| :: s[p + k] == pat[k]
  }

  predicate Contains(s: string, pat: string) {
    exists p | 0 <= p <= |s| :: OccursAt(s, pat, p)
  }

  /**
   * `s.replace(pat, "")`: scanning left to right, an occurrence at the front
   * is deleted and the scan resumes after it; otherwise one character is kept.
   */
  function RemoveAll(s: string, pat: string): (r: string)
    requires pat != []
    ensures |r| <= |s|
    decreases |s|
  {
    if s == [] then []
    else if OccursAt(s, pat, 0) then RemoveAll(s[|pat|..], pat)
    else [s[0]] + RemoveAll(s[1..], pat)
  }

  const Fence := "```"
  const JsonFence := "```json"

  /** The cleanup applied to the reply: trim, drop every "```json", then drop every "```". */
  function Clean(content: string): (r: string)
    ensures |r| <= |Strip(content)|
  {
    RemoveAll(RemoveAll(Strip(content), JsonFence), Fence)
  }

  /**
   * The `try` block: clean and parse the content; a reply whose content is
   * not a string (`None` here) or that does not parse yields `None`.
   */
  function AnalyzeResponse(content: Option<string>, parse: string -> Option<Json>): (r: Option<Json>)
    ensures r.Some? ==> content.Some? && parse(Clean(content.value)) == r
    ensures content.Some? && parse(Clean(content.value)).Some? ==> r.Some?
  {
    match content
    case None => None
    case Some(text) => parse(Clean(text))
  }

  // ---------------------------------------------------------------------------
  // Properties of the cleanup.

  /** Cleaning never makes the trimmed text longer. */
  lemma CleanNotLonger(content: string)
    ensures |Clean(content)| <= |Strip(content)| <= |content|
  {
  }

  /** An occurrence inside a slice of `s` is an occurrence in `s`. */
  lemma SliceOccurrence(s: string, pat: string, i: int, j: int, p: int)
    requires 0 <= i <= j <= |s|
    ensures OccursAt(s[i..j], pat, p) ==> OccursAt(s, pat, p + i)
  {
    if OccursAt(s[i..j], pat, p) {
      forall k | 0 <= k < |pat| ensures s[p + i + k] == pat[k] {
        assert s[i..j][p + k] == pat[k];
      }
    }
  }

  /** A pattern absent from `s` is absent from every slice of `s`. */
  lemma AbsentFromSlice(s: string, pat: string, i: int, j: int)
    requires 0 <= i <= j <= |s|
    requires !Contains(s, pat)
    ensures !Contains(s[i..j], pat)
  {
    forall p | 0 <= p <= |s[i..j]|
      ensures !OccursAt(s[i..j], pat, p)
    {
      SliceOccurrence(s, pat, i, j, p);
      assert !OccursAt(s, pat, p + i);
    }
  }

  /** Removing a pattern that does not occur changes nothing. */
  lemma {:induction false} RemoveAllAbsent(s: string, pat: string)
    requires pat != []
    requires !Contains(s, pat)
    ensures RemoveAll(s, pat) == s
    decreases |s|
  {
    if s != [] {
      assert !OccursAt(s, pat, 0);
      AbsentFromSlice(s, pat, 1, |s|);
      assert s[1..|s|] == s[1..];
      RemoveAllAbsent(s[1..], pat);
      assert [s[0]] + s[1..] == s;
    }
  }

  /** When no occurrence of `pat` in `a + b` starts inside `a`, removal keeps `a` as it is. */
  lemma {:induction false} RemoveAllKeepsPrefix(a: string, b: string, pat: string)
    requires pat != []
    requires forall p | 0 <= p < |a| :: !OccursAt(a + b, pat, p)
    ensures RemoveAll(a + b, pat) == a + RemoveAll(b, pat)
    decreases |a|
  {
    if a == [] {
      assert a + b == b;
    } else {
      var s := a + b;
      var t := a[1..] + b;
      assert s[1..] == t;
      forall p | 0 <= p < |a[1..]|
        ensures !OccursAt(t, pat, p)
      {
        assert !OccursAt(s, pat, p + 1);
      }
      RemoveAllKeepsPrefix(a[1..], b, pat);
      assert !OccursAt(s, pat, 0);
      assert RemoveAll(s, pat) == [s[0]] + RemoveAll(t, pat);
      assert [a[0]] + (a[1..] + RemoveAll(b, pat)) == a + RemoveAll(b, pat);
    }
  }

  /** A "```json" occurrence starts with a "```" occurrence. */
  lemma JsonFenceStartsWithFence(s: string, p: int)
    ensures OccursAt(s, JsonFence, p) ==> OccursAt(s, Fence, p)
  {
    if OccursAt(s, JsonFence, p) {
      forall k | 0 <= k < 3 ensures s[p + k] == Fence[k] {
        assert s[p + k] == JsonFence[k];
      }
    }
  }

  lemma NoFenceNoJsonFence(s: string)
    requires !Contains(s, Fence)
    ensures !Contains(s, JsonFence)
  {
    forall p | 0 <= p <= |s|
      ensures !OccursAt(s, JsonFence, p)
    {
      JsonFenceStartsWithFence(s, p);
      assert !OccursAt(s, Fence, p);
    }
  }

  /** A reply with no triple backtick anywhere is only trimmed. */
  lemma CleanWithoutFence(content: string)
    requires !Contains(content, Fence)
    ensures Clean(content) == Strip(content)
  {
    var t := TrimStart(content);
    AbsentFromSlice(content, Fence, |content| - |t|, |content|);
    assert content[|content| - |t|..|content|] == t;
    var u := TrimEnd(t);
    AbsentFromSlice(t, Fence, 0, |u|);
    assert t[0..|u|] == u;
    NoFenceNoJsonFence(u);
    RemoveAllAbsent(u, JsonFence);
    RemoveAllAbsent(u, Fence);
  }

  lemma {:induction false} TrimStartPadded(lead: string, rest: string)
    requires AllSpace(lead)
    requires rest != [] && !IsSpace(rest[0])
    ensures TrimStart(lead + rest) == rest
    decreases |lead|
  {
    if lead == [] {
      assert lead + rest == rest;
    } else {
      assert IsSpace((lead + rest)[0]);
      assert (lead + rest)[1..] == lead[1..] + rest;
      TrimStartPadded(lead[1..], rest);
    }
  }

  lemma {:induction false} TrimEndPadded(core: string, trail: string)
    requires AllSpace(trail)
    requires core != [] && !IsSpace(core[|core| - 1])
    ensures TrimEnd(core + trail) == core
    decreases |trail|
  {
    if trail == [] {
      assert core + trail == core;
    } else {
      var s := core + trail;
      assert IsSpace(s[|s| - 1]);
      assert s[..|s| - 1] == core + trail[..|trail| - 1];
      TrimEndPadded(core, trail[..|trail| - 1]);
    }
  }

  /** Whitespace around a text that starts and ends with a non-space is exactly what `strip` removes. */
  lemma StripPadded(lead: string, core: string, trail: string)
    requires AllSpace(lead) && AllSpace(trail)
    requires core != [] && !IsSpace(core[0]) && !IsSpace(core[|core| - 1])
    ensures Strip(lead + core + trail) == core
  {
    assert lead + core + trail == lead + (core + trail);
    TrimStartPadded(lead, core + trail);
    TrimEndPadded(core, trail);
  }

  function Backticks(k: nat): (s: string)
    ensures |s| == k && forall i | 0 <= i < k :: s[i] == '`'
  {
    if k == 0 then [] else ['`'] + Backticks(k - 1)
  }

  /** The closing fence after up to two trailing backticks: what survives is those backticks. */
  lemma RemoveClosingFence(k: nat)
    requires k < 3
    ensures RemoveAll(Backticks(k) + Fence, Fence) == Backticks(k)
  {
    var s := Backticks(k) + Fence;
    assert OccursAt(s, Fence, 0);
    var rest := s[3..];
    assert rest == Backticks(k);
    assert RemoveAll(s, Fence) == RemoveAll(rest, Fence);
    assert !Contains(rest, Fence);
    RemoveAllAbsent(rest, Fence);
  }

  /** No "```" can start inside `y` when `y` ends with a non-backtick and `y` plus the backticks has none. */
  lemma NoFenceStartsInside(y: string, k: nat)
    requires k < 3
    requires y == [] || y[|y| - 1] != '`'
    requires !Contains(y + Backticks(k), Fence)
    ensures forall p | 0 <= p < |y| :: !OccursAt(y + (Backticks(k) + Fence), Fence, p)
  {
    var x := y + Backticks(k);
    var s := y + (Backticks(k) + Fence);
    assert s == x + Fence;
    forall p | 0 <= p < |y|
      ensures !OccursAt(s, Fence, p)
    {
      if p + 3 <= |x| {
        assert !OccursAt(x, Fence, p);
        assert s[p] == x[p] && s[p + 1] == x[p + 1] && s[p + 2] == x[p + 2];
      } else {
        var j := |y| - 1 - p;
        assert s[p + j] == y[|y| - 1] && Fence[j] == '`';
      }
    }
  }

  /** How many of the last two characters of `x` are backticks, counted from the end. */
  function TrailingTicks(x: string): (k: nat)
    ensures k <= 2 && k <= |x|
    ensures forall j | |x| - k <= j < |x| :: x[j] == '`'
    ensures k < 2 && k < |x| ==> x[|x| - k - 1] != '`'
  {
    var n := |x|;
    if n >= 2 && x[n - 1] == '`' && x[n - 2] == '`' then 2
    else if n >= 1 && x[n - 1] == '`' then 1
    else 0
  }

  /** A string whose last `k` characters are backticks is its remaining prefix followed by them. */
  lemma EndsWithBackticks(x: string, k: nat)
    requires k <= |x|
    requires forall j | |x| - k <= j < |x| :: x[j] == '`'
    ensures x == x[..|x| - k] + Backticks(k)
  {
    var y := x[..|x| - k];
    forall j | 0 <= j < |x|
      ensures x[j] == (y + Backticks(k))[j]
    {
      if j >= |y| {
        assert (y + Backticks(k))[j] == Backticks(k)[j - |y|];
      }
    }
  }

  /** Three backticks at the end of `x` are an occurrence of the fence. */
  lemma ThreeTicksAreFence(x: string)
    requires |x| >= 3
    ensures x[|x| - 3] == '`' && x[|x| - 2] == '`' && x[|x| - 1] == '`' ==> OccursAt(x, Fence, |x| - 3)
  {
  }

  /** Cut before its trailing backticks, `x` ends with something else when it has no "```". */
  lemma TicksFollowNonTick(x: string)
    requires !Contains(x, Fence)
    ensures var y := x[..|x| - TrailingTicks(x)];
            y == [] || y[|y| - 1] != '`'
  {
    var k := TrailingTicks(x);
    if k == 2 && |x| >= 3 {
      ThreeTicksAreFence(x);
      assert !OccursAt(x, Fence, |x| - 3);
    }
  }

  /**
   * Removing every "```" from `x + "```"` gives `x` back when `x` itself has
   * no "```", even when `x` ends with one or two backticks that join the fence.
   */
  lemma RemoveFenceAfter(x: string)
    requires !Contains(x, Fence)
    ensures RemoveAll(x + Fence, Fence) == x
  {
    var k := TrailingTicks(x);
    var y := x[..|x| - k];
    EndsWithBackticks(x, k);
    TicksFollowNonTick(x);
    NoFenceStartsInside(y, k);
    RemoveAllKeepsPrefix(y, Backticks(k) + Fence, Fence);
    RemoveClosingFence(k);
    assert y + (Backticks(k) + Fence) == x + Fence;
  }

  /** A "```json" inside `x + "```"` would put a "```" inside `x`. */
  lemma FenceBeforeClosing(x: string, p: int)
    ensures OccursAt(x + Fence, JsonFence, p) ==> OccursAt(x, Fence, p)
  {
    if OccursAt(x + Fence, JsonFence, p) {
      forall i | 0 <= i < 3 ensures x[p + i] == Fence[i] {
        assert (x + Fence)[p + i] == JsonFence[i];
      }
    }
  }

  /** The leading "```json" goes, and no other occurrence can follow once `x` has no "```". */
  lemma RemoveOpeningFence(x: string)
    requires !Contains(x, Fence)
    ensures RemoveAll(JsonFence + x + Fence, JsonFence) == x + Fence
  {
    var rest := x + Fence;
    var core := JsonFence + rest;
    assert JsonFence + x + Fence == core;
    assert OccursAt(core, JsonFence, 0);
    assert core[7..] == rest;
    assert !Contains(rest, JsonFence) by {
      forall p | 0 <= p <= |rest|
        ensures !OccursAt(rest, JsonFence, p)
      {
        FenceBeforeClosing(x, p);
        assert !OccursAt(x, Fence, p);
      }
    }
    RemoveAllAbsent(rest, JsonFence);
  }

  /** A reply that wraps `x` in a fenced "```json" block, with whitespace around, cleans to exactly `x`. */
  lemma CleanFencedBlock(lead: string, x: string, trail: string)
    requires AllSpace(lead) && AllSpace(trail)
    requires !Contains(x, Fence)
    ensures Clean(lead + JsonFence + x + Fence + trail) == x
  {
    var core := JsonFence + x + Fence;
    assert lead + JsonFence + x + Fence + trail == lead + core + trail;
    assert core[0] == '`' && core[|core| - 1] == '`';
    StripPadded(lead, core, trail);
    RemoveOpeningFence(x);
    RemoveFenceAfter(x);
  }

  /** A fenced reply is parsed as its inner text. */
  lemma FencedReplyParsesInner(lead: string, x: string, trail: string, parse: string -> Option<Json>)
    requires AllSpace(lead) && AllSpace(trail)
    requires !Contains(x, Fence)
    ensures AnalyzeResponse(Some(lead + JsonFence + x + Fence + trail), parse) == parse(x)
  {
    CleanFencedBlock(lead, x, trail);
  }
}
