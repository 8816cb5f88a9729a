/** String handling of the course routes: the `\{.*\}` span cut out of a
    language-model reply, and the embeddable YouTube URL built from a video
    id and split apart again. */
module Text {
  import opened Values

  // ----- The JSON span of a model reply -----

  /** Index of the first `c` in `s`. */
  function FirstOf(s: string, c: char): (r: Option<nat>)
    ensures r.Some? ==> r.value < |s| && s[r.value] == c
    ensures r.Some? ==> forall k :: 0 <= k < r.value ==> s[k] != c
    ensures r.None? ==> forall k :: 0 <= k < |s| ==> s[k] != c
  {
    if |s| == 0 then None
    else if s[0] == c then Some(0)
    else match FirstOf(s[1..], c)
      case None => None
      case Some(k) => Some(k + 1)
  }

  /** Index of the last `c` in `s`. */
  function LastOf(s: string, c: char): (r: Option<nat>)
    ensures r.Some? ==> r.value < |s| && s[r.value] == c
    ensures r.Some? ==> forall k :: r.value < k < |s| ==> s[k] != c
    ensures r.None? ==> forall k :: 0 <= k < |s| ==> s[k] != c
  {
    if |s| == 0 then None
    else if s[|s| - 1] == c then Some(|s| - 1)
    else LastOf(s[..|s| - 1], c)
  }

  /** `t[i..e]` matches the pattern `\{.*\}` under DOTALL: it opens with `{`,
      closes with `}` and has at least those two characters. */
  predicate BraceMatch(t: string, i: int, e: int) {
    0 <= i && i + 2 <= e <= |t| && t[i] == '{' && t[e - 1] == '}'
  }

  /** Bounds of the span `re.search(r'\{.*\}', t, re.DOTALL)` returns: from
      the first `{` to the last `}`, when that `}` comes after the `{`. */
  function SpanBounds(t: string): Option<(nat, nat)> {
    match (FirstOf(t, '{'), LastOf(t, '}'))
    case (Some(i), Some(j)) => if i < j then Some((i, j + 1)) else None
    case _ => None
  }

  /** The text the model reply is parsed from, or `None` when the search
      finds no match. */
  function JsonSpan(t: string): Option<string> {
    match SpanBounds(t)
    case None => None
    case Some((i, e)) => if e <= |t| then Some(t[i..e]) else None
  }

  /** The span is exactly what the regular-expression search returns: a
      match of `\{.*\}`, the leftmost one, and the longest one starting
      there (the greedy `.*`); and there is no span only when no match
      exists anywhere. */
  lemma SpanIsLeftmostLongest(t: string)
    ensures SpanBounds(t).None? <==> forall i, e :: !BraceMatch(t, i, e)
    ensures SpanBounds(t).Some? ==>
      var (i, e) := SpanBounds(t).value;
      && BraceMatch(t, i, e)
      && JsonSpan(t) == Some(t[i..e])
      && forall i2, e2 :: BraceMatch(t, i2, e2) ==> i <= i2 && (i2 == i ==> e2 <= e)
  {
    match (FirstOf(t, '{'), LastOf(t, '}')) {
      case (Some(i), Some(j)) =>
        forall i2, e2 | BraceMatch(t, i2, e2) ensures i <= i2 < e2 - 1 <= j {
          assert t[i2] == '{' && t[e2 - 1] == '}';
        }
        if i < j {
          assert BraceMatch(t, i, j + 1);
        }
      case (None, _) =>
      case (_, None) =>
    }
  }

  /** The span is greedy, not balanced: two separate objects in one reply
      come back as one span enclosing the text between them, and a `}`
      before the only `{` gives no span at all. */
  lemma SpanIsNotBalanced()
    ensures JsonSpan("{a} {b}") == Some("{a} {b}")
    ensures JsonSpan("}{") == None
  {
    var t := "{a} {b}";
    assert FirstOf(t, '{') == Some(0);
    assert LastOf(t, '}') == Some(6);
    assert t[0..7] == t;
    var u := "}{";
    assert FirstOf(u, '{') == Some(1);
    assert LastOf(u, '}') == Some(0);
  }

  // ----- Splitting a string on a separator -----

  /** `sep` occurs in `s` at position `k`. */
  predicate MatchAt(s: string, sep: string, k: nat) {
    k + |sep| <= |s| && s[k..k + |sep|] == sep
  }

  /** First position at or after `i` where `sep` occurs in `s`. */
  function FindFrom(s: string, sep: string, i: nat): (r: Option<nat>)
    requires |sep| > 0
    ensures r.Some? ==> i <= r.value && MatchAt(s, sep, r.value)
    ensures r.Some? ==> forall k :: i <= k < r.value ==> !MatchAt(s, sep, k)
    ensures r.None? ==> forall k :: i <= k ==> !MatchAt(s, sep, k)
    decreases |s| - i
  {
    if i + |sep| > |s| then None
    else if s[i..i + |sep|] == sep then Some(i)
    else FindFrom(s, sep, i + 1)
  }

  /** `sep in s` */
  predicate Contains(s: string, sep: string)
    requires |sep| > 0
  {
    FindFrom(s, sep, 0).Some?
  }

  /** `s.split(sep)[-1]`: split left to right at each occurrence of `sep`
      and keep the last piece. */
  function SplitLast(s: string, sep: string): string
    requires |sep| > 0
    decreases |s|
  {
    match FindFrom(s, sep, 0)
    case None => s
    case Some(k) => SplitLast(s[k + |sep|..], sep)
  }

  /** The piece after the last separator contains no separator. */
  lemma {:induction false} SplitLastHasNoSeparator(s: string, sep: string)
    requires |sep| > 0
    ensures !Contains(SplitLast(s, sep), sep)
    decreases |s|
  {
    match FindFrom(s, sep, 0)
    case None =>
    case Some(k) => SplitLastHasNoSeparator(s[k + |sep|..], sep);
  }

  /** A search inside `a` that succeeds gives the same answer on any
      extension of `a`. */
  lemma {:induction false} FindFromPrefix(a: string, b: string, sep: string, i: nat)
    requires |sep| > 0
    requires FindFrom(a, sep, i).Some?
    ensures FindFrom(a + b, sep, i) == FindFrom(a, sep, i)
    decreases |a| - i
  {
    assert (a + b)[i..i + |sep|] == a[i..i + |sep|];
    if a[i..i + |sep|] != sep {
      FindFromPrefix(a, b, sep, i + 1);
    }
  }

  /** The search skips positions where `sep` does not occur. */
  lemma {:induction false} FindFromSkip(s: string, sep: string, i: nat, j: nat)
    requires |sep| > 0 && i <= j && j + |sep| <= |s|
    requires forall k :: i <= k < j ==> !MatchAt(s, sep, k)
    ensures FindFrom(s, sep, i) == FindFrom(s, sep, j)
    decreases j - i
  {
    if i < j {
      assert !MatchAt(s, sep, i);
      FindFromSkip(s, sep, i + 1, j);
    }
  }

  // ----- Embeddable YouTube URLs -----

  const EmbedPrefix := "https://www.youtube.com/embed/"
  const EmbedSep := "embed/"

  /** The link `get_semantically_best_video` returns for a video id. */
  function EmbedUrl(videoId: string): string {
    EmbedPrefix + videoId
  }

  /** The video id `get_transcript` cuts out of a stored link. */
  function VideoIdOf(url: string): string {
    SplitLast(url, EmbedSep)
  }

  lemma PrefixHasOneSeparator()
    ensures FindFrom(EmbedPrefix, EmbedSep, 0) == Some(24)
  {
    var p := EmbedPrefix;
    forall k | 0 <= k < 24 ensures !MatchAt(p, EmbedSep, k) {
      assert p[k] != 'e' || p[k + 1] != 'm';
    }
    assert p[24..30] == EmbedSep;
    FindFromSkip(p, EmbedSep, 0, 24);
  }

  /** Splitting an embed link skips the prefix: what remains is the split
      of the id alone. */
  lemma SplitPastPrefix(videoId: string)
    ensures Contains(EmbedUrl(videoId), EmbedSep)
    ensures VideoIdOf(EmbedUrl(videoId)) == SplitLast(videoId, EmbedSep)
  {
    PrefixHasOneSeparator();
    FindFromPrefix(EmbedPrefix, videoId, EmbedSep, 0);
    var url := EmbedUrl(videoId);
    assert url[30..] == videoId;
  }

  /** Building an embed link and splitting it on `embed/` gives the video id
      back, as long as the id itself contains no `embed/`. */
  lemma EmbedRoundTrip(videoId: string)
    requires !Contains(videoId, EmbedSep)
    ensures Contains(EmbedUrl(videoId), EmbedSep)
    ensures VideoIdOf(EmbedUrl(videoId)) == videoId
  {
    SplitPastPrefix(videoId);
  }

  /** Every embed link starts with the embed prefix, and gives back its id
      when the id is clean. */
  lemma EmbedUrlParts(videoId: string)
    ensures EmbedPrefix <= EmbedUrl(videoId)
    ensures !Contains(videoId, EmbedSep) ==> VideoIdOf(EmbedUrl(videoId)) == videoId
  {
    if !Contains(videoId, EmbedSep) {
      EmbedRoundTrip(videoId);
    }
  }

  /** An id that itself contains `embed/` does not survive the round trip. */
  lemma EmbedRoundTripNeedsCleanId()
    ensures VideoIdOf(EmbedUrl("embed/x")) == "x"
  {
    SplitPastPrefix("embed/x");
    var rest := "embed/x";
    assert MatchAt(rest, EmbedSep, 0);
    assert rest[6..] == "x";
    assert FindFrom("x", EmbedSep, 0) == None;
  }
}
