/** Go's ReplaceAllString with the guardrail's marker, and when it leaves a text without
    matches. */
module Replace {
  import opened Options
  import opened Regex

  const MARKER: string := "[REDACTED]"

  datatype Span = Span(start: nat, end: nat)

  /** The leftmost match starting at i or later; of the matches starting there, the one the
      matcher prefers. */
  function Find(r: Re, s: string, i: nat): (found: Option<Span>)
    requires i <= |s|
    ensures found.Some? ==>
              var m := found.value;
              && i <= m.start <= m.end <= |s|
              && Ends(r, s, m.start) != [] && m.end == Ends(r, s, m.start)[0]
              && (forall k :: i <= k < m.start ==> Ends(r, s, k) == [])
    ensures found.None? ==> forall k :: i <= k <= |s| ==> Ends(r, s, k) == []
    decreases |s| - i
  {
    if Ends(r, s, i) != [] then Some(Span(i, Ends(r, s, i)[0]))
    else if i == |s| then None
    else Find(r, s, i + 1)
  }

  /** MatchString. */
  predicate Occurs(r: Re, s: string)
  {
    Find(r, s, 0).Some?
  }

  ghost predicate Clean(r: Re, s: string)
  {
    forall i, j :: 0 <= i <= j <= |s| ==> !Matches(r, s, i, j)
  }

  lemma OccursIffNotClean(r: Re, s: string)
    ensures Occurs(r, s) <==> !Clean(r, s)
  {
    match Find(r, s, 0)
    case Some(m) =>
      assert m.end in Ends(r, s, m.start);
      EndsAreMatches(r, s, m.start, m.end);
    case None =>
      forall i, j | 0 <= i <= j <= |s| ensures !Matches(r, s, i, j) {
        EndsAreMatches(r, s, i, j);
      }
  }

  lemma FoundIsNonEmpty(r: Re, s: string, i: nat)
    requires i <= |s| && Consumes(r) && Find(r, s, i).Some?
    ensures var m := Find(r, s, i).value; m.start < m.end && Matches(r, s, m.start, m.end)
  {
    var m := Find(r, s, i).value;
    assert m.end in Ends(r, s, m.start);
    EndsAreMatches(r, s, m.start, m.end);
    ConsumesMatch(r, s, m.start, m.end);
  }

  /** Replaces the matches found one after the other from position i on. The search resumes
      at the end of the previous match and still sees the text to its left. */
  function ReplaceFrom(r: Re, s: string, i: nat): string
    requires i <= |s| && Consumes(r)
    decreases |s| - i
  {
    match Find(r, s, i)
    case None => s[i..]
    case Some(m) =>
      FoundIsNonEmpty(r, s, i);
      s[i..m.start] + MARKER + ReplaceFrom(r, s, m.end)
  }

  function ReplaceAll(r: Re, s: string): string
    requires Consumes(r)
  {
    ReplaceFrom(r, s, 0)
  }

  // ---- What is replaced ---------------------------------------------------------------

  /** Disjoint spans from i on, left to right. */
  predicate Ordered(spans: seq<Span>, i: nat, s: string)
  {
    if spans == [] then i <= |s|
    else i <= spans[0].start < spans[0].end <= |s| && Ordered(spans[1..], spans[0].end, s)
  }

  /** The text from i on with each span replaced by the marker. */
  function Splice(spans: seq<Span>, i: nat, s: string): string
    requires Ordered(spans, i, s)
    decreases |spans|
  {
    if spans == [] then s[i..]
    else s[i..spans[0].start] + MARKER + Splice(spans[1..], spans[0].end, s)
  }

  /** Every match from i on starts inside one of the spans. */
  ghost predicate Covers(r: Re, s: string, i: nat, spans: seq<Span>)
  {
    forall k, j :: i <= k <= j <= |s| && Matches(r, s, k, j) ==> exists m :: m in spans && m.start <= k < m.end
  }

  lemma CoversMore(r: Re, s: string, i: nat, m: Span, rest: seq<Span>)
    requires i <= |s| && Find(r, s, i) == Some(m) && Covers(r, s, m.end, rest)
    ensures Covers(r, s, i, [m] + rest)
  {
    forall k, j | i <= k <= j <= |s| && Matches(r, s, k, j)
      ensures exists x :: x in [m] + rest && x.start <= k < x.end
    {
      EndsAreMatches(r, s, k, j);
      if k < m.end {
        assert m in [m] + rest;
      } else {
        var x :| x in rest && x.start <= k < x.end;
        assert x in [m] + rest;
      }
    }
  }

  lemma CoversNothing(r: Re, s: string, i: nat)
    requires i <= |s| && Find(r, s, i) == None
    ensures Covers(r, s, i, [])
  {
    forall k, j | i <= k <= j <= |s| ensures !Matches(r, s, k, j) {
      EndsAreMatches(r, s, k, j);
    }
  }

  /** Only matches are replaced, and no match starts in what is kept. */
  lemma {:induction false} ReplacesExactlyTheMatches(r: Re, s: string, i: nat) returns (spans: seq<Span>)
    requires i <= |s| && Consumes(r)
    ensures Ordered(spans, i, s) && ReplaceFrom(r, s, i) == Splice(spans, i, s)
    ensures forall m :: m in spans ==> m.start <= m.end <= |s| && Matches(r, s, m.start, m.end)
    ensures Covers(r, s, i, spans)
    decreases |s| - i
  {
    match Find(r, s, i)
    case None =>
      spans := [];
      CoversNothing(r, s, i);
    case Some(m) =>
      FoundIsNonEmpty(r, s, i);
      var rest := ReplacesExactlyTheMatches(r, s, m.end);
      spans := [m] + rest;
      assert spans[1..] == rest;
      CoversMore(r, s, i, m, rest);
  }

  // ---- Cleanliness --------------------------------------------------------------------

  predicate NotBracket(c: char) { c != '[' && c != ']' }

  /** A character the marker does not have. */
  predicate Foreign(c: char) { NotBracket(c) && !IsAlpha(c) }

  predicate Anchored(r: Re) { StartsAtBoundary(r) && EndsAtBoundary(r) }

  /** q's matches cannot reach into the marker, and q sees the kept text of a replacement
      of r as it was: either it looks at no boundary, or both only match between two. */
  ghost predicate Unaffected(q: Re, r: Re)
  {
    && Over(q, NotBracket) && Needs(q, Foreign)
    && (NoBoundary(q) || (Anchored(q) && Anchored(r)))
  }

  lemma MatchNeedsRoom(q: Re, t: string, p: nat, e: nat)
    requires Needs(q, Foreign) && p <= e <= |t| && Matches(q, t, p, e)
    ensures p < e
  {
    NeedsMatch(q, Foreign, t, p, e);
  }

  /** s[a..b] stands in t, `off` further on, framed by text edges or markers, and where r needs
      boundaries the frame is one in s. */
  ghost predicate InFrame(r: Re, s: string, a: nat, b: nat, t: string, off: int)
  {
    && a <= b <= |s| && 0 <= a + off && b + off <= |t|
    && (forall x :: a <= x < b ==> s[x] == t[x + off])
    && ((a == 0 && a + off == 0) || (0 < a + off && t[a + off - 1] == ']' && (Anchored(r) ==> AtBoundary(s, a))))
    && ((b == |s| && b + off == |t|) || (b + off < |t| && t[b + off] == '[' && (Anchored(r) ==> AtBoundary(s, b))))
  }

  lemma FramedBoundary(r: Re, s: string, a: nat, b: nat, t: string, off: int, p: nat, e: nat, x: nat)
    requires InFrame(r, s, a, b, t, off) && a + off <= p < e <= b + off && p <= x <= e
    requires Anchored(r) && AtBoundary(t, p) && AtBoundary(t, e)
    ensures AtBoundary(t, x) == AtBoundary(s, x - off)
  {
    if a + off < x {
      assert s[x - off - 1] == t[x - 1];
    }
    if x < b + off {
      assert s[x - off] == t[x];
    }
  }

  lemma FramedWindow(q: Re, r: Re, s: string, a: nat, b: nat, t: string, off: int, p: nat, e: nat)
    requires InFrame(r, s, a, b, t, off) && a + off <= p < e <= b + off
    requires NoBoundary(q) || (Anchored(r) && AtBoundary(t, p) && AtBoundary(t, e))
    ensures SameWindow(q, t, p, e, s, -off)
  {
    forall x | p <= x < e ensures t[x] == s[x - off] {
      assert a <= x - off < b;
    }
    if !NoBoundary(q) {
      forall x | p <= x <= e ensures AtBoundary(t, x) == AtBoundary(s, x - off) {
        FramedBoundary(r, s, a, b, t, off, p, e, x);
      }
    }
  }

  /** A match of q in a framed piece of s is a match in s. */
  lemma FramedMatch(q: Re, r: Re, s: string, a: nat, b: nat, t: string, off: int, p: nat, e: nat)
    requires Unaffected(q, r) && InFrame(r, s, a, b, t, off)
    requires a + off <= p <= e <= b + off && Matches(q, t, p, e)
    ensures Matches(q, s, p - off, e - off)
  {
    MatchNeedsRoom(q, t, p, e);
    if !NoBoundary(q) {
      StartIsBoundary(q, t, p, e);
      EndIsBoundary(q, t, p, e);
    }
    FramedWindow(q, r, s, a, b, t, off, p, e);
    MatchMoves(q, t, p, e, s, -off);
  }

  lemma MarkerLetters(x: nat)
    requires x < 10
    ensures NotBracket(MARKER[x]) ==> IsAlpha(MARKER[x])
    ensures !NotBracket(MARKER[0]) && !NotBracket(MARKER[9])
  {
  }

  /** The marker itself takes part in no match of q. */
  lemma MarkerIsUntouched(q: Re, t: string, gap: nat, p: nat, e: nat)
    requires Over(q, NotBracket) && Needs(q, Foreign)
    requires gap + 10 <= |t| && t[gap..gap + 10] == MARKER
    requires p <= e <= |t| && Matches(q, t, p, e)
    ensures e <= gap || gap + 10 <= p
  {
    OverMatch(q, NotBracket, t, p, e);
    NeedsMatch(q, Foreign, t, p, e);
    var k :| p <= k < e && Foreign(t[k]);
    assert t[gap] == t[gap..gap + 10][0] && t[gap + 9] == t[gap..gap + 10][9];
    MarkerLetters(0);
    if gap <= k < gap + 10 {
      assert t[k] == t[gap..gap + 10][k - gap];
      MarkerLetters(k - gap);
    }
  }

  ghost predicate Framed(r: Re, s: string, a: nat, pre: string)
    requires a <= |s|
  {
    (a == 0 && pre == []) || (pre != [] && pre[|pre| - 1] == ']' && (Anchored(r) ==> AtBoundary(s, a)))
  }

  /** t continues pre with s[a..b] and then the marker. */
  predicate KeepsThenMarks(t: string, pre: string, s: string, a: nat, b: nat)
  {
    && a <= b <= |s|
    && (var gap := |pre| + (b - a);
        gap + 10 <= |t| && t[|pre|..gap] == s[a..b] && t[gap..gap + 10] == MARKER && pre == t[..|pre|])
  }

  lemma KeptIsShifted(t: string, pre: string, s: string, a: nat, b: nat)
    requires KeepsThenMarks(t, pre, s, a, b)
    ensures forall x :: a <= x < b ==> s[x] == t[x + |pre| - a]
    ensures t[|pre| + (b - a)] == '[' && (pre != [] ==> t[|pre| - 1] == pre[|pre| - 1])
  {
    var gap := |pre| + (b - a);
    forall x | a <= x < b ensures s[x] == t[x + |pre| - a] {
      assert s[x] == s[a..b][x - a] == t[|pre|..gap][x - a];
    }
    assert t[gap] == t[gap..gap + 10][0];
  }

  /** A match of q that starts before the end of the next marker is a match in what is kept of
      s before it. */
  lemma KeptMatch(q: Re, r: Re, s: string, a: nat, m: Span, pre: string, t: string, p: nat, e: nat)
    requires Unaffected(q, r) && a <= m.start <= m.end <= |s| && Framed(r, s, a, pre) && Matches(r, s, m.start, m.end)
    requires KeepsThenMarks(t, pre, s, a, m.start)
    requires |pre| <= p < |pre| + (m.start - a) + 10 && p <= e <= |t| && Matches(q, t, p, e)
    ensures var off := |pre| - a; p - off < m.start && e - off <= |s| && Matches(q, s, p - off, e - off)
  {
    MarkerIsUntouched(q, t, |pre| + (m.start - a), p, e);
    MatchNeedsRoom(q, t, p, e);
    if Anchored(r) {
      StartIsBoundary(r, s, m.start, m.end);
    }
    KeptIsShifted(t, pre, s, a, m.start);
    FramedMatch(q, r, s, a, m.start, t, |pre| - a, p, e);
  }

  /** Nor does one start in what is kept after the last replaced match. */
  lemma LastTextIsClean(q: Re, r: Re, s: string, a: nat, pre: string, t: string, p: nat, e: nat)
    requires Unaffected(q, r) && a <= |s| && Framed(r, s, a, pre) && t == pre + s[a..]
    requires forall k, j :: a <= k <= j <= |s| ==> !Matches(q, s, k, j)
    requires |pre| <= p <= e <= |t|
    ensures !Matches(q, t, p, e)
  {
    if Matches(q, t, p, e) {
      FramedMatch(q, r, s, a, |s|, t, |pre| - a, p, e);
    }
  }

  /** Between a and the next replaced match, or the end, s has no match of q. */
  lemma KeptHasNoMatch(q: Re, r: Re, s: string, a: nat, k: nat, j: nat)
    requires a <= k <= j <= |s| && (q == r || Clean(q, s))
    requires Find(r, s, a).Some? ==> k < Find(r, s, a).value.start
    ensures !Matches(q, s, k, j)
  {
    EndsAreMatches(q, s, k, j);
  }

  lemma PiecesOf(pre: string, kept: string, tail: string)
    ensures var t := pre + (kept + MARKER + tail);
            && t == pre + kept + MARKER + tail && t[..|pre|] == pre && t[|pre|..|pre| + |kept|] == kept
            && t[|pre| + |kept|..|pre| + |kept| + 10] == MARKER
  {
  }

  /** One replacement further, the text is framed again. */
  lemma NextPrefix(r: Re, s: string, a: nat, m: Span, pre: string, t: string)
    requires a <= |s| && Consumes(r) && Find(r, s, a) == Some(m) && t == pre + ReplaceFrom(r, s, a)
    ensures Matches(r, s, m.start, m.end)
    ensures var next := pre + s[a..m.start] + MARKER;
            && t == next + ReplaceFrom(r, s, m.end) && Framed(r, s, m.end, next)
            && KeepsThenMarks(t, pre, s, a, m.start)
  {
    FoundIsNonEmpty(r, s, a);
    if Anchored(r) {
      EndIsBoundary(r, s, m.start, m.end);
    }
    PiecesOf(pre, s[a..m.start], ReplaceFrom(r, s, m.end));
  }

  lemma {:induction false} TailStaysClean(q: Re, r: Re, s: string, a: nat, pre: string, t: string, p: nat, e: nat)
    requires a <= |s| && Consumes(r) && Unaffected(q, r) && (q == r || Clean(q, s)) && Framed(r, s, a, pre)
    requires t == pre + ReplaceFrom(r, s, a) && |pre| <= p <= e <= |t|
    ensures !Matches(q, t, p, e)
    decreases |s| - a
  {
    forall k, j | a <= k <= j <= |s| && (Find(r, s, a).Some? ==> k < Find(r, s, a).value.start)
      ensures !Matches(q, s, k, j)
    {
      KeptHasNoMatch(q, r, s, a, k, j);
    }
    match Find(r, s, a)
    case None => LastTextIsClean(q, r, s, a, pre, t, p, e);
    case Some(m) =>
      FoundIsNonEmpty(r, s, a);
      var pre' := pre + s[a..m.start] + MARKER;
      NextPrefix(r, s, a, m, pre, t);
      if |pre'| <= p {
        TailStaysClean(q, r, s, m.end, pre', t, p, e);
      } else {
        if Matches(q, t, p, e) {
          KeptMatch(q, r, s, a, m, pre, t, p, e);
        }
      }
  }

  /** Replacing r's matches leaves no match of r, and brings back none of a clean q. */
  lemma ReplaceKeepsClean(q: Re, r: Re, s: string)
    requires Consumes(r) && Unaffected(q, r) && (q == r || Clean(q, s))
    ensures Clean(q, ReplaceAll(r, s))
  {
    var t := ReplaceAll(r, s);
    assert [] + t == t;
    forall i, j | 0 <= i <= j <= |t| ensures !Matches(q, t, i, j) {
      TailStaysClean(q, r, s, 0, [], t, i, j);
    }
  }

  /** A single match is cut out, "[REDACTED]" takes its place, and the rest stays. */
  lemma OneReplacement(r: Re, s: string)
    requires Consumes(r) && Find(r, s, 0).Some? && Find(r, s, Find(r, s, 0).value.end).None?
    ensures var m := Find(r, s, 0).value; ReplaceAll(r, s) == s[..m.start] + "[REDACTED]" + s[m.end..]
  {
    var m := Find(r, s, 0).value;
    FoundIsNonEmpty(r, s, 0);
    assert ReplaceFrom(r, s, m.end) == s[m.end..] && s[0..m.start] == s[..m.start];
  }
}
