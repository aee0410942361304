/** The fragment of Go's regexp package the guardrail uses: character classes,
    concatenation, greedy `?` and `{lo,hi}`, and the ASCII word boundary `\b`.
    `Ends` is the matcher, a backtracking search in Go's leftmost-first preference order;
    `Matches` is what a match means. */
module Regex {

  import opened Options

  datatype Re =
    | Class(ok: char -> bool)
    | Cat(first: Re, second: Re)
    | Opt(body: Re)
    | Rep(body: Re, lo: nat, hi: Option<nat>)
    | Boundary

  predicate IsDigit(c: char) { '0' <= c <= '9' }

  predicate IsAlpha(c: char) { 'a' <= c <= 'z' || 'A' <= c <= 'Z' }

  predicate IsWord(c: char) { IsDigit(c) || IsAlpha(c) || c == '_' }

  /** `\b`: exactly one neighbour of position i is a word character. */
  predicate AtBoundary(s: string, i: nat)
    requires i <= |s|
  {
    (0 < i && IsWord(s[i - 1])) != (i < |s| && IsWord(s[i]))
  }

  predicate Within(positions: seq<nat>, lo: nat, hi: nat)
  {
    forall k :: 0 <= k < |positions| ==> lo <= positions[k] <= hi
  }

  function Fewer(n: nat): nat { if n == 0 then 0 else n - 1 }

  function Rest(r: Re): Re
    requires r.Rep?
  {
    Rep(r.body, Fewer(r.lo), if r.hi.None? then None else Some(Fewer(r.hi.value)))
  }

  /** The ends of the matches of r that start at i, best first. An iteration of a
      repetition consumes at least one character. */
  function Ends(r: Re, s: string, i: nat): (es: seq<nat>)
    requires i <= |s|
    ensures Within(es, i, |s|)
    decreases |s| - i, r, 0
  {
    match r
    case Class(ok) => if i < |s| && ok(s[i]) then [i + 1] else []
    case Cat(a, b) => EndsAll(b, s, i, Ends(a, s, i))
    case Opt(a) => Ends(a, s, i) + [i]
    case Rep(a, lo, hi) =>
      (if hi == Some(0) then [] else MoreEnds(r, s, i, Ends(a, s, i))) + (if lo == 0 then [i] else [])
    case Boundary => if AtBoundary(s, i) then [i] else []
  }

  /** The continuations by r of each of the given positions, none before i. */
  function EndsAll(r: Re, s: string, i: nat, from: seq<nat>): (es: seq<nat>)
    requires i <= |s| && Within(from, i, |s|)
    ensures Within(es, i, |s|)
    decreases |s| - i, r, 1 + |from|
  {
    if from == [] then [] else Ends(r, s, from[0]) + EndsAll(r, s, i, from[1..])
  }

  function MoreEnds(r: Re, s: string, i: nat, from: seq<nat>): (es: seq<nat>)
    requires r.Rep? && i <= |s| && Within(from, i, |s|)
    ensures Within(es, i, |s|)
    decreases |s| - i, r.body, 1 + |from|
  {
    if from == [] then []
    else (if from[0] == i then [] else Ends(Rest(r), s, from[0])) + MoreEnds(r, s, i, from[1..])
  }

  ghost predicate Matches(r: Re, s: string, i: nat, j: nat)
    requires i <= j <= |s|
    decreases j - i, r
  {
    match r
    case Class(ok) => j == i + 1 && ok(s[i])
    case Cat(a, b) => exists m :: i <= m <= j && Matches(a, s, i, m) && Matches(b, s, m, j)
    case Opt(a) => i == j || Matches(a, s, i, j)
    case Rep(a, lo, hi) =>
      || (lo == 0 && i == j)
      || (hi != Some(0) && exists m :: i < m <= j && Matches(a, s, i, m) && Matches(Rest(r), s, m, j))
    case Boundary => i == j && AtBoundary(s, i)
  }

  lemma {:induction false} EndsAllIff(r: Re, s: string, i: nat, from: seq<nat>, j: nat)
    requires i <= j <= |s| && Within(from, i, |s|)
    ensures j in EndsAll(r, s, i, from) <==> exists m :: i <= m <= j && m in from && j in Ends(r, s, m)
    decreases |from|
  {
    if from == [] {
    } else {
      EndsAllIff(r, s, i, from[1..], j);
      assert forall m: nat :: m in from <==> m == from[0] || m in from[1..];
      assert j in Ends(r, s, from[0]) ==> from[0] <= j && from[0] in from;
    }
  }

  lemma {:induction false} MoreEndsIff(r: Re, s: string, i: nat, from: seq<nat>, j: nat)
    requires r.Rep? && i <= j <= |s| && Within(from, i, |s|)
    ensures j in MoreEnds(r, s, i, from) <==> exists m :: i < m <= j && m in from && j in Ends(Rest(r), s, m)
    decreases |from|
  {
    if from == [] {
    } else {
      MoreEndsIff(r, s, i, from[1..], j);
      assert forall m: nat :: m in from <==> m == from[0] || m in from[1..];
      assert j in Ends(Rest(r), s, from[0]) ==> from[0] <= j && from[0] in from;
    }
  }

  /** The matcher finds exactly the matches. */
  lemma {:induction false} EndsAreMatches(r: Re, s: string, i: nat, j: nat)
    requires i <= j <= |s|
    ensures j in Ends(r, s, i) <==> Matches(r, s, i, j)
    decreases |s| - i, r, 0
  {
    match r
    case Class(_) =>
    case Boundary =>
    case Opt(a) => EndsAreMatches(a, s, i, j);
    case Cat(a, b) =>
      EndsAllIff(b, s, i, Ends(a, s, i), j);
      forall m | i <= m <= j ensures m in Ends(a, s, i) <==> Matches(a, s, i, m) {
        EndsAreMatches(a, s, i, m);
      }
      forall m | i <= m <= j ensures j in Ends(b, s, m) <==> Matches(b, s, m, j) {
        EndsAreMatches(b, s, m, j);
      }
    case Rep(a, lo, hi) =>
      MoreEndsIff(r, s, i, Ends(a, s, i), j);
      forall m | i <= m <= j ensures m in Ends(a, s, i) <==> Matches(a, s, i, m) {
        EndsAreMatches(a, s, i, m);
      }
      forall m | i < m <= j ensures j in Ends(Rest(r), s, m) <==> Matches(Rest(r), s, m, j) {
        EndsAreMatches(Rest(r), s, m, j);
      }
  }

  // ---- What a match can depend on ------------------------------------------------------

  predicate NoBoundary(r: Re)
  {
    match r
    case Class(_) => true
    case Boundary => false
    case Cat(a, b) => NoBoundary(a) && NoBoundary(b)
    case Opt(a) => NoBoundary(a)
    case Rep(a, _, _) => NoBoundary(a)
  }

  /** Positions i..j of s and the positions `off` further in t hold the same characters
      and, where r can tell, the same boundaries. */
  ghost predicate SameWindow(r: Re, s: string, i: nat, j: nat, t: string, off: int)
  {
    && i <= j <= |s| && 0 <= i + off && j + off <= |t|
    && (forall x :: i <= x < j ==> s[x] == t[x + off])
    && (NoBoundary(r) || forall x :: i <= x <= j ==> AtBoundary(s, x) == AtBoundary(t, x + off))
  }

  /** A match depends only on its own characters and the boundaries inside it. */
  lemma {:induction false} MatchMoves(r: Re, s: string, i: nat, j: nat, t: string, off: int)
    requires SameWindow(r, s, i, j, t, off) && Matches(r, s, i, j)
    ensures Matches(r, t, i + off, j + off)
    decreases j - i, r
  {
    match r
    case Class(_) => assert s[i] == t[i + off];
    case Boundary => assert AtBoundary(s, i) == AtBoundary(t, i + off);
    case Opt(a) =>
      if i < j {
        MatchMoves(a, s, i, j, t, off);
      }
    case Cat(a, b) =>
      var m :| i <= m <= j && Matches(a, s, i, m) && Matches(b, s, m, j);
      MatchMoves(a, s, i, m, t, off);
      MatchMoves(b, s, m, j, t, off);
      assert Matches(a, t, i + off, m + off) && Matches(b, t, m + off, j + off);
    case Rep(a, lo, hi) =>
      if !(lo == 0 && i == j) {
        var m :| i < m <= j && Matches(a, s, i, m) && Matches(Rest(r), s, m, j);
        MatchMoves(a, s, i, m, t, off);
        MatchMoves(Rest(r), s, m, j, t, off);
        assert Matches(a, t, i + off, m + off) && Matches(Rest(r), t, m + off, j + off);
      }
  }

  /** Every character a match of r consumes satisfies `ok`. */
  ghost predicate Over(r: Re, ok: char -> bool)
  {
    match r
    case Class(p) => forall c: char :: p(c) ==> ok(c)
    case Boundary => true
    case Cat(a, b) => Over(a, ok) && Over(b, ok)
    case Opt(a) => Over(a, ok)
    case Rep(a, _, _) => Over(a, ok)
  }

  lemma {:induction false} OverMatch(r: Re, ok: char -> bool, s: string, i: nat, j: nat)
    requires i <= j <= |s| && Over(r, ok) && Matches(r, s, i, j)
    ensures forall k :: i <= k < j ==> ok(s[k])
    decreases j - i, r
  {
    match r
    case Class(_) =>
    case Boundary =>
    case Opt(a) =>
      if i < j {
        OverMatch(a, ok, s, i, j);
      }
    case Cat(a, b) =>
      var m :| i <= m <= j && Matches(a, s, i, m) && Matches(b, s, m, j);
      OverMatch(a, ok, s, i, m);
      OverMatch(b, ok, s, m, j);
    case Rep(a, lo, hi) =>
      if i < j {
        var m :| i < m <= j && Matches(a, s, i, m) && Matches(Rest(r), s, m, j);
        OverMatch(a, ok, s, i, m);
        OverMatch(Rest(r), ok, s, m, j);
      }
  }

  /** Every match of r has a character that satisfies `ok`. */
  ghost predicate Needs(r: Re, ok: char -> bool)
  {
    match r
    case Class(p) => forall c: char :: p(c) ==> ok(c)
    case Boundary => false
    case Cat(a, b) => Needs(a, ok) || Needs(b, ok)
    case Opt(_) => false
    case Rep(a, lo, _) => 0 < lo && Needs(a, ok)
  }

  lemma {:induction false} NeedsMatch(r: Re, ok: char -> bool, s: string, i: nat, j: nat)
    requires i <= j <= |s| && Needs(r, ok) && Matches(r, s, i, j)
    ensures exists k :: i <= k < j && ok(s[k])
    decreases r
  {
    match r
    case Class(_) => assert ok(s[i]);
    case Cat(a, b) =>
      var m :| i <= m <= j && Matches(a, s, i, m) && Matches(b, s, m, j);
      if Needs(a, ok) {
        NeedsMatch(a, ok, s, i, m);
      } else {
        NeedsMatch(b, ok, s, m, j);
      }
    case Rep(a, lo, hi) =>
      var m :| i < m <= j && Matches(a, s, i, m) && Matches(Rest(r), s, m, j);
      NeedsMatch(a, ok, s, i, m);
  }

  /** Every match of r consumes some character. */
  predicate Consumes(r: Re)
  {
    match r
    case Class(_) => true
    case Boundary => false
    case Cat(a, b) => Consumes(a) || Consumes(b)
    case Opt(_) => false
    case Rep(a, lo, _) => 0 < lo
  }

  lemma {:induction false} ConsumesMatch(r: Re, s: string, i: nat, j: nat)
    requires i <= j <= |s| && Consumes(r) && Matches(r, s, i, j)
    ensures i < j
    decreases r
  {
    if r.Cat? {
      var m :| i <= m <= j && Matches(r.first, s, i, m) && Matches(r.second, s, m, j);
      if Consumes(r.first) {
        ConsumesMatch(r.first, s, i, m);
      } else {
        ConsumesMatch(r.second, s, m, j);
      }
    }
  }

  predicate StartsAtBoundary(r: Re)
  {
    r.Boundary? || (r.Cat? && StartsAtBoundary(r.first))
  }

  predicate EndsAtBoundary(r: Re)
  {
    r.Boundary? || (r.Cat? && EndsAtBoundary(r.second))
  }

  lemma {:induction false} StartIsBoundary(r: Re, s: string, i: nat, j: nat)
    requires i <= j <= |s| && StartsAtBoundary(r) && Matches(r, s, i, j)
    ensures AtBoundary(s, i)
    decreases r
  {
    if r.Boundary? {
    } else {
      var m :| i <= m <= j && Matches(r.first, s, i, m) && Matches(r.second, s, m, j);
      StartIsBoundary(r.first, s, i, m);
    }
  }

  lemma {:induction false} EndIsBoundary(r: Re, s: string, i: nat, j: nat)
    requires i <= j <= |s| && EndsAtBoundary(r) && Matches(r, s, i, j)
    ensures AtBoundary(s, j)
    decreases r
  {
    if r.Boundary? {
    } else {
      var m :| i <= m <= j && Matches(r.first, s, i, m) && Matches(r.second, s, m, j);
      EndIsBoundary(r.second, s, m, j);
    }
  }
}
