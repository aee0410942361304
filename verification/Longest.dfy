/** On the guardrail's patterns the matcher's preference is the longest match: what is cut
    out of a text does not depend on the order in which a backtracking search tries things. */
module Longest {
  import opened Options
  import opened Regex
  import opened Replace
  import opened Guardrail
  import opened Patterns

  ghost predicate Falling(es: seq<nat>)
  {
    forall a, b :: 0 <= a < b < |es| ==> es[b] < es[a]
  }

  /** Continuations from later positions end later. */
  ghost predicate Apart(r: Re, s: string, m: nat, n: nat)
    requires n < m <= |s|
  {
    forall d, e :: d in Ends(r, s, m) && e in Ends(r, s, n) ==> e < d
  }

  lemma EndsAllMember(r: Re, s: string, i: nat, from: seq<nat>, e: nat)
    requires i <= |s| && Within(from, i, |s|) && e in EndsAll(r, s, i, from)
    ensures e <= |s| && exists m :: m in from && i <= m <= |s| && e in Ends(r, s, m)
  {
    EndsAllIff(r, s, i, from, e);
  }

  lemma FallingConcat(a: seq<nat>, b: seq<nat>)
    requires Falling(a) && Falling(b) && forall d, e :: d in a && e in b ==> e < d
    ensures Falling(a + b)
  {
    forall x, y | 0 <= x < y < |a + b| ensures (a + b)[y] < (a + b)[x] {
      if x < |a| && |a| <= y {
        assert a[x] in a && b[y - |a|] in b;
      }
    }
  }

  lemma {:induction false} EndsAllFalls(r: Re, s: string, i: nat, from: seq<nat>)
    requires i <= |s| && Within(from, i, |s|) && Falling(from)
    requires forall m :: m in from && i <= m <= |s| ==> Falling(Ends(r, s, m))
    requires forall m, n :: m in from && n in from && n < m <= |s| ==> Apart(r, s, m, n)
    ensures Falling(EndsAll(r, s, i, from))
    decreases |from|
  {
    if from == [] {
    } else {
      var m, rest := from[0], from[1..];
      assert m in from && forall n :: n in rest ==> n in from;
      assert forall k :: 0 <= k < |rest| ==> rest[k] == from[k + 1];
      EndsAllFalls(r, s, i, rest);
      forall d, e | d in Ends(r, s, m) && e in EndsAll(r, s, i, rest) ensures e < d {
        EndsAllMember(r, s, i, rest, e);
        var n :| n in rest && i <= n <= |s| && e in Ends(r, s, n);
        var k :| 0 <= k < |rest| && rest[k] == n;
        assert from[k + 1] < from[0];
        assert Apart(r, s, m, n);
      }
      FallingConcat(Ends(r, s, m), EndsAll(r, s, i, rest));
    }
  }

  /** A concatenation falls if its parts do and continuations stay apart. */
  lemma CatFalls(a: Re, b: Re, s: string, i: nat)
    requires i <= |s| && Falling(Ends(a, s, i))
    requires forall m :: i <= m <= |s| ==> Falling(Ends(b, s, m))
    requires forall m, n :: i <= n < m <= |s| && Matches(a, s, i, m) && Matches(a, s, i, n) ==> Apart(b, s, m, n)
    ensures Falling(Ends(Cat(a, b), s, i))
  {
    var from := Ends(a, s, i);
    forall m, n | m in from && n in from && n < m <= |s| ensures Apart(b, s, m, n) {
      EndsAreMatches(a, s, i, m);
      var k :| 0 <= k < |from| && from[k] == n;
      EndsAreMatches(a, s, i, n);
    }
    EndsAllFalls(b, s, i, from);
  }

  lemma {:induction false} RepClassFalls(p: char -> bool, lo: nat, hi: Option<nat>, s: string, i: nat)
    requires i <= |s|
    ensures Falling(Ends(Rep(Class(p), lo, hi), s, i))
    decreases |s| - i
  {
    var r := Rep(Class(p), lo, hi);
    if i < |s| && p(s[i]) && hi != Some(0) {
      RepClassFalls(p, Rest(r).lo, Rest(r).hi, s, i + 1);
      var more := Ends(Rest(r), s, i + 1);
      assert Ends(Class(p), s, i) == [i + 1] && [i + 1][1..] == [];
      assert MoreEnds(r, s, i, [i + 1]) == more + [] == more;
      assert forall d :: d in more ==> i < d by {
        assert Within(more, i + 1, |s|);
      }
      FallingConcat(more, if lo == 0 then [i] else []);
    } else {
      assert MoreEnds(r, s, i, []) == [];
    }
  }

  lemma BoundaryFalls(a: Re, s: string, i: nat)
    requires i <= |s| && Falling(Ends(a, s, i))
    ensures Falling(Ends(Cat(a, Boundary), s, i))
  {
    CatFalls(a, Boundary, s, i);
  }

  lemma AfterBoundaryFalls(b: Re, s: string, i: nat)
    requires i <= |s| && forall m :: i <= m <= |s| ==> Falling(Ends(b, s, m))
    ensures Falling(Ends(Cat(Boundary, b), s, i))
  {
    CatFalls(Boundary, b, s, i);
  }

  // ---- Card numbers -------------------------------------------------------------------

  lemma GroupEnds(s: string, i: nat)
    requires i <= |s|
    ensures Ends(Group(), s, i) ==
            if i == |s| || !IsDigit(s[i]) then []
            else if i + 1 < |s| && IsCardGap(s[i + 1]) then [i + 2, i + 1]
            else [i + 1]
  {
    var digit, gap := Class(IsDigit), Opt(Class(IsCardGap));
    assert Ends(Group(), s, i) == EndsAll(gap, s, i, Ends(digit, s, i));
    if i < |s| && IsDigit(s[i]) {
      assert Ends(digit, s, i) == [i + 1] && [i + 1][1..] == [];
      assert Ends(gap, s, i + 1) == Ends(Class(IsCardGap), s, i + 1) + [i + 1];
      assert EndsAll(gap, s, i, [i + 1]) == Ends(gap, s, i + 1) + EndsAll(gap, s, i, []);
    }
  }

  lemma OneContinuation(r: Re, s: string, i: nat)
    requires r.Rep? && i + 1 <= |s|
    ensures MoreEnds(r, s, i, [i + 1]) == Ends(Rest(r), s, i + 1)
  {
    assert [i + 1][1..] == [];
    assert MoreEnds(r, s, i, [i + 1]) == Ends(Rest(r), s, i + 1) + MoreEnds(r, s, i, []);
  }

  /** Both continuations of a group that can be followed by a gap. */
  lemma TwoContinuations(r: Re, s: string, i: nat)
    requires r.Rep? && i + 2 <= |s|
    ensures MoreEnds(r, s, i, [i + 2, i + 1]) == Ends(Rest(r), s, i + 2) + Ends(Rest(r), s, i + 1)
  {
    assert [i + 2, i + 1][1..] == [i + 1];
    OneContinuation(r, s, i);
  }

  lemma AppendStart(more: seq<nat>, lo: nat, i: nat, n: nat)
    requires Falling(more) && Within(more, i + 1, n)
    ensures Falling(more + if lo == 0 then [i] else [])
  {
    FallingConcat(more, if lo == 0 then [i] else []);
  }

  lemma {:induction false} GroupsFall(lo: nat, hi: nat, s: string, i: nat)
    requires i <= |s| && lo <= hi
    ensures Falling(Ends(Rep(Group(), lo, Some(hi)), s, i))
    decreases |s| - i, 1
  {
    var r := Rep(Group(), lo, Some(hi));
    if hi != 0 {
      MoreGroupsFall(lo, hi, s, i);
      AppendStart(MoreEnds(r, s, i, Ends(Group(), s, i)), lo, i, |s|);
    }
  }

  lemma WithinConcat(a: seq<nat>, b: seq<nat>, lo: nat, hi: nat)
    requires Within(a, lo, hi) && Within(b, lo, hi)
    ensures Within(a + b, lo, hi)
  {
  }

  lemma FirstIsDigit(s: string, i: nat, e: nat)
    requires i < e <= |s| && Grouped(s, i, e)
    ensures IsDigit(s[i])
  {
    assert GroupedAt(s, i, i);
  }

  lemma EndIsMatch(r: Re, s: string, i: nat, e: nat)
    requires i <= |s| && e in Ends(r, s, i)
    ensures i <= e <= |s| && Matches(r, s, i, e)
  {
    assert Within(Ends(r, s, i), i, |s|);
    EndsAreMatches(r, s, i, e);
  }

  lemma OnlyEmptyAtGap(lo: nat, hi: nat, s: string, i: nat, e: nat)
    requires i < |s| && lo <= hi && IsCardGap(s[i]) && e in Ends(Rep(Group(), lo, Some(hi)), s, i)
    ensures e == i
  {
    EndIsMatch(Rep(Group(), lo, Some(hi)), s, i, e);
    GroupsMatch(lo, hi, s, i, e);
    if i < e {
      FirstIsDigit(s, i, e);
    }
  }

  lemma TwoGroupsApart(lo: nat, hi: nat, s: string, i: nat, d: nat, e: nat)
    requires lo <= hi && i + 2 <= |s| && IsCardGap(s[i + 1])
    requires d in Ends(Rep(Group(), lo, Some(hi)), s, i + 2) && e in Ends(Rep(Group(), lo, Some(hi)), s, i + 1)
    ensures e < d
  {
    EndIsMatch(Rep(Group(), lo, Some(hi)), s, i + 2, d);
    OnlyEmptyAtGap(lo, hi, s, i + 1, e);
  }

  lemma TwoGroupsFall(lo: nat, hi: nat, s: string, i: nat)
    requires lo <= hi && i + 2 <= |s| && IsCardGap(s[i + 1])
    requires Falling(Ends(Rep(Group(), lo, Some(hi)), s, i + 1)) && Falling(Ends(Rep(Group(), lo, Some(hi)), s, i + 2))
    ensures var r := Rep(Group(), lo, Some(hi));
            Falling(Ends(r, s, i + 2) + Ends(r, s, i + 1)) && Within(Ends(r, s, i + 2) + Ends(r, s, i + 1), i + 1, |s|)
  {
    var r := Rep(Group(), lo, Some(hi));
    var two, one := Ends(r, s, i + 2), Ends(r, s, i + 1);
    forall d, e | d in two && e in one ensures e < d {
      TwoGroupsApart(lo, hi, s, i, d, e);
    }
    FallingConcat(two, one);
    WithinConcat(two, one, i + 1, |s|);
  }

  lemma {:induction false} MoreGroupsFall(lo: nat, hi: nat, s: string, i: nat)
    requires i <= |s| && lo <= hi && hi != 0
    ensures var more := MoreEnds(Rep(Group(), lo, Some(hi)), s, i, Ends(Group(), s, i));
            Falling(more) && Within(more, i + 1, |s|)
    decreases |s| - i, 0
  {
    var r := Rep(Group(), lo, Some(hi));
    var from := Ends(Group(), s, i);
    GroupEnds(s, i);
    if from == [] {
    } else {
      GroupsFall(Fewer(lo), Fewer(hi), s, i + 1);
      if |from| == 1 {
        OneContinuation(r, s, i);
      } else {
        GroupsFall(Fewer(lo), Fewer(hi), s, i + 2);
        TwoContinuations(r, s, i);
        TwoGroupsFall(Fewer(lo), Fewer(hi), s, i);
      }
    }
  }

  lemma CardFalls(s: string, i: nat)
    requires i <= |s|
    ensures Falling(Ends(Card(), s, i))
  {
    var groups := Rep(Group(), 13, Some(16));
    forall m | i <= m <= |s| ensures Falling(Ends(Cat(groups, Boundary), s, m)) {
      GroupsFall(13, 16, s, m);
      BoundaryFalls(groups, s, m);
    }
    AfterBoundaryFalls(Cat(groups, Boundary), s, i);
  }

  // ---- Phone numbers ------------------------------------------------------------------

  /** r matches nothing that does not start with a digit. */
  ghost predicate DigitFirst(r: Re, s: string)
  {
    forall i, j :: 0 <= i <= j <= |s| && Matches(r, s, i, j) ==> i < j && IsDigit(s[i])
  }

  lemma NoEndsWithoutDigit(b: Re, s: string, n: nat)
    requires n < |s| && !IsDigit(s[n]) && DigitFirst(b, s)
    ensures Ends(b, s, n) == []
  {
    if Ends(b, s, n) != [] {
      EndIsMatch(b, s, n, Ends(b, s, n)[0]);
    }
  }

  lemma GapFalls(p: char -> bool, b: Re, s: string, i: nat)
    requires i <= |s| && (forall c: char :: p(c) ==> !IsDigit(c)) && DigitFirst(b, s)
    requires forall m :: i <= m <= |s| ==> Falling(Ends(b, s, m))
    ensures Falling(Ends(Cat(Opt(Class(p)), b), s, i))
  {
    var gap := Opt(Class(p));
    forall m, n | i <= n < m <= |s| && Matches(gap, s, i, m) && Matches(gap, s, i, n) ensures Apart(b, s, m, n) {
      OptClassIff(p, s, i, m);
      assert n == i && p(s[i]);
      NoEndsWithoutDigit(b, s, n);
    }
    CatFalls(gap, b, s, i);
  }

  lemma TimesFalls(n: nat, b: Re, s: string, i: nat)
    requires i <= |s| && forall m :: i <= m <= |s| ==> Falling(Ends(b, s, m))
    ensures Falling(Ends(Cat(Times(Class(IsDigit), n), b), s, i))
  {
    var times := Times(Class(IsDigit), n);
    RepClassFalls(IsDigit, n, Some(n), s, i);
    forall m | i <= m <= |s| && Matches(times, s, i, m) ensures m == i + n {
      RepClass(IsDigit, n, Some(n), s, i, m);
    }
    CatFalls(times, b, s, i);
  }

  lemma TimesDigitFirst(n: nat, b: Re, s: string)
    requires 0 < n
    ensures DigitFirst(Cat(Times(Class(IsDigit), n), b), s)
  {
    forall i, j | 0 <= i <= j <= |s| && Matches(Cat(Times(Class(IsDigit), n), b), s, i, j)
      ensures i < j && IsDigit(s[i])
    {
      var m := CatSplit(Times(Class(IsDigit), n), b, s, i, j);
      RepClass(IsDigit, n, Some(n), s, i, m);
    }
  }

  lemma PhoneFalls(s: string, i: nat)
    requires i <= |s|
    ensures Falling(Ends(Phone(), s, i))
  {
    var digit, gap := Class(IsDigit), Opt(Class(IsPhoneGap));
    var r4 := Cat(Times(digit, 4), Boundary);
    var r3 := Cat(gap, r4);
    var r2 := Cat(Times(digit, 3), r3);
    var r1 := Cat(gap, r2);
    var r0 := Cat(Times(digit, 3), r1);
    TimesDigitFirst(4, Boundary, s);
    TimesDigitFirst(3, r3, s);
    forall m | 0 <= m <= |s| ensures Falling(Ends(r4, s, m)) { TimesFalls(4, Boundary, s, m); }
    forall m | 0 <= m <= |s| ensures Falling(Ends(r3, s, m)) { GapFalls(IsPhoneGap, r4, s, m); }
    forall m | 0 <= m <= |s| ensures Falling(Ends(r2, s, m)) { TimesFalls(3, r3, s, m); }
    forall m | 0 <= m <= |s| ensures Falling(Ends(r1, s, m)) { GapFalls(IsPhoneGap, r2, s, m); }
    forall m | 0 <= m <= |s| ensures Falling(Ends(r0, s, m)) { TimesFalls(3, r1, s, m); }
    AfterBoundaryFalls(r0, s, i);
  }

  // ---- Email addresses ----------------------------------------------------------------

  lemma TldFalls(s: string, i: nat)
    requires i <= |s|
    ensures Falling(Ends(Cat(Class(IsDot), Rep(Class(IsAlpha), 2, None)), s, i))
  {
    var dot, tld := Class(IsDot), Rep(Class(IsAlpha), 2, None);
    forall m | i <= m <= |s| ensures Falling(Ends(tld, s, m)) { RepClassFalls(IsAlpha, 2, None, s, m); }
    CatFalls(dot, tld, s, i);
  }

  lemma DomainFalls(s: string, i: nat)
    requires i <= |s|
    ensures var top := Cat(Class(IsDot), Rep(Class(IsAlpha), 2, None));
            Falling(Ends(Cat(Rep(Class(IsDomain), 1, None), top), s, i))
  {
    var name, tld := Rep(Class(IsDomain), 1, None), Rep(Class(IsAlpha), 2, None);
    var top := Cat(Class(IsDot), tld);
    RepClassFalls(IsDomain, 1, None, s, i);
    forall m | i <= m <= |s| ensures Falling(Ends(top, s, m)) { TldFalls(s, m); }
    forall m, n | i <= n < m <= |s| ensures Apart(top, s, m, n) {
      forall d, e | d in Ends(top, s, m) && e in Ends(top, s, n) ensures e < d {
        EndIsMatch(top, s, m, d);
        EndIsMatch(top, s, n, e);
        var a := CatSplit(Class(IsDot), tld, s, m, d);
        var b := CatSplit(Class(IsDot), tld, s, n, e);
        RepClass(IsAlpha, 2, None, s, a, d);
        RepClass(IsAlpha, 2, None, s, b, e);
        assert s[m] == '.';
      }
    }
    CatFalls(name, top, s, i);
  }

  lemma EmailFalls(s: string, i: nat)
    requires i <= |s|
    ensures Falling(Ends(Email(), s, i))
  {
    var local := Rep(Class(IsLocal), 1, None);
    var top := Cat(Class(IsDot), Rep(Class(IsAlpha), 2, None));
    var domain := Cat(Rep(Class(IsDomain), 1, None), top);
    var at := Cat(Class(IsAt), domain);
    RepClassFalls(IsLocal, 1, None, s, i);
    forall m | i <= m <= |s| ensures Falling(Ends(domain, s, m)) { DomainFalls(s, m); }
    forall m | i <= m <= |s| ensures Falling(Ends(at, s, m)) { CatFalls(Class(IsAt), domain, s, m); }
    forall m, n | i <= n < m <= |s| && Matches(local, s, i, m) && Matches(local, s, i, n) ensures Apart(at, s, m, n) {
      RepClass(IsLocal, 1, None, s, i, m);
      assert IsLocal(s[n]);
      assert Ends(Class(IsAt), s, n) == [];
      assert Ends(at, s, n) == [];
    }
    CatFalls(local, at, s, i);
  }

  /** ReplaceAll always cuts out the longest match at the leftmost position that has one. */
  lemma LeftmostLongest(k: nat, s: string, i: nat)
    requires k < 3 && i <= |s| && Find(Pattern(k), s, i).Some?
    ensures var m := Find(Pattern(k), s, i).value;
            && Matches(Pattern(k), s, m.start, m.end)
            && (forall p, e :: i <= p <= e <= |s| && Matches(Pattern(k), s, p, e) ==>
                  m.start <= p && (p == m.start ==> e <= m.end))
  {
    var m := Find(Pattern(k), s, i).value;
    var es := Ends(Pattern(k), s, m.start);
    EndIsMatch(Pattern(k), s, m.start, m.end);
    assert Falling(es) by {
      EmailFalls(s, m.start);
      CardFalls(s, m.start);
      PhoneFalls(s, m.start);
    }
    forall p, e | i <= p <= e <= |s| && Matches(Pattern(k), s, p, e)
      ensures m.start <= p && (p == m.start ==> e <= m.end)
    {
      EndsAreMatches(Pattern(k), s, p, e);
      if p == m.start {
        var x :| 0 <= x < |es| && es[x] == e;
      }
    }
  }

  lemma NoMatchAtEnd(r: Re, s: string)
    requires Consumes(r)
    ensures Find(r, s, |s|).None?
  {
    if Find(r, s, |s|).Some? {
      FoundIsNonEmpty(r, s, |s|);
    }
  }

  lemma MarkerIsClean(k: nat)
    requires k < 3
    ensures !Occurs(Pattern(k), "[REDACTED]")
  {
    PatternsDoNotInterfere(k);
    OccursIffNotClean(Pattern(k), "[REDACTED]");
    forall i, j | 0 <= i <= j <= 10 ensures !Matches(Pattern(k), "[REDACTED]", i, j) {
      if Matches(Pattern(k), "[REDACTED]", i, j) {
        assert "[REDACTED]"[0..0 + 10] == MARKER;
        MarkerIsUntouched(Pattern(k), "[REDACTED]", 0, i, j);
        ConsumesMatch(Pattern(k), "[REDACTED]", i, j);
      }
    }
  }

  /** A text that is an email address comes out as "[REDACTED]" and nothing else. */
  lemma EmailIsRedacted(s: string)
    requires IsEmail(s, 0, |s|)
    ensures Redact(s) == "[REDACTED]"
  {
    EmailMatches(s, 0, |s|);
    EndsAreMatches(Email(), s, 0, |s|);
    LeftmostLongest(0, s, 0);
    ThreePasses(s);
    NoMatchAtEnd(Email(), s);
    OneReplacement(Email(), s);
    assert s[..0] == [] && s[|s|..] == [] && [] + "[REDACTED]" + [] == "[REDACTED]";
    MarkerIsClean(1);
    MarkerIsClean(2);
    NothingToReplace(Card(), "[REDACTED]");
    NothingToReplace(Phone(), "[REDACTED]");
  }
}
