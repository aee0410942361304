/** What the three PII patterns match, and what redaction leaves, without reference to
    regular expressions. */
module Patterns {
  import opened Options
  import opened Regex
  import opened Replace
  import opened Guardrail

  ghost predicate All(p: char -> bool, s: string, i: nat, j: nat)
    requires i <= j <= |s|
  {
    forall k :: i <= k < j ==> p(s[k])
  }

  lemma {:induction false} RepClass(p: char -> bool, lo: nat, hi: Option<nat>, s: string, i: nat, j: nat)
    requires i <= j <= |s| && (hi.Some? ==> lo <= hi.value)
    ensures Matches(Rep(Class(p), lo, hi), s, i, j)
       <==> lo <= j - i && (hi.Some? ==> j - i <= hi.value) && All(p, s, i, j)
    decreases j - i
  {
    var r := Rep(Class(p), lo, hi);
    if i == j {
    } else {
      if hi != Some(0) {
        RepClass(p, Rest(r).lo, Rest(r).hi, s, i + 1, j);
        assert Matches(Class(p), s, i, i + 1) <==> p(s[i]);
        assert All(p, s, i, j) <==> p(s[i]) && All(p, s, i + 1, j);
      }
    }
  }

  lemma CatSplit(a: Re, b: Re, s: string, i: nat, j: nat) returns (m: nat)
    requires i <= j <= |s| && Matches(Cat(a, b), s, i, j)
    ensures i <= m <= j && Matches(a, s, i, m) && Matches(b, s, m, j)
  {
    m :| i <= m <= j && Matches(a, s, i, m) && Matches(b, s, m, j);
  }

  lemma CatJoin(a: Re, b: Re, s: string, i: nat, m: nat, j: nat)
    requires i <= m <= j <= |s| && Matches(a, s, i, m) && Matches(b, s, m, j)
    ensures Matches(Cat(a, b), s, i, j)
  {
  }

  lemma RepSplit(r: Re, s: string, i: nat, j: nat) returns (m: nat)
    requires r.Rep? && i < j <= |s| && Matches(r, s, i, j)
    ensures r.hi != Some(0) && i < m <= j && Matches(r.body, s, i, m) && Matches(Rest(r), s, m, j)
  {
    m :| i < m <= j && Matches(r.body, s, i, m) && Matches(Rest(r), s, m, j);
  }

  lemma RepJoin(r: Re, s: string, i: nat, m: nat, j: nat)
    requires r.Rep? && r.hi != Some(0) && i < m <= j <= |s| && Matches(r.body, s, i, m) && Matches(Rest(r), s, m, j)
    ensures Matches(r, s, i, j)
  {
  }

  ghost predicate EmailAt(s: string, i: nat, at: nat, dot: nat, j: nat)
    requires i <= at < dot < j <= |s|
  {
    && All(IsLocal, s, i, at) && s[at] == '@'
    && All(IsDomain, s, at + 1, dot) && s[dot] == '.'
    && All(IsAlpha, s, dot + 1, j)
  }

  /** local '@' domain '.' tld, with the tld at least two letters. */
  ghost predicate IsEmail(s: string, i: nat, j: nat)
    requires i <= j <= |s|
  {
    exists at: nat, dot: nat :: i < at && at + 1 < dot && dot + 3 <= j && EmailAt(s, i, at, dot, j)
  }

  lemma EmailMatchIsEmail(s: string, i: nat, j: nat)
    requires i <= j <= |s| && Matches(Email(), s, i, j)
    ensures IsEmail(s, i, j)
  {
    var tld := Rep(Class(IsAlpha), 2, None);
    var top := Cat(Class(IsDot), tld);
    var name := Rep(Class(IsDomain), 1, None);
    var domain := Cat(name, top);
    var local := Rep(Class(IsLocal), 1, None);
    var a := CatSplit(local, Cat(Class(IsAt), domain), s, i, j);
    var b := CatSplit(Class(IsAt), domain, s, a, j);
    var d := CatSplit(name, top, s, b, j);
    var e := CatSplit(Class(IsDot), tld, s, d, j);
    RepClass(IsLocal, 1, None, s, i, a);
    RepClass(IsDomain, 1, None, s, b, d);
    RepClass(IsAlpha, 2, None, s, e, j);
    assert EmailAt(s, i, a, d, j);
  }

  lemma EmailIsMatched(s: string, i: nat, a: nat, d: nat, j: nat)
    requires i < a && a + 1 < d && d + 3 <= j <= |s| && EmailAt(s, i, a, d, j)
    ensures Matches(Email(), s, i, j)
  {
    var tld := Rep(Class(IsAlpha), 2, None);
    var top := Cat(Class(IsDot), tld);
    var name := Rep(Class(IsDomain), 1, None);
    var domain := Cat(name, top);
    RepClass(IsLocal, 1, None, s, i, a);
    RepClass(IsDomain, 1, None, s, a + 1, d);
    RepClass(IsAlpha, 2, None, s, d + 1, j);
    CatJoin(Class(IsDot), tld, s, d, d + 1, j);
    CatJoin(name, top, s, a + 1, d, j);
    CatJoin(Class(IsAt), domain, s, a, a + 1, j);
    CatJoin(Rep(Class(IsLocal), 1, None), Cat(Class(IsAt), domain), s, i, a, j);
  }

  lemma EmailMatches(s: string, i: nat, j: nat)
    requires i <= j <= |s|
    ensures Matches(Email(), s, i, j) <==> IsEmail(s, i, j)
  {
    if Matches(Email(), s, i, j) {
      EmailMatchIsEmail(s, i, j);
    }
    if IsEmail(s, i, j) {
      var a: nat, d: nat :| i < a && a + 1 < d && d + 3 <= j && EmailAt(s, i, a, d, j);
      EmailIsMatched(s, i, a, d, j);
    }
  }

  /** How many digits stand in s[i..j]. */
  function Digits(s: string, i: nat, j: nat): nat
    requires i <= j <= |s|
    decreases j - i
  {
    if i == j then 0 else (if IsDigit(s[i]) then 1 else 0) + Digits(s, i + 1, j)
  }

  predicate GroupedAt(s: string, i: nat, k: nat)
    requires i <= k < |s|
  {
    IsDigit(s[k]) || (IsCardGap(s[k]) && i < k && IsDigit(s[k - 1]))
  }

  /** Digits, each followed by at most one blank or hyphen. */
  ghost predicate Grouped(s: string, i: nat, j: nat)
    requires i <= j <= |s|
  {
    forall k :: i <= k < j ==> GroupedAt(s, i, k)
  }

  lemma {:induction false} NoDigits(s: string, i: nat, j: nat)
    requires i < j <= |s| && Grouped(s, i, j)
    ensures 0 < Digits(s, i, j)
  {
    assert GroupedAt(s, i, i);
  }

  ghost function Group(): Re
  {
    Cat(Class(IsDigit), Opt(Class(IsCardGap)))
  }

  lemma GroupIff(s: string, i: nat, m: nat)
    requires i <= m <= |s|
    ensures Matches(Group(), s, i, m)
       <==> i < m && IsDigit(s[i]) && (m == i + 1 || (m == i + 2 && IsCardGap(s[i + 1])))
  {
    var digit, gap := Class(IsDigit), Opt(Class(IsCardGap));
    if Matches(Group(), s, i, m) {
      var k := CatSplit(digit, gap, s, i, m);
    }
    if i < m && IsDigit(s[i]) && (m == i + 1 || (m == i + 2 && IsCardGap(s[i + 1]))) {
      assert Matches(Class(IsCardGap), s, i + 1, m) || i + 1 == m;
      CatJoin(digit, gap, s, i, i + 1, m);
    }
  }

  lemma {:induction false} GroupsMatch(lo: nat, hi: nat, s: string, i: nat, j: nat)
    requires i <= j <= |s| && lo <= hi
    ensures Matches(Rep(Group(), lo, Some(hi)), s, i, j) <==> lo <= Digits(s, i, j) <= hi && Grouped(s, i, j)
    decreases j - i
  {
    var r := Rep(Group(), lo, Some(hi));
    if i < j && Matches(r, s, i, j) {
      var m := RepSplit(r, s, i, j);
      GroupIff(s, i, m);
      GroupsMatch(Fewer(lo), Fewer(hi), s, m, j);
      assert Digits(s, i + 1, j) == Digits(s, m, j);
      forall k | i <= k < j ensures GroupedAt(s, i, k) {
        assert m <= k ==> GroupedAt(s, m, k);
      }
    }
    if i < j && lo <= Digits(s, i, j) <= hi && Grouped(s, i, j) {
      NoDigits(s, i, j);
      assert GroupedAt(s, i, i);
      var m := if i + 2 <= j && IsCardGap(s[i + 1]) then i + 2 else i + 1;
      assert Digits(s, i + 1, j) == Digits(s, m, j);
      GroupIff(s, i, m);
      forall k | m <= k < j ensures GroupedAt(s, m, k) {
        assert GroupedAt(s, i, k);
      }
      GroupsMatch(Fewer(lo), Fewer(hi), s, m, j);
      RepJoin(r, s, i, m, j);
    }
  }

  /** 13 to 16 digits in such groups, between word boundaries. */
  ghost predicate IsCard(s: string, i: nat, j: nat)
    requires i <= j <= |s|
  {
    13 <= Digits(s, i, j) <= 16 && Grouped(s, i, j) && AtBoundary(s, i) && AtBoundary(s, j)
  }

  lemma CardMatches(s: string, i: nat, j: nat)
    requires i <= j <= |s|
    ensures Matches(Card(), s, i, j) <==> IsCard(s, i, j)
  {
    GroupsMatch(13, 16, s, i, j);
    var groups := Rep(Group(), 13, Some(16));
    if Matches(Card(), s, i, j) {
      var m := CatSplit(Boundary, Cat(groups, Boundary), s, i, j);
      var k := CatSplit(groups, Boundary, s, m, j);
    }
    if Matches(groups, s, i, j) && AtBoundary(s, i) && AtBoundary(s, j) {
      CatJoin(groups, Boundary, s, i, j, j);
      CatJoin(Boundary, Cat(groups, Boundary), s, i, i, j);
    }
  }

  /** Gaps of a and b characters. */
  ghost predicate PhoneAt(s: string, i: nat, a: nat, b: nat)
    requires a <= 1 && b <= 1 && i + 10 + a + b <= |s|
  {
    var k := i + 3 + a;
    var l := k + 3 + b;
    && All(IsDigit, s, i, i + 3) && All(IsPhoneGap, s, i + 3, k)
    && All(IsDigit, s, k, k + 3) && All(IsPhoneGap, s, k + 3, l)
    && All(IsDigit, s, l, l + 4)
  }

  /** Three, three and four digits, each group of three followed by at most one gap, between
      word boundaries. */
  ghost predicate IsPhone(s: string, i: nat, j: nat)
    requires i <= j <= |s|
  {
    && AtBoundary(s, i) && AtBoundary(s, j)
    && exists a: nat, b: nat :: a <= 1 && b <= 1 && i + 10 + a + b == j && PhoneAt(s, i, a, b)
  }

  lemma OptClassIff(p: char -> bool, s: string, i: nat, j: nat)
    requires i <= j <= |s|
    ensures Matches(Opt(Class(p)), s, i, j) <==> j <= i + 1 && All(p, s, i, j)
  {
    assert Matches(Class(p), s, i, j) <==> j == i + 1 && p(s[i]);
  }

  lemma PhoneMatchIsPhone(s: string, i: nat, j: nat)
    requires i <= j <= |s| && Matches(Phone(), s, i, j)
    ensures IsPhone(s, i, j)
  {
    var digit, gap := Class(IsDigit), Opt(Class(IsPhoneGap));
    var three, four := Times(digit, 3), Times(digit, 4);
    var r4 := Cat(four, Boundary);
    var r3 := Cat(gap, r4);
    var r2 := Cat(three, r3);
    var r1 := Cat(gap, r2);
    var z := CatSplit(Boundary, Cat(three, r1), s, i, j);
    var a := CatSplit(three, r1, s, z, j);
    var b := CatSplit(gap, r2, s, a, j);
    var c := CatSplit(three, r3, s, b, j);
    var d := CatSplit(gap, r4, s, c, j);
    var e := CatSplit(four, Boundary, s, d, j);
    RepClass(IsDigit, 3, Some(3), s, z, a);
    OptClassIff(IsPhoneGap, s, a, b);
    RepClass(IsDigit, 3, Some(3), s, b, c);
    OptClassIff(IsPhoneGap, s, c, d);
    RepClass(IsDigit, 4, Some(4), s, d, e);
    assert PhoneAt(s, i, b - a, d - c);
  }

  lemma PhoneIsMatched(s: string, i: nat, a: nat, b: nat)
    requires a <= 1 && b <= 1 && i + 10 + a + b <= |s| && PhoneAt(s, i, a, b)
    requires AtBoundary(s, i) && AtBoundary(s, i + 10 + a + b)
    ensures Matches(Phone(), s, i, i + 10 + a + b)
  {
    var digit, gap := Class(IsDigit), Opt(Class(IsPhoneGap));
    var three, four := Times(digit, 3), Times(digit, 4);
    var r4 := Cat(four, Boundary);
    var r3 := Cat(gap, r4);
    var r2 := Cat(three, r3);
    var r1 := Cat(gap, r2);
    var j := i + 10 + a + b;
    var k := i + 3 + a;
    var l := k + 3 + b;
    RepClass(IsDigit, 3, Some(3), s, i, i + 3);
    OptClassIff(IsPhoneGap, s, i + 3, k);
    RepClass(IsDigit, 3, Some(3), s, k, k + 3);
    OptClassIff(IsPhoneGap, s, k + 3, l);
    RepClass(IsDigit, 4, Some(4), s, l, j);
    CatJoin(four, Boundary, s, l, j, j);
    CatJoin(gap, r4, s, k + 3, l, j);
    CatJoin(three, r3, s, k, k + 3, j);
    CatJoin(gap, r2, s, i + 3, k, j);
    CatJoin(three, r1, s, i, i + 3, j);
    CatJoin(Boundary, Cat(three, r1), s, i, i, j);
  }

  lemma PhoneMatches(s: string, i: nat, j: nat)
    requires i <= j <= |s|
    ensures Matches(Phone(), s, i, j) <==> IsPhone(s, i, j)
  {
    if Matches(Phone(), s, i, j) {
      PhoneMatchIsPhone(s, i, j);
    }
    if IsPhone(s, i, j) {
      var a: nat, b: nat :| a <= 1 && b <= 1 && i + 10 + a + b == j && PhoneAt(s, i, a, b);
      PhoneIsMatched(s, i, a, b);
    }
  }

  ghost predicate IsPii(s: string, i: nat, j: nat)
    requires i <= j <= |s|
  {
    IsEmail(s, i, j) || IsCard(s, i, j) || IsPhone(s, i, j)
  }

  /** The redacted text contains no email address, card number or phone number. */
  lemma RedactedTextHasNoPii(s: string, i: nat, j: nat)
    requires i <= j <= |Redact(s)|
    ensures !IsPii(Redact(s), i, j)
  {
    RedactionIsComplete(s);
    EmailMatches(Redact(s), i, j);
    CardMatches(Redact(s), i, j);
    PhoneMatches(Redact(s), i, j);
  }

  lemma PatternIff(s: string, i: nat, j: nat)
    requires i <= j <= |s|
    ensures IsPii(s, i, j) <==> exists k: nat :: k < 3 && Matches(Pattern(k), s, i, j)
  {
    EmailMatches(s, i, j);
    CardMatches(s, i, j);
    PhoneMatches(s, i, j);
    assert Pattern(0) == Email() && Pattern(1) == Card() && Pattern(2) == Phone();
  }

  /** A text is touched exactly if it contains one of the three. */
  lemma RedactedIffPii(s: string)
    ensures HasPii(s) <==> exists i, j :: 0 <= i <= j <= |s| && IsPii(s, i, j)
    ensures !HasPii(s) ==> Redact(s) == s
  {
    FoundNothing(3, s);
    if HasPii(s) {
      var k: nat :| k < 3 && Occurs(Pattern(k), s);
      OccursIffNotClean(Pattern(k), s);
      var i, j :| 0 <= i <= j <= |s| && Matches(Pattern(k), s, i, j);
      PatternIff(s, i, j);
    }
    if i, j :| 0 <= i <= j <= |s| && IsPii(s, i, j) {
      PatternIff(s, i, j);
      var k: nat :| k < 3 && Matches(Pattern(k), s, i, j);
      OccursIffNotClean(Pattern(k), s);
    }
  }

  /** The classes of the patterns, and the word characters a boundary separates from others,
      character by character. */
  lemma ClassesAre(c: char)
    ensures IsLocal(c) <==> 'a' <= c <= 'z' || 'A' <= c <= 'Z' || '0' <= c <= '9' || c in "._%+-"
    ensures IsDomain(c) <==> 'a' <= c <= 'z' || 'A' <= c <= 'Z' || '0' <= c <= '9' || c == '.' || c == '-'
    ensures IsCardGap(c) <==> c == ' ' || c == '-'
    ensures IsPhoneGap(c) <==> c == '-' || c == '.' || c in " \t\n\r\U{000C}"
    ensures IsAt(c) <==> c == '@'
    ensures IsDot(c) <==> c == '.'
  {
  }

  predicate WordChar(c: char)
  {
    'a' <= c <= 'z' || 'A' <= c <= 'Z' || '0' <= c <= '9' || c == '_'
  }

  /** A boundary lies where one side is a letter, digit or underscore and the other is not, or
      is no character at all. */
  lemma BoundariesAre(s: string, i: nat, left: bool, right: bool)
    requires i <= |s|
    requires left <==> 0 < i && WordChar(s[i - 1])
    requires right <==> i < |s| && WordChar(s[i])
    ensures AtBoundary(s, i) <==> (left && !right) || (right && !left)
  {
  }
}
