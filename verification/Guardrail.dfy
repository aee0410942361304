/** The three PII patterns, and what redacting a text with all of them in turn leaves. */
module Guardrail {
  import opened Options
  import opened Regex
  import opened Replace

  // ---- The patterns -------------------------------------------------------------------

  predicate IsLocal(c: char) { IsAlpha(c) || IsDigit(c) || c in "._%+-" }

  predicate IsDomain(c: char) { IsAlpha(c) || IsDigit(c) || c in ".-" }

  predicate IsAt(c: char) { c == '@' }

  predicate IsDot(c: char) { c == '.' }

  predicate IsCardGap(c: char) { c in " -" }

  predicate IsPhoneGap(c: char) { c in "-. \t\n\r" || c == '\U{000C}' }

  function Times(a: Re, n: nat): Re { Rep(a, n, Some(n)) }

  /** A local part, '@', a domain, a dot and at least two letters. */
  function Email(): Re
  {
    Cat(Rep(Class(IsLocal), 1, None),
        Cat(Class(IsAt), Cat(Rep(Class(IsDomain), 1, None), Cat(Class(IsDot), Rep(Class(IsAlpha), 2, None)))))
  }

  /** Between word boundaries: 13 to 16 digits, each with at most one blank or hyphen. */
  function Card(): Re
  {
    Cat(Boundary, Cat(Rep(Cat(Class(IsDigit), Opt(Class(IsCardGap))), 13, Some(16)), Boundary))
  }

  /** Between word boundaries: three, three and four digits with optional gaps. */
  function Phone(): Re
  {
    var digit, gap := Class(IsDigit), Opt(Class(IsPhoneGap));
    Cat(Boundary, Cat(Times(digit, 3), Cat(gap, Cat(Times(digit, 3), Cat(gap, Cat(Times(digit, 4), Boundary))))))
  }

  function Pattern(k: nat): Re
    requires k < 3
  {
    if k == 0 then Email() else if k == 1 then Card() else Phone()
  }

  lemma EmailShape()
    ensures Consumes(Email()) && Over(Email(), NotBracket) && Needs(Email(), Foreign) && NoBoundary(Email())
  {
    var tld := Rep(Class(IsAlpha), 2, None);
    var top := Cat(Class(IsDot), tld);
    var name := Rep(Class(IsDomain), 1, None);
    var domain := Cat(name, top);
    var at := Cat(Class(IsAt), domain);
    var local := Rep(Class(IsLocal), 1, None);
    assert Over(tld, NotBracket) && Over(top, NotBracket) && Over(name, NotBracket);
    assert NoBoundary(tld) && NoBoundary(top) && NoBoundary(name);
    assert Over(domain, NotBracket) && NoBoundary(domain);
    assert Over(at.first, NotBracket) && Needs(at.first, Foreign);
    assert Over(at, NotBracket) && NoBoundary(at) && Needs(at, Foreign);
    assert Over(local, NotBracket) && NoBoundary(local);
    assert Email() == Cat(local, at);
  }

  lemma CardShape()
    ensures Consumes(Card()) && Over(Card(), NotBracket) && Needs(Card(), Foreign) && Anchored(Card())
  {
    var digit := Cat(Class(IsDigit), Opt(Class(IsCardGap)));
    var digits := Rep(digit, 13, Some(16));
    assert Over(Opt(Class(IsCardGap)), NotBracket) && Over(Class(IsDigit), NotBracket);
    assert Needs(Class(IsDigit), Foreign);
    assert Over(digit, NotBracket) && Needs(digit, Foreign);
    assert Over(digits, NotBracket) && Needs(digits, Foreign);
    assert Over(Cat(digits, Boundary), NotBracket) && Needs(Cat(digits, Boundary), Foreign);
    assert Consumes(Cat(digits, Boundary));
    assert Card() == Cat(Boundary, Cat(digits, Boundary));
  }

  lemma PhoneShape()
    ensures Consumes(Phone()) && Over(Phone(), NotBracket) && Needs(Phone(), Foreign) && Anchored(Phone())
  {
    var digit, gap := Class(IsDigit), Opt(Class(IsPhoneGap));
    var three, four := Times(digit, 3), Times(digit, 4);
    var r4 := Cat(four, Boundary);
    var r3 := Cat(gap, r4);
    var r2 := Cat(three, r3);
    var r1 := Cat(gap, r2);
    var r0 := Cat(three, r1);
    assert Over(digit, NotBracket) && Over(gap, NotBracket) && Needs(digit, Foreign);
    assert Over(three, NotBracket) && Over(four, NotBracket) && Needs(three, Foreign);
    assert Over(r4, NotBracket) && EndsAtBoundary(r4);
    assert Over(r3, NotBracket) && EndsAtBoundary(r3);
    assert Over(r2, NotBracket) && EndsAtBoundary(r2);
    assert Over(r1, NotBracket) && EndsAtBoundary(r1);
    assert Over(r0, NotBracket) && EndsAtBoundary(r0) && Needs(r0, Foreign) && Consumes(r0);
    assert Phone() == Cat(Boundary, r0);
  }

  /** No pattern can match across the marker, and no replacement by a later pattern changes
      what an earlier one sees of the text that is kept. */
  lemma PatternsDoNotInterfere(k: nat)
    requires k < 3
    ensures Consumes(Pattern(k))
    ensures forall e: nat :: e <= k ==> Unaffected(Pattern(e), Pattern(k))
  {
    EmailShape();
    CardShape();
    PhoneShape();
  }

  // ---- One message --------------------------------------------------------------------

  /** The text after the first k patterns have been searched for and replaced. */
  function Scrubbed(k: nat, s: string): string
    requires k <= 3
  {
    if k == 0 then s
    else
      PatternsDoNotInterfere(k - 1);
      var t := Scrubbed(k - 1, s);
      if Occurs(Pattern(k - 1), t) then ReplaceAll(Pattern(k - 1), t) else t
  }

  function Redact(s: string): string
  {
    Scrubbed(3, s)
  }

  predicate HasPii(s: string)
  {
    exists k: nat :: k < 3 && Occurs(Pattern(k), s)
  }

  /** Some of the first k patterns occurred when its turn came. */
  predicate FoundBy(k: nat, s: string)
    requires k <= 3
  {
    k != 0 && (FoundBy(k - 1, s) || Occurs(Pattern(k - 1), Scrubbed(k - 1, s)))
  }

  lemma {:induction false} ScrubbedIsClean(k: nat, s: string)
    requires k <= 3
    ensures forall e: nat :: e < k ==> Clean(Pattern(e), Scrubbed(k, s))
  {
    if k == 0 {
    } else {
      ScrubbedIsClean(k - 1, s);
      PatternsDoNotInterfere(k - 1);
      var t := Scrubbed(k - 1, s);
      OccursIffNotClean(Pattern(k - 1), t);
      if Occurs(Pattern(k - 1), t) {
        forall e: nat | e < k ensures Clean(Pattern(e), ReplaceAll(Pattern(k - 1), t)) {
          assert Unaffected(Pattern(e), Pattern(k - 1));
          ReplaceKeepsClean(Pattern(e), Pattern(k - 1), t);
        }
      }
    }
  }

  /** Redaction is complete: no pattern matches anywhere in the final text, although each
      pass changed the word boundaries the next one saw. */
  lemma RedactionIsComplete(s: string)
    ensures Clean(Email(), Redact(s)) && Clean(Card(), Redact(s)) && Clean(Phone(), Redact(s))
    ensures !HasPii(Redact(s))
  {
    ScrubbedIsClean(3, s);
    assert Clean(Pattern(0), Redact(s)) && Clean(Pattern(1), Redact(s)) && Clean(Pattern(2), Redact(s));
    forall k: nat | k < 3 ensures !Occurs(Pattern(k), Redact(s)) {
      OccursIffNotClean(Pattern(k), Redact(s));
    }
  }

  lemma {:induction false} FoundNothing(k: nat, s: string)
    requires k <= 3
    ensures FoundBy(k, s) <==> exists e: nat :: e < k && Occurs(Pattern(e), s)
    ensures !FoundBy(k, s) ==> Scrubbed(k, s) == s
  {
    if k == 0 {
    } else {
      FoundNothing(k - 1, s);
      if Occurs(Pattern(k - 1), Scrubbed(k - 1, s)) && !FoundBy(k - 1, s) {
        assert Occurs(Pattern(k - 1), s);
      }
      if e: nat :| e < k && Occurs(Pattern(e), s) {
        assert e == k - 1 || e < k - 1;
      }
    }
  }

  /** A second redaction changes nothing. */
  lemma RedactIsIdempotent(s: string)
    ensures Redact(Redact(s)) == Redact(s)
  {
    RedactionIsComplete(s);
    FoundNothing(3, Redact(s));
  }

  lemma NothingToReplace(r: Re, s: string)
    requires Consumes(r) && !Occurs(r, s)
    ensures ReplaceAll(r, s) == s
  {
  }

  /** Asking first whether a pattern occurs changes nothing: the text goes through the three
      replacements, email addresses first and phone numbers last. */
  lemma ThreePasses(s: string)
    ensures Consumes(Email()) && Consumes(Card()) && Consumes(Phone())
    ensures Redact(s) == ReplaceAll(Phone(), ReplaceAll(Card(), ReplaceAll(Email(), s)))
  {
    PatternsDoNotInterfere(0);
    PatternsDoNotInterfere(1);
    PatternsDoNotInterfere(2);
    assert Pattern(0) == Email() && Pattern(1) == Card() && Pattern(2) == Phone();
    var a := Scrubbed(1, s);
    var b := Scrubbed(2, s);
    assert a == ReplaceAll(Email(), s) by {
      assert Scrubbed(0, s) == s;
      if !Occurs(Email(), s) {
        NothingToReplace(Email(), s);
      }
    }
    assert b == ReplaceAll(Card(), a) by {
      if !Occurs(Card(), a) {
        NothingToReplace(Card(), a);
      }
    }
    if !Occurs(Phone(), b) {
      NothingToReplace(Phone(), b);
    }
  }
}
