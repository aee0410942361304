/** strings.ToLower, TrimSpace, Fields and Contains over an abstract Unicode table: which
    characters are space, and how each one is lowered. */
module Text {

  function Lowered(lower: char -> char, s: string): string
  {
    seq(|s|, i requires 0 <= i < |s| => lower(s[i]))
  }

  function TrimLeft(space: char -> bool, s: string): string
  {
    if s != [] && space(s[0]) then TrimLeft(space, s[1..]) else s
  }

  function TrimRight(space: char -> bool, s: string): string
  {
    if s != [] && space(s[|s| - 1]) then TrimRight(space, s[..|s| - 1]) else s
  }

  function Trim(space: char -> bool, s: string): string
  {
    TrimRight(space, TrimLeft(space, s))
  }

  predicate Blank(space: char -> bool, s: string)
  {
    forall k :: 0 <= k < |s| ==> space(s[k])
  }

  /** s starts and ends with a character that is not space, if it has any. */
  predicate Tight(space: char -> bool, s: string)
  {
    s != [] ==> !space(s[0]) && !space(s[|s| - 1])
  }

  lemma {:induction false} TrimLeftIs(space: char -> bool, s: string) returns (gap: string)
    ensures s == gap + TrimLeft(space, s) && Blank(space, gap)
    ensures TrimLeft(space, s) != [] ==> !space(TrimLeft(space, s)[0])
  {
    if s == [] || !space(s[0]) {
      gap := [];
    } else {
      var rest := TrimLeftIs(space, s[1..]);
      gap := [s[0]] + rest;
    }
  }

  lemma {:induction false} TrimRightIs(space: char -> bool, s: string) returns (gap: string)
    ensures s == TrimRight(space, s) + gap && Blank(space, gap)
    ensures var r := TrimRight(space, s); r != [] ==> !space(r[|r| - 1]) && r[0] == s[0]
  {
    if s == [] || !space(s[|s| - 1]) {
      gap := [];
    } else {
      var rest := TrimRightIs(space, s[..|s| - 1]);
      gap := rest + [s[|s| - 1]];
    }
  }

  /** TrimSpace takes away blank ends and leaves no more of them. */
  lemma TrimIs(space: char -> bool, s: string) returns (left: string, right: string)
    ensures s == left + Trim(space, s) + right && Blank(space, left) && Blank(space, right)
    ensures Tight(space, Trim(space, s))
  {
    left := TrimLeftIs(space, s);
    right := TrimRightIs(space, TrimLeft(space, s));
  }

  lemma {:induction false} TrimLeftOf(space: char -> bool, gap: string, s: string)
    requires Blank(space, gap)
    ensures TrimLeft(space, gap + s) == TrimLeft(space, s)
  {
    if gap == [] {
      assert gap + s == s;
    } else {
      assert (gap + s)[1..] == gap[1..] + s;
      TrimLeftOf(space, gap[1..], s);
    }
  }

  lemma {:induction false} TrimRightOf(space: char -> bool, s: string, gap: string)
    requires Blank(space, gap)
    ensures TrimRight(space, s + gap) == TrimRight(space, s)
  {
    if gap == [] {
      assert s + gap == s;
    } else {
      var k := |gap| - 1;
      assert (s + gap)[..|s| + k] == s + gap[..k];
      TrimRightOf(space, s, gap[..k]);
    }
  }

  /** A text has only one tight middle between blank ends. */
  lemma TrimIsUnique(space: char -> bool, left: string, middle: string, right: string)
    requires Blank(space, left) && Blank(space, right) && Tight(space, middle)
    ensures Trim(space, left + middle + right) == middle
  {
    assert left + middle + right == left + (middle + right);
    TrimLeftOf(space, left, middle + right);
    if middle == [] {
      assert middle + right == right + [];
      TrimLeftOf(space, right, []);
    } else {
      assert TrimLeft(space, middle + right) == middle + right;
      TrimRightOf(space, middle, right);
    }
  }

  predicate HasAt(s: string, term: string, i: int)
  {
    0 <= i <= |s| - |term| && s[i..i + |term|] == term
  }

  predicate Contains(s: string, term: string)
  {
    exists i :: 0 <= i <= |s| - |term| && HasAt(s, term, i)
  }

  /** The characters of term stand in s from position i on, up to case. */
  predicate FoldedAt(lower: char -> char, s: string, term: string, i: int)
  {
    0 <= i <= |s| - |term| && forall k :: 0 <= k < |term| ==> lower(s[i + k]) == lower(term[k])
  }

  /** Looking for the lowered term in the lowered text ignores case, character by character. */
  lemma ContainsIgnoresCase(lower: char -> char, s: string, term: string)
    ensures Contains(Lowered(lower, s), Lowered(lower, term)) <==> exists i :: FoldedAt(lower, s, term, i)
  {
    var a, b := Lowered(lower, s), Lowered(lower, term);
    forall i | 0 <= i <= |s| - |term| ensures HasAt(a, b, i) <==> FoldedAt(lower, s, term, i) {
      if HasAt(a, b, i) {
        forall k | 0 <= k < |term| ensures lower(s[i + k]) == lower(term[k]) {
          assert a[i..i + |b|][k] == b[k];
        }
      }
    }
    if i :| FoldedAt(lower, s, term, i) {
      assert HasAt(a, b, i);
    }
  }

  /** The length of the word s starts with. */
  function WordLength(space: char -> bool, s: string): (n: nat)
    ensures n <= |s|
  {
    if s == [] || space(s[0]) then 0 else 1 + WordLength(space, s[1..])
  }

  /** The maximal runs of characters that are not space. */
  function Fields(space: char -> bool, s: string): seq<string>
    decreases |s|
  {
    if s == [] then []
    else if space(s[0]) then Fields(space, s[1..])
    else [s[..WordLength(space, s)]] + Fields(space, s[WordLength(space, s)..])
  }

  lemma {:induction false} WordEndsAtSpace(space: char -> bool, a: string, b: string)
    requires b != [] ==> space(b[0])
    ensures WordLength(space, a + b) == WordLength(space, a)
  {
    if a == [] {
      assert a + b == b;
    } else {
      assert (a + b)[1..] == a[1..] + b;
      WordEndsAtSpace(space, a[1..], b);
    }
  }

  /** A text splits into fields at any space. */
  lemma {:induction false} FieldsSplitAtSpace(space: char -> bool, a: string, b: string)
    requires b != [] ==> space(b[0])
    ensures Fields(space, a + b) == Fields(space, a) + Fields(space, b)
    decreases |a|
  {
    if a == [] {
      assert a + b == b;
    } else if space(a[0]) {
      assert (a + b)[1..] == a[1..] + b;
      FieldsSplitAtSpace(space, a[1..], b);
    } else {
      var n := WordLength(space, a);
      WordEndsAtSpace(space, a, b);
      assert (a + b)[..n] == a[..n] && (a + b)[n..] == a[n..] + b;
      FieldsSplitAtSpace(space, a[n..], b);
    }
  }

  lemma {:induction false} FieldsIgnoreLeft(space: char -> bool, s: string)
    ensures Fields(space, TrimLeft(space, s)) == Fields(space, s)
  {
    if s == [] || !space(s[0]) {
    } else {
      FieldsIgnoreLeft(space, s[1..]);
    }
  }

  lemma {:induction false} FieldsIgnoreRight(space: char -> bool, s: string)
    ensures Fields(space, TrimRight(space, s)) == Fields(space, s)
  {
    if s == [] || !space(s[|s| - 1]) {
    } else {
      var k := |s| - 1;
      FieldsIgnoreRight(space, s[..k]);
      FieldsSplitAtSpace(space, s[..k], s[k..]);
      assert s == s[..k] + s[k..];
      assert s[k..][1..] == [];
    }
  }

  /** TrimSpace does not change the fields of a text. */
  lemma FieldsIgnoreTrim(space: char -> bool, s: string)
    ensures Fields(space, Trim(space, s)) == Fields(space, s)
  {
    FieldsIgnoreRight(space, TrimLeft(space, s));
    FieldsIgnoreLeft(space, s);
  }

  /** The part of s before and after the first `sep`. */
  datatype Cut = Whole | Parts(before: string, after: string)

  function CutAt(s: string, sep: char): (cut: Cut)
    ensures cut.Whole? ==> sep !in s
    ensures cut.Parts? ==> sep !in cut.before && s == cut.before + [sep] + cut.after
  {
    if s == [] then Whole
    else if s[0] == sep then Parts([], s[1..])
    else
      match CutAt(s[1..], sep)
      case Whole => Whole
      case Parts(a, b) => Parts([s[0]] + a, b)
  }

  /** A text has only one first separator. */
  lemma {:induction false} CutIsUnique(a: string, sep: char, b: string)
    requires sep !in a
    ensures CutAt(a + [sep] + b, sep) == Parts(a, b)
  {
    var s := a + [sep] + b;
    if a == [] {
      assert s[1..] == b;
    } else {
      assert s[1..] == a[1..] + [sep] + b;
      CutIsUnique(a[1..], sep, b);
      assert [s[0]] + a[1..] == a;
    }
  }

  /** words, each behind its gap, and one more gap. */
  function Joined(words: seq<string>, gaps: seq<string>): string
    requires |gaps| == |words| + 1
  {
    if words == [] then gaps[0] else gaps[0] + words[0] + Joined(words[1..], gaps[1..])
  }

  predicate IsWord(space: char -> bool, w: string)
  {
    w != [] && forall k :: 0 <= k < |w| ==> !space(w[k])
  }

  lemma {:induction false} WordIsWord(space: char -> bool, s: string)
    ensures forall k :: 0 <= k < WordLength(space, s) ==> !space(s[k])
    ensures WordLength(space, s) < |s| ==> space(s[WordLength(space, s)])
  {
    if s == [] || space(s[0]) {
    } else {
      WordIsWord(space, s[1..]);
    }
  }

  /** Words behind blank gaps, of which only the first and the last may be empty. */
  predicate Spaced(space: char -> bool, words: seq<string>, gaps: seq<string>)
    requires |gaps| == |words| + 1
    decreases |words|
  {
    && Blank(space, gaps[0])
    && (words != [] ==>
          && IsWord(space, words[0]) && (|words| > 1 ==> gaps[1] != [])
          && Spaced(space, words[1..], gaps[1..]))
  }

  /** The fields of a text are its words: it consists of them, in order, and of blank gaps. */
  lemma {:induction false} FieldsAreWords(space: char -> bool, s: string) returns (gaps: seq<string>)
    ensures |gaps| == |Fields(space, s)| + 1
    ensures s == Joined(Fields(space, s), gaps) && Spaced(space, Fields(space, s), gaps)
    decreases |s|
  {
    if s == [] {
      gaps := [[]];
    } else if space(s[0]) {
      var rest := FieldsAreWords(space, s[1..]);
      gaps := [[s[0]] + rest[0]] + rest[1..];
      assert gaps[1..] == rest[1..];
    } else {
      var n := WordLength(space, s);
      var words := Fields(space, s[n..]);
      WordIsWord(space, s);
      var rest := FieldsAreWords(space, s[n..]);
      gaps := [[]] + rest;
      assert gaps[1..] == rest && Fields(space, s) == [s[..n]] + words && Fields(space, s)[1..] == words;
    }
  }
}
