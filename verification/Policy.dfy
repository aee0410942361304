/** `NewPolicy` and `Policy.Check`, which rewrites the caller's messages in place. */
module PolicyModel {
  import opened Replace
  import opened Text
  import opened Guardrail

  datatype Mode = RedactMode | BlockMode

  datatype Message = Message(role: string, content: string)

  class Policy {
    const mode: Mode
    const denylist: seq<string>
    const lower: char -> char
    ghost const terms: seq<string>
    ghost const space: char -> bool

    /** The denylist is made of the configured terms: trimmed and lowered, blank ones dropped,
        since the empty term is contained in every text. */
    ghost predicate Valid()
    {
      && "" !in denylist
      && forall d :: d in denylist <==> d != "" && exists t :: t in terms && d == Lowered(lower, Trim(space, t))
    }

    constructor (mode: Mode, terms: seq<string>, space: char -> bool, lower: char -> char)
      ensures Valid()
      ensures this.mode == mode && this.lower == lower && this.terms == terms && this.space == space
    {
      var dl: seq<string> := [];
      for i := 0 to |terms|
        invariant "" !in dl
        invariant forall d :: d in dl <==> d != "" && exists t :: t in terms[..i] && d == Lowered(lower, Trim(space, t))
      {
        assert terms[..i + 1] == terms[..i] + [terms[i]];
        var d := Lowered(lower, Trim(space, terms[i]));
        if d != "" {
          dl := dl + [d];
        }
      }
      assert terms[..|terms|] == terms;
      this.mode, this.denylist, this.lower := mode, dl, lower;
      this.terms, this.space := terms, space;
    }

    /** Some configured term, trimmed and not blank, stands in the content up to case. */
    ghost predicate Denied(content: string)
    {
      exists t, i :: t in terms && Trim(space, t) != "" && FoldedAt(lower, content, Trim(space, t), i)
    }

    /** Searching the lowered content for the denylist finds exactly that. */
    lemma DenylistMeans(content: string)
      requires Valid()
      ensures (exists d :: d in denylist && Contains(Lowered(lower, content), d)) <==> Denied(content)
    {
      if d :| d in denylist && Contains(Lowered(lower, content), d) {
        var t :| t in terms && d == Lowered(lower, Trim(space, t));
        ContainsIgnoresCase(lower, content, Trim(space, t));
        var i :| FoldedAt(lower, content, Trim(space, t), i);
      }
      if Denied(content) {
        var t, i :| t in terms && Trim(space, t) != "" && FoldedAt(lower, content, Trim(space, t), i);
        ContainsIgnoresCase(lower, content, Trim(space, t));
        assert Lowered(lower, Trim(space, t)) in denylist;
      }
    }

    /** What makes `Check` refuse a request: a denylisted term in the original text or, in
        block mode, PII. */
    ghost predicate Rejects(content: string)
    {
      Denied(content) || (mode == BlockMode && HasPii(content))
    }

    method IsDenied(content: string) returns (denied: bool)
      requires Valid()
      ensures denied <==> Denied(content)
    {
      DenylistMeans(content);
      var lowered := Lowered(lower, content);
      for i := 0 to |denylist|
        invariant forall j :: 0 <= j < i ==> !Contains(lowered, denylist[j])
      {
        if Contains(lowered, denylist[i]) {
          return true;
        }
      }
      return false;
    }

    /** The inner loop of `Check`. It finds PII exactly if the original text has some, although
        later patterns are searched for in the text the earlier ones have rewritten. */
    method Scan(content: string) returns (redacted: string, found: bool)
      ensures found <==> HasPii(content)
      ensures redacted == Redact(content)
      ensures !found ==> redacted == content
    {
      redacted, found := content, false;
      for k := 0 to 3
        invariant redacted == Scrubbed(k, content)
        invariant found <==> FoundBy(k, content)
      {
        PatternsDoNotInterfere(k);
        if Occurs(Pattern(k), redacted) {
          found := true;
          redacted := ReplaceAll(Pattern(k), redacted);
        }
      }
      FoundNothing(3, content);
    }

    /** The index of the first message at which `Check` stops. */
    ghost predicate StopsAt(messages: seq<Message>, k: nat)
    {
      k < |messages| && Rejects(messages[k].content) && forall i :: 0 <= i < k ==> !Rejects(messages[i].content)
    }

    method Check(messages: array<Message>) returns (ok: bool)
      requires Valid()
      modifies messages
      ensures ok <==> forall i :: 0 <= i < messages.Length ==> !Rejects(old(messages[i].content))
      ensures ok ==> forall i :: 0 <= i < messages.Length ==>
                messages[i] == Message(old(messages[i].role), Redact(old(messages[i].content)))
      ensures !ok ==> exists k: nat ::
                (&& StopsAt(old(messages[..]), k)
                 && (forall i :: 0 <= i < k ==>
                       messages[i] == Message(old(messages[i].role), Redact(old(messages[i].content))))
                 && (forall i :: k <= i < messages.Length ==> messages[i] == old(messages[i])))
    {
      for i := 0 to messages.Length
        invariant forall j :: 0 <= j < i ==> !Rejects(old(messages[j].content))
        invariant forall j :: 0 <= j < i ==>
                    messages[j] == Message(old(messages[j].role), Redact(old(messages[j].content)))
        invariant forall j :: i <= j < messages.Length ==> messages[j] == old(messages[j])
      {
        var m := messages[i];
        var denied := IsDenied(m.content);
        if denied {
          assert StopsAt(old(messages[..]), i);
          return false;
        }
        var redacted, found := Scan(m.content);
        if found {
          if mode == BlockMode {
            assert StopsAt(old(messages[..]), i);
            return false;
          }
          messages[i] := m.(content := redacted);
        }
      }
      return true;
    }
  }

  /** What one policy has redacted another one in block mode accepts unchanged, unless a term of
      its own denylist blocks it. */
  method CheckTwice(policy: Policy, strict: Policy, messages: array<Message>) returns (ok: bool, again: bool)
    requires policy.Valid() && strict.Valid()
    requires policy.mode == RedactMode && strict.mode == BlockMode && strict.denylist == []
    modifies messages
    ensures ok <==> forall i :: 0 <= i < messages.Length ==> !policy.Denied(old(messages[i].content))
    ensures ok ==> again && forall i :: 0 <= i < messages.Length ==>
              messages[i] == Message(old(messages[i].role), Redact(old(messages[i].content)))
  {
    ok := policy.Check(messages);
    if !ok {
      return false, false;
    }
    forall i | 0 <= i < messages.Length
      ensures !strict.Rejects(messages[i].content) && Redact(messages[i].content) == messages[i].content
    {
      RedactionIsComplete(old(messages[i].content));
      RedactIsIdempotent(old(messages[i].content));
      strict.DenylistMeans(messages[i].content);
    }
    again := strict.Check(messages);
  }
}
