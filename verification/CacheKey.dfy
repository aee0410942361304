/** The text `cacheKey` hashes, and what it says about the request it was made from. */
module CacheKey {
  import opened Text
  import opened PolicyModel

  datatype Request = Request(model: string, messages: seq<Message>)

  datatype Parsed = Malformed | Parsed(request: Request)

  /** Contents are trimmed before they enter the key. */
  function Normal(space: char -> bool, messages: seq<Message>): seq<Message>
  {
    seq(|messages|, i requires 0 <= i < |messages| => messages[i].(content := Trim(space, messages[i].content)))
  }

  function NormalRequest(space: char -> bool, r: Request): Request
  {
    r.(messages := Normal(space, r.messages))
  }

  function Line(m: Message): string
  {
    m.role + ":" + m.content + "\n"
  }

  function Lines(messages: seq<Message>): string
  {
    if messages == [] then [] else Line(messages[0]) + Lines(messages[1..])
  }

  function PreImage(space: char -> bool, r: Request): string
  {
    r.model + "\n" + Lines(Normal(space, r.messages))
  }

  /** The printer's loop. */
  method Print(space: char -> bool, r: Request) returns (text: string)
    ensures text == PreImage(space, r)
  {
    text := r.model + "\n";
    var normal := Normal(space, r.messages);
    for i := 0 to |r.messages|
      invariant text + Lines(normal[i..]) == PreImage(space, r)
    {
      assert normal[i..][0] == normal[i] && normal[i..][1..] == normal[i + 1..];
      text := text + r.messages[i].role + ":" + Trim(space, r.messages[i].content) + "\n";
      assert text + Lines(normal[i + 1..]) == PreImage(space, r);
    }
    assert normal[|r.messages|..] == [];
  }

  // ---- Reading it back ----------------------------------------------------------------

  datatype ParsedLines = BadLines | GoodLines(messages: seq<Message>)

  function ParseLines(s: string): ParsedLines
    decreases |s|
  {
    if s == [] then GoodLines([])
    else
      match CutAt(s, '\n')
      case Whole => BadLines
      case Parts(line, rest) =>
        match CutAt(line, ':')
        case Whole => BadLines
        case Parts(role, content) =>
          match ParseLines(rest)
          case BadLines => BadLines
          case GoodLines(messages) => GoodLines([Message(role, content)] + messages)
  }

  function Parse(s: string): Parsed
  {
    match CutAt(s, '\n')
    case Whole => Malformed
    case Parts(model, rest) =>
      match ParseLines(rest)
      case BadLines => Malformed
      case GoodLines(messages) => Parsed(Request(model, messages))
  }

  predicate PlainMessage(m: Message)
  {
    '\n' !in m.role && ':' !in m.role && '\n' !in m.content
  }

  /** No newline in the model or in a trimmed content, no newline or colon in a role. */
  predicate Plain(space: char -> bool, r: Request)
  {
    '\n' !in r.model && forall m :: m in Normal(space, r.messages) ==> PlainMessage(m)
  }

  lemma LineParses(m: Message, rest: string)
    requires PlainMessage(m)
    ensures CutAt(Line(m) + rest, '\n') == Parts(m.role + ":" + m.content, rest)
    ensures CutAt(m.role + ":" + m.content, ':') == Parts(m.role, m.content)
  {
    var line := m.role + ":" + m.content;
    assert Line(m) + rest == line + ['\n'] + rest;
    CutIsUnique(line, '\n', rest);
    assert line == m.role + [':'] + m.content;
    CutIsUnique(m.role, ':', m.content);
  }

  /** A line that reads back as the message it was printed from was printed from a plain one. */
  lemma OnlyPlainLinesParse(m: Message, rest: string)
    requires var cut := CutAt(Line(m) + rest, '\n');
             cut.Parts? && CutAt(cut.before, ':') == Parts(m.role, m.content)
    ensures PlainMessage(m)
  {
    var cut := CutAt(Line(m) + rest, '\n');
    assert cut.before == m.role + [':'] + m.content;
  }

  lemma {:induction false} LinesRoundTrip(messages: seq<Message>)
    ensures ParseLines(Lines(messages)) == GoodLines(messages) <==> forall m :: m in messages ==> PlainMessage(m)
  {
    if messages == [] {
    } else {
      var m, rest := messages[0], Lines(messages[1..]);
      assert messages == [m] + messages[1..];
      LinesRoundTrip(messages[1..]);
      if PlainMessage(m) {
        LineParses(m, rest);
      }
      if ParseLines(Lines(messages)) == GoodLines(messages) {
        OnlyPlainLinesParse(m, rest);
      }
    }
  }

  /** The round trip: the parser recovers exactly the normalised request from the text
      exactly if the request is plain. */
  lemma RoundTripIffPlain(space: char -> bool, r: Request)
    ensures Parse(PreImage(space, r)) == Parsed(NormalRequest(space, r)) <==> Plain(space, r)
  {
    var lines := Lines(Normal(space, r.messages));
    LinesRoundTrip(Normal(space, r.messages));
    assert PreImage(space, r) == r.model + ['\n'] + lines;
    if '\n' !in r.model {
      CutIsUnique(r.model, '\n', lines);
    }
  }

  /** Plain requests with the same text are the same request up to the trimming. */
  lemma EqualTextsEqualRequests(space: char -> bool, a: Request, b: Request)
    requires Plain(space, a) && Plain(space, b) && PreImage(space, a) == PreImage(space, b)
    ensures NormalRequest(space, a) == NormalRequest(space, b)
    ensures a.model == b.model && |a.messages| == |b.messages|
    ensures forall i :: 0 <= i < |a.messages| ==>
              && a.messages[i].role == b.messages[i].role
              && Trim(space, a.messages[i].content) == Trim(space, b.messages[i].content)
  {
    RoundTripIffPlain(space, a);
    RoundTripIffPlain(space, b);
    var m, n := Normal(space, a.messages), Normal(space, b.messages);
    assert |m| == |a.messages| && |n| == |b.messages|;
    forall i | 0 <= i < |a.messages|
      ensures a.messages[i].role == b.messages[i].role
      ensures Trim(space, a.messages[i].content) == Trim(space, b.messages[i].content)
    {
      assert m[i] == n[i];
    }
  }

  /** Without plainness the texts collide: one message with a newline reads like two. */
  lemma NewlinesCollide(space: char -> bool, model: string, m1: Message, m2: Message)
    requires Normal(space, [m1, m2]) == [m1, m2]
    requires var joined := m1.content + "\n" + m2.role + ":" + m2.content; Trim(space, joined) == joined
    ensures PreImage(space, Request(model, [m1.(content := m1.content + "\n" + m2.role + ":" + m2.content)]))
         == PreImage(space, Request(model, [m1, m2]))
  {
    var joined := m1.(content := m1.content + "\n" + m2.role + ":" + m2.content);
    assert Normal(space, [joined]) == [joined];
    assert [m1, m2][1..] == [m2] && [m2][1..] == [] && [joined][1..] == [];
    assert Lines([m2]) == Line(m2) + [] == Line(m2);
    assert Lines([m1, m2]) == Line(m1) + Line(m2) == Line(joined) == Line(joined) + [] == Lines([joined]);
  }
}
