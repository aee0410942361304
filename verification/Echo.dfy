/** The echo provider and its whitespace token counts. */
module Echo {
  import opened Text
  import opened PolicyModel
  import opened CacheKey

  datatype Response = Response(model: string, reply: string, promptTokens: nat, completionTokens: nat, totalTokens: nat)

  function CountTokens(space: char -> bool, s: string): nat
  {
    var n := |Fields(space, s)|;
    if n > 0 then n else 1
  }

  /** All contents, each followed by a blank. */
  function Prompt(messages: seq<Message>): string
  {
    if messages == [] then [] else Prompt(messages[..|messages| - 1]) + messages[|messages| - 1].content + " "
  }

  function Last(messages: seq<Message>): string
  {
    if messages == [] then [] else messages[|messages| - 1].content
  }

  function Reply(messages: seq<Message>): string
  {
    "echo: " + Last(messages)
  }

  function Answer(space: char -> bool, r: Request): Response
  {
    var prompt, completion := CountTokens(space, Prompt(r.messages)), CountTokens(space, Reply(r.messages));
    Response(if r.model == "" then "echo-1" else r.model, Reply(r.messages), prompt, completion, prompt + completion)
  }

  function AtLeastOne(n: nat): nat
  {
    if n == 0 then 1 else n
  }

  lemma {:induction false} WordLengthOfWord(space: char -> bool, s: string)
    requires forall k :: 0 <= k < |s| ==> !space(s[k])
    ensures WordLength(space, s) == |s|
  {
    if s == [] {
    } else {
      WordLengthOfWord(space, s[1..]);
    }
  }

  lemma WordsOnly(space: char -> bool, s: string)
    requires s != [] && forall k :: 0 <= k < |s| ==> !space(s[k])
    ensures Fields(space, s) == [s]
  {
    WordLengthOfWord(space, s);
    assert s[..|s|] == s && s[|s|..] == [];
  }

  /** The greeting is one field. */
  lemma OneField(space: char -> bool)
    requires space(' ') && forall c :: c in "echo:" ==> !space(c)
    ensures Fields(space, "echo: ") == ["echo:"]
  {
    assert forall k :: 0 <= k < 5 ==> "echo:"[k] in "echo:";
    WordsOnly(space, "echo:");
    FieldsSplitAtSpace(space, "echo:", " ");
    assert "echo:" + " " == "echo: " && " "[1..] == "" && Fields(space, " ") == [];
  }

  function AllFields(space: char -> bool, messages: seq<Message>): seq<string>
  {
    if messages == [] then []
    else AllFields(space, messages[..|messages| - 1]) + Fields(space, messages[|messages| - 1].content)
  }

  lemma PromptEndsInSpace(messages: seq<Message>)
    ensures var p := Prompt(messages); p == [] || p[|p| - 1] == ' '
  {
  }

  lemma {:induction false} LeadingSpace(space: char -> bool, gap: string, b: string)
    requires |gap| == 1 && space(gap[0])
    ensures Fields(space, gap + b) == Fields(space, b)
  {
    assert (gap + b)[1..] == b;
  }

  /** A text also splits into fields after a space. */
  lemma {:induction false} FieldsJoin(space: char -> bool, a: string, b: string)
    requires a == [] || space(a[|a| - 1])
    ensures Fields(space, a + b) == Fields(space, a) + Fields(space, b)
  {
    if a == [] {
      assert a + b == b;
    } else {
      var head, gap := a[..|a| - 1], [a[|a| - 1]];
      LeadingSpace(space, gap, b);
      LeadingSpace(space, gap, []);
      assert gap + [] == gap && (gap + b)[0] == gap[0];
      assert a + b == head + (gap + b) && a == head + gap;
      FieldsSplitAtSpace(space, head, gap + b);
      FieldsSplitAtSpace(space, head, gap);
    }
  }

  /** The prompt's fields are the messages' fields, in order. */
  lemma {:induction false} PromptFields(space: char -> bool, messages: seq<Message>)
    requires space(' ')
    ensures Fields(space, Prompt(messages)) == AllFields(space, messages)
  {
    if messages == [] {
    } else {
      var k := |messages| - 1;
      var before, content := Prompt(messages[..k]), messages[k].content;
      PromptFields(space, messages[..k]);
      assert Prompt(messages) == before + (content + " ");
      FieldsSplitAtSpace(space, content, " ");
      assert " "[1..] == "" && Fields(space, " ") == [];
      PromptEndsInSpace(messages[..k]);
      FieldsJoin(space, before, content + " ");
    }
  }

  lemma ReplyFields(space: char -> bool, messages: seq<Message>)
    requires space(' ')
    ensures Fields(space, Reply(messages)) == Fields(space, "echo: ") + Fields(space, Last(messages))
  {
    FieldsJoin(space, "echo: ", Last(messages));
  }

  lemma AnswerTokens(space: char -> bool, r: Request)
    requires space(' ')
    ensures Answer(space, r).promptTokens == AtLeastOne(|AllFields(space, r.messages)|)
    ensures (forall c :: c in "echo:" ==> !space(c)) ==>
              Answer(space, r).completionTokens == 1 + |Fields(space, Last(r.messages))|
  {
    PromptFields(space, r.messages);
    ReplyFields(space, r.messages);
    if forall c :: c in "echo:" ==> !space(c) {
      OneField(space);
    }
  }

  /** The provider's loop over the messages. */
  method Complete(space: char -> bool, r: Request) returns (resp: Response)
    ensures resp == Answer(space, r)
    // The last content comes back behind "echo: ", under the model asked for or "echo-1".
    ensures resp.reply == "echo: " + if r.messages == [] then "" else r.messages[|r.messages| - 1].content
    ensures resp.model == if |r.model| == 0 then "echo-1" else r.model
    // Prompt tokens are the fields of all contents, completion tokens those of the reply.
    ensures space(' ') ==> resp.promptTokens == AtLeastOne(|AllFields(space, r.messages)|)
    ensures space(' ') && (forall c :: c in "echo:" ==> !space(c)) ==>
              resp.completionTokens == 1 + if r.messages == [] then 0
                                           else |Fields(space, r.messages[|r.messages| - 1].content)|
    ensures resp.totalTokens == resp.promptTokens + resp.completionTokens
  {
    var prompt, last := "", "";
    for i := 0 to |r.messages|
      invariant prompt == Prompt(r.messages[..i]) && last == Last(r.messages[..i])
    {
      assert r.messages[..i + 1][..i] == r.messages[..i];
      prompt := prompt + r.messages[i].content + " ";
      last := r.messages[i].content;
    }
    assert r.messages[..|r.messages|] == r.messages;
    var reply := "echo: " + last;
    var tokensIn := CountTokens(space, prompt);
    var tokensOut := CountTokens(space, reply);
    var model := r.model;
    if model == "" {
      model := "echo-1";
    }
    resp := Response(model, reply, tokensIn, tokensOut, tokensIn + tokensOut);
    if space(' ') {
      AnswerTokens(space, r);
    }
  }

  /** Two responses a caller and the meter cannot tell apart but by the spacing of the reply. */
  predicate SameAnswer(space: char -> bool, a: Response, b: Response)
  {
    && a.model == b.model
    && a.promptTokens == b.promptTokens && a.completionTokens == b.completionTokens && a.totalTokens == b.totalTokens
    && Fields(space, a.reply) == Fields(space, b.reply)
  }

  lemma {:induction false} NormalFields(space: char -> bool, messages: seq<Message>)
    ensures AllFields(space, Normal(space, messages)) == AllFields(space, messages)
    ensures Fields(space, Last(Normal(space, messages))) == Fields(space, Last(messages))
  {
    if messages == [] {
    } else {
      var k := |messages| - 1;
      assert Normal(space, messages)[..k] == Normal(space, messages[..k]);
      NormalFields(space, messages[..k]);
      FieldsIgnoreTrim(space, messages[k].content);
    }
  }

  /** The provider cannot tell a request from its normal form. */
  lemma AnswerIgnoresTrimming(space: char -> bool, r: Request)
    requires space(' ')
    ensures SameAnswer(space, Answer(space, r), Answer(space, NormalRequest(space, r)))
  {
    var normal := Normal(space, r.messages);
    PromptFields(space, r.messages);
    PromptFields(space, normal);
    ReplyFields(space, r.messages);
    ReplyFields(space, normal);
    NormalFields(space, r.messages);
  }

  /** Plain requests with the same cache text get the same answer. */
  lemma SameTextSameAnswer(space: char -> bool, a: Request, b: Request)
    requires space(' ') && Plain(space, a) && Plain(space, b) && PreImage(space, a) == PreImage(space, b)
    ensures SameAnswer(space, Answer(space, a), Answer(space, b))
  {
    EqualTextsEqualRequests(space, a, b);
    AnswerIgnoresTrimming(space, a);
    AnswerIgnoresTrimming(space, b);
  }

  lemma FirstFieldExists(space: char -> bool, s: string)
    requires s != [] && !space(s[0])
    ensures 0 < |Fields(space, s)|
  {
  }

  /** Plainness is needed: a message that swallows a newline and the start of an empty second
      message has the text of the two, and another answer. */
  lemma CollidingTextsDifferentAnswers(space: char -> bool, model: string, first: Message, role: string)
    requires space(' ') && !space('e') && first.content != [] && !space(first.content[0]) && space('\n')
    requires Trim(space, first.content) == first.content
    requires var joined := first.content + "\n" + role + ":"; Trim(space, joined) == joined
    ensures var one := Request(model, [first.(content := first.content + "\n" + role + ":")]);
            var two := Request(model, [first, Message(role, "")]);
            PreImage(space, one) == PreImage(space, two) && !SameAnswer(space, Answer(space, one), Answer(space, two))
  {
    var joined := first.content + "\n" + role + ":";
    assert joined + "" == joined;
    assert first.content + "\n" + role + ":" + "" == joined;
    assert Normal(space, [first, Message(role, "")]) == [first, Message(role, "")];
    NewlinesCollide(space, model, first, Message(role, ""));
    ReplyFields(space, [first.(content := joined)]);
    ReplyFields(space, [first, Message(role, "")]);
    FirstFieldExists(space, joined);
    FirstFieldExists(space, "echo: ");
  }
}
