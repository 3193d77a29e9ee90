/**
 * The doubts-clearing chat: the user sends the text in the input box, the
 * assistant answers with a reply chosen by the first topic whose keywords the
 * message mentions (ignoring case), or with a general answer that repeats the
 * selected subject and the message itself.
 */
module DoubtsChat {
  import opened Wrappers
  import opened Text

  /** Who wrote a chat message (the `type` field). */
  datatype Sender = User | Ai

  datatype Message = Message(id: string, content: string, sender: Sender)

  /** The subject selected before the user picks one. */
  const DefaultSubject: string := "general"

  /** The topics the assistant recognises, in the order it tests them. */
  datatype Topic = Mathematics | Physics | Chemistry | Biology | Programming

  const Topics: seq<Topic> := [Mathematics, Physics, Chemistry, Biology, Programming]

  /** The lower-case words whose presence selects a topic. */
  function Keywords(t: Topic): seq<string>
  {
    match t
    case Mathematics => ["math", "equation", "calculate"]
    case Physics => ["physics", "force", "energy"]
    case Chemistry => ["chemistry", "reaction", "molecule"]
    case Biology => ["biology", "cell", "organism"]
    case Programming => ["programming", "code", "algorithm"]
  }

  /** The lower-cased message contains one of the topic's keywords. */
  predicate Mentions(message: string, t: Topic) {
    var m := Lower(message);
    var kw := Keywords(t);
    Includes(m, kw[0]) || Includes(m, kw[1]) || Includes(m, kw[2])
  }

  /** The keyword tests of the reply generator, in its order; `None` when no topic matches. */
  function Route(message: string): Option<Topic>
  {
    if Mentions(message, Mathematics) then Some(Mathematics)
    else if Mentions(message, Physics) then Some(Physics)
    else if Mentions(message, Chemistry) then Some(Chemistry)
    else if Mentions(message, Biology) then Some(Biology)
    else if Mentions(message, Programming) then Some(Programming)
    else None
  }

  /** Reference definition: the first topic of `topics` that the message mentions. */
  function FirstMentioned(topics: seq<Topic>, message: string): (r: Option<Topic>)
    ensures r.None? <==> forall k | 0 <= k < |topics| :: !Mentions(message, topics[k])
    ensures r.Some? ==> Mentions(message, r.value)
    ensures r.Some? ==> exists k :: (0 <= k < |topics| && topics[k] == r.value
      && forall j | 0 <= j < k :: !Mentions(message, topics[j]))
  {
    if topics == [] then None
    else if Mentions(message, topics[0]) then Some(topics[0])
    else
      var rest := FirstMentioned(topics[1..], message);
      if rest.Some? then
        var k :| 0 <= k < |topics[1..]| && topics[1..][k] == rest.value
          && forall j | 0 <= j < k :: !Mentions(message, topics[1..][j]);
        assert topics[k + 1] == rest.value;
        rest
      else rest
  }

  /** One step of `FirstMentioned`: the head topic if mentioned, otherwise the first of the rest. */
  lemma FirstMentionedCons(t: Topic, rest: seq<Topic>, message: string)
    ensures FirstMentioned([t] + rest, message)
      == if Mentions(message, t) then Some(t) else FirstMentioned(rest, message)
  {
    assert ([t] + rest)[1..] == rest;
  }

  /** The keyword chain picks exactly the first topic, in the fixed order, that the message mentions. */
  lemma RouteIsFirstMentioned(message: string)
    ensures Route(message) == FirstMentioned(Topics, message)
  {
    FirstMentionedCons(Programming, [], message);
    FirstMentionedCons(Biology, [Programming], message);
    FirstMentionedCons(Chemistry, [Biology, Programming], message);
    FirstMentionedCons(Physics, [Chemistry, Biology, Programming], message);
    FirstMentionedCons(Mathematics, [Physics, Chemistry, Biology, Programming], message);
    assert [Programming] == [Programming] + [];
    assert [Biology, Programming] == [Biology] + [Programming];
    assert [Chemistry, Biology, Programming] == [Chemistry] + [Biology, Programming];
    assert [Physics, Chemistry, Biology, Programming] == [Physics] + [Chemistry, Biology, Programming];
    assert Topics == [Mathematics] + [Physics, Chemistry, Biology, Programming];
  }

  /** The keyword tests ignore case: an upper-case message routes like its lower-case form. */
  lemma RouteCaseInsensitive(message: string)
    ensures Route(Lower(message)) == Route(message)
  {
    LowerIdempotent(message);
  }

  /**
   * The texts the assistant speaks: its greeting, one answer per topic, and the general
   * answer's three fixed pieces around the subject and the quoted message.
   */
  datatype ReplyTexts = ReplyTexts(
    welcome: string,
    mathematics: string,
    physics: string,
    chemistry: string,
    biology: string,
    programming: string,
    opening: string,
    asking: string,
    explanation: string)

  /** The texts of the study app's assistant. */
  const SourceTexts: ReplyTexts := ReplyTexts(
    "Hello! I'm your AI study assistant. I can help you understand concepts, solve problems, and clarify doubts across various subjects. What would you like to learn about today?",
    "I'd be happy to help with your math problem! Could you share the specific equation or concept you're working with? I can break it down step by step and explain the methodology.",
    "Physics can be challenging but fascinating! Let me help you understand this concept. Could you provide more details about the specific topic or problem you're dealing with? I can explain the principles and provide examples.",
    "Chemistry involves understanding how matter behaves at the molecular level. What specific chemistry concept would you like me to explain? I can help with reactions, bonding, or any other chemistry topic.",
    "Biology is the study of life and living organisms. I can help explain biological processes, systems, and concepts. What specific area of biology are you studying?",
    "Programming concepts can be tricky at first, but they become clearer with practice. What programming language or concept are you working with? I can provide explanations and examples.",
    "That's an interesting question about ",
    "! I understand you're asking about ",
    ". Let me provide a comprehensive explanation:\n\nBased on your question, here are the key points to consider:\n\n1. **Core Concept**: The fundamental principle behind this topic involves understanding the relationship between different variables and factors.\n\n2. **Practical Application**: This concept is commonly used in real-world scenarios and can be applied to solve various problems.\n\n3. **Common Mistakes**: Students often confuse this with similar concepts, so it's important to understand the distinctions.\n\nWould you like me to elaborate on any specific aspect or provide some practice problems to help solidify your understanding?")

  /** The fixed answer for a recognised topic. */
  function CannedReply(texts: ReplyTexts, t: Topic): string
  {
    match t
    case Mathematics => texts.mathematics
    case Physics => texts.physics
    case Chemistry => texts.chemistry
    case Biology => texts.biology
    case Programming => texts.programming
  }

  /** The general answer, built from the subject and the message as typed, the message in quotes. */
  function Fallback(texts: ReplyTexts, subject: string, message: string): string
  {
    texts.opening + subject + texts.asking + ("\"" + message + "\"") + texts.explanation
  }

  /** The general answer names the subject and quotes the message unchanged. */
  lemma FallbackEchoes(texts: ReplyTexts, subject: string, message: string)
    ensures Includes(Fallback(texts, subject, message), subject)
    ensures Includes(Fallback(texts, subject, message), "\"" + message + "\"")
  {
    var quoted := "\"" + message + "\"";
    var r := Fallback(texts, subject, message);
    var pre := texts.opening + subject + texts.asking;
    assert r == pre + quoted + texts.explanation;
    assert r[|pre|..|pre| + |quoted|] == quoted;
    assert OccursAt(r, quoted, |pre|);
    var n := |texts.opening|;
    assert r == texts.opening + subject + (texts.asking + quoted + texts.explanation);
    assert r[n..n + |subject|] == subject;
    assert OccursAt(r, subject, n);
  }

  /** `generateAIResponse` for the subject selected when the message was sent. */
  function GenerateReply(texts: ReplyTexts, message: string, subject: string): string
  {
    match Route(message)
    case Some(t) => CannedReply(texts, t)
    case None => Fallback(texts, subject, message)
  }

  /**
   * A message that mentions a topic gets the answer of the first such topic,
   * whatever the subject; any other message gets the general answer, which
   * names the subject and quotes the message.
   */
  lemma GenerateReplySpec(texts: ReplyTexts, message: string, subject: string)
    ensures (exists k :: 0 <= k < |Topics| && Mentions(message, Topics[k])) ==>
      GenerateReply(texts, message, subject) == CannedReply(texts, FirstMentioned(Topics, message).value)
    ensures (forall k | 0 <= k < |Topics| :: !Mentions(message, Topics[k])) ==>
      && GenerateReply(texts, message, subject) == Fallback(texts, subject, message)
      && Includes(GenerateReply(texts, message, subject), subject)
      && Includes(GenerateReply(texts, message, subject), "\"" + message + "\"")
  {
    RouteIsFirstMentioned(message);
    FallbackEchoes(texts, subject, message);
  }

  /** Every assistant message after the first answers the user message right before it. */
  predicate RepliesFollowQuestions(messages: seq<Message>) {
    forall i | 0 < i < |messages| && messages[i].sender == Ai :: messages[i - 1].sender == User
  }

  /** An assistant message appended after a user message keeps every reply after a question. */
  lemma AppendReplyKeepsOrder(messages: seq<Message>, reply: Message)
    requires RepliesFollowQuestions(messages)
    requires |messages| > 0 && messages[|messages| - 1].sender == User
    ensures RepliesFollowQuestions(messages + [reply])
  {
    var ms := messages + [reply];
    forall i | 0 < i < |ms| && ms[i].sender == Ai ensures ms[i - 1].sender == User {
      if i < |messages| {
        assert ms[i] == messages[i] && ms[i - 1] == messages[i - 1];
      }
    }
  }

  /** A user message keeps every reply after a question. */
  lemma AppendQuestionKeepsOrder(messages: seq<Message>, question: Message)
    requires RepliesFollowQuestions(messages)
    requires question.sender == User
    ensures RepliesFollowQuestions(messages + [question])
  {
    var ms := messages + [question];
    forall i | 0 < i < |ms| && ms[i].sender == Ai ensures ms[i - 1].sender == User {
      assert i < |messages|;
      assert ms[i] == messages[i] && ms[i - 1] == messages[i - 1];
    }
  }

  /** The greeting the chat opens with, under the id "1". */
  function Welcome(texts: ReplyTexts): Message
  {
    Message("1", texts.welcome, Ai)
  }

  /** The chat page's state. */
  class DoubtsChat {
    /** The texts the assistant speaks; the study app builds its chat with `SourceTexts`. */
    const texts: ReplyTexts
    var messages: seq<Message>
    var inputMessage: string
    var isTyping: bool
    var selectedSubject: string
    /** The message and the subject of the request awaiting its reply. */
    var pending: Option<(string, string)>

    /**
     * A request is pending exactly while the assistant is typing, and it is
     * for the last message, which the user sent.
     */
    predicate Valid()
      reads this
    {
      && (isTyping <==> pending.Some?)
      && (pending.Some? ==>
            && |messages| > 0
            && messages[|messages| - 1].sender == User
            && messages[|messages| - 1].content == pending.value.0)
      && RepliesFollowQuestions(messages)
    }

    constructor (texts: ReplyTexts)
      ensures Valid()
      ensures this.texts == texts
      ensures messages == [Welcome(texts)] && inputMessage == "" && !isTyping
      ensures selectedSubject == DefaultSubject && pending == None
    {
      this.texts := texts;
      messages := [Welcome(texts)];
      inputMessage := "";
      isTyping := false;
      selectedSubject := DefaultSubject;
      pending := None;
    }

    /** Typing, dictation or a quick prompt replaces the input text. */
    method SetInput(text: string)
      modifies this`inputMessage
      ensures inputMessage == text
    {
      inputMessage := text;
    }

    /** A subject button. */
    method SelectSubject(subject: string)
      modifies this`selectedSubject
      ensures selectedSubject == subject
    {
      selectedSubject := subject;
    }

    /**
     * `handleSendMessage` up to the wait for the reply, reachable only while
     * the assistant is not typing. Blank input does nothing; otherwise the
     * input, untrimmed, becomes a user message, the box is cleared, and a
     * reply is requested for that text and the current subject.
     */
    method Send(freshId: string)
      requires Valid() && !isTyping
      modifies this`messages, this`inputMessage, this`isTyping, this`pending
      ensures Valid()
      ensures IsBlank(old(inputMessage)) ==>
        messages == old(messages) && inputMessage == old(inputMessage) && !isTyping && pending == None
      ensures !IsBlank(old(inputMessage)) ==>
        && messages == old(messages) + [Message(freshId, old(inputMessage), User)]
        && inputMessage == "" && isTyping
        && pending == Some((old(inputMessage), selectedSubject))
    {
      var text := Trim(inputMessage);
      if text == "" {
        return;
      }
      var sent := inputMessage;
      AppendQuestionKeepsOrder(messages, Message(freshId, sent, User));
      messages := messages + [Message(freshId, sent, User)];
      inputMessage := "";
      isTyping := true;
      pending := Some((sent, selectedSubject));
    }

    /**
     * The awaited reply settles: on success the assistant's answer to the
     * pending message and subject is appended; on failure only a notice is
     * shown. Typing stops either way.
     */
    method Complete(success: bool, freshId: string)
      requires Valid() && isTyping
      modifies this`messages, this`isTyping, this`pending
      ensures Valid()
      ensures !isTyping && pending == None
      ensures old(messages[|messages| - 1]).sender == User
      ensures success ==>
        messages == old(messages) + [Message(freshId, GenerateReply(texts, old(pending).value.0, old(pending).value.1), Ai)]
      ensures !success ==> messages == old(messages)
    {
      if success {
        var reply := Message(freshId, GenerateReply(texts, pending.value.0, pending.value.1), Ai);
        AppendReplyKeepsOrder(messages, reply);
        messages := messages + [reply];
      }
      isTyping := false;
      pending := None;
    }
  }
}
