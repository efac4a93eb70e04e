/**
 The application state: an append-only chat log with a loading flag, the
 selected programming language, and the selector that hands the latest
 assistant reply to the canvas.
 */
module App {
  import opened Opt
  import opened PromptComposer
  import opened StepExtractor
  import opened CanvasProjector

  // ---------------------------------------------------------------------------
  // Messages and languages

  datatype Role = User | Assistant

  datatype Message = Message(role: Role, content: string)

  /** The languages the user can pick from. */
  datatype Language = Python | C | Cpp | Java | JavaScript

  /** The name a language is shown and sent under. */
  function LanguageName(l: Language): string {
    match l
    case Python => "Python"
    case C => "C"
    case Cpp => "C++"
    case Java => "Java"
    case JavaScript => "JavaScript"
  }

  /** The choices in the order they are offered. */
  const AvailableLanguages: seq<Language> := [Python, C, Cpp, Java, JavaScript]

  /** The reply appended when the model call is rejected. */
  const ErrorReply: string := "Error processing request. Please try again."

  /** How the awaited reply settled. */
  datatype Settled = Resolved(text: string) | Rejected

  // ---------------------------------------------------------------------------
  // The selector

  /** The contents of the assistant messages, in order (the role filter). */
  function AssistantContents(messages: seq<Message>): (r: seq<string>)
    ensures |r| <= |messages|
  {
    if messages == [] then []
    else
      var last := messages[|messages| - 1];
      AssistantContents(messages[..|messages| - 1]) + (if last.role == Assistant then [last.content] else [])
  }

  /**
   The content of the last assistant message, if there is one: absent exactly
   when no message is from the assistant, otherwise the content of the
   assistant message that no other assistant message follows.
   */
  function LatestAssistantMessage(messages: seq<Message>): (r: Option<string>)
    ensures r == None <==> forall i :: 0 <= i < |messages| ==> messages[i].role != Assistant
    ensures r.Some? ==>
      exists i :: 0 <= i < |messages| && messages[i] == Message(Assistant, r.value)
        && forall j :: i < j < |messages| ==> messages[j].role != Assistant
  {
    var replies := AssistantContents(messages);
    AssistantContentsLast(messages);
    if replies == [] then None else Some(replies[|replies| - 1])
  }

  // ---------------------------------------------------------------------------
  // The session

  class ChatSession {
    var messages: seq<Message>
    var isLoading: bool
    var selectedLang: Language

    constructor ()
      ensures messages == [] && !isLoading && selectedLang == Python
    {
      messages := [];
      isLoading := false;
      selectedLang := Python;
    }

    method SetLanguage(l: Language)
      modifies this`selectedLang
      ensures selectedLang == l
    {
      selectedLang := l;
    }

    /** The part of sending that runs before the reply is awaited: log the question and show the spinner. */
    method BeginSend(message: string)
      modifies this`messages, this`isLoading
      ensures messages == old(messages) + [Message(User, message)]
      ensures isLoading
    {
      messages := messages + [Message(User, message)];
      isLoading := true;
    }

    /** The part of sending that runs once the reply settled: log the reply, or the error text, and hide the spinner. */
    method FinishSend(outcome: Settled)
      modifies this`messages, this`isLoading
      ensures outcome.Resolved? ==> messages == old(messages) + [Message(Assistant, outcome.text)]
      ensures outcome.Rejected? ==> messages == old(messages) + [Message(Assistant, ErrorReply)]
      ensures !isLoading
    {
      match outcome {
        case Resolved(text) =>
          messages := messages + [Message(Assistant, text)];
        case Rejected =>
          messages := messages + [Message(Assistant, ErrorReply)];
      }
      isLoading := false;
    }

    /**
     Send a question in the selected language and log the answer. The model
     call is `GenerateResponse`, which always resolves, so the rejected branch
     is not taken here.
     */
    method HandleSendMessage(message: string, send: string -> SdkOutcome)
      modifies this`messages, this`isLoading
      ensures messages == old(messages) +
        [Message(User, message), Message(Assistant, GenerateResponse(message, Some(LanguageName(selectedLang)), send))]
      ensures !isLoading
    {
      var language := LanguageName(selectedLang);
      BeginSend(message);
      var responseText := GenerateResponse(message, Some(language), send);
      FinishSend(Resolved(responseText));
      AppendTwo(old(messages), Message(User, message), Message(Assistant, responseText));
    }
  }

  // ---------------------------------------------------------------------------
  // Lemmas

  lemma AppendTwo<T>(s: seq<T>, a: T, b: T)
    ensures s + [a] + [b] == s + [a, b]
  {
  }

  /**
   The offered languages are exactly the five languages, each offered once
   under a name of its own, with Python first.
   */
  lemma LanguagesOffered()
    ensures AvailableLanguages[0] == Python
    ensures forall l: Language :: l in AvailableLanguages
    ensures forall i, j :: 0 <= i < j < |AvailableLanguages| ==>
      LanguageName(AvailableLanguages[i]) != LanguageName(AvailableLanguages[j])
  {
    forall l: Language
      ensures l in AvailableLanguages
    {
      match l {
        case Python => assert AvailableLanguages[0] == l;
        case C => assert AvailableLanguages[1] == l;
        case Cpp => assert AvailableLanguages[2] == l;
        case Java => assert AvailableLanguages[3] == l;
        case JavaScript => assert AvailableLanguages[4] == l;
      }
    }
  }

  /** Filtering distributes over appending to the log. */
  lemma {:induction false} AssistantContentsAppend(messages: seq<Message>, m: Message)
    ensures AssistantContents(messages + [m]) ==
      AssistantContents(messages) + (if m.role == Assistant then [m.content] else [])
  {
    assert (messages + [m])[..|messages|] == messages;
  }

  /** A user message does not change the latest assistant message. */
  lemma LatestAfterUser(messages: seq<Message>, content: string)
    ensures LatestAssistantMessage(messages + [Message(User, content)]) == LatestAssistantMessage(messages)
  {
    AssistantContentsAppend(messages, Message(User, content));
    assert AssistantContents(messages) + [] == AssistantContents(messages);
  }

  /** An assistant message becomes the latest assistant message. */
  lemma LatestAfterAssistant(messages: seq<Message>, content: string)
    ensures LatestAssistantMessage(messages + [Message(Assistant, content)]) == Some(content)
  {
    AssistantContentsAppend(messages, Message(Assistant, content));
  }

  /**
   The role filter keeps exactly the assistant messages, in log order: the
   result is read off a strictly increasing list of positions that holds every
   assistant message of the log.
   */
  lemma {:induction false} AssistantContentsInOrder(messages: seq<Message>) returns (idx: seq<nat>)
    ensures |idx| == |AssistantContents(messages)|
    ensures forall k :: 0 <= k < |idx| ==>
      idx[k] < |messages| && messages[idx[k]] == Message(Assistant, AssistantContents(messages)[k])
    ensures forall j, k :: 0 <= j < k < |idx| ==> idx[j] < idx[k]
    ensures forall i :: 0 <= i < |messages| && messages[i].role == Assistant ==> i in idx
  {
    if messages == [] {
      idx := [];
    } else {
      var n := |messages| - 1;
      var front := messages[..n];
      var last := messages[n];
      var before := AssistantContentsInOrder(front);
      assert messages == front + [last];
      AssistantContentsAppend(front, last);
      if last.role == Assistant {
        idx := before + [n];
        assert last == Message(Assistant, last.content);
      } else {
        idx := before;
      }
      forall i | 0 <= i < |messages| && messages[i].role == Assistant
        ensures i in idx
      {
        if i < n {
          assert front[i] == messages[i];
        }
      }
    }
  }

  /** The last filtered content belongs to the last assistant message; nothing is filtered exactly when there is none. */
  lemma AssistantContentsLast(messages: seq<Message>)
    ensures AssistantContents(messages) == [] <==> forall i :: 0 <= i < |messages| ==> messages[i].role != Assistant
    ensures var replies := AssistantContents(messages);
      replies != [] ==>
        exists i :: 0 <= i < |messages| && messages[i] == Message(Assistant, replies[|replies| - 1])
          && forall j :: i < j < |messages| ==> messages[j].role != Assistant
  {
    var replies := AssistantContents(messages);
    var idx := AssistantContentsInOrder(messages);
    if replies != [] {
      var top := |idx| - 1;
      var i := idx[top];
      assert messages[i] == Message(Assistant, replies[|replies| - 1]);
      forall j | 0 <= j < |messages| && messages[j].role == Assistant
        ensures j <= i
      {
        assert j in idx;
        var m :| 0 <= m < |idx| && idx[m] == j;
        assert m == top || idx[m] < idx[top];
      }
    }
  }

  /**
   A full exchange in a new session: the log holds the question and the
   reply, loading is over, and the reply is what the canvas is given.
   */
  method FirstExchange(question: string, send: string -> SdkOutcome) returns (log: seq<Message>, latest: Option<string>)
    ensures log == [Message(User, question), Message(Assistant, GenerateResponse(question, Some("Python"), send))]
    ensures latest == Some(log[1].content)
  {
    var reply := GenerateResponse(question, Some("Python"), send);
    var session := new ChatSession();
    assert LanguageName(session.selectedLang) == "Python";
    session.HandleSendMessage(question, send);
    log := session.messages;
    AppendTwo([], Message(User, question), Message(Assistant, reply));
    latest := LatestAssistantMessage(log);
    LatestAfterAssistant([Message(User, question)], reply);
  }

  /**
   The whole pipeline once: a question is sent in a new session, the reply
   becomes the canvas's latest message, and the debounce timer fires. The
   canvas then shows exactly the layout of the steps extracted from the reply.
   */
  method AskAndDraw(question: string, send: string -> SdkOutcome) returns (drawn: seq<TextShape>)
    ensures drawn == Layout(Steps(GenerateResponse(question, Some("Python"), send)))
  {
    var log, latest := FirstExchange(question, send);
    drawn := ProjectOnNewCanvas(latest);
  }
}
