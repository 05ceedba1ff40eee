/** The "Portal Helper" chat widget of the Reports and APIs pages: a floating
    button opens a window with the conversation; each message the user sends
    is answered by a fixed text chosen by keyword. */
module ChatBotWidget {
  import opened Text

  datatype Sender = Bot | User

  datatype Message = Message(sender: Sender, text: string)

  const Greeting: string :=
    "\U{1F44B} Hi, I\U{2019}m your Portal Helper. I can help you find datasets, APIs, and Reports."

  /** The four answers the helper knows. */
  datatype Answer = DatasetsAnswer | ApisAnswer | HelpAnswer | Apology

  /** The answer to an input: the first of "dataset", "api", "help" that the
      lower-cased input contains picks it; with none of them, the apology. */
  function ChooseAnswer(input: string): Answer
  {
    var t := ToLower(input);
    if Contains(t, "dataset") then DatasetsAnswer
    else if Contains(t, "api") then ApisAnswer
    else if Contains(t, "help") then HelpAnswer
    else Apology
  }

  function AnswerText(a: Answer): string
  {
    match a
    case DatasetsAnswer => "\U{2705} You can explore datasets in the Catalog page."
    case ApisAnswer => "\U{1F517} APIs are available under the API page."
    case HelpAnswer => "Here\U{2019}s what I can do:\n- Show datasets \U{1F4CA}\n- Point to APIs \U{1F517}\n- Answer FAQs \U{2753}"
    case Apology => "\U{1F916} Sorry, I don\U{2019}t have an answer for that yet."
  }

  /** The choice does not depend on letter case: an input and its lower-cased
      form get the same answer. */
  lemma AnswerIgnoresCase(input: string)
    ensures ChooseAnswer(ToLower(input)) == ChooseAnswer(input)
  {
    assert ToLower(ToLower(input)) == ToLower(input);
  }

  /** "dataset" wins over the other keywords, and "api" over "help": an input
      mentioning several gets the answer of the earliest in that order. */
  lemma AnswerPriority(input: string)
    ensures Contains(ToLower(input), "dataset") ==> ChooseAnswer(input) == DatasetsAnswer
    ensures !Contains(ToLower(input), "dataset") && Contains(ToLower(input), "api") ==> ChooseAnswer(input) == ApisAnswer
    ensures ChooseAnswer(input) == Apology <==>
      !Contains(ToLower(input), "dataset") && !Contains(ToLower(input), "api") && !Contains(ToLower(input), "help")
  {
  }

  /** A conversation as the widget keeps it: the greeting, then pairs of a
      user message and the bot's answer to it. */
  predicate WellFormed(messages: seq<Message>)
  {
    |messages| % 2 == 1 && messages[0] == Message(Bot, Greeting) &&
    forall i :: 1 <= i < |messages| ==> InTurn(messages, i)
  }

  /** Odd places hold the user's messages, even ones (after the greeting) the
      bot's answer to the message before. */
  predicate InTurn(messages: seq<Message>, i: int)
    requires 1 <= i < |messages|
  {
    if i % 2 == 1 then messages[i].sender == User
    else messages[i] == Reply(messages[i - 1].text)
  }

  /** The bot's answer to a text. */
  function Reply(text: string): Message
  {
    Message(Bot, AnswerText(ChooseAnswer(text)))
  }

  /** The conversation after one exchange. */
  function Exchanged(messages: seq<Message>, text: string): seq<Message>
  {
    messages + [Message(User, text), Reply(text)]
  }

  /** An exchange keeps a conversation well formed. */
  lemma ExchangeKeepsWellFormed(messages: seq<Message>, text: string)
    ensures WellFormed(messages) ==> WellFormed(Exchanged(messages, text))
  {
    if !WellFormed(messages) {
      return;
    }
    var ms := Exchanged(messages, text);
    var n := |messages|;
    forall i | 1 <= i < |ms|
      ensures InTurn(ms, i)
    {
      if i < n {
        assert InTurn(messages, i);
        assert ms[i] == messages[i] && ms[i - 1] == messages[i - 1];
      } else if i == n {
        assert ms[i] == Message(User, text);
      } else {
        assert ms[i - 1] == Message(User, text);
      }
    }
  }

  class ChatBot {
    var isOpen: bool
    var messages: seq<Message>
    var input: string

    /** Closed, with only the greeting and an empty input. */
    constructor()
      ensures !isOpen && messages == [Message(Bot, Greeting)] && input == ""
      ensures WellFormed(messages)
    {
      isOpen := false;
      messages := [Message(Bot, Greeting)];
      input := "";
    }

    /** Typing in the input box. */
    method SetInput(text: string)
      modifies this
      ensures input == text && messages == old(messages) && isOpen == old(isOpen)
    {
      input := text;
    }

    /** `handleSend`: a blank input (one whose trim is empty, see
        `Text.BlankIff`) is ignored; otherwise the user's message is
        appended exactly as typed, then the bot's answer to it, and the input
        is emptied. */
    method Send()
      modifies this
      ensures Blank(old(input)) ==> messages == old(messages) && input == old(input)
      ensures !Blank(old(input)) ==> messages == Exchanged(old(messages), old(input)) && input == ""
      ensures isOpen == old(isOpen)
      ensures WellFormed(old(messages)) ==> WellFormed(messages)
    {
      if !Blank(input) {
        ExchangeKeepsWellFormed(messages, input);
        messages := Exchanged(messages, input);
        input := "";
      }
    }

    /** The floating button. */
    method Open()
      modifies this
      ensures isOpen && messages == old(messages) && input == old(input)
    {
      isOpen := true;
    }

    /** The close button of the window: the conversation is kept. */
    method Close()
      modifies this
      ensures !isOpen && messages == old(messages) && input == old(input)
    {
      isOpen := false;
    }
  }
}
