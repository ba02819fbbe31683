/** The chat state of the page component: the list of sent messages, the
    text being typed, and whether the message panel is shown. Rendering is not
    modelled; each handler is a method that updates the state. A message id
    (`Date.now().toString()` in the page) is passed in by the caller. */
module ChatPage {
  import opened JsText

  datatype ChatMessage = ChatMessage(id: string, content: string)

  /** What every stored message satisfies: its content is the trimmed text of
      a non-blank input. */
  ghost predicate WellFormed(m: ChatMessage) {
    m.content != [] && IsTrimmed(m.content)
  }

  /** The effect of `sendMessage` on messages and input: a blank input changes
      nothing; otherwise its trimmed text is appended and the input is cleared. */
  ghost predicate SendTransition(
    messages: seq<ChatMessage>, input: string, id: string,
    messages': seq<ChatMessage>, input': string)
    ensures SendTransition(messages, input, id, messages', input') ==>
      |messages| <= |messages'| <= |messages| + 1 && messages'[..|messages|] == messages
    ensures SendTransition(messages, input, id, messages', input') ==>
      (forall i :: 0 <= i < |messages| ==> WellFormed(messages[i])) ==>
      (forall i :: 0 <= i < |messages'| ==> WellFormed(messages'[i]))
  {
    if Trim(input) == [] then messages' == messages && input' == input
    else messages' == messages + [ChatMessage(id, Trim(input))] && input' == ""
  }

  /** A send that goes through grows the list by exactly one well-formed
      message at the end and keeps every earlier one. */
  lemma SendAppendsOne(
    messages: seq<ChatMessage>, input: string, id: string,
    messages': seq<ChatMessage>, input': string)
    requires SendTransition(messages, input, id, messages', input')
    requires exists i :: 0 <= i < |input| && !IsWhitespace(input[i])
    ensures |messages'| == |messages| + 1
    ensures messages'[..|messages|] == messages
    ensures messages'[|messages|] == ChatMessage(id, Trim(input))
    ensures WellFormed(messages'[|messages|])
    ensures input' == ""
  {
    assert messages'[..|messages|] == messages;
  }

  class Page {
    var messages: seq<ChatMessage>
    var input: string
    var showMessages: bool

    ghost predicate Valid()
      reads this
    {
      forall i :: 0 <= i < |messages| ==> WellFormed(messages[i])
    }

    constructor ()
      ensures Valid()
      ensures messages == [] && input == "" && !showMessages
    {
      messages := [];
      input := "";
      showMessages := false;
    }

    /** The Send button is enabled: the input holds a non-whitespace character. */
    predicate CanSend()
      reads this
      ensures CanSend() <==> exists i :: 0 <= i < |input| && !IsWhitespace(input[i])
    {
      Trim(input) != []
    }

    /** The textarea's change handler. */
    method OnInputChange(value: string)
      modifies this`input
      ensures input == value
      ensures messages == old(messages) && showMessages == old(showMessages)
    {
      input := value;
    }

    /** Sends the input when the Send button would be enabled, and only then. */
    method SendMessage(id: string)
      requires Valid()
      modifies this`messages, this`input
      ensures Valid()
      ensures SendTransition(old(messages), old(input), id, messages, input)
      ensures !old(CanSend()) ==> messages == old(messages) && input == old(input)
      ensures old(CanSend()) ==> messages == old(messages) + [ChatMessage(id, Trim(old(input)))] && input == ""
    {
      if Trim(input) == [] {
        return;
      }
      messages := messages + [ChatMessage(id, Trim(input))];
      input := "";
    }

    /** Submitting the form always prevents the default action and sends. */
    method HandleSubmit(id: string) returns (defaultPrevented: bool)
      requires Valid()
      modifies this`messages, this`input
      ensures Valid()
      ensures defaultPrevented
      ensures SendTransition(old(messages), old(input), id, messages, input)
    {
      defaultPrevented := true;
      SendMessage(id);
    }

    /** Enter without Shift prevents the default newline and sends; every
        other key, Shift+Enter included, changes nothing. */
    method HandleKeyDown(key: string, shiftKey: bool, id: string) returns (defaultPrevented: bool)
      requires Valid()
      modifies this`messages, this`input
      ensures Valid()
      ensures defaultPrevented <==> key == "Enter" && !shiftKey
      ensures defaultPrevented ==> SendTransition(old(messages), old(input), id, messages, input)
      ensures !defaultPrevented ==> messages == old(messages) && input == old(input)
    {
      defaultPrevented := false;
      if key == "Enter" && !shiftKey {
        defaultPrevented := true;
        SendMessage(id);
      }
    }

    /** Focusing the textarea shows the messages. */
    method HandleTextareaFocus()
      modifies this`showMessages
      ensures showMessages
      ensures messages == old(messages) && input == old(input)
    {
      showMessages := true;
    }

    /** The Close button hides the messages. */
    method Close()
      modifies this`showMessages
      ensures !showMessages
      ensures messages == old(messages) && input == old(input)
    {
      showMessages := false;
    }
  }

  /** Typing "  hi  " and pressing Enter stores "hi"; Shift+Enter on the
      cleared input does nothing. */
  method EnterSendsTrimmedText(page: Page)
    requires page.Valid() && page.messages == []
    modifies page
  {
    page.OnInputChange("  hi  ");
    assert PaddedAt("  hi  ", "hi", 2) by {
      assert "  hi  "[2..4] == "hi";
      assert "  hi  "[..2] == "  " && "  hi  "[4..] == "  ";
    }
    TrimUnique("  hi  ", "hi", 2);
    var prevented := page.HandleKeyDown("Enter", false, "1");
    assert prevented && page.messages == [ChatMessage("1", "hi")] && page.input == "";
    prevented := page.HandleKeyDown("Enter", true, "2");
    assert !prevented && |page.messages| == 1;
  }
}
