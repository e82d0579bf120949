/** The chat session of the fact-check page: the input claim, the loading
    flag, the last result or error, the message list and the active tab.
    The request to the endpoint is split in two: `Submit` is what happens
    before the request is sent, `Complete` what happens when its outcome
    arrives, which is a parameter. */
module Session {

  import opened Common
  import opened Text
  import opened ClientTypes
  import opened Store

  datatype Tab = ChatTab | ResultTab

  datatype Message = Message(text: string, isUser: bool)

  /** How the request ends: the network fails, the status is not ok, the
      body is not JSON, or a response arrives. */
  datatype FetchOutcome = NetworkFailure | StatusNotOk(status: int) | BodyNotJson | Received(response: Response)

  const FailureText: string := "Failed to check fact. Please try again later."

  /** The assistant message for a response. */
  function AssistantText(r: Response): string
  {
    "Assessment: " + r.assessment + ". " + r.explanation
  }

  class FactCheckSession {
    var claim: string
    var isLoading: bool
    var result: Option<Response>
    var error: Option<string>
    var messages: seq<Message>
    var activeTab: Tab

    constructor ()
      ensures claim == "" && !isLoading && result == None && error == None
      ensures messages == [] && activeTab == ChatTab
    {
      claim := "";
      isLoading := false;
      result := None;
      error := None;
      messages := [];
      activeTab := ChatTab;
    }

    /** The Send button is disabled exactly when a submit would be refused. */
    predicate SendDisabled()
      reads this
    {
      isLoading || JsTrim(claim) == ""
    }

    /** Typing in the input. */
    method Edit(text: string)
      modifies this
      ensures claim == text
      ensures isLoading == old(isLoading) && result == old(result) && error == old(error)
      ensures messages == old(messages) && activeTab == old(activeTab)
    {
      claim := text;
    }

    /** The part of handleSubmit before the request, for the claim `text`
        the handler sees. A blank claim or a request in flight refuses it and
        nothing changes; otherwise exactly one user message is appended, the
        session is loading, error and result are cleared, and `text` is sent. */
    method SubmitWith(text: string) returns (sent: Option<string>)
      modifies this
      ensures old(isLoading) || JsTrim(text) == "" ==> sent == None && unchanged(this)
      ensures !old(isLoading) && JsTrim(text) != "" ==>
                sent == Some(text)
                && messages == old(messages) + [Message(text, true)]
                && isLoading && error == None && result == None
                && claim == old(claim) && activeTab == old(activeTab)
    {
      if JsTrim(text) == "" || isLoading {
        return None;
      }
      messages := messages + [Message(text, true)];
      isLoading := true;
      error := None;
      result := None;
      sent := Some(text);
    }

    /** handleSubmit on the current input: it is refused exactly when the
        Send button is disabled. */
    method Submit() returns (sent: Option<string>)
      modifies this
      ensures sent == None <==> old(SendDisabled())
      ensures sent == None ==> unchanged(this)
      ensures sent != None ==>
                sent == Some(old(claim))
                && messages == old(messages) + [Message(old(claim), true)]
                && isLoading && error == None && result == None
                && claim == old(claim) && activeTab == old(activeTab)
    {
      sent := SubmitWith(claim);
    }

    /** The rest of handleSubmit, when the outcome of the request arrives.
        On a response: it becomes the result, exactly one assistant message
        is appended, the result tab opens and the input is cleared. On any
        failure: only the error text is set. Loading ends either way. No
        check ties the outcome to the submit that caused it. */
    method Complete(outcome: FetchOutcome)
      modifies this
      ensures !isLoading
      ensures outcome.Received? ==>
                result == Some(outcome.response)
                && messages == old(messages) + [Message(AssistantText(outcome.response), false)]
                && activeTab == ResultTab && claim == "" && error == old(error)
      ensures !outcome.Received? ==>
                error == Some(FailureText)
                && messages == old(messages) && claim == old(claim)
                && result == old(result) && activeTab == old(activeTab)
    {
      match outcome {
        case Received(r) =>
          result := Some(r);
          messages := messages + [Message(AssistantText(r), false)];
          activeTab := ResultTab;
          claim := "";
        case _ =>
          error := Some(FailureText);
      }
      isLoading := false;
    }

    /** handleKeyDown: Enter without Shift submits; any other key does
        nothing. */
    method KeyDown(key: string, shift: bool) returns (sent: Option<string>)
      modifies this
      ensures key != "Enter" || shift ==> sent == None && unchanged(this)
      ensures key == "Enter" && !shift ==> (sent == None <==> old(SendDisabled()))
      ensures key == "Enter" && !shift && sent == None ==> unchanged(this)
      ensures key == "Enter" && !shift && sent != None ==>
                sent == Some(old(claim)) && messages == old(messages) + [Message(old(claim), true)]
                && isLoading && error == None && result == None
                && claim == old(claim) && activeTab == old(activeTab)
    {
      if key == "Enter" && !shift {
        sent := Submit();
      } else {
        sent := None;
      }
    }

    /** handleReset: the conversation is cleared and the chat tab opens;
        the loading flag is left as it is. */
    method Reset()
      modifies this
      ensures result == None && error == None && claim == "" && messages == []
      ensures activeTab == ChatTab && isLoading == old(isLoading)
    {
      result := None;
      error := None;
      claim := "";
      messages := [];
      activeTab := ChatTab;
    }

    /** The prefill effect as written: a non-empty store claim is copied
        into the input; with auto-submit on, the submit handler runs with
        the input claim of the render the effect belongs to (the copy is not
        visible to it yet), and the store is reset. */
    method PrefillEffect(store: FactCheckStore) returns (sent: Option<string>)
      modifies this, store
      ensures old(store.claim) == "" ==> sent == None && unchanged(this) && unchanged(store)
      ensures old(store.claim) != "" ==> claim == old(store.claim)
      ensures old(store.claim) != "" && !old(store.autoSubmit) ==>
                sent == None && unchanged(store) && messages == old(messages) && isLoading == old(isLoading)
                && result == old(result) && error == old(error) && activeTab == old(activeTab)
      ensures old(store.claim) != "" && old(store.autoSubmit) ==>
                store.IsInitial()
                && sent == (if old(isLoading) || JsTrim(old(claim)) == "" then None else Some(old(claim)))
                && messages == (if sent == None then old(messages) else old(messages) + [Message(old(claim), true)])
                && activeTab == old(activeTab)
                && (sent != None ==> isLoading && error == None && result == None)
                && (sent == None ==> isLoading == old(isLoading) && error == old(error) && result == old(result))
    {
      if store.claim != "" {
        var rendered := claim;
        claim := store.claim;
        if store.autoSubmit {
          sent := SubmitWith(rendered);
          store.ResetClaim();
        } else {
          sent := None;
        }
      } else {
        sent := None;
      }
    }

    /** The prefill effect as evidently intended: the claim handed over
        through the store is the one submitted. */
    method PrefillEffectIntended(store: FactCheckStore) returns (sent: Option<string>)
      modifies this, store
      ensures old(store.claim) == "" ==> sent == None && unchanged(this) && unchanged(store)
      ensures old(store.claim) != "" ==> claim == old(store.claim)
      ensures old(store.claim) != "" && !old(store.autoSubmit) ==>
                sent == None && unchanged(store) && messages == old(messages) && isLoading == old(isLoading)
                && result == old(result) && error == old(error) && activeTab == old(activeTab)
      ensures old(store.claim) != "" && old(store.autoSubmit) ==>
                store.IsInitial()
                && sent == (if old(isLoading) || JsTrim(old(store.claim)) == "" then None else Some(old(store.claim)))
                && messages == (if sent == None then old(messages)
                                else old(messages) + [Message(old(store.claim), true)])
                && activeTab == old(activeTab)
                && (sent != None ==> isLoading && error == None && result == None)
                && (sent == None ==> isLoading == old(isLoading) && error == old(error) && result == old(result))
    {
      if store.claim != "" {
        claim := store.claim;
        if store.autoSubmit {
          sent := SubmitWith(claim);
          store.ResetClaim();
        } else {
          sent := None;
        }
      } else {
        sent := None;
      }
    }
  }

  /** A claim handed over through the store to a freshly mounted page: as
      written nothing is submitted (the input of the first render is empty)
      and no message appears, though the claim lands in the input; as
      intended the claim is submitted. */
  method FreshMountHandOff(c: string) returns (sentAsWritten: Option<string>, inputAsWritten: string,
                                               messagesAsWritten: seq<Message>, sentIntended: Option<string>)
    requires JsTrim(c) != ""
    ensures sentAsWritten == None && messagesAsWritten == [] && inputAsWritten == c
    ensures sentIntended == Some(c)
  {
    assert c != "";
    var store := new FactCheckStore();
    HandOff(store, c);
    var page := new FactCheckSession();
    assert JsTrim(page.claim) == "";
    sentAsWritten := page.PrefillEffect(store);
    inputAsWritten := page.claim;
    messagesAsWritten := page.messages;

    var store2 := new FactCheckStore();
    HandOff(store2, c);
    var page2 := new FactCheckSession();
    sentIntended := page2.PrefillEffectIntended(store2);
  }

  /** A response that arrives after a reset still lands: the result is set
      and the cleared conversation gets the assistant message. */
  method ResponseAfterReset(c: string, r: Response) returns (sent: Option<string>, messages: seq<Message>,
                                                             result: Option<Response>)
    requires JsTrim(c) != ""
    ensures sent == Some(c)
    ensures messages == [Message(AssistantText(r), false)] && result == Some(r)
  {
    var page := new FactCheckSession();
    page.Edit(c);
    sent := page.Submit();
    page.Reset();
    page.Complete(Received(r));
    messages := page.messages;
    result := page.result;
  }

  /** A failed request keeps the user's message and the input, so the user
      can send it again. */
  method FailureKeepsClaim(c: string, outcome: FetchOutcome) returns (messages: seq<Message>, input: string,
                                                                      error: Option<string>, resendable: bool)
    requires JsTrim(c) != "" && !outcome.Received?
    ensures messages == [Message(c, true)] && input == c && error == Some(FailureText)
    ensures resendable
  {
    var page := new FactCheckSession();
    page.Edit(c);
    var sent := page.Submit();
    page.Complete(outcome);
    messages := page.messages;
    input := page.claim;
    error := page.error;
    resendable := !page.SendDisabled();
  }
}
