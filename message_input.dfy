/**
 * `MessageInputComponent`
 * (src/app/ui/chat/message-input/message-input.component.ts): the text
 * buffer bound to the textarea, the send button and the Enter key.
 */
module MessageInput {
  import opened JsString

  /** What one `handleSend` does: the buffer afterwards and the values emitted. */
  datatype SendOutcome = SendOutcome(buffer: string, emitted: seq<string>)

  /**
   * `handleSend` on a buffer: a blank buffer emits nothing and stays as it
   * is; any other buffer is emitted once, untrimmed, and cleared.
   */
  function SendStep(buffer: string): (r: SendOutcome)
    ensures IsBlank(buffer) ==> r.buffer == buffer && r.emitted == []
    ensures !IsBlank(buffer) ==> r.buffer == "" && r.emitted == [buffer]
  {
    TrimEmptyIffBlank(buffer);
    if Trim(buffer) == "" then SendOutcome(buffer, []) else SendOutcome("", [buffer])
  }

  /** The keys `onKeyDown` acts on: Enter without Shift. */
  predicate SubmitsOnKey(key: string, shiftKey: bool)
  {
    key == "Enter" && !shiftKey
  }

  /** A second send right after a successful one emits nothing. */
  lemma SendThenSendEmitsOnce(buffer: string)
    requires !IsBlank(buffer)
    ensures var first := SendStep(buffer);
      first.emitted + SendStep(first.buffer).emitted == [buffer]
  {
    assert SendStep(buffer) == SendOutcome("", [buffer]);
    assert IsBlank("");
  }

  class MessageInputComponent {
    /** `message`, the textarea's two-way bound text. */
    var message: string
    /** Every value passed to `send.emit`, oldest first. */
    var sent: seq<string>

    constructor ()
      ensures message == "" && sent == []
    {
      message := "";
      sent := [];
    }

    /** `[disabled]="!message.trim()"` on the send button. */
    function SendDisabled(): (r: bool)
      reads this
      ensures r <==> IsBlank(message)
    {
      TrimEmptyIffBlank(message);
      Trim(message) == ""
    }

    /** The user edits the textarea (the `ngModel` binding). */
    method Edit(text: string)
      modifies this
      ensures message == text && sent == old(sent)
    {
      message := text;
    }

    /** `handleSend`. */
    method HandleSend()
      modifies this
      ensures message == SendStep(old(message)).buffer
      ensures sent == old(sent) + SendStep(old(message)).emitted
    {
      if Trim(message) == "" {
        return;
      }
      sent := sent + [message];
      message := "";
    }

    /**
     * `onKeyDown`: Enter without Shift prevents the default and sends;
     * any other key changes nothing.
     */
    method OnKeyDown(key: string, shiftKey: bool) returns (preventDefault: bool)
      modifies this
      ensures preventDefault <==> SubmitsOnKey(key, shiftKey)
      ensures preventDefault ==>
        message == SendStep(old(message)).buffer && sent == old(sent) + SendStep(old(message)).emitted
      ensures !preventDefault ==> message == old(message) && sent == old(sent)
    {
      preventDefault := key == "Enter" && !shiftKey;
      if preventDefault {
        HandleSend();
      }
    }
  }
}
