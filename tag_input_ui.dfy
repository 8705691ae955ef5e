/** The React tag prompt (extension/src/components/TagInputUI.tsx): its three
    pieces of state — the typed text, the countdown and whether the user has
    typed — the effect that either schedules the next one-second tick or
    submits, and the calls `handleSubmit` makes on the parent's `onSubmit`
    and `onClose`, recorded in order. Each event handler is a method that
    also runs the effect when the state its dependencies name has changed. */
module TagInputComponent {
  import opened JsString
  import opened TagList

  /** A call the component makes on its parent. */
  datatype Callback = OnSubmit(tags: seq<string>, details: PageDetails) | OnClose

  const CountdownStart := 5
  const SavingText := "Saving..."

  /** `handleSubmit`: `onSubmit` with the comma-list tags of the text and the
      page details, then `onClose`. */
  function SubmitCalls(text: string, details: PageDetails): (calls: seq<Callback>)
    ensures |calls| == 2 && calls[0].OnSubmit? && calls[1] == OnClose
    ensures calls[0].details == details && calls[0].tags == ParseTags(text)
    ensures forall k :: 0 <= k < |calls[0].tags| ==> IsTag(calls[0].tags[k])
  {
    [OnSubmit(ParseTags(text), details), OnClose]
  }

  /** What the user typed as `a,b,c` is what `onSubmit` receives. */
  lemma SubmitCallsJoin(typed: seq<string>, details: PageDetails)
    requires forall k :: 0 <= k < |typed| ==> IsTag(typed[k])
    ensures SubmitCalls(Join(typed, ','), details)[0].tags == typed
  {
    ParseJoin(typed);
  }

  /** The status line: while the count is above 0 it names the count — the
      digits between "Auto-saving in " and "s..." read back as the countdown —
      and otherwise it reads "Saving...". */
  function StatusText(countdown: int): (r: string)
    ensures countdown > 0 ==> ShowsCount(r, countdown)
    ensures countdown <= 0 ==> r == SavingText
  {
    if countdown > 0 then AutoSavingText(countdown) else SavingText
  }

  /** The two status lines never coincide. */
  lemma StatusTextsDiffer(countdown: int)
    requires countdown > 0
    ensures StatusText(countdown) != StatusText(0)
  {
    var r := StatusText(countdown);
    assert r[0] == 'A' && StatusText(0)[0] == 'S';
  }

  /** The mounted component. */
  class TagInput {
    const details: PageDetails
    var tags: string
    var countdown: int
    var userInput: bool
    /** The effect's one-second timeout is scheduled and not yet fired. */
    var tickPending: bool
    var calls: seq<Callback>

    /** The count stays between 0 and 5, and a tick is pending exactly while
        it is above 0. */
    predicate Valid()
      reads this
    {
      0 <= countdown <= CountdownStart && (tickPending <==> countdown > 0)
    }

    /** Mounting: empty text, a count of 5, no input yet, and the first effect
        run schedules a tick. */
    constructor (initialPageDetails: PageDetails)
      ensures Valid()
      ensures details == initialPageDetails && tags == "" && countdown == CountdownStart
      ensures !userInput && tickPending && calls == []
    {
      details := initialPageDetails;
      tags := "";
      countdown := CountdownStart;
      userInput := false;
      tickPending := true;
      calls := [];
    }

    /** The effect: at or below 0 it submits — whether or not the user typed —
        and schedules nothing; otherwise it (re)schedules the tick. */
    method RunEffect()
      requires 0 <= countdown <= CountdownStart
      modifies this
      ensures Valid()
      ensures countdown <= 0 ==> calls == old(calls) + SubmitCalls(tags, details)
      ensures countdown > 0 ==> calls == old(calls)
      ensures tags == old(tags) && countdown == old(countdown) && userInput == old(userInput)
    {
      if countdown <= 0 && !userInput {
        calls := calls + SubmitCalls(tags, details);
        tickPending := false;
      } else if countdown <= 0 && userInput {
        calls := calls + SubmitCalls(tags, details);
        tickPending := false;
      } else {
        tickPending := true;
      }
    }

    /** The tick fires: `setCountdown(prev => prev - 1)`, and the changed count
        re-runs the effect; at 0 that submits. */
    method Tick()
      requires Valid() && tickPending
      modifies this
      ensures Valid()
      ensures countdown == old(countdown) - 1
      ensures countdown == 0 ==> calls == old(calls) + SubmitCalls(tags, details) && !tickPending
      ensures countdown > 0 ==> calls == old(calls) && tickPending
      ensures tags == old(tags) && userInput == old(userInput)
    {
      countdown := countdown - 1;
      RunEffect();
    }

    /** `handleInputChange`: the text is replaced and `userInput` set. The effect
        re-runs when the text (and so `handleSubmit`) or `userInput` changed;
        once the count is at 0 that submits again. */
    method InputChange(value: string)
      requires Valid()
      modifies this
      ensures Valid()
      ensures tags == value && userInput
      ensures countdown == old(countdown)
      ensures calls == old(calls) + (if (value != old(tags) || !old(userInput)) && countdown <= 0
                                     then SubmitCalls(value, details) else [])
    {
      var rerun := value != tags || !userInput;
      tags := value;
      if !userInput {
        userInput := true;
      }
      if rerun {
        RunEffect();
      }
    }

    /** `handleKeyDown`: Enter submits; any other key does nothing. */
    method KeyDown(key: string)
      requires Valid()
      modifies this
      ensures Valid()
      ensures calls == old(calls) + (if key == "Enter" then SubmitCalls(tags, details) else [])
      ensures tags == old(tags) && countdown == old(countdown) && userInput == old(userInput)
      ensures tickPending == old(tickPending)
    {
      if key == "Enter" {
        calls := calls + SubmitCalls(tags, details);
      }
    }

    /** `handleManualSubmit`: the form's submit (the button). */
    method ManualSubmit()
      requires Valid()
      modifies this
      ensures Valid()
      ensures calls == old(calls) + SubmitCalls(tags, details)
      ensures tags == old(tags) && countdown == old(countdown) && userInput == old(userInput)
      ensures tickPending == old(tickPending)
    {
      calls := calls + SubmitCalls(tags, details);
    }
  }
}
