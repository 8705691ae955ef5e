/** The tag prompt the extension injects into a page
    (extension/src/content_scripts/tag_input_content_script.ts): the
    module-level `pageDetails` and `timerId`, the prompt's container in the
    page with its input field and countdown line, the 5-second auto-save
    timeout, the 1-second countdown interval, and the `saveBookmarkWithTags`
    messages sent to the background script.

    The page is reduced to what the script looks at: how many containers
    with the prompt's id it holds and the value the user typed into the
    field. Timer handles come from the environment; the events the browser
    delivers (a timeout firing, an interval tick, a click, the user typing,
    the page dropping the container) are methods. */
module TagInputContentScript {
  import opened Wrappers
  import opened JsString
  import opened TagList

  /** A message from the background script; `kind` is its `type`. */
  datatype Request = Request(kind: string, url: Option<string>, title: Option<string>, selectionText: Option<string>)

  /** The `saveBookmarkWithTags` message. */
  datatype SaveMessage = SaveBookmarkWithTags(url: Option<string>, title: Option<string>,
                                              description: Option<string>, tags: seq<string>)

  const InitTagInput := "initTagInput"
  const CountdownStart := 5

  /** `if (timerId)`: null and 0 are falsy. */
  predicate Truthy(timerId: Option<int>) {
    timerId.Some? && timerId.value != 0
  }

  /** `document.getElementById("recall-stack-tag-input-field")`: the field is
      found while a container holds it, and then it has the typed value. */
  function FieldValue(containers: nat, typed: string): (field: Option<string>)
    ensures field.Some? <==> containers > 0
    ensures field.Some? ==> field.value == typed
  {
    if containers > 0 then Some(typed) else None
  }

  /** `tagInput ? tagInput.value.split(",")…filter(tag => tag) : []`: no field,
      no tags; otherwise the comma-list tags of its value. */
  function FieldTags(field: Option<string>): (tags: seq<string>)
    ensures field.None? ==> tags == []
    ensures field.Some? ==> tags == ParseTags(field.value)
    ensures forall k :: 0 <= k < |tags| ==> IsTag(tags[k])
  {
    if field.Some? then ParseTags(field.value) else []
  }

  /** A field whose value is the tags written `a,b,c` yields exactly them. */
  lemma FieldTagsJoin(typed: seq<string>)
    requires forall k :: 0 <= k < |typed| ==> IsTag(typed[k])
    ensures FieldTags(Some(Join(typed, ','))) == typed
  {
    ParseJoin(typed);
  }

  /** The message `submitTags` sends: url and title from the page details, the
      selection as the description, and the tags. */
  function Payload(details: PageDetails, tags: seq<string>): (m: SaveMessage)
    ensures m.url == details.url && m.title == details.title
    ensures m.description == details.selectionText && m.tags == tags
  {
    SaveBookmarkWithTags(details.url, details.title, details.selectionText, tags)
  }

  /** How many containers `removeTagInputUI` leaves: `getElementById` returns
      the first one, and only that one is removed. */
  function AfterRemoval(containers: nat): (left: nat)
    ensures containers > 0 ==> left == containers - 1
    ensures containers == 0 ==> left == 0
  {
    if containers > 0 then containers - 1 else 0
  }

  /** `submitTags` as written removes the prompt before it looks for the field:
      with the container gone the field is never found and the message carries
      no tags, however well formed the typed list — though the same field read
      a moment earlier yields that list. */
  lemma AsWrittenLosesTypedTags(containers: nat, typed: seq<string>)
    requires containers <= 1
    requires forall k :: 0 <= k < |typed| ==> IsTag(typed[k])
    ensures FieldTags(FieldValue(AfterRemoval(containers), Join(typed, ','))) == []
    ensures containers == 1 ==> FieldTags(FieldValue(containers, Join(typed, ','))) == typed
  {
    if containers == 1 {
      FieldTagsJoin(typed);
    }
  }

  /** The prompt's state and the messages it has sent. */
  class ContentScript {
    var pageDetails: PageDetails
    var timerId: Option<int>
    /** Timeouts that are scheduled and neither fired nor cleared. */
    var pendingTimeouts: set<int>
    /** Elements in the page with the container's id. */
    var containers: nat
    /** The value of the field in the (first) container. */
    var inputValue: string
    var countdown: int
    var intervalRunning: bool
    var timerText: string
    var outbox: seq<SaveMessage>

    /** At most one container; a pending timeout is the one `timerId` names; the
        interval runs exactly while the shown container counts down from 5, and
        the line shows the count (it keeps showing 1 once the count is 0). */
    predicate Valid()
      reads this
    {
      && containers <= 1
      && (forall h :: h in pendingTimeouts ==> h > 0 && timerId == Some(h))
      && (intervalRunning ==> containers == 1)
      && (containers == 1 ==>
            && 0 <= countdown <= CountdownStart
            && (intervalRunning <==> countdown > 0)
            && timerText == AutoSavingText(if countdown > 0 then countdown else 1))
    }

    /** The script as loaded: `pageDetails = {}` and `timerId = null`, no prompt. */
    constructor ()
      ensures Valid()
      ensures pageDetails == PageDetails(None, None, None) && timerId == None
      ensures pendingTimeouts == {} && containers == 0 && !intervalRunning && outbox == []
    {
      pageDetails := PageDetails(None, None, None);
      timerId := None;
      pendingTimeouts := {};
      containers := 0;
      inputValue := "";
      countdown := 0;
      intervalRunning := false;
      timerText := "";
      outbox := [];
    }

    /** `removeTagInputUI`: the container goes (and with it, through the
        observer, its interval), and a truthy `timerId` is cleared and nulled.
        Afterwards nothing is pending, so a second call changes nothing. */
    method RemoveTagInputUI()
      requires Valid()
      modifies this
      ensures Valid()
      ensures containers == 0 && !intervalRunning && pendingTimeouts == {} && !Truthy(timerId)
      ensures timerId == (if Truthy(old(timerId)) then None else old(timerId))
      ensures pageDetails == old(pageDetails) && inputValue == old(inputValue)
      ensures countdown == old(countdown) && timerText == old(timerText) && outbox == old(outbox)
      ensures old(containers) == 0 && !Truthy(old(timerId)) ==> unchanged(this)
    {
      if containers > 0 {
        containers := containers - 1;
        intervalRunning := false;
      }
      if Truthy(timerId) {
        pendingTimeouts := pendingTimeouts - {timerId.value};
        timerId := None;
      }
      assert forall h :: h !in pendingTimeouts;
    }

    /** `submitTags` AS WRITTEN: the prompt is removed first, so the field
        lookup fails and the message always carries `[]`. */
    method SubmitTagsAsWritten()
      requires Valid()
      modifies this
      ensures Valid()
      ensures outbox == old(outbox) + [Payload(old(pageDetails), [])]
      ensures containers == 0 && pendingTimeouts == {} && !Truthy(timerId)
      ensures pageDetails == old(pageDetails)
    {
      RemoveTagInputUI();
      var tags := FieldTags(FieldValue(containers, inputValue));
      outbox := outbox + [Payload(pageDetails, tags)];
    }

    /** `submitTags` as intended: the field is read while the prompt is still
        there, then the prompt is removed and the message sent. */
    method SubmitTags()
      requires Valid()
      modifies this
      ensures Valid()
      ensures outbox == old(outbox) + [Payload(old(pageDetails), FieldTags(FieldValue(old(containers), old(inputValue))))]
      ensures containers == 0 && pendingTimeouts == {} && !Truthy(timerId)
      ensures pageDetails == old(pageDetails)
    {
      var tags := FieldTags(FieldValue(containers, inputValue));
      RemoveTagInputUI();
      outbox := outbox + [Payload(pageDetails, tags)];
    }

    /** `createTagInputUI`, with `handle` the id `window.setTimeout` returns
        (a timer handle is a positive integer): any earlier prompt goes, a
        single fresh one with an empty field counts down from 5, the 5-second
        timeout is pending and the interval runs. */
    method CreateTagInputUI(handle: int)
      requires Valid() && handle > 0
      modifies this
      ensures Valid()
      ensures containers == 1 && inputValue == "" && countdown == CountdownStart
      ensures timerText == AutoSavingText(CountdownStart) && intervalRunning
      ensures timerId == Some(handle) && pendingTimeouts == {handle}
      ensures pageDetails == old(pageDetails) && outbox == old(outbox)
    {
      RemoveTagInputUI();
      containers := containers + 1;
      inputValue := "";
      countdown := CountdownStart;
      timerText := AutoSavingText(countdown);
      timerId := Some(handle);
      pendingTimeouts := pendingTimeouts + {handle};
      intervalRunning := true;
    }

    /** The `chrome.runtime.onMessage` listener: `initTagInput` replaces the page
        details with the request's and rebuilds the prompt, answering `false`;
        any other message is ignored and answered `undefined` (`None`). */
    method OnMessage(request: Request, handle: int) returns (r: Option<bool>)
      requires Valid() && handle > 0
      modifies this
      ensures Valid()
      ensures request.kind == InitTagInput ==>
                && r == Some(false)
                && pageDetails == PageDetails(request.url, request.title, request.selectionText)
                && containers == 1 && inputValue == "" && countdown == CountdownStart && intervalRunning
                && timerId == Some(handle) && pendingTimeouts == {handle} && outbox == old(outbox)
      ensures request.kind != InitTagInput ==> r == None && unchanged(this)
    {
      if request.kind == InitTagInput {
        pageDetails := PageDetails(request.url, request.title, request.selectionText);
        CreateTagInputUI(handle);
        r := Some(false);
      } else {
        r := None;
      }
    }

    /** The user types into the field. */
    method Type(value: string)
      requires Valid() && containers > 0
      modifies this
      ensures Valid()
      ensures inputValue == value
      ensures containers == old(containers) && countdown == old(countdown) && intervalRunning == old(intervalRunning)
      ensures timerId == old(timerId) && pendingTimeouts == old(pendingTimeouts) && outbox == old(outbox)
      ensures pageDetails == old(pageDetails) && timerText == old(timerText)
    {
      inputValue := value;
    }

    /** One run of the interval: the count drops by one; above 0 the line shows
        it, at 0 the interval stops itself. */
    method IntervalTick()
      requires Valid() && intervalRunning
      modifies this
      ensures Valid()
      ensures countdown == old(countdown) - 1 && countdown >= 0
      ensures intervalRunning <==> countdown > 0
      ensures containers == old(containers) && inputValue == old(inputValue)
      ensures timerId == old(timerId) && pendingTimeouts == old(pendingTimeouts) && outbox == old(outbox)
      ensures pageDetails == old(pageDetails)
    {
      countdown := countdown - 1;
      if countdown > 0 {
        timerText := AutoSavingText(countdown);
      } else {
        intervalRunning := false;
      }
    }

    /** The 5-second timeout fires, AS WRITTEN: it submits only if the prompt
        is still in the page, and then the message carries `[]`. */
    method FireTimeoutAsWritten(handle: int)
      requires Valid() && handle in pendingTimeouts
      modifies this
      ensures Valid()
      ensures pendingTimeouts == {}
      ensures old(containers) == 0 ==> outbox == old(outbox) && containers == 0
      ensures old(containers) > 0 ==> outbox == old(outbox) + [Payload(old(pageDetails), [])]
      ensures containers == 0
    {
      pendingTimeouts := pendingTimeouts - {handle};
      assert forall h :: h !in pendingTimeouts;
      if containers > 0 {
        SubmitTagsAsWritten();
      }
    }

    /** The save button, AS WRITTEN: the pending timeout is cleared, then
        `submitTags` sends `[]` whatever was typed. */
    method ClickSaveAsWritten()
      requires Valid() && containers > 0
      modifies this
      ensures Valid()
      ensures outbox == old(outbox) + [Payload(old(pageDetails), [])]
      ensures containers == 0 && pendingTimeouts == {} && !Truthy(timerId)
    {
      if Truthy(timerId) {
        pendingTimeouts := pendingTimeouts - {timerId.value};
      }
      SubmitTagsAsWritten();
    }

    /** The 5-second timeout fires, with the corrected `SubmitTags`: it submits
        only if the prompt is still in the page, and then the message carries
        the typed tags. */
    method FireTimeout(handle: int)
      requires Valid() && handle in pendingTimeouts
      modifies this
      ensures Valid()
      ensures pendingTimeouts == {}
      ensures old(containers) == 0 ==> outbox == old(outbox) && containers == 0
      ensures old(containers) > 0 ==>
                outbox == old(outbox) + [Payload(old(pageDetails), FieldTags(Some(old(inputValue))))]
      ensures containers == 0
    {
      pendingTimeouts := pendingTimeouts - {handle};
      assert forall h :: h !in pendingTimeouts;
      if containers > 0 {
        SubmitTags();
      }
    }

    /** The save button, with the corrected `SubmitTags`: the pending timeout
        is cleared (`timerId` itself is nulled only inside `submitTags`), then
        the typed tags are submitted. */
    method ClickSave()
      requires Valid() && containers > 0
      modifies this
      ensures Valid()
      ensures outbox == old(outbox) + [Payload(old(pageDetails), FieldTags(Some(old(inputValue))))]
      ensures containers == 0 && pendingTimeouts == {} && !Truthy(timerId)
    {
      if Truthy(timerId) {
        pendingTimeouts := pendingTimeouts - {timerId.value};
      }
      SubmitTags();
    }

    /** Something else in the page removes the container: the observer stops
        the interval, and the still-pending timeout will find no prompt. */
    method ContainerRemovedByPage()
      requires Valid() && containers > 0
      modifies this
      ensures Valid()
      ensures containers == 0 && !intervalRunning
      ensures timerId == old(timerId) && pendingTimeouts == old(pendingTimeouts) && outbox == old(outbox)
    {
      containers := containers - 1;
      intervalRunning := false;
    }
  }
}
