/** The extension's toast list (extension/src/components/ToastManager.tsx):
    the `useToasts` hook's state and its updaters, and the top margin the
    manager gives each rendered toast. The id `addToast` builds from the
    clock and a random number is a parameter. */
module Toasts {
  import opened Wrappers
  import opened Seqs

  datatype ToastType = Success | Error

  /** `duration` is optional; `None` leaves the toast's own default. */
  datatype ToastMessage = ToastMessage(id: string, message: string, kind: ToastType, duration: Option<int>)

  function HasOtherId(id: string): ToastMessage -> bool { (t: ToastMessage) => t.id != id }

  /** The updater of `addToast`: the new toast goes last. */
  function Appended(toasts: seq<ToastMessage>, t: ToastMessage): (r: seq<ToastMessage>)
    ensures |r| == |toasts| + 1 && r[|toasts|] == t
    ensures forall k :: 0 <= k < |toasts| ==> r[k] == toasts[k]
  {
    toasts + [t]
  }

  /** The updater of `removeToast`: every toast with that id goes; the rest
      keep their order and their number. */
  function WithoutId(toasts: seq<ToastMessage>, id: string): (r: seq<ToastMessage>)
    ensures IsSubsequence(r, toasts)
    ensures forall t :: t in r <==> t in toasts && t.id != id
    ensures forall k :: 0 <= k < |toasts| ==>
      multiset(r)[toasts[k]] == if toasts[k].id != id then multiset(toasts)[toasts[k]] else 0
  {
    FilterIsSubsequence(toasts, HasOtherId(id));
    FilterCounts(toasts, HasOtherId(id));
    var r := Filter(toasts, HasOtherId(id));
    assert forall t :: t in toasts && t.id != id ==> t in r by {
      forall t | t in toasts && t.id != id ensures t in r {
        var k :| 0 <= k < |toasts| && toasts[k] == t;
        assert HasOtherId(id)(toasts[k]);
      }
    }
    r
  }

  /** No toast carries `id`. */
  predicate Fresh(toasts: seq<ToastMessage>, id: string) {
    forall k :: 0 <= k < |toasts| ==> toasts[k].id != id
  }

  /** Removing an id no toast has changes nothing. */
  lemma RemoveAbsent(toasts: seq<ToastMessage>, id: string)
    requires Fresh(toasts, id)
    ensures WithoutId(toasts, id) == toasts
  {
    FilterAll(toasts, HasOtherId(id));
  }

  /** Adding a toast under a fresh id and removing that id gives the list back. */
  lemma RemoveAfterAdd(toasts: seq<ToastMessage>, t: ToastMessage)
    requires Fresh(toasts, t.id)
    ensures WithoutId(Appended(toasts, t), t.id) == toasts
  {
    FilterAppend(toasts, [t], HasOtherId(t.id));
    assert Filter([t], HasOtherId(t.id)) == Filter([], HasOtherId(t.id));
    RemoveAbsent(toasts, t.id);
  }

  /** Removing twice is removing once. */
  lemma RemoveIdempotent(toasts: seq<ToastMessage>, id: string)
    ensures WithoutId(WithoutId(toasts, id), id) == WithoutId(toasts, id)
  {
    var once := WithoutId(toasts, id);
    forall k | 0 <= k < |once| ensures once[k].id != id {
      assert once[k] in once;
    }
    RemoveAbsent(once, id);
  }

  /** The top margin of each rendered toast: 16px for the first, 12px after. */
  function Margins(toasts: seq<ToastMessage>): (r: seq<string>)
    ensures |r| == |toasts|
    ensures |r| > 0 ==> r[0] == "16px"
    ensures forall k :: 0 < k < |r| ==> r[k] == "12px"
  {
    seq(|toasts|, (index: int) => if index == 0 then "16px" else "12px")
  }

  /** The `useToasts` hook's state. */
  class ToastList {
    var toasts: seq<ToastMessage>

    constructor ()
      ensures toasts == []
    {
      toasts := [];
    }

    /** `addToast`, with `id` the one the source builds from the clock and
        `Math.random`. */
    method AddToast(id: string, message: string, kind: ToastType, duration: Option<int>)
      modifies this
      ensures toasts == Appended(old(toasts), ToastMessage(id, message, kind, duration))
    {
      toasts := Appended(toasts, ToastMessage(id, message, kind, duration));
    }

    method RemoveToast(id: string)
      modifies this
      ensures toasts == WithoutId(old(toasts), id)
    {
      toasts := WithoutId(toasts, id);
    }

    method ShowSuccess(id: string, message: string, duration: Option<int>)
      modifies this
      ensures toasts == Appended(old(toasts), ToastMessage(id, message, Success, duration))
    {
      AddToast(id, message, Success, duration);
    }

    method ShowError(id: string, message: string, duration: Option<int>)
      modifies this
      ensures toasts == Appended(old(toasts), ToastMessage(id, message, Error, duration))
    {
      AddToast(id, message, Error, duration);
    }
  }
}
