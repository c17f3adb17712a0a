// contexts/ToastContext.tsx: the toast queue. The id of a toast is the
// clock reading when it is added, passed in as `now`; the auto-dismiss
// timer is a later call to `RemoveToast` with that id.

module Toasts {
  import opened Common

  datatype Kind = SuccessToast | ErrorToast | InfoToast

  datatype Toast = Toast(id: int, message: string, kind: Kind)

  function OtherId(id: int): Toast -> bool {
    (t: Toast) => t.id != id
  }

  class ToastQueue {
    var toasts: seq<Toast>

    constructor ()
      ensures toasts == []
    {
      toasts := [];
    }

    /** `addToast` (:22-24): appended at the end. */
    method AddToast(message: string, kind: Kind, now: int)
      modifies this
      ensures toasts == old(toasts) + [Toast(now, message, kind)]
    {
      toasts := toasts + [Toast(now, message, kind)];
    }

    /** `removeToast` (:30-32): every toast with that id goes; the rest keep
        their order. */
    method RemoveToast(id: int)
      modifies this
      ensures toasts == Filter(old(toasts), OtherId(id))
      ensures forall t :: t in toasts ==> t.id != id
      ensures IsSubsequence(toasts, old(toasts))
    {
      FilterIsSubsequence(toasts, OtherId(id));
      toasts := Filter(toasts, OtherId(id));
    }
  }

  /** Removing an id no toast has leaves the queue as it is. */
  lemma RemoveAbsent(toasts: seq<Toast>, id: int)
    requires forall i :: 0 <= i < |toasts| ==> toasts[i].id != id
    ensures Filter(toasts, OtherId(id)) == toasts
  {
    FilterKeepsAll(toasts, OtherId(id));
  }

  /** A toast's own timer removes it and nothing that was there before it,
      as long as no earlier toast was created in the same millisecond. */
  lemma AddThenDismiss(toasts: seq<Toast>, t: Toast)
    requires forall i :: 0 <= i < |toasts| ==> toasts[i].id != t.id
    ensures Filter(toasts + [t], OtherId(t.id)) == toasts
  {
    FilterAppend(toasts, [t], OtherId(t.id));
    FilterKeepsAll(toasts, OtherId(t.id));
    assert Filter([t], OtherId(t.id)) == [];
    assert toasts + [] == toasts;
  }

  /** Two toasts added in the same millisecond share an id, so dismissing
      either removes both. */
  lemma SameMillisecond(toasts: seq<Toast>, m1: string, k1: Kind, m2: string, k2: Kind, now: int)
    ensures var q := toasts + [Toast(now, m1, k1)] + [Toast(now, m2, k2)];
      Toast(now, m1, k1) !in Filter(q, OtherId(now)) && Toast(now, m2, k2) !in Filter(q, OtherId(now))
  {
  }
}
