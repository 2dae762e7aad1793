/** The toast notifications hook: a list of toasts that `showToast` appends to and
    `removeToast` filters. The id is the current time in milliseconds, a parameter. */
module Toasts {
  import opened Wrappers
  import opened Seqs

  datatype ToastType = SuccessToast | ErrorToast | InfoToast

  datatype Toast = Toast(id: int, message: string, kind: ToastType)

  /** The updater of `removeToast`: every toast with that id goes, the rest stay in order. */
  function WithoutId(toasts: seq<Toast>, id: int): seq<Toast> {
    Filter((t: Toast) => t.id != id, toasts)
  }

  /** No toast with the id is left, all others are kept in their order, and a list
      without that id is left as it was. */
  lemma WithoutIdCorrect(toasts: seq<Toast>, id: int)
    ensures var r := WithoutId(toasts, id);
      && (forall i :: 0 <= i < |r| ==> r[i].id != id)
      && (forall i :: 0 <= i < |toasts| && toasts[i].id != id ==> toasts[i] in r)
      && IsSubsequence(r, toasts)
      && ((forall i :: 0 <= i < |toasts| ==> toasts[i].id != id) ==> r == toasts)
  {
    FilterIsSubsequence((t: Toast) => t.id != id, toasts);
    if forall i :: 0 <= i < |toasts| ==> toasts[i].id != id {
      FilterAll((t: Toast) => t.id != id, toasts);
    }
  }

  /** Removing the id of a toast just shown takes it away again, together with any
      earlier toast created in the same millisecond. */
  lemma RemoveAfterShow(toasts: seq<Toast>, t: Toast)
    ensures WithoutId(toasts + [t], t.id) == WithoutId(toasts, t.id)
  {
    FilterAppend((x: Toast) => x.id != t.id, toasts, [t]);
    assert [t][1..] == [];
  }

  class ToastState {
    var toasts: seq<Toast>

    constructor ()
      ensures toasts == []
    {
      toasts := [];
    }

    /** `showToast(message, type = 'info')`: one toast at the end, the others unchanged. */
    method ShowToast(message: string, kind: Option<ToastType>, now: int)
      modifies this
      ensures toasts == old(toasts) + [Toast(now, message, kind.GetOr(InfoToast))]
    {
      toasts := toasts + [Toast(now, message, kind.GetOr(InfoToast))];
    }

    method ShowSuccess(message: string, now: int)
      modifies this
      ensures toasts == old(toasts) + [Toast(now, message, SuccessToast)]
    {
      ShowToast(message, Some(SuccessToast), now);
    }

    method ShowError(message: string, now: int)
      modifies this
      ensures toasts == old(toasts) + [Toast(now, message, ErrorToast)]
    {
      ShowToast(message, Some(ErrorToast), now);
    }

    method ShowInfo(message: string, now: int)
      modifies this
      ensures toasts == old(toasts) + [Toast(now, message, InfoToast)]
    {
      ShowToast(message, Some(InfoToast), now);
    }

    method RemoveToast(id: int)
      modifies this
      ensures toasts == WithoutId(old(toasts), id)
    {
      toasts := WithoutId(toasts, id);
    }
  }
}
