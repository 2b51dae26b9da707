/** The device page's permission dialogs: a request modal, a "denied"
    explanation and a "device added" confirmation, plus the flag that lives
    for the whole app session and keeps the dialogs from reappearing once the
    flow was finished. Each handler (with its delayed follow-up) is one step. */
module PermissionDialog {

  /** `handled` is the module-level flag; the other three are the page's modal
      visibility state. */
  datatype Dialogs = Dialogs(handled: bool, request: bool, denied: bool, added: bool)

  /** Button presses inside a modal, and the hardware back button. */
  datatype Event = Allow | Deny | DeniedOK | Finalize | Back

  /** The page mounting: the request shows unless the flow was finished before. */
  function Mount(handled: bool): (d: Dialogs)
    ensures d.handled == handled
    ensures d.request <==> !handled
    ensures !d.denied && !d.added
  {
    Dialogs(handled, !handled, false, false)
  }

  /** A fresh mount of the page: its modal state is rebuilt, the module-level flag survives. */
  function Remount(d: Dialogs): (r: Dialogs)
    ensures r.handled == d.handled
    ensures r.request <==> !d.handled
    ensures !r.denied && !r.added
  {
    Mount(d.handled)
  }

  function HandleAllow(d: Dialogs): Dialogs {
    d.(request := false, added := true)
  }

  function HandleDeny(d: Dialogs): Dialogs {
    d.(request := false, denied := true)
  }

  function HandleDeniedOK(d: Dialogs): Dialogs {
    d.(denied := false, added := true)
  }

  function HandleFinalize(d: Dialogs): Dialogs {
    d.(added := false, handled := true)
  }

  /** Hardware back closes the denied or added modal; on the request modal it does nothing. */
  function RequestClose(d: Dialogs): (r: Dialogs)
    ensures d.denied ==> !r.denied && r.request == d.request && r.added == d.added
    ensures !d.denied && d.added ==> !r.added && r.request == d.request && !r.denied
    ensures !d.denied && !d.added ==> r == d
    ensures r.handled == d.handled
  {
    if d.denied then d.(denied := false)
    else if d.added then d.(added := false)
    else d
  }

  /** An event can only come from a visible modal (back needs any modal). */
  predicate Enabled(d: Dialogs, e: Event) {
    match e
    case Allow => d.request
    case Deny => d.request
    case DeniedOK => d.denied
    case Finalize => d.added
    case Back => d.request || d.denied || d.added
  }

  /** One user action; an action on a modal that is not shown does nothing. */
  function Step(d: Dialogs, e: Event): (r: Dialogs)
    ensures !Enabled(d, e) ==> r == d
    ensures e == Allow && d.request ==> !r.request && r.added && r.denied == d.denied
    ensures e == Deny && d.request ==> !r.request && r.denied && r.added == d.added
    ensures e == DeniedOK && d.denied ==> !r.denied && r.added && r.request == d.request
    ensures e == Finalize && d.added ==> !r.added && r.handled && r.request == d.request && r.denied == d.denied
    ensures e == Back && d.request && !d.denied && !d.added ==> r == d
    ensures e == Back ==> r.handled == d.handled
    ensures e == Back && d.denied ==> !r.denied && r.request == d.request && r.added == d.added
    ensures e == Back && d.added && !d.denied ==> !r.added && r.request == d.request && !r.denied
  {
    if !Enabled(d, e) then d
    else match e
      case Allow => HandleAllow(d)
      case Deny => HandleDeny(d)
      case DeniedOK => HandleDeniedOK(d)
      case Finalize => HandleFinalize(d)
      case Back => RequestClose(d)
  }

  /** At most one modal is visible. */
  predicate AtMostOneVisible(d: Dialogs) {
    (if d.request then 1 else 0) + (if d.denied then 1 else 0) + (if d.added then 1 else 0) <= 1
  }

  /** Every event sequence applied in order. */
  function Run(d: Dialogs, es: seq<Event>): Dialogs
    decreases |es|
  {
    if |es| == 0 then d else Run(Step(d, es[0]), es[1..])
  }

  /** Mounting shows at most one modal and each step keeps it so. */
  lemma StepKeepsAtMostOneVisible(d: Dialogs, e: Event)
    requires AtMostOneVisible(d)
    ensures AtMostOneVisible(Step(d, e))
    ensures AtMostOneVisible(Mount(d.handled))
  {
  }

  /** From any mount, whatever the user does, at most one modal is visible. */
  lemma {:induction false} RunKeepsAtMostOneVisible(d: Dialogs, es: seq<Event>)
    requires AtMostOneVisible(d)
    ensures AtMostOneVisible(Run(d, es))
    decreases |es|
  {
    if |es| > 0 {
      StepKeepsAtMostOneVisible(d, es[0]);
      RunKeepsAtMostOneVisible(Step(d, es[0]), es[1..]);
    }
  }

  /** The flag is never cleared, and a step sets it only by Finalize on the
      visible "device added" modal. */
  lemma FlagOnlySetByFinalize(d: Dialogs, e: Event)
    ensures Step(d, e).handled <==> d.handled || (e == Finalize && d.added)
  {
  }

  /** Once the flag is set, whatever happens, a freshly mounted page shows no modal. */
  lemma {:induction false} HandledStaysHandled(d: Dialogs, es: seq<Event>)
    requires d.handled
    ensures Run(d, es).handled
    ensures var m := Remount(Run(d, es)); !m.request && !m.denied && !m.added
    decreases |es|
  {
    if |es| > 0 {
      FlagOnlySetByFinalize(d, es[0]);
      HandledStaysHandled(Step(d, es[0]), es[1..]);
    }
  }

  /** The two ways through the flow: Allow, or Deny then OK; both reach the
      "device added" modal, and Finalize there sets the flag. */
  lemma FlowsReachFinalize()
    ensures Run(Mount(false), [Allow, Finalize]) == Dialogs(true, false, false, false)
    ensures Run(Mount(false), [Deny, DeniedOK, Finalize]) == Dialogs(true, false, false, false)
    ensures Run(Mount(false), [Deny, Back]) == Dialogs(false, false, false, false)
    ensures Remount(Run(Mount(false), [Deny, Back])) == Mount(false)
  {
    assert Run(Mount(false), [Allow, Finalize]) == Run(Step(Mount(false), Allow), [Finalize]);
    assert [Allow, Finalize][1..] == [Finalize];
    assert [Deny, DeniedOK, Finalize][1..] == [DeniedOK, Finalize];
    assert [DeniedOK, Finalize][1..] == [Finalize];
    assert [Deny, Back][1..] == [Back];
  }
}
