/**
 * The card page's CVV reveal: the `showCVC` flag, the stored timer handle
 * `cvvTimer`, the one-shot timers the runtime still holds, and the toasts the
 * page shows. Time is not modelled: a timer firing is an event, like a click.
 *
 * `Step` gives the effect of each event on the whole state; the class
 * `CardView` holds that state in fields and its methods are proved to follow
 * `Step`.
 */
module Cvv {
  import opened Js
  import opened Card

  /** The toasts the card page can show. */
  datatype Toast = CvvHidden | CardFrozen | CardCancelled | ReplacementRequested

  /** What can happen to the page. */
  datatype Event = Toggle | TimerFire(id: nat) | Unmount | Freeze | Cancel | Replace

  /** `pending` holds the handles of the timers that have been scheduled and
      have neither fired nor been cleared; `nextId` is the handle the next
      `setTimeout` returns. */
  datatype CardState = CardState(
    showCVC: bool,
    cvvTimer: Option<nat>,
    pending: set<nat>,
    nextId: nat,
    toasts: seq<Toast>,
    mounted: bool)

  /** The page as mounted: hidden, no timer, no toast. */
  const Initial := CardState(false, None, {}, 1, [], true)

  /** The handles `clearTimeout(h)` can cancel (`if (cvvTimer) ...`). */
  function Handle(h: Option<nat>): set<nat>
  {
    if h.Some? then {h.value} else {}
  }

  /** The effect of one event. `toggleCVC` while hidden schedules a new timer
      and stores its handle, and the cleanup of the effect keyed on `cvvTimer`
      clears the handle it replaces; while revealed it hides and clears the
      stored handle. A timer that fires hides the CVV and shows one toast.
      Unmounting clears the stored handle. The three card actions only show a
      toast. A page that is not mounted receives no clicks.

      Whatever the event: toasts are only ever appended, one at a time; the
      only timer that can start is the one with the next handle; handles are
      never reused; and an unmounted page never mounts again. */
  function Step(s: CardState, e: Event): (r: CardState)
    ensures s.toasts <= r.toasts && |r.toasts| <= |s.toasts| + 1
    ensures r.pending <= s.pending + {s.nextId}
    ensures r.nextId >= s.nextId
    ensures r.mounted ==> s.mounted
  {
    match e
    case TimerFire(id) =>
      if id in s.pending then s.(showCVC := false, pending := s.pending - {id}, toasts := s.toasts + [CvvHidden])
      else s
    case Toggle =>
      if !s.mounted then s
      else if !s.showCVC then
        s.(showCVC := true, cvvTimer := Some(s.nextId),
           pending := (s.pending - Handle(s.cvvTimer)) + {s.nextId}, nextId := s.nextId + 1)
      else
        s.(showCVC := false, pending := s.pending - Handle(s.cvvTimer))
    case Unmount =>
      if !s.mounted then s else s.(pending := s.pending - Handle(s.cvvTimer), mounted := false)
    case Freeze => if !s.mounted then s else s.(toasts := s.toasts + [CardFrozen])
    case Cancel => if !s.mounted then s else s.(toasts := s.toasts + [CardCancelled])
    case Replace => if !s.mounted then s else s.(toasts := s.toasts + [ReplacementRequested])
  }

  /** The state after a sequence of events. */
  function Run(s: CardState, es: seq<Event>): CardState
    decreases |es|
  {
    if es == [] then s else Run(Step(s, es[0]), es[1..])
  }

  /** How many "CVV hidden for security" toasts were shown. */
  function HiddenNotices(toasts: seq<Toast>): nat
  {
    if toasts == [] then 0 else (if toasts[0] == CvvHidden then 1 else 0) + HiddenNotices(toasts[1..])
  }

  lemma {:induction false} HiddenNoticesAppend(a: seq<Toast>, b: seq<Toast>)
    ensures HiddenNotices(a + b) == HiddenNotices(a) + HiddenNotices(b)
  {
    if a != [] {
      assert (a + b)[0] == a[0] && (a + b)[1..] == a[1..] + b;
      HiddenNoticesAppend(a[1..], b);
    } else {
      assert a + b == b;
    }
  }

  /** The invariant: at most one timer is pending, and it is the stored one;
      while mounted the CVV is shown exactly when a timer is pending; once
      unmounted no timer is pending; handles are never reused. */
  ghost predicate Inv(s: CardState)
  {
    && (s.pending == {} || (s.cvvTimer.Some? && s.pending == {s.cvvTimer.value}))
    && (s.mounted ==> (s.showCVC <==> s.pending != {}))
    && (!s.mounted ==> s.pending == {})
    && (s.cvvTimer.Some? ==> s.cvvTimer.value < s.nextId)
  }

  lemma InitialInv()
    ensures Inv(Initial)
  {
  }

  lemma StepInv(s: CardState, e: Event)
    requires Inv(s)
    ensures Inv(Step(s, e))
    ensures |Step(s, e).pending| <= 1
  {
    var t := Step(s, e);
    assert t.pending == {} || t.pending == {t.cvvTimer.value};
  }

  /** Whatever happens, the invariant holds; in particular at most one timer is
      ever pending. */
  lemma {:induction false} RunInv(s: CardState, es: seq<Event>)
    requires Inv(s)
    ensures Inv(Run(s, es))
    ensures |Run(s, es).pending| <= 1
    decreases |es|
  {
    if es == [] {
      assert s.pending == {} || s.pending == {s.cvvTimer.value};
    } else {
      StepInv(s, es[0]);
      RunInv(Step(s, es[0]), es[1..]);
    }
  }

  /** Toggling while hidden reveals the CVV and leaves exactly one timer
      pending, the new one, whose handle is stored; no toast is shown. */
  lemma ToggleReveals(s: CardState)
    requires Inv(s) && s.mounted && !s.showCVC
    ensures var t := Step(s, Toggle);
      t.showCVC && t.pending == {s.nextId} && t.cvvTimer == Some(s.nextId) && t.toasts == s.toasts
  {
  }

  /** Toggling while revealed hides the CVV, cancels the pending timer and
      shows no toast. */
  lemma ToggleHides(s: CardState)
    requires Inv(s) && s.mounted && s.showCVC
    ensures var t := Step(s, Toggle);
      !t.showCVC && t.pending == {} && t.toasts == s.toasts
  {
  }

  /** The pending timer firing hides the CVV and shows exactly one "CVV
      hidden" toast; no timer is left pending. */
  lemma FireHides(s: CardState, id: nat)
    requires Inv(s) && id in s.pending
    ensures var t := Step(s, TimerFire(id));
      !t.showCVC && t.pending == {} && t.toasts == s.toasts + [CvvHidden]
      && HiddenNotices(t.toasts) == HiddenNotices(s.toasts) + 1
  {
    HiddenNoticesAppend(s.toasts, [CvvHidden]);
  }

  /** A timer that is not pending never fires: a handle that was cleared (or
      has fired) never becomes pending again, and its firing changes nothing. */
  lemma {:induction false} CancelledNeverFires(s: CardState, es: seq<Event>, id: nat)
    requires id !in s.pending && id < s.nextId
    ensures id !in Run(s, es).pending && id < Run(s, es).nextId
    ensures Step(Run(s, es), TimerFire(id)) == Run(s, es)
    decreases |es|
  {
    if es != [] {
      CancelledNeverFires(Step(s, es[0]), es[1..], id);
    }
  }

  /** Revealing and hiding again before the timer fires shows no toast, and no
      later firing of that timer shows one either. */
  lemma RevealThenHideIsSilent(s: CardState)
    requires Inv(s) && s.mounted && !s.showCVC
    ensures var t := Step(Step(s, Toggle), Toggle);
      !t.showCVC && t.toasts == s.toasts && s.nextId !in t.pending
      && Step(t, TimerFire(s.nextId)) == t
  {
  }

  /** Revealing and letting the timer fire shows exactly one toast and hides
      the CVV again. */
  lemma RevealThenExpire(s: CardState)
    requires Inv(s) && s.mounted && !s.showCVC
    ensures var t := Step(Step(s, Toggle), TimerFire(s.nextId));
      !t.showCVC && t.toasts == s.toasts + [CvvHidden] && t.pending == {}
      && HiddenNotices(t.toasts) == HiddenNotices(s.toasts) + 1
  {
    HiddenNoticesAppend(s.toasts, [CvvHidden]);
  }

  /** Unmounting cancels any pending timer, and from then on nothing at all
      happens: no callback runs and no toast is shown. */
  lemma {:induction false} UnmountSilences(s: CardState, es: seq<Event>)
    requires Inv(s)
    ensures Step(s, Unmount).pending == {}
    ensures Run(Step(s, Unmount), es) == Step(s, Unmount)
    decreases |es|
  {
    var u := Step(s, Unmount);
    if es != [] {
      assert Step(u, es[0]) == u;
      UnmountSilencesFrom(u, es[1..]);
    }
  }

  lemma {:induction false} UnmountSilencesFrom(u: CardState, es: seq<Event>)
    requires !u.mounted && u.pending == {}
    ensures Run(u, es) == u
    decreases |es|
  {
    if es != [] {
      assert Step(u, es[0]) == u;
      UnmountSilencesFrom(u, es[1..]);
    }
  }

  /** Freeze, Cancel and Replace show their toast and change nothing else. */
  lemma CardActionsOnlyNotify(s: CardState, e: Event)
    requires s.mounted && (e == Freeze || e == Cancel || e == Replace)
    ensures var t := Step(s, e);
      t.(toasts := s.toasts) == s && |t.toasts| == |s.toasts| + 1 && t.toasts[..|s.toasts|] == s.toasts
      && HiddenNotices(t.toasts) == HiddenNotices(s.toasts)
  {
    var t := Step(s, e);
    HiddenNoticesAppend(s.toasts, t.toasts[|s.toasts|..]);
    assert s.toasts + t.toasts[|s.toasts|..] == t.toasts;
  }

  /** While mounted, the CVV on screen is the card's CVV exactly while a timer
      is pending, and the mask otherwise. */
  lemma DisplayFollowsState(s: CardState, card: CardRecord)
    requires Inv(s) && s.mounted
    ensures DisplayedCvv(s.showCVC, Some(card)) == (if s.pending != {} then card.cvc else Mask)
  {
  }

  // ---------------------------------------------------------------------------
  // The page's state as fields

  class CardView {
    /** The fetched card record; actions never change it. */
    const card: Option<CardRecord>
    var showCVC: bool
    var cvvTimer: Option<nat>
    var pending: set<nat>
    var nextId: nat
    var toasts: seq<Toast>
    var mounted: bool

    function State(): CardState
      reads this
    {
      CardState(showCVC, cvvTimer, pending, nextId, toasts, mounted)
    }

    ghost predicate Valid()
      reads this
    {
      Inv(State())
    }

    /** `cardData?.cvc` or the mask: while the page is mounted, the CVV is
        on screen exactly while its hiding timer is pending. */
    function Cvv(): (r: string)
      reads this
      ensures Valid() && mounted && card.Some? ==> r == (if pending != {} then card.value.cvc else Mask)
      ensures !showCVC ==> r == Mask
    {
      DisplayedCvv(showCVC, card)
    }

    constructor (card: Option<CardRecord>)
      ensures State() == Initial && this.card == card && Valid()
    {
      this.card := card;
      showCVC, cvvTimer, pending, nextId, toasts, mounted := false, None, {}, 1, [], true;
    }

    /** `toggleCVC`, with the cleanup of the effect keyed on `cvvTimer`. */
    method ToggleCvc()
      requires Valid()
      modifies this
      ensures State() == Step(old(State()), Toggle) && Valid()
      ensures old(mounted) ==> showCVC == !old(showCVC) && toasts == old(toasts)
      ensures |pending| <= 1
    {
      StepInv(State(), Toggle);
      if mounted {
        if !showCVC {
          showCVC := true;
          var timer := nextId;
          nextId := nextId + 1;
          pending := pending - Handle(cvvTimer);
          cvvTimer := Some(timer);
          pending := pending + {timer};
        } else {
          showCVC := false;
          pending := pending - Handle(cvvTimer);
        }
      }
    }

    /** The runtime runs the callback of timer `id`, if it is still pending. */
    method Fire(id: nat)
      requires Valid()
      modifies this
      ensures State() == Step(old(State()), TimerFire(id)) && Valid()
      ensures id in old(pending) ==> !showCVC && toasts == old(toasts) + [CvvHidden]
      ensures id !in old(pending) ==> State() == old(State())
    {
      StepInv(State(), TimerFire(id));
      if id in pending {
        pending := pending - {id};
        showCVC := false;
        toasts := toasts + [CvvHidden];
      }
    }

    /** The effect cleanup on unmount. */
    method Unmount()
      requires Valid()
      modifies this
      ensures State() == Step(old(State()), Event.Unmount) && Valid()
      ensures old(mounted) ==> pending == {} && !mounted
    {
      StepInv(State(), Event.Unmount);
      if mounted {
        pending := pending - Handle(cvvTimer);
        mounted := false;
      }
    }

    /** `handleFreeze`, `handleCancel` and `handleReplace`. */
    method CardAction(e: Event)
      requires Valid() && (e == Freeze || e == Cancel || e == Replace)
      modifies this
      ensures State() == Step(old(State()), e) && Valid()
      ensures showCVC == old(showCVC) && pending == old(pending) && cvvTimer == old(cvvTimer)
    {
      StepInv(State(), e);
      if mounted {
        toasts := toasts + [match e case Freeze => CardFrozen case Cancel => CardCancelled case _ => ReplacementRequested];
      }
    }
  }
}
