/**
 * The tooltip of the UI (`UI.CustomTk_CreateToolTip`): entering the widget
 * schedules the tip after a delay, leaving it (or pressing a button) cancels
 * the timer and hides the tip.
 *
 * Tk's `after` table is modelled as a map from timer id to delay holding the
 * timers this tooltip scheduled; ids come from a counter, so each `after`
 * call returns an id never used before. Tip windows are numbered the same
 * way, and `windows` is the set of those not yet destroyed.
 */
module ToolTip {
  import opened Wrappers

  /** The delay before the tip appears, in milliseconds (`waittime`). */
  const WaitTime: nat := 500

  datatype TipState = TipState(
    id: Option<nat>,        // `self.id`: the timer last scheduled
    tw: Option<nat>,        // `self.tw`: the tip window shown
    pending: map<nat, nat>, // pending `after` timers with their delays
    nextTimer: nat,         // the id the next `after` call returns
    windows: set<nat>,      // tip windows created and not yet destroyed
    nextWindow: nat)        // the id of the next tip window

  /** The set holding an optional id. */
  function IdSet(o: Option<nat>): set<nat>
  {
    if o.Some? then {o.value} else {}
  }

  /**
   * The only timer that can be pending is the one in `id`; ids not handed
   * out yet are unused; a shown tip window is alive.
   */
  ghost predicate Valid(s: TipState)
  {
    s.pending.Keys <= IdSet(s.id) &&
    (s.id.Some? ==> s.id.value < s.nextTimer) &&
    (s.tw.Some? ==> s.tw.value in s.windows) &&
    (forall w :: w in s.windows ==> w < s.nextWindow)
  }

  /** The state after `unschedule`: forget the timer and cancel it. */
  function AfterUnschedule(s: TipState): TipState
  {
    var s1 := s.(id := None);
    if s.id.Some? then s1.(pending := s1.pending - {s.id.value}) else s1
  }

  /** The state after `schedule`: cancel any timer, then start a new one. */
  function AfterSchedule(s: TipState): TipState
  {
    var s1 := AfterUnschedule(s);
    var t := s1.nextTimer;
    s1.(pending := s1.pending[t := WaitTime], nextTimer := t + 1, id := Some(t))
  }

  /** The state after `hidetip`: forget the tip window and destroy it. */
  function AfterHideTip(s: TipState): TipState
  {
    var s1 := s.(tw := None);
    if s.tw.Some? then s1.(windows := s1.windows - {s.tw.value}) else s1
  }

  /** The state after `enter`. */
  function AfterEnter(s: TipState): TipState
  {
    AfterSchedule(s)
  }

  /** The state after `leave`. */
  function AfterLeave(s: TipState): TipState
  {
    AfterHideTip(AfterUnschedule(s))
  }

  /** The state after `showtip`: a new top-level window becomes the tip (its placement is not modelled). */
  function AfterShowTip(s: TipState): TipState
  {
    var w := s.nextWindow;
    s.(tw := Some(w), windows := s.windows + {w}, nextWindow := w + 1)
  }

  /** The state after timer `t` expires: Tk drops it from its table and runs `showtip` if it was pending. */
  function AfterTimerExpires(s: TipState, t: nat): TipState
  {
    if t in s.pending then AfterShowTip(s.(pending := s.pending - {t})) else s
  }

  // ---------------------------------------------------------------------
  // Properties
  // ---------------------------------------------------------------------

  /**
   * `unschedule` always clears `id` and cancels the timer it held, touching
   * nothing else; from a valid state it leaves no timer pending.
   */
  lemma UnscheduleCancels(s: TipState)
    ensures var r := AfterUnschedule(s);
      r.id == None && r.pending.Keys == s.pending.Keys - IdSet(s.id) &&
      r.tw == s.tw && r.windows == s.windows && r.nextTimer == s.nextTimer
    ensures Valid(s) ==> AfterUnschedule(s).pending == map[] && Valid(AfterUnschedule(s))
  {
  }

  /** `schedule` leaves exactly one pending timer, a fresh one, held in `id`. */
  lemma ScheduleOnePending(s: TipState)
    requires Valid(s)
    ensures var r := AfterSchedule(s);
      r.id == Some(s.nextTimer) && r.pending == map[s.nextTimer := WaitTime] &&
      s.nextTimer !in s.pending && IdSet(r.id) != IdSet(s.id) &&
      r.tw == s.tw && r.windows == s.windows && Valid(r)
  {
    UnscheduleCancels(s);
  }

  /** `leave` leaves no pending timer and no tip window, destroying the one shown. */
  lemma LeaveClears(s: TipState)
    requires Valid(s)
    ensures var r := AfterLeave(s);
      r.id == None && r.pending == map[] && r.tw == None &&
      r.windows == s.windows - IdSet(s.tw) && Valid(r)
  {
    UnscheduleCancels(s);
  }

  /** A timer expiring keeps the invariant; only the pending timer shows the tip. */
  lemma TimerExpiresValid(s: TipState, t: nat)
    requires Valid(s)
    ensures var r := AfterTimerExpires(s, t);
      Valid(r) && (r.tw != s.tw <==> t in s.pending) &&
      (t in s.pending ==> r.tw == Some(s.nextWindow) && s.nextWindow !in s.windows)
  {
  }

  /** `hidetip` keeps the invariant. */
  lemma HideTipValid(s: TipState)
    requires Valid(s)
    ensures Valid(AfterHideTip(s)) && AfterHideTip(s).tw == None
  {
  }

  /**
   * Entering, waiting for the tip and leaving again leaves no timer and no
   * window behind.
   */
  lemma EnterShowLeave(s: TipState)
    requires Valid(s) && s.tw == None
    ensures var a := AfterEnter(s);
      var b := AfterTimerExpires(a, s.nextTimer);
      b.tw.Some? && b.tw.value in b.windows && b.tw.value !in s.windows &&
      AfterLeave(b).windows == s.windows && AfterLeave(b).pending == map[] && AfterLeave(b).tw == None
  {
    ScheduleOnePending(s);
    var a := AfterEnter(s);
    TimerExpiresValid(a, s.nextTimer);
    var b := AfterTimerExpires(a, s.nextTimer);
    LeaveClears(b);
  }

  /**
   * `showtip` does not destroy a tip window already shown: the old window
   * stays alive with no field referring to it.
   */
  lemma ShowTipKeepsOldWindow(s: TipState)
    requires Valid(s) && s.tw.Some?
    ensures var r := AfterShowTip(s);
      s.tw.value in r.windows && r.tw != s.tw && Valid(r)
  {
  }

  // ---------------------------------------------------------------------
  // The widget
  // ---------------------------------------------------------------------

  /** A tooltip bound to one widget. */
  class Tip {
    var id: Option<nat>
    var tw: Option<nat>
    var pending: map<nat, nat>
    var nextTimer: nat
    var windows: set<nat>
    var nextWindow: nat

    /** The fields as a value. */
    function State(): TipState
      reads this
    {
      TipState(id, tw, pending, nextTimer, windows, nextWindow)
    }

    /** A tooltip with no timer and no tip window (`__init__`). */
    constructor ()
      ensures State() == TipState(None, None, map[], 0, {}, 0)
      ensures Valid(State())
    {
      id := None;
      tw := None;
      pending := map[];
      nextTimer := 0;
      windows := {};
      nextWindow := 0;
    }

    /** Tk's `after(ms, showtip)`: registers a timer and returns its id. */
    method StartTimer(ms: nat) returns (t: nat)
      modifies this
      ensures t == old(nextTimer)
      ensures State() == old(State()).(pending := old(pending)[t := ms], nextTimer := t + 1)
    {
      t := nextTimer;
      pending := pending[t := ms];
      nextTimer := t + 1;
    }

    /** Tk's `after_cancel(t)`: drops the timer if it is still pending. */
    method CancelTimer(t: nat)
      modifies this
      ensures State() == old(State()).(pending := old(pending) - {t})
    {
      pending := pending - {t};
    }

    method Enter()
      modifies this
      ensures State() == AfterEnter(old(State()))
      ensures old(Valid(State())) ==> Valid(State())
    {
      Schedule();
    }

    method Leave()
      modifies this
      ensures State() == AfterLeave(old(State()))
      ensures old(Valid(State())) ==> Valid(State())
    {
      Unschedule();
      HideTip();
    }

    method Schedule()
      modifies this
      ensures State() == AfterSchedule(old(State()))
      ensures old(Valid(State())) ==> Valid(State())
    {
      Unschedule();
      var t := StartTimer(WaitTime);
      id := Some(t);
    }

    method Unschedule()
      modifies this
      ensures State() == AfterUnschedule(old(State()))
      ensures old(Valid(State())) ==> Valid(State())
    {
      var previous := id;
      id := None;
      if previous.Some? {
        CancelTimer(previous.value);
      }
    }

    /** The state part of `showtip`: a new top-level window becomes the tip. */
    method ShowTip()
      modifies this
      ensures State() == AfterShowTip(old(State()))
      ensures old(Valid(State())) ==> Valid(State())
    {
      var w := nextWindow;
      nextWindow := w + 1;
      windows := windows + {w};
      tw := Some(w);
    }

    method HideTip()
      modifies this
      ensures State() == AfterHideTip(old(State()))
      ensures old(Valid(State())) ==> Valid(State())
    {
      var shown := tw;
      tw := None;
      if shown.Some? {
        windows := windows - {shown.value};
      }
    }

    /** Tk's event loop when timer `t` expires: the timer leaves the table and its callback runs. */
    method TimerExpires(t: nat)
      modifies this
      ensures State() == AfterTimerExpires(old(State()), t)
      ensures old(Valid(State())) ==> Valid(State())
    {
      if t in pending {
        pending := pending - {t};
        ShowTip();
      }
    }
  }
}
