/** The idle timer of `main`: the dashboard counts its frames in `runtime`
    and switches to the screensaver after `ssaver_time` frames without a
    touch; a touch-down on the dashboard restarts the count, except for
    the first one after leaving the screensaver; a touch-up on the
    screensaver returns to the dashboard. */
module Idle {

  /** Line 302: dashboard frames before the screensaver starts. */
  const SsaverTime := 720

  /** The three variables of the timer (lines 301-304). */
  datatype Timer = Timer(runtime: int, screensaverOn: bool, returnFromSs: bool)

  const Start := Timer(0, false, false)

  /** The count always lies below the threshold. */
  predicate Inv(t: Timer) {
    0 <= t.runtime < SsaverTime
  }

  /** Lines 567-571: one more dashboard frame; the threshold starts the
      screensaver and restarts the count. */
  function Tick(t: Timer): (u: Timer)
    ensures Inv(t) ==> Inv(u)
    ensures u.returnFromSs == t.returnFromSs
    ensures u.screensaverOn <==> t.screensaverOn || t.runtime + 1 == SsaverTime
    ensures u.runtime == if t.runtime + 1 == SsaverTime then 0 else t.runtime + 1
  {
    if t.runtime + 1 == SsaverTime then Timer(0, true, t.returnFromSs)
    else t.(runtime := t.runtime + 1)
  }

  /** Lines 382-385: a touch-down restarts the count unless it is the first
      one after the screensaver; either way the flag is cleared. */
  function Down(t: Timer): (u: Timer)
    ensures Inv(t) ==> Inv(u)
    ensures !u.returnFromSs && u.screensaverOn == t.screensaverOn
    ensures u.runtime == if t.returnFromSs then t.runtime else 0
  {
    if t.returnFromSs then t.(returnFromSs := false)
    else Timer(0, t.screensaverOn, false)
  }

  /** Lines 626-630: a touch-up on the screensaver leaves it. */
  function SsUp(t: Timer): (u: Timer)
    ensures u.runtime == t.runtime && !u.screensaverOn && u.returnFromSs
  {
    t.(screensaverOn := false, returnFromSs := true)
  }

  /** Events as the loops of `main` tell them apart. */
  datatype Event = Quit | MouseDown | MouseUp | Other

  /** Lines 334-412: the dashboard's event loop; `QUIT` ends the program, the
      first `MOUSEBUTTONDOWN` is handled and ends the loop, everything else
      leaves the timer alone. The result says whether the program quits. */
  function DashboardBatch(evs: seq<Event>, t: Timer): (r: (bool, Timer))
    ensures r.1 == t || r.1 == Down(t)
    ensures r.0 ==> r.1 == t
    decreases |evs|
  {
    if evs == [] then (false, t)
    else match evs[0]
      case Quit => (true, t)
      case MouseDown => (false, Down(t))
      case _ => DashboardBatch(evs[1..], t)
  }

  /** Lines 626-632: the screensaver's event loop; the first
      `MOUSEBUTTONUP` leaves the screensaver and ends the loop, `QUIT` ends
      the program. */
  function ScreensaverBatch(evs: seq<Event>, t: Timer): (r: (bool, Timer))
    ensures r.1 == t || r.1 == SsUp(t)
    ensures r.0 ==> r.1 == t
    decreases |evs|
  {
    if evs == [] then (false, t)
    else match evs[0]
      case MouseUp => (false, SsUp(t))
      case Quit => (true, t)
      case _ => ScreensaverBatch(evs[1..], t)
  }

  /** How the very first pass of the dashboard's event loop ends. */
  datatype FirstOutcome = Quits | Crashes | Continues(t: Timer)

  /** Lines 334-412 on the first pass of `main`, as written: `background`
      is a local of `main` first bound at line 479, so the blit of line 387
      (after a touch-down) or of line 411 (after any other event but
      `QUIT`) reads it unbound, and the program stops with an error. */
  function FirstDashboardBatch(evs: seq<Event>, t: Timer): (r: FirstOutcome)
    ensures r.Continues? <==> evs == []
    ensures r.Quits? <==> evs != [] && evs[0] == Quit
    ensures r.Continues? ==> r.t == t
  {
    if evs == [] then Continues(t)
    else if evs[0] == Quit then Quits
    else Crashes
  }

  /** A touch on the first frame stops the program as written, where the
      loop the rest of the model uses handles it like any later touch. */
  lemma FirstTouchCrashes(t: Timer)
    ensures FirstDashboardBatch([MouseDown], t) == Crashes
    ensures FirstDashboardBatch([Other, Quit], t) == Crashes
    ensures DashboardBatch([MouseDown], t) == (false, Down(t))
    ensures DashboardBatch([Other, Quit], t) == (true, t)
  {
    assert [Other, Quit][1..] == [Quit];
  }

  /** One pass of the outer loop of `main` while the dashboard shows: the
      events, then (if the screensaver is still off) the frame count. */
  function DashboardFrame(t: Timer, evs: seq<Event>): (r: (bool, Timer))
    ensures r.0 ==> r.1 == t
    ensures Inv(t) ==> Inv(r.1)
    ensures t.screensaverOn ==> r.1.screensaverOn
    ensures Reachable(t) ==> Reachable(r.1)
  {
    var (quit, u) := DashboardBatch(evs, t);
    if quit then (true, u)
    else if u.screensaverOn then (false, u)
    else (false, Tick(u))
  }

  /** `a` occurs in `evs` with no `b` ahead of it. */
  predicate Before(evs: seq<Event>, a: Event, b: Event) {
    exists i :: 0 <= i < |evs| && evs[i] == a && b !in evs[..i]
  }

  lemma BeforeCons(evs: seq<Event>, a: Event, b: Event)
    requires evs != [] && a != b
    ensures evs[0] == a ==> Before(evs, a, b)
    ensures evs[0] == b ==> !Before(evs, a, b)
    ensures evs[0] != a && evs[0] != b ==> (Before(evs, a, b) <==> Before(evs[1..], a, b))
  {
    if evs[0] == a {
      assert evs[..0] == [];
    } else if evs[0] != b {
      if Before(evs, a, b) {
        var i :| 0 <= i < |evs| && evs[i] == a && b !in evs[..i];
        assert evs[..i] == [evs[0]] + evs[1..][..i - 1];
      }
      if Before(evs[1..], a, b) {
        var i :| 0 <= i < |evs[1..]| && evs[1..][i] == a && b !in evs[1..][..i];
        assert evs[..i + 1] == [evs[0]] + evs[1..][..i];
      }
    } else {
      forall i | 0 < i < |evs|
        ensures b in evs[..i]
      {
        assert evs[..i][0] == b;
      }
    }
  }

  /** The dashboard's event loop applies `Down` once, exactly when there is
      a touch-down with no `QUIT` ahead of it, and quits exactly when there
      is a `QUIT` with no touch-down ahead of it. */
  lemma {:induction false} DashboardBatchEffect(evs: seq<Event>, t: Timer)
    ensures DashboardBatch(evs, t).0 <==> Before(evs, Quit, MouseDown)
    ensures DashboardBatch(evs, t).1 == if Before(evs, MouseDown, Quit) then Down(t) else t
    decreases |evs|
  {
    if evs != [] {
      BeforeCons(evs, Quit, MouseDown);
      BeforeCons(evs, MouseDown, Quit);
      if evs[0] != Quit && evs[0] != MouseDown {
        DashboardBatchEffect(evs[1..], t);
      }
    }
  }

  /** The screensaver is left exactly when a touch-up arrives with no `QUIT`
      ahead of it; otherwise the timer does not change. */
  lemma {:induction false} ScreensaverBatchEffect(evs: seq<Event>, t: Timer)
    ensures ScreensaverBatch(evs, t).0 <==> Before(evs, Quit, MouseUp)
    ensures ScreensaverBatch(evs, t).1 == if Before(evs, MouseUp, Quit) then SsUp(t) else t
    decreases |evs|
  {
    if evs != [] {
      BeforeCons(evs, Quit, MouseUp);
      BeforeCons(evs, MouseUp, Quit);
      if evs[0] != Quit && evs[0] != MouseUp {
        ScreensaverBatchEffect(evs[1..], t);
      }
    }
  }

  /** Only a touch-up on the screensaver leaves it: dashboard frames never
      switch it off, and every step keeps the count below the threshold. */
  lemma StepsKeepInvariant(t: Timer, evs: seq<Event>)
    requires Inv(t)
    ensures Inv(DashboardFrame(t, evs).1) && Inv(ScreensaverBatch(evs, t).1)
    ensures t.screensaverOn ==> DashboardFrame(t, evs).1.screensaverOn
  {
    DashboardBatchEffect(evs, t);
    ScreensaverBatchEffect(evs, t);
  }

  /** The states `main` can reach from `Start`: besides the bound on the
      count, the count is 0 whenever the screensaver shows, since it only
      starts from the reset of lines 569-571. */
  predicate Reachable(t: Timer) {
    Inv(t) && (t.screensaverOn ==> t.runtime == 0)
  }

  /** `Start` is reachable, and every dashboard frame and every screensaver
      event loop keeps a state reachable. */
  lemma ReachableSteps(t: Timer, evs: seq<Event>)
    requires Reachable(t)
    ensures Reachable(Start)
    ensures Reachable(DashboardFrame(t, evs).1) && Reachable(ScreensaverBatch(evs, t).1)
  {
    DashboardBatchEffect(evs, t);
    ScreensaverBatchEffect(evs, t);
  }

  /** Leaving the screensaver from a reachable state comes back to the
      dashboard with the count at 0, so the screensaver returns after a
      full `SsaverTime` untouched frames. */
  lemma LeaveScreensaver(t: Timer, n: nat)
    requires Reachable(t) && t.screensaverOn
    ensures SsUp(t) == Timer(0, false, true)
    ensures Wait(SsUp(t), n).screensaverOn <==> n >= SsaverTime
  {
    WaitStartsScreensaver(SsUp(t), n);
  }

  /** `n` dashboard frames in which nothing is touched. */
  function Wait(t: Timer, n: nat): Timer
    decreases n
  {
    if n == 0 then t else Wait(DashboardFrame(t, []).1, n - 1)
  }

  /** Left untouched, the dashboard starts the screensaver after exactly
      `SsaverTime - runtime` frames and not one frame earlier. */
  lemma {:induction false} WaitStartsScreensaver(t: Timer, n: nat)
    requires Inv(t) && !t.screensaverOn
    ensures Wait(t, n).screensaverOn <==> n >= SsaverTime - t.runtime
    ensures Wait(t, n).runtime == if n >= SsaverTime - t.runtime then 0 else t.runtime + n
    ensures Wait(t, n).returnFromSs == t.returnFromSs
    decreases n
  {
    if n > 0 {
      var u := DashboardFrame(t, []).1;
      assert u == Tick(t);
      if u.screensaverOn {
        OnStaysOn(u, n - 1);
      } else {
        WaitStartsScreensaver(u, n - 1);
      }
    }
  }

  lemma {:induction false} OnStaysOn(t: Timer, n: nat)
    requires t.screensaverOn
    ensures Wait(t, n) == t
    decreases n
  {
    if n > 0 {
      assert DashboardFrame(t, []).1 == t;
      OnStaysOn(t, n - 1);
    }
  }

  /** A touch-down on the dashboard (not the first after the screensaver)
      restarts the count: the screensaver starts exactly `SsaverTime`
      untouched frames later. */
  lemma TouchRestartsCount(t: Timer, n: nat)
    requires Inv(t) && !t.screensaverOn && !t.returnFromSs
    ensures Wait(Down(t), n).screensaverOn <==> n >= SsaverTime
  {
    WaitStartsScreensaver(Down(t), n);
  }

  /** After the screensaver the first touch-down only clears the flag and
      keeps the count; the next one restarts it. */
  lemma ReturnSkipsOneReset(t: Timer)
    requires Inv(t) && t.screensaverOn
    ensures var u := SsUp(t);
      !u.screensaverOn && Down(u).runtime == t.runtime && !Down(u).returnFromSs &&
      Down(Down(u)).runtime == 0
  {
  }

  /** The same timer, as the variables `main` updates in place. */
  class IdleClock {
    var runtime: int
    var screensaverOn: bool
    var returnFromSs: bool

    function State(): Timer
      reads this
    {
      Timer(runtime, screensaverOn, returnFromSs)
    }

    constructor ()
      ensures State() == Start && Reachable(State())
    {
      runtime := 0;
      screensaverOn := false;
      returnFromSs := false;
    }

    /** Lines 567-571. */
    method DashboardTick()
      modifies this
      ensures State() == Tick(old(State()))
    {
      runtime := runtime + 1;
      if runtime == SsaverTime {
        runtime := 0;
        screensaverOn := true;
      }
    }

    /** Lines 382-385. */
    method TouchDown()
      modifies this
      ensures State() == Down(old(State()))
    {
      if returnFromSs != true {
        runtime := 0;
      }
      returnFromSs := false;
    }

    /** Lines 392-409: a touch-up on the dashboard only re-enables
        touch-downs, which leaves the timer as it is. */
    method TouchUp()
      ensures State() == old(State())
    {
    }

    /** Lines 626-630. */
    method ScreensaverTouchUp()
      modifies this
      ensures State() == SsUp(old(State()))
    {
      screensaverOn := false;
      returnFromSs := true;
    }

    /** The dashboard's event loop; returns whether the program quits. */
    method DashboardEvents(evs: seq<Event>) returns (quit: bool)
      modifies this
      ensures (quit, State()) == DashboardBatch(evs, old(State()))
    {
      var i := 0;
      while i < |evs|
        invariant 0 <= i <= |evs|
        invariant State() == old(State())
        invariant DashboardBatch(evs[i..], State()) == DashboardBatch(evs, old(State()))
        decreases |evs| - i
      {
        assert evs[i..][0] == evs[i] && evs[i..][1..] == evs[i + 1..];
        if evs[i] == Quit {
          return true;
        } else if evs[i] == MouseDown {
          TouchDown();
          return false;
        } else if evs[i] == MouseUp {
          TouchUp();
        }
        i := i + 1;
      }
      return false;
    }

    /** The screensaver's event loop; returns whether the program quits. */
    method ScreensaverEvents(evs: seq<Event>) returns (quit: bool)
      modifies this
      ensures (quit, State()) == ScreensaverBatch(evs, old(State()))
    {
      var i := 0;
      while i < |evs|
        invariant 0 <= i <= |evs|
        invariant State() == old(State())
        invariant ScreensaverBatch(evs[i..], State()) == ScreensaverBatch(evs, old(State()))
        decreases |evs| - i
      {
        assert evs[i..][0] == evs[i] && evs[i..][1..] == evs[i + 1..];
        if evs[i] == MouseUp {
          ScreensaverTouchUp();
          return false;
        } else if evs[i] == Quit {
          return true;
        }
        i := i + 1;
      }
      return false;
    }

    /** One pass of the outer loop while the dashboard shows. */
    method DashboardPass(evs: seq<Event>) returns (quit: bool)
      modifies this
      ensures (quit, State()) == DashboardFrame(old(State()), evs)
    {
      quit := DashboardEvents(evs);
      if !quit && !screensaverOn {
        DashboardTick();
      }
    }
  }
}
