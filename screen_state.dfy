/** What a screen broadcast does to the service's pause flag (ScreenStateReceiver.kt with
    `pauseService` / `resumeService` of InternetSpeedFGService.kt). */
module ScreenState {
  import opened Kotlin

  /** The action of a broadcast intent the receiver gets. The receiver is registered for
      the two screen actions only, but `onReceive` itself accepts any. */
  datatype ScreenAction = ScreenOff | ScreenOn | OtherAction(name: string)

  /** The pause flag after `onReceive`: screen off pauses, screen on resumes, anything else is ignored. */
  function PausedAfter(isPaused: bool, action: ScreenAction): bool {
    match action
    case ScreenOff => true
    case ScreenOn => false
    case OtherAction(_) => isPaused
  }

  /** The pause flag after the broadcasts in `actions`, delivered in order. */
  function PausedAfterAll(isPaused: bool, actions: seq<ScreenAction>): bool
    decreases |actions|
  {
    if actions == [] then isPaused else PausedAfterAll(PausedAfter(isPaused, actions[0]), actions[1..])
  }

  /** The state the last screen action in `actions` asks for (paused for off), or `None`
      when there is no screen action in it. */
  function LastScreenState(actions: seq<ScreenAction>): Option<bool>
    decreases |actions|
  {
    if actions == [] then None
    else match actions[|actions| - 1]
      case ScreenOff => Some(true)
      case ScreenOn => Some(false)
      case OtherAction(_) => LastScreenState(actions[..|actions| - 1])
  }

  /** Receiving the same broadcast twice is the same as receiving it once. */
  lemma PausedAfterIdempotent(isPaused: bool, action: ScreenAction)
    ensures PausedAfter(PausedAfter(isPaused, action), action) == PausedAfter(isPaused, action)
  {
  }

  lemma {:induction false} PausedAfterAllSnoc(isPaused: bool, actions: seq<ScreenAction>, last: ScreenAction)
    ensures PausedAfterAll(isPaused, actions + [last]) == PausedAfter(PausedAfterAll(isPaused, actions), last)
    decreases |actions|
  {
    if actions == [] {
      assert [] + [last] == [last];
    } else {
      assert (actions + [last])[1..] == actions[1..] + [last];
      PausedAfterAllSnoc(PausedAfter(isPaused, actions[0]), actions[1..], last);
    }
  }

  /** Only the last screen action counts: the flag ends as it asks, or as it was when
      there was none. */
  lemma {:induction false} LastScreenActionWins(isPaused: bool, actions: seq<ScreenAction>)
    ensures PausedAfterAll(isPaused, actions) == LastScreenState(actions).GetOr(isPaused)
    decreases |actions|
  {
    if actions != [] {
      var init, last := actions[..|actions| - 1], actions[|actions| - 1];
      assert actions == init + [last];
      PausedAfterAllSnoc(isPaused, init, last);
      LastScreenActionWins(isPaused, init);
    }
  }

  /** Off, off, on ends unpaused; on while unpaused stays unpaused. */
  lemma ScreenSequenceExamples()
    ensures PausedAfterAll(false, [ScreenOff, ScreenOff, ScreenOn]) == false
    ensures PausedAfterAll(true, [ScreenOff, ScreenOff, ScreenOn]) == false
    ensures PausedAfterAll(false, [ScreenOn]) == false
  {
    LastScreenActionWins(false, [ScreenOff, ScreenOff, ScreenOn]);
    LastScreenActionWins(true, [ScreenOff, ScreenOff, ScreenOn]);
  }
}
