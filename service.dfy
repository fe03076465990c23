/** The foreground service (InternetSpeedFGService.kt) and its screen receiver
    (ScreenStateReceiver.kt). The receiver holds a reference to the service and the service
    to the receiver, so both classes live in this one module.

    The monitoring coroutine is modelled as a loop over a finite sequence of events: a loop
    iteration, with the facts the platform would report during it; a screen broadcast,
    which the receiver handles between two iterations; or the cancellation of the
    coroutine's scope by `onDestroy`, after which the loop's `isActive` test fails. */
module Service {
  import opened Kotlin
  import opened Helper
  import opened ScreenState

  /** The arguments of `createNotification` / `updateNotification`: the label pair and the signal. */
  datatype Notice = Notice(speed: (string, string), wifiSignalStrength: Option<int>)

  /** What `onCreate` shows before the first iteration. */
  const InitialNotice: Notice := Notice(("0", "0"), None)

  /** What the platform reports during one iteration: internet capability, the transport
      probe of the loop, the transport probe inside `getWifiSignalStrengthPercentage`, the
      signal level for 100 buckets, and the counters and clock. */
  datatype TickInput = TickInput(
    connected: bool,
    onWifi: bool,
    onWifiAtSignalRead: bool,
    signalLevel: int,
    sample: Sample)

  /** The platform queries an iteration makes, in order. */
  datatype Call = IsConnectedToInternet | ReadTrafficStatsAndClock | IsConnectedToWifi | ReadSignalLevel

  /** The estimator fields after an iteration, the notification it posts (if any) and its queries. */
  datatype TickOutcome = TickOutcome(baseline: Baseline, notice: Option<Notice>, calls: seq<Call>)

  /** One iteration of the loop of `monitorNetworkSpeed`. The connectivity query comes
      first and is always made; the pause flag is read only when it succeeds (`&&`). */
  function MonitorTick(isPaused: bool, b: Baseline, t: TickInput): TickOutcome {
    if t.connected && !isPaused then
      var step := SpeedStep(b, t.sample);
      var signal := if t.onWifi then WifiSignalStrengthPercentage(t.onWifiAtSignalRead, t.signalLevel) else None;
      var signalCalls := if t.onWifi then [IsConnectedToWifi] + (if t.onWifiAtSignalRead then [ReadSignalLevel] else []) else [];
      TickOutcome(step.0, Some(Notice(step.1, signal)),
                  [IsConnectedToInternet, ReadTrafficStatsAndClock, IsConnectedToWifi] + signalCalls)
    else
      TickOutcome(b, None, [IsConnectedToInternet])
  }

  /** Connectivity is queried on every iteration, first, paused or not; an inactive
      iteration queries nothing else. */
  lemma MonitorTickProbesConnectivity(isPaused: bool, b: Baseline, t: TickInput)
    ensures var o := MonitorTick(isPaused, b, t);
            && |o.calls| >= 1 && o.calls[0] == IsConnectedToInternet
            && (o.calls == [IsConnectedToInternet] <==> !(t.connected && !isPaused))
  {
  }

  /** An iteration samples the counters, moves the estimator and posts a notification
      only when connected and not paused; otherwise the estimator is left as it was. */
  lemma MonitorTickGate(isPaused: bool, b: Baseline, t: TickInput)
    ensures var o := MonitorTick(isPaused, b, t);
            && (o.notice.Some? <==> t.connected && !isPaused)
            && (ReadTrafficStatsAndClock in o.calls <==> t.connected && !isPaused)
            && (!(t.connected && !isPaused) ==> o.baseline == b)
  {
  }

  /** An active iteration runs the estimator once and posts exactly its label pair, with
      the Wi-Fi percentage when both transport probes say Wi-Fi and `null` otherwise; the
      signal level is read only then. */
  lemma MonitorTickActive(isPaused: bool, b: Baseline, t: TickInput)
    requires t.connected && !isPaused
    ensures var o := MonitorTick(isPaused, b, t);
            && o.baseline == SpeedStep(b, t.sample).0
            && o.notice.value.speed == SpeedStep(b, t.sample).1
            && (o.notice.value.wifiSignalStrength.Some? <==> t.onWifi && t.onWifiAtSignalRead)
            && (o.notice.value.wifiSignalStrength.Some? ==> o.notice.value.wifiSignalStrength.value == t.signalLevel)
            && (ReadSignalLevel in o.calls <==> t.onWifi && t.onWifiAtSignalRead)
  {
  }

  // ---------------------------------------------------------------------------
  // A run of the service
  // ---------------------------------------------------------------------------

  /** The service's state: the pause flag, the estimator fields and the notifications posted so far. */
  datatype ServiceState = ServiceState(isPaused: bool, baseline: Baseline, posted: seq<Notice>)

  /** The state `onCreate` leaves, `now` being the clock when the estimator is created. */
  function InitialServiceState(now: int): ServiceState {
    ServiceState(false, InitialBaseline(now), [InitialNotice])
  }

  function ApplyTick(st: ServiceState, t: TickInput): ServiceState {
    var o := MonitorTick(st.isPaused, st.baseline, t);
    ServiceState(st.isPaused, o.baseline, st.posted + (if o.notice.Some? then [o.notice.value] else []))
  }

  datatype Event = Broadcast(action: ScreenAction) | Iteration(input: TickInput) | Cancel

  /** The state after the events, up to the first cancellation. */
  function Run(st: ServiceState, events: seq<Event>): ServiceState
    decreases |events|
  {
    if events == [] then st
    else match events[0]
      case Cancel => st
      case Broadcast(a) => Run(st.(isPaused := PausedAfter(st.isPaused, a)), events[1..])
      case Iteration(t) => Run(ApplyTick(st, t), events[1..])
  }

  /** The iterations before the first cancellation that find the device connected and
      the service unpaused, the flag following the broadcasts. */
  function ActiveIterations(isPaused: bool, events: seq<Event>): nat
    decreases |events|
  {
    if events == [] then 0
    else match events[0]
      case Cancel => 0
      case Broadcast(a) => ActiveIterations(PausedAfter(isPaused, a), events[1..])
      case Iteration(t) => (if t.connected && !isPaused then 1 else 0) + ActiveIterations(isPaused, events[1..])
  }

  /** The screen actions before the first cancellation. */
  function Broadcasts(events: seq<Event>): seq<ScreenAction>
    decreases |events|
  {
    if events == [] then []
    else match events[0]
      case Cancel => []
      case Broadcast(a) => [a] + Broadcasts(events[1..])
      case Iteration(_) => Broadcasts(events[1..])
  }

  /** A run only appends notifications, one per active iteration. */
  lemma {:induction false} RunPostsOnePerActiveIteration(st: ServiceState, events: seq<Event>)
    ensures st.posted <= Run(st, events).posted
    ensures |Run(st, events).posted| == |st.posted| + ActiveIterations(st.isPaused, events)
    decreases |events|
  {
    if events != [] {
      match events[0]
      case Cancel =>
      case Broadcast(a) =>
        RunPostsOnePerActiveIteration(st.(isPaused := PausedAfter(st.isPaused, a)), events[1..]);
      case Iteration(t) =>
        RunPostsOnePerActiveIteration(ApplyTick(st, t), events[1..]);
    }
  }

  /** Nothing after a cancellation has any effect: the loop has stopped. */
  lemma {:induction false} RunStopsAtCancel(st: ServiceState, events: seq<Event>, k: nat)
    requires k < |events| && events[k] == Cancel
    ensures Run(st, events) == Run(st, events[..k])
    decreases k
  {
    if k > 0 && events[0] != Cancel {
      assert events[..k][0] == events[0];
      assert events[..k][1..] == events[1..][..k - 1];
      var next := match events[0]
        case Broadcast(a) => st.(isPaused := PausedAfter(st.isPaused, a))
        case Iteration(t) => ApplyTick(st, t)
        case Cancel => st;
      RunStopsAtCancel(next, events[1..], k - 1);
    }
  }

  lemma {:induction false} RunPauseFollowsBroadcasts(st: ServiceState, events: seq<Event>)
    ensures Run(st, events).isPaused == PausedAfterAll(st.isPaused, Broadcasts(events))
    decreases |events|
  {
    if events != [] {
      match events[0]
      case Cancel =>
      case Broadcast(a) =>
        assert ([a] + Broadcasts(events[1..]))[1..] == Broadcasts(events[1..]);
        RunPauseFollowsBroadcasts(st.(isPaused := PausedAfter(st.isPaused, a)), events[1..]);
      case Iteration(t) =>
        RunPauseFollowsBroadcasts(ApplyTick(st, t), events[1..]);
    }
  }

  /** At the end of a run the service is paused exactly as the last screen broadcast
      asked, or as it was if there was none. */
  lemma RunPauseIsLastScreenAction(st: ServiceState, events: seq<Event>)
    ensures Run(st, events).isPaused == LastScreenState(Broadcasts(events)).GetOr(st.isPaused)
  {
    RunPauseFollowsBroadcasts(st, events);
    LastScreenActionWins(st.isPaused, Broadcasts(events));
  }

  /** From creation: the zero notification comes first, then one per active iteration. */
  lemma RunFromCreation(now: int, events: seq<Event>)
    ensures var posted := Run(InitialServiceState(now), events).posted;
            && |posted| == 1 + ActiveIterations(false, events)
            && posted[0] == Notice(("0", "0"), None)
  {
    RunPostsOnePerActiveIteration(InitialServiceState(now), events);
  }

  // ---------------------------------------------------------------------------
  // The objects
  // ---------------------------------------------------------------------------

  class InternetSpeedFGService {
    var networkHelper: NetworkHelper
    var isPaused: bool
    var screenStateReceiver: ScreenStateReceiver?
    /** The notifications handed to the notification manager, oldest first. */
    var posted: seq<Notice>

    ghost predicate Valid()
      reads this
    {
      screenStateReceiver != null && screenStateReceiver.service == this
    }

    function State(): ServiceState
      reads this, networkHelper
    {
      ServiceState(isPaused, networkHelper.State(), posted)
    }

    /** `onCreate`: the receiver, the estimator (created at time `now`) and the zero notification. */
    constructor(now: int)
      ensures Valid() && fresh(networkHelper)
      ensures State() == InitialServiceState(now)
    {
      networkHelper := new NetworkHelper(now);
      isPaused := false;
      screenStateReceiver := null;
      posted := [InitialNotice];
      new;
      screenStateReceiver := new ScreenStateReceiver(this);
    }

    method PauseService()
      modifies this`isPaused
      ensures isPaused
    {
      isPaused := true;
    }

    method ResumeService()
      modifies this`isPaused
      ensures !isPaused
    {
      isPaused := false;
    }

    /** The body of the loop of `monitorNetworkSpeed`; returns the platform queries it made. */
    method MonitorIteration(t: TickInput) returns (calls: seq<Call>)
      modifies this`posted, networkHelper
      ensures State() == ApplyTick(old(State()), t)
      ensures calls == MonitorTick(old(isPaused), old(networkHelper.State()), t).calls
    {
      calls := [IsConnectedToInternet];
      if t.connected && !isPaused {
        calls := calls + [ReadTrafficStatsAndClock];
        var speed := networkHelper.CalculateNetworkSpeed(t.sample.rxBytes, t.sample.txBytes, t.sample.timeMillis);
        calls := calls + [IsConnectedToWifi];
        var wifiSignalStrength: Option<int> := None;
        if t.onWifi {
          calls := calls + [IsConnectedToWifi];
          if t.onWifiAtSignalRead {
            calls := calls + [ReadSignalLevel];
          }
          wifiSignalStrength := WifiSignalStrengthPercentage(t.onWifiAtSignalRead, t.signalLevel);
        }
        posted := posted + [Notice(speed, wifiSignalStrength)];
      }
    }

    /** `monitorNetworkSpeed`: `isActive` is tested at the top of each iteration, and a
        broadcast between two iterations goes to the receiver. */
    method MonitorNetworkSpeed(events: seq<Event>)
      requires Valid()
      modifies this, networkHelper
      ensures Valid() && networkHelper == old(networkHelper)
      ensures screenStateReceiver == old(screenStateReceiver)
      ensures State() == Run(old(State()), events)
    {
      var i := 0;
      while i < |events| && !events[i].Cancel?
        invariant 0 <= i <= |events|
        invariant Valid() && networkHelper == old(networkHelper)
        invariant screenStateReceiver == old(screenStateReceiver)
        invariant Run(old(State()), events) == Run(State(), events[i..])
      {
        assert events[i..][1..] == events[i + 1..];
        match events[i] {
          case Broadcast(a) =>
            screenStateReceiver.OnReceive(a);
          case Iteration(t) =>
            var _ := MonitorIteration(t);
        }
        i := i + 1;
      }
    }
  }

  class ScreenStateReceiver {
    const service: InternetSpeedFGService

    constructor(service: InternetSpeedFGService)
      ensures this.service == service
    {
      this.service := service;
    }

    /** `onReceive`: screen off pauses the service, screen on resumes it, other actions do nothing. */
    method OnReceive(action: ScreenAction)
      modifies service`isPaused
      ensures service.isPaused == PausedAfter(old(service.isPaused), action)
    {
      if action.ScreenOff? {
        service.PauseService();
      } else if action.ScreenOn? {
        service.ResumeService();
      }
    }
  }
}
