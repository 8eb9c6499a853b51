/** The liveness monitor of one Windows service: one tick of probe, stop, kill and start
    decisions (CheckServiceAndRestartIfNeeded), and the start-up derivation of the stop delay,
    the kill flag and the poll interval (StartAsync). */
module Monitoring {
  import opened Wrappers
  import opened Sequences

  /** The status the OS service controller reports for the monitored service. */
  datatype ServiceStatus =
    | Running | Stopped | StartPending | StopPending | ContinuePending | PausePending | Paused

  /** What the environment answers during one tick. A `...Throws` flag says that the
      corresponding call raised an exception: `statusThrows` for opening the service controller
      and reading its status, `processesThrow` for enumerating the processes, `refreshThrows`
      for refreshing the controller; these three calls are outside any handler. `processes`
      lists the names of the running processes, in the order the OS enumerates them. */
  datatype TickInput = TickInput(
    probePassed: bool,
    statusThrows: bool,
    status: ServiceStatus,
    stopThrows: bool,
    processesThrow: bool,
    processes: seq<string>,
    killThrows: bool,
    refreshThrows: bool,
    startThrows: bool)

  /** One observable effect of a tick: an event raised, or a call into the OS. */
  datatype Effect =
    | ServiceTestPassed
    | ServiceTestWaitingStart
    | ServiceTestFailed
    | StoppingMonitoredService
    | StopCall(ok: bool)
    | StopDelay(ms: int)
    | KillCall(index: nat, ok: bool)
    | StoppedMonitoredService
    | Refresh
    | StartingMonitoredService
    | StartCall(ok: bool)
    /** An exception left the tick: nothing after it happens. */
    | Escaped

  /** The settings a tick reads, fixed by StartAsync. */
  datatype Settings = Settings(serviceStopDelayMs: int, killProcess: bool, processName: string)

  /** The index of the first process called `name`, if any. */
  function FirstMatch(names: seq<string>, name: string): (r: Option<nat>)
    ensures r.Some? ==> r.value < |names| && names[r.value] == name
    ensures r.Some? ==> forall j :: 0 <= j < r.value ==> names[j] != name
    ensures r.None? ==> forall j :: 0 <= j < |names| ==> names[j] != name
    decreases |names|
  {
    if names == [] then None
    else if names[0] == name then Some(0)
    else match FirstMatch(names[1..], name)
      case None => None
      case Some(k) => Some(k + 1)
  }

  /** The events and the start call that follow once the old process is known to be gone; a
      refresh that throws ends the tick before the start. */
  function StartEffects(t: TickInput): (r: seq<Effect>) {
    if t.refreshThrows then [StoppedMonitoredService, Escaped]
    else [StoppedMonitoredService, Refresh, StartingMonitoredService, StartCall(!t.startThrows)]
  }

  /** Kill the first matching process when configured to and the service is not stopped yet,
      then start the service if it is (now) stopped. */
  function KillAndStart(s: Settings, t: TickInput, stopped: bool): (r: seq<Effect>) {
    if s.killProcess && !stopped && t.processesThrow then [Escaped]
    else if s.killProcess && !stopped then
      match FirstMatch(t.processes, s.processName)
      case None => []
      case Some(i) => [KillCall(i, !t.killThrows)] + (if t.killThrows then [] else StartEffects(t))
    else if stopped then StartEffects(t)
    else []
  }

  /** The statuses in which the service is left alone for the tick: it is starting up, or an
      operator has paused it by hand. */
  predicate LeftAlone(status: ServiceStatus) {
    status in {StartPending, ContinuePending, PausePending, Paused}
  }

  /** A running service is asked to stop; the stop delay is awaited only when the call returned
      and the delay is not negative (a negative delay is rejected inside the same handler). */
  function StopEffects(s: Settings, t: TickInput): (r: seq<Effect>) {
    if t.status == Running then
      [StoppingMonitoredService, StopCall(!t.stopThrows)]
      + (if t.stopThrows || s.serviceStopDelayMs < 0 then [] else [StopDelay(s.serviceStopDelayMs)])
    else []
  }

  /** What happens after a failed probe once monitoring is active, by service status. */
  function RestartEffects(s: Settings, t: TickInput): (r: seq<Effect>) {
    if t.statusThrows then [Escaped]
    else if LeftAlone(t.status) then []
    else StopEffects(s, t) + KillAndStart(s, t, t.status == Stopped)
  }

  /** The effects of one tick, given whether monitoring was active before it. */
  function TickEffects(active: bool, s: Settings, t: TickInput): (r: seq<Effect>) {
    if t.probePassed then [ServiceTestPassed]
    else if !active then [ServiceTestWaitingStart]
    else [ServiceTestFailed] + RestartEffects(s, t)
  }

  /** Whether monitoring is active after one tick. */
  function ActiveAfterTick(active: bool, t: TickInput): (r: bool) {
    active || t.probePassed
  }

  /** Whether monitoring is active after a sequence of ticks. */
  function ActiveAfter(active: bool, ticks: seq<TickInput>): (r: bool)
    decreases |ticks|
  {
    if ticks == [] then active else ActiveAfter(ActiveAfterTick(active, ticks[0]), ticks[1..])
  }

  predicate StopsService(effects: seq<Effect>) {
    exists e :: e in effects && e.StopCall?
  }

  predicate KillsProcess(effects: seq<Effect>) {
    exists e :: e in effects && e.KillCall?
  }

  predicate KillSucceeded(effects: seq<Effect>) {
    exists e :: e in effects && e.KillCall? && e.ok
  }

  predicate StartsService(effects: seq<Effect>) {
    exists e :: e in effects && e.StartCall?
  }

  /** The default stop delay when ServiceStopDelaySeconds does not parse. */
  const DefaultStopDelayMs := 10 * 1000

  /** The default poll interval when PollIntervalSeconds does not parse. */
  const DefaultPollSeconds := 30

  /** Raise the poll interval in 5-second steps until it covers the stop delay: the result is
      the least `seconds + 5k` (k >= 0) whose value in milliseconds reaches `stopDelayMs`. */
  method PollInterval(seconds: int, stopDelayMs: int) returns (r: int)
    ensures r >= seconds && (r - seconds) % 5 == 0
    ensures r * 1000 >= stopDelayMs
    ensures r == seconds || (r - 5) * 1000 < stopDelayMs
  {
    r := seconds;
    while r * 1000 < stopDelayMs
      invariant r >= seconds && (r - seconds) % 5 == 0
      invariant r == seconds || (r - 5) * 1000 < stopDelayMs
      decreases stopDelayMs - r * 1000
    {
      r := r + 5;
    }
  }

  /** The switch on the service status after a failed probe: a running service is asked to
      stop; a stopped one needs no stop; a starting or manually paused one is left alone. */
  method StopByStatus(s: Settings, t: TickInput) returns (stop: seq<Effect>, stopped: bool, leftAlone: bool)
    ensures stop == StopEffects(s, t)
    ensures stopped <==> t.status == Stopped
    ensures leftAlone <==> LeftAlone(t.status)
  {
    stop := [];
    stopped := false;
    leftAlone := false;
    match t.status {
      case Running =>
        stop := stop + [StoppingMonitoredService];
        if t.stopThrows {
          stop := stop + [StopCall(false)];
        } else {
          stop := stop + [StopCall(true)];
          if s.serviceStopDelayMs >= 0 {
            stop := stop + [StopDelay(s.serviceStopDelayMs)];
          }
        }
      case StartPending =>
        leftAlone := true;
      case ContinuePending =>
        leftAlone := true;
      case PausePending =>
        leftAlone := true;
      case Paused =>
        leftAlone := true;
      case Stopped =>
        stopped := true;
      case StopPending =>
    }
  }

  /** Once monitoring is active, a failed probe raises test-failed and then, unless the
      service is left alone, stops it and goes on to kill and start. */
  lemma FailedTick(s: Settings, t: TickInput)
    requires !t.probePassed && !t.statusThrows
    ensures LeftAlone(t.status) ==> TickEffects(true, s, t) == [ServiceTestFailed]
    ensures !LeftAlone(t.status) ==>
      TickEffects(true, s, t) == [ServiceTestFailed] + StopEffects(s, t) + KillAndStart(s, t, t.status == Stopped)
  {
    if LeftAlone(t.status) {
      AppendEmpty([ServiceTestFailed]);
    } else {
      AppendAssoc([ServiceTestFailed], StopEffects(s, t), KillAndStart(s, t, t.status == Stopped));
    }
  }

  /** Walk the processes for the first one called `name` and kill it: `found` says whether
      there was one, `killed` whether the kill returned. */
  method KillFirstMatch(processes: seq<string>, name: string, killThrows: bool)
    returns (kill: seq<Effect>, found: bool, killed: bool)
    ensures found <==> FirstMatch(processes, name).Some?
    ensures killed <==> found && !killThrows
    ensures kill == if found then [KillCall(FirstMatch(processes, name).value, !killThrows)] else []
  {
    kill := [];
    found := false;
    killed := false;
    var i := 0;
    while i < |processes|
      invariant 0 <= i <= |processes|
      invariant forall j :: 0 <= j < i ==> processes[j] != name
    {
      if processes[i] == name {
        kill := [KillCall(i, !killThrows)];
        found := true;
        killed := !killThrows;
        return;
      }
      i := i + 1;
    }
  }

  /** The hosted service that probes the monitored service on each timer tick. */
  class HostedMonitoringService {
    var serviceName: string
    var processName: string
    var serviceUrl: string
    var serviceStopDelayMs: int
    var killProcess: bool
    /** Set on the first passing probe and never reset. */
    var monitoringIsActive: bool
    /** The period of the timer that drives CheckServiceAndRestartIfNeeded. */
    var pollIntervalSeconds: int

    constructor ()
      ensures !monitoringIsActive
    {
      monitoringIsActive := false;
    }

    function CurrentSettings(): (r: Settings)
      reads this
    {
      Settings(serviceStopDelayMs, killProcess, processName)
    }

    /** Reads the configuration. Each parse result is None when the option is missing or does
        not parse; `processName` is "" when missing or empty. */
    method StartAsync(
      serviceNameOption: string,
      processNameOption: string,
      serviceUrlOption: string,
      stopDelaySeconds: Option<int>,
      killProcessOption: Option<bool>,
      pollSeconds: Option<int>)
      modifies this
      ensures serviceName == serviceNameOption && processName == processNameOption
      ensures serviceUrl == serviceUrlOption
      ensures serviceStopDelayMs ==
        if stopDelaySeconds.Some? then stopDelaySeconds.value * 1000 else DefaultStopDelayMs
      ensures killProcess <==> processNameOption != "" && killProcessOption == Some(true)
      ensures var seconds := if pollSeconds.Some? then pollSeconds.value else DefaultPollSeconds;
        && pollIntervalSeconds >= seconds && (pollIntervalSeconds - seconds) % 5 == 0
        && pollIntervalSeconds * 1000 >= serviceStopDelayMs
        && (pollIntervalSeconds == seconds || (pollIntervalSeconds - 5) * 1000 < serviceStopDelayMs)
      ensures monitoringIsActive == old(monitoringIsActive)
    {
      serviceName := serviceNameOption;
      processName := processNameOption;
      serviceUrl := serviceUrlOption;

      if stopDelaySeconds.Some? {
        serviceStopDelayMs := stopDelaySeconds.value * 1000;
      } else {
        serviceStopDelayMs := DefaultStopDelayMs;
      }

      if processName != "" && killProcessOption.Some? {
        killProcess := killProcessOption.value;
      } else {
        killProcess := false;
      }

      var seconds := if pollSeconds.Some? then pollSeconds.value else DefaultPollSeconds;
      pollIntervalSeconds := PollInterval(seconds, serviceStopDelayMs);
    }

    /** One timer tick: probe, and when monitoring is active and the probe failed, stop the
        service, kill its process if configured to, and start it again. */
    method CheckServiceAndRestartIfNeeded(t: TickInput) returns (effects: seq<Effect>)
      modifies this`monitoringIsActive
      ensures effects == TickEffects(old(monitoringIsActive), CurrentSettings(), t)
      ensures monitoringIsActive == ActiveAfterTick(old(monitoringIsActive), t)
    {
      if t.probePassed {
        if !monitoringIsActive {
          monitoringIsActive := true;
        }
        effects := [ServiceTestPassed];
        return;
      }

      if !monitoringIsActive {
        effects := [ServiceTestWaitingStart];
        return;
      }

      effects := [ServiceTestFailed];
      if t.statusThrows {
        effects := effects + [Escaped];
        return;
      }
      ghost var s := CurrentSettings();
      FailedTick(s, t);

      var stop, serviceIsStopped, leftAlone := StopByStatus(CurrentSettings(), t);
      if leftAlone {
        return;
      }
      effects := effects + stop;
      ghost var beforeKill := effects;
      ghost var rest := KillAndStart(s, t, serviceIsStopped);

      var kill: seq<Effect> := [];
      if killProcess && !serviceIsStopped {
        if t.processesThrow {
          effects := effects + [Escaped];
          return;
        }
        var found, killed;
        kill, found, killed := KillFirstMatch(t.processes, processName, t.killThrows);
        effects := effects + kill;
        if found && !killed {
          assert rest == kill + [];
          AppendEmpty(kill);
          return;
        }
        serviceIsStopped := killed;
      }

      if !serviceIsStopped {
        assert rest == [] && kill == [];
        AppendEmpty(beforeKill);
        return;
      }

      assert rest == kill + StartEffects(t);
      AppendAssoc(beforeKill, kill, StartEffects(t));
      if t.refreshThrows {
        effects := effects + [StoppedMonitoredService, Escaped];
        return;
      }
      effects := effects + [StoppedMonitoredService, Refresh, StartingMonitoredService, StartCall(!t.startThrows)];
    }
  }

  /** A passing probe activates monitoring and raises only the test-passed event. */
  lemma PassingProbe(active: bool, s: Settings, t: TickInput)
    requires t.probePassed
    ensures TickEffects(active, s, t) == [ServiceTestPassed]
    ensures ActiveAfterTick(active, t)
  {
  }

  /** A failing probe before the first success only raises the waiting-start event. */
  lemma WaitingForFirstSuccess(s: Settings, t: TickInput)
    requires !t.probePassed
    ensures TickEffects(false, s, t) == [ServiceTestWaitingStart]
    ensures !ActiveAfterTick(false, t)
  {
  }

  /** Monitoring, once active, stays active whatever the later ticks observe; before that it
      becomes active exactly when some probe passes. */
  lemma {:induction false} ActiveNeverReset(active: bool, ticks: seq<TickInput>)
    ensures active ==> ActiveAfter(active, ticks)
    ensures ActiveAfter(active, ticks) <==>
      active || exists i :: 0 <= i < |ticks| && ticks[i].probePassed
    decreases |ticks|
  {
    if ticks != [] {
      var rest := ticks[1..];
      ActiveNeverReset(ActiveAfterTick(active, ticks[0]), rest);
      assert forall i :: 0 <= i < |rest| ==> rest[i] == ticks[i + 1];
      if exists i :: 0 <= i < |ticks| && ticks[i].probePassed {
        var i :| 0 <= i < |ticks| && ticks[i].probePassed;
        if i > 0 {
          assert rest[i - 1].probePassed;
        }
      }
    }
  }

  /** Once monitoring is active, a failing probe raises test-failed first and only once, so it
      comes before any stopping, stopped or starting event. */
  lemma FailedBeforeRestart(s: Settings, t: TickInput)
    requires !t.probePassed
    ensures |TickEffects(true, s, t)| > 0 && TickEffects(true, s, t)[0] == ServiceTestFailed
    ensures ServiceTestFailed !in TickEffects(true, s, t)[1..]
  {
    var r := RestartEffects(s, t);
    assert TickEffects(true, s, t) == [ServiceTestFailed] + r;
    assert ([ServiceTestFailed] + r)[1..] == r;
    assert ServiceTestFailed !in StopEffects(s, t);
    assert ServiceTestFailed !in KillAndStart(s, t, t.status == Stopped);
  }

  /** The calls after the stop phase: at most one kill, of the first matching process, and a
      start once the service is stopped or the kill returned, unless enumerating the processes
      or refreshing the controller threw first. No stop is issued here. */
  lemma KillAndStartCalls(s: Settings, t: TickInput, stopped: bool)
    ensures forall e :: e in KillAndStart(s, t, stopped) ==> !e.StopCall?
    ensures KillsProcess(KillAndStart(s, t, stopped)) <==>
      s.killProcess && !stopped && !t.processesThrow && FirstMatch(t.processes, s.processName).Some?
    ensures KillSucceeded(KillAndStart(s, t, stopped)) <==>
      && s.killProcess && !stopped && !t.processesThrow
      && FirstMatch(t.processes, s.processName).Some? && !t.killThrows
    ensures StartsService(KillAndStart(s, t, stopped)) <==>
      (stopped || KillSucceeded(KillAndStart(s, t, stopped))) && !t.refreshThrows
  {
    var starts := StartEffects(t);
    assert forall e :: e in starts ==> !e.StopCall? && !e.KillCall?;
    if t.refreshThrows {
      assert forall e :: e in starts ==> !e.StartCall?;
    } else {
      assert StartCall(!t.startThrows) in starts;
    }
    var k := FirstMatch(t.processes, s.processName);
    if s.killProcess && !stopped && !t.processesThrow && k.Some? {
      var kill := KillCall(k.value, !t.killThrows);
      var rest := if t.killThrows then [] else starts;
      assert KillAndStart(s, t, stopped) == [kill] + rest;
      assert kill in [kill] + rest;
    }
  }

  /** A stop is issued exactly when monitoring is active, the probe failed, the status could be
      read and the service is running. */
  lemma StopCalls(active: bool, s: Settings, t: TickInput)
    ensures StopsService(TickEffects(active, s, t)) <==>
      active && !t.probePassed && !t.statusThrows && t.status == Running
  {
    if active && !t.probePassed && !t.statusThrows && !LeftAlone(t.status) {
      var stop := StopEffects(s, t);
      var rest := KillAndStart(s, t, t.status == Stopped);
      assert TickEffects(active, s, t) == [ServiceTestFailed] + stop + rest;
      KillAndStartCalls(s, t, t.status == Stopped);
      if t.status == Running {
        assert StopCall(!t.stopThrows) in stop;
        assert StopCall(!t.stopThrows) in [ServiceTestFailed] + stop + rest;
      }
    }
  }

  /** A process is killed exactly when monitoring is active, the probe failed, the status could
      be read, killing is enabled, the service is running or stop-pending, the processes could
      be enumerated and one of them has the configured name. */
  lemma KillCalls(active: bool, s: Settings, t: TickInput)
    ensures KillsProcess(TickEffects(active, s, t)) <==>
      && active && !t.probePassed && !t.statusThrows && t.status in {Running, StopPending}
      && s.killProcess && !t.processesThrow && FirstMatch(t.processes, s.processName).Some?
    ensures KillSucceeded(TickEffects(active, s, t)) ==> !t.killThrows
  {
    if active && !t.probePassed && !t.statusThrows && !LeftAlone(t.status) {
      var stop := StopEffects(s, t);
      var rest := KillAndStart(s, t, t.status == Stopped);
      assert TickEffects(active, s, t) == [ServiceTestFailed] + stop + rest;
      assert forall e :: e in stop ==> !e.KillCall?;
      KillAndStartCalls(s, t, t.status == Stopped);
    }
  }

  /** The service is started exactly when monitoring is active, the probe failed, the status
      could be read, the service was reported stopped or a kill returned, and the controller
      could be refreshed. */
  lemma StartCalls(active: bool, s: Settings, t: TickInput)
    ensures StartsService(TickEffects(active, s, t)) <==>
      && active && !t.probePassed && !t.statusThrows && !t.refreshThrows
      && (t.status == Stopped || KillSucceeded(TickEffects(active, s, t)))
  {
    if active && !t.probePassed && !t.statusThrows && !LeftAlone(t.status) {
      var stop := StopEffects(s, t);
      var rest := KillAndStart(s, t, t.status == Stopped);
      assert TickEffects(active, s, t) == [ServiceTestFailed] + stop + rest;
      assert forall e :: e in stop ==> !e.KillCall? && !e.StartCall?;
      KillAndStartCalls(s, t, t.status == Stopped);
    }
  }

  /** An escaping exception, if any, is the last effect of `effects`. */
  predicate EscapeIsLast(effects: seq<Effect>) {
    forall i :: 0 <= i < |effects| && effects[i] == Escaped ==> i == |effects| - 1
  }

  lemma EscapeIsLastAppend(pre: seq<Effect>, post: seq<Effect>)
    requires Escaped !in pre && EscapeIsLast(post)
    ensures EscapeIsLast(pre + post)
  {
    forall i | 0 <= i < |pre + post| && (pre + post)[i] == Escaped
      ensures i == |pre + post| - 1
    {
      if i >= |pre| {
        assert post[i - |pre|] == Escaped;
      }
    }
  }

  /** After the kill phase nothing but the last effect can be an escaping exception. */
  lemma KillAndStartEscapeIsLast(s: Settings, t: TickInput, stopped: bool)
    ensures EscapeIsLast(KillAndStart(s, t, stopped))
  {
    var starts := StartEffects(t);
    assert EscapeIsLast(starts);
    var k := FirstMatch(t.processes, s.processName);
    if s.killProcess && !stopped && !t.processesThrow && k.Some? {
      var after := if t.killThrows then [] else starts;
      assert KillAndStart(s, t, stopped) == [KillCall(k.value, !t.killThrows)] + after;
      EscapeIsLastAppend([KillCall(k.value, !t.killThrows)], after);
    }
  }

  /** An exception from one of the unguarded calls ends the tick: it is the last effect. */
  lemma UncaughtEndsTick(active: bool, s: Settings, t: TickInput)
    ensures EscapeIsLast(TickEffects(active, s, t))
  {
    if active && !t.probePassed && !t.statusThrows && !LeftAlone(t.status) {
      var pre := [ServiceTestFailed] + StopEffects(s, t);
      var rest := KillAndStart(s, t, t.status == Stopped);
      assert TickEffects(active, s, t) == pre + rest;
      assert Escaped !in pre;
      KillAndStartEscapeIsLast(s, t, t.status == Stopped);
      EscapeIsLastAppend(pre, rest);
    }
  }

  /** Where an exception ends the tick: a status that cannot be read ends it right after
      test-failed; processes that cannot be enumerated end it right after the stop effects. */
  lemma UncaughtStopsTickAt(active: bool, s: Settings, t: TickInput)
    requires active && !t.probePassed
    ensures t.statusThrows ==> TickEffects(active, s, t) == [ServiceTestFailed, Escaped]
    ensures (!t.statusThrows && t.status in {Running, StopPending} && s.killProcess && t.processesThrow) ==>
      TickEffects(active, s, t) == [ServiceTestFailed] + StopEffects(s, t) + [Escaped]
  {
  }

  /** A service in a transitional or manual state is left alone for the tick. */
  lemma LeaveManualStatesAlone(active: bool, s: Settings, t: TickInput)
    requires LeftAlone(t.status)
    ensures !StopsService(TickEffects(active, s, t)) && !KillsProcess(TickEffects(active, s, t))
    ensures !StartsService(TickEffects(active, s, t))
  {
    StopCalls(active, s, t);
    KillCalls(active, s, t);
    StartCalls(active, s, t);
  }

  /** A running service with killing disabled is stopped but not started in the same tick. */
  lemma RunningWithoutKillIsOnlyStopped(s: Settings, t: TickInput)
    requires !t.probePassed && !t.statusThrows && t.status == Running && !s.killProcess
    ensures StopsService(TickEffects(true, s, t))
    ensures !KillsProcess(TickEffects(true, s, t)) && !StartsService(TickEffects(true, s, t))
  {
    StopCalls(true, s, t);
    KillCalls(true, s, t);
    StartCalls(true, s, t);
  }

  /** The shape of a tick that kills: the test-failed event and the stop effects, the kill of
      the first matching process, then the start effects if the kill returned. */
  lemma KillingTickShape(active: bool, s: Settings, t: TickInput)
    requires KillsProcess(TickEffects(active, s, t))
    ensures FirstMatch(t.processes, s.processName).Some?
    ensures TickEffects(active, s, t)
      == [ServiceTestFailed] + StopEffects(s, t)
      + [KillCall(FirstMatch(t.processes, s.processName).value, !t.killThrows)]
      + (if t.killThrows then [] else StartEffects(t))
  {
    KillCalls(active, s, t);
  }

  /** In `pre + [x] + post` with no kill in `pre` or `post`, a kill can only be `x`. */
  lemma OnlyKillAt(all: seq<Effect>, pre: seq<Effect>, x: Effect, post: seq<Effect>, i: nat)
    requires all == pre + [x] + post
    requires forall e :: e in pre ==> !e.KillCall?
    requires forall e :: e in post ==> !e.KillCall?
    requires i < |all| && all[i].KillCall?
    ensures i == |pre| && all[i] == x
    ensures forall j :: 0 <= j < |all| && j != i ==> !all[j].KillCall?
    ensures post == [] ==> i == |all| - 1
  {
    forall j | 0 <= j < |all| && j != |pre|
      ensures !all[j].KillCall?
    {
      if j < |pre| {
        assert all[j] == pre[j] && pre[j] in pre;
      } else {
        assert all[j] == post[j - |pre| - 1] && post[j - |pre| - 1] in post;
      }
    }
  }

  /** Only a kill call is a kill: the events and the stop and start calls around it are not. */
  lemma NoKillAround(s: Settings, t: TickInput)
    ensures forall e :: e in [ServiceTestFailed] + StopEffects(s, t) ==> !e.KillCall?
    ensures forall e :: e in StartEffects(t) ==> !e.KillCall?
  {
  }

  /** At most one process is killed per tick, it is the first process of the configured name,
      and a kill that throws ends the tick without a start. */
  lemma KillDiscipline(active: bool, s: Settings, t: TickInput, i: nat)
    requires i < |TickEffects(active, s, t)| && TickEffects(active, s, t)[i].KillCall?
    ensures FirstMatch(t.processes, s.processName) == Some(TickEffects(active, s, t)[i].index)
    ensures forall j :: 0 <= j < |TickEffects(active, s, t)| && j != i ==>
      !TickEffects(active, s, t)[j].KillCall?
    ensures !TickEffects(active, s, t)[i].ok ==> i == |TickEffects(active, s, t)| - 1
  {
    var effects := TickEffects(active, s, t);
    assert effects[i] in effects;
    KillingTickShape(active, s, t);
    var k := FirstMatch(t.processes, s.processName).value;
    var pre: seq<Effect> := [ServiceTestFailed] + StopEffects(s, t);
    var post: seq<Effect> := if t.killThrows then [] else StartEffects(t);
    NoKillAround(s, t);
    OnlyKillAt(effects, pre, KillCall(k, !t.killThrows), post, i);
  }
}
