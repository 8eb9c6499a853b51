# Terminology service liveness monitor — a Dafny model

The liveness monitor is a Windows host process. On a timer it probes the HTTP endpoint of a
terminology service. Once the service has answered once, a failed probe leads to a restart
attempt that depends on the reported service status. A running service is asked to stop. If
killing is configured and the service is not reported stopped, the first process with the
configured name is killed. The service is started again only when it was reported stopped or
the kill returned; otherwise the next tick tries again. A service that is starting up or
paused by an operator is left alone.

A Zulip notifier posts service events to streams and users. It gates repeated messages of one
kind: a message of the same type as the previous one is held back until that type's minimum
interval has passed. While test-result messages are gated it caches the results, and it later
sends them as one table. The monitor and the notifier are modelled separately; how the notifier
would be subscribed to the monitor's events is not part of the model.

The model has five modules:

- `Wrappers` (`wrappers.dfy`): `Option` and `Result`.
- `Sequences` (`sequences.dfy`): regrouping facts about sequence concatenation, used as proof
  steps.
- `Monitoring` (`monitoring.dfy`): the `HostedMonitoringService` class.
  - `StartAsync` reads the configuration and derives the poll interval.
  - `CheckServiceAndRestartIfNeeded` is one timer tick. It returns the events it raises and the
    service-control calls it makes, in order, as a sequence of `Effect`s.
  - The method is proved equal to the specification function `TickEffects`. The lemmas
    characterise that function.
- `TestResults` (`test_results.dfy`):
  - the test record;
  - the descending-time ordering of cached tests, proved sorted, a permutation and stable;
  - the Markdown text the notifier sends for them.
- `Zulip` (`zulip.dfy`):
  - the message-type gate, with the 32-bit truncating minute arithmetic written out;
  - delivery to the configured destinations in order, where a throwing send ends the delivery;
  - the `Notifier` class, with its cache and its event handlers.

Inputs from the outside world are parameters:

- the probe outcome, the service status and the process names seen in one tick;
- whether each service-control call throws. This covers the calls inside a handler (stop, kill,
  start) and the three outside any handler: opening the controller and reading its status,
  enumerating the processes, and refreshing the controller. An exception from one of those three
  leaves the tick, and the trace ends with `Escaped`;
- the current clock reading in ticks;
- the server's reply to each send (a message id, or `None` when the send throws);
- configuration values, already parsed.

A missing or empty configuration string is `""`. An option that failed to parse is `None`.

## Model

| member | source | states |
|---|---|---|
| Monitoring.FirstMatch | src/HostedMonitoringService.cs:224-226 | the process acted on is the first one whose name equals the configured name; None exactly when no process has that name |
| Monitoring.PollInterval | src/HostedMonitoringService.cs:319-322 | the poll interval is the configured seconds raised in steps of 5 to the least value whose milliseconds reach the stop delay |
| Monitoring.HostedMonitoringService.constructor | src/HostedMonitoringService.cs:44-48 | monitoring starts inactive |
| Monitoring.HostedMonitoringService.StartAsync | src/HostedMonitoringService.cs:274-322 | stop delay is the parsed seconds times 1000, else 10 s; killing is enabled only with a process name and a parsed `true`; the poll interval defaults to 30 s and is raised by 5 s until it covers the stop delay |
| Monitoring.HostedMonitoringService.CheckServiceAndRestartIfNeeded | src/HostedMonitoringService.cs:154-269 | the tick's events and calls are exactly `TickEffects` of the state before it; monitoring becomes active on a passing probe and stays active |
| Monitoring.PassingProbe | src/HostedMonitoringService.cs:156-166 | a passing probe raises only the test-passed event and activates monitoring |
| Monitoring.WaitingForFirstSuccess | src/HostedMonitoringService.cs:168-173 | a failing probe before the first success raises only the waiting event and leaves monitoring inactive |
| Monitoring.ActiveNeverReset | src/HostedMonitoringService.cs:156-173 | over any run of ticks, monitoring stays active once active, and is active at the end exactly when it was at the start or some probe passed |
| Monitoring.FailedBeforeRestart | src/HostedMonitoringService.cs:175-176 | with monitoring active, a failing probe raises test-failed first and only once |
| Monitoring.StopByStatus | src/HostedMonitoringService.cs:182-219 | the status switch yields exactly the stop effects of `StopEffects`: a running service gets the stopping event and the stop call, and the delay when the call returned and the delay is not negative; it reports Stopped and the left-alone states exactly |
| Monitoring.KillFirstMatch | src/HostedMonitoringService.cs:223-242 | the process loop finds a process exactly when `FirstMatch` does, kills that one, and reports the kill as returned exactly when it did not throw |
| Monitoring.KillAndStartCalls | src/HostedMonitoringService.cs:221-263 | after the status switch no stop is issued; a kill happens exactly when killing is enabled, the service was not reported stopped, the processes could be enumerated and a matching process exists; the start happens exactly when the service was stopped or the kill returned, and the refresh did not throw |
| Monitoring.StopCalls | src/HostedMonitoringService.cs:182-198 | the service is stopped exactly when monitoring is active, the probe failed, the status could be read and the service is Running |
| Monitoring.KillCalls | src/HostedMonitoringService.cs:221-243 | a process is killed exactly when monitoring is active, the probe failed, the status could be read, killing is enabled, the service is Running or StopPending, the processes could be enumerated and a process of that name exists; a returned kill means the kill did not throw |
| Monitoring.StartCalls | src/HostedMonitoringService.cs:245-263 | the service is started exactly when monitoring is active, the probe failed, the status could be read, the refresh did not throw, and the service was reported Stopped or a kill returned |
| Monitoring.UncaughtEndsTick | src/HostedMonitoringService.cs:180-255 | an exception from opening the controller, enumerating the processes or refreshing it ends the tick: the escape is always the last effect |
| Monitoring.UncaughtStopsTickAt | src/HostedMonitoringService.cs:180-223 | once active, a failed probe whose status cannot be read yields only test-failed and the escape; a kill attempt whose process enumeration throws yields test-failed, the stop effects and the escape, with no kill and no start |
| Monitoring.LeaveManualStatesAlone | src/HostedMonitoringService.cs:200-210 | a StartPending, ContinuePending, PausePending or Paused service is neither stopped, killed nor started |
| Monitoring.RunningWithoutKillIsOnlyStopped | src/HostedMonitoringService.cs:221-249 | without killing, a running service is stopped but not started in the same tick |
| Monitoring.KillingTickShape | src/HostedMonitoringService.cs:221-263 | a tick that kills is test-failed, the stop calls, the kill of the first matching process, then the start calls unless the kill threw |
| Monitoring.KillDiscipline | src/HostedMonitoringService.cs:221-243 | at most one kill per tick, of the first process with the configured name; a kill that throws is the tick's last effect |
| TestResults.OrderByDescending | src/Notification/ZulipNotifier.cs:376 | the cached tests are listed later tests first, as a permutation of the cache |
| TestResults.InsertKeepsDescending | src/Notification/ZulipNotifier.cs:376 | inserting a test into a list ordered later-first keeps it ordered |
| TestResults.OrderIsStable | src/Notification/ZulipNotifier.cs:376 | the ordering is stable: tests with one timestamp keep their cached order |
| TestResults.PresentEntries | src/Notification/ZulipNotifier.cs:378-381 | a test is listed exactly when the cache holds it as a non-null entry |
| TestResults.OrderedCacheRows | src/Notification/ZulipNotifier.cs:374-381 | the table lists every non-null cached test once, later first; the enumeration as written completes exactly when the cache holds no null, and then agrees |
| TestResults.NullEntryThrows | src/Notification/ZulipNotifier.cs:376-381 | a cache holding a null entry makes the ordering throw, where skipping it lists the other test |
| TestResults.TableEndsWithBar | src/Notification/ZulipNotifier.cs:315-415 | the table, with or without the current row and cached rows, ends with a complete table line: every row and the rule end with the closing bar and a line break |
| TestResults.SpoilerWrapsTableIffCached | src/Notification/ZulipNotifier.cs:299-420 | the text opens with the prefix line, or "HTTP Test Results:" without one; the spoiler fence opens right after it, and closes the text, exactly when tests are cached |
| Zulip.UngatedNeverSuppressed | src/Notification/ZulipNotifier.cs:87-99 | a message type with gate 0 is never held back |
| Zulip.GateWindow | src/Notification/ZulipNotifier.cs:458-471 | a repeat of a gated type within 2^31 minutes is held back exactly when less than the gate's minutes have passed |
| Zulip.ClockSetBackSuppresses | src/Notification/ZulipNotifier.cs:463-464 | a repeat of a gated type stamped no later than the previous message is held back |
| Zulip.DeliveryOrder | src/Notification/ZulipNotifier.cs:489-522 | destinations are tried in order, all of them unless a send throws; the first throwing send is the last tried and resets the message id to 0; otherwise the id is the last destination's |
| Zulip.AppendRows | src/Notification/ZulipNotifier.cs:374-415 | the cached-row loop appends one row per test, in order |
| Zulip.Notifier.constructor | src/Notification/ZulipNotifier.cs:104-144 | an id that is missing or does not parse is 0; the notifier is enabled exactly when at least one destination is configured |
| Zulip.Notifier.UpdateTopic | src/Notification/ZulipNotifier.cs:549-552 | the topic is "host: service - start time" |
| Zulip.Notifier.Deliver | src/Notification/ZulipNotifier.cs:489-522 | the posts and the final message id are those of `DeliverAll` over the configured destinations |
| Zulip.Notifier.SendNotification | src/Notification/ZulipNotifier.cs:476-523 | a gated repeat changes nothing and posts nothing; otherwise the type and time are recorded, then the message is delivered as `DeliverAll` says |
| Zulip.Notifier.BuildTextForTestInfo | src/Notification/ZulipNotifier.cs:295-423 | the built text is `TableText` of the prefix, the current test and the cache |
| Zulip.Notifier.HandleHttpTestResult | src/Notification/ZulipNotifier.cs:253-289 | while test results are gated the test is appended to the cache; otherwise the table of it and the cache is sent and the cache is emptied |
| Zulip.Notifier.SendStopNotice | src/Notification/ZulipNotifier.cs:234-247 | always sent, as an ungated Stopping message; the text is the table under the stop prefix with cached tests, otherwise the plain stop message |
| Zulip.Notifier.HandleStoppingService | src/Notification/ZulipNotifier.cs:232-248 | always sent; with cached tests the table under the stop prefix is sent and the cache is emptied, otherwise the plain stop message |
| Zulip.Notifier.HandleWaitingForFirstSuccess | src/Notification/ZulipNotifier.cs:202-207 | always sent, as an ungated Stopping message |
| Zulip.Notifier.HandleStartingService | src/Notification/ZulipNotifier.cs:212-217 | always sent, as an ungated Stopping message |
| Zulip.Notifier.HandleWaitingForServiceToStop | src/Notification/ZulipNotifier.cs:222-227 | sent as a WaitingStop message; held back when the previous message was also WaitingStop and less than a whole minute has passed |
| Zulip.Notifier.HandleMonitorInitializing | src/Notification/ZulipNotifier.cs:428-433 | always sent, as an Initializing message |

## Left out

- HTTP probe: the probe of the service endpoint is the `probePassed` input of a tick.
- Monitor-to-notifier wiring: the host registers only the monitor, which raises its own instance events, while the notifier subscribes to events of a notification hub. How events would reach the notifier is not modelled; each handler is one call.
- Host wiring: the timer, the hosting lifetime, `StopAsync` and disposal are not modelled. Each tick is one call.
- Monitor events: the monitor's event raising is modelled as the `Effect` entries it emits. Subscribers and console output are not modelled.
- `Task.Delay` after a stop is the `StopDelay` effect. Time does not pass in the model.
- Process handles: the process list is the sequence of process names seen in the tick. Reading a process's name is assumed not to throw.
- Monitoring.HostedMonitoringService.CheckServiceAndRestartIfNeeded: a stop delay of -1 means an infinite wait. The model treats it like any other negative delay, which is rejected and skipped. `StartAsync` only produces multiples of 1000, so -1 cannot arise: the product is even, and stays even after a 32-bit wrap. What the runtime does with an exception that leaves the `async void` tick is not modelled; the trace just ends with `Escaped`.
- Monitoring.HostedMonitoringService.StartAsync: does not model the 32-bit overflow of `delaySeconds * 1000`. Integers are unbounded here.
- Monitoring.PollInterval: does not model the 32-bit overflow of `seconds * 1000` in the loop test. Integers are unbounded here.
- The notifier's `StartAsync` and `StopAsync` are not modelled: handler subscription, the Zulip client, and the start-up message built from assembly and OS information. Only `UpdateTopic` and the field defaults are modelled.
- `TryFindZulipRC` walks the file system. It is not part of this model.
- `UpdateMessage` edits a message through the Zulip client. It is not part of this model.
- `SendNotification` is `async void`: handlers run on without awaiting it. The model runs each send to completion before the handler continues, so interleaving of concurrent sends is not captured.
- Zulip.Notifier.SendNotification: the source reads the clock twice, once for the gate and once for the recorded time. The model uses one reading, `now`, for both.
- The passed and failed test handlers have identical bodies. Both are `HandleHttpTestResult`.
- Formatting is not modelled. This covers `ToLongTimeString`, the working set in MB with three decimals, and an enum's name. The time and working-set cells are strings in the test record. A status code is its number and its name.
- Zulip.Notifier.BuildTextForTestInfo: models the intended null-skipping order of the cached tests. With a null entry in the cache, the source throws while ordering, and no text is built. See "## Findings".
- Zulip.Notifier.HandleHttpTestResult: models the intended null-skipping. With a null entry cached, the source's flush throws before sending, so nothing is posted, the cache keeps the null and later flushes throw too.
- Zulip.Notifier.SendStopNotice: models the intended null-skipping. With a null entry cached, the source throws while building the stop table, and nothing is posted.
- Zulip.Notifier.HandleStoppingService: models the intended null-skipping. With a null entry cached, the source throws, posts nothing, and keeps the cache.
- Unicode and encodings are not modelled: strings are sequences of characters.

## Findings

| source | as written | input that shows it | evidently intended | confidence | as-written member | corrected member |
|---|---|---|---|---|---|---|
| src/Notification/ZulipNotifier.cs:376-381 | the cached tests are ordered by `ti.TestDateTime` before the loop checks for null, so a null entry throws `NullReferenceException` in the key selector and the `continue` is never reached | a cache holding one test and one null entry, cached from an event whose `NotificationTestInfo` was null | null entries are skipped and the other cached tests are listed, later first | not executed | TestResults.NullEntryThrows | TestResults.OrderedCacheRows |
