/** The Zulip notifier: a per-message-type minimum interval between repeated messages, the
    delivery of a message to every configured destination, and the cache of HTTP test results
    that are held back while test-result messages are gated. */
module Zulip {
  import W = Wrappers
  import opened TestResults
  import opened Sequences

  /** The kinds of message the notifier sends; `None` is the kind before any message. */
  datatype MessageType =
    | None | Initializing | TestFail | TestSuccess | TestResult | Stopping | WaitingStop
    | Starting | WaitingStart

  /** The minimum number of minutes between two messages of one type; 0 never holds one back. */
  function MinuteGate(t: MessageType): (r: nat) {
    match t
    case None => 0
    case Initializing => 0
    case TestFail => 0
    case TestSuccess => 60
    case TestResult => 60
    case Stopping => 0
    case WaitingStop => 1
    case Starting => 0
    case WaitingStart => 1
  }

  /** Clock ticks are 100 ns. */
  const TicksPerMinute: int := 600_000_000

  const TwoTo31: int := 0x8000_0000

  /** Integer division rounding toward zero, as on a 64-bit `long`. */
  function TruncatingDiv(a: int, b: int): (r: int)
    requires b > 0
  {
    if a >= 0 then a / b else -((-a) / b)
  }

  /** An unchecked conversion to a 32-bit `int`: the value modulo 2^32, in [-2^31, 2^31). */
  function ToInt32(x: int): (r: int) {
    var m := x % (2 * TwoTo31);
    if m >= TwoTo31 then m - 2 * TwoTo31 else m
  }

  /** Whole minutes since `lastTicks`, as `(int)((now - lastTicks) / TicksPerMinute)`. */
  function ElapsedMinutes(lastTicks: int, now: int): (r: int) {
    ToInt32(TruncatingDiv(now - lastTicks, TicksPerMinute))
  }

  /** A message of type `t` is held back when the last message had the same type, that type
      is gated, and fewer whole minutes than its gate have passed since. */
  predicate Suppressed(t: MessageType, lastType: MessageType, lastTicks: int, now: int) {
    t == lastType && MinuteGate(t) != 0 && ElapsedMinutes(lastTicks, now) < MinuteGate(t)
  }

  /** A type with gate 0 is never held back, whatever came before it and whenever. */
  lemma UngatedNeverSuppressed(t: MessageType, lastType: MessageType, lastTicks: int, now: int)
    requires MinuteGate(t) == 0
    ensures !Suppressed(t, lastType, lastTicks, now)
  {
  }

  /** 0 <= d < n * k bounds d / k below n. */
  lemma DivBelow(d: int, k: int, n: int)
    requires k > 0 && 0 <= d < n * k
    ensures 0 <= d / k < n
  {
    assert (d / k) * k <= d;
    MulLess(d / k, n, k);
  }

  lemma MulLess(a: int, b: int, k: int)
    requires k > 0 && a * k < b * k
    ensures a < b
  {
  }

  /** For a gated type repeated after `d` ticks (0 <= d, and d short of 2^31 minutes), the
      repeat is held back exactly when `d` is under the gate's length in ticks. */
  lemma GateWindow(t: MessageType, lastTicks: int, now: int)
    requires MinuteGate(t) > 0
    requires 0 <= now - lastTicks < TwoTo31 * TicksPerMinute
    ensures Suppressed(t, t, lastTicks, now) <==> now - lastTicks < MinuteGate(t) * TicksPerMinute
  {
    var d := now - lastTicks;
    var q := d / TicksPerMinute;
    assert TruncatingDiv(d, TicksPerMinute) == q;
    DivBelow(d, TicksPerMinute, TwoTo31);
    assert ToInt32(q) == q;
    var g := MinuteGate(t);
    assert d == q * TicksPerMinute + d % TicksPerMinute;
    if q < g {
      assert q + 1 <= g;
      assert (q + 1) * TicksPerMinute <= g * TicksPerMinute;
    } else {
      assert q * TicksPerMinute >= g * TicksPerMinute;
    }
  }

  /** A repeat of a gated type stamped no later than the previous message (the clock was set
      back) is held back. */
  lemma ClockSetBackSuppresses(t: MessageType, lastTicks: int, now: int)
    requires MinuteGate(t) > 0
    requires -TwoTo31 * TicksPerMinute < now - lastTicks <= 0
    ensures Suppressed(t, t, lastTicks, now)
  {
    var d := lastTicks - now;
    var q := d / TicksPerMinute;
    assert TruncatingDiv(now - lastTicks, TicksPerMinute) == -q;
    DivBelow(d, TicksPerMinute, TwoTo31);
    assert ToInt32(-q) == -q;
  }

  /** Append one table row per test, in order. */
  method AppendRows(text: string, rows: seq<TestInfo>) returns (r: string)
    ensures r == text + Rows(rows)
  {
    r := text;
    var i := 0;
    while i < |rows|
      invariant 0 <= i <= |rows|
      invariant r == text + Rows(rows[..i])
    {
      RowsOfLongerPrefix(rows, i);
      AppendAssoc(text, Rows(rows[..i]), Row(rows[i]));
      r := r + Row(rows[i]);
      i := i + 1;
    }
    assert rows[..|rows|] == rows;
  }

  // ---- delivery -----------------------------------------------------------------------

  /** A configured destination: a stream or a user, by name or by id. */
  datatype Destination =
    | StreamByName(name: string) | UserByName(name: string) | StreamById(id: int) | UserById(id: int)
  {
    predicate IsStream() {
      StreamByName? || StreamById?
    }
  }

  /** The destinations a message goes to, in the order they are tried. A name is configured
      when not empty, an id when not 0. */
  function Destinations(streamName: string, userName: string, streamId: int, userId: int): (r: seq<Destination>) {
    (if streamName != "" then [StreamByName(streamName)] else [])
    + (if userName != "" then [UserByName(userName)] else [])
    + (if streamId != 0 then [StreamById(streamId)] else [])
    + (if userId != 0 then [UserById(userId)] else [])
  }

  lemma DestinationOrder(
    streamName: string, userName: string, streamId: int, userId: int,
    p1: seq<Destination>, p2: seq<Destination>, p3: seq<Destination>, p4: seq<Destination>)
    requires p1 == if streamName != "" then [StreamByName(streamName)] else []
    requires p2 == if userName != "" then [UserByName(userName)] else []
    requires p3 == if streamId != 0 then [StreamById(streamId)] else []
    requires p4 == if userId != 0 then [UserById(userId)] else []
    ensures Destinations(streamName, userName, streamId, userId) == p1 + p2 + p3 + p4
  {
  }

  /** How far the delivery of one message got: the destinations tried, the last message id,
      and whether a send threw (which ends the delivery). */
  datatype Delivery = Delivery(attempted: seq<Destination>, lastMessageId: nat, failed: bool)

  /** Try one more destination. `reply` gives the id the server returns, or None when the send
      throws. */
  function DeliverTo(d: Delivery, to: Destination, reply: Destination -> W.Option<nat>): (r: Delivery) {
    if d.failed then d
    else match reply(to)
      case None => Delivery(d.attempted + [to], 0, true)
      case Some(id) => Delivery(d.attempted + [to], id, false)
  }

  /** Try the destinations in order. */
  function DeliverAll(dests: seq<Destination>, reply: Destination -> W.Option<nat>, d: Delivery): (r: Delivery)
    decreases |dests|
  {
    if dests == [] then d else DeliverAll(dests[1..], reply, DeliverTo(d, dests[0], reply))
  }

  lemma {:induction false} DeliverAllAppend(
    dests: seq<Destination>, to: Destination, reply: Destination -> W.Option<nat>, d: Delivery)
    ensures DeliverAll(dests + [to], reply, d) == DeliverTo(DeliverAll(dests, reply, d), to, reply)
    decreases |dests|
  {
    if dests == [] {
      assert [to][1..] == [];
    } else {
      assert (dests + [to])[1..] == dests[1..] + [to];
      DeliverAllAppend(dests[1..], to, reply, DeliverTo(d, dests[0], reply));
    }
  }

  lemma DeliverStep(done: seq<Destination>, part: seq<Destination>, reply: Destination -> W.Option<nat>, d: Delivery)
    requires |part| <= 1
    ensures DeliverAll(done + part, reply, d)
      == if part == [] then DeliverAll(done, reply, d) else DeliverTo(DeliverAll(done, reply, d), part[0], reply)
  {
    if part == [] {
      assert done + part == done;
    } else {
      assert part == [part[0]];
      DeliverAllAppend(done, part[0], reply, d);
    }
  }

  /** Delivering a message, starting from message id `id`: the destinations are tried in the
      given order; every one is tried while no send throws, the first that throws is the last
      one tried and resets the message id to 0; otherwise the message id is the one the last
      destination returned, or stays `id` when there is no destination. */
  lemma {:induction false} DeliveryOrder(dests: seq<Destination>, reply: Destination -> W.Option<nat>, id: nat)
    ensures var r := DeliverAll(dests, reply, Delivery([], id, false));
      && r.attempted <= dests
      && (forall i :: 0 <= i < |r.attempted| - 1 ==> reply(r.attempted[i]).Some?)
      && (r.failed <==> exists i :: 0 <= i < |dests| && reply(dests[i]).None?)
      && (r.failed ==> r.lastMessageId == 0 && |r.attempted| > 0
                       && reply(r.attempted[|r.attempted| - 1]).None?)
      && (!r.failed ==> r.attempted == dests)
      && (!r.failed && dests != [] ==> W.Some(r.lastMessageId) == reply(dests[|dests| - 1]))
      && (dests == [] ==> r.lastMessageId == id)
    decreases |dests|
  {
    if dests != [] {
      var front := dests[..|dests| - 1];
      var to := dests[|dests| - 1];
      assert dests == front + [to];
      DeliveryOrder(front, reply, id);
      DeliverAllAppend(front, to, reply, Delivery([], id, false));
      var before := DeliverAll(front, reply, Delivery([], id, false));
      var r := DeliverAll(dests, reply, Delivery([], id, false));
      assert r == DeliverTo(before, to, reply);
      if before.failed {
        var i :| 0 <= i < |front| && reply(front[i]).None?;
        assert dests[i] == front[i];
      } else {
        assert before.attempted == front;
        if reply(to).None? {
          assert reply(dests[|dests| - 1]).None?;
        } else {
          forall i | 0 <= i < |dests|
            ensures reply(dests[i]).Some?
          {
            if i < |front| {
              assert dests[i] == front[i];
            }
          }
        }
      }
    }
  }

  /** A message as posted to one destination; a private message carries no topic. */
  datatype Post = Post(to: Destination, topic: string, text: string)

  /** The posts of `text` to each of `dests`, in order. */
  function PostsFor(dests: seq<Destination>, topic: string, text: string): (r: seq<Post>) {
    seq(|dests|, i requires 0 <= i < |dests| =>
      Post(dests[i], if dests[i].IsStream() then topic else "", text))
  }

  /** The notifier's state: what it last sent and when, and the test results held back. */
  class Notifier {
    const hostId: string
    const serviceName: string
    const streamName: string
    const userName: string
    const streamId: int
    const userId: int
    /** False when no destination is configured; the notifier then subscribes to nothing. */
    const enabled: bool

    var currentTopic: string
    var lastMessageId: nat
    var lastMessageTicks: int
    var lastMessageType: MessageType
    var cachedTestInfo: seq<W.Option<TestInfo>>

    /** Reads the configuration. A name is "" when missing or empty; an id is None when
        missing or not a number. */
    constructor (
      hostIdOption: string,
      serviceNameOption: string,
      streamNameOption: string,
      streamIdOption: W.Option<int>,
      userNameOption: string,
      userIdOption: W.Option<int>)
      ensures hostId == hostIdOption && serviceName == serviceNameOption
      ensures streamName == streamNameOption && userName == userNameOption
      ensures streamId == (if streamIdOption.Some? then streamIdOption.value else 0)
      ensures userId == (if userIdOption.Some? then userIdOption.value else 0)
      ensures enabled <==> Destinations(streamName, userName, streamId, userId) != []
      ensures lastMessageId == 0 && lastMessageTicks == 0 && lastMessageType == None
      ensures cachedTestInfo == []
    {
      hostId := hostIdOption;
      serviceName := serviceNameOption;
      lastMessageId := 0;
      streamName := streamNameOption;
      var sid := if streamIdOption.Some? then streamIdOption.value else 0;
      streamId := sid;
      userName := userNameOption;
      var uid := if userIdOption.Some? then userIdOption.value else 0;
      userId := uid;
      enabled := streamNameOption != "" || userNameOption != "" || sid != 0 || uid != 0;
      lastMessageTicks := 0;
      lastMessageType := None;
      cachedTestInfo := [];
      new;
      assert streamName != "" ==> Destinations(streamName, userName, streamId, userId)[0].StreamByName?;
    }

    function ConfiguredDestinations(): (r: seq<Destination>)
      reads this
    {
      Destinations(streamName, userName, streamId, userId)
    }

    /** The topic stream messages are posted under, named after the host, the service and the
        time the notifier started. */
    method UpdateTopic(threadTime: string)
      modifies this`currentTopic
      ensures currentTopic == hostId + ": " + serviceName + " - " + threadTime
    {
      currentTopic := hostId + ": " + serviceName + " - " + threadTime;
    }

    /** Whether a message of type `t` at time `now` would be held back. */
    function ShouldQueueMessage(t: MessageType, now: int): (r: bool)
      reads this
    {
      Suppressed(t, lastMessageType, lastMessageTicks, now)
    }

    /** The delivery over `done`, started from `start`, left `attempted`, `failed` and the
        message id field as they are. */
    ghost predicate Tracks(
      done: seq<Destination>, reply: Destination -> W.Option<nat>, start: Delivery,
      attempted: seq<Destination>, failed: bool)
      reads this
    {
      DeliverAll(done, reply, start) == Delivery(attempted, if failed then 0 else lastMessageId, failed)
    }

    /** One send inside the `try`: the id the server returns is recorded; a throw is reported
        as `failed`. */
    method SendTo(to: Destination, reply: Destination -> W.Option<nat>, attempted: seq<Destination>)
      returns (attemptedAfter: seq<Destination>, failed: bool)
      modifies this`lastMessageId
      ensures DeliverTo(Delivery(attempted, old(lastMessageId), false), to, reply)
        == Delivery(attemptedAfter, if failed then 0 else lastMessageId, failed)
    {
      attemptedAfter := attempted + [to];
      match reply(to) {
        case None =>
          failed := true;
        case Some(id) =>
          failed := false;
          lastMessageId := id;
      }
    }

    /** The body of the `try`: send to each configured destination in turn, recording each
        message id; a throw skips the remaining sends and resets the id to 0. */
    method Deliver(content: string, reply: Destination -> W.Option<nat>) returns (posts: seq<Post>)
      modifies this`lastMessageId
      ensures var r := DeliverAll(ConfiguredDestinations(), reply, Delivery([], old(lastMessageId), false));
        && posts == PostsFor(r.attempted, currentTopic, content)
        && lastMessageId == r.lastMessageId
    {
      ghost var start := Delivery([], lastMessageId, false);
      ghost var done: seq<Destination> := [];
      var attempted: seq<Destination> := [];
      var failed := false;

      ghost var part1 := if streamName != "" then [StreamByName(streamName)] else [];
      DeliverStep(done, part1, reply, start);
      if !failed && streamName != "" {
        attempted, failed := SendTo(StreamByName(streamName), reply, attempted);
      }
      assert done + part1 == part1;
      done := part1;
      assert Tracks(done, reply, start, attempted, failed);

      ghost var part2 := if userName != "" then [UserByName(userName)] else [];
      DeliverStep(done, part2, reply, start);
      if !failed && userName != "" {
        attempted, failed := SendTo(UserByName(userName), reply, attempted);
      }
      done := done + part2;
      assert Tracks(done, reply, start, attempted, failed);

      ghost var part3 := if streamId != 0 then [StreamById(streamId)] else [];
      DeliverStep(done, part3, reply, start);
      if !failed && streamId != 0 {
        attempted, failed := SendTo(StreamById(streamId), reply, attempted);
      }
      done := done + part3;
      assert Tracks(done, reply, start, attempted, failed);

      ghost var part4 := if userId != 0 then [UserById(userId)] else [];
      DeliverStep(done, part4, reply, start);
      if !failed && userId != 0 {
        attempted, failed := SendTo(UserById(userId), reply, attempted);
      }
      done := done + part4;
      assert Tracks(done, reply, start, attempted, failed);
      DestinationOrder(streamName, userName, streamId, userId, part1, part2, part3, part4);

      if failed {
        lastMessageId := 0;
      }
      posts := PostsFor(attempted, currentTopic, content);
    }

    /** Send `content` to every configured destination unless the gate holds it back. The type
        and time are recorded before the first send and stay recorded if a send throws. */
    method SendNotification(t: MessageType, content: string, now: int, reply: Destination -> W.Option<nat>)
      returns (posts: seq<Post>)
      modifies this`lastMessageType, this`lastMessageTicks, this`lastMessageId
      ensures old(ShouldQueueMessage(t, now)) ==>
        posts == [] && unchanged(this`lastMessageType, this`lastMessageTicks, this`lastMessageId)
      ensures !old(ShouldQueueMessage(t, now)) ==>
        var r := DeliverAll(ConfiguredDestinations(), reply, Delivery([], old(lastMessageId), false));
        && lastMessageType == t && lastMessageTicks == now
        && posts == PostsFor(r.attempted, currentTopic, content)
        && lastMessageId == r.lastMessageId
    {
      if ShouldQueueMessage(t, now) {
        posts := [];
        return;
      }

      lastMessageType := t;
      lastMessageTicks := now;

      posts := Deliver(content, reply);
    }

    /** The message text for the current test `info` and the cached tests, built line by line
        as one growing text. */
    method BuildTextForTestInfo(info: W.Option<TestInfo>, messagePrefix: string) returns (text: string)
      ensures text == TableText(messagePrefix, info, cachedTestInfo)
    {
      var useSpoiler := |cachedTestInfo| > 0;

      if messagePrefix == "" {
        text := Line("HTTP Test Results:");
      } else {
        text := Line(messagePrefix);
      }
      ghost var header := text;

      if useSpoiler {
        text := text + SpoilerOpen;
      }
      ghost var opening := text;
      // `table` is the part of `text` after `opening`
      ghost var table := ColumnHeader;
      text := text + ColumnHeader;

      AppendAssoc(opening, table, ColumnRule);
      table := table + ColumnRule;
      text := text + ColumnRule;

      if info.Some? {
        AppendAssoc(opening, table, Row(info.value));
        table := table + Row(info.value);
        text := text + Row(info.value);
      } else {
        AppendEmpty(table);
        table := table + "";
      }

      var ordered := OrderedCache(cachedTestInfo);
      if |cachedTestInfo| > 0 {
        AppendAssoc(opening, table, Rows(ordered));
        text := AppendRows(text, ordered);
      } else {
        assert ordered == [];
        AppendEmpty(text);
        AppendEmpty(table);
      }
      table := table + Rows(ordered);
      assert table == Table(info, ordered);

      if useSpoiler {
        AppendAssoc(header, SpoilerOpen, table);
        AppendAssoc(header, SpoilerOpen + table, SpoilerClose);
        AppendAssoc(SpoilerOpen, table, SpoilerClose);
        text := text + SpoilerClose;
      }
    }

    /** A passed or failed HTTP test: held back in the cache while test-result messages are
        gated, otherwise sent together with the cached tests, which are then dropped. */
    method HandleHttpTestResult(info: W.Option<TestInfo>, now: int, reply: Destination -> W.Option<nat>)
      returns (posts: seq<Post>)
      modifies this`lastMessageType, this`lastMessageTicks, this`lastMessageId, this`cachedTestInfo
      ensures old(ShouldQueueMessage(TestResult, now)) ==>
        && cachedTestInfo == old(cachedTestInfo) + [info] && posts == []
        && unchanged(this`lastMessageType, this`lastMessageTicks, this`lastMessageId)
      ensures !old(ShouldQueueMessage(TestResult, now)) ==>
        var r := DeliverAll(ConfiguredDestinations(), reply, Delivery([], old(lastMessageId), false));
        && cachedTestInfo == []
        && lastMessageType == TestResult && lastMessageTicks == now
        && posts == PostsFor(r.attempted, currentTopic, TableText("", info, old(cachedTestInfo)))
        && lastMessageId == r.lastMessageId
    {
      if ShouldQueueMessage(TestResult, now) {
        cachedTestInfo := cachedTestInfo + [info];
        posts := [];
      } else {
        var text := BuildTextForTestInfo(info, "");
        posts := SendNotification(TestResult, text, now, reply);
        cachedTestInfo := [];
      }
    }

    /** The stop message: the table of the cached tests under a stop prefix when there are
        any, otherwise a plain stop message. */
    function StoppingText(cache: seq<W.Option<TestInfo>>): (r: string) {
      if cache != []
      then TableText(":stop_sign: Stopping service " + serviceName, W.None, cache)
      else ":stop_sign: Stopping service (" + serviceName + ") due to failuresS!"
    }

    /** The stop notice: the table of the cached tests under the stop prefix when there are
        any, the plain stop message otherwise; sent with the ungated Stopping type. */
    method SendStopNotice(now: int, reply: Destination -> W.Option<nat>) returns (posts: seq<Post>)
      modifies this`lastMessageType, this`lastMessageTicks, this`lastMessageId
      ensures lastMessageType == Stopping && lastMessageTicks == now
      ensures var r := DeliverAll(ConfiguredDestinations(), reply, Delivery([], old(lastMessageId), false));
        && lastMessageId == r.lastMessageId
        && posts == PostsFor(r.attempted, currentTopic, StoppingText(cachedTestInfo))
    {
      UngatedNeverSuppressed(Stopping, lastMessageType, lastMessageTicks, now);
      var text: string;
      if |cachedTestInfo| > 0 {
        text := BuildTextForTestInfo(W.None, ":stop_sign: Stopping service " + serviceName);
      } else {
        text := ":stop_sign: Stopping service (" + serviceName + ") due to failuresS!";
      }
      assert text == StoppingText(cachedTestInfo);
      posts := SendNotification(Stopping, text, now, reply);
    }

    /** The service is being stopped: always sent, with the cached tests when there are any,
        which are then dropped. */
    method HandleStoppingService(now: int, reply: Destination -> W.Option<nat>) returns (posts: seq<Post>)
      modifies this`lastMessageType, this`lastMessageTicks, this`lastMessageId, this`cachedTestInfo
      ensures cachedTestInfo == []
      ensures lastMessageType == Stopping && lastMessageTicks == now
      ensures var r := DeliverAll(ConfiguredDestinations(), reply, Delivery([], old(lastMessageId), false));
        && lastMessageId == r.lastMessageId
        && posts == PostsFor(r.attempted, currentTopic, StoppingText(old(cachedTestInfo)))
    {
      posts := SendStopNotice(now, reply);
      if |cachedTestInfo| > 0 {
        cachedTestInfo := [];
      }
    }

    /** Waiting for the first passing test: sent with the ungated Stopping type. */
    method HandleWaitingForFirstSuccess(now: int, reply: Destination -> W.Option<nat>) returns (posts: seq<Post>)
      modifies this`lastMessageType, this`lastMessageTicks, this`lastMessageId
      ensures lastMessageType == Stopping && lastMessageTicks == now
      ensures var r := DeliverAll(ConfiguredDestinations(), reply, Delivery([], old(lastMessageId), false));
        && lastMessageId == r.lastMessageId
        && posts == PostsFor(r.attempted, currentTopic,
          "Waiting on first HTTP success from service: " + serviceName + " (may take a few minutes)...")
    {
      UngatedNeverSuppressed(Stopping, lastMessageType, lastMessageTicks, now);
      posts := SendNotification(
        Stopping,
        "Waiting on first HTTP success from service: " + serviceName + " (may take a few minutes)...",
        now, reply);
    }

    /** The service is being started: sent with the ungated Stopping type. */
    method HandleStartingService(now: int, reply: Destination -> W.Option<nat>) returns (posts: seq<Post>)
      modifies this`lastMessageType, this`lastMessageTicks, this`lastMessageId
      ensures lastMessageType == Stopping && lastMessageTicks == now
      ensures var r := DeliverAll(ConfiguredDestinations(), reply, Delivery([], old(lastMessageId), false));
        && lastMessageId == r.lastMessageId
        && posts == PostsFor(r.attempted, currentTopic,
          "Starting service: " + serviceName + " (may take a few minutes)...")
    {
      UngatedNeverSuppressed(Stopping, lastMessageType, lastMessageTicks, now);
      posts := SendNotification(
        Stopping, "Starting service: " + serviceName + " (may take a few minutes)...", now, reply);
    }

    /** Waiting for the service to stop: sent as a WaitingStop message, held back when the
        previous message was also WaitingStop and less than a whole minute has passed. */
    method HandleWaitingForServiceToStop(now: int, reply: Destination -> W.Option<nat>) returns (posts: seq<Post>)
      modifies this`lastMessageType, this`lastMessageTicks, this`lastMessageId
      ensures old(ShouldQueueMessage(WaitingStop, now)) ==>
        posts == [] && unchanged(this`lastMessageType, this`lastMessageTicks, this`lastMessageId)
      ensures !old(ShouldQueueMessage(WaitingStop, now)) ==>
        var r := DeliverAll(ConfiguredDestinations(), reply, Delivery([], old(lastMessageId), false));
        && lastMessageType == WaitingStop && lastMessageTicks == now
        && lastMessageId == r.lastMessageId
        && posts == PostsFor(r.attempted, currentTopic, "Waiting on service (" + serviceName + ") to stop.")
    {
      posts := SendNotification(WaitingStop, "Waiting on service (" + serviceName + ") to stop.", now, reply);
    }

    /** The monitor is initializing: never held back. */
    method HandleMonitorInitializing(now: int, reply: Destination -> W.Option<nat>) returns (posts: seq<Post>)
      modifies this`lastMessageType, this`lastMessageTicks, this`lastMessageId
      ensures lastMessageType == Initializing && lastMessageTicks == now
      ensures var r := DeliverAll(ConfiguredDestinations(), reply, Delivery([], old(lastMessageId), false));
        && lastMessageId == r.lastMessageId
        && posts == PostsFor(r.attempted, currentTopic, "Monitoring Service initializing...")
    {
      UngatedNeverSuppressed(Initializing, lastMessageType, lastMessageTicks, now);
      posts := SendNotification(Initializing, "Monitoring Service initializing...", now, reply);
    }
  }
}
