/**
  The client side of the Codex app-server connection. Requesters register under a lock and wait on a channel of
  their own; one reader resolves responses, delivers them outside the lock, queues notifications and fails what is
  still pending when the stream ends. Messages are correlated by id as in section 5 of JSON-RPC 2.0.
 */
module RpcMultiplexer {
  import opened Collections
  import opened Payloads

  const NOTIFICATION_CAPACITY := 128
  const INT64_RANGE := 0x1_0000_0000_0000_0000
  const INT64_HALF := 0x8000_0000_0000_0000

  /** Two's complement wrap-around of a 64-bit integer. */
  function WrapInt64(n: int): int {
    (n + INT64_HALF) % INT64_RANGE - INT64_HALF
  }

  /** The id of the k-th request, counted from zero. */
  function RequestID(k: nat): int {
    WrapInt64(k + 1)
  }

  /** Request ids are unique in a connection if and only if it carries at most 2^64 requests. */
  lemma RequestIDsUniqueExactly(n: nat)
    ensures (forall i: nat, j: nat :: i < j < n ==> RequestID(i) != RequestID(j)) <==> n <= INT64_RANGE
  {
    if n > INT64_RANGE {
      assert RequestID(0) == RequestID(INT64_RANGE);
    } else {
      forall i: nat, j: nat | i < j < n ensures RequestID(i) != RequestID(j) {
        RequestIDsDiffer(i, j);
      }
    }
  }

  lemma RequestIDsDiffer(i: nat, j: nat)
    requires i < j < INT64_RANGE
    ensures RequestID(i) != RequestID(j)
  {
  }

  // ---- The stream ----

  /**
    One line of output: whether it is a JSON object, and its members `method` (here `name`) and `id`; an inner `None`
    is undecodable.
   */
  datatype Line = Line(isObject: bool, name: Option<Option<string>>, id: Option<Option<int>>, body: string)

  datatype Item = Skip | Notify(name: string) | Answer(id: int, body: string)

  function Classify(line: Line): Item {
    if !line.isObject then Skip
    else match line.name
      case Some(Some(name)) => Notify(name)
      case Some(None) => Skip
      case None => if line.id.Some? && line.id.value.Some? then Answer(line.id.value.value, line.body) else Skip
  }

  function ClassifyAll(lines: seq<Line>): (items: seq<Item>)
    ensures |items| == |lines| && forall i :: 0 <= i < |lines| ==> items[i] == Classify(lines[i])
  {
    seq(|lines|, i requires 0 <= i < |lines| => Classify(lines[i]))
  }

  function NotificationsIn(items: seq<Item>): nat {
    if items == [] then 0
    else NotificationsIn(items[..|items| - 1]) + if items[|items| - 1].Notify? then 1 else 0
  }

  lemma NotificationsMonotone(items: seq<Item>, i: nat, j: nat)
    requires i <= j <= |items|
    ensures NotificationsIn(items[..i]) <= NotificationsIn(items[..j])
  {
    if i < j {
      NotificationsMonotone(items, i, j - 1);
      assert items[..j][..j - 1] == items[..j - 1];
    }
  }

  // ---- What the lock protects ----

  datatype Table = Table(nextID: int, pending: map<int, nat>)

  function Register(t: Table, channel: nat): Table {
    var id := WrapInt64(t.nextID + 1);
    Table(id, t.pending[id := channel])
  }

  function Withdraw(t: Table, id: int): Table {
    t.(pending := t.pending - {id})
  }

  // ---- Interleavings ----

  datatype Message = Reply(id: int, body: string) | ReadError(id: int)

  /** A requester waits, or has decided to give up its registration, or has given it up, or has its message. */
  datatype Phase = Waiting | Leaving | Gone | Received(message: Message)

  /** `sent` is everything ever sent on the request's channel. */
  datatype Request = Request(phase: Phase, sent: seq<Message>)

  datatype Reader = Reading | Delivering(channel: nat, message: Message) | FailingOver(remaining: set<nat>) | Stopped

  datatype State = State(
    requests: seq<Request>, table: Table, reader: Reader, swappedAt: Option<nat>,
    taken: seq<Item>, lines: seq<Item>, queued: nat, drained: nat)

  datatype Step =
    | BeginRequest(encodeFails: bool)
    | GiveUp(k: nat)
    | RemovePending(k: nat)
    | Receive(k: nat)
    | TakeLine
    | Deliver
    | SwapPending
    | DeliverFailure(k: nat)
    | CloseNotifications
    | Drain

  /** What the capacity-one channel of request k holds. */
  function Held(s: State, k: nat): seq<Message>
    requires k < |s.requests|
  {
    var r := s.requests[k];
    if r.phase.Received? && r.sent != [] then r.sent[1..] else r.sent
  }

  predicate CanSend(s: State, k: nat) {
    k < |s.requests| && Held(s, k) == []
  }

  predicate Enabled(s: State, step: Step) {
    match step
    case BeginRequest(_) => true
    case GiveUp(k) => k < |s.requests| && s.requests[k].phase == Waiting
    case RemovePending(k) => k < |s.requests| && s.requests[k].phase == Leaving
    case Receive(k) => k < |s.requests| && s.requests[k].phase == Waiting && Held(s, k) != []
    case TakeLine => s.reader == Reading && s.lines != [] && (s.lines[0].Notify? ==> s.queued < NOTIFICATION_CAPACITY)
    case Deliver => s.reader.Delivering? && CanSend(s, s.reader.channel)
    case SwapPending => s.reader == Reading && s.lines == []
    case DeliverFailure(k) => s.reader.FailingOver? && k in s.reader.remaining && CanSend(s, k)
    case CloseNotifications => s.reader == FailingOver({})
    case Drain => s.queued > 0
  }

  function Send(s: State, k: nat, message: Message): State
    requires k < |s.requests|
  {
    s.(requests := s.requests[k := s.requests[k].(sent := s.requests[k].sent + [message])])
  }

  function SetPhase(s: State, k: nat, phase: Phase): State
    requires k < |s.requests|
  {
    s.(requests := s.requests[k := s.requests[k].(phase := phase)])
  }

  function Take(s: State): State
    requires s.lines != []
  {
    var next := s.(taken := s.taken + [s.lines[0]], lines := s.lines[1..]);
    match s.lines[0]
    case Skip => next
    case Notify(_) => next.(queued := s.queued + 1)
    case Answer(id, body) =>
      if id !in s.table.pending then next
      else next.(reader := Delivering(s.table.pending[id], Reply(id, body)), table := Withdraw(s.table, id))
  }

  function Apply(s: State, step: Step): State
    requires Enabled(s, step)
  {
    match step
    case BeginRequest(encodeFails) =>
      s.(requests := s.requests + [Request(if encodeFails then Leaving else Waiting, [])],
         table := Register(s.table, |s.requests|))
    case GiveUp(k) => SetPhase(s, k, Leaving)
    case RemovePending(k) => SetPhase(s, k, Gone).(table := Withdraw(s.table, RequestID(k)))
    case Receive(k) => SetPhase(s, k, Received(Held(s, k)[0]))
    case TakeLine => Take(s)
    case Deliver => Send(s, s.reader.channel, s.reader.message).(reader := Reading)
    case SwapPending =>
      s.(reader := FailingOver(s.table.pending.Values), table := s.table.(pending := map[]),
         swappedAt := Some(|s.requests|))
    case DeliverFailure(k) => Send(s, k, ReadError(RequestID(k))).(reader := FailingOver(s.reader.remaining - {k}))
    case CloseNotifications => s.(reader := Stopped)
    case Drain => s.(queued := s.queued - 1, drained := s.drained + 1)
  }

  function Initial(stream: seq<Item>): State {
    State([], Table(0, map[]), Reading, None, [], stream, 0, 0)
  }

  ghost predicate IsRun(stream: seq<Item>, states: seq<State>, steps: seq<Step>) {
    && |states| == |steps| + 1 && states[0] == Initial(stream)
    && forall i :: 0 <= i < |steps| ==> Enabled(states[i], steps[i]) && states[i + 1] == Apply(states[i], steps[i])
  }

  ghost predicate Reachable(stream: seq<Item>, s: State) {
    exists states, steps :: IsRun(stream, states, steps) && states[|states| - 1] == s
  }

  // ---- What every interleaving keeps ----

  predicate InFlight(s: State, k: nat) {
    || (s.reader.Delivering? && s.reader.channel == k)
    || (s.reader.FailingOver? && k in s.reader.remaining)
  }

  predicate IsPending(s: State, k: nat) {
    RequestID(k) in s.table.pending && s.table.pending[RequestID(k)] == k
  }

  predicate BeforeSwap(s: State, k: nat) {
    s.swappedAt.Some? ==> k < s.swappedAt.value
  }

  /** A registered or in-flight channel has never been sent anything, and is not both. */
  predicate Untouched(s: State, k: nat) {
    k < |s.requests| && s.requests[k].sent == []
  }

  predicate RequestOk(s: State, k: nat)
    requires k < |s.requests|
  {
    var r := s.requests[k];
    && |r.sent| <= 1
    && (r.sent != [] ==> r.sent[0].id == RequestID(k) && BeforeSwap(s, k))
    && (r.phase.Received? ==> r.sent == [r.phase.message])
    && (|s.requests| <= INT64_RANGE && r.phase == Waiting && r.sent == [] ==> IsPending(s, k) || InFlight(s, k))
  }

  ghost predicate Inv(s: State) {
    && s.table.nextID == WrapInt64(|s.requests|)
    && (forall id :: id in s.table.pending ==>
          var k := s.table.pending[id];
          Untouched(s, k) && RequestID(k) == id && !InFlight(s, k) && (s.swappedAt.Some? ==> k >= s.swappedAt.value))
    && (s.reader.Delivering? ==> Untouched(s, s.reader.channel) && s.reader.message.id == RequestID(s.reader.channel))
    && (s.reader.FailingOver? ==> forall k :: k in s.reader.remaining ==> Untouched(s, k) && BeforeSwap(s, k))
    && (s.swappedAt.Some? <==> s.reader.FailingOver? || s.reader.Stopped?)
    && (s.swappedAt.Some? ==> s.swappedAt.value <= |s.requests|)
    && (forall k :: 0 <= k < |s.requests| ==> RequestOk(s, k))
    && NotificationsIn(s.taken) == s.queued + s.drained && s.queued <= NOTIFICATION_CAPACITY
  }

  lemma NextRequestID(n: nat)
    ensures WrapInt64(WrapInt64(n) + 1) == RequestID(n) == WrapInt64(n + 1)
  {
  }

  lemma BeginRequestKeepsInv(s: State, encodeFails: bool)
    requires Inv(s)
    ensures Inv(Apply(s, BeginRequest(encodeFails)))
  {
    hide WrapInt64, RequestID, NotificationsIn;
    var next := Apply(s, BeginRequest(encodeFails));
    var n := |s.requests|;
    NextRequestID(n);
    forall k | 0 <= k < |next.requests| ensures RequestOk(next, k) {
      if k < n {
        assert RequestOk(s, k);
        if n + 1 <= INT64_RANGE {
          RequestIDsDiffer(k, n);
        }
      }
    }
  }

  lemma RequesterKeepsInv(s: State, step: Step)
    requires Inv(s) && Enabled(s, step) && (step.GiveUp? || step.RemovePending? || step.Receive?)
    ensures Inv(Apply(s, step))
  {
    hide WrapInt64, RequestID, NotificationsIn;
    var next := Apply(s, step);
    forall k | 0 <= k < |next.requests| ensures RequestOk(next, k) {
      assert RequestOk(s, k);
      if step.RemovePending? && k != step.k && |s.requests| <= INT64_RANGE {
        RequestIDsDiffer(if k < step.k then k else step.k, if k < step.k then step.k else k);
      }
    }
  }

  lemma TakeLineKeepsInv(s: State)
    requires Inv(s) && Enabled(s, TakeLine)
    ensures Inv(Apply(s, TakeLine))
  {
    hide WrapInt64, RequestID;
    var next := Apply(s, TakeLine);
    assert next.taken[..|next.taken| - 1] == s.taken;
    forall k | 0 <= k < |next.requests| ensures RequestOk(next, k) {
      assert RequestOk(s, k);
    }
  }

  lemma DeliveryKeepsInv(s: State, step: Step)
    requires Inv(s) && Enabled(s, step) && (step.Deliver? || step.DeliverFailure?)
    ensures Inv(Apply(s, step))
  {
    hide WrapInt64, RequestID, NotificationsIn;
    var next := Apply(s, step);
    forall k | 0 <= k < |next.requests| ensures RequestOk(next, k) {
      assert RequestOk(s, k);
    }
  }

  lemma SwapKeepsInv(s: State)
    requires Inv(s) && Enabled(s, SwapPending)
    ensures Inv(Apply(s, SwapPending))
  {
    hide WrapInt64, RequestID, NotificationsIn;
    var next := Apply(s, SwapPending);
    forall k | k in next.reader.remaining ensures Untouched(next, k) && k < |s.requests| {
      var id := SomeKeyOf(s.table.pending, k);
    }
    forall k | 0 <= k < |next.requests| ensures RequestOk(next, k) {
      assert RequestOk(s, k);
      if IsPending(s, k) {
        assert s.table.pending[RequestID(k)] in s.table.pending.Values;
      }
    }
  }

  lemma StepKeepsInv(s: State, step: Step)
    requires Inv(s) && Enabled(s, step)
    ensures Inv(Apply(s, step))
  {
    match step {
      case BeginRequest(encodeFails) => BeginRequestKeepsInv(s, encodeFails);
      case TakeLine => TakeLineKeepsInv(s);
      case Deliver => DeliveryKeepsInv(s, step);
      case DeliverFailure(_) => DeliveryKeepsInv(s, step);
      case SwapPending => SwapKeepsInv(s);
      case CloseNotifications =>
        hide RequestID, NotificationsIn;
        assert forall k :: 0 <= k < |s.requests| && RequestOk(s, k) ==> RequestOk(Apply(s, step), k);
      case Drain =>
        hide RequestID, NotificationsIn;
        assert forall k :: 0 <= k < |s.requests| && RequestOk(s, k) ==> RequestOk(Apply(s, step), k);
      case _ => RequesterKeepsInv(s, step);
    }
  }

  lemma StepKeepsStream(s: State, step: Step)
    requires Enabled(s, step)
    ensures Apply(s, step).taken + Apply(s, step).lines == s.taken + s.lines
  {
  }

  lemma {:induction false} RunKeepsInv(stream: seq<Item>, states: seq<State>, steps: seq<Step>, n: nat)
    requires IsRun(stream, states, steps) && n < |states|
    ensures Inv(states[n]) && states[n].taken + states[n].lines == stream
  {
    if n > 0 {
      hide Inv, Apply, Enabled;
      RunKeepsInv(stream, states, steps, n - 1);
      StepKeepsInv(states[n - 1], steps[n - 1]);
      StepKeepsStream(states[n - 1], steps[n - 1]);
    }
  }

  lemma ReachableInv(stream: seq<Item>, s: State)
    requires Reachable(stream, s)
    ensures Inv(s) && s.taken + s.lines == stream
  {
    var states, steps :| IsRun(stream, states, steps) && states[|states| - 1] == s;
    RunKeepsInv(stream, states, steps, |states| - 1);
  }

  // ---- What requesters may rely on ----

  /**
    In every interleaving a channel is sent at most one message, that message carries the id of its request, and a
    delivery the reader is about to make never blocks.
   */
  lemma AtMostOneMessageAndItsOwn(stream: seq<Item>, s: State)
    requires Reachable(stream, s)
    ensures forall k :: 0 <= k < |s.requests| ==>
              && |s.requests[k].sent| <= 1
              && (forall m :: m in s.requests[k].sent ==> m.id == RequestID(k))
              && (s.requests[k].phase.Received? ==> s.requests[k].sent == [s.requests[k].phase.message])
    ensures s.reader.Delivering? ==> Enabled(s, Deliver)
    ensures s.reader.FailingOver? ==> forall k :: k in s.reader.remaining ==> Enabled(s, DeliverFailure(k))
  {
    hide RequestID;
    ReachableInv(stream, s);
    forall k | 0 <= k < |s.requests|
      ensures |s.requests[k].sent| <= 1
      ensures forall m :: m in s.requests[k].sent ==> m.id == RequestID(k)
      ensures s.requests[k].phase.Received? ==> s.requests[k].sent == [s.requests[k].phase.message]
    {
      assert RequestOk(s, k);
    }
    if s.reader.Delivering? {
      assert RequestOk(s, s.reader.channel);
    }
    if s.reader.FailingOver? {
      forall k | k in s.reader.remaining ensures Enabled(s, DeliverFailure(k)) {
        assert Untouched(s, k) && RequestOk(s, k);
      }
    }
  }

  /**
    Once the reader has stopped, a requester that did not withdraw has been sent a message if and only if it
    registered before the reader swapped the pending table. One that registers later waits for its context.
   */
  lemma StoppedReaderHasAnsweredExactly(stream: seq<Item>, s: State, k: nat)
    requires Reachable(stream, s) && s.reader == Stopped && |s.requests| <= INT64_RANGE
    requires k < |s.requests| && (s.requests[k].phase == Waiting || s.requests[k].phase.Received?)
    ensures s.swappedAt.Some? && (|s.requests[k].sent| == 1 <==> k < s.swappedAt.value)
  {
    hide RequestID;
    ReachableInv(stream, s);
    assert RequestOk(s, k);
  }

  // ---- The notification queue ----

  /** While nothing drains, a line is taken only if at most 128 notifications come before it. */
  lemma UndrainedReaderStaysBehind(stream: seq<Item>, s: State, i: nat)
    requires Reachable(stream, s) && s.drained == 0 && i < |s.taken|
    ensures i < |stream| && NotificationsIn(stream[..i]) <= NOTIFICATION_CAPACITY
    ensures stream[i].Notify? ==> NotificationsIn(stream[..i]) < NOTIFICATION_CAPACITY
  {
    ReachableInv(stream, s);
    assert s.taken == stream[..|s.taken|];
    assert stream[..i + 1][..i] == stream[..i];
    NotificationsMonotone(stream, i, i + 1);
    NotificationsMonotone(stream, i + 1, |s.taken|);
  }

  predicate IsReaderStep(step: Step) {
    step.TakeLine? || step.Deliver?
  }

  lemma Extend(stream: seq<Item>, states: seq<State>, steps: seq<Step>, step: Step)
    returns (states': seq<State>)
    requires IsRun(stream, states, steps) && Enabled(states[|steps|], step)
    ensures IsRun(stream, states', steps + [step]) && states'[|steps| + 1] == Apply(states[|steps|], step)
  {
    states' := states + [Apply(states[|steps|], step)];
  }

  /** From any undrained state the reader alone gets past the first n lines when they hold at most 128 notifications. */
  lemma {:induction false} ReaderAloneReaches(stream: seq<Item>, states: seq<State>, steps: seq<Step>, n: nat)
    returns (states': seq<State>, more: seq<Step>)
    requires IsRun(stream, states, steps)
    requires var s := states[|steps|];
             s.drained == 0 && (s.reader.Reading? || s.reader.Delivering?) && |s.taken| <= n
    requires n <= |stream| && NotificationsIn(stream[..n]) <= NOTIFICATION_CAPACITY
    ensures IsRun(stream, states', steps + more) && forall m :: m in more ==> IsReaderStep(m)
    ensures var s := states'[|steps + more|];
            s.taken == stream[..n] && s.reader == Reading && s.drained == 0
    decreases n - |states[|steps|].taken|, if states[|steps|].reader.Delivering? then 1 else 0
  {
    var s := states[|steps|];
    RunKeepsInv(stream, states, steps, |steps|);
    assert s.taken == stream[..|s.taken|];
    if s.reader.Reading? && |s.taken| == n {
      states', more := states, [];
      assert steps + more == steps;
    } else {
      var step := if s.reader.Delivering? then Deliver else TakeLine;
      if s.reader.Delivering? {
        assert RequestOk(s, s.reader.channel);
      } else {
        assert s.lines[0] == stream[|s.taken|];
        assert stream[..|s.taken| + 1][..|s.taken|] == s.taken;
        NotificationsMonotone(stream, |s.taken| + 1, n);
      }
      var extended := Extend(stream, states, steps, step);
      var rest: seq<Step>;
      states', rest := ReaderAloneReaches(stream, extended, steps + [step], n);
      more := [step] + rest;
      assert steps + more == steps + [step] + rest;
    }
  }

  ghost predicate ReachedUndrained(stream: seq<Item>, i: nat) {
    exists s :: Reachable(stream, s) && s.drained == 0 && i < |s.taken| && s.reader == Reading
  }

  /**
    The line at position i gets through an undrained queue if and only if it fits: 128 notifications before a
    response, 127 before a notification.
   */
  lemma UndrainedReaderReachesExactly(stream: seq<Item>, i: nat)
    requires i < |stream|
    ensures ReachedUndrained(stream, i) <==>
            NotificationsIn(stream[..i])
            <= if stream[i].Notify? then NOTIFICATION_CAPACITY - 1 else NOTIFICATION_CAPACITY
  {
    if ReachedUndrained(stream, i) {
      var s :| Reachable(stream, s) && s.drained == 0 && i < |s.taken| && s.reader == Reading;
      UndrainedReaderStaysBehind(stream, s, i);
    }
    if NotificationsIn(stream[..i]) <= if stream[i].Notify? then NOTIFICATION_CAPACITY - 1 else NOTIFICATION_CAPACITY {
      assert stream[..i + 1][..i] == stream[..i];
      assert IsRun(stream, [Initial(stream)], []);
      var states, more := ReaderAloneReaches(stream, [Initial(stream)], [], i + 1);
      assert Reachable(stream, states[|states| - 1]);
    }
  }

  // ---- The client object ----

  function NotificationNames(items: seq<Item>): seq<string> {
    if items == [] then []
    else
      var last := items[|items| - 1];
      NotificationNames(items[..|items| - 1]) + if last.Notify? then [last.name] else []
  }

  /** The first reply to a request in a stream, if there is one. */
  function FirstReply(items: seq<Item>, id: int): seq<Message> {
    if items == [] then []
    else
      var before, last := FirstReply(items[..|items| - 1], id), items[|items| - 1];
      if before == [] && last.Answer? && last.id == id then [Reply(id, last.body)] else before
  }

  /** What one more item adds to the notifications and to the first replies. */
  lemma OneMoreItem(items: seq<Item>, item: Item)
    ensures NotificationNames(items + [item]) == NotificationNames(items) + if item.Notify? then [item.name] else []
    ensures forall id :: FirstReply(items + [item], id) ==
              if FirstReply(items, id) == [] && item.Answer? && item.id == id
              then [Reply(id, item.body)] else FirstReply(items, id)
  {
    assert (items + [item])[..|items|] == items;
  }

  lemma NotificationNamesCount(items: seq<Item>)
    ensures |NotificationNames(items)| == NotificationsIn(items)
  {
  }

  /** The client between steps of other goroutines; `channels` are the response channels by order of creation. */
  class CodexAppServerClient {
    var nextID: int
    var pending: map<int, nat>
    var channels: seq<seq<Message>>
    var notifications: seq<string>
    var closed: bool

    constructor ()
      ensures Valid() && nextID == 0 && pending == map[] && channels == [] && notifications == [] && !closed
    {
      nextID, pending, channels, notifications, closed := 0, map[], [], [], false;
    }

    /** Every registered channel exists, is empty and is registered once. */
    ghost predicate Valid()
      reads this
    {
      && (forall id :: id in pending ==> pending[id] < |channels| && channels[pending[id]] == [])
      && (forall i, j :: i in pending && j in pending && pending[i] == pending[j] ==> i == j)
    }

    function SharedTable(): Table
      reads this
    {
      Table(nextID, pending)
    }

    /** The locked part of a request. */
    method BeginRequest() returns (id: int, channel: nat)
      requires Valid()
      modifies this
      ensures Valid()
      ensures channel == |old(channels)| && channels == old(channels) + [[]]
      ensures SharedTable() == Register(old(SharedTable()), channel) && id == nextID
      ensures notifications == old(notifications) && closed == old(closed)
    {
      nextID := WrapInt64(nextID + 1);
      id, channel := nextID, |channels|;
      channels := channels + [[]];
      pending := pending[id := channel];
    }

    method RemovePending(id: int)
      requires Valid()
      modifies this`pending
      ensures Valid() && SharedTable() == Withdraw(old(SharedTable()), id)
    {
      pending := pending - {id};
    }

    /** A response reaches the channel registered under its id, once, and nobody else's. */
    method ResolveResponse(id: int, body: string)
      requires Valid()
      modifies this`pending, this`channels
      ensures Valid() && SharedTable() == Withdraw(old(SharedTable()), id)
      ensures id !in old(pending) ==> channels == old(channels)
      ensures id in old(pending) ==> channels == old(channels)[old(pending)[id] := [Reply(id, body)]]
    {
      if id in pending {
        var channel := pending[id];
        pending := pending - {id};
        assert channels[channel] + [Reply(id, body)] == [Reply(id, body)];
        channels := channels[channel := channels[channel] + [Reply(id, body)]];
      }
    }

    /** Every registered channel gets exactly one failure that carries its id; the others are left alone. */
    method FailPending()
      requires Valid()
      modifies this`pending, this`channels
      ensures Valid() && pending == map[] && |channels| == |old(channels)|
      ensures forall id :: id in old(pending) ==> channels[old(pending)[id]] == [ReadError(id)]
      ensures forall k :: 0 <= k < |channels| && k !in old(pending).Values ==> channels[k] == old(channels)[k]
    {
      var swapped := pending;
      pending := map[];
      var ids := swapped.Keys;
      while ids != {}
        invariant ids <= swapped.Keys && pending == map[] && |channels| == |old(channels)|
        invariant forall id :: id in swapped ==> channels[swapped[id]] == if id in ids then [] else [ReadError(id)]
        invariant forall k :: 0 <= k < |channels| && k !in swapped.Values ==> channels[k] == old(channels)[k]
        decreases |ids|
      {
        ghost var some := SomeElement(ids);
        var id :| id in ids;
        channels := channels[swapped[id] := channels[swapped[id]] + [ReadError(id)]];
        ids := ids - {id};
      }
    }

    /**
      Where a reader stands after `items` when it started with the given table and channels: every channel holds the
      first reply to its request, and the requests without one are still registered.
     */
    ghost predicate HasRead(table: Table, was: seq<seq<Message>>, items: seq<Item>)
      reads this
    {
      && nextID == table.nextID && |channels| == |was| && notifications == NotificationNames(items)
      && (forall id :: id in pending ==> id in table.pending && pending[id] == table.pending[id])
      && (forall id :: id in table.pending ==>
            table.pending[id] < |channels|
            && (id in pending <==> FirstReply(items, id) == []) && channels[table.pending[id]] == FirstReply(items, id))
      && (forall k :: 0 <= k < |was| && k !in table.pending.Values ==> channels[k] == was[k])
    }

    /** One decoded line; `fits` is false when the reader blocks on a full queue. */
    method HandleItem(item: Item, ghost table: Table, ghost was: seq<seq<Message>>, ghost items: seq<Item>)
      returns (fits: bool)
      requires Valid() && HasRead(table, was, items)
      modifies this`pending, this`channels, this`notifications
      ensures Valid() && HasRead(table, was, if fits then items + [item] else items)
      ensures fits <==> !(item.Notify? && NotificationsIn(items) == NOTIFICATION_CAPACITY)
    {
      hide FirstReply, NotificationNames, NotificationsIn;
      NotificationNamesCount(items);
      OneMoreItem(items, item);
      fits := true;
      match item {
        case Skip =>
        case Notify(name) =>
          fits := |notifications| != NOTIFICATION_CAPACITY;
          if fits {
            notifications := notifications + [name];
          }
        case Answer(id, body) =>
          ResolveResponse(id, body);
      }
    }

    /** The end of the stream: what is still pending fails, and the queue closes. */
    method FinishReading(ghost table: Table, ghost was: seq<seq<Message>>, ghost items: seq<Item>)
      requires Valid() && HasRead(table, was, items)
      modifies this`pending, this`channels, this`closed
      ensures Valid() && closed && pending == map[] && |channels| == |was|
      ensures forall k :: 0 <= k < |was| && k !in table.pending.Values ==> channels[k] == was[k]
      ensures forall id :: id in table.pending ==>
                var reply := FirstReply(items, id);
                && table.pending[id] < |channels|
                && channels[table.pending[id]] == if reply == [] then [ReadError(id)] else reply
    {
      hide FirstReply, NotificationNames;
      ghost var unanswered := pending;
      forall k | k in unanswered.Values
        ensures exists id :: id in table.pending && id in unanswered && table.pending[id] == k
      {
        var id := SomeKeyOf(unanswered, k);
      }
      FailPending();
      closed := true;
      assert forall id :: id in table.pending && id !in unanswered ==> table.pending[id] !in unanswered.Values;
    }

    /**
      The reader while nobody drains the notifications: it stops before the first notification that does not fit,
      or it takes the whole stream, fails what is pending and closes the queue.
     */
    method ReadLoop(lines: seq<Line>) returns (consumed: nat)
      requires Valid() && !closed && notifications == []
      modifies this
      ensures Valid() && nextID == old(nextID)
      ensures consumed <= |lines| && notifications == NotificationNames(ClassifyAll(lines)[..consumed])
      ensures consumed < |lines| ==>
                && ClassifyAll(lines)[consumed].Notify? && !closed
                && NotificationsIn(ClassifyAll(lines)[..consumed]) == NOTIFICATION_CAPACITY
      ensures consumed == |lines| ==> closed && pending == map[]
      ensures |channels| == |old(channels)|
      ensures forall k :: 0 <= k < |channels| && k !in old(pending).Values ==> channels[k] == old(channels)[k]
      ensures forall id :: id in old(pending) ==>
                var reply := FirstReply(ClassifyAll(lines)[..consumed], id);
                channels[old(pending)[id]] == if consumed == |lines| && reply == [] then [ReadError(id)] else reply
    {
      consumed := 0;
      ghost var items := ClassifyAll(lines);
      ghost var table := SharedTable();
      assert items[..0] == [];
      hide FirstReply, NotificationNames, NotificationsIn, Classify;
      NothingReadYet();
      while consumed < |lines|
        invariant consumed <= |lines| && Valid() && !closed
        invariant HasRead(table, old(channels), items[..consumed])
      {
        assert items[..consumed + 1] == items[..consumed] + [items[consumed]];
        var fits := HandleItem(Classify(lines[consumed]), table, old(channels), items[..consumed]);
        if !fits {
          return;
        }
        consumed := consumed + 1;
      }
      FinishReading(table, old(channels), items[..consumed]);
    }
  }

  lemma NothingReadYet()
    ensures NotificationNames([]) == [] && forall id :: FirstReply([], id) == []
  {
  }
}
