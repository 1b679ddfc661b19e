// The queues between the node and a websocket client: a first-in first-out relay
// between two channels, and the notification queue with its acknowledgements.
module Relay {
  import opened Wrappers

  // ------------------------------------------------------------ the relay

  // What the relay's select can see next: an item on the input (with a reader
  // that is ready to take it at once, or not), a reader that takes the next
  // item, the input closed, or the signal to quit.
  datatype Event<T> = Arrive(item: T, ready: bool) | Take | Closed | Quit

  // The items that arrive before the relay stops.
  function Received<T>(events: seq<Event<T>>): seq<T> {
    if events == [] || events[0].Closed? || events[0].Quit? then []
    else if events[0].Arrive? then [events[0].item] + Received(events[1..])
    else Received(events[1..])
  }

  // How many items wait at the end when `waiting` do at the beginning: an item
  // has to wait unless it finds a ready reader and no other item waiting.
  function Backlog<T>(events: seq<Event<T>>, waiting: nat): nat {
    if events == [] || events[0].Closed? || events[0].Quit? then waiting
    else if events[0].Arrive? then
      Backlog(events[1..], if waiting == 0 && events[0].ready then 0 else waiting + 1)
    else Backlog(events[1..], if waiting == 0 then 0 else waiting - 1)
  }

  // The relay on any schedule: what has gone out, followed by what is queued, is
  // what came in, in that order, and no more is queued than has to be.
  method QueueHandler<T>(events: seq<Event<T>>) returns (emitted: seq<T>, q: seq<T>)
    ensures emitted + q == Received(events) && |q| == Backlog(events, 0)
  {
    emitted, q := [], [];
    var dequeue, skipQueue := false, true;
    var next: Option<T> := None;
    var n := 0;
    assert events[0..] == events;
    while n < |events|
      invariant n <= |events|
      invariant emitted + q + Received(events[n..]) == Received(events)
      invariant Backlog(events[n..], |q|) == Backlog(events, 0)
      // an item can skip the queue only when the queue is empty, and what can be
      // taken is the oldest item queued
      invariant dequeue <==> q != []
      invariant skipQueue <==> q == []
      invariant q != [] ==> next == Some(q[0])
    {
      var e := events[n];
      assert events[n..][1..] == events[n + 1..];
      if e.Closed? || e.Quit? {
        return;
      }
      if e.Arrive? {
        if skipQueue && e.ready {
          emitted := emitted + [e.item];
        } else {
          q := q + [e.item];
          dequeue, skipQueue, next := true, false, Some(q[0]);
        }
      } else if dequeue {
        emitted := emitted + [next.value];
        q := q[1..];
        if |q| == 0 {
          dequeue, skipQueue := false, true;
        } else {
          next := Some(q[0]);
        }
      }
      n := n + 1;
    }
  }

  // --------------------------------------------------- the notification queue

  const SEND_BUFFER_SIZE := 50

  type Payload = nat

  // A message for the client; a notification asks for an acknowledgement, a
  // reply to a command does not.
  datatype Message = Message(payload: Payload, notify: bool)

  // Where the notification handler is: waiting for something to do, about to
  // hand over a notification, about to put it on the send channel, or done.
  datatype Handler = Selecting | Handing(msg: Payload) | Pushing(msg: Payload) | HandlerDone

  // Where the output handler is: waiting, holding a message it is to write,
  // having written it, emptying the send channel, having to say that a message
  // was not sent, or done.
  datatype Output = Idle | Holding(m: Message) | Written(m: Message) | Draining | Refusing(m: Message) | OutputDone

  // `acks` are the acknowledgements on their channel, which has one slot.
  datatype Client = Client(
    handler: Handler, waiting: bool, pending: seq<Payload>,
    sendChan: seq<Message>, output: Output, acks: nat, disconnected: bool,
    received: seq<Payload>, dispatched: seq<Payload>, written: seq<Payload>)

  const START := Client(Selecting, false, [], [], Idle, 0, false, [], [], [])

  // The steps of the goroutines, one at a time and in any order.
  datatype Step =
    | Notify(msg: Payload)        // a notification is taken off its channel
    | Acknowledged                // an acknowledgement is taken off its channel
    | Hand                        // the handler looks whether the client is there
    | Push                        // the handler puts its message on the send channel
    | HandlerQuits                // the handler sees the signal to quit
    | Reply(msg: Payload)         // another goroutine sends a reply
    | Fetch                       // the output handler takes a message to send
    | Write(ok: bool)             // it writes the message
    | Acknowledge                 // it acknowledges what it has written
    | OutputQuits                 // it sees the signal to quit
    | Drain                       // it takes a message that will not be sent
    | Refuse                      // and says so
    | Drained                     // it finds the send channel empty
    | Disconnect                  // the client goes away

  // When a step can be taken, but for the room on the acknowledgement channel.
  predicate Enabled(c: Client, s: Step) {
    match s
    case Notify(_) => c.handler.Selecting?
    case Acknowledged => c.handler.Selecting? && c.acks > 0
    case Hand => c.handler.Handing?
    case Push => c.handler.Pushing? && |c.sendChan| < SEND_BUFFER_SIZE
    case HandlerQuits => c.handler.Selecting? && c.disconnected
    case Reply(_) => |c.sendChan| < SEND_BUFFER_SIZE
    case Fetch => c.output.Idle? && c.sendChan != []
    case Write(_) => c.output.Holding?
    case Acknowledge => c.output.Written?
    case OutputQuits => c.output.Idle? && c.disconnected
    case Drain => c.output.Draining? && c.sendChan != []
    case Refuse => c.output.Refusing?
    case Drained => c.output.Draining? && c.sendChan == []
    case Disconnect => true
  }

  // The steps that put an acknowledgement on its channel.
  predicate Acks(c: Client, s: Step) {
    || (s.Hand? && c.disconnected)
    || (s.Acknowledge? && c.output.Written? && c.output.m.notify)
    || (s.Refuse? && c.output.Refusing? && c.output.m.notify)
  }

  function Next(c: Client, s: Step): Client
    requires Enabled(c, s)
  {
    match s
    case Notify(msg) =>
      if !c.waiting then
        c.(received := c.received + [msg], dispatched := c.dispatched + [msg], handler := Handing(msg), waiting := true)
      else c.(received := c.received + [msg], pending := c.pending + [msg])
    case Acknowledged =>
      if c.pending == [] then c.(acks := c.acks - 1, waiting := false)
      else c.(acks := c.acks - 1, pending := c.pending[1..], dispatched := c.dispatched + [c.pending[0]],
              handler := Handing(c.pending[0]))
    case Hand =>
      if c.disconnected then c.(handler := Selecting, acks := c.acks + 1) else c.(handler := Pushing(c.handler.msg))
    case Push => c.(handler := Selecting, sendChan := c.sendChan + [Message(c.handler.msg, true)])
    case HandlerQuits => c.(handler := HandlerDone, acks := 0)
    case Reply(msg) => c.(sendChan := c.sendChan + [Message(msg, false)])
    case Fetch => c.(output := Holding(c.sendChan[0]), sendChan := c.sendChan[1..])
    case Write(ok) =>
      if !ok then c.(output := Draining, disconnected := true)
      else c.(output := Written(c.output.m),
              written := if c.output.m.notify then c.written + [c.output.m.payload] else c.written)
    case Acknowledge => c.(output := Idle, acks := if c.output.m.notify then c.acks + 1 else c.acks)
    case OutputQuits => c.(output := Draining)
    case Drain => c.(output := Refusing(c.sendChan[0]), sendChan := c.sendChan[1..])
    case Refuse => c.(output := Draining, acks := if c.output.m.notify then c.acks + 1 else c.acks)
    case Drained => c.(output := OutputDone)
    case Disconnect => c.(disconnected := true)
  }

  // ------------------------------------------------------------ what is kept

  function Notice(m: Message): seq<Payload> {
    if m.notify then [m.payload] else []
  }

  function Notifications(ms: seq<Message>): seq<Payload> {
    if ms == [] then [] else Notice(ms[0]) + Notifications(ms[1..])
  }

  // The notification that the output handler has and has not written.
  function InHand(o: Output): seq<Payload> {
    match o
    case Holding(m) => Notice(m)
    case _ => []
  }

  function InHandler(h: Handler): seq<Payload> {
    match h
    case Handing(msg) => [msg]
    case Pushing(msg) => [msg]
    case _ => []
  }

  // The notifications handed over and not written yet.
  function InFlight(c: Client): seq<Payload> {
    InHand(c.output) + Notifications(c.sendChan) + InHandler(c.handler)
  }

  // Everything that is an acknowledgement or will become one.
  function Unacknowledged(c: Client): nat {
    |InFlight(c)| + c.acks + Owing(c.output)
  }

  function Owing(o: Output): nat {
    match o
    case Written(m) => if m.notify then 1 else 0
    case Refusing(m) => if m.notify then 1 else 0
    case _ => 0
  }

  // What was handed over and what waits is what came in, in order.
  ghost predicate Ordered(c: Client) {
    c.dispatched + c.pending == c.received
  }

  // At most one notification is under way, and nothing is when not waiting.
  ghost predicate OneAtATime(c: Client) {
    Unacknowledged(c) <= 1 && (!c.waiting ==> c.pending == [] && Unacknowledged(c) == 0)
  }

  // While the client is there, what was handed over is written or under way.
  ghost predicate OnTheWire(c: Client) {
    && (!c.disconnected ==> c.written + InFlight(c) == c.dispatched)
    && (c.output.Draining? || c.output.Refusing? || c.output.OutputDone? ==> c.disconnected)
  }

  ghost predicate Inv(c: Client) {
    Ordered(c) && OneAtATime(c) && OnTheWire(c)
  }

  lemma {:induction false} NotificationsAppend(ms: seq<Message>, m: Message)
    ensures Notifications(ms + [m]) == Notifications(ms) + Notice(m)
  {
    if ms == [] {
      assert ms + [m] == [m] && [m][1..] == [] && Notice(m) + [] == Notice(m) == [] + Notice(m);
    } else {
      assert (ms + [m])[0] == ms[0] && (ms + [m])[1..] == ms[1..] + [m];
      NotificationsAppend(ms[1..], m);
      Concatenation(Notice(ms[0]), Notifications(ms[1..]), Notice(m));
    }
  }

  // No goroutine ever waits for room on the acknowledgement channel.
  lemma AckHasRoom(c: Client, s: Step)
    requires Inv(c) && Enabled(c, s) && Acks(c, s)
    ensures c.acks == 0
  {
  }

  // How the notifications under way change with each step.
  function InFlightAfter(c: Client, s: Step): seq<Payload>
    requires Enabled(c, s)
  {
    match s
    case Notify(msg) => InFlight(c) + if c.waiting then [] else [msg]
    case Acknowledged => InFlight(c) + if c.pending == [] then [] else [c.pending[0]]
    case Hand => if c.disconnected then [] else InFlight(c)
    case Write(ok) => if c.output.m.notify then [] else InFlight(c)
    case Drain => if c.sendChan[0].notify then [] else InFlight(c)
    case _ => InFlight(c)
  }

  lemma Concatenation(a: seq<Payload>, b: seq<Payload>, d: seq<Payload>)
    ensures a + b + d == a + (b + d)
    ensures |a + b + d| <= 1 && a != [] ==> b == [] && d == []
    ensures |a + b + d| <= 1 && b != [] ==> a == [] && d == []
    ensures |a + b + d| <= 1 && d != [] ==> a == [] && b == []
  {
    assert |a + b + d| == |a| + |b| + |d|;
  }

  lemma HandlerSteps(c: Client, s: Step)
    requires Enabled(c, s) && |InFlight(c)| <= 1
    requires s.Notify? || s.Acknowledged? || s.Hand? || s.Push? || s.HandlerQuits?
    ensures InFlight(Next(c, s)) == InFlightAfter(c, s)
  {
    var a, b, d := InHand(c.output), Notifications(c.sendChan), InHandler(c.handler);
    Concatenation(a, b, d);
    assert a + b + [] == a + b;
    if s.Push? {
      NotificationsAppend(c.sendChan, Message(c.handler.msg, true));
      assert a + (b + d) + [] == a + (b + d);
    }
  }

  lemma OutputSteps(c: Client, s: Step)
    requires Enabled(c, s) && |InFlight(c)| <= 1
    requires !(s.Notify? || s.Acknowledged? || s.Hand? || s.Push? || s.HandlerQuits?)
    ensures InFlight(Next(c, s)) == InFlightAfter(c, s)
  {
    var a, b, d := InHand(c.output), Notifications(c.sendChan), InHandler(c.handler);
    Concatenation(a, b, d);
    if s.Reply? {
      NotificationsAppend(c.sendChan, Message(s.msg, false));
    } else if s.Fetch? || s.Drain? {
      assert b == Notice(c.sendChan[0]) + Notifications(c.sendChan[1..]);
      assert a == [] && a + b + d == b + d;
    }
  }

  lemma InFlightNext(c: Client, s: Step)
    requires Enabled(c, s) && |InFlight(c)| <= 1
    ensures InFlight(Next(c, s)) == InFlightAfter(c, s)
  {
    if s.Notify? || s.Acknowledged? || s.Hand? || s.Push? || s.HandlerQuits? {
      HandlerSteps(c, s);
    } else {
      OutputSteps(c, s);
    }
  }

  lemma OrderKept(c: Client, s: Step)
    requires Ordered(c) && OneAtATime(c) && Enabled(c, s)
    ensures Ordered(Next(c, s))
  {
  }

  // Only a notification taken while not waiting adds to what is unacknowledged.
  lemma UnacknowledgedByHandler(c: Client, s: Step)
    requires Enabled(c, s) && Unacknowledged(c) <= 1
    requires s.Notify? || s.Acknowledged? || s.Hand? || s.Push? || s.HandlerQuits?
    ensures s.Notify? ==> Unacknowledged(Next(c, s)) == Unacknowledged(c) + if c.waiting then 0 else 1
    ensures s.Acknowledged? ==> Unacknowledged(Next(c, s)) == if c.pending == [] then 0 else 1
    ensures !s.Notify? ==> Unacknowledged(Next(c, s)) <= Unacknowledged(c)
  {
    HandlerSteps(c, s);
    Concatenation(InHand(c.output), Notifications(c.sendChan), InHandler(c.handler));
  }

  lemma UnacknowledgedByOutput(c: Client, s: Step)
    requires Enabled(c, s) && Unacknowledged(c) <= 1
    requires !(s.Notify? || s.Acknowledged? || s.Hand? || s.Push? || s.HandlerQuits?)
    ensures Unacknowledged(Next(c, s)) <= Unacknowledged(c)
  {
    OutputSteps(c, s);
    Concatenation(InHand(c.output), Notifications(c.sendChan), InHandler(c.handler));
  }

  lemma OneAtATimeKept(c: Client, s: Step)
    requires OneAtATime(c) && Enabled(c, s)
    ensures OneAtATime(Next(c, s))
  {
    if s.Notify? || s.Acknowledged? || s.Hand? || s.Push? || s.HandlerQuits? {
      UnacknowledgedByHandler(c, s);
    } else {
      UnacknowledgedByOutput(c, s);
    }
  }

  lemma OnTheWireKept(c: Client, s: Step)
    requires OneAtATime(c) && OnTheWire(c) && Enabled(c, s)
    ensures OnTheWire(Next(c, s))
  {
    InFlightNext(c, s);
  }

  lemma StepKeeps(c: Client, s: Step)
    requires Inv(c) && Enabled(c, s)
    ensures Inv(Next(c, s))
  {
    OrderKept(c, s);
    OneAtATimeKept(c, s);
    OnTheWireKept(c, s);
  }

  // Every run of the goroutines, from a fresh client.
  ghost predicate IsRun(cs: seq<Client>, steps: seq<Step>) {
    && |cs| == |steps| + 1 && cs[0] == START
    && forall i :: 0 <= i < |steps| ==> Enabled(cs[i], steps[i]) && cs[i + 1] == Next(cs[i], steps[i])
  }

  lemma {:induction false} RunKeeps(cs: seq<Client>, steps: seq<Step>, n: nat)
    requires IsRun(cs, steps) && n < |cs|
    ensures Inv(cs[n])
  {
    if n > 0 {
      RunKeeps(cs, steps, n - 1);
      StepKeeps(cs[n - 1], steps[n - 1]);
    }
  }

  // In every run, notifications are handed over in the order they came; at most
  // one of them is unacknowledged, so that acknowledging never blocks; when the
  // handler is not waiting nothing is pending; and while the client is there the
  // notifications written, under way and pending are those that came, in order.
  lemma NotificationsInOrder(cs: seq<Client>, steps: seq<Step>, n: nat)
    requires IsRun(cs, steps) && n < |cs|
    ensures cs[n].dispatched + cs[n].pending == cs[n].received
    ensures Unacknowledged(cs[n]) <= 1 && (!cs[n].waiting ==> cs[n].pending == [])
    ensures n < |steps| && Acks(cs[n], steps[n]) ==> cs[n].acks == 0
    ensures !cs[n].disconnected ==> cs[n].written + InFlight(cs[n]) + cs[n].pending == cs[n].received
  {
    RunKeeps(cs, steps, n);
    if n < |steps| && Acks(cs[n], steps[n]) {
      AckHasRoom(cs[n], steps[n]);
    }
  }
}
