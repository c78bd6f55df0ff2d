/**
 The server-sent-events broker: one listening goroutine that owns the registry,
 one handler per connection, and producers that share a one-slot channel. Each
 channel operation is one step; any interleaving is a run.
 */
module Broker {
  import opened Collections
  import opened Wrappers

  datatype Event = Event(name: string, payload: string)
  type ClientId = nat

  /** Where a handler is: sending itself to the broker, in the stream loop, or leaving. */
  datatype Place =
    | Registering
    | Checking                // the stream loop looks whether the client has gone
    | Waiting                 // receiving on its own channel
    | Writing(event: nat)     // holding an event, by its place in the accepted ones
    | Closing
    | Closed

  /** What became of one accepted event for one registered client. */
  datatype Outcome = Outcome(event: nat, delivered: bool)

  /**
   A handler, and its history: how many events were accepted when it joined and
   when it left the registry, the outcome of each in between, and what it wrote.
   */
  datatype Handler = Handler(
    place: Place, gone: bool, joined: nat, left: Option<nat>, outcomes: seq<Outcome>, written: seq<nat>)

  /** The listening goroutine: at its select, or handing the newest event to the clients that remain. */
  datatype Listener = Selecting | FanningOut(remaining: set<ClientId>)

  datatype State = State(
    listener: Listener,
    clients: set<ClientId>,
    slot: Option<Event>,
    producers: multiset<Event>,
    handlers: map<ClientId, Handler>,
    accepted: seq<Event>)

  function Initial(): State {
    State(Selecting, {}, None, multiset{}, map[], [])
  }

  datatype Step =
    | Connect(c: ClientId)      // a request starts its handler
    | Disconnect(c: ClientId)   // the peer of a handler goes away
    | Produce(e: Event)         // a producer starts to send
    | Send(e: Event)            // its event enters the slot
    | Register(c: ClientId)
    | Deregister(c: ClientId)
    | Accept
    | Deliver(c: ClientId)
    | TimeOut(c: ClientId)
    | EndFanOut
    | Check(c: ClientId)
    | Write(c: ClientId)

  predicate At(s: State, c: ClientId, p: Place) {
    c in s.handlers && s.handlers[c].place == p
  }

  predicate Enabled(s: State, step: Step) {
    match step
    case Connect(c) => c !in s.handlers
    case Disconnect(c) => c in s.handlers
    case Produce(_) => true
    case Send(e) => e in s.producers && s.slot.None?
    case Register(c) => s.listener.Selecting? && At(s, c, Registering)
    case Deregister(c) => s.listener.Selecting? && At(s, c, Closing)
    case Accept => s.listener.Selecting? && s.slot.Some?
    case Deliver(c) => s.listener.FanningOut? && c in s.listener.remaining && At(s, c, Waiting)
    case TimeOut(c) => s.listener.FanningOut? && c in s.listener.remaining
    case EndFanOut => s.listener.FanningOut? && s.listener.remaining == {}
    case Check(c) => At(s, c, Checking)
    case Write(c) => c in s.handlers && s.handlers[c].place.Writing?
  }

  function SetPlace(s: State, c: ClientId, p: Place): State
    requires c in s.handlers
  {
    s.(handlers := s.handlers[c := s.handlers[c].(place := p)])
  }

  /** The newest event is done with for client `c`. */
  function Settle(s: State, c: ClientId, delivered: bool): State
    requires s.listener.FanningOut? && s.accepted != []
  {
    var k := |s.accepted| - 1;
    s.(listener := FanningOut(s.listener.remaining - {c}),
       handlers :=
         if c !in s.handlers then s.handlers
         else
           var h := s.handlers[c];
           s.handlers[c := h.(outcomes := h.outcomes + [Outcome(k, delivered)],
                              place := if delivered then Writing(k) else h.place)])
  }

  /** A fan-out is under way only with an accepted event. */
  predicate Sane(s: State) {
    s.listener.FanningOut? ==> s.accepted != []
  }

  function Next(s: State, step: Step): State
    requires Enabled(s, step) && Sane(s)
  {
    match step
    case Connect(c) => s.(handlers := s.handlers[c := Handler(Registering, false, 0, None, [], [])])
    case Disconnect(c) => s.(handlers := s.handlers[c := s.handlers[c].(gone := true)])
    case Produce(e) => s.(producers := s.producers + multiset{e})
    case Send(e) => s.(producers := s.producers - multiset{e}, slot := Some(e))
    case Register(c) =>
      s.(clients := s.clients + {c},
         handlers := s.handlers[c := s.handlers[c].(place := Checking, joined := |s.accepted|)])
    case Deregister(c) =>
      s.(clients := s.clients - {c},
         handlers := s.handlers[c := s.handlers[c].(place := Closed, left := Some(|s.accepted|))])
    case Accept => s.(listener := FanningOut(s.clients), slot := None, accepted := s.accepted + [s.slot.value])
    case Deliver(c) => Settle(s, c, true)
    case TimeOut(c) => Settle(s, c, false)
    case EndFanOut => s.(listener := Selecting)
    case Check(c) => SetPlace(s, c, if s.handlers[c].gone then Closing else Waiting)
    case Write(c) =>
      var h := s.handlers[c];
      s.(handlers := s.handlers[c := h.(place := Checking, written := h.written + [h.place.event])])
  }

  // ---- What every step keeps ----

  function Delivered(o: seq<Outcome>): seq<nat> {
    if o == [] then []
    else Delivered(o[..|o| - 1]) + if o[|o| - 1].delivered then [o[|o| - 1].event] else []
  }

  /** The end of a handler's window: the first accepted event that is not, or not yet, settled for it. */
  function Settled(s: State, c: ClientId): nat
    requires c in s.handlers && Sane(s)
  {
    if s.handlers[c].left.Some? then s.handlers[c].left.value
    else if s.listener.FanningOut? && c in s.listener.remaining then |s.accepted| - 1
    else |s.accepted|
  }

  /** A handler's history fits: one outcome for each event of its window, in order, and it wrote what it was given. */
  ghost predicate HistoryFits(s: State, c: ClientId)
    requires c in s.handlers && Sane(s)
  {
    var h := s.handlers[c];
    && (c in s.clients <==> h.place.Checking? || h.place.Waiting? || h.place.Writing? || h.place.Closing?)
    && (h.left.Some? <==> h.place.Closed?)
    && (if h.place.Registering? then h.outcomes == []
        else h.joined <= Settled(s, c) <= |s.accepted| && |h.outcomes| == Settled(s, c) - h.joined)
    && (forall i :: 0 <= i < |h.outcomes| ==> h.outcomes[i].event == h.joined + i)
    && Delivered(h.outcomes) == h.written + if h.place.Writing? then [h.place.event] else []
  }

  ghost predicate Inv(s: State) {
    && (s.listener.FanningOut? ==> s.accepted != [] && s.listener.remaining <= s.clients)
    && (forall c :: c in s.clients ==> c in s.handlers)
    && forall c :: c in s.handlers ==> HistoryFits(s, c)
  }

  lemma DeliveredPush(p: seq<Outcome>, last: Outcome)
    ensures Delivered(p + [last]) == Delivered(p) + if last.delivered then [last.event] else []
  {
    assert (p + [last])[..|p|] == p;
  }

  lemma SettledFits(s: State, c: ClientId, delivered: bool)
    requires Inv(s) && s.listener.FanningOut? && c in s.listener.remaining && (delivered ==> At(s, c, Waiting))
    ensures Sane(Settle(s, c, delivered)) && HistoryFits(Settle(s, c, delivered), c)
  {
    assert HistoryFits(s, c);
    DeliveredPush(s.handlers[c].outcomes, Outcome(|s.accepted| - 1, delivered));
  }

  lemma OtherFits(s: State, c: ClientId, delivered: bool, x: ClientId)
    requires Sane(s) && s.listener.FanningOut? && x in s.handlers && x != c && HistoryFits(s, x)
    ensures HistoryFits(Settle(s, c, delivered), x)
  {
  }

  lemma SettleKeeps(s: State, c: ClientId, delivered: bool)
    requires Inv(s) && s.listener.FanningOut? && c in s.listener.remaining && (delivered ==> At(s, c, Waiting))
    ensures Inv(Settle(s, c, delivered))
  {
    SettledFits(s, c, delivered);
    forall x | x in s.handlers && x != c ensures HistoryFits(Settle(s, c, delivered), x) {
      OtherFits(s, c, delivered, x);
    }
  }

  lemma WriteKeeps(s: State, c: ClientId)
    requires Inv(s) && Enabled(s, Write(c))
    ensures Inv(Next(s, Write(c)))
  {
    var t := Next(s, Write(c));
    forall x | x in t.handlers ensures HistoryFits(t, x) {
      assert HistoryFits(s, x);
    }
  }

  lemma RegistryKeeps(s: State, step: Step)
    requires Inv(s) && Enabled(s, step) && (step.Register? || step.Deregister?)
    ensures Inv(Next(s, step))
  {
    var t := Next(s, step);
    forall x | x in t.handlers ensures HistoryFits(t, x) {
      assert HistoryFits(s, x);
    }
  }

  lemma ListenerKeeps(s: State, step: Step)
    requires Inv(s) && Enabled(s, step) && (step.Accept? || step.EndFanOut?)
    ensures Inv(Next(s, step))
  {
    var t := Next(s, step);
    forall x | x in t.handlers ensures HistoryFits(t, x) {
      assert HistoryFits(s, x);
    }
  }

  lemma ConnectKeeps(s: State, c: ClientId)
    requires Inv(s) && Enabled(s, Connect(c))
    ensures Inv(Next(s, Connect(c)))
  {
    var t := Next(s, Connect(c));
    forall x | x in t.handlers ensures HistoryFits(t, x) {
      if x in s.handlers { assert HistoryFits(s, x); }
    }
  }

  lemma DisconnectKeeps(s: State, c: ClientId)
    requires Inv(s) && Enabled(s, Disconnect(c))
    ensures Inv(Next(s, Disconnect(c)))
  {
    var t := Next(s, Disconnect(c));
    forall x | x in t.handlers ensures HistoryFits(t, x) {
      assert HistoryFits(s, x);
    }
  }

  lemma CheckKeeps(s: State, c: ClientId)
    requires Inv(s) && Enabled(s, Check(c))
    ensures Inv(Next(s, Check(c)))
  {
    var t := Next(s, Check(c));
    forall x | x in t.handlers ensures HistoryFits(t, x) {
      assert HistoryFits(s, x);
    }
  }

  lemma StepKeeps(s: State, step: Step)
    requires Inv(s) && Enabled(s, step)
    ensures Inv(Next(s, step))
  {
    match step
    case Deliver(c) => SettleKeeps(s, c, true);
    case TimeOut(c) => SettleKeeps(s, c, false);
    case Write(c) => WriteKeeps(s, c);
    case Register(_) => RegistryKeeps(s, step);
    case Deregister(_) => RegistryKeeps(s, step);
    case Accept => ListenerKeeps(s, step);
    case EndFanOut => ListenerKeeps(s, step);
    case Connect(c) => ConnectKeeps(s, c);
    case Disconnect(c) => DisconnectKeeps(s, c);
    case Check(c) => CheckKeeps(s, c);
    case _ =>
  }

  /** The state after a run; a step that is not enabled is left out. */
  function Run(steps: seq<Step>): (s: State)
    ensures Inv(s)
  {
    if steps == [] then Initial()
    else
      var before, last := Run(steps[..|steps| - 1]), steps[|steps| - 1];
      if Enabled(before, last) then
        StepKeeps(before, last);
        Next(before, last)
      else before
  }

  ghost predicate Reachable(s: State) {
    exists steps :: Run(steps) == s
  }

  lemma ReachableKept(s: State)
    requires Reachable(s)
    ensures Inv(s)
  {
    var steps :| Run(steps) == s;
  }

  // ---- What clients see ----

  ghost predicate Increasing(s: seq<nat>) {
    forall i, j :: 0 <= i < j < |s| ==> s[i] < s[j]
  }

  lemma {:induction false} DeliveredIncreases(o: seq<Outcome>, from: nat)
    requires forall i :: 0 <= i < |o| ==> o[i].event == from + i
    ensures Increasing(Delivered(o)) && forall x :: x in Delivered(o) ==> from <= x < from + |o|
    ensures forall i :: 0 <= i < |o| ==> (o[i].delivered <==> o[i].event in Delivered(o))
  {
    if o != [] {
      var p, last := o[..|o| - 1], o[|o| - 1];
      DeliveredIncreases(p, from);
      DeliveredLast(p, last, from);
      assert o == p + [last];
      forall i | 0 <= i < |o| ensures o[i].delivered <==> o[i].event in Delivered(o) {
        if i < |p| { assert p[i] == o[i]; } else { assert o[i] == last; }
      }
    }
  }

  lemma DeliveredLast(p: seq<Outcome>, last: Outcome, from: nat)
    requires Increasing(Delivered(p)) && last.event == from + |p|
    requires forall x :: x in Delivered(p) ==> from <= x < from + |p|
    ensures Increasing(Delivered(p + [last])) && last.event !in Delivered(p)
    ensures forall x :: x in Delivered(p + [last]) <==> x in Delivered(p) || (last.delivered && x == last.event)
  {
    DeliveredPush(p, last);
    if last.delivered { PushIncreases(Delivered(p), last.event); }
  }

  lemma PushIncreases(d: seq<nat>, x: nat)
    requires Increasing(d) && forall y :: y in d ==> y < x
    ensures Increasing(d + [x])
  {
    forall i, j | 0 <= i < j < |d + [x]| ensures (d + [x])[i] < (d + [x])[j] {
      if j == |d| { assert d[i] in d; }
    }
  }

  lemma HistorySays(s: State, c: ClientId)
    requires Inv(s) && c in s.handlers
    ensures var h := s.handlers[c];
      var sent := Delivered(h.outcomes);
      && Increasing(sent)
      && (forall k :: k in sent ==> h.joined <= k < Settled(s, c) <= |s.accepted|)
      && (!h.place.Registering? ==> forall k :: h.joined <= k < Settled(s, c) ==>
            (k !in sent <==> Outcome(k, false) in h.outcomes))
      && h.written <= sent && |sent| <= |h.written| + 1
  {
    var h := s.handlers[c];
    var sent := Delivered(h.outcomes);
    assert HistoryFits(s, c);
    DeliveredIncreases(h.outcomes, h.joined);
    if !h.place.Registering? {
      forall k | h.joined <= k < Settled(s, c) ensures k !in sent <==> Outcome(k, false) in h.outcomes {
        var o := h.outcomes[k - h.joined];
        assert o.event == k && o in h.outcomes;
        assert k !in sent ==> o == Outcome(k, false);
      }
    }
  }

  /**
   In every run a client is sent, in the order the broker accepted them and none
   twice, only events accepted between its registration and its deregistration;
   the only ones missing are those its hand-over timed out on, and what it writes
   is what it was sent, but for an event it still holds.
   */
  lemma ClientSeesItsWindow(s: State, c: ClientId)
    requires Reachable(s) && c in s.handlers
    ensures s.listener.FanningOut? ==> s.accepted != []
    ensures var h := s.handlers[c];
      var sent := Delivered(h.outcomes);
      && (forall i, j :: 0 <= i < j < |sent| ==> sent[i] < sent[j])
      && (forall k :: k in sent ==> h.joined <= k < Settled(s, c) <= |s.accepted|)
      && (!h.place.Registering? ==> forall k :: h.joined <= k < Settled(s, c) ==>
            (k !in sent <==> Outcome(k, false) in h.outcomes))
      && h.written <= sent && |sent| <= |h.written| + 1
  {
    ReachableKept(s);
    HistorySays(s, c);
  }

  lemma WrittenIncreases(s: State, c: ClientId)
    requires Reachable(s) && c in s.handlers
    ensures Increasing(s.handlers[c].written)
  {
    ClientSeesItsWindow(s, c);
  }

  /** Two clients see the events they have in common in the same order. */
  lemma CommonOrder(s: State, c: ClientId, d: ClientId, i: nat, j: nat, x: nat, y: nat)
    requires Reachable(s) && c in s.handlers && d in s.handlers
    requires var w, v := s.handlers[c].written, s.handlers[d].written;
      i < |w| && j < |w| && x < |v| && y < |v| && w[i] == v[x] && w[j] == v[y]
    ensures i < j <==> x < y
  {
    WrittenIncreases(s, c);
    WrittenIncreases(s, d);
  }

  /** The events that producers started to send in a run. */
  function Produced(steps: seq<Step>): multiset<Event> {
    if steps == [] then multiset{}
    else Produced(steps[..|steps| - 1]) + ProducedBy(steps[|steps| - 1])
  }

  function ProducedBy(step: Step): multiset<Event> {
    if step.Produce? then multiset{step.e} else multiset{}
  }

  function InBroker(s: State): multiset<Event> {
    s.producers + (if s.slot.Some? then multiset{s.slot.value} else multiset{}) + multiset(s.accepted)
  }

  lemma StepConserves(s: State, step: Step)
    requires Inv(s) && Enabled(s, step)
    ensures InBroker(Next(s, step)) == InBroker(s) + ProducedBy(step)
  {
  }

  /** No event is lost or made up before the fan-out: each is still with its producer, in the slot, or accepted once. */
  lemma {:induction false} EventsAreConserved(steps: seq<Step>)
    ensures Produced(steps) == InBroker(Run(steps))
  {
    if steps != [] {
      EventsAreConserved(steps[..|steps| - 1]);
      if Enabled(Run(steps[..|steps| - 1]), steps[|steps| - 1]) {
        StepConserves(Run(steps[..|steps| - 1]), steps[|steps| - 1]);
      }
    }
  }

  // ---- Progress ----

  /** Steps taken one after the other, all of them enabled. */
  ghost predicate Leads(s: State, steps: seq<Step>, t: State)
    decreases |steps|
  {
    if steps == [] then s == t
    else Sane(s) && Enabled(s, steps[0]) && Leads(Next(s, steps[0]), steps[1..], t)
  }

  /** How many clients were handed the newest event or given up on. */
  function Handovers(steps: seq<Step>): nat {
    if steps == [] then 0
    else (if steps[0].Deliver? || steps[0].TimeOut? then 1 else 0) + Handovers(steps[1..])
  }

  /**
   Whatever else happens meanwhile, a fan-out that has not ended has made exactly
   one hand-over or time-out for each client it no longer has before it, so it
   ends after at most one per registered client.
   */
  lemma {:induction false} FanOutIsBounded(s: State, steps: seq<Step>, t: State)
    requires Inv(s) && s.listener.FanningOut? && Leads(s, steps, t) && EndFanOut !in steps
    ensures t.listener.FanningOut? && t.listener.remaining <= s.listener.remaining
    ensures Handovers(steps) + |t.listener.remaining| == |s.listener.remaining| <= |s.clients|
    decreases |steps|
  {
    SubsetSize(s.listener.remaining, s.clients);
    if steps != [] {
      assert steps[0] in steps && forall x :: x in steps[1..] ==> x in steps;
      HandoverCounts(s, steps[0]);
      StepKeeps(s, steps[0]);
      FanOutIsBounded(Next(s, steps[0]), steps[1..], t);
    }
  }

  lemma HandoverCounts(s: State, step: Step)
    requires Inv(s) && s.listener.FanningOut? && Enabled(s, step) && step != EndFanOut
    ensures var r, r' := s.listener.remaining, Next(s, step).listener;
      r'.FanningOut? && r'.remaining <= r && |r'.remaining| == |r| - if step.Deliver? || step.TimeOut? then 1 else 0
  {
  }

  /** A step of the listening goroutine that needs no one else. */
  predicate Alone(step: Step) {
    step.TimeOut? || step.EndFanOut?
  }

  /** Two states that differ only in how far the fan-out has come. */
  ghost predicate SameQueues(s: State, t: State) {
    && t.slot == s.slot && t.producers == s.producers && t.accepted == s.accepted
    && t.handlers.Keys == s.handlers.Keys
    && forall c :: c in s.handlers ==>
         && t.handlers[c].place == s.handlers[c].place && t.handlers[c].gone == s.handlers[c].gone
         && t.handlers[c].written == s.handlers[c].written
  }

  lemma TimeOutMoves(s: State, c: ClientId)
    requires Inv(s) && Enabled(s, TimeOut(c))
    ensures var t := Next(s, TimeOut(c));
      && Inv(t) && SameQueues(s, t) && t.listener == FanningOut(s.listener.remaining - {c})
      && |t.listener.remaining| == |s.listener.remaining| - 1
  {
    SettleKeeps(s, c, false);
  }

  lemma EndMoves(s: State)
    requires Inv(s) && Enabled(s, EndFanOut)
    ensures var t := Next(s, EndFanOut); Inv(t) && SameQueues(s, t) && t.listener.Selecting?
  {
    ListenerKeeps(s, EndFanOut);
  }

  /** By itself the listening goroutine gets back to its select, in one step per remaining client and one more. */
  lemma {:induction false} FanOutEnds(s: State) returns (steps: seq<Step>, t: State)
    requires Inv(s) && s.listener.FanningOut?
    ensures Leads(s, steps, t) && Inv(t) && t.listener.Selecting? && |steps| == |s.listener.remaining| + 1
    ensures (forall x :: x in steps ==> Alone(x)) && SameQueues(s, t)
    decreases |s.listener.remaining|
  {
    if s.listener.remaining == {} {
      EndMoves(s);
      t := Next(s, EndFanOut);
      steps := [EndFanOut];
      LeadsOne(s, EndFanOut, t, [], t);
    } else {
      var c :| c in s.listener.remaining;
      TimeOutMoves(s, c);
      var more;
      more, t := FanOutEnds(Next(s, TimeOut(c)));
      steps := [TimeOut(c)] + more;
      LeadsOne(s, TimeOut(c), Next(s, TimeOut(c)), more, t);
    }
  }

  lemma LeadsOne(s: State, step: Step, next: State, more: seq<Step>, t: State)
    requires Sane(s) && Enabled(s, step) && next == Next(s, step) && Leads(next, more, t)
    ensures Leads(s, [step] + more, t)
  {
    assert ([step] + more)[1..] == more;
  }

  /** Back at its select, the goroutine is ready for every handler that is blocked on it. */
  lemma HandlerGetsThrough(s: State, c: ClientId) returns (steps: seq<Step>, t: State)
    requires Reachable(s) && (At(s, c, Registering) || At(s, c, Closing))
    ensures Inv(s) && Leads(s, steps, t) && |steps| <= |s.clients| + 1 && forall x :: x in steps ==> Alone(x)
    ensures At(s, c, Registering) ==> Enabled(t, Register(c))
    ensures At(s, c, Closing) ==> Enabled(t, Deregister(c))
  {
    ReachableKept(s);
    if s.listener.Selecting? {
      steps, t := [], s;
    } else {
      SubsetSize(s.listener.remaining, s.clients);
      steps, t := FanOutEnds(s);
    }
  }

  /** A producer waits for a free slot at most as long as one fan-out and one accept take. */
  lemma ProducerGetsThrough(s: State, e: Event) returns (steps: seq<Step>, t: State, u: State)
    requires Reachable(s) && e in s.producers
    ensures Inv(s) && Leads(s, steps, t) && |steps| <= |s.clients| + 1 && forall x :: x in steps ==> Alone(x)
    ensures Inv(t) && if t.slot.None? then u == t else Enabled(t, Accept) && u == Next(t, Accept)
    ensures Enabled(u, Send(e))
  {
    ReachableKept(s);
    if s.listener.Selecting? {
      steps, t := [], s;
    } else {
      SubsetSize(s.listener.remaining, s.clients);
      steps, t := FanOutEnds(s);
    }
    u := if t.slot.None? then t else Next(t, Accept);
  }

  /** Steps that come from outside: requests, disconnections and new events. */
  predicate FromOutside(step: Step) {
    step.Connect? || step.Disconnect? || step.Produce?
  }

  /** Nothing can move by itself. */
  ghost predicate Stalled(s: State) {
    forall step :: Enabled(s, step) ==> FromOutside(step)
  }

  ghost predicate Idle(s: State) {
    && s.listener.Selecting? && s.slot.None? && s.producers == multiset{}
    && forall c :: c in s.handlers ==> s.handlers[c].place.Waiting? || s.handlers[c].place.Closed?
  }

  lemma BusyMoves(s: State) returns (step: Step)
    requires !Idle(s)
    ensures Enabled(s, step) && !FromOutside(step)
  {
    if s.listener.FanningOut? {
      if s.listener.remaining == {} {
        step := EndFanOut;
      } else {
        var c :| c in s.listener.remaining;
        step := TimeOut(c);
      }
    } else if s.slot.Some? {
      step := Accept;
    } else if s.producers != multiset{} {
      var e :| e in s.producers;
      step := Send(e);
    } else {
      var c :| c in s.handlers && !s.handlers[c].place.Waiting? && !s.handlers[c].place.Closed?;
      step := match s.handlers[c].place
        case Registering => Register(c)
        case Closing => Deregister(c)
        case Writing(_) => Write(c)
        case _ => Check(c);
    }
  }

  /** The system only comes to rest with nothing to do: no event under way, every handler waiting for one or closed. */
  lemma StallsOnlyWhenIdle(s: State)
    ensures Stalled(s) <==> Idle(s)
  {
    if !Idle(s) { var step := BusyMoves(s); }
  }

  lemma {:induction false} LeadsOn(s: State, first: seq<Step>, t: State, second: seq<Step>, u: State)
    requires Leads(s, first, t) && Leads(t, second, u)
    ensures Leads(s, first + second, u)
    decreases |first|
  {
    if first == [] {
      assert first + second == second;
    } else {
      LeadsOn(Next(s, first[0]), first[1..], t, second, u);
      AppendTail(first, second);
    }
  }

  /** How far a handler that has lost its client is from its end. */
  function ToGo(p: Place): nat {
    match p
    case Registering => 5
    case Waiting => 4
    case Writing(_) => 3
    case Checking => 2
    case Closing => 1
    case Closed => 0
  }

  /** The handler waits, and no event is on its way to it: none with a producer, in the slot or left of a fan-out. */
  predicate Stranded(s: State, c: ClientId) {
    && At(s, c, Waiting) && s.slot.None? && s.producers == multiset{}
    && (s.listener.FanningOut? ==> c !in s.listener.remaining)
  }

  /** Not stranded, and if its handler waits, the fan-out has still to come to it. */
  predicate Leaving(s: State, c: ClientId) {
    && c in s.handlers && s.handlers[c].gone
    && (s.handlers[c].place.Waiting? ==> s.listener.FanningOut? && c in s.listener.remaining)
  }

  lemma LeavingStep(s: State, c: ClientId) returns (step: Step)
    requires Sane(s) && Leaving(s, c) && !At(s, c, Closed)
    requires At(s, c, Registering) || At(s, c, Closing) ==> s.listener.Selecting?
    ensures Enabled(s, step) && !FromOutside(step)
    ensures var t := Next(s, step); Leaving(t, c) && ToGo(t.handlers[c].place) < ToGo(s.handlers[c].place)
  {
    step := match s.handlers[c].place
      case Registering => Register(c)
      case Waiting => Deliver(c)
      case Writing(_) => Write(c)
      case Checking => Check(c)
      case _ => Deregister(c);
  }

  lemma {:induction false} LeavingLeaves(s: State, c: ClientId) returns (steps: seq<Step>, t: State)
    requires Inv(s) && Leaving(s, c)
    ensures Leads(s, steps, t) && Inv(t) && At(t, c, Closed) && Inside(steps)
    decreases ToGo(s.handlers[c].place), s.listener.FanningOut?
  {
    if At(s, c, Closed) {
      steps, t := [], s;
    } else if s.listener.FanningOut? && (At(s, c, Registering) || At(s, c, Closing)) {
      var first, u := FanOutEnds(s);
      var second;
      second, t := LeavingLeaves(u, c);
      steps := first + second;
      LeadsOn(s, first, u, second, t);
    } else {
      var step := LeavingStep(s, c);
      StepKeeps(s, step);
      var more;
      more, t := LeavingLeaves(Next(s, step), c);
      steps := [step] + more;
      LeadsOne(s, step, Next(s, step), more, t);
    }
  }

  /** No request, disconnection or new event. */
  predicate Inside(steps: seq<Step>) {
    forall x :: x in steps ==> !FromOutside(x)
  }

  /** From its select, the listening goroutine comes to a waiting client with the event in the slot or a producer's. */
  lemma EventComes(s: State, c: ClientId) returns (steps: seq<Step>, t: State)
    requires Inv(s) && s.listener.Selecting? && At(s, c, Waiting) && s.handlers[c].gone
    requires s.slot.Some? || s.producers != multiset{}
    ensures Leads(s, steps, t) && Inv(t) && Leaving(t, c) && Inside(steps)
    decreases s.slot.None?
  {
    if s.slot.Some? {
      StepKeeps(s, Accept);
      assert HistoryFits(s, c);
      t := Next(s, Accept);
      steps := [Accept];
      LeadsOne(s, Accept, t, [], t);
    } else {
      var e :| e in s.producers;
      StepKeeps(s, Send(e));
      var u := Next(s, Send(e));
      var more;
      more, t := EventComes(u, c);
      steps := [Send(e)] + more;
      LeadsOne(s, Send(e), u, more, t);
    }
  }

  /** A client that has gone away leaves the registry without anything new from outside, unless it is stranded. */
  lemma GoneClientLeaves(s: State, c: ClientId) returns (steps: seq<Step>, t: State)
    requires Inv(s) && c in s.handlers && s.handlers[c].gone && !Stranded(s, c)
    ensures Leads(s, steps, t) && Inv(t) && At(t, c, Closed) && c !in t.clients && Inside(steps)
  {
    if Leaving(s, c) {
      steps, t := LeavingLeaves(s, c);
    } else if s.listener.FanningOut? {
      var first, u := FanOutEnds(s);
      var second;
      second, t := WaitingLeaves(u, c);
      steps := first + second;
      LeadsOn(s, first, u, second, t);
    } else {
      steps, t := WaitingLeaves(s, c);
    }
    ClosedIsOut(t, c);
  }

  lemma ClosedIsOut(s: State, c: ClientId)
    requires Inv(s) && At(s, c, Closed)
    ensures c !in s.clients
  {
    assert HistoryFits(s, c);
  }

  lemma WaitingLeaves(s: State, c: ClientId) returns (steps: seq<Step>, t: State)
    requires Inv(s) && s.listener.Selecting? && At(s, c, Waiting) && s.handlers[c].gone
    requires s.slot.Some? || s.producers != multiset{}
    ensures Leads(s, steps, t) && Inv(t) && At(t, c, Closed) && Inside(steps)
  {
    var first, u := EventComes(s, c);
    var second;
    second, t := LeavingLeaves(u, c);
    steps := first + second;
    LeadsOn(s, first, u, second, t);
  }

  lemma StrandedStays(s: State, c: ClientId, step: Step)
    requires Inv(s) && Stranded(s, c) && Enabled(s, step) && !FromOutside(step)
    ensures Stranded(Next(s, step), c)
  {
  }

  lemma {:induction false} StrandedStaysOn(s: State, c: ClientId, steps: seq<Step>, t: State)
    requires Inv(s) && Stranded(s, c) && Leads(s, steps, t) && Inside(steps)
    ensures Stranded(t, c)
    decreases |steps|
  {
    if steps != [] {
      assert steps[0] in steps && forall x :: x in steps[1..] ==> x in steps;
      StrandedStays(s, c, steps[0]);
      StepKeeps(s, steps[0]);
      StrandedStaysOn(Next(s, steps[0]), c, steps[1..], t);
    }
  }

  /** The client's handler can end without anything new from outside. */
  ghost predicate CanLeave(s: State, c: ClientId) {
    exists steps, t :: Leads(s, steps, t) && At(t, c, Closed) && Inside(steps)
  }

  /** A client that has gone away can leave exactly when it is not stranded. */
  lemma GoneClientLeavesUnlessStranded(s: State, c: ClientId)
    requires Inv(s) && c in s.handlers && s.handlers[c].gone
    ensures CanLeave(s, c) <==> !Stranded(s, c)
  {
    if Stranded(s, c) {
      forall steps, t | Leads(s, steps, t) && Inside(steps) ensures !At(t, c, Closed) {
        StrandedStaysOn(s, c, steps, t);
      }
    } else {
      var steps, t := GoneClientLeaves(s, c);
    }
  }

  // ---- What clients get ----

  /** The event that the next step from inside can bring: the one in the slot, or else one of a producer's. */
  predicate Coming(s: State, e: Event) {
    if s.slot.Some? then e == s.slot.value else e in s.producers
  }

  /** A waiting client to which the fan-out has still to come can be handed the event, and writes it. */
  lemma HandOver(s: State, c: ClientId) returns (steps: seq<Step>, t: State)
    requires Inv(s) && s.listener.FanningOut? && c in s.listener.remaining && At(s, c, Waiting)
    ensures Leads(s, steps, t) && Inv(t) && Inside(steps) && c in t.handlers && t.accepted == s.accepted
    ensures t.handlers[c].written == s.handlers[c].written + [|s.accepted| - 1]
  {
    var u := Delivers(s, c);
    t := Writes(u, c, |s.accepted| - 1);
    steps := [Deliver(c)] + [Write(c)];
    LeadsOn(s, [Deliver(c)], u, [Write(c)], t);
  }

  lemma Delivers(s: State, c: ClientId) returns (t: State)
    requires Inv(s) && s.listener.FanningOut? && c in s.listener.remaining && At(s, c, Waiting)
    ensures Leads(s, [Deliver(c)], t) && Inv(t) && t.accepted == s.accepted
    ensures At(t, c, Writing(|s.accepted| - 1)) && t.handlers[c].written == s.handlers[c].written
  {
    StepKeeps(s, Deliver(c));
    t := Next(s, Deliver(c));
    LeadsOne(s, Deliver(c), t, [], t);
  }

  lemma Writes(s: State, c: ClientId, k: nat) returns (t: State)
    requires Inv(s) && At(s, c, Writing(k))
    ensures Leads(s, [Write(c)], t) && Inv(t) && t.accepted == s.accepted
    ensures c in t.handlers && t.handlers[c].written == s.handlers[c].written + [k]
  {
    StepKeeps(s, Write(c));
    t := Next(s, Write(c));
    LeadsOne(s, Write(c), t, [], t);
  }

  /** From its select, the listening goroutine accepts a coming event and starts to hand it to every client. */
  lemma Accepts(s: State, c: ClientId, e: Event) returns (steps: seq<Step>, t: State)
    requires Inv(s) && s.listener.Selecting? && At(s, c, Waiting) && Coming(s, e)
    ensures Leads(s, steps, t) && Inv(t) && Inside(steps) && t.accepted == s.accepted + [e]
    ensures t.listener.FanningOut? && c in t.listener.remaining && At(t, c, Waiting)
    ensures t.handlers[c].written == s.handlers[c].written
    decreases s.slot.None?
  {
    assert HistoryFits(s, c);
    if s.slot.Some? {
      StepKeeps(s, Accept);
      t := Next(s, Accept);
      steps := [Accept];
      LeadsOne(s, Accept, t, [], t);
    } else {
      StepKeeps(s, Send(e));
      var u := Next(s, Send(e));
      var more;
      more, t := Accepts(u, c, e);
      steps := [Send(e)] + more;
      LeadsOne(s, Send(e), u, more, t);
    }
  }

  /**
   From every reachable state, a registered client that waits, gone or not, can be handed the event of
   the fan-out that has still to come to it, or any event that is coming, and then has written just it.
   */
  lemma WaitingClientGetsEvent(s: State, c: ClientId, e: Event) returns (steps: seq<Step>, t: State)
    requires Reachable(s) && At(s, c, Waiting)
    requires (s.listener.FanningOut? && c in s.listener.remaining) || Coming(s, e)
    ensures Inv(s) && c in s.clients && Leads(s, steps, t) && Inside(steps) && c in t.handlers
    ensures
      if s.listener.FanningOut? && c in s.listener.remaining then
        t.accepted == s.accepted && t.handlers[c].written == s.handlers[c].written + [|s.accepted| - 1]
      else
        t.accepted == s.accepted + [e] && t.handlers[c].written == s.handlers[c].written + [|s.accepted|]
  {
    ReachableKept(s);
    assert HistoryFits(s, c);
    steps, t := GetsEvent(s, c, e);
  }

  lemma GetsEvent(s: State, c: ClientId, e: Event) returns (steps: seq<Step>, t: State)
    requires Inv(s) && At(s, c, Waiting)
    requires (s.listener.FanningOut? && c in s.listener.remaining) || Coming(s, e)
    ensures Leads(s, steps, t) && Inside(steps) && Inv(t) && c in t.handlers
    ensures
      if s.listener.FanningOut? && c in s.listener.remaining then
        t.accepted == s.accepted && t.handlers[c].written == s.handlers[c].written + [|s.accepted| - 1]
      else
        t.accepted == s.accepted + [e] && t.handlers[c].written == s.handlers[c].written + [|s.accepted|]
  {
    if s.listener.FanningOut? && c in s.listener.remaining {
      steps, t := HandOver(s, c);
    } else {
      steps, t := GetsComing(s, c, e);
    }
  }

  lemma GetsComing(s: State, c: ClientId, e: Event) returns (steps: seq<Step>, t: State)
    requires Inv(s) && At(s, c, Waiting) && Coming(s, e)
    ensures Leads(s, steps, t) && Inside(steps) && Inv(t) && c in t.handlers
    ensures t.accepted == s.accepted + [e] && t.handlers[c].written == s.handlers[c].written + [|s.accepted|]
  {
    var first, u := SettlesFor(s, c, e);
    var second, v := Accepts(u, c, e);
    var third;
    third, t := HandOver(v, c);
    steps := ThreeParts(s, first, u, second, v, third, t);
  }

  lemma SettlesFor(s: State, c: ClientId, e: Event) returns (steps: seq<Step>, t: State)
    requires Inv(s) && At(s, c, Waiting) && Coming(s, e)
    ensures Leads(s, steps, t) && Inside(steps) && Inv(t) && t.listener.Selecting? && At(t, c, Waiting) && Coming(t, e)
    ensures t.accepted == s.accepted && t.handlers[c].written == s.handlers[c].written
  {
    steps, t := Settles(s);
  }

  lemma ThreeParts(s: State, first: seq<Step>, u: State, second: seq<Step>, v: State, third: seq<Step>, t: State)
    returns (steps: seq<Step>)
    requires Leads(s, first, u) && Leads(u, second, v) && Leads(v, third, t)
    requires Inside(first) && Inside(second) && Inside(third)
    ensures Leads(s, steps, t) && Inside(steps)
  {
    LeadsOn(s, first, u, second, v);
    LeadsOn(s, first + second, v, third, t);
    steps := first + second + third;
  }

  /** The listening goroutine gets back to its select. */
  lemma Settles(s: State) returns (steps: seq<Step>, t: State)
    requires Inv(s)
    ensures Leads(s, steps, t) && Inside(steps) && Inv(t) && t.listener.Selecting? && SameQueues(s, t)
  {
    if s.listener.FanningOut? {
      steps, t := FanOutEnds(s);
    } else {
      steps, t := [], s;
    }
  }

  /** A connected client's handler gets to wait for the next event by itself, having written what it was handed. */
  lemma {:induction false} ComesToWait(s: State, c: ClientId) returns (steps: seq<Step>, t: State)
    requires Inv(s) && c in s.handlers && !s.handlers[c].gone
    requires !At(s, c, Closing) && !At(s, c, Closed) && (At(s, c, Registering) ==> s.listener.Selecting?)
    ensures Leads(s, steps, t) && Inside(steps) && Inv(t) && At(t, c, Waiting)
    ensures t.listener == s.listener && t.slot == s.slot && t.producers == s.producers && t.accepted == s.accepted
    ensures s.handlers[c].written <= t.handlers[c].written
    decreases ToGo(s.handlers[c].place) + if s.handlers[c].place.Waiting? then 0 else 5
  {
    if At(s, c, Waiting) {
      steps, t := [], s;
    } else {
      var step := match s.handlers[c].place
        case Registering => Register(c)
        case Writing(_) => Write(c)
        case _ => Check(c);
      StepKeeps(s, step);
      var more;
      more, t := ComesToWait(Next(s, step), c);
      steps := [step] + more;
      LeadsOne(s, step, Next(s, step), more, t);
    }
  }

  /** From every reachable state, a client that is still there can get any event that is coming. */
  lemma ConnectedClientGetsEvent(s: State, c: ClientId, e: Event) returns (steps: seq<Step>, t: State)
    requires Reachable(s) && c in s.handlers && !s.handlers[c].gone && !At(s, c, Closing) && !At(s, c, Closed)
    requires Coming(s, e)
    ensures Inv(s) && Leads(s, steps, t) && Inside(steps) && c in t.handlers && t.accepted == s.accepted + [e]
    ensures s.handlers[c].written <= t.handlers[c].written && |s.accepted| in t.handlers[c].written
  {
    ReachableKept(s);
    var first, u := Settles(s);
    var second, v := ComesToWait(u, c);
    var third;
    third, t := GetsComing(v, c, e);
    steps := ThreeParts(s, first, u, second, v, third, t);
    assert t.handlers[c].written[|v.handlers[c].written|] == |s.accepted|;
  }

  lemma RunStep(steps: seq<Step>, step: Step)
    requires Enabled(Run(steps), step)
    ensures Run(steps + [step]) == Next(Run(steps), step)
  {
    assert (steps + [step])[..|steps|] == steps;
  }

  /** A run strands a client: it goes away while it waits, and stays registered until the next event comes. */
  lemma GoneClientMayStay()
    ensures exists s ::
      Reachable(s) && 0 in s.clients && 0 in s.handlers && s.handlers[0].gone && !CanLeave(s, 0)
  {
    var t := Waited();
    var u := Next(t, Disconnect(0));
    ReachableNext(t, Disconnect(0));
    ReachableKept(u);
    GoneClientLeavesUnlessStranded(u, 0);
  }

  lemma ReachableNext(s: State, step: Step)
    requires Reachable(s) && Inv(s) && Enabled(s, step)
    ensures Reachable(Next(s, step))
  {
    var steps :| Run(steps) == s;
    RunStep(steps, step);
    assert Run(steps + [step]) == Next(s, step);
  }

  /** One client connected, registered and waiting. */
  lemma Waited() returns (s: State)
    ensures Reachable(s) && Inv(s)
    ensures s == State(Selecting, {0}, None, multiset{}, map[0 := Handler(Waiting, false, 0, None, [], [])], [])
  {
    var r := Joined();
    ReachableNext(r, Check(0));
    s := State(Selecting, {0}, None, multiset{}, map[0 := Handler(Waiting, false, 0, None, [], [])], []);
    ReachableKept(s);
  }

  lemma Joined() returns (s: State)
    ensures Reachable(s) && Inv(s)
    ensures s == State(Selecting, {0}, None, multiset{}, map[0 := Handler(Checking, false, 0, None, [], [])], [])
  {
    assert Run([]) == Initial();
    ReachableNext(Initial(), Connect(0));
    var r := State(Selecting, {}, None, multiset{}, map[0 := Handler(Registering, false, 0, None, [], [])], []);
    assert r == Next(Initial(), Connect(0));
    ReachableKept(r);
    ReachableNext(r, Register(0));
    s := State(Selecting, {0}, None, multiset{}, map[0 := Handler(Checking, false, 0, None, [], [])], []);
    ReachableKept(s);
  }
}
