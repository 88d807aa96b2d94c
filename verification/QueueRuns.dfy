/**
 The beacon state and beacon block queues: event handlers that send, one worker per queue
 that receives, and a clock, in every interleaving.  A handler's sends are a fixed program
 that it works through one blocking send at a time.
 */
module QueueRuns {
  import opened AgeGates
  import opened Arithmetic
  import opened Uint64
  import opened Wrappers

  const CAPACITY: nat := 1000

  datatype Config = Config(
    tolerance: uint64, threshold: uint64, slotsPerEpoch: uint64, fetchStates: bool, fetchBlocks: bool)

  datatype Queue = StateQueue | BlockQueue

  datatype Send = Send(queue: Queue, slot: uint64)

  /** A queued request, tagged with the handler that sent it. */
  datatype Item = Item(slot: uint64, sender: nat)

  /** A request the worker is done with; `at` is the slot it read from the clock. */
  datatype Handled = Handled(item: Item, fetched: bool, at: uint64)

  /** A Go channel and its worker.  `sent` is the history of everything ever enqueued. */
  datatype Channel = Channel(
    sent: seq<Item>, pending: seq<Item>, inFlight: Option<Item>, handled: seq<Handled>, stopped: bool)

  datatype Origin = BlockEvent(slot: uint64) | ReorgEvent(slot: uint64, head: uint64)

  datatype Handler = Handler(origin: Origin, remaining: seq<Send>)

  datatype State = State(now: uint64, states: Channel, blocks: Channel, handlers: map<nat, Handler>)

  datatype Action =
    | Tick(to: uint64)
    | OnBlock(id: nat, slot: uint64)
    | OnReorg(id: nat, slot: uint64)
    | Deliver(id: nat)
    | Take(queue: Queue)
    | Handle(queue: Queue, clockError: bool)

  predicate Enabled(cfg: Config, q: Queue) {
    match q
    case StateQueue => cfg.fetchStates
    case BlockQueue => cfg.fetchBlocks
  }

  /** enqueueBeaconState, then enqueueBeaconBlock; a disabled feature sends nothing. */
  function SlotSends(cfg: Config, slot: uint64): seq<Send> {
    (if cfg.fetchStates then [Send(StateQueue, slot)] else []) +
    (if cfg.fetchBlocks then [Send(BlockQueue, slot)] else [])
  }

  /** All sends of the reorg loop. */
  function ReorgSends(cfg: Config, slot: uint64, head: uint64): seq<Send>
    decreases head - slot
  {
    if slot < head then SlotSends(cfg, slot) + ReorgSends(cfg, Add(slot, 1), head) else []
  }

  function Program(cfg: Config, origin: Origin): seq<Send> {
    match origin
    case BlockEvent(slot) => SlotSends(cfg, slot)
    case ReorgEvent(slot, head) => ReorgSends(cfg, slot, head)
  }

  /** The reorg loop; the increment is uint64's, and still the loop ends for every slot and head. */
  method RunReorgLoop(cfg: Config, from: uint64, head: uint64) returns (sends: seq<Send>)
    ensures sends == ReorgSends(cfg, from, head)
  {
    sends := [];
    var slot: uint64 := from;
    while slot < head
      invariant sends + ReorgSends(cfg, slot, head) == ReorgSends(cfg, from, head)
      decreases head - slot
    {
      assert sends + (SlotSends(cfg, slot) + ReorgSends(cfg, Add(slot, 1), head)) ==
             (sends + SlotSends(cfg, slot)) + ReorgSends(cfg, Add(slot, 1), head);
      sends := sends + SlotSends(cfg, slot);
      slot := Add(slot, 1);
    }
  }

  function Chan(s: State, q: Queue): Channel {
    match q
    case StateQueue => s.states
    case BlockQueue => s.blocks
  }

  function WithChan(s: State, q: Queue, c: Channel): State {
    match q
    case StateQueue => s.(states := c)
    case BlockQueue => s.(blocks := c)
  }

  /** Only the state worker looks at the age of a request. */
  predicate Fetches(cfg: Config, q: Queue, slot: uint64, now: uint64)
    requires cfg.slotsPerEpoch > 0
  {
    q == BlockQueue || (
      QuotientBound(now, cfg.slotsPerEpoch);
      QuotientBound(slot, cfg.slotsPerEpoch);
      !TooOld(now / cfg.slotsPerEpoch, slot / cfg.slotsPerEpoch, cfg.threshold))
  }

  // The three channel operations.

  predicate HasRoom(c: Channel) {
    |c.pending| < CAPACITY
  }

  function Push(c: Channel, item: Item): Channel {
    c.(sent := c.sent + [item], pending := c.pending + [item])
  }

  predicate CanReceive(c: Channel) {
    !c.stopped && c.inFlight.None? && c.pending != []
  }

  function Receive(c: Channel): Channel
    requires CanReceive(c)
  {
    c.(inFlight := Some(c.pending[0]), pending := c.pending[1..])
  }

  /** The worker's verdict on the request in flight; a failed clock makes the state worker return. */
  function Finish(cfg: Config, q: Queue, c: Channel, now: uint64, clockError: bool): Channel
    requires cfg.slotsPerEpoch > 0 && !c.stopped && c.inFlight.Some?
  {
    if q == StateQueue && clockError then c.(stopped := true)
    else
      var item := c.inFlight.value;
      c.(inFlight := None, handled := c.handled + [Handled(item, Fetches(cfg, q, item.slot, now), now)])
  }

  function Next(cfg: Config, s: State, a: Action): State
    requires cfg.slotsPerEpoch > 0
  {
    match a
    case Tick(to) => if s.now <= to then s.(now := to) else s
    case OnBlock(id, slot) =>
      if id in s.handlers || ShouldIgnore(s.now, slot, cfg.tolerance) then s
      else s.(handlers := s.handlers[id := Handler(BlockEvent(slot), SlotSends(cfg, slot))])
    case OnReorg(id, slot) =>
      if id in s.handlers then s
      else s.(handlers := s.handlers[id := Handler(ReorgEvent(slot, s.now), ReorgSends(cfg, slot, s.now))])
    case Deliver(id) =>
      if id !in s.handlers || s.handlers[id].remaining == [] then s else
      var send := s.handlers[id].remaining[0];
      if !HasRoom(Chan(s, send.queue)) then s
      else WithChan(s, send.queue, Push(Chan(s, send.queue), Item(send.slot, id)))
        .(handlers := s.handlers[id := s.handlers[id].(remaining := s.handlers[id].remaining[1..])])
    case Take(q) =>
      if CanReceive(Chan(s, q)) then WithChan(s, q, Receive(Chan(s, q))) else s
    case Handle(q, clockError) =>
      var c := Chan(s, q);
      if c.stopped || c.inFlight.None? then s else WithChan(s, q, Finish(cfg, q, c, s.now, clockError))
  }

  const EMPTY: Channel := Channel([], [], None, [], false)

  ghost predicate IsRun(cfg: Config, states: seq<State>, actions: seq<Action>) {
    && cfg.slotsPerEpoch > 0
    && |states| == |actions| + 1
    && states[0] == State(states[0].now, EMPTY, EMPTY, map[])
    && forall i :: 0 <= i < |actions| ==> states[i + 1] == Next(cfg, states[i], actions[i])
  }

  // Conservation

  function ItemsOf(handled: seq<Handled>): seq<Item> {
    if handled == [] then [] else ItemsOf(handled[..|handled| - 1]) + [handled[|handled| - 1].item]
  }

  function Accounted(c: Channel): seq<Item> {
    ItemsOf(c.handled) + (if c.inFlight.Some? then [c.inFlight.value] else []) + c.pending
  }

  ghost predicate Conserved(c: Channel) {
    c.sent == Accounted(c) && |c.pending| <= CAPACITY && (c.stopped ==> c.inFlight.Some?)
  }

  lemma PushConserves(c: Channel, item: Item)
    requires Conserved(c) && HasRoom(c)
    ensures Conserved(Push(c, item))
  {
    assert Accounted(Push(c, item)) == Accounted(c) + [item];
  }

  lemma ReceiveConserves(c: Channel)
    requires Conserved(c) && CanReceive(c)
    ensures Conserved(Receive(c))
  {
    assert c.pending == [c.pending[0]] + c.pending[1..];
  }

  lemma FinishConserves(cfg: Config, q: Queue, c: Channel, now: uint64, clockError: bool)
    requires cfg.slotsPerEpoch > 0 && !c.stopped && c.inFlight.Some? && Conserved(c)
    ensures Conserved(Finish(cfg, q, c, now, clockError))
  {
    var c' := Finish(cfg, q, c, now, clockError);
    if !c'.stopped {
      ItemsOfPush(c.handled, c'.handled[|c.handled|]);
    }
  }

  lemma NextConserves(cfg: Config, s: State, a: Action, q: Queue)
    requires cfg.slotsPerEpoch > 0 && Conserved(Chan(s, q))
    ensures Conserved(Chan(Next(cfg, s, a), q))
  {
    var c := Chan(s, q);
    match a
    case Deliver(id) =>
      if Remaining(s, id) != [] && HasRoom(c) {
        PushConserves(c, Item(Remaining(s, id)[0].slot, id));
      }
    case Take(_) =>
      if CanReceive(c) {
        ReceiveConserves(c);
      }
    case Handle(_, clockError) =>
      if !c.stopped && c.inFlight.Some? {
        FinishConserves(cfg, q, c, s.now, clockError);
      }
    case _ =>
  }

  lemma ItemsOfPush(handled: seq<Handled>, done: Handled)
    ensures ItemsOf(handled + [done]) == ItemsOf(handled) + [done.item]
  {
    assert (handled + [done])[..|handled|] == handled;
  }

  /**
   Nothing is lost, duplicated or reordered between a queue and its worker, at every step of
   every run.  Only a worker whose clock failed keeps an item for ever: the one in flight.
   */
  lemma {:induction false} QueueConservation(cfg: Config, states: seq<State>, actions: seq<Action>, m: nat, q: Queue)
    requires IsRun(cfg, states, actions) && m < |states|
    ensures Conserved(Chan(states[m], q)) && |Chan(states[m], q).pending| <= 1000
  {
    if m > 0 {
      QueueConservation(cfg, states, actions, m - 1, q);
      NextConserves(cfg, states[m - 1], actions[m - 1], q);
    }
  }

  // Coverage

  /** The slots a program sends to one queue, in order. */
  function SlotsOn(sends: seq<Send>, q: Queue): seq<uint64> {
    if sends == [] then []
    else (if sends[0].queue == q then [sends[0].slot] else []) + SlotsOn(sends[1..], q)
  }

  /** The slots one handler got into a queue, in order. */
  function SlotsBy(sent: seq<Item>, id: nat): seq<uint64> {
    if sent == [] then []
    else SlotsBy(sent[..|sent| - 1], id) + (if sent[|sent| - 1].sender == id then [sent[|sent| - 1].slot] else [])
  }

  function Range(lo: uint64, hi: uint64): seq<uint64> {
    if lo < hi then seq(hi - lo, i requires 0 <= i < hi - lo => lo + i) else []
  }

  function Remaining(s: State, id: nat): seq<Send> {
    if id in s.handlers then s.handlers[id].remaining else []
  }

  /** What a handler has sent to a queue, followed by what it still will. */
  function Progress(s: State, id: nat, q: Queue): seq<uint64> {
    SlotsBy(Chan(s, q).sent, id) + SlotsOn(Remaining(s, id), q)
  }

  /** The two together are always the handler's whole program for that queue. */
  ghost predicate OnTrack(cfg: Config, s: State, id: nat, q: Queue) {
    if id in s.handlers then Progress(s, id, q) == SlotsOn(Program(cfg, s.handlers[id].origin), q)
    else SlotsBy(Chan(s, q).sent, id) == []
  }

  lemma SendKeepsProgress(sent: seq<Item>, remaining: seq<Send>, id: nat, q: Queue)
    requires remaining != []
    ensures var sent' := if remaining[0].queue == q then sent + [Item(remaining[0].slot, id)] else sent;
            SlotsBy(sent', id) + SlotsOn(remaining[1..], q) == SlotsBy(sent, id) + SlotsOn(remaining, q)
  {
    SlotsByPush(sent, Item(remaining[0].slot, id), id);
  }

  predicate CanDeliver(s: State, sender: nat) {
    Remaining(s, sender) != [] && HasRoom(Chan(s, Remaining(s, sender)[0].queue))
  }

  lemma DeliverWithoutRoom(cfg: Config, s: State, sender: nat)
    requires cfg.slotsPerEpoch > 0 && !CanDeliver(s, sender)
    ensures Next(cfg, s, Deliver(sender)) == s
  {
  }

  lemma DeliverWithRoom(cfg: Config, s: State, sender: nat, q: Queue)
    requires cfg.slotsPerEpoch > 0 && CanDeliver(s, sender)
    ensures var s', remaining := Next(cfg, s, Deliver(sender)), Remaining(s, sender);
            && s'.handlers == s.handlers[sender := s.handlers[sender].(remaining := remaining[1..])]
            && Chan(s', q).sent ==
               Chan(s, q).sent + (if remaining[0].queue == q then [Item(remaining[0].slot, sender)] else [])
  {
  }

  /** A handler's next send goes through just when its queue has fewer than 1000 requests. */
  lemma DeliverIff(cfg: Config, s: State, sender: nat)
    requires cfg.slotsPerEpoch > 0 && Remaining(s, sender) != []
    ensures var s', send := Next(cfg, s, Deliver(sender)), Remaining(s, sender)[0];
            var c, c' := Chan(s, send.queue), Chan(s', send.queue);
            if |c.pending| < 1000 then
              && c'.pending == c.pending + [Item(send.slot, sender)]
              && Remaining(s', sender) == Remaining(s, sender)[1..]
            else s' == s
  {
  }

  lemma DeliverKeepsProgress(cfg: Config, s: State, sender: nat, id: nat, q: Queue)
    requires cfg.slotsPerEpoch > 0 && CanDeliver(s, sender)
    ensures Progress(Next(cfg, s, Deliver(sender)), id, q) == Progress(s, id, q)
  {
    var sent, remaining := Chan(s, q).sent, Remaining(s, sender);
    DeliverWithRoom(cfg, s, sender, q);
    if id == sender {
      SendKeepsProgress(sent, remaining, sender, q);
      assert sent + [] == sent;
    } else {
      OtherSendsDoNotCount(sent, remaining[0], sender, id, q);
    }
  }

  lemma OtherSendsDoNotCount(sent: seq<Item>, send: Send, sender: nat, id: nat, q: Queue)
    requires id != sender
    ensures SlotsBy(sent + (if send.queue == q then [Item(send.slot, sender)] else []), id) == SlotsBy(sent, id)
  {
    if send.queue == q {
      SlotsByPush(sent, Item(send.slot, sender), id);
    } else {
      assert sent + [] == sent;
    }
  }

  lemma DeliverOnTrack(cfg: Config, s: State, sender: nat, id: nat, q: Queue)
    requires cfg.slotsPerEpoch > 0 && OnTrack(cfg, s, id, q)
    ensures OnTrack(cfg, Next(cfg, s, Deliver(sender)), id, q)
  {
    if !CanDeliver(s, sender) {
      DeliverWithoutRoom(cfg, s, sender);
    } else {
      DeliverWithRoom(cfg, s, sender, q);
      DeliverKeepsProgress(cfg, s, sender, id, q);
    }
  }

  lemma NextOnTrack(cfg: Config, s: State, a: Action, id: nat, q: Queue)
    requires cfg.slotsPerEpoch > 0 && OnTrack(cfg, s, id, q)
    ensures OnTrack(cfg, Next(cfg, s, a), id, q)
  {
    if a.Deliver? {
      DeliverOnTrack(cfg, s, a.id, id, q);
    } else {
      assert Chan(Next(cfg, s, a), q).sent == Chan(s, q).sent;
    }
  }

  lemma SlotsByPush(sent: seq<Item>, item: Item, id: nat)
    ensures SlotsBy(sent + [item], id) == SlotsBy(sent, id) + (if item.sender == id then [item.slot] else [])
  {
    assert (sent + [item])[..|sent|] == sent;
  }

  lemma {:induction false} AlwaysOnTrack(cfg: Config, states: seq<State>, actions: seq<Action>, m: nat, id: nat, q: Queue)
    requires IsRun(cfg, states, actions) && m < |states|
    ensures OnTrack(cfg, states[m], id, q)
  {
    if m > 0 {
      AlwaysOnTrack(cfg, states, actions, m - 1, id, q);
      NextOnTrack(cfg, states[m - 1], actions[m - 1], id, q);
    }
  }

  lemma {:induction false} SlotsOnConcat(a: seq<Send>, b: seq<Send>, q: Queue)
    ensures SlotsOn(a + b, q) == SlotsOn(a, q) + SlotsOn(b, q)
  {
    if a == [] {
      assert a + b == b;
    } else {
      assert (a + b)[1..] == a[1..] + b;
      SlotsOnConcat(a[1..], b, q);
    }
  }

  lemma RangeStep(lo: uint64, hi: uint64)
    requires lo < hi
    ensures Range(lo, hi) == [lo] + Range(Add(lo, 1), hi)
  {
  }

  /** The reorg loop visits each slot below the head once, in ascending order. */
  lemma {:induction false} ReorgSlots(cfg: Config, slot: uint64, head: uint64, q: Queue)
    ensures SlotsOn(ReorgSends(cfg, slot, head), q) == if Enabled(cfg, q) then Range(slot, head) else []
    decreases head - slot
  {
    if slot < head {
      ReorgSlots(cfg, Add(slot, 1), head, q);
      SlotsOnConcat(SlotSends(cfg, slot), ReorgSends(cfg, Add(slot, 1), head), q);
      SlotSendsSlots(cfg, slot, q);
      RangeStep(slot, head);
    }
  }

  lemma SlotSendsSlots(cfg: Config, slot: uint64, q: Queue)
    ensures SlotsOn(SlotSends(cfg, slot), q) == if Enabled(cfg, q) then [slot] else []
  {
    var states, blocks := if cfg.fetchStates then [Send(StateQueue, slot)] else [],
                          if cfg.fetchBlocks then [Send(BlockQueue, slot)] else [];
    SlotsOnConcat(states, blocks, q);
  }

  /**
   Reorg coverage in every run: what a reorg handler has enqueued on an enabled queue is an
   initial part of [slot, head), and all of it once the handler has finished.
   */
  lemma ReorgCoverage(cfg: Config, states: seq<State>, actions: seq<Action>, m: nat, id: nat, q: Queue)
    requires IsRun(cfg, states, actions) && m < |states|
    requires id in states[m].handlers && states[m].handlers[id].origin.ReorgEvent?
    ensures var h := states[m].handlers[id];
            var wanted := if Enabled(cfg, q) then Range(h.origin.slot, h.origin.head) else [];
            var got := SlotsBy(Chan(states[m], q).sent, id);
            && got <= wanted
            && (h.remaining == [] ==> got == wanted)
  {
    var h := states[m].handlers[id];
    AlwaysOnTrack(cfg, states, actions, m, id, q);
    ReorgSlots(cfg, h.origin.slot, h.origin.head, q);
  }

  /** A block event's handler enqueues its slot at most once, and once when it has finished. */
  lemma BlockCoverage(cfg: Config, states: seq<State>, actions: seq<Action>, m: nat, id: nat, q: Queue)
    requires IsRun(cfg, states, actions) && m < |states|
    requires id in states[m].handlers && states[m].handlers[id].origin.BlockEvent?
    ensures var h := states[m].handlers[id];
            var wanted := if Enabled(cfg, q) then [h.origin.slot] else [];
            var got := SlotsBy(Chan(states[m], q).sent, id);
            && got <= wanted
            && (h.remaining == [] ==> got == wanted)
  {
    AlwaysOnTrack(cfg, states, actions, m, id, q);
    SlotSendsSlots(cfg, states[m].handlers[id].origin.slot, q);
  }

  /** A block event is taken up just when the wrapping gate accepts its slot, and a reorg always, at any time. */
  lemma EventTakenUpIff(cfg: Config, s: State, a: Action)
    requires cfg.slotsPerEpoch > 0 && (a.OnBlock? || a.OnReorg?) && a.id !in s.handlers
    ensures var s', tolerance := Next(cfg, s, a), cfg.tolerance;
            && (a.id in s'.handlers <==>
                a.OnReorg? || s.now - tolerance <= a.slot <= s.now || s.now + TWO_64 - tolerance <= a.slot)
            && (a.id in s'.handlers ==>
                var origin := if a.OnReorg? then ReorgEvent(a.slot, s.now) else BlockEvent(a.slot);
                s'.handlers[a.id] == Handler(origin, Program(cfg, origin)))
  {
    GateAccepts(s.now, a.slot, cfg.tolerance);
  }

  /** Past the tolerance, a block event is taken up just when its slot is in the window, and a reorg always. */
  lemma EventsTakenUp(cfg: Config, states: seq<State>, actions: seq<Action>, i: nat)
    requires IsRun(cfg, states, actions) && i < |actions| && cfg.tolerance <= states[0].now
    requires actions[i].OnBlock? || actions[i].OnReorg?
    requires actions[i].id !in states[i].handlers
    ensures var a, now := actions[i], states[i].now;
            && (a.id in states[i + 1].handlers <==> a.OnReorg? || now - cfg.tolerance <= a.slot <= now)
            && (a.id in states[i + 1].handlers ==>
                var origin := if a.OnReorg? then ReorgEvent(a.slot, now) else BlockEvent(a.slot);
                states[i + 1].handlers[a.id].origin == origin)
  {
    NeverAhead(cfg, states, actions, i);
    GateAccepts(states[i].now, actions[i].slot, cfg.tolerance);
  }

  ghost predicate AllFetched(handled: seq<Handled>) {
    forall i :: 0 <= i < |handled| ==> handled[i].fetched
  }

  /** The block worker skips nothing and never stops. */
  lemma {:induction false} BlocksAreAlwaysFetched(cfg: Config, states: seq<State>, actions: seq<Action>, m: nat)
    requires IsRun(cfg, states, actions) && m < |states|
    ensures AllFetched(states[m].blocks.handled) && !states[m].blocks.stopped
  {
    if m > 0 {
      BlocksAreAlwaysFetched(cfg, states, actions, m - 1);
      assert states[m] == Next(cfg, states[m - 1], actions[m - 1]);
    }
  }

  // The workers

  /** A worker that waits takes the oldest request. */
  lemma TakeTakesTheOldest(cfg: Config, s: State, q: Queue)
    requires cfg.slotsPerEpoch > 0
    requires var c := Chan(s, q); !c.stopped && c.inFlight.None? && c.pending != []
    ensures var c, c' := Chan(s, q), Chan(Next(cfg, s, Take(q)), q);
            && c'.inFlight == Some(c.pending[0]) && c'.pending == c.pending[1..]
            && c'.handled == c.handled && c'.sent == c.sent && !c'.stopped
  {
  }

  /** With a working clock, and for blocks in any case, the request is done with and the worker goes on. */
  lemma HandleGoesOn(cfg: Config, s: State, q: Queue, clockError: bool)
    requires cfg.slotsPerEpoch > 0 && !Chan(s, q).stopped && Chan(s, q).inFlight.Some?
    requires q == BlockQueue || !clockError
    ensures var c, c' := Chan(s, q), Chan(Next(cfg, s, Handle(q, clockError)), q);
            && |c'.handled| == |c.handled| + 1 && c'.handled[..|c.handled|] == c.handled
            && c'.handled[|c.handled|].item == c.inFlight.value && c'.handled[|c.handled|].at == s.now
            && c'.inFlight.None? && !c'.stopped && c'.pending == c.pending && c'.sent == c.sent
  {
  }

  /** Which requests are fetched: all blocks, and states whose unsigned age is within the threshold. */
  lemma HandleFetchesIff(cfg: Config, s: State, q: Queue, clockError: bool)
    requires cfg.slotsPerEpoch > 0 && !Chan(s, q).stopped && Chan(s, q).inFlight.Some?
    requires q == BlockQueue || !clockError
    ensures var c, c' := Chan(s, q), Chan(Next(cfg, s, Handle(q, clockError)), q);
            var age := s.now / cfg.slotsPerEpoch - c.inFlight.value.slot / cfg.slotsPerEpoch;
            && |c'.handled| > |c.handled|
            && (c'.handled[|c.handled|].fetched <==>
                q == BlockQueue || (if 0 <= age then age else age + TWO_64) <= cfg.threshold)
  {
    QuotientBound(s.now, cfg.slotsPerEpoch);
    QuotientBound(Chan(s, q).inFlight.value.slot, cfg.slotsPerEpoch);
  }

  /** Without a clock the state worker returns, with the request in its hands. */
  lemma HandleWithoutAClock(cfg: Config, s: State)
    requires cfg.slotsPerEpoch > 0 && !s.states.stopped && s.states.inFlight.Some?
    ensures Next(cfg, s, Handle(StateQueue, true)) == s.(states := s.states.(stopped := true))
  {
  }

  ghost predicate ClockFailed(states: seq<State>, actions: seq<Action>, j: nat)
    requires |states| == |actions| + 1 && j < |actions|
  {
    actions[j] == Handle(StateQueue, true) && states[j].states.inFlight.Some?
  }

  /** The state worker has stopped just when its clock has failed it before, with a request in flight. */
  lemma {:induction false} StoppedIff(cfg: Config, states: seq<State>, actions: seq<Action>, m: nat)
    requires IsRun(cfg, states, actions) && m < |states|
    ensures states[m].states.stopped <==> exists j: nat :: j < m && ClockFailed(states, actions, j)
  {
    if m > 0 {
      StoppedIff(cfg, states, actions, m - 1);
      StopStep(cfg, states[m - 1], actions[m - 1]);
      assert states[m] == Next(cfg, states[m - 1], actions[m - 1]);
      if states[m].states.stopped && !states[m - 1].states.stopped {
        assert ClockFailed(states, actions, m - 1);
      }
    }
  }

  lemma StopStep(cfg: Config, s: State, a: Action)
    requires cfg.slotsPerEpoch > 0
    ensures Next(cfg, s, a).states.stopped <==>
            s.states.stopped || (a == Handle(StateQueue, true) && s.states.inFlight.Some?)
  {
  }

  /** The clock reaches every later slot, and nothing but the clock moves. */
  lemma ClockMoves(cfg: Config, s: State, to: uint64)
    requires cfg.slotsPerEpoch > 0 && s.now <= to
    ensures Next(cfg, s, Tick(to)) == State(to, s.states, s.blocks, s.handlers)
  {
  }

  // The order of a handler's sends

  /** With both features on, each slot goes to the state queue first and then to the block queue. */
  lemma {:induction false} ProgramOrder(cfg: Config, slot: uint64, head: uint64, i: nat)
    requires cfg.fetchStates && cfg.fetchBlocks && slot <= head && i < head - slot
    ensures var sends := ReorgSends(cfg, slot, head);
            && |sends| == 2 * (head - slot)
            && sends[2 * i] == Send(StateQueue, slot + i) && sends[2 * i + 1] == Send(BlockQueue, slot + i)
    ensures SlotSends(cfg, slot) == [Send(StateQueue, slot), Send(BlockQueue, slot)]
    decreases head - slot
  {
    if i > 0 {
      ProgramOrder(cfg, Add(slot, 1), head, i - 1);
    } else if slot + 1 < head {
      ProgramOrder(cfg, Add(slot, 1), head, 0);
    } else {
      assert ReorgSends(cfg, Add(slot, 1), head) == [];
    }
  }

  ghost predicate IsSuffix<T>(s: seq<T>, t: seq<T>) {
    |s| <= |t| && s == t[|t| - |s|..]
  }

  /** Handlers work through their programs in order: what remains is always the rest of the program. */
  lemma {:induction false} RemainingIsTheRest(cfg: Config, states: seq<State>, actions: seq<Action>, m: nat, id: nat)
    requires IsRun(cfg, states, actions) && m < |states| && id in states[m].handlers
    ensures IsSuffix(states[m].handlers[id].remaining, Program(cfg, states[m].handlers[id].origin))
  {
    if m > 0 {
      var s, a := states[m - 1], actions[m - 1];
      assert states[m] == Next(cfg, s, a);
      if id in s.handlers {
        RemainingIsTheRest(cfg, states, actions, m - 1, id);
        RestStep(cfg, s, a, id);
      }
    }
  }

  lemma RestStep(cfg: Config, s: State, a: Action, id: nat)
    requires cfg.slotsPerEpoch > 0 && id in s.handlers
    ensures var h, s' := s.handlers[id], Next(cfg, s, a);
            && id in s'.handlers && s'.handlers[id].origin == h.origin
            && (s'.handlers[id].remaining == h.remaining ||
                (h.remaining != [] && s'.handlers[id].remaining == h.remaining[1..]))
  {
  }

  // Freshness

  /** Nothing enqueued so far, and nothing still to be sent, lies ahead of the clock. */
  ghost predicate NotAhead(s: State) {
    && SentNotAhead(s.states.sent, s.now)
    && SentNotAhead(s.blocks.sent, s.now)
    && forall id :: id in s.handlers ==> SendsNotAhead(s.handlers[id].remaining, s.now)
  }

  ghost predicate SentNotAhead(sent: seq<Item>, now: uint64) {
    forall i :: 0 <= i < |sent| ==> sent[i].slot <= now
  }

  ghost predicate SendsNotAhead(sends: seq<Send>, now: uint64) {
    forall i :: 0 <= i < |sends| ==> sends[i].slot <= now
  }

  lemma {:induction false} ReorgSendsNotAhead(cfg: Config, slot: uint64, head: uint64)
    ensures SendsNotAhead(ReorgSends(cfg, slot, head), head)
    decreases head - slot
  {
    if slot < head {
      ReorgSendsNotAhead(cfg, Add(slot, 1), head);
    }
  }

  lemma NextNotAhead(cfg: Config, s: State, a: Action)
    requires cfg.slotsPerEpoch > 0 && cfg.tolerance <= s.now && NotAhead(s)
    ensures NotAhead(Next(cfg, s, a)) && cfg.tolerance <= Next(cfg, s, a).now
  {
    match a
    case OnBlock(id, slot) =>
      GateAccepts(s.now, slot, cfg.tolerance);
      assert slot <= s.now ==> SendsNotAhead(SlotSends(cfg, slot), s.now);
    case OnReorg(id, slot) => ReorgSendsNotAhead(cfg, slot, s.now);
    case _ =>
  }

  lemma {:induction false} NeverAhead(cfg: Config, states: seq<State>, actions: seq<Action>, m: nat)
    requires IsRun(cfg, states, actions) && m < |states| && cfg.tolerance <= states[0].now
    ensures NotAhead(states[m]) && cfg.tolerance <= states[m].now
  {
    if m > 0 {
      NeverAhead(cfg, states, actions, m - 1);
      NextNotAhead(cfg, states[m - 1], actions[m - 1]);
    }
  }

  /**
   In a run that starts past `tolerance`, every request the state worker decides about has
   its epoch at or before the clock's, so the unsigned age is the true one: the state is
   fetched exactly when its age is within the threshold.
   */
  lemma WorkerFetchesByTrueAge(cfg: Config, states: seq<State>, actions: seq<Action>, m: nat, clockError: bool)
    requires IsRun(cfg, states, actions) && m < |actions| && cfg.tolerance <= states[0].now
    requires actions[m] == Handle(StateQueue, clockError)
    requires |states[m + 1].states.handled| > |states[m].states.handled|
    ensures var done := states[m + 1].states.handled[|states[m].states.handled|];
            var age := done.at / cfg.slotsPerEpoch - done.item.slot / cfg.slotsPerEpoch;
            && done.item == states[m].states.inFlight.value && done.at == states[m].now
            && 0 <= age
            && (done.fetched <==> age <= cfg.threshold)
  {
    NeverAhead(cfg, states, actions, m);
    QueueConservation(cfg, states, actions, m, StateQueue);
    var c := states[m].states;
    assert c.sent[|ItemsOf(c.handled)|] == c.inFlight.value;
    assert Chan(states[m], StateQueue) == c;
    TooOldIff(states[m].now, c.inFlight.value.slot, cfg.slotsPerEpoch, cfg.threshold);
  }

  /** Nothing was sent and no handler has anything to send. */
  ghost predicate NothingSent(s: State) {
    s.states.sent == [] && s.blocks.sent == [] && forall id :: id in s.handlers ==> s.handlers[id].remaining == []
  }

  lemma {:induction false} NoReorgSends(cfg: Config, slot: uint64, head: uint64)
    requires !cfg.fetchStates && !cfg.fetchBlocks
    ensures ReorgSends(cfg, slot, head) == []
    decreases head - slot
  {
    if slot < head {
      NoReorgSends(cfg, Add(slot, 1), head);
    }
  }

  lemma {:induction false} DisabledSendsNothing(cfg: Config, states: seq<State>, actions: seq<Action>, m: nat)
    requires IsRun(cfg, states, actions) && m < |states| && !cfg.fetchStates && !cfg.fetchBlocks
    ensures NothingSent(states[m])
  {
    if m > 0 {
      DisabledSendsNothing(cfg, states, actions, m - 1);
      var s, a := states[m - 1], actions[m - 1];
      assert states[m] == Next(cfg, s, a);
      if a.OnReorg? {
        NoReorgSends(cfg, a.slot, s.now);
      }
    }
  }

  /** Below the tolerance, the last uint64 slot gets through the gate. */
  lemma LastSlotIsAhead(cfg: Config, now: uint64) returns (states: seq<State>, actions: seq<Action>)
    requires cfg.slotsPerEpoch > 0 && now < cfg.tolerance && (cfg.fetchStates || cfg.fetchBlocks)
    ensures IsRun(cfg, states, actions) && states[0].now == now && !NotAhead(states[|actions|])
  {
    var start := State(now, EMPTY, EMPTY, map[]);
    var event := OnBlock(0, TWO_64 - 1);
    var s := Next(cfg, start, event);
    GateAccepts(now, TWO_64 - 1, cfg.tolerance);
    assert s.handlers[0].remaining[0].slot > now;
    states, actions := [start, s], [event];
  }

  /**
   The bound on the start is exact: in all runs from `now` the clock stays ahead of every
   request just when `now` is past `tolerance`, or the agent fetches neither states nor blocks.
   */
  lemma NeverAheadIff(cfg: Config, now: uint64)
    requires cfg.slotsPerEpoch > 0
    ensures cfg.tolerance <= now || !(cfg.fetchStates || cfg.fetchBlocks) <==>
            forall states: seq<State>, actions: seq<Action> :: IsRun(cfg, states, actions) && states[0].now == now ==>
              NotAhead(states[|actions|])
  {
    if cfg.tolerance <= now || !(cfg.fetchStates || cfg.fetchBlocks) {
      forall states: seq<State>, actions: seq<Action> | IsRun(cfg, states, actions) && states[0].now == now
        ensures NotAhead(states[|actions|])
      {
        if cfg.tolerance <= now {
          NeverAhead(cfg, states, actions, |actions|);
        } else {
          DisabledSendsNothing(cfg, states, actions, |actions|);
        }
      }
    } else {
      var states, actions := LastSlotIsAhead(cfg, now);
    }
  }

  /** One of the agent's queues with its worker, as the enqueue and process functions change it. */
  class AgentQueue {
    const queue: Queue
    const cfg: Config
    var channel: Channel

    ghost predicate Valid()
      reads this
    {
      cfg.slotsPerEpoch > 0 && Conserved(channel)
    }

    constructor (queue: Queue, cfg: Config)
      requires cfg.slotsPerEpoch > 0
      ensures Valid() && channel == EMPTY && this.queue == queue && this.cfg == cfg
    {
      this.queue := queue;
      this.cfg := cfg;
      channel := EMPTY;
    }

    /** A send on a full channel blocks: `sent` is false and the handler has to come back. */
    method Enqueue(item: Item) returns (sent: bool)
      requires Valid()
      modifies this
      ensures Valid()
      ensures sent <==> Enabled(cfg, queue) && |old(channel).pending| < 1000
      ensures !sent ==> channel == old(channel)
      ensures sent ==>
                && channel.sent == old(channel).sent + [item] && channel.pending == old(channel).pending + [item]
                && channel == old(channel).(sent := channel.sent, pending := channel.pending)
    {
      if !Enabled(cfg, queue) || |channel.pending| >= CAPACITY {
        return false;
      }
      PushConserves(channel, item);
      channel := channel.(sent := channel.sent + [item], pending := channel.pending + [item]);
      return true;
    }

    /** One turn of the worker's range loop. */
    method ProcessNext(now: uint64, clockError: bool)
      requires Valid() && CanReceive(channel)
      modifies this
      ensures Valid()
      ensures channel == Finish(cfg, queue, Receive(old(channel)), now, clockError)
      ensures channel.sent == old(channel).sent && channel.pending == old(channel).pending[1..]
      ensures queue == StateQueue && clockError ==>
                && channel.stopped && channel.inFlight == Some(old(channel).pending[0])
                && channel.handled == old(channel).handled
      ensures queue == BlockQueue || !clockError ==>
                && !channel.stopped && channel.inFlight.None?
                && |channel.handled| == |old(channel).handled| + 1
                && channel.handled[..|old(channel).handled|] == old(channel).handled
                && channel.handled[|old(channel).handled|].item == old(channel).pending[0]
    {
      ReceiveConserves(channel);
      FinishConserves(cfg, queue, Receive(channel), now, clockError);
      var request := channel.pending[0];
      channel := channel.(inFlight := Some(request), pending := channel.pending[1..]);
      if queue == StateQueue {
        if clockError {
          channel := channel.(stopped := true);
          return;
        }
      }
      var fetched := Fetches(cfg, queue, request.slot, now);
      channel := channel.(inFlight := None, handled := channel.handled + [Handled(request, fetched, now)]);
    }
  }
}
