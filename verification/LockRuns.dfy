/**
 Every interleaving of lock clients.  AcquireLock is three separate steps: the cleanup,
 the reading of the clock for `expiresAt`, and the transaction; other clients and the
 clock may move in between.  The clock is shared and never goes back.
 */
module LockRuns {
  import opened Wrappers
  import opened LockTable

  datatype Phase = Begun | Swept | Stamped(expiresAt: int)

  /** An AcquireLock in progress. */
  datatype Call = Call(key: string, owner: string, ttl: int, phase: Phase)

  datatype State = State(now: int, rows: seq<Row>, calls: map<nat, Call>)

  /** What the caller hears of a database call; a lost answer reads as an error of a call that took effect. */
  datatype Reply = Answered | Failed | AnswerLost

  datatype Action =
    | Tick(to: int)
    | Begin(id: nat, key: string, owner: string, ttl: int)
    | Sweep(id: nat, reply: Reply)
    | Stamp(id: nat)
    | Commit(id: nat, reply: Reply)
    | Release(key: string, owner: string, reply: Reply)

  /** What one action does for its caller, and whether the caller knows. */
  datatype Event =
    | Quiet
    | Won(key: string, owner: string, expiresAt: int, known: bool)
    | Lost(key: string, owner: string, why: Outcome)
    | Released(key: string, owner: string, known: bool)

  predicate InPhase(calls: map<nat, Call>, id: nat, a: Action) {
    id in calls && match a
      case Sweep(_, _) => calls[id].phase.Begun?
      case Stamp(_) => calls[id].phase.Swept?
      case Commit(_, _) => calls[id].phase.Stamped?
      case _ => false
  }

  /** The bookkeeping of calls, which does not depend on how leases are stored. */
  function NextCalls(calls: map<nat, Call>, now: int, a: Action): map<nat, Call> {
    match a
    case Begin(id, key, owner, ttl) =>
      if id in calls then calls else calls[id := Call(key, owner, ttl, Begun)]
    case Sweep(id, reply) =>
      if !InPhase(calls, id, a) then calls
      else if reply != Answered then calls - {id}
      else calls[id := calls[id].(phase := Swept)]
    case Stamp(id) =>
      if InPhase(calls, id, a) then calls[id := calls[id].(phase := Stamped(now + calls[id].ttl))] else calls
    case Commit(id, _) =>
      if InPhase(calls, id, a) then calls - {id} else calls
    case _ => calls
  }

  function CommitEvent(call: Call, expiresAt: int, outcome: Outcome, reply: Reply): Event {
    if outcome == Acquired then Won(call.key, call.owner, expiresAt, reply == Answered) else Lost(call.key, call.owner, outcome)
  }

  function Next(s: State, a: Action): (State, Event) {
    var s' := s.(calls := NextCalls(s.calls, s.now, a));
    match a
    case Tick(to) => (if s.now <= to then s'.(now := to) else s', Quiet)
    case Begin(_, _, _, _) => (s', Quiet)
    case Sweep(id, reply) =>
      (if InPhase(s.calls, id, a) && reply != Failed then s'.(rows := DeleteExpired(s.rows, s.now)) else s', Quiet)
    case Stamp(_) => (s', Quiet)
    case Commit(id, reply) =>
      if !InPhase(s.calls, id, a) then (s', Quiet) else
      var call := s.calls[id];
      var (rows, outcome) := Transact(s.rows, call.key, call.owner, call.phase.expiresAt, s.now, reply == Failed);
      (s'.(rows := rows), CommitEvent(call, call.phase.expiresAt, outcome, reply))
    case Release(key, owner, reply) =>
      if reply == Failed then (s', Quiet)
      else (s'.(rows := SoftDelete(s.rows, key, owner)), Released(key, owner, reply == Answered))
  }

  // Runs

  /** A run: the states before, between and after the actions.  It starts with no rows and no calls. */
  ghost predicate IsRun(states: seq<State>, actions: seq<Action>) {
    && |states| == |actions| + 1
    && states[0].rows == [] && states[0].calls == map[]
    && forall i :: 0 <= i < |actions| ==> states[i + 1] == Next(states[i], actions[i]).0
  }

  ghost function EventAt(states: seq<State>, actions: seq<Action>, i: nat): Event
    requires |states| == |actions| + 1 && i < |actions|
  {
    Next(states[i], actions[i]).1
  }

  /** At most one row per key in every reachable state, live or soft-deleted. */
  lemma {:induction false} TableInvariant(states: seq<State>, actions: seq<Action>, m: nat)
    requires IsRun(states, actions) && m < |states|
    ensures UniqueKeys(states[m].rows)
  {
    if m > 0 {
      TableInvariant(states, actions, m - 1);
      NextKeepsUnique(states[m - 1], actions[m - 1]);
    }
  }

  lemma NextKeepsUnique(s: State, a: Action)
    requires UniqueKeys(s.rows)
    ensures UniqueKeys(Next(s, a).0.rows)
  {
    match a
    case Sweep(id, reply) => DeleteExpiredKeepsUnique(s.rows, s.now);
    case Commit(id, reply) =>
      if InPhase(s.calls, id, a) {
        var call := s.calls[id];
        TransactKeepsUnique(s.rows, call.key, call.owner, call.phase.expiresAt, s.now, reply == Failed);
      }
    case Release(key, owner, reply) => ReleaseEffect(s.rows, key, owner, key);
    case _ =>
  }

  /** No reachable transaction is ever refused by the unique index. */
  lemma UniqueIndexNeverFires(states: seq<State>, actions: seq<Action>, i: nat)
    requires IsRun(states, actions) && i < |actions|
    ensures var e := EventAt(states, actions, i); e.Lost? ==> !e.why.UniqueViolation?
  {
    TableInvariant(states, actions, i);
    if actions[i].Commit? && InPhase(states[i].calls, actions[i].id, actions[i]) {
      var call := states[i].calls[actions[i].id];
      TransactKeepsUnique(states[i].rows, call.key, call.owner, call.phase.expiresAt, states[i].now, actions[i].reply == Failed);
    }
  }

  lemma {:induction false} ClockNeverGoesBack(states: seq<State>, actions: seq<Action>, i: nat, j: nat)
    requires IsRun(states, actions) && i <= j < |states|
    ensures states[i].now <= states[j].now
    decreases j
  {
    if i < j {
      ClockNeverGoesBack(states, actions, i, j - 1);
    }
  }

  /** Where a call in progress comes from: it began, swept and stamped, in this order. */
  lemma {:induction false} CallHistory(states: seq<State>, actions: seq<Action>, m: nat, id: nat)
    returns (begin: nat, sweep: nat, stamp: nat)
    requires IsRun(states, actions) && m < |states| && id in states[m].calls
    ensures var call := states[m].calls[id];
            && begin < m && actions[begin] == Begin(id, call.key, call.owner, call.ttl)
            && (!call.phase.Begun? ==> begin < sweep < m && actions[sweep] == Sweep(id, Answered))
            && (call.phase.Stamped? ==>
                && sweep < stamp < m && actions[stamp] == Stamp(id)
                && call.phase.expiresAt == states[stamp].now + call.ttl)
  {
    var s, a := states[m - 1], actions[m - 1];
    begin, sweep, stamp := m - 1, m - 1, m - 1;
    if id in s.calls {
      var b, z, t := CallHistory(states, actions, m - 1, id);
      begin := b;
      if !s.calls[id].phase.Begun? {
        sweep := z;
      }
      if s.calls[id].phase.Stamped? {
        stamp := t;
      }
    }
  }

  /**
   Every win was begun with this key and owner, swept, and stamped before: its expiry is the
   time to live counted from the stamp, so from the win on a lease lasts at most that long.
   */
  lemma WinHistory(states: seq<State>, actions: seq<Action>, i: nat) returns (begin: nat, sweep: nat, stamp: nat, ttl: int)
    requires IsRun(states, actions) && i < |actions| && EventAt(states, actions, i).Won?
    ensures var won, id := EventAt(states, actions, i), actions[i].id;
            && begin < sweep < stamp < i
            && actions[begin] == Begin(id, won.key, won.owner, ttl)
            && actions[sweep] == Sweep(id, Answered) && actions[stamp] == Stamp(id)
            && won.expiresAt == states[stamp].now + ttl <= states[i].now + ttl
  {
    var id := actions[i].id;
    begin, sweep, stamp := CallHistory(states, actions, i, id);
    ttl := states[i].calls[id].ttl;
    ClockNeverGoesBack(states, actions, stamp, i);
  }

  // What a call does when nobody interferes

  lemma ReadyToCommit(s: State, id: nat, key: string, owner: string, ttl: int, stamped: int, now: int)
    requires id !in s.calls && s.now <= stamped <= now
    ensures var swept := Next(Next(s, Begin(id, key, owner, ttl)).0, Sweep(id, Answered)).0;
            Next(Next(Next(swept, Tick(stamped)).0, Stamp(id)).0, Tick(now)).0 ==
            State(now, DeleteExpired(s.rows, s.now), s.calls[id := Call(key, owner, ttl, Stamped(stamped + ttl))])
  {
    var begun := Next(s, Begin(id, key, owner, ttl)).0;
    assert begun == s.(calls := s.calls[id := Call(key, owner, ttl, Begun)]);
    var swept := Next(begun, Sweep(id, Answered)).0;
    assert swept.calls == s.calls[id := Call(key, owner, ttl, Swept)];
    var later := Next(Next(swept, Tick(stamped)).0, Stamp(id)).0;
    assert later.calls == s.calls[id := Call(key, owner, ttl, Stamped(stamped + ttl))];
  }

  /**
   An AcquireLock is a run: begun, swept at the current instant, stamped and committed at later
   ones, it leaves the table and the outcome of the uninterrupted acquire.
   */
  lemma AcquireIsARun(s: State, id: nat, key: string, owner: string, ttl: int, stamped: int, now: int, fails: bool)
    requires UniqueKeys(s.rows) && id !in s.calls && s.now <= stamped <= now
    ensures var swept := Next(Next(s, Begin(id, key, owner, ttl)).0, Sweep(id, Answered)).0;
            var ready := Next(Next(Next(swept, Tick(stamped)).0, Stamp(id)).0, Tick(now)).0;
            var (after, event) := Next(ready, Commit(id, if fails then Failed else Answered));
            var seen := View(s.rows, now, key);
            && after.rows == Acquire(s.rows, key, Lease(owner, stamped + ttl), s.now, now, Faults(false, fails)).0
            && after.calls == s.calls && after.now == now
            && event == (
                 if fails then Lost(key, owner, DatabaseError)
                 else if seen.Some? && seen.value.owner != owner then
                   Lost(key, owner, Held(seen.value.owner, seen.value.expiresAt))
                 else Won(key, owner, stamped + ttl, true))
  {
    var kept := DeleteExpired(s.rows, s.now);
    ReadyToCommit(s, id, key, owner, ttl, stamped, now);
    assert s.calls[id := Call(key, owner, ttl, Stamped(stamped + ttl))] - {id} == s.calls;
    DeleteExpiredKeepsUnique(s.rows, s.now);
    CleanupIsInvisible(s.rows, s.now, now, key);
    TransactEffect(kept, key, owner, stamped + ttl, now, fails, key);
  }

  /** An AcquireLock whose cleanup fails ends there: nothing is swept, and no lease is written. */
  lemma FailedCleanupIsARun(s: State, id: nat, key: string, owner: string, ttl: int)
    requires id !in s.calls
    ensures var (after, event) := Next(Next(s, Begin(id, key, owner, ttl)).0, Sweep(id, Failed));
            after == s && event == Quiet
    ensures s.rows == Acquire(s.rows, key, Lease(owner, s.now + ttl), s.now, s.now, Faults(true, false)).0
  {
    assert s.calls[id := Call(key, owner, ttl, Begun)] - {id} == s.calls;
  }

  /** A release that is not refused frees the key of its owner and of nobody else, and the owner hears of it if answered. */
  lemma ReleaseIsARun(s: State, key: string, owner: string, reply: Reply, k: string)
    requires UniqueKeys(s.rows)
    ensures var (after, event) := Next(s, Release(key, owner, reply));
            && after.now == s.now && after.calls == s.calls
            && (reply == Failed ==> after.rows == s.rows && event == Quiet)
            && (reply != Failed ==> event == Released(key, owner, reply == Answered))
            && LiveLease(after.rows, k) ==
               if reply != Failed && k == key && LiveLease(s.rows, k).Some? && LiveLease(s.rows, k).value.owner == owner
               then None else LiveLease(s.rows, k)
  {
    ReleaseEffect(s.rows, key, owner, k);
  }

  /** The clock reaches every later instant, and nothing but the clock moves. */
  lemma ClockMoves(s: State, to: int)
    requires s.now <= to
    ensures Next(s, Tick(to)).0 == State(to, s.rows, s.calls)
  {
  }

  // Refinement: the table implements a map of unexpired leases.

  datatype Leases = Leases(now: int, held: map<string, Lease>, calls: map<nat, Call>)

  /** Unexpired leases only: the abstract lock forgets a lease as soon as the clock passes it. */
  function Prune(held: map<string, Lease>, now: int): map<string, Lease> {
    map k | k in held && now <= held[k].expiresAt :: held[k]
  }

  /** The abstract lock.  It has no rows, no soft deletes and nothing to clean up. */
  function NextLeases(t: Leases, a: Action): (Leases, Event) {
    var t' := t.(calls := NextCalls(t.calls, t.now, a));
    match a
    case Tick(to) => (if t.now <= to then t'.(now := to, held := Prune(t.held, to)) else t', Quiet)
    case Commit(id, reply) =>
      if !InPhase(t.calls, id, a) then (t', Quiet) else
      var call := t.calls[id];
      var e := call.phase.expiresAt;
      if reply == Failed then (t', CommitEvent(call, e, DatabaseError, reply))
      else if call.key in t.held && t.held[call.key].owner != call.owner then
        (t', CommitEvent(call, e, Held(t.held[call.key].owner, t.held[call.key].expiresAt), reply))
      else
        (t'.(held := Prune(t.held[call.key := Lease(call.owner, e)], t.now)), CommitEvent(call, e, Acquired, reply))
    case Release(key, owner, reply) =>
      if reply == Failed then (t', Quiet)
      else
        var mine := key in t.held && t.held[key].owner == owner;
        (if mine then t'.(held := t.held - {key}) else t', Released(key, owner, reply == Answered))
    case _ => (t', Quiet)
  }

  function Abstract(s: State): Leases {
    var keys := set r | r in s.rows :: r.key;
    Leases(s.now, map k | k in keys && View(s.rows, s.now, k).Some? :: View(s.rows, s.now, k).value, s.calls)
  }

  lemma AbstractHeld(s: State, k: string)
    ensures AgreeOn(Abstract(s), s, k)
  {
    var i := IndexOfKey(s.rows, k);
    if i < |s.rows| {
      assert s.rows[i] in s.rows;
    }
  }

  /** The abstract lock `t` and the table `s` agree on key `k`. */
  ghost predicate AgreeOn(t: Leases, s: State, k: string) {
    && (k in t.held <==> View(s.rows, s.now, k).Some?)
    && (k in t.held ==> t.held[k] == View(s.rows, s.now, k).value)
  }

  lemma CommitOfOneKey(s: State, a: Action, k: string)
    requires UniqueKeys(s.rows) && a.Commit? && InPhase(s.calls, a.id, a)
    ensures AgreeOn(NextLeases(Abstract(s), a).0, Next(s, a).0, k)
    ensures NextLeases(Abstract(s), a).1 == Next(s, a).1
  {
    var call := s.calls[a.id];
    AbstractHeld(s, k);
    AbstractHeld(s, call.key);
    TransactEffect(s.rows, call.key, call.owner, call.phase.expiresAt, s.now, a.reply == Failed, k);
    TransactEffect(s.rows, call.key, call.owner, call.phase.expiresAt, s.now, a.reply == Failed, call.key);
  }

  /** What one step does to one key is what the abstract lock does to it. */
  lemma StepOfOneKey(s: State, a: Action, k: string)
    requires UniqueKeys(s.rows)
    ensures AgreeOn(NextLeases(Abstract(s), a).0, Next(s, a).0, k)
    ensures NextLeases(Abstract(s), a).1 == Next(s, a).1
  {
    AbstractHeld(s, k);
    match a
    case Sweep(id, reply) => CleanupIsInvisible(s.rows, s.now, s.now, k);
    case Commit(id, reply) =>
      if InPhase(s.calls, id, a) {
        CommitOfOneKey(s, a, k);
      }
    case Release(key, owner, reply) =>
      AbstractHeld(s, key);
      ReleaseEffect(s.rows, key, owner, k);
    case _ =>
  }

  /** A table determines its abstract lock. */
  lemma AgreementIsEquality(t: Leases, s: State)
    requires t.now == s.now && t.calls == s.calls && forall k :: AgreeOn(t, s, k)
    ensures t == Abstract(s)
  {
    var u := Abstract(s);
    forall k ensures k in t.held <==> k in u.held
             ensures k in t.held ==> t.held[k] == u.held[k]
    {
      AbstractHeld(s, k);
      assert AgreeOn(t, s, k);
    }
    assert t.held == u.held;
  }

  /** One step of the table is one step of the abstract lock, with the same visible event. */
  lemma StepRefines(s: State, a: Action)
    requires UniqueKeys(s.rows)
    ensures NextLeases(Abstract(s), a).0 == Abstract(Next(s, a).0)
    ensures NextLeases(Abstract(s), a).1 == Next(s, a).1
  {
    forall k ensures AgreeOn(NextLeases(Abstract(s), a).0, Next(s, a).0, k) {
      StepOfOneKey(s, a, k);
    }
    StepOfOneKey(s, a, "");
    AgreementIsEquality(NextLeases(Abstract(s), a).0, Next(s, a).0);
  }

  /** Refinement over whole runs: states and events agree with the abstract lock at every step. */
  lemma RunRefines(states: seq<State>, actions: seq<Action>)
    requires IsRun(states, actions)
    ensures Abstract(states[0]).held == map[]
    ensures forall i :: 0 <= i < |actions| ==>
              NextLeases(Abstract(states[i]), actions[i]) == (Abstract(states[i + 1]), EventAt(states, actions, i))
  {
    forall i | 0 <= i < |actions|
      ensures NextLeases(Abstract(states[i]), actions[i]) == (Abstract(states[i + 1]), EventAt(states, actions, i))
    {
      TableInvariant(states, actions, i);
      StepRefines(states[i], actions[i]);
    }
  }

  // Mutual exclusion, from the clients' side.

  /**
   What has become of the calls of `owner` on `key`, whether it has heard of it or not: the
   expiry of its latest win, unless it has released the key since.
   */
  ghost function Claim(states: seq<State>, actions: seq<Action>, m: nat, key: string, owner: string): Option<int>
    requires |states| == |actions| + 1 && m < |states|
  {
    if m == 0 then None
    else NextClaim(Claim(states, actions, m - 1, key, owner), EventAt(states, actions, m - 1), key, owner)
  }

  function NextClaim(claim: Option<int>, event: Event, key: string, owner: string): Option<int> {
    match event
    case Won(k, o, e, _) => if k == key && o == owner then Some(e) else claim
    case Released(k, o, _) => if k == key && o == owner then None else claim
    case _ => claim
  }

  ghost predicate Holds(s: State, key: string, owner: string, e: int) {
    View(s.rows, s.now, key) == Some(Lease(owner, e))
  }

  lemma CommitHolder(s: State, a: Action, key: string, owner: string, e: int)
    requires UniqueKeys(s.rows) && a.Commit? && InPhase(s.calls, a.id, a)
    ensures var s' := Next(s, a).0;
            var claim := if Holds(s, key, owner, e) then Some(e) else None;
            Holds(s', key, owner, e) <==> s'.now <= e && NextClaim(claim, Next(s, a).1, key, owner) == Some(e)
  {
    var call := s.calls[a.id];
    TransactEffect(s.rows, call.key, call.owner, call.phase.expiresAt, s.now, a.reply == Failed, key);
  }

  /** How one step moves the holder of a key: only wins, releases and the clock matter. */
  lemma HolderStep(s: State, a: Action, key: string, owner: string, e: int)
    requires UniqueKeys(s.rows)
    ensures var s' := Next(s, a).0;
            var claim := if Holds(s, key, owner, e) then Some(e) else None;
            Holds(s', key, owner, e) <==> s'.now <= e && NextClaim(claim, Next(s, a).1, key, owner) == Some(e)
  {
    match a
    case Sweep(id, reply) => CleanupIsInvisible(s.rows, s.now, s.now, key);
    case Commit(id, reply) =>
      if InPhase(s.calls, id, a) {
        CommitHolder(s, a, key, owner, e);
      }
    case Release(k, o, reply) => ReleaseEffect(s.rows, k, o, key);
    case _ =>
  }

  /** In every reachable state the table's holder is exactly the owner with an unexpired claim. */
  lemma {:induction false} HolderIsClaimant(states: seq<State>, actions: seq<Action>, m: nat, key: string, owner: string, e: int)
    requires IsRun(states, actions) && m < |states|
    ensures Holds(states[m], key, owner, e) <==>
            Claim(states, actions, m, key, owner) == Some(e) && states[m].now <= e
  {
    if m > 0 {
      HolderIsClaimant(states, actions, m - 1, key, owner, e);
      TableInvariant(states, actions, m - 1);
      ClockNeverGoesBack(states, actions, m - 1, m);
      HolderStep(states[m - 1], actions[m - 1], key, owner, e);
    }
  }

  /** No two owners ever hold unexpired claims on the same key. */
  lemma AtMostOneClaimant(states: seq<State>, actions: seq<Action>, m: nat, key: string, a: string, b: string)
    requires IsRun(states, actions) && m < |states|
    requires Claim(states, actions, m, key, a).Some? && states[m].now <= Claim(states, actions, m, key, a).value
    requires Claim(states, actions, m, key, b).Some? && states[m].now <= Claim(states, actions, m, key, b).value
    ensures a == b
  {
    HolderIsClaimant(states, actions, m, key, a, Claim(states, actions, m, key, a).value);
    HolderIsClaimant(states, actions, m, key, b, Claim(states, actions, m, key, b).value);
  }

  /** The owner gives the key up, or, known to it or not, shortens its lease to before `e`. */
  predicate Undermines(event: Event, key: string, owner: string, e: int) {
    match event
    case Won(k, o, f, _) => k == key && o == owner && f < e
    case Released(k, o, _) => k == key && o == owner
    case _ => false
  }

  ghost predicate Undisturbed(states: seq<State>, actions: seq<Action>, i: nat, m: nat, key: string, owner: string, e: int)
    requires |states| == |actions| + 1 && m < |states|
  {
    forall n: nat :: i < n < m ==> !Undermines(EventAt(states, actions, n), key, owner, e)
  }

  /** After a win at `i` the owner's claim reaches at least as far, until it undermines it. */
  lemma {:induction false} ClaimLasts(states: seq<State>, actions: seq<Action>, i: nat, m: nat,
                                      key: string, owner: string, e: int, known: bool)
    requires IsRun(states, actions) && i < m < |states|
    requires EventAt(states, actions, i) == Won(key, owner, e, known)
    requires Undisturbed(states, actions, i, m, key, owner, e)
    ensures var claim := Claim(states, actions, m, key, owner); claim.Some? && e <= claim.value
    decreases m
  {
    if m > i + 1 {
      assert !Undermines(EventAt(states, actions, m - 1), key, owner, e);
      ClaimLasts(states, actions, i, m - 1, key, owner, e, known);
    }
  }

  /**
   What a win is worth to its owner: until the clock passes `e` the owner holds the key, unless
   it released it since, or a later win of its own shortened the lease.  It may not have heard
   of that release or win, because an answer was lost.
   */
  lemma WinIsKept(states: seq<State>, actions: seq<Action>, i: nat, m: nat, key: string, owner: string, e: int, known: bool)
    returns (until: int)
    requires IsRun(states, actions) && i < m < |states| && states[m].now <= e
    requires EventAt(states, actions, i) == Won(key, owner, e, known)
    requires Undisturbed(states, actions, i, m, key, owner, e)
    ensures e <= until && Holds(states[m], key, owner, until)
  {
    ClaimLasts(states, actions, i, m, key, owner, e, known);
    until := Claim(states, actions, m, key, owner).value;
    HolderIsClaimant(states, actions, m, key, owner, until);
  }

  /**
   Mutual exclusion over all runs: after A wins with expiry e, nobody else wins the key at or
   before e unless A released it or itself shortened the lease in between.
   */
  lemma MutualExclusion(states: seq<State>, actions: seq<Action>, i: nat, j: nat,
                        key: string, a: string, e: int, b: string, f: int, knownA: bool, knownB: bool)
    requires IsRun(states, actions) && i < j < |actions| && a != b
    requires EventAt(states, actions, i) == Won(key, a, e, knownA)
    requires Undisturbed(states, actions, i, j, key, a, e)
    requires EventAt(states, actions, j) == Won(key, b, f, knownB)
    ensures e < states[j].now
  {
    if states[j].now <= e {
      var until := WinIsKept(states, actions, i, j, key, a, e, knownA);
      TableInvariant(states, actions, j);
      LosesToHolder(states[j], actions[j], key, a, until);
    }
  }

  /** While the key is held, only its holder wins it. */
  lemma LosesToHolder(s: State, a: Action, key: string, holder: string, e: int)
    requires UniqueKeys(s.rows) && Holds(s, key, holder, e)
    ensures var event := Next(s, a).1; event.Won? && event.key == key ==> event.owner == holder
  {
    if a.Commit? && InPhase(s.calls, a.id, a) {
      var call := s.calls[a.id];
      TransactEffect(s.rows, call.key, call.owner, call.phase.expiresAt, s.now, a.reply == Failed, key);
    }
  }

  /**
   Liveness of one try: a transaction that reaches the database wins exactly when nobody else
   has an unexpired claim, so a released or expired key is won by whoever tries next.
   */
  lemma WinsExactlyWhenUnclaimed(states: seq<State>, actions: seq<Action>, i: nat)
    requires IsRun(states, actions) && i < |actions|
    requires actions[i].Commit? && actions[i].reply != Failed && InPhase(states[i].calls, actions[i].id, actions[i])
    ensures var call := states[i].calls[actions[i].id];
            EventAt(states, actions, i) == Won(call.key, call.owner, call.phase.expiresAt, actions[i].reply == Answered) <==>
            forall o :: o != call.owner ==>
              var claim := Claim(states, actions, i, call.key, o);
              claim.Some? ==> claim.value < states[i].now
  {
    var s := states[i];
    var call := s.calls[actions[i].id];
    TableInvariant(states, actions, i);
    TransactEffect(s.rows, call.key, call.owner, call.phase.expiresAt, s.now, false, call.key);
    var seen := View(s.rows, s.now, call.key);
    forall o | Claim(states, actions, i, call.key, o).Some? && s.now <= Claim(states, actions, i, call.key, o).value
      ensures seen == Some(Lease(o, Claim(states, actions, i, call.key, o).value))
    {
      HolderIsClaimant(states, actions, i, call.key, o, Claim(states, actions, i, call.key, o).value);
    }
    if seen.Some? {
      HolderIsClaimant(states, actions, i, call.key, seen.value.owner, seen.value.expiresAt);
    }
  }
}
