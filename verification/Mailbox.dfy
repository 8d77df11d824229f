/** A conversation whose other end is a client that polls.

    Turns, steers and interrupts are parked in one queue; polls take them in order or
    block on a channel that the next parking closes. Every locked section is one atomic
    step; the end of a turn is emitted after the lock is let go, so an end may be owed
    for a while. */
module Mailbox {
  datatype Kind = Turn | Steer | Interrupt

  /** `number` is the delivery's place in the order of parking: the model's own mark,
      which the program has no use for. */
  datatype Delivery = Delivery(kind: Kind, turn: nat, at: int, number: nat)

  /** A poll: about to look under the lock; blocked on a channel; answered; or gone. */
  datatype Poll = Looking | Blocked(channel: nat) | Served(delivery: Delivery) | Left

  /** Channels are numbered as they are made; every one before the current is closed. */
  datatype State = State(
    counter: nat,
    running: set<nat>,
    queue: seq<Delivery>,
    channel: nat,
    parked: nat,
    taken: seq<Delivery>,
    expired: seq<Delivery>,
    owed: multiset<nat>,
    ended: multiset<nat>,
    polls: map<nat, Poll>)

  datatype Event =
    | NewTurn(at: int)
    | NewSteer(turn: nat, at: int)
    | NewInterrupt(turn: nat, at: int)
    | Done(turn: nat)
    | Expire(now: int, stale: int)
    | EmitEnd(turn: nat)
    | Arrive(poll: nat)
    | Look(poll: nat)
    | Wake(poll: nat)
    | GiveUp(poll: nat)

  const EMPTY := State(0, {}, [], 0, 0, [], [], multiset{}, multiset{}, map[])

  // ---------- the steps ----------

  /** Adds a delivery and closes the channel the polls wait on. */
  function Parked(s: State, kind: Kind, turn: nat, at: int): State {
    s.(queue := s.queue + [Delivery(kind, turn, at, s.parked)], parked := s.parked + 1, channel := s.channel + 1)
  }

  function Kept(queue: seq<Delivery>, cutoff: int): seq<Delivery> {
    if queue == [] then []
    else Kept(queue[..|queue| - 1], cutoff) + if queue[|queue| - 1].at < cutoff then [] else [queue[|queue| - 1]]
  }

  function Dropped(queue: seq<Delivery>, cutoff: int): seq<Delivery> {
    if queue == [] then []
    else Dropped(queue[..|queue| - 1], cutoff) + if queue[|queue| - 1].at < cutoff then [queue[|queue| - 1]] else []
  }

  /** The running turns whose own delivery was dropped. */
  function Given(dropped: seq<Delivery>, running: set<nat>): set<nat> {
    set d | d in dropped && d.kind.Turn? && d.turn in running :: d.turn
  }

  function Step(s: State, e: Event): State {
    match e
    case NewTurn(at) =>
      var t := s.counter + 1;
      Parked(s, Turn, t, at).(counter := t, running := s.running + {t})
    case NewSteer(turn, at) =>
      if turn in s.running then Parked(s, Steer, turn, at) else s
    case NewInterrupt(turn, at) =>
      if turn in s.running
      then Parked(s, Interrupt, turn, at).(running := s.running - {turn}, owed := s.owed + multiset{turn})
      else s
    case Done(turn) =>
      if turn in s.running then s.(running := s.running - {turn}, owed := s.owed + multiset{turn}) else s
    case Expire(now, stale) =>
      var dropped := Dropped(s.queue, now - stale);
      var given := Given(dropped, s.running);
      s.(queue := Kept(s.queue, now - stale), expired := s.expired + dropped,
         running := s.running - given, owed := s.owed + multiset(given))
    case EmitEnd(turn) =>
      if turn in s.owed then s.(owed := s.owed - multiset{turn}, ended := s.ended + multiset{turn}) else s
    case Arrive(poll) =>
      if poll in s.polls then s else s.(polls := s.polls[poll := Looking])
    case Look(poll) =>
      if poll !in s.polls || !s.polls[poll].Looking? then s
      else if s.queue != []
      then s.(queue := s.queue[1..], taken := s.taken + [s.queue[0]], polls := s.polls[poll := Served(s.queue[0])])
      else s.(polls := s.polls[poll := Blocked(s.channel)])
    case Wake(poll) =>
      if poll in s.polls && s.polls[poll].Blocked? && Closed(s, s.polls[poll].channel)
      then s.(polls := s.polls[poll := Looking]) else s
    case GiveUp(poll) =>
      if poll in s.polls && s.polls[poll].Blocked? then s.(polls := s.polls[poll := Left]) else s
  }

  predicate Closed(s: State, channel: nat) {
    channel < s.channel
  }

  function Run(s: State, events: seq<Event>): State {
    if events == [] then s else Step(Run(s, events[..|events| - 1]), events[|events| - 1])
  }

  // ---------- what every interleaving keeps ----------

  /** How many of the deliveries carry this number. */
  function Count(ds: seq<Delivery>, n: nat): nat {
    if ds == [] then 0 else Count(ds[..|ds| - 1], n) + if ds[|ds| - 1].number == n then 1 else 0
  }

  /** In the order of parking. */
  ghost predicate InOrder(ds: seq<Delivery>) {
    forall i, j :: 0 <= i < j < |ds| ==> ds[i].number < ds[j].number
  }

  /** Every parked delivery is in exactly one place: taken, queued or expired; takes
      follow the order of parking. */
  ghost predicate Accounted(s: State) {
    && (forall n: nat :: Count(s.taken, n) + Count(s.queue, n) + Count(s.expired, n) == if n < s.parked then 1 else 0)
    && InOrder(s.taken + s.queue)
    && (forall i :: 0 <= i < |s.queue| ==> s.queue[i].number < s.parked)
    && (forall i :: 0 <= i < |s.taken| ==> s.taken[i].number < s.parked)
  }

  /** Every turn ever issued is running, or its end is owed once, or was emitted once. */
  ghost predicate EndsOnce(s: State) {
    forall t: nat ::
      (if t in s.running then 1 else 0) + s.owed[t] + s.ended[t] == if 0 < t <= s.counter then 1 else 0
  }

  /** No poll waits on an open channel while there is something to take. */
  ghost predicate NobodySleepsThrough(s: State) {
    forall p :: p in s.polls && s.polls[p].Blocked? ==>
      s.polls[p].channel <= s.channel && (s.queue != [] ==> Closed(s, s.polls[p].channel))
  }

  ghost predicate Inv(s: State) {
    Accounted(s) && EndsOnce(s) && NobodySleepsThrough(s)
  }

  lemma CountAppend(ds: seq<Delivery>, d: Delivery, n: nat)
    ensures Count(ds + [d], n) == Count(ds, n) + if d.number == n then 1 else 0
  {
    assert (ds + [d])[..|ds|] == ds;
  }

  lemma {:induction false} CountOfBoth(a: seq<Delivery>, b: seq<Delivery>, n: nat)
    ensures Count(a + b, n) == Count(a, n) + Count(b, n)
  {
    if b == [] {
      assert a + b == a;
    } else {
      assert (a + b)[..|a + b| - 1] == a + b[..|b| - 1];
      CountOfBoth(a, b[..|b| - 1], n);
    }
  }

  lemma {:induction false} SplitByAge(queue: seq<Delivery>, cutoff: int, n: nat)
    ensures Count(Kept(queue, cutoff), n) + Count(Dropped(queue, cutoff), n) == Count(queue, n)
  {
    if queue == [] {
    } else {
      var init, last := queue[..|queue| - 1], queue[|queue| - 1];
      SplitByAge(init, cutoff, n);
      CountAppend(Kept(init, cutoff), last, n);
      CountAppend(Dropped(init, cutoff), last, n);
      assert Kept(init, cutoff) + [] == Kept(init, cutoff) && Dropped(init, cutoff) + [] == Dropped(init, cutoff);
    }
  }

  lemma {:induction false} KeptInOrder(taken: seq<Delivery>, queue: seq<Delivery>, cutoff: int)
    requires InOrder(taken + queue)
    ensures InOrder(taken + Kept(queue, cutoff))
    ensures forall d :: d in Kept(queue, cutoff) ==> d in queue
  {
    if queue == [] {
    } else {
      var init, last := queue[..|queue| - 1], queue[|queue| - 1];
      assert taken + queue == (taken + init) + [last];
      assert InOrder(taken + init) by {
        assert forall i :: 0 <= i < |taken + init| ==> (taken + init)[i] == (taken + queue)[i];
      }
      KeptInOrder(taken, init, cutoff);
      AllBefore(taken, init, last);
      var kept := taken + Kept(init, cutoff);
      assert forall d :: d in kept ==> d in taken + init;
      assert taken + (Kept(init, cutoff) + [last]) == kept + [last];
      assert Kept(init, cutoff) + [] == Kept(init, cutoff);
    }
  }

  lemma AllBefore(taken: seq<Delivery>, init: seq<Delivery>, last: Delivery)
    requires InOrder((taken + init) + [last])
    ensures forall d :: d in taken + init ==> d.number < last.number
  {
    var all := (taken + init) + [last];
    forall d | d in taken + init ensures d.number < last.number {
      var i :| 0 <= i < |taken + init| && (taken + init)[i] == d;
      assert all[i] == d && all[|taken + init|] == last;
    }
  }

  lemma ParkingKeepsAccount(s: State, kind: Kind, turn: nat, at: int)
    requires Accounted(s)
    ensures Accounted(Parked(s, kind, turn, at))
  {
    var d, t := Delivery(kind, turn, at, s.parked), Parked(s, kind, turn, at);
    forall n: nat
      ensures Count(t.taken, n) + Count(t.queue, n) + Count(t.expired, n) == if n < t.parked then 1 else 0
    {
      CountAppend(s.queue, d, n);
    }
    ParkingKeepsOrder(s.taken, s.queue, d);
  }

  lemma ParkingKeepsOrder(taken: seq<Delivery>, queue: seq<Delivery>, d: Delivery)
    requires InOrder(taken + queue)
    requires forall i :: 0 <= i < |queue| ==> queue[i].number < d.number
    requires forall i :: 0 <= i < |taken| ==> taken[i].number < d.number
    ensures InOrder(taken + (queue + [d]))
  {
    var all := taken + queue;
    assert taken + (queue + [d]) == all + [d];
    assert forall i :: 0 <= i < |all| ==> all[i].number < d.number;
  }

  lemma TakingKeepsAccount(s: State, t: State)
    requires Accounted(s) && s.queue != []
    requires t.queue == s.queue[1..] && t.taken == s.taken + [s.queue[0]]
    requires t.expired == s.expired && t.parked == s.parked
    ensures Accounted(t)
  {
    var head := s.queue[0];
    assert s.queue == [head] + s.queue[1..];
    forall n: nat ensures Count(t.taken, n) + Count(t.queue, n) == Count(s.taken, n) + Count(s.queue, n) {
      CountAppend(s.taken, head, n);
      CountAppend([], head, n);
      assert [] + [head] == [head];
      CountOfBoth([head], s.queue[1..], n);
    }
    assert t.taken + t.queue == s.taken + s.queue;
  }

  lemma ExpiringKeepsAccount(s: State, t: State, cutoff: int)
    requires Accounted(s)
    requires t.queue == Kept(s.queue, cutoff) && t.expired == s.expired + Dropped(s.queue, cutoff)
    requires t.taken == s.taken && t.parked == s.parked
    ensures Accounted(t)
  {
    forall n: nat
      ensures Count(t.queue, n) + Count(t.expired, n) == Count(s.queue, n) + Count(s.expired, n)
    {
      SplitByAge(s.queue, cutoff, n);
      CountOfBoth(s.expired, Dropped(s.queue, cutoff), n);
    }
    KeptInOrder(s.taken, s.queue, cutoff);
    forall i | 0 <= i < |t.queue| ensures t.queue[i].number < t.parked {
      assert t.queue[i] in s.queue;
    }
  }

  lemma StepKeepsAccount(s: State, e: Event)
    requires Accounted(s)
    ensures Accounted(Step(s, e))
  {
    hide Accounted;
    match e
    case NewTurn(at) => ParkingKeepsAccount(s, Turn, s.counter + 1, at); SameAccount(Parked(s, Turn, s.counter + 1, at), Step(s, e));
    case NewSteer(turn, at) => ParkingKeepsAccount(s, Steer, turn, at);
    case NewInterrupt(turn, at) =>
      ParkingKeepsAccount(s, Interrupt, turn, at);
      SameAccount(if turn in s.running then Parked(s, Interrupt, turn, at) else s, Step(s, e));
    case Expire(now, stale) => ExpiringKeepsAccount(s, Step(s, e), now - stale);
    case Look(poll) =>
      if poll in s.polls && s.polls[poll].Looking? && s.queue != [] {
        TakingKeepsAccount(s, Step(s, e));
      } else {
        SameAccount(s, Step(s, e));
      }
    case _ => SameAccount(s, Step(s, e));
  }

  lemma SameAccount(s: State, t: State)
    requires Accounted(s)
    requires t.taken == s.taken && t.queue == s.queue && t.expired == s.expired && t.parked == s.parked
    ensures Accounted(t)
  {
  }

  lemma StepEndsOnce(s: State, e: Event)
    requires EndsOnce(s)
    ensures EndsOnce(Step(s, e))
  {
    var t := Step(s, e);
    assert s.counter + 1 !in s.running;
    match e
    case Expire(now, stale) =>
      var given := Given(Dropped(s.queue, now - stale), s.running);
      assert given <= s.running;
    case _ =>
  }

  lemma StepWakesEverybody(s: State, e: Event)
    requires NobodySleepsThrough(s)
    ensures NobodySleepsThrough(Step(s, e))
  {
    if e.Expire? && s.queue == [] {
      assert Step(s, e).queue == [];
    }
  }

  /** From the empty mailbox, through any interleaving of turns, steers, interrupts,
      completions, expiries and polls. */
  lemma {:induction false} EveryInterleavingKeepsInv(events: seq<Event>)
    ensures Inv(Run(EMPTY, events))
  {
    if events == [] {
    } else {
      var before, e := Run(EMPTY, events[..|events| - 1]), events[|events| - 1];
      EveryInterleavingKeepsInv(events[..|events| - 1]);
      StepKeepsAccount(before, e);
      StepEndsOnce(before, e);
      StepWakesEverybody(before, e);
    }
  }

  /** Takes follow the order of parking, and what is still queued comes after them. */
  lemma TakesFollowParking(events: seq<Event>, i: nat, j: nat)
    requires i < j < |Run(EMPTY, events).taken| + |Run(EMPTY, events).queue|
    ensures var s := Run(EMPTY, events); (s.taken + s.queue)[i].number < (s.taken + s.queue)[j].number
  {
    EveryInterleavingKeepsInv(events);
  }

  /** No lost wake-up: while something is queued, every blocked poll can wake now, and
      waking it and letting it look takes the head of the queue. */
  lemma NoLostWakeUp(events: seq<Event>, poll: nat)
    requires var s := Run(EMPTY, events); s.queue != [] && poll in s.polls && s.polls[poll].Blocked?
    ensures var s := Run(EMPTY, events);
            var t := Step(Step(s, Wake(poll)), Look(poll));
            t.polls[poll] == Served(s.queue[0]) && t.queue == s.queue[1..]
  {
    EveryInterleavingKeepsInv(events);
  }

  /** Once its end was emitted a turn never runs again, whatever comes. */
  lemma EndedTurnsStayEnded(events: seq<Event>, turn: nat)
    requires turn in Run(EMPTY, events).ended
    ensures turn !in Run(EMPTY, events).running && Run(EMPTY, events).owed[turn] == 0
    ensures Run(EMPTY, events).ended[turn] == 1
  {
    EveryInterleavingKeepsInv(events);
  }

  // ---------- the mailbox itself ----------

  class Mailbox {
    var queue: seq<Delivery>
    var running: set<nat>
    var counter: nat
    var arrived: nat
    var parked: nat
    ghost var world: State

    ghost predicate Valid()
      reads this
    {
      && world.queue == queue && world.running == running && world.counter == counter && world.channel == arrived
      && world.parked == parked && Inv(world)
    }

    constructor ()
      ensures Valid() && world == EMPTY
    {
      queue, running, counter, arrived, parked, world := [], {}, 0, 0, 0, EMPTY;
    }

    /** Adds a delivery and wakes every poll waiting. */
    method Park(kind: Kind, turn: nat, at: int)
      requires world.queue == queue && world.channel == arrived && world.parked == parked
      modifies this`queue, this`arrived, this`parked, this`world
      ensures world == Parked(old(world), kind, turn, at)
      ensures world.queue == queue && world.channel == arrived && world.parked == parked
    {
      queue := queue + [Delivery(kind, turn, at, parked)];
      arrived, parked := arrived + 1, parked + 1;
      world := Parked(world, kind, turn, at);
    }

    /** Parks a prompt for whoever polls, and returns at once. */
    method Turn(at: int) returns (turn: nat)
      requires Valid()
      modifies this
      ensures Valid() && world == Step(old(world), NewTurn(at)) && turn == counter == old(counter) + 1
    {
      KeepsInv(world, NewTurn(at));
      hide Inv;
      counter := counter + 1;
      turn := counter;
      running := running + {turn};
      Park(Kind.Turn, turn, at);
      world := world.(counter := counter, running := running);
    }

    /** Says something into a running turn; refused for any other. */
    method Steer(turn: nat, at: int) returns (accepted: bool)
      requires Valid()
      modifies this
      ensures Valid() && world == Step(old(world), NewSteer(turn, at)) && accepted == (turn in old(running))
    {
      KeepsInv(world, NewSteer(turn, at));
      hide Inv;
      if turn !in running {
        return false;
      }
      Park(Kind.Steer, turn, at);
      accepted := true;
    }

    /** The locked section: the interrupt is parked and the turn closed, without waiting
        for the client. An end is owed when the turn was running. */
    method Interrupt(turn: nat, at: int) returns (ends: bool)
      requires Valid()
      modifies this
      ensures Valid() && world == Step(old(world), NewInterrupt(turn, at)) && ends == (turn in old(running))
    {
      KeepsInv(world, NewInterrupt(turn, at));
      hide Inv;
      ends := turn in running;
      if ends {
        Park(Kind.Interrupt, turn, at);
        running := running - {turn};
        world := world.(running := running, owed := world.owed + multiset{turn});
      }
    }

    /** The client says the turn is over; saying it twice is not an error. */
    method Finish(turn: nat) returns (ends: bool)
      requires Valid()
      modifies this
      ensures Valid() && world == Step(old(world), Done(turn)) && ends == (turn in old(running))
    {
      KeepsInv(world, Done(turn));
      hide Inv;
      ends := turn in running;
      running := running - {turn};
      if ends {
        world := world.(running := running, owed := world.owed + multiset{turn});
      }
    }

    /** Drops what has waited too long and closes the turns it belonged to. */
    method GiveUpOnStale(now: int, stale: int) returns (ended: seq<nat>)
      requires Valid()
      modifies this
      ensures Valid() && world == Step(old(world), Expire(now, stale))
      ensures forall t :: t in ended <==> t in Given(Dropped(old(queue), now - stale), old(running))
      ensures Distinct(ended)
    {
      hide Inv, Step, Given, Kept, Dropped, Distinct;
      ghost var after := StaleGone(world, now, stale);
      var kept, dropped := Sift(queue, now - stale);
      var still, over := CloseTurns(dropped, running);
      queue, running, ended := kept, still, over;
      world := after;
    }

    /** The locked section of a poll: the head of the queue, or the channel to wait on. */
    method Next(poll: nat) returns (taken: seq<Delivery>, waiting: nat)
      requires Valid() && poll in world.polls && world.polls[poll].Looking?
      modifies this
      ensures Valid() && world == Step(old(world), Look(poll))
      ensures if old(queue) != [] then taken == [old(queue)[0]] else taken == [] && world.polls[poll] == Blocked(waiting)
    {
      KeepsInv(world, Look(poll));
      hide Inv;
      waiting := arrived;
      world := Step(world, Look(poll));
      if queue != [] {
        taken := [queue[0]];
        queue := queue[1..];
      } else {
        taken := [];
      }
    }
  }

  lemma StaleGone(s: State, now: int, stale: int) returns (t: State)
    requires Inv(s)
    ensures t == Step(s, Expire(now, stale)) && Inv(t)
    ensures t.queue == Kept(s.queue, now - stale)
    ensures t.running == s.running - Given(Dropped(s.queue, now - stale), s.running)
    ensures t.counter == s.counter && t.channel == s.channel && t.parked == s.parked
  {
    KeepsInv(s, Expire(now, stale));
    hide Inv, Given, Kept, Dropped;
    t := Step(s, Expire(now, stale));
  }

  predicate Distinct(turns: seq<nat>) {
    forall i, j :: 0 <= i < j < |turns| ==> turns[i] != turns[j]
  }

  /** Parts the deliveries that have waited too long from the others, in order. */
  method Sift(queue: seq<Delivery>, cutoff: int) returns (kept: seq<Delivery>, dropped: seq<Delivery>)
    ensures kept == Kept(queue, cutoff) && dropped == Dropped(queue, cutoff)
  {
    kept, dropped := [], [];
    for i := 0 to |queue|
      invariant kept == Kept(queue[..i], cutoff) && dropped == Dropped(queue[..i], cutoff)
    {
      assert queue[..i + 1][..i] == queue[..i];
      if queue[i].at < cutoff {
        dropped := dropped + [queue[i]];
      } else {
        kept := kept + [queue[i]];
      }
    }
    assert queue[..|queue|] == queue;
  }

  /** Closes the running turns whose own delivery was dropped, each once. */
  method CloseTurns(dropped: seq<Delivery>, running: set<nat>) returns (still: set<nat>, ended: seq<nat>)
    ensures still == running - Given(dropped, running)
    ensures forall t :: t in ended <==> t in Given(dropped, running)
    ensures Distinct(ended)
  {
    still, ended := running, [];
    for i := 0 to |dropped|
      invariant still == running - Given(dropped[..i], running)
      invariant forall t :: t in ended <==> t in Given(dropped[..i], running)
      invariant Distinct(ended)
    {
      hide Given;
      GivenAppend(dropped[..i], dropped[i], running);
      assert dropped[..i + 1] == dropped[..i] + [dropped[i]];
      if dropped[i].kind.Turn? && dropped[i].turn in still {
        still := still - {dropped[i].turn};
        ended := ended + [dropped[i].turn];
      }
    }
    assert dropped[..|dropped|] == dropped;
  }

  lemma KeepsInv(s: State, e: Event)
    requires Inv(s)
    ensures Inv(Step(s, e))
  {
    StepKeepsAccount(s, e);
    StepEndsOnce(s, e);
    StepWakesEverybody(s, e);
  }

  lemma GivenAppend(dropped: seq<Delivery>, d: Delivery, running: set<nat>)
    ensures Given(dropped + [d], running) ==
            Given(dropped, running) + if d.kind.Turn? && d.turn in running then {d.turn} else {}
  {
  }
}
