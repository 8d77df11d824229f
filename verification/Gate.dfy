/** Who goes upstream next: a bounded number of places, and three queues by priority.

    The locked sections of `enter`, `remove` and `leave` are the atomic steps. A caller
    that is cancelled while a place is being handed to it must give the place back, or
    the queue loses it for good. */
module Gate {
  type Caller = nat

  /** Where a caller stands: in a queue, with the ticket of its arrival; handed a place
      it has not seen yet; holding one; owing one back because its context died as it
      was handed over; or gone. */
  datatype Standing = Waiting(priority: nat, ticket: nat) | Granted | Holding | Owing | Gone

  datatype State = State(
    free: nat,
    queues: seq<seq<Caller>>,
    callers: map<Caller, Standing>,
    tickets: nat)

  datatype Event =
    | Enter(who: Caller, priority: int)
    | See(who: Caller)
    | GiveUp(who: Caller)
    | GiveBack(who: Caller)
    | Leave(who: Caller)

  const QUEUES := 3

  /** The least important queue takes whoever names none. */
  const BROWSE := 2

  function Normal(priority: int): nat {
    if priority < 0 || priority >= QUEUES then BROWSE else priority
  }

  function Start(parallel: int): State {
    State(if parallel < 1 then 1 else parallel, [[], [], []], map[], 0)
  }

  // ---------- the locked sections ----------

  /** The most important queue that has anybody in it. */
  function Foremost(queues: seq<seq<Caller>>): (p: nat)
    ensures p <= |queues|
    ensures forall q :: 0 <= q < p ==> queues[q] == []
    ensures p < |queues| ==> queues[p] != []
  {
    if queues == [] || queues[0] != [] then 0 else 1 + Foremost(queues[1..])
  }

  function Without(queue: seq<Caller>, who: Caller): seq<Caller> {
    if queue == [] then [] else if queue[0] == who then queue[1..] else [queue[0]] + Without(queue[1..], who)
  }

  /** A place is given up: to the head of the foremost queue, or back to the free ones. */
  function Released(s: State): State {
    var p := Foremost(s.queues);
    if p == |s.queues| then s.(free := s.free + 1)
    else
      var next := s.queues[p][0];
      s.(queues := s.queues[p := s.queues[p][1..]], callers := s.callers[next := Granted])
  }

  lemma ForemostIs(queues: seq<seq<Caller>>, p: nat)
    requires p < |queues| && queues[p] != [] && forall q :: 0 <= q < p ==> queues[q] == []
    ensures Foremost(queues) == p
  {
  }

  // ---------- the steps ----------

  /** What one event makes of the gate and its callers; an event that cannot happen
      where the caller stands changes nothing. */
  function Step(s: State, e: Event): State
    requires |s.queues| == QUEUES
  {
    match e
    case Enter(who, priority) =>
      var p := Normal(priority);
      if who in s.callers then s
      else if s.free > 0 then s.(free := s.free - 1, callers := s.callers[who := Holding])
      else s.(queues := s.queues[p := s.queues[p] + [who]], callers := s.callers[who := Waiting(p, s.tickets)],
              tickets := s.tickets + 1)
    case See(who) =>
      if who in s.callers && s.callers[who].Granted? then s.(callers := s.callers[who := Holding]) else s
    case GiveUp(who) =>
      if who !in s.callers then s
      else match s.callers[who] {
        case Waiting(p, _) =>
          if p >= QUEUES then s
          else if who in s.queues[p]
          then s.(queues := s.queues[p := Without(s.queues[p], who)], callers := s.callers[who := Gone])
          else s.(callers := s.callers[who := Owing])
        case Granted => s.(callers := s.callers[who := Owing])
        case _ => s
      }
    case GiveBack(who) =>
      if who in s.callers && s.callers[who].Owing? then Released(s.(callers := s.callers[who := Gone])) else s
    case Leave(who) =>
      if who in s.callers && s.callers[who].Holding? then Released(s.(callers := s.callers[who := Gone])) else s
  }

  /** Whoever has a place: held, handed over unseen, or owed back. */
  function Placed(s: State): set<Caller> {
    set who | who in s.callers && (s.callers[who].Granted? || s.callers[who].Holding? || s.callers[who].Owing?)
  }

  predicate WaitsAt(s: State, who: Caller, p: nat) {
    who in s.callers && s.callers[who].Waiting? && s.callers[who].priority == p
  }

  function Ticket(s: State, who: Caller): nat {
    if who in s.callers && s.callers[who].Waiting? then s.callers[who].ticket else 0
  }

  /** In the order of these tickets, nobody twice. */
  ghost predicate Ordered(queue: seq<Caller>, ticket: Caller -> nat) {
    queue == [] || ((forall x :: x in queue[1..] ==> ticket(queue[0]) < ticket(x)) && Ordered(queue[1..], ticket))
  }

  lemma {:induction false} OrderedAppend(queue: seq<Caller>, last: Caller, ticket: Caller -> nat)
    requires Ordered(queue, ticket) && forall x :: x in queue ==> ticket(x) < ticket(last)
    ensures Ordered(queue + [last], ticket)
  {
    if queue == [] {
    } else {
      assert (queue + [last])[1..] == queue[1..] + [last];
      OrderedAppend(queue[1..], last, ticket);
    }
  }

  lemma {:induction false} SameTicketsSameOrder(queue: seq<Caller>, ticket: Caller -> nat, ticket': Caller -> nat)
    requires Ordered(queue, ticket) && forall x :: x in queue ==> ticket(x) == ticket'(x)
    ensures Ordered(queue, ticket')
  {
    if queue == [] {
    } else {
      SameTicketsSameOrder(queue[1..], ticket, ticket');
    }
  }

  ghost function Tickets(s: State): Caller -> nat {
    who => Ticket(s, who)
  }

  /** The queue of a priority holds exactly its waiters, in the order they arrived. */
  ghost predicate Queued(s: State, p: nat)
    requires p < |s.queues|
  {
    && (forall who :: who in s.queues[p] <==> WaitsAt(s, who, p))
    && Ordered(s.queues[p], Tickets(s))
  }

  /** What every interleaving keeps. */
  ghost predicate Inv(s: State, parallel: nat) {
    && |s.queues| == QUEUES
    && s.free + |Placed(s)| == parallel
    && (s.free > 0 ==> forall p :: 0 <= p < QUEUES ==> s.queues[p] == [])
    && (forall p :: 0 <= p < QUEUES ==> Queued(s, p))
    && (forall who :: who in s.callers && s.callers[who].Waiting? ==>
          s.callers[who].priority < QUEUES && s.callers[who].ticket < s.tickets)
  }

  // ---------- every step keeps it ----------

  lemma {:induction false} WithoutKeepsOrder(queue: seq<Caller>, who: Caller, ticket: Caller -> nat)
    requires Ordered(queue, ticket)
    ensures forall x :: x in Without(queue, who) <==> x in queue && x != who
    ensures Ordered(Without(queue, who), ticket)
  {
    if queue == [] {
    } else {
      WithoutKeepsOrder(queue[1..], who, ticket);
      assert queue == [queue[0]] + queue[1..];
      if queue[0] != who {
        assert Without(queue, who)[1..] == Without(queue[1..], who);
      }
    }
  }

  /** A queue nobody joined or left is as it was, whoever else moved. */
  lemma QueueUntouched(s: State, t: State, p: nat, who: Caller)
    requires p < |s.queues| == |t.queues| && Queued(s, p) && t.queues[p] == s.queues[p]
    requires forall x :: x != who ==> (x in t.callers <==> x in s.callers) && (x in s.callers ==> t.callers[x] == s.callers[x])
    requires !WaitsAt(s, who, p) && !WaitsAt(t, who, p)
    ensures Queued(t, p)
  {
    assert who !in s.queues[p];
    SameTicketsSameOrder(s.queues[p], Tickets(s), Tickets(t));
  }

  lemma GiveUpKeepsInv(s: State, who: Caller, parallel: nat)
    requires Inv(s, parallel) && who in s.callers
    ensures Inv(Step(s, GiveUp(who)), parallel)
  {
    var t := Step(s, GiveUp(who));
    if s.callers[who].Waiting? {
      var p := s.callers[who].priority;
      assert Queued(s, p) && WaitsAt(s, who, p);
      WithoutKeepsOrder(s.queues[p], who, Tickets(s));
      assert Placed(t) == Placed(s);
      SameTicketsSameOrder(t.queues[p], Tickets(s), Tickets(t));
      assert Queued(t, p);
    } else if s.callers[who].Granted? {
      assert Placed(t) == Placed(s);
    }
    forall q | 0 <= q < QUEUES ensures Queued(t, q) {
      assert Queued(s, q);
      if !WaitsAt(s, who, q) {
        QueueUntouched(s, t, q, who);
      }
    }
  }

  /** Nobody gains or loses a place by being handed one that was given up. */
  lemma ReleaseKeepsInv(s: State, who: Caller, parallel: nat)
    requires Inv(s, parallel) && who in s.callers && (s.callers[who].Holding? || s.callers[who].Owing?)
    ensures Inv(Released(s.(callers := s.callers[who := Gone])), parallel)
  {
    var gone := s.(callers := s.callers[who := Gone]);
    assert who in Placed(s) && Placed(gone) == Placed(s) - {who};
    forall q | 0 <= q < QUEUES ensures Queued(gone, q) {
      assert Queued(s, q);
      QueueUntouched(s, gone, q, who);
    }
    HandingOver(gone, parallel);
  }

  lemma HandingOver(s: State, parallel: nat)
    requires |s.queues| == QUEUES && s.free + |Placed(s)| + 1 == parallel
    requires s.free > 0 ==> forall p :: 0 <= p < QUEUES ==> s.queues[p] == []
    requires forall p :: 0 <= p < QUEUES ==> Queued(s, p)
    requires forall who :: who in s.callers && s.callers[who].Waiting? ==>
                             s.callers[who].priority < QUEUES && s.callers[who].ticket < s.tickets
    ensures Inv(Released(s), parallel)
  {
    var t, p := Released(s), Foremost(s.queues);
    if p == |s.queues| {
      assert Placed(t) == Placed(s);
      forall q | 0 <= q < QUEUES ensures Queued(t, q) {
        assert Queued(s, q);
        SameTicketsSameOrder(s.queues[q], Tickets(s), Tickets(t));
      }
    } else {
      var next, rest := s.queues[p][0], s.queues[p][1..];
      assert Queued(s, p) && next in s.queues[p] && WaitsAt(s, next, p);
      assert Placed(t) == Placed(s) + {next};
      HeadLeaves(s, t, p);
      forall q | 0 <= q < QUEUES && q != p ensures Queued(t, q) {
        assert Queued(s, q);
        QueueUntouched(s, t, q, next);
      }
    }
  }

  lemma HeadLeaves(s: State, t: State, p: nat)
    requires p < |s.queues| && Queued(s, p) && s.queues[p] != []
    requires t == s.(queues := s.queues[p := s.queues[p][1..]], callers := s.callers[s.queues[p][0] := Granted])
    ensures Queued(t, p)
  {
    var queue := s.queues[p];
    assert queue == [queue[0]] + queue[1..];
    forall x | x in queue[1..] ensures x != queue[0] {
      assert Tickets(s)(queue[0]) < Tickets(s)(x);
    }
    SameTicketsSameOrder(queue[1..], Tickets(s), Tickets(t));
    forall x ensures x in queue[1..] <==> WaitsAt(t, x, p) {
      assert x in queue <==> x == queue[0] || x in queue[1..];
    }
  }

  lemma TailJoins(s: State, t: State, p: nat, who: Caller)
    requires p < |s.queues| && Queued(s, p) && who !in s.callers
    requires forall x :: WaitsAt(s, x, p) ==> s.callers[x].ticket < s.tickets
    requires t.queues == s.queues[p := s.queues[p] + [who]] && t.callers == s.callers[who := Waiting(p, s.tickets)]
    ensures Queued(t, p)
  {
    forall x | x in s.queues[p] ensures Ticket(t, x) == Ticket(s, x) < s.tickets {
      assert WaitsAt(s, x, p);
    }
    SameTicketsSameOrder(s.queues[p], Tickets(s), Tickets(t));
    OrderedAppend(s.queues[p], who, Tickets(t));
  }

  lemma EnterKeepsInv(s: State, who: Caller, priority: int, parallel: nat)
    requires Inv(s, parallel)
    ensures Inv(Step(s, Enter(who, priority)), parallel)
  {
    hide Queued;
    if who !in s.callers {
      var t := Step(s, Enter(who, priority));
      EnterPlaces(s, t, who, Normal(priority));
      EnterQueues(s, t, who, Normal(priority));
    }
  }

  /** The state after a caller entered: with a place, or in a queue. */
  ghost predicate Entered(s: State, t: State, who: Caller, p: nat)
    requires |s.queues| == QUEUES && p < QUEUES
  {
    t == if s.free > 0 then s.(free := s.free - 1, callers := s.callers[who := Holding])
         else s.(queues := s.queues[p := s.queues[p] + [who]], callers := s.callers[who := Waiting(p, s.tickets)],
                 tickets := s.tickets + 1)
  }

  lemma EnterPlaces(s: State, t: State, who: Caller, p: nat)
    requires |s.queues| == QUEUES && p < QUEUES && who !in s.callers && Entered(s, t, who, p)
    ensures t.free + |Placed(t)| == s.free + |Placed(s)|
  {
    assert Placed(t) == if s.free > 0 then Placed(s) + {who} else Placed(s);
  }

  lemma EnterQueues(s: State, t: State, who: Caller, p: nat)
    requires |s.queues| == QUEUES && p < QUEUES && who !in s.callers && Entered(s, t, who, p)
    requires forall q :: 0 <= q < QUEUES ==> Queued(s, q)
    requires forall x :: x in s.callers && s.callers[x].Waiting? ==> s.callers[x].ticket < s.tickets
    ensures forall q :: 0 <= q < QUEUES ==> Queued(t, q)
  {
    hide Queued;
    forall q | 0 <= q < QUEUES ensures Queued(t, q) {
      assert Queued(s, q);
      if s.free == 0 && q == p {
        TailJoins(s, t, p, who);
      } else {
        QueueUntouched(s, t, q, who);
      }
    }
  }

  lemma SeeKeepsInv(s: State, who: Caller, parallel: nat)
    requires Inv(s, parallel)
    ensures Inv(Step(s, See(who)), parallel)
  {
    var t := Step(s, See(who));
    if t != s {
      assert Placed(t) == Placed(s);
      forall q | 0 <= q < QUEUES ensures Queued(t, q) {
        assert Queued(s, q);
        QueueUntouched(s, t, q, who);
      }
    }
  }

  lemma StepKeepsInv(s: State, e: Event, parallel: nat)
    requires Inv(s, parallel)
    ensures Inv(Step(s, e), parallel)
  {
    match e
    case Enter(who, priority) => EnterKeepsInv(s, who, priority, parallel);
    case See(who) => SeeKeepsInv(s, who, parallel);
    case GiveUp(who) => if who in s.callers { GiveUpKeepsInv(s, who, parallel); }
    case GiveBack(who) => if who in s.callers && s.callers[who].Owing? { ReleaseKeepsInv(s, who, parallel); }
    case Leave(who) => if who in s.callers && s.callers[who].Holding? { ReleaseKeepsInv(s, who, parallel); }
  }

  function Run(s: State, events: seq<Event>): (t: State)
    requires |s.queues| == QUEUES
    ensures |t.queues| == QUEUES
  {
    if events == [] then s else Step(Run(s, events[..|events| - 1]), events[|events| - 1])
  }

  /** Under every interleaving no place is lost and none is invented: the free ones and
      those held, handed over unseen or owed back are always exactly as many as the gate
      has; and while one is free nobody waits. */
  lemma {:induction false} EveryInterleavingKeepsThePlaces(parallel: int, events: seq<Event>)
    ensures Inv(Run(Start(parallel), events), Start(parallel).free)
  {
    if events == [] {
      assert Placed(Start(parallel)) == {};
    } else {
      EveryInterleavingKeepsThePlaces(parallel, events[..|events| - 1]);
      StepKeepsInv(Run(Start(parallel), events[..|events| - 1]), events[|events| - 1], Start(parallel).free);
    }
  }

  /** When everybody has gone every place is free again, whatever races there were. */
  lemma NothingIsLost(parallel: int, events: seq<Event>)
    requires forall who :: who in Run(Start(parallel), events).callers ==> Run(Start(parallel), events).callers[who].Gone?
    ensures Run(Start(parallel), events).free == Start(parallel).free
  {
    EveryInterleavingKeepsThePlaces(parallel, events);
    assert Placed(Run(Start(parallel), events)) == {};
  }

  /** A place given up goes to the one waiter nobody precedes: of the most important
      priority that waits at all, the one that arrived first. */
  lemma TheFirstOfTheForemost(s: State, who: Caller, parallel: nat, other: Caller)
    requires Inv(s, parallel) && who in s.callers && (s.callers[who].Holding? || s.callers[who].Owing?)
    requires other in s.callers && s.callers[other].Waiting?
    ensures var p := Foremost(s.queues);
            && p < QUEUES
            && var next := s.queues[p][0];
            && WaitsAt(s, next, p)
            && Released(s.(callers := s.callers[who := Gone])).callers[next].Granted?
            && (next == other || p < s.callers[other].priority ||
                (p == s.callers[other].priority && Ticket(s, next) < Ticket(s, other)))
  {
    var p, q := Foremost(s.queues), s.callers[other].priority;
    assert Queued(s, q) && WaitsAt(s, other, q);
    var next := s.queues[p][0];
    assert Queued(s, p) && next in s.queues[p];
    assert s.queues[p] == [next] + s.queues[p][1..];
  }

  // ---------- the gate itself ----------

  /** The gate as the program keeps it. What the callers are about is nobody's field;
      the ghost state says it, and every method is one step of the protocol. */
  class Gate {
    var free: nat
    var queues: seq<seq<Caller>>
    ghost var world: State

    ghost predicate Valid(parallel: nat)
      reads this
    {
      free == world.free && queues == world.queues && Inv(world, parallel)
    }

    constructor (parallel: int)
      ensures world == Start(parallel) && Valid(Start(parallel).free)
    {
      free := if parallel < 1 then 1 else parallel;
      queues := [[], [], []];
      world := Start(parallel);
      assert Placed(Start(parallel)) == {};
    }

    /** The locked section of enter: a free place is taken, or the caller queues. */
    method Enter(who: Caller, priority: int, ghost parallel: nat) returns (holds: bool)
      requires Valid(parallel) && who !in world.callers
      modifies this
      ensures Valid(parallel) && world == Step(old(world), Event.Enter(who, priority))
      ensures holds == world.callers[who].Holding?
    {
      EnterKeepsInv(world, who, priority, parallel);
      var p := priority;
      if p < 0 || p > 2 {
        p := BROWSE;
      }
      world := Step(world, Event.Enter(who, priority));
      if free > 0 {
        free := free - 1;
        return true;
      }
      queues := queues[p := queues[p] + [who]];
      holds := false;
    }

    /** Takes a waiter out of its queue; true when it was no longer there. */
    method Remove(p: nat, who: Caller) returns (taken: bool)
      requires p < |queues|
      modifies this`queues
      ensures taken == (who !in old(queues)[p])
      ensures queues == old(queues)[p := Without(old(queues)[p], who)]
    {
      ghost var queue := queues[p];
      var i := 0;
      while i < |queues[p]|
        invariant i <= |queue| && queues == old(queues) && queue == queues[p]
        invariant forall j :: 0 <= j < i ==> queue[j] != who
        invariant Without(queue, who) == queue[..i] + Without(queue[i..], who)
      {
        if queues[p][i] == who {
          assert queue[i..][1..] == queue[i + 1..];
          queues := queues[p := queues[p][..i] + queues[p][i + 1..]];
          return false;
        }
        assert queue[..i + 1] == queue[..i] + [queue[i]] && queue[i..][1..] == queue[i + 1..];
        i := i + 1;
      }
      assert queue[i..] == [] && queue[..i] == queue && Without(queue, who) == queue;
      taken := true;
    }

    /** The locked section a cancelled caller goes through: it leaves the queue, or
        learns that a place was handed to it and is owed back. */
    method GiveUp(who: Caller, p: nat, ghost parallel: nat) returns (taken: bool)
      requires Valid(parallel) && p < QUEUES && who in world.callers
      requires WaitsAt(world, who, p) || world.callers[who].Granted?
      modifies this
      ensures Valid(parallel) && world == Step(old(world), Event.GiveUp(who))
      ensures taken == world.callers[who].Owing?
    {
      GiveUpKeepsInv(world, who, parallel);
      assert Queued(world, p);
      taken := Remove(p, who);
      WithoutNobody(old(queues)[p], who);
      world := Step(world, Event.GiveUp(who));
    }

    /** A place is given up, by whoever held it or owed it back. */
    method Leave(who: Caller, ghost parallel: nat)
      requires Valid(parallel) && who in world.callers
      requires world.callers[who].Holding? || world.callers[who].Owing?
      modifies this
      ensures Valid(parallel)
      ensures world == Step(old(world), if old(world).callers[who].Holding? then Event.Leave(who) else GiveBack(who))
    {
      ReleaseKeepsInv(world, who, parallel);
      world := Released(world.(callers := world.callers[who := Gone]));
      var p := 0;
      while p < 3
        invariant 0 <= p <= 3 && queues == old(queues) && free == old(free)
        invariant world == Released(old(world).(callers := old(world).callers[who := Gone]))
        invariant forall q :: 0 <= q < p ==> queues[q] == []
      {
        if queues[p] != [] {
          ForemostIs(queues, p);
          queues := queues[p := queues[p][1..]];
          return;
        }
        p := p + 1;
      }
      free := free + 1;
    }
  }

  lemma {:induction false} WithoutNobody(queue: seq<Caller>, who: Caller)
    ensures who !in queue ==> Without(queue, who) == queue
  {
    if queue == [] {
    } else {
      WithoutNobody(queue[1..], who);
    }
  }
}
