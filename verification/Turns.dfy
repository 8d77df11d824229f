/** Who owns the session's one turn: the claim on starting it, the name it gets, and a
    completion that may arrive before the name does.

    Turns are numbered as the agent makes them; zero is no turn. The locked sections of
    the harness are the atomic steps, and the agent's own moves come in between. */
module Turns {
  /** Where an opener stands: holding the claim; holding it while the agent's answer, a
      new turn's name, is on its way; having published that name; having found that the
      turn is over already; or about to let go. */
  datatype Opener =
    | Claimed(stale: nat)
    | Created(id: nat, stale: nat)
    | Published(id: nat)
    | Ending(id: nat)
    | Leaving

  /** `turn`, `opening` and `early` are the program's fields. The rest is what the agent
      and the openers are about, and what happened so far: the turns made, those over,
      those whose completion was delivered, and those a new name was written over. */
  datatype State = State(
    turn: nat,
    opening: bool,
    early: nat,
    created: nat,
    over: set<nat>,
    delivered: set<nat>,
    openers: map<nat, Opener>,
    replaced: set<nat>)

  datatype Event =
    | Claim(who: nat, stale: nat)
    | Create(who: nat)
    | Fail(who: nat)
    | Publish(who: nat)
    | Check(who: nat)
    | End(who: nat)
    | Release(who: nat)
    | AgentEnds(id: nat)
    | Deliver(id: nat)
    | DeliverUnnamed
    | Clear

  const START := State(0, false, 0, 0, {}, {}, map[], {})

  // ---------- the locked sections ----------

  predicate MayClaim(s: State, stale: nat) {
    !s.opening && (s.turn == 0 || s.turn == stale)
  }

  /** A completion arrives, named or not. */
  function Finished(s: State, id: nat): State {
    if id != 0 && id != s.turn
    then if s.opening then s.(early := id) else s
    else s.(turn := 0)
  }

  function Released(s: State, who: nat): State {
    s.(opening := false, openers := s.openers - {who})
  }

  /** One event. A caller names as stale the turn it has just failed to say something
      into, for whatever reason; completions are delivered once each, for turns that are
      over. */
  function Step(s: State, e: Event): State {
    match e
    case Claim(who, stale) =>
      if MayClaim(s, stale)
      then s.(opening := true, openers := s.openers[who := Claimed(stale)]) else s
    case Create(who) =>
      if who in s.openers && s.openers[who].Claimed?
      then s.(created := s.created + 1, openers := s.openers[who := Created(s.created + 1, s.openers[who].stale)]) else s
    case Fail(who) =>
      if who in s.openers && (s.openers[who].Claimed? || s.openers[who].Created?) then Released(s, who) else s
    case Publish(who) =>
      if who in s.openers && s.openers[who].Created?
      then s.(turn := s.openers[who].id, replaced := s.replaced + {s.turn},
              openers := s.openers[who := Published(s.openers[who].id)]) else s
    case Check(who) =>
      if who !in s.openers || !s.openers[who].Published? then s
      else if s.early == s.openers[who].id
      then s.(early := 0, openers := s.openers[who := Ending(s.openers[who].id)])
      else s.(openers := s.openers[who := Leaving])
    case End(who) =>
      if who in s.openers && s.openers[who].Ending?
      then Finished(s, s.openers[who].id).(openers := s.openers[who := Leaving]) else s
    case Release(who) =>
      if who in s.openers && s.openers[who].Leaving? then Released(s, who) else s
    case AgentEnds(id) =>
      if 0 < id <= s.created then s.(over := s.over + {id}) else s
    case Deliver(id) =>
      if id in s.over && id !in s.delivered then Finished(s, id).(delivered := s.delivered + {id}) else s
    case DeliverUnnamed => Finished(s, 0)
    case Clear => s.(turn := 0)
  }

  function Run(events: seq<Event>): State {
    if events == [] then START else Step(Run(events[..|events| - 1]), events[|events| - 1])
  }

  // ---------- whatever the order of the completions ----------

  /** The claim has one holder, and whoever holds it found no turn or the one it named;
      names are new, and a completion kept for later was really delivered. */
  ghost predicate Inv(s: State) {
    && (s.opening <==> s.openers.Keys != {})
    && (forall a, b :: a in s.openers && b in s.openers ==> a == b)
    && (forall who :: who in s.openers ==> Stands(s, s.openers[who]))
    && (forall id :: id in s.delivered ==> id in s.over)
    && (forall id :: id in s.over ==> 0 < id <= s.created)
    && s.turn <= s.created
    && (s.early == 0 || s.early in s.delivered)
  }

  ghost predicate Stands(s: State, o: Opener) {
    match o
    case Claimed(stale) => s.turn == 0 || s.turn == stale
    case Created(id, stale) => (s.turn == 0 || s.turn == stale) && id == s.created && s.turn != id && 0 < id
    case Published(id) => id == s.created && 0 < id
    case Ending(id) => id == s.created && 0 < id && id in s.delivered
    case Leaving => true
  }

  lemma StepKeepsInv(s: State, e: Event)
    requires Inv(s)
    ensures Inv(Step(s, e))
  {
    var t := Step(s, e);
    if e.Claim? && t != s {
      assert s.openers.Keys == {};
      assert e.who in t.openers.Keys;
    }
  }

  lemma {:induction false} EveryRunKeepsInv(events: seq<Event>)
    ensures Inv(Run(events))
  {
    if events == [] {
    } else {
      EveryRunKeepsInv(events[..|events| - 1]);
      StepKeepsInv(Run(events[..|events| - 1]), events[|events| - 1]);
    }
  }

  /** Turns are never doubled by openers: one holds the claim at most, and its turn's name
      goes where there was none or over the one turn it named as stale. */
  lemma OneOpener(events: seq<Event>, a: nat, b: nat)
    requires var s := Run(events); a in s.openers && b in s.openers
    ensures a == b
    ensures var s := Run(events);
            s.openers[a].Claimed? || s.openers[a].Created? ==> s.turn == 0 || s.turn == s.openers[a].stale
  {
    EveryRunKeepsInv(events);
  }

  /** Every claim names no turn, or a turn that is over when it is made. */
  predicate NamesOnlyWhatIsOver(events: seq<Event>) {
    events == [] ||
    (NamesOnlyWhatIsOver(events[..|events| - 1]) &&
     var s, e := Run(events[..|events| - 1]), events[|events| - 1];
     e.Claim? ==> e.stale == 0 || e.stale in s.over)
  }

  ghost predicate NothingLiveReplaced(s: State) {
    && (forall id :: id in s.replaced ==> id == 0 || id in s.over)
    && (forall who :: who in s.openers && (s.openers[who].Claimed? || s.openers[who].Created?) ==>
          s.openers[who].stale == 0 || s.openers[who].stale in s.over)
  }

  /** No name is ever written over a turn that is not over, as long as every caller that
      failed to reach a turn failed because it had ended. */
  lemma {:induction false} NoLiveTurnIsReplaced(events: seq<Event>)
    requires NamesOnlyWhatIsOver(events)
    ensures NothingLiveReplaced(Run(events))
  {
    if events == [] {
    } else {
      EveryRunKeepsInv(events[..|events| - 1]);
      NoLiveTurnIsReplaced(events[..|events| - 1]);
      var s, e := Run(events[..|events| - 1]), events[|events| - 1];
      if e.Publish? && e.who in s.openers && s.openers[e.who].Created? {
        assert Stands(s, s.openers[e.who]);
      }
    }
  }

  /** This event writes a name over a turn still at work. */
  predicate ReplacesALiveTurn(s: State, e: Event) {
    && e.Publish? && e.who in s.openers && s.openers[e.who].Created?
    && s.turn != 0 && s.turn !in s.over
  }

  /** Exactly when that happens: the turn its claim named as stale is still the one that
      runs, and is not over. */
  lemma ALiveTurnIsReplacedExactlyWhen(events: seq<Event>, e: Event)
    ensures var s := Run(events);
            ReplacesALiveTurn(s, e) <==>
            && e.Publish? && e.who in s.openers && s.openers[e.who].Created?
            && s.openers[e.who].stale != 0 && s.openers[e.who].stale == s.turn && s.turn !in s.over
  {
    EveryRunKeepsInv(events);
  }

  /** The guard that lets it, for a claim whose turn is made and named with nothing in
      between: one that names the running turn while it is still at work, and no other,
      leads to its replacement. The opener then writes over what ran when its claim was
      granted; `ALiveTurnIsReplacedExactlyWhen` is exact whatever comes in between. */
  lemma AClaimReplacesALiveTurnExactlyWhen(events: seq<Event>, who: nat, stale: nat)
    requires MayClaim(Run(events), stale)
    ensures var s := Run(events);
            var t := Step(Step(s, Claim(who, stale)), Create(who));
            && (ReplacesALiveTurn(t, Publish(who)) <==> stale != 0 && stale == s.turn && stale !in s.over)
            && Step(t, Publish(who)).replaced == s.replaced + {s.turn}
  {
    EveryRunKeepsInv(events);
  }

  /** A caller that failed for any other reason takes over a turn still at work. */
  lemma AnUnreachableTurnIsReplaced()
    ensures exists events, id :: id in Run(events).replaced && id != 0 && id !in Run(events).over
  {
    assert Run([]) == START;
    hide Run;
    var e, s := OneTurnWaits(7, [], START);
    e, s := Ran(e, s, Publish(7));
    e, s := Ran(e, s, Check(7));
    assert s == START.(turn := 1, opening := true, created := 1, openers := map[7 := Leaving], replaced := {0});
    e, s := Ran(e, s, Release(7));
    assert map[7 := Leaving] - {7} == map[];
    assert s == START.(turn := 1, created := 1, replaced := {0});
    e, s := Ran(e, s, Claim(8, 1));
    assert s.openers == map[8 := Claimed(1)];
    e, s := Ran(e, s, Create(8));
    assert s == START.(turn := 1, opening := true, created := 2, openers := map[8 := Created(2, 1)], replaced := {0});
    e, s := Ran(e, s, Publish(8));
    assert 1 in s.replaced && 1 !in s.over;
  }

  /** A caller claims the right, and the agent makes its turn. */
  lemma OneTurnWaits(who: nat, before: seq<Event>, s: State) returns (events: seq<Event>, t: State)
    requires Run(before) == s && s == START.(created := s.created)
    ensures Run(events) == t
    ensures t == START.(opening := true, created := s.created + 1, openers := map[who := Created(s.created + 1, 0)])
  {
    hide Run;
    events, t := Ran(before, s, Claim(who, 0));
    assert t == START.(opening := true, created := s.created, openers := map[who := Claimed(0)]);
    events, t := Ran(events, t, Create(who));
    assert t.openers == map[who := Created(s.created + 1, 0)];
  }

  lemma Ran(before: seq<Event>, s: State, e: Event) returns (events: seq<Event>, t: State)
    requires Run(before) == s
    ensures Run(events) == t == Step(s, e) && events == before + [e]
  {
    events, t := before + [e], Step(s, e);
    assert (before + [e])[..|before|] == before;
  }

  /** What takes the running turn away: a completion delivered in its own name, a new
      name over the turn its opener called stale, or one of the two that take whatever
      is there. */
  lemma OnlyItsOwnEndClearsATurn(events: seq<Event>, e: Event)
    requires Run(events).turn != 0 && Step(Run(events), e).turn != Run(events).turn
    ensures e.DeliverUnnamed? || e.Clear? || e.Publish? || Run(events).turn in Step(Run(events), e).delivered
    ensures e.Publish? ==> Run(events).turn == Run(events).openers[e.who].stale
  {
    EveryRunKeepsInv(events);
  }

  // ---------- completions that come before the name ----------

  predicate Takes(s: State, e: Event) {
    e.Deliver? && e.id in s.over && e.id !in s.delivered
  }

  /** A delivered completion has cleared its turn, or is remembered until it does. */
  ghost predicate Kept(s: State) {
    forall id :: id in s.delivered ==> ClearedOrRemembered(s, id)
  }

  ghost predicate ClearedOrRemembered(s: State, id: nat) {
    && (s.turn == id ==> exists who :: who in s.openers && Remembers(s, s.openers[who], id))
    && (forall who :: who in s.openers && Awaits(s.openers[who], id) ==> s.early == id)
  }

  predicate Awaits(o: Opener, id: nat) {
    o.Created? && o.id == id
  }

  predicate Remembers(s: State, o: Opener, id: nat) {
    (o == Published(id) && s.early == id) || o == Ending(id)
  }

  /** The opener has not looked yet whether this turn of its own is over already. */
  predicate Expects(s: State, o: Opener, id: nat) {
    Awaits(o, id) || (o == Published(id) && s.turn == id)
  }

  /** Another turn's completion comes late: it is written over the one remembered, which
      the opener has yet to look for. */
  ghost predicate Overtakes(s: State, e: Event) {
    && Takes(s, e) && s.opening && e.id != s.turn && e.id != s.early
    && exists who :: who in s.openers && Expects(s, s.openers[who], s.early)
  }

  lemma CompletionIsKeptAtFirst(s: State, e: Event, id: nat)
    requires Inv(s) && id !in s.delivered && id in Step(s, e).delivered
    ensures ClearedOrRemembered(Step(s, e), id)
  {
    assert e == Deliver(id) && Step(s, e).turn != id;
  }

  /** Exactly when a completion that was kept is lost, whatever the event and whatever came
      before: it is the one remembered, and the event overtakes it. */
  lemma LostExactlyWhenOvertaken(s: State, e: Event, id: nat)
    requires Inv(s) && id in s.delivered && ClearedOrRemembered(s, id)
    ensures ClearedOrRemembered(Step(s, e), id) <==> !(Overtakes(s, e) && id == s.early)
  {
    var t := Step(s, e);
    if Overtakes(s, e) && id == s.early {
      var who :| who in s.openers && Expects(s, s.openers[who], id);
      assert who in t.openers && t.openers[who] == s.openers[who] && t.early == e.id != id;
    } else if t.turn == id && s.turn == id {
      var who :| who in s.openers && Remembers(s, s.openers[who], id);
      assert Expects(s, s.openers[who], id) || s.openers[who] == Ending(id);
      assert who in t.openers && Remembers(t, t.openers[who], id);
    } else if t.turn == id {
      assert e.Publish? && Awaits(s.openers[e.who], id);
      assert e.who in t.openers && Remembers(t, t.openers[e.who], id);
    } else {
      forall who | who in t.openers && Awaits(t.openers[who], id) ensures t.early == id {
        assert who in s.openers && Awaits(s.openers[who], id);
        assert Expects(s, s.openers[who], id);
      }
    }
  }

  /** And then the opener's own remaining steps leave its turn standing as running, with
      nobody opening and its completion delivered. */
  lemma OvertakenStandsAsRunning(s: State, e: Event, who: nat)
    requires Inv(s) && Overtakes(s, e) && who in s.openers
    ensures var t := Step(Step(Step(Step(s, e), Publish(who)), Check(who)), Release(who));
            !t.opening && t.turn == s.early && t.turn in t.delivered
  {
    assert Expects(s, s.openers[who], s.early);
    assert s.early in s.delivered;
  }

  /** No event of the run overtakes the completion remembered. */
  ghost predicate NothingOvertaken(events: seq<Event>) {
    events == [] ||
    (NothingOvertaken(events[..|events| - 1]) && !Overtakes(Run(events[..|events| - 1]), events[|events| - 1]))
  }

  /** At every moment of the run every delivered completion is kept. */
  ghost predicate KeptThroughout(events: seq<Event>) {
    events == [] || (KeptThroughout(events[..|events| - 1]) && Kept(Run(events)))
  }

  lemma StepKeepsKept(s: State, e: Event)
    requires Inv(s) && Kept(s)
    ensures Kept(Step(s, e)) <==> !Overtakes(s, e)
  {
    hide ClearedOrRemembered;
    forall id | id in Step(s, e).delivered
      ensures ClearedOrRemembered(Step(s, e), id) <==> !(Overtakes(s, e) && id in s.delivered && id == s.early)
    {
      if id in s.delivered {
        LostExactlyWhenOvertaken(s, e, id);
      } else {
        CompletionIsKeptAtFirst(s, e, id);
      }
    }
    if Overtakes(s, e) {
      assert s.early in s.delivered by { WhatIsExpectedIsDelivered(s, e); }
    }
  }

  lemma WhatIsExpectedIsDelivered(s: State, e: Event)
    requires Inv(s) && Overtakes(s, e)
    ensures s.early in s.delivered && s.early in Step(s, e).delivered
  {
  }

  /** Over any run, in any order: every completion is kept at every moment exactly when none
      that is remembered is overtaken. */
  lemma {:induction false} KeptExactlyWhenNothingIsOvertaken(events: seq<Event>)
    ensures KeptThroughout(events) <==> NothingOvertaken(events)
    ensures KeptThroughout(events) ==> Kept(Run(events))
  {
    if events == [] {
    } else {
      hide Step, Kept, Overtakes;
      var init := events[..|events| - 1];
      EveryRunKeepsInv(init);
      KeptExactlyWhenNothingIsOvertaken(init);
      if KeptThroughout(init) {
        StepKeepsKept(Run(init), events[|events| - 1]);
      }
    }
  }

  /** Completion is never lost: once nobody is opening, no turn stands as running whose
      completion was delivered, even when it came before the name did. */
  lemma CompletionIsNeverLost(events: seq<Event>)
    requires NothingOvertaken(events) && !Run(events).opening
    ensures Run(events).turn !in Run(events).delivered
  {
    EveryRunKeepsInv(events);
    KeptExactlyWhenNothingIsOvertaken(events);
  }

  /** And while somebody is, that opener's own remaining steps clear it. */
  lemma TheOpenerClearsIt(events: seq<Event>, who: nat)
    requires NothingOvertaken(events) && who in Run(events).openers
    requires Run(events).turn in Run(events).delivered
    ensures Step(Step(Run(events), Check(who)), End(who)).turn == 0
  {
    EveryRunKeepsInv(events);
    KeptExactlyWhenNothingIsOvertaken(events);
  }

  /** Nothing is delivered after the completion of a later turn. */
  predicate InTurnOrder(events: seq<Event>) {
    events == [] ||
    (InTurnOrder(events[..|events| - 1]) &&
     var s, e := Run(events[..|events| - 1]), events[|events| - 1];
     Takes(s, e) ==> forall id :: id in s.delivered ==> id < e.id)
  }

  /** Completions that come in the order of the turns overtake nothing: an opener's turn is
      the last there is. */
  lemma {:induction false} InTurnOrderNothingIsOvertaken(events: seq<Event>)
    requires InTurnOrder(events)
    ensures NothingOvertaken(events)
  {
    if events == [] {
    } else {
      hide Step;
      EveryRunKeepsInv(events[..|events| - 1]);
      InTurnOrderNothingIsOvertaken(events[..|events| - 1]);
    }
  }

  /** One name is not enough when an older turn's completion comes late: a turn whose
      call failed after the agent had made it ends after the next one, and the next one
      stands as running though its completion was delivered. */
  lemma OutOfOrderACompletionIsLost()
    ensures exists events :: !Run(events).opening && Run(events).turn in Run(events).delivered
  {
    var e, s := TheLaterIsRemembered();
    hide Run;
    e, s := Ran(e, s, Deliver(1));
    e, s := Ran(e, s, Publish(8));
    e, s := Ran(e, s, Check(8));
    e, s := Ran(e, s, Release(8));
    assert s.turn == 2 && !s.opening;
  }

  /** Nor is it enough that the right completion is remembered when the name is published:
      the late one may come before the opener has looked. */
  lemma BetweenNamingAndLookingACompletionIsLost()
    ensures exists events, who :: var s := Run(events);
            && who in s.openers && s.openers[who].Published? && s.openers[who].id == s.turn == s.early
            && s.turn in s.delivered
            && exists e :: var t := Step(Step(Step(s, e), Check(who)), Release(who));
               !t.opening && t.turn == s.turn && t.turn in t.delivered
  {
    var e, s := TheLaterIsRemembered();
    hide Run;
    e, s := Ran(e, s, Publish(8));
    assert s.openers == map[8 := Published(2)] && s.turn == s.early == 2;
    var t := Step(Step(Step(s, Deliver(1)), Check(8)), Release(8));
    assert !t.opening && t.turn == 2 && t.turn in t.delivered;
  }

  /** One call failed after the agent had made its turn; the next awaits its own. Both turns
      are over, and the completion of the later one came first. */
  lemma TheLaterIsRemembered() returns (events: seq<Event>, s: State)
    ensures s == State(0, true, 2, 2, {1, 2}, {2}, map[8 := Created(2, 0)], {}) && Run(events) == s
  {
    assert Run([]) == START;
    hide Run;
    events, s := OneTurnWaits(7, [], START);
    events, s := Ran(events, s, Fail(7));
    assert map[7 := Created(1, 0)] - {7} == map[];
    assert s == START.(created := 1);
    events, s := OneTurnWaits(8, events, s);
    events, s := Ran(events, s, AgentEnds(1));
    events, s := Ran(events, s, AgentEnds(2));
    events, s := Ran(events, s, Deliver(2));
    assert s.over == {1, 2} && s.delivered == {2};
  }

  // ---------- the harness itself ----------

  /** The three fields under the mutex. What openers and agent are about is nobody's
      field; the ghost state says it, and every method is one locked section. */
  class Harness {
    var turnID: nat
    var opening: bool
    var finishedBeforePublished: nat
    ghost var world: State

    ghost predicate Valid()
      reads this
    {
      turnID == world.turn && opening == world.opening && finishedBeforePublished == world.early && Inv(world)
    }

    constructor ()
      ensures Valid() && world == START
    {
      turnID, opening, finishedBeforePublished, world := 0, false, 0, START;
    }

    /** Takes the right to start a turn, or reports that somebody else holds it. */
    method Claim(who: nat, stale: nat) returns (claimed: bool)
      requires Valid()
      modifies this
      ensures Valid() && world == Step(old(world), Event.Claim(who, stale))
      ensures claimed == (!old(opening) && (old(turnID) == 0 || old(turnID) == stale))
    {
      StepKeepsInv(world, Event.Claim(who, stale));
      hide Inv;
      world := Step(world, Event.Claim(who, stale));
      if opening {
        return false;
      }
      if turnID != 0 && turnID != stale {
        return false;
      }
      opening := true;
      claimed := true;
    }

    /** Gives the claim up, after a failure or with the turn named. */
    method Release(who: nat)
      requires Valid() && who in world.openers && !world.openers[who].Published? && !world.openers[who].Ending?
      modifies this
      ensures Valid() && world == Released(old(world), who) && !opening
    {
      StepKeepsInv(world, Event.Release(who));
      StepKeepsInv(world, Fail(who));
      hide Inv;
      opening := false;
      world := Released(world, who);
    }

    /** The turn has a name, and the name is everybody's. */
    method Publish(who: nat, id: nat)
      requires Valid() && who in world.openers && world.openers[who].Created? && world.openers[who].id == id
      modifies this
      ensures Valid() && world == Step(old(world), Event.Publish(who)) && turnID == id
    {
      StepKeepsInv(world, Event.Publish(who));
      hide Inv;
      turnID := id;
      world := Step(world, Event.Publish(who));
    }

    /** Whether the turn just named had ended before its name was known. */
    method EndedAlready(who: nat, id: nat) returns (ended: bool)
      requires Valid() && who in world.openers && world.openers[who] == Published(id)
      modifies this
      ensures Valid() && world == Step(old(world), Check(who)) && ended == world.openers[who].Ending?
    {
      StepKeepsInv(world, Check(who));
      hide Inv;
      world := Step(world, Check(who));
      ended := finishedBeforePublished == id;
      if ended {
        finishedBeforePublished := 0;
      }
    }

    /** A completion, from the agent or found by the opener: it clears the turn it names,
        or is remembered for a name that may be on its way. */
    method FinishTurn(id: nat, ghost e: Event)
      requires Valid() && Completes(world, id, e)
      modifies this
      ensures Valid() && world == Step(old(world), e)
      ensures id == old(turnID) ==> turnID == 0
    {
      StepKeepsInv(world, e);
      hide Inv;
      world := Step(world, e);
      if id != 0 && id != turnID {
        if opening {
          finishedBeforePublished := id;
        }
        return;
      }
      turnID := 0;
    }
  }

  predicate Completes(s: State, id: nat, e: Event) {
    match e
    case DeliverUnnamed => id == 0
    case Deliver(n) => id == n && n != 0 && Takes(s, e)
    case End(who) => who in s.openers && s.openers[who] == Ending(id)
    case _ => false
  }
}
