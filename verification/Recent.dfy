/** The broker's answer, kept for a moment: readers who arrive together make one question
    of it, an expired copy is never handed out, and a failure is never kept.

    The locked sections of the reader and of the goroutine that asks are the atomic
    steps. Instants are whole ticks from one on; zero is the instant never set. */
module Recent {
  type Money = nat

  datatype Result = Answer(money: Money) | Failure

  /** A question: out at the broker; back, with the lock still to be taken; published
      under the lock; or with its waiters told. */
  datatype Call =
    | Flying(asked: nat)
    | Returned(asked: nat, result: Result)
    | Published(asked: nat, result: Result, when: nat)
    | Told(asked: nat, result: Result, when: nat)

  /** A reader: waiting on a question since some instant, given the kept copy, answered
      by the question, or gone. */
  datatype Reader =
    | Waits(call: nat, since: nat)
    | Given(money: Money, read: nat)
    | Answered(call: nat, since: nat, result: Result, woken: nat)
    | Left

  /** `holds`, `at` and `asking` are the program's fields; zero asks nothing. */
  datatype State = State(
    holds: Money,
    at: nat,
    asking: nat,
    now: nat,
    made: nat,
    calls: map<nat, Call>,
    readers: map<nat, Reader>)

  datatype Event =
    | Tick
    | Read(who: nat)
    | Return(call: nat, result: Result)
    | Publish(call: nat)
    | Tell(call: nat)
    | Wake(who: nat)
    | Leave(who: nat)

  const START := State(0, 0, 0, 1, 0, map[], map[])

  // ---------- the steps ----------

  predicate Young(s: State, keepsFor: nat) {
    s.at != 0 && s.now - s.at < keepsFor
  }

  function Asked(s: State): State {
    s.(made := s.made + 1, asking := s.made + 1, calls := s.calls[s.made + 1 := Flying(s.now)])
  }

  function Step(s: State, e: Event, keepsFor: nat): State {
    match e
    case Tick => s.(now := s.now + 1)
    case Read(who) =>
      if who in s.readers then s
      else if Young(s, keepsFor) then s.(readers := s.readers[who := Given(s.holds, s.now)])
      else
        var t := if s.asking == 0 then Asked(s) else s;
        t.(readers := t.readers[who := Waits(t.asking, t.now)])
    case Return(call, result) =>
      if call in s.calls && s.calls[call].Flying?
      then s.(calls := s.calls[call := Returned(s.calls[call].asked, result)]) else s
    case Publish(call) =>
      if call in s.calls && s.calls[call].Returned?
      then
        var c := s.calls[call];
        var t := s.(asking := 0, calls := s.calls[call := Published(c.asked, c.result, s.now)]);
        if c.result.Answer? then t.(holds := c.result.money, at := s.now) else t
      else s
    case Tell(call) =>
      if call in s.calls && s.calls[call].Published?
      then s.(calls := s.calls[call := Told(s.calls[call].asked, s.calls[call].result, s.calls[call].when)]) else s
    case Wake(who) =>
      if who in s.readers && s.readers[who].Waits? && s.readers[who].call in s.calls && s.calls[s.readers[who].call].Told?
      then
        var r := s.readers[who];
        s.(readers := s.readers[who := Answered(r.call, r.since, s.calls[r.call].result, s.now)])
      else s
    case Leave(who) =>
      if who in s.readers && s.readers[who].Waits? then s.(readers := s.readers[who := Left]) else s
  }

  function Run(events: seq<Event>, keepsFor: nat): State {
    if events == [] then START else Step(Run(events[..|events| - 1], keepsFor), events[|events| - 1], keepsFor)
  }

  // ---------- what every interleaving keeps ----------

  predicate InFlight(c: Call) {
    c.Flying? || c.Returned?
  }

  predicate Done(c: Call) {
    c.Published? || c.Told?
  }

  /** The question kept as asked is the one in flight, and there is no other. */
  ghost predicate OneQuestion(s: State) {
    && (forall c :: c in s.calls ==> 0 < c <= s.made && s.calls[c].asked <= s.now)
    && (forall c :: c in s.calls ==> (InFlight(s.calls[c]) <==> c == s.asking))
    && (s.asking != 0 ==> s.asking in s.calls)
    && (forall c :: c in s.calls && Done(s.calls[c]) ==> s.calls[c].when <= s.now)
  }

  /** This money is what a question brought back, and it was published at this instant. */
  ghost predicate BroughtBack(s: State, money: Money, at: nat) {
    exists c :: c in s.calls && Done(s.calls[c]) && s.calls[c].result == Answer(money) && s.calls[c].when == at
  }

  ghost predicate KeepsAnswersOnly(s: State) {
    s.at == 0 || BroughtBack(s, s.holds, s.at)
  }

  /** The question was in flight when the reader came, or went out with it. */
  ghost predicate Shared(s: State, call: nat, since: nat) {
    && call in s.calls && s.calls[call].asked <= since <= s.now
    && (Done(s.calls[call]) ==> since <= s.calls[call].when)
  }

  ghost predicate Fair(s: State, r: Reader, keepsFor: nat) {
    match r
    case Waits(call, since) => Shared(s, call, since)
    case Given(money, read) => exists at: nat :: BroughtBack(s, money, at) && at <= read < at + keepsFor
    case Answered(call, since, result, woken) =>
      Shared(s, call, since) && Done(s.calls[call]) && s.calls[call].result == result && s.calls[call].when <= woken
    case Left => true
  }

  ghost predicate Inv(s: State, keepsFor: nat) {
    && OneQuestion(s)
    && KeepsAnswersOnly(s)
    && (forall who :: who in s.readers ==> Fair(s, s.readers[who], keepsFor))
  }

  /** A question that is over stays as it was, and none is forgotten. */
  ghost predicate Extends(s: State, t: State) {
    && s.now <= t.now
    && (forall c :: c in s.calls ==> c in t.calls && t.calls[c].asked == s.calls[c].asked)
    && (forall c :: c in s.calls && Done(s.calls[c]) ==>
          Done(t.calls[c]) && t.calls[c].result == s.calls[c].result && t.calls[c].when == s.calls[c].when)
    && (forall c :: c in s.calls && !Done(s.calls[c]) && Done(t.calls[c]) ==> t.calls[c].when == s.now)
  }

  lemma StepExtends(s: State, e: Event, keepsFor: nat)
    requires OneQuestion(s)
    ensures Extends(s, Step(s, e, keepsFor)) && OneQuestion(Step(s, e, keepsFor))
  {
    hide OneQuestion, Extends, Young;
    match e
    case Read(who) =>
      if who !in s.readers && !Young(s, keepsFor) && s.asking == 0 {
        AskingExtends(s);
        SameCalls(s, Asked(s), Step(s, e, keepsFor));
      } else {
        SameCalls(s, s, Step(s, e, keepsFor));
      }
    case Return(call, result) =>
      if call in s.calls && s.calls[call].Flying? {
        OneMovesOn(s, call, Returned(s.calls[call].asked, result));
      } else {
        SameCalls(s, s, s);
      }
    case Publish(call) =>
      if call in s.calls && s.calls[call].Returned? {
        PublishingExtends(s, call, keepsFor);
      } else {
        SameCalls(s, s, s);
      }
    case Tell(call) =>
      if call in s.calls && s.calls[call].Published? {
        OneMovesOn(s, call, Told(s.calls[call].asked, s.calls[call].result, s.calls[call].when));
      } else {
        SameCalls(s, s, s);
      }
    case _ => SameCalls(s, s, Step(s, e, keepsFor));
  }

  lemma SameCalls(s: State, t: State, u: State)
    requires OneQuestion(s) && (t == s || (Extends(s, t) && OneQuestion(t)))
    requires u.calls == t.calls && u.asking == t.asking && u.made == t.made && t.now <= u.now
    ensures Extends(s, u) && OneQuestion(u)
  {
  }

  lemma OneMovesOn(s: State, call: nat, c: Call)
    requires OneQuestion(s) && call in s.calls && c.asked == s.calls[call].asked
    requires if c.Returned? then s.calls[call].Flying?
             else c.Told? && s.calls[call] == Published(c.asked, c.result, c.when)
    ensures Extends(s, s.(calls := s.calls[call := c])) && OneQuestion(s.(calls := s.calls[call := c]))
  {
  }

  lemma AskingExtends(s: State)
    requires OneQuestion(s) && s.asking == 0
    ensures Extends(s, Asked(s)) && OneQuestion(Asked(s))
  {
  }

  lemma PublishingExtends(s: State, call: nat, keepsFor: nat)
    requires OneQuestion(s) && call in s.calls && s.calls[call].Returned?
    ensures Extends(s, Step(s, Publish(call), keepsFor)) && OneQuestion(Step(s, Publish(call), keepsFor))
  {
  }

  lemma BroughtBackStays(s: State, t: State, money: Money, at: nat)
    requires Extends(s, t) && BroughtBack(s, money, at)
    ensures BroughtBack(t, money, at)
  {
    var c :| c in s.calls && Done(s.calls[c]) && s.calls[c].result == Answer(money) && s.calls[c].when == at;
    assert c in t.calls && Done(t.calls[c]);
  }

  lemma FairStays(s: State, t: State, r: Reader, keepsFor: nat)
    requires Extends(s, t) && Fair(s, r, keepsFor)
    ensures Fair(t, r, keepsFor)
  {
    if r.Given? {
      hide BroughtBack, Extends;
      var at: nat :| BroughtBack(s, r.money, at) && at <= r.read < at + keepsFor;
      BroughtBackStays(s, t, r.money, at);
    }
  }

  lemma StepKeepsAnswersOnly(s: State, e: Event, keepsFor: nat)
    requires OneQuestion(s) && KeepsAnswersOnly(s)
    ensures KeepsAnswersOnly(Step(s, e, keepsFor))
  {
    var t := Step(s, e, keepsFor);
    StepExtends(s, e, keepsFor);
    if t.at == s.at && t.holds == s.holds {
      if s.at != 0 {
        BroughtBackStays(s, t, s.holds, s.at);
      }
    } else {
      assert Done(t.calls[e.call]);
    }
  }

  lemma NewcomerIsFair(s: State, e: Event, keepsFor: nat, who: nat)
    requires Inv(s, keepsFor)
    requires who in Step(s, e, keepsFor).readers && (who !in s.readers || Step(s, e, keepsFor).readers[who] != s.readers[who])
    ensures Fair(Step(s, e, keepsFor), Step(s, e, keepsFor).readers[who], keepsFor)
  {
    if e.Read? && Young(s, keepsFor) {
      var t := Step(s, e, keepsFor);
      assert t.readers[who] == Given(s.holds, s.now);
      StepExtends(s, e, keepsFor);
      BroughtBackStays(s, t, s.holds, s.at);
      ItWasPublishedBefore(s);
    } else if e.Wake? {
      assert Fair(s, s.readers[who], keepsFor);
    }
  }

  lemma ItWasPublishedBefore(s: State)
    requires OneQuestion(s) && BroughtBack(s, s.holds, s.at)
    ensures s.at <= s.now
  {
  }

  lemma StepKeepsInv(s: State, e: Event, keepsFor: nat)
    requires Inv(s, keepsFor)
    ensures Inv(Step(s, e, keepsFor), keepsFor)
  {
    hide Step, Fair, OneQuestion, KeepsAnswersOnly, Extends;
    var t := Step(s, e, keepsFor);
    StepExtends(s, e, keepsFor);
    StepKeepsAnswersOnly(s, e, keepsFor);
    forall who | who in t.readers ensures Fair(t, t.readers[who], keepsFor) {
      if who in s.readers && t.readers[who] == s.readers[who] {
        FairStays(s, t, s.readers[who], keepsFor);
      } else {
        NewcomerIsFair(s, e, keepsFor, who);
      }
    }
  }

  lemma {:induction false} EveryRunKeepsInv(events: seq<Event>, keepsFor: nat)
    ensures Inv(Run(events, keepsFor), keepsFor)
  {
    if events == [] {
    } else {
      EveryRunKeepsInv(events[..|events| - 1], keepsFor);
      StepKeepsInv(Run(events[..|events| - 1], keepsFor), events[|events| - 1], keepsFor);
    }
  }

  /** At most one question is in flight, whoever reads and whoever leaves. */
  lemma OneQuestionInFlight(events: seq<Event>, keepsFor: nat, a: nat, b: nat)
    requires var s := Run(events, keepsFor);
             a in s.calls && b in s.calls && InFlight(s.calls[a]) && InFlight(s.calls[b])
    ensures a == b
  {
    EveryRunKeepsInv(events, keepsFor);
  }

  /** A failure is never kept: the copy is what some question really brought back, at the
      instant it is kept as of. */
  lemma FailureIsNeverKept(events: seq<Event>, keepsFor: nat)
    ensures var s := Run(events, keepsFor); s.at != 0 ==> BroughtBack(s, s.holds, s.at)
    ensures var s := Run(events, keepsFor);
            forall call :: call in s.calls && s.calls[call].Returned? && s.calls[call].result.Failure? ==>
              Step(s, Publish(call), keepsFor).holds == s.holds && Step(s, Publish(call), keepsFor).at == s.at
  {
    EveryRunKeepsInv(events, keepsFor);
  }

  /** A reader given the kept copy is given what a question brought back less than
      `keepsFor` before it read. */
  lemma CopiesAreYoung(events: seq<Event>, keepsFor: nat, who: nat)
    requires who in Run(events, keepsFor).readers && Run(events, keepsFor).readers[who].Given?
    ensures var s := Run(events, keepsFor);
            var r := s.readers[who];
            exists at: nat :: BroughtBack(s, r.money, at) && at <= r.read < at + keepsFor
  {
    EveryRunKeepsInv(events, keepsFor);
    assert Fair(Run(events, keepsFor), Run(events, keepsFor).readers[who], keepsFor);
  }

  /** A reader answered by a question is answered by one that was in flight while it
      waited: asked no later than it came, and published after that and before it woke. */
  lemma AnswersWereInFlight(events: seq<Event>, keepsFor: nat, who: nat)
    requires who in Run(events, keepsFor).readers && Run(events, keepsFor).readers[who].Answered?
    ensures var s := Run(events, keepsFor);
            var r := s.readers[who];
            && r.call in s.calls && Done(s.calls[r.call])
            && s.calls[r.call].asked <= r.since <= s.calls[r.call].when <= r.woken
            && s.calls[r.call].result == r.result
  {
    EveryRunKeepsInv(events, keepsFor);
    assert Fair(Run(events, keepsFor), Run(events, keepsFor).readers[who], keepsFor);
  }

  /** Whatever its question still has to go through, once the broker says something. */
  function Finished(s: State, call: nat, result: Result, keepsFor: nat): State {
    Step(Step(Step(s, Return(call, result), keepsFor), Publish(call), keepsFor), Tell(call), keepsFor)
  }

  /** Nobody is stranded: a reader still waiting is answered by its question's own steps,
      whoever has left since, the one who started it included. */
  lemma NobodyIsStranded(events: seq<Event>, keepsFor: nat, who: nat, starter: nat, result: Result)
    requires who in Run(events, keepsFor).readers && Run(events, keepsFor).readers[who].Waits? && who != starter
    ensures var s := Step(Run(events, keepsFor), Leave(starter), keepsFor);
            var r := s.readers[who];
            var t := Step(Finished(s, r.call, result, keepsFor), Wake(who), keepsFor);
            && who in t.readers && t.readers[who].Answered? && t.readers[who].call == r.call
            && (s.calls[r.call].Flying? ==> t.readers[who].result == result)
  {
    EveryRunKeepsInv(events, keepsFor);
    assert Fair(Run(events, keepsFor), Run(events, keepsFor).readers[who], keepsFor);
    QuestionFinishes(Step(Run(events, keepsFor), Leave(starter), keepsFor),
                     Run(events, keepsFor).readers[who].call, result, keepsFor);
  }

  lemma QuestionFinishes(s: State, call: nat, result: Result, keepsFor: nat)
    requires call in s.calls
    ensures var t := Finished(s, call, result, keepsFor);
            && t.readers == s.readers && call in t.calls && t.calls[call].Told?
            && (s.calls[call].Flying? ==> t.calls[call].result == result)
  {
    var t1 := Step(s, Return(call, result), keepsFor);
    assert t1.readers == s.readers && call in t1.calls && !t1.calls[call].Flying?;
    var t2 := Step(t1, Publish(call), keepsFor);
    assert t2.readers == s.readers && call in t2.calls && Done(t2.calls[call]);
  }

  // ---------- the cache itself ----------

  class Cache {
    var holds: Money
    var at: nat
    var asking: nat
    ghost var world: State

    ghost predicate Valid(keepsFor: nat)
      reads this
    {
      holds == world.holds && at == world.at && asking == world.asking && Inv(world, keepsFor)
    }

    constructor (keepsFor: nat)
      ensures Valid(keepsFor) && world == START
    {
      holds, at, asking, world := 0, 0, 0, START;
    }

    /** The locked section of a read: the young copy, or the question to wait on, which
        is a new one (`starts`) only when none is in flight. */
    method Read(who: nat, now: nat, next: nat, keepsFor: nat) returns (held: bool, copy: Money, call: nat, starts: bool)
      requires Valid(keepsFor) && who !in world.readers && now == world.now && next == world.made + 1
      modifies this
      ensures Valid(keepsFor) && world == Step(old(world), Event.Read(who), keepsFor)
      ensures world.readers[who] == if held then Given(copy, now) else Waits(call, now)
      ensures starts <==> !held && old(asking) == 0
    {
      StepKeepsInv(world, Event.Read(who), keepsFor);
      hide Inv;
      ghost var after := Step(world, Event.Read(who), keepsFor);
      copy, call, starts := 0, asking, false;
      held := at != 0 && now - at < keepsFor;
      if held {
        copy := holds;
      } else if call == 0 {
        call, starts := next, true;
        asking := call;
      }
      world := after;
    }

    /** The locked section of the goroutine that asked. */
    method Publish(call: nat, result: Result, now: nat, keepsFor: nat)
      requires Valid(keepsFor) && call in world.calls && world.calls[call].Returned?
      requires result == world.calls[call].result && now == world.now
      modifies this
      ensures Valid(keepsFor) && world == Step(old(world), Event.Publish(call), keepsFor)
      ensures asking == 0 && (result.Failure? ==> holds == old(holds) && at == old(at))
    {
      StepKeepsInv(world, Event.Publish(call), keepsFor);
      hide Inv;
      world := Step(world, Event.Publish(call), keepsFor);
      if result.Answer? {
        holds, at := result.money, now;
      }
      asking := 0;
    }
  }
}
