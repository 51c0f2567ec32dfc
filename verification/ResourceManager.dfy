/** Admission control: debounce per intent and file, a token budget and a circuit breaker. */
module ResourceManager {
  import opened Debounce
  import opened Outcomes

  /** The calls that change the manager. `now` is the clock reading the call takes before the lock. */
  datatype Event =
    | AllowNewJob(intent: string, targetFile: string, now: real)
    | ReserveTokens(amount: int)
    | ReleaseTokens
    | OpenCircuit
    | CloseCircuit

  datatype State = State(tokens: int, breakerOpen: bool, last: Times)

  type Waits = map<string, real>

  const PASSIVE_SAVE := "passive_save"
  const ACTIVE_INTENT := "active_intent"
  const DEBOUNCE_SECONDS: Waits := map[PASSIVE_SAVE := 1.5, ACTIVE_INTENT := 0.0]

  function WaitFor(debounce: Waits, intent: string): real {
    if intent in debounce then debounce[intent] else 0.0
  }

  function Key(intent: string, targetFile: string): string {
    intent + ":" + targetFile
  }

  /** The locked section a call reaches, if any. */
  function Section(debounce: Waits, s: State, e: Event): Option<Attempt> {
    if e.AllowNewJob? && !s.breakerOpen && WaitFor(debounce, e.intent) > 0.0
    then Some(Attempt(Key(e.intent, e.targetFile), e.now, WaitFor(debounce, e.intent)))
    else None
  }

  /** The next state and what the call answers. */
  function Step(debounce: Waits, s: State, e: Event): (State, bool) {
    match e
    case AllowNewJob(_, _, _) =>
      (match Section(debounce, s, e)
       case None => (s, !s.breakerOpen)
       case Some(a) => (s.(last := Record(s.last, a)), Admits(s.last, a)))
    case ReserveTokens(amount) => if amount > s.tokens then (s, false) else (s.(tokens := s.tokens - amount), true)
    case ReleaseTokens => (s, true)
    case OpenCircuit => (s.(breakerOpen := true), true)
    case CloseCircuit => (s.(breakerOpen := false), true)
  }

  class DefaultResourceManager {
    const debounce: Waits
    var tokenBudget: int
    var breakerOpen: bool
    var lastRequestAt: Times

    ghost function Value(): State
      reads this
    {
      State(tokenBudget, breakerOpen, lastRequestAt)
    }

    constructor (tokenBudget: int, debounce: Waits)
      ensures Value() == State(tokenBudget, false, map[]) && this.debounce == debounce
    {
      this.tokenBudget, this.breakerOpen, this.debounce, this.lastRequestAt := tokenBudget, false, debounce, map[];
    }

    method AllowNewJob(intent: string, targetFile: string, now: real) returns (allowed: bool)
      modifies this`lastRequestAt
      ensures (Value(), allowed) == Step(debounce, old(Value()), Event.AllowNewJob(intent, targetFile, now))
    {
      if breakerOpen {
        return false;
      }
      var wait := if intent in debounce then debounce[intent] else 0.0;
      if wait > 0.0 {
        var key := intent + ":" + targetFile;
        var last := if key in lastRequestAt then lastRequestAt[key] else 0.0;
        if now - last < wait {
          return false;
        }
        lastRequestAt := lastRequestAt[key := now];
      }
      return true;
    }

    method ReserveTokens(amount: int) returns (granted: bool)
      modifies this`tokenBudget
      ensures (Value(), granted) == Step(debounce, old(Value()), Event.ReserveTokens(amount))
    {
      if amount > tokenBudget {
        return false;
      }
      tokenBudget := tokenBudget - amount;
      return true;
    }

    method OpenCircuit()
      modifies this`breakerOpen
      ensures Value() == Step(debounce, old(Value()), Event.OpenCircuit).0
    {
      breakerOpen := true;
    }

    method CloseCircuit()
      modifies this`breakerOpen
      ensures Value() == Step(debounce, old(Value()), Event.CloseCircuit).0
    {
      breakerOpen := false;
    }
  }

  // ----- whole runs -----

  function Run(debounce: Waits, budget: int, events: seq<Event>): State {
    if events == [] then State(budget, false, map[])
    else Step(debounce, Run(debounce, budget, events[..|events| - 1]), events[|events| - 1]).0
  }

  function Answer(debounce: Waits, budget: int, events: seq<Event>, i: nat): bool
    requires i < |events|
  {
    Step(debounce, Run(debounce, budget, events[..i]), events[i]).1
  }

  function Sections(debounce: Waits, budget: int, events: seq<Event>): (steps: seq<Option<Attempt>>)
    ensures |steps| == |events|
  {
    if events == [] then []
    else
      var front := events[..|events| - 1];
      Sections(debounce, budget, front) + [Section(debounce, Run(debounce, budget, front), events[|events| - 1])]
  }

  lemma {:induction false} SectionsOfPrefix(debounce: Waits, budget: int, events: seq<Event>, n: nat)
    requires n <= |events|
    ensures Sections(debounce, budget, events)[..n] == Sections(debounce, budget, events[..n])
    ensures n < |events| ==>
              Sections(debounce, budget, events)[n] == Section(debounce, Run(debounce, budget, events[..n]), events[n])
  {
    if n == |events| {
      assert events[..n] == events;
    } else {
      var front := events[..|events| - 1];
      assert front[..n] == events[..n];
      SectionsOfPrefix(debounce, budget, front, n);
    }
  }

  /** The recorded times are those of the locked sections the run reaches. */
  lemma {:induction false} RunIsDebounced(debounce: Waits, budget: int, events: seq<Event>)
    ensures Run(debounce, budget, events).last == Debounce.Run(Sections(debounce, budget, events))
  {
    if events != [] {
      RunIsDebounced(debounce, budget, events[..|events| - 1]);
      var steps := Sections(debounce, budget, events);
      assert steps[..|steps| - 1] == Sections(debounce, budget, events[..|events| - 1]);
    }
  }

  lemma SectionAnswers(debounce: Waits, budget: int, events: seq<Event>, i: nat)
    requires i < |events|
    ensures var steps := Sections(debounce, budget, events);
            steps[i].Some? ==> (Answer(debounce, budget, events, i) <==> Accepted(steps, i))
  {
    SectionsOfPrefix(debounce, budget, events, i);
    RunIsDebounced(debounce, budget, events[..i]);
  }

  lemma {:induction false} SectionWaitsArePositive(debounce: Waits, budget: int, events: seq<Event>)
    ensures WaitsAreNonNegative(Sections(debounce, budget, events))
  {
    if events != [] {
      SectionWaitsArePositive(debounce, budget, events[..|events| - 1]);
    }
  }

  predicate IsAsk(e: Event, intent: string, targetFile: string) {
    e.AllowNewJob? && e.intent == intent && e.targetFile == targetFile
  }

  /** Two admitted requests of one intent for one file are at least the intent's debounce apart, over every run,
      in whatever order the clocks were read. */
  lemma AdmittedAreSpaced(debounce: Waits, budget: int, events: seq<Event>, intent: string, file: string, i: nat,
                          j: nat)
    requires i < j < |events| && IsAsk(events[i], intent, file) && IsAsk(events[j], intent, file)
    requires Answer(debounce, budget, events, i) && Answer(debounce, budget, events, j)
    requires WaitFor(debounce, intent) > 0.0
    ensures WaitFor(debounce, intent) <= events[j].now - events[i].now
  {
    var steps := Sections(debounce, budget, events);
    SectionsOfPrefix(debounce, budget, events, i);
    SectionsOfPrefix(debounce, budget, events, j);
    SectionAnswers(debounce, budget, events, i);
    SectionAnswers(debounce, budget, events, j);
    SectionWaitsArePositive(debounce, budget, events);
    AcceptedAreSpaced(steps, i, j);
  }

  /** Calls that come one after the other read a clock that does not run back. */
  predicate Sequential(events: seq<Event>) {
    && (forall i :: 0 <= i < |events| && events[i].AllowNewJob? ==> 0.0 <= events[i].now)
    && forall i, j :: 0 <= i < j < |events| && events[i].AllowNewJob? && events[j].AllowNewJob?
         ==> events[i].now <= events[j].now
  }

  lemma SectionIsCall(debounce: Waits, budget: int, events: seq<Event>)
    ensures var steps := Sections(debounce, budget, events);
            forall i :: 0 <= i < |events| && steps[i].Some? ==>
              && events[i].AllowNewJob? && steps[i].value.now == events[i].now
              && steps[i].value.key == Key(events[i].intent, events[i].targetFile)
  {
    forall i | 0 <= i < |events|
      ensures Sections(debounce, budget, events)[i]
           == Section(debounce, Run(debounce, budget, events[..i]), events[i])
    {
      SectionsOfPrefix(debounce, budget, events, i);
    }
  }

  /** With sequential calls and the breaker closed, a refused request came within its debounce of an admitted one
      for the same intent and file, or of clock zero. */
  lemma RefusedIsCloseToAdmitted(debounce: Waits, budget: int, events: seq<Event>, j: nat)
    requires Sequential(events) && j < |events| && events[j].AllowNewJob?
    requires !Run(debounce, budget, events[..j]).breakerOpen && !Answer(debounce, budget, events, j)
    ensures var e := events[j];
            || e.now < WaitFor(debounce, e.intent)
            || exists i :: 0 <= i < j && events[i].AllowNewJob? && Answer(debounce, budget, events, i)
                 && Key(events[i].intent, events[i].targetFile) == Key(e.intent, e.targetFile)
                 && e.now - events[i].now < WaitFor(debounce, e.intent)
  {
    var steps := Sections(debounce, budget, events);
    SectionsOfPrefix(debounce, budget, events, j);
    SectionAnswers(debounce, budget, events, j);
    SectionWaitsArePositive(debounce, budget, events);
    SectionIsCall(debounce, budget, events);
    RefusedIsClose(steps, j);
    if events[j].now >= WaitFor(debounce, events[j].intent) {
      var a := steps[j].value;
      var i: nat :| i < j && AcceptedFor(steps, a.key, i) && 0.0 <= a.now - steps[i].value.now < a.wait;
      SectionAnswers(debounce, budget, events, i);
      assert events[i].AllowNewJob?;
    }
  }

  /** The breaker is open exactly when it was opened and not closed since. */
  lemma {:induction false} BreakerIff(debounce: Waits, budget: int, events: seq<Event>)
    ensures Run(debounce, budget, events).breakerOpen <==>
              exists i :: 0 <= i < |events| && events[i].OpenCircuit?
                && forall k :: i < k < |events| ==> !events[k].CloseCircuit?
  {
    if events != [] {
      var front, last := events[..|events| - 1], events[|events| - 1];
      BreakerIff(debounce, budget, front);
      if last.OpenCircuit? {
        assert events[|events| - 1].OpenCircuit?;
      } else if Run(debounce, budget, front).breakerOpen && !last.CloseCircuit? {
        var i :| 0 <= i < |front| && front[i].OpenCircuit? && forall k :: i < k < |front| ==> !front[k].CloseCircuit?;
        assert forall k :: i < k < |events| ==> !events[k].CloseCircuit? by {
          assert forall k :: i < k < |front| ==> events[k] == front[k];
        }
        assert events[i].OpenCircuit?;
      }
      if i :| 0 <= i < |events| && events[i].OpenCircuit? && forall k :: i < k < |events| ==> !events[k].CloseCircuit? {
        assert i < |front| ==> front[i].OpenCircuit? && forall k :: i < k < |front| ==> !front[k].CloseCircuit?;
        assert !last.CloseCircuit?;
      }
    }
  }

  /** Two calls for the same intent and file, as their common key tells them apart. */
  predicate SameAsk(a: Event, b: Event) {
    a.AllowNewJob? && b.AllowNewJob? && a.intent + ":" + a.targetFile == b.intent + ":" + b.targetFile
  }

  /** Exactly when a request is admitted: the breaker is closed, and either its intent has no debounce, or its clock
      has passed the first debounce and is at least the debounce later than every debounced request with its key that
      was admitted before. */
  lemma AdmittedIff(debounce: Waits, budget: int, events: seq<Event>, j: nat)
    requires j < |events| && events[j].AllowNewJob?
    ensures var e := events[j];
            Answer(debounce, budget, events, j) <==>
              && !Run(debounce, budget, events[..j]).breakerOpen
              && (e.intent in debounce && debounce[e.intent] > 0.0 ==>
                    && debounce[e.intent] <= e.now
                    && forall i :: 0 <= i < j && SameAsk(events[i], e) && Answer(debounce, budget, events, i)
                                   && events[i].intent in debounce && debounce[events[i].intent] > 0.0 ==>
                         debounce[e.intent] <= e.now - events[i].now)
  {
    var steps := Sections(debounce, budget, events);
    SectionsOfPrefix(debounce, budget, events, j);
    SectionAnswers(debounce, budget, events, j);
    SectionWaitsArePositive(debounce, budget, events);
    if steps[j].Some? {
      AcceptedIff(steps, j);
      var e := events[j];
      forall i: nat | i < j
        ensures AcceptedFor(steps, steps[j].value.key, i)
            <==> (SameAsk(events[i], e) && Answer(debounce, budget, events, i)
                  && events[i].intent in debounce && debounce[events[i].intent] > 0.0)
        ensures steps[i].Some? ==> events[i].AllowNewJob? && steps[i].value.now == events[i].now
      {
        SectionsOfPrefix(debounce, budget, events, i);
        SectionAnswers(debounce, budget, events, i);
      }
    }
  }

  lemma DefaultWaits(intent: string)
    ensures intent in DEBOUNCE_SECONDS && DEBOUNCE_SECONDS[intent] > 0.0 <==> intent == "passive_save"
    ensures "passive_save" in DEBOUNCE_SECONDS && DEBOUNCE_SECONDS["passive_save"] == 1.5
  {
    assert PASSIVE_SAVE[0] != ACTIVE_INTENT[0];
  }

  /** With the default table: a passive save is admitted exactly when the breaker is closed and it is at least 1.5
      seconds later than clock zero and than every passive save of its file that was admitted; every other request is
      answered by the breaker alone. */
  lemma DefaultIntents(budget: int, events: seq<Event>, file: string, j: nat)
    requires j < |events|
    ensures IsAsk(events[j], "passive_save", file) ==>
              (Answer(DEBOUNCE_SECONDS, budget, events, j) <==>
                 && !Run(DEBOUNCE_SECONDS, budget, events[..j]).breakerOpen
                 && 1.5 <= events[j].now
                 && forall i :: 0 <= i < j ==>
                      (IsAsk(events[i], "passive_save", file) && Answer(DEBOUNCE_SECONDS, budget, events, i)
                       ==> 1.5 <= events[j].now - events[i].now))
    ensures events[j].AllowNewJob? && events[j].intent != "passive_save" ==>
              (Answer(DEBOUNCE_SECONDS, budget, events, j)
               <==> !Run(DEBOUNCE_SECONDS, budget, events[..j]).breakerOpen)
  {
    if events[j].AllowNewJob? {
      AdmittedIff(DEBOUNCE_SECONDS, budget, events, j);
      DefaultWaits(events[j].intent);
      if events[j].intent == "passive_save" {
        forall i | 0 <= i < j && events[i].AllowNewJob?
          ensures events[i].intent in DEBOUNCE_SECONDS && DEBOUNCE_SECONDS[events[i].intent] > 0.0
              <==> events[i].intent == "passive_save"
          ensures events[i].intent == "passive_save" ==>
                    (SameAsk(events[i], events[j]) <==> events[i].targetFile == events[j].targetFile)
        {
          DefaultWaits(events[i].intent);
          SameTail("passive_save" + ":", events[i].targetFile, events[j].targetFile);
        }
      }
    }
  }

  lemma SameTail(front: string, a: string, b: string)
    ensures front + a == front + b <==> a == b
  {
    assert (front + a)[|front|..] == a && (front + b)[|front|..] == b;
  }

  // ----- tokens -----

  function Granted(debounce: Waits, budget: int, events: seq<Event>): int {
    if events == [] then 0
    else
      var front, last := events[..|events| - 1], events[|events| - 1];
      Granted(debounce, budget, front)
      + (if last.ReserveTokens? && Step(debounce, Run(debounce, budget, front), last).1 then last.amount else 0)
  }

  /** The remaining budget is the initial one minus everything granted, and never negative; releasing gives nothing
      back. */
  lemma {:induction false} TokensAreConserved(debounce: Waits, budget: int, events: seq<Event>)
    ensures Run(debounce, budget, events).tokens == budget - Granted(debounce, budget, events)
    ensures 0 <= budget ==> 0 <= Run(debounce, budget, events).tokens
  {
    if events != [] {
      TokensAreConserved(debounce, budget, events[..|events| - 1]);
    }
  }

  /** A reservation is granted exactly when it fits into the budget less everything granted before. */
  lemma GrantedIff(debounce: Waits, budget: int, events: seq<Event>, j: nat)
    requires j < |events| && events[j].ReserveTokens?
    ensures Answer(debounce, budget, events, j)
        <==> events[j].amount <= budget - Granted(debounce, budget, events[..j])
  {
    TokensAreConserved(debounce, budget, events[..j]);
  }
}
