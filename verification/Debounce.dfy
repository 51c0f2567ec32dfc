/** The debounce check shared by the resource manager and the file watcher: one locked section per attempt, with
    a clock reading taken before the lock. Times are in seconds, in exact arithmetic. */
module Debounce {
  import opened Outcomes

  /** One arrival at the lock; `wait` is the debounce that applies to it. */
  datatype Attempt = Attempt(key: string, now: real, wait: real)

  type Times = map<string, real>

  function LastAt(last: Times, key: string): real {
    if key in last then last[key] else 0.0
  }

  predicate Admits(last: Times, a: Attempt) {
    !(a.now - LastAt(last, a.key) < a.wait)
  }

  function Record(last: Times, a: Attempt): Times {
    if Admits(last, a) then last[a.key := a.now] else last
  }

  /** The recorded times after a run. A step that never reaches the lock is `None`. The order is that of the lock,
      so over racing threads the clock readings may come in any order. */
  function Run(steps: seq<Option<Attempt>>): Times {
    if steps == [] then map[]
    else
      var last := Run(steps[..|steps| - 1]);
      match steps[|steps| - 1]
      case None => last
      case Some(a) => Record(last, a)
  }

  predicate Accepted(steps: seq<Option<Attempt>>, i: nat) {
    i < |steps| && steps[i].Some? && Admits(Run(steps[..i]), steps[i].value)
  }

  predicate AcceptedFor(steps: seq<Option<Attempt>>, key: string, i: nat) {
    Accepted(steps, i) && steps[i].value.key == key
  }

  /** `i` is the latest accepted attempt for the key. */
  ghost predicate Latest(steps: seq<Option<Attempt>>, key: string, i: nat) {
    AcceptedFor(steps, key, i) && forall k: nat :: AcceptedFor(steps, key, k) ==> k <= i
  }

  lemma AcceptedInPrefix(steps: seq<Option<Attempt>>, n: nat, i: nat)
    requires i < n <= |steps|
    ensures Accepted(steps[..n], i) <==> Accepted(steps, i)
  {
    assert steps[..n][..i] == steps[..i];
  }

  lemma AcceptedForInPrefix(steps: seq<Option<Attempt>>, key: string, n: nat)
    requires n <= |steps|
    ensures forall i: nat :: AcceptedFor(steps[..n], key, i) <==> i < n && AcceptedFor(steps, key, i)
  {
    forall i: nat | i < n
      ensures AcceptedFor(steps[..n], key, i) <==> AcceptedFor(steps, key, i)
    {
      AcceptedInPrefix(steps, n, i);
    }
  }

  lemma LastStep(steps: seq<Option<Attempt>>, key: string)
    requires steps != []
    ensures var n := |steps| - 1;
            if AcceptedFor(steps, key, n) then key in Run(steps) && Run(steps)[key] == steps[n].value.now
            else LastAt(Run(steps), key) == LastAt(Run(steps[..n]), key)
                 && (key in Run(steps) <==> key in Run(steps[..n]))
  {
  }

  lemma LatestStays(steps: seq<Option<Attempt>>, key: string, i: nat)
    requires steps != [] && Latest(steps[..|steps| - 1], key, i) && !AcceptedFor(steps, key, |steps| - 1)
    ensures Latest(steps, key, i) && steps[..|steps| - 1][i] == steps[i]
  {
    AcceptedForInPrefix(steps, key, |steps| - 1);
  }

  /** What is recorded for a key is the time of the latest accepted attempt, whatever the clock does. */
  lemma {:induction false} RecordsTheLatest(steps: seq<Option<Attempt>>, key: string)
    ensures key in Run(steps) ==> exists i: nat :: Latest(steps, key, i) && Run(steps)[key] == steps[i].value.now
    ensures key !in Run(steps) ==> forall i: nat :: !AcceptedFor(steps, key, i)
  {
    if steps != [] {
      var n := |steps| - 1;
      RecordsTheLatest(steps[..n], key);
      LastStep(steps, key);
      AcceptedForInPrefix(steps, key, n);
      if AcceptedFor(steps, key, n) {
        assert Latest(steps, key, n);
      } else if key in Run(steps) {
        var i: nat :| Latest(steps[..n], key, i) && Run(steps[..n])[key] == steps[..n][i].value.now;
        LatestStays(steps, key, i);
      }
    }
  }

  predicate WaitsAreNonNegative(steps: seq<Option<Attempt>>) {
    forall i :: 0 <= i < |steps| && steps[i].Some? ==> 0.0 <= steps[i].value.wait
  }

  /** Every accepted attempt up to `n` is no later than what is recorded. */
  lemma {:induction false} RecordedIsNewest(steps: seq<Option<Attempt>>, key: string, i: nat)
    requires WaitsAreNonNegative(steps) && AcceptedFor(steps, key, i)
    ensures key in Run(steps) && steps[i].value.now <= Run(steps)[key] && 0.0 <= steps[i].value.now
  {
    var n := |steps| - 1;
    RecordsTheLatest(steps[..n], key);
    AcceptedForInPrefix(steps, key, n);
    if i < n {
      RecordedIsNewest(steps[..n], key, i);
    } else if key in Run(steps[..n]) {
      var k: nat :| Latest(steps[..n], key, k) && Run(steps[..n])[key] == steps[..n][k].value.now;
      RecordedIsNewest(steps[..n], key, k);
    }
  }

  /** Exactly when an attempt is accepted: its clock has passed the first debounce, and it is at least its debounce
      later than every attempt accepted before it for the same key, in whatever order the clocks were read. */
  lemma AcceptedIff(steps: seq<Option<Attempt>>, j: nat)
    requires WaitsAreNonNegative(steps) && j < |steps| && steps[j].Some?
    ensures var a := steps[j].value;
            Accepted(steps, j)
            <==> a.wait <= a.now
                 && forall i: nat :: i < j && AcceptedFor(steps, a.key, i) ==> a.wait <= a.now - steps[i].value.now
  {
    var a, before := steps[j].value, steps[..j];
    RecordsTheLatest(before, a.key);
    AcceptedForInPrefix(steps, a.key, j);
    forall i: nat | i < j && AcceptedFor(steps, a.key, i)
      ensures 0.0 <= steps[i].value.now <= LastAt(Run(before), a.key)
    {
      RecordedIsNewest(before, a.key, i);
    }
    if a.key in Run(before) {
      var i: nat :| Latest(before, a.key, i) && Run(before)[a.key] == before[i].value.now;
      assert i < j && AcceptedFor(steps, a.key, i);
      assert LastAt(Run(before), a.key) == steps[i].value.now;
    }
  }

  /** Two accepted attempts for one key are at least the debounce apart. */
  lemma AcceptedAreSpaced(steps: seq<Option<Attempt>>, i: nat, j: nat)
    requires WaitsAreNonNegative(steps) && i < j && Accepted(steps, i) && Accepted(steps, j)
    requires steps[i].value.key == steps[j].value.key
    ensures steps[j].value.wait <= steps[j].value.now - steps[i].value.now
  {
    assert AcceptedFor(steps, steps[j].value.key, i);
    AcceptedIff(steps, j);
  }

  /** The clock readings come in the order of the lock, from zero on. */
  predicate ClockRuns(steps: seq<Option<Attempt>>) {
    && (forall i :: 0 <= i < |steps| && steps[i].Some? ==> 0.0 <= steps[i].value.now)
    && forall i, j :: 0 <= i < j < |steps| && steps[i].Some? && steps[j].Some?
         ==> steps[i].value.now <= steps[j].value.now
  }

  /** With sequential calls nothing is refused without cause: a refused attempt lies within its debounce of an
      accepted one or of clock zero. */
  lemma RefusedIsClose(steps: seq<Option<Attempt>>, j: nat)
    requires WaitsAreNonNegative(steps) && ClockRuns(steps)
    requires j < |steps| && steps[j].Some? && !Accepted(steps, j)
    ensures var a := steps[j].value;
            || 0.0 <= a.now < a.wait
            || exists i: nat :: i < j && AcceptedFor(steps, a.key, i) && 0.0 <= a.now - steps[i].value.now < a.wait
  {
    AcceptedIff(steps, j);
  }
}
