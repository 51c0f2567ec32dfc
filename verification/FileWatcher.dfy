/** The daemon's file watcher: a review is started for a watched file, at most once per debounce. */
module FileWatcher {
  import opened Debounce
  import opened Outcomes
  import Text

  /** A file-system event; `suffix` is the extension of the path, `now` the wall clock read before the lock. */
  datatype Event = Event(path: string, suffix: string, isDirectory: bool, now: real)

  datatype Settings = Settings(fileExtensions: set<string>, debounceSeconds: real)

  function Section(settings: Settings, e: Event): Option<Attempt> {
    if e.isDirectory || Text.Lower(e.suffix) !in settings.fileExtensions then None
    else Some(Attempt(e.path, e.now, settings.debounceSeconds))
  }

  class CodeChangeHandler {
    const settings: Settings
    var lastModified: Times

    constructor (settings: Settings)
      ensures lastModified == map[] && this.settings == settings
    {
      this.settings, this.lastModified := settings, map[];
    }

    /** `started`: whether a review thread is started. */
    method HandlePathEvent(e: Event) returns (started: bool)
      modifies this
      ensures match Section(settings, e)
              case None => !started && lastModified == old(lastModified)
              case Some(a) =>
                started == Admits(old(lastModified), a) && lastModified == Record(old(lastModified), a)
    {
      if e.isDirectory {
        return false;
      }
      if Text.Lower(e.suffix) !in settings.fileExtensions {
        return false;
      }
      var previous := if e.path in lastModified then lastModified[e.path] else 0.0;
      if e.now - previous < settings.debounceSeconds {
        return false;
      }
      lastModified := lastModified[e.path := e.now];
      return true;
    }
  }

  function Sections(settings: Settings, events: seq<Event>): (steps: seq<Option<Attempt>>)
    ensures |steps| == |events|
    ensures forall i :: 0 <= i < |events| ==> steps[i] == Section(settings, events[i])
  {
    seq(|events|, i requires 0 <= i < |events| => Section(settings, events[i]))
  }

  /** A run of the handler: which events start a review. */
  method HandleAll(settings: Settings, events: seq<Event>) returns (started: seq<bool>)
    ensures |started| == |events|
    ensures forall i :: 0 <= i < |events| ==> (started[i] <==> Accepted(Sections(settings, events), i))
  {
    var handler := new CodeChangeHandler(settings);
    started := [];
    ghost var steps := Sections(settings, events);
    assert steps[..0] == [];
    for n := 0 to |events|
      invariant |started| == n && handler.lastModified == Debounce.Run(steps[..n]) && handler.settings == settings
      invariant fresh(handler)
      invariant forall i :: 0 <= i < n ==> (started[i] <==> Accepted(steps, i))
    {
      assert steps[..n + 1] == steps[..n] + [steps[n]];
      var one := handler.HandlePathEvent(events[n]);
      started := started + [one];
    }
  }

  /** Two reviews of one file are started at least the debounce apart. */
  lemma ReviewsAreSpaced(settings: Settings, events: seq<Event>, i: nat, j: nat)
    requires 0.0 <= settings.debounceSeconds
    requires i < j < |events| && events[i].path == events[j].path
    requires Accepted(Sections(settings, events), i) && Accepted(Sections(settings, events), j)
    ensures settings.debounceSeconds <= events[j].now - events[i].now
  {
    AcceptedAreSpaced(Sections(settings, events), i, j);
  }

  /** A file the handler watches, as its settings name it. */
  predicate Watched(settings: Settings, e: Event) {
    !e.isDirectory && Text.Lower(e.suffix) in settings.fileExtensions
  }

  /** Exactly when an event starts a review: it is about a watched file, its clock has passed the first debounce, and
      it is at least the debounce later than every event of that file that started one before. */
  lemma StartedIff(settings: Settings, events: seq<Event>, j: nat)
    requires 0.0 <= settings.debounceSeconds && j < |events|
    ensures var steps, e := Sections(settings, events), events[j];
            Accepted(steps, j) <==>
              && Watched(settings, e) && settings.debounceSeconds <= e.now
              && forall i: nat :: i < j && events[i].path == e.path && Accepted(steps, i) ==>
                   settings.debounceSeconds <= e.now - events[i].now
  {
    var steps := Sections(settings, events);
    if steps[j].Some? {
      AcceptedIff(steps, j);
      assert forall i: nat :: i < j && Accepted(steps, i) ==>
          (AcceptedFor(steps, events[j].path, i) <==> events[i].path == events[j].path);
    }
  }
}
