/** The one-shot scanner of `scanner.py`: two snapshots of a directory, compared path by path. */
module Scanner {
  import opened Wrappers

  /** The digest of every supported file under a directory. */
  type Snapshot = map<string, string>

  datatype ScanEvent =
    | Created(path: string, after: string)
    | Modified(path: string, before: string, after: string)
    | Deleted(path: string, before: string)

  function Lookup(m: map<string, string>, path: string): Option<string> {
    if path in m then Some(m[path]) else None
  }

  function EventsAt(previous: Snapshot, current: Snapshot, path: string): seq<ScanEvent> {
    if path !in previous && path in current then [Created(path, current[path])]
    else if path in previous && path !in current then [Deleted(path, previous[path])]
    else if path in previous && path in current && previous[path] != current[path]
      then [Modified(path, previous[path], current[path])]
    else []
  }

  function EventsOver(previous: Snapshot, current: Snapshot, paths: seq<string>): seq<ScanEvent> {
    if paths == [] then []
    else EventsOver(previous, current, paths[..|paths| - 1]) + EventsAt(previous, current, paths[|paths| - 1])
  }

  /** `paths` lists every path of the two snapshots once, in whatever order they are sorted. */
  ghost predicate Lists(paths: seq<string>, previous: Snapshot, current: Snapshot) {
    && (forall path :: path in paths <==> path in previous || path in current)
    && (forall i, j | 0 <= i < j < |paths| :: paths[i] != paths[j])
  }

  /** The loop of `_events`. */
  method Events(previous: Snapshot, current: Snapshot, paths: seq<string>) returns (events: seq<ScanEvent>)
    ensures events == EventsOver(previous, current, paths)
  {
    events := [];
    for i := 0 to |paths|
      invariant events == EventsOver(previous, current, paths[..i])
    {
      assert paths[..i + 1][..i] == paths[..i];
      var path := paths[i];
      if path !in previous && path in current {
        events := events + [Created(path, current[path])];
      } else if path in previous && path !in current {
        events := events + [Deleted(path, previous[path])];
      } else if path in previous && path in current && previous[path] != current[path] {
        events := events + [Modified(path, previous[path], current[path])];
      }
    }
    assert paths[..|paths|] == paths;
  }

  /** What an event says the path holds now. */
  function After(event: ScanEvent): Option<string> {
    if event.Deleted? then None else Some(event.after)
  }

  function Patch(snapshot: Snapshot, path: string, now: Option<string>): Snapshot {
    if now.Some? then snapshot[path := now.value] else snapshot - {path}
  }

  function PatchAll(snapshot: Snapshot, events: seq<ScanEvent>): Snapshot {
    if events == [] then snapshot
    else
      var last := events[|events| - 1];
      Patch(PatchAll(snapshot, events[..|events| - 1]), last.path, After(last))
  }

  /** Each listed path has one event if its digest changed, and none otherwise. */
  lemma {:induction false} EventsPatch(previous: Snapshot, current: Snapshot, paths: seq<string>, path: string)
    ensures Lookup(PatchAll(previous, EventsOver(previous, current, paths)), path)
         == if path in paths then Lookup(current, path) else Lookup(previous, path)
  {
    if paths != [] {
      var before, last := paths[..|paths| - 1], paths[|paths| - 1];
      EventsPatch(previous, current, before, path);
      EventsAtPatch(previous, current, EventsOver(previous, current, before), last, path);
    }
  }

  /** The events at one path set that path, and no other. */
  lemma EventsAtPatch(previous: Snapshot, current: Snapshot, events: seq<ScanEvent>, last: string, path: string)
    requires path == last ==> Lookup(PatchAll(previous, events), path) in {Lookup(previous, path), Lookup(current, path)}
    ensures Lookup(PatchAll(previous, events + EventsAt(previous, current, last)), path)
         == if path == last then Lookup(current, path) else Lookup(PatchAll(previous, events), path)
  {
    var added := EventsAt(previous, current, last);
    if added == [] {
      assert events + added == events;
    } else {
      assert added == [added[0]];
      PatchSnoc(previous, events, added[0]);
    }
  }

  lemma PatchSnoc(snapshot: Snapshot, events: seq<ScanEvent>, event: ScanEvent)
    ensures PatchAll(snapshot, events + [event]) == Patch(PatchAll(snapshot, events), event.path, After(event))
  {
    assert (events + [event])[..|events|] == events;
  }

  ghost predicate DistinctEvents(events: seq<ScanEvent>) {
    forall i, j | 0 <= i < j < |events| :: events[i].path != events[j].path
  }

  /** The event tells a change of its path. */
  ghost predicate TellsChange(event: ScanEvent, previous: Snapshot, current: Snapshot) {
    Lookup(previous, event.path) != Lookup(current, event.path) == After(event)
  }

  ghost predicate HasEvent(events: seq<ScanEvent>, path: string) {
    exists e :: e in events && e.path == path
  }

  /** Each listed path that changed has one event, and nothing else has any. */
  lemma {:induction false} EventsAreChanges(previous: Snapshot, current: Snapshot, paths: seq<string>)
    requires forall i, j | 0 <= i < j < |paths| :: paths[i] != paths[j]
    ensures var events := EventsOver(previous, current, paths);
            && DistinctEvents(events) && (forall e | e in events :: TellsChange(e, previous, current))
            && forall path :: HasEvent(events, path) <==> path in paths && Lookup(previous, path) != Lookup(current, path)
  {
    if paths != [] {
      var before, last := paths[..|paths| - 1], paths[|paths| - 1];
      EventsAreChanges(previous, current, before);
      OneMoreChange(previous, current, EventsOver(previous, current, before), before, last);
      assert paths == before + [last];
    }
  }

  lemma OneMoreChange(previous: Snapshot, current: Snapshot, events: seq<ScanEvent>, before: seq<string>, last: string)
    requires DistinctEvents(events) && (forall e | e in events :: TellsChange(e, previous, current)) && last !in before
    requires forall path :: HasEvent(events, path) <==> path in before && Lookup(previous, path) != Lookup(current, path)
    ensures var events' := events + EventsAt(previous, current, last);
            && DistinctEvents(events') && (forall e | e in events' :: TellsChange(e, previous, current))
            && forall path :: HasEvent(events', path)
                         <==> path in before + [last] && Lookup(previous, path) != Lookup(current, path)
  {
    var added := EventsAt(previous, current, last);
    assert !HasEvent(events, last);
    forall i | 0 <= i < |events| ensures events[i].path != last {
      assert events[i] in events;
    }
    forall path ensures HasEvent(events + added, path) <==> HasEvent(events, path) || (path == last && added != []) {
      if HasEvent(events, path) {
        var e :| e in events && e.path == path;
        assert e in events + added;
      }
      if path == last && added != [] { assert added[0] in events + added; }
    }
  }

  /** The events carry the old snapshot to the new one: nothing is missed and nothing invented. */
  lemma EventsLeadToCurrent(previous: Snapshot, current: Snapshot, paths: seq<string>)
    requires Lists(paths, previous, current)
    ensures PatchAll(previous, EventsOver(previous, current, paths)) == current
  {
    var patched := PatchAll(previous, EventsOver(previous, current, paths));
    forall path ensures Lookup(patched, path) == Lookup(current, path) {
      EventsPatch(previous, current, paths, path);
    }
    assert forall path :: path in patched <==> Lookup(patched, path).Some?;
    assert forall path :: path in current <==> Lookup(current, path).Some?;
    assert forall path | path in current :: patched[path] == Lookup(patched, path).value;
  }
}
