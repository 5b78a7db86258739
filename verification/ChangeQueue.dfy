/** The review queue of `change_queue.py`, as steps on one state. The directory is the working copy,
    `accepted` the checked-in version of every path, and an item the uncommitted change of its path. */
module ChangeQueue {
  import opened Wrappers
  import opened VersionedIndex
  import opened Scanner
  import SqliteIndexer
  import TextSplitter

  datatype Change = Addition | Modification | Deletion

  datatype Item = Item(
    path: string, change: Change, baseline: Option<string>, candidate: Option<string>,
    autoProcessing: bool, reviewRequired: Option<bool>)

  datatype Action = INDEX | AUTO_INDEX | RESTORE

  /** One processed review, with what was accepted for its path before it. */
  datatype Entry = Entry(id: nat, item: Item, action: Action, acceptedBefore: Option<string>)

  /** `extract(path, digest)` is the text of the bytes under the path's format, None if extraction fails. */
  datatype QueueSettings = QueueSettings(extract: (string, string) -> Option<string>, chunkSize: nat, chunkOverlap: nat)

  type QueueConfig = c: QueueSettings | c.chunkOverlap < c.chunkSize witness QueueSettings((_, _) => None, 1, 0)

  /** `scan` is the snapshot the scanner saved last; `disk` is what lies in the directory now. */
  datatype Queue = Queue(
    config: QueueConfig, accepted: Snapshot, items: map<string, Item>, history: seq<Entry>, restored: seq<nat>,
    scan: Snapshot, disk: Snapshot, snapshots: set<string>, index: Index, nextId: nat)

  datatype QueueError = UnknownKey | ExtractionFailed | IndexFailed(error: SqliteIndexer.IndexError) | MissingSnapshot

  const RESTORED_WINDOW := 256

  function DocumentOf(path: string): string { "watch:" + path }

  // ---------------------------------------------------------------- the uncommitted change of a path

  /** Both digests extract, to the same text. */
  predicate SameText(config: QueueConfig, path: string, a: Option<string>, b: Option<string>) {
    && a.Some? && b.Some? && config.extract(path, a.value).Some?
    && config.extract(path, a.value) == config.extract(path, b.value)
  }

  predicate IsDiff(config: QueueConfig, path: string, accepted: Option<string>, candidate: Option<string>) {
    accepted != candidate && !SameText(config, path, accepted, candidate)
  }

  function ChangeOf(accepted: Option<string>, candidate: Option<string>): Change {
    if candidate.None? then Deletion else if accepted.None? then Addition else Modification
  }

  function NewItem(path: string, accepted: Option<string>, candidate: Option<string>): Item {
    Item(path, ChangeOf(accepted, candidate), accepted, candidate, false, None)
  }

  function Captured(snapshots: set<string>, candidate: Option<string>): set<string> {
    if candidate.Some? then snapshots + {candidate.value} else snapshots
  }

  /** `_apply_event`. */
  function ApplyEvent(q: Queue, event: ScanEvent): Queue {
    var path, candidate, accepted := event.path, After(event), Lookup(q.accepted, event.path);
    var q1 := q.(snapshots := Captured(q.snapshots, candidate));
    if accepted.Some? && candidate == accepted then q1.(items := q.items - {path})
    else if candidate.None? && accepted.None? then q1.(items := q.items - {path})
    else if SameText(q.config, path, accepted, candidate) then q1.(items := q.items - {path})
    else q1.(items := q.items[path := NewItem(path, accepted, candidate)])
  }

  function ApplyEvents(q: Queue, events: seq<ScanEvent>): Queue {
    if events == [] then q else ApplyEvent(ApplyEvents(q, events[..|events| - 1]), events[|events| - 1])
  }

  /** `_discard_textually_reverted_items_locked`. */
  function DiscardReverted(q: Queue): Queue {
    q.(items := map path | path in q.items
         && !SameText(q.config, path, q.items[path].baseline, q.items[path].candidate) :: q.items[path])
  }

  // ---------------------------------------------------------------- accepting

  function VersionFor(config: QueueConfig, path: string, digest: string): Option<Version> {
    var text := config.extract(path, digest);
    if text.None? then None
    else
      var chunks := TextSplitter.SplitText(text.value, config.chunkSize, config.chunkOverlap);
      if chunks == [] then None else Some(Version(digest, chunks))
  }

  /** What accepting does to the index, or why it cannot. */
  function IndexItem(q: Queue, item: Item): Result<Index, QueueError> {
    var document := DocumentOf(item.path);
    if item.change == Deletion then
      var current := CurrentOf(q.index, document);
      Ok(if current.Some? then Removed(q.index, document, current.value) else q.index)
    else if item.candidate.None? then Err(MissingSnapshot)
    else
      var text := q.config.extract(item.path, item.candidate.value);
      if text.None? then Err(ExtractionFailed)
      else
        var version := VersionFor(q.config, item.path, item.candidate.value);
        if version.None? then Err(IndexFailed(SqliteIndexer.EmptyText))
        else if item.baseline != CurrentOf(q.index, document) then Err(IndexFailed(SqliteIndexer.StaleBaseline))
        else Ok(Stored(q.index, document, version.value))
  }

  function Committed(accepted: Snapshot, item: Item): Snapshot {
    if item.change == Deletion then accepted - {item.path}
    else if item.candidate.Some? then accepted[item.path := item.candidate.value] else accepted
  }

  function Record(q: Queue, item: Item, action: Action, acceptedBefore: Option<string>): Queue {
    q.(history := q.history + [Entry(q.nextId, item, action, acceptedBefore)], nextId := q.nextId + 1)
  }

  /** `_accept_locked`: the queue after it, unless indexing raised. */
  function AcceptItem(q: Queue, item: Item, action: Action): Result<Queue, QueueError> {
    match IndexItem(q, item)
    case Err(error) => Err(error)
    case Ok(index) =>
      var q1 := q.(index := index, accepted := Committed(q.accepted, item), items := q.items - {item.path});
      Ok(Record(q1, item, action, Lookup(q.accepted, item.path)))
  }

  /** `accept`. */
  function Accept(q: Queue, path: string): (Queue, Result<(), QueueError>) {
    if path !in q.items then (q, Err(UnknownKey))
    else match AcceptItem(q, q.items[path], INDEX)
      case Err(error) => (q, Err(error))
      case Ok(q1) => (q1, Ok(()))
  }

  /** One turn of `_process_due_auto_indexes_locked`: a failed accept hands the item to the operator. */
  function AutoAccept(q: Queue, path: string, due: set<string>): Queue {
    if path !in q.items || !q.items[path].autoProcessing || path !in due then q
    else match AcceptItem(q, q.items[path], AUTO_INDEX)
      case Ok(q1) => q1
      case Err(_) =>
        q.(items := q.items[path := q.items[path].(autoProcessing := false, reviewRequired := Some(true))])
  }

  function AutoAccepts(q: Queue, order: seq<string>, due: set<string>): Queue {
    if order == [] then q else AutoAccept(AutoAccepts(q, order[..|order| - 1], due), order[|order| - 1], due)
  }

  /** Capturing the file of this path raises: it was written, or went, since it was listed. */
  predicate Raises(event: ScanEvent, fault: Option<string>) {
    !event.Deleted? && fault == Some(event.path)
  }

  /** The first event whose capture raises, or their number. */
  function FirstRaise(events: seq<ScanEvent>, fault: Option<string>): (k: nat)
    ensures k <= |events|
    ensures k < |events| ==> Raises(events[k], fault)
    ensures forall i | 0 <= i < k :: !Raises(events[i], fault)
  {
    if events == [] || Raises(events[0], fault) then 0 else 1 + FirstRaise(events[1..], fault)
  }

  /** The first part of `poll_once`: the scan is saved, then the events are applied up to one that raises. */
  function Scanned(q: Queue, events: seq<ScanEvent>, fault: Option<string>): Queue {
    ApplyEvents(q.(scan := q.disk), events[..FirstRaise(events, fault)])
  }

  /** `poll_once`: scan, apply the events, drop reverted items, index what is due. `paths` is the sorted
      listing, `order` the order in which the items are visited. An event that raises ends the poll. */
  function Poll(q: Queue, paths: seq<string>, order: seq<string>, due: set<string>, fault: Option<string>): Queue {
    var events := EventsOver(q.scan, q.disk, paths);
    var scanned := Scanned(q, events, fault);
    if FirstRaise(events, fault) < |events| then scanned else AutoAccepts(DiscardReverted(scanned), order, due)
  }

  // ---------------------------------------------------------------- holding and assessing

  /** `hold_for_review`. */
  function HoldForReview(q: Queue, path: string): Queue {
    if path !in q.items then q
    else q.(items := q.items[path := q.items[path].(autoProcessing := false, reviewRequired := Some(true))])
  }

  /** The end of `_analyze_later`: the assessment of one candidate, dropped if the candidate changed. */
  function Assess(q: Queue, path: string, candidate: Option<string>, reviewRequired: bool): Queue {
    if path !in q.items || q.items[path].candidate != candidate then q
    else q.(items := q.items[path := q.items[path].(autoProcessing := !reviewRequired, reviewRequired := Some(reviewRequired))])
  }

  // ---------------------------------------------------------------- rejecting

  /** `_restore_source_to_baseline_locked`. */
  function RestoredToBaseline(disk: Snapshot, item: Item): Snapshot {
    if item.change == Addition then disk - {item.path} else Patch(disk, item.path, item.baseline)
  }

  /** `reject`, with the re-scan that moves the cursor. */
  function Reject(q: Queue, path: string): (Queue, Result<(), QueueError>) {
    if path !in q.items then (q, Err(UnknownKey))
    else
      var item := q.items[path];
      if item.change != Addition && item.baseline.None? then (q, Err(MissingSnapshot))
      else
        var disk := RestoredToBaseline(q.disk, item);
        var q1 := q.(disk := disk, scan := disk, items := q.items - {path});
        (Record(q1, item, RESTORE, Lookup(q.accepted, path)), Ok(()))
  }

  // ---------------------------------------------------------------- undoing history

  predicate IsAcceptedDeletion(entry: Entry) {
    entry.action != RESTORE && entry.item.change == Deletion
  }

  /** What undoing an entry does to the index, or why it cannot. */
  function UnindexEntry(q: Queue, entry: Entry): Result<Index, QueueError> {
    var item, document := entry.item, DocumentOf(entry.item.path);
    if entry.action == RESTORE then Ok(q.index)
    else if item.change != Deletion then
      Ok(if item.candidate.Some? then Removed(q.index, document, item.candidate.value) else q.index)
    else if item.baseline.None? then Err(MissingSnapshot)
    else
      var text := q.config.extract(item.path, item.baseline.value);
      var version := VersionFor(q.config, item.path, item.baseline.value);
      if text.None? then Err(ExtractionFailed)
      else if version.None? then Err(IndexFailed(SqliteIndexer.EmptyText))
      else Ok(Stored(q.index, document, version.value))
  }

  /** `_undo_history_entry_locked`: reopen the item, put back what was accepted and what was on disk. */
  function UndoEntry(q: Queue, entry: Entry): Result<Queue, QueueError> {
    var item := entry.item;
    match UnindexEntry(q, entry)
    case Err(error) => Err(error)
    case Ok(index) =>
      Ok(q.(index := index,
            disk := if IsAcceptedDeletion(entry) then RestoredToBaseline(q.disk, item)
                    else Patch(q.disk, item.path, item.candidate),
            accepted := Patch(q.accepted, item.path, entry.acceptedBefore),
            items := q.items[item.path := item.(autoProcessing := false, reviewRequired := Some(true))]))
  }

  /** What is left of undoing an entry that raises: a deleted file is put back before anything can raise. */
  function Interrupted(q: Queue, entry: Entry): Queue {
    if IsAcceptedDeletion(entry) && entry.item.baseline.Some? then q.(disk := RestoredToBaseline(q.disk, entry.item)) else q
  }

  function UndoLast(q: Queue): (r: Result<Queue, QueueError>)
    requires q.history != []
    ensures r.Ok? ==> r.value.history == q.history[..|q.history| - 1]
  {
    var last := |q.history| - 1;
    match UndoEntry(q, q.history[last])
    case Err(error) => Err(error)
    case Ok(q1) => Ok(q1.(history := q.history[..last]))
  }

  /** Undo the last entries until `position` are left. */
  function UndoDownTo(q: Queue, position: nat): Result<Queue, QueueError>
    requires position <= |q.history|
    decreases |q.history|
  {
    if |q.history| == position then Ok(q)
    else match UndoLast(q)
      case Err(error) => Err(error)
      case Ok(q1) => UndoDownTo(q1, position)
  }

  /** As far as undoing gets: into the first entry that cannot be undone. */
  function HalfUndone(q: Queue, position: nat): Queue
    requires position <= |q.history|
    decreases |q.history|
  {
    if |q.history| == position then q
    else match UndoLast(q)
      case Err(_) => Interrupted(q, q.history[|q.history| - 1])
      case Ok(q1) => HalfUndone(q1, position)
  }

  function EntryPosition(history: seq<Entry>, id: nat): (i: nat)
    ensures i <= |history|
    ensures i < |history| ==> history[i].id == id
    ensures forall j | 0 <= j < i :: history[j].id != id
  {
    if history == [] || history[0].id == id then 0 else 1 + EntryPosition(history[1..], id)
  }

  function Ids(entries: seq<Entry>): seq<nat> {
    seq(|entries|, i requires 0 <= i < |entries| => entries[i].id)
  }

  function Window(ids: seq<nat>): seq<nat> {
    if |ids| <= RESTORED_WINDOW then ids else ids[|ids| - RESTORED_WINDOW..]
  }

  /** `_validate_history_restore_locked`: every snapshot the entries name is still stored. */
  predicate Restorable(snapshots: set<string>, entries: seq<Entry>) {
    forall e | e in entries ::
      && (e.item.baseline.Some? ==> e.item.baseline.value in snapshots)
      && (e.item.candidate.Some? ==> e.item.candidate.value in snapshots)
  }

  /** The end of a restore: remember the identifiers and move the scan cursor. */
  function Restored(q: Queue, targets: seq<Entry>): Queue {
    q.(restored := Window(q.restored + Ids(targets)), scan := q.disk)
  }

  function RestoreFrom(q: Queue, position: nat): (Queue, Result<nat, QueueError>)
    requires position <= |q.history|
  {
    var targets := q.history[position..];
    if !Restorable(q.snapshots, targets) then (q, Err(MissingSnapshot))
    else match UndoDownTo(q, position)
      case Err(error) => (HalfUndone(q, position).(history := q.history), Err(error))
      case Ok(q1) => (Restored(q1, targets), Ok(|targets|))
  }

  /** `restore_history_before`: how many entries were undone. An undo that raises leaves the entries before
      it undone, and the history as it was. */
  function RestoreBefore(q: Queue, id: nat): (Queue, Result<nat, QueueError>) {
    var position := EntryPosition(q.history, id);
    if position == |q.history| then (q, if id in q.restored then Ok(0) else Err(UnknownKey))
    else RestoreFrom(q, position)
  }
}
