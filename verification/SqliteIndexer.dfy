/** The transactional index of `rag/indexer.py`: two tables, kept by `index_atomic` and
    `remove_atomic`. Each method is proved against the version list the tables stand for. */
module SqliteIndexer {
  import opened Wrappers
  import opened VersionedIndex
  import TextSplitter

  datatype RowKey = RowKey(document: string, sha: string)

  /** A row of `indexed_documents`. */
  datatype Row = Row(indexedAt: nat, chunkCount: nat, isCurrent: bool)

  /** The primary key of `indexed_chunks`; the table maps it to the chunk's text. */
  datatype ChunkKey = ChunkKey(document: string, sha: string, index: nat)

  datatype Receipt = Receipt(document: string, sha: string, chunkCount: nat)

  datatype IndexError = EmptyText | StaleBaseline | WriteFailed

  /** What a caller expects to be current: nothing in particular, or exactly this. */
  datatype Expectation = Unset | Expect(sha: Option<string>)

  type DocumentTable = map<RowKey, Row>
  type ChunkTable = map<ChunkKey, string>

  /** The row of a version says where it stands in the list and owns its chunks 0..n-1. */
  ghost predicate RowAgrees(documents: DocumentTable, chunks: ChunkTable, clock: nat,
                            document: string, versions: seq<Version>, i: nat)
    requires i < |versions|
  {
    var v, key := versions[i], RowKey(document, versions[i].sha);
    && key in documents
    && documents[key].isCurrent == (i == 0)
    && documents[key].chunkCount == |v.chunks|
    && documents[key].indexedAt < clock
    && (forall k | 0 <= k < |v.chunks| ::
          ChunkKey(document, v.sha, k) in chunks && chunks[ChunkKey(document, v.sha, k)] == v.chunks[k])
  }

  function Stamp(documents: DocumentTable, document: string, sha: string): int {
    if RowKey(document, sha) in documents then documents[RowKey(document, sha)].indexedAt else -1
  }

  /** Versions further back were indexed earlier. */
  ghost predicate NewestFirst(documents: DocumentTable, document: string, versions: seq<Version>) {
    forall i, j | 0 <= i < j < |versions| ::
      Stamp(documents, document, versions[j].sha) < Stamp(documents, document, versions[i].sha)
  }

  /** The tables of one document stand for `versions`. */
  ghost predicate DocumentAgrees(documents: DocumentTable, chunks: ChunkTable, clock: nat,
                                 document: string, versions: seq<Version>)
  {
    && Distinct(versions)
    && (forall i | 0 <= i < |versions| :: RowAgrees(documents, chunks, clock, document, versions, i))
    && NewestFirst(documents, document, versions)
    && (forall sha | RowKey(document, sha) in documents :: Holds(versions, sha))
    && (forall sha, k: nat | ChunkKey(document, sha, k) in chunks ::
          Holds(versions, sha) && k < |versions[Position(versions, sha)].chunks|)
  }

  ghost predicate Represents(documents: DocumentTable, chunks: ChunkTable, clock: nat, index: Index) {
    forall document :: DocumentAgrees(documents, chunks, clock, document, VersionsOf(index, document))
  }

  /** What indexing answers: the transaction commits only for the expected version and a full write. */
  function IndexResult(document: string, sha: string, texts: seq<string>, expected: Expectation,
                       current: Option<string>, writeFault: Option<nat>): Result<Receipt, IndexError>
  {
    if texts == [] then Err(EmptyText)
    else if expected.Expect? && expected.sha != current then Err(StaleBaseline)
    else if writeFault.Some? && writeFault.value < |texts| then Err(WriteFailed)
    else Ok(Receipt(document, sha, |texts|))
  }

  class Indexer {
    const chunkSize: nat
    const chunkOverlap: nat
    var documents: DocumentTable
    var chunks: ChunkTable
    var clock: nat
    ghost var index: Index

    ghost predicate Valid()
      reads this
    {
      chunkOverlap < chunkSize && Represents(documents, chunks, clock, index)
    }

    constructor (chunkSize: nat, chunkOverlap: nat)
      requires chunkOverlap < chunkSize
      ensures Valid() && index == map[]
      ensures this.chunkSize == chunkSize && this.chunkOverlap == chunkOverlap
    {
      this.chunkSize, this.chunkOverlap := chunkSize, chunkOverlap;
      documents, chunks, clock, index := map[], map[], 0, map[];
    }

    function Texts(text: string): seq<string>
      requires chunkOverlap < chunkSize
    {
      TextSplitter.SplitText(text, chunkSize, chunkOverlap)
    }

    /** The digest of the row with `is_current = 1`, if there is one. */
    method GetCurrent(document: string) returns (current: Option<string>)
      requires Valid()
      ensures current == CurrentOf(index, document)
    {
      ghost var versions := VersionsOf(index, document);
      assert DocumentAgrees(documents, chunks, clock, document, versions);
      assert versions == [] || RowAgrees(documents, chunks, clock, document, versions, 0);
      if key :| key in documents && key.document == document && documents[key].isCurrent {
        current := Some(key.sha);
        assert RowKey(document, key.sha) in documents && Holds(versions, key.sha);
        assert RowAgrees(documents, chunks, clock, document, versions, Position(versions, key.sha));
      } else {
        current := None;
      }
    }

    /** `_write_chunks`, inside the caller's transaction; `writeFault` is the insertion that raises. */
    method WriteChunks(document: string, sha: string, texts: seq<string>, writeFault: Option<nat>)
      returns (written: bool)
      modifies this`chunks
      ensures written == !(writeFault.Some? && writeFault.value < |texts|)
      ensures written ==> chunks == WithChunks(old(chunks), document, sha, texts)
    {
      for i := 0 to |texts|
        invariant writeFault.Some? ==> i <= writeFault.value
        invariant chunks == WithChunks(old(chunks), document, sha, texts[..i])
      {
        if writeFault == Some(i) {
          return false;
        }
        chunks := chunks[ChunkKey(document, sha, i) := texts[i]];
        WithChunksSnoc(old(chunks), document, sha, texts, i);
      }
      assert texts[..|texts|] == texts;
      return true;
    }

    /** `index_atomic`. `writeFault` is the chunk whose insertion raises, if any. */
    method IndexAtomic(document: string, sha: string, text: string, expected: Expectation, writeFault: Option<nat>)
      returns (result: Result<Receipt, IndexError>)
      requires Valid()
      modifies this
      ensures Valid()
      ensures result == IndexResult(document, sha, Texts(text), expected, CurrentOf(old(index), document), writeFault)
      ensures result.Ok? <==>
                && Texts(text) != [] && (expected.Expect? ==> expected.sha == CurrentOf(old(index), document))
                && (writeFault.Some? ==> writeFault.value >= |Texts(text)|)
      ensures result == Err(StaleBaseline) <==>
                Texts(text) != [] && expected.Expect? && expected.sha != CurrentOf(old(index), document)
      ensures result.Ok? ==> result.value == Receipt(document, sha, |Texts(text)|)
      ensures result.Ok? ==> index == Stored(old(index), document, Version(sha, Texts(text)))
      ensures result.Err? ==> documents == old(documents) && chunks == old(chunks) && index == old(index)
    {
      var texts := TextSplitter.Split(text, chunkSize, chunkOverlap);
      if texts == [] {
        return Err(EmptyText);
      }
      var indexedAt := clock;
      clock := clock + 1;
      LaterClock(documents, chunks, indexedAt, clock, index);
      result := Transact(document, sha, texts, expected, indexedAt, writeFault);
    }

    /** The transaction of `index_atomic`: it checks the current version, writes, and rolls back what it wrote
        if a write raises. */
    method Transact(document: string, sha: string, texts: seq<string>, expected: Expectation, indexedAt: nat,
                    writeFault: Option<nat>)
      returns (result: Result<Receipt, IndexError>)
      requires Valid() && Represents(documents, chunks, indexedAt, index) && clock == indexedAt + 1 && texts != []
      modifies this`documents, this`chunks, this`index
      ensures Valid()
      ensures result == IndexResult(document, sha, texts, expected, CurrentOf(old(index), document), writeFault)
      ensures result.Ok? ==> index == Stored(old(index), document, Version(sha, texts))
      ensures result.Err? ==> documents == old(documents) && chunks == old(chunks) && index == old(index)
    {
      var savedDocuments, savedChunks := documents, chunks;  // BEGIN IMMEDIATE
      if expected.Expect? {
        var current := GetCurrent(document);
        if current != expected.sha {
          return Err(StaleBaseline);
        }
      }
      var written := WriteVersion(document, sha, texts, indexedAt, writeFault);
      if !written {
        documents, chunks := savedDocuments, savedChunks;  // ROLLBACK
        return Err(WriteFailed);
      }
      index := Stored(index, document, Version(sha, texts));
      IndexedRepresents(savedDocuments, savedChunks, indexedAt, old(index), document, Version(sha, texts));
      return Ok(Receipt(document, sha, |texts|));
    }

    /** The writes of the transaction: the row becomes the current one, and its chunks are replaced. */
    method WriteVersion(document: string, sha: string, texts: seq<string>, indexedAt: nat, writeFault: Option<nat>)
      returns (written: bool)
      modifies this`documents, this`chunks
      ensures written == !(writeFault.Some? && writeFault.value < |texts|)
      ensures written ==> documents == IndexedRows(old(documents), document, sha, indexedAt, |texts|)
      ensures written ==> chunks == WithChunks(WithoutChunks(old(chunks), document, sha), document, sha, texts)
    {
      documents := WithoutCurrent(documents, document);
      documents := documents[RowKey(document, sha) := Row(indexedAt, |texts|, true)];
      chunks := WithoutChunks(chunks, document, sha);
      written := WriteChunks(document, sha, texts, writeFault);
    }

    /** `remove_atomic`: drop one version; if it was current, its newest predecessor takes over. With `fault`
        a statement raises, and the transaction is rolled back. */
    method RemoveAtomic(document: string, sha: string, fault: bool) returns (removed: Option<bool>)
      requires Valid()
      modifies this
      ensures Valid()
      ensures removed == if fault then None else Some(Holds(VersionsOf(old(index), document), sha))
      ensures index == if fault then old(index) else Removed(old(index), document, sha)
      ensures fault ==> documents == old(documents) && chunks == old(chunks)
      ensures clock == old(clock)
    {
      ghost var versions := VersionsOf(index, document);
      assert DocumentAgrees(documents, chunks, clock, document, versions);
      var target := RowKey(document, sha);
      assert Holds(versions, sha) ==> RowAgrees(documents, chunks, clock, document, versions, Position(versions, sha));
      if target !in documents {
        return if fault then None else Some(false);
      }
      var savedDocuments, savedChunks := documents, chunks;  // BEGIN IMMEDIATE
      DeleteVersion(document, sha);
      if fault {
        documents, chunks := savedDocuments, savedChunks;  // ROLLBACK
        return None;
      }
      RemovedRepresents(savedDocuments, savedChunks, clock, index, document, sha);
      index := Removed(index, document, sha);
      return Some(true);
    }

    /** The writes of the transaction: the row and its chunks go, and the newest row left becomes current if
        the deleted one was. */
    method DeleteVersion(document: string, sha: string)
      requires Valid() && RowKey(document, sha) in documents
      modifies this`documents, this`chunks
      ensures documents == RemovedRows(old(documents), document, VersionsOf(index, document), sha)
      ensures chunks == WithoutChunks(old(chunks), document, sha)
    {
      ghost var versions := VersionsOf(index, document);
      assert DocumentAgrees(documents, chunks, clock, document, versions);
      assert Holds(versions, sha);
      assert RowAgrees(documents, chunks, clock, document, versions, Position(versions, sha));
      ghost var before, texts := documents, chunks;
      var wasCurrent := documents[RowKey(document, sha)].isCurrent;
      documents := Left(documents, document, sha);
      chunks := WithoutChunks(chunks, document, sha);
      if wasCurrent {
        NextIsNewest(before, texts, clock, document, versions, documents);
        if key :| key in documents && key.document == document
                  && forall other | other in documents && other.document == document ::
                       documents[other].indexedAt <= documents[key].indexedAt {
          assert Newest(documents, document, key);
          documents := documents[key := documents[key].(isCurrent := true)];
        }
      }
    }
  }

  // ---------------------------------------------------------------- tables and lists stay in step

  /** UPDATE indexed_documents SET is_current = 0 for one document. */
  function WithoutCurrent(documents: DocumentTable, document: string): DocumentTable {
    map key | key in documents ::
      if key.document == document && documents[key].isCurrent
      then documents[key].(isCurrent := false) else documents[key]
  }

  /** The rows after a version was made current. */
  function IndexedRows(documents: DocumentTable, document: string, sha: string, indexedAt: nat, count: nat): DocumentTable {
    WithoutCurrent(documents, document)[RowKey(document, sha) := Row(indexedAt, count, true)]
  }

  /** The chunk rows with rows 0..n-1 of one version added. */
  function WithChunks(chunks: ChunkTable, document: string, sha: string, texts: seq<string>): ChunkTable {
    map key | key in chunks.Keys + ChunkKeys(document, sha, |texts|) ::
      if key.document == document && key.sha == sha && key.index < |texts| then texts[key.index] else chunks[key]
  }

  function ChunkKeys(document: string, sha: string, n: nat): set<ChunkKey> {
    set k: nat | k < n :: ChunkKey(document, sha, k)
  }

  lemma WithChunksSnoc(chunks: ChunkTable, document: string, sha: string, texts: seq<string>, i: nat)
    requires i < |texts|
    ensures WithChunks(chunks, document, sha, texts[..i + 1])
         == WithChunks(chunks, document, sha, texts[..i])[ChunkKey(document, sha, i) := texts[i]]
  {
  }

  function WithoutChunks(chunks: ChunkTable, document: string, sha: string): ChunkTable {
    map key | key in chunks && !(key.document == document && key.sha == sha) :: chunks[key]
  }

  lemma LaterClock(documents: DocumentTable, chunks: ChunkTable, clock: nat, later: nat, index: Index)
    requires Represents(documents, chunks, clock, index) && clock <= later
    ensures Represents(documents, chunks, later, index)
  {
    forall d ensures DocumentAgrees(documents, chunks, later, d, VersionsOf(index, d)) {
      var versions := VersionsOf(index, d);
      assert DocumentAgrees(documents, chunks, clock, d, versions);
      forall i | 0 <= i < |versions| ensures RowAgrees(documents, chunks, later, d, versions, i) {
        assert RowAgrees(documents, chunks, clock, d, versions, i);
      }
    }
  }

  /** The tables hold the same for `document`. */
  ghost predicate SameFor(documents: DocumentTable, chunks: ChunkTable,
                          documents': DocumentTable, chunks': ChunkTable, document: string)
  {
    && (forall sha :: RowKey(document, sha) in documents <==> RowKey(document, sha) in documents')
    && (forall sha | RowKey(document, sha) in documents ::
          documents[RowKey(document, sha)] == documents'[RowKey(document, sha)])
    && (forall sha, k: nat :: ChunkKey(document, sha, k) in chunks <==> ChunkKey(document, sha, k) in chunks')
    && (forall sha, k: nat | ChunkKey(document, sha, k) in chunks ::
          chunks[ChunkKey(document, sha, k)] == chunks'[ChunkKey(document, sha, k)])
  }

  lemma SameForAgrees(documents: DocumentTable, chunks: ChunkTable, documents': DocumentTable, chunks': ChunkTable,
                      clock: nat, later: nat, document: string, versions: seq<Version>)
    requires clock <= later && SameFor(documents, chunks, documents', chunks', document)
    requires DocumentAgrees(documents, chunks, clock, document, versions)
    ensures DocumentAgrees(documents', chunks', later, document, versions)
  {
    forall i | 0 <= i < |versions| ensures RowAgrees(documents', chunks', later, document, versions, i) {
      assert RowAgrees(documents, chunks, clock, document, versions, i);
    }
  }

  lemma IndexedRepresents(documents: DocumentTable, chunks: ChunkTable, clock: nat, index: Index,
                          document: string, version: Version)
    requires Represents(documents, chunks, clock, index)
    ensures Represents(IndexedRows(documents, document, version.sha, clock, |version.chunks|),
                       WithChunks(WithoutChunks(chunks, document, version.sha), document, version.sha, version.chunks), clock + 1,
                       Stored(index, document, version))
  {
    var documents' := IndexedRows(documents, document, version.sha, clock, |version.chunks|);
    var chunks' := WithChunks(WithoutChunks(chunks, document, version.sha), document, version.sha, version.chunks);
    var index' := Stored(index, document, version);
    forall d ensures DocumentAgrees(documents', chunks', clock + 1, d, VersionsOf(index', d)) {
      assert DocumentAgrees(documents, chunks, clock, d, VersionsOf(index, d));
      if d == document {
        IndexedAgrees(documents, chunks, clock, document, VersionsOf(index, document), version);
      } else {
        SameForAgrees(documents, chunks, documents', chunks', clock, clock + 1, d, VersionsOf(index, d));
      }
    }
  }

  lemma IndexedAgrees(documents: DocumentTable, chunks: ChunkTable, clock: nat, document: string,
                      versions: seq<Version>, version: Version)
    requires DocumentAgrees(documents, chunks, clock, document, versions)
    ensures DocumentAgrees(IndexedRows(documents, document, version.sha, clock, |version.chunks|),
                           WithChunks(WithoutChunks(chunks, document, version.sha), document, version.sha, version.chunks),
                           clock + 1, document, Promote(versions, version))
  {
    var documents' := IndexedRows(documents, document, version.sha, clock, |version.chunks|);
    var versions' := Promote(versions, version);
    PromoteLaws(versions, version);
    forall j: nat {:trigger versions'[j]} | j < |versions'|
      ensures RowAgrees(documents', WithChunks(WithoutChunks(chunks, document, version.sha), document, version.sha, version.chunks),
                        clock + 1, document, versions', j)
    {
      IndexedRow(documents, chunks, clock, document, versions, version, j);
    }
    forall i, j | 0 <= i < j < |versions'|
      ensures Stamp(documents', document, versions'[j].sha) < Stamp(documents', document, versions'[i].sha)
    {
      IndexedStamps(documents, chunks, clock, document, versions, version, i, j);
    }
    forall sha, k: nat | ChunkKey(document, sha, k) in
        WithChunks(WithoutChunks(chunks, document, version.sha), document, version.sha, version.chunks)
      ensures Holds(versions', sha) && k < |versions'[Position(versions', sha)].chunks|
    {
      if sha != version.sha {
        assert ChunkKey(document, sha, k) in chunks && Holds(versions, sha);
        PromotedElsewhere(versions, version, sha);
      }
    }
  }

  /** Where the versions other than the promoted one went. */
  function OldPlace(versions: seq<Version>, sha: string, j: nat): (i: nat)
    requires 0 < j < |versions| + (if Holds(versions, sha) then 0 else 1)
    ensures i < |versions|
  {
    if j - 1 < Position(versions, sha) then j - 1 else j
  }

  lemma BehindPosition(versions: seq<Version>, sha: string, i: nat)
    requires Distinct(versions) && i < |versions| && i != Position(versions, sha)
    ensures versions[i].sha != sha
  {
    var at := Position(versions, sha);
    if at < i { assert versions[i].sha != versions[at].sha; }
  }

  lemma OldPlaceIs(versions: seq<Version>, version: Version, j: nat)
    requires 0 < j < |Promote(versions, version)| && Distinct(versions)
    ensures Promote(versions, version)[j] == versions[OldPlace(versions, version.sha, j)]
    ensures versions[OldPlace(versions, version.sha, j)].sha != version.sha
  {
    BehindPosition(versions, version.sha, OldPlace(versions, version.sha, j));
  }

  /** Where the versions other than the promoted one go. */
  function NewPlace(versions: seq<Version>, sha: string, i: nat): nat {
    if i < Position(versions, sha) then i + 1 else i
  }

  lemma NewPlaceIs(versions: seq<Version>, version: Version, i: nat)
    requires i < |versions| && versions[i].sha != version.sha
    ensures var j := NewPlace(versions, version.sha, i);
            j < |Promote(versions, version)| && Promote(versions, version)[j] == versions[i]
  {
  }

  lemma PromotedElsewhere(versions: seq<Version>, version: Version, sha: string)
    requires Distinct(versions) && Holds(versions, sha) && sha != version.sha
    ensures var versions' := Promote(versions, version);
            Holds(versions', sha) && versions'[Position(versions', sha)] == versions[Position(versions, sha)]
  {
    var i := Position(versions, sha);
    NewPlaceIs(versions, version, i);
    PromoteLaws(versions, version);
    PositionOf(Promote(versions, version), NewPlace(versions, version.sha, i));
  }

  lemma IndexedRow(documents: DocumentTable, chunks: ChunkTable, clock: nat, document: string,
                   versions: seq<Version>, version: Version, j: nat)
    requires DocumentAgrees(documents, chunks, clock, document, versions) && j < |Promote(versions, version)|
    ensures RowAgrees(IndexedRows(documents, document, version.sha, clock, |version.chunks|),
                      WithChunks(WithoutChunks(chunks, document, version.sha), document, version.sha, version.chunks),
                      clock + 1, document, Promote(versions, version), j)
  {
    if j > 0 {
      var i := OldPlace(versions, version.sha, j);
      OldPlaceIs(versions, version, j);
      DemotedRow(documents, chunks, clock, document, versions, version, i);
    }
  }

  /** A version that was not indexed keeps its chunks and is no longer current. */
  lemma DemotedRow(documents: DocumentTable, chunks: ChunkTable, clock: nat, document: string,
                   versions: seq<Version>, version: Version, i: nat)
    requires i < |versions| && RowAgrees(documents, chunks, clock, document, versions, i) && versions[i].sha != version.sha
    ensures var documents' := IndexedRows(documents, document, version.sha, clock, |version.chunks|);
            var chunks' := WithChunks(WithoutChunks(chunks, document, version.sha), document, version.sha, version.chunks);
            var v, key := versions[i], RowKey(document, versions[i].sha);
            && key in documents' && documents'[key] == documents[key].(isCurrent := false)
            && forall k | 0 <= k < |v.chunks| ::
                 ChunkKey(document, v.sha, k) in chunks' && chunks'[ChunkKey(document, v.sha, k)] == v.chunks[k]
  {
  }

  lemma IndexedStamp(documents: DocumentTable, clock: nat, document: string,
                     versions: seq<Version>, version: Version, j: nat)
    requires Distinct(versions) && j < |Promote(versions, version)|
    ensures Stamp(IndexedRows(documents, document, version.sha, clock, |version.chunks|), document,
                  Promote(versions, version)[j].sha)
         == if j == 0 then clock else Stamp(documents, document, versions[OldPlace(versions, version.sha, j)].sha)
  {
    if j > 0 { OldPlaceIs(versions, version, j); }
  }

  lemma IndexedStamps(documents: DocumentTable, chunks: ChunkTable, clock: nat, document: string,
                      versions: seq<Version>, version: Version, i: nat, j: nat)
    requires DocumentAgrees(documents, chunks, clock, document, versions) && i < j < |Promote(versions, version)|
    ensures var documents', versions' :=
              IndexedRows(documents, document, version.sha, clock, |version.chunks|), Promote(versions, version);
            Stamp(documents', document, versions'[j].sha) < Stamp(documents', document, versions'[i].sha)
  {
    IndexedStamp(documents, clock, document, versions, version, i);
    IndexedStamp(documents, clock, document, versions, version, j);
    var m := OldPlace(versions, version.sha, j);
    if i == 0 {
      assert RowAgrees(documents, chunks, clock, document, versions, m);
    } else {
      var k := OldPlace(versions, version.sha, i);
      assert k < m;
      OlderIsLater(documents, document, versions, k, m);
      OlderIsLater(documents, document, versions, m, k);
    }
  }

  // ---------------------------------------------------------------- removal

  /** The rows after a version was deleted: its next version is current if it was. */
  ghost function RemovedRows(documents: DocumentTable, document: string, versions: seq<Version>, sha: string): DocumentTable
  {
    var left := Left(documents, document, sha);
    if versions != [] && versions[0].sha == sha && |versions| > 1 && RowKey(document, versions[1].sha) in left then
      left[RowKey(document, versions[1].sha) := left[RowKey(document, versions[1].sha)].(isCurrent := true)]
    else left
  }

  /** Order in the list is order in time. */
  lemma OlderIsLater(documents: DocumentTable, document: string, versions: seq<Version>, i: nat, j: nat)
    requires i < |versions| && j < |versions| && NewestFirst(documents, document, versions)
    ensures Stamp(documents, document, versions[i].sha) <= Stamp(documents, document, versions[j].sha) <==> j <= i
  {
  }

  /** The rows left after deleting the current one. */
  function Left(documents: DocumentTable, document: string, sha: string): DocumentTable {
    map key | key in documents && key != RowKey(document, sha) :: documents[key]
  }

  /** `key` is the newest row of `document`. */
  ghost predicate Newest(left: DocumentTable, document: string, key: RowKey) {
    && key in left && key.document == document
    && forall other | other in left && other.document == document :: left[other].indexedAt <= left[key].indexedAt
  }

  /** The next version, if there is one, is the newest row left after deleting the current one. */
  lemma NextIsNewest(documents: DocumentTable, chunks: ChunkTable, clock: nat, document: string,
                     versions: seq<Version>, left: DocumentTable)
    requires versions != [] && DocumentAgrees(documents, chunks, clock, document, versions)
    requires left == Left(documents, document, versions[0].sha)
    ensures |versions| > 1 ==> Newest(left, document, RowKey(document, versions[1].sha))
    ensures forall key | Newest(left, document, key) :: |versions| > 1 && key.sha == versions[1].sha
  {
    forall key | key in left && key.document == document
      ensures |versions| > 1 && Stamp(documents, document, key.sha) <= Stamp(documents, document, versions[1].sha)
      ensures Stamp(documents, document, versions[1].sha) <= Stamp(documents, document, key.sha) ==> key.sha == versions[1].sha
    {
      var i := Position(versions, key.sha);
      assert key == RowKey(document, key.sha) && Holds(versions, key.sha) && versions[i].sha == key.sha;
      assert i > 0;
      OlderIsLater(documents, document, versions, 1, i);
      OlderIsLater(documents, document, versions, i, 1);
    }
    if |versions| > 1 {
      assert RowAgrees(documents, chunks, clock, document, versions, 1);
      assert versions[1].sha != versions[0].sha;
    }
  }

  lemma RemovedRepresents(documents: DocumentTable, chunks: ChunkTable, clock: nat, index: Index,
                          document: string, sha: string)
    requires Represents(documents, chunks, clock, index)
    ensures Represents(RemovedRows(documents, document, VersionsOf(index, document), sha),
                       WithoutChunks(chunks, document, sha), clock, Removed(index, document, sha))
  {
    var versions := VersionsOf(index, document);
    var documents' := RemovedRows(documents, document, versions, sha);
    var chunks' := WithoutChunks(chunks, document, sha);
    var index' := Removed(index, document, sha);
    forall d ensures DocumentAgrees(documents', chunks', clock, d, VersionsOf(index', d)) {
      assert DocumentAgrees(documents, chunks, clock, d, VersionsOf(index, d));
      if d == document {
        RemovedAgrees(documents, chunks, clock, document, versions, sha);
        WithoutLaws(versions, sha);
      } else {
        SameForAgrees(documents, chunks, documents', chunks', clock, clock, d, VersionsOf(index, d));
      }
    }
  }

  lemma RemovedAgrees(documents: DocumentTable, chunks: ChunkTable, clock: nat, document: string,
                      versions: seq<Version>, sha: string)
    requires DocumentAgrees(documents, chunks, clock, document, versions)
    ensures DocumentAgrees(RemovedRows(documents, document, versions, sha), WithoutChunks(chunks, document, sha),
                           clock, document, Without(versions, sha))
  {
    var documents', versions' := RemovedRows(documents, document, versions, sha), Without(versions, sha);
    WithoutLaws(versions, sha);
    forall j: nat {:trigger versions'[j]} | j < |versions'|
      ensures RowAgrees(documents', WithoutChunks(chunks, document, sha), clock, document, versions', j)
    {
      RemovedRow(documents, chunks, clock, document, versions, sha, j);
    }
    RemovedStamps(documents, document, versions, sha);
    forall s, k: nat | ChunkKey(document, s, k) in WithoutChunks(chunks, document, sha)
      ensures Holds(versions', s) && k < |versions'[Position(versions', s)].chunks|
    {
      assert ChunkKey(document, s, k) in chunks && s != sha;
      LeftElsewhere(versions, sha, s);
    }
  }

  lemma RemovedStamps(documents: DocumentTable, document: string, versions: seq<Version>, sha: string)
    requires Distinct(versions) && NewestFirst(documents, document, versions)
    ensures NewestFirst(RemovedRows(documents, document, versions, sha), document, Without(versions, sha))
  {
    var documents', versions' := RemovedRows(documents, document, versions, sha), Without(versions, sha);
    forall i, j | 0 <= i < j < |versions'|
      ensures Stamp(documents', document, versions'[j].sha) < Stamp(documents', document, versions'[i].sha)
    {
      RemovedStamp(documents, document, versions, sha, i);
      RemovedStamp(documents, document, versions, sha, j);
      OlderIsLater(documents, document, versions, PlaceBefore(versions, sha, i), PlaceBefore(versions, sha, j));
    }
  }

  lemma LeftElsewhere(versions: seq<Version>, sha: string, other: string)
    requires Distinct(versions) && Holds(versions, other) && other != sha
    ensures var versions' := Without(versions, sha);
            Holds(versions', other) && versions'[Position(versions', other)] == versions[Position(versions, other)]
  {
    WithoutLaws(versions, sha);
    var i, at := Position(versions, other), Position(versions, sha);
    var j := if i < at then i else i - 1;
    assert Without(versions, sha)[j] == versions[i];
    PositionOf(Without(versions, sha), j);
  }

  /** Where the versions left came from. */
  function PlaceBefore(versions: seq<Version>, sha: string, j: nat): nat {
    if j < Position(versions, sha) then j else j + 1
  }

  lemma RemovedRow(documents: DocumentTable, chunks: ChunkTable, clock: nat, document: string,
                   versions: seq<Version>, sha: string, j: nat)
    requires DocumentAgrees(documents, chunks, clock, document, versions) && j < |Without(versions, sha)|
    ensures RowAgrees(RemovedRows(documents, document, versions, sha), WithoutChunks(chunks, document, sha), clock,
                      document, Without(versions, sha), j)
  {
    var i := PlaceBefore(versions, sha, j);
    RemovedStamp(documents, document, versions, sha, j);
    assert RowAgrees(documents, chunks, clock, document, versions, i);
    if i > 1 { assert versions[i].sha != versions[1].sha; }
  }

  lemma PlaceBeforeIs(versions: seq<Version>, sha: string, j: nat)
    requires Distinct(versions) && j < |Without(versions, sha)|
    ensures var i := PlaceBefore(versions, sha, j);
            i < |versions| && Without(versions, sha)[j] == versions[i] && versions[i].sha != sha
  {
    BehindPosition(versions, sha, PlaceBefore(versions, sha, j));
  }

  lemma OtherStampsStay(documents: DocumentTable, document: string, versions: seq<Version>, sha: string, other: string)
    requires other != sha
    ensures Stamp(RemovedRows(documents, document, versions, sha), document, other) == Stamp(documents, document, other)
  {
  }

  lemma RemovedStamp(documents: DocumentTable, document: string, versions: seq<Version>, sha: string, j: nat)
    requires Distinct(versions) && j < |Without(versions, sha)|
    ensures var i := PlaceBefore(versions, sha, j);
            && i < |versions| && Without(versions, sha)[j] == versions[i] && versions[i].sha != sha
            && Stamp(RemovedRows(documents, document, versions, sha), document, versions[i].sha)
               == Stamp(documents, document, versions[i].sha)
  {
    PlaceBeforeIs(versions, sha, j);
    OtherStampsStay(documents, document, versions, sha, versions[PlaceBefore(versions, sha, j)].sha);
  }

  /** The tables stand for one list only: it can be read back from them. */
  lemma ListIsDetermined(documents: DocumentTable, chunks: ChunkTable, clock: nat, document: string,
                         a: seq<Version>, b: seq<Version>)
    requires DocumentAgrees(documents, chunks, clock, document, a)
    requires DocumentAgrees(documents, chunks, clock, document, b)
    ensures a == b
  {
    forall i: nat | i < |a| ensures Holds(b, a[i].sha) && a[i].chunks == b[Position(b, a[i].sha)].chunks {
      assert RowAgrees(documents, chunks, clock, document, a, i);
      var k := Position(b, a[i].sha);
      assert RowAgrees(documents, chunks, clock, document, b, k);
    }
    forall i: nat | i < |b| ensures Holds(a, b[i].sha) {
      assert RowAgrees(documents, chunks, clock, document, b, i);
    }
    SameOrder(documents, document, a, b);
  }

  /** Two lists of the same versions, each newest first, are equal. */
  lemma {:induction false} SameOrder(documents: DocumentTable, document: string, a: seq<Version>, b: seq<Version>)
    requires Distinct(a) && Distinct(b)
    requires NewestFirst(documents, document, a) && NewestFirst(documents, document, b)
    requires forall i: nat | i < |a| :: Holds(b, a[i].sha) && a[i].chunks == b[Position(b, a[i].sha)].chunks
    requires forall i: nat | i < |b| :: Holds(a, b[i].sha)
    ensures a == b
  {
    if a == [] {
      assert |b| > 0 ==> Holds(a, b[0].sha);
    } else {
      var k := Position(b, a[0].sha);
      assert Holds(b, a[0].sha) && b[k].sha == a[0].sha;
      var m := Position(a, b[0].sha);
      assert Holds(a, b[0].sha) && a[m].sha == b[0].sha;
      OlderIsLater(documents, document, b, 0, k);
      OlderIsLater(documents, document, a, m, 0);
      assert a[0] == b[0];
      forall i: nat | i < |a[1..]|
        ensures Holds(b[1..], a[1..][i].sha) && a[1..][i].chunks == b[1..][Position(b[1..], a[1..][i].sha)].chunks
      {
        assert Holds(b, a[i + 1].sha) && a[i + 1].sha != a[0].sha;
        assert Position(b, a[i + 1].sha) == 1 + Position(b[1..], a[i + 1].sha);
      }
      forall i: nat | i < |b[1..]| ensures Holds(a[1..], b[1..][i].sha) {
        assert Holds(a, b[i + 1].sha) && b[i + 1].sha != b[0].sha;
        assert Position(a, b[i + 1].sha) == 1 + Position(a[1..], b[i + 1].sha);
      }
      SameOrder(documents, document, a[1..], b[1..]);
      assert a == [a[0]] + a[1..] && b == [b[0]] + b[1..];
    }
  }
}
