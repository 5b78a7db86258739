/** Searching the current index (`search_current_snapshot`, `_score_rows`, `search_snapshot`): every
    response is valid, and the ranking does not depend on the order in which rows are read. */
module Search {
  import opened Wrappers
  import opened VersionedIndex
  import opened SqliteIndexer
  import TextSplitter

  /** A chunk of a current version. */
  datatype ChunkRow = ChunkRow(document: string, sha: string, index: nat, text: string)

  datatype Hit = Hit(row: ChunkRow, score: int)

  // ---------------------------------------------------------------- the ranking order

  /** The order of strings: character by character, a prefix first. */
  predicate Before(a: string, b: string) {
    b != "" && (a == "" || a[0] < b[0] || (a[0] == b[0] && Before(a[1..], b[1..])))
  }

  lemma {:induction false} BeforeIsTotal(a: string, b: string)
    ensures Before(a, b) || Before(b, a) || a == b
    ensures !(Before(a, b) && Before(b, a)) && !Before(a, a)
  {
    if a != "" {
      BeforeIsTotal(a[1..], a[1..]);
    }
    if a != "" && b != "" {
      BeforeIsTotal(a[1..], b[1..]);
      if a[0] == b[0] && a[1..] == b[1..] {
        assert a == [a[0]] + a[1..] && b == [b[0]] + b[1..];
      }
    }
  }

  lemma {:induction false} BeforeIsTransitive(a: string, b: string, c: string)
    requires Before(a, b) && Before(b, c)
    ensures Before(a, c)
  {
    if a != "" && a[0] == b[0] && b[0] == c[0] {
      BeforeIsTransitive(a[1..], b[1..], c[1..]);
    }
  }

  /** The same order, by the first place where the two strings differ. */
  ghost predicate Precedes(a: string, b: string) {
    exists k: nat :: DiffersAt(a, b, k)
  }

  /** The strings agree before `k`; there the first one ends, or has the smaller character. */
  ghost predicate DiffersAt(a: string, b: string, k: nat) {
    && k <= |a| && k < |b| && (forall i | 0 <= i < k :: a[i] == b[i])
    && (k < |a| ==> a[k] < b[k])
  }

  lemma {:induction false} BeforeExactly(a: string, b: string)
    ensures Before(a, b) <==> Precedes(a, b)
  {
    if b != "" && (a == "" || a[0] != b[0]) {
      if Before(a, b) { assert DiffersAt(a, b, 0); }
    } else if b != "" {
      BeforeExactly(a[1..], b[1..]);
      if Before(a, b) {
        var k: nat :| DiffersAt(a[1..], b[1..], k);
        assert forall i | 1 <= i < k + 1 :: a[i] == a[1..][i - 1] && b[i] == b[1..][i - 1];
        assert k < |a[1..]| ==> a[k + 1] == a[1..][k] && b[k + 1] == b[1..][k];
        assert b[k + 1] == b[1..][k];
        assert DiffersAt(a, b, k + 1);
      }
      if Precedes(a, b) {
        var k: nat :| DiffersAt(a, b, k);
        assert DiffersAt(a[1..], b[1..], k - 1);
      }
    }
  }

  /** Higher scores first, then by document, then by place in it. */
  predicate Outranks(a: Hit, b: Hit) {
    || a.score > b.score
    || (a.score == b.score && Before(a.row.document, b.row.document))
    || (a.score == b.score && a.row.document == b.row.document && a.row.index < b.row.index)
  }

  predicate SamePlace(a: Hit, b: Hit) {
    a.score == b.score && a.row.document == b.row.document && a.row.index == b.row.index
  }

  lemma OutranksIsTotal(a: Hit, b: Hit)
    ensures Outranks(a, b) || Outranks(b, a) || SamePlace(a, b)
    ensures !(Outranks(a, b) && Outranks(b, a)) && !(Outranks(a, b) && SamePlace(a, b))
  {
    BeforeIsTotal(a.row.document, b.row.document);
  }

  lemma OutranksIsTransitive(a: Hit, b: Hit, c: Hit)
    requires Outranks(a, b) && Outranks(b, c)
    ensures Outranks(a, c)
  {
    if Before(a.row.document, b.row.document) && Before(b.row.document, c.row.document) {
      BeforeIsTransitive(a.row.document, b.row.document, c.row.document);
    }
  }

  ghost predicate Ranked(hits: seq<Hit>) {
    forall i, j | 0 <= i < j < |hits| :: Outranks(hits[i], hits[j])
  }

  // ---------------------------------------------------------------- scoring and sorting

  function ScoredHits(rows: seq<ChunkRow>, score: string -> int): seq<Hit> {
    if rows == [] then []
    else
      var last := rows[|rows| - 1];
      ScoredHits(rows[..|rows| - 1], score) + if score(last.text) > 0 then [Hit(last, score(last.text))] else []
  }

  /** Where a hit goes among ranked ones: behind everything that outranks it. */
  function Insert(hits: seq<Hit>, hit: Hit): seq<Hit> {
    if hits == [] || !Outranks(hits[0], hit) then [hit] + hits else [hits[0]] + Insert(hits[1..], hit)
  }

  function Sort(hits: seq<Hit>): seq<Hit> {
    if hits == [] then [] else Insert(Sort(hits[..|hits| - 1]), hits[|hits| - 1])
  }

  function TopHits(rows: seq<ChunkRow>, score: string -> int, limit: nat): seq<Hit> {
    var hits := Sort(ScoredHits(rows, score));
    if |hits| <= limit then hits else hits[..limit]
  }

  /** `_score_rows`: collect, sort in place, cut. */
  method ScoreRows(rows: seq<ChunkRow>, score: string -> int, limit: nat) returns (hits: seq<Hit>)
    ensures hits == TopHits(rows, score, limit)
    ensures DistinctRows(rows) ==> FallsInScore(hits) && AreBest(hits, rows, score, limit)
  {
    if DistinctRows(rows) { TopHitsAreBest(rows, score, limit); }
    hits := [];
    for i := 0 to |rows|
      invariant hits == ScoredHits(rows[..i], score)
    {
      assert rows[..i + 1][..i] == rows[..i];
      var value := score(rows[i].text);
      if value > 0 {
        hits := hits + [Hit(rows[i], value)];
      }
    }
    assert rows[..|rows|] == rows;
    ghost var all := hits;
    var sorted: seq<Hit> := [];
    for i := 0 to |hits|
      invariant hits == all && sorted == Sort(all[..i])
    {
      assert all[..i + 1][..i] == all[..i];
      sorted := InsertHit(sorted, hits[i]);
    }
    assert all[..|all|] == all;
    hits := if |sorted| <= limit then sorted else sorted[..limit];
  }

  /** One step of the sort: scan for the place of the new hit. */
  method InsertHit(hits: seq<Hit>, hit: Hit) returns (result: seq<Hit>)
    ensures result == Insert(hits, hit)
  {
    var i := 0;
    while i < |hits| && Outranks(hits[i], hit)
      invariant 0 <= i <= |hits|
      invariant Insert(hits, hit) == hits[..i] + Insert(hits[i..], hit)
    {
      InsertFurther(hits, hit, i);
      i := i + 1;
    }
    InsertHere(hits[i..], hit);
    result := hits[..i] + ([hit] + hits[i..]);
  }

  lemma InsertFurther(hits: seq<Hit>, hit: Hit, i: nat)
    requires i < |hits| && Outranks(hits[i], hit)
    ensures hits[..i] + Insert(hits[i..], hit) == hits[..i + 1] + Insert(hits[i + 1..], hit)
  {
    assert hits[i..][1..] == hits[i + 1..];
    assert Insert(hits[i..], hit) == [hits[i]] + Insert(hits[i + 1..], hit);
    TextSplitter.Associative(hits[..i], [hits[i]], Insert(hits[i + 1..], hit));
    assert hits[..i + 1] == hits[..i] + [hits[i]];
  }

  lemma InsertHere(hits: seq<Hit>, hit: Hit)
    requires hits == [] || !Outranks(hits[0], hit)
    ensures Insert(hits, hit) == [hit] + hits
  {
  }

  // ---------------------------------------------------------------- the ranking is determined

  ghost predicate DistinctPlaces(hits: seq<Hit>) {
    forall i, j | 0 <= i < j < |hits| :: !SamePlace(hits[i], hits[j])
  }

  lemma {:induction false} InsertAdds(hits: seq<Hit>, hit: Hit)
    ensures multiset(Insert(hits, hit)) == multiset(hits) + multiset{hit}
  {
    if hits != [] && Outranks(hits[0], hit) {
      InsertAdds(hits[1..], hit);
      assert hits == [hits[0]] + hits[1..];
    }
  }

  lemma {:induction false} InsertRanks(hits: seq<Hit>, hit: Hit)
    requires Ranked(hits) && forall h | h in hits :: !SamePlace(h, hit)
    ensures Ranked(Insert(hits, hit))
  {
    if hits != [] && Outranks(hits[0], hit) {
      var rest := Insert(hits[1..], hit);
      InsertRanks(hits[1..], hit);
      InsertAdds(hits[1..], hit);
      forall h | h in rest ensures Outranks(hits[0], h) {
        assert h in multiset(rest);
      }
    } else if hits != [] {
      OutranksIsTotal(hits[0], hit);
      forall j | 0 < j < |hits| ensures Outranks(hit, hits[j]) {
        OutranksIsTransitive(hit, hits[0], hits[j]);
      }
    }
  }

  lemma {:induction false} SortRanks(hits: seq<Hit>)
    requires DistinctPlaces(hits)
    ensures Ranked(Sort(hits)) && multiset(Sort(hits)) == multiset(hits)
  {
    if hits != [] {
      var before, last := hits[..|hits| - 1], hits[|hits| - 1];
      SortRanks(before);
      assert hits == before + [last];
      forall h | h in Sort(before) ensures !SamePlace(h, last) {
        assert h in multiset(Sort(before));
        var k :| 0 <= k < |before| && before[k] == h;
      }
      InsertRanks(Sort(before), last);
      InsertAdds(Sort(before), last);
    }
  }

  /** A ranked list is determined by what it contains. */
  lemma {:induction false} RankedIsUnique(a: seq<Hit>, b: seq<Hit>)
    requires Ranked(a) && Ranked(b) && multiset(a) == multiset(b)
    ensures a == b
  {
    if a == [] || b == [] {
      assert |multiset(a)| == |multiset(b)|;
    } else {
      SameHead(a, b);
      WithoutHead(a);
      WithoutHead(b);
      RankedIsUnique(a[1..], b[1..]);
      assert a == [a[0]] + a[1..] && b == [b[0]] + b[1..];
    }
  }

  lemma WithoutHead(hits: seq<Hit>)
    requires hits != []
    ensures multiset(hits[1..]) == multiset(hits) - multiset{hits[0]}
  {
    assert hits == [hits[0]] + hits[1..];
  }

  lemma SameHead(a: seq<Hit>, b: seq<Hit>)
    requires Ranked(a) && Ranked(b) && multiset(a) == multiset(b) && a != [] && b != []
    ensures a[0] == b[0]
  {
    assert a[0] in multiset(b) && b[0] in multiset(a);
    var i :| 0 <= i < |b| && b[i] == a[0];
    var j :| 0 <= j < |a| && a[j] == b[0];
    if i > 0 && j > 0 {
      assert Outranks(b[0], a[0]) && Outranks(a[0], b[0]);
      OutranksIsTotal(a[0], b[0]);
    }
  }

  ghost predicate DistinctRows(rows: seq<ChunkRow>) {
    forall i, j | 0 <= i < j < |rows| :: !(rows[i].document == rows[j].document && rows[i].index == rows[j].index)
  }

  lemma {:induction false} ScoredFromRows(rows: seq<ChunkRow>, score: string -> int)
    ensures forall h | h in ScoredHits(rows, score) :: h.row in rows && h == Hit(h.row, score(h.row.text)) && h.score > 0
    ensures DistinctRows(rows) ==> DistinctPlaces(ScoredHits(rows, score))
  {
    if rows != [] {
      var before, last := rows[..|rows| - 1], rows[|rows| - 1];
      ScoredFromRows(before, score);
      var hits := ScoredHits(before, score);
      if DistinctRows(rows) {
        forall h | h in hits ensures !(h.row.document == last.document && h.row.index == last.index) {
          var k :| 0 <= k < |before| && before[k] == h.row;
          assert rows[k] == before[k];
        }
      }
    }
  }

  lemma {:induction false} ScoredMultiset(rows: seq<ChunkRow>, score: string -> int, h: Hit)
    ensures multiset(ScoredHits(rows, score))[h]
         == if h.score > 0 && h.score == score(h.row.text) then multiset(rows)[h.row] else 0
  {
    if rows != [] {
      var before, last := rows[..|rows| - 1], rows[|rows| - 1];
      ScoredMultiset(before, score, h);
      assert rows == before + [last];
    }
  }

  /** Whatever order the rows are enumerated in, the ranked prefix is the same. */
  lemma TopHitsAreDetermined(a: seq<ChunkRow>, b: seq<ChunkRow>, score: string -> int, limit: nat)
    requires DistinctRows(a) && DistinctRows(b) && multiset(a) == multiset(b)
    ensures TopHits(a, score, limit) == TopHits(b, score, limit)
  {
    ScoredFromRows(a, score);
    ScoredFromRows(b, score);
    forall h: Hit ensures multiset(ScoredHits(a, score))[h] == multiset(ScoredHits(b, score))[h] {
      ScoredMultiset(a, score, h);
      ScoredMultiset(b, score, h);
    }
    assert multiset(ScoredHits(a, score)) == multiset(ScoredHits(b, score));
    SortRanks(ScoredHits(a, score));
    SortRanks(ScoredHits(b, score));
    RankedIsUnique(Sort(ScoredHits(a, score)), Sort(ScoredHits(b, score)));
  }

  // ---------------------------------------------------------------- rows of the current index

  /** The row is a chunk of the current version of its document, within the scope asked for. */
  ghost predicate IsCurrentRow(index: Index, scope: Option<string>, row: ChunkRow) {
    var versions := VersionsOf(index, row.document);
    && versions != [] && versions[0].sha == row.sha
    && row.index < |versions[0].chunks| && row.text == versions[0].chunks[row.index]
    && (scope.Some? ==> row.document == scope.value)
  }

  /** Every current row once, in some order. */
  ghost predicate Enumerates(rows: seq<ChunkRow>, index: Index, scope: Option<string>) {
    && DistinctRows(rows)
    && forall row :: row in rows <==> IsCurrentRow(index, scope, row)
  }

  lemma EnumerationsAgree(a: seq<ChunkRow>, b: seq<ChunkRow>, index: Index, scope: Option<string>)
    requires Enumerates(a, index, scope) && Enumerates(b, index, scope)
    ensures multiset(a) == multiset(b)
  {
    forall row: ChunkRow ensures multiset(a)[row] == multiset(b)[row] {
      OccursOnce(a, row);
      OccursOnce(b, row);
    }
  }

  lemma {:induction false} OccursOnce(rows: seq<ChunkRow>, row: ChunkRow)
    requires DistinctRows(rows)
    ensures multiset(rows)[row] == if row in rows then 1 else 0
  {
    if rows != [] {
      var before, last := rows[..|rows| - 1], rows[|rows| - 1];
      OccursOnce(before, row);
      assert rows == before + [last];
      if row == last {
        assert row !in before by {
          forall k | 0 <= k < |before| ensures before[k] != row { assert rows[k] == before[k]; }
        }
      }
    }
  }

  /** The join of the two tables over the current versions, row by row in whatever order they come. */
  method SelectCurrentRows(indexer: Indexer, scope: Option<string>) returns (rows: seq<ChunkRow>)
    requires indexer.Valid()
    ensures Enumerates(rows, indexer.index, scope)
  {
    rows := [];
    var keys := indexer.chunks.Keys;
    forall row | IsCurrentRow(indexer.index, scope, row) ensures KeyOf(row) in keys {
      CurrentRowIsStored(indexer, row);
    }
    while keys != {}
      invariant keys <= indexer.chunks.Keys
      invariant DistinctRows(rows)
      invariant forall row :: row in rows <==> IsCurrentRow(indexer.index, scope, row) && KeyOf(row) !in keys
      decreases keys
    {
      var key :| key in keys;
      var rowKey := RowKey(key.document, key.sha);
      var row := ChunkRow(key.document, key.sha, key.index, indexer.chunks[key]);
      StoredRowIsCurrent(indexer, key);
      forall other | IsCurrentRow(indexer.index, scope, other) && KeyOf(other) == key ensures other == row {
        CurrentRowIsStored(indexer, other);
      }
      keys := keys - {key};
      if rowKey in indexer.documents && indexer.documents[rowKey].isCurrent
         && (scope.None? || key.document == scope.value) {
        assert IsCurrentRow(indexer.index, scope, row);
        CurrentRowsDiffer(rows, indexer.index, scope, row);
        rows := rows + [row];
      }
    }
  }

  lemma CurrentRowsDiffer(rows: seq<ChunkRow>, index: Index, scope: Option<string>, row: ChunkRow)
    requires IsCurrentRow(index, scope, row) && DistinctRows(rows) && row !in rows
    requires forall other | other in rows :: IsCurrentRow(index, scope, other)
    ensures DistinctRows(rows + [row])
  {
    forall i | 0 <= i < |rows| ensures !(rows[i].document == row.document && rows[i].index == row.index) {
      assert rows[i] in rows && IsCurrentRow(index, scope, rows[i]);
    }
  }

  function KeyOf(row: ChunkRow): ChunkKey { ChunkKey(row.document, row.sha, row.index) }

  /** A chunk row of the tables is a current row exactly when its document row says so. */
  lemma StoredRowIsCurrent(indexer: Indexer, key: ChunkKey)
    requires indexer.Valid() && key in indexer.chunks
    ensures var rowKey := RowKey(key.document, key.sha);
            (rowKey in indexer.documents && indexer.documents[rowKey].isCurrent)
            <==> IsCurrentRow(indexer.index, None, ChunkRow(key.document, key.sha, key.index, indexer.chunks[key]))
  {
    var versions := VersionsOf(indexer.index, key.document);
    assert DocumentAgrees(indexer.documents, indexer.chunks, indexer.clock, key.document, versions);
    var i := Position(versions, key.sha);
    assert RowAgrees(indexer.documents, indexer.chunks, indexer.clock, key.document, versions, i);
    if i > 0 { assert versions[0].sha != versions[i].sha; }
  }

  lemma CurrentRowIsStored(indexer: Indexer, row: ChunkRow)
    requires indexer.Valid() && IsCurrentRow(indexer.index, None, row)
    ensures KeyOf(row) in indexer.chunks && indexer.chunks[KeyOf(row)] == row.text
  {
    var versions := VersionsOf(indexer.index, row.document);
    assert DocumentAgrees(indexer.documents, indexer.chunks, indexer.clock, row.document, versions);
    assert RowAgrees(indexer.documents, indexer.chunks, indexer.clock, row.document, versions, 0);
  }

  // ---------------------------------------------------------------- the best rows first

  /** No result scores more than one before it; among equal scores they stand by document and then by place. */
  ghost predicate FallsInScore(hits: seq<Hit>) {
    forall i, j | 0 <= i < j < |hits| ::
      && hits[i].score >= hits[j].score
      && (hits[i].score == hits[j].score ==>
            || Precedes(hits[i].row.document, hits[j].row.document)
            || (hits[i].row.document == hits[j].row.document && hits[i].row.index < hits[j].row.index))
  }

  /** Every result scores what its text scores; and nothing that matches is left out but for want of room, and
      then it scores at most as much as every result. */
  ghost predicate AreBest(hits: seq<Hit>, rows: seq<ChunkRow>, score: string -> int, limit: nat) {
    && (forall hit | hit in hits :: hit.row in rows && hit.score == score(hit.row.text) > 0)
    && (forall row | row in rows && score(row.text) > 0 && !IsShown(hits, row) ::
          |hits| == limit && forall hit | hit in hits :: score(row.text) <= hit.score)
  }

  ghost predicate IsShown(hits: seq<Hit>, row: ChunkRow) {
    exists hit :: hit in hits && hit.row == row
  }

  lemma RankedFallsInScore(hits: seq<Hit>)
    requires Ranked(hits)
    ensures FallsInScore(hits)
  {
    forall i, j | 0 <= i < j < |hits| && Before(hits[i].row.document, hits[j].row.document)
      ensures Precedes(hits[i].row.document, hits[j].row.document)
    {
      BeforeExactly(hits[i].row.document, hits[j].row.document);
    }
  }

  /** What is cut off scores at most as much as what is kept. */
  lemma CutScoresLess(sorted: seq<Hit>, n: nat, hit: Hit)
    requires FallsInScore(sorted) && n <= |sorted| && hit in sorted && !IsShown(sorted[..n], hit.row)
    ensures n < |sorted| && forall kept | kept in sorted[..n] :: hit.score <= kept.score
  {
    var k :| 0 <= k < |sorted| && sorted[k] == hit;
    assert forall i | 0 <= i < n :: sorted[..n][i] == sorted[i] && sorted[..n][i] in sorted[..n];
    assert k >= n;
  }

  /** What a search answers are the best matches, best first. */
  lemma TopHitsAreBest(rows: seq<ChunkRow>, score: string -> int, limit: nat)
    requires DistinctRows(rows)
    ensures FallsInScore(TopHits(rows, score, limit)) && AreBest(TopHits(rows, score, limit), rows, score, limit)
  {
    var sorted, hits := Sort(ScoredHits(rows, score)), TopHits(rows, score, limit);
    SortIsScored(rows, score);
    TopHitsFromRows(rows, score, limit);
    RankedFallsInScore(hits);
    RankedFallsInScore(sorted);
    var n := if |sorted| <= limit then |sorted| else limit;
    assert hits == sorted[..n];
    forall row | row in rows && score(row.text) > 0 && !IsShown(hits, row)
      ensures |hits| == limit && forall hit | hit in hits :: score(row.text) <= hit.score
    {
      CutScoresLess(sorted, n, Hit(row, score(row.text)));
    }
  }

  // ---------------------------------------------------------------- responses

  datatype SearchResponse = SearchResponse(query: string, documentId: Option<string>, currentSha256: Option<string>, results: seq<Hit>)

  predicate IsDocumentId(s: string) { 1 <= |s| <= 200 }

  predicate IsSha256(s: string) {
    |s| == 64 && forall c | c in s :: '0' <= c <= '9' || 'a' <= c <= 'f'
  }

  predicate ValidHit(hit: Hit) {
    IsDocumentId(hit.row.document) && IsSha256(hit.row.sha) && 1 <= |hit.row.text| <= 16000 && hit.score > 0
  }

  /** The validators of `IndexSearchResponse` and `IndexSearchHit`. */
  ghost predicate ValidResponse(r: SearchResponse) {
    && 1 <= |r.query| <= 2000 && |r.results| <= 50
    && (r.documentId.Some? ==> IsDocumentId(r.documentId.value))
    && (r.currentSha256.Some? ==> IsSha256(r.currentSha256.value))
    && (forall hit | hit in r.results :: ValidHit(hit))
    && (if r.documentId.None? then r.currentSha256.None?
        else
          && (r.results != [] ==> r.currentSha256.Some?)
          && forall hit | hit in r.results :: hit.row.document == r.documentId.value && Some(hit.row.sha) == r.currentSha256)
    && forall i, j | 0 <= i < j < |r.results| ::
         !(r.results[i].row.document == r.results[j].row.document && r.results[i].row.sha == r.results[j].row.sha
           && r.results[i].row.index == r.results[j].row.index)
  }

  /** What the query, once stripped, makes of a chunk. */
  type Scoring = (string, string) -> int

  function ScoreFor(scoring: Scoring, query: string): string -> int {
    var stripped := TextSplitter.Strip(query);
    (text: string) => scoring(stripped, text)
  }

  /** `search_current_snapshot` and `search_snapshot`; None where the source raises for the limit. */
  function Respond(index: Index, rows: seq<ChunkRow>, query: string, scoring: Scoring, limit: int, scope: Option<string>)
    : Option<SearchResponse>
  {
    if limit <= 0 then None
    else if TextSplitter.Strip(query) == "" then Some(SearchResponse(query, scope, None, []))
    else
      var current := if scope.Some? then CurrentOf(index, scope.value) else None;
      Some(SearchResponse(query, scope, current, TopHits(rows, ScoreFor(scoring, query), limit)))
  }

  method SearchSnapshot(indexer: Indexer, query: string, scoring: Scoring, limit: int, scope: Option<string>)
    returns (response: Option<SearchResponse>)
    requires indexer.Valid()
    ensures forall rows | Enumerates(rows, indexer.index, scope) ::
              response == Respond(indexer.index, rows, query, scoring, limit, scope)
    ensures response.None? <==> limit <= 0
    ensures response.Some? && TextSplitter.Strip(query) == "" ==> response.value.results == []
    ensures response.Some? && TextSplitter.Strip(query) != "" ==>
              && FallsInScore(response.value.results)
              && response.value.currentSha256 == (if scope.Some? then CurrentOf(indexer.index, scope.value) else None)
              && forall rows | Enumerates(rows, indexer.index, scope) ::
                   AreBest(response.value.results, rows, ScoreFor(scoring, query), limit)
    ensures response.Some? ==> response.value.query == query && response.value.documentId == scope
  {
    if limit <= 0 {
      return None;
    }
    if TextSplitter.Strip(query) == "" {
      return Some(SearchResponse(query, scope, None, []));
    }
    var current := None;
    if scope.Some? {
      current := indexer.GetCurrent(scope.value);
    }
    var rows := SelectCurrentRows(indexer, scope);
    var hits := ScoreRows(rows, ScoreFor(scoring, query), limit);
    forall other | Enumerates(other, indexer.index, scope)
      ensures Respond(indexer.index, other, query, scoring, limit, scope)
           == Respond(indexer.index, rows, query, scoring, limit, scope)
    {
      ResponsesAgree(indexer.index, other, rows, query, scoring, limit, scope);
    }
    forall other | Enumerates(other, indexer.index, scope)
      ensures AreBest(hits, other, ScoreFor(scoring, query), limit) && FallsInScore(hits)
    {
      EnumerationsAgree(rows, other, indexer.index, scope);
      TopHitsAreDetermined(rows, other, ScoreFor(scoring, query), limit);
      TopHitsAreBest(other, ScoreFor(scoring, query), limit);
    }
    return Some(SearchResponse(query, scope, current, hits));
  }

  /** What every index built by the gateway satisfies, whatever its documents are called: a digest for each
      version, and chunks as `split_text` cuts them. */
  ghost predicate WellKept(index: Index, chunkSize: nat) {
    forall document :: WellKeptVersions(VersionsOf(index, document), chunkSize)
  }

  ghost predicate WellKeptVersions(versions: seq<Version>, chunkSize: nat) {
    forall v | v in versions :: WellKeptVersion(v, chunkSize)
  }

  ghost predicate WellKeptVersion(v: Version, chunkSize: nat) {
    IsSha256(v.sha) && forall chunk | chunk in v.chunks :: 0 < |chunk| <= chunkSize
  }

  lemma WithoutKeepsOnly(versions: seq<Version>, sha: string, size: nat)
    requires WellKeptVersions(versions, size)
    ensures WellKeptVersions(Without(versions, sha), size)
  {
  }

  /** Indexing and removing keep the index well kept. */
  lemma StoringKeepsWell(index: Index, document: string, sha: string, text: string, size: nat, overlap: nat)
    requires WellKept(index, size) && overlap < size && IsSha256(sha)
    ensures WellKept(Stored(index, document, Version(sha, TextSplitter.SplitText(text, size, overlap))), size)
  {
    var version := Version(sha, TextSplitter.SplitText(text, size, overlap));
    TextSplitter.ChunksCoverText(text, size, overlap);
    StoringVersionKeepsWell(index, document, version, size);
  }

  lemma StoringVersionKeepsWell(index: Index, document: string, version: Version, size: nat)
    requires WellKept(index, size) && WellKeptVersion(version, size)
    ensures WellKept(Stored(index, document, version), size)
  {
    forall d ensures WellKeptVersions(VersionsOf(Stored(index, document, version), d), size) {
      assert WellKeptVersions(VersionsOf(index, d), size);
      if d == document {
        WithoutKeepsOnly(VersionsOf(index, document), version.sha, size);
      }
    }
  }

  lemma RemovingKeepsWell(index: Index, document: string, sha: string, size: nat)
    requires WellKept(index, size)
    ensures WellKept(Removed(index, document, sha), size)
  {
    forall d ensures WellKeptVersions(VersionsOf(Removed(index, document, sha), d), size) {
      assert WellKeptVersions(VersionsOf(index, d), size);
    }
  }

  lemma TopHitsFromRows(rows: seq<ChunkRow>, score: string -> int, limit: nat)
    requires DistinctRows(rows)
    ensures var hits := TopHits(rows, score, limit);
            && Ranked(hits) && |hits| <= limit
            && (forall h | h in hits :: h.row in rows && h.score == score(h.row.text) > 0)
            && (forall i, j | 0 <= i < j < |hits| ::
                  !(hits[i].row.document == hits[j].row.document && hits[i].row.index == hits[j].row.index))
  {
    ScoredFromRows(rows, score);
    var scored := ScoredHits(rows, score);
    SortRanks(scored);
    var sorted, hits := Sort(scored), TopHits(rows, score, limit);
    assert forall i | 0 <= i < |hits| :: hits[i] == sorted[i];
    forall h | h in hits ensures h in scored {
      assert h in sorted && h in multiset(sorted);
    }
    forall i, j | 0 <= i < j < |hits|
      ensures !(hits[i].row.document == hits[j].row.document && hits[i].row.index == hits[j].row.index)
    {
      assert hits[i] in hits && hits[j] in hits;
      RankedRowsDiffer(rows, score, hits[i], hits[j]);
    }
  }

  lemma RankedRowsDiffer(rows: seq<ChunkRow>, score: string -> int, a: Hit, b: Hit)
    requires DistinctRows(rows) && a.row in rows && b.row in rows && Outranks(a, b)
    requires a.score == score(a.row.text) && b.score == score(b.row.text)
    ensures !(a.row.document == b.row.document && a.row.index == b.row.index)
  {
    OutranksIsTotal(a, b);
  }

  // ---------------------------------------------------------------- which rows a search shows

  /** The rows that match and come before this one. */
  ghost function Rivals(rows: seq<ChunkRow>, score: string -> int, row: ChunkRow): set<ChunkRow> {
    set r | r in rows && score(r.text) > 0 && Outranks(Hit(r, score(r.text)), Hit(row, score(row.text)))
  }

  /** The row matches, and fewer than `limit` rows come before it. */
  ghost predicate Shows(rows: seq<ChunkRow>, score: string -> int, limit: nat, row: ChunkRow) {
    row in rows && score(row.text) > 0 && |Rivals(rows, score, row)| < limit
  }

  ghost function RowsOf(hits: seq<Hit>): set<ChunkRow> {
    set hit | hit in hits :: hit.row
  }

  lemma {:induction false} CountsDistinct(hits: seq<Hit>)
    requires forall i, j | 0 <= i < j < |hits| :: hits[i].row != hits[j].row
    ensures |RowsOf(hits)| == |hits|
  {
    if hits != [] {
      var before, last := hits[..|hits| - 1], hits[|hits| - 1];
      CountsDistinct(before);
      assert hits == before + [last];
      assert RowsOf(hits) == RowsOf(before) + {last.row};
      assert last.row !in RowsOf(before);
    }
  }

  ghost predicate IsScored(hits: seq<Hit>, rows: seq<ChunkRow>, score: string -> int) {
    && Ranked(hits)
    && forall h :: h in hits <==> h.row in rows && h.score == score(h.row.text) && h.score > 0
  }

  lemma SortIsScored(rows: seq<ChunkRow>, score: string -> int)
    requires DistinctRows(rows)
    ensures IsScored(Sort(ScoredHits(rows, score)), rows, score)
  {
    var scored := ScoredHits(rows, score);
    ScoredFromRows(rows, score);
    SortRanks(scored);
    forall h: Hit ensures h in Sort(scored) <==> h.row in rows && h.score == score(h.row.text) && h.score > 0 {
      ScoredMultiset(rows, score, h);
      assert h in Sort(scored) <==> h in multiset(Sort(scored));
    }
  }

  /** What comes before the hit at place `i` are the `i` hits in front of it. */
  lemma RankIsRivals(hits: seq<Hit>, rows: seq<ChunkRow>, score: string -> int, i: nat)
    requires IsScored(hits, rows, score) && i < |hits|
    ensures |Rivals(rows, score, hits[i].row)| == i
  {
    var row, front := hits[i].row, hits[..i];
    assert hits[i] in hits;
    forall r: ChunkRow ensures r in Rivals(rows, score, row) <==> r in RowsOf(front) {
      var h := Hit(r, score(r.text));
      if r in Rivals(rows, score, row) {
        assert h in hits;
        var j :| 0 <= j < |hits| && hits[j] == h;
        OutranksIsTotal(hits[i], hits[j]);
        assert front[j] == h;
      }
      if r in RowsOf(front) {
        var j :| 0 <= j < i && hits[j].row == r;
        assert hits[j] in hits;
      }
    }
    assert Rivals(rows, score, row) == RowsOf(front);
    forall j, k | 0 <= j < k < |front| ensures front[j].row != front[k].row {
      assert hits[j] in hits && hits[k] in hits;
      OutranksIsTotal(hits[j], hits[k]);
    }
    CountsDistinct(front);
  }

  /** A search answers exactly the rows that match and are outranked by fewer than `limit` others. */
  lemma TopHitsShowExactly(rows: seq<ChunkRow>, score: string -> int, limit: nat, row: ChunkRow)
    requires DistinctRows(rows)
    ensures Hit(row, score(row.text)) in TopHits(rows, score, limit) <==> Shows(rows, score, limit, row)
  {
    var hits, hit := Sort(ScoredHits(rows, score)), Hit(row, score(row.text));
    SortIsScored(rows, score);
    if hit in hits {
      var i :| 0 <= i < |hits| && hits[i] == hit;
      RankIsRivals(hits, rows, score, i);
      if i < limit {
        assert TopHits(rows, score, limit)[i] == hit;
      } else if hit in TopHits(rows, score, limit) {
        var j :| 0 <= j < limit && hits[j] == hit;
        OutranksIsTotal(hits[j], hits[i]);
      }
    }
  }

  /** What a search of all documents shows is within the bounds of the API. */
  ghost predicate ShowsNamed(rows: seq<ChunkRow>, score: string -> int, limit: nat) {
    forall row | Shows(rows, score, limit, row) :: IsDocumentId(row.document)
  }

  /** The answer to a search is accepted by its validators: always if it asks for one document or for nothing,
      and else exactly if every row it shows belongs to a document whose name is within the bounds. */
  ghost predicate Answers(rows: seq<ChunkRow>, query: string, scoring: Scoring, limit: nat, scope: Option<string>) {
    scope.Some? || TextSplitter.Strip(query) == "" || ShowsNamed(rows, ScoreFor(scoring, query), limit)
  }

  lemma ResponsesAreValidExactly(index: Index, rows: seq<ChunkRow>, query: string, scoring: Scoring, limit: int,
                                 scope: Option<string>, chunkSize: nat)
    requires Enumerates(rows, index, scope) && WellKept(index, chunkSize) && chunkSize <= 16000
    requires 1 <= |query| <= 2000 && 0 < limit <= 50 && (scope.Some? ==> IsDocumentId(scope.value))
    ensures var response := Respond(index, rows, query, scoring, limit, scope);
            && response.Some?
            && (ValidResponse(response.value) <==> Answers(rows, query, scoring, limit, scope))
  {
    if TextSplitter.Strip(query) != "" {
      var score := ScoreFor(scoring, query);
      var hits := TopHits(rows, score, limit);
      TopHitsFromRows(rows, score, limit);
      HitsAreValidExactly(index, rows, score, limit, scope, chunkSize);
      ScopeIsNamed(index, scope, chunkSize);
      if scope.Some? && hits != [] { assert IsCurrentRow(index, scope, hits[0].row); }
    }
  }

  lemma ScopeIsNamed(index: Index, scope: Option<string>, chunkSize: nat)
    requires WellKept(index, chunkSize)
    ensures scope.Some? && CurrentOf(index, scope.value).Some? ==> IsSha256(CurrentOf(index, scope.value).value)
  {
    if scope.Some? {
      var versions := VersionsOf(index, scope.value);
      assert WellKeptVersions(versions, chunkSize);
      assert versions != [] ==> versions[0] in versions;
    }
  }

  lemma HitsAreValidExactly(index: Index, rows: seq<ChunkRow>, score: string -> int, limit: nat, scope: Option<string>, chunkSize: nat)
    requires Enumerates(rows, index, scope) && WellKept(index, chunkSize) && chunkSize <= 16000
    requires scope.Some? ==> IsDocumentId(scope.value)
    ensures (forall hit | hit in TopHits(rows, score, limit) :: ValidHit(hit)) <==> scope.Some? || ShowsNamed(rows, score, limit)
  {
    var hits := TopHits(rows, score, limit);
    TopHitsFromRows(rows, score, limit);
    forall hit | hit in hits
      ensures (ValidHit(hit) <==> IsDocumentId(hit.row.document)) && (scope.Some? ==> hit.row.document == scope.value)
    {
      var versions := VersionsOf(index, hit.row.document);
      assert IsCurrentRow(index, scope, hit.row);
      assert WellKeptVersions(versions, chunkSize) && versions[0] in versions;
    }
    forall row: ChunkRow ensures Hit(row, score(row.text)) in hits <==> Shows(rows, score, limit, row) {
      TopHitsShowExactly(rows, score, limit, row);
    }
  }

  /** Over an index whose documents are all named within the bounds every response is accepted. */
  lemma ResponsesAreValid(index: Index, rows: seq<ChunkRow>, query: string, scoring: Scoring, limit: int,
                          scope: Option<string>, chunkSize: nat)
    requires Enumerates(rows, index, scope) && WellKept(index, chunkSize) && chunkSize <= 16000
    requires forall document | VersionsOf(index, document) != [] :: IsDocumentId(document)
    requires 1 <= |query| <= 2000 && 0 < limit <= 50 && (scope.Some? ==> IsDocumentId(scope.value))
    ensures var response := Respond(index, rows, query, scoring, limit, scope); response.Some? && ValidResponse(response.value)
  {
    ResponsesAreValidExactly(index, rows, query, scoring, limit, scope, chunkSize);
    forall row | row in rows ensures IsDocumentId(row.document) {
      assert IsCurrentRow(index, scope, row);
    }
  }

  /** Two searches of one index answer alike. */
  lemma ResponsesAgree(index: Index, a: seq<ChunkRow>, b: seq<ChunkRow>, query: string, scoring: Scoring, limit: int,
                       scope: Option<string>)
    requires Enumerates(a, index, scope) && Enumerates(b, index, scope)
    ensures Respond(index, a, query, scoring, limit, scope) == Respond(index, b, query, scoring, limit, scope)
  {
    if limit > 0 {
      EnumerationsAgree(a, b, index, scope);
      TopHitsAreDetermined(a, b, ScoreFor(scoring, query), limit);
    }
  }
}
