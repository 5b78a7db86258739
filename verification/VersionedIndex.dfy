/** What the SQL tables of the index stand for: for each document a list of stored
    versions, the current one first. Every other module reasons about this list. */
module VersionedIndex {

  import opened Wrappers

  /** One stored version: the digest of its bytes and its numbered chunks. */
  datatype Version = Version(sha: string, chunks: seq<string>)

  type Index = map<string, seq<Version>>

  function VersionsOf(index: Index, document: string): seq<Version> {
    if document in index then index[document] else []
  }

  function Position(versions: seq<Version>, sha: string): (i: nat)
    ensures i <= |versions|
    ensures i < |versions| ==> versions[i].sha == sha
    ensures forall j | 0 <= j < i :: versions[j].sha != sha
  {
    if versions == [] || versions[0].sha == sha then 0 else 1 + Position(versions[1..], sha)
  }

  predicate Holds(versions: seq<Version>, sha: string) {
    Position(versions, sha) < |versions|
  }

  function Current(versions: seq<Version>): Option<string> {
    if versions == [] then None else Some(versions[0].sha)
  }

  /** The list without its version `sha`; the versions after it move up. */
  function Without(versions: seq<Version>, sha: string): seq<Version> {
    var i := Position(versions, sha);
    if i < |versions| then versions[..i] + versions[i + 1..] else versions
  }

  /** Move-to-front: `version` becomes current and the old current its predecessor. */
  function Promote(versions: seq<Version>, version: Version): seq<Version> {
    [version] + Without(versions, version.sha)
  }

  function Stored(index: Index, document: string, version: Version): Index {
    index[document := Promote(VersionsOf(index, document), version)]
  }

  function Removed(index: Index, document: string, sha: string): Index {
    if Holds(VersionsOf(index, document), sha)
    then index[document := Without(VersionsOf(index, document), sha)]
    else index
  }

  function CurrentOf(index: Index, document: string): Option<string> {
    Current(VersionsOf(index, document))
  }

  ghost predicate Distinct(versions: seq<Version>) {
    forall i, j | 0 <= i < j < |versions| :: versions[i].sha != versions[j].sha
  }

  /** No document holds one digest twice. */
  ghost predicate WellFormed(index: Index) {
    forall document :: Distinct(VersionsOf(index, document))
  }

  // ---------------------------------------------------------------- laws of the list

  lemma HoldsExactly(versions: seq<Version>, sha: string)
    ensures Holds(versions, sha) <==> exists i :: 0 <= i < |versions| && versions[i].sha == sha
  {
  }

  lemma PositionOf(versions: seq<Version>, i: nat)
    requires i < |versions| && Distinct(versions)
    ensures Position(versions, versions[i].sha) == i
  {
    assert Position(versions, versions[i].sha) <= i;
  }

  /** Deleting a version removes that digest and keeps the rest in order. */
  lemma WithoutLaws(versions: seq<Version>, sha: string)
    requires Distinct(versions)
    ensures Distinct(Without(versions, sha))
    ensures !Holds(Without(versions, sha), sha)
    ensures forall other | other != sha :: Holds(Without(versions, sha), other) <==> Holds(versions, other)
    ensures !Holds(versions, sha) ==> Without(versions, sha) == versions
  {
    var i := Position(versions, sha);
    if i < |versions| {
      WithoutAt(versions, sha);
      forall other | other != sha ensures Holds(Without(versions, sha), other) <==> Holds(versions, other) {
        WithoutHoldsOthers(versions, sha, other);
      }
    }
  }

  lemma WithoutAt(versions: seq<Version>, sha: string)
    requires Distinct(versions) && Holds(versions, sha)
    ensures var i, rest := Position(versions, sha), Without(versions, sha);
            && |rest| == |versions| - 1
            && (forall j | 0 <= j < |rest| :: rest[j] == (if j < i then versions[j] else versions[j + 1]) && rest[j].sha != sha)
  {
  }

  lemma WithoutHoldsOthers(versions: seq<Version>, sha: string, other: string)
    requires Distinct(versions) && Holds(versions, sha) && other != sha
    ensures Holds(Without(versions, sha), other) <==> Holds(versions, other)
  {
    if Holds(versions, other) { StillHeld(versions, sha, other); }
    if Holds(Without(versions, sha), other) { WasHeld(versions, sha, other); }
  }

  lemma StillHeld(versions: seq<Version>, sha: string, other: string)
    requires Distinct(versions) && Holds(versions, sha) && other != sha && Holds(versions, other)
    ensures Holds(Without(versions, sha), other)
  {
    WithoutAt(versions, sha);
    var i, k := Position(versions, sha), Position(versions, other);
    assert versions[i].sha == sha && versions[k].sha == other;
    StandsAt(Without(versions, sha), if k < i then k else k - 1, other);
  }

  lemma WasHeld(versions: seq<Version>, sha: string, other: string)
    requires Distinct(versions) && Holds(versions, sha) && Holds(Without(versions, sha), other)
    ensures Holds(versions, other)
  {
    WithoutAt(versions, sha);
    var i, m := Position(versions, sha), Position(Without(versions, sha), other);
    StandsAt(versions, if m < i then m else m + 1, other);
  }

  lemma StandsAt(versions: seq<Version>, i: nat, sha: string)
    requires i < |versions| && versions[i].sha == sha
    ensures Holds(versions, sha)
  {
    assert Position(versions, sha) <= i;
  }

  lemma PromoteLaws(versions: seq<Version>, version: Version)
    requires Distinct(versions)
    ensures Distinct(Promote(versions, version))
    ensures Current(Promote(versions, version)) == Some(version.sha)
    ensures forall sha :: Holds(Promote(versions, version), sha)
                      <==> sha == version.sha || Holds(versions, sha)
  {
    WithoutLaws(versions, version.sha);
    var rest := Without(versions, version.sha);
    var all := Promote(versions, version);
    ConsLaws(version, rest);
  }

  lemma ConsLaws(version: Version, rest: seq<Version>)
    requires Distinct(rest) && !Holds(rest, version.sha)
    ensures Distinct([version] + rest)
    ensures forall sha :: Holds([version] + rest, sha) <==> sha == version.sha || Holds(rest, sha)
  {
    var all := [version] + rest;
    forall j | 0 <= j < |rest| ensures rest[j].sha != version.sha {
      HoldsExactly(rest, version.sha);
    }
    forall sha ensures Holds(all, sha) <==> sha == version.sha || Holds(rest, sha) {
      assert all[1..] == rest;
    }
  }

  /** Removing a version just promoted leaves exactly the others, in order. */
  lemma RemoveAfterPromote(versions: seq<Version>, version: Version)
    requires Distinct(versions)
    ensures Without(Promote(versions, version), version.sha) == Without(versions, version.sha)
  {
    assert Position(Promote(versions, version), version.sha) == 0;
  }

  /** Taking a version back restores the list exactly when it was not stored before. */
  lemma UndoPromoteExactly(versions: seq<Version>, version: Version)
    requires Distinct(versions)
    ensures Without(Promote(versions, version), version.sha) == versions <==> !Holds(versions, version.sha)
  {
    RemoveAfterPromote(versions, version);
    WithoutLaws(versions, version.sha);
  }

  /** Taking a version back restores the current digest exactly when it was not current before. */
  lemma CompensationExactly(versions: seq<Version>, version: Version)
    requires Distinct(versions)
    ensures Current(Without(Promote(versions, version), version.sha)) == Current(versions)
       <==> Current(versions) != Some(version.sha)
  {
    RemoveAfterPromote(versions, version);
    WithoutLaws(versions, version.sha);
    var rest := Without(versions, version.sha);
    HoldsExactly(rest, version.sha);
    if versions != [] && versions[0].sha != version.sha {
      assert rest[0] == versions[0];
    }
  }

  /** Putting a removed current version back restores the list. */
  lemma UndoRemoveCurrent(versions: seq<Version>)
    requires versions != [] && Distinct(versions)
    ensures Promote(Without(versions, versions[0].sha), versions[0]) == versions
  {
    var rest := Without(versions, versions[0].sha);
    assert rest == versions[1..];
    WithoutLaws(versions, versions[0].sha);
  }

  // ---------------------------------------------------------------- laws of the index

  lemma StoredLaws(index: Index, document: string, version: Version)
    requires WellFormed(index)
    ensures WellFormed(Stored(index, document, version))
    ensures VersionsOf(Stored(index, document, version), document) == Promote(VersionsOf(index, document), version)
    ensures forall d | d != document :: VersionsOf(Stored(index, document, version), d) == VersionsOf(index, d)
  {
    PromoteLaws(VersionsOf(index, document), version);
    forall d ensures Distinct(VersionsOf(Stored(index, document, version), d)) {
      assert Distinct(VersionsOf(index, d));
    }
  }

  lemma RemovedLaws(index: Index, document: string, sha: string)
    requires WellFormed(index)
    ensures WellFormed(Removed(index, document, sha))
    ensures VersionsOf(Removed(index, document, sha), document) == Without(VersionsOf(index, document), sha)
    ensures forall d | d != document :: VersionsOf(Removed(index, document, sha), d) == VersionsOf(index, d)
  {
    WithoutLaws(VersionsOf(index, document), sha);
    forall d ensures Distinct(VersionsOf(Removed(index, document, sha), d)) {
      assert Distinct(VersionsOf(index, d));
    }
  }
}
