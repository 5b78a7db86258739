/** The members of a validated ZIP archive: the read cache cannot be noticed, and the read budget that
    the directory was checked against cannot be exceeded. */
module SafeZipPackage {
  import opened Wrappers
  import opened SafeZip

  datatype Compression = Stored | Deflated | Unsupported

  datatype Entry = Entry(name: string, isEncrypted: bool, compression: Compression, isSymbolicLink: bool, size: int, packed: int)

  datatype Limits = Limits(maxEntries: nat, maxTotal: nat, maxMember: nat, maxRatio: real)

  type Bytes = seq<bv8>

  // ---------------------------------------------------------------- sums over members

  ghost function Sum(sizes: map<string, int>): int {
    if sizes == map[] then 0
    else
      var name :| name in sizes.Keys;
      sizes[name] + Sum(sizes - {name})
  }

  lemma {:induction false} SumOf(sizes: map<string, int>, name: string)
    requires name in sizes
    ensures Sum(sizes) == sizes[name] + Sum(sizes - {name})
    decreases |sizes|
  {
    var other :| other in sizes.Keys && Sum(sizes) == sizes[other] + Sum(sizes - {other});
    if other != name {
      SumOf(sizes - {other}, name);
      SumOf(sizes - {name}, other);
      assert sizes - {other} - {name} == sizes - {name} - {other};
    }
  }

  lemma SumAdds(sizes: map<string, int>, name: string, size: int)
    requires name !in sizes
    ensures Sum(sizes[name := size]) == Sum(sizes) + size
  {
    SumOf(sizes[name := size], name);
    assert sizes[name := size] - {name} == sizes;
  }

  lemma {:induction false} SumOfPart(part: map<string, int>, whole: map<string, int>)
    requires forall name | name in part :: name in whole && whole[name] == part[name]
    requires forall name | name in whole :: whole[name] >= 0
    ensures 0 <= Sum(part) <= Sum(whole)
    decreases |whole|
  {
    if whole != map[] {
      var name :| name in whole.Keys && Sum(whole) == whole[name] + Sum(whole - {name});
      if name in part {
        SumOf(part, name);
        SumOfPart(part - {name}, whole - {name});
      } else {
        SumOfPart(part, whole - {name});
      }
    }
  }

  function Sizes(infos: map<string, Entry>): map<string, int> {
    map name | name in infos :: infos[name].size
  }

  function Lengths(cache: map<string, Bytes>): map<string, int> {
    map name | name in cache :: |cache[name]|
  }

  lemma FileAdds(infos: map<string, Entry>, name: string, entry: Entry)
    requires name !in infos
    ensures Sum(Sizes(infos[name := entry])) == Sum(Sizes(infos)) + entry.size
  {
    SumAdds(Sizes(infos), name, entry.size);
    assert Sizes(infos[name := entry]) == Sizes(infos)[name := entry.size];
  }

  // ---------------------------------------------------------------- which directories are accepted

  predicate IsReadable(entry: Entry) {
    !entry.isEncrypted && !entry.compression.Unsupported? && !entry.isSymbolicLink
  }

  predicate FileFits(entry: Entry, limits: Limits) {
    && 0 <= entry.size <= limits.maxMember && 0 <= entry.packed
    && (entry.size > 0 ==> entry.packed > 0)
    && (entry.packed > 0 ==> entry.size as real <= limits.maxRatio * entry.packed as real)
  }

  predicate IsOverblown(entry: Entry, limits: Limits) {
    entry.packed > 0 && entry.size as real / entry.packed as real > limits.maxRatio
  }

  lemma OverblownExactly(size: real, packed: real, ratio: real)
    requires packed > 0.0
    ensures size / packed > ratio <==> size > ratio * packed
  {
    assert size == size / packed * packed;
    if size / packed > ratio {
      assert (size / packed - ratio) * packed > 0.0;
    } else {
      assert (ratio - size / packed) * packed >= 0.0;
    }
  }

  function SizeOf(entry: Entry): int { if IsDirectory(entry.name) then 0 else entry.size }

  function TotalSize(entries: seq<Entry>): int {
    if entries == [] then 0 else TotalSize(entries[..|entries| - 1]) + SizeOf(entries[|entries| - 1])
  }

  predicate EntryFits(entry: Entry, limits: Limits) {
    Normalize(entry.name, true).Ok? && IsReadable(entry) && (!IsDirectory(entry.name) ==> FileFits(entry, limits))
  }

  /** The name under which two members would be confused; `fold` folds the case away. */
  function Key(entry: Entry, fold: string -> string): string {
    var name := Normalize(entry.name, true);
    if name.Ok? then fold(name.value) else ""
  }

  ghost predicate Unambiguous(entries: seq<Entry>, fold: string -> string) {
    forall i, j | 0 <= i < j < |entries| :: Key(entries[i], fold) != Key(entries[j], fold)
  }

  ghost predicate AllFit(entries: seq<Entry>, limits: Limits) {
    forall entry | entry in entries :: EntryFits(entry, limits)
  }

  /** The checks on one entry whose name is new, in their order. */
  function Inspect(entry: Entry, limits: Limits): (refusal: Option<Failure>)
    ensures refusal.None? <==> IsReadable(entry) && (!IsDirectory(entry.name) ==> FileFits(entry, limits))
    ensures refusal == Some(EncryptedDocument) <==> entry.isEncrypted
  {
    if entry.packed > 0 then
      OverblownExactly(entry.size as real, entry.packed as real, limits.maxRatio);
      Refusal(entry, limits)
    else Refusal(entry, limits)
  }

  function Refusal(entry: Entry, limits: Limits): Option<Failure> {
    if entry.isEncrypted then Some(EncryptedDocument)
    else if entry.compression.Unsupported? then Some(UnsafeArchive)
    else if entry.isSymbolicLink then Some(UnsafeArchive)
    else if IsDirectory(entry.name) then None
    else if entry.size < 0 || entry.packed < 0 then Some(UnsafeArchive)
    else if entry.size > limits.maxMember then Some(UnsafeArchive)
    else if entry.size > 0 && entry.packed == 0 then Some(UnsafeArchive)
    else if IsOverblown(entry, limits) then Some(UnsafeArchive)
    else None
  }

  ghost predicate Acceptable(entries: seq<Entry>, limits: Limits, fold: string -> string) {
    && 0 < |entries| <= limits.maxEntries
    && AllFit(entries, limits)
    && Unambiguous(entries, fold)
    && TotalSize(entries) <= limits.maxTotal
  }

  /** The files of a directory by name. */
  function Files(entries: seq<Entry>): map<string, Entry> {
    if entries == [] then map[]
    else
      FilesWith(Files(entries[..|entries| - 1]), entries[|entries| - 1])
  }

  function FilesWith(infos: map<string, Entry>, entry: Entry): map<string, Entry> {
    var name := Normalize(entry.name, true);
    if IsDirectory(entry.name) || name.Err? then infos else infos[name.value := entry]
  }

  lemma {:induction false} TotalsGrow(entries: seq<Entry>, n: nat, limits: Limits)
    requires n <= |entries| && AllFit(entries, limits)
    ensures 0 <= TotalSize(entries[..n]) <= TotalSize(entries)
    decreases |entries|
  {
    if entries != [] {
      var before, last := entries[..|entries| - 1], entries[|entries| - 1];
      assert last in entries;
      if n < |entries| {
        assert before[..n] == entries[..n];
        TotalsGrow(before, n, limits);
      } else {
        assert entries[..n] == entries;
        TotalsGrow(before, |before|, limits);
        assert before[..|before|] == before;
      }
    }
  }

  // ---------------------------------------------------------------- scanning a directory

  ghost function KeysOf(entries: seq<Entry>, fold: string -> string): set<string> {
    set entry | entry in entries :: Key(entry, fold)
  }

  /** What the loop over the directory has established before entry `i`. */
  ghost predicate Scanned(entries: seq<Entry>, i: nat, limits: Limits, fold: string -> string,
                          infos: map<string, Entry>, seen: set<string>, totalSize: int)
    requires i <= |entries|
  {
    && AllFit(entries[..i], limits)
    && Unambiguous(entries[..i], fold)
    && seen == KeysOf(entries[..i], fold)
    && infos == Files(entries[..i])
    && (forall name | name in infos :: fold(name) in seen && infos[name].size >= 0)
    && totalSize == TotalSize(entries[..i]) == Sum(Sizes(infos))
    && totalSize <= limits.maxTotal
  }

  /** An entry that is refused refuses the directory, and one that is not is scanned. */
  lemma RefusesAt(entries: seq<Entry>, i: nat, limits: Limits, fold: string -> string,
                  infos: map<string, Entry>, seen: set<string>, totalSize: int)
    requires i < |entries| && Scanned(entries, i, limits, fold, infos, seen, totalSize)
    ensures var entry := entries[i];
            var seen', total' := seen + {Key(entry, fold)}, totalSize + SizeOf(entry);
            if !EntryFits(entry, limits) || Key(entry, fold) in seen || total' > limits.maxTotal
            then !Acceptable(entries, limits, fold)
            else Scanned(entries, i + 1, limits, fold, FilesWith(infos, entry), seen', total')
  {
    var entry := entries[i];
    assert entry in entries;
    if EntryFits(entry, limits) {
      if Key(entry, fold) in seen {
        RepeatIsAmbiguous(entries, i, fold);
      } else if totalSize + SizeOf(entry) > limits.maxTotal {
        OverrunRefuses(entries, i, limits, fold);
      } else {
        ScansOneMore(entries, i, limits, fold, infos, seen, totalSize);
      }
    }
  }

  lemma RepeatIsAmbiguous(entries: seq<Entry>, i: nat, fold: string -> string)
    requires i < |entries| && Key(entries[i], fold) in KeysOf(entries[..i], fold)
    ensures !Unambiguous(entries, fold)
  {
    var other :| other in entries[..i] && Key(other, fold) == Key(entries[i], fold);
    var j :| 0 <= j < i && entries[j] == other;
  }

  lemma OverrunRefuses(entries: seq<Entry>, i: nat, limits: Limits, fold: string -> string)
    requires i < |entries| && TotalSize(entries[..i]) + SizeOf(entries[i]) > limits.maxTotal
    ensures !Acceptable(entries, limits, fold)
  {
    assert entries[..i + 1][..i] == entries[..i];
    if AllFit(entries, limits) {
      TotalsGrow(entries, i + 1, limits);
    }
  }

  lemma NamesGrow(entries: seq<Entry>, i: nat, limits: Limits, fold: string -> string)
    requires i < |entries| && AllFit(entries[..i], limits) && Unambiguous(entries[..i], fold)
    requires EntryFits(entries[i], limits) && Key(entries[i], fold) !in KeysOf(entries[..i], fold)
    ensures AllFit(entries[..i + 1], limits) && Unambiguous(entries[..i + 1], fold)
    ensures KeysOf(entries[..i + 1], fold) == KeysOf(entries[..i], fold) + {Key(entries[i], fold)}
  {
    var before, entry := entries[..i], entries[i];
    assert entries[..i + 1] == before + [entry];
    forall j | 0 <= j < i ensures Key(before[j], fold) != Key(entry, fold) {
      assert before[j] in before;
    }
  }

  lemma ScansOneMore(entries: seq<Entry>, i: nat, limits: Limits, fold: string -> string,
                     infos: map<string, Entry>, seen: set<string>, totalSize: int)
    requires i < |entries| && Scanned(entries, i, limits, fold, infos, seen, totalSize)
    requires EntryFits(entries[i], limits) && Key(entries[i], fold) !in seen && totalSize + SizeOf(entries[i]) <= limits.maxTotal
    ensures Scanned(entries, i + 1, limits, fold, FilesWith(infos, entries[i]), seen + {Key(entries[i], fold)},
                    totalSize + SizeOf(entries[i]))
  {
    var entry := entries[i];
    var name := Normalize(entry.name, true).value;
    NamesGrow(entries, i, limits, fold);
    assert entries[..i + 1][..i] == entries[..i];
    assert name !in infos;
    FileAdds(infos, name, entry);
  }

  // ---------------------------------------------------------------- what a read answers

  /** A read on a package that has read nothing yet. `contents` is what decompressing a member gives. */
  function FirstRead(infos: map<string, Entry>, contents: Entry -> Option<Bytes>, limits: Limits, name: string,
                     maxBytes: Option<int>): Result<Bytes, Failure>
  {
    var limit := if maxBytes.Some? then maxBytes.value else limits.maxMember;
    if !IsCanonical(name) then Err(UnsafeArchive)
    else if name !in infos then Err(MalformedDocument)
    else if limit < 0 || infos[name].size > limit then Err(UnsafeArchive)
    else
      var data := contents(infos[name]);
      if data.None? || |data.value| != infos[name].size then Err(UnsafeArchive) else Ok(data.value)
  }

  class Package {
    const limits: Limits
    const contents: Entry -> Option<Bytes>
    var infos: map<string, Entry>
    var cache: map<string, Bytes>
    var total: int

    ghost predicate IsNew() reads this {
      infos == map[] && cache == map[] && total == 0
    }

    /** Every cached member is a whole member, and the total counts each of them once. */
    ghost predicate Valid() reads this {
      && (forall name | name in cache ::
            name in infos && contents(infos[name]) == Some(cache[name]) && |cache[name]| == infos[name].size)
      && total == Sum(Lengths(cache))
      && (forall name | name in infos :: infos[name].size >= 0)
      && Sum(Sizes(infos)) <= limits.maxTotal
    }

    constructor (limits: Limits, contents: Entry -> Option<Bytes>)
      ensures IsNew() && this.limits == limits && this.contents == contents
    {
      this.limits := limits;
      this.contents := contents;
      infos, cache, total := map[], map[], 0;
    }

    /** `_validate_directory`: accepts exactly the acceptable directories. */
    method ValidateDirectory(entries: seq<Entry>, fold: string -> string) returns (failure: Option<Failure>)
      requires IsNew()
      modifies this`infos
      ensures failure.None? <==> Acceptable(entries, limits, fold)
      ensures failure == Some(EncryptedDocument) ==> exists entry :: entry in entries && entry.isEncrypted
      ensures failure.None? ==> infos == Files(entries) && Valid()
    {
      if entries == [] || |entries| > limits.maxEntries {
        return Some(UnsafeArchive);
      }
      var totalSize := 0;
      var seen: set<string> := {};
      for i := 0 to |entries|
        invariant Scanned(entries, i, limits, fold, infos, seen, totalSize)
      {
        var entry := entries[i];
        var name := Normalize(entry.name, true);
        RefusesAt(entries, i, limits, fold, infos, seen, totalSize);
        if name.Err? {
          return Some(name.error);
        }
        if fold(name.value) in seen {
          return Some(UnsafeArchive);
        }
        seen := seen + {fold(name.value)};
        var refusal := Inspect(entry, limits);
        if refusal.Some? {
          return refusal;
        }
        if IsDirectory(entry.name) {
          continue;
        }
        totalSize := totalSize + entry.size;
        if totalSize > limits.maxTotal {
          return Some(UnsafeArchive);
        }
        infos := infos[name.value := entry];
      }
      assert entries[..|entries|] == entries;
      return None;
    }

    /** `read_member`. Neither earlier reads nor the budget show in the answer. */
    method ReadMember(name: string, maxBytes: Option<int>) returns (result: Result<Bytes, Failure>)
      requires Valid()
      modifies this`cache, this`total
      ensures Valid() && 0 <= total <= limits.maxTotal
      ensures result == FirstRead(infos, contents, limits, name, maxBytes)
      ensures cache == if result.Ok? then old(cache)[name := result.value] else old(cache)
    {
      CachedWithinBudget();
      NormalizeExactly(name);
      var normalized := Normalize(name, false);
      if normalized.Err? {
        return Err(normalized.error);
      }
      if normalized.value !in infos {
        return Err(MalformedDocument);
      }
      var info := infos[normalized.value];
      var limit := if maxBytes.Some? then maxBytes.value else limits.maxMember;
      if limit < 0 || info.size > limit {
        return Err(UnsafeArchive);
      }
      if normalized.value in cache {
        var cached := cache[normalized.value];
        if |cached| > limit {
          return Err(UnsafeArchive);
        }
        return Ok(cached);
      }
      var stream := contents(info);
      if stream.None? {
        return Err(UnsafeArchive);
      }
      var data := if |stream.value| > limit + 1 then stream.value[..limit + 1] else stream.value;
      if |data| > limit || |data| != info.size {
        return Err(UnsafeArchive);
      }
      SumAdds(Lengths(cache), normalized.value, |data|);
      assert Lengths(cache[normalized.value := data]) == Lengths(cache)[normalized.value := |data|];
      ghost var budget := cache[normalized.value := data];
      SumOfPart(Lengths(budget), Sizes(infos));
      total := total + |data|;
      if total > limits.maxTotal {
        // the read budget can only be exceeded by members the directory did not announce
        assert false;
      }
      cache := cache[normalized.value := data];
      return Ok(data);
    }

    lemma CachedWithinBudget()
      requires Valid()
      ensures 0 <= total <= limits.maxTotal
    {
      SumOfPart(Lengths(cache), Sizes(infos));
    }
  }
}
