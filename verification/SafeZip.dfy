/** The bounded ZIP reader (`extractors/safe_zip.py`): member names and targets stay inside the archive,
    and reads stay inside the budget that the directory was checked against. */
module SafeZip {
  import opened Wrappers

  datatype Failure = UnsafeArchive | EncryptedDocument | MalformedDocument

  // ---------------------------------------------------------------- member names

  function SplitPath(path: string): (parts: seq<string>)
    ensures parts != []
    ensures forall part | part in parts :: '/' !in part
  {
    if path == "" then [""]
    else
      var rest := SplitPath(path[1..]);
      if path[0] == '/' then [""] + rest else [[path[0]] + rest[0]] + rest[1..]
  }

  function JoinPath(parts: seq<string>): string
    requires parts != []
  {
    if |parts| == 1 then parts[0] else parts[0] + "/" + JoinPath(parts[1..])
  }

  predicate IsDirectory(name: string) {
    name != "" && name[|name| - 1] == '/'
  }

  predicate HasCanonicalParts(parts: seq<string>) {
    && parts != [] && (forall part | part in parts :: part !in {"", ".", ".."})
    && ':' !in parts[0]
  }

  /** `_normalize_member_name`. */
  function Normalize(name: string, allowDirectory: bool): Result<string, Failure> {
    if name == "" || '\0' in name || '\\' in name || name[0] == '/' then Err(UnsafeArchive)
    else
      var rawParts := SplitPath(name);
      var parts := if IsDirectory(name) && allowDirectory then rawParts[..|rawParts| - 1] else rawParts;
      if !HasCanonicalParts(parts) then Err(UnsafeArchive) else Ok(JoinPath(parts))
  }

  /** A path that names a member below the root, in the one way there is to write it. */
  predicate IsCanonical(name: string) {
    '\0' !in name && '\\' !in name && HasCanonicalParts(SplitPath(name))
  }

  lemma {:induction false} JoinSplit(path: string)
    ensures JoinPath(SplitPath(path)) == path
  {
    if path != "" {
      JoinSplit(path[1..]);
      var rest := SplitPath(path[1..]);
      if path[0] != '/' && |rest| > 1 {
        assert ([[path[0]] + rest[0]] + rest[1..])[1..] == rest[1..];
      }
      assert path == [path[0]] + path[1..];
    }
  }

  lemma {:induction false} SplitName(part: string)
    requires '/' !in part
    ensures SplitPath(part) == [part]
  {
    if part != "" {
      SplitName(part[1..]);
      assert part == [part[0]] + part[1..];
    }
  }

  lemma {:induction false} SplitAtSlash(part: string, rest: string)
    requires '/' !in part
    ensures SplitPath(part + "/" + rest) == [part] + SplitPath(rest)
  {
    var path := part + "/" + rest;
    if part == "" {
      assert path[1..] == rest;
    } else {
      SplitAtSlash(part[1..], rest);
      assert path[1..] == part[1..] + "/" + rest;
      assert part == [part[0]] + part[1..];
    }
  }

  lemma {:induction false} SplitJoin(parts: seq<string>)
    requires parts != [] && forall part | part in parts :: '/' !in part
    ensures SplitPath(JoinPath(parts)) == parts
  {
    if |parts| == 1 {
      SplitName(parts[0]);
    } else {
      SplitJoin(parts[1..]);
      SplitAtSlash(parts[0], JoinPath(parts[1..]));
    }
  }

  lemma {:induction false} JoinKeepsOut(parts: seq<string>, c: char)
    requires parts != [] && c != '/' && forall part | part in parts :: c !in part
    ensures c !in JoinPath(parts)
  {
    if |parts| > 1 { JoinKeepsOut(parts[1..], c); }
  }

  /** The members that may be read are named canonically, and names are kept as they are. */
  lemma NormalizeExactly(name: string)
    ensures Normalize(name, false) == if IsCanonical(name) then Ok(name) else Err(UnsafeArchive)
  {
    JoinSplit(name);
    if name == "" || name[0] == '/' {
      assert SplitPath(name)[0] == "" && SplitPath(name)[0] in SplitPath(name);
    }
  }

  lemma {:induction false} LastPart(path: string)
    ensures IsDirectory(path) ==> |SplitPath(path)| > 1 && SplitPath(path)[|SplitPath(path)| - 1] == ""
    ensures IsDirectory(path) ==> SplitPath(path) == SplitPath(path[..|path| - 1]) + [""]
  {
    if |path| > 1 && IsDirectory(path) {
      LastPart(path[1..]);
      assert path[1..][..|path| - 2] == path[..|path| - 1][1..];
    }
  }

  /** A directory entry is named by the canonical name before its slash. */
  lemma NormalizeDirectory(name: string)
    ensures IsDirectory(name) ==> Normalize(name, true) == Normalize(name[..|name| - 1], false)
    ensures !IsDirectory(name) ==> Normalize(name, true) == Normalize(name, false)
  {
    if IsDirectory(name) {
      var stem := name[..|name| - 1];
      LastPart(name);
      assert name == stem + "/";
      if stem == "" { assert name[0] == '/'; }
    }
  }

  // ---------------------------------------------------------------- relationship targets

  /** What unquoting and splitting the target as a URL leave. */
  datatype Target = Target(isExternal: bool, hasBackslash: bool, path: string)

  predicate IsSkipped(part: string) { part in {"", "."} }

  predicate IsForbidden(part: string) { '\0' in part || ':' in part }

  /** The segments left over after walking `parts` from a directory. */
  function Walk(base: seq<string>, parts: seq<string>): Result<seq<string>, Failure>
    decreases |parts|
  {
    if parts == [] then Ok(base)
    else if IsSkipped(parts[0]) then Walk(base, parts[1..])
    else if parts[0] == ".." then
      if base == [] then Err(UnsafeArchive) else Walk(base[..|base| - 1], parts[1..])
    else if IsForbidden(parts[0]) then Err(UnsafeArchive)
    else Walk(base + [parts[0]], parts[1..])
  }

  function ParentOf(source: Option<string>): Result<seq<string>, Failure> {
    if source.None? then Ok([])
    else
      var name := Normalize(source.value, false);
      if name.Err? then Err(name.error)
      else
        var parts := SplitPath(name.value);
        Ok(parts[..|parts| - 1])
  }

  function Resolve(source: Option<string>, target: Target): Result<string, Failure> {
    if target.isExternal || target.hasBackslash || (target.path != "" && target.path[0] == '/') || target.path == ""
    then Err(UnsafeArchive)
    else
      var base := ParentOf(source);
      if base.Err? then Err(base.error)
      else
        var walked := Walk(base.value, SplitPath(target.path));
        if walked.Err? || walked.value == [] then Err(UnsafeArchive)
        else Normalize(JoinPath(walked.value), false)
  }

  /** `resolve_target`: a stack of segments, pushed and popped in place. */
  method ResolveTarget(source: Option<string>, target: Target) returns (result: Result<string, Failure>)
    ensures result == Resolve(source, target)
  {
    if target.isExternal || target.hasBackslash || (target.path != "" && target.path[0] == '/') || target.path == "" {
      return Err(UnsafeArchive);
    }
    var base := ParentOf(source);
    if base.Err? {
      return Err(base.error);
    }
    var stack, parts := base.value, SplitPath(target.path);
    ghost var walked := Walk(stack, parts);
    for i := 0 to |parts|
      invariant walked == Walk(stack, parts[i..])
    {
      assert parts[i..][1..] == parts[i + 1..];
      if IsSkipped(parts[i]) {
        continue;
      }
      if parts[i] == ".." {
        if stack == [] {
          return Err(UnsafeArchive);
        }
        stack := stack[..|stack| - 1];
        continue;
      }
      if IsForbidden(parts[i]) {
        return Err(UnsafeArchive);
      }
      stack := stack + [parts[i]];
    }
    if stack == [] {
      return Err(UnsafeArchive);
    }
    result := Normalize(JoinPath(stack), false);
  }

  /** How many levels the walk goes down, less those it comes up. */
  function Descent(parts: seq<string>): int {
    if parts == [] then 0
    else
      (if IsSkipped(parts[0]) then 0 else if parts[0] == ".." then -1 else 1) + Descent(parts[1..])
  }

  ghost predicate Dips(depth: nat, parts: seq<string>) {
    exists k :: 0 <= k <= |parts| && depth + Descent(parts[..k]) < 0
  }

  /** The walk fails exactly when it would step above the root or through a forbidden segment. */
  lemma {:induction false} WalkFailsExactly(base: seq<string>, parts: seq<string>)
    ensures Walk(base, parts).Err? <==> Dips(|base|, parts) || exists part :: part in parts && part != ".." && IsForbidden(part)
    ensures Walk(base, parts).Ok? ==> |Walk(base, parts).value| == |base| + Descent(parts)
    decreases |parts|
  {
    if parts == [] {
      assert parts[..0] == [];
    } else {
      var part, rest := parts[0], parts[1..];
      assert parts == [part] + rest;
      var base' := if IsSkipped(part) then base else if part != ".." then base + [part]
                   else if base == [] then [] else base[..|base| - 1];
      WalkFailsExactly(base', rest);
      DipsNow(|base|, parts);
    }
  }

  /** A walk dips now or later. */
  lemma DipsNow(depth: nat, parts: seq<string>)
    requires parts != []
    ensures var after := depth + Descent(parts[..1]);
            Dips(depth, parts) <==> after < 0 || Dips(after, parts[1..])
    ensures Descent(parts[..1]) == if IsSkipped(parts[0]) then 0 else if parts[0] == ".." then -1 else 1
  {
    var after := depth + Descent(parts[..1]);
    forall k | 1 <= k <= |parts| ensures Descent(parts[..k]) == Descent(parts[..1]) + Descent(parts[1..][..k - 1]) {
      assert parts[..k][1..] == parts[1..][..k - 1];
    }
    if Dips(depth, parts) {
      var k :| 0 <= k <= |parts| && depth + Descent(parts[..k]) < 0;
      if after >= 0 { assert 0 <= k - 1 <= |parts[1..]| && after + Descent(parts[1..][..k - 1]) < 0; }
    }
    if after < 0 { assert depth + Descent(parts[..1]) < 0; }
    if after >= 0 && Dips(after, parts[1..]) {
      var k :| 0 <= k <= |parts[1..]| && after + Descent(parts[1..][..k]) < 0;
      assert depth + Descent(parts[..k + 1]) < 0;
    }
  }

  ghost predicate AreSegments(parts: seq<string>) {
    forall part | part in parts :: part !in {"", ".", ".."} && '/' !in part && !IsForbidden(part) && '\\' !in part
  }

  ghost predicate AreBaseSegments(parts: seq<string>) {
    && (forall part | part in parts :: part !in {"", ".", ".."} && '/' !in part && '\0' !in part && '\\' !in part)
    && (parts != [] ==> ':' !in parts[0])
  }

  /** What a walk leaves is a member name again. */
  lemma {:induction false} WalkLeavesSegments(base: seq<string>, parts: seq<string>)
    requires AreBaseSegments(base) && Walk(base, parts).Ok?
    requires forall part | part in parts :: '/' !in part && '\\' !in part
    ensures AreBaseSegments(Walk(base, parts).value)
    decreases |parts|
  {
    if parts != [] {
      var base' := if IsSkipped(parts[0]) then base else if parts[0] == ".." then base[..|base| - 1] else base + [parts[0]];
      WalkLeavesSegments(base', parts[1..]);
    }
  }

  lemma {:induction false} SplitKeepsOut(path: string, c: char)
    requires c !in path
    ensures forall part | part in SplitPath(path) :: c !in part
  {
    if path != "" { SplitKeepsOut(path[1..], c); }
  }

  lemma SegmentsAreCanonical(parts: seq<string>)
    requires AreBaseSegments(parts) && parts != []
    ensures IsCanonical(JoinPath(parts)) && SplitPath(JoinPath(parts)) == parts
  {
    SplitJoin(parts);
    JoinKeepsOut(parts, '\0');
    JoinKeepsOut(parts, '\\');
  }

  lemma ParentIsSegments(source: Option<string>)
    requires source.Some? ==> IsCanonical(source.value)
    ensures ParentOf(source).Ok? && AreBaseSegments(ParentOf(source).value)
  {
    if source.Some? {
      NormalizeExactly(source.value);
      SplitKeepsOut(source.value, '\0');
      SplitKeepsOut(source.value, '\\');
    }
  }

  /** How many directories there are above the source. */
  function Depth(source: Option<string>): nat {
    if source.None? then 0 else |SplitPath(source.value)| - 1
  }

  /** No target escapes: what is resolved is a canonical member name, and resolving succeeds exactly when
      the target is a relative path that stays below the root, names no drive and ends below the root. */
  lemma ResolvesExactly(source: Option<string>, target: Target)
    requires '\\' in target.path ==> target.hasBackslash
    ensures Resolve(source, target).Ok? ==> IsCanonical(Resolve(source, target).value)
    ensures Resolve(source, target).Ok? <==>
              && !target.isExternal && !target.hasBackslash && target.path != "" && target.path[0] != '/'
              && (source.Some? ==> IsCanonical(source.value))
              && (var depth, parts := Depth(source), SplitPath(target.path);
                  && !Dips(depth, parts) && depth + Descent(parts) != 0
                  && forall part | part in parts && part != ".." :: !IsForbidden(part))
  {
    if source.Some? { NormalizeExactly(source.value); }
    if !target.hasBackslash && (source.Some? ==> IsCanonical(source.value)) {
      ParentIsSegments(source);
      var base, parts := ParentOf(source).value, SplitPath(target.path);
      WalkFailsExactly(base, parts);
      SplitKeepsOut(target.path, '\\');
      if Walk(base, parts).Ok? && Walk(base, parts).value != [] {
        WalkLeavesSegments(base, parts);
        SegmentsAreCanonical(Walk(base, parts).value);
        NormalizeExactly(JoinPath(Walk(base, parts).value));
      }
    }
  }

  function Ups(n: nat): seq<string> {
    if n == 0 then [] else [".."] + Ups(n - 1)
  }

  lemma {:induction false} WalkUp(base: seq<string>, parts: seq<string>)
    ensures Walk(base, Ups(|base|) + parts) == Walk([], parts)
    decreases |base|
  {
    if base == [] {
      assert Ups(0) + parts == parts;
    } else {
      assert (Ups(|base|) + parts)[1..] == Ups(|base| - 1) + parts;
      WalkUp(base[..|base| - 1], parts);
    }
  }

  lemma {:induction false} WalkDown(base: seq<string>, parts: seq<string>)
    requires AreSegments(parts)
    ensures Walk(base, parts) == Ok(base + parts)
    decreases |parts|
  {
    if parts != [] {
      assert parts[0] in parts;
      WalkDown(base + [parts[0]], parts[1..]);
      assert base + [parts[0]] + parts[1..] == base + parts;
    } else {
      assert base + parts == base;
    }
  }

  lemma {:induction false} SplitKeepsIn(path: string, c: char)
    requires c in path && c != '/'
    ensures exists part :: part in SplitPath(path) && c in part
  {
    var parts, rest := SplitPath(path), SplitPath(path[1..]);
    if path[0] == c {
      assert c in parts[0];
    } else {
      SplitKeepsIn(path[1..], c);
      var i: nat :| i < |rest| && c in rest[i];
      if path[0] == '/' {
        assert parts[i + 1] == rest[i];
      } else if i == 0 {
        assert c in parts[0];
      } else {
        assert parts[i] == rest[i];
      }
    }
  }

  /** A target that climbs to the root and goes down to another member, from any member. */
  function RelativeTarget(source: string, member: string): Target {
    Target(false, false, JoinPath(Ups(|SplitPath(source)| - 1) + SplitPath(member)))
  }

  /** It arrives there exactly if the member's path holds no colon; else it is refused. */
  lemma RelativeTargetArrives(source: string, member: string)
    requires IsCanonical(source) && IsCanonical(member)
    ensures Resolve(Some(source), RelativeTarget(source, member)) == if ':' in member then Err(UnsafeArchive) else Ok(member)
  {
    var base, parts := SplitPath(source)[..|SplitPath(source)| - 1], SplitPath(member);
    var all := Ups(|base|) + parts;
    NormalizeExactly(source);
    NormalizeExactly(member);
    JoinSplit(member);
    SplitKeepsOut(member, '\0');
    SplitKeepsOut(member, '\\');
    UpsAreUps(|base|);
    SplitJoin(all);
    WalkUp(base, parts);
    assert all[0] != "" by {
      if |base| == 0 { assert all == parts; }
    }
    JoinStartsWithFirst(all);
    if ':' in member {
      SplitKeepsIn(member, ':');
      WalkFailsExactly([], parts);
    } else {
      SplitKeepsOut(member, ':');
      WalkDown([], parts);
      assert [] + parts == parts;
    }
  }

  lemma {:induction false} UpsAreUps(n: nat)
    ensures forall part | part in Ups(n) :: part == ".."
    ensures |Ups(n)| == n
  {
    if n > 0 { UpsAreUps(n - 1); }
  }

  lemma JoinStartsWithFirst(parts: seq<string>)
    requires parts != [] && parts[0] != ""
    ensures JoinPath(parts) != "" && JoinPath(parts)[0] == parts[0][0]
  {
  }
}
