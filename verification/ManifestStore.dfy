/**
  The artifact manifest: claims by key, each on one formal path. The in-memory adapter is the
  specification; the sidecar adapter keeps the same map as one optional byte file.
*/
module ManifestStore {
  import opened Prelude

  /** A claim: the formal path it owns and the digest of its basis. */
  datatype Claim = Claim(path: string, digest: string)

  /** Claims by encoded key. */
  type Claims = map<string, Claim>

  /** A scoped expectation or replacement; `None` means absent. */
  type Scope = map<string, Option<Claim>>

  datatype Answer = Returned(changed: bool) | Raised

  // ------------------------------------------------------------ specification

  /** No formal path, as the file system identifies paths, is owned by two keys. */
  ghost predicate UniquePaths(identity: string -> string, claims: Claims) {
    forall a, b :: a in claims && b in claims && identity(claims[a].path) == identity(claims[b].path) ==> a == b
  }

  function Lookup(claims: Claims, key: string): Option<Claim> {
    if key in claims then Some(claims[key]) else None
  }

  predicate Matches(claims: Claims, scope: Scope) {
    forall key :: key in scope ==> Lookup(claims, key) == scope[key]
  }

  function Applied(claims: Claims, scope: Scope): Claims {
    map key | key in claims.Keys + scope.Keys && (key in scope ==> scope[key].Some?) ::
      if key in scope then scope[key].value else claims[key]
  }

  lemma AppliedMatches(claims: Claims, scope: Scope)
    ensures Matches(Applied(claims, scope), scope)
    ensures forall key :: key !in scope ==> Lookup(Applied(claims, scope), key) == Lookup(claims, key)
  {
  }

  /** Restoring what matched before a replacement of the same keys undoes it exactly. */
  lemma ApplyThenRestore(claims: Claims, before: Scope, after: Scope)
    requires before.Keys == after.Keys && Matches(claims, before)
    ensures Matches(Applied(claims, after), after)
    ensures Applied(Applied(claims, after), before) == claims
  {
  }

  datatype Call =
    | Put(key: string, claim: Claim)
    | Delete(key: string)
    | SwapScoped(expected: Scope, replacements: Scope)
    | SwapSnapshot(expectedAll: Claims, replacementAll: Claims)
    | ReplaceAll(claims: Claims, present: string -> bool)

  /** What a call makes of the claims, and its answer, with the claims held in memory. */
  ghost function Memory(identity: string -> string, claims: Claims, call: Call): (Claims, Answer) {
    match call
    case Put(key, claim) =>
      if Lookup(claims, key) == Some(claim) then (claims, Returned(false))
      else if !UniquePaths(identity, claims[key := claim]) then (claims, Raised)
      else (claims[key := claim], Returned(true))
    case Delete(key) => (claims - {key}, Returned(key in claims))
    case SwapScoped(expected, replacements) =>
      var updated := Applied(claims, replacements);
      if !Matches(claims, expected) || updated == claims then (claims, Returned(false))
      else if !UniquePaths(identity, updated) then (claims, Raised)
      else (updated, Returned(true))
    case SwapSnapshot(expectedAll, replacementAll) =>
      if !UniquePaths(identity, replacementAll) then (claims, Raised)
      else if claims != expectedAll then (claims, Returned(false))
      else (replacementAll, Returned(true))
    case ReplaceAll(all, _) =>
      if !UniquePaths(identity, all) then (claims, Raised)
      else (all, Returned(claims != all))
  }

  lemma MemoryKeepsPathsUnique(identity: string -> string, claims: Claims, call: Call)
    requires UniquePaths(identity, claims)
    ensures UniquePaths(identity, Memory(identity, claims, call).0)
    ensures Memory(identity, claims, call).1.Raised? ==> Memory(identity, claims, call).0 == claims
  {
  }

  // ------------------------------------------------------------------ sidecar

  /** The textual form of the claims, path ownership aside; `admits` is what the reader demands of each single claim. */
  datatype Codec = Codec(
    serialize: Claims -> seq<Byte>,
    parse: seq<Byte> -> Option<Claims>,
    admits: (string, Claim) -> bool)

  predicate Admissible(codec: Codec, claims: Claims) {
    forall key :: key in claims ==> codec.admits(key, claims[key])
  }

  /** Every claimed formal file is there; the file adapter refuses a whole replacement otherwise. */
  predicate ArtifactsThere(claims: Claims, present: string -> bool) {
    forall key :: key in claims ==> present(claims[key].path)
  }

  ghost predicate Lawful(identity: string -> string, codec: Codec) {
    && (forall claims :: Admissible(codec, claims) && UniquePaths(identity, claims) ==>
          codec.parse(codec.serialize(claims)) == Some(claims))
    && (forall raw :: codec.parse(raw).Some? ==> Admissible(codec, codec.parse(raw).value))
  }

  /** The file, or its absence. */
  type Sidecar = Option<seq<Byte>>

  /** What a reader sees: nothing where the file cannot be read or two keys own one path. */
  ghost function Loaded(identity: string -> string, codec: Codec, file: Sidecar): Option<Claims> {
    if file.None? then Some(map[])
    else
      var claims := codec.parse(file.value);
      if claims.Some? && UniquePaths(identity, claims.value) then claims else None
  }

  ghost predicate AdmissibleCall(codec: Codec, call: Call) {
    match call
    case Put(key, claim) => codec.admits(key, claim)
    case Delete(_) => true
    case SwapScoped(_, replacements) =>
      forall key :: key in replacements && replacements[key].Some? ==> codec.admits(key, replacements[key].value)
    case SwapSnapshot(_, replacementAll) => Admissible(codec, replacementAll)
    case ReplaceAll(claims, present) => Admissible(codec, claims) && ArtifactsThere(claims, present)
  }

  /** What a call makes of the file, and its answer. Unreadable files make every call raise. */
  ghost function File(identity: string -> string, codec: Codec, file: Sidecar, call: Call): (Sidecar, Answer) {
    var loaded := Loaded(identity, codec, file);
    if loaded.None? then (file, Raised)
    else
      var claims := loaded.value;
      match call
      case Put(key, claim) =>
        if Lookup(claims, key) == Some(claim) && file.Some? then (file, Returned(false))
        else if !UniquePaths(identity, claims[key := claim]) then (file, Raised)
        else if file == Some(codec.serialize(claims[key := claim])) then (file, Returned(false))
        else (Some(codec.serialize(claims[key := claim])), Returned(true))
      case Delete(key) =>
        var rest := claims - {key};
        if key !in claims then (file, Returned(false))
        else if rest == map[] then (None, Returned(true))
        else if file == Some(codec.serialize(rest)) then (file, Returned(false))
        else (Some(codec.serialize(rest)), Returned(true))
      case SwapScoped(expected, replacements) =>
        var updated := Applied(claims, replacements);
        if !Matches(claims, expected) then (file, Returned(false))
        else if updated == map[] then (None, Returned(file.Some?))
        else if !UniquePaths(identity, updated) then (file, Raised)
        else if file == Some(codec.serialize(updated)) then (file, Returned(false))
        else (Some(codec.serialize(updated)), Returned(true))
      case SwapSnapshot(expectedAll, replacementAll) =>
        if !UniquePaths(identity, replacementAll) then (file, Raised)
        else if claims != expectedAll then (file, Returned(false))
        else if claims == replacementAll then (file, Returned(true))
        else if replacementAll == map[] then (None, Returned(true))
        else if file == Some(codec.serialize(replacementAll)) then (file, Returned(true))
        else (Some(codec.serialize(replacementAll)), Returned(true))
      case ReplaceAll(all, present) =>
        if !ArtifactsThere(all, present) || !UniquePaths(identity, all) then (file, Raised)
        else if file == Some(codec.serialize(all)) then (file, Returned(false))
        else (Some(codec.serialize(all)), Returned(true))
  }

  /** The call matches but asks for what is already there, and the file is not the form it would write. */
  ghost predicate RewritesOnly(codec: Codec, file: Sidecar, claims: Claims, call: Call) {
    match call
    case SwapScoped(expected, replacements) =>
      && Matches(claims, expected) && Applied(claims, replacements) == claims
      && file != (if claims == map[] then None else Some(codec.serialize(claims)))
    case ReplaceAll(all, _) => all == claims && file != Some(codec.serialize(claims))
    case _ => false
  }

  lemma AppliedIsAdmissible(codec: Codec, claims: Claims, scope: Scope)
    requires Admissible(codec, claims) && AdmissibleCall(codec, SwapScoped(map[], scope))
    ensures Admissible(codec, Applied(claims, scope))
  {
  }

  lemma LoadedIsGood(identity: string -> string, codec: Codec, file: Sidecar)
    requires Lawful(identity, codec) && Loaded(identity, codec, file).Some?
    ensures Admissible(codec, Loaded(identity, codec, file).value)
        && UniquePaths(identity, Loaded(identity, codec, file).value)
  {
  }

  lemma ReloadsAs(identity: string -> string, codec: Codec, claims: Claims)
    requires Lawful(identity, codec) && Admissible(codec, claims) && UniquePaths(identity, claims)
    ensures Loaded(identity, codec, Some(codec.serialize(claims))) == Some(claims)
  {
  }

  /**
    On a readable file and an admissible call, the file ends up holding the claims the in-memory adapter
    ends up with, and the two answers differ exactly when the call only rewrites the file's form.
  */
  lemma FileFollowsMemory(identity: string -> string, codec: Codec, file: Sidecar, call: Call)
    requires Lawful(identity, codec) && AdmissibleCall(codec, call)
    requires Loaded(identity, codec, file).Some?
    ensures var claims := Loaded(identity, codec, file).value;
            var (fileAfter, answer) := File(identity, codec, file, call);
            var (claimsAfter, expected) := Memory(identity, claims, call);
            && Loaded(identity, codec, fileAfter) == Some(claimsAfter)
            && (answer == expected <==> !RewritesOnly(codec, file, claims, call))
  {
    var claims := Loaded(identity, codec, file).value;
    LoadedIsGood(identity, codec, file);
    MemoryKeepsPathsUnique(identity, claims, call);
    var after := Memory(identity, claims, call).0;
    match call {
      case Put(key, claim) => FileFollowsPut(identity, codec, file, key, claim);
      case Delete(key) => FileFollowsDelete(identity, codec, file, key);
      case SwapScoped(expected, replacements) => FileFollowsSwap(identity, codec, file, expected, replacements);
      case SwapSnapshot(expectedAll, replacementAll) =>
        if UniquePaths(identity, replacementAll) {
          ReloadsAs(identity, codec, replacementAll);
        }
      case ReplaceAll(all, _) =>
        if UniquePaths(identity, all) {
          ReloadsAs(identity, codec, all);
        }
    }
  }

  lemma FileFollowsPut(identity: string -> string, codec: Codec, file: Sidecar, key: string, claim: Claim)
    requires Lawful(identity, codec) && codec.admits(key, claim) && Loaded(identity, codec, file).Some?
    ensures var (fileAfter, answer) := File(identity, codec, file, Put(key, claim));
            var (claimsAfter, expected) := Memory(identity, Loaded(identity, codec, file).value, Put(key, claim));
            Loaded(identity, codec, fileAfter) == Some(claimsAfter) && answer == expected
  {
    LoadedIsGood(identity, codec, file);
    var updated := Loaded(identity, codec, file).value[key := claim];
    if UniquePaths(identity, updated) {
      ReloadsAs(identity, codec, updated);
    }
  }

  lemma FileFollowsDelete(identity: string -> string, codec: Codec, file: Sidecar, key: string)
    requires Lawful(identity, codec) && Loaded(identity, codec, file).Some?
    ensures var (fileAfter, answer) := File(identity, codec, file, Delete(key));
            var (claimsAfter, expected) := Memory(identity, Loaded(identity, codec, file).value, Delete(key));
            Loaded(identity, codec, fileAfter) == Some(claimsAfter) && answer == expected
  {
    LoadedIsGood(identity, codec, file);
    var claims := Loaded(identity, codec, file).value;
    ReloadsAs(identity, codec, claims - {key});
    assert key !in claims ==> claims - {key} == claims;
  }

  lemma FileFollowsSwap(identity: string -> string, codec: Codec, file: Sidecar, expected: Scope, replacements: Scope)
    requires Lawful(identity, codec) && AdmissibleCall(codec, SwapScoped(expected, replacements))
    requires Loaded(identity, codec, file).Some?
    ensures var call := SwapScoped(expected, replacements);
            var claims := Loaded(identity, codec, file).value;
            var (fileAfter, answer) := File(identity, codec, file, call);
            var (claimsAfter, wanted) := Memory(identity, claims, call);
            && Loaded(identity, codec, fileAfter) == Some(claimsAfter)
            && (answer == wanted <==> !RewritesOnly(codec, file, claims, call))
  {
    hide Matches, Applied;
    LoadedIsGood(identity, codec, file);
    var claims := Loaded(identity, codec, file).value;
    var updated := Applied(claims, replacements);
    AppliedIsAdmissible(codec, claims, replacements);
    if UniquePaths(identity, updated) {
      ReloadsAs(identity, codec, updated);
    }
  }

  ghost function MemoryRun(identity: string -> string, calls: seq<Call>): Claims {
    if calls == [] then map[]
    else Memory(identity, MemoryRun(identity, calls[..|calls| - 1]), calls[|calls| - 1]).0
  }

  ghost function FileRun(identity: string -> string, codec: Codec, calls: seq<Call>): Sidecar {
    if calls == [] then None
    else File(identity, codec, FileRun(identity, codec, calls[..|calls| - 1]), calls[|calls| - 1]).0
  }

  /** Any sequence of admissible calls leaves the file holding the in-memory claims, every path owned once. */
  lemma {:induction false} FileRunFollowsMemoryRun(identity: string -> string, codec: Codec, calls: seq<Call>)
    requires Lawful(identity, codec) && forall i :: 0 <= i < |calls| ==> AdmissibleCall(codec, calls[i])
    ensures Loaded(identity, codec, FileRun(identity, codec, calls)) == Some(MemoryRun(identity, calls))
    ensures UniquePaths(identity, MemoryRun(identity, calls))
  {
    if calls != [] {
      hide Memory, File, AdmissibleCall, Loaded, Lawful;
      var n := |calls| - 1;
      FileRunFollowsMemoryRun(identity, codec, calls[..n]);
      FileFollowsMemory(identity, codec, FileRun(identity, codec, calls[..n]), calls[n]);
      MemoryKeepsPathsUnique(identity, MemoryRun(identity, calls[..n]), calls[n]);
    } else {
      assert Loaded(identity, codec, None) == Some(map[]);
    }
  }

  // ----------------------------------------------------------------- recovery

  /** `repair_path_conflicted_entries_atomically`: only for a file that is readable but for its path ownership. */
  ghost function Repaired(
      identity: string -> string, codec: Codec, file: Sidecar, repair: Claims -> Claims): (Sidecar, Answer)
  {
    var claims := if file.None? then Some(map[]) else codec.parse(file.value);
    if claims.None? || UniquePaths(identity, claims.value) then (file, Raised)
    else
      var replacement := repair(claims.value);
      if !Admissible(codec, replacement) || !UniquePaths(identity, replacement) then (file, Raised)
      else (Some(codec.serialize(replacement)), Returned(true))
  }

  /**
    `replace_unreadable_entries_atomically`: only for a file no reader accepts, and only with artifacts that are
    there.
  */
  ghost function ReplacedUnreadable(
      identity: string -> string, codec: Codec, file: Sidecar, all: Claims, present: string -> bool): (Sidecar, Answer)
  {
    if !ArtifactsThere(all, present) || !Admissible(codec, all) || !UniquePaths(identity, all) then (file, Raised)
    else
      var current := Loaded(identity, codec, file);
      if current.None? then (Some(codec.serialize(all)), Returned(true))
      else (file, if current.value == all then Returned(false) else Raised)
  }

  /** Recovery only ever touches a file that readers refuse, and leaves one they accept. */
  lemma RecoveryEndsReadable(
      identity: string -> string, codec: Codec, file: Sidecar, repair: Claims -> Claims, all: Claims,
      present: string -> bool)
    requires Lawful(identity, codec)
    ensures var (after, answer) := Repaired(identity, codec, file, repair);
            && (answer.Returned? ==>
                  && file.Some? && codec.parse(file.value).Some? && Loaded(identity, codec, file).None?
                  && Loaded(identity, codec, after) == Some(repair(codec.parse(file.value).value)))
            && (answer.Raised? ==> after == file)
    ensures var (after, answer) := ReplacedUnreadable(identity, codec, file, all, present);
            && (answer.Returned? ==> Loaded(identity, codec, after) == Some(all) && ArtifactsThere(all, present))
            && (answer == Returned(true) ==> Loaded(identity, codec, file).None?)
            && (answer != Returned(true) ==> after == file)
  {
    if Admissible(codec, all) && UniquePaths(identity, all) {
      ReloadsAs(identity, codec, all);
    }
  }

  /** Everything that may be done to the file. */
  datatype Access =
    | Ordinary(call: Call)
    | Repair(repair: Claims -> Claims)
    | Recover(all: Claims, present: string -> bool)

  ghost function Accessed(identity: string -> string, codec: Codec, file: Sidecar, access: Access): (Sidecar, Answer) {
    match access
    case Ordinary(call) => File(identity, codec, file, call)
    case Repair(repair) => Repaired(identity, codec, file, repair)
    case Recover(all, present) => ReplacedUnreadable(identity, codec, file, all, present)
  }

  ghost function AccessRun(identity: string -> string, codec: Codec, file: Sidecar, accesses: seq<Access>): Sidecar {
    if accesses == [] then file
    else
      Accessed(identity, codec, AccessRun(identity, codec, file, accesses[..|accesses| - 1]),
          accesses[|accesses| - 1]).0
  }

  /** Some access of the run was a recovery that wrote. */
  ghost predicate SomeRecoverySucceeds(identity: string -> string, codec: Codec, file: Sidecar, accesses: seq<Access>) {
    && accesses != []
    && var n := |accesses| - 1;
       || SomeRecoverySucceeds(identity, codec, file, accesses[..n])
       || (&& !accesses[n].Ordinary?
           && Accessed(identity, codec, AccessRun(identity, codec, file, accesses[..n]), accesses[n]).1
               == Returned(true))
  }

  ghost predicate EveryAccessRaises(identity: string -> string, codec: Codec, file: Sidecar, accesses: seq<Access>) {
    || accesses == []
    || var n := |accesses| - 1;
       && EveryAccessRaises(identity, codec, file, accesses[..n])
       && Accessed(identity, codec, AccessRun(identity, codec, file, accesses[..n]), accesses[n]).1 == Raised
  }

  /**
    A file that readers refuse, as when two keys own one path, is ended only by a recovery: until one succeeds every
    access of every run raises and the file stays as it is, and from then on it stays readable.
  */
  lemma {:induction false} OnlyRecoveryEndsAConflict(
      identity: string -> string, codec: Codec, file: Sidecar, accesses: seq<Access>)
    requires Lawful(identity, codec) && Loaded(identity, codec, file).None?
    requires forall i :: 0 <= i < |accesses| && accesses[i].Ordinary? ==> AdmissibleCall(codec, accesses[i].call)
    ensures var after := AccessRun(identity, codec, file, accesses);
            && (Loaded(identity, codec, after).Some? <==> SomeRecoverySucceeds(identity, codec, file, accesses))
            && (Loaded(identity, codec, after).None? ==>
                  after == file && EveryAccessRaises(identity, codec, file, accesses))
  {
    if accesses != [] {
      hide Accessed, Loaded, AdmissibleCall, Lawful;
      var n := |accesses| - 1;
      OnlyRecoveryEndsAConflict(identity, codec, file, accesses[..n]);
      OneAccess(identity, codec, AccessRun(identity, codec, file, accesses[..n]), accesses[n]);
    }
  }

  /** A refused file is changed only by a recovery that succeeds; a readable one stays readable. */
  lemma OneAccess(identity: string -> string, codec: Codec, file: Sidecar, access: Access)
    requires Lawful(identity, codec) && (access.Ordinary? ==> AdmissibleCall(codec, access.call))
    ensures var (after, answer) := Accessed(identity, codec, file, access);
            && (Loaded(identity, codec, file).Some? ==>
                  && Loaded(identity, codec, after).Some?
                  && (!access.Ordinary? ==> answer != Returned(true)))
            && (Loaded(identity, codec, file).None? ==>
                  if !access.Ordinary? && answer == Returned(true) then Loaded(identity, codec, after).Some?
                  else (after, answer) == (file, Raised))
  {
    hide Lawful, Admissible, ArtifactsThere, AdmissibleCall;
    match access {
      case Ordinary(call) =>
        if Loaded(identity, codec, file).Some? {
          FileFollowsMemory(identity, codec, file, call);
        }
      case Repair(repair) => RecoveryEndsReadable(identity, codec, file, repair, map[], _ => true);
      case Recover(all, present) => RecoveryEndsReadable(identity, codec, file, claims => claims, all, present);
    }
  }

  // ----------------------------------------------------------------- adapters

  /** The ownership check: one pass over the claims in any order, remembering each path's owner. */
  method AssertUniquePaths(identity: string -> string, claims: Claims) returns (unique: bool)
    ensures unique <==> UniquePaths(identity, claims)
  {
    var owners: map<string, string> := map[];
    var todo := claims.Keys;
    while todo != {}
      invariant todo <= claims.Keys
      invariant forall path :: path in owners ==>
                  owners[path] in claims && owners[path] !in todo && identity(claims[owners[path]].path) == path
      invariant forall key :: key in claims && key !in todo ==>
                  identity(claims[key].path) in owners && owners[identity(claims[key].path)] == key
      decreases todo
    {
      var key :| key in todo;
      todo := todo - {key};
      var path := identity(claims[key].path);
      if path in owners && owners[path] != key {
        return false;
      }
      owners := owners[path := key];
    }
    unique := true;
  }

  method ScopeMatches(claims: Claims, scope: Scope) returns (matches: bool)
    ensures matches <==> Matches(claims, scope)
  {
    var todo := scope.Keys;
    while todo != {}
      invariant todo <= scope.Keys
      invariant forall key :: key in scope && key !in todo ==> Lookup(claims, key) == scope[key]
      decreases todo
    {
      var key :| key in todo;
      todo := todo - {key};
      if Lookup(claims, key) != scope[key] {
        return false;
      }
    }
    matches := true;
  }

  method ApplyScope(claims: Claims, scope: Scope) returns (updated: Claims)
    ensures updated == Applied(claims, scope)
  {
    updated := claims;
    var todo := scope.Keys;
    while todo != {}
      invariant todo <= scope.Keys
      invariant forall key :: Lookup(updated, key) ==
                  if key in scope && key !in todo then scope[key] else Lookup(claims, key)
      decreases todo
    {
      var key :| key in todo;
      todo := todo - {key};
      if scope[key].None? {
        updated := updated - {key};
      } else {
        updated := updated[key := scope[key].value];
      }
    }
    SameLookups(updated, Applied(claims, scope));
  }

  lemma SameLookups(a: Claims, b: Claims)
    requires forall key :: Lookup(a, key) == Lookup(b, key)
    ensures a == b
  {
    assert forall key :: key in a <==> Lookup(a, key).Some?;
    assert forall key :: key in b <==> Lookup(b, key).Some?;
    assert forall key :: key in a ==> Lookup(a, key) == Some(a[key]) && Lookup(b, key) == Some(b[key]);
  }

  class MemoryAdapter {
    const identity: string -> string
    var entries: Claims

    constructor (identity: string -> string)
      ensures this.identity == identity && entries == map[]
    {
      this.identity, entries := identity, map[];
    }

    method PutEntry(key: string, claim: Claim) returns (answer: Answer)
      modifies this
      ensures (entries, answer) == Memory(identity, old(entries), Put(key, claim))
    {
      if Lookup(entries, key) == Some(claim) {
        return Returned(false);
      }
      var updated := entries[key := claim];
      var unique := AssertUniquePaths(identity, updated);
      if !unique {
        return Raised;
      }
      entries := updated;
      answer := Returned(true);
    }

    method DeleteEntry(key: string) returns (answer: Answer)
      modifies this
      ensures (entries, answer) == Memory(identity, old(entries), Delete(key))
    {
      answer := Returned(key in entries);
      entries := entries - {key};
    }

    method ReplaceEntriesIfMatches(expected: Scope, replacements: Scope) returns (answer: Answer)
      modifies this
      ensures (entries, answer) == Memory(identity, old(entries), SwapScoped(expected, replacements))
    {
      hide Matches, Applied;
      var matches := ScopeMatches(entries, expected);
      if !matches {
        return Returned(false);
      }
      var updated := ApplyScope(entries, replacements);
      if updated == entries {
        return Returned(false);
      }
      var unique := AssertUniquePaths(identity, updated);
      if !unique {
        return Raised;
      }
      entries := updated;
      answer := Returned(true);
    }

    method ReplaceSnapshotIfMatches(expected: Claims, replacement: Claims) returns (answer: Answer)
      modifies this
      ensures (entries, answer) == Memory(identity, old(entries), SwapSnapshot(expected, replacement))
    {
      var unique := AssertUniquePaths(identity, replacement);
      if !unique {
        return Raised;
      }
      if entries != expected {
        return Returned(false);
      }
      entries := replacement;
      answer := Returned(true);
    }

    method ReplaceEntries(all: Claims, present: string -> bool) returns (answer: Answer)
      modifies this
      ensures (entries, answer) == Memory(identity, old(entries), ReplaceAll(all, present))
    {
      var unique := AssertUniquePaths(identity, all);
      if !unique {
        return Raised;
      }
      if entries == all {
        return Returned(false);
      }
      entries := all;
      answer := Returned(true);
    }
  }

  class SidecarAdapter {
    const identity: string -> string
    const codec: Codec
    var file: Sidecar

    constructor (identity: string -> string, codec: Codec)
      ensures this.identity == identity && this.codec == codec && file.None?
    {
      this.identity, this.codec, file := identity, codec, None;
    }

    method Load() returns (loaded: Option<Claims>)
      ensures loaded == Loaded(identity, codec, file)
    {
      if file.None? {
        return Some(map[]);
      }
      loaded := codec.parse(file.value);
      if loaded.Some? {
        var unique := AssertUniquePaths(identity, loaded.value);
        if !unique {
          return None;
        }
      }
    }

    /** Serialises and replaces the file unless it already has this form; refuses a path with two owners. */
    method Store(claims: Claims, whenSame: bool) returns (answer: Answer)
      modifies this
      ensures !UniquePaths(identity, claims) ==> answer == Raised && file == old(file)
      ensures UniquePaths(identity, claims) ==>
                && file == Some(codec.serialize(claims))
                && answer == Returned(if old(file) == Some(codec.serialize(claims)) then whenSame else true)
    {
      var unique := AssertUniquePaths(identity, claims);
      if !unique {
        return Raised;
      }
      var raw := codec.serialize(claims);
      if file == Some(raw) {
        return Returned(whenSame);
      }
      file := Some(raw);
      answer := Returned(true);
    }

    method PutEntry(key: string, claim: Claim) returns (answer: Answer)
      modifies this
      ensures (file, answer) == File(identity, codec, old(file), Put(key, claim))
    {
      hide UniquePaths;
      var loaded := Load();
      if loaded.None? {
        return Raised;
      }
      if Lookup(loaded.value, key) == Some(claim) && file.Some? {
        return Returned(false);
      }
      answer := Store(loaded.value[key := claim], false);
    }

    method DeleteEntry(key: string) returns (answer: Answer)
      requires Lawful(identity, codec)
      modifies this
      ensures (file, answer) == File(identity, codec, old(file), Delete(key))
    {
      var loaded := Load();
      if loaded.None? {
        return Raised;
      }
      if key !in loaded.value {
        return Returned(false);
      }
      var rest := loaded.value - {key};
      if rest == map[] {
        file := None;
        return Returned(true);
      }
      LoadedIsGood(identity, codec, file);
      answer := Store(rest, false);
    }

    method ReplaceEntriesIfMatches(expected: Scope, replacements: Scope) returns (answer: Answer)
      modifies this
      ensures (file, answer) == File(identity, codec, old(file), SwapScoped(expected, replacements))
    {
      hide Matches, Applied, UniquePaths;
      var loaded := Load();
      if loaded.None? {
        return Raised;
      }
      var matches := ScopeMatches(loaded.value, expected);
      if !matches {
        return Returned(false);
      }
      var updated := ApplyScope(loaded.value, replacements);
      if updated == map[] {
        answer := Returned(file.Some?);
        file := None;
        return;
      }
      answer := Store(updated, false);
    }

    method ReplaceSnapshotIfMatches(expected: Claims, replacement: Claims) returns (answer: Answer)
      modifies this
      ensures (file, answer) == File(identity, codec, old(file), SwapSnapshot(expected, replacement))
    {
      hide UniquePaths;
      var unique := AssertUniquePaths(identity, replacement);
      if !unique {
        return Raised;
      }
      var loaded := Load();
      if loaded.None? {
        return Raised;
      }
      if loaded.value != expected {
        return Returned(false);
      }
      if loaded.value == replacement {
        return Returned(true);
      }
      if replacement == map[] {
        file := None;
        return Returned(true);
      }
      answer := Store(replacement, true);
    }

    method ReplaceEntries(all: Claims, present: string -> bool) returns (answer: Answer)
      modifies this
      ensures (file, answer) == File(identity, codec, old(file), ReplaceAll(all, present))
    {
      hide UniquePaths;
      var todo := all.Keys;
      while todo != {}
        invariant todo <= all.Keys && file == old(file)
        invariant forall key :: key in all && key !in todo ==> present(all[key].path)
        decreases todo
      {
        var key :| key in todo;
        todo := todo - {key};
        if !present(all[key].path) {
          return Raised;
        }
      }
      var unique := AssertUniquePaths(identity, all);
      if !unique {
        return Raised;
      }
      var loaded := Load();
      if loaded.None? {
        return Raised;
      }
      answer := Store(all, false);
    }
  }
}
