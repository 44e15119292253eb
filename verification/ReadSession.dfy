/**
  A bounded copy of one generation under the shared guard, parsed after the guard is released.

  The pointer, the manifest and each shard are read one after the other while other processes may
  publish. What the store holds over time is `Lane.history`; parsing and hashing are the functions
  of a `Codec`.
*/
module ReadSession {
  import opened Wrappers
  import opened Ordering
  import opened GuardPlatform
  import opened GuardEngine

  type Bytes = seq<nat>

  datatype Path = PointerPath | ManifestPath(generation: string) | ShardPath(generation: string, path: string)

  type Contents = map<Path, Bytes>

  datatype Pointer = Pointer(generation: string, schema: string)

  datatype Entry = Entry(path: string, role: string, bytes: nat, sha256: string)

  datatype Manifest = Manifest(generation: string, schema: string, files: seq<Entry>)

  datatype CopiedShard = CopiedShard(entry: Entry, raw: Bytes)

  datatype Copied = Copied(pointer: Option<Pointer>, manifest: Manifest, shards: seq<CopiedShard>, bytesCopied: nat)

  datatype ReadError =
    | Unreadable | TooLarge | Malformed | DigestMismatch | SchemaMismatch
    | UnknownRole | NoShard | PathRejected | SizeMismatch | ShardInvalid

  /** A load fails at the guard, or in what it reads. */
  datatype LoadError = AtGuard(guard: GuardError) | InRead(read: ReadError)

  datatype Codec = Codec(
    pointer: Bytes -> Option<Pointer>,
    manifest: Bytes -> Option<Manifest>,
    digest: Bytes -> string,
    knownRole: string -> bool,
    permitted: (string, string) -> bool,
    shardParses: CopiedShard -> bool)

  datatype Limits = Limits(pointerBytes: nat, manifestBytes: nat, shardBytes: nat, shards: nat, totalBytes: nat)

  datatype Session = Session(codec: Codec, limits: Limits, roles: Option<seq<string>>, pinned: Option<string>)

  // ---------------------------------------------------------------- one read

  /** At most `limit + 1` bytes of a file, which is enough to see that it is over the limit. */
  function ReadBounded(c: Contents, path: Path, limit: nat): Result<Bytes, ReadError> {
    if path !in c then Failure(ReadError.Unreadable)
    else Success(if |c[path]| > limit + 1 then c[path][..limit + 1] else c[path])
  }

  function Capped(r: Result<Bytes, ReadError>, limit: nat): Result<Bytes, ReadError> {
    if r.Success? && |r.value| > limit then Failure(TooLarge) else r
  }

  // ---------------------------------------------------------------- the checks between the reads

  function PointerOf(session: Session, raw: Bytes): Result<Pointer, ReadError> {
    match session.codec.pointer(raw) case None => Failure(Malformed) case Some(p) => Success(p)
  }

  /** The manifest read from `directory` must be the one its name and the pointer promise. */
  function ManifestOf(session: Session, directory: string, pointer: Option<Pointer>, raw: Bytes): (r: Result<Manifest, ReadError>)
    ensures r.Success? ==> r.value.generation == directory
    ensures r.Success? && pointer.Some? ==> pointer.value.generation == r.value.generation
  {
    match session.codec.manifest(raw)
    case None => Failure(Malformed)
    case Some(m) =>
      if directory != m.generation then Failure(DigestMismatch)
      else if pointer.Some? && pointer.value.generation != m.generation then Failure(DigestMismatch)
      else if pointer.Some? && pointer.value.schema != m.schema then Failure(SchemaMismatch)
      else Success(m)
  }

  function Declared(entries: seq<Entry>): nat {
    if entries == [] then 0 else entries[0].bytes + Declared(entries[1..])
  }

  predicate PathLe(a: Entry, b: Entry) {
    TextLe(a.path, b.path)
  }

  function Plan(session: Session, m: Manifest): (r: Result<seq<Entry>, ReadError>)
    ensures r.Success? ==> |r.value| <= session.limits.shards && Declared(r.value) <= session.limits.totalBytes
    ensures r.Success? ==> r.value != [] && forall e :: e in r.value ==> e in m.files
  {
    if session.roles.Some? && exists role :: role in session.roles.value && !session.codec.knownRole(role)
    then Failure(UnknownRole)
    else
      var chosen := if session.roles.None? then m.files
        else Keep((e: Entry) => e.role in session.roles.value, m.files);
      if chosen == [] then Failure(NoShard)
      else
        var entries := Sort(PathLe, chosen);
        SameElements(entries, chosen);
        if |entries| > session.limits.shards then Failure(TooLarge)
        else if Declared(entries) > session.limits.totalBytes then Failure(TooLarge)
        else Success(entries)
  }

  /** What is refused about an entry before its file is opened. */
  function EntryRefused(session: Session, e: Entry): Option<ReadError> {
    if !session.codec.knownRole(e.role) || !session.codec.permitted(e.role, e.path) then Some(PathRejected)
    else if e.bytes > session.limits.shardBytes then Some(TooLarge)
    else None
  }

  function ShardOf(session: Session, e: Entry, read: Result<Bytes, ReadError>): (r: Result<CopiedShard, ReadError>)
    ensures r.Success? ==> r.value.entry == e && |r.value.raw| == e.bytes <= session.limits.shardBytes
  {
    if read.Failure? then Failure(read.error)
    else if |read.value| > session.limits.shardBytes then Failure(TooLarge)
    else if |read.value| != e.bytes then Failure(SizeMismatch)
    else Success(CopiedShard(e, read.value))
  }

  /** After the release: every copied shard is the published one and parses. */
  function Verified(session: Session, shards: seq<CopiedShard>): bool {
    forall s :: s in shards ==> session.codec.digest(s.raw) == s.entry.sha256 && session.codec.shardParses(s)
  }

  // ---------------------------------------------------------------- the atomic read

  function CopyShards(session: Session, c: Contents, generation: string, entries: seq<Entry>): (r: Result<seq<CopiedShard>, ReadError>)
    ensures r.Success? ==> |r.value| == |entries|
    decreases |entries|
  {
    if entries == [] then Success([])
    else
      var before :- CopyShards(session, c, generation, entries[..|entries| - 1]);
      var e := entries[|entries| - 1];
      if EntryRefused(session, e).Some? then Failure(EntryRefused(session, e).value)
      else
        var shard :- ShardOf(session, e, ReadBounded(c, ShardPath(generation, e.path), session.limits.shardBytes));
        Success(before + [shard])
  }

  function BytesOf(shards: seq<CopiedShard>): nat {
    if shards == [] then 0 else BytesOf(shards[..|shards| - 1]) + |shards[|shards| - 1].raw|
  }

  /** The copy as one look at unchanging contents. */
  function Copy(session: Session, c: Contents): Result<Copied, ReadError> {
    if session.pinned.Some? then
      CopyFrom(session, c, session.pinned.value, None, 0)
    else
      var raw :- Capped(ReadBounded(c, PointerPath, session.limits.pointerBytes), session.limits.pointerBytes);
      var pointer :- PointerOf(session, raw);
      CopyFrom(session, c, pointer.generation, Some(pointer), |raw|)
  }

  function CopyFrom(session: Session, c: Contents, directory: string, pointer: Option<Pointer>, soFar: nat): Result<Copied, ReadError> {
    CopyPlan(session, c, PlannedIn(session, c, directory, pointer), pointer, soFar)
  }

  /** The manifest in a generation directory, and its size. */
  function ManifestIn(session: Session, c: Contents, directory: string, pointer: Option<Pointer>): Result<(Manifest, nat), ReadError> {
    var raw :- Capped(ReadBounded(c, ManifestPath(directory), session.limits.manifestBytes), session.limits.manifestBytes);
    var m :- ManifestOf(session, directory, pointer, raw);
    Success((m, |raw|))
  }

  /** What a manifest says is to be copied, and its size. */
  datatype Planned = Planned(manifest: Manifest, size: nat, entries: seq<Entry>)

  function PlannedIn(session: Session, c: Contents, directory: string, pointer: Option<Pointer>): Result<Planned, ReadError> {
    var m :- ManifestIn(session, c, directory, pointer);
    var entries :- Plan(session, m.0);
    Success(Planned(m.0, m.1, entries))
  }

  function CopyPlan(
    session: Session, c: Contents, planned: Result<Planned, ReadError>, pointer: Option<Pointer>, soFar: nat): Result<Copied, ReadError>
  {
    var p :- planned;
    Together(p, CopyShards(session, c, p.manifest.generation, p.entries), pointer, soFar)
  }

  function Together(p: Planned, read: Result<seq<CopiedShard>, ReadError>, pointer: Option<Pointer>, soFar: nat): Result<Copied, ReadError> {
    var shards :- read;
    Success(Copied(pointer, p.manifest, shards, soFar + p.size + BytesOf(shards)))
  }

  /** A load against unchanging contents. */
  function LoadOf(session: Session, c: Contents): Result<Copied, ReadError> {
    var copied :- Copy(session, c);
    if Verified(session, copied.shards) then Success(copied) else Failure(ShardInvalid)
  }

  // ---------------------------------------------------------------- what a load promises

  lemma {:induction false} DeclaredSnoc(entries: seq<Entry>, e: Entry)
    ensures Declared(entries + [e]) == Declared(entries) + e.bytes
  {
    if entries != [] {
      assert (entries + [e])[1..] == entries[1..] + [e];
      DeclaredSnoc(entries[1..], e);
    } else {
      assert ([e])[1..] == [];
    }
  }

  lemma {:induction false} OneShard(session: Session, c: Contents, generation: string, entries: seq<Entry>)
    requires CopyShards(session, c, generation, entries).Success? && entries != []
    ensures var n := |entries| - 1;
      var shards := CopyShards(session, c, generation, entries).value;
      && CopyShards(session, c, generation, entries[..n]) == Success(shards[..n])
      && ShardPath(generation, entries[n].path) in c
      && shards[n] == CopiedShard(entries[n], c[ShardPath(generation, entries[n].path)])
      && |shards[n].raw| == entries[n].bytes <= session.limits.shardBytes
  {
    var shards := CopyShards(session, c, generation, entries).value;
    assert shards[..|entries| - 1] == CopyShards(session, c, generation, entries[..|entries| - 1]).value;
  }

  lemma {:induction false} HeldIsDeclared(session: Session, c: Contents, generation: string, entries: seq<Entry>)
    requires CopyShards(session, c, generation, entries).Success?
    ensures BytesOf(CopyShards(session, c, generation, entries).value) == Declared(entries)
    decreases |entries|
  {
    if entries != [] {
      var n := |entries| - 1;
      OneShard(session, c, generation, entries);
      HeldIsDeclared(session, c, generation, entries[..n]);
      DeclaredSnoc(entries[..n], entries[n]);
      assert entries == entries[..n] + [entries[n]];
    }
  }

  lemma {:induction false} ShardAsDeclared(session: Session, c: Contents, generation: string, entries: seq<Entry>, i: nat)
    requires CopyShards(session, c, generation, entries).Success? && i < |entries|
    ensures var shard := CopyShards(session, c, generation, entries).value[i];
      && ShardPath(generation, entries[i].path) in c
      && shard == CopiedShard(entries[i], c[ShardPath(generation, entries[i].path)])
      && |shard.raw| == entries[i].bytes <= session.limits.shardBytes
    decreases |entries|
  {
    OneShard(session, c, generation, entries);
    if i < |entries| - 1 { ShardAsDeclared(session, c, generation, entries[..|entries| - 1], i); }
  }

  /** Every shard of the copy is a file the manifest lists, byte for byte. */
  ghost predicate Whole(c: Contents, r: Copied) {
    forall i :: 0 <= i < |r.shards| ==>
      && r.shards[i].entry in r.manifest.files
      && ShardPath(r.manifest.generation, r.shards[i].entry.path) in c
      && r.shards[i].raw == c[ShardPath(r.manifest.generation, r.shards[i].entry.path)]
      && |r.shards[i].raw| == r.shards[i].entry.bytes
  }

  lemma {:induction false} PlannedFits(session: Session, c: Contents, directory: string, pointer: Option<Pointer>)
    requires PlannedIn(session, c, directory, pointer).Success?
    ensures var p := PlannedIn(session, c, directory, pointer).value;
      && p.manifest.generation == directory && (pointer.Some? ==> pointer.value.generation == directory)
      && p.size <= session.limits.manifestBytes && |p.entries| <= session.limits.shards
      && Declared(p.entries) <= session.limits.totalBytes && forall e :: e in p.entries ==> e in p.manifest.files
  {
  }

  lemma {:induction false} PlanCopiedWhole(session: Session, c: Contents, p: Planned, pointer: Option<Pointer>, soFar: nat)
    requires CopyPlan(session, c, Success(p), pointer, soFar).Success? && forall e :: e in p.entries ==> e in p.manifest.files
    ensures var r := CopyPlan(session, c, Success(p), pointer, soFar).value;
      && r.manifest == p.manifest && r.pointer == pointer && |r.shards| == |p.entries|
      && r.bytesCopied == soFar + p.size + Declared(p.entries) && Whole(c, r)
  {
    HeldIsDeclared(session, c, p.manifest.generation, p.entries);
    forall i | 0 <= i < |p.entries|
      ensures var shard := CopyShards(session, c, p.manifest.generation, p.entries).value[i];
        && shard.entry == p.entries[i] && |shard.raw| == p.entries[i].bytes
        && ShardPath(p.manifest.generation, p.entries[i].path) in c
        && shard.raw == c[ShardPath(p.manifest.generation, p.entries[i].path)]
    {
      ShardAsDeclared(session, c, p.manifest.generation, p.entries, i);
    }
  }

  lemma {:induction false} DirectoryIsBoundedAndWhole(session: Session, c: Contents, directory: string, pointer: Option<Pointer>, soFar: nat)
    requires CopyFrom(session, c, directory, pointer, soFar).Success?
    ensures var r := CopyFrom(session, c, directory, pointer, soFar).value;
      && r.manifest.generation == directory && r.pointer == pointer && (pointer.Some? ==> pointer.value.generation == directory)
      && r.bytesCopied <= soFar + session.limits.manifestBytes + session.limits.totalBytes
      && |r.shards| <= session.limits.shards && Whole(c, r)
  {
    PlannedFits(session, c, directory, pointer);
    PlanCopiedWhole(session, c, PlannedIn(session, c, directory, pointer).value, pointer, soFar);
  }

  /**
    What a successful copy holds: whole files of one generation, the one the lane pointer gives (or the
    pinned one), byte for byte, in at most the three budgets together.
  */
  lemma {:induction false} CopyIsBoundedAndWhole(session: Session, c: Contents)
    requires Copy(session, c).Success?
    ensures var r := Copy(session, c).value;
      && (session.pinned.Some? ==> r.manifest.generation == session.pinned.value)
      && (session.pinned.None? ==> r.pointer.Some? && r.pointer.value.generation == r.manifest.generation)
      && r.bytesCopied <= session.limits.pointerBytes + session.limits.manifestBytes + session.limits.totalBytes
      && |r.shards| <= session.limits.shards && Whole(c, r)
  {
    if session.pinned.Some? {
      DirectoryIsBoundedAndWhole(session, c, session.pinned.value, None, 0);
    } else {
      var raw := Capped(ReadBounded(c, PointerPath, session.limits.pointerBytes), session.limits.pointerBytes);
      var pointer := PointerOf(session, raw.value).value;
      DirectoryIsBoundedAndWhole(session, c, pointer.generation, Some(pointer), |raw.value|);
    }
  }

  // ---------------------------------------------------------------- reading while others publish

  /** `history` is what the store held over time; the last entry is what it holds now. */
  class Lane {
    var contents: Contents
    ghost var history: seq<Contents>

    ghost predicate Valid() reads this {
      history != [] && history[|history| - 1] == contents
    }

    constructor (c: Contents)
      ensures Valid() && contents == c
    {
      contents, history := c, [c];
    }

    /** Others publish at will, but not while this process holds data. */
    method Pass(guard: SolutionGuard)
      requires Valid()
      modifies this
      ensures Valid() && old(history) <= history
      ensures Find(guard.held, Data).Some? ==> contents == old(contents) && history == old(history)
    {
      var publish: bool := *;
      if Find(guard.held, Data).None? && publish {
        contents := *;
        history := history + [contents];
      }
    }

    /** One bounded read of whatever is there at that moment. */
    method Read(guard: SolutionGuard, path: Path, limit: nat) returns (r: Result<Bytes, ReadError>)
      requires Valid()
      modifies this
      ensures Valid() && old(history) <= history
      ensures Find(guard.held, Data).Some? ==> contents == old(contents) && history == old(history)
      ensures r == ReadBounded(contents, path, limit)
    {
      Pass(guard);
      r := ReadBounded(contents, path, limit);
    }
  }

  /** The shards one by one, each at its own moment. */
  method CopyEach(session: Session, guard: SolutionGuard, lane: Lane, generation: string, entries: seq<Entry>) returns (r: Result<seq<CopiedShard>, ReadError>)
    requires lane.Valid() && Find(guard.held, Data).Some?
    modifies lane
    ensures lane.Valid() && lane.history == old(lane.history) && lane.contents == old(lane.contents)
    ensures r == CopyShards(session, old(lane.contents), generation, entries)
  {
    var shards: seq<CopiedShard> := [];
    for i := 0 to |entries|
      invariant lane.Valid() && lane.history == old(lane.history) && lane.contents == old(lane.contents)
      invariant CopyShards(session, lane.contents, generation, entries[..i]) == Success(shards)
    {
      PrefixSnoc(entries, i);
      var refused := EntryRefused(session, entries[i]);
      if refused.Some? {
        FailureStays(session, lane.contents, generation, entries, i + 1);
        return Failure(refused.value);
      }
      var raw := lane.Read(guard, ShardPath(generation, entries[i].path), session.limits.shardBytes);
      var shard := ShardOf(session, entries[i], raw);
      if shard.Failure? {
        FailureStays(session, lane.contents, generation, entries, i + 1);
        return Failure(shard.error);
      }
      shards := shards + [shard.value];
    }
    assert entries[..|entries|] == entries;
    r := Success(shards);
  }

  lemma {:induction false} FailureStays(session: Session, c: Contents, generation: string, entries: seq<Entry>, i: nat)
    requires i <= |entries| && CopyShards(session, c, generation, entries[..i]).Failure?
    ensures CopyShards(session, c, generation, entries) == CopyShards(session, c, generation, entries[..i])
    decreases |entries|
  {
    if i == |entries| {
      assert entries[..i] == entries;
    } else {
      var n := |entries| - 1;
      assert entries[..n][..i] == entries[..i];
      FailureStays(session, c, generation, entries[..n], i);
    }
  }

  method CopyPlanned(session: Session, guard: SolutionGuard, lane: Lane, p: Planned, pointer: Option<Pointer>, soFar: nat)
    returns (r: Result<Copied, ReadError>)
    requires lane.Valid() && Find(guard.held, Data).Some?
    modifies lane
    ensures lane.Valid() && lane.history == old(lane.history) && lane.contents == old(lane.contents)
    ensures r == CopyPlan(session, old(lane.contents), Success(p), pointer, soFar)
  {
    var shards := CopyEach(session, guard, lane, p.manifest.generation, p.entries);
    if shards.Failure? { return Failure(shards.error); }
    r := Success(Copied(pointer, p.manifest, shards.value, soFar + p.size + BytesOf(shards.value)));
  }

  /** The manifest and the shards of one generation directory. */
  method CopyDirectory(session: Session, guard: SolutionGuard, lane: Lane, directory: string, pointer: Option<Pointer>, soFar: nat)
    returns (r: Result<Copied, ReadError>)
    requires lane.Valid() && Find(guard.held, Data).Some?
    modifies lane
    ensures lane.Valid() && lane.history == old(lane.history) && lane.contents == old(lane.contents)
    ensures r == CopyFrom(session, old(lane.contents), directory, pointer, soFar)
  {
    var planned := ReadPlan(session, guard, lane, directory, pointer);
    if planned.Failure? { return Failure(planned.error); }
    r := CopyPlanned(session, guard, lane, planned.value, pointer, soFar);
  }

  method ReadPlan(session: Session, guard: SolutionGuard, lane: Lane, directory: string, pointer: Option<Pointer>)
    returns (r: Result<Planned, ReadError>)
    requires lane.Valid() && Find(guard.held, Data).Some?
    modifies lane
    ensures lane.Valid() && lane.history == old(lane.history) && lane.contents == old(lane.contents)
    ensures r == PlannedIn(session, old(lane.contents), directory, pointer)
  {
    var m := ReadManifest(session, guard, lane, directory, pointer);
    if m.Failure? { return Failure(m.error); }
    var entries := Plan(session, m.value.0);
    if entries.Failure? { return Failure(entries.error); }
    r := Success(Planned(m.value.0, m.value.1, entries.value));
  }

  method ReadManifest(session: Session, guard: SolutionGuard, lane: Lane, directory: string, pointer: Option<Pointer>)
    returns (r: Result<(Manifest, nat), ReadError>)
    requires lane.Valid() && Find(guard.held, Data).Some?
    modifies lane
    ensures lane.Valid() && lane.history == old(lane.history) && lane.contents == old(lane.contents)
    ensures r == ManifestIn(session, old(lane.contents), directory, pointer)
  {
    var read := lane.Read(guard, ManifestPath(directory), session.limits.manifestBytes);
    var raw := Capped(read, session.limits.manifestBytes);
    if raw.Failure? { return Failure(raw.error); }
    var m := ManifestOf(session, directory, pointer, raw.value);
    if m.Failure? { return Failure(m.error); }
    r := Success((m.value, |raw.value|));
  }

  /** The copy as it is made: pointer, manifest and shards read at different moments, data held throughout. */
  method CopyGeneration(session: Session, guard: SolutionGuard, lane: Lane) returns (r: Result<Copied, ReadError>)
    requires lane.Valid() && Find(guard.held, Data).Some?
    modifies lane
    ensures lane.Valid() && lane.history == old(lane.history) && lane.contents == old(lane.contents)
    ensures r == Copy(session, old(lane.contents))
  {
    if session.pinned.Some? {
      r := CopyDirectory(session, guard, lane, session.pinned.value, None, 0);
    } else {
      var read := lane.Read(guard, PointerPath, session.limits.pointerBytes);
      var raw := Capped(read, session.limits.pointerBytes);
      if raw.Failure? { return Failure(raw.error); }
      var pointer := PointerOf(session, raw.value);
      if pointer.Failure? { return Failure(pointer.error); }
      r := CopyDirectory(session, guard, lane, pointer.value.generation, Some(pointer.value), |raw.value|);
    }
  }

  function Lifted(r: Result<Copied, ReadError>): Result<Copied, LoadError> {
    match r case Success(c) => Success(c) case Failure(e) => Failure(InRead(e))
  }

  /** Nothing was held when this came back. */
  predicate LeavesNothing(r: Result<Copied, LoadError>) {
    r.Success? || r.error.InRead? || r.error.guard.Retried() || r.error.guard == ReleaseFailed
  }

  /** The copy and the lock around it. */
  method CopyUnderGuard(session: Session, guard: SolutionGuard, lane: Lane, attempts: int) returns (r: Result<Copied, LoadError>)
    requires guard.Valid() && lane.Valid()
    modifies guard`held, guard.platform, lane
    ensures guard.Valid() && lane.Valid() && lane.history == old(lane.history) && lane.contents == old(lane.contents)
    ensures r.Success? || r.error.InRead? ==> r == Lifted(Copy(session, old(lane.contents)))
    ensures LeavesNothing(r) ==> guard.held == [] && guard.platform.Settled()
  {
    var entered := guard.Reader(attempts);
    if entered.Failure? { return Failure(AtGuard(entered.error)); }
    HoldsByName(guard.held, Spec(Data, Shared));
    var copied := CopyGeneration(session, guard, lane);
    var left := guard.Exit();
    r := if left.Failure? then Failure(AtGuard(left.error)) else Lifted(copied);
  }

  /**
    One load. Whatever others published in the meantime, the answer is the answer of one look at
    the store, at one instant during the call, and nothing is held when the answer is given; nor
    when the wait for the lock timed out or was cancelled.
  */
  method Load(session: Session, guard: SolutionGuard, lane: Lane, attempts: int) returns (r: Result<Copied, LoadError>, ghost at: Contents)
    requires guard.Valid() && lane.Valid()
    modifies guard`held, guard.platform, lane
    ensures guard.Valid() && lane.Valid() && old(lane.history) <= lane.history
    ensures |old(lane.history)| <= |lane.history|
    ensures exists i :: |old(lane.history)| - 1 <= i < |lane.history| && lane.history[i] == at
    ensures r.Success? || r.error.InRead? ==> r == Lifted(LoadOf(session, at))
    ensures LeavesNothing(r) ==> guard.held == [] && guard.platform.Settled()
  {
    lane.Pass(guard);  // others publish while this process waits
    at := lane.contents;
    assert lane.history[|lane.history| - 1] == at;
    r := CopyUnderGuard(session, guard, lane, attempts);
    if r.Success? && !Verified(session, r.value.shards) { r := Failure(InRead(ShardInvalid)); }
  }
}
