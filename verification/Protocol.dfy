/** The commit protocol of `src/lock.rs` and `src/store.rs`: processes that take an advisory lock file,
    reload, mutate, write a temporary file and rename it into place, any of which may stop at any point.
    A process's steps are the file-system calls it makes, interleaved arbitrarily with the others'. */
module Protocol {
  import opened Basics
  import opened BucketModel
  import opened Mutations
  import opened Manifests
  import opened Multipart
  import opened Uploading
  import opened Journal

  type Pid = nat

  datatype File<T> = Absent | Torn | Whole(value: T)

  /** A body whose length a `u64` holds, as every slice's does. */
  type Payload = bytes: Bytes | |bytes| < U64_LIMIT

  /** How the blob client lays an object out: as one blob, or as chunks under a manifest. */
  datatype Placement = Inline | Chunked(cs: ChunkSize)

  datatype Call =
    | VerbCall(m: Mutation)
    | PutCall(m: Mutation, bytes: Payload, placement: Placement)
    | CreateCall(id: string, upload: Upload)
    | PartCall(id: string, num: u32, bytes: Payload)
    | CompleteCall(id: string, list: PartList, now: u64)
    | AbortCall(id: string)
  {
    /** The verbs that start from the table of uploads. */
    predicate UsesTable() {
      !VerbCall? && !PutCall?
    }

    /** The verbs that reload the index. */
    predicate LoadsIndex() {
      !PartCall? && !AbortCall?
    }
  }

  /** What a successful call has committed, and at which place in the log. */
  datatype Ack = Ack(call: Call, at: nat)

  datatype Contents = IndexContents(index: Buckets) | TableContents(uploads: Uploads)

  /** A file still to be replaced, and the commit that replacing it makes. */
  datatype Save = Save(event: Event, contents: Contents)

  datatype Stage = Unwritten | Opened | Written

  datatype Phase =
    | Idle
    | Waiting(call: Call)
    | Locked(call: Call)
    | Tabled(call: Call, table: Uploads)
    | Storing(call: Call, table: Uploads, todo: seq<Bytes>)
    | Saving(call: Call, saves: seq<Save>, stage: Stage, at: Option<nat>)
    | Releasing(ack: Option<Ack>)
  {
    predicate Holds() {
      !Idle? && !Waiting?
    }
  }

  /** Where a process's in-memory index came from: the file after `n` commits, or that and one verb that
      was not saved. */
  datatype Origin = FromFile(n: nat) | Unsaved(n: nat, m: Mutation)

  datatype Proc = Proc(mem: Buckets, origin: Origin, phase: Phase)

  /** The file system and the processes. `log`, `acks`, `since` (how many commits there were when the lock
      was last taken) and the `origin` and `at` of processes record history; no step depends on them. */
  datatype State = State(
    index: File<Buckets>,
    table: File<Uploads>,
    indexTemps: map<Pid, File<Buckets>>,
    tableTemps: map<Pid, File<Uploads>>,
    lock: Option<Pid>,
    procs: map<Pid, Proc>,
    crashed: set<Pid>,
    blobs: Blobs,
    log: seq<Event>,
    acks: seq<Ack>,
    since: nat,
    caps: map<Pid, u64>)

  const Start := State(Absent, Absent, map[], map[], None, map[], {}, map[], [], [], 0, map[])

  const DEFAULT_MAX_OBJECT_SIZE: u64 := 5 * 1024 * 1024 * 1024

  /** The maximum object size that a process was configured with. */
  function Cap(s: State, p: Pid): u64 {
    if p in s.caps then s.caps[p] else DEFAULT_MAX_OBJECT_SIZE
  }

  function Load<K(!new), V>(f: File<map<K, V>>): Option<map<K, V>> {
    match f
    case Absent => Some(map[])
    case Torn => None
    case Whole(v) => Some(v)
  }

  // ---- what calls need ----

  function ObjectCid(codec: Codec, bytes: Payload, placement: Placement): string {
    match placement
    case Inline => codec.cid(bytes)
    case Chunked(cs) => codec.cid(codec.encode(ManifestOf(codec, bytes, cs)))
  }

  /** Calls as the verbs build them: a put carries the metadata of its own bytes, an object stored as one blob
      cannot be taken for a manifest, and an upload begins without parts, its key and metadata checked. */
  ghost predicate Admissible(codec: Codec, call: Call) {
    match call
    case VerbCall(m) => !m.PutM?
    case PutCall(m, bytes, placement) =>
      m.PutM? && m.meta.size == |bytes|
      && m.meta.cid == m.meta.etag == m.meta.versionId == ObjectCid(codec, bytes, placement)
      && (placement.Inline? && codec.parse(bytes).Some? ==> codec.parse(bytes).value.kind != V1)
    case CreateCall(_, upload) => FreshUpload(upload) && ValidKey(upload.key) && ValidMetadata(upload.metadata)
    case PartCall(_, _, _) => true
    case CompleteCall(_, _, _) => true
    case AbortCall(_) => true
  }

  /** The body of a put or a part does not exceed the maximum object size. */
  predicate BodyFits(call: Call, cap: u64) {
    call.PutCall? || call.PartCall? ==> |call.bytes| <= cap
  }

  /** The blobs a call stores before it commits. */
  function BlobsFor(codec: Codec, call: Call, table: Uploads): seq<Bytes> {
    match call
    case VerbCall(_) => []
    case PutCall(_, bytes, placement) =>
      if placement.Inline? then [bytes] else ObjectBlobs(codec, bytes, placement.cs)
    case CreateCall(_, _) => []
    case PartCall(_, _, bytes) => ObjectBlobs(codec, bytes, DEFAULT_PART_CHUNK)
    case CompleteCall(id, list, _) =>
      if id in table && Assemble(table[id], list).Some?
      then [codec.encode(Assemble(table[id], list).value)] else []
    case AbortCall(_) => []
  }

  /** A sweep that finds nothing expired does not rewrite the index. */
  predicate NothingToSave(m: Mutation, bs: Buckets) {
    match m
    case SweepM(bucket, now) => bucket in bs && ExpiredKeys(bs[bucket], now) == []
    case SweepAllM(now) => forall b :: b in bs ==> ExpiredKeys(bs[b], now) == []
    case _ => false
  }

  // ---- steps ----

  function InPhase(s: State, p: Pid, phase: Phase): State
    requires p in s.procs
  {
    s.(procs := s.procs[p := s.procs[p].(phase := phase)])
  }

  /** The process reloaded the index from its file. */
  function Reloaded(s: State, p: Pid, index: Buckets, phase: Phase): State
    requires p in s.procs
  {
    s.(procs := s.procs[p := Proc(index, FromFile(|s.log|), phase)])
  }

  /** `Store::open`: a new process, with its size limit, reads the index without the lock. */
  function DoOpen(s: State, p: Pid, cap: u64): Option<State> {
    if p in s.procs || p in s.crashed || Load(s.index).None? then None
    else
      Some(s.(procs := s.procs[p := Proc(Load(s.index).value, FromFile(|s.log|), Idle)], caps := s.caps[p := cap]))
  }

  /** A call begins; a body over the limit is refused before anything else. */
  ghost function DoInvoke(codec: Codec, s: State, p: Pid, call: Call): Option<State> {
    if p in s.procs && s.procs[p].phase.Idle? && Admissible(codec, call) && BodyFits(call, Cap(s, p))
    then Some(InPhase(s, p, Waiting(call))) else None
  }

  /** The exclusive create of the lock file succeeds. */
  function DoAcquire(s: State, p: Pid): Option<State> {
    if p in s.procs && s.procs[p].phase.Waiting? && s.lock == None
    then Some(InPhase(s, p, Locked(s.procs[p].phase.call)).(lock := Some(p), since := |s.log|)) else None
  }

  /** The acquire loop times out. */
  function DoGiveUp(s: State, p: Pid): Option<State> {
    if p in s.procs && s.procs[p].phase.Waiting? then Some(InPhase(s, p, Idle)) else None
  }

  /** A waiting process removes the lock file of a creator that has crashed. */
  function DoReclaim(s: State, p: Pid): Option<State> {
    if p in s.procs && s.procs[p].phase.Waiting? && s.lock.Some? && s.lock.value in s.crashed
    then Some(s.(lock := None)) else None
  }

  /** The first file read under the lock: the table for a multipart verb, the index for the others, with
      the checks a put makes before it stores anything. */
  function DoRead(codec: Codec, s: State, p: Pid): Option<State> {
    if p !in s.procs || !s.procs[p].phase.Locked? then None
    else
      var call := s.procs[p].phase.call;
      if call.UsesTable() then
        match Load(s.table)
        case None => Some(InPhase(s, p, Releasing(None)))
        case Some(table) => Some(InPhase(s, p, Tabled(call, table)))
      else
        match Load(s.index)
        case None => Some(InPhase(s, p, Releasing(None)))
        case Some(index) =>
          if call.PutCall? && Apply(call.m, index).Err? then Some(Reloaded(s, p, index, Releasing(None)))
          else Some(Reloaded(s, p, index, Storing(call, map[], BlobsFor(codec, call, map[]))))
  }

  /** A multipart verb's checks on the table it read. */
  function DoCheck(codec: Codec, s: State, p: Pid): Option<State> {
    if p !in s.procs || !s.procs[p].phase.Tabled? then None
    else
      var call, table := s.procs[p].phase.call, s.procs[p].phase.table;
      match call
      case VerbCall(_) => None
      case PutCall(_, _, _) => None
      case CreateCall(id, upload) =>
        (match Load(s.index)
         case None => Some(InPhase(s, p, Releasing(None)))
         case Some(index) =>
           if upload.bucket in index && id !in table && Multipart.Create(table, id, upload).Ok? then
             var after := TableContents(Multipart.Create(table, id, upload).value);
             Some(Reloaded(s, p, index, Saving(call, [Save(Created(id, upload), after)], Unwritten, None)))
           else Some(Reloaded(s, p, index, Releasing(None))))
      case PartCall(id, _, _) =>
        if id in table then Some(InPhase(s, p, Storing(call, table, BlobsFor(codec, call, table))))
        else Some(InPhase(s, p, Releasing(None)))
      case CompleteCall(id, list, _) =>
        if id in table && Assemble(table[id], list).Some? && Assemble(table[id], list).value.totalSize <= Cap(s, p)
        then Some(InPhase(s, p, Storing(call, table, BlobsFor(codec, call, table))))
        else Some(InPhase(s, p, Releasing(None)))
      case AbortCall(id) =>
        var after := TableContents(Multipart.Remove(table, id));
        Some(InPhase(s, p, Saving(call, [Save(Aborted(id), after)], Unwritten, None)))
  }

  /** One blob is stored. */
  function DoStore(codec: Codec, s: State, p: Pid): Option<State> {
    if p in s.procs && s.procs[p].phase.Storing? && s.procs[p].phase.todo != [] then
      var ph := s.procs[p].phase;
      Some(InPhase(s, p, ph.(todo := ph.todo[1..])).(blobs := s.blobs[codec.cid(ph.todo[0]) := ph.todo[0]]))
    else None
  }

  /** The process applied a verb to its in-memory index, and means to save the result. */
  function Mutated(s: State, p: Pid, m: Mutation, index: Buckets, phase: Phase): State
    requires p in s.procs
  {
    s.(procs := s.procs[p := Proc(index, Unsaved(|s.log|, m), phase)])
  }

  /** All blobs are stored: the change is made in memory. A completion reloads the index first. */
  function DoMutate(codec: Codec, s: State, p: Pid): Option<State> {
    if p !in s.procs || !s.procs[p].phase.Storing? || s.procs[p].phase.todo != [] then None
    else
      var call, table := s.procs[p].phase.call, s.procs[p].phase.table;
      match call
      case VerbCall(m) => Some(MutateIndex(s, p, call, m))
      case PutCall(m, _, _) => Some(MutateIndex(s, p, call, m))
      case CreateCall(_, _) => None
      case PartCall(id, num, bytes) =>
        (match Multipart.PutPart(table, id, PartOf(codec, num, bytes, DEFAULT_PART_CHUNK))
         case Err(_) => Some(InPhase(s, p, Releasing(None)))
         case Ok(after) =>
           Some(InPhase(s, p, Saving(call, [Save(PartPut(id, num, bytes), TableContents(after))], Unwritten, None))))
      case CompleteCall(id, list, now) =>
        (match Load(s.index)
         case None => Some(InPhase(s, p, Releasing(None)))
         case Some(index) =>
           if id !in table || CompletionPut(codec, table[id], list, now).None? then None
           else
             var m := CompletionPut(codec, table[id], list, now).value;
             if Apply(m, index).Err? then Some(Reloaded(s, p, index, Releasing(None)))
             else
               var after := After(m, index);
               var saves := [Save(Bound(id, list, now, m), IndexContents(after)),
                             Save(Finished(id), TableContents(Multipart.Remove(table, id)))];
               Some(Mutated(s, p, m, after, Saving(call, saves, Unwritten, None))))
      case AbortCall(_) => None
  }

  function MutateIndex(s: State, p: Pid, call: Call, m: Mutation): State
    requires p in s.procs
  {
    var mem := s.procs[p].mem;
    if Apply(m, mem).Err? || NothingToSave(m, mem) then InPhase(s, p, Releasing(None))
    else
      Mutated(s, p, m, After(m, mem),
              Saving(call, [Save(Verbed(m), IndexContents(After(m, mem)))], Unwritten, None))
  }

  /** The temporary file is created, and emptied if it existed. */
  function DoOpenTemp(s: State, p: Pid): Option<State> {
    if p in s.procs && s.procs[p].phase.Saving? && s.procs[p].phase.stage.Unwritten? && s.procs[p].phase.saves != []
    then
      var ph := s.procs[p].phase;
      var begun := InPhase(s, p, ph.(stage := Opened));
      Some(if ph.saves[0].contents.IndexContents? then begun.(indexTemps := s.indexTemps[p := Torn])
           else begun.(tableTemps := s.tableTemps[p := Torn]))
    else None
  }

  /** The temporary file is written out and synced. */
  function DoWriteTemp(s: State, p: Pid): Option<State> {
    if p in s.procs && s.procs[p].phase.Saving? && s.procs[p].phase.stage.Opened? && s.procs[p].phase.saves != [] then
      var ph := s.procs[p].phase;
      var written := InPhase(s, p, ph.(stage := Written));
      Some(match ph.saves[0].contents
           case IndexContents(index) => written.(indexTemps := s.indexTemps[p := Whole(index)])
           case TableContents(uploads) => written.(tableTemps := s.tableTemps[p := Whole(uploads)]))
    else None
  }

  /** The temporary file, whatever it holds, is renamed over its target: this is the commit. */
  function DoRename(s: State, p: Pid): Option<State> {
    if p in s.procs && s.procs[p].phase.Saving? && s.procs[p].phase.stage.Written? && s.procs[p].phase.saves != [] then
      var ph := s.procs[p].phase;
      var at := if ph.at.Some? then ph.at.value else |s.log|;
      var phase := if |ph.saves| == 1 then Releasing(Some(Ack(ph.call, at)))
                   else Saving(ph.call, ph.saves[1..], Unwritten, Some(at));
      var logged := s.(log := s.log + [ph.saves[0].event]);
      if ph.saves[0].contents.IndexContents? then
        if p !in s.indexTemps then None
        else
          Some(logged.(index := s.indexTemps[p], indexTemps := s.indexTemps - {p},
                       procs := s.procs[p := Proc(s.procs[p].mem, FromFile(|s.log| + 1), phase)]))
      else
        if p !in s.tableTemps then None
        else Some(InPhase(logged, p, phase).(table := s.tableTemps[p], tableTemps := s.tableTemps - {p}))
    else None
  }

  /** Some step of a call returns an error; memory and files stay as they are. */
  function DoFail(s: State, p: Pid): Option<State> {
    if p in s.procs && s.procs[p].phase.Holds() && !s.procs[p].phase.Releasing?
    then Some(InPhase(s, p, Releasing(None))) else None
  }

  /** Dropping the guard removes the lock file, whoever created it, and the call returns. */
  function DoRelease(s: State, p: Pid): Option<State> {
    if p in s.procs && s.procs[p].phase.Releasing? then
      var ack := s.procs[p].phase.ack;
      Some(InPhase(s, p, Idle).(lock := None, acks := if ack.Some? then s.acks + [ack.value] else s.acks))
    else None
  }

  function DoCrash(s: State, p: Pid): Option<State> {
    if p in s.procs then Some(s.(procs := s.procs - {p}, crashed := s.crashed + {p})) else None
  }

  /** Someone else stores a blob. */
  function DoForeign(codec: Codec, s: State, bytes: Bytes): Option<State> {
    Some(s.(blobs := s.blobs[codec.cid(bytes) := bytes]))
  }

  datatype Step =
    | Open(p: Pid, cap: u64) | Invoke(p: Pid, call: Call) | Acquire(p: Pid) | GiveUp(p: Pid) | Reclaim(p: Pid)
    | Read(p: Pid) | Check(p: Pid) | StoreBlob(p: Pid) | Mutate(p: Pid)
    | OpenTemp(p: Pid) | WriteTemp(p: Pid) | Rename(p: Pid)
    | Fail(p: Pid) | Release(p: Pid) | Crash(p: Pid) | Foreign(bytes: Bytes)

  ghost function Do(codec: Codec, s: State, step: Step): Option<State> {
    match step
    case Open(p, cap) => DoOpen(s, p, cap)
    case Invoke(p, call) => DoInvoke(codec, s, p, call)
    case Acquire(p) => DoAcquire(s, p)
    case GiveUp(p) => DoGiveUp(s, p)
    case Reclaim(p) => DoReclaim(s, p)
    case Read(p) => DoRead(codec, s, p)
    case Check(p) => DoCheck(codec, s, p)
    case StoreBlob(p) => DoStore(codec, s, p)
    case Mutate(p) => DoMutate(codec, s, p)
    case OpenTemp(p) => DoOpenTemp(s, p)
    case WriteTemp(p) => DoWriteTemp(s, p)
    case Rename(p) => DoRename(s, p)
    case Fail(p) => DoFail(s, p)
    case Release(p) => DoRelease(s, p)
    case Crash(p) => DoCrash(s, p)
    case Foreign(bytes) => DoForeign(codec, s, bytes)
  }

  /** The state after a sequence of steps, if each was possible in its turn. */
  ghost function Follow(codec: Codec, s: State, steps: seq<Step>): Option<State>
    decreases |steps|
  {
    if steps == [] then Some(s)
    else
      match Do(codec, s, steps[0])
      case None => None
      case Some(next) => Follow(codec, next, steps[1..])
  }

  /** `s` is a state that some run from an empty directory reaches. */
  ghost predicate Reachable(codec: Codec, s: State) {
    exists steps :: Follow(codec, Start, steps) == Some(s)
  }

  lemma {:induction false} FollowJoin(codec: Codec, s: State, a: seq<Step>, t: State, b: seq<Step>)
    requires Follow(codec, s, a) == Some(t)
    ensures Follow(codec, s, a + b) == Follow(codec, t, b)
    decreases |a|
  {
    hide Do;
    if a == [] {
      assert a + b == b;
    } else {
      assert (a + b)[1..] == a[1..] + b;
      FollowJoin(codec, Do(codec, s, a[0]).value, a[1..], t, b);
    }
  }

  lemma FollowTwo(codec: Codec, s: State, x: Step, t: State, y: Step)
    requires Do(codec, s, x) == Some(t)
    ensures Follow(codec, s, [x, y]) == Do(codec, t, y)
  {
    hide Do;
    assert [x, y][1..] == [y] && [y][1..] == [];
    assert Follow(codec, s, [x, y]) == Follow(codec, t, [y]);
    assert Do(codec, t, y).Some? ==> Follow(codec, Do(codec, t, y).value, []) == Do(codec, t, y);
  }

  /** Runs compose. */
  lemma ReachFurther(codec: Codec, s: State, steps: seq<Step>, t: State)
    requires Reachable(codec, s) && Follow(codec, s, steps) == Some(t)
    ensures Reachable(codec, t)
  {
    hide Follow;
    var a :| Follow(codec, Start, a) == Some(s);
    FollowJoin(codec, Start, a, s, steps);
    assert Follow(codec, Start, a + steps) == Some(t);
  }

  // Reading, checking and mutating in memory change nothing but the process itself.

  lemma OwnRead(codec: Codec, s: State, q: Pid)
    requires DoRead(codec, s, q).Some?
    ensures var t := DoRead(codec, s, q).value;
            q in s.procs && q in t.procs && t == s.(procs := s.procs[q := t.procs[q]])
  {
    hide Load, Apply, BlobsFor;
  }

  lemma OwnCheck(codec: Codec, s: State, q: Pid)
    requires DoCheck(codec, s, q).Some?
    ensures var t := DoCheck(codec, s, q).value;
            q in s.procs && q in t.procs && t == s.(procs := s.procs[q := t.procs[q]])
  {
    hide Load, BlobsFor, Assemble, Multipart.Create, Multipart.Remove, Cap, InPhase, Reloaded;
    forall phase: Phase ensures q in s.procs ==> Own(s, InPhase(s, q, phase), q) {
      if q in s.procs { InPhaseOwn(s, q, phase); }
    }
    forall index: Buckets, phase: Phase ensures q in s.procs ==> Own(s, Reloaded(s, q, index, phase), q) {
      if q in s.procs { ReloadedOwn(s, q, index, phase); }
    }
  }

  /** The two states differ in one process. */
  ghost predicate Own(s: State, t: State, q: Pid) {
    q in s.procs && q in t.procs && t == s.(procs := s.procs[q := t.procs[q]])
  }

  lemma InPhaseOwn(s: State, q: Pid, phase: Phase)
    requires q in s.procs
    ensures Own(s, InPhase(s, q, phase), q)
  {
  }

  lemma ReloadedOwn(s: State, q: Pid, index: Buckets, phase: Phase)
    requires q in s.procs
    ensures Own(s, Reloaded(s, q, index, phase), q)
  {
  }

  lemma OwnMutate(codec: Codec, s: State, q: Pid)
    requires DoMutate(codec, s, q).Some?
    ensures var t := DoMutate(codec, s, q).value;
            q in s.procs && q in t.procs && t == s.(procs := s.procs[q := t.procs[q]])
  {
    hide Load, Apply, After, CompletionPut, PartOf, NothingToSave, Multipart.PutPart, Multipart.Remove;
  }
}
