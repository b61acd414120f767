/** The invariant of the commit protocol and why every step of every process keeps it. */
module Safety {
  import opened Basics
  import opened BucketModel
  import opened Mutations
  import opened Manifests
  import opened Multipart
  import opened Uploading
  import opened Journal
  import opened Protocol

  // ---- the invariant ----

  /** A process is past its acquire exactly while the lock file is its own; a lock file that belongs to no
      process was left by one that crashed. */
  ghost predicate LockInv(s: State) {
    (forall p :: p in s.procs ==> (s.procs[p].phase.Holds() <==> s.lock == Some(p)))
    && (s.lock.Some? ==> s.lock.value in s.procs || s.lock.value in s.crashed)
    && forall p :: p in s.procs ==> p !in s.crashed
  }

  /** The file is complete and holds this value; absent, it stands for the empty one. */
  ghost predicate FileIs<K(!new), V>(f: File<map<K, V>>, v: map<K, V>) {
    f == Whole(v) || (f == Absent && v == map[])
  }

  /** Both files are the replay of the log. */
  ghost predicate FilesInv(codec: Codec, s: State) {
    Replay(codec, s.log).Some? && Ordered(s.log)
    && FileIs(s.index, Replay(codec, s.log).value.index)
    && FileIs(s.table, Replay(codec, s.log).value.uploads)
  }

  ghost predicate BlobInv(codec: Codec, s: State) {
    Honest(codec, s.blobs) && LogStored(codec, s.blobs, s.log)
  }

  /** The event is the commit by which the call takes effect. */
  predicate Answers(call: Call, e: Event) {
    match call
    case VerbCall(m) => e == Verbed(m)
    case PutCall(m, _, _) => e == Verbed(m)
    case CreateCall(id, upload) => e == Created(id, upload)
    case PartCall(id, num, bytes) => e == PartPut(id, num, bytes)
    case CompleteCall(id, list, now) => e.Bound? && e.id == id && e.list == list && e.now == now
    case AbortCall(id) => e == Aborted(id)
  }

  /** Each success answers its own commit, in the order of the log. */
  ghost predicate AckInv(codec: Codec, s: State) {
    (forall i :: 0 <= i < |s.acks| ==>
       Admissible(codec, s.acks[i].call) && s.acks[i].at < |s.log| && Answers(s.acks[i].call, s.log[s.acks[i].at]))
    && forall i, j :: 0 <= i < j < |s.acks| ==> s.acks[i].at < s.acks[j].at
  }

  /** An in-memory index is what its origin says. */
  ghost predicate Sourced(codec: Codec, log: seq<Event>, mem: Buckets, origin: Origin) {
    origin.n <= |log| && Replay(codec, log[..origin.n]).Some?
    && var index := Replay(codec, log[..origin.n]).value.index;
    match origin
    case FromFile(_) => mem == index
    case Unsaved(_, m) => Apply(m, index) == Ok(mem)
  }

  ghost predicate CallOk(codec: Codec, phase: Phase) {
    match phase
    case Waiting(call) => Admissible(codec, call)
    case Locked(call) => Admissible(codec, call)
    case Tabled(call, _) => Admissible(codec, call)
    case Storing(call, _, _) => Admissible(codec, call)
    case Saving(call, _, _, _) => Admissible(codec, call)
    case Releasing(ack) => ack.Some? ==> Admissible(codec, ack.value.call)
    case _ => true
  }

  /** A verb that was not saved has its blobs stored all the same. */
  ghost predicate OriginStored(codec: Codec, blobs: Blobs, origin: Origin) {
    origin.Unsaved? ==> VerbStored(codec, blobs, origin.m)
  }

  ghost predicate ProcInv(codec: Codec, blobs: Blobs, log: seq<Event>, proc: Proc) {
    Sourced(codec, log, proc.mem, proc.origin) && OriginStored(codec, blobs, proc.origin) && CallOk(codec, proc.phase)
  }

  ghost predicate ProcsInv(codec: Codec, s: State) {
    forall p :: p in s.procs ==> ProcInv(codec, s.blobs, s.log, s.procs[p])
  }

  /** The holder works on what the files hold. */
  ghost predicate HolderInv(codec: Codec, s: State) {
    Replay(codec, s.log).Some?
    && (s.lock.Some? && s.lock.value in s.procs ==> HolderOk(codec, s, s.lock.value))
  }

  ghost predicate HolderOk(codec: Codec, s: State, p: Pid)
    requires p in s.procs && Replay(codec, s.log).Some?
  {
    var w, proc := Replay(codec, s.log).value, s.procs[p];
    Counted(s.log, s.since, proc.phase)
    && match proc.phase
    case Tabled(call, table) => call.UsesTable() && table == w.uploads
    case Storing(call, table, todo) =>
      (if call.UsesTable() then table == w.uploads && ReadyToStore(call, table) else proc.mem == w.index)
      && StoredOrDue(codec, s.blobs, BlobsFor(codec, call, table), todo)
    case Saving(call, saves, stage, at) =>
      SavesOk(codec, w, s.log, call, saves, at)
      && EventStored(codec, s.blobs, saves[0].event)
      && (saves[0].contents.IndexContents? ==> saves[0].contents.index == proc.mem && proc.origin.Unsaved?)
      && (saves[0].contents.TableContents? && call.LoadsIndex() ==> proc.mem == w.index)
      && (stage.Written? ==> InTemp(s.indexTemps, s.tableTemps, p, saves[0].contents))
      && (at.Some? ==> AckNext(s.log, s.acks, call, at.value))
    case Releasing(ack) =>
      ack.Some? ==>
        (ack.value.call.LoadsIndex() ==> proc.mem == w.index) && AckNext(s.log, s.acks, ack.value.call, ack.value.at)
    case _ => true
  }

  /** How many commits the holder has made since it took the lock. */
  ghost predicate Counted(log: seq<Event>, since: nat, phase: Phase) {
    match phase
    case Saving(call, saves, _, at) =>
      if at.None? then |log| == since
      else
        at.value == since && |log| == since + 1 && call.CompleteCall?
        && |saves| == 1 && saves[0].event == Finished(call.id)
    case Releasing(ack) => if ack.Some? then ack.value.at == since else since <= |log| <= since + 1
    case _ => |log| == since
  }

  predicate ReadyToStore(call: Call, table: Uploads) {
    match call
    case PartCall(id, _, _) => id in table
    case CompleteCall(id, list, _) => id in table && Assemble(table[id], list).Some?
    case _ => false
  }

  ghost predicate StoredOrDue(codec: Codec, blobs: Blobs, needed: seq<Bytes>, todo: seq<Bytes>) {
    forall b :: b in needed ==> b in todo || Holds(codec, blobs, b)
  }

  /** The saves a call still has to make, each the effect of its event. */
  ghost predicate SavesOk(codec: Codec, w: World, log: seq<Event>, call: Call, saves: seq<Save>, at: Option<nat>) {
    1 <= |saves| <= 2
    && Effect(codec, saves[0].event, w) == Some(Replaced(w, saves[0].contents))
    && (saves[0].contents.IndexContents? <==> saves[0].event.Verbed? || saves[0].event.Bound?)
    && (saves[0].event.Finished? ==> log != [] && log[|log| - 1].Bound? && log[|log| - 1].id == saves[0].event.id)
    && (at.None? ==> Answers(call, saves[0].event))
    && (|saves| == 2 ==>
        at.None? && saves[0].event.Bound?
        && saves[1] == Save(Finished(saves[0].event.id), TableContents(Multipart.Remove(w.uploads, saves[0].event.id))))
  }

  function Replaced(w: World, contents: Contents): World {
    match contents
    case IndexContents(index) => w.(index := index)
    case TableContents(uploads) => w.(uploads := uploads)
  }

  ghost predicate InTemp(indexTemps: map<Pid, File<Buckets>>, tableTemps: map<Pid, File<Uploads>>, p: Pid,
                         contents: Contents)
  {
    match contents
    case IndexContents(index) => p in indexTemps && indexTemps[p] == Whole(index)
    case TableContents(uploads) => p in tableTemps && tableTemps[p] == Whole(uploads)
  }

  /** Commit `at` answers the call, and is later than every one acknowledged so far. */
  ghost predicate AckNext(log: seq<Event>, acks: seq<Ack>, call: Call, at: nat) {
    at < |log| && Answers(call, log[at]) && forall i :: 0 <= i < |acks| ==> acks[i].at < at
  }

  ghost predicate Inv(codec: Codec, s: State) {
    LockInv(s) && FilesInv(codec, s) && BlobInv(codec, s) && AckInv(codec, s) && ProcsInv(codec, s)
    && HolderInv(codec, s)
  }

  lemma StartOk(codec: Codec)
    ensures Inv(codec, Start)
  {
    assert Replay(codec, []) == Some(Nothing);
  }

  // ---- steps outside the lock ----

  lemma SourcedNow(codec: Codec, log: seq<Event>)
    requires Replay(codec, log).Some?
    ensures Sourced(codec, log, Replay(codec, log).value.index, FromFile(|log|))
  {
    assert log[..|log|] == log;
  }

  lemma LoadIsFile<K(!new), V>(f: File<map<K, V>>, v: map<K, V>)
    requires FileIs(f, v)
    ensures Load(f) == Some(v)
  {
  }

  /** A step of a process that does not hold the lock, and does not take it. */
  lemma OutsideStep(codec: Codec, s: State, p: Pid, proc: Proc)
    requires Inv(codec, s) && s.lock != Some(p) && p !in s.crashed
    requires !proc.phase.Holds() && ProcInv(codec, s.blobs, s.log, proc)
    ensures Inv(codec, s.(procs := s.procs[p := proc]))
  {
    hide ProcInv, FileIs, LogStored, Replay, Answers, SavesOk, StoredOrDue, BlobsFor, EventStored, InTemp,
         AckNext, Ordered, Honest;
  }

  /** The size limits play no part in the invariant. */
  lemma AnyCaps(codec: Codec, s: State, caps: map<Pid, u64>)
    requires Inv(codec, s)
    ensures Inv(codec, s.(caps := caps))
  {
    hide FileIs, LogStored, Replay, Answers, SavesOk, StoredOrDue, BlobsFor, EventStored, InTemp, AckNext, Ordered,
         Honest, ProcInv;
  }

  lemma OpenKeeps(codec: Codec, s: State, p: Pid, cap: u64)
    requires Inv(codec, s) && DoOpen(s, p, cap).Some?
    ensures Inv(codec, DoOpen(s, p, cap).value)
  {
    hide Replay, ProcsInv, HolderInv, BlobInv, AckInv, Sourced;
    LoadIsFile(s.index, Replay(codec, s.log).value.index);
    var proc := Proc(Load(s.index).value, FromFile(|s.log|), Idle);
    SourcedNow(codec, s.log);
    OutsideStep(codec, s, p, proc);
    AnyCaps(codec, s.(procs := s.procs[p := proc]), s.caps[p := cap]);
  }

  lemma InvokeKeeps(codec: Codec, s: State, p: Pid, call: Call)
    requires Inv(codec, s) && DoInvoke(codec, s, p, call).Some?
    ensures Inv(codec, DoInvoke(codec, s, p, call).value)
  {
    hide FilesInv, HolderInv, BlobInv, AckInv, Admissible;
    assert ProcInv(codec, s.blobs, s.log, s.procs[p]);
    OutsideStep(codec, s, p, s.procs[p].(phase := Waiting(call)));
  }

  lemma GiveUpKeeps(codec: Codec, s: State, p: Pid)
    requires Inv(codec, s) && DoGiveUp(s, p).Some?
    ensures Inv(codec, DoGiveUp(s, p).value)
  {
    hide FilesInv, HolderInv, BlobInv, AckInv, Admissible;
    assert ProcInv(codec, s.blobs, s.log, s.procs[p]);
    OutsideStep(codec, s, p, s.procs[p].(phase := Idle));
  }

  lemma AcquireKeeps(codec: Codec, s: State, p: Pid)
    requires Inv(codec, s) && DoAcquire(s, p).Some?
    ensures Inv(codec, DoAcquire(s, p).value)
  {
    hide FileIs, LogStored, Replay, Answers, SavesOk, StoredOrDue, BlobsFor, EventStored, InTemp, AckNext,
         Ordered, Honest, Admissible;
    assert ProcInv(codec, s.blobs, s.log, s.procs[p]);
  }

  lemma ReclaimKeeps(codec: Codec, s: State, p: Pid)
    requires Inv(codec, s) && DoReclaim(s, p).Some?
    ensures Inv(codec, DoReclaim(s, p).value)
  {
    hide ProcInv, FileIs, LogStored, Replay, Answers, SavesOk, StoredOrDue, BlobsFor, EventStored, InTemp,
         AckNext, Ordered, Honest;
  }

  // ---- steps under the lock ----

  /** More blobs do no process harm. */
  lemma ProcsGrow(codec: Codec, s: State, blobs: Blobs)
    requires ProcsInv(codec, s) && Grows(s.blobs, blobs)
    ensures ProcsInv(codec, s.(blobs := blobs))
  {
    hide Sourced, CallOk, Grows, Resolves;
    forall p | p in s.procs ensures ProcInv(codec, blobs, s.log, s.procs[p]) {
      assert ProcInv(codec, s.blobs, s.log, s.procs[p]);
      OriginGrows(codec, s.blobs, blobs, s.procs[p].origin);
    }
  }

  lemma OriginGrows(codec: Codec, a: Blobs, b: Blobs, origin: Origin)
    requires Grows(a, b) && OriginStored(codec, a, origin)
    ensures OriginStored(codec, b, origin)
  {
    if origin.Unsaved? { EventStoredGrows(codec, a, b, Verbed(origin.m)); }
  }

  /** A step of the holder that commits nothing. */
  lemma LocalStep(codec: Codec, s: State, p: Pid, after: State)
    requires Inv(codec, s) && p in s.procs && s.procs[p].phase.Holds()
    requires p in after.procs && after.procs[p].phase.Holds()
    requires after == s.(procs := s.procs[p := after.procs[p]], blobs := after.blobs,
                         indexTemps := after.indexTemps, tableTemps := after.tableTemps)
    requires Grows(s.blobs, after.blobs) && Honest(codec, after.blobs)
    requires ProcInv(codec, after.blobs, s.log, after.procs[p]) && HolderOk(codec, after, p)
    ensures Inv(codec, after)
  {
    hide ProcInv, FileIs, LogStored, Replay, Answers, Ordered, Honest, Grows, HolderOk;
    LogStoredGrows(codec, s.blobs, after.blobs, s.log);
    ProcsGrow(codec, s, after.blobs);
  }

  /** A step of the holder that changes only its phase. */
  lemma PhaseStep(codec: Codec, s: State, p: Pid, phase: Phase)
    requires Inv(codec, s) && p in s.procs && s.procs[p].phase.Holds() && phase.Holds()
    requires CallOk(codec, phase) && HolderOk(codec, InPhase(s, p, phase), p)
    ensures Inv(codec, InPhase(s, p, phase))
  {
    hide FilesInv, HolderInv, LogStored, AckInv, HolderOk, Sourced, CallOk;
    assert ProcInv(codec, s.blobs, s.log, s.procs[p]);
    LocalStep(codec, s, p, InPhase(s, p, phase));
  }

  /** A step of the holder that reloads the index. */
  lemma ReloadStep(codec: Codec, s: State, p: Pid, index: Buckets, phase: Phase)
    requires Inv(codec, s) && p in s.procs && s.procs[p].phase.Holds() && phase.Holds()
    requires Load(s.index) == Some(index)
    requires CallOk(codec, phase) && HolderOk(codec, Reloaded(s, p, index, phase), p)
    ensures Inv(codec, Reloaded(s, p, index, phase))
  {
    hide HolderInv, LogStored, AckInv, HolderOk, Sourced, CallOk, Replay, ProcsInv;
    LoadIsFile(s.index, Replay(codec, s.log).value.index);
    SourcedNow(codec, s.log);
    LocalStep(codec, s, p, Reloaded(s, p, index, phase));
  }

  lemma FailKeeps(codec: Codec, s: State, p: Pid)
    requires Inv(codec, s) && DoFail(s, p).Some?
    ensures Inv(codec, DoFail(s, p).value)
  {
    hide Inv, LockInv, FilesInv, BlobInv, AckInv, ProcsInv, HolderInv, HolderOk;
    LogReplays(codec, s, p);
    ErrorOk(codec, s, p);
    PhaseStep(codec, s, p, Releasing(None));
  }

  lemma LogReplays(codec: Codec, s: State, p: Pid)
    requires Inv(codec, s) && p in s.procs && s.procs[p].phase.Holds() && !s.procs[p].phase.Releasing?
    ensures Replay(codec, s.log).Some? && s.since <= |s.log| <= s.since + 1
  {
  }

  /** Returning an error asks for nothing. */
  lemma ErrorOk(codec: Codec, s: State, p: Pid)
    requires p in s.procs && Replay(codec, s.log).Some? && s.since <= |s.log| <= s.since + 1
    ensures HolderOk(codec, InPhase(s, p, Releasing(None)), p)
    ensures forall index :: HolderOk(codec, Reloaded(s, p, index, Releasing(None)), p)
  {
  }

  /** What the invariant says about the process that holds the lock. */
  lemma HolderFacts(codec: Codec, s: State, p: Pid)
    requires Inv(codec, s) && p in s.procs && s.procs[p].phase.Holds()
    ensures Replay(codec, s.log).Some? && HolderOk(codec, s, p)
    ensures Load(s.index) == Some(Replay(codec, s.log).value.index)
    ensures Load(s.table) == Some(Replay(codec, s.log).value.uploads)
    ensures Sourced(codec, s.log, s.procs[p].mem, s.procs[p].origin) && CallOk(codec, s.procs[p].phase)
    ensures OriginStored(codec, s.blobs, s.procs[p].origin)
    ensures Honest(codec, s.blobs) && LogStored(codec, s.blobs, s.log)
  {
    hide AckInv, LogStored, Replay, HolderOk, Sourced, CallOk;
    LoadIsFile(s.index, Replay(codec, s.log).value.index);
    LoadIsFile(s.table, Replay(codec, s.log).value.uploads);
    assert ProcInv(codec, s.blobs, s.log, s.procs[p]);
  }

  lemma AllDue(codec: Codec, blobs: Blobs, needed: seq<Bytes>)
    ensures StoredOrDue(codec, blobs, needed, needed)
  {
  }

  lemma ReadKeeps(codec: Codec, s: State, p: Pid)
    requires Inv(codec, s) && DoRead(codec, s, p).Some?
    ensures Inv(codec, DoRead(codec, s, p).value)
  {
    hide Inv, Replay, Apply, Sourced, BlobsFor, StoredOrDue, SavesOk, Admissible, LogStored, Honest;
    HolderFacts(codec, s, p);
    var w, call := Replay(codec, s.log).value, s.procs[p].phase.call;
    if call.UsesTable() {
      PhaseStep(codec, s, p, Tabled(call, w.uploads));
    } else if call.PutCall? && Apply(call.m, w.index).Err? {
      ReloadStep(codec, s, p, w.index, Releasing(None));
    } else {
      var needed := BlobsFor(codec, call, map[]);
      AllDue(codec, s.blobs, needed);
      ReloadStep(codec, s, p, w.index, Storing(call, map[], needed));
    }
  }

  lemma CreateKeeps(codec: Codec, s: State, p: Pid)
    requires Inv(codec, s) && DoCheck(codec, s, p).Some? && s.procs[p].phase.call.CreateCall?
    ensures Inv(codec, DoCheck(codec, s, p).value)
  {
    hide Inv, Replay, Apply, After, Sourced, StoredOrDue, LogStored, Honest, Assemble, CompletionPut;
    HolderFacts(codec, s, p);
    var w, call := Replay(codec, s.log).value, s.procs[p].phase.call;
    var CreateCall(id, upload) := call;
    if upload.bucket in w.index && id !in w.uploads && Multipart.Create(w.uploads, id, upload).Ok? {
      var after := TableContents(Multipart.Create(w.uploads, id, upload).value);
      ReloadStep(codec, s, p, w.index, Saving(call, [Save(Created(id, upload), after)], Unwritten, None));
    } else {
      ReloadStep(codec, s, p, w.index, Releasing(None));
    }
  }

  lemma CheckKeeps(codec: Codec, s: State, p: Pid)
    requires Inv(codec, s) && DoCheck(codec, s, p).Some?
    ensures Inv(codec, DoCheck(codec, s, p).value)
  {
    hide Inv, Replay, Apply, After, Sourced, BlobsFor, StoredOrDue, LogStored, Honest, Assemble, CompletionPut;
    HolderFacts(codec, s, p);
    var w, call := Replay(codec, s.log).value, s.procs[p].phase.call;
    var needed := BlobsFor(codec, call, w.uploads);
    AllDue(codec, s.blobs, needed);
    match call
    case CreateCall(_, _) => CreateKeeps(codec, s, p);
    case PartCall(id, _, _) =>
      PhaseStep(codec, s, p, if id in w.uploads then Storing(call, w.uploads, needed) else Releasing(None));
    case CompleteCall(id, list, _) =>
      PhaseStep(codec, s, p,
                if id in w.uploads && Assemble(w.uploads[id], list).Some?
                   && Assemble(w.uploads[id], list).value.totalSize <= Cap(s, p)
                then Storing(call, w.uploads, needed)
                else Releasing(None));
    case AbortCall(id) =>
      var after := TableContents(Multipart.Remove(w.uploads, id));
      PhaseStep(codec, s, p, Saving(call, [Save(Aborted(id), after)], Unwritten, None));
  }

  lemma DueNext(codec: Codec, blobs: Blobs, needed: seq<Bytes>, todo: seq<Bytes>)
    requires codec.Lawful() && Honest(codec, blobs) && todo != [] && StoredOrDue(codec, blobs, needed, todo)
    ensures var after := blobs[codec.cid(todo[0]) := todo[0]];
            Honest(codec, after) && Grows(blobs, after) && StoredOrDue(codec, after, needed, todo[1..])
  {
    PutBlobGrows(codec, blobs, todo[0]);
    var after := blobs[codec.cid(todo[0]) := todo[0]];
    forall b | b in needed ensures b in todo[1..] || Holds(codec, after, b) {
      assert b in todo ==> b == todo[0] || b in todo[1..];
    }
  }

  lemma StoreKeeps(codec: Codec, s: State, p: Pid)
    requires codec.Lawful() && Inv(codec, s) && DoStore(codec, s, p).Some?
    ensures Inv(codec, DoStore(codec, s, p).value)
  {
    hide Inv, Replay, Sourced, BlobsFor, StoredOrDue, LogStored, Honest, Grows, Admissible, Holds, Assemble;
    HolderFacts(codec, s, p);
    var ph := s.procs[p].phase;
    DueNext(codec, s.blobs, BlobsFor(codec, ph.call, ph.table), ph.todo);
    OriginGrows(codec, s.blobs, s.blobs[codec.cid(ph.todo[0]) := ph.todo[0]], s.procs[p].origin);
    LocalStep(codec, s, p, DoStore(codec, s, p).value);
  }

  /** Once a put's blobs are stored, its content id resolves to its bytes. */
  lemma PutStored(codec: Codec, blobs: Blobs, call: Call, table: Uploads)
    requires call.PutCall? && Admissible(codec, call)
    requires StoredOrDue(codec, blobs, BlobsFor(codec, call, table), [])
    ensures Resolves(codec, blobs, call.m.meta.cid, call.m.meta.size)
  {
    hide Chunks, Cids;
    var needed := BlobsFor(codec, call, table);
    match call.placement
    case Inline =>
      assert call.bytes in needed;
      assert StoredInline(codec, blobs, call.m.meta.cid, call.bytes);
    case Chunked(cs) => ObjectStored(codec, blobs, call.bytes, cs, needed);
  }

  lemma ObjectStored(codec: Codec, blobs: Blobs, bytes: Payload, cs: ChunkSize, needed: seq<Bytes>)
    requires needed == ObjectBlobs(codec, bytes, cs) && StoredOrDue(codec, blobs, needed, [])
    ensures StoredByManifest(codec, blobs, codec.cid(codec.encode(ManifestOf(codec, bytes, cs))), bytes, cs)
  {
    hide Chunks, Cids, ManifestOf, Holds;
    var chunks, last := Chunks(bytes, cs), codec.encode(ManifestOf(codec, bytes, cs));
    assert needed[|chunks|] == last;
    forall i | 0 <= i < |chunks| ensures Holds(codec, blobs, chunks[i]) {
      assert needed[i] == chunks[i];
    }
  }

  /** A step of the holder that applies a verb to the index it loaded. */
  lemma MutatedStep(codec: Codec, s: State, p: Pid, m: Mutation, index: Buckets, phase: Phase)
    requires Inv(codec, s) && p in s.procs && s.procs[p].phase.Holds() && phase.Holds()
    requires Load(s.index).Some? && Apply(m, Load(s.index).value) == Ok(index)
    requires CallOk(codec, phase) && VerbStored(codec, s.blobs, m)
    requires Replay(codec, s.log).Some? && HolderOk(codec, Mutated(s, p, m, index, phase), p)
    ensures Inv(codec, Mutated(s, p, m, index, phase))
  {
    hide HolderInv, LogStored, AckInv, HolderOk, CallOk, Replay, ProcsInv, Apply;
    LoadIsFile(s.index, Replay(codec, s.log).value.index);
    SourcedNow(codec, s.log);
    LocalStep(codec, s, p, Mutated(s, p, m, index, phase));
  }

  lemma MutateIndexKeeps(codec: Codec, s: State, p: Pid)
    requires Inv(codec, s) && DoMutate(codec, s, p).Some? && !s.procs[p].phase.call.UsesTable()
    ensures Inv(codec, DoMutate(codec, s, p).value)
  {
    hide Inv, Replay, Apply, After, Sourced, BlobsFor, StoredOrDue, LogStored, Honest, Resolves, NothingToSave;
    HolderFacts(codec, s, p);
    var w, proc := Replay(codec, s.log).value, s.procs[p];
    var call := proc.phase.call;
    if call.PutCall? { PutStored(codec, s.blobs, call, proc.phase.table); }
    AfterIsApply(call.m, proc.mem);
    if Apply(call.m, proc.mem).Err? || NothingToSave(call.m, proc.mem) {
      PhaseStep(codec, s, p, Releasing(None));
    } else {
      var after := After(call.m, proc.mem);
      MutatedStep(codec, s, p, call.m, after,
                  Saving(call, [Save(Verbed(call.m), IndexContents(after))], Unwritten, None));
    }
  }

  lemma AfterIsApply(m: Mutation, bs: Buckets)
    ensures Apply(m, bs).Ok? ==> Apply(m, bs) == Ok(After(m, bs))
  {
  }

  lemma MutatePartKeeps(codec: Codec, s: State, p: Pid)
    requires Inv(codec, s) && DoMutate(codec, s, p).Some? && s.procs[p].phase.call.PartCall?
    ensures Inv(codec, DoMutate(codec, s, p).value)
  {
    hide Inv, Replay, Apply, After, Sourced, StoredOrDue, LogStored, Honest, PartOf, StoredByManifest,
         ObjectBlobs, Multipart.PutPart;
    HolderFacts(codec, s, p);
    var w, call := Replay(codec, s.log).value, s.procs[p].phase.call;
    var PartCall(id, num, bytes) := call;
    PartEtagIs(codec, bytes);
    ObjectStored(codec, s.blobs, bytes, DEFAULT_PART_CHUNK, BlobsFor(codec, call, w.uploads));
    match Multipart.PutPart(w.uploads, id, PartOf(codec, num, bytes, DEFAULT_PART_CHUNK))
    case Err(_) => PhaseStep(codec, s, p, Releasing(None));
    case Ok(after) =>
      PhaseStep(codec, s, p, Saving(call, [Save(PartPut(id, num, bytes), TableContents(after))], Unwritten, None));
  }

  lemma PartEtagIs(codec: Codec, bytes: Payload)
    ensures PartEtag(codec, bytes, DEFAULT_PART_CHUNK)
         == codec.cid(codec.encode(ManifestOf(codec, bytes, DEFAULT_PART_CHUNK)))
  {
  }

  lemma MutateCompletionKeeps(codec: Codec, s: State, p: Pid)
    requires Inv(codec, s) && DoMutate(codec, s, p).Some? && s.procs[p].phase.call.CompleteCall?
    ensures Inv(codec, DoMutate(codec, s, p).value)
  {
    hide Inv, Replay, Apply, After, Sourced, StoredOrDue, LogStored, Honest, Assemble, Resolves, BlobsFor;
    HolderFacts(codec, s, p);
    var w, call := Replay(codec, s.log).value, s.procs[p].phase.call;
    var CompleteCall(id, list, now) := call;
    CompletionResolves(codec, s.blobs, s.log, call);
    var m := CompletionPut(codec, w.uploads[id], list, now).value;
    AfterIsApply(m, w.index);
    if Apply(m, w.index).Err? {
      ReloadStep(codec, s, p, w.index, Releasing(None));
    } else {
      var after := After(m, w.index);
      var saves := [Save(Bound(id, list, now, m), IndexContents(after)),
                    Save(Finished(id), TableContents(Multipart.Remove(w.uploads, id)))];
      MutatedStep(codec, s, p, m, after, Saving(call, saves, Unwritten, None));
    }
  }

  lemma CompletionResolves(codec: Codec, blobs: Blobs, log: seq<Event>, call: Call)
    requires Replay(codec, log).Some? && call.CompleteCall? && LogStored(codec, blobs, log)
    requires ReadyToStore(call, Replay(codec, log).value.uploads)
    requires StoredOrDue(codec, blobs, BlobsFor(codec, call, Replay(codec, log).value.uploads), [])
    ensures var m := CompletionPut(codec, Replay(codec, log).value.uploads[call.id], call.list, call.now).value;
            m.PutM? && ContentNamed(m.meta) && Resolves(codec, blobs, m.meta.cid, m.meta.size)
  {
    hide Replay, Assemble, Resolves, Holds, LogStored;
    var w := Replay(codec, log).value;
    var bytes := codec.encode(Assemble(w.uploads[call.id], call.list).value);
    assert bytes in BlobsFor(codec, call, w.uploads);
    CompletionStored(codec, blobs, log, call.id, call.list);
  }

  lemma MutateKeeps(codec: Codec, s: State, p: Pid)
    requires Inv(codec, s) && DoMutate(codec, s, p).Some?
    ensures Inv(codec, DoMutate(codec, s, p).value)
  {
    hide Inv, CompletionPut, Apply, After, Assemble, MutateIndex;
    match s.procs[p].phase.call
    case VerbCall(_) => MutateIndexKeeps(codec, s, p);
    case PutCall(_, _, _) => MutateIndexKeeps(codec, s, p);
    case PartCall(_, _, _) => MutatePartKeeps(codec, s, p);
    case CompleteCall(_, _, _) => MutateCompletionKeeps(codec, s, p);
    case _ =>
  }

  lemma OpenTempKeeps(codec: Codec, s: State, p: Pid)
    requires Inv(codec, s) && DoOpenTemp(s, p).Some?
    ensures Inv(codec, DoOpenTemp(s, p).value)
  {
    hide Inv, Replay, Sourced, LogStored, Honest, Admissible, SavesOk, EventStored, AckNext;
    HolderFacts(codec, s, p);
    LocalStep(codec, s, p, DoOpenTemp(s, p).value);
  }

  lemma WriteTempKeeps(codec: Codec, s: State, p: Pid)
    requires Inv(codec, s) && DoWriteTemp(s, p).Some?
    ensures Inv(codec, DoWriteTemp(s, p).value)
  {
    hide Inv, Replay, Sourced, LogStored, Honest, Admissible, SavesOk, EventStored, AckNext;
    HolderFacts(codec, s, p);
    LocalStep(codec, s, p, DoWriteTemp(s, p).value);
  }

  lemma ReleaseLock(s: State, p: Pid)
    requires LockInv(s) && DoRelease(s, p).Some?
    ensures LockInv(DoRelease(s, p).value) && DoRelease(s, p).value.lock == None
  {
  }

  lemma ReleaseAcks(codec: Codec, s: State, p: Pid)
    requires AckInv(codec, s) && DoRelease(s, p).Some? && Replay(codec, s.log).Some?
    requires HolderOk(codec, s, p) && CallOk(codec, s.procs[p].phase)
    ensures AckInv(codec, DoRelease(s, p).value)
  {
    hide Replay, Admissible, Answers;
  }

  lemma ReleaseProcs(codec: Codec, s: State, p: Pid)
    requires ProcsInv(codec, s) && DoRelease(s, p).Some?
    ensures ProcsInv(codec, DoRelease(s, p).value)
  {
    hide Sourced, OriginStored, Admissible;
    var t := DoRelease(s, p).value;
    forall q | q in t.procs ensures ProcInv(codec, t.blobs, t.log, t.procs[q]) {
      assert ProcInv(codec, s.blobs, s.log, s.procs[q]);
    }
  }

  lemma ReleaseKeeps(codec: Codec, s: State, p: Pid)
    requires Inv(codec, s) && DoRelease(s, p).Some?
    ensures Inv(codec, DoRelease(s, p).value)
  {
    hide LockInv, AckInv, ProcsInv, LogStored, Honest, FileIs, Ordered, HolderOk, CallOk, Sourced, OriginStored, Replay;
    HolderFacts(codec, s, p);
    ReleaseLock(s, p);
    ReleaseAcks(codec, s, p);
    ReleaseProcs(codec, s, p);
  }

  lemma CrashKeeps(codec: Codec, s: State, p: Pid)
    requires Inv(codec, s) && DoCrash(s, p).Some?
    ensures Inv(codec, DoCrash(s, p).value)
  {
    hide Replay, Sourced, LogStored, Honest, Admissible, FileIs, Ordered, SavesOk, EventStored, Answers,
         StoredOrDue, AckNext, InTemp, BlobsFor, CallOk;
  }

  lemma ForeignKeeps(codec: Codec, s: State, bytes: Bytes)
    requires codec.Lawful() && Inv(codec, s)
    ensures Inv(codec, DoForeign(codec, s, bytes).value)
  {
    hide Replay, Sourced, LogStored, Honest, Admissible, FileIs, Ordered, EventStored, Answers, AckNext,
         InTemp, BlobsFor, CallOk, Grows, StoredOrDue, ReadyToStore;
    PutBlobGrows(codec, s.blobs, bytes);
    var after := s.blobs[codec.cid(bytes) := bytes];
    LogStoredGrows(codec, s.blobs, after, s.log);
    ProcsGrow(codec, s, after);
    if s.lock.Some? && s.lock.value in s.procs {
      match s.procs[s.lock.value].phase
      case Storing(call, table, todo) =>
        StoredGrowsToo(codec, s.blobs, after, BlobsFor(codec, call, table), todo);
      case Saving(_, saves, _, _) =>
        EventStoredGrows(codec, s.blobs, after, saves[0].event);
      case _ =>
    }
  }

  lemma StoredGrowsToo(codec: Codec, a: Blobs, b: Blobs, needed: seq<Bytes>, todo: seq<Bytes>)
    requires Grows(a, b) && StoredOrDue(codec, a, needed, todo)
    ensures StoredOrDue(codec, b, needed, todo)
  {
  }

  // ---- the commit ----

  lemma SourcedLater(codec: Codec, log: seq<Event>, e: Event, mem: Buckets, origin: Origin)
    requires Sourced(codec, log, mem, origin)
    ensures Sourced(codec, log + [e], mem, origin)
  {
    assert (log + [e])[..origin.n] == log[..origin.n];
  }

  lemma LogStoredNext(codec: Codec, blobs: Blobs, log: seq<Event>, e: Event)
    requires LogStored(codec, blobs, log) && EventStored(codec, blobs, e)
    ensures LogStored(codec, blobs, log + [e])
  {
    hide EventStored;
  }

  lemma OrderedNext(log: seq<Event>, e: Event)
    requires Ordered(log)
    requires e.Finished? ==> log != [] && log[|log| - 1].Bound? && log[|log| - 1].id == e.id
    ensures Ordered(log + [e])
  {
  }

  lemma AckNextLater(log: seq<Event>, acks: seq<Ack>, call: Call, at: nat, e: Event)
    requires AckNext(log, acks, call, at)
    ensures AckNext(log + [e], acks, call, at)
  {
  }

  lemma AckHere(codec: Codec, s: State, call: Call, e: Event)
    requires AckInv(codec, s) && Answers(call, e)
    ensures AckNext(s.log + [e], s.acks, call, |s.log|)
  {
  }

  /** What the state after a commit must show, gathered in one place. */
  lemma CommitStep(codec: Codec, s: State, p: Pid, e: Event, after: State)
    requires Inv(codec, s) && p in s.procs && s.procs[p].phase.Holds()
    requires Effect(codec, e, Replay(codec, s.log).value).Some?
    requires p in after.procs && after.procs[p].phase.Holds()
    requires after == s.(index := after.index, table := after.table,
                         indexTemps := after.indexTemps, tableTemps := after.tableTemps,
                         procs := s.procs[p := after.procs[p]], log := s.log + [e])
    requires var w := Effect(codec, e, Replay(codec, s.log).value).value;
             FileIs(after.index, w.index) && FileIs(after.table, w.uploads)
    requires EventStored(codec, s.blobs, e)
    requires e.Finished? ==> s.log != [] && s.log[|s.log| - 1].Bound? && s.log[|s.log| - 1].id == e.id
    requires ProcInv(codec, after.blobs, after.log, after.procs[p])
    requires Replay(codec, after.log).Some? ==> HolderOk(codec, after, p)
    ensures Inv(codec, after)
  {
    hide FileIs, LogStored, Replay, Answers, Ordered, Honest, HolderOk, Sourced, CallOk, EventStored, Effect;
    ReplayNext(codec, s.log, e);
    OrderedNext(s.log, e);
    LogStoredNext(codec, s.blobs, s.log, e);
    forall q | q in after.procs ensures ProcInv(codec, after.blobs, after.log, after.procs[q]) {
      if q != p {
        assert ProcInv(codec, s.blobs, s.log, s.procs[q]);
        SourcedLater(codec, s.log, e, s.procs[q].mem, s.procs[q].origin);
      }
    }
  }

  lemma RenameKeeps(codec: Codec, s: State, p: Pid)
    requires Inv(codec, s) && DoRename(s, p).Some?
    ensures Inv(codec, DoRename(s, p).value)
  {
    hide Inv, AckInv, Sourced, LogStored, Honest, Admissible, EventStored, Replay, Answers, AckNext, Effect;
    HolderFacts(codec, s, p);
    var w, ph, after := Replay(codec, s.log).value, s.procs[p].phase, DoRename(s, p).value;
    var e := ph.saves[0].event;
    ReplayNext(codec, s.log, e);
    FilesHeld(codec, s);
    if ph.at.Some? {
      AckNextLater(s.log, s.acks, ph.call, ph.at.value, e);
    } else {
      AckHere(codec, s, ph.call, e);
    }
    SourcedNow(codec, after.log);
    SourcedLater(codec, s.log, e, s.procs[p].mem, s.procs[p].origin);
    if |ph.saves| == 2 {
      FinishedNext(codec, Effect(codec, e, w).value, e.id, s.blobs);
      BoundAnswers(ph.call, e);
    }
    CommitStep(codec, s, p, e, after);
  }

  lemma FilesHeld(codec: Codec, s: State)
    requires Inv(codec, s)
    ensures Replay(codec, s.log).Some? && AckInv(codec, s)
    ensures FileIs(s.index, Replay(codec, s.log).value.index) && FileIs(s.table, Replay(codec, s.log).value.uploads)
  {
  }

  lemma BoundAnswers(call: Call, e: Event)
    requires e.Bound? && Answers(call, e)
    ensures call.CompleteCall? && call.id == e.id
  {
  }

  /** After an object is bound, dropping its record can follow. */
  lemma FinishedNext(codec: Codec, w: World, id: string, blobs: Blobs)
    ensures Effect(codec, Finished(id), w) == Some(Replaced(w, TableContents(Multipart.Remove(w.uploads, id))))
    ensures EventStored(codec, blobs, Finished(id))
  {
  }
}
