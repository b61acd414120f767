/** Why the store never stops for good: from every reachable state, a waiting process can come to hold the lock,
    and a call that the committed files and its size limit allow can be carried through. */
module Progress {
  import opened Basics
  import opened BucketModel
  import opened Mutations
  import opened History
  import opened Manifests
  import opened ObjectReads
  import opened Multipart
  import opened Journal
  import opened Protocol
  import opened Safety
  import opened Guarantees
  import opened Limits
  import opened Scenarios

  /** The committed files and the process's size limit allow the call. */
  ghost predicate AllowedNow(codec: Codec, s: State, p: Pid, call: Call) {
    Replay(codec, s.log).Some? && Admissible(codec, call)
    && Allows(codec, call, Replay(codec, s.log).value) && Fits(codec, call, Replay(codec, s.log).value, Cap(s, p))
  }

  lemma CommittedFiles(codec: Codec, s: State)
    requires codec.Lawful() && Reachable(codec, s)
    ensures Replay(codec, s.log).Some? && HoldFiles(s, Replay(codec, s.log).value)
  {
    hide Reachable, Replay;
    ReachableOk(codec, s);
    FilesHeld(codec, s);
    LoadIsFile(s.index, Replay(codec, s.log).value.index);
    LoadIsFile(s.table, Replay(codec, s.log).value.uploads);
  }

  /** In every reachable state with the lock free, an idle process can carry through every call that the
      committed files and its size limit allow, and the state it reaches is reachable. */
  lemma ReachableCanCommit(codec: Codec, s: State, p: Pid, call: Call) returns (steps: seq<Step>, t: State)
    requires codec.Lawful() && Reachable(codec, s) && p in s.procs && s.procs[p].phase.Idle? && s.lock == None
    requires AllowedNow(codec, s, p, call)
    ensures Follow(codec, s, steps) == Some(t) && Reachable(codec, t)
    ensures Carried(codec, s, t, p, call, Replay(codec, s.log).value)
  {
    hide Reachable, Follow, Replay, Allows, Carried, Admissible, Fits, HoldFiles;
    CommittedFiles(codec, s);
    steps, t := CallCanCommit(codec, s, p, call, Replay(codec, s.log).value);
    ReachFurther(codec, s, steps, t);
  }

  /** `t` is `s` with the lock free: log, files and the waiting process are as they were. */
  ghost predicate Freed(s: State, t: State, p: Pid) {
    t.lock == None && t.log == s.log && t.index == s.index && t.table == s.table && t.caps == s.caps
    && p in s.procs && p in t.procs && t.procs[p] == s.procs[p]
  }

  /** A live holder returns, if need be with an error. */
  lemma HolderReturns(codec: Codec, s: State, p: Pid, q: Pid) returns (steps: seq<Step>, t: State)
    requires p in s.procs && q in s.procs && p != q && s.procs[q].phase.Holds()
    ensures Follow(codec, s, steps) == Some(t) && Freed(s, t, p)
  {
    hide Follow;
    if s.procs[q].phase.Releasing? {
      FollowOne(codec, s, Release(q));
      steps, t := [Release(q)], DoRelease(s, q).value;
    } else {
      var failed := DoFail(s, q).value;
      FollowTwo(codec, s, Fail(q), failed, Release(q));
      steps, t := [Fail(q), Release(q)], DoRelease(failed, q).value;
    }
  }

  /** No deadlock: from every reachable state some run frees the lock and changes neither the log, nor the files,
      nor the waiting process. A live holder can return; the lock of a crashed one is reclaimed. */
  lemma LockCanBeFreed(codec: Codec, s: State, p: Pid) returns (steps: seq<Step>, t: State)
    requires codec.Lawful() && Reachable(codec, s) && p in s.procs && s.procs[p].phase.Waiting?
    ensures Follow(codec, s, steps) == Some(t) && Reachable(codec, t) && Freed(s, t, p)
  {
    hide Reachable, Follow, Freed;
    HolderKnown(codec, s, p);
    if s.lock == None {
      steps, t := [], s;
      FollowNone(codec, s);
      AlreadyFree(s, p);
    } else if s.lock.value in s.crashed {
      FollowOne(codec, s, Reclaim(p));
      steps, t := [Reclaim(p)], DoReclaim(s, p).value;
      ReachFurther(codec, s, steps, t);
      Reclaimed(s, p);
    } else {
      steps, t := HolderReturns(codec, s, p, s.lock.value);
      ReachFurther(codec, s, steps, t);
    }
  }

  lemma HolderKnown(codec: Codec, s: State, p: Pid)
    requires codec.Lawful() && Reachable(codec, s) && p in s.procs && s.procs[p].phase.Waiting?
    ensures s.lock.Some? && s.lock.value !in s.crashed ==>
              s.lock.value in s.procs && s.lock.value != p && s.procs[s.lock.value].phase.Holds()
  {
    hide Reachable, FilesInv, BlobInv, AckInv, ProcsInv, HolderInv;
    ReachableOk(codec, s);
  }

  lemma AlreadyFree(s: State, p: Pid)
    requires s.lock == None && p in s.procs
    ensures Freed(s, s, p)
  {
  }

  lemma Reclaimed(s: State, p: Pid)
    requires DoReclaim(s, p).Some?
    ensures Freed(s, DoReclaim(s, p).value, p)
  {
  }

  /** The holder of the lock is never stuck half-way: in every reachable state the next step of its call is
      possible. */
  lemma HolderGoesOn(codec: Codec, s: State, p: Pid) returns (step: Step)
    requires codec.Lawful() && Reachable(codec, s) && p in s.procs && s.procs[p].phase.Holds()
    ensures step in [Read(p), Check(p), StoreBlob(p), Mutate(p), OpenTemp(p), WriteTemp(p), Rename(p), Release(p)]
    ensures Do(codec, s, step).Some?
  {
    hide Reachable, Inv, DoCheck, DoMutate, Load, Apply, BlobsFor;
    ReachableOk(codec, s);
    HolderPrepared(codec, s, p);
    match s.procs[p].phase
    case Locked(_) => step := Read(p);
    case Tabled(_, _) => step := Check(p);
    case Storing(_, _, todo) => step := if todo == [] then Mutate(p) else StoreBlob(p);
    case Saving(_, _, stage, _) =>
      step := if stage.Unwritten? then OpenTemp(p) else if stage.Opened? then WriteTemp(p) else Rename(p);
    case Releasing(_) => step := Release(p);
  }

  /** What the next step of a holder asks for is there. */
  lemma HolderPrepared(codec: Codec, s: State, p: Pid)
    requires Inv(codec, s) && p in s.procs && s.procs[p].phase.Holds()
    ensures s.procs[p].phase.Tabled? ==> DoCheck(codec, s, p).Some?
    ensures s.procs[p].phase.Storing? && s.procs[p].phase.todo == [] ==> DoMutate(codec, s, p).Some?
    ensures s.procs[p].phase.Saving? ==> s.procs[p].phase.saves != []
    ensures s.procs[p].phase.Saving? && s.procs[p].phase.stage.Written? ==>
              if s.procs[p].phase.saves[0].contents.IndexContents? then p in s.indexTemps else p in s.tableTemps
  {
    hide FilesInv, BlobInv, AckInv, ProcsInv, Load, Apply, Assemble, BlobsFor, DoCheck, DoMutate, EventStored,
         StoredOrDue, Replay, Effect, Counted, AckNext;
    if s.procs[p].phase.Tabled? { CheckPossible(codec, s, p); }
    if s.procs[p].phase.Storing? && s.procs[p].phase.todo == [] { MutatePossible(codec, s, p); }
  }

  lemma CheckPossible(codec: Codec, s: State, p: Pid)
    requires p in s.procs && s.procs[p].phase.Tabled? && s.procs[p].phase.call.UsesTable()
    ensures DoCheck(codec, s, p).Some?
  {
    hide Load, Assemble, BlobsFor;
  }

  lemma MutatePossible(codec: Codec, s: State, p: Pid)
    requires p in s.procs && s.procs[p].phase.Storing? && s.procs[p].phase.todo == []
    requires s.procs[p].phase.call.UsesTable() ==> ReadyToStore(s.procs[p].phase.call, s.procs[p].phase.table)
    ensures DoMutate(codec, s, p).Some?
  {
    hide Load, Assemble, Apply, After, PartOf;
  }

  /** It may also stop anywhere: by an error as long as its call is undecided, or, as any process may, by a crash
      that leaves the lock file, the files and the temporary files where they are. */
  lemma MayStop(codec: Codec, s: State, p: Pid)
    requires p in s.procs
    ensures s.procs[p].phase.Holds() && !s.procs[p].phase.Releasing? ==> Do(codec, s, Fail(p)).Some?
    ensures var crashed := Do(codec, s, Crash(p));
            crashed.Some? && p !in crashed.value.procs && crashed.value.lock == s.lock
            && crashed.value.index == s.index && crashed.value.table == s.table
            && crashed.value.indexTemps == s.indexTemps && crashed.value.tableTemps == s.tableTemps
  {
  }

  /** A waiting process may give up. */
  lemma WaiterMayLeave(codec: Codec, s: State, p: Pid)
    requires p in s.procs && s.procs[p].phase.Waiting?
    ensures Do(codec, s, GiveUp(p)) == Some(s.(procs := s.procs[p := s.procs[p].(phase := Idle)]))
  {
  }

  /** Whoever holds the lock, and even if its creator has crashed, a waiting process can carry its call through
      whenever the committed files and its size limit allow it. */
  lemma WaitingIsNeverStuck(codec: Codec, s: State, p: Pid)
    returns (freeing: seq<Step>, free: State, steps: seq<Step>, t: State)
    requires codec.Lawful() && Reachable(codec, s) && p in s.procs && s.procs[p].phase.Waiting?
    requires AllowedNow(codec, s, p, s.procs[p].phase.call)
    ensures Follow(codec, s, freeing) == Some(free) && Reachable(codec, free) && Freed(s, free, p)
    ensures Follow(codec, free, steps) == Some(t) && Follow(codec, s, freeing + steps) == Some(t) && Reachable(codec, t)
    ensures Carried(codec, free, t, p, s.procs[p].phase.call, Replay(codec, s.log).value)
  {
    hide Reachable, Follow, Replay, Allows, Carried, Admissible, Fits, HoldFiles;
    freeing, free := LockCanBeFreed(codec, s, p);
    CommittedFiles(codec, free);
    steps, t := WaitingCanCommit(codec, free, p, s.procs[p].phase.call, Replay(codec, s.log).value);
    ReachFurther(codec, free, steps, t);
    FollowJoin(codec, s, freeing, free, steps);
  }

  // ---- the same, without asking whether there is something to save ----

  /** The verb succeeds on the committed index, and its result is another index. */
  ghost predicate Changes(s: State, m: Mutation) {
    Apply(m, Fold(Verbs(s.log))).Ok? && Apply(m, Fold(Verbs(s.log))) != Ok(Fold(Verbs(s.log)))
  }

  /** `t` is the state after the acknowledged commit of a verb: the log and the acknowledgements are those of `s`
      and its own, and the index file holds its result. */
  ghost predicate Committing(s: State, t: State, p: Pid, m: Mutation) {
    t.log == s.log + [Verbed(m)] && t.acks == s.acks + [Ack(VerbCall(m), |s.log|)]
    && p in t.procs && t.procs[p].phase.Idle? && t.lock == None
    && Load(t.index) == Some(After(m, Fold(Verbs(s.log))))
  }

  lemma ChangeIsAllowed(codec: Codec, s: State, p: Pid, m: Mutation)
    requires codec.Lawful() && Reachable(codec, s) && !m.PutM? && Changes(s, m)
    ensures AllowedNow(codec, s, p, VerbCall(m))
  {
    hide Reachable, Replay, Fold, Allows, Apply;
    CommittedFiles(codec, s);
    IndexIsFold(codec, s.log);
    ChangingVerbAllowed(codec, m, Replay(codec, s.log).value);
  }

  lemma CarriedVerb(codec: Codec, s: State, t: State, p: Pid, m: Mutation)
    requires Replay(codec, s.log).Some? && Allows(codec, VerbCall(m), Replay(codec, s.log).value)
    requires Carried(codec, s, t, p, VerbCall(m), Replay(codec, s.log).value)
    ensures Committing(s, t, p, m)
  {
    hide Replay, Fold, Allows, Load, Apply, After, StoreAll, Elsewhere;
    IndexIsFold(codec, s.log);
    var w := Replay(codec, s.log).value;
    OneOrTwo(w, SavesFor(codec, VerbCall(m), w));
  }

  /** A verb that changes the committed index is never dropped: in every reachable state with the lock free, an idle
      process can carry it to its acknowledged commit. The puts are calls of their own. */
  lemma ChangeCommits(codec: Codec, s: State, p: Pid, m: Mutation) returns (steps: seq<Step>, t: State)
    requires codec.Lawful() && Reachable(codec, s) && p in s.procs && s.procs[p].phase.Idle? && s.lock == None
    requires !m.PutM? && Changes(s, m)
    ensures Follow(codec, s, steps) == Some(t) && Reachable(codec, t) && Committing(s, t, p, m)
  {
    hide Reachable, Follow, Changes, AllowedNow, Allows, Carried, Committing;
    ChangeIsAllowed(codec, s, p, m);
    AllowedUnfolds(codec, s, p, VerbCall(m));
    steps, t := ReachableCanCommit(codec, s, p, VerbCall(m));
    CarriedVerb(codec, s, t, p, m);
  }

  lemma AllowedUnfolds(codec: Codec, s: State, p: Pid, call: Call)
    requires AllowedNow(codec, s, p, call)
    ensures Replay(codec, s.log).Some? && Allows(codec, call, Replay(codec, s.log).value)
  {
  }

  /** Whoever holds the lock, and even if its creator has crashed, a waiting process can carry a verb that changes
      the committed index to its acknowledged commit. */
  lemma WaitingChangeCommits(codec: Codec, s: State, p: Pid, m: Mutation)
    returns (freeing: seq<Step>, free: State, steps: seq<Step>, t: State)
    requires codec.Lawful() && Reachable(codec, s) && p in s.procs && s.procs[p].phase == Waiting(VerbCall(m))
    requires !m.PutM? && Changes(s, m)
    ensures Follow(codec, s, freeing) == Some(free) && Freed(s, free, p) && Follow(codec, free, steps) == Some(t)
    ensures Follow(codec, s, freeing + steps) == Some(t) && Reachable(codec, t) && Committing(free, t, p, m)
  {
    hide Reachable, Follow, Changes, AllowedNow, Allows, Carried, Committing;
    ChangeIsAllowed(codec, s, p, m);
    AllowedUnfolds(codec, s, p, VerbCall(m));
    freeing, free, steps, t := WaitingIsNeverStuck(codec, s, p);
    CarriedVerb(codec, free, t, p, m);
  }

  // ---- the same for the other calls, in terms of what their callers see ----

  /** `t` is the state after the acknowledged call, whose only commit is this one. */
  ghost predicate Acknowledged(s: State, t: State, p: Pid, call: Call, e: Event) {
    t.log == s.log + [e] && t.acks == s.acks + [Ack(call, |s.log|)]
    && p in t.procs && t.procs[p].phase.Idle? && t.lock == None
  }

  lemma CarriedOne(codec: Codec, s: State, t: State, p: Pid, call: Call, e: Event)
    requires Replay(codec, s.log).Some? && Allows(codec, call, Replay(codec, s.log).value)
    requires Carried(codec, s, t, p, call, Replay(codec, s.log).value)
    requires !call.CompleteCall? && Answers(call, e)
    ensures Acknowledged(s, t, p, call, e)
  {
    hide Replay, Allows, Load, StoreAll, Elsewhere, PartOf;
    var w := Replay(codec, s.log).value;
    OneOrTwo(w, SavesFor(codec, call, w));
  }

  /** The metadata with which `put_object` binds a body. */
  function BodyMeta(codec: Codec, bytes: Payload, placement: Placement, contentType: string, now: u64,
                    metadata: map<Str, Str>): ObjectMeta
  {
    NewMeta(ObjectCid(codec, bytes, placement), |bytes|, contentType, now).(metadata := metadata)
  }

  /** A put of a body within the limit, over the committed index, is never stuck: if key, metadata, bucket and
      preconditions are in order it can be carried to its acknowledged commit, after which the index serves the
      object and its content id reads as the body. */
  lemma PutCommits(codec: Codec, s: State, p: Pid, bytes: Payload, placement: Placement, m: Mutation)
    returns (steps: seq<Step>, t: State)
    requires codec.Lawful() && Reachable(codec, s) && p in s.procs && s.procs[p].phase.Idle? && s.lock == None
    requires m.PutM? && Apply(m, Fold(Verbs(s.log))).Ok? && |bytes| <= Cap(s, p)
    requires exists contentType, now, metadata ::
               m.meta == BodyMeta(codec, bytes, placement, contentType, now, metadata)
    requires placement.Inline? && codec.parse(bytes).Some? ==> codec.parse(bytes).value.kind != V1
    ensures Follow(codec, s, steps) == Some(t) && Reachable(codec, t)
    ensures Acknowledged(s, t, p, PutCall(m, bytes, placement), Verbed(m))
    ensures Head(Fold(Verbs(t.log)), m.bucket, m.key) == Ok(m.meta) && ReadsAs(codec, t.blobs, m.meta.cid, bytes)
  {
    hide Reachable, Follow, Replay, Allows, Carried, Fold, Apply, ObjectCid, Acknowledged, Head, ReadsAs;
    var call := PutCall(m, bytes, placement);
    CommittedFiles(codec, s);
    IndexIsFold(codec, s.log);
    PutAllowed(codec, call, Replay(codec, s.log).value);
    steps, t := ReachableCanCommit(codec, s, p, call);
    CarriedOne(codec, s, t, p, call, Verbed(m));
    AcknowledgedMeans(s, t, p, call, Verbed(m));
    PutReadsBack(codec, t, |s.acks|);
    VerbLast(s.log, m);
    CommittedNext(Verbs(s.log), m);
    BoundIsHead(m, Fold(Verbs(s.log)));
  }

  lemma AcknowledgedMeans(s: State, t: State, p: Pid, call: Call, e: Event)
    requires Acknowledged(s, t, p, call, e)
    ensures t.log == s.log + [e] && |t.acks| == |s.acks| + 1 && t.acks[|s.acks|].call == call
  {
  }

  lemma VerbLast(log: seq<Event>, m: Mutation)
    ensures Verbs(log + [Verbed(m)]) == Verbs(log) + [m]
  {
  }

  lemma PutAllowed(codec: Codec, call: Call, w: World)
    requires call.PutCall?
    ensures Allows(codec, call, w) <==> call.m.PutM? && Apply(call.m, w.index).Ok?
  {
    hide Apply;
  }

  /** A part with a legal number and a body within the limit, for an upload in the committed table, can be carried
      to its acknowledged commit. */
  lemma PartCommits(codec: Codec, s: State, p: Pid, id: string, num: u32, bytes: Payload)
    returns (steps: seq<Step>, t: State)
    requires codec.Lawful() && Reachable(codec, s) && p in s.procs && s.procs[p].phase.Idle? && s.lock == None
    requires Replay(codec, s.log).Some? && id in Replay(codec, s.log).value.uploads
    requires 1 <= num <= MAX_PARTS && 0 < |bytes| <= Cap(s, p)
    ensures Follow(codec, s, steps) == Some(t) && Reachable(codec, t)
    ensures Acknowledged(s, t, p, PartCall(id, num, bytes), PartPut(id, num, bytes))
  {
    hide Reachable, Follow, Replay, Carried, Acknowledged, PartEtag, Cids, Chunks;
    steps, t := ReachableCanCommit(codec, s, p, PartCall(id, num, bytes));
    CarriedOne(codec, s, t, p, PartCall(id, num, bytes), PartPut(id, num, bytes));
  }

  /** An upload with a valid key and valid metadata can be created while the table has room and its bucket exists;
      and any can be aborted at any time. */
  lemma CreateCommits(codec: Codec, s: State, p: Pid, id: string, upload: Upload)
    returns (steps: seq<Step>, t: State)
    requires codec.Lawful() && Reachable(codec, s) && p in s.procs && s.procs[p].phase.Idle? && s.lock == None
    requires Replay(codec, s.log).Some? && id !in Replay(codec, s.log).value.uploads
    requires |Replay(codec, s.log).value.uploads| < MAX_INFLIGHT_UPLOADS && upload.bucket in Fold(Verbs(s.log))
    requires upload.parts == map[] && upload.partChunk == DEFAULT_PART_CHUNK
    requires ValidKey(upload.key) && ValidMetadata(upload.metadata)
    ensures Follow(codec, s, steps) == Some(t) && Reachable(codec, t)
    ensures Acknowledged(s, t, p, CreateCall(id, upload), Created(id, upload))
  {
    hide Reachable, Follow, Replay, Carried, Acknowledged, Fold, Verbs;
    IndexIsFold(codec, s.log);
    steps, t := ReachableCanCommit(codec, s, p, CreateCall(id, upload));
    CarriedOne(codec, s, t, p, CreateCall(id, upload), Created(id, upload));
  }

  lemma AbortCommits(codec: Codec, s: State, p: Pid, id: string) returns (steps: seq<Step>, t: State)
    requires codec.Lawful() && Reachable(codec, s) && p in s.procs && s.procs[p].phase.Idle? && s.lock == None
    ensures Follow(codec, s, steps) == Some(t) && Reachable(codec, t)
    ensures Acknowledged(s, t, p, AbortCall(id), Aborted(id))
  {
    hide Reachable, Follow, Replay, Carried, Acknowledged;
    CommittedFiles(codec, s);
    steps, t := ReachableCanCommit(codec, s, p, AbortCall(id));
    CarriedOne(codec, s, t, p, AbortCall(id), Aborted(id));
  }

  /** An acceptable list for an upload in the committed table, whose object is within the limit and whose bucket
      still exists, can be completed: the object is bound, and the record removed. */
  lemma CompletionCommits(codec: Codec, s: State, p: Pid, id: string, list: PartList, now: u64)
    returns (steps: seq<Step>, t: State)
    requires codec.Lawful() && Reachable(codec, s) && p in s.procs && s.procs[p].phase.Idle? && s.lock == None
    requires Replay(codec, s.log).Some? && id in Replay(codec, s.log).value.uploads
    requires var upload := Replay(codec, s.log).value.uploads[id];
             Assemble(upload, list).Some? && Assemble(upload, list).value.totalSize <= Cap(s, p)
             && upload.bucket in Fold(Verbs(s.log))
    ensures Follow(codec, s, steps) == Some(t) && Reachable(codec, t)
    ensures exists m :: t.log == s.log + [Bound(id, list, now, m), Finished(id)]
    ensures t.acks == s.acks + [Ack(CompleteCall(id, list, now), |s.log|)]
    ensures Replay(codec, t.log).Some? && id !in Replay(codec, t.log).value.uploads
  {
    hide Reachable, Follow, Replay, Carried, Assemble, Fold, Verbs, ValidKey, ValidMetadata;
    var call := CompleteCall(id, list, now);
    var w := Replay(codec, s.log).value;
    IndexIsFold(codec, s.log);
    RecordsValid(codec, s, id);
    steps, t := ReachableCanCommit(codec, s, p, call);
    CarriedCompletion(codec, s, t, p, id, list, now);
    CommittedFiles(codec, t);
  }

  lemma CarriedCompletion(codec: Codec, s: State, t: State, p: Pid, id: string, list: PartList, now: u64)
    requires Replay(codec, s.log).Some? && Allows(codec, CompleteCall(id, list, now), Replay(codec, s.log).value)
    requires Carried(codec, s, t, p, CompleteCall(id, list, now), Replay(codec, s.log).value)
    ensures exists m :: t.log == s.log + [Bound(id, list, now, m), Finished(id)]
    ensures t.acks == s.acks + [Ack(CompleteCall(id, list, now), |s.log|)]
    ensures Load(t.table).Some? && id !in Load(t.table).value
  {
    hide Replay, Load, StoreAll, Elsewhere, Assemble, Apply, After, CompletionPut;
    var w := Replay(codec, s.log).value;
    var saves := SavesFor(codec, CompleteCall(id, list, now), w);
    OneOrTwo(w, saves);
    assert [saves[0].event] + [saves[1].event] == [saves[0].event, saves[1].event];
  }
}
