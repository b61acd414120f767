/** What the checks before a commit are for, over every run: nothing larger than the maximum object size is ever
    committed, and a put that would be refused is refused before it stores anything. */
module Limits {
  import opened Basics
  import opened BucketModel
  import opened Mutations
  import opened History
  import opened Manifests
  import opened Multipart
  import opened Journal
  import opened Protocol
  import opened Safety
  import opened Guarantees

  // ---- the invariant ----

  predicate CallFits(call: Call, cap: u64) {
    match call
    case VerbCall(m) => !m.PutM?
    case PutCall(m, bytes, _) => m.PutM? && m.meta.size == |bytes| <= cap
    case PartCall(_, _, bytes) => |bytes| <= cap
    case CreateCall(_, upload) => ValidKey(upload.key) && ValidMetadata(upload.metadata)
    case _ => true
  }

  predicate EventFits(e: Event, cap: u64) {
    match e
    case Verbed(m) => m.PutM? ==> m.meta.size <= cap
    case Bound(_, _, _, m) => m.PutM? && m.meta.size <= cap
    case PartPut(_, _, bytes) => |bytes| <= cap
    case Created(_, upload) => ValidKey(upload.key) && ValidMetadata(upload.metadata)
    case _ => true
  }

  /** What is certain about a process's call by the time it has come to this phase: its body is within the limit; one
      that stores blobs has passed its checks; and what it means to save is within the limit. */
  ghost predicate ProcFits(proc: Proc, cap: u64) {
    match proc.phase
    case Waiting(call) => CallFits(call, cap)
    case Locked(call) => CallFits(call, cap)
    case Tabled(call, _) => CallFits(call, cap)
    case Storing(call, table, _) => CallFits(call, cap) && ChecksPassed(call, table, proc.mem, cap)
    case Saving(_, saves, _, _) => forall i :: 0 <= i < |saves| ==> EventFits(saves[i].event, cap)
    case _ => true
  }

  predicate ChecksPassed(call: Call, table: Uploads, mem: Buckets, cap: u64) {
    match call
    case PutCall(m, _, _) => Apply(m, mem).Ok?
    case PartCall(id, _, _) => id in table
    case CompleteCall(id, list, _) =>
      id in table && Assemble(table[id], list).Some? && Assemble(table[id], list).value.totalSize <= cap
    case _ => true
  }

  ghost predicate SomeoneAllows(caps: map<Pid, u64>, e: Event) {
    exists p :: p in caps && EventFits(e, caps[p])
  }

  ghost predicate Limited(s: State) {
    s.caps.Keys == s.procs.Keys + s.crashed
    && (forall p :: p in s.procs ==> ProcFits(s.procs[p], s.caps[p]))
    && forall i :: 0 <= i < |s.log| ==> SomeoneAllows(s.caps, s.log[i])
  }

  // ---- every step keeps it ----

  /** A step by which only one process moves. */
  lemma OwnStep(s: State, p: Pid, t: State)
    requires Limited(s) && p in s.procs && p in t.procs && ProcFits(t.procs[p], s.caps[p])
    requires t.procs == s.procs[p := t.procs[p]] && t.caps == s.caps && t.crashed == s.crashed
    requires t.log == s.log || (exists e :: t.log == s.log + [e] && EventFits(e, s.caps[p]))
    ensures Limited(t)
  {
    hide ProcFits, EventFits;
    forall i | 0 <= i < |t.log| ensures SomeoneAllows(t.caps, t.log[i]) {
      if i < |s.log| { assert SomeoneAllows(s.caps, s.log[i]); }
    }
  }

  lemma ReadFits(codec: Codec, s: State, p: Pid)
    requires Limited(s) && DoRead(codec, s, p).Some?
    ensures Limited(DoRead(codec, s, p).value)
  {
    hide Load, Apply, BlobsFor, Limited;
    FitsNow(s, p);
    OwnRead(codec, s, p);
    OwnStep(s, p, DoRead(codec, s, p).value);
  }

  lemma CheckFits(codec: Codec, s: State, p: Pid)
    requires Limited(s) && DoCheck(codec, s, p).Some?
    ensures Limited(DoCheck(codec, s, p).value)
  {
    hide Load, BlobsFor, Assemble, Multipart.Create, Multipart.Remove, Limited, ValidKey, ValidMetadata, Apply;
    FitsNow(s, p);
    OwnCheck(codec, s, p);
    OwnStep(s, p, DoCheck(codec, s, p).value);
  }

  lemma MutateFits(codec: Codec, s: State, p: Pid)
    requires Limited(s) && DoMutate(codec, s, p).Some?
    ensures Limited(DoMutate(codec, s, p).value)
  {
    hide Load, Apply, After, PartOf, NothingToSave, Assemble, Multipart.PutPart, Multipart.Remove, Limited, ValidKey,
         ValidMetadata;
    FitsNow(s, p);
    OwnMutate(codec, s, p);
    OwnStep(s, p, DoMutate(codec, s, p).value);
  }

  lemma RenameFits(s: State, p: Pid)
    requires Limited(s) && DoRename(s, p).Some?
    ensures Limited(DoRename(s, p).value)
  {
    hide Limited, EventFits;
    FitsNow(s, p);
    assert DoRename(s, p).value.log == s.log + [s.procs[p].phase.saves[0].event];
    OwnStep(s, p, DoRename(s, p).value);
  }

  lemma FitsNow(s: State, p: Pid)
    requires Limited(s) && p in s.procs
    ensures p in s.caps && Cap(s, p) == s.caps[p] && ProcFits(s.procs[p], s.caps[p])
  {
    hide ProcFits;
  }

  lemma OpenFits(s: State, p: Pid, cap: u64)
    requires Limited(s) && DoOpen(s, p, cap).Some?
    ensures Limited(DoOpen(s, p, cap).value)
  {
    hide EventFits;
    var t := DoOpen(s, p, cap).value;
    forall i | 0 <= i < |t.log| ensures SomeoneAllows(t.caps, t.log[i]) {
      assert SomeoneAllows(s.caps, s.log[i]);
      var q :| q in s.caps && EventFits(s.log[i], s.caps[q]);
      assert t.caps[q] == s.caps[q];
    }
  }

  lemma CrashFits(s: State, p: Pid)
    requires Limited(s) && DoCrash(s, p).Some?
    ensures Limited(DoCrash(s, p).value)
  {
    hide ProcFits, SomeoneAllows;
  }

  lemma StepFits(codec: Codec, s: State, step: Step)
    requires Limited(s) && Do(codec, s, step).Some?
    ensures Limited(Do(codec, s, step).value)
  {
    hide Load, Limited, DoOpen, DoInvoke, DoRead, DoCheck, DoMutate, DoRename, DoCrash, Apply, Assemble;
    match step
    case Open(p, cap) => OpenFits(s, p, cap);
    case Read(p) => ReadFits(codec, s, p);
    case Check(p) => CheckFits(codec, s, p);
    case Mutate(p) => MutateFits(codec, s, p);
    case Rename(p) => RenameFits(s, p);
    case Crash(p) => CrashFits(s, p);
    case Invoke(p, call) => InvokeFits(codec, s, p, call);
    case Reclaim(p) => SameFits(s, DoReclaim(s, p).value);
    case Foreign(bytes) => SameFits(s, DoForeign(codec, s, bytes).value);
    case _ => PlainFits(codec, s, step, step.p);
  }

  lemma InvokeFits(codec: Codec, s: State, p: Pid, call: Call)
    requires Limited(s) && DoInvoke(codec, s, p, call).Some?
    ensures Limited(DoInvoke(codec, s, p, call).value)
  {
    hide Limited, EventFits, ChecksPassed, ObjectCid, FreshUpload, ValidKey, ValidMetadata;
    FitsNow(s, p);
    OwnStep(s, p, DoInvoke(codec, s, p, call).value);
  }

  lemma SameFits(s: State, t: State)
    requires Limited(s) && t.procs == s.procs && t.caps == s.caps && t.crashed == s.crashed && t.log == s.log
    ensures Limited(t)
  {
  }

  /** The other steps change how far a call has come, and nothing about the call. */
  lemma PlainFits(codec: Codec, s: State, step: Step, p: Pid)
    requires Limited(s) && Do(codec, s, step).Some?
    requires step == GiveUp(p) || step == Acquire(p) || step == StoreBlob(p) || step == OpenTemp(p)
             || step == WriteTemp(p) || step == Fail(p) || step == Release(p)
    ensures Limited(Do(codec, s, step).value)
  {
    hide Limited, EventFits, CallFits, ChecksPassed, Admissible, Load, DoRead, DoCheck, DoMutate, DoRename;
    FitsNow(s, p);
    OwnStep(s, p, Do(codec, s, step).value);
  }

  lemma {:induction false} RunFits(codec: Codec, s: State, steps: seq<Step>)
    requires Limited(s) && Follow(codec, s, steps).Some?
    ensures Limited(Follow(codec, s, steps).value)
    decreases |steps|
  {
    hide Limited, Do;
    if steps != [] {
      StepFits(codec, s, steps[0]);
      RunFits(codec, Do(codec, s, steps[0]).value, steps[1..]);
    }
  }

  lemma ReachableFits(codec: Codec, s: State)
    requires Reachable(codec, s)
    ensures Limited(s)
  {
    hide Follow;
    var steps :| Follow(codec, Start, steps) == Some(s);
    RunFits(codec, Start, steps);
  }

  // ---- what follows ----

  /** A put that has come to store its blobs is not refused any more: its preconditions have been met by the
      committed index, which nobody else can change before it saves. */
  lemma StoringPutPasses(codec: Codec, s: State, p: Pid)
    requires codec.Lawful() && Reachable(codec, s) && p in s.procs
    requires s.procs[p].phase.Storing? && s.procs[p].phase.call.PutCall?
    ensures Apply(s.procs[p].phase.call.m, Fold(Verbs(s.log))).Ok?
    ensures s.procs[p].phase.todo == [] ==>
              DoMutate(codec, s, p).Some? && DoMutate(codec, s, p).value.procs[p].phase.Saving?
  {
    hide Reachable, Limited, Apply, Fold, Verbs, LogStored, FilesInv, BlobInv, AckInv, ProcsInv, Replay;
    ReachableFits(codec, s);
    FitsNow(s, p);
    ReachableOk(codec, s);
    IndexIsFold(codec, s.log);
  }

  ghost predicate WithinLimit(v: ObjectVersion, limit: u64) {
    v.meta.size <= limit
  }

  lemma LimitTolerant(limit: u64)
    ensures Tolerant(v => WithinLimit(v, limit))
  {
  }

  lemma NothingWithin(limit: u64)
    ensures Verbs([]) == [] && Fold([]) == map[] && AllVersions(Fold([]), v => WithinLimit(v, limit))
  {
  }

  /** Every version that the verbs of such a log leave behind, or ever bring in, is within the limit. */
  lemma {:induction false} VersionsWithin(log: seq<Event>, limit: u64)
    requires forall i :: 0 <= i < |log| ==> EventFits(log[i], limit)
    ensures AllVersions(Fold(Verbs(log)), v => WithinLimit(v, limit))
    decreases |log|
  {
    hide AllVersions, WithinLimit, Tolerant, After, EventFits;
    if log == [] {
      NothingWithin(limit);
    } else {
      var front, e := log[..|log| - 1], log[|log| - 1];
      VersionsWithin(front, limit);
      if e.Verbed? || e.Bound? {
        LimitTolerant(limit);
        PutWithin(e, limit);
        VersionsKept(e.m, Fold(Verbs(front)), v => WithinLimit(v, limit));
        assert Verbs(log) == Verbs(front) + [e.m];
        assert Verbs(log)[..|Verbs(log)| - 1] == Verbs(front);
      } else {
        assert Verbs(log) == Verbs(front);
      }
    }
  }

  lemma PutWithin(e: Event, limit: u64)
    requires (e.Verbed? || e.Bound?) && EventFits(e, limit)
    ensures e.m.PutM? ==> WithinLimit(ObjectVersion(e.m.meta, false), limit)
  {
  }

  lemma EventsWithin(s: State, limit: u64)
    requires Limited(s) && forall p :: p in s.caps ==> s.caps[p] <= limit
    ensures forall i :: 0 <= i < |s.log| ==> EventFits(s.log[i], limit)
  {
    forall i | 0 <= i < |s.log| ensures EventFits(s.log[i], limit) {
      assert SomeoneAllows(s.caps, s.log[i]);
    }
  }

  /** The maximum object size holds over every run of processes that share it: neither a version in the committed
      index, however it came there, nor a part in the committed table exceeds it. */
  lemma NothingOverLimit(codec: Codec, s: State, limit: u64)
    requires codec.Lawful() && Reachable(codec, s) && forall p :: p in s.caps ==> s.caps[p] <= limit
    ensures forall b, key, v :: b in Fold(Verbs(s.log)) && v in Versions(Fold(Verbs(s.log))[b], key) ==>
              v.meta.size <= limit
    ensures Replay(codec, s.log).Some?
    ensures forall id, num :: id in Replay(codec, s.log).value.uploads
                              && num in Replay(codec, s.log).value.uploads[id].parts ==>
              Replay(codec, s.log).value.uploads[id].parts[num].size <= limit
  {
    hide Reachable, Limited, Fold, Verbs, Replay, EventFits;
    ReachableFits(codec, s);
    EventsWithin(s, limit);
    VersionsWithin(s.log, limit);
    IndexIsOneHistory(codec, s);
    forall id, num | id in Replay(codec, s.log).value.uploads && num in Replay(codec, s.log).value.uploads[id].parts
      ensures Replay(codec, s.log).value.uploads[id].parts[num].size <= limit
    {
      PartWithin(codec, s.log, id, num, limit);
    }
  }

  lemma PartWithin(codec: Codec, log: seq<Event>, id: string, num: u32, limit: u64)
    requires forall i :: 0 <= i < |log| ==> EventFits(log[i], limit)
    requires Replay(codec, log).Some? && id in Replay(codec, log).value.uploads
    requires num in Replay(codec, log).value.uploads[id].parts
    ensures Replay(codec, log).value.uploads[id].parts[num].size <= limit
  {
    hide Replay;
    var j := PartFromLog(codec, log, id, num);
  }

  /** Every record in the committed table has a key and user metadata that the index takes: they were checked when
      the upload was created. */
  lemma RecordsValid(codec: Codec, s: State, id: string)
    requires codec.Lawful() && Reachable(codec, s)
    requires Replay(codec, s.log).Some? && id in Replay(codec, s.log).value.uploads
    ensures var upload := Replay(codec, s.log).value.uploads[id];
            ValidKey(upload.key) && ValidMetadata(upload.metadata)
  {
    hide Reachable, Limited, Replay, EventFits;
    ReachableFits(codec, s);
    EventsChecked(s);
    RecordValid(codec, s.log, id);
  }

  predicate Checked(e: Event) {
    e.Created? ==> ValidKey(e.upload.key) && ValidMetadata(e.upload.metadata)
  }

  lemma EventsChecked(s: State)
    requires Limited(s)
    ensures forall i :: 0 <= i < |s.log| ==> Checked(s.log[i])
  {
    hide ProcFits;
    forall i | 0 <= i < |s.log| ensures Checked(s.log[i]) { assert SomeoneAllows(s.caps, s.log[i]); }
  }

  lemma {:induction false} RecordValid(codec: Codec, log: seq<Event>, id: string)
    requires forall i :: 0 <= i < |log| ==> Checked(log[i])
    requires Replay(codec, log).Some? && id in Replay(codec, log).value.uploads
    ensures var upload := Replay(codec, log).value.uploads[id];
            ValidKey(upload.key) && ValidMetadata(upload.metadata)
    decreases |log|
  {
    hide Effect, ValidKey, ValidMetadata;
    var front, e := log[..|log| - 1], log[|log| - 1];
    var w := Replay(codec, front).value;
    EffectOnRecord(codec, e, w, id);
    if id in w.uploads {
      RecordValid(codec, front, id);
    }
  }

  /** A commit leaves the key and metadata of a record as they were, or makes the record. */
  lemma EffectOnRecord(codec: Codec, e: Event, w: World, id: string)
    requires Effect(codec, e, w).Some? && id in Effect(codec, e, w).value.uploads
    ensures var upload := Effect(codec, e, w).value.uploads[id];
            if id in w.uploads then upload.key == w.uploads[id].key && upload.metadata == w.uploads[id].metadata
            else e.Created? && e.upload == upload
  {
    hide Apply, After, CompletionPut, PartOf;
  }
}
