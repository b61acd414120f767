/** What the commit protocol promises over every run: every interleaving of any number of processes, with
    failures and crashes between any two steps. */
module Guarantees {
  import opened Basics
  import opened Text
  import opened BucketModel
  import opened Mutations
  import opened History
  import opened Manifests
  import opened ObjectReads
  import opened Multipart
  import opened Journal
  import opened Protocol
  import opened Safety

  lemma StepKeeps(codec: Codec, s: State, step: Step)
    requires codec.Lawful() && Inv(codec, s) && Do(codec, s, step).Some?
    ensures Inv(codec, Do(codec, s, step).value)
  {
    hide Inv, DoOpen, DoInvoke, DoAcquire, DoGiveUp, DoReclaim, DoRead, DoCheck, DoStore, DoMutate, DoOpenTemp,
         DoWriteTemp, DoRename, DoFail, DoRelease, DoCrash, DoForeign;
    match step
    case Open(p, cap) => OpenKeeps(codec, s, p, cap);
    case Invoke(p, call) => InvokeKeeps(codec, s, p, call);
    case Acquire(p) => AcquireKeeps(codec, s, p);
    case GiveUp(p) => GiveUpKeeps(codec, s, p);
    case Reclaim(p) => ReclaimKeeps(codec, s, p);
    case Read(p) => ReadKeeps(codec, s, p);
    case Check(p) => CheckKeeps(codec, s, p);
    case StoreBlob(p) => StoreKeeps(codec, s, p);
    case Mutate(p) => MutateKeeps(codec, s, p);
    case OpenTemp(p) => OpenTempKeeps(codec, s, p);
    case WriteTemp(p) => WriteTempKeeps(codec, s, p);
    case Rename(p) => RenameKeeps(codec, s, p);
    case Fail(p) => FailKeeps(codec, s, p);
    case Release(p) => ReleaseKeeps(codec, s, p);
    case Crash(p) => CrashKeeps(codec, s, p);
    case Foreign(bytes) => ForeignKeeps(codec, s, bytes);
  }

  lemma {:induction false} RunKeeps(codec: Codec, s: State, steps: seq<Step>)
    requires codec.Lawful() && Inv(codec, s) && Follow(codec, s, steps).Some?
    ensures Inv(codec, Follow(codec, s, steps).value)
    decreases |steps|
  {
    hide Inv, Do;
    if steps != [] {
      StepKeeps(codec, s, steps[0]);
      RunKeeps(codec, Do(codec, s, steps[0]).value, steps[1..]);
    }
  }

  lemma ReachableOk(codec: Codec, s: State)
    requires codec.Lawful() && Reachable(codec, s)
    ensures Inv(codec, s)
  {
    hide Inv, Follow;
    var steps :| Follow(codec, Start, steps) == Some(s);
    StartOk(codec);
    RunKeeps(codec, Start, steps);
  }

  // ---- exclusion, and one sequential history ----

  /** At most one process is past its acquire, and the lock file on disk is its own. */
  lemma MutualExclusion(codec: Codec, s: State, p: Pid, q: Pid)
    requires codec.Lawful() && Reachable(codec, s) && p in s.procs && q in s.procs
    requires s.procs[p].phase.Holds() && s.procs[q].phase.Holds()
    ensures p == q && s.lock == Some(p)
  {
    ReachableOk(codec, s);
  }

  /** In every reachable state the index file is one complete index: the fold, in commit order, of verbs
      each of which succeeded on the index it found. */
  lemma IndexIsOneHistory(codec: Codec, s: State)
    requires codec.Lawful() && Reachable(codec, s)
    ensures FileIs(s.index, Fold(Verbs(s.log))) && Committed(Verbs(s.log))
    ensures Replay(codec, s.log).Some? && FileIs(s.table, Replay(codec, s.log).value.uploads)
  {
    hide Reachable, FileIs;
    ReachableOk(codec, s);
    IndexIsFold(codec, s.log);
  }

  ghost predicate Extends(a: State, b: State) {
    a.log <= b.log && a.acks <= b.acks
  }

  lemma StepExtends(codec: Codec, s: State, step: Step)
    requires Do(codec, s, step).Some?
    ensures Extends(s, Do(codec, s, step).value)
  {
    hide DoRead, DoCheck, DoMutate, Load, Admissible, Cap;
    match step
    case Read(p) => OwnRead(codec, s, p);
    case Check(p) => OwnCheck(codec, s, p);
    case Mutate(p) => OwnMutate(codec, s, p);
    case _ =>
  }

  /** Commits and acknowledgements are never undone. */
  lemma {:induction false} HistoryGrows(codec: Codec, s: State, steps: seq<Step>, t: State)
    requires Follow(codec, s, steps) == Some(t)
    ensures Extends(s, t)
    decreases |steps|
  {
    hide Do;
    if steps != [] {
      StepExtends(codec, s, steps[0]);
      HistoryGrows(codec, Do(codec, s, steps[0]).value, steps[1..], t);
    }
  }

  /** No lost updates: the `k`th call to return success has its commit in the log that the files replay,
      and later successes have later commits of their own. */
  lemma NoLostUpdates(codec: Codec, s: State, k: nat)
    requires codec.Lawful() && Reachable(codec, s) && k < |s.acks|
    ensures s.acks[k].at < |s.log| && Answers(s.acks[k].call, s.log[s.acks[k].at])
    ensures forall j :: k < j < |s.acks| ==> s.acks[k].at < s.acks[j].at
    ensures FileIs(s.index, Fold(Verbs(s.log)))
  {
    hide Reachable, FileIs;
    ReachableOk(codec, s);
    IndexIsOneHistory(codec, s);
  }

  // ---- in-memory indexes ----

  /** Every in-memory index is the index after some prefix of the commits, or that and the one verb whose
      save has not happened; it then is that prefix's index exactly when the verb changed nothing. */
  lemma MemoryIsHistory(codec: Codec, s: State, p: Pid)
    requires codec.Lawful() && Reachable(codec, s) && p in s.procs
    ensures var proc := s.procs[p];
            proc.origin.n <= |s.log|
            && var index := Fold(Verbs(s.log[..proc.origin.n]));
            (proc.origin.Unsaved? ==> Apply(proc.origin.m, index) == Ok(proc.mem))
            && (proc.mem == index <==> proc.origin.FromFile? || Apply(proc.origin.m, index) == Ok(index))
  {
    hide Reachable, Apply;
    ReachableOk(codec, s);
    assert ProcInv(codec, s.blobs, s.log, s.procs[p]);
    IndexIsFold(codec, s.log[..s.procs[p].origin.n]);
  }

  /** When a verb that loads the index returns success, its process holds the committed index itself. */
  lemma MemoryIsCurrent(codec: Codec, s: State, p: Pid)
    requires codec.Lawful() && Reachable(codec, s) && p in s.procs
    requires s.procs[p].phase.Releasing? && s.procs[p].phase.ack.Some? && s.procs[p].phase.ack.value.call.LoadsIndex()
    ensures DoRelease(s, p).Some? && DoRelease(s, p).value.procs[p].mem == Fold(Verbs(s.log))
  {
    hide Reachable;
    ReachableOk(codec, s);
    IndexIsFold(codec, s.log);
    assert HolderOk(codec, s, p);
  }

  // ---- what commits name stays readable ----

  /** An index that a reader may consult: the committed one, or the one some process has in memory. */
  ghost predicate Consulted(s: State, index: Buckets) {
    index == Fold(Verbs(s.log)) || exists p :: p in s.procs && s.procs[p].mem == index
  }

  lemma MemoryResolves(codec: Codec, s: State, p: Pid)
    requires Inv(codec, s) && p in s.procs
    ensures AllVersions(s.procs[p].mem, v => VersionResolves(codec, s.blobs, v))
  {
    hide AllVersions, Resolves, Replay, Apply, After, FileIs, Tolerant, HolderInv, AckInv, CallOk, EventStored;
    var proc := s.procs[p];
    assert ProcInv(codec, s.blobs, s.log, proc);
    var before := s.log[..proc.origin.n];
    assert LogStored(codec, s.blobs, before);
    VersionsResolve(codec, s.blobs, before);
    if proc.origin.Unsaved? {
      var index := Replay(codec, before).value.index;
      ResolvesTolerant(codec, s.blobs);
      VersionsKept(proc.origin.m, index, v => VersionResolves(codec, s.blobs, v));
      AfterIsApply(proc.origin.m, index);
    }
  }

  /** Every live version that a reader may find, in the index file or in any process's memory, stale or unsaved
      as that may be, can be read back: some bytes of its recorded size are what a whole read returns, and every
      ranged read returns its slice of them. */
  lemma EveryVersionReads(codec: Codec, s: State, index: Buckets, bucket: Str, key: Str, v: ObjectVersion)
    returns (bytes: Bytes)
    requires codec.Lawful() && Reachable(codec, s) && Consulted(s, index)
    requires bucket in index && v in Versions(index[bucket], key) && !v.isDeleteMarker
    ensures |bytes| == v.meta.size && ReadsAs(codec, s.blobs, v.meta.cid, bytes)
  {
    hide Reachable, ReadsAs, Stored, LogStored, Replay, FileIs;
    ReachableOk(codec, s);
    if index == Fold(Verbs(s.log)) {
      IndexIsFold(codec, s.log);
      VersionsResolve(codec, s.blobs, s.log);
    } else {
      var p :| p in s.procs && s.procs[p].mem == index;
      MemoryResolves(codec, s, p);
    }
    VersionIn(index, bucket, key, v, u => VersionResolves(codec, s.blobs, u));
    bytes :| |bytes| == v.meta.size && Stored(codec, s.blobs, v.meta.cid, bytes);
    StoredReads(codec, s.blobs, v.meta.cid, bytes);
  }

  /** Bytes are determined by the content id they are stored under. */
  lemma PutIsStored(codec: Codec, blobs: Blobs, call: Call)
    requires codec.Lawful() && call.PutCall? && Admissible(codec, call)
    requires Resolves(codec, blobs, call.m.meta.cid, call.m.meta.size)
    ensures Stored(codec, blobs, call.m.meta.cid, call.bytes)
  {
    hide Chunks, Cids, Holds, HoldsAll;
    var cid := call.m.meta.cid;
    if call.placement.Chunked? { PrintedParses(codec, ManifestOf(codec, call.bytes, call.placement.cs)); }
    var other :| |other| == call.m.meta.size && Stored(codec, blobs, cid, other);
    if !StoredInline(codec, blobs, cid, other) {
      var cs: u64 :| StoredByManifest(codec, blobs, cid, other, cs);
      PrintedParses(codec, ManifestOf(codec, other, cs));
      if call.placement.Chunked? { SameManifest(codec, call.bytes, call.placement.cs, other, cs); }
    }
  }

  lemma PrintedParses(codec: Codec, m: Manifest)
    requires codec.Lawful()
    ensures codec.parse(codec.encode(m)) == Some(m)
  {
  }

  lemma SameManifest(codec: Codec, a: Bytes, cs: u64, b: Bytes, ds: u64)
    requires codec.Lawful() && 0 < cs && 0 < ds && |a| < U64_LIMIT && |b| < U64_LIMIT
    requires codec.cid(codec.encode(ManifestOf(codec, a, cs))) == codec.cid(codec.encode(ManifestOf(codec, b, ds)))
    ensures a == b && cs == ds
  {
    hide Chunks, Cids;
    var m, n := ManifestOf(codec, a, cs), ManifestOf(codec, b, ds);
    assert codec.parse(codec.encode(m)) == Some(m) && codec.parse(codec.encode(n)) == Some(n);
    ManifestPinsBytes(codec, a, b, cs);
  }

  /** Whatever a put that returned success stored can be read back, from then on. */
  lemma PutReadsBack(codec: Codec, s: State, k: nat)
    requires codec.Lawful() && Reachable(codec, s) && k < |s.acks| && s.acks[k].call.PutCall?
    ensures s.acks[k].call.m.PutM?
    ensures ReadsAs(codec, s.blobs, s.acks[k].call.m.meta.cid, s.acks[k].call.bytes)
  {
    hide Reachable, ReadsAs, Stored, Resolves, Replay, FileIs;
    ReachableOk(codec, s);
    assert EventStored(codec, s.blobs, s.log[s.acks[k].at]);
    PutIsStored(codec, s.blobs, s.acks[k].call);
    StoredReads(codec, s.blobs, s.acks[k].call.m.meta.cid, s.acks[k].call.bytes);
  }

  /** A completion that returned success bound an object that reads as the concatenation of the parts that
      its list cites by ETag. */
  lemma CompletionReadsBack(codec: Codec, s: State, k: nat) returns (puts: seq<nat>, contents: seq<Bytes>)
    requires codec.Lawful() && Reachable(codec, s) && k < |s.acks| && s.acks[k].call.CompleteCall?
    ensures var call, at := s.acks[k].call, s.acks[k].at;
            at < |s.log| && s.log[at].Bound? && s.log[at].m.PutM?
            && |puts| == |contents| == |call.list|
            && (forall x :: 0 <= x < |contents| ==>
                  Supplies(codec, s.log[..at], puts[x], call.id, call.list[x], contents[x]))
            && ReadsAs(codec, s.blobs, s.log[at].m.meta.cid, Join(contents))
            && Head(Fold(Verbs(s.log[..at + 1])), s.log[at].m.bucket, s.log[at].m.key) == Ok(s.log[at].m.meta)
  {
    hide Reachable, ReadsAs, Stored, Resolves, Replay, FileIs, Supplies, Join, After, Apply, Assemble, ManifestOf;
    ReachableOk(codec, s);
    var at := s.acks[k].at;
    puts, contents := CompletionPins(codec, s.log, at);
    assert EventStored(codec, s.blobs, s.log[at]);
    var w := WorldAt(codec, s.log, at);
    BoundIsHead(s.log[at].m, w.index);
    IndexIsFold(codec, s.log[..at + 1]);
    AssembledStored(codec, s.blobs, s.log[at].m.meta.cid, s.log[at].m.meta.size, Join(contents));
    StoredReads(codec, s.blobs, s.log[at].m.meta.cid, Join(contents));
  }

  lemma AssembledStored(codec: Codec, blobs: Blobs, cid: string, size: u64, bytes: Bytes)
    requires codec.Lawful() && |bytes| < U64_LIMIT && Resolves(codec, blobs, cid, size)
    requires cid == codec.cid(codec.encode(ManifestOf(codec, bytes, DEFAULT_PART_CHUNK)))
    ensures Stored(codec, blobs, cid, bytes)
  {
    hide Chunks, Cids, Holds, HoldsAll;
    var other :| |other| == size && Stored(codec, blobs, cid, other);
    PrintedParses(codec, ManifestOf(codec, bytes, DEFAULT_PART_CHUNK));
    if !StoredInline(codec, blobs, cid, other) {
      var cs: u64 :| StoredByManifest(codec, blobs, cid, other, cs);
      SameManifest(codec, bytes, DEFAULT_PART_CHUNK, other, cs);
    }
  }

  /** In every run, an upload record leaves its table only by an abort or right after its object is bound. */
  lemma UploadLeaves(codec: Codec, s: State, i: nat, id: string)
    requires codec.Lawful() && Reachable(codec, s) && i < |s.log| && Replay(codec, s.log).Some?
    requires id in WorldAt(codec, s.log, i).uploads && id !in WorldAt(codec, s.log, i + 1).uploads
    ensures s.log[i] == Aborted(id)
            || (s.log[i] == Finished(id) && i > 0 && s.log[i - 1].Bound? && s.log[i - 1].id == id
                && var upload := WorldAt(codec, s.log, i).uploads[id];
                Head(WorldAt(codec, s.log, i).index, upload.bucket, upload.key) == Ok(s.log[i - 1].m.meta))
  {
    hide Reachable, Replay;
    ReachableOk(codec, s);
    RecordLeaves(codec, s.log, i, id);
  }

  // ---- conditional puts, across processes ----

  lemma {:induction false} VerbsConcat(a: seq<Event>, b: seq<Event>)
    ensures Verbs(a + b) == Verbs(a) + Verbs(b)
  {
    if b == [] {
      assert a + b == a;
    } else {
      assert (a + b)[..|a + b| - 1] == a + b[..|b| - 1];
      VerbsConcat(a, b[..|b| - 1]);
    }
  }

  /** The place among the verbs of a commit to the index. */
  lemma VerbAt(log: seq<Event>, at: nat)
    requires at < |log| && (log[at].Verbed? || log[at].Bound?)
    ensures var i := |Verbs(log[..at])|;
            i < |Verbs(log)| && Verbs(log)[i] == log[at].m && Verbs(log)[..i] == Verbs(log[..at])
            && Verbs(log[..at + 1]) == Verbs(log)[..i + 1]
  {
    hide Verbs;
    VerbsConcat(log[..at + 1], log[at + 1..]);
    VerbsConcat(log[..at], [log[at]]);
    assert log[..at + 1] == log[..at] + [log[at]] && log == log[..at + 1] + log[at + 1..];
    OneVerb(log[at]);
  }

  lemma OneVerb(e: Event)
    ensures Verbs([e]) == if e.Verbed? || e.Bound? then [e.m] else []
  {
    assert [e][..0] == [];
  }

  lemma VerbsBefore(log: seq<Event>, i: nat, j: nat)
    requires i < j < |log| && (log[i].Verbed? || log[i].Bound?)
    ensures |Verbs(log[..i])| < |Verbs(log[..j])|
  {
    hide Verbs;
    VerbAt(log[..j], i);
    assert log[..j][..i] == log[..i];
  }

  /** Between two puts with `If-None-Match: *` on one key that both returned success, in whatever processes,
      some committed verb hid or removed that key. */
  lemma WriteOnceAcrossProcesses(codec: Codec, s: State, j: nat, k: nat, bucket: Str, key: Str) returns (i: nat)
    requires codec.Lawful() && Reachable(codec, s) && j < k < |s.acks|
    requires s.acks[j].call.PutCall? && IsWriteOnce(s.acks[j].call.m, bucket, key)
    requires s.acks[k].call.PutCall? && IsWriteOnce(s.acks[k].call.m, bucket, key)
    ensures s.acks[j].at < s.acks[k].at < |s.log|
    ensures |Verbs(s.log[..s.acks[j].at])| < i < |Verbs(s.log[..s.acks[k].at])| <= |Verbs(s.log)|
    ensures Hides(Verbs(s.log)[i], Fold(Verbs(s.log)[..i]), bucket, key)
  {
    hide Reachable, Replay, Verbs, Fold, Hides, IsWriteOnce, Committed, FileIs;
    NoLostUpdates(codec, s, j);
    NoLostUpdates(codec, s, k);
    IndexIsOneHistory(codec, s);
    var a, b := s.acks[j].at, s.acks[k].at;
    VerbAt(s.log, a);
    VerbAt(s.log, b);
    VerbsBefore(s.log, a, b);
    i := WriteOnce(Verbs(s.log), |Verbs(s.log[..a])|, |Verbs(s.log[..b])|, bucket, key);
  }

  /** A put with `If-Match: e` that returned success committed directly over an object whose ETag is `e`. */
  lemma IfMatchAcrossProcesses(codec: Codec, s: State, k: nat)
    requires codec.Lawful() && Reachable(codec, s) && k < |s.acks| && s.acks[k].call.PutCall?
    requires var m := s.acks[k].call.m; m.PutM? && m.pre.ifMatch.Some? && m.pre.ifMatch.value != "*"
    ensures var m, at := s.acks[k].call.m, s.acks[k].at;
            at < |s.log|
            && var found := Head(Fold(Verbs(s.log[..at])), m.bucket, m.key);
            found.Ok? && found.value.etag == TrimBoth(m.pre.ifMatch.value, IsQuote)
  {
    hide Reachable, Replay, Verbs, Fold, Committed, FileIs, Head, TrimBoth;
    NoLostUpdates(codec, s, k);
    IndexIsOneHistory(codec, s);
    VerbAt(s.log, s.acks[k].at);
    IfMatchIsCurrent(Verbs(s.log), |Verbs(s.log[..s.acks[k].at])|);
  }

  // ---- what is put stays, across processes ----

  /** No content id has the form of a delete marker's version id. */
  ghost predicate NoMarkerCids(codec: Codec) {
    forall bytes :: !IsMarkerId(codec.cid(bytes))
  }

  lemma EventGood(codec: Codec, blobs: Blobs, e: Event)
    requires NoMarkerCids(codec) && EventStored(codec, blobs, e) && (e.Verbed? || e.Bound?)
    ensures GoodMutation(e.m)
  {
    hide Holds, HoldsAll, Chunks, Cids, IsMarkerId;
    if e.m.PutM? {
      var bytes :| |bytes| == e.m.meta.size && Stored(codec, blobs, e.m.meta.cid, bytes);
      if !StoredInline(codec, blobs, e.m.meta.cid, bytes) {
        var cs: u64 :| StoredByManifest(codec, blobs, e.m.meta.cid, bytes, cs);
      }
    }
  }

  lemma {:induction false} VerbsGood(codec: Codec, blobs: Blobs, log: seq<Event>)
    requires NoMarkerCids(codec) && LogStored(codec, blobs, log)
    ensures forall m :: m in Verbs(log) ==> GoodMutation(m)
    ensures GoodIndex(Fold(Verbs(log)))
  {
    hide NoMarkerCids, EventStored, GoodMutation, GoodIndex, After;
    if log == [] {
      NothingGood();
    } else {
      var front, e := log[..|log| - 1], log[|log| - 1];
      forall i | 0 <= i < |front| ensures EventStored(codec, blobs, front[i]) { assert front[i] == log[i]; }
      VerbsGood(codec, blobs, front);
      if e.Verbed? || e.Bound? {
        EventGood(codec, blobs, e);
        GoodKept(e.m, Fold(Verbs(front)));
        assert Verbs(log) == Verbs(front) + [e.m];
        assert Verbs(log)[..|Verbs(log)| - 1] == Verbs(front);
      } else {
        assert Verbs(log) == Verbs(front);
      }
    }
  }

  lemma NothingGood()
    ensures Verbs([]) == [] && Fold([]) == map[] && GoodIndex(map[])
  {
  }

  lemma {:induction false} FoldRun(a: seq<Mutation>, b: seq<Mutation>)
    ensures Fold(a + b) == Run(Fold(a), b)
  {
    hide After;
    if b == [] {
      assert a + b == a;
    } else {
      assert (a + b)[..|a + b| - 1] == a + b[..|b| - 1];
      FoldRun(a, b[..|b| - 1]);
    }
  }

  /** A put that returned success on a versioned bucket stays retrievable by its content id, with its bytes,
      however many processes go on working, until some verb suspends versioning, removes the bucket or
      deletes that version. */
  lemma PutSurvives(codec: Codec, s: State, k: nat)
    requires codec.Lawful() && NoMarkerCids(codec) && Reachable(codec, s)
    requires k < |s.acks| && s.acks[k].call.PutCall? && s.acks[k].call.m.PutM?
    requires var m, at := s.acks[k].call.m, s.acks[k].at;
             at < |s.log| && VersionedAt(Fold(Verbs(s.log[..at + 1])), m.bucket)
             && forall later :: later in Verbs(s.log[at + 1..]) ==> KeepsVersion(later, m.bucket, m.key, m.meta.cid)
    ensures var m := s.acks[k].call.m;
            var found := HeadVersion(Fold(Verbs(s.log)), m.bucket, m.key, m.meta.cid);
            found.Ok? && found.value.cid == m.meta.cid
            && ReadsAs(codec, s.blobs, found.value.cid, s.acks[k].call.bytes)
  {
    hide Reachable, Replay, Verbs, Fold, FileIs, ReadsAs, GoodIndex, GoodMutation, KeepsVersion, Run, Apply,
         After, HeadVersion, NoMarkerCids, EventStored, VersionedAt, IsMarkerId;
    var m, at := s.acks[k].call.m, s.acks[k].at;
    PutReadsBack(codec, s, k);
    ReachableOk(codec, s);
    IndexIsOneHistory(codec, s);
    var rest := s.log[at + 1..];
    assert s.log == s.log[..at + 1] + rest;
    VerbsConcat(s.log[..at + 1], rest);
    FoldRun(Verbs(s.log[..at + 1]), Verbs(rest));
    VerbsGood(codec, s.blobs, s.log[..at]);
    VerbsGood(codec, s.blobs, s.log[..at + 1]);
    VerbsGood(codec, s.blobs, rest);
    EventGood(codec, s.blobs, s.log[at]);
    VerbAt(s.log, at);
    FoldStep(Verbs(s.log), |Verbs(s.log[..at])|);
    GoodPutMeta(m);
    PutIsCurrent(Fold(Verbs(s.log[..at])), m.bucket, m.key, m.meta, m.pre);
    VersionsSurvive(Fold(Verbs(s.log[..at + 1])), Verbs(rest), m.bucket, m.key, m.meta.cid);
  }

  lemma GoodPutMeta(m: Mutation)
    requires m.PutM? && GoodMutation(m)
    ensures GoodMeta(m.meta) && !IsMarkerId(m.meta.cid)
  {
  }
}
