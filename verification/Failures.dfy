/** What an error means: what a call that returns without an acknowledged commit has done to memory and to
    the files, in every run. */
module Failures {
  import opened Basics
  import opened BucketModel
  import opened Mutations
  import opened History
  import opened Manifests
  import opened Multipart
  import opened Journal
  import opened Protocol
  import opened Safety
  import opened Guarantees

  /** The step makes the call of process `p` return without an acknowledged commit: a check refused it, something
      failed, or it is a sweep that found nothing expired, which succeeds and has nothing to commit. */
  ghost predicate Errs(codec: Codec, s: State, p: Pid, step: Step, t: State) {
    p in s.procs && s.procs[p].phase.Holds() && !s.procs[p].phase.Releasing?
    && Do(codec, s, step) == Some(t) && p in t.procs && t.procs[p].phase == Releasing(None)
  }

  /** The process a step belongs to, if any. */
  function Actor(step: Step): Option<Pid> {
    if step.Foreign? then None else Some(step.p)
  }

  lemma OthersKeepPhase(codec: Codec, s: State, p: Pid, step: Step)
    requires Do(codec, s, step).Some? && Actor(step) != Some(p) && p in s.procs
    ensures p in Do(codec, s, step).value.procs && Do(codec, s, step).value.procs[p] == s.procs[p]
  {
    hide Load, Admissible, DoRead, DoCheck, DoMutate;
    match step
    case Read(q) => OwnRead(codec, s, q);
    case Check(q) => OwnCheck(codec, s, q);
    case Mutate(q) => OwnMutate(codec, s, q);
    case _ =>
  }

  lemma ErrsOwn(codec: Codec, s: State, p: Pid, step: Step, t: State)
    requires Errs(codec, s, p, step, t)
    ensures step == Fail(p) || step == Read(p) || step == Check(p) || step == Mutate(p)
  {
    hide Load, Admissible, DoRead, DoCheck, DoMutate, DoFail, DoForeign;
    if Actor(step) != Some(p) { OthersKeepPhase(codec, s, p, step); }
  }

  /** Such a step is the process's own and leaves log and files alone. */
  lemma ErrsLocally(codec: Codec, s: State, p: Pid, step: Step, t: State)
    requires Errs(codec, s, p, step, t)
    ensures step == Fail(p) || step == Read(p) || step == Check(p) || step == Mutate(p)
    ensures t.log == s.log && t.index == s.index && t.table == s.table && t.since == s.since
  {
    hide DoRead, DoCheck, DoMutate;
    ErrsOwn(codec, s, p, step, t);
    match step
    case Read(_) => OwnRead(codec, s, p);
    case Check(_) => OwnCheck(codec, s, p);
    case Mutate(_) => OwnMutate(codec, s, p);
    case Fail(_) =>
  }

  /** By the end of the step, the call has reloaded the index. */
  ghost predicate ReloadedBy(phase: Phase, step: Step) {
    match phase
    case Locked(call) => step.Read? && !call.UsesTable()
    case Tabled(call, _) => step.Check? && call.CreateCall?
    case Storing(call, _, _) => !call.UsesTable() || (step.Mutate? && call.CompleteCall?)
    case Saving(call, _, _, _) => call.LoadsIndex()
    case _ => false
  }

  /** The process has applied a verb in memory and means to save the index. */
  ghost predicate MidSave(phase: Phase) {
    phase.Saving? && phase.saves != [] && phase.saves[0].contents.IndexContents?
  }

  /** The step fails a save of the index that was not made yet. */
  ghost predicate LosesSave(phase: Phase, step: Step) {
    step.Fail? && MidSave(phase)
  }

  /** What memory holds when a call returns an error, or a sweep returns with nothing to do. A call that has not
      reloaded the index leaves memory as it was. One that has leaves the committed index there, unless the step
      that failed was saving it: then the verb stays applied, and memory is the committed index exactly when the
      verb changes nothing. */
  lemma MemoryAfterError(codec: Codec, s: State, p: Pid, step: Step, t: State)
    requires codec.Lawful() && Reachable(codec, s) && Errs(codec, s, p, step, t)
    ensures var phase, mem, index := s.procs[p].phase, t.procs[p].mem, Fold(Verbs(t.log));
            if LosesSave(phase, step) then
              (phase.saves[0].event.Verbed? || phase.saves[0].event.Bound?)
              && var m := phase.saves[0].event.m;
              Apply(m, index) == Ok(mem) && (mem == index <==> Apply(m, index) == Ok(index))
              && (phase.call.VerbCall? || phase.call.PutCall? ==> m == phase.call.m)
            else if ReloadedBy(phase, step) then mem == index
            else mem == s.procs[p].mem
  {
    hide Reachable, Inv, Errs, HolderOk, Fold, Verbs, Apply, DoRead, DoCheck, DoMutate, DoFail;
    ReachableOk(codec, s);
    ErrsLocally(codec, s, p, step, t);
    ErrsMeans(codec, s, p, step, t);
    IndexNow(codec, s);
    match step
    case Fail(_) => MemoryAfterFail(codec, s, p);
    case Read(_) => MemoryAfterRead(codec, s, p);
    case Check(_) => MemoryAfterCheck(codec, s, p);
    case Mutate(_) => MemoryAfterMutate(codec, s, p);
  }

  lemma ErrsMeans(codec: Codec, s: State, p: Pid, step: Step, t: State)
    requires Errs(codec, s, p, step, t)
    ensures p in s.procs && s.procs[p].phase.Holds() && !s.procs[p].phase.Releasing?
    ensures Do(codec, s, step) == Some(t) && p in t.procs && t.procs[p].phase == Releasing(None)
  {
  }

  lemma IndexNow(codec: Codec, s: State)
    requires Inv(codec, s)
    ensures Replay(codec, s.log).Some? && Load(s.index) == Some(Fold(Verbs(s.log)))
    ensures Replay(codec, s.log).value.index == Fold(Verbs(s.log))
  {
    hide LockInv, BlobInv, AckInv, ProcsInv, HolderInv, Replay, Ordered, Fold, Verbs;
    LoadIsFile(s.index, Replay(codec, s.log).value.index);
    IndexIsFold(codec, s.log);
  }

  lemma MemoryAfterFail(codec: Codec, s: State, p: Pid)
    requires Inv(codec, s) && DoFail(s, p).Some?
    ensures var phase, t, index := s.procs[p].phase, DoFail(s, p).value, Replay(codec, s.log).value.index;
            t.procs[p].mem == s.procs[p].mem
            && (LosesSave(phase, Fail(p)) ==>
                  (phase.saves[0].event.Verbed? || phase.saves[0].event.Bound?)
                  && Apply(phase.saves[0].event.m, index) == Ok(s.procs[p].mem)
                  && (phase.call.VerbCall? || phase.call.PutCall? ==> phase.saves[0].event.m == phase.call.m))
            && (!LosesSave(phase, Fail(p)) && ReloadedBy(phase, Fail(p)) ==> s.procs[p].mem == index)
  {
    hide Inv, Replay, Apply, After, Sourced, SavesOk, EventStored, StoredOrDue, BlobsFor, InTemp, AckNext;
    HolderFacts(codec, s, p);
    if LosesSave(s.procs[p].phase, Fail(p)) { SavedVerb(codec, s, p); }
    if s.procs[p].phase.Saving? { SavesNonempty(codec, s, p); }
  }

  lemma SavesNonempty(codec: Codec, s: State, p: Pid)
    requires Inv(codec, s) && p in s.procs && s.procs[p].phase.Saving?
    ensures s.procs[p].phase.saves != []
  {
    hide Inv, Replay, Sourced, EventStored, AckNext, Effect;
    HolderFacts(codec, s, p);
  }

  lemma MemoryAfterRead(codec: Codec, s: State, p: Pid)
    requires Inv(codec, s) && DoRead(codec, s, p).Some?
    requires p in DoRead(codec, s, p).value.procs
    requires DoRead(codec, s, p).value.procs[p].phase == Releasing(None)
    ensures s.procs[p].phase.Locked? && !s.procs[p].phase.call.UsesTable()
    ensures DoRead(codec, s, p).value.procs[p].mem == Replay(codec, s.log).value.index
  {
    hide Inv, Replay, Apply, BlobsFor, Load, HolderOk, Sourced;
    HolderFacts(codec, s, p);
  }

  lemma MemoryAfterCheck(codec: Codec, s: State, p: Pid)
    requires Inv(codec, s) && DoCheck(codec, s, p).Some?
    requires p in DoCheck(codec, s, p).value.procs
    requires DoCheck(codec, s, p).value.procs[p].phase == Releasing(None)
    ensures s.procs[p].phase.Tabled?
    ensures DoCheck(codec, s, p).value.procs[p].mem
         == if s.procs[p].phase.call.CreateCall? then Replay(codec, s.log).value.index else s.procs[p].mem
  {
    hide Inv, Replay, BlobsFor, Load, HolderOk, Sourced, Multipart.Create, Assemble, Multipart.Remove, LogStored,
         Honest, CallOk, OriginStored, Cap;
    HolderFacts(codec, s, p);
    if s.procs[p].phase.call.CreateCall? { CreateLoads(codec, s, p); } else { CheckKeepsMemory(codec, s, p); }
  }

  lemma CreateLoads(codec: Codec, s: State, p: Pid)
    requires DoCheck(codec, s, p).Some? && s.procs[p].phase.call.CreateCall? && Load(s.index).Some?
    ensures p in DoCheck(codec, s, p).value.procs && DoCheck(codec, s, p).value.procs[p].mem == Load(s.index).value
  {
    hide Load, BlobsFor, Multipart.Create;
  }

  lemma CheckKeepsMemory(codec: Codec, s: State, p: Pid)
    requires DoCheck(codec, s, p).Some? && !s.procs[p].phase.call.CreateCall?
    ensures p in DoCheck(codec, s, p).value.procs && DoCheck(codec, s, p).value.procs[p].mem == s.procs[p].mem
  {
    hide Load, BlobsFor, Multipart.Remove, Assemble, Cap;
  }

  lemma MutateIndexMemory(s: State, p: Pid, call: Call, m: Mutation)
    requires p in s.procs && p in MutateIndex(s, p, call, m).procs
    requires MutateIndex(s, p, call, m).procs[p].phase == Releasing(None)
    ensures MutateIndex(s, p, call, m).procs[p].mem == s.procs[p].mem
  {
    hide Apply, After, NothingToSave;
  }

  lemma MemoryAfterMutate(codec: Codec, s: State, p: Pid)
    requires Inv(codec, s) && DoMutate(codec, s, p).Some?
    requires p in DoMutate(codec, s, p).value.procs
    requires DoMutate(codec, s, p).value.procs[p].phase == Releasing(None)
    ensures s.procs[p].phase.Storing?
    ensures DoMutate(codec, s, p).value.procs[p].mem
         == if ReloadedBy(s.procs[p].phase, Mutate(p)) then Replay(codec, s.log).value.index else s.procs[p].mem
  {
    hide Inv, Replay, Apply, After, BlobsFor, Load, Sourced, Multipart.PutPart, CompletionPut,
         Multipart.Remove, PartOf, StoredOrDue, NothingToSave, MutateIndex;
    HolderFacts(codec, s, p);
    var call := s.procs[p].phase.call;
    if !call.UsesTable() { MutateIndexMemory(s, p, call, call.m); }
  }

  /** The verb whose index a process is saving applies to the committed index, and gives the one in memory. */
  lemma SavedVerb(codec: Codec, s: State, p: Pid)
    requires Inv(codec, s) && p in s.procs
    requires LosesSave(s.procs[p].phase, Fail(p))
    ensures var phase, index := s.procs[p].phase, Replay(codec, s.log).value.index;
            (phase.saves[0].event.Verbed? || phase.saves[0].event.Bound?)
            && Apply(phase.saves[0].event.m, index) == Ok(s.procs[p].mem)
            && (phase.call.VerbCall? || phase.call.PutCall? ==> phase.saves[0].event.m == phase.call.m)
  {
    hide Inv, Replay, Apply, After, Sourced, EventStored, AckNext, CompletionPut;
    HolderFacts(codec, s, p);
    AfterIsApply(s.procs[p].phase.saves[0].event.m, Replay(codec, s.log).value.index);
  }

  lemma MidSaveMeans(codec: Codec, s: State, p: Pid)
    requires Inv(codec, s) && p in s.procs && MidSave(s.procs[p].phase)
    ensures s.procs[p].origin.Unsaved?
  {
    hide Inv, Replay, Sourced, EventStored, AckNext, SavesOk;
    HolderFacts(codec, s, p);
  }

  /** Outside a save, a process's memory is unsaved exactly when it was before the step and the step did not
      reload it, or the step lost its save. (The origin determines the memory: `MemoryIsHistory`.) */
  lemma UnsavedAfterStep(codec: Codec, s: State, p: Pid, step: Step, t: State)
    requires codec.Lawful() && Reachable(codec, s) && Do(codec, s, step) == Some(t) && p in s.procs && p in t.procs
    requires !MidSave(t.procs[p].phase)
    ensures t.procs[p].origin.Unsaved? <==>
            if MidSave(s.procs[p].phase) then step == Fail(p)
            else s.procs[p].origin.Unsaved? && t.procs[p].origin == s.procs[p].origin
  {
    hide Reachable, Inv, DoRead, DoCheck, DoMutate, DoForeign;
    ReachableOk(codec, s);
    if MidSave(s.procs[p].phase) { MidSaveMeans(codec, s, p); }
    if Actor(step) != Some(p) {
      OthersKeepPhase(codec, s, p, step);
    } else {
      match step
      case Read(_) => OriginAfterRead(codec, s, p);
      case Check(_) => OriginAfterCheck(codec, s, p);
      case Mutate(_) => OriginAfterMutate(codec, s, p);
      case _ =>
    }
  }

  /** Memory is where it was, or freshly loaded. */
  ghost predicate KeptOrLoaded(before: Proc, after: Proc) {
    (after.origin == before.origin && after.mem == before.mem) || after.origin.FromFile?
  }

  lemma OriginAfterRead(codec: Codec, s: State, p: Pid)
    requires DoRead(codec, s, p).Some?
    ensures !MidSave(s.procs[p].phase) && p in DoRead(codec, s, p).value.procs
    ensures KeptOrLoaded(s.procs[p], DoRead(codec, s, p).value.procs[p])
  {
    hide Load, Apply, BlobsFor;
  }

  lemma OriginAfterCheck(codec: Codec, s: State, p: Pid)
    requires DoCheck(codec, s, p).Some?
    ensures !MidSave(s.procs[p].phase) && p in DoCheck(codec, s, p).value.procs
    ensures KeptOrLoaded(s.procs[p], DoCheck(codec, s, p).value.procs[p])
  {
    hide Load, BlobsFor, Assemble, Multipart.Create, Multipart.Remove;
  }

  lemma OriginAfterMutate(codec: Codec, s: State, p: Pid)
    requires DoMutate(codec, s, p).Some?
    ensures !MidSave(s.procs[p].phase) && p in DoMutate(codec, s, p).value.procs
    ensures var after := DoMutate(codec, s, p).value.procs[p];
            KeptOrLoaded(s.procs[p], after) || MidSave(after.phase)
  {
    hide Load, Apply, After, CompletionPut, PartOf, NothingToSave, Multipart.PutPart, Multipart.Remove;
  }

  // ---- completions that return an error ----

  /** A completion that returns an error has bound its object exactly when the step that failed came after the
      rename of its first save. Its record is then still in the table, to be completed again, and the index
      file names the object; otherwise the call has committed nothing. */
  lemma CompletionAfterError(codec: Codec, s: State, p: Pid, step: Step, t: State)
    requires codec.Lawful() && Reachable(codec, s) && Errs(codec, s, p, step, t) && s.procs[p].phase.call.CompleteCall?
    ensures var phase := s.procs[p].phase;
            ((exists i :: t.since <= i < |t.log| && Answers(phase.call, t.log[i]))
               <==> phase.Saving? && phase.at.Some?)
            && if phase.Saving? && phase.at.Some? then
                 |t.log| == t.since + 1 && t.log[t.since].Bound? && t.log[t.since].m.PutM?
                 && t.table.Whole? && phase.call.id in t.table.value
                 && var m := t.log[t.since].m;
                 t.index == Whole(Fold(Verbs(t.log)))
                 && Head(Fold(Verbs(t.log)), m.bucket, m.key) == Ok(m.meta)
               else |t.log| == t.since
  {
    hide Reachable, Replay, Apply, After, Sourced, Effect, EventStored, Assemble, Inv;
    ReachableOk(codec, s);
    HolderFacts(codec, s, p);
    ErrsLocally(codec, s, p, step, t);
    if s.procs[p].phase.Saving? && s.procs[p].phase.at.Some? { BoundByNow(codec, s, p); }
  }

  lemma BoundByNow(codec: Codec, s: State, p: Pid)
    requires Inv(codec, s) && p in s.procs && s.procs[p].phase.Saving? && s.procs[p].phase.at.Some?
    ensures |s.log| == s.since + 1 && s.log[s.since].Bound? && s.log[s.since].m.PutM?
    ensures Answers(s.procs[p].phase.call, s.log[s.since]) && s.procs[p].phase.call.CompleteCall?
    ensures s.table.Whole? && s.procs[p].phase.call.id in s.table.value
    ensures var m := s.log[s.since].m;
            s.index == Whole(Fold(Verbs(s.log))) && Head(Fold(Verbs(s.log)), m.bucket, m.key) == Ok(m.meta)
  {
    hide Replay, Apply, After, Sourced, EventStored, Assemble, Inv, SavesOk, Fold, Verbs, Head, ValidKey,
         ValidMetadata;
    HolderFacts(codec, s, p);
    IndexIsFold(codec, s.log);
    var at := s.since;
    var w := WorldAt(codec, s.log, at);
    assert s.log[..at + 1] == s.log;
    BoundIsHead(s.log[at].m, w.index);
    FilesHeld(codec, s);
    HeadNeedsBucket(Fold(Verbs(s.log)), s.log[at].m.bucket, s.log[at].m.key);
  }

  lemma HeadNeedsBucket(bs: Buckets, bucket: Str, key: Str)
    ensures Head(bs, bucket, key).Ok? ==> bs != map[]
  {
  }
}
