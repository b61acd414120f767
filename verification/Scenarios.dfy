/** Runs of the commit protocol that do happen: every admissible call that the files and the size limit allow can
    be carried through, a failed save leaves an unsaved index in memory, and a completion may bind its object and
    still return an error. */
module Scenarios {
  import opened Basics
  import opened Search
  import opened BucketModel
  import opened Mutations
  import opened History
  import opened Manifests
  import opened Multipart
  import opened Journal
  import opened Protocol
  import opened Safety

  // ---- which calls can succeed, and with what effect ----

  /** The files allow the call: its checks pass, and it has something to save. */
  predicate Allows(codec: Codec, call: Call, w: World) {
    match call
    case VerbCall(m) => Apply(m, w.index).Ok? && !NothingToSave(m, w.index)
    case PutCall(m, _, _) => m.PutM? && Apply(m, w.index).Ok?
    case CreateCall(id, upload) =>
      upload.bucket in w.index && id !in w.uploads && Multipart.Create(w.uploads, id, upload).Ok?
    case PartCall(id, num, bytes) => Multipart.PutPart(w.uploads, id, PartOf(codec, num, bytes, DEFAULT_PART_CHUNK)).Ok?
    case CompleteCall(id, list, now) =>
      id in w.uploads && CompletionPut(codec, w.uploads[id], list, now).Some?
      && Apply(CompletionPut(codec, w.uploads[id], list, now).value, w.index).Ok?
    case AbortCall(_) => true
  }

  /** The verbs with nothing to save are exactly the sweeps that would leave the index as it is. */
  lemma NothingToSaveExactly(m: Mutation, bs: Buckets)
    ensures NothingToSave(m, bs) <==> (m.SweepM? || m.SweepAllM?) && Apply(m, bs) == Ok(bs)
  {
    hide ExpiredKeys, SweepIn, Expired;
    match m
    case SweepM(bucket, now) =>
      if bucket in bs {
        SweepIdleExactly(bs[bucket], now);
        SameEntry(bs, bucket, SweepIn(bs[bucket], now));
      }
    case SweepAllM(now) =>
      forall b | b in bs ensures ExpiredKeys(bs[b], now) == [] <==> SweepIn(bs[b], now) == bs[b] {
        SweepIdleExactly(bs[b], now);
      }
      var swept := map b | b in bs :: SweepIn(bs[b], now);
      assert Apply(m, bs) == Ok(swept) && swept.Keys == bs.Keys;
      if swept == bs {
        forall b | b in bs ensures ExpiredKeys(bs[b], now) == [] { assert swept[b] == bs[b]; }
      }
    case _ =>
  }

  lemma SameEntry(bs: Buckets, name: Str, b: Bucket)
    requires name in bs
    ensures bs[name := b] == bs <==> b == bs[name]
  {
    assert bs[name := b][name] == b;
  }

  lemma SweepIdleExactly(b: Bucket, now: u64)
    ensures ExpiredKeys(b, now) == [] <==> SweepIn(b, now) == b
  {
    hide ExpiredKeys, SweepIn, Expired, Visible;
    SweepIdle(b, now);
    if ExpiredKeys(b, now) != [] {
      var k := SomeMember(ExpiredKeys(b, now));
      SweepExact(b, now, k);
      ExpiredIsVisible(b, now, k);
    }
  }

  lemma ExpiredIsVisible(b: Bucket, now: u64, k: Str)
    ensures Expired(b, k, now) ==> Visible(b.objects, k)
  {
  }

  /** A verb that succeeds and changes the index is allowed. */
  lemma ChangingVerbAllowed(codec: Codec, m: Mutation, w: World)
    requires Apply(m, w.index).Ok? && Apply(m, w.index) != Ok(w.index)
    ensures Allows(codec, VerbCall(m), w)
  {
    hide Apply;
    NothingToSaveExactly(m, w.index);
  }

  /** What the files allow is what some commit answering the call could do to them; only the sweeps without effect
      have nothing to commit. */
  lemma AllowsExactly(codec: Codec, call: Call, w: World)
    requires Admissible(codec, call)
    ensures Allows(codec, call, w) <==>
            (exists e :: Answers(call, e) && Effect(codec, e, w).Some?)
            && !(call.VerbCall? && NothingToSave(call.m, w.index))
  {
    hide Apply, After, Assemble, NothingToSave, Multipart.PutPart, PartOf;
    match call
    case VerbCall(m) => assert Answers(call, Verbed(m));
    case PutCall(m, _, _) => assert Answers(call, Verbed(m));
    case CreateCall(id, upload) => assert Answers(call, Created(id, upload));
    case PartCall(id, num, bytes) => assert Answers(call, PartPut(id, num, bytes));
    case CompleteCall(id, list, now) =>
      if id in w.uploads && CompletionPut(codec, w.uploads[id], list, now).Some? {
        var m := CompletionPut(codec, w.uploads[id], list, now).value;
        assert Answers(call, Bound(id, list, now, m));
      }
    case AbortCall(id) =>
      assert Answers(call, Aborted(id));
      assert Effect(codec, Aborted(id), w).Some?;
  }

  /** How large a body the call brings, or an object it assembles. */
  function SizeOf(codec: Codec, call: Call, w: World): nat {
    match call
    case PutCall(_, bytes, _) => |bytes|
    case PartCall(_, _, bytes) => |bytes|
    case CompleteCall(id, list, _) =>
      if id !in w.uploads then 0
      else
        (match Assemble(w.uploads[id], list)
         case None => 0
         case Some(manifest) => manifest.totalSize)
    case _ => 0
  }

  /** The call stays within the maximum object size. */
  predicate Fits(codec: Codec, call: Call, w: World, cap: u64) {
    SizeOf(codec, call, w) <= cap
  }

  /** The saves a call makes, in order. */
  function SavesFor(codec: Codec, call: Call, w: World): (saves: seq<Save>)
    requires Allows(codec, call, w)
    ensures 1 <= |saves| <= 2
  {
    match call
    case VerbCall(m) => [Save(Verbed(m), IndexContents(After(m, w.index)))]
    case PutCall(m, _, _) => [Save(Verbed(m), IndexContents(After(m, w.index)))]
    case CreateCall(id, upload) =>
      [Save(Created(id, upload), TableContents(Multipart.Create(w.uploads, id, upload).value))]
    case PartCall(id, num, bytes) =>
      var part := PartOf(codec, num, bytes, DEFAULT_PART_CHUNK);
      [Save(PartPut(id, num, bytes), TableContents(Multipart.PutPart(w.uploads, id, part).value))]
    case CompleteCall(id, list, now) =>
      var m := CompletionPut(codec, w.uploads[id], list, now).value;
      [Save(Bound(id, list, now, m), IndexContents(After(m, w.index))),
       Save(Finished(id), TableContents(Multipart.Remove(w.uploads, id)))]
    case AbortCall(id) => [Save(Aborted(id), TableContents(Multipart.Remove(w.uploads, id)))]
  }

  function Events(saves: seq<Save>): seq<Event> {
    seq(|saves|, i requires 0 <= i < |saves| => saves[i].event)
  }

  /** The files after a sequence of saves. */
  function ReplacedAll(w: World, saves: seq<Save>): World
    decreases |saves|
  {
    if saves == [] then w else ReplacedAll(Replaced(w, saves[0].contents), saves[1..])
  }

  function WorldAfter(codec: Codec, call: Call, w: World): World
    requires Allows(codec, call, w)
  {
    ReplacedAll(w, SavesFor(codec, call, w))
  }

  /** Memory when the call comes to save: verbs on the index have applied it there, the others have loaded it
      or left it alone. */
  function Loaded(codec: Codec, call: Call, w: World, proc: Proc, n: nat): Proc
    requires Allows(codec, call, w)
  {
    match call
    case VerbCall(m) => Proc(After(m, w.index), Unsaved(n, m), proc.phase)
    case PutCall(m, _, _) => Proc(After(m, w.index), Unsaved(n, m), proc.phase)
    case CompleteCall(id, list, now) =>
      var m := CompletionPut(codec, w.uploads[id], list, now).value;
      Proc(After(m, w.index), Unsaved(n, m), proc.phase)
    case CreateCall(_, _) => Proc(w.index, FromFile(n), proc.phase)
    case PartCall(_, _, _) => proc
    case AbortCall(_) => proc
  }

  function StoreAll(codec: Codec, blobs: Blobs, todo: seq<Bytes>): Blobs
    decreases |todo|
  {
    if todo == [] then blobs else StoreAll(codec, blobs[codec.cid(todo[0]) := todo[0]], todo[1..])
  }

  /** The process is idle, the lock is free, and the files hold this. */
  ghost predicate AtRest(s: State, p: Pid, w: World) {
    p in s.procs && s.procs[p].phase.Idle? && s.lock == None && HoldFiles(s, w)
  }

  ghost predicate HoldFiles(s: State, w: World) {
    Load(s.index) == Some(w.index) && Load(s.table) == Some(w.uploads)
  }

  /** The files and the process's size limit let the call through. */
  ghost predicate Possible(codec: Codec, s: State, p: Pid, call: Call, w: World) {
    HoldFiles(s, w) && Admissible(codec, call) && Allows(codec, call, w) && Fits(codec, call, w, Cap(s, p))
  }

  ghost predicate Ready(codec: Codec, s: State, p: Pid, call: Call, w: World) {
    AtRest(s, p, w) && Possible(codec, s, p, call, w)
  }

  /** The same for a call already made, whose process is waiting for the lock. */
  ghost predicate ReadyToLock(codec: Codec, s: State, p: Pid, call: Call, w: World) {
    p in s.procs && s.procs[p].phase == Waiting(call) && s.lock == None && Possible(codec, s, p, call, w)
  }

  // ---- runs ----

  function With(s: State, p: Pid, proc: Proc): State {
    s.(procs := s.procs[p := proc])
  }

  lemma Overwrite(procs: map<Pid, Proc>, p: Pid, a: Proc, b: Proc)
    ensures procs[p := a][p := b] == procs[p := b]
  {
  }

  lemma FollowOne(codec: Codec, s: State, x: Step)
    ensures Follow(codec, s, [x]) == Do(codec, s, x)
  {
    hide Do;
    assert [x][1..] == [];
    assert Do(codec, s, x).Some? ==> Follow(codec, Do(codec, s, x).value, []) == Do(codec, s, x);
  }

  lemma Invokes(codec: Codec, s: State, p: Pid, call: Call, w: World)
    requires Ready(codec, s, p, call, w)
    ensures var waiting := With(s, p, s.procs[p].(phase := Waiting(call)));
            Follow(codec, s, [Invoke(p, call)]) == Some(waiting) && ReadyToLock(codec, waiting, p, call, w)
  {
    hide Load, Admissible, Allows;
    FollowOne(codec, s, Invoke(p, call));
  }

  /** The lock is taken. */
  lemma Acquires(codec: Codec, s: State, p: Pid, call: Call)
    requires p in s.procs && s.procs[p].phase == Waiting(call) && s.lock == None
    ensures Follow(codec, s, [Acquire(p)])
         == Some(With(s, p, s.procs[p].(phase := Locked(call))).(lock := Some(p), since := |s.log|))
  {
    FollowOne(codec, s, Acquire(p));
  }

  /** The blobs of a call that are still due are stored one by one. */
  lemma {:induction false} Stores(codec: Codec, s: State, p: Pid) returns (steps: seq<Step>)
    requires p in s.procs && s.procs[p].phase.Storing?
    ensures var ph := s.procs[p].phase;
            Follow(codec, s, steps)
            == Some(With(s, p, s.procs[p].(phase := ph.(todo := []))).(blobs := StoreAll(codec, s.blobs, ph.todo)))
    decreases |s.procs[p].phase.todo|
  {
    hide Follow;
    var proc := s.procs[p];
    var todo := proc.phase.todo;
    if todo == [] {
      steps := [];
      FollowNone(codec, s);
      assert With(s, p, proc) == s;
    } else {
      var next := With(s, p, proc.(phase := proc.phase.(todo := todo[1..])))
                  .(blobs := s.blobs[codec.cid(todo[0]) := todo[0]]);
      assert Do(codec, s, StoreBlob(p)) == Some(next);
      var rest := Stores(codec, next, p);
      Overwrite(s.procs, p, next.procs[p], proc.(phase := proc.phase.(todo := [])));
      FollowOne(codec, s, StoreBlob(p));
      FollowJoin(codec, s, [StoreBlob(p)], next, rest);
      steps := [StoreBlob(p)] + rest;
    }
  }

  lemma FollowNone(codec: Codec, s: State)
    ensures Follow(codec, s, []) == Some(s)
  {
  }

  /** A call that stores blobs has passed its checks. */
  lemma Checks(codec: Codec, s: State, p: Pid, call: Call, w: World) returns (steps: seq<Step>, proc: Proc)
    requires p in s.procs && s.procs[p].phase == Locked(call) && HoldFiles(s, w) && Allows(codec, call, w)
    requires !call.CreateCall? && !call.AbortCall? && Fits(codec, call, w, Cap(s, p))
    ensures proc.phase == Storing(call, if call.UsesTable() then w.uploads else map[], BlobsFor(codec, call, w.uploads))
    ensures if call.UsesTable() then proc.mem == s.procs[p].mem && proc.origin == s.procs[p].origin
            else proc.mem == w.index
    ensures Follow(codec, s, steps) == Some(With(s, p, proc))
  {
    hide Follow, Load, Apply, NothingToSave, PartOf, Assemble;
    if call.UsesTable() {
      var tabled := s.procs[p].(phase := Tabled(call, w.uploads));
      assert Do(codec, s, Read(p)) == Some(With(s, p, tabled));
      proc := s.procs[p].(phase := Storing(call, w.uploads, BlobsFor(codec, call, w.uploads)));
      Overwrite(s.procs, p, tabled, proc);
      FollowTwo(codec, s, Read(p), With(s, p, tabled), Check(p));
      steps := [Read(p), Check(p)];
    } else {
      proc := Proc(w.index, FromFile(|s.log|), Storing(call, map[], BlobsFor(codec, call, map[])));
      FollowOne(codec, s, Read(p));
      steps := [Read(p)];
    }
  }

  /** With its blobs stored, the call makes its change in memory. */
  lemma Mutates(codec: Codec, s: State, p: Pid, call: Call, w: World)
    requires p in s.procs && HoldFiles(s, w) && Allows(codec, call, w) && Admissible(codec, call)
    requires s.procs[p].phase == Storing(call, if call.UsesTable() then w.uploads else map[], [])
    requires !call.CreateCall? && !call.AbortCall? && (call.UsesTable() || s.procs[p].mem == w.index)
    ensures var saving := Saving(call, SavesFor(codec, call, w), Unwritten, None);
            Follow(codec, s, [Mutate(p)])
            == Some(With(s, p, Loaded(codec, call, w, s.procs[p], |s.log|).(phase := saving)))
  {
    hide Follow, Load, Apply, After, PartOf, Assemble, CompletionPut, Multipart.PutPart;
    FollowOne(codec, s, Mutate(p));
    match call
    case VerbCall(m) =>
    case PutCall(m, _, _) =>
    case PartCall(_, _, _) =>
    case CompleteCall(_, _, _) =>
  }

  /** Creating and aborting an upload go from their check straight to the save. */
  lemma ChecksOnly(codec: Codec, s: State, p: Pid, call: Call, w: World)
    requires p in s.procs && s.procs[p].phase == Locked(call) && HoldFiles(s, w) && Allows(codec, call, w)
    requires call.CreateCall? || call.AbortCall?
    ensures var saving := Saving(call, SavesFor(codec, call, w), Unwritten, None);
            Follow(codec, s, [Read(p), Check(p)])
            == Some(With(s, p, Loaded(codec, call, w, s.procs[p], |s.log|).(phase := saving)))
  {
    hide Follow, Load, Multipart.Create, Multipart.Remove;
    var tabled := s.procs[p].(phase := Tabled(call, w.uploads));
    assert Do(codec, s, Read(p)) == Some(With(s, p, tabled));
    Overwrite(s.procs, p, tabled, Loaded(codec, call, w, s.procs[p], |s.log|)
                                  .(phase := Saving(call, SavesFor(codec, call, w), Unwritten, None)));
    FollowTwo(codec, s, Read(p), With(s, p, tabled), Check(p));
  }

  /** The state in which a call is about to make its first save. */
  function AtSave(codec: Codec, s: State, p: Pid, call: Call, w: World): State
    requires p in s.procs && Allows(codec, call, w)
  {
    var saving := Saving(call, SavesFor(codec, call, w), Unwritten, None);
    With(s, p, Loaded(codec, call, w, s.procs[p], |s.log|).(phase := saving))
    .(lock := Some(p), since := |s.log|, blobs := StoreAll(codec, s.blobs, BlobsFor(codec, call, w.uploads)))
  }

  /** From waiting with the lock free, any possible call comes to save. */
  lemma WaitingComesToSave(codec: Codec, s: State, p: Pid, call: Call, w: World) returns (steps: seq<Step>)
    requires ReadyToLock(codec, s, p, call, w)
    ensures Follow(codec, s, steps) == Some(AtSave(codec, s, p, call, w))
  {
    hide Follow, Load, Allows, Admissible, SavesFor, BlobsFor, StoreAll, Fits;
    var waiting := s.procs[p];
    var locked := waiting.(phase := Locked(call));
    var held := With(s, p, locked).(lock := Some(p), since := |s.log|);
    Acquires(codec, s, p, call);
    var begun := [Acquire(p)];
    var saving := Saving(call, SavesFor(codec, call, w), Unwritten, None);
    LoadedFrom(codec, call, w, waiting, locked, |s.log|, saving);
    var last := Loaded(codec, call, w, locked, |s.log|).(phase := saving);
    if call.CreateCall? || call.AbortCall? {
      ChecksOnly(codec, held, p, call, w);
      NoBlobs(codec, s.blobs, call, w.uploads);
      Overwrite(s.procs, p, locked, last);
      FollowJoin(codec, s, begun, held, [Read(p), Check(p)]);
      steps := begun + [Read(p), Check(p)];
    } else {
      var checks, ready := Checks(codec, held, p, call, w);
      var storing := With(held, p, ready);
      var stores := Stores(codec, storing, p);
      var stored := ready.(phase := ready.phase.(todo := []));
      var before := With(storing, p, stored).(blobs := StoreAll(codec, s.blobs, ready.phase.todo));
      Mutates(codec, before, p, call, w);
      LoadedFrom(codec, call, w, locked, stored, |s.log|, saving);
      Overwrite(s.procs, p, locked, ready);
      Overwrite(s.procs, p, ready, stored);
      Overwrite(s.procs, p, stored, last);
      FollowJoin(codec, s, begun, held, checks);
      FollowJoin(codec, s, begun + checks, storing, stores);
      FollowJoin(codec, s, begun + checks + stores, before, [Mutate(p)]);
      steps := begun + checks + stores + [Mutate(p)];
    }
  }

  /** From idle, any possible call comes to save. */
  lemma ComesToSave(codec: Codec, s: State, p: Pid, call: Call, w: World) returns (steps: seq<Step>)
    requires Ready(codec, s, p, call, w)
    ensures Follow(codec, s, steps) == Some(AtSave(codec, s, p, call, w))
  {
    hide Follow, Load, Allows, Admissible, SavesFor, BlobsFor, StoreAll, Fits, Loaded;
    var idle := s.procs[p];
    var waiting := With(s, p, idle.(phase := Waiting(call)));
    Invokes(codec, s, p, call, w);
    var rest := WaitingComesToSave(codec, waiting, p, call, w);
    var saving := Saving(call, SavesFor(codec, call, w), Unwritten, None);
    LoadedFrom(codec, call, w, idle, idle.(phase := Waiting(call)), |s.log|, saving);
    Overwrite(s.procs, p, idle.(phase := Waiting(call)), Loaded(codec, call, w, idle, |s.log|).(phase := saving));
    FollowJoin(codec, s, [Invoke(p, call)], waiting, rest);
    steps := [Invoke(p, call)] + rest;
  }

  /** What a call loads depends on the process only where the call leaves memory alone. */
  lemma LoadedFrom(codec: Codec, call: Call, w: World, a: Proc, b: Proc, n: nat, phase: Phase)
    requires Allows(codec, call, w)
    ensures (a.mem == b.mem && a.origin == b.origin) || call.VerbCall? || call.PutCall? || call.CompleteCall? ==>
              Loaded(codec, call, w, a, n).(phase := phase) == Loaded(codec, call, w, b, n).(phase := phase)
  {
  }

  lemma NoBlobs(codec: Codec, blobs: Blobs, call: Call, table: Uploads)
    requires call.CreateCall? || call.AbortCall?
    ensures StoreAll(codec, blobs, BlobsFor(codec, call, table)) == blobs
  {
  }

  // ---- saving ----

  ghost predicate AboutToSave(s: State, p: Pid) {
    p in s.procs && s.procs[p].phase.Saving? && s.procs[p].phase.stage.Unwritten? && s.procs[p].phase.saves != []
  }

  /** The temporary file is complete. */
  function WrittenOut(s: State, p: Pid): State
    requires p in s.procs && s.procs[p].phase.Saving? && s.procs[p].phase.saves != []
  {
    var proc := s.procs[p];
    var written := With(s, p, proc.(phase := proc.phase.(stage := Written)));
    match proc.phase.saves[0].contents
    case IndexContents(index) => written.(indexTemps := s.indexTemps[p := Whole(index)])
    case TableContents(uploads) => written.(tableTemps := s.tableTemps[p := Whole(uploads)])
  }

  lemma Writes(codec: Codec, s: State, p: Pid)
    requires AboutToSave(s, p)
    ensures Follow(codec, s, [OpenTemp(p), WriteTemp(p)]) == Some(WrittenOut(s, p))
  {
    hide Follow;
    var proc := s.procs[p];
    var torn := DoOpenTemp(s, p).value;
    Overwrite(s.procs, p, proc.(phase := proc.phase.(stage := Opened)), proc.(phase := proc.phase.(stage := Written)));
    match proc.phase.saves[0].contents
    case IndexContents(index) =>
      assert s.indexTemps[p := Torn][p := Whole(index)] == s.indexTemps[p := Whole(index)];
      FollowTwo(codec, s, OpenTemp(p), torn, WriteTemp(p));
    case TableContents(uploads) =>
      assert s.tableTemps[p := Torn][p := Whole(uploads)] == s.tableTemps[p := Whole(uploads)];
      FollowTwo(codec, s, OpenTemp(p), torn, WriteTemp(p));
  }

  /** What a call does once its first save is renamed into place. */
  function AfterSave(phase: Phase, n: nat): Phase
    requires phase.Saving? && phase.saves != []
  {
    var at := if phase.at.Some? then phase.at.value else n;
    if |phase.saves| == 1 then Releasing(Some(Ack(phase.call, at)))
    else Saving(phase.call, phase.saves[1..], Unwritten, Some(at))
  }

  /** `t` differs from `s` in process `p` and its temporary files, in the lock and in what the call commits. */
  ghost predicate Elsewhere(s: State, t: State, p: Pid) {
    p in t.procs && t.procs == s.procs[p := t.procs[p]] && t.crashed == s.crashed && t.caps == s.caps
    && t.indexTemps - {p} == s.indexTemps - {p} && t.tableTemps - {p} == s.tableTemps - {p}
  }

  lemma ElsewhereTwice(s: State, t: State, u: State, p: Pid)
    requires Elsewhere(s, t, p) && Elsewhere(t, u, p)
    ensures Elsewhere(s, u, p)
  {
    Overwrite(s.procs, p, t.procs[p], u.procs[p]);
  }

  ghost predicate FileReplaced(s: State, t: State, contents: Contents) {
    match contents
    case IndexContents(index) => t.index == Whole(index) && t.table == s.table
    case TableContents(uploads) => t.table == Whole(uploads) && t.index == s.index
  }

  /** The rename commits, whatever the target held. */
  lemma Renames(codec: Codec, s: State, p: Pid) returns (t: State)
    requires p in s.procs && s.procs[p].phase.Saving? && s.procs[p].phase.saves != []
    requires s.procs[p].phase.stage.Written?
    requires InTemp(s.indexTemps, s.tableTemps, p, s.procs[p].phase.saves[0].contents)
    ensures Do(codec, s, Rename(p)) == Some(t) && Elsewhere(s, t, p)
    ensures var ph := s.procs[p].phase;
            t.log == s.log + [ph.saves[0].event] && FileReplaced(s, t, ph.saves[0].contents)
            && t.procs[p].phase == AfterSave(ph, |s.log|)
    ensures t.lock == s.lock && t.blobs == s.blobs && t.acks == s.acks
  {
    t := DoRename(s, p).value;
    assert s.indexTemps - {p} - {p} == s.indexTemps - {p} && s.tableTemps - {p} - {p} == s.tableTemps - {p};
  }

  lemma SavesOne(codec: Codec, s: State, p: Pid) returns (t: State)
    requires AboutToSave(s, p)
    ensures Follow(codec, s, [OpenTemp(p), WriteTemp(p), Rename(p)]) == Some(t) && Elsewhere(s, t, p)
    ensures var ph := s.procs[p].phase;
            t.log == s.log + [ph.saves[0].event] && FileReplaced(s, t, ph.saves[0].contents)
            && t.procs[p].phase == AfterSave(ph, |s.log|)
    ensures t.lock == s.lock && t.blobs == s.blobs && t.acks == s.acks
  {
    hide Follow, Do, Elsewhere;
    var written := WrittenOut(s, p);
    Writes(codec, s, p);
    t := Renames(codec, written, p);
    FollowOne(codec, written, Rename(p));
    FollowJoin(codec, s, [OpenTemp(p), WriteTemp(p)], written, [Rename(p)]);
    assert [OpenTemp(p), WriteTemp(p)] + [Rename(p)] == [OpenTemp(p), WriteTemp(p), Rename(p)];
    WrittenElsewhere(s, p);
    ElsewhereTwice(s, written, t, p);
  }

  lemma WrittenElsewhere(s: State, p: Pid)
    requires AboutToSave(s, p)
    ensures Elsewhere(s, WrittenOut(s, p), p)
  {
    var t := WrittenOut(s, p);
    assert t.indexTemps - {p} == s.indexTemps - {p} && t.tableTemps - {p} == s.tableTemps - {p};
  }

  lemma Releases(codec: Codec, s: State, p: Pid) returns (t: State)
    requires p in s.procs && s.procs[p].phase.Releasing?
    ensures Follow(codec, s, [Release(p)]) == Some(t)
    ensures t == With(s, p, s.procs[p].(phase := Idle))
                 .(lock := None,
                   acks := if s.procs[p].phase.ack.Some? then s.acks + [s.procs[p].phase.ack.value] else s.acks)
  {
    FollowOne(codec, s, Release(p));
    t := DoRelease(s, p).value;
  }

  /** The call committed and returned success: its commits follow the log, one acknowledgement follows the
      others, its blobs are stored, the files hold its effect, and no other process was touched. */
  ghost predicate Carried(codec: Codec, s: State, t: State, p: Pid, call: Call, w: World)
    requires Allows(codec, call, w)
  {
    AtRest(t, p, WorldAfter(codec, call, w)) && Elsewhere(s, t, p)
    && t.log == s.log + Events(SavesFor(codec, call, w)) && t.acks == s.acks + [Ack(call, |s.log|)]
    && t.blobs == StoreAll(codec, s.blobs, BlobsFor(codec, call, w.uploads))
  }

  /** From its first save on, a call can be carried through. */
  lemma CommitsFromSave(codec: Codec, s: State, p: Pid, call: Call, w: World) returns (steps: seq<Step>, t: State)
    requires p in s.procs && HoldFiles(s, w) && Allows(codec, call, w)
    ensures Follow(codec, AtSave(codec, s, p, call, w), steps) == Some(t) && Carried(codec, s, t, p, call, w)
  {
    hide Follow, Do, Load, Allows, SavesFor, BlobsFor, StoreAll, Loaded, Elsewhere;
    var save := [OpenTemp(p), WriteTemp(p), Rename(p)];
    var ready := AtSave(codec, s, p, call, w);
    var saves := SavesFor(codec, call, w);
    AtSaveElsewhere(codec, s, p, call, w);
    var saved := SavesOne(codec, ready, p);
    steps := save;
    ElsewhereTwice(s, ready, saved, p);
    OneOrTwo(w, saves);
    if |saves| == 2 {
      var again := SavesOne(codec, saved, p);
      FollowJoin(codec, ready, steps, saved, save);
      steps := steps + save;
      ElsewhereTwice(s, saved, again, p);
      saved := again;
    }
    t := Releases(codec, saved, p);
    FollowJoin(codec, ready, steps, saved, [Release(p)]);
    steps := steps + [Release(p)];
    ReleasedElsewhere(saved, t, p);
    ElsewhereTwice(s, saved, t, p);
    LoadsWhole(t, WorldAfter(codec, call, w));
  }

  /** Progress: from any state with the lock free, an idle process can carry through every admissible call that
      the files and its size limit allow: verbs, puts, parts, creations, completions and aborts. */
  lemma CallCanCommit(codec: Codec, s: State, p: Pid, call: Call, w: World) returns (steps: seq<Step>, t: State)
    requires Ready(codec, s, p, call, w)
    ensures Follow(codec, s, steps) == Some(t) && Carried(codec, s, t, p, call, w)
  {
    hide Follow, Allows, Admissible, Carried, Load, Fits, AtSave;
    var before := ComesToSave(codec, s, p, call, w);
    var rest;
    rest, t := CommitsFromSave(codec, s, p, call, w);
    FollowJoin(codec, s, before, AtSave(codec, s, p, call, w), rest);
    steps := before + rest;
  }

  /** The same for a process already waiting for the lock. */
  lemma WaitingCanCommit(codec: Codec, s: State, p: Pid, call: Call, w: World) returns (steps: seq<Step>, t: State)
    requires ReadyToLock(codec, s, p, call, w)
    ensures Follow(codec, s, steps) == Some(t) && Carried(codec, s, t, p, call, w)
  {
    hide Follow, Allows, Admissible, Carried, Load, Fits, AtSave;
    var before := WaitingComesToSave(codec, s, p, call, w);
    var rest;
    rest, t := CommitsFromSave(codec, s, p, call, w);
    FollowJoin(codec, s, before, AtSave(codec, s, p, call, w), rest);
    steps := before + rest;
  }

  lemma ReleasedElsewhere(s: State, t: State, p: Pid)
    requires p in s.procs && t == With(s, p, s.procs[p].(phase := Idle)).(lock := None, acks := t.acks)
    ensures Elsewhere(s, t, p)
  {
  }

  lemma AtSaveElsewhere(codec: Codec, s: State, p: Pid, call: Call, w: World)
    requires p in s.procs && Allows(codec, call, w)
    ensures Elsewhere(s, AtSave(codec, s, p, call, w), p)
  {
    hide Allows, SavesFor, Loaded, StoreAll, BlobsFor;
  }

  lemma OneOrTwo(w: World, saves: seq<Save>)
    requires 1 <= |saves| <= 2
    ensures |saves| == 1 ==> ReplacedAll(w, saves) == Replaced(w, saves[0].contents)
    ensures |saves| == 2 ==> ReplacedAll(w, saves) == Replaced(Replaced(w, saves[0].contents), saves[1].contents)
    ensures |saves| == 1 ==> Events(saves) == [saves[0].event]
    ensures |saves| == 2 ==> Events(saves) == [saves[0].event] + [saves[1].event] && saves[1..] == [saves[1]]
  {
    var once := Replaced(w, saves[0].contents);
    assert ReplacedAll(w, saves) == ReplacedAll(once, saves[1..]);
    if |saves| == 1 {
      assert saves[1..] == [];
    } else {
      var twice := Replaced(once, saves[1].contents);
      assert saves[1..] == [saves[1]] && [saves[1]][1..] == [];
      assert ReplacedAll(once, [saves[1]]) == ReplacedAll(twice, []);
    }
  }

  lemma LoadsWhole(s: State, w: World)
    ensures s.index == Whole(w.index) ==> Load(s.index) == Some(w.index)
    ensures s.table == Whole(w.uploads) ==> Load(s.table) == Some(w.uploads)
  {
  }

  // ---- runs that end in an error ----

  lemma Fails(codec: Codec, s: State, p: Pid) returns (t: State)
    requires p in s.procs && s.procs[p].phase.Saving?
    ensures Follow(codec, s, [Fail(p), Release(p)]) == Some(t)
    ensures t == With(s, p, s.procs[p].(phase := Idle)).(lock := None)
  {
    hide Follow;
    var failed := s.procs[p].(phase := Releasing(None));
    assert Do(codec, s, Fail(p)) == Some(With(s, p, failed));
    Overwrite(s.procs, p, failed, failed.(phase := Idle));
    FollowTwo(codec, s, Fail(p), With(s, p, failed), Release(p));
    t := With(s, p, s.procs[p].(phase := Idle)).(lock := None);
  }

  /** When its first save fails, a call commits nothing, but a verb on the index stays applied in the memory of
      its process. */
  lemma FailedSaveShows(codec: Codec, s: State, p: Pid, call: Call, w: World) returns (steps: seq<Step>, t: State)
    requires Ready(codec, s, p, call, w)
    ensures Follow(codec, s, steps) == Some(t) && AtRest(t, p, w) && t.log == s.log && t.acks == s.acks
    ensures t.procs[p].mem == Loaded(codec, call, w, s.procs[p], |s.log|).mem
  {
    hide Follow, Load, Allows, Admissible, SavesFor, BlobsFor, StoreAll, Loaded;
    var ready := AtSave(codec, s, p, call, w);
    steps := ComesToSave(codec, s, p, call, w);
    t := Fails(codec, ready, p);
    FollowJoin(codec, s, steps, ready, [Fail(p), Release(p)]);
    steps := steps + [Fail(p), Release(p)];
  }

  /** A completion may return an error although its object is bound: its second save fails, nothing is
      acknowledged, and its record is still in the table. */
  lemma BoundButFailed(codec: Codec, s: State, p: Pid, call: Call, w: World) returns (steps: seq<Step>, t: State)
    requires Ready(codec, s, p, call, w) && call.CompleteCall?
    ensures Follow(codec, s, steps) == Some(t) && t.acks == s.acks
    ensures var saves := SavesFor(codec, call, w);
            t.log == s.log + [saves[0].event] && Answers(call, saves[0].event)
            && AtRest(t, p, Replaced(w, saves[0].contents))
    ensures call.id in w.uploads && Load(t.table) == Some(w.uploads)
  {
    hide Follow, Do, Load, Admissible, BlobsFor, StoreAll, Loaded, Elsewhere, CompletionPut, Apply, After;
    var save := [OpenTemp(p), WriteTemp(p), Rename(p)];
    var ready := AtSave(codec, s, p, call, w);
    steps := ComesToSave(codec, s, p, call, w);
    AtSaveElsewhere(codec, s, p, call, w);
    var saved := SavesOne(codec, ready, p);
    FollowJoin(codec, s, steps, ready, save);
    steps := steps + save;
    ElsewhereTwice(s, ready, saved, p);
    t := Fails(codec, saved, p);
    FollowJoin(codec, s, steps, saved, [Fail(p), Release(p)]);
    steps := steps + [Fail(p), Release(p)];
    LoadsWhole(t, Replaced(w, SavesFor(codec, call, w)[0].contents));
    InProcs(s, saved, p);
  }

  lemma InProcs(s: State, t: State, p: Pid)
    requires Elsewhere(s, t, p)
    ensures p in t.procs
  {
  }

  // ---- a memory that no prefix explains ----

  /** `s` with a new idle process. */
  function WithNew(s: State, p: Pid, cap: u64, index: Buckets): State {
    With(s, p, Proc(index, FromFile(|s.log|), Idle)).(caps := s.caps[p := cap])
  }

  lemma Opens(codec: Codec, s: State, p: Pid, cap: u64, w: World)
    requires p !in s.procs && p !in s.crashed && s.lock == None && HoldFiles(s, w)
    ensures Follow(codec, s, [Open(p, cap)]) == Some(WithNew(s, p, cap, w.index))
    ensures AtRest(WithNew(s, p, cap, w.index), p, w)
  {
    hide Load;
    FollowOne(codec, s, Open(p, cap));
  }

  lemma FirstBucket(codec: Codec, name: Str)
    requires ValidBucketName(name)
    ensures var m, after := MakeBucketM(name, 0), map[name := Bucket(0, false, [], map[])];
            Allows(codec, VerbCall(m), Nothing) && Admissible(codec, VerbCall(m))
            && Apply(m, map[]) == Ok(after) && After(m, map[]) == after && after != map[]
  {
    assert map[][name := Bucket(0, false, [], map[])] == map[name := Bucket(0, false, [], map[])];
    assert name in map[name := Bucket(0, false, [], map[])];
  }

  /** The claim that an idle process's index is always that of a prefix of the commits is false: here is a
      reachable state that breaks it, after one failed save. */
  lemma MemoryNeedNotBePrefix(codec: Codec) returns (s: State)
    ensures Reachable(codec, s) && 0 in s.procs && s.procs[0].phase.Idle?
    ensures forall n :: 0 <= n <= |s.log| ==> s.procs[0].mem != Fold(Verbs(s.log[..n]))
  {
    hide Follow, Do, Apply, After, Allows, Admissible;
    var name: Str := [97, 97, 97];
    assert ValidBucketName(name);
    FirstBucket(codec, name);
    Opens(codec, Start, 0, DEFAULT_MAX_OBJECT_SIZE, Nothing);
    var idle := WithNew(Start, 0, DEFAULT_MAX_OBJECT_SIZE, map[]);
    var steps;
    steps, s := FailedSaveShows(codec, idle, 0, VerbCall(MakeBucketM(name, 0)), Nothing);
    StartReachable(codec);
    ReachFurther(codec, Start, [Open(0, DEFAULT_MAX_OBJECT_SIZE)], idle);
    ReachFurther(codec, idle, steps, s);
    assert s.log[..0] == [];
    NothingCommitted();
  }

  lemma StartReachable(codec: Codec)
    ensures Reachable(codec, Start)
  {
    assert Follow(codec, Start, []) == Some(Start);
  }
}
