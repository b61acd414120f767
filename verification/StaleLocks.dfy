/** What reclaiming stale locks does to the commit protocol. In the code, judging a lock file stale and removing
    it are two calls, and the judgement is by age: a slow holder's lock looks like a crashed one's. Here both
    calls are steps, and the removal clears whatever lock file it finds. */
module StaleLocks {
  import opened Basics
  import opened BucketModel
  import opened Mutations
  import opened History
  import opened Manifests
  import opened Journal
  import opened Protocol
  import opened Safety
  import opened Guarantees
  import opened Failures
  import opened Scenarios

  // ---- the machine with two-call reclaims ----

  /** The commit protocol, and the processes that have judged the lock stale and are about to remove it. */
  datatype Racing = Racing(s: State, judged: set<Pid>)

  const Begin := Racing(Start, {})

  datatype Move = Machine(step: Step) | Judge(p: Pid) | Remove(p: Pid)

  /** A process that has judged the lock stale removes it next, unless it crashes. */
  ghost function Make(codec: Codec, r: Racing, move: Move): Option<Racing> {
    match move
    case Machine(step) =>
      if step.Reclaim? || (!step.Crash? && Actor(step).Some? && Actor(step).value in r.judged) then None
      else if Do(codec, r.s, step).None? then None
      else Some(Racing(Do(codec, r.s, step).value, if step.Crash? then r.judged - {step.p} else r.judged))
    case Judge(p) =>
      if p in r.s.procs && r.s.procs[p].phase.Waiting? && r.s.lock.Some? && p !in r.judged
      then Some(r.(judged := r.judged + {p})) else None
    case Remove(p) =>
      if p in r.judged then Some(Racing(r.s.(lock := None), r.judged - {p})) else None
  }

  ghost function Race(codec: Codec, r: Racing, moves: seq<Move>): Option<Racing>
    decreases |moves|
  {
    if moves == [] then Some(r)
    else
      match Make(codec, r, moves[0])
      case None => None
      case Some(next) => Race(codec, next, moves[1..])
  }

  /** A removal found no lock file, or that of a crashed creator. */
  ghost predicate Clean(r: Racing, move: Move) {
    move.Remove? ==> r.s.lock == None || r.s.lock.value in r.s.crashed
  }

  /** Every removal of the run was clean when it happened. */
  ghost predicate AllClean(codec: Codec, r: Racing, moves: seq<Move>)
    requires Race(codec, r, moves).Some?
    decreases |moves|
  {
    moves == [] || (Clean(r, moves[0]) && AllClean(codec, Make(codec, r, moves[0]).value, moves[1..]))
  }

  /** In every state of the run, the processes past their acquire are those whose lock file is on disk. */
  ghost predicate AllExclusive(codec: Codec, r: Racing, moves: seq<Move>)
    requires Race(codec, r, moves).Some?
    decreases |moves|
  {
    LockInv(r.s) && (moves == [] || AllExclusive(codec, Make(codec, r, moves[0]).value, moves[1..]))
  }

  // ---- what clean removals keep ----

  /** Whoever has judged is still waiting. */
  ghost predicate JudgesWait(r: Racing) {
    forall p :: p in r.judged ==> p in r.s.procs && r.s.procs[p].phase.Waiting?
  }

  lemma JudgesStillWait(codec: Codec, r: Racing, move: Move)
    requires JudgesWait(r) && Make(codec, r, move).Some?
    ensures JudgesWait(Make(codec, r, move).value)
  {
    hide Do;
    if move.Machine? {
      var next := Make(codec, r, move).value;
      forall p | p in next.judged ensures p in next.s.procs && next.s.procs[p].phase.Waiting? {
        OthersKeepPhase(codec, r.s, p, move.step);
      }
    }
  }

  /** A clean move is one of the commit protocol's own steps, or changes nothing there. */
  lemma CleanIsProtocol(codec: Codec, r: Racing, move: Move) returns (steps: seq<Step>)
    requires JudgesWait(r) && Make(codec, r, move).Some? && Clean(r, move)
    ensures Follow(codec, r.s, steps) == Some(Make(codec, r, move).value.s)
  {
    hide Do, Follow;
    match move
    case Machine(step) =>
      FollowOne(codec, r.s, step);
      steps := [step];
    case Judge(_) =>
      FollowNone(codec, r.s);
      steps := [];
    case Remove(p) =>
      if r.s.lock == None {
        FollowNone(codec, r.s);
        steps := [];
        assert r.s.(lock := None) == r.s;
      } else {
        FollowOne(codec, r.s, Reclaim(p));
        ReclaimIs(codec, r.s, p);
        steps := [Reclaim(p)];
      }
  }

  lemma ReclaimIs(codec: Codec, s: State, p: Pid)
    requires p in s.procs && s.procs[p].phase.Waiting? && s.lock.Some? && s.lock.value in s.crashed
    ensures Do(codec, s, Reclaim(p)) == Some(s.(lock := None))
  {
  }

  lemma CleanKeeps(codec: Codec, r: Racing, move: Move)
    requires codec.Lawful() && Inv(codec, r.s) && JudgesWait(r) && Make(codec, r, move).Some? && Clean(r, move)
    ensures Inv(codec, Make(codec, r, move).value.s) && JudgesWait(Make(codec, r, move).value)
  {
    hide Inv, Make, Clean, Follow, JudgesWait;
    var steps := CleanIsProtocol(codec, r, move);
    RunKeeps(codec, r.s, steps);
    JudgesStillWait(codec, r, move);
  }

  /** Removing a live holder's lock leaves that holder without one. */
  lemma LiveRemovalBreaks(codec: Codec, r: Racing, move: Move)
    requires LockInv(r.s) && Make(codec, r, move).Some? && !Clean(r, move)
    ensures !LockInv(Make(codec, r, move).value.s)
  {
    var q := r.s.lock.value;
    assert q in r.s.procs && r.s.procs[q].phase.Holds();
  }

  // ---- the exact condition ----

  lemma {:induction false} ExclusiveFrom(codec: Codec, r: Racing, moves: seq<Move>)
    requires codec.Lawful() && Inv(codec, r.s) && JudgesWait(r) && Race(codec, r, moves).Some?
    ensures AllExclusive(codec, r, moves) <==> AllClean(codec, r, moves)
    decreases |moves|
  {
    hide Make, Clean, JudgesWait, FilesInv, BlobInv, AckInv, ProcsInv, HolderInv, LockInv;
    if moves != [] {
      var next := Make(codec, r, moves[0]).value;
      if Clean(r, moves[0]) {
        CleanKeeps(codec, r, moves[0]);
        ExclusiveFrom(codec, next, moves[1..]);
      } else {
        LiveRemovalBreaks(codec, r, moves[0]);
        StartsExclusive(codec, next, moves[1..]);
      }
    }
  }

  lemma StartsExclusive(codec: Codec, r: Racing, moves: seq<Move>)
    requires Race(codec, r, moves).Some?
    ensures AllExclusive(codec, r, moves) ==> LockInv(r.s)
  {
  }

  /** Exclusion holds throughout a run of the code's protocol exactly when every removal of a lock file found
      none, or that of a crashed creator. */
  lemma ExclusionExactly(codec: Codec, moves: seq<Move>)
    requires codec.Lawful() && Race(codec, Begin, moves).Some?
    ensures AllExclusive(codec, Begin, moves) <==> AllClean(codec, Begin, moves)
  {
    hide Inv, Race, AllExclusive, AllClean;
    StartOk(codec);
    ExclusiveFrom(codec, Begin, moves);
  }

  lemma {:induction false} CleanFrom(codec: Codec, r: Racing, moves: seq<Move>)
    requires Reachable(codec, r.s) && JudgesWait(r) && Race(codec, r, moves).Some? && AllClean(codec, r, moves)
    ensures Reachable(codec, Race(codec, r, moves).value.s)
    decreases |moves|
  {
    hide Make, Clean, JudgesWait, Reachable, Follow;
    if moves != [] {
      var next := Make(codec, r, moves[0]).value;
      var steps := CleanIsProtocol(codec, r, moves[0]);
      ReachFurther(codec, r.s, steps, next.s);
      JudgesStillWait(codec, r, moves[0]);
      CleanFrom(codec, next, moves[1..]);
    }
  }

  /** Every guarantee for reachable states holds after every run whose removals were clean. */
  lemma CleanRunsAreReachable(codec: Codec, moves: seq<Move>)
    requires Race(codec, Begin, moves).Some? && AllClean(codec, Begin, moves)
    ensures Reachable(codec, Race(codec, Begin, moves).value.s)
  {
    hide Reachable, Race, AllClean;
    StartReachable(codec);
    CleanFrom(codec, Begin, moves);
  }

  // ---- what one unclean removal leads to ----

  /** At most one process is past its acquire. */
  ghost predicate OneHolder(s: State) {
    forall p, q :: p in s.procs && q in s.procs && s.procs[p].phase.Holds() && s.procs[q].phase.Holds() ==> p == q
  }

  lemma RaceOne(codec: Codec, r: Racing, move: Move)
    ensures Race(codec, r, [move]) == Make(codec, r, move)
  {
    hide Make;
    assert [move][1..] == [];
    assert Make(codec, r, move).Some? ==>
        Race(codec, Make(codec, r, move).value, []) == Make(codec, r, move);
  }

  lemma {:induction false} RaceJoin(codec: Codec, r: Racing, a: seq<Move>, t: Racing, b: seq<Move>)
    requires Race(codec, r, a) == Some(t)
    ensures Race(codec, r, a + b) == Race(codec, t, b)
    decreases |a|
  {
    hide Make;
    if a == [] {
      assert a + b == b;
    } else {
      assert (a + b)[1..] == a[1..] + b;
      RaceJoin(codec, Make(codec, r, a[0]).value, a[1..], t, b);
    }
  }

  /** Having removed a live holder's lock, a process acquires it, and there are two holders. */
  lemma TwoHolders(codec: Codec, r: Racing, p: Pid) returns (t: Racing)
    requires LockInv(r.s) && JudgesWait(r) && p in r.judged && !Clean(r, Remove(p))
    ensures Race(codec, Make(codec, r, Remove(p)).value, [Machine(Acquire(p))]) == Some(t)
    ensures var q := r.s.lock.value;
            q != p && p in t.s.procs && q in t.s.procs
            && t.s.procs[p].phase.Holds() && t.s.procs[q].phase.Holds() && t.judged == r.judged - {p}
  {
    hide Race;
    var next := Make(codec, r, Remove(p)).value;
    RaceOne(codec, next, Machine(Acquire(p)));
    t := Racing(DoAcquire(next.s, p).value, next.judged);
  }

  /** A removal is safe, in the sense that whatever follows it with clean removals has at most one holder, exactly
      when it is clean itself. */
  lemma RemovalIsSafeExactly(codec: Codec, r: Racing, p: Pid)
    requires codec.Lawful() && Inv(codec, r.s) && JudgesWait(r) && p in r.judged
    ensures var next := Make(codec, r, Remove(p)).value;
            Clean(r, Remove(p)) <==>
            forall moves :: Race(codec, next, moves).Some? && AllClean(codec, next, moves) ==>
              OneHolder(Race(codec, next, moves).value.s)
  {
    hide FilesInv, BlobInv, AckInv, ProcsInv, HolderInv, Race, AllClean;
    var next := Make(codec, r, Remove(p)).value;
    if Clean(r, Remove(p)) {
      CleanKeeps(codec, r, Remove(p));
      forall moves | Race(codec, next, moves).Some? && AllClean(codec, next, moves)
        ensures OneHolder(Race(codec, next, moves).value.s)
      {
        CleanRunKeeps(codec, next, moves);
      }
    } else {
      var t := TwoHolders(codec, r, p);
      var moves := [Machine(Acquire(p))];
      NoRemovals(codec, next, Machine(Acquire(p)));
      assert !OneHolder(Race(codec, next, moves).value.s);
    }
  }

  lemma NoRemovals(codec: Codec, r: Racing, move: Move)
    requires !move.Remove? && Race(codec, r, [move]).Some?
    ensures AllClean(codec, r, [move])
  {
    assert [move][1..] == [];
  }

  lemma {:induction false} CleanRunKeeps(codec: Codec, r: Racing, moves: seq<Move>)
    requires codec.Lawful() && Inv(codec, r.s) && JudgesWait(r) && Race(codec, r, moves).Some?
    requires AllClean(codec, r, moves)
    ensures Inv(codec, Race(codec, r, moves).value.s)
    decreases |moves|
  {
    hide Make, Clean, JudgesWait, Inv;
    if moves != [] {
      CleanKeeps(codec, r, moves[0]);
      CleanRunKeeps(codec, Make(codec, r, moves[0]).value, moves[1..]);
    }
  }

  /** A holder that is merely slow: its lock is judged stale by age, removed and taken, and there are two. */
  lemma SlowHolderOvertaken(codec: Codec, s: State, p: Pid, q: Pid) returns (t: Racing)
    requires LockInv(s) && p in s.procs && s.procs[p].phase.Waiting? && q in s.procs && s.lock == Some(q)
    ensures Race(codec, Racing(s, {}), [Judge(p), Remove(p), Machine(Acquire(p))]) == Some(t)
    ensures p != q && p in t.s.procs && q in t.s.procs && t.s.procs[p].phase.Holds() && t.s.procs[q].phase.Holds()
  {
    hide Race;
    var judged := Racing(s, {p});
    assert {} + {p} == {p};
    RaceOne(codec, Racing(s, {}), Judge(p));
    RaceOne(codec, judged, Remove(p));
    t := TwoHolders(codec, judged, p);
    RaceJoin(codec, Racing(s, {}), [Judge(p)], judged, [Remove(p)]);
    var free := Make(codec, judged, Remove(p)).value;
    RaceJoin(codec, Racing(s, {}), [Judge(p)] + [Remove(p)], free, [Machine(Acquire(p))]);
    assert [Judge(p)] + [Remove(p)] + [Machine(Acquire(p))] == [Judge(p), Remove(p), Machine(Acquire(p))];
  }

  /** Even judging only crashed creators' locks stale is not enough, since the judgement may be out of date by the
      time of the removal: of two processes that have both judged a crashed creator's lock, the first removes it
      and takes the lock, and the second removes that one and takes it too. Both are past their acquire. */
  lemma TwoReclaimsRace(codec: Codec, s: State, p: Pid, q: Pid) returns (t: Racing)
    requires LockInv(s) && DoReclaim(s, p).Some? && DoReclaim(s, q).Some? && p != q
    ensures var moves := [Judge(p), Judge(q), Remove(p), Machine(Acquire(p)), Remove(q), Machine(Acquire(q))];
            Race(codec, Racing(s, {}), moves) == Some(t)
    ensures p in t.s.procs && q in t.s.procs && t.s.procs[p].phase.Holds() && t.s.procs[q].phase.Holds()
  {
    hide Race;
    var r0 := Racing(s, {});
    var r1 := Racing(s, {p});
    var r2 := Racing(s, {p, q});
    assert {} + {p} == {p} && {p} + {q} == {p, q} && {p, q} - {p} == {q};
    RaceOne(codec, r0, Judge(p));
    RaceOne(codec, r1, Judge(q));
    RaceOne(codec, r2, Remove(p));
    var r3 := Racing(s.(lock := None), {q});
    RaceOne(codec, r3, Machine(Acquire(p)));
    var r4 := Racing(DoAcquire(r3.s, p).value, {q});
    RaceOne(codec, r4, Remove(q));
    t := TwoHolders(codec, r4, q);
    var moves := [Judge(p)] + [Judge(q)];
    RaceJoin(codec, r0, [Judge(p)], r1, [Judge(q)]);
    RaceJoin(codec, r0, moves, r2, [Remove(p)]);
    moves := moves + [Remove(p)];
    RaceJoin(codec, r0, moves, r3, [Machine(Acquire(p))]);
    moves := moves + [Machine(Acquire(p))];
    RaceJoin(codec, r0, moves, r4, [Remove(q)]);
    moves := moves + [Remove(q)];
    RaceJoin(codec, r0, moves, Make(codec, r4, Remove(q)).value, [Machine(Acquire(q))]);
    moves := moves + [Machine(Acquire(q))];
    assert moves == [Judge(p), Judge(q), Remove(p), Machine(Acquire(p)), Remove(q), Machine(Acquire(q))];
  }

  lemma ReachOne(codec: Codec, s: State, step: Step) returns (t: State)
    requires Reachable(codec, s) && Do(codec, s, step).Some?
    ensures Reachable(codec, t) && Do(codec, s, step) == Some(t)
  {
    hide Do, Reachable, Follow;
    t := Do(codec, s, step).value;
    FollowOne(codec, s, step);
    ReachFurther(codec, s, [step], t);
  }

  /** A new process comes to wait for the lock. */
  lemma JoinsQueue(codec: Codec, s: State, p: Pid, call: Call) returns (t: State)
    requires Reachable(codec, s) && p !in s.procs && p !in s.crashed && s.index == Absent && call.AbortCall?
    ensures Reachable(codec, t) && p in t.procs && t.procs[p].phase == Waiting(call)
    ensures t == s.(procs := s.procs[p := t.procs[p]], caps := t.caps)
  {
    hide Reachable;
    var started := ReachOne(codec, s, Open(p, DEFAULT_MAX_OBJECT_SIZE));
    t := ReachOne(codec, started, Invoke(p, call));
  }

  /** The race can be run: a reachable state in which two processes find the lock of a crashed creator. */
  lemma RaceCanBeRun(codec: Codec) returns (s: State, t: Racing)
    requires codec.Lawful()
    ensures Reachable(codec, s) && DoReclaim(s, 1).Some? && DoReclaim(s, 2).Some?
    ensures var moves := [Judge(1), Judge(2), Remove(1), Machine(Acquire(1)), Remove(2), Machine(Acquire(2))];
            Race(codec, Racing(s, {}), moves) == Some(t)
    ensures !OneHolder(t.s)
  {
    hide Reachable, Inv, Race;
    StartReachable(codec);
    var a := JoinsQueue(codec, Start, 0, AbortCall("u"));
    var b := JoinsQueue(codec, a, 1, AbortCall("u"));
    var c := JoinsQueue(codec, b, 2, AbortCall("u"));
    var d := ReachOne(codec, c, Acquire(0));
    s := ReachOne(codec, d, Crash(0));
    ReachableOk(codec, s);
    LockKept(codec, s);
    t := TwoReclaimsRace(codec, s, 1, 2);
  }

  lemma LockKept(codec: Codec, s: State)
    requires Inv(codec, s)
    ensures LockInv(s)
  {
  }

  // ---- the protocol's own runs are runs of this machine ----

  /** A reclaim is a judgement and a removal with nothing in between. */
  lemma StepIsRace(codec: Codec, s: State, step: Step) returns (moves: seq<Move>)
    requires Do(codec, s, step).Some?
    ensures Race(codec, Racing(s, {}), moves) == Some(Racing(Do(codec, s, step).value, {}))
    ensures AllClean(codec, Racing(s, {}), moves)
  {
    hide Race, AllClean, DoOpen, DoInvoke, DoAcquire, DoGiveUp, DoRead, DoCheck, DoStore, DoMutate, DoOpenTemp,
         DoWriteTemp, DoRename, DoFail, DoRelease, DoCrash, DoForeign;
    var r := Racing(s, {});
    if step.Reclaim? {
      var judged := Racing(s, {step.p});
      assert {} + {step.p} == {step.p} && {step.p} - {step.p} == {};
      RaceOne(codec, r, Judge(step.p));
      RaceOne(codec, judged, Remove(step.p));
      RaceJoin(codec, r, [Judge(step.p)], judged, [Remove(step.p)]);
      moves := [Judge(step.p)] + [Remove(step.p)];
      OneClean(codec, judged, Remove(step.p));
      NoRemovals(codec, r, Judge(step.p));
      CleanJoin(codec, r, [Judge(step.p)], judged, [Remove(step.p)]);
    } else {
      assert step.Crash? ==> {} - {step.p} == {};
      RaceOne(codec, r, Machine(step));
      NoRemovals(codec, r, Machine(step));
      moves := [Machine(step)];
    }
  }

  lemma OneClean(codec: Codec, r: Racing, move: Move)
    requires Race(codec, r, [move]).Some? && Clean(r, move)
    ensures AllClean(codec, r, [move])
  {
    assert [move][1..] == [];
  }

  lemma {:induction false} CleanJoin(codec: Codec, r: Racing, a: seq<Move>, t: Racing, b: seq<Move>)
    requires Race(codec, r, a) == Some(t) && AllClean(codec, r, a) && Race(codec, t, b).Some? && AllClean(codec, t, b)
    ensures Race(codec, r, a + b).Some? && AllClean(codec, r, a + b)
    decreases |a|
  {
    hide Make, Clean;
    RaceJoin(codec, r, a, t, b);
    if a == [] {
      assert a + b == b;
    } else {
      assert (a + b)[1..] == a[1..] + b;
      CleanJoin(codec, Make(codec, r, a[0]).value, a[1..], t, b);
    }
  }

  lemma {:induction false} RunIsRace(codec: Codec, s: State, steps: seq<Step>, t: State) returns (moves: seq<Move>)
    requires Follow(codec, s, steps) == Some(t)
    ensures Race(codec, Racing(s, {}), moves) == Some(Racing(t, {})) && AllClean(codec, Racing(s, {}), moves)
    decreases |steps|
  {
    hide Do;
    if steps == [] {
      moves := [];
    } else {
      var next := Do(codec, s, steps[0]).value;
      var first := StepIsRace(codec, s, steps[0]);
      var rest := RunIsRace(codec, next, steps[1..], t);
      RaceJoin(codec, Racing(s, {}), first, Racing(next, {}), rest);
      CleanJoin(codec, Racing(s, {}), first, Racing(next, {}), rest);
      moves := first + rest;
    }
  }

  /** The states the commit protocol reaches are exactly those that runs with clean removals reach, seen when
      nobody is about to remove a lock. */
  lemma ReachableIsClean(codec: Codec, s: State)
    ensures Reachable(codec, s) <==>
            exists moves :: Race(codec, Begin, moves) == Some(Racing(s, {})) && AllClean(codec, Begin, moves)
  {
    hide Race, AllClean, Follow;
    if Reachable(codec, s) {
      var steps :| Follow(codec, Start, steps) == Some(s);
      var moves := RunIsRace(codec, Start, steps, s);
    }
    if moves :| Race(codec, Begin, moves) == Some(Racing(s, {})) && AllClean(codec, Begin, moves) {
      CleanRunsAreReachable(codec, moves);
    }
  }

  // ---- a lost update ----

  lemma StillWritten(s: State, t: State, p: Pid, q: Pid, index: Buckets)
    requires Elsewhere(s, t, q) && p != q && p in s.procs && p in s.indexTemps && s.indexTemps[p] == Whole(index)
    ensures p in t.procs && t.procs[p] == s.procs[p] && p in t.indexTemps && t.indexTemps[p] == Whole(index)
  {
    assert p in s.indexTemps - {q};
    assert p in t.indexTemps - {q};
    assert (t.indexTemps - {q})[p] == (s.indexTemps - {q})[p];
  }

  /** The holder's side: it comes to the brink of its commit, and may go over it whatever has happened since. */
  lemma WritesIndex(codec: Codec, s: State, p: Pid, first: Call, w: World) returns (steps: seq<Step>, held: State)
    requires Ready(codec, s, p, first, w) && !first.UsesTable()
    ensures Follow(codec, s, steps) == Some(held) && held == WrittenOut(AtSave(codec, s, p, first, w), p)
  {
    hide Follow, Load, Allows, Admissible, SavesFor, BlobsFor, StoreAll, Loaded, Fits, WrittenOut;
    var ready := AtSave(codec, s, p, first, w);
    var before := ComesToSave(codec, s, p, first, w);
    Writes(codec, ready, p);
    FollowJoin(codec, s, before, ready, [OpenTemp(p), WriteTemp(p)]);
    steps, held := before + [OpenTemp(p), WriteTemp(p)], WrittenOut(ready, p);
  }

  lemma WrittenHeld(codec: Codec, s: State, p: Pid, q: Pid, first: Call, second: Call, w: World)
    requires Ready(codec, s, p, first, w) && !first.UsesTable() && p != q
    requires q in s.procs && s.procs[q].phase == Waiting(second) && Possible(codec, s, q, second, w)
    ensures var held := WrittenOut(AtSave(codec, s, p, first, w), p);
            held.lock == Some(p) && held.log == s.log && held.acks == s.acks && p in held.procs
            && held.procs[p].phase == Saving(first, SavesFor(codec, first, w), Written, None)
            && p in held.indexTemps && held.indexTemps[p] == Whole(After(first.m, w.index))
            && q in held.procs && held.procs[q] == s.procs[q]
            && ReadyToLock(codec, held.(lock := None), q, second, w)
  {
    hide Load, Allows, Admissible, BlobsFor, StoreAll, Fits, After, Apply;
  }

  /** A process that holds the lock and saves the index, merely slowly, loses its lock to a waiting one, which
      commits any call and returns success; then the first renames its file over that, and returns success too.
      Both updates are acknowledged, and the index file holds the first alone. */
  lemma StolenLockLosesUpdate(codec: Codec, s: State, p: Pid, q: Pid, first: Call, second: Call, w: World)
    returns (moves: seq<Move>, t: State)
    requires Ready(codec, s, p, first, w) && !first.UsesTable() && p != q
    requires q in s.procs && s.procs[q].phase == Waiting(second) && Possible(codec, s, q, second, w)
    ensures Race(codec, Racing(s, {}), moves) == Some(Racing(t, {}))
    ensures t.log == s.log + Events(SavesFor(codec, second, w)) + [Verbed(first.m)]
    ensures t.acks == s.acks + [Ack(second, |s.log|)] + [Ack(first, |t.log| - 1)]
    ensures t.index == Whole(After(first.m, w.index))
  {
    hide Race, Follow, Do, Load, Admissible, BlobsFor, StoreAll, Apply, After, Allows, Fits, Make, WrittenOut, AtSave,
         AllClean;
    var steps, held := WritesIndex(codec, s, p, first, w);
    WrittenHeld(codec, s, p, q, first, second, w);
    var before := RunIsRace(codec, s, steps, held);
    var stolen := held.(lock := None);
    var taken := Steals(codec, held, q);
    var middle, overtaken := WaitingCanCommit(codec, stolen, q, second, w);
    StillWritten(stolen, overtaken, p, q, After(first.m, w.index));
    var during := RunIsRace(codec, stolen, middle, overtaken);
    var renamed := Renames(codec, overtaken, p);
    FollowOne(codec, overtaken, Rename(p));
    t := Releases(codec, renamed, p);
    FollowJoin(codec, overtaken, [Rename(p)], renamed, [Release(p)]);
    var after := RunIsRace(codec, overtaken, [Rename(p)] + [Release(p)], t);
    RaceJoin(codec, Racing(s, {}), before, Racing(held, {}), taken);
    RaceJoin(codec, Racing(s, {}), before + taken, Racing(stolen, {}), during);
    RaceJoin(codec, Racing(s, {}), before + taken + during, Racing(overtaken, {}), after);
    moves := before + taken + during + after;
  }

  lemma Steals(codec: Codec, s: State, q: Pid) returns (moves: seq<Move>)
    requires q in s.procs && s.procs[q].phase.Waiting? && s.lock.Some?
    ensures Race(codec, Racing(s, {}), moves) == Some(Racing(s.(lock := None), {}))
  {
    hide Race;
    var judged := Racing(s, {q});
    assert {} + {q} == {q} && {q} - {q} == {};
    RaceOne(codec, Racing(s, {}), Judge(q));
    RaceOne(codec, judged, Remove(q));
    RaceJoin(codec, Racing(s, {}), [Judge(q)], judged, [Remove(q)]);
    moves := [Judge(q)] + [Remove(q)];
  }

  /** Making a bucket commits one verb, and leaves that bucket in the index. */
  lemma MakesBucket(codec: Codec, s: State, p: Pid, name: Str)
    requires HoldFiles(s, Nothing) && ValidBucketName(name)
    ensures var m := MakeBucketM(name, 0);
            Possible(codec, s, p, VerbCall(m), Nothing)
            && Events(SavesFor(codec, VerbCall(m), Nothing)) == [Verbed(m)]
            && After(m, map[]) == map[name := Bucket(0, false, [], map[])]
  {
    hide Apply, After, NothingToSave, Load;
    FirstBucket(codec, name);
    OneOrTwo(Nothing, SavesFor(codec, VerbCall(MakeBucketM(name, 0)), Nothing));
  }

  /** Two buckets made one after the other are both in the fold. */
  lemma BothMade(a: Str, b: Str)
    requires ValidBucketName(a) && ValidBucketName(b) && a != b
    ensures var log := [Verbed(MakeBucketM(a, 0)), Verbed(MakeBucketM(b, 0))];
            a in Fold(Verbs(log)) && b in Fold(Verbs(log))
  {
    hide ValidBucketName, Verbs;
    var m, n := MakeBucketM(a, 0), MakeBucketM(b, 0);
    VerbsConcat([Verbed(m)], [Verbed(n)]);
    OneVerb(Verbed(m));
    OneVerb(Verbed(n));
    assert [Verbed(m), Verbed(n)] == [Verbed(m)] + [Verbed(n)] && [m, n] == [m] + [n];
    TwoFold(m, n);
  }

  lemma TwoFold(m: Mutation, n: Mutation)
    ensures Fold([m, n]) == After(n, After(m, map[]))
  {
    hide After;
    assert [m, n][..1] == [m] && [m][..0] == [];
    assert Fold([m]) == After(m, Fold([]));
  }

  /** Such a run from an empty directory: two processes make different buckets, both return success, and the index
      file, which holds one of them only, is not the fold of the commits. */
  lemma BucketIsLost(codec: Codec) returns (moves: seq<Move>, t: State)
    ensures Race(codec, Begin, moves) == Some(Racing(t, {}))
    ensures |t.acks| == 2 && t.acks[0].call == VerbCall(MakeBucketM([98, 98, 98], 0))
    ensures t.acks[1].call == VerbCall(MakeBucketM([97, 97, 97], 0))
    ensures t.index.Whole? && [97, 97, 97] in t.index.value && [98, 98, 98] !in t.index.value
    ensures [98, 98, 98] in Fold(Verbs(t.log)) && t.index != Whole(Fold(Verbs(t.log)))
  {
    hide Race, Follow, Do, Load, AllClean, After, Fold, Verbs, Possible, SavesFor;
    var a: Str, b: Str := [97, 97, 97], [98, 98, 98];
    assert ValidBucketName(a) && ValidBucketName(b);
    var first, second := VerbCall(MakeBucketM(a, 0)), VerbCall(MakeBucketM(b, 0));
    var steps, s := TwoQueue(codec, second);
    MakesBucket(codec, s, 0, a);
    MakesBucket(codec, s, 1, b);
    var start := RunIsRace(codec, Start, steps, s);
    var rest;
    rest, t := StolenLockLosesUpdate(codec, s, 0, 1, first, second, Nothing);
    RaceJoin(codec, Begin, start, Racing(s, {}), rest);
    moves := start + rest;
    assert t.log == [Verbed(second.m), Verbed(first.m)];
    BothMade(b, a);
  }

  /** One process idle, another waiting with its call. */
  lemma TwoQueue(codec: Codec, call: Call) returns (steps: seq<Step>, s: State)
    requires call.VerbCall? && !call.m.PutM?
    ensures Follow(codec, Start, steps) == Some(s) && AtRest(s, 0, Nothing) && s.log == [] && s.acks == []
    ensures 1 in s.procs && s.procs[1].phase == Waiting(call)
  {
    hide Follow;
    var cap := DEFAULT_MAX_OBJECT_SIZE;
    Opens(codec, Start, 0, cap, Nothing);
    var one := WithNew(Start, 0, cap, map[]);
    Opens(codec, one, 1, cap, Nothing);
    var two := WithNew(one, 1, cap, map[]);
    FollowOne(codec, two, Invoke(1, call));
    s := With(two, 1, two.procs[1].(phase := Waiting(call)));
    FollowJoin(codec, Start, [Open(0, cap)], one, [Open(1, cap)]);
    FollowJoin(codec, Start, [Open(0, cap)] + [Open(1, cap)], two, [Invoke(1, call)]);
    steps := [Open(0, cap)] + [Open(1, cap)] + [Invoke(1, call)];
  }
}
