/** One run in which every kind of call succeeds, so that what is promised about acknowledged calls is promised
    about something: a bucket is made and versioned, an object is created if absent, deleted, created if absent
    again and replaced under a matching ETag, and another is uploaded in parts. */
module Exhibit {
  import opened Basics
  import opened Text
  import opened BucketModel
  import opened Mutations
  import opened History
  import opened Manifests
  import opened Multipart
  import opened Journal
  import opened Protocol
  import opened Safety
  import opened Guarantees
  import opened Scenarios
  import opened ExampleCodec

  // ---- the calls ----

  const Name: Str := [97, 97, 97]
  const Key: Str := [107]
  const Target: Str := [122]
  const Id := "u"

  const IfAbsent := Preconditions(None, Some("*"), None, None)

  function IfMatches(etag: string): Preconditions {
    Preconditions(Some(etag), None, None, None)
  }

  function MetaOf(codec: Codec, bytes: Payload): ObjectMeta {
    NewMeta(ObjectCid(codec, bytes, Chunked(DEFAULT_PART_CHUNK)), |bytes|, "t", 0)
  }

  function PutOf(codec: Codec, bytes: Payload, pre: Preconditions): Call {
    PutCall(PutM(Name, Key, MetaOf(codec, bytes), pre), bytes, Chunked(DEFAULT_PART_CHUNK))
  }

  const Fresh := Upload(Name, Target, DEFAULT_PART_CHUNK, "t", map[], 0, map[])

  function ThePart(codec: Codec): Part {
    PartOf(codec, 1, [0], DEFAULT_PART_CHUNK)
  }

  function Calls(codec: Codec): (calls: seq<Call>)
    ensures |calls| == 9
  {
    [VerbCall(MakeBucketM(Name, 0)), VerbCall(SetVersioningM(Name, true)),
     PutOf(codec, [], IfAbsent), VerbCall(DeleteM(Name, Key, 0)), PutOf(codec, [], IfAbsent),
     PutOf(codec, [0], IfMatches(MetaOf(codec, []).etag)),
     CreateCall(Id, Fresh), PartCall(Id, 1, [0]), CompleteCall(Id, [(1, ThePart(codec).etag)], 0)]
  }

  // ---- what they do ----

  function Only(b: Bucket): Buckets {
    map[Name := b]
  }

  lemma VerbStep(codec: Codec, m: Mutation, w: World, after: Buckets)
    requires !m.PutM? && Apply(m, w.index) == Ok(after) && !NothingToSave(m, w.index)
    ensures Admissible(codec, VerbCall(m)) && Allows(codec, VerbCall(m), w)
    ensures WorldAfter(codec, VerbCall(m), w) == w.(index := after)
    ensures Events(SavesFor(codec, VerbCall(m), w)) == [Verbed(m)]
  {
    hide Apply, NothingToSave;
    OneOrTwo(w, SavesFor(codec, VerbCall(m), w));
  }

  lemma PutStep(codec: Codec, call: Call, w: World, after: Buckets)
    requires call.PutCall? && call.m.PutM? && Apply(call.m, w.index) == Ok(after)
    ensures Allows(codec, call, w) && WorldAfter(codec, call, w) == w.(index := after)
    ensures Events(SavesFor(codec, call, w)) == [Verbed(call.m)]
  {
    hide Apply;
    OneOrTwo(w, SavesFor(codec, call, w));
  }

  lemma OnlyUpdated(a: Bucket, b: Bucket)
    ensures Only(a)[Name := b] == Only(b)
  {
  }

  lemma SettingApplies(b: Bucket)
    ensures Apply(SetVersioningM(Name, true), Only(b)) == Ok(Only(b.(versioning := true)))
  {
    OnlyUpdated(b, b.(versioning := true));
  }

  lemma DeleteApplies(b: Bucket)
    ensures Apply(DeleteM(Name, Key, 0), Only(b)) == Ok(Only(DeleteIn(b, Key, 0)))
    ensures Head(Only(DeleteIn(b, Key, 0)), Name, Key).Err?
  {
    DeleteHides(b, Key, 0);
    OnlyUpdated(b, DeleteIn(b, Key, 0));
  }

  lemma PutApplies(codec: Codec, b: Bucket, bytes: Payload, pre: Preconditions)
    requires pre.CheckWrite(CurrentEtag(Only(b), Name, Key))
    ensures Admissible(codec, PutOf(codec, bytes, pre))
    ensures var after := Only(PutIn(b, Key, MetaOf(codec, bytes)));
            Apply(PutOf(codec, bytes, pre).m, Only(b)) == Ok(after)
            && CurrentEtag(after, Name, Key) == Some(MetaOf(codec, bytes).etag)
  {
    hide ManifestOf;
    OnlyUpdated(b, PutIn(b, Key, MetaOf(codec, bytes)));
  }

  /** The bucket after the verbs and the puts. */
  function Built(codec: Codec, n: nat): Bucket
    requires n <= 5
  {
    if n == 0 then Bucket(0, false, [], map[])
    else
      var before := Built(codec, n - 1);
      if n == 1 then before.(versioning := true)
      else if n == 3 then DeleteIn(before, Key, 0)
      else PutIn(before, Key, MetaOf(codec, if n == 5 then [0] else []))
  }

  function Uploading(codec: Codec): Upload {
    Fresh.(parts := map[1 := ThePart(codec)])
  }

  /** The files after the first `n` calls. */
  function WorldOf(codec: Codec, n: nat): World
    requires n <= 8
  {
    World(if n == 0 then map[] else Only(Built(codec, Min(n - 1, 5))),
          if n < 7 then map[] else if n == 7 then map[Id := Fresh] else map[Id := Uploading(codec)])
  }

  lemma BuiltEtag(codec: Codec, n: nat)
    requires 2 <= n <= 5
    ensures CurrentEtag(Only(Built(codec, n)), Name, Key)
         == if n == 3 then None else Some(MetaOf(codec, if n == 5 then [0] else []).etag)
  {
    hide ManifestOf;
    if n == 3 { DeleteApplies(Built(codec, 2)); }
  }

  lemma Unborn(codec: Codec)
    ensures CurrentEtag(Only(Built(codec, 1)), Name, Key) == None
  {
  }

  /** The next call is admissible and allowed, and does what the next stage says. */
  ghost predicate StepOk(codec: Codec, n: nat)
    requires n < 8
  {
    var call, w := Calls(codec)[n], WorldOf(codec, n);
    Admissible(codec, call) && Allows(codec, call, w) && BodyFits(call, DEFAULT_MAX_OBJECT_SIZE)
    && WorldAfter(codec, call, w) == WorldOf(codec, n + 1)
    && |Events(SavesFor(codec, call, w))| == 1
  }

  lemma BucketOk(codec: Codec)
    ensures StepOk(codec, 0)
  {
    hide Apply, After, Allows, SavesFor, DeleteIn, PutIn, MetaOf, Admissible;
    assert ValidBucketName(Name);
    FirstBucket(codec, Name);
    VerbStep(codec, MakeBucketM(Name, 0), Nothing, Only(Built(codec, 0)));
  }

  lemma SettingOk(codec: Codec)
    ensures StepOk(codec, 1)
  {
    hide Apply, After, Allows, SavesFor, DeleteIn, PutIn, MetaOf, Admissible;
    SettingApplies(Built(codec, 0));
    VerbStep(codec, SetVersioningM(Name, true), WorldOf(codec, 1), Only(Built(codec, 1)));
  }

  lemma DeleteOk(codec: Codec)
    ensures StepOk(codec, 3)
  {
    hide Apply, After, Allows, SavesFor, DeleteIn, PutIn, MetaOf, Admissible;
    DeleteApplies(Built(codec, 2));
    VerbStep(codec, DeleteM(Name, Key, 0), WorldOf(codec, 3), Only(Built(codec, 3)));
  }

  lemma PutsOk(codec: Codec)
    requires Tight(MetaOf(codec, []).etag, IsQuote)
    ensures StepOk(codec, 2) && StepOk(codec, 4) && StepOk(codec, 5)
  {
    hide Apply, After, Allows, SavesFor, DeleteIn, PutIn, MetaOf, Admissible, CurrentEtag, TrimBoth;
    Unborn(codec);
    PutApplies(codec, Built(codec, 1), [], IfAbsent);
    PutStep(codec, PutOf(codec, [], IfAbsent), WorldOf(codec, 2), Only(Built(codec, 2)));
    BuiltEtag(codec, 3);
    PutApplies(codec, Built(codec, 3), [], IfAbsent);
    PutStep(codec, PutOf(codec, [], IfAbsent), WorldOf(codec, 4), Only(Built(codec, 4)));
    BuiltEtag(codec, 4);
    var etag := MetaOf(codec, []).etag;
    TrimTight(etag, IsQuote);
    PutApplies(codec, Built(codec, 4), [0], IfMatches(etag));
    PutStep(codec, PutOf(codec, [0], IfMatches(etag)), WorldOf(codec, 5), Only(Built(codec, 5)));
  }

  lemma UploadsOk(codec: Codec)
    ensures StepOk(codec, 6) && StepOk(codec, 7)
  {
    hide PartEtag, Chunks, Cids, PutIn, DeleteIn, MetaOf, Built;
    var create, put, w := CreateCall(Id, Fresh), PartCall(Id, 1, [0]), WorldOf(codec, 6);
    assert Name in w.index;
    assert map[][Id := Fresh] == map[Id := Fresh];
    assert |w.uploads| == 0;
    OneOrTwo(w, SavesFor(codec, create, w));
    var v := WorldOf(codec, 7);
    assert map[][1 := ThePart(codec)] == map[1 := ThePart(codec)];
    assert map[Id := Fresh][Id := Uploading(codec)] == map[Id := Uploading(codec)];
    OneOrTwo(v, SavesFor(codec, put, v));
  }

  /** The completion is allowed: its one part is cited by the ETag it was given. */
  lemma CompletionOk(codec: Codec)
    ensures Allows(codec, Calls(codec)[8], WorldOf(codec, 8))
    ensures Fits(codec, Calls(codec)[8], WorldOf(codec, 8), DEFAULT_MAX_OBJECT_SIZE)
  {
    hide PartEtag, Chunks, Cids, PutIn, DeleteIn, MetaOf, Built, Assemble;
    var upload, list, contents := Uploading(codec), [(1, ThePart(codec).etag)], [[0 as bv8]];
    assert Join(contents) == contents[0] + Join(contents[1..]);
    BackedAcceptable(codec, upload, list, contents);
    AssembledIsSinglePut(codec, upload, list, contents);
    assert Name in WorldOf(codec, 8).index;
  }

  // ---- the run ----

  /** The first `n` calls were made and acknowledged, in order. */
  ghost predicate Progressed(codec: Codec, s: State, n: nat)
    requires n <= 9
  {
    Reachable(codec, s) && Cap(s, 0) == DEFAULT_MAX_OBJECT_SIZE && |s.acks| == n
    && (n < 9 ==> |s.log| == n && AtRest(s, 0, WorldOf(codec, n)))
    && forall i :: 0 <= i < n ==> s.acks[i] == Ack(Calls(codec)[i], i)
  }

  lemma Progresses(codec: Codec, s: State, n: nat) returns (t: State)
    requires n < 9 && Progressed(codec, s, n)
    requires if n < 8 then StepOk(codec, n)
             else
               Admissible(codec, Calls(codec)[8]) && Allows(codec, Calls(codec)[8], WorldOf(codec, 8))
               && Fits(codec, Calls(codec)[8], WorldOf(codec, 8), DEFAULT_MAX_OBJECT_SIZE)
    ensures Progressed(codec, t, n + 1) && s.log <= t.log
  {
    hide Reachable, Follow, Calls, WorldOf, Admissible, Allows, SavesFor, Elsewhere, HoldFiles;
    var call, w := Calls(codec)[n], WorldOf(codec, n);
    var steps;
    if n < 8 { NotCompleting(codec, n); }
    steps, t := CallCanCommit(codec, s, 0, call, w);
    ReachFurther(codec, s, steps, t);
    SameCap(s, t, 0);
  }

  lemma NotCompleting(codec: Codec, n: nat)
    requires n < 8
    ensures !Calls(codec)[n].CompleteCall?
  {
  }

  lemma SameCap(s: State, t: State, p: Pid)
    requires Elsewhere(s, t, p)
    ensures Cap(t, p) == Cap(s, p)
  {
  }

  lemma Begun() returns (s: State)
    ensures Progressed(Example(), s, 0)
  {
    hide Example, Follow;
    StartReachable(Example());
    Opens(Example(), Start, 0, DEFAULT_MAX_OBJECT_SIZE, Nothing);
    s := WithNew(Start, 0, DEFAULT_MAX_OBJECT_SIZE, map[]);
    ReachFurther(Example(), Start, [Open(0, DEFAULT_MAX_OBJECT_SIZE)], s);
  }

  lemma StepsOk(codec: Codec, n: nat)
    requires n < 8 && Tight(MetaOf(codec, []).etag, IsQuote)
    ensures StepOk(codec, n)
  {
    hide StepOk;
    BucketOk(codec);
    SettingOk(codec);
    DeleteOk(codec);
    PutsOk(codec);
    UploadsOk(codec);
  }

  lemma VersionedNow(codec: Codec, s: State)
    requires codec.Lawful() && Progressed(codec, s, 6)
    ensures VersionedAt(Fold(Verbs(s.log)), Name)
  {
    hide Reachable, Fold, Verbs, Calls, MetaOf, FileIs, Built;
    IndexIsOneHistory(codec, s);
    LoadIsFile(s.index, Fold(Verbs(s.log)));
    BuiltVersioned(codec, 5);
  }

  lemma {:induction false} BuiltVersioned(codec: Codec, n: nat)
    requires 1 <= n <= 5
    ensures Built(codec, n).versioning
  {
    hide MetaOf;
    if n > 1 { BuiltVersioned(codec, n - 1); }
  }

  /** A codec that meets every assumption, and a reachable state whose acknowledgements hold each kind of call:
      two creations of one object if absent with a delete between them, a put under a matching ETag to a
      versioned bucket, a part and a completion. */
  lemma EveryKindSucceeds() returns (s: State)
    ensures Example().Lawful() && NoMarkerCids(Example()) && Reachable(Example(), s)
    ensures |s.acks| == 9 && forall i :: 0 <= i < 9 ==> s.acks[i] == Ack(Calls(Example())[i], i)
    ensures 6 <= |s.log| && VersionedAt(Fold(Verbs(s.log[..6])), Name)
  {
    hide Example, Progressed, StepOk, Reachable, Fold, Verbs, VersionedAt, NoMarkerCids;
    var codec := Example();
    ExampleMeetsAssumptions();
    s := Begun();
    ghost var six := s;
    for n := 0 to 9
      invariant Progressed(codec, s, n)
      invariant n > 6 ==> six.log <= s.log && |six.log| == 6 && VersionedAt(Fold(Verbs(six.log)), Name)
    {
      if n == 6 {
        six := s;
        VersionedNow(codec, s);
        ProgressedMeans(codec, s, 6);
      }
      if n < 8 {
        EtagTight(codec);
        StepsOk(codec, n);
      } else {
        CompletionOk(codec);
        CompletionAdmissible(codec);
      }
      s := Progresses(codec, s, n);
    }
    ProgressedMeans(codec, s, 9);
    assert s.log[..6] == six.log;
  }

  lemma ProgressedMeans(codec: Codec, s: State, n: nat)
    requires n <= 9 && Progressed(codec, s, n)
    ensures Reachable(codec, s) && |s.acks| == n && (n < 9 ==> |s.log| == n)
    ensures forall i :: 0 <= i < n ==> s.acks[i] == Ack(Calls(codec)[i], i)
  {
  }

  lemma EtagTight(codec: Codec)
    requires forall bytes :: Tight(codec.cid(bytes), IsQuote)
    ensures Tight(MetaOf(codec, []).etag, IsQuote)
  {
    hide ManifestOf;
  }

  lemma CompletionAdmissible(codec: Codec)
    ensures Admissible(codec, Calls(codec)[8])
  {
  }
}
