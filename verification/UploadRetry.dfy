/** Uploading chunks in parallel with retries: the loop of Save that sends the chunks, the
    workers, the retry timers and collectChunkUploadError (pkg/snapstore/utils.go,
    pkg/snapstore/s3_snapstore.go, pkg/snapstore/gcs_snapstore.go). */
module UploadRetry {
  import opened SnapTypes
  import opened ChunkedUpload
  import opened Sums

  const MAX_RETRY_ATTEMPTS := 5

  datatype Config = Config(file: seq<byte>, chunkSize: int, chunks: seq<Chunk>, workers: nat)
  {
    ghost predicate Valid() {
      && file != [] && chunkSize > 0 && workers > 0
      && chunks != [] && AreChunks(chunks, |file|, chunkSize)
    }
  }

  /** A chunk in the hands of a worker; the result is there once the upload has returned. */
  datatype Job = Job(chunk: Chunk, result: Option<bool>)

  datatype Result = Result(chunk: Chunk, ok: bool)

  /** A retry timer; an armed one has seen the stop channel open and is about to send. */
  datatype Timer = Timer(chunk: Chunk, armed: bool)

  datatype Collector = Collecting(remaining: int) | ReturnedNil | ReturnedError(chunk: Chunk)

  datatype State = State(
    unsent: seq<Chunk>,
    uploadCh: seq<Chunk>,
    busy: seq<Job>,
    exited: nat,
    resCh: seq<Result>,
    timers: seq<Timer>,
    collector: Collector,
    parts: map<int, seq<byte>>,
    finished: seq<Result>,         // chunks whose success or final failure was collected, or that were dropped
    tries: seq<nat>,               // uploads started so far, per chunk
    received: nat)                 // results collected so far

  datatype Action =
    | SendChunk
    | Take
    | Upload(j: nat, ok: bool, debris: seq<byte>)
    | SendResult(j: nat)
    | Collect
    | CheckTimer(j: nat)
    | FireTimer(j: nat)
    | Exit

  function Init(c: Config): State {
    State(c.chunks, [], [], 0, [], [], Collecting(|c.chunks|), map[], [], seq(|c.chunks|, _ => 0), 0)
  }

  function Step(c: Config, s: State, a: Action): State {
    match a
    case SendChunk =>
      if s.unsent != [] && |s.uploadCh| < |c.chunks| then
        s.(unsent := Drop(s.unsent, 0), uploadCh := s.uploadCh + [s.unsent[0]])
      else s
    case Take =>
      if s.uploadCh != [] && |s.busy| + s.exited < c.workers then
        s.(uploadCh := Drop(s.uploadCh, 0), busy := s.busy + [Job(s.uploadCh[0], None)])
      else s
    case Upload(j, ok, debris) => StepUpload(c, s, j, ok, debris)
    case SendResult(j) =>
      if j < |s.busy| && s.busy[j].result.Some? && |s.resCh| < |c.chunks| then
        s.(busy := Drop(s.busy, j), resCh := s.resCh + [Result(s.busy[j].chunk, s.busy[j].result.value)])
      else s
    case Collect => StepCollect(s)
    case CheckTimer(j) =>
      if j < |s.timers| && !s.timers[j].armed then
        if s.collector.Collecting? then s.(timers := s.timers[j := Timer(s.timers[j].chunk, true)])
        else s.(timers := Drop(s.timers, j), finished := s.finished + [Result(s.timers[j].chunk, false)])
      else s
    case FireTimer(j) =>
      if j < |s.timers| && s.timers[j].armed && |s.uploadCh| < |c.chunks| then
        s.(timers := Drop(s.timers, j), uploadCh := s.uploadCh + [s.timers[j].chunk])
      else s
    case Exit =>
      if !s.collector.Collecting? && |s.busy| + s.exited < c.workers then s.(exited := s.exited + 1) else s
  }

  /** A successful upload stores the section of the file under its part number; a failed one
      may leave anything there. */
  function StepUpload(c: Config, s: State, j: nat, ok: bool, debris: seq<byte>): State {
    if j < |s.busy| && s.busy[j].result.None? && IsChunk(c, s.busy[j].chunk) && |s.tries| == |c.chunks| then
      var chunk := s.busy[j].chunk;
      s.(busy := s.busy[j := Job(chunk, Some(ok))],
         parts := s.parts[PartNumber(chunk) := if ok then Section(c.file, chunk) else debris],
         tries := s.tries[chunk.id - 1 := s.tries[chunk.id - 1] + 1])
    else s
  }

  function StepCollect(s: State): State {
    if s.unsent == [] && s.resCh != [] && s.collector.Collecting? then
      var r := s.resCh[0];
      var rest := s.(resCh := Drop(s.resCh, 0), received := s.received + 1);
      if !r.ok && r.chunk.attempt < MAX_RETRY_ATTEMPTS then
        rest.(timers := s.timers + [Timer(r.chunk.(attempt := r.chunk.attempt + 1), false)])
      else
        rest.(finished := s.finished + [r],
              collector := if !r.ok then ReturnedError(r.chunk)
                           else if s.collector.remaining == 1 then ReturnedNil
                           else Collecting(s.collector.remaining - 1))
    else s
  }

  function Run(c: Config, actions: seq<Action>): State {
    if actions == [] then Init(c)
    else Step(c, Run(c, actions[..|actions| - 1]), actions[|actions| - 1])
  }

  // ---------------------------------------------------------------------------
  // Invariant
  // ---------------------------------------------------------------------------

  /** A chunk as it was cut, whatever its attempt. */
  predicate IsChunk(c: Config, chunk: Chunk) {
    && 1 <= chunk.id <= |c.chunks| && chunk == c.chunks[chunk.id - 1].(attempt := chunk.attempt)
    && chunk.size > 0 && 0 <= chunk.offset < |c.file|
  }

  /** The part of this chunk is stored as it should be. */
  predicate Stored(c: Config, parts: map<int, seq<byte>>, chunk: Chunk) {
    IsChunk(c, chunk) && HoldsSection(parts, c.file, chunk)
  }

  /** A chunk that waits for its attempt. */
  predicate Waiting(c: Config, tries: seq<nat>, chunk: Chunk) {
    IsChunk(c, chunk) && chunk.id <= |tries| && tries[chunk.id - 1] == chunk.attempt <= MAX_RETRY_ATTEMPTS
  }

  /** A chunk whose attempt is over. */
  predicate Tried(c: Config, tries: seq<nat>, parts: map<int, seq<byte>>, r: Result) {
    && IsChunk(c, r.chunk) && r.chunk.id <= |tries|
    && tries[r.chunk.id - 1] == r.chunk.attempt + 1 <= MAX_RETRY_ATTEMPTS + 1
    && (r.ok ==> Stored(c, parts, r.chunk))
  }

  /** A chunk that is not tried again. */
  predicate Finished(c: Config, tries: seq<nat>, parts: map<int, seq<byte>>, r: Result) {
    && IsChunk(c, r.chunk) && r.chunk.id <= |tries| && tries[r.chunk.id - 1] <= MAX_RETRY_ATTEMPTS + 1
    && (r.ok ==> Stored(c, parts, r.chunk))
  }

  predicate JobOk(c: Config, tries: seq<nat>, parts: map<int, seq<byte>>, job: Job) {
    match job.result
    case None => Waiting(c, tries, job.chunk)
    case Some(ok) => Tried(c, tries, parts, Result(job.chunk, ok))
  }

  ghost predicate ChunkInv(c: Config, s: State) {
    && |s.tries| == |c.chunks|
    && (forall p :: 0 <= p < |s.unsent| ==> Waiting(c, s.tries, s.unsent[p]))
    && (forall p :: 0 <= p < |s.uploadCh| ==> Waiting(c, s.tries, s.uploadCh[p]))
    && (forall p :: 0 <= p < |s.timers| ==> Waiting(c, s.tries, s.timers[p].chunk))
    && (forall p :: 0 <= p < |s.busy| ==> JobOk(c, s.tries, s.parts, s.busy[p]))
    && (forall p :: 0 <= p < |s.resCh| ==> Tried(c, s.tries, s.parts, s.resCh[p]))
    && (forall p :: 0 <= p < |s.finished| ==> Finished(c, s.tries, s.parts, s.finished[p]))
  }

  function Tokens(s: State): int {
    |s.unsent| + |s.uploadCh| + |s.busy| + |s.resCh| + |s.timers| + |s.finished|
  }

  function ChunkId(chunk: Chunk): int { chunk.id }
  function JobId(job: Job): int { job.chunk.id }
  function ResultId(r: Result): int { r.chunk.id }
  function TimerId(t: Timer): int { t.chunk.id }

  /** The ids of all chunks, wherever they are. */
  function Ids(s: State): multiset<int> {
    Bag(s.unsent, ChunkId) + Bag(s.uploadCh, ChunkId) + Bag(s.busy, JobId) + Bag(s.resCh, ResultId)
    + Bag(s.timers, TimerId) + Bag(s.finished, ResultId)
  }

  function Left(attempt: nat): nat {
    if attempt <= MAX_RETRY_ATTEMPTS then MAX_RETRY_ATTEMPTS + 1 - attempt else 0
  }
  function ChunkLeft(chunk: Chunk): nat { Left(chunk.attempt) }
  function JobLeft(job: Job): nat { Left(job.chunk.attempt) }
  function ResultLeft(r: Result): nat { Left(r.chunk.attempt) }
  function TimerLeft(t: Timer): nat { Left(t.chunk.attempt) }

  /** How many results can still be collected. */
  function Potential(s: State): int {
    Sum(s.unsent, ChunkLeft) + Sum(s.uploadCh, ChunkLeft) + Sum(s.busy, JobLeft) + Sum(s.resCh, ResultLeft)
    + Sum(s.timers, TimerLeft)
  }

  ghost predicate CollectorInv(c: Config, s: State) {
    match s.collector
    case Collecting(remaining) =>
      && remaining == |c.chunks| - |s.finished| > 0 && s.exited == 0
      && forall p :: 0 <= p < |s.finished| ==> s.finished[p].ok
    case ReturnedNil => |s.finished| == |c.chunks| && forall p :: 0 <= p < |s.finished| ==> s.finished[p].ok
    case ReturnedError(chunk) =>
      IsChunk(c, chunk) && chunk.id <= |s.tries| && s.tries[chunk.id - 1] == MAX_RETRY_ATTEMPTS + 1
  }

  ghost predicate CountInv(c: Config, s: State) {
    && Tokens(s) == |c.chunks|
    && Ids(s) == Bag(c.chunks, ChunkId)
    && s.received + Potential(s) <= 6 * |c.chunks|
    && |s.busy| + s.exited <= c.workers
  }

  ghost predicate Inv(c: Config, s: State) {
    ChunkInv(c, s) && CountInv(c, s) && CollectorInv(c, s)
  }

  // ---------------------------------------------------------------------------
  // Every step keeps it
  // ---------------------------------------------------------------------------

  lemma InitInv(c: Config)
    requires c.Valid()
    ensures Inv(c, Init(c))
  {
    hide Sum, Bag;
    var s := Init(c);
    forall p | 0 <= p < |c.chunks| ensures Waiting(c, s.tries, c.chunks[p]) {
      PartNumberIsId(c.chunks, |c.file|, c.chunkSize, p);
    }
    assert Sum(s.unsent, ChunkLeft) == 6 * |c.chunks| by { FullPotential(c.chunks); }
    EmptyCounts();
  }

  lemma EmptyCounts()
    ensures Bag<Chunk>([], ChunkId) == multiset{} && Bag<Job>([], JobId) == multiset{}
    ensures Bag<Result>([], ResultId) == multiset{} && Bag<Timer>([], TimerId) == multiset{}
    ensures Sum<Chunk>([], ChunkLeft) == 0 && Sum<Job>([], JobLeft) == 0
    ensures Sum<Result>([], ResultLeft) == 0 && Sum<Timer>([], TimerLeft) == 0
  {
  }

  lemma {:induction false} FullPotential(chunks: seq<Chunk>)
    requires forall p :: 0 <= p < |chunks| ==> chunks[p].attempt == 0
    ensures Sum(chunks, ChunkLeft) == 6 * |chunks|
  {
    if chunks != [] { FullPotential(chunks[..|chunks| - 1]); }
  }

  lemma SendChunkKeeps(c: Config, s: State)
    requires Inv(c, s)
    ensures Inv(c, Step(c, s, SendChunk))
  {
    hide Sum, Bag, Waiting, Tried, Finished, JobOk, IsChunk;
    if s.unsent != [] {
      DropCounts(s.unsent, 0, ChunkLeft, ChunkId);
      SnocCounts(s.uploadCh, s.unsent[0], ChunkLeft, ChunkId);
    }
  }

  lemma TakeKeeps(c: Config, s: State)
    requires Inv(c, s)
    ensures Inv(c, Step(c, s, Take))
  {
    hide Sum, Bag, Waiting, Tried, Finished, IsChunk;
    if s.uploadCh != [] {
      DropCounts(s.uploadCh, 0, ChunkLeft, ChunkId);
      SnocCounts(s.busy, Job(s.uploadCh[0], None), JobLeft, JobId);
    }
  }

  lemma SendResultKeeps(c: Config, s: State, j: nat)
    requires Inv(c, s)
    ensures Inv(c, Step(c, s, SendResult(j)))
  {
    hide Sum, Bag, Waiting, Tried, Finished, IsChunk;
    if j < |s.busy| && s.busy[j].result.Some? {
      DropCounts(s.busy, j, JobLeft, JobId);
      SnocCounts(s.resCh, Result(s.busy[j].chunk, s.busy[j].result.value), ResultLeft, ResultId);
    }
  }

  lemma FireTimerKeeps(c: Config, s: State, j: nat)
    requires Inv(c, s)
    ensures Inv(c, Step(c, s, FireTimer(j)))
  {
    hide Sum, Bag, Waiting, Tried, Finished, JobOk, IsChunk;
    if j < |s.timers| {
      DropCounts(s.timers, j, TimerLeft, TimerId);
      SnocCounts(s.uploadCh, s.timers[j].chunk, ChunkLeft, ChunkId);
    }
  }

  lemma CheckTimerKeeps(c: Config, s: State, j: nat)
    requires Inv(c, s)
    ensures Inv(c, Step(c, s, CheckTimer(j)))
  {
    hide Sum, Bag, Tried, JobOk, IsChunk;
    if j < |s.timers| && !s.timers[j].armed {
      DropCounts(s.timers, j, TimerLeft, TimerId);
      SnocCounts(s.finished, Result(s.timers[j].chunk, false), ResultLeft, ResultId);
      if s.collector.Collecting? {
        UpdateCounts(s.timers, j, Timer(s.timers[j].chunk, true), TimerLeft, TimerId);
      }
    }
  }

  lemma AfterResult(c: Config, tries: seq<nat>, parts: map<int, seq<byte>>, r: Result)
    requires Tried(c, tries, parts, r)
    ensures IsChunk(c, r.chunk) && r.chunk.attempt <= MAX_RETRY_ATTEMPTS && Finished(c, tries, parts, r)
    ensures 1 <= r.chunk.id <= |tries| && tries[r.chunk.id - 1] == r.chunk.attempt + 1
    ensures r.chunk.attempt < MAX_RETRY_ATTEMPTS ==> Waiting(c, tries, r.chunk.(attempt := r.chunk.attempt + 1))
  {
  }

  lemma CollectKeepsChunks(c: Config, s: State)
    requires Inv(c, s)
    ensures ChunkInv(c, StepCollect(s)) && CollectorInv(c, StepCollect(s))
  {
    hide CountInv, JobOk, Waiting, Tried, Finished, IsChunk;
    if s.resCh != [] { AfterResult(c, s.tries, s.parts, s.resCh[0]); }
  }

  lemma CollectKeepsCounts(c: Config, s: State)
    requires Inv(c, s)
    ensures CountInv(c, StepCollect(s))
  {
    hide Sum, Bag, JobOk, Waiting, Finished, IsChunk, CollectorInv;
    if s.resCh != [] {
      var r := s.resCh[0];
      assert r.chunk.attempt <= MAX_RETRY_ATTEMPTS;
      hide ChunkInv;
      DropCounts(s.resCh, 0, ResultLeft, ResultId);
      SnocCounts(s.timers, Timer(r.chunk.(attempt := r.chunk.attempt + 1), false), TimerLeft, TimerId);
      SnocCounts(s.finished, r, ResultLeft, ResultId);
    }
  }

  /** No two chunks have the same id. */
  lemma IdsAreUnique(c: Config, s: State, id: int)
    requires c.Valid() && Ids(s) == Bag(c.chunks, ChunkId)
    ensures Ids(s)[id] <= 1
  {
    hide Bag;
    DistinctBag(c.chunks, ChunkId, id);
  }

  /** The id a worker is uploading is nowhere else. */
  lemma OthersDiffer(c: Config, s: State, j: nat)
    requires c.Valid() && Ids(s) == Bag(c.chunks, ChunkId) && j < |s.busy|
    ensures var id := s.busy[j].chunk.id;
            && (forall p :: 0 <= p < |s.unsent| ==> s.unsent[p].id != id)
            && (forall p :: 0 <= p < |s.uploadCh| ==> s.uploadCh[p].id != id)
            && (forall p :: 0 <= p < |s.timers| ==> s.timers[p].chunk.id != id)
            && (forall p :: 0 <= p < |s.busy| && p != j ==> s.busy[p].chunk.id != id)
            && (forall p :: 0 <= p < |s.resCh| ==> s.resCh[p].chunk.id != id)
            && (forall p :: 0 <= p < |s.finished| ==> s.finished[p].chunk.id != id)
  {
    hide Bag;
    var id := s.busy[j].chunk.id;
    IdsAreUnique(c, s, id);
    DropCounts(s.busy, j, JobLeft, JobId);
    NotInBag(s.unsent, ChunkId, id);
    NotInBag(s.uploadCh, ChunkId, id);
    NotInBag(s.timers, TimerId, id);
    NotInBag(Drop(s.busy, j), JobId, id);
    NotInBag(s.resCh, ResultId, id);
    NotInBag(s.finished, ResultId, id);
    forall p | 0 <= p < |s.busy| && p != j ensures s.busy[p].chunk.id != id {
      assert JobId(Drop(s.busy, j)[if p < j then p else p - 1]) != id;
    }
  }

  /** An attempt on one chunk does not touch what is known about another. */
  lemma OtherChunks(c: Config, s: State, j: nat, ok: bool, debris: seq<byte>, r: Result)
    requires j < |s.busy| && IsChunk(c, s.busy[j].chunk) && r.chunk.id != s.busy[j].chunk.id
    requires c.Valid() && |s.tries| == |c.chunks|
    ensures var t := StepUpload(c, s, j, ok, debris);
            && (Waiting(c, s.tries, r.chunk) ==> Waiting(c, t.tries, r.chunk))
            && (Tried(c, s.tries, s.parts, r) ==> Tried(c, t.tries, t.parts, r))
            && (Finished(c, s.tries, s.parts, r) ==> Finished(c, t.tries, t.parts, r))
  {
    PartNumberIsId(c.chunks, |c.file|, c.chunkSize, s.busy[j].chunk.id - 1);
  }

  lemma UploadKeepsChunks(c: Config, s: State, j: nat, ok: bool, debris: seq<byte>)
    requires c.Valid() && Inv(c, s) && j < |s.busy| && s.busy[j].result.None?
    ensures ChunkInv(c, StepUpload(c, s, j, ok, debris))
  {
    hide Ids, Potential, CollectorInv, Waiting, Tried, Finished;
    var t := StepUpload(c, s, j, ok, debris);
    var chunk := s.busy[j].chunk;
    assert IsChunk(c, chunk) && JobOk(c, t.tries, t.parts, t.busy[j]) by { UploadedJob(c, s, j, ok, debris); }
    OthersDiffer(c, s, j);
    forall r: Result | r.chunk.id != chunk.id
      ensures Waiting(c, s.tries, r.chunk) ==> Waiting(c, t.tries, r.chunk)
      ensures Tried(c, s.tries, s.parts, r) ==> Tried(c, t.tries, t.parts, r)
      ensures Finished(c, s.tries, s.parts, r) ==> Finished(c, t.tries, t.parts, r)
    {
      OtherChunks(c, s, j, ok, debris, r);
    }
    forall x: Chunk | x.id != chunk.id ensures Waiting(c, s.tries, x) ==> Waiting(c, t.tries, x) {
      OtherChunks(c, s, j, ok, debris, Result(x, true));
    }
  }

  lemma UploadedJob(c: Config, s: State, j: nat, ok: bool, debris: seq<byte>)
    requires c.Valid() && |s.tries| == |c.chunks| && j < |s.busy| && s.busy[j].result.None?
    requires Waiting(c, s.tries, s.busy[j].chunk)
    ensures var t := StepUpload(c, s, j, ok, debris); JobOk(c, t.tries, t.parts, t.busy[j])
    ensures IsChunk(c, s.busy[j].chunk)
  {
    PartNumberIsId(c.chunks, |c.file|, c.chunkSize, s.busy[j].chunk.id - 1);
  }

  /** A chunk that has been given up is not being uploaded. */
  lemma UploadKeepsError(c: Config, s: State, j: nat, ok: bool, debris: seq<byte>)
    requires c.Valid() && ChunkInv(c, s) && CollectorInv(c, s) && j < |s.busy| && s.busy[j].result.None?
    ensures CollectorInv(c, StepUpload(c, s, j, ok, debris))
  {
    assert JobOk(c, s.tries, s.parts, s.busy[j]);
    hide ChunkInv, HoldsSection, AreChunks;
  }

  lemma UploadKeeps(c: Config, s: State, j: nat, ok: bool, debris: seq<byte>)
    requires c.Valid() && Inv(c, s)
    ensures Inv(c, Step(c, s, Upload(j, ok, debris)))
  {
    hide Sum, Bag, ChunkInv, CollectorInv;
    if j < |s.busy| && s.busy[j].result.None? {
      UploadKeepsChunks(c, s, j, ok, debris);
      UploadKeepsError(c, s, j, ok, debris);
      UpdateCounts(s.busy, j, Job(s.busy[j].chunk, Some(ok)), JobLeft, JobId);
    }
  }

  lemma StepKeeps(c: Config, s: State, a: Action)
    requires c.Valid() && Inv(c, s)
    ensures Inv(c, Step(c, s, a))
  {
    match a
    case SendChunk => hide *; SendChunkKeeps(c, s);
    case Take => hide *; TakeKeeps(c, s);
    case Upload(j, ok, debris) => hide *; UploadKeeps(c, s, j, ok, debris);
    case SendResult(j) => hide *; SendResultKeeps(c, s, j);
    case Collect => hide *; CollectKeeps(c, s);
    case CheckTimer(j) => hide *; CheckTimerKeeps(c, s, j);
    case FireTimer(j) => hide *; FireTimerKeeps(c, s, j);
    case Exit => hide *; ExitKeeps(c, s);
  }

  lemma CollectKeeps(c: Config, s: State)
    requires c.Valid() && Inv(c, s)
    ensures Inv(c, Step(c, s, Collect))
  {
    hide ChunkInv, CountInv, CollectorInv, StepCollect;
    CollectKeepsChunks(c, s);
    CollectKeepsCounts(c, s);
  }

  lemma ExitKeeps(c: Config, s: State)
    requires c.Valid() && Inv(c, s)
    ensures Inv(c, Step(c, s, Exit))
  {
    hide Sum, Bag, IsChunk;
  }

  lemma {:induction false} RunKeeps(c: Config, actions: seq<Action>)
    requires c.Valid()
    ensures Inv(c, Run(c, actions))
  {
    hide Inv, Init, Step;
    if actions == [] {
      InitInv(c);
    } else {
      RunKeeps(c, actions[..|actions| - 1]);
      StepKeeps(c, Run(c, actions[..|actions| - 1]), actions[|actions| - 1]);
    }
  }

  /** What Save sets up: for a validated chunk size the channels hold at most one chunk more than
      the limit of the store. */
  lemma SaveSetsUp(file: seq<byte>, minChunkSize: int, limit: int, chunks: seq<Chunk>, workers: nat)
    requires file != [] && workers > 0 && minChunkSize >= MIN_CHUNK_SIZE && 0 < limit <= MIN_CHUNK_SIZE
    requires AreChunks(chunks, |file|, ChunkSize(|file|, minChunkSize, limit))
    ensures Config(file, ChunkSize(|file|, minChunkSize, limit), chunks, workers).Valid()
    ensures |chunks| <= limit + 1
  {
    var chunkSize := ChunkSize(|file|, minChunkSize, limit);
    ChunkBound(|file|, minChunkSize, limit);
    CountOfChunks(|file|, chunkSize, |chunks|);
  }

  // ---------------------------------------------------------------------------
  // Every run
  // ---------------------------------------------------------------------------

  /** The outstanding chunks and the successes are always all chunks, each once; so no send
      finds its channel full. */
  lemma TokensConserved(c: Config, actions: seq<Action>)
    requires c.Valid()
    ensures var s := Run(c, actions);
            && Tokens(s) == |c.chunks| && Ids(s) == Bag(c.chunks, ChunkId)
            && (s.unsent != [] || s.timers != [] ==> |s.uploadCh| < |c.chunks|)
            && (s.busy != [] ==> |s.resCh| < |c.chunks|)
  {
    hide Run, Ids, Bag;
    RunKeeps(c, actions);
  }

  /** Each chunk is tried at most six times, and at most six results per chunk are collected. */
  lemma TriesAreBounded(c: Config, actions: seq<Action>)
    requires c.Valid()
    ensures var s := Run(c, actions);
            && s.received <= 6 * |c.chunks|
            && |s.tries| == |c.chunks|
            && forall k :: 0 <= k < |c.chunks| ==> s.tries[k] <= 6
  {
    hide Run, Bag, Sum;
    RunKeeps(c, actions);
    var s := Run(c, actions);
    forall k | 0 <= k < |c.chunks| ensures s.tries[k] <= 6 {
      EveryChunkIsSomewhere(c, s, k);
    }
  }

  lemma EveryChunkIsSomewhere(c: Config, s: State, k: nat)
    requires c.Valid() && ChunkInv(c, s) && Ids(s) == Bag(c.chunks, ChunkId) && k < |c.chunks|
    ensures s.tries[k] <= 6
  {
    hide Bag;
    InBag(c.chunks, ChunkId, k);
    var id := k + 1;
    assert ChunkId(c.chunks[k]) == id;
    if id in Bag(s.unsent, ChunkId) {
      var p := FromBag(s.unsent, ChunkId, id);
    } else if id in Bag(s.uploadCh, ChunkId) {
      var p := FromBag(s.uploadCh, ChunkId, id);
    } else if id in Bag(s.busy, JobId) {
      var p := FromBag(s.busy, JobId, id);
    } else if id in Bag(s.resCh, ResultId) {
      var p := FromBag(s.resCh, ResultId, id);
    } else if id in Bag(s.timers, TimerId) {
      var p := FromBag(s.timers, TimerId, id);
    } else {
      var p := FromBag(s.finished, ResultId, id);
    }
  }

  /** The collector returns an error only for a chunk that has been tried six times. */
  lemma ErrorMeansExhausted(c: Config, actions: seq<Action>)
    requires c.Valid() && Run(c, actions).collector.ReturnedError?
    ensures var s := Run(c, actions);
            && 1 <= s.collector.chunk.id <= |c.chunks| == |s.tries|
            && s.tries[s.collector.chunk.id - 1] == 6
  {
    hide Run, Bag, Sum;
    RunKeeps(c, actions);
  }

  /** The collector returns nil only when every chunk has been uploaded, and then the parts
      together are the file, whatever failed attempts have left behind. */
  lemma NilMeansUploaded(c: Config, actions: seq<Action>)
    requires c.Valid() && Run(c, actions).collector.ReturnedNil?
    ensures var s := Run(c, actions);
            && (forall k :: 1 <= k <= |c.chunks| ==> k in s.parts)
            && Reassemble(s.parts, |c.chunks|) == c.file
  {
    hide Run, Bag, Sum, Reassemble;
    RunKeeps(c, actions);
    var s := Run(c, actions);
    forall k | 0 <= k < |c.chunks|
      ensures HoldsSection(s.parts, c.file, c.chunks[k])
    {
      FinishedChunk(c, s, k);
    }
    ReassembledIsFile(c.file, c.chunkSize, c.chunks, s.parts);
  }

  lemma FinishedChunk(c: Config, s: State, k: nat)
    requires c.Valid() && Inv(c, s) && s.collector.ReturnedNil? && k < |c.chunks|
    ensures Stored(c, s.parts, c.chunks[k])
  {
    hide Bag, Sum;
    EmptyCounts();
    assert Ids(s) == Bag(s.finished, ResultId);
    InBag(c.chunks, ChunkId, k);
    assert ChunkId(c.chunks[k]) == k + 1;
    var p := FromBag(s.finished, ResultId, k + 1);
    assert Finished(c, s.tries, s.parts, s.finished[p]);
  }

  /** Until the collector has returned, something can always happen. */
  lemma NoDeadlock(c: Config, actions: seq<Action>) returns (a: Action)
    requires c.Valid() && Run(c, actions).collector.Collecting?
    ensures var s := Run(c, actions); Step(c, s, a) != s
  {
    hide Run, Ids, Potential, Waiting, Tried, Finished;
    RunKeeps(c, actions);
    var s := Run(c, actions);
    a := SomeMove(c, s);
  }

  lemma SomeMove(c: Config, s: State) returns (a: Action)
    requires c.Valid() && Inv(c, s) && s.collector.Collecting?
    ensures Step(c, s, a) != s
  {
    hide Ids, Potential, Tried, Finished;
    if s.unsent != [] {
      a := SendChunk;
    } else if s.resCh != [] {
      a := Collect;
    } else if s.busy != [] {
      if s.busy[0].result.None? {
        a := Upload(0, true, []);
        assert Step(c, s, a).busy[0] != s.busy[0];
      } else {
        a := SendResult(0);
      }
    } else if s.uploadCh != [] {
      a := Take;
    } else {
      a := if s.timers[0].armed then FireTimer(0) else CheckTimer(0);
      assert s.timers[0].armed || Step(c, s, a).timers[0] != s.timers[0];
    }
  }
}
