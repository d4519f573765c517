/** Chunked attachment upload: chunks arrive in any order, other uploads are interleaved, sessions
    expire, and a commit puts the chunks together. */
module ChunkUpload {
  import opened Text

  const SESSION_TTL: int := 15 * 60 * 1_000_000_000
  const MAX_TOTAL_SIZE: int := 64 * 1024 * 1024
  const MAX_CHUNKS: int := 10_000
  const MIN_CHUNK_SIZE: int := 16 * 1024
  const MAX_CHUNK_SIZE: int := 1024 * 1024

  datatype Error =
    | MissingName | BadTotalSize | BadChunkCount | BadChunkSize | BadManifest
    | MissingUploadID | SessionNotFound | BadChunkIndex | EmptyChunk | BadFinalChunkSize | ChunkDigestMismatch
    | Incomplete | BadUploadSize | FileDigestMismatch | BadPayload

  datatype Result<+T> = Ok(value: T) | Err(error: Error)

  /** The announced shape of an upload. */
  datatype Layout = Layout(total: int, count: int, size: int)

  /** `fileDigest` is empty when the client gave none. */
  datatype Session = Session(name: string, mime: string, layout: Layout, fileDigest: string, chunks: map<int, Bytes>,
                             updatedAt: int)

  type Uploads = map<string, Session>

  /** The code outside this model: the digest and the check of the assembled payload. */
  datatype Env = Env(digest: Bytes -> string, accepts: (string, string, Bytes) -> bool)

  // ---------------------------------------------------------------- layouts

  function ValidateInit(name: string, l: Layout): Option<Error>
  {
    if Blank(name) then Some(MissingName)
    else if l.total <= 0 || l.total > MAX_TOTAL_SIZE then Some(BadTotalSize)
    else if l.count <= 0 || l.count > MAX_CHUNKS then Some(BadChunkCount)
    else if l.size < MIN_CHUNK_SIZE || l.size > MAX_CHUNK_SIZE then Some(BadChunkSize)
    else if (l.count - 1) * l.size >= l.total then Some(BadManifest)
    else None
  }

  function ValidateChunk(id: string, l: Layout, index: int, data: Bytes): Option<Error>
  {
    if id == "" then Some(MissingUploadID)
    else if index < 0 || index >= l.count then Some(BadChunkIndex)
    else if |data| == 0 then Some(EmptyChunk)
    else if index < l.count - 1 && |data| != l.size then Some(BadChunkSize)
    else if index == l.count - 1
            && (l.total - l.size * (l.count - 1) <= 0 || |data| != l.total - l.size * (l.count - 1))
    then Some(BadFinalChunkSize)
    else None
  }

  ghost predicate GoodLayout(l: Layout)
  {
    0 < l.count && 0 < l.size && (l.count - 1) * l.size < l.total
  }

  /** Where chunk `i` starts in the file; `count` stands for the end of the file. */
  function Offset(l: Layout, i: nat): int
  {
    if i < l.count then i * l.size else l.total
  }

  /** Chunk `i` of `file`: a full chunk, or all that is left for the last one. */
  function Piece(l: Layout, file: Bytes, i: nat): Bytes
    requires 0 <= Offset(l, i) <= Offset(l, i + 1) <= |file|
  {
    file[Offset(l, i)..Offset(l, i + 1)]
  }

  lemma MulMonotone(a: nat, b: nat, c: nat)
    requires a <= b
    ensures a * c <= b * c
  {
    assert (b - a) * c >= 0;
  }

  lemma OffsetsGrow(l: Layout, i: nat)
    requires GoodLayout(l) && i < l.count
    ensures 0 <= Offset(l, i) < Offset(l, i + 1) <= l.total
  {
    MulMonotone(i, l.count - 1, l.size);
    if i + 1 < l.count {
      MulMonotone(i + 1, l.count - 1, l.size);
      assert (i + 1) * l.size == i * l.size + l.size;
    }
  }

  /** The size checks let through exactly the data that fills the place of its chunk. */
  lemma ChunkFitsIff(id: string, l: Layout, index: int, data: Bytes)
    requires GoodLayout(l) && id != ""
    ensures ValidateChunk(id, l, index, data).None? <==>
            0 <= index < l.count && |data| == Offset(l, index + 1) - Offset(l, index)
  {
    assert l.size * (l.count - 1) == (l.count - 1) * l.size;
    if 0 <= index < l.count - 1 {
      assert (index + 1) * l.size == index * l.size + l.size;
    }
  }

  // ---------------------------------------------------------------- putting chunks together

  /** The chunks below `n` in order; `None` if one is missing. */
  function Concat(chunks: map<int, Bytes>, n: int): Option<Bytes>
  {
    if n <= 0 then Some("")
    else
      var front := Concat(chunks, n - 1);
      if front.None? || n - 1 !in chunks then None else Some(front.value + chunks[n - 1])
  }

  ghost predicate Complete(chunks: map<int, Bytes>, n: int)
  {
    forall i :: 0 <= i < n ==> i in chunks
  }

  lemma {:induction false} ConcatIffComplete(chunks: map<int, Bytes>, n: int)
    ensures Concat(chunks, n).Some? <==> Complete(chunks, n)
  {
    if n > 0 {
      ConcatIffComplete(chunks, n - 1);
      assert Complete(chunks, n) <==> Complete(chunks, n - 1) && n - 1 in chunks;
    }
  }

  ghost predicate Fits(l: Layout, chunks: map<int, Bytes>)
  {
    forall i :: i in chunks ==> 0 <= i < l.count && |chunks[i]| == Offset(l, i + 1) - Offset(l, i)
  }

  lemma {:induction false} ConcatLength(l: Layout, chunks: map<int, Bytes>, n: nat)
    requires GoodLayout(l) && Fits(l, chunks) && n <= l.count
    requires Concat(chunks, n).Some?
    ensures |Concat(chunks, n).value| == Offset(l, n)
  {
    if n > 0 {
      ConcatLength(l, chunks, n - 1);
    }
  }

  predicate IsPiece(l: Layout, file: Bytes, i: int, data: Bytes)
  {
    0 <= i < l.count && 0 <= Offset(l, i) <= Offset(l, i + 1) <= |file| && data == Piece(l, file, i)
  }

  /** Every stored chunk is the right piece of `file`. */
  ghost predicate PiecesOf(l: Layout, chunks: map<int, Bytes>, file: Bytes)
  {
    forall i :: i in chunks ==> IsPiece(l, file, i, chunks[i])
  }

  lemma {:induction false} ConcatIsPrefix(l: Layout, chunks: map<int, Bytes>, file: Bytes, n: nat)
    requires GoodLayout(l) && PiecesOf(l, chunks, file) && n <= l.count && |file| == l.total
    requires Concat(chunks, n).Some?
    ensures 0 <= Offset(l, n) <= |file| && Concat(chunks, n).value == file[..Offset(l, n)]
  {
    if n > 0 {
      ConcatIsPrefix(l, chunks, file, n - 1);
      OffsetsGrow(l, n - 1);
      SliceJoin(file, Offset(l, n - 1), Offset(l, n));
    }
  }

  lemma SliceJoin(file: Bytes, a: nat, b: nat)
    requires a <= b <= |file|
    ensures file[..a] + file[a..b] == file[..b]
  {
  }

  // ---------------------------------------------------------------- the service

  function Purge(m: Uploads, now: int): Uploads
  {
    map id | id in m && now - m[id].updatedAt <= SESSION_TTL :: m[id]
  }

  function Put(m: Uploads, env: Env, id: string, index: int, data: Bytes, digest: string, now: int): Result<Session>
  {
    if id !in m then Err(SessionNotFound)
    else
      var bad := ValidateChunk(id, m[id].layout, index, data);
      if bad.Some? then Err(bad.value)
      else if digest != "" && env.digest(data) != digest then Err(ChunkDigestMismatch)
      else Ok(m[id].(chunks := m[id].chunks[index := data], updatedAt := now))
  }

  function Commit(m: Uploads, env: Env, id: string): Result<Bytes>
  {
    if id == "" then Err(MissingUploadID)
    else if id !in m then Err(SessionNotFound)
    else Assemble(env, m[id], Concat(m[id].chunks, m[id].layout.count))
  }

  function Assemble(env: Env, s: Session, data: Option<Bytes>): Result<Bytes>
  {
    if data.None? then Err(Incomplete)
    else if |data.value| != s.layout.total then Err(BadUploadSize)
    else if s.fileDigest != "" && env.digest(data.value) != s.fileDigest then Err(FileDigestMismatch)
    else if !env.accepts(s.name, s.mime, data.value) then Err(BadPayload)
    else Ok(data.value)
  }

  /** The calls of the service. Digests are empty when the client gave none; an upload id is the one
      the service drew, or the trimmed one the client sent. */
  datatype Step =
    | InitStep(id: string, name: string, mime: string, layout: Layout, fileDigest: string, now: int)
    | PutStep(id: string, index: int, data: Bytes, digest: string, now: int)
    | StatusStep(id: string, now: int)
    | CommitStep(id: string, now: int)

  function Next(m: Uploads, env: Env, step: Step): Uploads
  {
    match step
    case InitStep(id, name, mime, layout, fileDigest, now) =>
      if ValidateInit(name, layout).Some? then m
      else Purge(m, now)[id := Session(TrimSpace(name), mime, layout, fileDigest, map[], now)]
    case PutStep(id, index, data, digest, now) =>
      var put := Put(Purge(m, now), env, id, index, data, digest, now);
      if put.Err? then Purge(m, now) else Purge(m, now)[id := put.value]
    case StatusStep(_, now) => Purge(m, now)
    case CommitStep(id, now) =>
      if id == "" then m
      else if Commit(Purge(m, now), env, id).Err? then Purge(m, now)
      else Purge(m, now) - {id}
  }

  function Run(m: Uploads, env: Env, steps: seq<Step>): Uploads
  {
    if steps == [] then m else Next(Run(m, env, steps[..|steps| - 1]), env, steps[|steps| - 1])
  }

  // ---------------------------------------------------------------- every run

  ghost predicate GoodSession(s: Session)
  {
    GoodLayout(s.layout) && Fits(s.layout, s.chunks)
  }

  ghost predicate Inv(m: Uploads)
  {
    "" !in m && forall id :: id in m ==> GoodSession(m[id])
  }

  /** Upload ids are drawn by the service and never empty. */
  ghost predicate Admissible(steps: seq<Step>)
  {
    forall k :: 0 <= k < |steps| && steps[k].InitStep? ==> steps[k].id != ""
  }

  lemma PutKeepsSession(m: Uploads, env: Env, id: string, index: int, data: Bytes, digest: string, now: int)
    requires Inv(m) && Put(m, env, id, index, data, digest, now).Ok?
    ensures id != "" && GoodSession(Put(m, env, id, index, data, digest, now).value)
  {
    ChunkFitsIff(id, m[id].layout, index, data);
  }

  lemma StepKeepsInv(m: Uploads, env: Env, step: Step)
    requires Inv(m) && (step.InitStep? ==> step.id != "")
    ensures Inv(Next(m, env, step))
  {
    if step.PutStep? {
      var p := Purge(m, step.now);
      if Put(p, env, step.id, step.index, step.data, step.digest, step.now).Ok? {
        PutKeepsSession(p, env, step.id, step.index, step.data, step.digest, step.now);
      }
    }
  }

  lemma {:induction false} EveryRun(env: Env, steps: seq<Step>)
    requires Admissible(steps)
    ensures Inv(Run(map[], env, steps))
  {
    if steps != [] {
      EveryRun(env, steps[..|steps| - 1]);
      StepKeepsInv(Run(map[], env, steps[..|steps| - 1]), env, steps[|steps| - 1]);
    }
  }

  /** In every reachable state a commit finds the announced number of bytes as soon as it finds all
      chunks: it never fails for the size, and it is incomplete exactly when a chunk is missing. */
  lemma CommitNeverFailsOnSize(env: Env, steps: seq<Step>, id: string)
    requires Admissible(steps)
    ensures var m := Run(map[], env, steps);
            && Commit(m, env, id) != Err(BadUploadSize)
            && (id in m ==> (Commit(m, env, id) == Err(Incomplete) <==> !Complete(m[id].chunks, m[id].layout.count)))
  {
    EveryRun(env, steps);
    var m := Run(map[], env, steps);
    if id in m {
      var s := m[id];
      ConcatIffComplete(s.chunks, s.layout.count);
      if Concat(s.chunks, s.layout.count).Some? {
        ConcatLength(s.layout, s.chunks, s.layout.count);
      }
    }
  }

  // ---------------------------------------------------------------- reassembly

  /** Every chunk sent to upload `id` is the right piece of `file`. */
  ghost predicate Honest(steps: seq<Step>, id: string, l: Layout, file: Bytes)
  {
    forall k :: 0 <= k < |steps| ==> SendsPiece(steps[k], id, l, file)
  }

  predicate SendsPiece(step: Step, id: string, l: Layout, file: Bytes)
  {
    step.PutStep? && step.id == id && 0 <= step.index < l.count ==> IsPiece(l, file, step.index, step.data)
  }

  /** Chunk `i` was sent to upload `id`, with the right digest if it came with one. */
  ghost predicate Sent(steps: seq<Step>, env: Env, id: string, i: int)
  {
    exists k :: 0 <= k < |steps| && SendsChunk(steps[k], env, id, i)
  }

  predicate SendsChunk(step: Step, env: Env, id: string, i: int)
  {
    step.PutStep? && step.id == id && step.index == i && (step.digest == "" || step.digest == env.digest(step.data))
  }

  lemma SentExtends(steps: seq<Step>, env: Env, id: string, i: int)
    requires steps != []
    ensures Sent(steps, env, id, i) <==>
            Sent(steps[..|steps| - 1], env, id, i) || SendsChunk(steps[|steps| - 1], env, id, i)
  {
    var before := steps[..|steps| - 1];
    if Sent(before, env, id, i) {
      var k :| 0 <= k < |before| && SendsChunk(before[k], env, id, i);
      assert SendsChunk(steps[k], env, id, i);
    }
    if Sent(steps, env, id, i) {
      var k :| 0 <= k < |steps| && SendsChunk(steps[k], env, id, i);
      assert k < |before| ==> SendsChunk(before[k], env, id, i);
    }
  }

  /** What one step does to the session of `id`, when it is not the step that opens it. */
  lemma StepOnSession(m: Uploads, env: Env, step: Step, id: string)
    requires !(step.InitStep? && step.id == id) && id in Next(m, env, step)
    ensures id in m
    ensures var (s, t) := (m[id], Next(m, env, step)[id]);
            && t.(chunks := s.chunks, updatedAt := s.updatedAt) == s
            && (|| t.chunks == s.chunks
                || (step.PutStep? && step.id == id && t.chunks == s.chunks[step.index := step.data]))
  {
  }

  /** A fitting chunk with the right digest is stored. */
  lemma StepStores(m: Uploads, env: Env, step: Step, id: string, i: int)
    requires SendsChunk(step, env, id, i) && id in Next(m, env, step)
    ensures id in m
    ensures ValidateChunk(id, m[id].layout, i, step.data).None? ==> i in Next(m, env, step)[id].chunks
  {
  }

  lemma StepStoresOnly(m: Uploads, env: Env, step: Step, id: string, i: int)
    requires !(step.InitStep? && step.id == id) && id in Next(m, env, step)
    ensures id in m
    ensures i in Next(m, env, step)[id].chunks && i !in m[id].chunks ==>
              SendsChunk(step, env, id, i) && 0 <= i < m[id].layout.count
  {
  }

  /** What holds of the live session `s` of upload `id`, opened by `open`, after `steps`. */
  ghost predicate Holds(open: Step, s: Session, env: Env, steps: seq<Step>, id: string, file: Bytes)
    requires open.InitStep?
  {
    && s.name == TrimSpace(open.name) && s.mime == open.mime && s.layout == open.layout
    && s.fileDigest == open.fileDigest
    && PiecesOf(s.layout, s.chunks, file)
    && forall i :: i in s.chunks <==> 0 <= i < s.layout.count && Sent(steps, env, id, i)
  }

  lemma PieceFits(l: Layout, file: Bytes, id: string, i: int, data: Bytes)
    requires GoodLayout(l) && |file| == l.total && id != "" && IsPiece(l, file, i, data)
    ensures ValidateChunk(id, l, i, data).None?
  {
    OffsetsGrow(l, i);
    ChunkFitsIff(id, l, i, data);
  }

  lemma IndexHolds(m: Uploads, env: Env, steps: seq<Step>, step: Step, id: string, file: Bytes, i: int)
    requires steps != [] && step == steps[|steps| - 1]
    requires id != "" && id in m && GoodLayout(m[id].layout) && |file| == m[id].layout.total
    requires SendsPiece(step, id, m[id].layout, file)
    requires !(step.InitStep? && step.id == id) && id in Next(m, env, step)
    requires i in m[id].chunks <==> 0 <= i < m[id].layout.count && Sent(steps[..|steps| - 1], env, id, i)
    ensures i in Next(m, env, step)[id].chunks <==> 0 <= i < m[id].layout.count && Sent(steps, env, id, i)
  {
    SentExtends(steps, env, id, i);
    StepOnSession(m, env, step, id);
    StepStoresOnly(m, env, step, id, i);
    if 0 <= i < m[id].layout.count && SendsChunk(step, env, id, i) {
      PieceFits(m[id].layout, file, id, i, step.data);
      StepStores(m, env, step, id, i);
    }
  }

  lemma StepHolds(open: Step, m: Uploads, env: Env, steps: seq<Step>, step: Step, id: string, file: Bytes)
    requires open.InitStep? && steps != [] && step == steps[|steps| - 1]
    requires id != "" && GoodLayout(open.layout) && |file| == open.layout.total
    requires SendsPiece(step, id, open.layout, file)
    requires id in m && Holds(open, m[id], env, steps[..|steps| - 1], id, file)
    requires !(step.InitStep? && step.id == id) && id in Next(m, env, step)
    ensures Holds(open, Next(m, env, step)[id], env, steps, id, file)
  {
    StepOnSession(m, env, step, id);
    var t := Next(m, env, step)[id];
    forall i
      ensures i in t.chunks <==> 0 <= i < t.layout.count && Sent(steps, env, id, i)
    {
      IndexHolds(m, env, steps, step, id, file, i);
    }
    if step.PutStep? {
      StepStoresOnly(m, env, step, id, step.index);
    }
  }

  /** An upload of `file`: `open` announces it under the new id `id`, and whatever chunks follow under
      that id are pieces of the file. */
  ghost predicate UploadOf(m: Uploads, open: Step, steps: seq<Step>, id: string, file: Bytes)
  {
    && Inv(m) && id != "" && id !in m
    && open.InitStep? && open.id == id && |file| == open.layout.total
    && (forall k :: 0 <= k < |steps| ==> !(steps[k].InitStep? && steps[k].id == id))
    && Honest(steps, id, open.layout, file)
  }

  /** The announcement is in order: a name, and a layout within the limits whose chunks make up the file. */
  predicate Announced(open: Step)
    requires open.InitStep?
  {
    var Layout(total, count, size) := open.layout;
    && TrimSpace(open.name) != "" && 1 <= total <= 0x400_0000 && 1 <= count <= 10_000
    && 0x4000 <= size <= 0x10_0000 && total > (count - 1) * size
  }

  lemma OpenedIff(m: Uploads, env: Env, open: Step, id: string, file: Bytes)
    requires UploadOf(m, open, [], id, file)
    ensures id in Next(m, env, open) <==> Announced(open)
    ensures Announced(open) ==>
              && GoodLayout(open.layout) && Inv(Next(m, env, open))
              && Holds(open, Next(m, env, open)[id], env, [], id, file)
              && Next(m, env, open)[id].updatedAt == open.now
  {
    if Announced(open) {
      StepKeepsInv(m, env, open);
    }
  }

  lemma RunFrom(m: Uploads, env: Env, open: Step, steps: seq<Step>)
    ensures steps == [] ==> Run(m, env, [open] + steps) == Next(m, env, open)
    ensures steps != [] ==>
              Run(m, env, [open] + steps)
              == Next(Run(m, env, [open] + steps[..|steps| - 1]), env, steps[|steps| - 1])
  {
    var all := [open] + steps;
    if steps == [] {
      assert all[..0] == [] && all[0] == open;
    } else {
      assert all[..|all| - 1] == [open] + steps[..|steps| - 1];
    }
  }

  lemma UploadOfLess(m: Uploads, open: Step, steps: seq<Step>, id: string, file: Bytes)
    requires UploadOf(m, open, steps, id, file) && steps != []
    ensures UploadOf(m, open, steps[..|steps| - 1], id, file)
  {
  }

  lemma PiecesReassemble(env: Env, s: Session, file: Bytes)
    requires GoodLayout(s.layout) && PiecesOf(s.layout, s.chunks, file) && |file| == s.layout.total
    ensures Assemble(env, s, Concat(s.chunks, s.layout.count)) ==
            if !Complete(s.chunks, s.layout.count) then Err(Incomplete) else Assemble(env, s, Some(file))
  {
    ConcatIffComplete(s.chunks, s.layout.count);
    if Concat(s.chunks, s.layout.count).Some? {
      ConcatIsPrefix(s.layout, s.chunks, file, s.layout.count);
      assert file[..|file|] == file;
    }
  }

  // ---------------------------------------------------------------- how long a session lives

  /** The call starts by dropping idle sessions. */
  predicate Purges(step: Step)
  {
    match step
    case InitStep(_, name, _, layout, _, _) => ValidateInit(name, layout).None?
    case CommitStep(id, _) => id != ""
    case _ => true
  }

  /** When the session that `open` started last took a chunk, or was opened. */
  function LastTouched(open: Step, env: Env, id: string, steps: seq<Step>): int
    requires open.InitStep?
  {
    if steps == [] then open.now
    else
      var last := steps[|steps| - 1];
      if last.PutStep? && SendsChunk(last, env, id, last.index) && 0 <= last.index < open.layout.count then last.now
      else LastTouched(open, env, id, steps[..|steps| - 1])
  }

  /** All pieces were sent, and what was announced of the file is true of it. */
  ghost predicate Ready(open: Step, env: Env, id: string, file: Bytes, steps: seq<Step>)
    requires open.InitStep?
  {
    && (forall i :: 0 <= i < open.layout.count ==> Sent(steps, env, id, i))
    && (open.fileDigest == "" || env.digest(file) == open.fileDigest)
    && env.accepts(TrimSpace(open.name), open.mime, file)
  }

  /** No call found the session idle for more than 15 minutes, and none committed it when it was ready. */
  ghost predicate Lives(open: Step, env: Env, id: string, file: Bytes, steps: seq<Step>)
    requires open.InitStep?
  {
    steps == [] ||
    var (before, last) := (steps[..|steps| - 1], steps[|steps| - 1]);
    && Lives(open, env, id, file, before)
    && (Purges(last) ==> last.now - LastTouched(open, env, id, before) <= 15 * 60 * 1_000_000_000)
    && !(last.CommitStep? && last.id == id && Ready(open, env, id, file, before))
  }

  /** What one step does to a live session, when it is not the step that opens it. */
  lemma StepKeepsAliveIff(m: Uploads, env: Env, step: Step, id: string)
    requires id != "" && id in m && !(step.InitStep? && step.id == id)
    ensures id in Next(m, env, step) <==>
            && (Purges(step) ==> step.now - m[id].updatedAt <= SESSION_TTL)
            && !(step.CommitStep? && step.id == id && Commit(Purge(m, step.now), env, id).Ok?)
  {
  }

  lemma StepTouches(m: Uploads, env: Env, step: Step, id: string, file: Bytes)
    requires id != "" && id in m && GoodLayout(m[id].layout) && |file| == m[id].layout.total
    requires SendsPiece(step, id, m[id].layout, file)
    requires !(step.InitStep? && step.id == id) && id in Next(m, env, step)
    ensures Next(m, env, step)[id].updatedAt ==
            if step.PutStep? && SendsChunk(step, env, id, step.index) && 0 <= step.index < m[id].layout.count
            then step.now else m[id].updatedAt
  {
    if step.PutStep? && step.id == id {
      if 0 <= step.index < m[id].layout.count {
        PieceFits(m[id].layout, file, id, step.index, step.data);
      } else {
        ChunkFitsIff(id, m[id].layout, step.index, step.data);
      }
    }
  }

  /** A live session that holds what was sent is committed when it is ready. */
  lemma CommitsWhenReady(open: Step, m: Uploads, env: Env, steps: seq<Step>, id: string, file: Bytes)
    requires open.InitStep? && id != "" && id in m && GoodLayout(m[id].layout) && |file| == m[id].layout.total
    requires Holds(open, m[id], env, steps, id, file)
    ensures Commit(m, env, id) == Ok(file) <==> Ready(open, env, id, file, steps)
    ensures Commit(m, env, id).Ok? ==> Commit(m, env, id) == Ok(file)
  {
    PiecesReassemble(env, m[id], file);
  }

  /** What the service holds under `id` after `open` and `steps`. */
  ghost predicate SessionAt(m: Uploads, env: Env, open: Step, steps: seq<Step>, id: string, file: Bytes)
    requires open.InitStep?
  {
    var t := Run(m, env, [open] + steps);
    && (id in t <==> Announced(open) && Lives(open, env, id, file, steps))
    && (id in t ==> GoodLayout(open.layout) && t[id].updatedAt == LastTouched(open, env, id, steps)
                    && Holds(open, t[id], env, steps, id, file))
  }

  lemma SessionStep(t: Uploads, env: Env, open: Step, steps: seq<Step>, step: Step, id: string, file: Bytes)
    requires open.InitStep? && steps != [] && step == steps[|steps| - 1] && id != "" && id in t
    requires GoodLayout(open.layout) && |file| == open.layout.total && SendsPiece(step, id, open.layout, file)
    requires t[id].updatedAt == LastTouched(open, env, id, steps[..|steps| - 1])
    requires Holds(open, t[id], env, steps[..|steps| - 1], id, file) && !(step.InitStep? && step.id == id)
    ensures id in Next(t, env, step) <==>
            && (Purges(step) ==> step.now - t[id].updatedAt <= 15 * 60 * 1_000_000_000)
            && !(step.CommitStep? && step.id == id && Ready(open, env, id, file, steps[..|steps| - 1]))
    ensures id in Next(t, env, step) ==>
              && Next(t, env, step)[id].updatedAt == LastTouched(open, env, id, steps)
              && Holds(open, Next(t, env, step)[id], env, steps, id, file)
  {
    StepKeepsAliveIff(t, env, step, id);
    if step.now - t[id].updatedAt <= SESSION_TTL {
      CommitsWhenReady(open, Purge(t, step.now), env, steps[..|steps| - 1], id, file);
    }
    if id in Next(t, env, step) {
      StepTouches(t, env, step, id, file);
      StepHolds(open, t, env, steps, step, id, file);
    }
  }

  /** A session is there if and only if it was announced in order, no call found it idle for more than 15
      minutes and none committed it when it was ready; it then holds what was announced and sent. */
  lemma {:induction false} SessionLivesIff(m: Uploads, env: Env, open: Step, steps: seq<Step>, id: string, file: Bytes)
    requires UploadOf(m, open, steps, id, file)
    ensures SessionAt(m, env, open, steps, id, file)
  {
    RunFrom(m, env, open, steps);
    if steps == [] {
      OpenedIff(m, env, open, id, file);
    } else {
      var before, step := steps[..|steps| - 1], steps[|steps| - 1];
      UploadOfLess(m, open, steps, id, file);
      SessionLivesIff(m, env, open, before, id, file);
      var t := Run(m, env, [open] + before);
      assert SendsPiece(step, id, open.layout, file);
      if id in t {
        SessionStep(t, env, open, steps, step, id, file);
      } else if id in Next(t, env, step) {
        StepOnSession(t, env, step, id);
      }
    }
  }

  /** Announcing a file and sending its pieces in any order, repeated or not, among calls for other uploads: a
      commit gives back exactly the file if the announcement was in order and true, the session lives and
      has not been idle for more than 15 minutes, and every piece was sent; and nothing otherwise. */
  lemma UploadReassembles(m: Uploads, env: Env, open: Step, steps: seq<Step>, id: string, file: Bytes, now: int)
    requires UploadOf(m, open, steps, id, file)
    ensures var result := Commit(Purge(Run(m, env, [open] + steps), now), env, id);
            && (result.Ok? ==> result.value == file)
            && (result.Ok? <==>
                  && Announced(open) && Lives(open, env, id, file, steps)
                  && now - LastTouched(open, env, id, steps) <= 15 * 60 * 1_000_000_000
                  && (forall i :: 0 <= i < open.layout.count ==> Sent(steps, env, id, i))
                  && (open.fileDigest == "" || env.digest(file) == open.fileDigest)
                  && env.accepts(TrimSpace(open.name), open.mime, file))
  {
    SessionLivesIff(m, env, open, steps, id, file);
    var t := Run(m, env, [open] + steps);
    if id in t && now - t[id].updatedAt <= SESSION_TTL {
      CommitsWhenReady(open, Purge(t, now), env, steps, id, file);
    }
  }

  // ---------------------------------------------------------------- the service object

  /** The first missing chunk, or the number of chunks. */
  method FirstMissing(s: Session) returns (next: int)
    ensures 0 <= next && (s.layout.count >= 0 ==> next <= s.layout.count)
    ensures Complete(s.chunks, next) && (next < s.layout.count ==> next !in s.chunks)
  {
    next := 0;
    var i := 0;
    while i < s.layout.count
      invariant 0 <= i && next == i && (s.layout.count >= 0 ==> i <= s.layout.count)
      invariant Complete(s.chunks, i)
    {
      if i !in s.chunks {
        next := i;
        break;
      }
      i := i + 1;
      next := i;
    }
  }

  method Collect(s: Session) returns (data: Option<Bytes>)
    ensures data == Concat(s.chunks, s.layout.count)
  {
    var bytes := "";
    var i := 0;
    while i < s.layout.count
      invariant 0 <= i && (i == 0 || i <= s.layout.count)
      invariant Concat(s.chunks, i) == Some(bytes)
    {
      if i !in s.chunks {
        ConcatIffComplete(s.chunks, s.layout.count);
        return None;
      }
      bytes := bytes + s.chunks[i];
      i := i + 1;
    }
    assert Concat(s.chunks, 0) == Some("");
    return Some(bytes);
  }

  class Service {
    const env: Env
    var uploads: Uploads

    constructor (env: Env)
      ensures this.env == env && uploads == map[]
    {
      this.env := env;
      uploads := map[];
    }

    method PurgeExpired(now: int)
      modifies this
      ensures uploads == Purge(old(uploads), now)
    {
      var rest := uploads.Keys;
      while rest != {}
        invariant rest <= old(uploads).Keys
        invariant forall id :: id in uploads <==>
                    id in old(uploads) && (id in rest || now - old(uploads)[id].updatedAt <= SESSION_TTL)
        invariant forall id :: id in uploads ==> uploads[id] == old(uploads)[id]
        decreases |rest|
      {
        var id :| id in rest;
        if now - uploads[id].updatedAt > SESSION_TTL {
          uploads := uploads - {id};
        }
        rest := rest - {id};
      }
      assert uploads == Purge(old(uploads), now);
    }

    /** `id` is the fresh random upload id. */
    method InitUpload(id: string, name: string, mime: string, layout: Layout, fileDigest: string, now: int)
      returns (r: Result<string>)
      modifies this
      ensures uploads == Next(old(uploads), env, InitStep(id, name, TrimSpace(mime), layout, fileDigest, now))
      ensures r == match ValidateInit(name, layout) { case Some(e) => Err(e) case None => Ok(id) }
    {
      var bad := ValidateInit(name, layout);
      if bad.Some? {
        return Err(bad.value);
      }
      PurgeExpired(now);
      uploads := uploads[id := Session(TrimSpace(name), TrimSpace(mime), layout, fileDigest, map[], now)];
      return Ok(id);
    }

    method PutChunk(rawID: string, index: int, data: Bytes, digest: string, now: int) returns (r: Result<nat>)
      modifies this
      ensures uploads == Next(old(uploads), env, PutStep(TrimSpace(rawID), index, data, digest, now))
      ensures var put := Put(Purge(old(uploads), now), env, TrimSpace(rawID), index, data, digest, now);
              r == if put.Err? then Err(put.error) else Ok(|put.value.chunks|)
    {
      PurgeExpired(now);
      var id := TrimSpace(rawID);
      if id !in uploads {
        return Err(SessionNotFound);
      }
      var session := uploads[id];
      var bad := ValidateChunk(id, session.layout, index, data);
      if bad.Some? {
        return Err(bad.value);
      }
      if digest != "" && env.digest(data) != digest {
        return Err(ChunkDigestMismatch);
      }
      session := session.(chunks := session.chunks[index := data], updatedAt := now);
      uploads := uploads[id := session];
      return Ok(|session.chunks|);
    }

    method CommitUpload(rawID: string, now: int) returns (r: Result<Bytes>)
      modifies this
      ensures uploads == Next(old(uploads), env, CommitStep(TrimSpace(rawID), now))
      ensures r == Commit(Purge(old(uploads), now), env, TrimSpace(rawID))
    {
      var id := TrimSpace(rawID);
      if id == "" {
        return Err(MissingUploadID);
      }
      PurgeExpired(now);
      if id !in uploads {
        return Err(SessionNotFound);
      }
      var session := uploads[id];
      var data := Collect(session);
      r := Assemble(env, session, data);
      if r.Ok? {
        uploads := uploads - {id};
      }
    }
  }
}
