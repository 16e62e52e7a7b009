/**
 Chunked file transfer between the operator and the agent, over requests that
 may be lost, disks that may fail and, for downloads, files that keep growing.
 */
module Transfer {
  import opened Wrappers
  import opened Base64

  const CHUNK := 1024 * 1024
  const MAX_SIZE := 50 * 1024 * 1024

  function Chunks(size: nat): (n: nat)
    ensures n >= 1 && (n - 1) * CHUNK <= size <= n * CHUNK
    ensures size > 0 ==> (n - 1) * CHUNK < size
  {
    var n := (size + CHUNK - 1) / CHUNK;
    if n == 0 then 1 else n
  }

  /** The first `k` chunks of the data. */
  function FirstChunks(data: Data, k: nat): Data {
    if k * CHUNK <= |data| then data[..k * CHUNK] else data
  }

  // ---------------------------------------------------------------- disks

  /** A file system whose single writes and appends happen entirely or not at all. */
  class Disk {
    var files: map<string, Data>

    constructor (files: map<string, Data>)
      ensures this.files == files
    {
      this.files := files;
    }

    method Write(path: string, data: Data, works: bool) returns (ok: bool)
      modifies this
      ensures ok == works
      ensures files == if ok then old(files)[path := data] else old(files)
    {
      if works {
        files := files[path := data];
      }
      ok := works;
    }

    /** Opening for append does not create the file. */
    method Append(path: string, data: Data, works: bool) returns (ok: bool)
      modifies this
      ensures ok == (works && path in old(files))
      ensures files == if ok then old(files)[path := old(files)[path] + data] else old(files)
    {
      ok := works && path in files;
      if ok {
        files := files[path := files[path] + data];
      }
    }
  }

  // ---------------------------------------------------------------- the agent

  datatype ChunkParams = ChunkParams(path: string, index: nat, total: nat, content: string, overwrite: bool)

  datatype ChunkResult = ChunkResult(content: string, bytesRead: nat, totalSize: nat)

  /** The files after one chunk: the first replaces the file, later ones extend it; None is a refusal. */
  function Stored(files: map<string, Data>, p: ChunkParams): Option<map<string, Data>> {
    match DecodeStd(p.content)
    case None => None
    case Some(data) =>
      if p.index == 0 then (if p.overwrite || p.path !in files then Some(files[p.path := data]) else None)
      else if p.path in files then Some(files[p.path := files[p.path] + data])
      else None
  }

  class Agent {
    const disk: Disk
    /** IsDangerousFilePath */
    const guarded: string -> bool
    /** Whether a ConfirmFunc is configured. */
    const prompts: bool
    var asked: nat

    constructor (disk: Disk, guarded: string -> bool, prompts: bool)
      ensures this.disk == disk && this.guarded == guarded && this.prompts == prompts && asked == 0
    {
      this.disk, this.guarded, this.prompts, asked := disk, guarded, prompts, 0;
    }

    /** fileops.UploadChunk */
    method UploadChunk(p: ChunkParams, works: bool) returns (r: Result<()>)
      modifies disk
      ensures r.Ok? <==> works && Stored(old(disk.files), p).Some?
      ensures disk.files == if r.Ok? then Stored(old(disk.files), p).value else old(disk.files)
      ensures r.Ok? <==>
        && works && DecodeStd(p.content).Some?
        && if p.index == 0 then p.overwrite || p.path !in old(disk.files) else p.path in old(disk.files)
      ensures r.Ok? && p.index == 0 ==> disk.files == old(disk.files)[p.path := DecodeStd(p.content).value]
      ensures r.Ok? && p.index > 0 ==>
        disk.files == old(disk.files)[p.path := old(disk.files)[p.path] + DecodeStd(p.content).value]
    {
      var data := DecodeStd(p.content);
      if data.None? {
        return Err("invalid base64");
      }
      if p.index == 0 {
        if !p.overwrite && p.path in disk.files {
          return Err("file already exists");
        }
        var ok := disk.Write(p.path, data.value, works);
        return if ok then Ok(()) else Err("write");
      }
      var ok := disk.Append(p.path, data.value, works);
      r := if ok then Ok(()) else Err("append");
    }

    predicate Asks(p: ChunkParams) { p.index == 0 && guarded(p.path) && prompts }

    /** The request handler for an upload chunk: only the first chunk can need confirmation. */
    method Handle(p: ChunkParams, yes: bool, works: bool) returns (r: Result<()>)
      modifies this, disk
      ensures asked == old(asked) + if p.index == 0 && guarded(p.path) && prompts then 1 else 0
      ensures p.index == 0 && guarded(p.path) && prompts && !yes ==> r.Err?
      ensures r.Ok? <==> (Asks(p) ==> yes) && works && Stored(old(disk.files), p).Some?
      ensures disk.files == if r.Ok? then Stored(old(disk.files), p).value else old(disk.files)
    {
      if p.index == 0 && guarded(p.path) {
        if prompts {
          asked := asked + 1;
          if !yes {
            return Err("denied");
          }
        }
      }
      r := UploadChunk(p, works);
    }
  }

  // ---------------------------------------------------------------- upload

  /** What becomes of one chunk request: lost on the way, or handled and then answered or not. */
  datatype Fate = Lost | Handled(yes: bool, works: bool, answered: bool)

  datatype Upload = Unreadable | TooLarge | Complete | Failed(chunk: nat, reported: bool)

  /** The agent's files once it has the first `k` chunks. */
  ghost function Holding(files: map<string, Data>, path: string, data: Data, k: nat): map<string, Data> {
    if k == 0 then files else files[path := FirstChunks(data, k)]
  }

  ghost predicate Asks(agent: Agent, path: string, fate: Fate) {
    fate.Handled? && agent.guarded(path) && agent.prompts
  }

  /** Chunk `i` reaches the disk. */
  ghost predicate Lands(agent: Agent, files: map<string, Data>, path: string, overwrite: bool, fate: Fate, i: nat) {
    && fate.Handled? && fate.works
    && (i == 0 ==> (overwrite || path !in files) && (Asks(agent, path, fate) ==> fate.yes))
  }

  /** Chunk `i` is handled and answered with success. */
  ghost predicate Succeeds(agent: Agent, files: map<string, Data>, path: string, overwrite: bool, fate: Fate, i: nat) {
    Lands(agent, files, path, overwrite, fate, i) && Reported(fate)
  }

  /** The operator hears what became of the chunk. */
  predicate Reported(fate: Fate) { fate.Handled? && fate.answered }

  /** The end of chunk `i`: a whole chunk on, or the end of the data. */
  function End(size: nat, i: nat): nat {
    if (i + 1) * CHUNK > size then size else (i + 1) * CHUNK
  }

  lemma NextChunk(data: Data, i: nat)
    requires i < Chunks(|data|)
    ensures FirstChunks(data, i) + data[i * CHUNK..End(|data|, i)] == FirstChunks(data, i + 1)
    ensures i == 0 ==> data[i * CHUNK..End(|data|, i)] == FirstChunks(data, 1)
  {
    assert i * CHUNK <= |data|;
  }

  lemma ChunkStored(files: map<string, Data>, path: string, data: Data, i: nat, p: ChunkParams)
    requires i < Chunks(|data|) && p.path == path && p.index == i
    requires DecodeStd(p.content) == Some(data[i * CHUNK..End(|data|, i)])
    ensures var now := Holding(files, path, data, i);
      && (Stored(now, p).None? <==> i == 0 && !p.overwrite && path in files)
      && (Stored(now, p).Some? ==> Stored(now, p).value == Holding(files, path, data, i + 1))
  {
    NextChunk(data, i);
  }

  datatype Answer = Accepted | Refused | Silence

  /** The request for chunk `i`: what the loop cuts out of the data, encoded. */
  method ChunkRequest(data: Data, path: string, overwrite: bool, i: nat, ghost before: map<string, Data>)
    returns (p: ChunkParams)
    requires i < Chunks(|data|)
    ensures p.path == path && p.index == i && p.total == Chunks(|data|) && p.overwrite == overwrite
    ensures DecodeStd(p.content) == Some(data[i * CHUNK..End(|data|, i)])
    ensures var now := Holding(before, path, data, i);
      && (Stored(now, p).None? <==> i == 0 && !overwrite && path in before)
      && (Stored(now, p).Some? ==> Stored(now, p).value == Holding(before, path, data, i + 1))
  {
    var start := i * CHUNK;
    var end := start + CHUNK;
    if end > |data| {
      end := |data|;
    }
    p := ChunkParams(path, i, Chunks(|data|), EncodeStd(data[start..end]), overwrite);
    StdRoundTrip(data[start..end]);
    ChunkStored(before, path, data, i, p);
  }

  /** One turn of the upload loop, from a remote file holding the chunks before `i`. */
  method SendChunk(agent: Agent, data: Data, path: string, overwrite: bool, i: nat, fate: Fate,
                   ghost before: map<string, Data>)
    returns (answer: Answer)
    requires i < Chunks(|data|) && agent.disk.files == Holding(before, path, data, i)
    modifies agent, agent.disk
    ensures answer.Accepted? <==> Succeeds(agent, before, path, overwrite, fate, i)
    ensures answer.Silence? <==> !Reported(fate)
    ensures agent.disk.files ==
      Holding(before, path, data, if Lands(agent, before, path, overwrite, fate, i) then i + 1 else i)
    ensures agent.asked == old(agent.asked) + if i == 0 && Asks(agent, path, fate) then 1 else 0
    ensures i == 0 && Asks(agent, path, fate) && !fate.yes ==> agent.disk.files == before
  {
    var p := ChunkRequest(data, path, overwrite, i, before);
    match fate {
      case Lost =>
        answer := Silence;
      case Handled(yes, works, answered) =>
        var resp := agent.Handle(p, yes, works);
        answer := if !answered then Silence else if resp.Ok? then Accepted else Refused;
    }
  }

  /**
   handleFileUpload. Success leaves the remote file equal to the local data. A
   failure leaves exactly the chunks before the failed one, and that one too if
   it landed and only its answer was lost. A guarded path is asked about once, in
   the first chunk, and nothing follows a failed chunk.
   */
  method UploadFile(agent: Agent, local: Option<Data>, path: string, overwrite: bool, fates: nat -> Fate)
    returns (r: Upload, sent: nat)
    modifies agent, agent.disk
    ensures r.Unreadable? <==> local.None?
    ensures r.TooLarge? <==> local.Some? && |local.value| > 52_428_800
    ensures r.Unreadable? || r.TooLarge? ==> sent == 0 && agent.disk.files == old(agent.disk.files)
    ensures r.Complete? ==>
      && sent == Chunks(|local.value|)
      && agent.disk.files == old(agent.disk.files)[path := local.value]
    ensures r.Complete? || r.Failed? ==> (
      r.Complete? <==> forall i: nat :: i < Chunks(|local.value|) ==>
        Succeeds(agent, old(agent.disk.files), path, overwrite, fates(i), i))
    ensures r.Failed? ==>
      && sent == r.chunk + 1 <= Chunks(|local.value|)
      && (forall i: nat :: i < r.chunk ==> Succeeds(agent, old(agent.disk.files), path, overwrite, fates(i), i))
      && !Succeeds(agent, old(agent.disk.files), path, overwrite, fates(r.chunk), r.chunk)
      && (r.reported <==> Reported(fates(r.chunk)))
    ensures r.Failed? ==>
      var lands := Lands(agent, old(agent.disk.files), path, overwrite, fates(r.chunk), r.chunk);
      && (r.reported ==> !lands)
      && agent.disk.files ==
           Holding(old(agent.disk.files), path, local.value, if lands then r.chunk + 1 else r.chunk)
    ensures r.Complete? ==> forall i: nat :: i < sent ==> fates(i).Handled? && fates(i).works && fates(i).answered
    ensures r.Failed? && r.reported ==> fates(r.chunk).Handled? && fates(r.chunk).answered
    ensures r.Failed? && !r.reported ==> fates(r.chunk).Lost? || !fates(r.chunk).answered
    ensures r.Failed? && r.reported && r.chunk > 0 ==>
      && !fates(r.chunk).works && r.chunk * 1_048_576 <= |local.value|
      && agent.disk.files == old(agent.disk.files)[path := local.value[..r.chunk * 1_048_576]]
    ensures agent.asked == old(agent.asked) +
      if sent > 0 && fates(0).Handled? && agent.guarded(path) && agent.prompts then 1 else 0
    ensures sent > 0 && Asks(agent, path, fates(0)) && !fates(0).yes ==>
      sent == 1 && agent.disk.files == old(agent.disk.files)
  {
    sent := 0;
    if local.None? {
      return Unreadable, 0;
    }
    var data := local.value;
    if |data| > MAX_SIZE {
      return TooLarge, 0;
    }
    var total := Chunks(|data|);
    ghost var before := agent.disk.files;
    while sent < total
      invariant 0 <= sent <= total
      invariant agent.disk.files == Holding(before, path, data, sent)
      invariant forall j: nat :: j < sent ==> Succeeds(agent, before, path, overwrite, fates(j), j)
      invariant agent.asked == old(agent.asked) + if sent > 0 && Asks(agent, path, fates(0)) then 1 else 0
    {
      var i := sent;
      sent := sent + 1;
      var answer := SendChunk(agent, data, path, overwrite, i, fates(i), before);
      if !answer.Accepted? {
        return Failed(i, answer.Refused?), sent;
      }
    }
    AllChunks(data);
    r := Complete;
  }

  lemma AllChunks(data: Data)
    ensures FirstChunks(data, Chunks(|data|)) == data
  {
    assert data[..|data|] == data;
  }

  // ---------------------------------------------------------------- download

  /** What is appended to the remote file before a request's stat, and between its stat and its read. */
  datatype Growth = Growth(early: Data, late: Data)

  datatype Download = NoAnswer(chunk: nat) | NotSaved(chunk: nat) | Saved(totalSize: nat)

  ghost predicate Still(growth: nat -> Growth) {
    forall i :: growth(i) == Growth([], [])
  }

  function Grown(files: map<string, Data>, path: string, more: Data): map<string, Data> {
    if path in files then files[path := files[path] + more] else files
  }

  /** os.File.ReadAt: up to `size` bytes from `offset`, fewer at the end of the file. */
  function ReadAt(data: Data, offset: nat, size: nat): Data {
    if offset >= |data| then [] else if offset + size > |data| then data[offset..] else data[offset..offset + size]
  }

  /** fileops.DownloadChunk, while the file may grow under it. */
  method DownloadChunk(disk: Disk, path: string, offset: nat, size: nat, growth: Growth)
    returns (r: Result<ChunkResult>)
    modifies disk
    ensures disk.files == Grown(old(disk.files), path, growth.early + growth.late)
    ensures r.Ok? <==> path in disk.files && (offset < |disk.files[path]| || size == 0)
    ensures r.Ok? ==>
      && r.value.totalSize == |old(disk.files)[path]| + |growth.early|
      && r.value.bytesRead == |ReadAt(disk.files[path], offset, size)|
      && DecodeStd(r.value.content) == Some(ReadAt(disk.files[path], offset, size))
  {
    if path !in disk.files {
      return Err("stat");
    }
    ghost var start := disk.files[path];
    disk.files := Grown(disk.files, path, growth.early);
    var totalSize := |disk.files[path]|;
    disk.files := Grown(disk.files, path, growth.late);
    assert disk.files[path] == start + (growth.early + growth.late);
    var buf := ReadAt(disk.files[path], offset, size);
    if |buf| < size && |buf| == 0 {
      return Err("read");
    }
    StdRoundTrip(buf);
    r := Ok(ChunkResult(EncodeStd(buf), |buf|, totalSize));
  }

  /** requestDownloadChunk and the decoding of its answer. */
  method FetchChunk(remote: Disk, path: string, i: nat, growth: Growth, arrives: bool)
    returns (chunk: Option<Data>, totalSize: nat)
    modifies remote
    ensures remote.files == Grown(old(remote.files), path, growth.early + growth.late)
    ensures chunk.Some? <==> arrives && path in remote.files && i * CHUNK < |remote.files[path]|
    ensures chunk.Some? ==>
      && chunk.value == ReadAt(remote.files[path], i * CHUNK, CHUNK)
      && totalSize == |old(remote.files)[path]| + |growth.early|
  {
    var r := DownloadChunk(remote, path, i * CHUNK, CHUNK, growth);
    if r.Err? || !arrives {
      return None, 0;
    }
    chunk, totalSize := DecodeStd(r.value.content), r.value.totalSize;
  }

  /** After `i` of `total` chunks the local data is that much of the remote file. */
  ghost predicate Fetched(data: Data, saved: Data, i: nat, total: nat, totalSize: nat) {
    && saved <= data && totalSize <= |data|
    && if i < total then |saved| == i * CHUNK else totalSize <= |saved| <= total * CHUNK
  }

  lemma ChunkExtends(data: Data, grown: Data, saved: Data, i: nat, totalSize: nat)
    requires i < Chunks(totalSize) && Fetched(data, saved, i, Chunks(totalSize), totalSize) && data <= grown
    ensures Fetched(grown, saved + ReadAt(grown, i * CHUNK, CHUNK), i + 1, Chunks(totalSize), totalSize)
    ensures i * CHUNK <= |grown| && saved == grown[..i * CHUNK]
  {
    var next := saved + ReadAt(grown, i * CHUNK, CHUNK);
    assert saved == grown[..i * CHUNK];
    assert next == FirstChunks(grown, i + 1);
  }

  lemma GrownBy(files: map<string, Data>, path: string, more: Data)
    ensures Grown(files, path, []) == files
    ensures path in files ==>
      && files[path] <= Grown(files, path, more)[path]
      && Grown(files, path, more) == files[path := Grown(files, path, more)[path]]
  {
    if path in files {
      assert files[path] + [] == files[path];
    }
  }

  ghost function FirstSize(files: map<string, Data>, from: string, growth: nat -> Growth): nat {
    if from in files then |files[from]| + |growth(0).early| else 0
  }

  /** The file exists and something is in it by the time of the read. */
  ghost predicate NonEmpty(files: map<string, Data>, from: string, growth: Growth) {
    from in files && |files[from]| + |growth.early| + |growth.late| > 0
  }

  /** Request `i` brings data: it is answered, and the first one finds some. */
  ghost predicate Brings(files: map<string, Data>, from: string, growth: Growth, arrives: bool, i: nat) {
    arrives && (i == 0 ==> NonEmpty(files, from, growth))
  }

  /** Only `from` may have changed, by growing. */
  ghost predicate OnlyGrew(old_: map<string, Data>, new_: map<string, Data>, from: string) {
    if from in old_ then from in new_ && old_[from] <= new_[from] && new_ == old_[from := new_[from]] else new_ == old_
  }

  datatype Step = Appended | Unanswered | Unsaved

  /** A chunk is lost before it can fail to be saved. */
  function StepOf(arrives: bool, saves: bool): Step {
    if !arrives then Unanswered else if !saves then Unsaved else Appended
  }

  /** One turn of the download loop. */
  method FetchNext(remote: Disk, local: Disk, from: string, to: string, i: nat, totalSize: nat,
                   growth: Growth, arrives: bool, saves: bool) returns (step: Step)
    requires remote != local && from in remote.files && to in local.files && 1 <= i < Chunks(totalSize)
    requires Fetched(remote.files[from], local.files[to], i, Chunks(totalSize), totalSize)
    modifies remote, local
    ensures OnlyGrew(old(remote.files), remote.files, from)
    ensures growth == Growth([], []) ==> remote.files == old(remote.files)
    ensures step == StepOf(arrives, saves)
    ensures step.Appended? ==>
      && to in local.files && local.files == old(local.files)[to := local.files[to]]
      && Fetched(remote.files[from], local.files[to], i + 1, Chunks(totalSize), totalSize)
    ensures !step.Appended? ==>
      && local.files == old(local.files)
      && i * CHUNK <= |remote.files[from]| && local.files[to] == remote.files[from][..i * CHUNK]
  {
    GrownBy(remote.files, from, growth.early + growth.late);
    var chunk, _ := FetchChunk(remote, from, i, growth, arrives);
    ChunkExtends(old(remote.files[from]), remote.files[from], local.files[to], i, totalSize);
    if chunk.None? {
      return Unanswered;
    }
    var ok := local.Append(to, chunk.value, saves);
    step := if ok then Appended else Unsaved;
  }

  /** The first request, and the creation of the local file. */
  method FetchFirst(remote: Disk, local: Disk, from: string, to: string, growth: Growth, arrives: bool, saves: bool)
    returns (step: Step, totalSize: nat)
    requires remote != local
    modifies remote, local
    ensures OnlyGrew(old(remote.files), remote.files, from)
    ensures growth == Growth([], []) ==> remote.files == old(remote.files)
    ensures step == StepOf(arrives && NonEmpty(old(remote.files), from, growth), saves)
    ensures step.Appended? ==>
      && totalSize == |old(remote.files)[from]| + |growth.early|
      && to in local.files && local.files == old(local.files)[to := local.files[to]]
      && Fetched(remote.files[from], local.files[to], 1, Chunks(totalSize), totalSize)
    ensures !step.Appended? ==> local.files == old(local.files)
  {
    GrownBy(remote.files, from, growth.early + growth.late);
    var chunk;
    chunk, totalSize := FetchChunk(remote, from, 0, growth, arrives);
    if chunk.None? {
      return Unanswered, 0;
    }
    ChunkExtends(remote.files[from], remote.files[from], [], 0, totalSize);
    assert [] + chunk.value == chunk.value;
    var ok := local.Write(to, chunk.value, saves);
    step := if ok then Appended else Unsaved;
  }

  /** The download loop; `i` counts the chunks that made it. */
  method FetchRest(remote: Disk, local: Disk, from: string, to: string, totalSize: nat,
                   growth: nat -> Growth, arrives: nat -> bool, saves: nat -> bool) returns (step: Step, i: nat)
    requires remote != local && from in remote.files && to in local.files
    requires Fetched(remote.files[from], local.files[to], 1, Chunks(totalSize), totalSize)
    modifies remote, local
    ensures OnlyGrew(old(remote.files), remote.files, from)
    ensures Still(growth) ==> remote.files == old(remote.files)
    ensures to in local.files && local.files == old(local.files)[to := local.files[to]]
    ensures 1 <= i <= Chunks(totalSize) && (step.Appended? <==> i == Chunks(totalSize))
    ensures forall j :: 1 <= j < i ==> arrives(j) && saves(j)
    ensures step.Appended? ==> Fetched(remote.files[from], local.files[to], i, i, totalSize)
    ensures !step.Appended? ==>
      && step == StepOf(arrives(i), saves(i))
      && i * CHUNK <= |remote.files[from]| && local.files[to] == remote.files[from][..i * CHUNK]
  {
    var total := Chunks(totalSize);
    i, step := 1, Appended;
    while i < total
      invariant 1 <= i <= total && step.Appended?
      invariant OnlyGrew(old(remote.files), remote.files, from)
      invariant Still(growth) ==> remote.files == old(remote.files)
      invariant to in local.files && local.files == old(local.files)[to := local.files[to]]
      invariant Fetched(remote.files[from], local.files[to], i, total, totalSize)
      invariant forall j :: 1 <= j < i ==> arrives(j) && saves(j)
    {
      step := FetchNext(remote, local, from, to, i, totalSize, growth(i), arrives(i), saves(i));
      if !step.Appended? {
        return;
      }
      i := i + 1;
    }
  }

  /**
   handleFileDownload, while the remote file may only grow. A saved file is a
   prefix of the remote file, at least as long as the size first reported and
   at most the chunks requested; a failure leaves whole chunks of such a prefix.
   */
  method DownloadFile(remote: Disk, local: Disk, from: string, to: string,
                      growth: nat -> Growth, arrives: nat -> bool, saves: nat -> bool) returns (r: Download)
    requires remote != local
    modifies remote, local
    ensures OnlyGrew(old(remote.files), remote.files, from)
    ensures Still(growth) ==> remote.files == old(remote.files)
    ensures r.Saved? && Still(growth) ==>
      from in old(remote.files) && to in local.files && local.files[to] == old(remote.files)[from]
    ensures r.Saved? ==>
      && from in remote.files && r.totalSize == FirstSize(old(remote.files), from, growth)
      && to in local.files && local.files == old(local.files)[to := local.files[to]]
      && local.files[to] <= remote.files[from]
      && r.totalSize <= |local.files[to]| <= Chunks(r.totalSize) * 1_048_576
    ensures !r.Saved? && r.chunk == 0 ==> local.files == old(local.files)
    ensures !r.Saved? && r.chunk > 0 ==>
      && from in remote.files && r.chunk * 1_048_576 <= |remote.files[from]|
      && local.files == old(local.files)[to := remote.files[from][..r.chunk * 1_048_576]]
      && (forall i: nat :: i < r.chunk ==> arrives(i) && saves(i))
      && (if r.NoAnswer? then !arrives(r.chunk) else arrives(r.chunk) && !saves(r.chunk))
    ensures r.Saved? ==> forall i: nat :: i < Chunks(r.totalSize) ==> arrives(i) && saves(i)
    ensures r.Saved? <==> forall i: nat :: i < Chunks(FirstSize(old(remote.files), from, growth)) ==>
      Brings(old(remote.files), from, growth(i), arrives(i), i) && saves(i)
    ensures !r.Saved? ==>
      && r.chunk < Chunks(FirstSize(old(remote.files), from, growth))
      && (forall i: nat :: i < r.chunk ==> Brings(old(remote.files), from, growth(i), arrives(i), i) && saves(i))
      && var brings := Brings(old(remote.files), from, growth(r.chunk), arrives(r.chunk), r.chunk);
      !(brings && saves(r.chunk)) && (r.NoAnswer? <==> !brings)
  {
    var step, totalSize := FetchFirst(remote, local, from, to, growth(0), arrives(0), saves(0));
    if !step.Appended? {
      return if step.Unanswered? then NoAnswer(0) else NotSaved(0);
    }
    var i;
    step, i := FetchRest(remote, local, from, to, totalSize, growth, arrives, saves);
    r := if step.Appended? then Saved(totalSize) else if step.Unanswered? then NoAnswer(i) else NotSaved(i);
  }
}
