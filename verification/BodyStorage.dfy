/**
 Reusable request bodies. A body is kept in memory or in a temporary file; both offer the same
 seekable byte store, and global counters record how many bodies and bytes each kind holds.
 */
module BodyStorage {
  import opened Options

  type byte = x: int | 0 <= x < 256

  datatype Error = StorageClosed | EndOfFile | BadPosition | TooLarge | DiskFailed | ReadFailed | DecodeFailed

  datatype Result<T> = Ok(value: T) | Err(error: Error)

  datatype Whence = FromStart | FromCurrent | FromEnd

  // ---------------------------------------------------------------- the abstract store

  datatype Store = Store(data: seq<byte>, pos: nat, closed: bool)

  datatype Op = Read(room: nat) | Seek(offset: int, whence: Whence) | Bytes | Close

  datatype Reply = Data(bytes: seq<byte>) | Position(pos: nat) | Closed | Failed(error: Error)

  function Min(a: int, b: int): int {
    if a < b then a else b
  }

  /** The answer of both kinds to a read into a buffer with room for at least one byte. */
  function DoRead(s: Store, room: nat): (Store, Reply) {
    if s.pos >= |s.data| then (s, Failed(EndOfFile))
    else
      var end := Min(s.pos + room, |s.data|);
      (s.(pos := end), Data(s.data[s.pos..end]))
  }

  function Target(s: Store, offset: int, whence: Whence): int {
    match whence
    case FromStart => offset
    case FromCurrent => s.pos + offset
    case FromEnd => |s.data| + offset
  }

  function Do(s: Store, op: Op, emptyReadAtEnd: Reply): (Store, Reply) {
    if op.Close? then (s.(closed := true), Closed)
    else if s.closed then (s, Failed(StorageClosed))
    else
      match op
      case Read(room) => if room == 0 && s.pos >= |s.data| then (s, emptyReadAtEnd) else DoRead(s, room)
      case Seek(offset, whence) =>
        var target := Target(s, offset, whence);
        if target < 0 then (s, Failed(BadPosition)) else (s.(pos := target), Position(target))
      case Bytes => (s, Data(s.data))
      case Close => (s, Closed)
  }

  /** bytes.Reader reports the end even to an empty buffer; a file does not. */
  function DoMemory(s: Store, op: Op): (Store, Reply) {
    Do(s, op, Failed(EndOfFile))
  }

  function DoDisk(s: Store, op: Op): (Store, Reply) {
    Do(s, op, Data([]))
  }

  datatype Kind = Memory | Disk

  function Step(kind: Kind, s: Store, op: Op): (Store, Reply) {
    match kind
    case Memory => DoMemory(s, op)
    case Disk => DoDisk(s, op)
  }

  function Replies(kind: Kind, s: Store, ops: seq<Op>): seq<Reply>
    decreases |ops|
  {
    if |ops| == 0 then [] else [Step(kind, s, ops[0]).1] + Replies(kind, Step(kind, s, ops[0]).0, ops[1..])
  }

  function AfterOps(kind: Kind, s: Store, ops: seq<Op>): Store
    decreases |ops|
  {
    if |ops| == 0 then s else AfterOps(kind, Step(kind, s, ops[0]).0, ops[1..])
  }

  /** Read repeatedly with the given buffer sizes and join what arrives. */
  function Drain(kind: Kind, s: Store, rooms: seq<nat>): seq<byte>
    decreases |rooms|
  {
    if |rooms| == 0 then []
    else
      var (s', reply) := Step(kind, s, Read(rooms[0]));
      (if reply.Data? then reply.bytes else []) + Drain(kind, s', rooms[1..])
  }

  function Sum(rooms: seq<nat>): nat {
    if |rooms| == 0 then 0 else rooms[0] + Sum(rooms[1..])
  }

  /** Seeking counts from the start, the present position or the end, and a read goes on from there; a
      place before the start is refused. */
  lemma SeekThenRead(kind: Kind, s: Store, offset: int, whence: Whence, room: nat)
    requires !s.closed && room > 0
    ensures var (s', reply) := Step(kind, s, Seek(offset, whence));
      var p := offset + (match whence case FromStart => 0 case FromCurrent => s.pos case FromEnd => |s.data|);
      if p < 0 then s' == s && reply == Failed(BadPosition)
      else
        reply == Position(p)
        && Step(kind, s', Read(room)).1
           == (if p >= |s.data| then Failed(EndOfFile)
               else Data(s.data[p..if p + room < |s.data| then p + room else |s.data|]))
  {
  }

  predicate EmptyReadAtEnd(s: Store, op: Op) {
    op == Read(0) && !s.closed && s.pos >= |s.data|
  }

  /** The two kinds differ in one case only: an empty buffer offered at or past the end. */
  lemma KindsDifferOnlyOnEmptyReadAtEnd(s: Store, op: Op)
    ensures DoMemory(s, op) == DoDisk(s, op) <==> !EmptyReadAtEnd(s, op)
    ensures DoMemory(s, op).0 == DoDisk(s, op).0
  {
    assert Failed(EndOfFile) != Data([]);
  }

  /** Somewhere in the sequence that case comes up. */
  predicate MeetsEmptyReadAtEnd(s: Store, ops: seq<Op>)
    decreases |ops|
  {
    |ops| > 0 && (EmptyReadAtEnd(s, ops[0]) || MeetsEmptyReadAtEnd(DoDisk(s, ops[0]).0, ops[1..]))
  }

  /** So a sequence of operations gets the same replies from both kinds if and only if that case
      does not come up, and leaves both in the same state in any case. */
  lemma {:induction false} KindsAgree(s: Store, ops: seq<Op>)
    ensures Replies(Memory, s, ops) == Replies(Disk, s, ops) <==> !MeetsEmptyReadAtEnd(s, ops)
    ensures AfterOps(Memory, s, ops) == AfterOps(Disk, s, ops)
    decreases |ops|
  {
    if |ops| > 0 {
      KindsDifferOnlyOnEmptyReadAtEnd(s, ops[0]);
      var next := DoDisk(s, ops[0]).0;
      KindsAgree(next, ops[1..]);
      SameHeads(DoMemory(s, ops[0]).1, DoDisk(s, ops[0]).1,
                Replies(Memory, next, ops[1..]), Replies(Disk, next, ops[1..]));
    }
  }

  lemma SameHeads<T>(x: T, y: T, xs: seq<T>, ys: seq<T>)
    ensures [x] + xs == [y] + ys <==> x == y && xs == ys
  {
    if [x] + xs == [y] + ys {
      assert ([x] + xs)[0] == ([y] + ys)[0] && ([x] + xs)[1..] == ([y] + ys)[1..];
    }
  }

  /** In particular every sequence of non-empty reads, seeks, Bytes and Close gets the same replies. */
  lemma {:induction false} NonEmptyReadsAgree(s: Store, ops: seq<Op>)
    requires Read(0) !in ops
    ensures Replies(Memory, s, ops) == Replies(Disk, s, ops)
    decreases |ops|
  {
    KindsAgree(s, ops);
    if |ops| > 0 {
      NonEmptyReadsAgree(DoDisk(s, ops[0]).0, ops[1..]);
      KindsAgree(DoDisk(s, ops[0]).0, ops[1..]);
    }
  }

  /** No consumer can change the data, and only Close closes. */
  lemma {:induction false} OpsKeepData(kind: Kind, s: Store, ops: seq<Op>)
    ensures AfterOps(kind, s, ops).data == s.data
    ensures AfterOps(kind, s, ops).closed <==> s.closed || Close in ops
    decreases |ops|
  {
    if |ops| > 0 {
      OpsKeepData(kind, Step(kind, s, ops[0]).0, ops[1..]);
    }
  }

  lemma {:induction false} DrainReadsTheRest(kind: Kind, s: Store, rooms: seq<nat>)
    requires !s.closed && s.pos <= |s.data| && Sum(rooms) >= |s.data| - s.pos
    ensures Drain(kind, s, rooms) == s.data[s.pos..]
    decreases |rooms|
  {
    if |rooms| > 0 {
      var s' := Step(kind, s, Read(rooms[0])).0;
      DrainReadsTheRest(kind, s', rooms[1..]);
      assert s.data[s.pos..] == s.data[s.pos..s'.pos] + s'.data[s'.pos..];
    }
  }

  /** However much earlier consumers read or seeked, a reader that starts after a rewind sees the
      whole body, whatever its buffer sizes, from either kind. */
  lemma BodySurvivesConsumers(kind: Kind, body: seq<byte>, ops: seq<Op>, rooms: seq<nat>)
    requires Close !in ops && Sum(rooms) >= |body|
    ensures var (s, reply) := Step(kind, AfterOps(kind, Store(body, 0, false), ops), Seek(0, FromStart));
      reply == Position(0) && s == Store(body, 0, false) && Drain(kind, s, rooms) == body
  {
    OpsKeepData(kind, Store(body, 0, false), ops);
    DrainReadsTheRest(kind, Store(body, 0, false), rooms);
  }

  // ---------------------------------------------------------------- the global counters

  class CacheStats {
    var enabled: bool
    var thresholdMB: int
    var maxSizeMB: int
    var diskFiles: int
    var diskBytes: int
    var memoryBuffers: int
    var memoryBytes: int
    var diskHits: int
    var memoryHits: int

    ghost function Usage(): (int, int, int, int)
      reads this
    {
      (diskFiles, diskBytes, memoryBuffers, memoryBytes)
    }

    method IncrementDiskFiles(size: int)
      modifies this`diskFiles, this`diskBytes
      ensures diskFiles == old(diskFiles) + 1 && diskBytes == old(diskBytes) + size
    {
      diskFiles := diskFiles + 1;
      diskBytes := diskBytes + size;
    }

    method DecrementDiskFiles(size: int)
      modifies this`diskFiles, this`diskBytes
      ensures diskFiles == if old(diskFiles) >= 1 then old(diskFiles) - 1 else 0
      ensures diskBytes == if old(diskBytes) >= size then old(diskBytes) - size else 0
    {
      diskFiles := diskFiles - 1;
      if diskFiles < 0 {
        diskFiles := 0;
      }
      diskBytes := diskBytes - size;
      if diskBytes < 0 {
        diskBytes := 0;
      }
    }

    method IncrementMemoryBuffers(size: int)
      modifies this`memoryBuffers, this`memoryBytes
      ensures memoryBuffers == old(memoryBuffers) + 1 && memoryBytes == old(memoryBytes) + size
    {
      memoryBuffers := memoryBuffers + 1;
      memoryBytes := memoryBytes + size;
    }

    method DecrementMemoryBuffers(size: int)
      modifies this`memoryBuffers, this`memoryBytes
      ensures memoryBuffers == old(memoryBuffers) - 1 && memoryBytes == old(memoryBytes) - size
    {
      memoryBuffers := memoryBuffers - 1;
      memoryBytes := memoryBytes - size;
    }

    predicate IsDiskCacheAvailable(size: int)
      reads this
    {
      enabled && diskBytes + size <= maxSizeMB * 1048576
    }
  }

  // ---------------------------------------------------------------- memory storage

  ghost predicate AnswersRead(reply: Reply, n: nat, err: Option<Error>, filled: seq<byte>) {
    match reply
    case Data(b) => err == None && filled == b && n == |b|
    case Failed(e) => err == Some(e) && n == 0
    case _ => false
  }

  ghost predicate AnswersSeek(reply: Reply, r: Result<nat>) {
    match reply
    case Position(p) => r == Ok(p)
    case Failed(e) => r == Err(e)
    case _ => false
  }

  ghost predicate AnswersBytes(reply: Reply, r: Result<seq<byte>>) {
    match reply
    case Data(b) => r == Ok(b)
    case Failed(e) => r == Err(e)
    case _ => false
  }

  class MemoryStorage {
    const data: seq<byte>
    const size: nat
    const stats: CacheStats
    var next: nat
    var closed: bool

    ghost predicate Valid()
    {
      size == |data|
    }

    ghost function View(): Store
      reads this
    {
      Store(data, next, closed)
    }

    constructor (data: seq<byte>, stats: CacheStats)
      modifies stats`memoryBuffers, stats`memoryBytes
      ensures Valid() && View() == Store(data, 0, false) && this.stats == stats
      ensures stats.memoryBuffers == old(stats.memoryBuffers) + 1
      ensures stats.memoryBytes == old(stats.memoryBytes) + |data|
    {
      this.data, this.size, this.stats := data, |data|, stats;
      next, closed := 0, false;
      new;
      stats.IncrementMemoryBuffers(|data|);
    }

    method Read(p: array<byte>) returns (n: nat, err: Option<Error>)
      requires Valid()
      modifies this, p
      ensures n <= p.Length && View() == DoMemory(old(View()), Op.Read(p.Length)).0
      ensures AnswersRead(DoMemory(old(View()), Op.Read(p.Length)).1, n, err, p[..n])
      ensures p[n..] == old(p[n..])
    {
      if closed {
        return 0, Some(StorageClosed);
      }
      if next >= |data| {
        return 0, Some(EndOfFile);
      }
      n := Min(p.Length, |data| - next);
      forall i | 0 <= i < n {
        p[i] := data[next + i];
      }
      next := next + n;
      err := None;
      assert p[..n] == data[old(next)..old(next) + n];
    }

    method Seek(offset: int, whence: Whence) returns (r: Result<nat>)
      requires Valid()
      modifies this
      ensures View() == DoMemory(old(View()), Op.Seek(offset, whence)).0
      ensures AnswersSeek(DoMemory(old(View()), Op.Seek(offset, whence)).1, r)
    {
      if closed {
        return Err(StorageClosed);
      }
      var target := match whence
        case FromStart => offset
        case FromCurrent => next + offset
        case FromEnd => |data| + offset;
      if target < 0 {
        return Err(BadPosition);
      }
      next := target;
      r := Ok(target);
    }

    method Bytes() returns (r: Result<seq<byte>>)
      ensures AnswersBytes(DoMemory(View(), Op.Bytes).1, r)
    {
      r := if closed then Err(StorageClosed) else Ok(data);
    }

    method Close()
      requires Valid()
      modifies this, stats`memoryBuffers, stats`memoryBytes
      ensures View() == DoMemory(old(View()), Op.Close).0
      ensures stats.memoryBuffers == old(stats.memoryBuffers) - (if old(closed) then 0 else 1)
      ensures stats.memoryBytes == old(stats.memoryBytes) - (if old(closed) then 0 else |data|)
    {
      if !closed {
        closed := true;
        stats.DecrementMemoryBuffers(size);
      }
    }
  }

  // ---------------------------------------------------------------- disk storage

  /** A regular file. A read returns as much as fits and is left. `open` and `linked` say whether
      it is still open, and still has its name in the cache directory. */
  class File {
    const content: seq<byte>
    var offset: nat
    var open: bool
    var linked: bool

    constructor (content: seq<byte>)
      ensures this.content == content && offset == 0 && open && linked
    {
      this.content := content;
      offset, open, linked := 0, true, true;
    }

    /** Close the file. */
    method Close()
      modifies this`open
      ensures !open
    {
      open := false;
    }

    /** Remove its name. */
    method Remove()
      modifies this`linked
      ensures !linked
    {
      linked := false;
    }

    method Read(p: array<byte>, from: nat) returns (n: nat, eof: bool)
      requires open && from <= p.Length
      modifies this`offset, p
      ensures offset == old(offset) + n && from + n <= p.Length
      ensures eof <==> from < p.Length && old(offset) >= |content|
      ensures n == if eof || from == p.Length then 0 else Min(p.Length - from, |content| - old(offset))
      ensures p[..from] == old(p[..from]) && p[from + n..] == old(p[from + n..])
      ensures n > 0 ==> old(offset) + n <= |content| && p[from..from + n] == content[old(offset)..old(offset) + n]
    {
      if from == p.Length {
        return 0, false;
      }
      if offset >= |content| {
        return 0, true;
      }
      n := Min(p.Length - from, |content| - offset);
      forall i | 0 <= i < n {
        p[from + i] := content[offset + i];
      }
      offset := offset + n;
      eof := false;
    }

    method Seek(delta: int, whence: Whence) returns (r: Result<nat>)
      requires open
      modifies this`offset
      ensures var target := Target(Store(content, old(offset), false), delta, whence);
        if target < 0 then r == Err(BadPosition) && offset == old(offset) else r == Ok(target) && offset == target
    {
      var target := match whence
        case FromStart => delta
        case FromCurrent => offset + delta
        case FromEnd => |content| + delta;
      if target < 0 {
        return Err(BadPosition);
      }
      offset := target;
      r := Ok(target);
    }
  }

  class DiskStorage {
    const file: File
    const size: nat
    const stats: CacheStats
    var closed: bool

    /** The temporary file is open and in the directory exactly until the storage is closed. */
    ghost predicate Valid()
      reads this, file
    {
      size == |file.content| && file.open == !closed && file.linked == !closed
    }

    ghost function View(): Store
      reads this, file
    {
      Store(file.content, file.offset, closed)
    }

    constructor (file: File, stats: CacheStats)
      requires file.offset == 0 && file.open && file.linked
      modifies stats`diskFiles, stats`diskBytes
      ensures Valid() && View() == Store(file.content, 0, false) && this.file == file && this.stats == stats
      ensures stats.diskFiles == old(stats.diskFiles) + 1
      ensures stats.diskBytes == old(stats.diskBytes) + |file.content|
    {
      this.file, this.size, this.stats := file, |file.content|, stats;
      closed := false;
      new;
      stats.IncrementDiskFiles(|file.content|);
    }

    method Read(p: array<byte>) returns (n: nat, err: Option<Error>)
      requires Valid()
      modifies file`offset, p
      ensures Valid() && n <= p.Length && View() == DoDisk(old(View()), Op.Read(p.Length)).0
      ensures AnswersRead(DoDisk(old(View()), Op.Read(p.Length)).1, n, err, p[..n])
      ensures p[n..] == old(p[n..])
    {
      if closed {
        return 0, Some(StorageClosed);
      }
      var eof;
      n, eof := file.Read(p, 0);
      err := if eof then Some(EndOfFile) else None;
      assert p[..n] == p[0..n];
    }

    method Seek(offset: int, whence: Whence) returns (r: Result<nat>)
      requires Valid()
      modifies file`offset
      ensures Valid() && View() == DoDisk(old(View()), Op.Seek(offset, whence)).0
      ensures AnswersSeek(DoDisk(old(View()), Op.Seek(offset, whence)).1, r)
    {
      if closed {
        return Err(StorageClosed);
      }
      r := file.Seek(offset, whence);
    }

    /** Save the position, read the whole file from the start, restore the position. */
    method Bytes() returns (r: Result<seq<byte>>)
      requires Valid()
      modifies file`offset
      ensures Valid() && View() == old(View())
      ensures AnswersBytes(DoDisk(old(View()), Op.Bytes).1, r)
    {
      if closed {
        return Err(StorageClosed);
      }
      var current := file.Seek(0, FromCurrent);
      var start := file.Seek(0, FromStart);
      var data := new byte[size];
      var got := 0;
      while got < size
        invariant 0 <= got <= size && file.offset == got && !closed
        invariant data[..got] == file.content[..got]
      {
        ghost var before := data[..got];
        var n, eof := file.Read(data, got);
        assert data[..got] == before;
        assert data[..got + n] == data[..got] + data[got..got + n];
        got := got + n;
      }
      assert data[..got] == data[..] && file.content[..got] == file.content;
      var restored := file.Seek(current.value, FromStart);
      r := Ok(data[..]);
    }

    method Close()
      requires Valid()
      modifies this`closed, file`open, file`linked, stats`diskFiles, stats`diskBytes
      ensures Valid() && View() == DoDisk(old(View()), Op.Close).0
      ensures !file.open && !file.linked
      ensures old(closed) ==> stats.diskFiles == old(stats.diskFiles) && stats.diskBytes == old(stats.diskBytes)
      ensures !old(closed) ==>
        stats.diskFiles == (if old(stats.diskFiles) >= 1 then old(stats.diskFiles) - 1 else 0)
        && stats.diskBytes == (if old(stats.diskBytes) >= size then old(stats.diskBytes) - size else 0)
    {
      if !closed {
        closed := true;
        file.Close();
        file.Remove();
        stats.DecrementDiskFiles(size);
      }
    }
  }

  // ---------------------------------------------------------------- choosing a storage

  datatype Storage = InMemory(memory: MemoryStorage) | OnDisk(disk: DiskStorage)
  {
    ghost predicate Valid()
      reads Repr()
    {
      match this
      case InMemory(m) => m.Valid()
      case OnDisk(d) => d.Valid()
    }

    ghost function Repr(): set<object>
    {
      match this
      case InMemory(m) => {m}
      case OnDisk(d) => {d, d.file}
    }

    ghost function View(): Store
      reads Repr()
    {
      match this
      case InMemory(m) => m.View()
      case OnDisk(d) => d.View()
    }
  }

  /** What io.LimitReader lets through. */
  function Limited(stream: seq<byte>, limit: int): (r: seq<byte>)
    ensures r <= stream && |r| == if limit < 0 then 0 else Min(limit, |stream|)
  {
    if limit < 0 then [] else stream[..Min(limit, |stream|)]
  }

  /** How the counters change when a storage for `bytes` bytes is created. */
  ghost predicate Counted(s: Storage, bytes: int, before: (int, int, int, int), after: (int, int, int, int)) {
    after == if s.OnDisk? then (before.0 + 1, before.1 + bytes, before.2, before.3)
             else (before.0, before.1, before.2 + 1, before.3 + bytes)
  }

  /** `diskOk` is false when creating, writing or rewinding the temporary file fails. */
  method CreateBodyStorage(data: seq<byte>, stats: CacheStats, diskOk: bool) returns (s: Storage)
    modifies stats`diskFiles, stats`diskBytes, stats`memoryBuffers, stats`memoryBytes
    ensures s.Valid() && fresh(s.Repr()) && s.View() == Store(data, 0, false)
    ensures s.OnDisk? <==>
      old(stats.enabled) && |data| >= old(stats.thresholdMB) * 1048576
      && old(stats.diskBytes) + |data| <= old(stats.maxSizeMB) * 1048576 && diskOk
    // So a body put on disk here never takes the usage over the limit.
    ensures s.OnDisk? ==> stats.diskBytes <= stats.maxSizeMB * 1048576
    ensures Counted(s, |data|, old(stats.Usage()), stats.Usage())
  {
    var threshold := stats.thresholdMB * 1048576;
    if stats.enabled && |data| >= threshold && stats.IsDiskCacheAvailable(|data|) && diskOk {
      var file := new File(data);
      var d := new DiskStorage(file, stats);
      return OnDisk(d);
    }
    var m := new MemoryStorage(data, stats);
    s := InMemory(m);
  }

  /** The claimed length is known, large enough, and fits. */
  predicate ClaimsDisk(stats: CacheStats, contentLength: int)
    reads stats
  {
    stats.enabled && contentLength > 0 && contentLength >= stats.thresholdMB * 1048576
    && stats.diskBytes + contentLength <= stats.maxSizeMB * 1048576
  }

  /** `readOk` is false when reading the request stream fails. */
  method CreateBodyStorageFromReader(stream: seq<byte>, contentLength: int, maxBytes: int,
                                     stats: CacheStats, diskOk: bool, readOk: bool)
    returns (r: Result<Storage>)
    modifies stats
    ensures stats.enabled == old(stats.enabled) && stats.thresholdMB == old(stats.thresholdMB)
      && stats.maxSizeMB == old(stats.maxSizeMB)
    // What is created always holds exactly the stream, from its start.
    ensures r.Ok? ==> |stream| <= maxBytes && r.value.Valid() && fresh(r.value.Repr())
    ensures r.Ok? ==> r.value.View() == Store(stream, 0, false)
    ensures r.Ok? ==> Counted(r.value, |stream|, old(stats.Usage()), stats.Usage())
    // Writing straight to disk, which a large enough claim asks for, is given up if the disk fails.
    ensures r.Ok? <==> readOk && |stream| <= maxBytes && (old(ClaimsDisk(stats, contentLength)) ==> diskOk)
    ensures r.Err? && old(ClaimsDisk(stats, contentLength)) && !diskOk ==> r.error == DiskFailed
    ensures r.Err? && !(old(ClaimsDisk(stats, contentLength)) && !diskOk) ==>
      r.error == (if readOk then TooLarge else ReadFailed)
    ensures r.Ok? && old(ClaimsDisk(stats, contentLength)) ==> r.value.OnDisk?
    // Whatever length was claimed and whichever route was taken, only the true length decides.
    ensures diskOk && readOk ==> (r.Ok? <==> |stream| <= maxBytes)
    ensures diskOk && readOk && r.Err? ==> r.error == TooLarge
    // A rejected stream leaves every usage counter as it was.
    ensures r.Err? ==> stats.Usage() == old(stats.Usage())
    ensures stats.diskHits == old(stats.diskHits) + (if r.Ok? && r.value.OnDisk? then 1 else 0)
    ensures stats.memoryHits == old(stats.memoryHits) + (if r.Ok? && r.value.InMemory? then 1 else 0)
  {
    var threshold := stats.thresholdMB * 1048576;
    if stats.enabled && contentLength > 0 && contentLength >= threshold && stats.IsDiskCacheAvailable(contentLength) {
      if !diskOk {
        return Err(DiskFailed);
      }
      if !readOk {
        return Err(ReadFailed);
      }
      var written := Limited(stream, maxBytes + 1);
      if |written| > maxBytes {
        return Err(TooLarge);
      }
      var file := new File(written);
      var d := new DiskStorage(file, stats);
      stats.diskHits := stats.diskHits + 1;
      return Ok(OnDisk(d));
    }
    if !readOk {
      return Err(ReadFailed);
    }
    var data := Limited(stream, maxBytes + 1);
    if |data| > maxBytes {
      return Err(TooLarge);
    }
    var s := CreateBodyStorage(data, stats, diskOk);
    if s.InMemory? {
      stats.memoryHits := stats.memoryHits + 1;
    } else {
      stats.diskHits := stats.diskHits + 1;
    }
    r := Ok(s);
  }

  // ---------------------------------------------------------------- the request context

  method Rewind(s: Storage) returns (r: Result<nat>)
    requires s.Valid()
    modifies s.Repr()
    ensures s.Valid() && s.View() == DoDisk(old(s.View()), Seek(0, FromStart)).0
    ensures AnswersSeek(DoDisk(old(s.View()), Seek(0, FromStart)).1, r)
  {
    match s
    case InMemory(m) => r := m.Seek(0, FromStart);
    case OnDisk(d) => r := d.Seek(0, FromStart);
  }

  class RequestContext {
    var storage: Option<Storage>   // KeyBodyStorage
    var legacy: Option<seq<byte>>  // KeyRequestBody
    const stream: seq<byte>        // the bytes the client sends
    const contentLength: int
    const stats: CacheStats

    constructor (stream: seq<byte>, contentLength: int, legacy: Option<seq<byte>>, stats: CacheStats)
      ensures this.stream == stream && this.contentLength == contentLength && this.legacy == legacy
        && this.stats == stats && storage == None
    {
      this.stream, this.contentLength, this.legacy, this.stats := stream, contentLength, legacy, stats;
      storage := None;
    }

    ghost function Cached(): set<object>
      reads this
    {
      if storage.Some? then storage.value.Repr() else {}
    }

    ghost predicate Valid()
      reads this, Cached()
    {
      storage.Some? ==> storage.value.Valid()
    }

    /** The body this request stands for. */
    ghost function Original(): seq<byte>
      reads this
    {
      if legacy.Some? then legacy.value else stream
    }

    /** The first call reads the stream (or the older cached bytes) once; every later call hands
        out the same storage, rewound. */
    method GetRequestBody(maxMB: int, diskOk: bool, readOk: bool) returns (r: Result<Storage>)
      requires Valid()
      modifies this`storage, stats, Cached()
      ensures Valid() && legacy == old(legacy)
      ensures r.Ok? ==> storage == Some(r.value)
      ensures old(storage).Some? ==> storage == old(storage) && (r.Ok? <==> !old(storage.value.View()).closed)
      ensures old(storage).Some? && r.Err? ==> storage.value.View() == old(storage.value.View())
      ensures old(storage).Some? && r.Ok? ==> r.value.View() == Store(old(storage.value.View()).data, 0, false)
      ensures old(storage).None? && r.Ok? ==> fresh(r.value.Repr()) && r.value.View() == Store(Original(), 0, false)
      ensures old(storage).None? && r.Err? ==> storage == None
      ensures old(storage).None? && legacy.Some? ==> r.Ok?
      ensures old(storage).None? && legacy.None? && diskOk && readOk ==>
        (r.Ok? <==> |stream| <= (if maxMB <= 0 then 128 else maxMB) * 1048576)
    {
      if storage.Some? {
        var sought := Rewind(storage.value);
        return if sought.Ok? then Ok(storage.value) else Err(StorageClosed);
      }
      if legacy.Some? {
        var s := CreateBodyStorage(legacy.value, stats, diskOk);
        storage := Some(s);
        return Ok(s);
      }
      var limit := if maxMB <= 0 then 128 else maxMB;
      r := CreateBodyStorageFromReader(stream, contentLength, limit * 1048576, stats, diskOk, readOk);
      if r.Ok? {
        storage := Some(r.value);
      }
    }

    /** Decoding leaves the body rewound for the next consumer, for both kinds of storage and
        wherever the decoder stopped reading. `consumed` is how far a streaming decoder got. */
    method UnmarshalBodyReusable(isJson: bool, decodeOk: bool, consumed: nat, maxMB: int, diskOk: bool, readOk: bool)
      returns (r: Result<Storage>)
      requires Valid()
      modifies this`storage, stats, Cached()
      ensures Valid() && legacy == old(legacy)
      ensures r.Ok? ==> decodeOk && storage == Some(r.value)
      ensures old(storage).Some? ==> (r.Ok? <==> decodeOk && !old(storage.value.View()).closed)
      ensures old(storage).None? && legacy.Some? ==> (r.Ok? <==> decodeOk)
      ensures old(storage).None? && legacy.None? && diskOk && readOk ==>
        (r.Ok? <==> decodeOk && |stream| <= (if maxMB <= 0 then 128 else maxMB) * 1048576)
      ensures r.Ok? && old(storage).Some? ==> r.value.View() == Store(old(storage.value.View()).data, 0, false)
      ensures r.Ok? && old(storage).None? ==> r.value.View() == Store(Original(), 0, false)
    {
      r := GetRequestBody(maxMB, diskOk, readOk);
      if r.Err? {
        return;
      }
      if r.value.OnDisk? && isJson {
        var sought := Rewind(r.value);
        var read := r.value.disk.Seek(consumed, FromStart);
      } else if r.value.OnDisk? {
        var bytes := r.value.disk.Bytes();
      } else {
        var bytes := r.value.memory.Bytes();
      }
      if !decodeOk {
        return Err(DecodeFailed);
      }
      var rewound := Rewind(r.value);
    }
  }
}
