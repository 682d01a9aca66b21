/**
  The two request-body storages of common/body_storage.go. A client sees a cursor over bytes; the classes below are the
  in-memory and the on-disk implementation, and the steps are what each of them does to that view.
 */
module BodyStorage {
  import opened Base
  import opened ByteFile

  datatype View = View(data: seq<Byte>, pos: nat, closed: bool)

  datatype Op = Read(n: nat) | Seek(offset: int, whence: int) | Bytes | Close

  /** What the caller gets back; errors are told apart only as closed, end of data, and bad seek. */
  datatype Reply = Refused | Data(bytes: seq<Byte>) | Eof | Position(at: nat) | BadSeek | Failed | Done

  datatype Outcome = Outcome(view: View, reply: Reply)

  function MoveTo(v: View, target: Option<nat>): (r: Outcome) {
    if target == None then Outcome(v, BadSeek) else Outcome(v.(pos := target.value), Position(target.value))
  }

  function SeekStep(v: View, offset: int, whence: int): (r: Outcome) {
    MoveTo(v, SeekTarget(|v.data|, v.pos, offset, whence))
  }

  /** memoryStorage: a bytes.Reader, which reports EOF at the end even for an empty buffer. */
  function MemoryStep(v: View, op: Op): (r: Outcome) {
    match op
    case Close => Outcome(v.(closed := true), Done)
    case Read(n) =>
      if v.closed then Outcome(v, Refused)
      else if v.pos >= |v.data| then Outcome(v, Eof)
      else var chunk := Slice(v.data, v.pos, n); Outcome(v.(pos := v.pos + |chunk|), Data(chunk))
    case Seek(offset, whence) => if v.closed then Outcome(v, Refused) else SeekStep(v, offset, whence)
    case Bytes => if v.closed then Outcome(v, Refused) else Outcome(v, Data(v.data))
  }

  /** diskStorage: an os.File, which reads nothing into an empty buffer; Bytes seeks, reads everything and seeks back. */
  function DiskStep(v: View, op: Op, sparse: Sparse): (r: Outcome) {
    match op
    case Close => Outcome(v.(closed := true), Done)
    case Read(n) =>
      if v.closed then Outcome(v, Refused)
      else if n > 0 && v.pos >= |v.data| then Outcome(v, Eof)
      else var chunk := Slice(v.data, v.pos, n); Outcome(v.(pos := v.pos + |chunk|), Data(chunk))
    case Seek(offset, whence) =>
      if v.closed then Outcome(v, Refused) else MoveTo(v, FileTarget(sparse, |v.data|, v.pos, offset, whence))
    case Bytes =>
      if v.closed then Outcome(v, Refused)
      else
        var here := SeekStep(v, 0, 1);
        var start := SeekStep(here.view, 0, 0).view;
        var all := Slice(start.data, start.pos, |v.data|);
        var back := SeekStep(start.(pos := start.pos + |all|), here.view.pos, 0);
        if |all| < |v.data| || !back.reply.Position? then Outcome(back.view, Failed) else Outcome(back.view, Data(all))
  }

  function OnDisk(sparse: Sparse): (step: (View, Op) -> Outcome) {
    (v: View, op: Op) => DiskStep(v, op, sparse)
  }

  /** An empty buffer at or behind the end: only the memory storage reports EOF. */
  predicate EmptyReadAtEnd(v: View, op: Op) {
    op == Read(0) && !v.closed && v.pos >= |v.data|
  }

  /** A seek with a whence that only the file system knows, and that it carries out. */
  predicate SparseSeek(v: View, op: Op, sparse: Sparse) {
    op.Seek? && !v.closed && !KnownWhence(op.whence) && sparse(|v.data|, op.offset, op.whence).Some?
  }

  /** The two things that tell the storages apart. */
  predicate Tells(v: View, op: Op, sparse: Sparse) {
    EmptyReadAtEnd(v, op) || SparseSeek(v, op, sparse)
  }

  /** One operation: the replies differ exactly when it tells the storages apart, the views only after such a seek. */
  lemma SameStep(v: View, op: Op, sparse: Sparse)
    ensures !SparseSeek(v, op, sparse) ==> MemoryStep(v, op).view == DiskStep(v, op, sparse).view
    ensures MemoryStep(v, op).reply == DiskStep(v, op, sparse).reply <==> !Tells(v, op, sparse)
    ensures op == Bytes ==> DiskStep(v, op, sparse).view == v
  {
    if op == Bytes && !v.closed {
      assert Slice(v.data, 0, |v.data|) == v.data;
    }
  }

  /** A whole session: the replies in order and the final view. */
  datatype Session = Session(view: View, replies: seq<Reply>)

  function Run(v: View, ops: seq<Op>, step: (View, Op) -> Outcome): (s: Session) {
    if ops == [] then Session(v, [])
    else
      var before := Run(v, ops[..|ops| - 1], step);
      var last := step(before.view, ops[|ops| - 1]);
      Session(last.view, before.replies + [last.reply])
  }

  /** No operation of the session tells the storages apart. */
  predicate NothingTells(v: View, ops: seq<Op>, sparse: Sparse) {
    ops == [] ||
    var init, last := ops[..|ops| - 1], ops[|ops| - 1];
    NothingTells(v, init, sparse) && !Tells(Run(v, init, MemoryStep).view, last, sparse)
  }

  /** Every seek counts from the start, the cursor or the end. */
  predicate KnownSeeks(ops: seq<Op>) {
    forall op :: op in ops && op.Seek? ==> KnownWhence(op.whence)
  }

  lemma SnocEqual(a: seq<Reply>, x: Reply, b: seq<Reply>, y: Reply)
    requires |a| == |b|
    ensures a + [x] == b + [y] <==> a == b && x == y
  {
    if a + [x] == b + [y] {
      assert a == (a + [x])[..|a|] == (b + [y])[..|a|] == b;
      assert x == (a + [x])[|a|] == (b + [y])[|a|] == y;
    }
  }

  /**
    Every session of reads, seeks, Bytes and closes, on any data and any file system: the two storages give the same
    replies exactly when no read with an empty buffer happens at or behind the end and no seek succeeds that only the
    file system knows; they then end in the same view, and they always do when every seek is an ordinary one.
   */
  lemma {:induction false} StoragesAgree(v: View, ops: seq<Op>, sparse: Sparse)
    ensures var mem, disk := Run(v, ops, MemoryStep), Run(v, ops, OnDisk(sparse));
            && |mem.replies| == |disk.replies| == |ops|
            && (mem.replies == disk.replies <==> NothingTells(v, ops, sparse))
            && (NothingTells(v, ops, sparse) || KnownSeeks(ops) ==> mem.view == disk.view)
  {
    if ops != [] {
      var init, last := ops[..|ops| - 1], ops[|ops| - 1];
      var mem, disk := Run(v, init, MemoryStep), Run(v, init, OnDisk(sparse));
      StoragesAgree(v, init, sparse);
      assert KnownSeeks(ops) ==> KnownSeeks(init) by { assert forall op :: op in init ==> op in ops; }
      assert last in ops;
      SameStep(mem.view, last, sparse);
      SnocEqual(mem.replies, MemoryStep(mem.view, last).reply, disk.replies, DiskStep(disk.view, last, sparse).reply);
    }
  }

  // ---------------------------------------------------------------- what a session delivers

  lemma SliceMeans(data: seq<Byte>, pos: nat, n: nat)
    ensures var r := Slice(data, pos, n);
            && |r| == (if pos >= |data| then 0 else if pos + n <= |data| then n else |data| - pos)
            && forall i :: 0 <= i < |r| ==> r[i] == data[pos + i]
  {
  }

  /** A read, and then another one where it left off, deliver what one read of both sizes does. */
  lemma SliceTwice(data: seq<Byte>, pos: nat, a: nat, b: nat)
    ensures var r := Slice(data, pos, a); r + Slice(data, pos + |r|, b) == Slice(data, pos, a + b)
  {
  }

  function Reads(sizes: seq<nat>): (ops: seq<Op>) {
    if sizes == [] then [] else Reads(sizes[..|sizes| - 1]) + [Read(sizes[|sizes| - 1])]
  }

  function TotalSize(sizes: seq<nat>): (n: nat) {
    if sizes == [] then 0 else TotalSize(sizes[..|sizes| - 1]) + sizes[|sizes| - 1]
  }

  /** The bytes of all data replies, in order. */
  function Delivered(replies: seq<Reply>): (r: seq<Byte>) {
    if replies == [] then []
    else
      var last := replies[|replies| - 1];
      Delivered(replies[..|replies| - 1]) + if last.Data? then last.bytes else []
  }

  lemma RunSnoc(v: View, ops: seq<Op>, op: Op, step: (View, Op) -> Outcome)
    ensures var before := Run(v, ops, step);
            var last := step(before.view, op);
            Run(v, ops + [op], step) == Session(last.view, before.replies + [last.reply])
  {
    assert (ops + [op])[..|ops|] == ops;
  }

  lemma DeliveredSnoc(replies: seq<Reply>, last: Reply)
    ensures Delivered(replies + [last]) == Delivered(replies) + if last.Data? then last.bytes else []
  {
    assert (replies + [last])[..|replies|] == replies;
  }

  /** What one read of an open storage delivers, and where it leaves the cursor. */
  lemma ReadMeans(v: View, n: nat)
    requires !v.closed
    ensures var r, chunk := MemoryStep(v, Read(n)), Slice(v.data, v.pos, n);
            && r.view == v.(pos := v.pos + |chunk|)
            && r.reply == if v.pos >= |v.data| then Eof else Data(chunk)
  {
  }

  lemma ReadMore(v: View, before: Session, total: nat, n: nat)
    requires !v.closed && Delivered(before.replies) == Slice(v.data, v.pos, total)
    requires before.view == v.(pos := v.pos + |Delivered(before.replies)|)
    ensures var last := MemoryStep(before.view, Read(n));
            var got := Delivered(before.replies + [last.reply]);
            got == Slice(v.data, v.pos, total + n) && last.view == v.(pos := v.pos + |got|)
  {
    ReadMeans(before.view, n);
    DeliveredSnoc(before.replies, MemoryStep(before.view, Read(n)).reply);
    SliceTwice(v.data, v.pos, total, n);
  }

  /** In whatever pieces an open body is read, the pieces together are the bytes from the cursor on. */
  lemma {:induction false} ReadsDeliver(v: View, sizes: seq<nat>)
    requires !v.closed
    ensures var s := Run(v, Reads(sizes), MemoryStep);
            && Delivered(s.replies) == Slice(v.data, v.pos, TotalSize(sizes))
            && s.view == v.(pos := v.pos + |Delivered(s.replies)|)
  {
    if sizes != [] {
      var init, n := sizes[..|sizes| - 1], sizes[|sizes| - 1];
      ReadsDeliver(v, init);
      RunSnoc(v, Reads(init), Read(n), MemoryStep);
      ReadMore(v, Run(v, Reads(init), MemoryStep), TotalSize(init), n);
    }
  }

  lemma {:induction false} RunThen(v: View, a: seq<Op>, b: seq<Op>, step: (View, Op) -> Outcome)
    ensures var first := Run(v, a, step);
            var second := Run(first.view, b, step);
            Run(v, a + b, step) == Session(second.view, first.replies + second.replies)
  {
    if b == [] {
      assert a + b == a;
    } else {
      var init, op := b[..|b| - 1], b[|b| - 1];
      assert a + b == (a + init) + [op] && b == init + [op];
      RunThen(v, a, init, step);
      RunSnoc(v, a + init, op, step);
      RunSnoc(Run(v, a, step).view, init, op, step);
    }
  }

  /** Nothing a session does changes the data, and a closed storage stays closed. */
  lemma {:induction false} DataStays(v: View, ops: seq<Op>)
    ensures var s := Run(v, ops, MemoryStep);
            s.view.data == v.data && (s.view.closed <==> v.closed || Close in ops)
  {
    if ops != [] {
      DataStays(v, ops[..|ops| - 1]);
      assert ops == ops[..|ops| - 1] + [ops[|ops| - 1]];
    }
  }

  /** After a close every operation but another close is refused. */
  lemma ClosedRefuses(v: View, op: Op, sparse: Sparse)
    requires v.closed
    ensures MemoryStep(v, op) == DiskStep(v, op, sparse) == Outcome(v, if op == Close then Done else Refused)
  {
  }

  /** Where a seek goes: from the start, the cursor or the end; anything negative or unknown moves nothing. */
  lemma SeekMeans(v: View, offset: int, whence: int)
    requires !v.closed
    ensures var r := MemoryStep(v, Seek(offset, whence));
            && (whence == 0 && offset >= 0 ==> r == Outcome(v.(pos := offset), Position(offset)))
            && (whence == 1 && v.pos + offset >= 0 ==> r == Outcome(v.(pos := v.pos + offset), Position(v.pos + offset)))
            && (whence == 2 && |v.data| + offset >= 0 ==>
                  r == Outcome(v.(pos := |v.data| + offset), Position(|v.data| + offset)))
            && (r.reply == BadSeek <==> whence < 0 || whence > 2 || (whence == 0 && offset < 0)
                                        || (whence == 1 && v.pos + offset < 0) || (whence == 2 && |v.data| + offset < 0))
            && (r.reply == BadSeek ==> r.view == v)
  {
  }

  /**
    What the storages are for: after any session that did not close it, rewinding and reading in any pieces that are
    large enough together gives the whole body again, and so does asking for all bytes, from memory and from disk alike.
   */
  lemma BodyCanBeReadAgain(v: View, ops: seq<Op>, sizes: seq<nat>, sparse: Sparse)
    requires !v.closed && Close !in ops && TotalSize(sizes) >= |v.data|
    ensures var s := Run(v, ops, MemoryStep);
            && Delivered(Run(s.view, [Seek(0, 0)] + Reads(sizes), MemoryStep).replies) == v.data
            && MemoryStep(s.view, Bytes) == Outcome(s.view, Data(v.data))
            && DiskStep(s.view, Bytes, sparse) == Outcome(s.view, Data(v.data))
  {
    var s := Run(v, ops, MemoryStep);
    DataStays(v, ops);
    SameStep(s.view, Bytes, sparse);
    Rewound(s.view, sizes);
  }

  lemma RewindStep(v: View)
    requires !v.closed
    ensures Run(v, [Seek(0, 0)], MemoryStep) == Session(v.(pos := 0), [Position(0)])
  {
    RunSnoc(v, [], Seek(0, 0), MemoryStep);
    SeekMeans(v, 0, 0);
    assert [] + [Seek(0, 0)] == [Seek(0, 0)];
  }

  lemma Rewound(v: View, sizes: seq<nat>)
    requires !v.closed && TotalSize(sizes) >= |v.data|
    ensures Delivered(Run(v, [Seek(0, 0)] + Reads(sizes), MemoryStep).replies) == v.data
  {
    RewindStep(v);
    RunThen(v, [Seek(0, 0)], Reads(sizes), MemoryStep);
    ReadsDeliver(v.(pos := 0), sizes);
    DeliveredAfter([Position(0)], Run(v.(pos := 0), Reads(sizes), MemoryStep).replies);
    WholeSlice(v.data, TotalSize(sizes));
  }

  lemma WholeSlice(data: seq<Byte>, n: nat)
    requires n >= |data|
    ensures Slice(data, 0, n) == data
  {
  }

  lemma {:induction false} DeliveredAfter(a: seq<Reply>, b: seq<Reply>)
    ensures Delivered(a + b) == Delivered(a) + Delivered(b)
  {
    if b == [] {
      assert a + b == a;
    } else {
      var init, last := b[..|b| - 1], b[|b| - 1];
      assert a + b == (a + init) + [last] && b == init + [last];
      DeliveredAfter(a, init);
      DeliveredSnoc(a + init, last);
      DeliveredSnoc(init, last);
    }
  }

  // ---------------------------------------------------------------- usage counters

  /** The global counters of common/disk_cache_config.go. */
  datatype Usage = Usage(diskFiles: int, diskBytes: int, memBuffers: int, memBytes: int, diskHits: int, memHits: int)

  class Counters {
    var u: Usage

    constructor ()
      ensures u == Usage(0, 0, 0, 0, 0, 0)
    {
      u := Usage(0, 0, 0, 0, 0, 0);
    }

    method IncrementDiskFiles(size: int)
      modifies this
      ensures u == old(u).(diskFiles := old(u).diskFiles + 1, diskBytes := old(u).diskBytes + size)
    {
      u := u.(diskFiles := u.diskFiles + 1);
      u := u.(diskBytes := u.diskBytes + size);
    }

    method DecrementDiskFiles(size: int)
      modifies this
      ensures u == old(u).(diskFiles := if old(u).diskFiles < 1 then 0 else old(u).diskFiles - 1,
                              diskBytes := if old(u).diskBytes < size then 0 else old(u).diskBytes - size)
    {
      u := u.(diskFiles := u.diskFiles - 1);
      if u.diskFiles < 0 { u := u.(diskFiles := 0); }
      u := u.(diskBytes := u.diskBytes - size);
      if u.diskBytes < 0 { u := u.(diskBytes := 0); }
    }

    method IncrementMemoryBuffers(size: int)
      modifies this
      ensures u == old(u).(memBuffers := old(u).memBuffers + 1, memBytes := old(u).memBytes + size)
    {
      u := u.(memBuffers := u.memBuffers + 1);
      u := u.(memBytes := u.memBytes + size);
    }

    method DecrementMemoryBuffers(size: int)
      modifies this
      ensures u == old(u).(memBuffers := old(u).memBuffers - 1, memBytes := old(u).memBytes - size)
    {
      u := u.(memBuffers := u.memBuffers - 1);
      u := u.(memBytes := u.memBytes - size);
    }

    method IncrementHits(disk: bool)
      modifies this
      ensures u == if disk then old(u).(diskHits := old(u).diskHits + 1) else old(u).(memHits := old(u).memHits + 1)
    {
      if disk { u := u.(diskHits := u.diskHits + 1); } else { u := u.(memHits := u.memHits + 1); }
    }
  }

  // ---------------------------------------------------------------- the implementations

  class MemoryStorage {
    const data: seq<Byte>
    const counters: Counters
    var pos: nat
    var closed: bool

    constructor (data: seq<Byte>, counters: Counters)
      modifies counters
      ensures ViewOf() == View(data, 0, false) && this.counters == counters
      ensures counters.u == old(counters.u).(memBuffers := old(counters.u).memBuffers + 1,
                                             memBytes := old(counters.u).memBytes + |data|)
    {
      this.data, this.counters, pos, closed := data, counters, 0, false;
      new;
      counters.IncrementMemoryBuffers(|data|);
    }

    function ViewOf(): (v: View)
      reads this
    {
      View(data, pos, closed)
    }

    method Read(n: nat) returns (r: Reply)
      modifies this
      ensures Outcome(ViewOf(), r) == MemoryStep(old(ViewOf()), Op.Read(n))
    {
      if closed { return Refused; }
      if pos >= |data| { return Eof; }
      var chunk := Slice(data, pos, n);
      pos := pos + |chunk|;
      return Data(chunk);
    }

    method Seek(offset: int, whence: int) returns (r: Reply)
      modifies this
      ensures Outcome(ViewOf(), r) == MemoryStep(old(ViewOf()), Op.Seek(offset, whence))
    {
      if closed { return Refused; }
      var target := SeekTarget(|data|, pos, offset, whence);
      if target == None { return BadSeek; }
      pos := target.value;
      return Position(pos);
    }

    method Bytes() returns (r: Reply)
      ensures Outcome(ViewOf(), r) == MemoryStep(ViewOf(), Op.Bytes)
    {
      if closed { return Refused; }
      return Data(data);
    }

    /** Only the first close releases the counters. */
    method Close() returns (r: Reply)
      modifies this, counters
      ensures Outcome(ViewOf(), r) == MemoryStep(old(ViewOf()), Op.Close)
      ensures counters.u == if old(closed) then old(counters.u)
                            else old(counters.u).(memBuffers := old(counters.u).memBuffers - 1,
                                                  memBytes := old(counters.u).memBytes - |data|)
    {
      if !closed {
        closed := true;
        counters.DecrementMemoryBuffers(|data|);
      }
      return Done;
    }
  }

  class DiskStorage {
    const file: File
    const size: nat
    const counters: Counters
    var closed: bool

    ghost predicate Valid() {
      size == |file.data|
    }

    constructor (data: seq<Byte>, counters: Counters, sparse: Sparse)
      modifies counters
      ensures Valid() && fresh(file) && ViewOf() == View(data, 0, false) && this.counters == counters && file.sparse == sparse
      ensures counters.u == old(counters.u).(diskFiles := old(counters.u).diskFiles + 1,
                                             diskBytes := old(counters.u).diskBytes + |data|)
    {
      file := new File(data, sparse);
      size, this.counters, closed := |data|, counters, false;
      new;
      counters.IncrementDiskFiles(|data|);
    }

    function ViewOf(): (v: View)
      reads this, file
    {
      View(file.data, file.pos, closed)
    }

    method Read(n: nat) returns (r: Reply)
      modifies file
      ensures Outcome(ViewOf(), r) == DiskStep(old(ViewOf()), Op.Read(n), file.sparse)
    {
      if closed { return Refused; }
      var chunk, eof := file.Read(n);
      if eof { return Eof; }
      return Data(chunk);
    }

    method Seek(offset: int, whence: int) returns (r: Reply)
      modifies file
      ensures Outcome(ViewOf(), r) == DiskStep(old(ViewOf()), Op.Seek(offset, whence), file.sparse)
    {
      if closed { return Refused; }
      var target := file.Seek(offset, whence);
      if target == None { return BadSeek; }
      return Position(target.value);
    }

    /** Three seeks and one full read; the cursor ends where it was. */
    method Bytes() returns (r: Reply)
      requires Valid()
      modifies file
      ensures Outcome(ViewOf(), r) == DiskStep(old(ViewOf()), Op.Bytes, file.sparse)
      ensures ViewOf() == old(ViewOf())
    {
      if closed { return Refused; }
      var current := file.Seek(0, 1);
      var start := file.Seek(0, 0);
      var data := file.ReadFull(size);
      assert Slice(file.data, 0, size) == file.data;
      if data == None { return Failed; }
      var back := file.Seek(current.value, 0);
      return Data(data.value);
    }

    method Close() returns (r: Reply)
      modifies this, counters
      ensures Outcome(ViewOf(), r) == DiskStep(old(ViewOf()), Op.Close, file.sparse)
      ensures counters.u == if old(closed) then old(counters.u)
                            else
                              var u := old(counters.u);
                              u.(diskFiles := if u.diskFiles < 1 then 0 else u.diskFiles - 1,
                                 diskBytes := if u.diskBytes < size then 0 else u.diskBytes - size)
    {
      if !closed {
        closed := true;
        counters.DecrementDiskFiles(size);
      }
      return Done;
    }
  }

  // ---------------------------------------------------------------- choosing a storage

  datatype CacheConfig = CacheConfig(enabled: bool, threshold: int, maxBytes: int)

  /** IsDiskCacheEnabled, the size threshold and IsDiskCacheAvailable together. */
  predicate WantsDisk(cfg: CacheConfig, size: int, u: Usage) {
    cfg.enabled && size >= cfg.threshold && u.diskBytes + size <= cfg.maxBytes
  }

  datatype Storage = Memory(m: MemoryStorage) | Disk(d: DiskStorage)

  function Contents(s: Storage): (v: View)
    reads match s case Memory(m) => {m as object} case Disk(d) => {d as object, d.file as object}
  {
    match s case Memory(m) => m.ViewOf() case Disk(d) => d.ViewOf()
  }

  /** CreateBodyStorage; `diskWorks` is whether the cache file can be created and written. */
  method CreateBodyStorage(data: seq<Byte>, cfg: CacheConfig, counters: Counters, diskWorks: bool,
                           sparse: Sparse) returns (s: Storage)
    modifies counters
    ensures Contents(s) == View(data, 0, false)
    ensures s.Disk? <==>
              diskWorks && cfg.enabled && |data| >= cfg.threshold && old(counters.u).diskBytes + |data| <= cfg.maxBytes
    ensures s.Disk? ==> s.d.Valid()
    ensures var u := old(counters.u);
            counters.u == if s.Disk? then u.(diskFiles := u.diskFiles + 1, diskBytes := u.diskBytes + |data|)
                          else u.(memBuffers := u.memBuffers + 1, memBytes := u.memBytes + |data|)
  {
    if WantsDisk(cfg, |data|, counters.u) && diskWorks {
      var d := new DiskStorage(data, counters, sparse);
      return Disk(d);
    }
    var m := new MemoryStorage(data, counters);
    return Memory(m);
  }

  datatype Created = Opened(storage: Storage) | TooLarge | DiskFailed

  /** What io.LimitReader(reader, maxBytes+1) lets through. */
  function Limited(source: seq<Byte>, maxBytes: int): (r: seq<Byte>) {
    if maxBytes + 1 <= 0 then [] else source[..Min(maxBytes + 1, |source|)]
  }

  /**
    CreateBodyStorageFromReader: the whole body or TooLarge, by the same rule on both paths; a failing disk loses the
    body only when the announced length sends it to the disk.
   */
  method CreateBodyStorageFromReader(source: seq<Byte>, contentLength: int, maxBytes: int, cfg: CacheConfig,
                                     counters: Counters, diskWorks: bool, sparse: Sparse) returns (r: Created)
    modifies counters
    ensures var direct := contentLength > 0 && cfg.enabled && contentLength >= cfg.threshold &&
                          old(counters.u).diskBytes + contentLength <= cfg.maxBytes;
            && (r.DiskFailed? <==> direct && !diskWorks)
            && (r.TooLarge? <==> !(direct && !diskWorks) && |source| > maxBytes)
            && (r.Opened? ==> Contents(r.storage) == View(source, 0, false))
            && (r.Opened? && r.storage.Disk? ==>
                  counters.u == old(counters.u).(diskFiles := old(counters.u).diskFiles + 1,
                                                 diskBytes := old(counters.u).diskBytes + |source|,
                                                 diskHits := old(counters.u).diskHits + 1))
            && (r.Opened? && r.storage.Memory? ==>
                  counters.u == old(counters.u).(memBuffers := old(counters.u).memBuffers + 1,
                                                 memBytes := old(counters.u).memBytes + |source|,
                                                 memHits := old(counters.u).memHits + 1))
    ensures !r.Opened? ==> counters.u == old(counters.u)
  {
    if contentLength > 0 && WantsDisk(cfg, contentLength, counters.u) {
      if !diskWorks { return DiskFailed; }
      var written := Limited(source, maxBytes);
      if |written| > maxBytes { return TooLarge; }
      assert written == source;
      var d := new DiskStorage(written, counters, sparse);
      counters.IncrementHits(true);
      return Created.Opened(Disk(d));
    }
    var data := Limited(source, maxBytes);
    if |data| > maxBytes { return TooLarge; }
    assert data == source;
    var s := CreateBodyStorage(data, cfg, counters, diskWorks, sparse);
    counters.IncrementHits(s.Disk?);
    return Created.Opened(s);
  }
}
