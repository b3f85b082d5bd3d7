/** Open-file buffers against an abstract file: a length, and for each position the last
    operation that decided its byte. */
module Buffers {
  import opened Prelude
  import opened Api
  import opened TableSpec
  import opened FsSpec
  import opened Runs

  datatype BufferOp = Put(offset: nat, data: Bytes) | CutTo(size: nat)

  function Apply(buf: Bytes, op: BufferOp): Bytes {
    match op
    case Put(offset, data) => Overlay(buf, offset, data)
    case CutTo(size) => Cut(buf, size)
  }

  function ApplyAll(buf: Bytes, ops: seq<BufferOp>): Bytes {
    if ops == [] then buf else Apply(ApplyAll(buf, ops[..|ops| - 1]), ops[|ops| - 1])
  }

  /** The abstract file's length. */
  function LengthAfter(init: Bytes, ops: seq<BufferOp>): nat {
    if ops == [] then |init|
    else
      var before := LengthAfter(init, ops[..|ops| - 1]);
      match ops[|ops| - 1]
      case Put(offset, data) => Max(before, offset + |data|)
      case CutTo(size) => Min(before, size)
  }

  /** The abstract file's byte at position i: what the last write over i put there, unless
      a later truncation cut it off; zero where nothing was written. */
  function ByteAt(init: Bytes, ops: seq<BufferOp>, i: nat): Byte {
    if ops == [] then (if i < |init| then init[i] else 0)
    else
      var earlier := ops[..|ops| - 1];
      match ops[|ops| - 1]
      case Put(offset, data) => if offset <= i < offset + |data| then data[i - offset] else ByteAt(init, earlier, i)
      case CutTo(size) => if size <= i then 0 else ByteAt(init, earlier, i)
  }

  lemma OverlayAt(buf: Bytes, offset: nat, data: Bytes, i: nat)
    requires i < Max(|buf|, offset + |data|)
    ensures Overlay(buf, offset, data)[i] ==
      if offset <= i < offset + |data| then data[i - offset]
      else if i < |buf| then buf[i] else 0
  {
  }

  /** After any mix of writes and truncations the buffer is the abstract file: gaps read
      as zero, and bytes that a truncation cut off never come back. */
  lemma {:induction false} BufferRefines(init: Bytes, ops: seq<BufferOp>)
    ensures |ApplyAll(init, ops)| == LengthAfter(init, ops)
    ensures forall i: nat :: i < |ApplyAll(init, ops)| ==> ApplyAll(init, ops)[i] == ByteAt(init, ops, i)
    ensures forall i: nat :: i >= |ApplyAll(init, ops)| ==> ByteAt(init, ops, i) == 0
  {
    if ops != [] {
      var earlier, op := ops[..|ops| - 1], ops[|ops| - 1];
      BufferRefines(init, earlier);
      var before, after := ApplyAll(init, earlier), ApplyAll(init, ops);
      if op.Put? {
        forall i: nat | i < |after| ensures after[i] == ByteAt(init, ops, i) {
          OverlayAt(before, op.offset, op.data, i);
        }
      }
    }
  }

  /** The size that GetAttr reports is the length of the file: as long as the content it
      remembered is fresh, and at the same instant it always is, opening the file gives a
      buffer of that size, and one read of that size returns all of it. */
  lemma SizeIsWhatOpens(s: FsState, cfg: FsConfig, env: Env, env': Env, id: nat)
    requires Inv(s) && id in s.table.inodes && !s.table.inodes[id].IsDir()
    ensures
      var (s1, attr) := GetAttr(s, cfg, env, id);
      && attr.Ok? && Fresh(s1, id, env.now)
      && (Fresh(s1, id, env'.now) ==>
            var (s2, h) := OpenFile(s1, cfg, env', id);
            && h.Ok? && h.value in s2.files && s2.files[h.value].buf == s1.content[id].data
            && ReadHandle(s2, h.value, 0, attr.value.size) == Ok(s1.content[id].data))
  {
    assert NodeLinked(s.table, id);
    var data := GetAttr(s, cfg, env, id).0.content[id].data;
    assert data[0..|data|] == data;
  }

  // ---- Which buffer operations a run performs on one handle ----

  function OpOn(cfg: FsConfig, s: FsState, e: Event, h: nat): seq<BufferOp> {
    if h !in s.files then []
    else
      match e.op
      case DoWrite(k, offset, data) =>
        if k == h && WriteHandle(s, cfg, k, offset, data).1.Ok? then [Put(offset, data)] else []
      case DoTruncate(id, size) =>
        if id == s.files[h].node.id && Truncate(s, cfg, id, size).1.None? then [CutTo(size)] else []
      case _ => []
  }

  function OpsOn(cfg: FsConfig, s: FsState, run: seq<Event>, h: nat): seq<BufferOp>
    decreases |run|
  {
    if run == [] then []
    else OpOn(cfg, s, run[0], h) + OpsOn(cfg, Step(cfg, s, run[0].env, run[0].op), run[1..], h)
  }

  ghost predicate NeverReleased(run: seq<Event>, h: nat) {
    forall i :: 0 <= i < |run| ==> run[i].op != DoRelease(h)
  }

  lemma {:induction false} ApplyAllSplit(buf: Bytes, a: seq<BufferOp>, b: seq<BufferOp>)
    ensures ApplyAll(buf, a + b) == ApplyAll(ApplyAll(buf, a), b)
  {
    if b == [] {
      assert a + b == a;
    } else {
      ApplyAllSplit(buf, a, b[..|b| - 1]);
      assert (a + b)[..|a + b| - 1] == a + b[..|b| - 1];
    }
  }

  /** One step: the handle's buffer takes exactly the operations aimed at it. */
  lemma BufferStep(cfg: FsConfig, s: FsState, e: Event, h: nat)
    requires h < s.nextHandle && h in s.files && e.op != DoRelease(h)
    ensures
      var s' := Step(cfg, s, e.env, e.op);
      && h in s'.files && s'.files[h].node == s.files[h].node
      && s'.files[h].buf == ApplyAll(s.files[h].buf, OpOn(cfg, s, e, h))
  {
    var buf, ops := s.files[h].buf, OpOn(cfg, s, e, h);
    if |ops| == 1 {
      assert ops[..0] == [];
      assert ApplyAll(buf, ops) == Apply(ApplyAll(buf, []), ops[0]);
    } else {
      OtherOpsKeepBuffer(cfg, s, e, h);
    }
  }

  lemma OtherOpsKeepBuffer(cfg: FsConfig, s: FsState, e: Event, h: nat)
    requires h < s.nextHandle && h in s.files && e.op != DoRelease(h) && OpOn(cfg, s, e, h) == []
    ensures
      var s' := Step(cfg, s, e.env, e.op);
      h in s'.files && s'.files[h].node == s.files[h].node && s'.files[h].buf == s.files[h].buf
  {
    if !TouchesFiles(e.op) {
      FilesUntouched(cfg, s, e.env, e.op);
    } else if e.op.DoOpen? {
      OpenedFiles(cfg, s, e.env, e.op.id);
    } else if e.op.DoFlush? {
      FlushedFiles(cfg, s, e.env, e.op.h);
    }
  }

  /** Over every run, what a handle reads is decided by the writes to it and the
      truncations of its node, in order, and by nothing that happens to other handles,
      to the caches or on the server. */
  lemma {:induction false} BufferOverRuns(cfg: FsConfig, s: FsState, run: seq<Event>, h: nat)
    requires Inv(s) && h in s.files && NeverReleased(run, h)
    ensures
      var s' := Run(cfg, s, run);
      && h in s'.files && s'.files[h].node == s.files[h].node
      && s'.files[h].buf == ApplyAll(s.files[h].buf, OpsOn(cfg, s, run, h))
    decreases |run|
  {
    if run != [] {
      var e := run[0];
      var s1 := Step(cfg, s, e.env, e.op);
      BufferStep(cfg, s, e, h);
      StepKeepsInv(cfg, s, e.env, e.op);
      BufferOverRuns(cfg, s1, run[1..], h);
      ApplyAllSplit(s.files[h].buf, OpOn(cfg, s, e, h), OpsOn(cfg, s1, run[1..], h));
    }
  }

  /** Byte by byte: after any run, position i of a handle's buffer holds what the last
      write over it put there, or zero where a later truncation or nothing reached it. */
  lemma BytesOverRuns(cfg: FsConfig, s: FsState, run: seq<Event>, h: nat, i: nat)
    requires Inv(s) && h in s.files && NeverReleased(run, h)
    ensures
      var ops := OpsOn(cfg, s, run, h);
      var s' := Run(cfg, s, run);
      && h in s'.files
      && |s'.files[h].buf| == LengthAfter(s.files[h].buf, ops)
      && (i < |s'.files[h].buf| ==> s'.files[h].buf[i] == ByteAt(s.files[h].buf, ops, i))
  {
    BufferOverRuns(cfg, s, run, h);
    BufferRefines(s.files[h].buf, OpsOn(cfg, s, run, h));
  }
}
