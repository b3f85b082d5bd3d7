/** File cursors: successive reads and writes through one billy file, each starting where
    the one before it stopped. */
module Cursors {
  import opened Prelude
  import opened Api
  import opened FsSpec

  function Sum(ns: seq<nat>): nat {
    if ns == [] then 0 else ns[0] + Sum(ns[1..])
  }

  function Concat(chunks: seq<Bytes>): Bytes {
    if chunks == [] then [] else chunks[0] + Concat(chunks[1..])
  }

  /** All that reads of the given sizes return, the cursor moving on by what each returns. */
  function ReadOn(s: FsState, h: nat, offset: nat, ns: seq<nat>): Bytes
    decreases |ns|
  {
    if ns == [] then []
    else
      match ReadHandle(s, h, offset, ns[0])
      case Err(_) => ReadOn(s, h, offset, ns[1..])
      case Ok(b) => b + ReadOn(s, h, offset + |b|, ns[1..])
  }

  /** The state and the cursor after the chunks are written one after the other. */
  function WriteOn(s: FsState, cfg: FsConfig, h: nat, offset: nat, chunks: seq<Bytes>): (FsState, nat)
    decreases |chunks|
  {
    if chunks == [] then (s, offset)
    else
      var (s', r) := WriteHandle(s, cfg, h, offset, chunks[0]);
      WriteOn(s', cfg, h, offset + (match r case Ok(n) => n case Err(_) => 0), chunks[1..])
  }

  /** Whatever their sizes, successive reads return one stretch of the buffer, without a
      gap or a byte twice. */
  lemma {:induction false} ReadsAreOneStretch(s: FsState, h: nat, offset: nat, ns: seq<nat>)
    requires h in s.files
    ensures
      var buf := s.files[h].buf;
      ReadOn(s, h, offset, ns) == buf[Min(offset, |buf|)..Min(offset + Sum(ns), |buf|)]
    decreases |ns|
  {
    var buf := s.files[h].buf;
    if ns != [] {
      var b := ReadHandle(s, h, offset, ns[0]).value;
      ReadsAreOneStretch(s, h, offset + |b|, ns[1..]);
      if offset < |buf| {
        Join(buf, offset, offset + |b|, Min(offset + Sum(ns), |buf|));
      }
    }
  }

  lemma Join(buf: Bytes, i: nat, j: nat, k: nat)
    requires i <= j <= k <= |buf|
    ensures buf[i..j] + buf[j..k] == buf[i..k]
  {
  }

  /** Two writes back to back are one. */
  lemma OverlayJoin(buf: Bytes, offset: nat, a: Bytes, b: Bytes)
    ensures Overlay(Overlay(buf, offset, a), offset + |a|, b) == Overlay(buf, offset, a + b)
  {
  }

  lemma WritesJoin(s: FsState, cfg: FsConfig, h: nat, offset: nat, a: Bytes, b: Bytes)
    requires WriteHandle(s, cfg, h, offset, []).1.Ok?
    ensures
      var s1 := WriteHandle(s, cfg, h, offset, a).0;
      && WriteHandle(s, cfg, h, offset, a).1 == Ok(|a|) && WriteHandle(s1, cfg, h, offset + |a|, []).1.Ok?
      && WriteHandle(s1, cfg, h, offset + |a|, b).0 == WriteHandle(s, cfg, h, offset, a + b).0
  {
    var f := s.files[h];
    OverlayJoin(f.buf, offset, a, b);
    var all := f.(buf := Overlay(f.buf, offset, a + b), dirty := true);
    assert WriteHandle(s, cfg, h, offset, a).0.files[h := all] == s.files[h := all];
  }

  /** Successive writes act as one write of everything, and leave the cursor behind it. */
  lemma {:induction false} WritesAreOneWrite(s: FsState, cfg: FsConfig, h: nat, offset: nat, chunks: seq<Bytes>)
    requires chunks != [] && WriteHandle(s, cfg, h, offset, []).1.Ok?
    ensures
      var (s', end) := WriteOn(s, cfg, h, offset, chunks);
      s' == WriteHandle(s, cfg, h, offset, Concat(chunks)).0 && end == offset + |Concat(chunks)|
    decreases |chunks|
  {
    var c, rest := chunks[0], chunks[1..];
    WritesJoin(s, cfg, h, offset, c, Concat(rest));
    if rest == [] {
      assert Concat(chunks) == c;
    } else {
      WritesAreOneWrite(WriteHandle(s, cfg, h, offset, c).0, cfg, h, offset + |c|, rest);
    }
  }

  /** What is written to an empty file through a cursor is what a reader gets, however
      either side cuts it up. */
  lemma WrittenComesBack(s: FsState, cfg: FsConfig, h: nat, chunks: seq<Bytes>, ns: seq<nat>)
    requires h in s.files && s.files[h].buf == [] && WriteHandle(s, cfg, h, 0, []).1.Ok?
    requires Sum(ns) >= |Concat(chunks)|
    ensures ReadOn(WriteOn(s, cfg, h, 0, chunks).0, h, 0, ns) == Concat(chunks)
  {
    if chunks == [] {
      ReadsAreOneStretch(s, h, 0, ns);
    } else {
      WritesAreOneWrite(s, cfg, h, 0, chunks);
      ReadsAreOneStretch(WriteOn(s, cfg, h, 0, chunks).0, h, 0, ns);
    }
  }
}
