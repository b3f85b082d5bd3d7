/** The buffers of open files as Go holds them: arrays on the heap, written in place, that
    must never be shared with another file or with a cache. */
module Slices {
  import opened Prelude
  import opened FsSpec

  /** A byte slice: the first len bytes of an array that may be longer. */
  class Buffer {
    var data: array<Byte>
    var len: nat

    ghost predicate Valid()
      reads this
    {
      len <= data.Length
    }

    ghost function Contents(): Bytes
      requires Valid()
      reads this, data
    {
      data[..len]
    }

    /** The nil slice of a file that is being created. */
    constructor ()
      ensures Valid() && fresh(data) && Contents() == []
    {
      data := new Byte[0];
      len := 0;
    }

    /** Appends src to nil: the copy has an array of its own, with spare bytes at its end. */
    constructor Copy(src: array<Byte>, spare: array<Byte>)
      ensures Valid() && fresh(data) && Contents() == src[..]
    {
      data := new Byte[src.Length + spare.Length](i requires 0 <= i < src.Length + spare.Length reads src, spare =>
        if i < src.Length then src[i] else spare[i - src.Length]);
      len := src.Length;
    }

    /** Writes in place where the slice is long enough. Otherwise it moves to a new array,
        even if the old one has room: what lies beyond len never shows. */
    method Write(offset: nat, bytes: Bytes)
      requires Valid()
      modifies this, data
      ensures Valid() && (data == old(data) || fresh(data))
      ensures Contents() == Overlay(old(Contents()), offset, bytes)
    {
      var end := offset + |bytes|;
      if end > len {
        var grown := new Byte[end](_ => 0);
        forall i | 0 <= i < len { grown[i] := data[i]; }
        data, len := grown, end;
      }
      forall i | 0 <= i < |bytes| { data[offset + i] := bytes[i]; }
    }

    /** Reslices; the bytes cut off stay in the array. */
    method Truncate(size: nat)
      requires Valid()
      modifies this`len
      ensures Valid() && data == old(data) && Contents() == Cut(old(Contents()), size)
    {
      if size < len {
        len := size;
      }
    }

    /** Copies what fits of the stretch from offset into the caller's array. */
    method Read(offset: nat, dst: array<Byte>) returns (n: nat)
      requires Valid() && dst != data
      modifies dst
      ensures n == Max(0, Min(dst.Length, len - offset))
      ensures Contents() == old(Contents())
      ensures dst[..n] == (if n == 0 then [] else Contents()[offset..offset + n]) && dst[n..] == old(dst[n..])
    {
      if offset >= len { return 0; }
      n := Min(offset + dst.Length, len) - offset;
      forall i | 0 <= i < n { dst[i] := data[offset + i]; }
      forall k | 0 <= k < n ensures dst[..n][k] == Contents()[offset..offset + n][k] {
        assert dst[k] == data[offset + k];
      }
    }
  }

  /** The open files' buffers beside the arrays that the content cache and the client's
      cache hold, which those two share between them. */
  class Buffers {
    var files: map<nat, Buffer>
    var cached: set<array<Byte>>

    /** No array belongs to two files, or to a file and a cache. */
    ghost predicate Valid()
      reads this, files.Values
    {
      && (forall h :: h in files ==> files[h].Valid() && files[h].data !in cached)
      && (forall h, k :: h in files && k in files && h != k ==> files[h] != files[k] && files[h].data != files[k].data)
    }

    constructor ()
      ensures Valid() && files == map[] && cached == {}
    {
      files := map[];
      cached := {};
    }

    /** A cache takes in an array that a fetch allocated, or that the other cache holds. */
    method Cache(a: array<Byte>)
      requires Valid() && forall h :: h in files ==> files[h].data != a
      modifies this`cached
      ensures Valid() && cached == old(cached) + {a}
    {
      cached := cached + {a};
    }

    method Open(h: nat, a: array<Byte>, spare: array<Byte>)
      requires Valid() && h !in files && a in cached
      modifies this`files
      ensures Valid() && files.Keys == old(files.Keys) + {h} && fresh(files[h]) && fresh(files[h].data)
      ensures files[h].Contents() == a[..]
      ensures forall k :: k in old(files) ==> files[k] == old(files[k])
    {
      var b := new Buffer.Copy(a, spare);
      files := files[h := b];
    }

    method Create(h: nat)
      requires Valid() && h !in files
      modifies this`files
      ensures Valid() && files.Keys == old(files.Keys) + {h} && fresh(files[h]) && fresh(files[h].data)
      ensures files[h].Contents() == []
      ensures forall k :: k in old(files) ==> files[k] == old(files[k])
    {
      var b := new Buffer();
      files := files[h := b];
    }

    /** A write lands in one buffer: no other file's bytes change, and no cache's. */
    method Write(h: nat, offset: nat, bytes: Bytes)
      requires Valid() && h in files
      modifies files[h], files[h].data
      ensures Valid() && files[h].Contents() == Overlay(old(files[h].Contents()), offset, bytes)
      ensures forall k :: k in files && k != h ==> files[k].Contents() == old(files[k].Contents())
      ensures forall a :: a in cached ==> a[..] == old(a[..])
    {
      files[h].Write(offset, bytes);
    }

    method Truncate(h: nat, size: nat)
      requires Valid() && h in files
      modifies files[h]
      ensures Valid() && files[h].data == old(files[h].data)
      ensures files[h].Contents() == Cut(old(files[h].Contents()), size)
      ensures forall k :: k in files && k != h ==> files[k].Contents() == old(files[k].Contents())
    {
      files[h].Truncate(size);
    }

    method Release(h: nat)
      requires Valid()
      modifies this`files
      ensures Valid() && files == old(files) - {h}
    {
      files := files - {h};
    }
  }
}
