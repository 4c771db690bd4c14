/** common::Bytes, a growing array of octets. Octets are represented as characters. */
module ByteBuffers {

  const ALLOC_BLOCK: nat := 32

  /** memcpy of n octets to dst + at, from another array or from octets before that place. */
  method CopyTo(dst: array<char>, at: nat, src: array<char>, n: nat)
    requires at + n <= dst.Length && n <= src.Length && (dst == src ==> n <= at)
    modifies dst
    ensures dst[..at] == old(dst[..at]) && dst[at..at + n] == old(src[..n]) && dst[at + n..] == old(dst[at + n..])
  {
    var i := 0;
    while i < n
      invariant 0 <= i <= n
      invariant src[..n] == old(src[..n])
      invariant forall k :: 0 <= k < i ==> dst[at + k] == old(src[k])
      invariant dst[..at] == old(dst[..at]) && dst[at + n..] == old(dst[at + n..])
    {
      assert src[..n][i] == old(src[..n])[i];
      dst[at + i] := src[i];
      i := i + 1;
    }
  }

  class Bytes {
    var data: array?<char>      // array_
    var size: nat               // size_
    var capacity: nat          // allocated_size

    ghost predicate Valid()
      reads this
    {
      if data == null then size == 0 && capacity == 0
      else size <= capacity == data.Length && capacity % ALLOC_BLOCK == 0
    }

    ghost function Contents(): seq<char>
      requires Valid()
      reads this, data
    {
      if data == null then [] else data[..size]
    }

    constructor ()
      ensures Valid() && Contents() == [] && data == null
    {
      data, size, capacity := null, 0, 0;
    }

    /** Growing may move the octets to a larger array; the first old octets stay what they were. */
    method Reserve(sz: nat)
      requires Valid()
      modifies this
      ensures Valid() && size == sz
      ensures data == old(data) || (data != null && fresh(data))
      ensures sz > 0 ==> data != null
      ensures var keep := if sz < old(size) then sz else old(size); Contents()[..keep] == old(Contents())[..keep]
    {
      var chunked := (sz / ALLOC_BLOCK + 1) * ALLOC_BLOCK;
      if sz == size {
        return;
      }
      if data != null {
        if sz > capacity {
          var bigger := new char[chunked];
          CopyTo(bigger, 0, data, size);
          assert bigger[..size] == bigger[0..0 + size];
          data, size, capacity := bigger, sz, chunked;
        } else {
          size := sz;
        }
      } else {
        data := new char[chunked];
        size, capacity := sz, chunked;
      }
    }

    method Free()
      requires Valid()
      modifies this
      ensures Valid() && Contents() == [] && data == null
    {
      data, size, capacity := null, 0, 0;
    }

    /** append( Octet ). */
    method AppendOctet(c: char)
      requires Valid()
      modifies this, data
      ensures Valid() && (data == old(data) || (data != null && fresh(data)))
      ensures Contents() == old(Contents()) + [c]
    {
      ghost var before := Contents();
      Reserve(size + 1);
      assert Contents()[..|before|] == before;
      data[size - 1] := c;
      assert data[..size - 1] == before;
    }

    /** The octets from position at on are overwritten with n others. */
    method Overwrite(at: nat, src: array<char>, n: nat)
      requires Valid() && data != null && at + n == size && n <= src.Length && (src == data ==> n <= at)
      modifies data
      ensures Contents() == old(Contents()[..at]) + old(src[..n])
    {
      CopyTo(data, at, src, n);
      assert data[..size] == data[..at] + data[at..at + n];
    }

    /** append( const Bytes&, size_t ), which throws when n is more than src holds. A buffer may be appended to
        itself. */
    method AppendFrom(src: Bytes, n: nat) returns (ok: bool)
      requires Valid() && src.Valid()
      requires src != this && src.data != null ==> src.data != data
      modifies this, data
      ensures Valid() && (data == old(data) || (data != null && fresh(data)))
      ensures ok == (n <= old(src.size))
      ensures Contents() == if ok then old(Contents()) + old(src.Contents())[..n] else old(Contents())
    {
      if n > src.size {
        return false;
      }
      ok := true;
      ghost var before, added := Contents(), src.Contents();
      var osize := size;
      Reserve(size + n);
      assert Contents()[..osize] == before;
      assert src.Contents()[..n] == added[..n];
      if n > 0 {
        assert src.data[..n] == src.Contents()[..n];
        Overwrite(osize, src.data, n);
      } else {
        assert Contents() == before && added[..n] == [];
      }
    }
  }
}
