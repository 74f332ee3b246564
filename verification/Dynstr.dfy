/** dynstr: a growing, NUL-terminated character buffer. */
module Dynstr {

  const STRING_CHUNK_SIZE: nat := 64

  /** A C string: no NUL inside. */
  predicate NulFree(s: string) {
    forall i :: 0 <= i < |s| ==> s[i] != '\0'
  }

  /** The first chunk size, doubling from the smallest one, that is at least n. */
  function Chunk(n: nat, chunksz: nat): (c: nat)
    requires chunksz > 0
    ensures c >= n && c >= chunksz
    decreases n - chunksz
  {
    if chunksz >= n then chunksz else Chunk(n, 2 * chunksz)
  }

  /** A chunk size is the smallest one doubled some number of times. */
  predicate IsDoubled(n: nat, chunksz: nat)
    requires chunksz > 0
    decreases n - chunksz
  {
    n == chunksz || (chunksz < n && IsDoubled(n, 2 * chunksz))
  }

  lemma {:induction false} ChunkIsExact(n: nat, chunksz: nat)
    requires chunksz > 0
    ensures Chunk(n, chunksz) == n <==> IsDoubled(n, chunksz)
    decreases n - chunksz
  {
    if chunksz < n {
      ChunkIsExact(n, 2 * chunksz);
    }
  }

  class DynStr {
    var data: array?<char>
    var strlen: nat
    var datalen: nat

    /** Either nothing was allocated yet, or the text and its terminator lie inside the buffer. */
    ghost predicate Valid()
      reads this, data
    {
      && (data == null ==> strlen == 0 && datalen == 0)
      && (data != null ==> data.Length == datalen && strlen < datalen && data[strlen] == '\0')
    }

    function Text(): string
      reads this, data
      requires Valid()
    {
      if data == null then "" else data[..strlen]
    }

    constructor ()
      ensures Valid() && data == null
    {
      data, strlen, datalen := null, 0, 0;
    }

    /** Whether dynstr_append of n characters stays inside the buffer it leaves. */
    predicate Fits(n: nat)
      reads this
    {
      n + strlen < if n + strlen >= datalen then datalen + Chunk(n, STRING_CHUNK_SIZE) else datalen
    }

    /** An append to a buffer that is in use always fits; the first one fits unless the text is
     *  exactly as long as its chunk. */
    lemma FitsIffPrimed(n: nat)
      requires Valid()
      ensures Fits(n) <==> data != null || !IsDoubled(n, STRING_CHUNK_SIZE)
    {
      ChunkIsExact(n, STRING_CHUNK_SIZE);
    }

    /** realloc: the old contents move to a larger block. */
    method Grow(more: nat)
      requires Valid() && more > 0
      modifies this
      ensures fresh(data) && data != null && data.Length == datalen == old(datalen) + more
      ensures strlen == old(strlen)
      ensures old(data) != null ==> data[..strlen] == old(data[..strlen])
    {
      var block := new char[datalen + more](i => '\0');
      for i := 0 to strlen
        invariant data == old(data) && strlen == old(strlen) && datalen == old(datalen) && Valid()
        invariant forall k :: 0 <= k < i ==> block[k] == data[k]
      {
        block[i] := data[i];
      }
      assert data != null ==> block[..strlen] == data[..strlen];
      data := block;
      datalen := datalen + more;
    }

    /** dynstr_append */
    method Append(news: string)
      requires Valid() && NulFree(news)
      requires Fits(|news|)
      modifies this, data
      ensures Valid() && data != null && (data == old(data) || fresh(data))
      ensures Text() == old(Text()) + news
    {
      var chunksz := STRING_CHUNK_SIZE;
      while chunksz < |news|
        invariant chunksz > 0 && Chunk(|news|, chunksz) == Chunk(|news|, STRING_CHUNK_SIZE)
        decreases |news| - chunksz
      {
        chunksz := chunksz * 2;
      }
      ghost var before := Text();
      if |news| + strlen >= datalen {
        Grow(chunksz);
      }
      ghost var block := data;
      for i := 0 to |news|
        invariant data == block && strlen == old(strlen) && data.Length == datalen && strlen + |news| < datalen
        invariant data == old(data) || fresh(data)
        invariant data[..strlen] == before
        invariant forall k :: 0 <= k < i ==> data[strlen + k] == news[k]
      {
        data[strlen + i] := news[i];
      }
      data[strlen + |news|] := '\0';
      strlen := strlen + |news|;
      assert data[..strlen] == before + news;
    }

    /** dynstr_append on a buffer that is in use: it always fits. */
    method Extend(news: string)
      requires Valid() && data != null && NulFree(news)
      modifies this, data
      ensures Valid() && data != null && (data == old(data) || fresh(data))
      ensures Text() == old(Text()) + news
    {
      FitsIffPrimed(|news|);
      Append(news);
    }

    /** dynstr_append of a text shorter than a chunk: it fits even as the first one. */
    method AppendShort(news: string)
      requires Valid() && NulFree(news) && |news| < STRING_CHUNK_SIZE
      modifies this, data
      ensures Valid() && data != null && (data == old(data) || fresh(data))
      ensures Text() == old(Text()) + news
    {
      FitsIffPrimed(|news|);
      Append(news);
    }

    /** dynstr_appendc */
    method AppendC(newc: char)
      requires Valid()
      modifies this, data
      ensures Valid() && data != null && (data == old(data) || fresh(data))
      ensures Text() == old(Text()) + [newc]
    {
      ghost var before := Text();
      if strlen + 1 >= datalen {
        Grow(STRING_CHUNK_SIZE);
      }
      data[strlen] := newc;
      strlen := strlen + 1;
      data[strlen] := '\0';
      assert data[..strlen] == before + [newc];
    }

    /** dynstr_reset */
    method Reset()
      requires Valid()
      modifies this, data
      ensures Valid() && data == old(data)
      ensures Text() == ""
    {
      if data == null {
        return;
      }
      strlen := 0;
      data[0] := '\0';
    }
  }
}
