/** `FileCacheBytes`: bytes waiting to be written to a cache file, kept as a queue of chunks,
    with whole pages split off from the front.  It must agree with one flat byte sequence. */
module FileCache {
  import opened Basics

  class FileCacheBytes {
    var datas: seq<Bytes>
    var size: nat
    var pageSize: nat

    constructor (pageSize: nat)
      ensures Valid() && Contents() == [] && this.pageSize == pageSize
    {
      datas, size, this.pageSize := [], 0, pageSize;
    }

    constructor Of(datas: seq<Bytes>, size: nat, pageSize: nat)
      ensures this.datas == datas && this.size == size && this.pageSize == pageSize
    {
      this.datas, this.size, this.pageSize := datas, size, pageSize;
    }

    ghost function Contents(): Bytes
      reads this
    {
      Flat(datas)
    }

    ghost predicate Valid()
      reads this
    {
      size == |Contents()|
    }

    method PushBack(data: Bytes)
      requires Valid()
      modifies this`size, this`datas
      ensures Valid() && Contents() == old(Contents()) + data
    {
      FlatSnoc(datas, data);
      size := size + |data|;
      datas := datas + [data];
    }

    method PushBackVec(more: seq<Bytes>)
      requires Valid()
      modifies this`size, this`datas
      ensures Valid() && Contents() == old(Contents()) + Flat(more)
    {
      for i := 0 to |more|
        invariant Valid() && Contents() == old(Contents()) + Flat(more[..i])
      {
        PushBack(more[i]);
        FlatSnoc(more[..i], more[i]);
        assert more[..i + 1] == more[..i] + [more[i]];
      }
      assert more[..|more|] == more;
    }

    /** Drops `cnt` bytes from the front.  The source panics on an empty buffer and on a count
        beyond its end. */
    method Advance(cnt: nat)
      requires Valid() && cnt <= size && size > 0
      modifies this`size, this`datas
      ensures Valid() && Contents() == old(Contents())[cnt..]
    {
      size := size - cnt;
      if size == 0 {
        datas := [];
        return;
      }
      ghost var goal := Contents()[cnt..];
      var left, done := cnt, false;
      while !done
        invariant left <= |Contents()| && Contents()[left..] == goal && |goal| == size > 0
        invariant done ==> left == 0
        decreases !done, |datas|
      {
        assert datas != [];
        var first := datas[0];
        ghost var rest := Flat(datas[1..]);
        if left >= |first| {
          left := left - |first|;
          datas := datas[1..];
          assert (first + rest)[left + |first|..] == rest[left..];
        } else {
          datas := [first[left..]] + datas[1..];
          assert first[left..] + rest == (first + rest)[left..];
          left := 0;
        }
        done := left == 0;
      }
      assert Contents()[0..] == Contents();
    }

    /** A copy of the whole pages at the front, or of everything at the end.  `None` when there is
        nothing to copy. */
    method PageChunksCopy(isEnd: bool) returns (r: Option<FileCacheBytes>)
      requires Valid() && (isEnd || size == 0 || pageSize > 0)
      ensures r.None? <==> size == 0 || (!isEnd && size < pageSize)
      ensures r.Some? ==> fresh(r.value) && r.value.Valid() && r.value.pageSize == pageSize && r.value.size > 0
      ensures r.Some? && isEnd ==> r.value.Contents() == Contents()
      ensures r.Some? && !isEnd ==>
                && r.value.size % pageSize == 0 && 0 < r.value.size <= size < r.value.size + pageSize
                && r.value.Contents() == Contents()[..r.value.size]
    {
      if size == 0 {
        return None;
      }
      if isEnd {
        var all := new FileCacheBytes.Of(datas, size, pageSize);
        return Some(all);
      }
      var wanted := (size / pageSize) * pageSize;
      LongestWholePages(size, pageSize);
      if wanted == 0 {
        return None;
      }
      var chunks := TakeFront(wanted);
      var copy := new FileCacheBytes.Of(chunks, wanted, pageSize);
      r := Some(copy);
    }

    /** The chunk loop of the copy: whole chunks, and at the end a slice of one. */
    method TakeFront(wanted: nat) returns (chunks: seq<Bytes>)
      requires Valid() && wanted <= size
      ensures Flat(chunks) == Contents()[..wanted]
    {
      chunks := [];
      assert datas[0..] == datas;
      var left, i := wanted, 0;
      while i < |datas| && left > 0
        invariant 0 <= i <= |datas| && 0 <= left <= |Flat(datas[i..])|
        invariant Flat(chunks) + Flat(datas[i..])[..left] == Contents()[..wanted]
      {
        var buf := datas[i];
        ghost var rest := Flat(datas[i + 1..]);
        assert datas[i..][0] == buf && datas[i..][1..] == datas[i + 1..];
        assert Flat(datas[i..]) == buf + rest;
        ghost var before := left;
        if |buf| > left {
          buf := buf[..left];
        }
        FlatSnoc(chunks, buf);
        chunks := chunks + [buf];
        left := left - |buf|;
        assert (datas[i] + rest)[..before] == buf + rest[..left];
        i := i + 1;
      }
      assert datas[|datas|..] == [];
    }

    /** All bytes as one buffer. */
    method ChunkAllBytes() returns (r: Bytes)
      requires Valid()
      ensures r == Contents()
    {
      if |datas| == 1 {
        assert Flat(datas) == datas[0] + Flat(datas[1..]) == datas[0] + [];
        return datas[0];
      }
      r := [];
      for i := 0 to |datas|
        invariant r == Flat(datas[..i])
      {
        r := r + datas[i];
        FlatSnoc(datas[..i], datas[i]);
        assert datas[..i + 1] == datas[..i] + [datas[i]];
      }
      assert datas[..|datas|] == datas;
    }

    /** The cache writer's loop: as long as there is a copy to make, write it behind what is in
        the file already and drop it.  Nothing is lost, repeated or reordered; at the end of the
        body everything is written, before that all but less than a page. */
    method FlushLoop(isEnd: bool, file: Bytes) returns (file': Bytes)
      requires Valid() && (isEnd || pageSize > 0)
      modifies this`size, this`datas
      ensures Valid() && file' + Contents() == file + old(Contents())
      ensures isEnd ==> Contents() == []
      ensures !isEnd ==> size < pageSize
    {
      file' := file;
      var copy := PageChunksCopy(isEnd);
      while copy.Some?
        invariant Valid() && file' + Contents() == file + old(Contents())
        invariant copy.None? ==> size == 0 || (!isEnd && size < pageSize)
        invariant copy.Some? ==>
                    && copy.value.Valid() && 0 < copy.value.size <= size && copy.value != this
                    && copy.value.Contents() == Contents()[..copy.value.size]
        decreases size, if copy.Some? then 1 else 0
      {
        var data := copy.value.ChunkAllBytes();
        ghost var before := Contents();
        file' := file' + data;
        Advance(copy.value.size);
        assert data + Contents() == before;
        copy := PageChunksCopy(isEnd);
      }
    }
  }

  lemma LongestWholePages(size: nat, pageSize: nat)
    requires pageSize > 0
    ensures var m := (size / pageSize) * pageSize;
            m <= size < m + pageSize && (m == 0 <==> size < pageSize)
    ensures ((size / pageSize) * pageSize) % pageSize == 0
  {
    QuotientOf((size / pageSize) * pageSize, size / pageSize, 0, pageSize);
    var q := size / pageSize;
    assert size == q * pageSize + size % pageSize;
    assert q >= 1 ==> q * pageSize >= pageSize;
  }
}
