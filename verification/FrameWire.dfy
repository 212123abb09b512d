/** The framing code as it runs: a writer that appends piece by piece, and a reader that fills a
    flag buffer by partial reads and reuses one buffer for header and body. */
module FrameWire {
  import opened Basics
  import opened Framing

  class FrameWriter<V> {
    const pr: Profile
    const c: Codec<V>
    var out: Bytes

    constructor (pr: Profile, c: Codec<V>)
      ensures this.pr == pr && this.c == c && out == []
    {
      this.pr, this.c, out := pr, c, [];
    }

    method WriteAll(bytes: Bytes)
      modifies this
      ensures out == old(out) + bytes
    {
      out := out + bytes;
    }

    /** Flag, header length, header and body; both lengths are cut to 16 bits. */
    method WritePack(kind: nat, body: Bytes)
      modifies this
      ensures var h := c.encHeader(Header(kind, |body| % 0x1_0000));
              out == old(out) + pr.flag + U16(|h|) + h + body
    {
      var header := c.encHeader(Header(kind, |body| % 0x1_0000));
      WriteAll(pr.flag);
      WriteAll(U16(|header|));
      WriteAll(header);
      WriteAll(body);
    }

    method WritePlain(kind: nat, value: V)
      modifies this
      ensures out == old(out) + Frame(pr, c, Plain(kind, value))
    {
      WritePack(kind, c.encPlain(kind, value));
      assert out == old(out) + Frame(pr, c, Plain(kind, value));
    }

    method WriteTunnelData(header: DataHeader, datas: Bytes)
      modifies this
      ensures out == old(out) + Frame(pr, c, Data(header, datas))
    {
      WritePack(pr.dataKind, c.encData(header));
      WriteAll(datas);
      assert out == old(out) + Frame(pr, c, Data(header, datas));
    }

    /** The size in the header given is ignored: it is computed from the text of the ids. */
    method WriteTunnelDataAck(header: AckHeader, packIds: seq<nat>)
      requires pr.ackKind.Some?
      modifies this
      ensures out == old(out) + Frame(pr, c, Ack(header, packIds))
    {
      var text := c.encIds(packIds);
      WritePack(pr.ackKind.value, c.encAck(AckHeader(header.streamId, |text| % 0x1_0000_0000)));
      WriteAll(text);
      assert out == old(out) + Frame(pr, c, Ack(header, packIds));
    }
  }

  datatype FlagRead = Matched | Differs | EndOfInput

  /** What comparing the input with the flag must give, whatever the reads bring at a time. */
  function CompareFlag(flag: Bytes, input: Bytes): FlagRead {
    if flag <= input then Matched
    else if input <= flag then EndOfInput
    else Differs
  }

  /** A difference in the first `n` bytes settles the comparison. */
  lemma EarlyDifference(flag: Bytes, input: Bytes, n: nat)
    requires n <= |flag| && n <= |input| && flag[..n] != input[..n]
    ensures CompareFlag(flag, input) == Differs
  {
    var i :| 0 <= i < n && flag[..n][i] != input[..n][i];
    assert flag[i] != input[i];
  }

  /** `Ok(None)`, `Ok(Some(pack))` and `Err` of the source. */
  datatype ReadResult<V> = NoPack | SomePack(pack: Packet<V>) | Failed

  class FrameReader<V(!new)> {
    const pr: Profile
    const c: Codec<V>
    /** Bytes of the connection that were not read yet. */
    var input: Bytes

    constructor (pr: Profile, c: Codec<V>, input: Bytes)
      ensures this.pr == pr && this.c == c && this.input == input
    {
      this.pr, this.c, this.input := pr, c, input;
    }

    /** One `read`: any positive number of bytes that are there and fit, or 0 at the end. */
    method ReadSome(dst: array<Byte>, at: nat, end: nat) returns (n: nat)
      requires at < end <= dst.Length
      modifies this`input, dst
      ensures n == 0 <==> old(input) == []
      ensures n <= |old(input)| && at + n <= end && input == old(input)[n..]
      ensures dst[..at + n] == old(dst[..at]) + old(input)[..n]
    {
      n := 0;
      if input != [] {
        var most := if |input| <= end - at then |input| else end - at;
        n :| 1 <= n <= most;
        var got := input[..n];
        forall i | 0 <= i < n { dst[at + i] := got[i]; }
        input := input[n..];
      }
    }

    method ReadExact(dst: array<Byte>, n: nat) returns (ok: bool)
      requires n <= dst.Length
      modifies this`input, dst
      ensures ok <==> n <= |old(input)|
      ensures ok ==> dst[..n] == old(input)[..n] && input == old(input)[n..]
    {
      var at, k := 0, 1;
      while at < n && k > 0
        invariant at <= n && at <= |old(input)|
        invariant dst[..at] == old(input)[..at] && input == old(input)[at..]
        invariant k == 0 ==> input == [] && at < n
        decreases n - at, k
      {
        k := ReadSome(dst, at, n);
        at := at + k;
      }
      ok := at == n;
    }

    /** The flag: compared after every partial read, so a stranger is told apart at once. */
    method ReadFlag() returns (r: FlagRead)
      modifies this`input
      ensures r == CompareFlag(pr.flag, old(input))
      ensures r == Matched ==> input == old(input)[|pr.flag|..]
    {
      var buffer := new Byte[|pr.flag|](_ => 0);
      var size := 0;
      while size < buffer.Length
        invariant size <= buffer.Length && size <= |old(input)|
        invariant buffer[..size] == pr.flag[..size] == old(input)[..size]
        invariant input == old(input)[size..]
      {
        var k := ReadSome(buffer, size, buffer.Length);
        if k == 0 { return EndOfInput; }
        size := size + k;
        assert buffer[..size] == old(input)[..size];
        if buffer[..size] != pr.flag[..size] {
          EarlyDifference(pr.flag, old(input), size);
          return Differs;
        }
      }
      r := Matched;
    }

    method ReadU16() returns (r: Option<nat>)
      modifies this`input
      ensures r == if |old(input)| < 2 then None else Some(FromU16(old(input)[..2]))
      ensures r.Some? ==> input == old(input)[2..]
    {
      var two := new Byte[2](_ => 0);
      var ok := ReadExact(two, 2);
      if !ok { return None; }
      r := Some(FromU16(two[..]));
      assert two[..] == two[..2];
    }

    /** A payload in a buffer of its own. */
    method ReadOwned(n: nat) returns (r: Option<Bytes>)
      modifies this`input
      ensures r == if |old(input)| < n then None else Some(old(input)[..n])
      ensures r.Some? ==> input == old(input)[n..]
    {
      var datas := new Byte[n](_ => 0);
      var ok := ReadExact(datas, n);
      if !ok { return None; }
      r := Some(datas[..]);
      assert datas[..] == datas[..n];
    }

    ghost predicate Agrees(r: ReadResult<V>, parsed: Parsed<V>)
      reads this
    {
      match parsed
      case Got(pack, rest) => r == SomePack(pack) && input == rest
      case NotAPack => r == NoPack
      case Error => r == Failed
    }

    method ReadBody(kind: nat, body: Bytes) returns (r: ReadResult<V>)
      modifies this`input
      ensures Agrees(r, ParseBody(pr, c, kind, body, old(input)))
    {
      if kind == pr.dataKind {
        var header := c.decData(body);
        if header.None? { return Failed; }
        if pr.maxData.Some? && header.value.packSize > pr.maxData.value { return Failed; }
        var datas := ReadOwned(header.value.packSize);
        return if datas.None? then Failed else SomePack(Data(header.value, datas.value));
      }
      if pr.ackKind == Some(kind) {
        var header := c.decAck(body);
        if header.None? { return Failed; }
        var datas := ReadOwned(header.value.dataSize);
        if datas.None? { return Failed; }
        var ids := c.decIds(datas.value);
        return if ids.None? then Failed else SomePack(Ack(header.value, ids.value));
      }
      var value := c.decPlain(kind, body);
      return if value.None? then Failed else SomePack(Plain(kind, value.value));
    }

    /** Header and body share `slice`. */
    method ReadHeader(slice: array<Byte>, only: Option<nat>, size: nat) returns (r: ReadResult<V>)
      requires slice.Length == MAX_HEADER_SIZE
      modifies this`input, slice
      ensures Agrees(r, ParseHeader(pr, c, only, size, old(input)))
    {
      hide ParseBody;
      if size > slice.Length || size == 0 { return Failed; }
      var ok := ReadExact(slice, size);
      if !ok { return Failed; }
      var header := c.decHeader(slice[..size]);
      if header.None? || header.value.kind >= pr.kinds { return Failed; }
      if only.Some? && header.value.kind != only.value { return NoPack; }
      var bodySize := header.value.bodySize;
      if bodySize > slice.Length { return Failed; }
      ok := ReadExact(slice, bodySize);
      if !ok { return Failed; }
      assert old(input)[size..][..bodySize] == old(input)[size..size + bodySize];
      assert old(input)[size..][bodySize..] == old(input)[size + bodySize..];
      r := ReadBody(header.value.kind, slice[..bodySize]);
    }

    /** Reads one pack.  The outcome is that of parsing the unread bytes, however the reads were
        split; after a pack the connection stands right behind it. */
    method ReadPack(slice: array<Byte>, only: Option<nat>) returns (r: ReadResult<V>)
      requires slice.Length == MAX_HEADER_SIZE
      modifies this`input, slice
      ensures Agrees(r, Parse(pr, c, only, old(input)))
    {
      hide ParseHeader;
      var flag := ReadFlag();
      if flag == Differs { return NoPack; }
      if flag == EndOfInput { return Failed; }
      var n := |pr.flag|;
      var size := ReadU16();
      if size.None? { return Failed; }
      assert old(input)[n..][..2] == old(input)[n..n + 2] && old(input)[n..][2..] == old(input)[n + 2..];
      r := ReadHeader(slice, only, size.value);
    }

    /** Any kind of pack; here no pack is an error. */
    method ReadPackAll(slice: array<Byte>) returns (r: Option<Packet<V>>)
      requires slice.Length == MAX_HEADER_SIZE
      modifies this`input, slice
      ensures var parsed := Parse(pr, c, None, old(input));
              r == (if parsed.Got? then Some(parsed.pack) else None) && (parsed.Got? ==> input == parsed.rest)
    {
      var pack := ReadPack(slice, None);
      r := if pack.SomePack? then Some(pack.pack) else None;
    }

    /** A pack of one kind with no payload, as a session's hello or its ack: anything else is an
        error, and such a pack on the connection is what is returned. */
    method ReadWanted(kind: nat, ghost value: V, ghost rest: Bytes) returns (r: Option<V>)
      modifies this`input
      ensures Faithful(c) && WellFormed(pr, Plain(kind, value)) && Measured(pr, c, Plain(kind, value))
              && old(input) == Frame(pr, c, Plain(kind, value)) + rest
              ==> (if WithinLimits(pr, c, Plain(kind, value)) then r == Some(value) && input == rest else r == None)
    {
      hide Parse, Frame;
      var slice := new Byte[MAX_HEADER_SIZE](_ => 0);
      var pack := ReadPack(slice, Some(kind));
      r := if pack.SomePack? && pack.pack.Plain? then Some(pack.pack.value) else None;
      if Faithful(c) && WellFormed(pr, Plain(kind, value)) && Measured(pr, c, Plain(kind, value)) {
        WantedKind(pr, c, kind, Plain(kind, value), rest);
      }
    }
  }
}
