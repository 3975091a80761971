/** The copy loop of HW 5/pCp.c lines 108-112 in place: read a chunk, write it, until nothing
    is left. */
module CopyLoop {
  import opened Posix

  const CHUNK := 4096

  /** A file and the offset of the one descriptor that is open on it. */
  class OpenFile {
    var data: seq<Byte>
    var off: nat

    constructor (data: seq<Byte>)
      ensures this.data == data && off == 0
    {
      this.data := data;
      off := 0;
    }

    /** `read` of up to 4096 bytes; the system delivers `short` of them, but at least one and no
        more than there are. */
    method Read(short: nat) returns (buf: seq<Byte>)
      requires off <= |data|
      modifies this`off
      ensures old(off) <= off <= |data| && buf == data[old(off)..off] && |buf| <= 4096
      ensures buf == [] <==> old(off) == |data|
    {
      var n := if short > CHUNK then CHUNK else if short == 0 then 1 else short;
      if off + n > |data| {
        n := |data| - off;
      }
      buf := data[off..off + n];
      off := off + n;
    }

    method Write(buf: seq<Byte>)
      modifies this
      ensures data == WriteAt(old(data), old(off), buf) && off == old(off) + |buf|
    {
      data := WriteAt(data, off, buf);
      off := off + |buf|;
    }
  }

  /** Whatever short counts `read` returns, an empty destination ends up with the source's bytes. */
  method Copy(source: OpenFile, destination: OpenFile, shorts: nat -> nat)
    requires source != destination && source.off == 0
    requires destination.off == 0 && destination.data == []
    modifies source`off, destination
    ensures destination.data == source.data
  {
    var calls := 0;
    var buf := source.Read(shorts(calls));
    while buf != []
      invariant source.off <= |source.data| && source.data == old(source.data)
      invariant destination.data + buf == source.data[..source.off]
      invariant destination.off == |destination.data|
      invariant buf == [] ==> source.off == |source.data|
      decreases |source.data| - source.off, |buf|
    {
      WriteAtEnd(destination.data, buf);
      destination.Write(buf);
      calls := calls + 1;
      ghost var before := source.off;
      buf := source.Read(shorts(calls));
      assert source.data[..before] + source.data[before..source.off] == source.data[..source.off];
    }
    assert destination.data + [] == destination.data;
  }
}
