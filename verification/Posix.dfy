/** Bytes and the one system call whose effect on file contents several programs share. */
module Posix {
  type Byte = b: int | 0 <= b < 256

  /** The content of a regular file after a complete `write` of `buf` at offset `off`:
      bytes under the buffer are replaced, a gap before it reads as zeros. */
  function WriteAt(content: seq<Byte>, off: nat, buf: seq<Byte>): (r: seq<Byte>)
  {
    if buf == [] then content
    else
      var filled := if off <= |content| then content else content + seq(off - |content|, i => 0);
      filled[..off] + buf + (if off + |buf| <= |filled| then filled[off + |buf|..] else [])
  }

  /** Reading back the written range gives the buffer; every other byte that existed is kept, and a
      gap between the old end and the buffer reads as zeros. An empty buffer changes nothing. */
  lemma WriteAtReadBack(content: seq<Byte>, off: nat, buf: seq<Byte>)
    ensures var r := WriteAt(content, off, buf);
            && (buf == [] ==> r == content)
            && (buf != [] ==>
                  && |r| == (if off + |buf| <= |content| then |content| else off + |buf|)
                  && r[off..off + |buf|] == buf
                  && (forall k | 0 <= k < |content| && !(off <= k < off + |buf|) :: r[k] == content[k])
                  && (forall k | |content| <= k < off :: r[k] == 0))
  {
  }

  /** A write at end of file is an append. */
  lemma WriteAtEnd(content: seq<Byte>, buf: seq<Byte>)
    ensures WriteAt(content, |content|, buf) == content + buf
  {
  }
}
