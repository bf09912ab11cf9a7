/** A C stream opened for reading: its bytes and the file position. */
module CFile {

  type Byte = x: int | 0 <= x < 256

  const EOF := -1
  const NUL: Byte := 0
  const LF: Byte := 10
  const CR: Byte := 13
  const SPACE: Byte := 32

  /** isspace in the C locale. */
  predicate IsSpace(c: int) {
    c == SPACE || 9 <= c <= 13
  }

  class File {
    const data: seq<Byte>
    var pos: nat

    constructor (data: seq<Byte>)
      ensures this.data == data && pos == 0
    {
      this.data := data;
      pos := 0;
    }

    method Getc() returns (c: int)
      modifies this`pos
      ensures c == if old(pos) < |data| then data[old(pos)] else EOF
      ensures pos == if old(pos) < |data| then old(pos) + 1 else old(pos)
    {
      if pos < |data| {
        c := data[pos];
        pos := pos + 1;
      } else {
        c := EOF;
      }
    }

    method SeekSet(offset: nat)
      modifies this`pos
      ensures pos == offset
    {
      pos := offset;
    }

    /** A move to before the start fails and leaves the position. */
    method SeekCur(offset: int)
      modifies this`pos
      ensures pos == if old(pos) + offset >= 0 then old(pos) + offset else old(pos)
    {
      if pos + offset >= 0 {
        pos := pos + offset;
      }
    }
  }
}
