/** An io.Reader over a finite byte stream, with io.ReadFull. */
module Reader {
  import opened Bytes

  datatype Status = Ok | Eof | UnexpectedEof

  /** ReadFull's verdict on `n` bytes when `available` are left: a clean end only
      when nothing at all could be read. */
  function FullStatus(available: nat, n: nat): Status {
    if n <= available then Ok else if available == 0 then Eof else UnexpectedEof
  }

  class Stream {
    const data: seq<byte>
    var pos: nat

    ghost predicate Valid()
      reads this
    {
      pos <= |data|
    }

    ghost function Rest(): seq<byte>
      reads this
      requires Valid()
    {
      data[pos..]
    }

    constructor (data: seq<byte>)
      ensures Valid() && this.data == data && Rest() == data
    {
      this.data, pos := data, 0;
    }

    /** Reads exactly `n` bytes, or uses up the stream and says why it could not. */
    method ReadFull(n: nat) returns (status: Status, buf: seq<byte>)
      requires Valid()
      modifies this`pos
      ensures Valid()
      ensures status == FullStatus(|old(Rest())|, n)
      ensures status == Ok ==> buf == old(Rest())[..n] && Rest() == old(Rest())[n..]
      ensures status != Ok ==> buf == [] && Rest() == []
    {
      if n <= |data| - pos {
        buf := data[pos..pos + n];
        pos := pos + n;
        return Ok, buf;
      }
      status := if pos == |data| then Eof else UnexpectedEof;
      pos := |data|;
      buf := [];
    }
  }
}
