/** CDataStream: a buffer with a read position that behaves as a plain queue of bytes. */
module Stream {
  import opened Bytes

  class DataStream {
    var vch: Data
    var pos: nat

    ghost predicate Valid()
      reads this
    {
      pos <= |vch|
    }

    /** What is left to be read. */
    ghost function Contents(): Data
      requires Valid()
      reads this
    {
      vch[pos..]
    }

    constructor (data: Data)
      ensures Valid() && Contents() == data
    {
      vch, pos := data, 0;
    }

    function Size(): (n: nat)
      requires Valid()
      reads this
      ensures n == |Contents()|
    {
      |vch| - pos
    }

    function At(i: nat): (b: Byte)
      requires Valid() && i < Size()
      reads this
      ensures b == Contents()[i]
    {
      vch[pos + i]
    }

    /** The bytes from one offset to another, as a copy. */
    function Range(a: nat, b: nat): (d: Data)
      requires Valid() && a <= b <= Size()
      reads this
      ensures d == Contents()[a..b]
    {
      vch[pos + a..pos + b]
    }

    /** write */
    method Write(data: Data)
      requires Valid()
      modifies this
      ensures Valid() && Contents() == old(Contents()) + data
    {
      vch := vch + data;
    }

    /** read: all or nothing; the buffer is emptied when its end is reached. */
    method Read(n: nat) returns (data: Option<Data>)
      requires Valid()
      modifies this
      ensures Valid()
      ensures n <= |old(Contents())| ==> data == Some(old(Contents())[..n]) && Contents() == old(Contents())[n..]
      ensures n > |old(Contents())| ==> data == None && Contents() == old(Contents())
    {
      var next := pos + n;
      if next >= |vch| {
        if next > |vch| {
          return None;
        }
        assert vch[pos..next] == Contents()[..n];
        data := Some(vch[pos..next]);
        vch, pos := [], 0;
        return;
      }
      assert vch[pos..next] == Contents()[..n] && vch[next..] == Contents()[n..];
      data := Some(vch[pos..next]);
      pos := next;
    }

    /** ignore */
    method Ignore(n: nat) returns (ok: bool)
      requires Valid()
      modifies this
      ensures Valid() && ok == (n <= |old(Contents())|)
      ensures Contents() == if ok then old(Contents())[n..] else old(Contents())
    {
      var next := pos + n;
      ok := next <= |vch|;
      if next >= |vch| {
        if ok {
          vch, pos := [], 0;
        }
        return;
      }
      pos := next;
    }

    /** erase of a range: from the front only the position moves. */
    method Erase(a: nat, b: nat)
      requires Valid() && a <= b <= Size()
      modifies this
      ensures Valid() && Contents() == old(Contents())[..a] + old(Contents())[b..]
    {
      if a == 0 {
        if pos + b == |vch| {
          vch, pos := [], 0;
        } else {
          pos := pos + b;
        }
      } else {
        vch := vch[..pos + a] + vch[pos + b..];
      }
    }

    /** insert of a range: at the front it goes where there is room for it. */
    method Insert(at: nat, data: Data)
      requires Valid() && at <= Size()
      modifies this
      ensures Valid() && Contents() == old(Contents())[..at] + data + old(Contents())[at..]
    {
      ghost var c := Contents();
      if at == 0 && |data| <= pos {
        vch := vch[..pos - |data|] + data + vch[pos..];
        pos := pos - |data|;
        assert Contents() == data + c;
      } else {
        vch := vch[..pos + at] + data + vch[pos + at..];
      }
    }

    /** resize, filling with zeros. */
    method Resize(n: nat)
      requires Valid()
      modifies this
      ensures Valid() && |Contents()| == n
      ensures Contents() == if n <= |old(Contents())| then old(Contents())[..n]
                            else old(Contents()) + seq(n - |old(Contents())|, i => 0)
    {
      if pos + n <= |vch| {
        vch := vch[..pos + n];
      } else {
        vch := vch + seq(pos + n - |vch|, i => 0);
      }
    }

    /** Bytes overwritten in place, as memcpy does. */
    method Overwrite(at: nat, data: Data)
      requires Valid() && at + |data| <= Size()
      modifies this
      ensures Valid() && Contents() == old(Contents())[..at] + data + old(Contents())[at + |data|..]
    {
      vch := vch[..pos + at] + data + vch[pos + at + |data|..];
    }

    /** Compact: what was read is dropped. */
    method Compact()
      requires Valid()
      modifies this
      ensures Valid() && pos == 0 && Contents() == old(Contents())
    {
      vch, pos := vch[pos..], 0;
    }

    /** Rewind takes back what was read, unless it is gone; what was read right before is then read again. */
    method Rewind(n: nat) returns (ok: bool)
      requires Valid()
      modifies this
      ensures Valid() && ok == (n <= old(pos))
      ensures Contents() == if ok then old(vch)[old(pos) - n..old(pos)] + old(Contents()) else old(Contents())
    {
      if n > pos {
        return false;
      }
      pos := pos - n;
      ok := true;
    }

    /** Bytes received from a socket: room is made at the end and filled. */
    method Receive(data: Data)
      requires Valid()
      modifies this
      ensures Valid() && Contents() == old(Contents()) + data
    {
      ghost var c := Contents();
      var n := Size();
      Resize(n + |data|);
      Overwrite(n, data);
      assert Contents() == c + data;
    }
  }
}
