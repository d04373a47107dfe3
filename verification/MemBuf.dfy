/** The growing buffer of ixmlmembuf.c. Memory allocation is taken to succeed. */
module MemBuf {
  import opened Bytes

  const DEFAULT_SIZE_INC := 20

  datatype ReturnCode = SUCCESS | INDEX_SIZE_ERR

  /** `s` with `data` spliced in at `index`. */
  function Splice(s: seq<Octet>, data: seq<Octet>, index: nat): seq<Octet>
    requires index <= |s|
  {
    s[..index] + data + s[index..]
  }

  class Buffer {
    var sizeInc: nat
    var buf: array?<Octet>
    var length: nat
    var capacity: nat

    /** A buffer that is allocated has room for `capacity` octets and a NUL, and is NUL-terminated at
        `length`; it never holds more than `sizeInc` octets that are not in use. */
    ghost predicate Valid()
      reads this, buf
    {
      && length <= capacity <= length + sizeInc
      && (buf == null ==> capacity == 0)
      && (buf != null ==> buf.Length == capacity + 1 && buf[length] == 0)
    }

    ghost function Contents(): seq<Octet>
      requires Valid()
      reads this, buf
    {
      if buf == null then [] else buf[..length]
    }

    /** `ixml_membuf_init` */
    constructor ()
      ensures Valid()
      ensures buf == null && Contents() == [] && sizeInc == DEFAULT_SIZE_INC
    {
      sizeInc := DEFAULT_SIZE_INC;
      buf := null;
      length := 0;
      capacity := 0;
    }

    /** `ixml_membuf_destroy` */
    method Destroy()
      modifies this
      ensures Valid() && buf == null && Contents() == [] && sizeInc == DEFAULT_SIZE_INC
    {
      sizeInc := DEFAULT_SIZE_INC;
      buf := null;
      length := 0;
      capacity := 0;
    }

    /** `realloc(buf, n + 1)`: the octets that fit are kept. */
    method Realloc(n: nat)
      requires buf != null ==> length < buf.Length
      requires buf == null ==> length == 0
      modifies this`buf, this`capacity
      ensures buf != null && fresh(buf) && buf.Length == n + 1 && capacity == n
      ensures old(buf) != null ==> forall i :: 0 <= i < old(buf).Length && i <= n ==> buf[i] == old(buf[i])
    {
      var p := new Octet[n + 1];
      if buf != null {
        var old_buf := buf;
        forall i | 0 <= i < old_buf.Length && i <= n {
          p[i] := old_buf[i];
        }
      }
      buf := p;
      capacity := n;
    }

    /** `ixml_membuf_set_size`: makes room for `newLength` octets and gives back what is not needed. The
        contents up to the smaller of the two lengths stay. */
    method SetSize(newLength: nat)
      requires Valid()
      modifies this`buf, this`capacity
      ensures newLength <= capacity <= newLength + sizeInc
      ensures buf == old(buf) || fresh(buf)
      ensures buf == null <==> old(buf) == null && newLength == 0
      ensures buf == null ==> capacity == 0
      ensures buf != null ==> buf.Length == capacity + 1
      ensures old(buf) != null ==> forall i :: 0 <= i < length && i < newLength ==> buf[i] == old(buf[i])
    {
      var allocLen;
      if newLength >= length {
        if newLength <= capacity {
          return;
        }
        var diff := newLength - length;
        allocLen := (if sizeInc > diff then sizeInc else diff) + capacity;
      } else {
        if capacity - newLength <= sizeInc {
          return;
        }
        allocLen := newLength + sizeInc;
      }
      Realloc(allocLen);
    }

    /** `ixml_membuf_assign` with a non-null `data`. Assigning nothing to a buffer that was never
        allocated would write through a null pointer. */
    method Assign(data: seq<Octet>)
      requires Valid() && (buf != null || data != [])
      modifies this, buf
      ensures Valid() && Contents() == data && buf != null && (buf == old(buf) || fresh(buf))
      ensures sizeInc == old(sizeInc)
    {
      SetSize(|data|);
      forall i | 0 <= i < |data| {
        buf[i] := data[i];
      }
      buf[|data|] := 0;
      length := |data|;
      assert buf[..length] == data;
    }

    /** `ixml_membuf_insert` */
    method Insert(data: seq<Octet>, index: nat) returns (rc: ReturnCode)
      requires Valid()
      modifies this, buf
      ensures Valid() && sizeInc == old(sizeInc) && (buf == old(buf) || fresh(buf))
      ensures rc == INDEX_SIZE_ERR <==> index > |old(Contents())|
      ensures Contents() == if rc == SUCCESS then Splice(old(Contents()), data, index) else old(Contents())
    {
      if index > length {
        return INDEX_SIZE_ERR;
      }
      if data == [] {
        assert Splice(Contents(), data, index) == Contents();
        return SUCCESS;
      }
      ghost var was := Contents();
      SetSize(length + |data|);
      assert buf[..length] == was;
      MoveAndCopy(data, index);
      length := length + |data|;
      buf[length] := 0;
      assert buf[..length] == Splice(was, data, index);
      return SUCCESS;
    }

    /** The `memmove` and the `memcpy` of `ixml_membuf_insert`. */
    method MoveAndCopy(data: seq<Octet>, index: nat)
      requires buf != null && index <= length && length + |data| < buf.Length
      modifies buf
      ensures buf[..length + |data|] == Splice(old(buf[..length]), data, index)
    {
      ghost var was := buf[..length];
      Move(index, |data|);
      label moved:
      var n := |data|;
      forall i | index <= i < index + n {
        buf[i] := data[i - index];
      }
      assert buf[..index] == old@moved(buf[..index]);
      assert buf[index..index + n] == data;
      assert buf[index + n..length + n] == old@moved(buf[index + n..length + n]);
      assert buf[..length + n] == buf[..index] + buf[index..index + n] + buf[index + n..length + n];
    }

    method Move(index: nat, n: nat)
      requires buf != null && index <= length && length + n < buf.Length
      modifies buf
      ensures buf[..index] == old(buf[..index])
      ensures buf[..index] == old(buf[..length][..index])
      ensures buf[index + n..length + n] == old(buf[..length][index..])
    {
      forall i | index + n <= i < length + n {
        buf[i] := buf[i - n];
      }
    }

    /** `ixml_membuf_append_str` */
    method AppendStr(s: CString)
      requires Valid()
      modifies this, buf
      ensures Valid() && sizeInc == old(sizeInc) && (buf == old(buf) || fresh(buf))
      ensures Contents() == old(Contents()) + s
    {
      var rc := Insert(s, length);
      assert old(Contents()) + s + [] == old(Contents()) + s;
    }

    /** `ixml_membuf_append`: one octet. */
    method Append(b: Byte)
      requires Valid()
      modifies this, buf
      ensures Valid() && sizeInc == old(sizeInc) && (buf == old(buf) || fresh(buf))
      ensures Contents() == old(Contents()) + [b]
    {
      var rc := Insert([b], length);
      assert old(Contents()) + [b] + [] == old(Contents()) + [b];
    }
  }
}
