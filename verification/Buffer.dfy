/** `struct buffer` of include/libtrading/buffer.h and src/libtrading/buffer.c. */
module Buffers {
  import opened Bytes
  import opened Itoa

  /** Index of the first `c` in `s`, or |s|. */
  function IndexOf(s: seq<byte>, c: byte): (k: nat)
    ensures k <= |s|
    ensures forall j :: 0 <= j < k ==> s[j] != c
    ensures k < |s| ==> s[k] == c
  {
    if s == [] || s[0] == c then 0 else 1 + IndexOf(s[1..], c)
  }

  lemma IndexOfUnique(s: seq<byte>, c: byte, k: nat)
    requires k <= |s| && (k < |s| ==> s[k] == c)
    requires forall j :: 0 <= j < k ==> s[j] != c
    ensures IndexOf(s, c) == k
  {
    var i := IndexOf(s, c);
    assert i == k || i < k || k < i;
  }

  /** Bytes fetched from the network: a chunk of any length up to the count asked for, or an error. */
  class Socket {
    /** All bytes the peer sends and this side has not read yet. */
    var incoming: seq<byte>

    constructor (bytes: seq<byte>)
      ensures incoming == bytes
    {
      incoming := bytes;
    }

    method Recv(data: array<byte>, at: nat, count: nat) returns (len: int)
      requires at + count <= data.Length
      modifies this, data
      ensures -1 <= len <= count && len <= |old(incoming)|
      ensures len <= 0 ==> incoming == old(incoming)
      ensures len > 0 ==> incoming == old(incoming)[len..]
      ensures forall i :: 0 <= i < len ==> data[at + i] == old(incoming)[i]
      ensures forall i :: 0 <= i < data.Length && !(at <= i < at + len) ==> data[i] == old(data[i])
    {
      len :| -1 <= len <= count && len <= |incoming|;
      if len > 0 {
        forall i | 0 <= i < len {
          data[at + i] := incoming[i];
        }
        incoming := incoming[len..];
      }
    }
  }

  class Buffer {
    var start: nat
    var end: nat
    const data: array<byte>

    ghost predicate Valid()
      reads this
    {
      start <= end <= data.Length
    }

    /** The bytes received or written but not consumed. */
    ghost function Unread(): seq<byte>
      requires Valid()
      reads this, data
    {
      data[start..end]
    }

    constructor (capacity: nat)
      ensures Valid() && fresh(data) && data.Length == capacity
      ensures start == 0 && Unread() == []
    {
      data := new byte[capacity];
      start, end := 0, 0;
    }

    function Size(): (n: nat)
      requires Valid()
      reads this
    {
      end - start
    }

    function Remaining(): (n: nat)
      requires Valid()
      reads this
    {
      data.Length - end
    }

    method Advance(n: int)
      requires Valid() && 0 <= start + n <= end
      modifies this`start
      ensures Valid() && start == old(start) + n
    {
      start := start + n;
    }

    method Put(b: byte)
      requires Valid() && end < data.Length
      modifies this`end, data
      ensures Valid() && end == old(end) + 1
      ensures Wrote(data[..], old(data[..]), old(end), [b])
      ensures Unread() == old(Unread()) + [b]
    {
      data[end] := b;
      end := end + 1;
    }

    method Reset()
      modifies this
      ensures Valid() && start == 0 && Unread() == []
    {
      start, end := 0, 0;
    }

    /** Consumes everything before the first `c`; stops at the end when there is none. */
    method Find(c: byte) returns (found: bool)
      requires Valid()
      modifies this`start
      ensures Valid() && start == old(start) + IndexOf(old(Unread()), c)
      ensures found <==> start < end
      ensures found ==> data[start] == c
    {
      ghost var u, s0 := Unread(), start;
      while Size() != 0
        invariant s0 <= start <= end
        invariant forall j :: 0 <= j < start - s0 ==> u[j] != c
        decreases end - start
      {
        if data[start] == c {
          IndexOfUnique(u, c, start - s0);
          return true;
        }
        Advance(1);
      }
      IndexOfUnique(u, c, start - s0);
      return false;
    }

    /** Moves the unread bytes to the front, freeing the consumed space. */
    method Compact()
      requires Valid()
      modifies this, data
      ensures Valid() && start == 0 && Unread() == old(Unread())
    {
      var count := Size();
      forall i | 0 <= i < count {
        data[i] := data[start + i];
      }
      start, end := 0, count;
    }

    /** Appends a received chunk of at most `size` bytes. */
    method Recv(sock: Socket, size: nat) returns (len: int)
      requires Valid()
      modifies this`end, data, sock
      ensures Valid() && -1 <= len <= size && len <= |old(sock.incoming)|
      ensures end == old(end) + if len < 0 then 0 else len
      ensures forall i :: 0 <= i < old(end) ==> data[i] == old(data[i])
      ensures Unread() == old(Unread()) + if len < 0 then [] else old(sock.incoming)[..len]
      ensures sock.incoming == if len < 0 then old(sock.incoming) else old(sock.incoming)[len..]
    {
      var count := Remaining();
      if count > size {
        count := size;
      }
      ghost var u, wire := Unread(), sock.incoming;
      len := sock.Recv(data, end, count);
      if len < 0 {
        assert Unread() == u;
        return;
      }
      ghost var chunk := wire[..len];
      forall i | 0 <= i < |u| + len ensures data[start + i] == (u + chunk)[i] {
        if i >= |u| {
          assert data[end + (i - |u|)] == wire[i - |u|];
        }
      }
      end := end + len;
      assert Unread() == u + chunk;
    }
  }

  /** Sums signed characters in an `unsigned long`, returned as `u8`. */
  method SumRange(a: array<byte>, start: nat, end: nat) returns (u8: nat)
    requires start <= end <= a.Length
    ensures u8 == ByteSum(a[start..end]) % 256
  {
    var sum := 0;
    var ptr := start;
    while ptr < end
      invariant start <= ptr <= end
      invariant 0 <= sum && sum % 256 == ByteSum(a[start..ptr]) % 256
    {
      assert a[start..ptr + 1][..ptr - start] == a[start..ptr];
      SumStep(sum, ByteSum(a[start..ptr]), a[ptr]);
      sum := (sum + SignedChar(a[ptr])) % 0x1_0000_0000_0000_0000;
      ptr := ptr + 1;
    }
    u8 := sum % 256;
  }

  /** Sign extension and the 64-bit wrap disappear modulo 256. */
  lemma SumStep(sum: int, total: int, b: byte)
    requires sum % 256 == total % 256
    ensures (sum + SignedChar(b)) % 0x1_0000_0000_0000_0000 % 256 == (total + b) % 256
  {
    var x := sum + SignedChar(b);
    var k := x / 0x1_0000_0000_0000_0000;
    ModMultiple(x, k * 0x100_0000_0000_0000);
    var j := sum / 256 - total / 256 - (if b < 128 then 0 else 1);
    assert x == total + b + j * 256;
    ModMultiple(x, j);
  }

  lemma ModMultiple(x: int, m: int)
    ensures (x - m * 256) % 256 == x % 256
  {
  }
}
