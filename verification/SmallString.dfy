/** doctest's string class: up to 23 bytes inside the object, longer ones in a heap block.

    The object is a union of 24 bytes and a view (ptr, size, capacity) laid over the first 16 of them, so a write
    to either side leaves the other with unknown values; the last byte is not shared, and says which side is live. */
module SmallString {
  type byte = x: int | 0 <= x < 256
  type Size = x: int | 0 <= x < 0x1_0000_0000   // 32-bit unsigned

  const LEN: nat := 24
  const LAST: nat := 23
  const VIEW: nat := 16
  const ON_HEAP: byte := 128

  /** May overlap, when both blocks are the same. */
  method MemMove(dst: array<byte>, at: nat, src: array<byte>, from: nat, n: nat)
    requires at + n <= dst.Length && from + n <= src.Length
    modifies dst
    ensures forall i :: 0 <= i < at ==> dst[i] == old(dst[i])
    ensures forall i :: at <= i < at + n ==> dst[i] == old(src[from + i - at])
    ensures forall i :: at + n <= i < dst.Length ==> dst[i] == old(dst[i])
  {
    forall i | 0 <= i < n {
      dst[at + i] := src[from + i];
    }
  }

  /** Never between a block and itself. */
  method MemCpy(dst: array<byte>, at: nat, src: array<byte>, from: nat, n: nat)
    requires dst != src && at + n <= dst.Length && from + n <= src.Length
    modifies dst
    ensures forall i :: 0 <= i < at ==> dst[i] == old(dst[i])
    ensures forall i :: at <= i < at + n ==> dst[i] == src[from + i - at]
    ensures forall i :: at + n <= i < dst.Length ==> dst[i] == old(dst[i])
  {
    MemMove(dst, at, src, from, n);
  }

  /** Copies a terminated text, with its terminator, behind the first `at` bytes. */
  method CopyBehind(dst: array<byte>, at: nat, src: array<byte>, n: nat)
    requires dst != src && n < src.Length && at + n < dst.Length && src[n] == 0
    modifies dst
    ensures dst[..at + n] == old(dst[..at]) + src[..n] && dst[at + n] == 0
    ensures forall i :: at + n < i < dst.Length ==> dst[i] == old(dst[i])
  {
    MemCpy(dst, at, src, 0, n + 1);
  }

  /** A new block that begins with the first n bytes of another. */
  method NewBlock(room: nat, src: array<byte>, n: nat) returns (block: array<byte>)
    requires n <= room && n <= src.Length
    ensures fresh(block) && block.Length == room && block[..n] == src[..n]
  {
    block := new byte[room];
    MemCpy(block, 0, src, 0, n);
  }

  /** Leaves the first n bytes of a block with unknown values. */
  method Scramble(block: array<byte>, n: nat)
    requires n <= block.Length
    modifies block
    ensures block[n..] == old(block[n..])
  {
    for i := 0 to n
      invariant block[n..] == old(block[n..])
    {
      block[i] := *;
    }
  }

  /** The next capacity of a heap block: doubled in 32 bits, or just enough when that falls short. */
  function Grown(capacity: Size, total: Size): (room: Size)
    requires total + 1 < 0x1_0000_0000
    ensures total < room
    ensures capacity < 0x8000_0000 ==> room == if capacity + capacity > total then capacity + capacity else total + 1
    ensures capacity >= 0x8000_0000 ==>
      room == if capacity + capacity - 0x1_0000_0000 > total then capacity + capacity - 0x1_0000_0000 else total + 1
  {
    var doubled := capacity * 2 % 0x1_0000_0000;
    if doubled <= total then total + 1 else doubled
  }

  class SmallString {
    const buf: array<byte>
    var ptr: array?<byte>
    var size: Size
    var capacity: Size

    ghost predicate OnStack() reads this, buf { buf.Length == LEN && buf[LAST] < ON_HEAP }

    /** The heap block this string owns, if any. */
    ghost function Heap(): set<object> reads this, buf {
      if OnStack() || ptr == null then {} else {ptr}
    }

    ghost function Footprint(): set<object> reads this, buf { {this, buf} + Heap() }

    /** The tag says where the bytes are, the length is inside the block, and a terminator follows the contents. */
    ghost predicate Valid() reads this, buf, Heap() {
      && buf.Length == LEN
      && (if OnStack() then buf[LAST] <= LAST && buf[LAST - buf[LAST]] == 0
          else
            && buf[LAST] == ON_HEAP && ptr != null && ptr != buf
            && capacity == ptr.Length && size < capacity && ptr[size] == 0)
    }

    ghost function Contents(): (s: seq<byte>) reads this, buf, Heap() requires Valid() {
      if OnStack() then buf[..LAST - buf[LAST]] else ptr[..size]
    }

    // ---- reading ----

    method IsOnStack() returns (b: bool)
      requires buf.Length == LEN
      ensures b == OnStack() && (b <==> buf[23] < 128)
    {
      b := buf[LAST] < ON_HEAP;       // the highest bit
    }

    method CStr() returns (block: array<byte>)
      requires Valid()
      ensures block == if OnStack() then buf else ptr
      ensures |Contents()| < block.Length && block[..|Contents()|] == Contents() && block[|Contents()|] == 0
    {
      var b := IsOnStack();
      block := if b then buf else ptr;
    }

    method GetSize() returns (n: Size)
      requires Valid()
      ensures n == |Contents()|
    {
      var b := IsOnStack();
      n := if b then LAST - buf[LAST] % 32 else size;   // the lowest 5 bits
    }

    method GetCapacity() returns (n: Size)
      requires Valid()
      ensures n == (if OnStack() then 24 else ptr.Length) && |Contents()| < n
    {
      var b := IsOnStack();
      n := if b then LEN else capacity;
    }

    // ---- the union ----

    /** Bytes of the buffer were written: the view is unknown. */
    method LoseView()
      modifies this
    {
      ptr, size, capacity := *, *, *;
    }

    /** The view was written: the bytes under it are unknown. */
    method LoseBytes()
      requires buf.Length == LEN
      modifies buf
      ensures buf[VIEW..] == old(buf[VIEW..])
    {
      Scramble(buf, VIEW);
    }

    method SetView(block: array<byte>, n: Size, room: Size)
      requires buf.Length == LEN
      modifies this, buf
      ensures ptr == block && size == n && capacity == room && buf[VIEW..] == old(buf[VIEW..])
    {
      ptr, size, capacity := block, n, room;
      LoseBytes();
    }

    method SetLast(n: nat)
      requires buf.Length == LEN && n <= LAST
      modifies buf
      ensures buf[..] == old(buf[..])[LAST := n]
    {
      buf[LAST] := n;
    }

    method SetOnHeap()
      requires buf.Length == LEN
      modifies buf
      ensures buf[..] == old(buf[..])[LAST := ON_HEAP]
    {
      buf[LAST] := ON_HEAP;
    }

    /** Makes room for n bytes, which the caller fills in. */
    method Allocate(n: Size) returns (block: array<byte>)
      requires buf.Length == LEN && n + 1 < 0x1_0000_0000
      modifies this, buf
      ensures Valid() && |Contents()| == n && (OnStack() <==> n < LEN)
      ensures if n < LEN then block == buf else block == ptr && fresh(block) && capacity == n + 1
    {
      if n <= LAST {
        buf[n] := 0;
        LoseView();
        SetLast(LAST - n);
        block := buf;
      } else {
        SetOnHeap();
        block := new byte[n + 1];
        SetView(block, n, n + 1);
        block[n] := 0;
      }
    }

    /** Shortens the string in place. */
    method SetSize(n: Size)
      requires Valid() && n <= |Contents()|
      modifies this, Footprint()
      ensures Valid() && Contents() == old(Contents())[..n] && Footprint() == old(Footprint())
    {
      var b := IsOnStack();
      if b {
        buf[n] := 0;
        LoseView();
        SetLast(LAST - n);
      } else {
        ptr[n] := 0;
        size := n;
        LoseBytes();
      }
    }

    // ---- construction and assignment ----

    constructor ()
      ensures Valid() && Contents() == [] && fresh(Footprint())
    {
      buf := new byte[LEN];
      new;
      buf[0] := 0;
      LoseView();
      SetLast(LAST);
    }

    constructor FromBytes(src: array<byte>, from: nat, n: Size)
      requires from + n <= src.Length && n + 1 < 0x1_0000_0000
      ensures Valid() && Contents() == src[from..from + n] && fresh(Footprint())
    {
      buf := new byte[LEN];
      new;
      var block := Allocate(n);
      MemCpy(block, 0, src, from, n);
    }

    /** Takes over the value of another string; whatever this object held is forgotten. */
    method Copy(other: SmallString)
      requires buf.Length == LEN && other.Valid() && {this, buf} !! other.Footprint()
      modifies this, buf
      ensures Valid() && Contents() == other.Contents() && fresh(Heap())
    {
      var b := other.IsOnStack();
      if b {
        MemCpy(buf, 0, other.buf, 0, LEN);
        LoseView();
      } else {
        var block := Allocate(other.size);
        MemCpy(block, 0, other.ptr, 0, other.size);
      }
    }

    constructor Copied(other: SmallString)
      requires other.Valid()
      ensures Valid() && Contents() == other.Contents() && fresh(Footprint())
    {
      buf := new byte[LEN];
      new;
      Copy(other);
    }

    /** Leaves the empty string behind. */
    method Clear()
      requires buf.Length == LEN
      modifies this, buf
      ensures Valid() && Contents() == [] && Heap() == {}
    {
      buf[0] := 0;
      LoseView();
      SetLast(LAST);
    }

    /** Takes over all 24 bytes of another string, and with them its heap block. */
    method Steal(other: SmallString)
      requires buf.Length == LEN && other.Valid() && {this, buf} !! other.Footprint()
      modifies this, buf, other, other.buf
      ensures Valid() && Contents() == old(other.Contents()) && Heap() == old(other.Heap())
      ensures other.Valid() && other.Contents() == [] && other.Heap() == {}
    {
      MemCpy(buf, 0, other.buf, 0, LEN);
      ptr, size, capacity := other.ptr, other.size, other.capacity;
      other.Clear();
    }

    constructor Moved(other: SmallString)
      requires other.Valid()
      modifies other, other.buf
      ensures Valid() && Contents() == old(other.Contents())
      ensures other.Valid() && other.Contents() == []
      ensures other.Heap() == {} && Heap() == old(other.Heap()) && fresh({this, buf})
    {
      buf := new byte[LEN];
      new;
      Steal(other);
    }

    /** delete[]: a released block keeps none of its bytes. */
    method Release()
      requires Valid()
      modifies Heap()
      ensures unchanged(this, buf)
    {
      var b := IsOnStack();
      if !b {
        Scramble(ptr, ptr.Length);
      }
    }

    method Assign(other: SmallString)
      requires Valid() && other.Valid() && (this != other ==> Footprint() !! other.Footprint())
      modifies this, Footprint()
      ensures Valid() && other.Valid() && Contents() == old(other.Contents())
      ensures other.Contents() == old(other.Contents())
      ensures if this == other then Footprint() == old(Footprint()) else fresh(Heap())
    {
      if this != other {
        Release();
        Copy(other);
      }
    }

    method MoveAssign(other: SmallString)
      requires Valid() && other.Valid() && (this != other ==> Footprint() !! other.Footprint())
      modifies this, Footprint(), other, other.buf
      ensures Valid() && other.Valid() && Contents() == old(other.Contents()) && Heap() == old(other.Heap())
      ensures this != other ==> other.Contents() == [] && other.Heap() == {}
    {
      if this != other {
        Release();
        Steal(other);
      }
    }

    // ---- append ----

    /** The bytes to append: a terminated block that is not part of this string. */
    ghost predicate Foreign(source: array<byte>, n: nat) reads this, buf, source {
      source !in Footprint() && n < source.Length && source[n] == 0
    }

    method AppendInside(source: array<byte>, mine: Size, theirs: Size)
      requires Valid() && OnStack() && mine == |Contents()| && mine + theirs < LEN && Foreign(source, theirs)
      modifies this, buf
      ensures Valid() && OnStack() && Contents() == old(Contents()) + source[..theirs]
    {
      CopyBehind(buf, mine, source, theirs);
      LoseView();
      SetLast(LAST - mine - theirs);
    }

    method AppendLeavingTheStack(source: array<byte>, mine: Size, theirs: Size)
      requires Valid() && OnStack() && mine == |Contents()| && Foreign(source, theirs)
      requires LEN <= mine + theirs && mine + theirs + 1 < 0x1_0000_0000
      modifies this, buf
      ensures Valid() && !OnStack() && fresh(Heap()) && capacity == mine + theirs + 1
      ensures Contents() == old(Contents()) + source[..theirs]
    {
      var total: Size := mine + theirs;
      var temp := NewBlock(total + 1, buf, mine);
      SetOnHeap();
      SetView(temp, total, total + 1);
      CopyBehind(ptr, mine, source, theirs);
    }

    method AppendInBlock(source: array<byte>, mine: Size, theirs: Size)
      requires Valid() && !OnStack() && mine == |Contents()| && mine + theirs < capacity && Foreign(source, theirs)
      modifies this, buf, Heap()
      ensures Valid() && !OnStack() && ptr == old(ptr) && capacity == old(capacity)
      ensures Contents() == old(Contents()) + source[..theirs]
    {
      size := mine + theirs;
      LoseBytes();
      CopyBehind(ptr, mine, source, theirs);
    }

    method AppendReallocating(source: array<byte>, mine: Size, theirs: Size)
      requires Valid() && !OnStack() && mine == |Contents()| && Foreign(source, theirs)
      requires mine + theirs + 1 < 0x1_0000_0000
      modifies this, buf, Heap()
      ensures Valid() && !OnStack() && fresh(Heap()) && capacity == Grown(old(capacity), mine + theirs)
      ensures Contents() == old(Contents()) + source[..theirs]
    {
      var total: Size := mine + theirs;
      var room := Grown(capacity, total);
      var temp := NewBlock(room, ptr, mine);
      Release();
      SetView(temp, total, room);
      CopyBehind(ptr, mine, source, theirs);
    }

    method AppendOnHeap(source: array<byte>, mine: Size, theirs: Size)
      requires Valid() && !OnStack() && mine == |Contents()| && Foreign(source, theirs)
      requires mine + theirs + 1 < 0x1_0000_0000
      modifies this, buf, Heap()
      ensures Valid() && !OnStack() && Contents() == old(Contents()) + source[..theirs]
      ensures if mine + theirs < old(capacity) then ptr == old(ptr) && capacity == old(capacity)
              else fresh(ptr) && capacity == Grown(old(capacity), mine + theirs)
    {
      if capacity > mine + theirs {
        AppendInBlock(source, mine, theirs);
      } else {
        AppendReallocating(source, mine, theirs);
      }
    }

    /** operator+=: in place while the block has room, else in a new block. */
    method Append(other: SmallString)
      requires Valid() && other.Valid() && Footprint() !! other.Footprint()
      requires |Contents()| + |other.Contents()| + 1 < 0x1_0000_0000
      modifies this, Footprint()
      ensures Valid() && Contents() == old(Contents()) + other.Contents()
      ensures other.Valid() && other.Contents() == old(other.Contents())
      ensures fresh(Footprint() - old(Footprint()))
      ensures OnStack() <==> old(OnStack()) && |Contents()| < LEN
      ensures old(OnStack()) && !OnStack() ==> capacity == |Contents()| + 1
      ensures !old(OnStack()) ==>
        if |Contents()| < old(capacity) then ptr == old(ptr) && capacity == old(capacity)
        else fresh(ptr) && capacity == Grown(old(capacity), |Contents()|)
    {
      var mine := GetSize();
      var theirs := other.GetSize();
      var total: Size := mine + theirs;
      var source := other.CStr();
      var b := IsOnStack();
      if b {
        if total < LEN {
          AppendInside(source, mine, theirs);
        } else {
          AppendLeavingTheStack(source, mine, theirs);
        }
      } else {
        AppendOnHeap(source, mine, theirs);
      }
    }

    // ---- substrings ----

    /** Moves a range to the front and cuts there. */
    method Keep(pos: Size, n: Size)
      requires Valid() && pos + n <= |Contents()|
      modifies this, Footprint()
      ensures Valid() && Contents() == old(Contents())[pos..pos + n] && Heap() == old(Heap())
    {
      var block := CStr();
      MemMove(block, 0, block, pos, n);
      assert block[..n] == old(Contents())[pos..pos + n];
      SetSize(n);
    }

    /** substr on an expiring string: shortened in place, then moved out. */
    method SubstrMoved(pos: Size, cnt: Size) returns (r: SmallString)
      requires Valid() && pos <= |Contents()|
      modifies this, Footprint()
      ensures r.Valid() && fresh({r, r.buf}) && r.Heap() == old(Heap())
      ensures r.Contents() == old(Contents())[pos..if cnt < |old(Contents())| - pos then pos + cnt else |old(Contents())|]
      ensures Valid() && Contents() == [] && Heap() == {}
    {
      var n := GetSize();
      Keep(pos, if cnt < n - pos then cnt else n - pos);
      r := new SmallString.Moved(this);
    }

    method SubstrCopied(pos: Size, cnt: Size) returns (r: SmallString)
      requires Valid() && pos <= |Contents()|
      ensures r.Valid() && fresh(r.Footprint())
      ensures r.Contents() == Contents()[pos..if cnt < |Contents()| - pos then pos + cnt else |Contents()|]
    {
      var n := GetSize();
      var taken: Size := if cnt < n - pos then cnt else n - pos;
      var block := CStr();
      r := new SmallString.FromBytes(block, pos, taken);
    }
  }

  /** operator+ appends to a fresh copy, so a string may be added to itself. */
  method Concat(a: SmallString, b: SmallString) returns (r: SmallString)
    requires a.Valid() && b.Valid() && |a.Contents()| + |b.Contents()| + 1 < 0x1_0000_0000
    ensures r.Valid() && fresh(r.Footprint()) && r.Contents() == a.Contents() + b.Contents()
  {
    r := new SmallString.Copied(a);
    r.Append(b);
  }
}
