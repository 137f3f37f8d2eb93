/** WebSocket masking (section 5.3 of RFC 6455): the word-at-a-time and streaming forms do what masking
    byte by byte does, on machines of either word size and either byte order. */
module FrameMask {

  import opened Bytes

  /** sizeof(size_t) and the byte order. */
  datatype Machine = Machine(wordSize: nat, order: ByteOrder)

  predicate Supported(m: Machine) { m.wordSize == 4 || m.wordSize == 8 }

  /** length / sizeof(size_t), i * sizeof(size_t) and i % sizeof(size_t). */
  function Words(m: Machine, length: nat): nat { if m.wordSize == 8 then length / 8 else length / 4 }
  function Start(m: Machine, i: nat): nat { if m.wordSize == 8 then 8 * i else 4 * i }
  function InWord(m: Machine, i: nat): (r: nat)
    ensures Supported(m) ==> r < m.wordSize
  {
    if m.wordSize == 8 then i % 8 else i % 4
  }

  // ---- words: the bytes of a size_t, least significant first ----
  // Every shift in this file is by whole bytes and every other operation is bitwise, so a word's value
  // is its bytes in order of significance.

  type Word = seq<Byte>

  function Xor(w: Word, v: Word): Word
    requires |w| == |v|
  {
    seq(|w|, i requires 0 <= i < |w| => w[i] ^ v[i])
  }

  function Or(w: Word, v: Word): Word
    requires |w| == |v|
  {
    seq(|w|, i requires 0 <= i < |w| => w[i] | v[i])
  }

  /** w << 8 * n */
  function ShiftLeft(w: Word, n: nat): Word {
    seq(|w|, i requires 0 <= i < |w| => if i < n then 0 else w[i - n])
  }

  /** w >> 8 * n */
  function ShiftRight(w: Word, n: nat): Word {
    seq(|w|, i requires 0 <= i < |w| => if i + n < |w| then w[i + n] else 0)
  }

  function Reversed(w: seq<Byte>): seq<Byte> {
    seq(|w|, i requires 0 <= i < |w| => w[|w| - 1 - i])
  }

  /** How a word lies in memory, and the word that lies there: the same permutation of bytes both ways. */
  function InMemory(m: Machine, w: seq<Byte>): (bytes: seq<Byte>)
    ensures |bytes| == |w|
  {
    if m.order.LittleEndian? then w else Reversed(w)
  }

  lemma MemoryRoundTrip(m: Machine, w: seq<Byte>)
    ensures InMemory(m, InMemory(m, w)) == w
  {
  }

  /** Xor of words is xor of the bytes in memory. */
  lemma XorInMemory(m: Machine, w: Word, v: Word)
    requires |w| == |v|
    ensures InMemory(m, Xor(w, v)) == Xor(InMemory(m, w), InMemory(m, v))
  {
    var whole, parts := InMemory(m, Xor(w, v)), Xor(InMemory(m, w), InMemory(m, v));
    forall i | 0 <= i < |w| ensures whole[i] == parts[i] {}
  }

  // ---- keys ----

  /** The key's integer value as a size_t, with one copy of it in the upper half of an eight-byte word. */
  function PrepareMaskingKey(m: Machine, key: Key): (prepared: Word)
    requires Supported(m)
    ensures |prepared| == m.wordSize
  {
    var value := InMemory(m, key);
    var lowBits := value + seq(m.wordSize - 4, _ => 0);
    if m.wordSize == 8 then Or(ShiftLeft(lowBits, 4), lowBits) else lowBits
  }

  function CircshiftPreparedKey(m: Machine, prepared: Word, offset: nat): (shifted: Word)
    requires |prepared| == m.wordSize && offset < m.wordSize
    ensures |shifted| == m.wordSize
  {
    if offset == 0 then prepared
    else if m.order.LittleEndian? then Or(ShiftRight(prepared, offset), ShiftLeft(prepared, m.wordSize - offset))
    else Or(ShiftLeft(prepared, offset), ShiftRight(prepared, m.wordSize - offset))
  }

  /** In memory the circular shift rotates the bytes, whatever the byte order. */
  lemma CircshiftRotates(m: Machine, prepared: Word, offset: nat, i: nat)
    requires |prepared| == m.wordSize && offset < m.wordSize && i < m.wordSize
    ensures InMemory(m, CircshiftPreparedKey(m, prepared, offset))[i]
         == InMemory(m, prepared)[if i + offset < m.wordSize then i + offset else i + offset - m.wordSize]
  {
    var w := m.wordSize;
    if offset != 0 {
      if m.order.LittleEndian? {
        OrZero(ShiftRight(prepared, offset), ShiftLeft(prepared, w - offset), i);
      } else {
        OrZero(ShiftLeft(prepared, offset), ShiftRight(prepared, w - offset), w - 1 - i);
      }
    }
  }

  lemma OrZero(w: Word, v: Word, i: nat)
    requires |w| == |v| && i < |w|
    ensures v[i] == 0 ==> Or(w, v)[i] == w[i]
    ensures w[i] == 0 ==> Or(w, v)[i] == v[i]
  {
    var a, b := w[i], v[i];
    assert b == 0 ==> a | b == a;
    assert a == 0 ==> a | b == b;
  }

  /** The key byte for byte n of a message. */
  function KeyAt(key: Key, n: nat): Byte { key[n % 4] }

  lemma KeyAtPeriod(key: Key, n: nat, n': nat)
    requires n % 4 == n' % 4
    ensures KeyAt(key, n) == KeyAt(key, n')
  {
  }

  /** A prepared key that stands `used` bytes into the message: four-byte periodic, and rotated by what was consumed. */
  ghost predicate Holds(m: Machine, prepared: Word, key: Key, used: nat) {
    && |prepared| == m.wordSize
    && forall i :: 0 <= i < m.wordSize ==> InMemory(m, prepared)[i] == KeyAt(key, used + i)
  }

  lemma PreparedIs(m: Machine, key: Key, i: nat)
    requires Supported(m) && i < m.wordSize
    ensures PrepareMaskingKey(m, key)[i] == InMemory(m, key)[if i < 4 then i else i - 4]
  {
    if m.wordSize == 8 {
      var low := InMemory(m, key) + seq(4, _ => 0);
      OrZero(ShiftLeft(low, 4), low, i);
    }
  }

  lemma PreparedHolds(m: Machine, key: Key)
    requires Supported(m)
    ensures Holds(m, PrepareMaskingKey(m, key), key, 0)
  {
    forall i | 0 <= i < m.wordSize ensures InMemory(m, PrepareMaskingKey(m, key))[i] == KeyAt(key, 0 + i) {
      PreparedIs(m, key, if m.order.LittleEndian? then i else m.wordSize - 1 - i);
    }
  }

  lemma Periods4(n: nat, k: nat)
    ensures (n + 4 * k) % 4 == n % 4
  {
  }

  /** A whole word further on, the key is where it was. */
  lemma KeyAtWord(m: Machine, key: Key, n: nat)
    requires Supported(m)
    ensures KeyAt(key, n + m.wordSize) == KeyAt(key, n)
  {
    if m.wordSize == 8 { Periods4(n, 2); } else { Periods4(n, 1); }
  }

  lemma CircshiftHolds(m: Machine, prepared: Word, key: Key, used: nat, offset: nat)
    requires Supported(m) && Holds(m, prepared, key, used) && offset < m.wordSize
    ensures Holds(m, CircshiftPreparedKey(m, prepared, offset), key, used + offset)
  {
    forall i | 0 <= i < m.wordSize
      ensures InMemory(m, CircshiftPreparedKey(m, prepared, offset))[i] == KeyAt(key, used + offset + i)
    {
      CircshiftRotates(m, prepared, offset, i);
      if i + offset >= m.wordSize { KeyAtWord(m, key, used + (i + offset - m.wordSize)); }
    }
  }

  lemma KeyAtShift(key: Key, n: nat, n': nat, i: nat)
    requires n % 4 == n' % 4
    ensures KeyAt(key, n + i) == KeyAt(key, n' + i)
  {
    Periods4(n % 4 + i, n / 4);
    Periods4(n' % 4 + i, n' / 4);
  }

  lemma HoldsPeriod(m: Machine, prepared: Word, key: Key, used: nat, used': nat)
    requires Holds(m, prepared, key, used) && used % 4 == used' % 4
    ensures Holds(m, prepared, key, used')
  {
    forall i | 0 <= i < m.wordSize ensures InMemory(m, prepared)[i] == KeyAt(key, used' + i) {
      KeyAtShift(key, used, used', i);
    }
  }

  // ---- masking as section 5.3 defines it ----

  /** Byte i of the message is xored with byte (i mod 4) of the key; `used` bytes came before this piece. */
  function Mask(data: seq<Byte>, key: Key, used: nat): (masked: seq<Byte>)
    ensures |masked| == |data|
    ensures forall i :: 0 <= i < |data| ==> masked[i] == data[i] ^ KeyAt(key, used + i)
  {
    seq(|data|, i requires 0 <= i < |data| => data[i] ^ KeyAt(key, used + i))
  }

  /** Masking is its own inverse. */
  lemma MaskTwice(data: seq<Byte>, key: Key, used: nat)
    ensures Mask(Mask(data, key, used), key, used) == data
  {
    forall i | 0 <= i < |data| ensures Mask(Mask(data, key, used), key, used)[i] == data[i] {
      var d, k := data[i], KeyAt(key, used + i);
      assert (d ^ k) ^ k == d;
    }
  }

  lemma MaskConcat(data: seq<Byte>, more: seq<Byte>, key: Key, used: nat)
    ensures Mask(data + more, key, used) == Mask(data, key, used) + Mask(more, key, used + |data|)
  {
    var all, parts := Mask(data + more, key, used), Mask(data, key, used) + Mask(more, key, used + |data|);
    forall i | |data| <= i < |data + more| ensures all[i] == parts[i] {
      assert (used + |data|) + (i - |data|) == used + i;
    }
  }

  /** What xoring with the bytes of a word over and over gives. */
  function Circ(m: Machine, data: seq<Byte>, prepared: Word): (masked: seq<Byte>)
    requires Supported(m) && |prepared| == m.wordSize
    ensures |masked| == |data|
    ensures forall i :: 0 <= i < |data| ==> masked[i] == data[i] ^ InMemory(m, prepared)[InWord(m, i)]
  {
    seq(|data|, i requires 0 <= i < |data| => data[i] ^ InMemory(m, prepared)[InWord(m, i)])
  }

  lemma InWordPeriod(m: Machine, used: nat, i: nat)
    ensures (used + InWord(m, i)) % 4 == (used + i) % 4
  {
    if m.wordSize == 8 { Periods4(used + i % 8, 2 * (i / 8)); } else { Periods4(used + i % 4, i / 4); }
  }

  lemma PreparedAt(m: Machine, prepared: Word, key: Key, used: nat, i: nat)
    requires Supported(m) && Holds(m, prepared, key, used)
    ensures InMemory(m, prepared)[InWord(m, i)] == KeyAt(key, used + i)
  {
    InWordPeriod(m, used, i);
    KeyAtPeriod(key, used + InWord(m, i), used + i);
  }

  lemma CircIsMask(m: Machine, data: seq<Byte>, prepared: Word, key: Key, used: nat)
    requires Supported(m) && Holds(m, prepared, key, used)
    ensures Circ(m, data, prepared) == Mask(data, key, used)
  {
    forall i | 0 <= i < |data| ensures Circ(m, data, prepared)[i] == Mask(data, key, used)[i] {
      PreparedAt(m, prepared, key, used, i);
    }
  }

  // ---- the buffer forms ----

  /** Everything from `length` on is left alone. */
  method ByteMask(input: array<Byte>, output: array<Byte>, length: nat, key: Key, keyOffset: nat)
    requires length <= input.Length && length <= output.Length
    modifies output
    ensures output[..length] == Mask(old(input[..length]), key, keyOffset)
    ensures output[length..] == old(output[length..])
  {
    var keyIndex := keyOffset % 4;
    var i := 0;
    while i != length
      invariant i <= length && keyIndex == (keyOffset + i) % 4
      invariant forall j :: 0 <= j < i ==> output[j] == old(input[j]) ^ KeyAt(key, keyOffset + j)
      invariant forall j :: i <= j < output.Length ==> output[j] == old(output[j])
      invariant forall j :: i <= j < input.Length ==> input[j] == old(input[j])
    {
      output[i] := input[i] ^ key[keyIndex];
      keyIndex := (keyIndex + 1) % 4;
      i := i + 1;
    }
  }

  /** The word at a buffer position, and storing one there. */
  function LoadWord(m: Machine, buffer: array<Byte>, at: nat): Word
    requires at + m.wordSize <= buffer.Length
    reads buffer
  {
    InMemory(m, buffer[at..at + m.wordSize])
  }

  method StoreWord(m: Machine, buffer: array<Byte>, at: nat, w: Word)
    requires at + m.wordSize <= buffer.Length && |w| == m.wordSize
    modifies buffer
    ensures buffer[..] == old(buffer[..at]) + InMemory(m, w) + old(buffer[at + m.wordSize..])
  {
    var bytes := InMemory(m, w);
    for i := 0 to m.wordSize
      invariant forall j :: 0 <= j < i ==> buffer[at + j] == bytes[j]
      invariant forall j :: 0 <= j < buffer.Length && !(at <= j < at + i) ==> buffer[j] == old(buffer[j])
    {
      buffer[at + i] := bytes[i];
    }
  }

  /** One whole word: the bytes at `at` are xored with the prepared key's bytes in memory. */
  method MaskWord(m: Machine, input: array<Byte>, output: array<Byte>, at: nat, prepared: Word)
    requires at + m.wordSize <= input.Length && at + m.wordSize <= output.Length && |prepared| == m.wordSize
    modifies output
    ensures output[..] == old(output[..at]) + Xor(old(input[at..at + m.wordSize]), InMemory(m, prepared))
                          + old(output[at + m.wordSize..])
  {
    var w := LoadWord(m, input, at);
    ghost var here := input[at..at + m.wordSize];
    XorInMemory(m, w, prepared);
    MemoryRoundTrip(m, here);
    StoreWord(m, output, at, Xor(w, prepared));
  }

  lemma Mod4(i: nat, d: nat)
    requires d < 4
    ensures (4 * i + d) % 4 == d
  {
  }

  lemma Mod8(i: nat, d: nat)
    requires d < 8
    ensures (8 * i + d) % 8 == d
  {
  }

  lemma InWordAt(m: Machine, i: nat, j: nat)
    requires Start(m, i) <= j < Start(m, i + 1)
    ensures InWord(m, j) == j - Start(m, i)
  {
    if m.wordSize == 8 { Mod8(i, j - 8 * i); } else { Mod4(i, j - 4 * i); }
  }

  /** The i-th word of a message is masked with the whole key word. */
  lemma CircWord(m: Machine, data: seq<Byte>, prepared: Word, i: nat)
    requires Supported(m) && |prepared| == m.wordSize && Start(m, i) + m.wordSize <= |data|
    ensures Start(m, i + 1) == Start(m, i) + m.wordSize
    ensures Circ(m, data[..Start(m, i + 1)], prepared)
         == Circ(m, data[..Start(m, i)], prepared) + Xor(data[Start(m, i)..Start(m, i + 1)], InMemory(m, prepared))
  {
    var at, end := Start(m, i), Start(m, i + 1);
    var all := Circ(m, data[..end], prepared);
    var parts := Circ(m, data[..at], prepared) + Xor(data[at..end], InMemory(m, prepared));
    forall j | 0 <= j < end ensures all[j] == parts[j] {
      if at <= j { InWordAt(m, i, j); }
    }
  }

  /** A tail shorter than a word is masked with the first bytes of the key word. */
  lemma CircTail(m: Machine, data: seq<Byte>, prepared: Word)
    requires Supported(m) && |prepared| == m.wordSize
    ensures var start := Start(m, Words(m, |data|));
      && start <= |data| < start + m.wordSize
      && Circ(m, data, prepared)
         == Circ(m, data[..start], prepared) + Xor(data[start..], InMemory(m, prepared)[..|data| - start])
  {
    WholeWords(m, |data|);
    var start := Start(m, Words(m, |data|));
    var parts := Circ(m, data[..start], prepared) + Xor(data[start..], InMemory(m, prepared)[..|data| - start]);
    forall j | 0 <= j < |data| ensures Circ(m, data, prepared)[j] == parts[j] {
      if start <= j { InWordAt(m, Words(m, |data|), j); }
    }
  }

  lemma WholeWords(m: Machine, length: nat)
    ensures Start(m, Words(m, length)) + InWord(m, length) == length
  {
  }

  /** The loop over whole words that word_mask_exact and word_mask_circ share. */
  method MaskWords(m: Machine, input: array<Byte>, output: array<Byte>, n: nat, prepared: Word)
    requires Supported(m) && |prepared| == m.wordSize
    requires Start(m, n) <= input.Length && Start(m, n) <= output.Length
    modifies output
    ensures output[..Start(m, n)] == Circ(m, old(input[..Start(m, n)]), prepared)
    ensures output[Start(m, n)..] == old(output[Start(m, n)..])
  {
    ghost var data := input[..];
    for i := 0 to n
      invariant output[..Start(m, i)] == Circ(m, data[..Start(m, i)], prepared)
      invariant output[Start(m, i)..] == old(output[Start(m, i)..])
      invariant input[Start(m, i)..] == data[Start(m, i)..]
    {
      ghost var at, end := Start(m, i), Start(m, i + 1);
      CircWord(m, data, prepared, i);
      assert input[at..end] == input[at..][..end - at] == data[at..end];
      ghost var tail := output[at..];
      assert output[end..] == tail[end - at..];
      ghost var inputTail := input[at..];
      MaskWord(m, input, output, Start(m, i), prepared);
      assert output[..end] == Circ(m, data[..end], prepared);
      assert output[end..] == tail[end - at..] == old(output[end..]);
      if input != output { assert input[end..] == data[end..]; }
      else { assert input[end..] == inputTail[end - at..] == data[end..]; }
    }
    assert old(input[..Start(m, n)]) == data[..Start(m, n)];
  }

  /** The rest of a message, byte by byte, from `start` on with the key bytes given. */
  method MaskTail(input: array<Byte>, output: array<Byte>, start: nat, length: nat, keyBytes: seq<Byte>)
    requires start <= length <= input.Length && length <= output.Length && |keyBytes| == length - start
    modifies output
    ensures output[..start] == old(output[..start]) && output[length..] == old(output[length..])
    ensures output[start..length] == Xor(old(input[start..length]), keyBytes)
  {
    for i := start to length
      invariant forall j :: start <= j < i ==> output[j] == old(input[j]) ^ keyBytes[j - start]
      invariant forall j :: 0 <= j < output.Length && !(start <= j < i) ==> output[j] == old(output[j])
      invariant forall j :: i <= j < input.Length ==> input[j] == old(input[j])
    {
      output[i] := input[i] ^ keyBytes[i - start];
    }
  }

  /** Key bytes for positions from to to of a message. */
  function KeyBytes(key: Key, from: nat, to: nat): (bytes: seq<Byte>)
    requires from <= to
    ensures |bytes| == to - from
  {
    seq(to - from, i requires 0 <= i < to - from => KeyAt(key, from + i))
  }

  lemma MaskTailIs(data: seq<Byte>, key: Key, start: nat)
    requires start <= |data|
    ensures Mask(data, key, 0) == Mask(data[..start], key, 0) + Xor(data[start..], KeyBytes(key, start, |data|))
  {
    var parts := Mask(data[..start], key, 0) + Xor(data[start..], KeyBytes(key, start, |data|));
    forall j | 0 <= j < |data| ensures Mask(data, key, 0)[j] == parts[j] {
      if start <= j { assert KeyBytes(key, start, |data|)[j - start] == KeyAt(key, 0 + j); }
    }
  }

  /** Whole words with the prepared key, then the bytes left over with the key bytes given. */
  method MaskWordsAndTail(m: Machine, input: array<Byte>, output: array<Byte>, start: nat, length: nat, prepared: Word,
                          keyBytes: seq<Byte>)
    requires Supported(m) && |prepared| == m.wordSize && start == Start(m, Words(m, length))
    requires start <= length <= input.Length && length <= output.Length && |keyBytes| == length - start
    modifies output
    ensures output[..length] == Circ(m, old(input[..start]), prepared) + Xor(old(input[start..length]), keyBytes)
    ensures output[length..] == old(output[length..])
  {
    ghost var unread, unwritten := input[start..], output[start..];
    assert unread[..length - start] == input[start..length] && unwritten[length - start..] == output[length..];
    MaskWords(m, input, output, Words(m, length), prepared);
    if input == output { assert input[start..] == unread; }
    assert input[start..length] == unread[..length - start];
    assert output[length..] == output[start..][length - start..];
    MaskTail(input, output, start, length, keyBytes);
    assert output[..length] == output[..start] + output[start..length];
  }

  method WordMaskExact(m: Machine, input: array<Byte>, output: array<Byte>, length: nat, key: Key)
    requires Supported(m) && length <= input.Length && length <= output.Length
    modifies output
    ensures output[..length] == Mask(old(input[..length]), key, 0)
    ensures output[length..] == old(output[length..])
  {
    ghost var data := input[..length];
    var prepared := PrepareMaskingKey(m, key);
    var start := Start(m, Words(m, length));
    WholeWords(m, length);
    PreparedHolds(m, key);
    CircIsMask(m, data[..start], prepared, key, 0);
    MaskTailIs(data, key, start);
    assert input[..start] == data[..start] && input[start..length] == data[start..];
    MaskWordsAndTail(m, input, output, start, length, prepared, KeyBytes(key, start, length));
  }

  /** The buffers need only hold `length` bytes, and nothing after them is written. */
  method WordMaskCirc(m: Machine, input: array<Byte>, output: array<Byte>, length: nat, prepared: Word)
    returns (next: Word)
    requires Supported(m) && |prepared| == m.wordSize && length <= input.Length && length <= output.Length
    modifies output
    ensures output[..length] == Circ(m, old(input[..length]), prepared)
    ensures output[length..] == old(output[length..])
    ensures next == CircshiftPreparedKey(m, prepared, InWord(m, length))
  {
    ghost var data := input[..length];
    var n := Words(m, length);
    var l := length - Start(m, n);
    WholeWords(m, length);
    CircTail(m, data, prepared);
    var start := length - l;
    assert input[..start] == data[..start] && input[start..length] == data[start..];
    MaskWordsAndTail(m, input, output, start, length, prepared, InMemory(m, prepared)[..l]);
    next := CircshiftPreparedKey(m, prepared, l);
  }

  /** The first four bytes in memory of the prepared key cut down to 32 bits. */
  function CutKey(m: Machine, prepared: Word): (key: Key)
    requires Supported(m) && |prepared| == m.wordSize
    ensures m.order.LittleEndian? ==> key == [prepared[0], prepared[1], prepared[2], prepared[3]]
    ensures m.order.BigEndian? ==> key == [prepared[3], prepared[2], prepared[1], prepared[0]]
  {
    InMemory(m, prepared[..4])
  }

  method ByteMaskCirc(m: Machine, input: array<Byte>, output: array<Byte>, length: nat, prepared: Word)
    returns (next: Word)
    requires Supported(m) && |prepared| == m.wordSize && length <= input.Length && length <= output.Length
    modifies output
    ensures output[..length] == Mask(old(input[..length]), CutKey(m, prepared), 0)
    ensures output[length..] == old(output[length..])
    ensures next == CircshiftPreparedKey(m, prepared, length % 4)
  {
    var key := CutKey(m, prepared);
    for i := 0 to length
      invariant forall j :: 0 <= j < i ==> output[j] == old(input[j]) ^ KeyAt(key, 0 + j)
      invariant forall j :: i <= j < output.Length ==> output[j] == old(output[j])
      invariant forall j :: i <= j < input.Length ==> input[j] == old(input[j])
    {
      output[i] := input[i] ^ key[i % 4];
    }
    next := CircshiftPreparedKey(m, prepared, length % 4);
  }

  // ---- streaming ----

  /** A message in several buffers. */
  function Joined(buffers: seq<seq<Byte>>): seq<Byte> {
    if buffers == [] then [] else buffers[0] + Joined(buffers[1..])
  }

  lemma {:induction false} JoinedLast(buffers: seq<seq<Byte>>, last: seq<Byte>)
    ensures Joined(buffers + [last]) == Joined(buffers) + last
  {
    if buffers == [] {
      assert [last][1..] == [];
    } else {
      assert (buffers + [last])[1..] == buffers[1..] + [last];
      JoinedLast(buffers[1..], last);
    }
  }

  lemma CutKeyHolds(m: Machine, prepared: Word, key: Key, used: nat, i: nat)
    requires Supported(m) && Holds(m, prepared, key, used) && i < 4
    ensures CutKey(m, prepared)[i] == KeyAt(key, used + i)
  {
    var mem := InMemory(m, prepared);
    if m.order.LittleEndian? {
      assert CutKey(m, prepared)[i] == mem[i];
    } else {
      assert CutKey(m, prepared)[i] == prepared[3 - i] == mem[m.wordSize - 4 + i];
      KeyAtPeriod(key, used + (m.wordSize - 4 + i), used + i);
    }
  }

  lemma CutKeyAt(m: Machine, prepared: Word, key: Key, used: nat, i: nat)
    requires Supported(m) && Holds(m, prepared, key, used)
    ensures KeyAt(CutKey(m, prepared), i) == KeyAt(key, used + i)
  {
    CutKeyHolds(m, prepared, key, used, i % 4);
    Periods4(used + i % 4, i / 4);
  }

  lemma CutMaskIsMask(m: Machine, data: seq<Byte>, prepared: Word, key: Key, used: nat)
    requires Supported(m) && Holds(m, prepared, key, used)
    ensures Mask(data, CutKey(m, prepared), 0) == Mask(data, key, used)
  {
    var cut := CutKey(m, prepared);
    forall i | 0 <= i < |data| ensures Mask(data, cut, 0)[i] == Mask(data, key, used)[i] {
      CutKeyAt(m, prepared, key, used, 0 + i);
    }
  }

  lemma OffsetPeriod(m: Machine, used: nat, length: nat, offset: nat)
    requires Supported(m) && (offset == InWord(m, length) || offset == length % 4)
    ensures offset < m.wordSize && (used + offset) % 4 == (used + length) % 4
  {
    if offset == InWord(m, length) { InWordPeriod(m, used, length); } else { Periods4(used + length % 4, length / 4); }
  }

  lemma NextHolds(m: Machine, prepared: Word, key: Key, used: nat, length: nat, offset: nat)
    requires Supported(m) && Holds(m, prepared, key, used)
    requires offset == InWord(m, length) || offset == length % 4
    ensures offset < m.wordSize && Holds(m, CircshiftPreparedKey(m, prepared, offset), key, used + length)
  {
    OffsetPeriod(m, used, length, offset);
    CircshiftHolds(m, prepared, key, used, offset);
    HoldsPeriod(m, CircshiftPreparedKey(m, prepared, offset), key, used + offset, used + length);
  }

  /** For a prepared key, both streaming forms give the bytes that section 5.3 asks for at this point of the
      message, and return the same key, prepared for the point after them. */
  lemma BothFormsAgree(m: Machine, data: seq<Byte>, prepared: Word, key: Key, used: nat)
    requires Supported(m) && Holds(m, prepared, key, used)
    ensures Circ(m, data, prepared) == Mask(data, CutKey(m, prepared), 0) == Mask(data, key, used)
    ensures var next := CircshiftPreparedKey(m, prepared, InWord(m, |data|));
            next == CircshiftPreparedKey(m, prepared, |data| % 4) && Holds(m, next, key, used + |data|)
  {
    CircIsMask(m, data, prepared, key, used);
    CutMaskIsMask(m, data, prepared, key, used);
    NextHolds(m, prepared, key, used, |data|, InWord(m, |data|));
    NextHolds(m, prepared, key, used, |data|, |data| % 4);
    SameWord(m, CircshiftPreparedKey(m, prepared, InWord(m, |data|)), CircshiftPreparedKey(m, prepared, |data| % 4),
             key, used + |data|);
  }

  lemma SameWord(m: Machine, p: Word, q: Word, key: Key, used: nat)
    requires Holds(m, p, key, used) && Holds(m, q, key, used)
    ensures p == q
  {
    assert InMemory(m, p) == InMemory(m, q);
    MemoryRoundTrip(m, p);
    MemoryRoundTrip(m, q);
  }

  /** One chunk masked by words or by bytes, and the key that call returns. */
  function MaskedChunk(m: Machine, data: seq<Byte>, byWords: bool, prepared: Word): seq<Byte>
    requires Supported(m) && |prepared| == m.wordSize
  {
    if byWords then Circ(m, data, prepared) else Mask(data, CutKey(m, prepared), 0)
  }

  function NextKey(m: Machine, length: nat, byWords: bool, prepared: Word): (next: Word)
    requires Supported(m) && |prepared| == m.wordSize
    ensures |next| == m.wordSize
  {
    CircshiftPreparedKey(m, prepared, if byWords then InWord(m, length) else length % 4)
  }

  /** Masking chunk after chunk, threading the returned key. */
  function Streamed(m: Machine, chunks: seq<seq<Byte>>, byWords: seq<bool>, prepared: Word): seq<Byte>
    requires Supported(m) && |prepared| == m.wordSize && |byWords| == |chunks|
  {
    if chunks == [] then []
    else MaskedChunk(m, chunks[0], byWords[0], prepared)
         + Streamed(m, chunks[1..], byWords[1..], NextKey(m, |chunks[0]|, byWords[0], prepared))
  }

  lemma OneChunk(m: Machine, data: seq<Byte>, byWords: bool, prepared: Word, key: Key, used: nat)
    requires Supported(m) && Holds(m, prepared, key, used)
    ensures MaskedChunk(m, data, byWords, prepared) == Mask(data, key, used)
    ensures Holds(m, NextKey(m, |data|, byWords, prepared), key, used + |data|)
  {
    BothFormsAgree(m, data, prepared, key, used);
  }

  lemma {:induction false} StreamedFrom(m: Machine, chunks: seq<seq<Byte>>, byWords: seq<bool>, prepared: Word, key: Key, used: nat)
    requires Supported(m) && Holds(m, prepared, key, used) && |byWords| == |chunks|
    ensures Streamed(m, chunks, byWords, prepared) == Mask(Joined(chunks), key, used)
    decreases |chunks|
  {
    if chunks != [] {
      var data := chunks[0];
      OneChunk(m, data, byWords[0], prepared, key, used);
      StreamedFrom(m, chunks[1..], byWords[1..], NextKey(m, |data|, byWords[0], prepared), key, used + |data|);
      MaskConcat(data, Joined(chunks[1..]), key, used);
    }
  }

  /** However a message is cut into chunks, and whichever form masks each, the result is the message masked at once. */
  lemma StreamingMask(m: Machine, chunks: seq<seq<Byte>>, byWords: seq<bool>, key: Key)
    requires Supported(m) && |byWords| == |chunks|
    ensures Streamed(m, chunks, byWords, PrepareMaskingKey(m, key)) == Mask(Joined(chunks), key, 0)
  {
    PreparedHolds(m, key);
    StreamedFrom(m, chunks, byWords, PrepareMaskingKey(m, key), key, 0);
  }

  // ---- streaming over buffers ----

  ghost function Contents(buffers: seq<array<Byte>>): (all: seq<seq<Byte>>)
    reads buffers
    ensures |all| == |buffers|
  {
    seq(|buffers|, i requires 0 <= i < |buffers| reads buffers => buffers[i][..])
  }

  /** Masks one buffer in place with a key prepared for this point of the message, by words or by bytes. */
  method MaskChunk(m: Machine, buffer: array<Byte>, byWords: bool, prepared: Word, ghost key: Key, ghost used: nat)
    returns (next: Word)
    requires Supported(m) && Holds(m, prepared, key, used)
    modifies buffer
    ensures buffer[..] == Mask(old(buffer[..]), key, used) && Holds(m, next, key, used + buffer.Length)
  {
    ghost var data := buffer[..];
    assert buffer[..buffer.Length] == data;
    BothFormsAgree(m, data, prepared, key, used);
    if byWords {
      next := WordMaskCirc(m, buffer, buffer, buffer.Length, prepared);
    } else {
      next := ByteMaskCirc(m, buffer, buffer, buffer.Length, prepared);
    }
    assert buffer[..buffer.Length] == buffer[..];
  }

  /** How much of the message its first i buffers hold. */
  ghost function Used(before: seq<seq<Byte>>, i: nat): nat
    requires i <= |before|
  {
    |Joined(before[..i])|
  }

  /** The buffers `done` hold the message that the first |done| of `before` held, masked. */
  ghost predicate MaskedSoFar(before: seq<seq<Byte>>, done: seq<seq<Byte>>, key: Key) {
    |done| <= |before| && Joined(done) == Mask(Joined(before[..|done|]), key, 0)
  }

  lemma OneMore(before: seq<seq<Byte>>, done: seq<seq<Byte>>, last: seq<Byte>, key: Key)
    requires |done| < |before| && MaskedSoFar(before, done, key)
    requires last == Mask(before[|done|], key, Used(before, |done|))
    ensures MaskedSoFar(before, done + [last], key)
    ensures Used(before, |done| + 1) == Used(before, |done|) + |before[|done|]|
  {
    var i := |done|;
    assert before[..i + 1] == before[..i] + [before[i]];
    JoinedLast(done, last);
    JoinedLast(before[..i], before[i]);
    MaskConcat(Joined(before[..i]), before[i], key, 0);
  }

  predicate Separate(buffers: seq<array<Byte>>) {
    forall i, j :: 0 <= i < |buffers| && 0 <= j < |buffers| && i != j ==> buffers[i] != buffers[j]
  }

  /** The first |done| buffers hold `done`, the others what they held before. */
  ghost predicate HoldDone(buffers: seq<array<Byte>>, before: seq<seq<Byte>>, done: seq<seq<Byte>>)
    requires |done| <= |buffers| == |before|
    reads buffers
  {
    forall j :: 0 <= j < |buffers| ==> buffers[j][..] == if j < |done| then done[j] else before[j]
  }

  method MaskInPlace(m: Machine, buffers: seq<array<Byte>>, i: nat, byWords: bool, prepared: Word,
                     ghost before: seq<seq<Byte>>, ghost done: seq<seq<Byte>>, ghost key: Key, ghost used: nat,
                     ghost masked: seq<Byte>, ghost done': seq<seq<Byte>>, ghost used': nat)
    returns (next: Word)
    requires Supported(m) && Separate(buffers) && i == |done| < |buffers| == |before|
    requires HoldDone(buffers, before, done) && masked == Mask(before[i], key, used)
    requires Holds(m, prepared, key, used) && done' == done + [masked] && used' == used + |before[i]|
    modifies buffers[i]
    ensures HoldDone(buffers, before, done') && Holds(m, next, key, used')
  {
    next := MaskChunk(m, buffers[i], byWords, prepared, key, used);
  }

  /** The next buffer of a message. */
  method MaskNext(m: Machine, buffers: seq<array<Byte>>, i: nat, byWords: bool, prepared: Word,
                  ghost before: seq<seq<Byte>>, ghost done: seq<seq<Byte>>, ghost key: Key)
    returns (next: Word, ghost done': seq<seq<Byte>>)
    requires Supported(m) && Separate(buffers) && i == |done| < |buffers| == |before|
    requires HoldDone(buffers, before, done) && MaskedSoFar(before, done, key)
    requires Holds(m, prepared, key, Used(before, i))
    modifies buffers[i]
    ensures |done'| == i + 1 && HoldDone(buffers, before, done') && MaskedSoFar(before, done', key)
    ensures Holds(m, next, key, Used(before, i + 1))
  {
    ghost var used := Used(before, i);
    ghost var masked := Mask(before[i], key, used);
    done' := done + [masked];
    OneMore(before, done, masked, key);
    next := MaskInPlace(m, buffers, i, byWords, prepared, before, done, key, used, masked, done', Used(before, i + 1));
  }

  /** Masks a message that arrives in several buffers, each in place and by either form, threading the key that the
      last call returned: what is left in the buffers is the whole message masked at once. */
  method MaskStream(m: Machine, buffers: seq<array<Byte>>, byWords: seq<bool>, key: Key)
    requires Supported(m) && |byWords| == |buffers| && Separate(buffers)
    modifies buffers
    ensures Joined(Contents(buffers)) == Mask(Joined(old(Contents(buffers))), key, 0)
  {
    ghost var before := Contents(buffers);
    var prepared := PrepareMaskingKey(m, key);
    PreparedHolds(m, key);
    ghost var done: seq<seq<Byte>> := [];
    for i := 0 to |buffers|
      invariant |done| == i && HoldDone(buffers, before, done)
      invariant Holds(m, prepared, key, Used(before, i)) && MaskedSoFar(before, done, key)
    {
      prepared, done := MaskNext(m, buffers, i, byWords[i], prepared, before, done, key);
    }
    assert before[..|buffers|] == before && Contents(buffers) == done;
  }
}
