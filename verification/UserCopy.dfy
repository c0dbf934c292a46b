/**
 Copies between user address spaces and host memory (kernel/user_runtime.cpp). The kernel walks mapping chunks;
 the specification walks single guest bytes. Host memory is one array indexed by host address.
 */
module UserCopy {
  import opened Words
  import opened Status
  import opened AddressSpaces

  /** Every backed guest byte has its host byte inside a host memory of n bytes. */
  ghost predicate InMemory(ms: seq<Mapping>, n: nat) {
    forall a :: Backed(ms, a) ==> 0 <= HostOf(ms, a) < n
  }

  /** A table the kernel can copy through: well-formed, and hosted by a memory of n bytes. */
  ghost predicate Hosted(ms: seq<Mapping>, n: nat) {
    WellFormed(ms) && InMemory(ms, n)
  }

  // ----- Byte-at-a-time guest view -----

  /** Outcome of a write: the new host memory, and whether no byte was unbacked. */
  datatype WriteResult = WriteResult(memory: seq<u8>, ok: bool)

  ghost function WriteUser(memory: seq<u8>, ms: seq<Mapping>, a: int, data: seq<u8>): (r: WriteResult)
    requires InMemory(ms, |memory|)
    ensures |r.memory| == |memory|
    decreases |data|
  {
    if data == [] then WriteResult(memory, true)
    else if !Backed(ms, a) then WriteResult(memory, false)
    else
      WriteUser(memory[HostOf(ms, a) := data[0]], ms, a + 1, data[1..])
  }

  ghost function CopyUser(memory: seq<u8>, source: seq<Mapping>, sa: int, destination: seq<Mapping>, da: int, n: nat)
    : (r: WriteResult)
    requires InMemory(source, |memory|) && InMemory(destination, |memory|)
    ensures |r.memory| == |memory|
    decreases n
  {
    if n == 0 then WriteResult(memory, true)
    else if !Backed(source, sa) || !Backed(destination, da) then WriteResult(memory, false)
    else
      CopyUser(memory[HostOf(destination, da) := memory[HostOf(source, sa)]], source, sa + 1, destination, da + 1, n - 1)
  }

  datatype StringResult = StringResult(bytes: seq<u8>, status: i32)

  /** The NUL-terminated guest string at a, read into a buffer of `capacity` bytes of which `prefix` is already
      read. Character addresses wrap at the end of the 64-bit space, as in the kernel. */
  ghost function UserStringFrom(memory: seq<u8>, ms: seq<Mapping>, a: u64, prefix: seq<u8>, capacity: nat): StringResult
    requires InMemory(ms, |memory|)
    decreases capacity - |prefix|
  {
    if |prefix| >= capacity then StringResult(prefix, STATUS_BUFFER_TOO_SMALL)
    else if !Backed(ms, Wrap64(a + |prefix|)) then StringResult(prefix, STATUS_FAULT)
    else
      var c := memory[HostOf(ms, Wrap64(a + |prefix|))];
      if c == 0 then StringResult(prefix, STATUS_OK)
      else UserStringFrom(memory, ms, a, prefix + [c], capacity)
  }

  ghost function UserString(memory: seq<u8>, ms: seq<Mapping>, a: u64, capacity: nat): StringResult
    requires InMemory(ms, |memory|)
  {
    UserStringFrom(memory, ms, a, [], capacity)
  }

  // ----- What the byte-at-a-time view promises -----

  /** The guest sees exactly `data` at a. */
  ghost predicate GuestBytes(memory: seq<u8>, ms: seq<Mapping>, a: int, data: seq<u8>)
    requires InMemory(ms, |memory|)
  {
    forall x :: a <= x < a + |data| ==> Backed(ms, x) && memory[HostOf(ms, x)] == data[x - a]
  }

  /** Distinct guest bytes of the range have distinct host bytes. */
  ghost predicate HostInjective(ms: seq<Mapping>, a: int, n: nat) {
    forall x, y :: a <= x < y < a + n && Backed(ms, x) && Backed(ms, y) ==> HostOf(ms, x) != HostOf(ms, y)
  }

  ghost predicate HostTarget(ms: seq<Mapping>, a: int, n: nat, h: int) {
    exists x :: a <= x < a + n && Backed(ms, x) && HostOf(ms, x) == h
  }

  lemma TargetStep(ms: seq<Mapping>, a: int, n: nat, h: int)
    requires n != 0 && Backed(ms, a)
    ensures HostTarget(ms, a, n, h) <==> HostOf(ms, a) == h || HostTarget(ms, a + 1, n - 1, h)
  {
    if HostTarget(ms, a, n, h) {
      var x :| a <= x < a + n && Backed(ms, x) && HostOf(ms, x) == h;
      assert x == a || (a + 1 <= x < a + 1 + (n - 1));
    }
    if HostTarget(ms, a + 1, n - 1, h) {
      var x :| a + 1 <= x < a + 1 + (n - 1) && Backed(ms, x) && HostOf(ms, x) == h;
      assert a <= x < a + n;
    }
  }

  /** A write succeeds iff every byte is backed; it never touches a host byte outside its target range; and when
      host backings do not alias, the guest bytes then hold the data. */
  lemma {:induction false} WriteUserMeaning(memory: seq<u8>, ms: seq<Mapping>, a: int, data: seq<u8>)
    requires InMemory(ms, |memory|)
    ensures WriteUser(memory, ms, a, data).ok <==> RangeBacked(ms, a, |data|)
    ensures forall h :: 0 <= h < |memory| && !HostTarget(ms, a, |data|, h) ==>
                          WriteUser(memory, ms, a, data).memory[h] == memory[h]
    ensures WriteUser(memory, ms, a, data).ok && HostInjective(ms, a, |data|) ==>
              GuestBytes(WriteUser(memory, ms, a, data).memory, ms, a, data)
    decreases |data|
  {
    var n := |data|;
    if n != 0 {
      if Backed(ms, a) {
        var h0 := HostOf(ms, a);
        var next := memory[h0 := data[0]];
        WriteUserMeaning(next, ms, a + 1, data[1..]);
        assert RangeBacked(ms, a, n) <==> RangeBacked(ms, a + 1, n - 1);
        forall h | 0 <= h < |memory| && !HostTarget(ms, a, n, h)
          ensures WriteUser(memory, ms, a, data).memory[h] == memory[h]
        {
          TargetStep(ms, a, n, h);
        }
        if HostInjective(ms, a, n) {
          assert HostInjective(ms, a + 1, n - 1);
          assert !HostTarget(ms, a + 1, n - 1, h0);
        }
      } else {
        assert !RangeBacked(ms, a, n);
      }
    }
  }

  /** No destination host byte of the copy is a source host byte. */
  ghost predicate HostSeparate(source: seq<Mapping>, sa: int, destination: seq<Mapping>, da: int, n: nat) {
    forall x, y :: sa <= x < sa + n && da <= y < da + n && Backed(source, x) && Backed(destination, y) ==>
                     HostOf(source, x) != HostOf(destination, y)
  }

  /** A copy between processes succeeds iff both ranges are backed, writes only destination bytes, and delivers
      the source bytes when the backings are separate. */
  lemma {:induction false} CopyUserMeaning(
    memory: seq<u8>, source: seq<Mapping>, sa: int, destination: seq<Mapping>, da: int, n: nat)
    requires InMemory(source, |memory|) && InMemory(destination, |memory|)
    ensures CopyUser(memory, source, sa, destination, da, n).ok
       <==> RangeBacked(source, sa, n) && RangeBacked(destination, da, n)
    ensures forall h :: 0 <= h < |memory| && !HostTarget(destination, da, n, h) ==>
                          CopyUser(memory, source, sa, destination, da, n).memory[h] == memory[h]
    ensures CopyUser(memory, source, sa, destination, da, n).ok && HostInjective(destination, da, n)
            && HostSeparate(source, sa, destination, da, n) ==>
              forall k :: 0 <= k < n ==> DeliveredByte(memory, source, sa, destination, da, n, k)
    decreases n
  {
    if n != 0 {
      if Backed(source, sa) && Backed(destination, da) {
        var d0 := HostOf(destination, da);
        var next := memory[d0 := memory[HostOf(source, sa)]];
        CopyUserMeaning(next, source, sa + 1, destination, da + 1, n - 1);
        assert RangeBacked(source, sa, n) <==> RangeBacked(source, sa + 1, n - 1);
        assert RangeBacked(destination, da, n) <==> RangeBacked(destination, da + 1, n - 1);
        forall h | 0 <= h < |memory| && !HostTarget(destination, da, n, h)
          ensures CopyUser(memory, source, sa, destination, da, n).memory[h] == memory[h]
        {
          TargetStep(destination, da, n, h);
        }
        if CopyUser(memory, source, sa, destination, da, n).ok && HostInjective(destination, da, n)
           && HostSeparate(source, sa, destination, da, n) {
          assert HostInjective(destination, da + 1, n - 1);
          assert HostSeparate(source, sa + 1, destination, da + 1, n - 1);
          assert !HostTarget(destination, da + 1, n - 1, d0);
          forall k | 0 <= k < n ensures DeliveredByte(memory, source, sa, destination, da, n, k) {
            if k > 0 {
              assert DeliveredByte(next, source, sa + 1, destination, da + 1, n - 1, k - 1);
              assert HostOf(source, sa + k) != d0;
            }
          }
        }
      } else {
        assert !(RangeBacked(source, sa, n) && RangeBacked(destination, da, n));
      }
    }
  }

  ghost predicate DeliveredByte(
    memory: seq<u8>, source: seq<Mapping>, sa: int, destination: seq<Mapping>, da: int, n: nat, k: nat)
    requires InMemory(source, |memory|) && InMemory(destination, |memory|)
  {
    && Backed(source, sa + k) && Backed(destination, da + k)
    && 0 <= HostOf(source, sa + k) < |memory| && 0 <= HostOf(destination, da + k) < |memory|
    && CopyUser(memory, source, sa, destination, da, n).memory[HostOf(destination, da + k)]
       == memory[HostOf(source, sa + k)]
  }

  /** Guest byte `index` of a string at a. */
  ghost predicate StringByte(memory: seq<u8>, ms: seq<Mapping>, a: u64, index: nat, c: u8)
    requires InMemory(ms, |memory|)
  {
    Backed(ms, Wrap64(a + index)) && memory[HostOf(ms, Wrap64(a + index))] == c
  }

  ghost predicate StringPrefix(memory: seq<u8>, ms: seq<Mapping>, a: u64, bytes: seq<u8>)
    requires InMemory(ms, |memory|)
  {
    forall k :: 0 <= k < |bytes| ==> bytes[k] != 0 && StringByte(memory, ms, a, k, bytes[k])
  }

  /** A string copy is OK iff the mapped guest bytes reach a NUL within the buffer; its result is then the
      characters before that NUL. It faults on the first unbacked character, and runs out of buffer otherwise. */
  lemma {:induction false} UserStringMeaning(
    memory: seq<u8>, ms: seq<Mapping>, a: u64, prefix: seq<u8>, capacity: nat)
    requires InMemory(ms, |memory|) && |prefix| <= capacity && StringPrefix(memory, ms, a, prefix)
    ensures var r := UserStringFrom(memory, ms, a, prefix, capacity);
            && |prefix| <= |r.bytes| <= capacity
            && StringPrefix(memory, ms, a, r.bytes)
            && (r.status == STATUS_OK <==> |r.bytes| < capacity && StringByte(memory, ms, a, |r.bytes|, 0))
            && (r.status == STATUS_FAULT <==> |r.bytes| < capacity && !Backed(ms, Wrap64(a + |r.bytes|)))
            && (r.status == STATUS_BUFFER_TOO_SMALL <==> |r.bytes| == capacity)
            && r.status in {STATUS_OK, STATUS_FAULT, STATUS_BUFFER_TOO_SMALL}
    decreases capacity - |prefix|
  {
    hide Backed;
    if |prefix| < capacity && Backed(ms, Wrap64(a + |prefix|)) {
      var c := memory[HostOf(ms, Wrap64(a + |prefix|))];
      if c != 0 {
        assert StringByte(memory, ms, a, |prefix|, c);
        UserStringMeaning(memory, ms, a, prefix + [c], capacity);
      }
    }
  }

  // ----- Chunks refine bytes -----

  lemma {:induction false} WriteChunk(memory: seq<u8>, ms: seq<Mapping>, a: int, h: nat, k: nat, data: seq<u8>)
    requires InMemory(ms, |memory|) && Contiguous(ms, a, h, k) && k <= |data| && h + k <= |memory|
    ensures WriteUser(memory, ms, a, data)
         == WriteUser(memory[..h] + data[..k] + memory[h + k..], ms, a + k, data[k..])
    decreases k
  {
    hide Backed;
    if k == 0 {
      assert memory[..h] + data[..0] + memory[h..] == memory && data[0..] == data;
    } else {
      var next := memory[h := data[0]];
      assert Backed(ms, a) && HostOf(ms, a) == h;
      WriteChunk(next, ms, a + 1, h + 1, k - 1, data[1..]);
      assert data[1..][k - 1..] == data[k..];
      assert next[..h + 1] + data[1..][..k - 1] + next[h + 1 + (k - 1)..]
          == memory[..h] + data[..k] + memory[h + k..];
    }
  }

  /** memcpy inside one memory: bytes move in ascending order. */
  function ForwardCopy(memory: seq<u8>, to: nat, from: nat, n: nat): (r: seq<u8>)
    requires to + n <= |memory| && from + n <= |memory|
    ensures |r| == |memory|
    decreases n
  {
    if n == 0 then memory else ForwardCopy(memory[to := memory[from]], to + 1, from + 1, n - 1)
  }

  lemma {:induction false} CopyChunk(memory: seq<u8>, source: seq<Mapping>, sa: int, sh: nat,
                                     destination: seq<Mapping>, da: int, dh: nat, k: nat, n: nat)
    requires InMemory(source, |memory|) && InMemory(destination, |memory|)
    requires Contiguous(source, sa, sh, k) && Contiguous(destination, da, dh, k) && k <= n
    requires sh + k <= |memory| && dh + k <= |memory|
    ensures CopyUser(memory, source, sa, destination, da, n)
         == CopyUser(ForwardCopy(memory, dh, sh, k), source, sa + k, destination, da + k, n - k)
    decreases k
  {
    hide Backed;
    if k != 0 {
      var next := memory[dh := memory[sh]];
      assert Backed(source, sa) && HostOf(source, sa) == sh;
      assert Backed(destination, da) && HostOf(destination, da) == dh;
      CopyChunk(next, source, sa + 1, sh + 1, destination, da + 1, dh + 1, k - 1, n - 1);
      assert sa + 1 + (k - 1) == sa + k && da + 1 + (k - 1) == da + k && n - 1 - (k - 1) == n - k;
    }
  }

  lemma ChunkInMemory(ms: seq<Mapping>, size: nat, a: int, h: int, n: nat)
    requires InMemory(ms, size) && Contiguous(ms, a, h, n) && n > 0
    ensures 0 <= h && h + n <= size
  {
    assert Backed(ms, a) && Backed(ms, a + n - 1);
  }

  /** One write chunk: it fails exactly where the byte-at-a-time write does, and otherwise advances it. */
  lemma WriteStep(memory: seq<u8>, ms: seq<Mapping>, a: u64, data: seq<u8>, r: Option<Chunk>)
    requires InMemory(ms, |memory|) && 0 < |data| <= U64_MAX && ChunkView(ms, a, |data|, r)
    ensures r.None? ==> WriteUser(memory, ms, a, data) == WriteResult(memory, false)
    ensures r.Some? ==>
              var c := r.value;
              && 0 < c.length <= |data| && c.length <= U64_MAX - a && c.host + c.length <= |memory|
              && WriteUser(memory, ms, a, data)
                 == WriteUser(memory[..c.host] + data[..c.length] + memory[c.host + c.length..], ms,
                              a + c.length, data[c.length..])
  {
    if r.Some? {
      ChunkInMemory(ms, |memory|, a, r.value.host, r.value.length);
      WriteChunk(memory, ms, a, r.value.host, r.value.length, data);
    }
  }

  /** One two-sided chunk: the destination chunk is cut to the source chunk, and the copy advances by it. */
  lemma CopyStep(memory: seq<u8>, source: seq<Mapping>, sa: u64, destination: seq<Mapping>, da: u64, n: u64,
                 s: Chunk, r: Option<Chunk>)
    requires InMemory(source, |memory|) && InMemory(destination, |memory|) && n != 0
    requires ChunkView(source, sa, n, Some(s)) && ChunkView(destination, da, s.length, r)
    ensures r.None? ==> CopyUser(memory, source, sa, destination, da, n) == WriteResult(memory, false)
    ensures r.Some? ==>
              var d := r.value;
              && 0 < d.length <= s.length && d.length <= U64_MAX - sa && d.length <= U64_MAX - da
              && s.host + d.length <= |memory| && d.host + d.length <= |memory|
              && CopyUser(memory, source, sa, destination, da, n)
                 == CopyUser(ForwardCopy(memory, d.host, s.host, d.length), source, sa + d.length,
                             destination, da + d.length, n - d.length)
  {
    hide Backed;
    assert Backed(source, sa);
    if r.Some? {
      var d := r.value;
      ChunkInMemory(source, |memory|, sa, s.host, s.length);
      ChunkInMemory(destination, |memory|, da, d.host, d.length);
      CopyChunk(memory, source, sa, s.host, destination, da, d.host, d.length, n);
    }
  }

  /** A translated single byte is the backed guest byte. */
  lemma OneByteTranslation(ms: seq<Mapping>, a: u64, r: Option<u64>)
    requires r.Some? <==> exists m :: m in ms && Covers(m, a, 1)
    requires r.Some? ==> Contiguous(ms, a, r.value, 1)
    ensures r.Some? <==> Backed(ms, a)
    ensures r.Some? ==> HostOf(ms, a) == r.value
  {
    if Backed(ms, a) {
      var i :| 0 <= i < |ms| && Maps(ms[i], a);
      assert ms[i] in ms && Covers(ms[i], a, 1);
    }
  }

  lemma UserStringStep(memory: seq<u8>, ms: seq<Mapping>, a: u64, prefix: seq<u8>, capacity: nat)
    requires InMemory(ms, |memory|) && |prefix| < capacity
    ensures var r := UserStringFrom(memory, ms, a, prefix, capacity);
            var at := Wrap64(a + |prefix|);
            && (!Backed(ms, at) ==> r == StringResult(prefix, STATUS_FAULT))
            && (Backed(ms, at) ==>
                  var c := memory[HostOf(ms, at)];
                  r == if c == 0 then StringResult(prefix, STATUS_OK)
                       else UserStringFrom(memory, ms, a, prefix + [c], capacity))
  {
    hide Backed, HostOf, Wrap64;
  }

  // ----- The kernel's loops -----

  /** klibc memcpy: ascending, so its effect on overlapping ranges of one memory is determined. */
  method Memcpy(destination: array<u8>, to: nat, source: array<u8>, from: nat, n: nat)
    requires to + n <= destination.Length && from + n <= source.Length
    modifies destination
    ensures destination != source ==>
              destination[..] == old(destination[..to]) + source[from..from + n] + old(destination[to + n..])
    ensures destination == source ==> destination[..] == ForwardCopy(old(destination[..]), to, from, n)
  {
    ghost var before, data := destination[..], source[from..from + n];
    for index := 0 to n
      invariant destination != source ==>
                  && source[from..from + n] == data
                  && destination[..to] == before[..to] && destination[to + index..] == before[to + index..]
                  && destination[to..to + index] == data[..index]
      invariant destination == source ==>
                  ForwardCopy(before, to, from, n) == ForwardCopy(destination[..], to + index, from + index, n - index)
    {
      ghost var mid := destination[..];
      destination[to + index] := source[from + index];
      assert destination[..] == mid[to + index := destination[to + index]];
    }
  }

  /** copy_user_bytes: OK iff every byte is backed. The buffer receives the guest bytes before the first unbacked
      one, so all of them on OK, and is unchanged past them. */
  method CopyUserBytes(memory: array<u8>, ms: seq<Mapping>, a: u64, buffer: array?<u8>, size: u64) returns (status: i32)
    requires Hosted(ms, memory.Length)
    requires buffer != null ==> buffer != memory && size <= buffer.Length
    modifies buffer
    ensures buffer == null ==> status == STATUS_INVALID_ARGUMENT
    ensures buffer != null ==>
              && (status == STATUS_OK <==> RangeBacked(ms, a, size))
              && (status == STATUS_OK || status == STATUS_FAULT)
              && exists done: nat :: done <= size && ReadPrefix(memory[..], ms, a, size, done, old(buffer[..]), buffer[..])
  {
    hide Backed;
    if buffer == null {
      return STATUS_INVALID_ARGUMENT;
    }
    ghost var before := buffer[..];
    assert size == 0 ==> ReadPrefix(memory[..], ms, a, size, 0, before, buffer[..]);
    if size == 0 {
      return STATUS_OK;
    }
    var current: u64, at: u64, remaining: u64 := a, 0, size;
    while remaining != 0
      invariant at + remaining == size && current == a + at
      invariant memory[..] == old(memory[..])
      invariant GuestBytes(memory[..], ms, a, buffer[..at]) && buffer[at..] == before[at..]
      decreases remaining
    {
      var chunk := TryTranslateChunk(ms, current, remaining);
      if chunk.None? || chunk.value.length == 0 {
        assert !Backed(ms, a + at);
        assert ReadPrefix(memory[..], ms, a, size, at, before, buffer[..]);
        return STATUS_FAULT;
      }
      var n := chunk.value.length;
      ChunkInMemory(ms, memory.Length, current, chunk.value.host, n);
      ghost var mid := buffer[..];
      Memcpy(buffer, at, memory, chunk.value.host, n);
      GuestBytesExtend(memory[..], ms, a, mid[..at], chunk.value, n);
      assert buffer[..at + n] == mid[..at] + memory[chunk.value.host..chunk.value.host + n];
      assert buffer[at + n..] == mid[at..][n..];
      at := at + n;
      current := current + n;
      remaining := remaining - n;
    }
    assert ReadPrefix(memory[..], ms, a, size, size, before, buffer[..]);
    return STATUS_OK;
  }

  /** `done` bytes were read: they are the guest's, the next one (if any was asked for) is unbacked. */
  ghost predicate ReadPrefix(memory: seq<u8>, ms: seq<Mapping>, a: int, size: nat, done: nat,
                             before: seq<u8>, after: seq<u8>)
    requires InMemory(ms, |memory|)
  {
    && done <= |after| == |before|
    && GuestBytes(memory, ms, a, after[..done])
    && after[done..] == before[done..]
    && (done < size ==> !Backed(ms, a + done))
  }

  lemma GuestBytesExtend(memory: seq<u8>, ms: seq<Mapping>, a: int, bytes: seq<u8>, c: Chunk, n: nat)
    requires InMemory(ms, |memory|) && GuestBytes(memory, ms, a, bytes)
    requires Contiguous(ms, a + |bytes|, c.host, n) && c.host + n <= |memory|
    ensures GuestBytes(memory, ms, a, bytes + memory[c.host..c.host + n])
  {
  }

  lemma SplitSlice(s: seq<u8>, lo: nat, mid: nat, hi: nat)
    requires lo <= mid <= hi <= |s|
    ensures s[lo..hi][..mid - lo] == s[lo..mid] && s[lo..hi][mid - lo..] == s[mid..hi]
  {
  }

  /** write_user_bytes. On a fault the bytes before the first unbacked one have been written. */
  method WriteUserBytes(memory: array<u8>, ms: seq<Mapping>, a: u64, buffer: array?<u8>, size: u64) returns (status: i32)
    requires Hosted(ms, memory.Length)
    requires buffer != null ==> buffer != memory && size <= buffer.Length
    modifies memory
    ensures buffer == null ==> status == STATUS_INVALID_ARGUMENT && memory[..] == old(memory[..])
    ensures buffer != null ==>
              var r := WriteUser(old(memory[..]), ms, a, buffer[..size]);
              status == (if r.ok then STATUS_OK else STATUS_FAULT) && memory[..] == r.memory
  {
    hide Backed, HostOf, WellFormed, InMemory, ChunkView, LongestIn;
    if buffer == null {
      return STATUS_INVALID_ARGUMENT;
    }
    if size == 0 {
      return STATUS_OK;
    }
    var current: u64, at: u64, remaining: u64 := a, 0, size;
    ghost var r := WriteUser(memory[..], ms, a, buffer[..size]);
    assert buffer[0..size] == buffer[..size];
    while remaining != 0
      invariant at + remaining == size && current == a + at
      invariant r == WriteUser(memory[..], ms, current, buffer[at..size])
      decreases remaining
    {
      ghost var rest := buffer[at..size];
      var chunk := TryTranslateChunk(ms, current, remaining);
      WriteStep(memory[..], ms, current, rest, chunk);
      if chunk.None? || chunk.value.length == 0 {
        return STATUS_FAULT;
      }
      var n := chunk.value.length;
      SplitSlice(buffer[..], at, at + n, size);
      Memcpy(memory, chunk.value.host, buffer, at, n);
      at := at + n;
      current := current + n;
      remaining := remaining - n;
    }
    return STATUS_OK;
  }

  /** copy_between_user_processes. Splitting at mapping borders on either side is invisible: status and memory
      are those of the byte-at-a-time copy, whatever the backings share. */
  method CopyBetweenUserProcesses(memory: array<u8>, source: seq<Mapping>, sa: u64,
                                  destination: seq<Mapping>, da: u64, size: u64) returns (status: i32)
    requires Hosted(source, memory.Length)
    requires Hosted(destination, memory.Length)
    modifies memory
    ensures var r := CopyUser(old(memory[..]), source, sa, destination, da, size);
            status == (if r.ok then STATUS_OK else STATUS_FAULT) && memory[..] == r.memory
  {
    hide Backed, HostOf, WellFormed, InMemory, ChunkView, LongestIn;
    if size == 0 {
      return STATUS_OK;
    }
    var from: u64, to: u64, remaining: u64 := sa, da, size;
    ghost var r := CopyUser(memory[..], source, sa, destination, da, size);
    while remaining != 0
      invariant r == CopyUser(memory[..], source, from, destination, to, remaining)
      decreases remaining
    {
      var read := TryTranslateChunk(source, from, remaining);
      if read.None? || read.value.length == 0 {
        return STATUS_FAULT;
      }
      var write := TryTranslateChunk(destination, to, read.value.length);
      CopyStep(memory[..], source, from, destination, to, remaining, read.value, write);
      if write.None? || write.value.length == 0 {
        return STATUS_FAULT;
      }
      var n := write.value.length;
      Memcpy(memory, write.value.host, memory, read.value.host, n);
      from := from + n;
      to := to + n;
      remaining := remaining - n;
    }
    return STATUS_OK;
  }

  method TranslateByte(ms: seq<Mapping>, a: u64) returns (r: Option<u64>)
    requires WellFormed(ms)
    ensures r == if Backed(ms, a) then Some(HostOf(ms, a)) else None
  {
    r := TryTranslateAddress(ms, a, 1);
    OneByteTranslation(ms, a, r);
  }

  /** copy_user_string. On OK the buffer starts with the string and its NUL. */
  method CopyUserString(memory: array<u8>, ms: seq<Mapping>, a: u64, buffer: array?<u8>, size: nat) returns (status: i32)
    requires Hosted(ms, memory.Length)
    requires buffer != null ==> buffer != memory && size <= buffer.Length
    modifies buffer
    ensures buffer == null || size == 0 ==> status == STATUS_INVALID_ARGUMENT
    ensures buffer != null && size != 0 ==>
              var r := UserString(memory[..], ms, a, size);
              && status == r.status
              && (status == STATUS_OK ==>
                    |r.bytes| < size && buffer[..|r.bytes| + 1] == r.bytes + [0]
                    && buffer[|r.bytes| + 1..] == old(buffer[|r.bytes| + 1..]))
  {
    hide Backed, HostOf, WellFormed, Covers, Contiguous;
    if buffer == null || size == 0 {
      return STATUS_INVALID_ARGUMENT;
    }
    ghost var host := memory[..];
    ghost var before := buffer[..];
    ghost var r := UserStringFrom(host, ms, a, [], size);
    assert r == UserString(host, ms, a, size);
    assert forall full :: |full| == size ==> UserStringFrom(host, ms, a, full, size) == StringResult(full, STATUS_BUFFER_TOO_SMALL);
    hide UserStringFrom, UserString, Wrap64, InMemory;
    var index := 0;
    ghost var read := [];
    while index < size
      invariant index == |read| <= size
      invariant memory[..] == host
      invariant forall k :: 0 <= k < index ==> buffer[k] == read[k]
      invariant forall k :: index <= k < buffer.Length ==> buffer[k] == before[k]
      invariant r == UserStringFrom(host, ms, a, read, size)
    {
      UserStringStep(host, ms, a, read, size);
      var translated := TranslateByte(ms, Wrap64(a + index));
      if translated.None? {
        return STATUS_FAULT;
      }
      var c := memory[translated.value];
      buffer[index] := c;
      if c == 0 {
        return STATUS_OK;
      }
      index := index + 1;
      read := read + [c];
    }
    buffer[size - 1] := 0;
    return STATUS_BUFFER_TOO_SMALL;
  }
}
