/**
 User address spaces (kernel/address_space.cpp): a table of mappings from user ranges to host ranges, its
 lookup loops, and the guest view those loops implement: which guest bytes are backed, and by which host byte.
 */
module AddressSpaces {
  import opened Words

  const MAX_MAPPINGS: nat := 8

  datatype Mapping = Mapping(userAddress: u64, hostAddress: u64, size: u64)

  predicate ValidRange(base: u64, size: u64) {
    size != 0 && size <= U64_MAX - base
  }

  /** The wrapping comparison the kernel makes before it accepts a mapping. */
  predicate RangesOverlap(left: u64, leftSize: u64, right: u64, rightSize: u64) {
    left < Wrap64(right + rightSize) && right < Wrap64(left + leftSize)
  }

  // ----- The guest view, byte by byte -----

  predicate Maps(m: Mapping, a: int) {
    m.hostAddress != 0 && m.userAddress <= a < m.userAddress + m.size
  }

  /** Guest address a has a host byte behind it. */
  ghost predicate Backed(ms: seq<Mapping>, a: int) {
    exists i :: 0 <= i < |ms| && Maps(ms[i], a)
  }

  /** The host byte behind guest address a. */
  ghost function HostOf(ms: seq<Mapping>, a: int): (h: int)
    requires Backed(ms, a)
    ensures exists i :: 0 <= i < |ms| && Maps(ms[i], a) && h == ms[i].hostAddress + (a - ms[i].userAddress)
  {
    var i :| 0 <= i < |ms| && Maps(ms[i], a);
    ms[i].hostAddress + (a - ms[i].userAddress)
  }

  ghost predicate RangeBacked(ms: seq<Mapping>, a: int, n: nat) {
    forall k :: a <= k < a + n ==> Backed(ms, k)
  }

  predicate InRange(a: int, base: int, size: int) {
    base <= a < base + size
  }

  predicate Inside(m: Mapping, a: int) {
    InRange(a, m.userAddress, m.size)
  }

  /** No guest address lies in two mappings. */
  ghost predicate Disjoint(ms: seq<Mapping>) {
    forall i, j, a :: 0 <= i < |ms| && 0 <= j < |ms| && Inside(ms[i], a) && Inside(ms[j], a) ==> i == j
  }

  /** Mappings are non-empty, end inside the 64-bit space on both sides, and are pairwise disjoint. */
  ghost predicate WellFormed(ms: seq<Mapping>) {
    && |ms| <= MAX_MAPPINGS
    && (forall i :: 0 <= i < |ms| ==>
          ValidRange(ms[i].userAddress, ms[i].size) && ValidRange(ms[i].hostAddress, ms[i].size))
    && Disjoint(ms)
  }

  lemma HostOfMapping(ms: seq<Mapping>, i: nat, a: int)
    requires WellFormed(ms) && i < |ms| && Maps(ms[i], a)
    ensures Backed(ms, a) && HostOf(ms, a) == ms[i].hostAddress + (a - ms[i].userAddress)
  {
    var j :| 0 <= j < |ms| && Maps(ms[j], a) && HostOf(ms, a) == ms[j].hostAddress + (a - ms[j].userAddress);
    assert Maps(ms[j], a);
    assert Inside(ms[i], a) && Inside(ms[j], a);
  }

  /** For two ranges that end inside the 64-bit space the kernel's wrapping test is exactly intersection. */
  lemma OverlapIsIntersection(left: u64, leftSize: u64, right: u64, rightSize: u64)
    requires ValidRange(left, leftSize) && ValidRange(right, rightSize)
    ensures RangesOverlap(left, leftSize, right, rightSize)
       <==> exists a :: InRange(a, left, leftSize) && InRange(a, right, rightSize)
  {
    if RangesOverlap(left, leftSize, right, rightSize) {
      var a := if left < right then right else left;
      assert InRange(a, left, leftSize) && InRange(a, right, rightSize);
    }
  }

  /** A run of n guest bytes from a that sits on consecutive host bytes from h. */
  ghost predicate Contiguous(ms: seq<Mapping>, a: int, h: int, n: nat) {
    forall x :: a <= x < a + n ==> Backed(ms, x) && HostOf(ms, x) == h + (x - a)
  }

  // ----- Lookup and translation -----

  predicate Hits(m: Mapping, a: u64, allowLimit: bool) {
    var limit := Wrap64(m.userAddress + m.size);
    && m.size != 0
    && m.userAddress <= a
    && (a < limit || (allowLimit && a == limit))
  }

  /** Index of the first mapping at or after `from` that the lookup accepts. */
  function FindFrom(ms: seq<Mapping>, a: u64, allowLimit: bool, from: nat): (r: Option<nat>)
    requires from <= |ms|
    ensures r.Some? ==> from <= r.value < |ms| && Hits(ms[r.value], a, allowLimit)
    ensures r.Some? ==> forall j :: from <= j < r.value ==> !Hits(ms[j], a, allowLimit)
    ensures r.None? ==> forall j :: from <= j < |ms| ==> !Hits(ms[j], a, allowLimit)
    decreases |ms| - from
  {
    if from == |ms| then None
    else if Hits(ms[from], a, allowLimit) then Some(from)
    else FindFrom(ms, a, allowLimit, from + 1)
  }

  function FindMapping(ms: seq<Mapping>, a: u64, allowLimit: bool): Option<nat> {
    FindFrom(ms, a, allowLimit, 0)
  }

  datatype Chunk = Chunk(host: u64, length: u64)

  /** What a lookup of n > 0 bytes at a may answer: nothing exactly when the byte at a is unbacked, and otherwise
      consecutive host bytes behind the next guest bytes, never reaching past the 64-bit space. */
  ghost predicate ChunkView(ms: seq<Mapping>, a: int, n: nat, r: Option<Chunk>) {
    match r
    case None => !Backed(ms, a)
    case Some(c) =>
      && 0 < c.length <= n && c.length <= U64_MAX - a && c.host + c.length <= U64_MAX
      && Contiguous(ms, a, c.host, c.length)
  }

  /** A lookup of no bytes succeeds iff the first mapping that contains a or ends at it has a host. */
  ghost predicate EmptyChunkView(ms: seq<Mapping>, a: u64, r: Option<Chunk>) {
    var found := FindMapping(ms, a, true);
    && (r.Some? <==> found.Some? && ms[found.value].hostAddress != 0)
    && (r.Some? ==> r.value.length == 0)
  }

  method FindAddressSpaceMapping(ms: seq<Mapping>, a: u64, allowLimit: bool) returns (r: Option<nat>)
    ensures r == FindMapping(ms, a, allowLimit)
  {
    var index := 0;
    while index < |ms|
      invariant 0 <= index <= |ms|
      invariant FindMapping(ms, a, allowLimit) == FindFrom(ms, a, allowLimit, index)
    {
      var mapping := ms[index];
      if mapping.size != 0 {
        var limit := Wrap64(mapping.userAddress + mapping.size);
        if a >= mapping.userAddress && (a < limit || (allowLimit && a == limit)) {
          return Some(index);
        }
      }
      index := index + 1;
    }
    return None;
  }

  predicate Covers(m: Mapping, a: u64, length: u64) {
    m.hostAddress != 0 && m.userAddress <= a && a + length <= m.userAddress + m.size
  }

  predicate LongestIn(m: Mapping, a: u64, requested: u64, length: u64) {
    Covers(m, a, length) && (length < requested ==> a + length == m.userAddress + m.size)
  }

  /** try_translate_address_space_chunk: the longest part of [a, a + requested) one mapping covers. It stops short
      of the request only where that mapping ends. */
  method TryTranslateChunk(ms: seq<Mapping>, a: u64, requested: u64) returns (r: Option<Chunk>)
    requires WellFormed(ms)
    ensures requested != 0 ==> ChunkView(ms, a, requested, r)
    ensures requested != 0 && r.Some? ==> exists m :: m in ms && LongestIn(m, a, requested, r.value.length)
    ensures requested == 0 ==> EmptyChunkView(ms, a, r)
  {
    var found := FindAddressSpaceMapping(ms, a, requested == 0);
    if found.None? {
      forall i | 0 <= i < |ms| ensures !Maps(ms[i], a) {
        assert !Hits(ms[i], a, requested == 0);
      }
      return None;
    }
    var m := ms[found.value];
    assert ValidRange(m.userAddress, m.size) && ValidRange(m.hostAddress, m.size);
    var offset := a - m.userAddress;
    if m.hostAddress == 0 || offset > U64_MAX - m.hostAddress {
      forall i | requested != 0 && 0 <= i < |ms| ensures !Maps(ms[i], a) {
        assert Inside(m, a);
        assert Inside(ms[i], a) ==> i == found.value;
      }
      return None;
    }
    var available := m.size - offset;
    if requested != 0 && available == 0 {
      return None;
    }
    r := Some(Chunk(m.hostAddress + offset,
                    if requested == 0 || requested <= available then requested else available));
    if requested != 0 {
      assert m in ms && LongestIn(m, a, requested, r.value.length);
      forall x | a <= x < a + r.value.length
        ensures Backed(ms, x) && HostOf(ms, x) == r.value.host + (x - a)
      {
        HostOfMapping(ms, found.value, x);
      }
    }
  }

  /** validate_address_space_range: true iff every byte of a non-empty range is backed. An empty range only needs
      some mapping that contains its address or ends at it. */
  method ValidateRange(ms: seq<Mapping>, a: u64, length: u64) returns (ok: bool)
    requires WellFormed(ms)
    ensures length != 0 ==> (ok <==> RangeBacked(ms, a, length))
    ensures length == 0 ==> (ok <==> exists i :: 0 <= i < |ms| && ms[i].userAddress <= a <= ms[i].userAddress + ms[i].size)
  {
    if length == 0 {
      var found := FindAddressSpaceMapping(ms, a, true);
      if found.Some? {
        assert ms[found.value].userAddress <= a <= ms[found.value].userAddress + ms[found.value].size;
      } else {
        forall i | 0 <= i < |ms| ensures !(ms[i].userAddress <= a <= ms[i].userAddress + ms[i].size) {
          assert !Hits(ms[i], a, true);
        }
      }
      return found.Some?;
    }
    var current: u64, remaining: u64 := a, length;
    while remaining != 0
      invariant current + remaining == a + length
      invariant RangeBacked(ms, a, length) <==> RangeBacked(ms, current, remaining)
      decreases remaining
    {
      var chunk := TryTranslateChunk(ms, current, remaining);
      if chunk.None? {
        return false;
      }
      var translated := chunk.value.length;
      if translated == 0 || translated > remaining {
        return false;
      }
      if translated > U64_MAX - current {
        return false;
      }
      current := current + translated;
      remaining := remaining - translated;
    }
    return true;
  }

  /** try_translate_address_space_address: succeeds on a non-empty range iff one mapping covers all of it, and
      then the range is host-contiguous from the result. */
  method TryTranslateAddress(ms: seq<Mapping>, a: u64, length: u64) returns (r: Option<u64>)
    requires WellFormed(ms)
    ensures length != 0 ==> (r.Some? <==> exists m :: m in ms && Covers(m, a, length))
    ensures length != 0 && r.Some? ==> Contiguous(ms, a, r.value, length)
  {
    var valid := ValidateRange(ms, a, length);
    if !valid {
      if length != 0 {
        forall m | m in ms ensures !Covers(m, a, length) {
          if Covers(m, a, length) {
            CoversIsBacked(ms, m, a, length);
          }
        }
      }
      return None;
    }
    var chunk := TryTranslateChunk(ms, a, length);
    if length != 0 {
      assert Backed(ms, a);
      WholeChunkIsCovered(ms, a, length, chunk.value);
    }
    if chunk.Some? && chunk.value.length == length {
      return Some(chunk.value.host);
    }
    return None;
  }

  lemma CoversIsBacked(ms: seq<Mapping>, m: Mapping, a: u64, length: u64)
    requires m in ms && Covers(m, a, length)
    ensures RangeBacked(ms, a, length)
  {
    var i :| 0 <= i < |ms| && ms[i] == m;
    forall k | a <= k < a + length ensures Backed(ms, k) {
      assert Maps(ms[i], k);
    }
  }

  lemma WholeChunkIsCovered(ms: seq<Mapping>, a: u64, length: u64, c: Chunk)
    requires WellFormed(ms) && length != 0 && ChunkView(ms, a, length, Some(c))
    requires exists m :: m in ms && LongestIn(m, a, length, c.length)
    ensures c.length == length <==> exists m :: m in ms && Covers(m, a, length)
  {
    assert Backed(ms, a);
    var i :| 0 <= i < |ms| && Maps(ms[i], a);
    assert Inside(ms[i], a);
    forall m | m in ms && Inside(m, a) ensures m == ms[i] {
      var j :| 0 <= j < |ms| && ms[j] == m;
    }
  }

  /** struct address_space: the table that mappings are appended to while a process is set up. */
  class AddressSpace {
    var mappings: seq<Mapping>

    ghost predicate Valid()
      reads this
    {
      WellFormed(mappings)
    }

    constructor ()
      ensures Valid() && mappings == []
    {
      mappings := [];
    }

    /** add_address_space_mapping: accepted iff both ranges are valid, a slot is left and no byte of the new user
        range is taken; the accepted mapping goes last, and a refusal changes nothing. */
    method AddMapping(userAddress: u64, hostAddress: u64, size: u64) returns (ok: bool)
      requires Valid()
      modifies this
      ensures Valid()
      ensures ok <==>
              && ValidRange(userAddress, size) && ValidRange(hostAddress, size)
              && |old(mappings)| < MAX_MAPPINGS
              && forall i, a :: 0 <= i < |old(mappings)| && Inside(old(mappings)[i], a) ==>
                                  !InRange(a, userAddress, size)
      ensures mappings == old(mappings) + if ok then [Mapping(userAddress, hostAddress, size)] else []
    {
      if !ValidRange(userAddress, size) || !ValidRange(hostAddress, size) {
        return false;
      }
      if |mappings| >= MAX_MAPPINGS {
        return false;
      }
      var index := 0;
      while index < |mappings|
        invariant 0 <= index <= |mappings|
        invariant mappings == old(mappings)
        invariant forall i, a :: 0 <= i < index && Inside(mappings[i], a) ==> !InRange(a, userAddress, size)
      {
        var existing := mappings[index];
        OverlapIsIntersection(userAddress, size, existing.userAddress, existing.size);
        if RangesOverlap(userAddress, size, existing.userAddress, existing.size) {
          ghost var a :| InRange(a, userAddress, size) && InRange(a, existing.userAddress, existing.size);
          assert Inside(mappings[index], a);
          return false;
        }
        index := index + 1;
      }
      mappings := mappings + [Mapping(userAddress, hostAddress, size)];
      return true;
    }
  }
}
