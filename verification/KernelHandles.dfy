/**
 The handle lookups of the system calls (kernel/rpc.cpp, kernel/user_runtime.cpp) are lookups in the kernel's object
 pools, and so in the one map that the pools stand for.
 */
module KernelHandles {
  import opened Words
  import opened Status
  import opened Search
  import opened UserCopy
  import opened HandlePools
  import opened KernelModel

  /** What an object keeps for life: a channel its client and its endpoint. */
  datatype Identity = PlainObject | ChannelOf(client: nat, endpoint: nat)

  predicate IsClient(who: Identity, process: nat) {
    who.ChannelOf? && who.client == process
  }

  ghost predicate SameSlot(item: Option<Item<Identity>>, c: Option<ChannelRecord>) {
    && (item.Some? <==> c.Some?)
    && (item.Some? ==> item.value.handle == c.value.handle
                       && item.value.body == ChannelOf(c.value.clientProcess, c.value.endpoint))
  }

  /** The channel table of s is this pool, slot by slot. */
  ghost predicate IsPool(s: KernelState, p: Pool<Identity>) {
    |p.slots| == |s.channels| && forall i :: 0 <= i < |s.channels| ==> SameSlot(p.slots[i], s.channels[i])
  }

  lemma {:induction false} ScanAgrees<A, B>(xs: seq<A>, ys: seq<B>, p: A -> bool, q: B -> bool, lo: nat)
    requires lo <= |xs| == |ys| && forall i :: 0 <= i < |xs| ==> (p(xs[i]) <==> q(ys[i]))
    ensures FirstIn(xs, p, lo, |xs|) == FirstIn(ys, q, lo, |ys|)
    decreases |xs| - lo
  {
    if lo < |xs| {
      ScanAgrees(xs, ys, p, q, lo + 1);
    }
  }

  lemma ScansAgree(s: KernelState, p: Pool<Identity>, handle: u64)
    requires IsPool(s, p)
    ensures FreeSlot(p) == FreeChannel(s) && SlotWith(p, handle) == ChannelByHandle(s, handle)
  {
    ScanAgrees(p.slots, s.channels, (slot: Option<Item<Identity>>) => slot.None?, (c: Option<ChannelRecord>) => c.None?, 0);
    ScanAgrees(p.slots, s.channels, (slot: Option<Item<Identity>>) => Holds(slot, handle),
               (c: Option<ChannelRecord>) => HasHandle(c, handle), 0);
  }

  /** Closing a channel erases its handle from the pool. */
  lemma EraseFollowsPool(s: KernelState, p: Pool<Identity>, handle: u64)
    requires Shape(s) && IsPool(s, p)
    ensures IsPool(EraseChannel(s, handle), Without(p, handle))
  {
    ScansAgree(s, p, handle);
    hide Shape, FreeSlot, FreeChannel, SlotWith, ChannelByHandle;
  }

  lemma SamePool(s: KernelState, r: KernelState, p: Pool<Identity>)
    requires IsPool(s, p) && r.channels == s.channels
    ensures IsPool(r, p)
  {
  }

  /** Opening a channel fills the first free slot of the pool under the counter's handle, and when the handle cannot be
      written to the caller takes the object out again. */
  lemma IssueFollowsPool(s: KernelState, p: Pool<Identity>, k: nat, owner: nat, e: nat, target: u64)
    requires Shape(s) && IsPool(s, p) && FreeChannel(s) == Some(k) && owner < |s.processes| && e < |s.endpoints|
    ensures var r := Issue(s, k, owner, e, target);
            var filled := Filled(p, k, s.nextHandle, ChannelOf(owner, e));
            && r.state.nextHandle == Wrap64(s.nextHandle + 1)
            && (r.status == STATUS_OK ==> IsPool(r.state, filled))
            && (r.status != STATUS_OK ==> IsPool(r.state, Without(filled, s.nextHandle)))
  {
    ScansAgree(s, p, 0);
    var s1 := PutChannel(s.(nextHandle := Wrap64(s.nextHandle + 1)), k, Some(NewChannel(s.nextHandle, owner, e)));
    var filled := Filled(p, k, s.nextHandle, ChannelOf(owner, e));
    assert IsPool(s1, filled);
    hide Shape, IsPool, FreeChannel, FreeSlot, Without, EraseChannel, WriteUser, LittleEndian;
    var write := WriteUser(s1.memory, s.processes[owner].mappings, target, LittleEndian(s.nextHandle, 8));
    var s2 := PutMemory(s1, write.memory);
    SamePool(s1, s2, filled);
    EraseFollowsPool(s2, filled, s.nextHandle);
  }

  /** The tables t hold the objects of s. */
  ghost predicate Holding(s: KernelState, t: Tables<Identity>) {
    && Shaped(t) && IsPool(s, t.pools[CHANNELS])
    && (forall h: u64 :: SlotWith(t.pools[PROCESSES], h).Some? <==>
          exists p :: 0 <= p < |s.processes| && s.processes[p].handle == h)
    && (forall h: u64 :: SlotWith(t.pools[THREADS], h).Some? <==>
          exists i :: 0 <= i < |s.threads| && s.threads[i].handle == h)
    && (forall h: u64 :: h in s.otherHandles <==>
          SlotWith(t.pools[DEVICE_MEMORY], h).Some? || SlotWith(t.pools[SHARED_MEMORY], h).Some?)
  }

  /** The channel lookup of RPC_CALL and RPC_CLOSE, by the map d of live handles: WRONG_TYPE for a live object that is
      not a channel, BAD_HANDLE for nothing and for another process's channel, the channel itself otherwise. */
  ghost predicate AnsweredBy(s: KernelState, d: Directory<Identity>, owner: nat, h: u64) {
    var answer := LookupChannel(s, owner, h);
    && (answer == Refused(STATUS_WRONG_TYPE) <==> h in d.live && d.live[h].kind != CHANNELS)
    && (answer == Refused(STATUS_BAD_HANDLE) <==>
        h !in d.live || (d.live[h].kind == CHANNELS && !IsClient(d.live[h].body, owner)))
    && (answer.Found? <==> h in d.live && d.live[h].kind == CHANNELS && IsClient(d.live[h].body, owner))
    && (answer.Found? ==> d.live[h].body == ChannelOf(owner, s.channels[answer.slot].value.endpoint))
  }

  lemma LookupByDirectory(s: KernelState, t: Tables<Identity>, d: Directory<Identity>, owner: nat, h: u64)
    requires Holding(s, t) && Represents(t, d)
    ensures AnsweredBy(s, d, owner, h)
  {
    var p := t.pools[CHANNELS];
    ScansAgree(s, p, h);
    LookupIsMapLookup(t, d, CHANNELS, h);
    FindObjectIsMapLookup(t, d, h);
    assert ObjectExists(s, h) <==> FindObject(t, h).Some?;
    assert forall k :: 0 <= k < |s.channels| ==> SameSlot(p.slots[k], s.channels[k]);
    hide Represents, FindObject, ObjectExists, SlotWith, ChannelByHandle;
  }
}
