/**
 The kernel's object pools (kernel/kernel_object_pool.inl): fixed tables of slots that draw handles from one counter
 they share. Over any run of creations and erasures the five pools of the user runtime act as a single map from handles
 to objects.
 */
module HandlePools {
  import opened Words
  import opened Search

  datatype Item<+T> = Item(id: u32, handle: u64, body: T)

  datatype Pool<+T> = Pool(slots: seq<Option<Item<T>>>, nextId: u32)

  type Kind = k: nat | k < 5

  const PROCESSES: Kind := 0
  const THREADS: Kind := 1
  const DEVICE_MEMORY: Kind := 2
  const CHANNELS: Kind := 3
  const SHARED_MEMORY: Kind := 4

  /** The five pools and the handle counter they share. */
  datatype Tables<+T> = Tables(pools: seq<Pool<T>>, next: u64)

  datatype Operation<+T> = Create(kind: Kind, body: T) | Erase(kind: Kind, handle: u64)

  // ----- One pool -----

  predicate Holds<T>(slot: Option<Item<T>>, handle: u64) {
    slot.Some? && slot.value.handle == handle
  }

  function FreeSlot<T>(p: Pool<T>): Option<nat> {
    First(p.slots, (slot: Option<Item<T>>) => slot.None?)
  }

  function SlotWith<T>(p: Pool<T>, handle: u64): Option<nat> {
    First(p.slots, (slot: Option<Item<T>>) => Holds(slot, handle))
  }

  function Filled<T>(p: Pool<T>, i: nat, handle: u64, body: T): Pool<T>
    requires i < |p.slots|
  {
    Pool(p.slots[i := Some(Item(p.nextId, handle, body))], Wrap32(p.nextId + 1))
  }

  function Without<T>(p: Pool<T>, handle: u64): Pool<T> {
    match SlotWith(p, handle)
    case None => p
    case Some(i) => p.(slots := p.slots[i := None])
  }

  function FreeCount<T>(slots: seq<Option<Item<T>>>): (n: nat)
    ensures n <= |slots|
  {
    if slots == [] then 0 else FreeCount(slots[..|slots| - 1]) + if slots[|slots| - 1].None? then 1 else 0
  }

  // ----- The tables -----

  predicate Shaped<T>(t: Tables<T>) {
    |t.pools| == 5
  }

  function Apply<T>(t: Tables<T>, op: Operation<T>): (r: Tables<T>)
    requires Shaped(t)
    ensures Shaped(r) && forall k: Kind :: |r.pools[k].slots| == |t.pools[k].slots|
  {
    match op
    case Create(kind, body) =>
      (match FreeSlot(t.pools[kind])
       case None => t
       case Some(i) => Tables(t.pools[kind := Filled(t.pools[kind], i, t.next, body)], Wrap64(t.next + 1)))
    case Erase(kind, handle) => t.(pools := t.pools[kind := Without(t.pools[kind], handle)])
  }

  function RunOnTables<T>(t: Tables<T>, ops: seq<Operation<T>>): (r: Tables<T>)
    requires Shaped(t)
    ensures Shaped(r)
    decreases |ops|
  {
    if ops == [] then t else RunOnTables(Apply(t, ops[0]), ops[1..])
  }

  /** find_object_by_handle: processes, threads, device memory, shared memory; channels are looked up elsewhere. */
  function FindObject<T>(t: Tables<T>, handle: u64): Option<(Kind, nat)>
    requires Shaped(t)
  {
    if SlotWith(t.pools[PROCESSES], handle).Some? then Some((PROCESSES, SlotWith(t.pools[PROCESSES], handle).value))
    else if SlotWith(t.pools[THREADS], handle).Some? then Some((THREADS, SlotWith(t.pools[THREADS], handle).value))
    else if SlotWith(t.pools[DEVICE_MEMORY], handle).Some?
    then Some((DEVICE_MEMORY, SlotWith(t.pools[DEVICE_MEMORY], handle).value))
    else if SlotWith(t.pools[SHARED_MEMORY], handle).Some?
    then Some((SHARED_MEMORY, SlotWith(t.pools[SHARED_MEMORY], handle).value))
    else None
  }

  // ----- The map that the tables stand for -----

  datatype Entry<+T> = Entry(kind: Kind, body: T)

  datatype Directory<+T> = Directory(live: map<u64, Entry<T>>, next: u64)

  function OfKind<T>(live: map<u64, Entry<T>>, kind: Kind): set<u64> {
    set h | h in live && live[h].kind == kind
  }

  /** A kind with room gets one more object, under the next handle; an erased handle goes if it is of that kind. */
  function ApplyToMap<T>(d: Directory<T>, capacity: Kind -> nat, op: Operation<T>): Directory<T> {
    match op
    case Create(kind, body) =>
      if |OfKind(d.live, kind)| < capacity(kind)
      then Directory(d.live[d.next := Entry(kind, body)], Wrap64(d.next + 1))
      else d
    case Erase(kind, handle) =>
      if handle in d.live && d.live[handle].kind == kind then d.(live := d.live - {handle}) else d
  }

  function RunOnMap<T>(d: Directory<T>, capacity: Kind -> nat, ops: seq<Operation<T>>): Directory<T>
    decreases |ops|
  {
    if ops == [] then d else RunOnMap(ApplyToMap(d, capacity, ops[0]), capacity, ops[1..])
  }

  // ----- The tables refine the map -----

  ghost predicate Occupied<T>(t: Tables<T>, k: Kind, i: nat)
    requires Shaped(t)
  {
    i < |t.pools[k].slots| && t.pools[k].slots[i].Some?
  }

  ghost function At<T>(t: Tables<T>, k: Kind, i: nat): Item<T>
    requires Shaped(t) && Occupied(t, k, i)
  {
    t.pools[k].slots[i].value
  }

  /** Live handles are below the counter, none is zero, and no two objects share one. */
  ghost predicate Distinct<T>(t: Tables<T>) {
    && Shaped(t) && 0 < t.next
    && (forall k: Kind, i: nat :: Occupied(t, k, i) ==> 0 < At(t, k, i).handle < t.next)
    && (forall k: Kind, i: nat, m: Kind, j: nat ::
          Occupied(t, k, i) && Occupied(t, m, j) && At(t, k, i).handle == At(t, m, j).handle ==> k == m && i == j)
  }

  /** The map has the tables' objects and no others. */
  ghost predicate Matches<T>(t: Tables<T>, d: Directory<T>)
    requires Shaped(t)
  {
    && d.next == t.next
    && (forall k: Kind, i: nat :: Occupied(t, k, i) ==>
          At(t, k, i).handle in d.live && d.live[At(t, k, i).handle] == Entry(k, At(t, k, i).body))
    && (forall h :: h in d.live ==> Placed(t, d.live[h].kind, h))
  }

  ghost predicate Placed<T>(t: Tables<T>, k: Kind, h: u64)
    requires Shaped(t)
  {
    exists i: nat :: Occupied(t, k, i) && At(t, k, i).handle == h
  }

  ghost predicate Represents<T>(t: Tables<T>, d: Directory<T>) {
    Distinct(t) && Matches(t, d)
  }

  function Capacity<T>(t: Tables<T>): Kind -> nat
    requires Shaped(t)
  {
    (k: Kind) => |t.pools[k].slots|
  }

  /** Looking a handle up in a pool is looking it up in the map. */
  lemma LookupIsMapLookup<T>(t: Tables<T>, d: Directory<T>, k: Kind, h: u64)
    requires Represents(t, d)
    ensures var found := SlotWith(t.pools[k], h);
            && (found.Some? <==> h in d.live && d.live[h].kind == k)
            && (found.Some? ==> Occupied(t, k, found.value) && At(t, k, found.value).handle == h
                                && At(t, k, found.value).body == d.live[h].body)
  {
    var found := SlotWith(t.pools[k], h);
    if found.Some? {
      assert Occupied(t, k, found.value);
    }
    assert forall i: nat :: Occupied(t, k, i) && At(t, k, i).handle == h ==> Holds(t.pools[k].slots[i], h);
    assert h in d.live && d.live[h].kind == k ==> Placed(t, k, h);
  }

  /** find_object_by_handle finds a handle exactly when it names a live object that is not a channel. So a handle that
      is no channel's is answered WRONG_TYPE when it names a live object, and BAD_HANDLE when it names nothing. */
  lemma FindObjectIsMapLookup<T>(t: Tables<T>, d: Directory<T>, h: u64)
    requires Represents(t, d)
    ensures var found := FindObject(t, h);
            && (found.Some? <==> h in d.live && d.live[h].kind != CHANNELS)
            && (found.Some? ==> Occupied(t, found.value.0, found.value.1)
                                && Entry(found.value.0, At(t, found.value.0, found.value.1).body) == d.live[h])
  {
    forall k: Kind
      ensures var found := SlotWith(t.pools[k], h);
              && (found.Some? <==> h in d.live && d.live[h].kind == k)
              && (found.Some? ==> Occupied(t, k, found.value) && At(t, k, found.value).body == d.live[h].body)
    {
      LookupIsMapLookup(t, d, k, h);
    }
    hide SlotWith, Represents, Occupied;
  }

  // ----- Room -----

  ghost function HandlesIn<T>(slots: seq<Option<Item<T>>>): set<u64> {
    if slots == [] then {}
    else
      HandlesIn(slots[..|slots| - 1])
      + if slots[|slots| - 1].Some? then {slots[|slots| - 1].value.handle} else {}
  }

  lemma {:induction false} HandlesInIs<T>(slots: seq<Option<Item<T>>>, h: u64)
    ensures h in HandlesIn(slots) <==> exists i :: 0 <= i < |slots| && Holds(slots[i], h)
  {
    if slots != [] {
      var n := |slots| - 1;
      HandlesInIs(slots[..n], h);
      if h in HandlesIn(slots[..n]) {
        var i :| 0 <= i < n && Holds(slots[..n][i], h);
        assert Holds(slots[i], h);
      }
      if i :| 0 <= i < |slots| && Holds(slots[i], h) {
        if i < n {
          assert Holds(slots[..n][i], h);
        }
      }
    }
  }

  lemma {:induction false} TakenCount<T>(slots: seq<Option<Item<T>>>)
    requires forall i, j :: 0 <= i < j < |slots| && slots[i].Some? && slots[j].Some? ==>
               slots[i].value.handle != slots[j].value.handle
    ensures |HandlesIn(slots)| == |slots| - FreeCount(slots)
  {
    if slots != [] {
      var n := |slots| - 1;
      TakenCount(slots[..n]);
      if slots[n].Some? {
        HandlesInIs(slots[..n], slots[n].value.handle);
      }
    }
  }

  lemma {:induction false} FreeCountPositive<T>(slots: seq<Option<Item<T>>>)
    ensures FreeCount(slots) > 0 <==> exists i :: 0 <= i < |slots| && slots[i].None?
  {
    if slots != [] {
      var n := |slots| - 1;
      FreeCountPositive(slots[..n]);
      if i :| 0 <= i < n && slots[i].None? {
        assert slots[..n][i].None?;
      }
      if i :| 0 <= i < n && slots[..n][i].None? {
        assert slots[i].None?;
      }
    }
  }

  /** A pool's free slots are its capacity less the live objects of its kind. */
  lemma FreeCountIsRoom<T>(t: Tables<T>, d: Directory<T>, k: Kind)
    requires Represents(t, d)
    ensures FreeCount(t.pools[k].slots) == |t.pools[k].slots| - |OfKind(d.live, k)|
    ensures FreeSlot(t.pools[k]).Some? <==> |OfKind(d.live, k)| < |t.pools[k].slots|
  {
    var slots := t.pools[k].slots;
    forall i, j | 0 <= i < j < |slots| && slots[i].Some? && slots[j].Some?
      ensures slots[i].value.handle != slots[j].value.handle
    {
      assert Occupied(t, k, i) && Occupied(t, k, j);
    }
    TakenCount(slots);
    FreeCountPositive(slots);
    forall h: u64
      ensures h in HandlesIn(slots) <==> h in OfKind(d.live, k)
    {
      HandlesInIs(slots, h);
      LookupIsMapLookup(t, d, k, h);
    }
    hide Represents;
    assert HandlesIn(slots) == OfKind(d.live, k);
  }

  // ----- Runs -----

  /** How often a run may draw from the counter. */
  function Creations<T>(ops: seq<Operation<T>>): nat {
    if ops == [] then 0 else (if ops[0].Create? then 1 else 0) + Creations(ops[1..])
  }

  /** One more object, under the next handle, in the tables and in the map. */
  lemma GrownRepresents<T>(t: Tables<T>, d: Directory<T>, r: Tables<T>, e: Directory<T>, kind: Kind, f: nat)
    requires Represents(t, d) && Shaped(r) && r.next == t.next + 1 == e.next
    requires forall k: Kind, i: nat :: Occupied(r, k, i) <==> Occupied(t, k, i) || (k == kind && i == f)
    requires forall k: Kind, i: nat :: Occupied(t, k, i) ==> At(r, k, i) == At(t, k, i)
    requires Occupied(r, kind, f) && At(r, kind, f).handle == t.next && !Occupied(t, kind, f)
    requires e.live == d.live[t.next := Entry(kind, At(r, kind, f).body)]
    ensures Represents(r, e)
  {
    hide Occupied, At;
    forall h | h in e.live ensures Placed(r, e.live[h].kind, h) {
      if h in d.live {
        assert Placed(t, d.live[h].kind, h);
      }
    }
  }

  lemma CreateRefines<T>(t: Tables<T>, d: Directory<T>, kind: Kind, body: T)
    requires Represents(t, d) && t.next < U64_MAX
    ensures Represents(Apply(t, Create(kind, body)), ApplyToMap(d, Capacity(t), Create(kind, body)))
  {
    hide OfKind;
    FreeCountIsRoom(t, d, kind);
    var r, e := Apply(t, Create(kind, body)), ApplyToMap(d, Capacity(t), Create(kind, body));
    match FreeSlot(t.pools[kind])
    case None =>
    case Some(f) =>
      hide Distinct, Placed, FreeSlot;
      GrownRepresents(t, d, r, e, kind, f);
  }

  /** One object less, in the tables and in the map. */
  lemma ShrunkRepresents<T>(t: Tables<T>, d: Directory<T>, r: Tables<T>, e: Directory<T>, kind: Kind, f: nat)
    requires Represents(t, d) && Shaped(r) && r.next == t.next == e.next && Occupied(t, kind, f)
    requires forall k: Kind, i: nat :: Occupied(r, k, i) <==> Occupied(t, k, i) && !(k == kind && i == f)
    requires forall k: Kind, i: nat :: Occupied(r, k, i) ==> At(r, k, i) == At(t, k, i)
    requires e.live == d.live - {At(t, kind, f).handle}
    ensures Represents(r, e)
  {
    hide Occupied, At;
    forall h | h in e.live ensures Placed(r, e.live[h].kind, h) {
      assert Placed(t, d.live[h].kind, h);
    }
  }

  lemma EraseRefines<T>(t: Tables<T>, d: Directory<T>, kind: Kind, handle: u64)
    requires Represents(t, d)
    ensures Represents(Apply(t, Erase(kind, handle)), ApplyToMap(d, Capacity(t), Erase(kind, handle)))
  {
    LookupIsMapLookup(t, d, kind, handle);
    var r, e := Apply(t, Erase(kind, handle)), ApplyToMap(d, Capacity(t), Erase(kind, handle));
    match SlotWith(t.pools[kind], handle)
    case None =>
      assert t.pools[kind := t.pools[kind]] == t.pools;
    case Some(f) =>
      hide Distinct, Placed, SlotWith;
      ShrunkRepresents(t, d, r, e, kind, f);
  }

  /** Over any run below counter wrap the five tables are one map: same objects under the same handles, a creation
      refused exactly when its kind is full, an erasure without effect exactly when the handle names nothing of its
      kind. Live handles stay distinct and non-zero (Distinct). */
  lemma {:induction false} RunRefinesMap<T>(t: Tables<T>, d: Directory<T>, ops: seq<Operation<T>>)
    requires Represents(t, d) && t.next + Creations(ops) <= U64_MAX
    ensures Represents(RunOnTables(t, ops), RunOnMap(d, Capacity(t), ops))
    decreases |ops|
  {
    if ops != [] {
      match ops[0] {
        case Create(kind, body) => CreateRefines(t, d, kind, body);
        case Erase(kind, handle) => EraseRefines(t, d, kind, handle);
      }
      var next := Apply(t, ops[0]);
      assert next.next <= t.next + Creations(ops) - Creations(ops[1..]);
      SameCapacity(t, ops[0]);
      hide Represents;
      RunRefinesMap(next, ApplyToMap(d, Capacity(t), ops[0]), ops[1..]);
      SameRuns(ApplyToMap(d, Capacity(t), ops[0]), Capacity(t), Capacity(next), ops[1..]);
    }
  }

  lemma SameCapacity<T>(t: Tables<T>, op: Operation<T>)
    requires Shaped(t)
    ensures forall k: Kind :: Capacity(Apply(t, op))(k) == Capacity(t)(k)
  {
  }

  lemma {:induction false} SameRuns<T>(d: Directory<T>, c: Kind -> nat, e: Kind -> nat, ops: seq<Operation<T>>)
    requires forall k: Kind :: c(k) == e(k)
    ensures RunOnMap(d, c, ops) == RunOnMap(d, e, ops)
    decreases |ops|
  {
    if ops != [] {
      assert ApplyToMap(d, c, ops[0]) == ApplyToMap(d, e, ops[0]);
      SameRuns(ApplyToMap(d, c, ops[0]), c, e, ops[1..]);
    }
  }

  /** The pools right after reset: empty, the counter at 1. */
  predicate Fresh<T>(t: Tables<T>) {
    Shaped(t) && t.next == 1 && forall k: Kind :: forall i :: 0 <= i < |t.pools[k].slots| ==> t.pools[k].slots[i].None?
  }

  lemma FreshRunsAreTheMap<T>(t: Tables<T>, ops: seq<Operation<T>>)
    requires Fresh(t) && 1 + Creations(ops) <= U64_MAX
    ensures Represents(RunOnTables(t, ops), RunOnMap(Directory(map[], 1), Capacity(t), ops))
  {
    RunRefinesMap(t, Directory(map[], 1), ops);
  }

  /** Handles are never reused: what a handle that has already been issued names after more operations, it named
      before them. */
  lemma {:induction false} NeverReused<T>(d: Directory<T>, capacity: Kind -> nat, ops: seq<Operation<T>>, h: u64)
    requires h < d.next && d.next + Creations(ops) <= U64_MAX
    ensures h < RunOnMap(d, capacity, ops).next
    ensures h in RunOnMap(d, capacity, ops).live ==>
              h in d.live && RunOnMap(d, capacity, ops).live[h] == d.live[h]
    decreases |ops|
  {
    if ops != [] {
      var e := ApplyToMap(d, capacity, ops[0]);
      assert d.next <= e.next <= d.next + Creations(ops) - Creations(ops[1..]);
      NeverReused(e, capacity, ops[1..], h);
      hide OfKind;
    }
  }

  // ----- The pools as objects -----

  class HandleCounter {
    var next: u64
  }

  class ObjectPool<T> {
    const items: array<Option<Item<T>>>
    var nextId: u32
    var counter: HandleCounter?

    function State(): Pool<T>
      reads this, items
    {
      Pool(items[..], nextId)
    }

    constructor (capacity: nat)
      ensures fresh(items) && items.Length == capacity && counter == null && nextId == 1
      ensures forall i :: 0 <= i < capacity ==> items[i].None?
    {
      items := new Option<Item<T>>[capacity](i => None);
      nextId, counter := 1, null;
    }

    method DestroyOccupiedItems()
      modifies items
      ensures forall i :: 0 <= i < items.Length ==> items[i].None?
    {
      for index := 0 to items.Length
        invariant forall i :: 0 <= i < index ==> items[i].None?
      {
        if items[index].Some? {
          items[index] := None;
        }
      }
    }

    method Reset(counter: HandleCounter)
      modifies this, items
      ensures this.counter == counter && nextId == 1
      ensures forall i :: 0 <= i < items.Length ==> items[i].None?
    {
      DestroyOccupiedItems();
      this.counter := counter;
      nextId := 1;
    }

    /** emplace: the first free slot takes the object with the next id and the next handle. A full pool, or one that was
        never reset, draws no handle. */
    method Emplace(body: T) returns (r: Option<nat>)
      modifies this`nextId, items, counter
      ensures r == if counter == null then None else FreeSlot(old(State()))
      ensures r.None? ==> State() == old(State()) && (counter != null ==> counter.next == old(counter.next))
      ensures r.Some? ==> State() == Filled(old(State()), r.value, old(counter.next), body)
                          && counter.next == Wrap64(old(counter.next) + 1)
    {
      if counter == null {
        return None;
      }
      ghost var test := (slot: Option<Item<T>>) => slot.None?;
      for index := 0 to items.Length
        invariant State() == old(State()) && counter.next == old(counter.next)
        invariant First(items[..], test) == FirstIn(items[..], test, index, items.Length)
      {
        if items[index].None? {
          var handle: u64 := counter.next;
          counter.next := Wrap64(handle + 1);
          items[index] := Some(Item(nextId, handle, body));
          nextId := Wrap32(nextId + 1);
          return Some(index);
        }
      }
      return None;
    }

    /** has_free_items: at least `required` slots are free. */
    method HasFreeItems(required: u32) returns (r: bool)
      ensures r <==> required <= FreeCount(items[..])
    {
      var free := 0;
      for index := 0 to items.Length
        invariant free == FreeCount(items[..index])
        invariant index > 0 ==> free < required || required == 0
      {
        assert items[..index + 1][..index] == items[..index];
        if items[index].None? {
          free := free + 1;
          if free >= required {
            FreeCountGrows(items[..], index + 1);
            return true;
          }
        }
      }
      assert items[..items.Length] == items[..];
      return required == 0;
    }

    method EraseByHandle(handle: u64) returns (erased: bool)
      modifies items
      ensures erased <==> SlotWith(old(State()), handle).Some?
      ensures State() == Without(old(State()), handle)
    {
      ghost var test := (slot: Option<Item<T>>) => Holds(slot, handle);
      for index := 0 to items.Length
        invariant State() == old(State())
        invariant First(items[..], test) == FirstIn(items[..], test, index, items.Length)
      {
        if items[index].None? {
          continue;
        }
        if items[index].value.handle != handle {
          continue;
        }
        items[index] := None;
        return true;
      }
      return false;
    }

    method FindByHandle(handle: u64) returns (r: Option<nat>)
      ensures r == SlotWith(State(), handle)
    {
      ghost var test := (slot: Option<Item<T>>) => Holds(slot, handle);
      for index := 0 to items.Length
        invariant First(items[..], test) == FirstIn(items[..], test, index, items.Length)
      {
        if items[index].None? {
          continue;
        }
        if items[index].value.handle == handle {
          return Some(index);
        }
      }
      return None;
    }
  }

  lemma {:induction false} FreeCountGrows<T>(slots: seq<Option<Item<T>>>, n: nat)
    requires n <= |slots|
    ensures FreeCount(slots[..n]) <= FreeCount(slots)
    decreases |slots|
  {
    if n == |slots| {
      assert slots[..n] == slots;
    } else {
      FreeCountGrows(slots[..|slots| - 1], n);
      assert slots[..|slots| - 1][..n] == slots[..n];
    }
  }

  /** The user runtime's five pools over one counter. */
  class ObjectTables<T> {
    const pools: seq<ObjectPool<T>>
    const counter: HandleCounter

    ghost predicate Separate() {
      && |pools| == 5
      && (forall k: Kind, m: Kind :: k != m ==> pools[k] != pools[m] && pools[k].items != pools[m].items)
    }

    ghost predicate Valid()
      reads pools
    {
      Separate() && forall k: Kind :: pools[k].counter == counter
    }

    ghost function State(): Tables<T>
      requires Valid()
      reads pools, set k: Kind | k < |pools| :: pools[k].items, counter
    {
      Tables(seq(5, i requires 0 <= i < 5 reads pools, set k: Kind | k < |pools| :: pools[k].items =>
               pools[i].State()), counter.next)
    }

    constructor (capacity: Kind -> nat)
      ensures Separate() && fresh(counter)
      ensures forall k: Kind :: pools[k].items.Length == capacity(k) && fresh(pools[k]) && fresh(pools[k].items)
    {
      var processes := new ObjectPool<T>(capacity(PROCESSES));
      var threads := new ObjectPool<T>(capacity(THREADS));
      var deviceMemory := new ObjectPool<T>(capacity(DEVICE_MEMORY));
      var channels := new ObjectPool<T>(capacity(CHANNELS));
      var sharedMemory := new ObjectPool<T>(capacity(SHARED_MEMORY));
      counter := new HandleCounter;
      pools := [processes, threads, deviceMemory, channels, sharedMemory];
    }

    /** reset: every pool is emptied and draws from the one counter, which starts at 1. */
    method Reset()
      requires Separate()
      modifies counter, pools, set k: Kind | k < |pools| :: pools[k].items
      ensures Valid() && Fresh(State())
    {
      counter.next := 1;
      pools[PROCESSES].Reset(counter);
      pools[THREADS].Reset(counter);
      pools[DEVICE_MEMORY].Reset(counter);
      pools[CHANNELS].Reset(counter);
      pools[SHARED_MEMORY].Reset(counter);
    }

    /** create_process, create_thread, create_device_memory_object, create_shared_memory_object and the channel that
        RPC_OPEN makes. */
    method CreateObject(kind: Kind, body: T) returns (r: Option<nat>)
      requires Valid()
      modifies pools[kind], pools[kind].items, counter
      ensures Valid() && State() == Apply(old(State()), Create(kind, body))
      ensures r == FreeSlot(old(State()).pools[kind])
    {
      ghost var before := State();
      assert before.pools[kind] == pools[kind].State();
      r := pools[kind].Emplace(body);
      assert forall k: Kind :: k != kind ==> pools[k].State() == before.pools[k];
      assert State().pools == if r.Some? then before.pools[kind := Filled(before.pools[kind], r.value, before.next, body)]
                              else before.pools;
    }

    method EraseObject(kind: Kind, handle: u64) returns (erased: bool)
      requires Valid()
      modifies pools[kind].items
      ensures Valid() && State() == Apply(old(State()), Erase(kind, handle))
      ensures erased <==> SlotWith(old(State()).pools[kind], handle).Some?
    {
      ghost var before := State();
      assert before.pools[kind] == pools[kind].State();
      erased := pools[kind].EraseByHandle(handle);
      assert forall k: Kind :: k != kind ==> pools[k].State() == before.pools[k];
      assert State().pools == before.pools[kind := Without(before.pools[kind], handle)];
    }

    method FindObjectByHandle(handle: u64) returns (r: Option<(Kind, nat)>)
      requires Valid()
      ensures r == FindObject(State(), handle)
    {
      assert forall k: Kind :: State().pools[k] == pools[k].State();
      var slot := pools[PROCESSES].FindByHandle(handle);
      if slot.Some? {
        return Some((PROCESSES, slot.value));
      }
      slot := pools[THREADS].FindByHandle(handle);
      if slot.Some? {
        return Some((THREADS, slot.value));
      }
      slot := pools[DEVICE_MEMORY].FindByHandle(handle);
      if slot.Some? {
        return Some((DEVICE_MEMORY, slot.value));
      }
      slot := pools[SHARED_MEMORY].FindByHandle(handle);
      if slot.Some? {
        return Some((SHARED_MEMORY, slot.value));
      }
      return None;
    }
  }
}
