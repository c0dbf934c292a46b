/**
 The kernel's runs over its object pools: from boot on, at every state of a run, the five pools hold the kernel's objects
 and stand for one map of live handles, and a trap moves them by creating or erasing at most a channel.
 */
module KernelDirectory {
  import opened Words
  import opened Status
  import opened Search
  import opened UserCopy
  import opened KernelModel
  import opened KernelBoot
  import opened KernelInvariant
  import opened KernelEffects
  import opened KernelRuns
  import opened KernelTransparency
  import KernelDelivery
  import opened KernelEvolution
  import opened HandlePools
  import opened KernelHandles

  // ----- Every table has its map -----

  ghost function HandlesOf<T>(t: Tables<T>): set<u64>
    requires Shaped(t)
  {
    HandlesIn(t.pools[PROCESSES].slots) + HandlesIn(t.pools[THREADS].slots) + HandlesIn(t.pools[DEVICE_MEMORY].slots)
    + HandlesIn(t.pools[CHANNELS].slots) + HandlesIn(t.pools[SHARED_MEMORY].slots)
  }

  lemma HandlesOfIs<T>(t: Tables<T>, h: u64)
    requires Shaped(t)
    ensures h in HandlesOf(t) <==> exists k: Kind :: Placed(t, k, h)
  {
    forall k: Kind ensures h in HandlesIn(t.pools[k].slots) <==> Placed(t, k, h) {
      PlacedIn(t, k, h);
    }
    hide HandlesIn, Placed;
    if k: Kind :| Placed(t, k, h) {
      assert k == PROCESSES || k == THREADS || k == DEVICE_MEMORY || k == CHANNELS || k == SHARED_MEMORY;
    }
  }

  lemma PlacedIn<T>(t: Tables<T>, k: Kind, h: u64)
    requires Shaped(t)
    ensures h in HandlesIn(t.pools[k].slots) <==> Placed(t, k, h)
  {
    HandlesInIs(t.pools[k].slots, h);
    hide HandlesIn;
    if i :| 0 <= i < |t.pools[k].slots| && Holds(t.pools[k].slots[i], h) {
      assert Occupied(t, k, i) && At(t, k, i).handle == h;
    }
    if Placed(t, k, h) {
      var i: nat :| Occupied(t, k, i) && At(t, k, i).handle == h;
      assert Holds(t.pools[k].slots[i], h);
    }
  }

  ghost function EntryAt<T>(t: Tables<T>, h: u64): Entry<T>
    requires Shaped(t) && exists k: Kind :: Placed(t, k, h)
  {
    var k: Kind :| Placed(t, k, h);
    var i: nat :| Occupied(t, k, i) && At(t, k, i).handle == h;
    Entry(k, At(t, k, i).body)
  }

  lemma DirectoryExists<T>(t: Tables<T>) returns (d: Directory<T>)
    requires Distinct(t)
    ensures Represents(t, d)
  {
    forall h ensures h in HandlesOf(t) <==> exists k: Kind :: Placed(t, k, h) {
      HandlesOfIs(t, h);
    }
    d := Directory(map h | h in HandlesOf(t) :: EntryAt(t, h), t.next);
    hide HandlesOf;
    forall k: Kind, i: nat | Occupied(t, k, i)
      ensures At(t, k, i).handle in d.live && d.live[At(t, k, i).handle] == Entry(k, At(t, k, i).body)
    {
      assert Placed(t, k, At(t, k, i).handle);
    }
    forall h | h in d.live ensures Placed(t, d.live[h].kind, h) {
    }
  }

  // ----- Boot -----

  ghost function Plain(handle: u64): Option<Item<Identity>> {
    Some(Item(1, handle, PlainObject))
  }

  lemma {:induction false} SetAsSeq(xs: set<u64>) returns (r: seq<u64>)
    ensures forall x :: x in xs <==> x in r
    ensures forall i, j :: 0 <= i < j < |r| ==> r[i] != r[j]
    decreases |xs|
  {
    if xs == {} {
      r := [];
    } else {
      var x :| x in xs;
      var rest := SetAsSeq(xs - {x});
      r := rest + [x];
    }
  }

  ghost function PlainPool(handles: seq<u64>): Pool<Identity> {
    Pool(seq(|handles|, i requires 0 <= i < |handles| => Plain(handles[i])), 1)
  }

  lemma PlainPoolFinds(handles: seq<u64>, h: u64)
    ensures SlotWith(PlainPool(handles), h).Some? <==> h in handles
  {
    var slots := PlainPool(handles).slots;
    assert forall i :: 0 <= i < |slots| ==> (Holds(slots[i], h) <==> handles[i] == h);
  }

  ghost function ProcessHandles(s: KernelState): seq<u64> {
    seq(|s.processes|, p requires 0 <= p < |s.processes| => s.processes[p].handle)
  }

  ghost function ThreadHandles(s: KernelState): seq<u64> {
    seq(|s.threads|, t requires 0 <= t < |s.threads| => s.threads[t].handle)
  }

  /** The pools that boot leaves behind. */
  ghost function BootTables(s: KernelState, others: seq<u64>): Tables<Identity> {
    Tables([PlainPool(ProcessHandles(s)), PlainPool(ThreadHandles(s)), PlainPool(others),
            Pool(seq(|s.channels|, _ => None), 1), Pool([], 1)], s.nextHandle)
  }

  lemma BootDistinct(s: KernelState, others: seq<u64>)
    requires Booted(s) && (forall x :: x in s.otherHandles <==> x in others)
    requires forall i, j :: 0 <= i < j < |others| ==> others[i] != others[j]
    ensures Distinct(BootTables(s, others))
  {
    var t := BootTables(s, others);
    forall k: Kind, i: nat | Occupied(t, k, i) ensures ObjectExists(s, At(t, k, i).handle) {
      if k == DEVICE_MEMORY {
        assert others[i] in s.otherHandles;
      }
    }
    hide Shape, ObjectExists;
    forall k: Kind, i: nat, m: Kind, j: nat
      | Occupied(t, k, i) && Occupied(t, m, j) && At(t, k, i).handle == At(t, m, j).handle
      ensures k == m && i == j
    {
      assert k in {PROCESSES, THREADS, DEVICE_MEMORY} && m in {PROCESSES, THREADS, DEVICE_MEMORY};
    }
  }

  /** Boot leaves pools that hold its objects and stand for a map. */
  lemma BootHolds(s: KernelState) returns (t: Tables<Identity>, d: Directory<Identity>)
    requires Booted(s)
    ensures Holding(s, t) && Represents(t, d) && t.next == s.nextHandle
  {
    hide Represents, Distinct, SlotWith, Shape;
    var others := SetAsSeq(s.otherHandles);
    t := BootTables(s, others);
    BootDistinct(s, others);
    d := DirectoryExists(t);
    BootPool(s, others);
    BootFinds(s, others);
    hide BootTables, IsPool, Booted;
    assert forall p :: 0 <= p < |s.processes| ==> ProcessHandles(s)[p] == s.processes[p].handle;
    assert forall i :: 0 <= i < |s.threads| ==> ThreadHandles(s)[i] == s.threads[i].handle;
  }

  lemma BootPool(s: KernelState, others: seq<u64>)
    requires Booted(s)
    ensures BootTables(s, others).next == s.nextHandle && IsPool(s, BootTables(s, others).pools[CHANNELS])
  {
    hide Shape;
  }

  lemma BootFinds(s: KernelState, others: seq<u64>)
    requires forall x :: x in s.otherHandles <==> x in others
    ensures var t := BootTables(s, others);
            forall h: u64 ::
              && (SlotWith(t.pools[PROCESSES], h).Some? <==> h in ProcessHandles(s))
              && (SlotWith(t.pools[THREADS], h).Some? <==> h in ThreadHandles(s))
              && (h in s.otherHandles <==>
                  SlotWith(t.pools[DEVICE_MEMORY], h).Some? || SlotWith(t.pools[SHARED_MEMORY], h).Some?)
  {
    var t := BootTables(s, others);
    assert t.pools[SHARED_MEMORY].slots == PlainPool([]).slots;
    hide PlainPool, SlotWith, ProcessHandles, ThreadHandles;
    forall h: u64
      ensures SlotWith(t.pools[PROCESSES], h).Some? <==> h in ProcessHandles(s)
      ensures SlotWith(t.pools[THREADS], h).Some? <==> h in ThreadHandles(s)
      ensures h in s.otherHandles <==>
                SlotWith(t.pools[DEVICE_MEMORY], h).Some? || SlotWith(t.pools[SHARED_MEMORY], h).Some?
    {
      PlainPoolFinds(ProcessHandles(s), h);
      PlainPoolFinds(ThreadHandles(s), h);
      PlainPoolFinds(others, h);
      PlainPoolFinds([], h);
      SameSlotsFind(t.pools[SHARED_MEMORY], PlainPool([]), h);
    }
  }

  lemma SameSlotsFind(p: Pool<Identity>, q: Pool<Identity>, h: u64)
    requires p.slots == q.slots
    ensures SlotWith(p, h) == SlotWith(q, h)
  {
  }

  // ----- One trap -----

  /** What a trap may do to the tables: nothing, or create a channel, or erase one, or create one and take it back. */
  predicate ChannelWork(ops: seq<Operation<Identity>>) {
    || ops == []
    || (|ops| == 1 && ops[0].kind == CHANNELS)
    || (|ops| == 2 && ops[0].Create? && ops[1].Erase? && ops[0].kind == CHANNELS && ops[1].kind == CHANNELS)
  }

  /** The tables hold the state's objects, and agree with it on the next handle. */
  ghost predicate Carries(s: KernelState, t: Tables<Identity>) {
    Holding(s, t) && t.next == s.nextHandle
  }

  ghost predicate SameObjects(s: KernelState, s': KernelState) {
    && s'.processes == s.processes && s'.otherHandles == s.otherHandles && |s'.threads| == |s.threads|
    && forall t :: 0 <= t < |s.threads| ==> s'.threads[t].handle == s.threads[t].handle
  }

  lemma CarriesChannels(s: KernelState, s': KernelState, t: Tables<Identity>, t': Tables<Identity>)
    requires Carries(s, t) && SameObjects(s, s') && Shaped(t')
    requires forall k: Kind :: k != CHANNELS ==> t'.pools[k] == t.pools[k]
    requires IsPool(s', t'.pools[CHANNELS]) && t'.next == s'.nextHandle
    ensures Carries(s', t')
  {
    hide SlotWith, IsPool;
  }

  lemma PoolKept(s: KernelState, s': KernelState, p: Pool<Identity>)
    requires IsPool(s, p) && ChannelsKept(s, s')
    ensures IsPool(s', p)
  {
  }

  lemma OpenCases(s: KernelState, active: nat, call: SyscallContext)
    returns (issued: bool, k: nat, owner: nat, e: nat, target: u64)
    requires Shape(s) && active < |s.threads|
    ensures var r := Open(s, active, call);
            if issued then
              FreeChannel(s) == Some(k) && k < |s.channels| && owner < |s.processes| && e < |s.endpoints|
              && r == Issue(s, k, owner, e, target)
            else r.state == s
  {
    assert ThreadShape(s.threads[active], |s.processes|);
    owner, target := s.threads[active].process, call.argument1;
    var name := UserString(s.memory, s.processes[owner].mappings, call.argument0, NAME_BUFFER_SIZE);
    hide Shape, UserString, Issue, FirstIn;
    var server := if EndpointByName(s, name.bytes).Some? then s.endpoints[EndpointByName(s, name.bytes).value].ownerThread
                  else None;
    issued := call.argument0 != 0 && call.argument1 != 0 && name.status == STATUS_OK
              && EndpointByName(s, name.bytes).Some? && server.Some? && s.threads[server.value].state != Exited
              && FreeChannel(s).Some?;
    k := if FreeChannel(s).Some? then FreeChannel(s).value else 0;
    e := if EndpointByName(s, name.bytes).Some? then EndpointByName(s, name.bytes).value else 0;
  }

  lemma RunsOf(t: Tables<Identity>, a: Operation<Identity>, b: Operation<Identity>)
    requires Shaped(t)
    ensures RunOnTables(t, []) == t && RunOnTables(t, [a]) == Apply(t, a)
    ensures RunOnTables(t, [a, b]) == Apply(Apply(t, a), b)
  {
    hide Apply;
    assert [a][1..] == [] && [a, b][1..] == [b] && [b][1..] == [];
    assert RunOnTables(Apply(t, a), [b]) == RunOnTables(Apply(Apply(t, a), b), []);
  }

  lemma CreateIs(t: Tables<Identity>, k: nat, body: Identity)
    requires Shaped(t) && FreeSlot(t.pools[CHANNELS]) == Some(k) && k < |t.pools[CHANNELS].slots|
    ensures Apply(t, Create(CHANNELS, body))
         == Tables(t.pools[CHANNELS := Filled(t.pools[CHANNELS], k, t.next, body)], Wrap64(t.next + 1))
  {
    hide FreeSlot, Filled;
  }

  lemma EraseIs(t: Tables<Identity>, h: u64)
    requires Shaped(t)
    ensures Apply(t, Erase(CHANNELS, h)) == t.(pools := t.pools[CHANNELS := Without(t.pools[CHANNELS], h)])
  {
    hide Without;
  }

  /** The operations keep the pools the kernel's; only channels move. */
  ghost predicate Moves(s': KernelState, t: Tables<Identity>, ops: seq<Operation<Identity>>)
    requires Shaped(t)
  {
    && ChannelWork(ops) && IsPool(s', RunOnTables(t, ops).pools[CHANNELS])
    && RunOnTables(t, ops).next == s'.nextHandle
    && forall k: Kind :: k != CHANNELS ==> RunOnTables(t, ops).pools[k] == t.pools[k]
  }

  lemma IssueWork(s: KernelState, t: Tables<Identity>, k: nat, owner: nat, e: nat, target: u64)
    returns (ops: seq<Operation<Identity>>)
    requires Shape(s) && Carries(s, t) && FreeChannel(s) == Some(k) && k < |s.channels|
    requires owner < |s.processes| && e < |s.endpoints|
    ensures Moves(Issue(s, k, owner, e, target).state, t, ops)
  {
    hide Shape, Filled, Without, Issue, RunOnTables, Apply, FreeSlot, FreeChannel, IsPool, SlotWith;
    var p, body := t.pools[CHANNELS], ChannelOf(owner, e);
    var create, erase := Create(CHANNELS, body), Erase(CHANNELS, s.nextHandle);
    RunsOf(t, create, erase);
    ScansAgree(s, p, 0);
    IssueFollowsPool(s, p, k, owner, e, target);
    PoolSize(s, p);
    CreateIs(t, k, body);
    EraseIs(Apply(t, create), s.nextHandle);
    ops := if Issue(s, k, owner, e, target).status == STATUS_OK then [create] else [create, erase];
  }

  lemma PoolSize(s: KernelState, p: Pool<Identity>)
    requires IsPool(s, p)
    ensures |p.slots| == |s.channels|
  {
  }

  lemma OpenWork(s: KernelState, active: nat, call: SyscallContext, t: Tables<Identity>)
    returns (ops: seq<Operation<Identity>>)
    requires Shape(s) && active < |s.threads| && Carries(s, t)
    ensures Moves(Open(s, active, call).state, t, ops)
  {
    hide Shape, Open, FreeChannel, Issue, RunOnTables, IsPool, SlotWith;
    var issued, k, owner, e, target := OpenCases(s, active, call);
    if issued {
      ops := IssueWork(s, t, k, owner, e, target);
    } else {
      ops := [];
      RunsOf(t, Erase(CHANNELS, 0), Erase(CHANNELS, 0));
    }
  }

  lemma CloseCases(s: KernelState, active: nat, call: SyscallContext)
    requires Shape(s) && active < |s.threads|
    ensures var r := Close(s, active, call).state; r == s || r == EraseChannel(s, call.argument0)
  {
    hide Shape, ObjectExists, FirstIn, EraseChannel;
  }

  lemma CloseWork(s: KernelState, active: nat, call: SyscallContext, t: Tables<Identity>)
    returns (ops: seq<Operation<Identity>>)
    requires Shape(s) && active < |s.threads| && Carries(s, t)
    ensures Moves(Close(s, active, call).state, t, ops)
  {
    var erase := Erase(CHANNELS, call.argument0);
    CloseCases(s, active, call);
    hide Close, Without, EraseChannel, RunOnTables, Apply;
    RunsOf(t, erase, erase);
    ops := [];
    if Close(s, active, call).state != s {
      EraseFollowsPool(s, t.pools[CHANNELS], call.argument0);
      hide Shape, IsPool;
      EraseIs(t, call.argument0);
      ops := [erase];
    }
  }

  lemma ServeWork(s: KernelState, active: nat, call: SyscallContext, t: Tables<Identity>)
    returns (ops: seq<Operation<Identity>>)
    requires Executing(s, active) && s.nextHandle < U64_MAX && Carries(s, t)
    ensures ChannelWork(ops) && Carries(Serve(s, active, call).state, RunOnTables(t, ops))
  {
    ServeKin(s, active, call);
    var s' := Serve(s, active, call).state;
    RunsOf(t, Erase(CHANNELS, 0), Erase(CHANNELS, 0));
    ServeSameTables(s, active, call);
    hide Rpc, Handles, Shape, Touched, Open, Close, IsPool, Holding, RunOnTables, Serve;
    if call.number == SYSCALL_RPC_OPEN {
      ops := OpenWork(s, active, call, t);
    } else if call.number == SYSCALL_RPC_CLOSE {
      ops := CloseWork(s, active, call, t);
    } else {
      ops := [];
      PoolOf(s, t);
      PoolKept(s, s', t.pools[CHANNELS]);
    }
    CarriesChannels(s, s', t, RunOnTables(t, ops));
  }

  lemma PoolOf(s: KernelState, t: Tables<Identity>)
    requires Carries(s, t)
    ensures Shaped(t) && IsPool(s, t.pools[CHANNELS])
  {
  }

  lemma ServeSameTables(s: KernelState, active: nat, call: SyscallContext)
    requires Shape(s) && active < |s.threads|
    ensures var s' := Serve(s, active, call).state;
            && s'.processes == s.processes && s'.otherHandles == s.otherHandles
            && (call.number == SYSCALL_RPC_OPEN ==> s' == Open(s, active, call).state)
            && (call.number == SYSCALL_RPC_CLOSE ==> s' == Close(s, active, call).state)
            && (call.number != SYSCALL_RPC_OPEN ==> s'.nextHandle == s.nextHandle)
  {
    hide Shape, Register, Open, Call, Close, CompleteCall, TerminateCurrent, DebugLog;
  }

  /** One trap on the tables. */
  lemma TrapWork(s: KernelState, f: Frame, t: Tables<Identity>) returns (ops: seq<Operation<Identity>>)
    requires Inv(s) && Runnable(s) && FrameShape(f) && s.nextHandle < U64_MAX && Carries(s, t)
    ensures ChannelWork(ops) && Carries(HandleTrap(s, f).state, RunOnTables(t, ops))
  {
    EnterKeeps(s, f);
    EnteredKept(s, f);
    TrapIs(s, f);
    var s1, after, s' := Enter(s, f), Served(s, f).state, HandleTrap(s, f).state;
    hide Inv, Rpc, Handles, HandleTrap, Serve, Entered, PendingByServer, IsPool, RunOnTables, SlotWith, LoadFrame;
    PoolOf(s, t);
    PoolKept(s, s1, t.pools[CHANNELS]);
    CarriesChannels(s, s1, t, t);
    ops := ServeWork(s1, s.current.value, CallOf(f), t);
    var t' := RunOnTables(t, ops);
    hide Enter, Served, Shape;
    ReturnKin(after, s', s.current.value);
    PoolOf(after, t');
    PoolKept(after, s', t'.pools[CHANNELS]);
    CarriesChannels(after, s', t', t');
  }

  lemma ReturnKin(s: KernelState, s': KernelState, active: nat)
    requires s' == s || (active < |s.threads| && exists status :: s' == s.(threads := s.threads[active :=
                           PrepareSyscallResume(s.threads[active], status)]))
    ensures SameObjects(s, s') && ChannelsKept(s, s') && s'.nextHandle == s.nextHandle
  {
  }

  // ----- Runs -----

  /** The tables of a run and their maps, state by state, and the pool operations of each trap. */
  datatype Ledger = Ledger(tables: seq<Tables<Identity>>, books: seq<Directory<Identity>>,
                           works: seq<seq<Operation<Identity>>>)

  /** At state i the tables hold the objects, and stand for the map. */
  ghost predicate Recorded(states: seq<KernelState>, l: Ledger, i: nat)
    requires i < |states| && i < |l.tables| && i < |l.books|
  {
    Carries(states[i], l.tables[i]) && Represents(l.tables[i], l.books[i])
  }

  /** Trap i takes tables and map on by the same operations. */
  ghost predicate Turned(l: Ledger, i: nat)
    requires i < |l.works| && i + 1 < |l.tables| && i + 1 < |l.books|
  {
    && ChannelWork(l.works[i]) && Shaped(l.tables[i]) && l.tables[i + 1] == RunOnTables(l.tables[i], l.works[i])
    && l.books[i + 1] == RunOnMap(l.books[i], Capacity(l.tables[i]), l.works[i])
  }

  /** The ledger covers the first n traps. */
  ghost predicate Covers(states: seq<KernelState>, l: Ledger, n: nat) {
    && |l.tables| == |l.books| == |l.works| + 1 == n + 1 <= |states|
    && (forall i: nat :: i <= n ==> Recorded(states, l, i))
    && (forall i: nat :: i < n ==> Turned(l, i))
  }

  /** A trap draws at most one handle. */
  lemma WorkCreates(ops: seq<Operation<Identity>>)
    requires ChannelWork(ops)
    ensures Creations(ops) <= 1
  {
    if |ops| == 2 {
      assert ops[1..][1..] == [];
    } else if |ops| == 1 {
      assert ops[1..] == [];
    }
  }

  lemma StepWork(s: KernelState, trap: Trap, t: Tables<Identity>, d: Directory<Identity>)
    returns (ops: seq<Operation<Identity>>)
    requires Inv(s) && Enabled(s, trap) && s.nextHandle < U64_MAX && Carries(s, t) && Represents(t, d)
    ensures ChannelWork(ops) && Carries(Next(s, trap).state, RunOnTables(t, ops))
    ensures Represents(RunOnTables(t, ops), RunOnMap(d, Capacity(t), ops))
  {
    hide Inv, Represents, HandleTrap, IsPool, SlotWith, Shape, RunOnTables, RunOnMap;
    var m := MemoryInv(s, trap);
    PoolOf(s, t);
    PoolKept(s, m, t.pools[CHANNELS]);
    CarriesChannels(s, m, t, t);
    ops := TrapWork(m, trap.frame, t);
    WorkCreates(ops);
    RunRefinesMap(t, d, ops);
  }

  lemma {:induction false} RunHasLedger(states: seq<KernelState>, traps: seq<Trap>, n: nat) returns (l: Ledger)
    requires Run(states, traps) && n <= |traps|
    ensures Covers(states, l, n)
  {
    hide Booted, StepAt, Inv, Enabled, Next, Represents, Carries, RunOnTables, RunOnMap, ChannelWork;
    if n == 0 {
      var t, d := BootHolds(states[0]);
      CarriesAtBoot(states[0], t);
      l := Ledger([t], [d], []);
      assert Recorded(states, l, 0);
    } else {
      var k := RunHasLedger(states, traps, n - 1);
      RunInv(states, traps, n - 1);
      StepOf(states, traps, n - 1);
      var t, d := k.tables[n - 1], k.books[n - 1];
      assert Recorded(states, k, n - 1);
      CarriesShape(states[n - 1], t);
      var ops := StepWork(states[n - 1], traps[n - 1], t, d);
      l := Ledger(k.tables + [RunOnTables(t, ops)], k.books + [RunOnMap(d, Capacity(t), ops)], k.works + [ops]);
      assert forall i: nat :: i < n ==> Recorded(states, k, i) ==> Recorded(states, l, i);
      assert forall i: nat :: i < n - 1 ==> Turned(k, i) ==> Turned(l, i);
      assert Turned(l, n - 1) && Recorded(states, l, n);
    }
  }

  lemma CarriesAtBoot(s: KernelState, t: Tables<Identity>)
    requires Holding(s, t) && t.next == s.nextHandle
    ensures Carries(s, t)
  {
  }

  lemma CarriesShape(s: KernelState, t: Tables<Identity>)
    requires Carries(s, t)
    ensures Shaped(t)
  {
  }

  /** In every run the pools hold the kernel's objects, stand for one map, and go on together, a trap doing at most a
      channel's creation, erasure or both; the system calls' lookups are lookups in that map. */
  lemma RunFollowsPools(states: seq<KernelState>, traps: seq<Trap>) returns (l: Ledger)
    requires Run(states, traps)
    ensures Covers(states, l, |traps|)
    ensures forall i: nat, owner: nat, h: u64 :: i <= |traps| ==> AnsweredBy(states[i], l.books[i], owner, h)
  {
    l := RunHasLedger(states, traps, |traps|);
    hide Run, AnsweredBy, Carries, Represents;
    forall i: nat, owner: nat, h: u64 | i <= |traps| ensures AnsweredBy(states[i], l.books[i], owner, h) {
      AnsweredAt(states, l, |traps|, i, owner, h);
    }
  }

  lemma AnsweredAt(states: seq<KernelState>, l: Ledger, n: nat, i: nat, owner: nat, h: u64)
    requires Covers(states, l, n) && i <= n
    ensures AnsweredBy(states[i], l.books[i], owner, h)
  {
    hide AnsweredBy, Represents, Holding;
    assert Recorded(states, l, i);
    LookupByDirectory(states[i], l.tables[i], l.books[i], owner, h);
  }

  /** What a handle that was issued by state i names at state j, it named at state i. */
  lemma {:induction false} NamedBefore(states: seq<KernelState>, traps: seq<Trap>, l: Ledger, i: nat, j: nat, h: u64)
    requires Run(states, traps) && Covers(states, l, |traps|) && i <= j <= |traps| && h < states[i].nextHandle
    ensures h in l.books[j].live ==> h in l.books[i].live && l.books[j].live[h] == l.books[i].live[h]
    ensures h < l.books[j].next
  {
    hide Booted, StepAt, Inv, Represents, RunOnMap, RunOnTables, ChannelWork, Holding;
    NextOf(states, l, |traps|, i);
    if i < j {
      NamedBefore(states, traps, l, i, j - 1, h);
      assert Turned(l, j - 1);
      NextOf(states, l, |traps|, j - 1);
      RunInv(states, traps, j - 1);
      WorkCreates(l.works[j - 1]);
      NeverReused(l.books[j - 1], Capacity(l.tables[j - 1]), l.works[j - 1], h);
    }
  }

  lemma NextOf(states: seq<KernelState>, l: Ledger, n: nat, i: nat)
    requires Covers(states, l, n) && i <= n
    ensures l.books[i].next == states[i].nextHandle
  {
    assert Recorded(states, l, i);
  }

  /** Processes, threads and memory objects keep their handles over a run. */
  lemma {:induction false} ObjectsStay(states: seq<KernelState>, traps: seq<Trap>, i: nat, j: nat)
    requires Run(states, traps) && i <= j <= |traps|
    ensures SameObjects(states[i], states[j])
  {
    hide Booted, StepAt, Inv, Shape, Next;
    if i < j {
      ObjectsStay(states, traps, i, j - 1);
      RunCrosses(states, traps, j - 1);
      StepOf(states, traps, j - 1);
      StepTables(states[j - 1], traps[j - 1]);
      var s, s' := states[j - 1], states[j];
      forall t: nat | t < |s.threads| ensures s'.threads[t].handle == s.threads[t].handle {
        assert Crosses(s, traps[j - 1].frame, ResultAt(states, traps, j - 1), t);
      }
    }
  }

  lemma StepTables(s: KernelState, trap: Trap)
    requires Enabled(s, trap)
    ensures var s' := Next(s, trap).state;
            s'.processes == s.processes && s'.otherHandles == s.otherHandles && |s'.threads| == |s.threads|
  {
    hide Shape, Serve, Entered, LoadFrame, PrepareSyscallResume;
  }

  /** At every state of a run no two objects share a handle, of whatever kinds they are. */
  lemma LiveHandlesDistinct(states: seq<KernelState>, traps: seq<Trap>, i: nat)
    requires Run(states, traps) && i <= |traps|
    ensures DistinctObjects(states[i])
    ensures forall j, k :: Live(states[i], j) && Live(states[i], k) && j != k ==>
              states[i].channels[j].value.handle != states[i].channels[k].value.handle
    ensures forall k :: Live(states[i], k) ==> !ObjectExists(states[i], states[i].channels[k].value.handle)
  {
    RunInv(states, traps, i);
    ObjectsStay(states, traps, 0, i);
    hide Rpc, Shape, ObjectExists;
  }

  /** Handles are not reused: what a handle already issued at state i answers later is what it answers at state i, but
      that a channel may have gone. A channel that answers later is of the same client and endpoint. */
  lemma HandleNeverReused(states: seq<KernelState>, traps: seq<Trap>, i: nat, j: nat, owner: nat, h: u64)
    requires Run(states, traps) && i <= j <= |traps| && h < states[i].nextHandle
    ensures var before, later := LookupChannel(states[i], owner, h), LookupChannel(states[j], owner, h);
            && (before.Refused? ==> later == before)
            && (before.Found? ==> later.Found? || later == Refused(STATUS_BAD_HANDLE))
            && (before.Found? && later.Found? ==>
                 states[j].channels[later.slot].value.endpoint == states[i].channels[before.slot].value.endpoint)
  {
    var l := RunFollowsPools(states, traps);
    NamedBefore(states, traps, l, i, j, h);
    ObjectsStay(states, traps, i, j);
    RunInv(states, traps, i);
    RunInv(states, traps, j);
    KernelDelivery.LookupIsExact(states[i], owner, h);
    KernelDelivery.LookupIsExact(states[j], owner, h);
    hide Run, Covers, LookupChannel, Rpc, Shape;
    assert AnsweredBy(states[i], l.books[i], owner, h) && AnsweredBy(states[j], l.books[j], owner, h);
  }
}
