/**
 Scenes: what a kernel state looks like from afar, and how the system calls move it. Every process has one thread and
 the same page of memory with a handful of endpoint names; enough to build concrete runs trap by trap.
 */
module KernelScenes {
  import opened Words
  import opened Status
  import opened Search
  import opened AddressSpaces
  import opened UserCopy
  import opened KernelModel
  import opened KernelBoot
  import opened KernelInvariant
  import opened KernelEffects
  import opened KernelRuns

  const USER: u64 := 0x1000
  const OUT: u64 := 0x1100
  const STACK: u64 := 0x1F00
  const SIZE: nat := 0x1001

  /** One page of user memory, at host addresses 1 to 0x1000. */
  const PAGE: seq<Mapping> := [Mapping(0x1000, 1, 0x1000)]

  /** User memory with four one-letter names at its start. */
  function Memory(): (m: seq<u8>)
    ensures |m| == SIZE
  {
    seq(SIZE, i => if i == 1 then 97 else if i == 3 then 98 else if i == 5 then 99 else if i == 7 then 100 else 0)
  }

  type Letter = j: nat | j < 4

  function NameAt(j: Letter): u64 { 0x1000 + 2 * j }
  function NameOf(j: Letter): seq<u8> { [97 + j] }

  datatype Post = Post(name: Letter, owner: nat, busy: bool)

  datatype Line = Line(handle: u64, endpoint: nat, opener: nat, client: Option<nat>, server: Option<nat>)

  /** Thread states, the current thread, endpoints and channels by slot, and the next handle. */
  datatype Scene = Scene(threads: seq<ThreadState>, current: nat, posts: seq<Option<Post>>, lines: seq<Option<Line>>,
                         next: u64)

  function Processes(n: nat): (r: seq<ProcessRecord>)
    ensures |r| == n && forall p :: 0 <= p < n ==> r[p].mappings == PAGE
  {
    seq(n, p => ProcessRecord(Wrap64(2 * p + 1), PAGE))
  }

  predicate ThreadShows(t: ThreadRecord, process: nat, state: ThreadState) {
    t.process == process && t.state == state && t.context.stackPointer == STACK
  }

  function EndpointOf(post: Option<Post>): EndpointRecord {
    match post
    case None => CLEAR_ENDPOINT
    case Some(p) => EndpointRecord(true, p.busy, NameOf(p.name), Some(p.owner), Some(p.owner), USER, USER)
  }

  predicate ChannelShows(c: Option<ChannelRecord>, line: Option<Line>) {
    && (c.Some? <==> line.Some?)
    && (c.Some? ==> line.value == Line(c.value.handle, c.value.endpoint, c.value.clientProcess, c.value.pendingClient,
                                       c.value.pendingServer))
  }

  ghost predicate Shows(s: KernelState, c: Scene) {
    && s.processes == Processes(|c.threads|) && |s.memory| == SIZE && s.current == Some(c.current)
    && s.nextHandle == c.next
    && |s.threads| == |c.threads| && |s.endpoints| == |c.posts| && |s.channels| == |c.lines|
    && (forall t :: 0 <= t < |s.threads| ==> ThreadShows(s.threads[t], t, c.threads[t]))
    && (forall e :: 0 <= e < |s.endpoints| ==> s.endpoints[e] == EndpointOf(c.posts[e]))
    && (forall k :: 0 <= k < |s.channels| ==> ChannelShows(s.channels[k], c.lines[k]))
  }

  function Syscall(number: u64, rdi: u64, rsi: u64, rdx: u64): Frame {
    Frame(0, 0, 0, rdx, rsi, rdi, number, 0, 0, STACK, 0, 0, 0, 0, 0, 0, Zeros(SIMD_QWORD_COUNT))
  }

  // ----- The page -----

  lemma PageBacked(a: int)
    ensures Backed(PAGE, a) <==> 0x1000 <= a < 0x2000
    ensures Backed(PAGE, a) ==> HostOf(PAGE, a) == a - 0xFFF
  {
    assert Maps(PAGE[0], a) <==> 0x1000 <= a < 0x2000;
  }

  lemma PageInMemory()
    ensures InMemory(PAGE, SIZE)
  {
    forall a | Backed(PAGE, a) ensures 0 <= HostOf(PAGE, a) < SIZE {
      PageBacked(a);
    }
  }

  lemma RangeOnPage(a: int, n: nat)
    requires 0x1000 <= a && a + n <= 0x2000
    ensures RangeBacked(PAGE, a, n)
  {
    forall k | a <= k < a + n ensures Backed(PAGE, k) {
      PageBacked(k);
    }
  }

  lemma NameRead(j: Letter)
    ensures InMemory(PAGE, |Memory()|)
    ensures UserString(Memory(), PAGE, NameAt(j), NAME_BUFFER_SIZE) == StringResult(NameOf(j), STATUS_OK)
  {
    PageInMemory();
    NameInMemory(j);
    hide Memory, InMemory, Backed, HostOf, UserStringFrom, NameOf;
    PageBacked(NameAt(j));
    PageBacked(NameAt(j) + 1);
    UserStringStep(Memory(), PAGE, NameAt(j), [], NAME_BUFFER_SIZE);
    UserStringStep(Memory(), PAGE, NameAt(j), NameOf(j), NAME_BUFFER_SIZE);
  }

  lemma NameInMemory(j: Letter)
    ensures Memory()[1 + 2 * j] == 97 + j && Memory()[2 + 2 * j] == 0 && NameOf(j) == [] + [97 + j] && |NameOf(j)| == 1
  {
    assert j == 0 || j == 1 || j == 2 || j == 3;
  }

  // ----- Around a system call -----

  lemma EntersScene(s: KernelState, f: Frame, c: Scene)
    requires Shape(s) && Shows(s, c) && FrameShape(f) && f.rsp == STACK
    ensures Shows(Enter(s, f), c) && Enter(s, f).memory == s.memory
  {
    hide EndpointOf, ChannelShows;
  }

  lemma ReturnsScene(s: KernelState, status: i32, c: Scene)
    requires Shape(s) && Shows(s, c) && c.current < |c.threads|
    ensures Shows(PutThread(s, c.current, PrepareSyscallResume(s.threads[c.current], status)), c)
  {
    assert ThreadShape(s.threads[c.current], |s.processes|);
    hide Shape, EndpointOf, ChannelShows;
  }

  /** If the system call shows c', so does the trap. */
  lemma TrapShows(s: KernelState, f: Frame, c: Scene)
    requires Shape(s) && s.current.Some? && FrameShape(f) && Shows(Served(s, f).state, c) && c.current < |c.threads|
    ensures Shows(HandleTrap(s, f).state, c) && HandleTrap(s, f).status == Served(s, f).status
  {
    hide HandleTrap, Served, Shape, EndpointOf, ThreadShows, ChannelShows;
    TrapIs(s, f);
    ReturnsScene(Served(s, f).state, Served(s, f).status, c);
  }

  lemma ShowsRunnable(s: KernelState, c: Scene)
    requires Shows(s, c) && c.current < |c.threads| && c.threads[c.current] == Running
    ensures Runnable(s)
  {
  }

  // ----- Registering -----

  ghost predicate Unnamed(c: Scene, j: Letter) {
    forall e :: 0 <= e < |c.posts| && c.posts[e].Some? ==> c.posts[e].value.name != j
  }

  predicate FirstFree<T>(slots: seq<Option<T>>, e: nat) {
    e < |slots| && slots[e].None? && forall d :: 0 <= d < e ==> slots[d].Some?
  }

  ghost predicate Serving(c: Scene, t: nat) {
    exists k :: 0 <= k < |c.lines| && c.lines[k].Some? && c.lines[k].value.server == Some(t)
  }

  /** The current thread's new endpoint. */
  function Posted(c: Scene, j: Letter, e: nat): Scene
    requires e < |c.posts|
  {
    c.(posts := c.posts[e := Some(Post(j, c.current, false))])
  }

  /** The current thread gives way to n. */
  function Yielded(c: Scene, n: nat): Scene
    requires c.current < |c.threads| && n < |c.threads|
  {
    c.(threads := c.threads[c.current := Ready][n := Running], current := n)
  }

  /** n is the first READY thread after the current one, around the end of the table. */
  predicate NextAfter(c: Scene, n: nat) {
    && n < |c.threads| && c.threads[n] == Ready && c.current < |c.threads|
    && if c.current < n then forall t :: c.current < t < n ==> c.threads[t] != Ready
       else (forall t :: c.current < t < |c.threads| ==> c.threads[t] != Ready)
            && (forall t :: 0 <= t < n ==> c.threads[t] != Ready)
  }

  lemma NamesTell(s: KernelState, c: Scene, j: Letter)
    requires Shows(s, c)
    ensures Unnamed(c, j) ==> EndpointByName(s, NameOf(j)) == None
    ensures forall e: nat :: FirstFree(c.posts, e) ==> FreeEndpoint(s) == Some(e)
  {
    assert forall e :: 0 <= e < |s.endpoints| ==> s.endpoints[e].inUse == c.posts[e].Some?;
    assert forall e :: 0 <= e < |s.endpoints| && c.posts[e].Some? ==>
      (HasName(s.endpoints[e], NameOf(j)) <==> c.posts[e].value.name == j);
    hide EndpointOf, ThreadShows, ChannelShows;
  }

  lemma PostShows(s: KernelState, c: Scene, j: Letter, e: nat)
    requires Shape(s) && Shows(s, c) && e < |c.posts| && c.current < |c.threads|
    ensures Shows(PutEndpoint(s, e, EndpointOf(Some(Post(j, c.current, false)))), Posted(c, j, e))
  {
    hide ThreadShows, ChannelShows;
  }

  lemma ServingTells(s: KernelState, c: Scene)
    requires Shows(s, c)
    ensures PendingByServer(s, c.current).Some? <==> Serving(c, c.current)
  {
    assert forall k :: 0 <= k < |s.channels| ==>
      (PendingOn(s.channels[k], c.current) <==> c.lines[k].Some? && c.lines[k].value.server == Some(c.current));
    hide EndpointOf, ThreadShows, ChannelShows;
  }

  lemma NextTells(s: KernelState, c: Scene, n: nat)
    requires Shows(s, c) && NextAfter(c, n)
    ensures NextReady(s.threads, Some(c.current)) == Some(n)
  {
    assert forall t :: 0 <= t < |s.threads| ==> (IsReady(s.threads[t]) <==> c.threads[t] == Ready);
    hide EndpointOf, ChannelShows;
  }

  /** A thread that serves no call registers and yields to n; one that serves a call goes on. */
  lemma RegisterScene(s: KernelState, c: Scene, j: Letter, e: nat, n: Option<nat>, call: SyscallContext)
    requires Shape(s) && Shows(s, c) && s.memory == Memory() && Unnamed(c, j) && FirstFree(c.posts, e)
    requires c.current < |c.threads| && c.threads[c.current] == Running
    requires if n.Some? then NextAfter(c, n.value) && !Serving(c, c.current) else Serving(c, c.current)
    requires call.argument0 == NameAt(j) && call.argument1 == USER && call.argument2 == USER
    ensures Shows(Register(s, c.current, call).state,
                  if n.Some? then Yielded(Posted(c, j, e), n.value) else Posted(c, j, e))
  {
    hide Backed, UserString, InMemory, ThreadShows, ChannelShows, FirstIn, YieldUnlessServing, Register;
    CallerOf(s, c);
    NamesTell(s, c, j);
    RegisterIsInstall(s, c, j, e, call);
    var s1 := PutEndpoint(s, e, EndpointOf(Some(Post(j, c.current, false))));
    PostShows(s, c, j, e);
    YieldScene(s1, Posted(c, j, e), n);
  }

  lemma CallerOf(s: KernelState, c: Scene)
    requires Shape(s) && Shows(s, c) && c.current < |c.threads|
    ensures s.threads[c.current].process == c.current < |s.processes| && s.processes[c.current].mappings == PAGE
  {
    hide EndpointOf, ChannelShows;
  }

  lemma RegisterIsInstall(s: KernelState, c: Scene, j: Letter, e: nat, call: SyscallContext)
    requires Shape(s) && c.current < |s.threads| && s.threads[c.current].process == c.current < |s.processes|
    requires s.processes[c.current].mappings == PAGE && s.memory == Memory()
    requires EndpointByName(s, NameOf(j)) == None && FreeEndpoint(s) == Some(e) && e < |s.endpoints|
    requires call.argument0 == NameAt(j) && call.argument1 == USER && call.argument2 == USER
    ensures Register(s, c.current, call)
         == Outcome(YieldUnlessServing(PutEndpoint(s, e, EndpointOf(Some(Post(j, c.current, false)))), c.current), STATUS_OK)
  {
    hide Shape, Backed, UserString, InMemory, FirstIn, YieldUnlessServing, Memory;
    NameRead(j);
    PageBacked(USER);
  }

  lemma YieldScene(s: KernelState, c: Scene, n: Option<nat>)
    requires Shape(s) && Shows(s, c) && c.current < |c.threads| && c.threads[c.current] == Running
    requires if n.Some? then NextAfter(c, n.value) && !Serving(c, c.current) else Serving(c, c.current)
    ensures Shows(YieldUnlessServing(s, c.current), if n.Some? then Yielded(c, n.value) else c)
  {
    ServingTells(s, c);
    assert ThreadShape(s.threads[c.current], |s.processes|);
    hide Shape, EndpointOf, ChannelShows, PendingByServer, NextReady, Serving, SetCurrent;
    if n.Some? {
      NextTells(s, c, n.value);
      var t := PrepareSyscallResume(s.threads[c.current], STATUS_OK);
      SetCurrentExact(PutThread(s, c.current, t), n);
    }
  }

  // ----- Opening -----

  lemma OpenScene(s: KernelState, c: Scene, j: Letter, e: nat, k: nat, call: SyscallContext)
    requires Shape(s) && Shows(s, c) && s.memory == Memory() && c.current < |c.threads| && c.next < U64_MAX
    requires e < |c.posts| && c.posts[e].Some? && c.posts[e].value.name == j
    requires forall d :: 0 <= d < e && c.posts[d].Some? ==> c.posts[d].value.name != j
    requires c.posts[e].value.owner < |c.threads| && c.threads[c.posts[e].value.owner] != Exited
    requires FirstFree(c.lines, k) && call.argument0 == NameAt(j) && call.argument1 == OUT
    ensures Shows(Open(s, c.current, call).state,
                  c.(lines := c.lines[k := Some(Line(c.next, e, c.current, None, None))], next := c.next + 1))
  {
    hide Shape, Shows, Memory, Issue, Open;
    OpenTells(s, c, j, e, k);
    IssueScene(s, c, e, k);
    OpenIsIssue(s, c.current, j, e, k, call);
  }

  lemma OpenTells(s: KernelState, c: Scene, j: Letter, e: nat, k: nat)
    requires Shape(s) && Shows(s, c) && c.current < |c.threads|
    requires e < |c.posts| && c.posts[e].Some? && c.posts[e].value.name == j
    requires forall d :: 0 <= d < e && c.posts[d].Some? ==> c.posts[d].value.name != j
    requires c.posts[e].value.owner < |c.threads| && c.threads[c.posts[e].value.owner] != Exited
    requires FirstFree(c.lines, k)
    ensures |s.endpoints| == |c.posts| && |s.threads| == |c.threads| && |s.processes| == |c.threads|
    ensures s.threads[c.current].process == c.current && s.processes[c.current].mappings == PAGE
    ensures EndpointByName(s, NameOf(j)) == Some(e) && FreeChannel(s) == Some(k)
    ensures s.endpoints[e].ownerThread == Some(c.posts[e].value.owner)
            && s.threads[c.posts[e].value.owner].state != Exited
  {
    assert forall d :: 0 <= d < |s.endpoints| && c.posts[d].Some? ==>
      (HasName(s.endpoints[d], NameOf(j)) <==> c.posts[d].value.name == j);
    assert forall d :: 0 <= d < |s.channels| ==> (s.channels[d].None? <==> c.lines[d].None?);
    CallerOf(s, c);
    hide Shape, ChannelShows, FirstIn, NameOf;
  }

  lemma OpenIsIssue(s: KernelState, active: nat, j: Letter, e: nat, k: nat, call: SyscallContext)
    requires Shape(s) && active < |s.threads| && s.threads[active].process == active < |s.processes|
    requires s.processes[active].mappings == PAGE && s.memory == Memory()
    requires e < |s.endpoints| && EndpointByName(s, NameOf(j)) == Some(e) && FreeChannel(s) == Some(k)
    requires s.endpoints[e].ownerThread.Some? && s.endpoints[e].ownerThread.value < |s.threads|
    requires s.threads[s.endpoints[e].ownerThread.value].state != Exited
    requires call.argument0 == NameAt(j) && call.argument1 == OUT
    ensures Open(s, active, call) == Issue(s, k, active, e, OUT)
  {
    NameRead(j);
    hide Shape, UserString, FirstIn, Issue, Memory, NameOf, InMemory;
  }

  lemma IssueScene(s: KernelState, c: Scene, e: nat, k: nat)
    requires Shape(s) && Shows(s, c) && c.next < U64_MAX && c.current < |c.threads| && e < |c.posts| && k < |c.lines|
    ensures Shows(Issue(s, k, c.current, e, OUT).state,
                  c.(lines := c.lines[k := Some(Line(c.next, e, c.current, None, None))], next := c.next + 1))
  {
    hide InMemory, Zeros, WriteUser, LittleEndian, HostTarget, HostInjective, GuestBytes, RangeBacked, EraseChannel,
      EndpointOf, ThreadShows;
    PageInMemory();
    var s1 := PutChannel(s.(nextHandle := s.nextHandle + 1), k, Some(NewChannel(s.nextHandle, c.current, e)));
    hide Shape;
    WriteUserMeaning(s1.memory, PAGE, OUT, LittleEndian(s.nextHandle, 8));
    RangeOnPage(OUT, 8);
  }

  // ----- Calling -----

  /** The current thread blocks in line k, and the owner of its endpoint is current, RUNNING if it was READY. A thread
      that calls itself goes on. */
  function Connected(c: Scene, k: nat, owner: nat): Scene
    requires k < |c.lines| && c.lines[k].Some? && c.lines[k].value.endpoint < |c.posts|
    requires c.posts[c.lines[k].value.endpoint].Some? && c.current < |c.threads| && owner < |c.threads|
  {
    var line := c.lines[k].value;
    var server := if c.threads[owner] == Ready then Running else c.threads[owner];
    c.(threads := if owner == c.current then c.threads else c.threads[c.current := Blocked][owner := server],
       current := owner,
       posts := c.posts[line.endpoint := Some(c.posts[line.endpoint].value.(busy := true))],
       lines := c.lines[k := Some(line.(client := Some(c.current), server := Some(owner)))])
  }

  /** Line k is the current thread's, idle, first under its handle, and leads to a thread that is READY, BLOCKED, or the
      current one. */
  predicate Callable(c: Scene, k: nat, owner: nat) {
    && k < |c.lines| && c.lines[k].Some? && c.lines[k].value.client == None && c.lines[k].value.server == None
    && (forall d :: 0 <= d < k && c.lines[d].Some? ==> c.lines[d].value.handle != c.lines[k].value.handle)
    && c.lines[k].value.handle != 0 && c.lines[k].value.opener == c.current && c.lines[k].value.endpoint < |c.posts|
    && c.posts[c.lines[k].value.endpoint].Some?
    && c.posts[c.lines[k].value.endpoint].value.owner == owner && !c.posts[c.lines[k].value.endpoint].value.busy
    && c.current < |c.threads| && c.threads[c.current] == Running && owner < |c.threads|
    && (owner == c.current || c.threads[owner] in {Ready, Blocked})
  }

  lemma PageTakesRequest(s: KernelState, e: nat, server: nat, client: nat)
    requires Shape(s) && e < |s.endpoints| && server < |s.threads| && s.processes == Processes(|s.threads|)
    requires client < |s.threads|
    requires s.endpoints[e].ownerProcess == Some(server)
    requires s.endpoints[e].callback == USER && s.endpoints[e].completion == USER
    requires s.threads[server].context.stackPointer == STACK
    ensures PrepareServer(s, e, server, client, USER, 1).status == STATUS_OK
  {
    PageInMemory();
    hide Shape, InMemory, WriteUser, CopyUser, LittleEndian;
    PageBacked(USER);
    assert InMemory(PAGE, |s.memory|) by { ShapeHosts(s, server); }
    var copy := CopyUser(s.memory, PAGE, USER, PAGE, 0x1EF0, 1);
    CopyUserMeaning(s.memory, PAGE, USER, PAGE, 0x1EF0, 1);
    WriteUserMeaning(copy.memory, PAGE, 0x1EE8, LittleEndian(USER, 8));
    RangeOnPage(USER, 1);
    RangeOnPage(0x1EF0, 1);
    RangeOnPage(0x1EE8, 8);
    hide HostTarget, HostInjective, GuestBytes, RangeBacked, HostSeparate, Backed;
    assert PrepareServer(s, e, server, client, USER, 1) == PlaceRequest(s, e, server, client, USER, 1, 0x1EF0);
  }

  lemma ShapeHosts(s: KernelState, p: nat)
    requires Shape(s) && p < |s.processes| && s.processes[p].mappings == PAGE
    ensures InMemory(PAGE, |s.memory|)
  {
    hide InMemory;
  }

  lemma CallScene(s: KernelState, c: Scene, k: nat, owner: nat, call: SyscallContext)
    requires Shape(s) && Shows(s, c) && Callable(c, k, owner)
    requires call.argument0 == c.lines[k].value.handle && call.argument1 == USER && call.argument2 == 1
    ensures Shows(Call(s, c.current, call).state, Connected(c, k, owner)) && Call(s, c.current, call).status == STATUS_OK
  {
    hide Shape, Accept, PrepareServer, Call, Connected;
    CallTells(s, c, k, owner, call.argument0);
    var e := c.lines[k].value.endpoint;
    PageTakesRequest(s, e, owner, c.current);
    var p := PrepareServer(s, e, owner, c.current, USER, 1).state;
    PrepareExact(s, e, owner, c.current, USER, 1);
    PreparedShows(s, p, c, owner);
    AcceptScene(p, c, k, owner);
    hide Shows, Callable;
    CallIsAccept(s, c.current, k, owner, call);
  }

  lemma CallTells(s: KernelState, c: Scene, k: nat, owner: nat, handle: u64)
    requires Shape(s) && Shows(s, c) && Callable(c, k, owner) && handle == c.lines[k].value.handle
    ensures |s.threads| == |c.threads| && |s.channels| == |c.lines| && |s.endpoints| == |c.posts|
    ensures s.threads[c.current].process == c.current && s.processes == Processes(|s.threads|)
    ensures LookupChannel(s, c.current, handle) == Found(k)
    ensures var e := c.lines[k].value.endpoint;
            && s.channels[k].Some? && s.channels[k].value.endpoint == e && s.channels[k].value.clientProcess == c.current
            && !ChannelBusy(s.channels[k].value)
            && s.endpoints[e].inUse && !s.endpoints[e].busy && s.endpoints[e].ownerThread == Some(owner)
            && s.endpoints[e].ownerProcess == Some(owner) && s.endpoints[e].callback == USER
            && s.endpoints[e].completion == USER
    ensures s.threads[owner].state != Exited && s.threads[owner].context.stackPointer == STACK
  {
    assert forall d :: 0 <= d < |s.channels| && c.lines[d].Some? ==>
      (HasHandle(s.channels[d], handle) <==> c.lines[d].value.handle == handle);
    CallerOf(s, c);
    assert ThreadShows(s.threads[owner], owner, c.threads[owner]);
    hide Shape, FirstIn, ObjectExists;
  }

  lemma CallIsAccept(s: KernelState, active: nat, k: nat, owner: nat, call: SyscallContext)
    requires Shape(s) && active < |s.threads| && owner < |s.threads| && s.threads[active].process == active < |s.processes|
    requires LookupChannel(s, active, call.argument0) == Found(k) && k < |s.channels| && s.channels[k].Some?
    requires !ChannelBusy(s.channels[k].value) && s.channels[k].value.clientProcess == active
    requires var e := s.channels[k].value.endpoint;
             && e < |s.endpoints| && s.endpoints[e].inUse && !s.endpoints[e].busy
             && s.endpoints[e].ownerThread == Some(owner) && s.threads[owner].state != Exited
             && PrepareServer(s, e, owner, active, USER, 1).status == STATUS_OK
    requires call.argument0 != 0 && call.argument1 == USER && call.argument2 == 1
    ensures Call(s, active, call)
         == Outcome(Accept(PrepareServer(s, s.channels[k].value.endpoint, owner, active, USER, 1).state, k, active, owner),
                    STATUS_OK)
  {
    hide Shape, PrepareServer, Accept, LookupChannel;
  }

  lemma PreparedShows(s: KernelState, p: KernelState, c: Scene, owner: nat)
    requires Shows(s, c) && owner < |s.threads| == |p.threads| && SameTables(s, p) && p.current == s.current
    requires p.endpoints == s.endpoints && p.channels == s.channels
    requires p.threads == s.threads[owner := s.threads[owner].(resume := p.threads[owner].resume)]
    ensures Shows(p, c)
  {
    hide EndpointOf, ChannelShows;
  }

  lemma AcceptScene(s: KernelState, c: Scene, k: nat, owner: nat)
    requires Shape(s) && Shows(s, c) && Callable(c, k, owner)
    ensures Shows(Accept(s, k, c.current, owner), Connected(c, k, owner))
  {
    AcceptExact(s, k, c.current, owner);
    AcceptEndpoints(s, k, c.current, owner);
    hide Shape, Accept;
  }

  lemma AcceptEndpoints(s: KernelState, k: nat, active: nat, owner: nat)
    requires Shape(s) && Live(s, k) && active < |s.threads| && owner < |s.threads|
    ensures var e, s' := s.channels[k].value.endpoint, Accept(s, k, active, owner);
            && e < |s.endpoints| && s'.endpoints == s.endpoints[e := s.endpoints[e].(busy := true)]
            && s'.processes == s.processes && |s'.memory| == |s.memory| && s'.nextHandle == s.nextHandle
  {
    var s1 := BeginCall(s, k, active, owner);
    if owner != active {
      SetCurrentExact(PutThread(s1, active, s1.threads[active].(state := Blocked)), Some(owner));
    }
    hide SetCurrent;
  }

  // ----- Traps -----

  /** A state a run can go on from, with at most n handles issued. */
  ghost predicate Good(s: KernelState, n: nat) {
    Inv(s) && Runnable(s) && |s.memory| == SIZE && s.nextHandle <= n < 100
  }

  /** The trap that frame f makes in state s, user memory being Memory(). */
  lemma Step(s: KernelState, f: Frame, n: nat) returns (m: KernelState, t: Trap, s': KernelState)
    requires Good(s, n) && FrameShape(f)
    ensures t.frame == f && Enabled(s, t) && Next(s, t) == TrapResult(s', t.status, t.loaded)
    ensures m == s.(memory := Memory()) && Inv(m) && Runnable(m)
    ensures s' == HandleTrap(m, f).state && t.status == HandleTrap(m, f).status
    ensures n < 99 && Runnable(s') ==> Good(s', n + 1)
  {
    hide Rpc, Handles, HandleTrap;
    MemoryKeeps(s, Memory());
    m := s.(memory := Memory());
    var r := HandleTrap(m, f);
    t, s' := Trap(f, Memory(), r.status, r.frame), r.state;
    StepInv(s, t);
  }

  /** A trap of a run. */
  ghost predicate Link(s: KernelState, t: Trap, s': KernelState) {
    Enabled(s, t) && Next(s, t) == TrapResult(s', t.status, t.loaded)
  }

  /** A trap to a scene that the run goes on from. */
  ghost predicate Goes(s: KernelState, t: Trap, s': KernelState, c: Scene, n: nat) {
    Link(s, t, s') && Shows(s', c) && Good(s', n)
  }

  lemma MemoryAside(s: KernelState, c: Scene)
    requires Shows(s, c)
    ensures Shows(s.(memory := Memory()), c)
  {
    hide EndpointOf, ThreadShows, ChannelShows;
  }

  lemma Registers(s: KernelState, c: Scene, j: Letter, e: nat, n: Option<nat>, issued: nat)
    returns (t: Trap, s': KernelState, c': Scene)
    requires Good(s, issued) && Shows(s, c) && Unnamed(c, j) && FirstFree(c.posts, e) && issued < 99
    requires c.current < |c.threads| && c.threads[c.current] == Running
    requires if n.Some? then NextAfter(c, n.value) && !Serving(c, c.current) else Serving(c, c.current)
    ensures t.frame.rax == SYSCALL_RPC_REGISTER && Goes(s, t, s', c', issued + 1)
    ensures c' == if n.Some? then Yielded(Posted(c, j, e), n.value) else Posted(c, j, e)
  {
    hide Rpc, Handles, HandleTrap, Next, Enabled, Shows, Unnamed, Serving, Register;
    var f := Syscall(SYSCALL_RPC_REGISTER, NameAt(j), USER, USER);
    c' := if n.Some? then Yielded(Posted(c, j, e), n.value) else Posted(c, j, e);
    var m;
    m, t, s' := Step(s, f, issued);
    MemoryAside(s, c);
    CurrentIs(m, c);
    EntersScene(m, f, c);
    RegisterScene(Enter(m, f), c, j, e, n, CallOf(f));
    hide Shape, Enter;
    assert Served(m, f) == Register(Enter(m, f), c.current, CallOf(f));
    TrapShows(m, f, c');
    ShowsRunnable(s', c');
  }

  lemma CurrentIs(s: KernelState, c: Scene)
    requires Shows(s, c)
    ensures s.current == Some(c.current) && |s.threads| == |c.threads|
  {
  }

  lemma Opens(s: KernelState, c: Scene, j: Letter, e: nat, k: nat, issued: nat)
    returns (t: Trap, s': KernelState, c': Scene)
    requires Good(s, issued) && Shows(s, c) && issued < 99
    requires c.current < |c.threads| && c.threads[c.current] == Running && c.next < U64_MAX
    requires e < |c.posts| && c.posts[e].Some? && c.posts[e].value.name == j
    requires forall d :: 0 <= d < e && c.posts[d].Some? ==> c.posts[d].value.name != j
    requires c.posts[e].value.owner < |c.threads| && c.threads[c.posts[e].value.owner] != Exited
    requires FirstFree(c.lines, k)
    ensures t.frame.rax == SYSCALL_RPC_OPEN && Goes(s, t, s', c', issued + 1)
    ensures c' == c.(lines := c.lines[k := Some(Line(c.next, e, c.current, None, None))], next := c.next + 1)
  {
    hide Rpc, Handles, HandleTrap, Next, Enabled, Shows, Open;
    var f := Syscall(SYSCALL_RPC_OPEN, NameAt(j), OUT, 0);
    c' := c.(lines := c.lines[k := Some(Line(c.next, e, c.current, None, None))], next := c.next + 1);
    var m;
    m, t, s' := Step(s, f, issued);
    MemoryAside(s, c);
    CurrentIs(m, c);
    EntersScene(m, f, c);
    OpenScene(Enter(m, f), c, j, e, k, CallOf(f));
    hide Shape, Enter;
    assert Served(m, f) == Open(Enter(m, f), c.current, CallOf(f));
    TrapShows(m, f, c');
    ShowsRunnable(s', c');
  }

  /** Calling a BLOCKED thread is accepted, and leaves nothing to run. */
  lemma Calls(s: KernelState, c: Scene, k: nat, owner: nat, issued: nat)
    returns (t: Trap, s': KernelState, c': Scene)
    requires Good(s, issued) && Shows(s, c) && Callable(c, k, owner) && issued < 99
    ensures t.frame.rax == SYSCALL_RPC_CALL && t.status == STATUS_OK && Link(s, t, s') && Shows(s', c')
    ensures c.threads[owner] != Blocked ==> Good(s', issued + 1)
    ensures c' == Connected(c, k, owner)
  {
    hide Rpc, Handles, HandleTrap, Enabled, Shows, Call;
    var f := Syscall(SYSCALL_RPC_CALL, c.lines[k].value.handle, USER, 1);
    c' := Connected(c, k, owner);
    var m;
    m, t, s' := Step(s, f, issued);
    MemoryAside(s, c);
    CurrentIs(m, c);
    EntersScene(m, f, c);
    CallScene(Enter(m, f), c, k, owner, CallOf(f));
    hide Shape, Enter;
    assert Served(m, f) == Call(Enter(m, f), c.current, CallOf(f));
    TrapShows(m, f, c');
    if c.threads[owner] != Blocked {
      ShowsRunnable(s', c');
    }
  }

  // ----- The start -----

  function Configurations(): (r: seq<Configuration>)
    ensures |r| == 2 && forall i :: 0 <= i < 2 ==> r[i] == Configuration(PAGE, ThreadContext(0, STACK, 0, 0))
  {
    seq(2, _ => Configuration(PAGE, ThreadContext(0, STACK, 0, 0)))
  }

  /** What the kernel, with the sizes it has, boots from two processes, of which the first runs. */
  function Start(): KernelState {
    BootState(Configurations(), Some(0), CONFIGURED, Memory())
  }

  const START: Scene := Scene([Running, Ready], 0, seq(8, _ => None), seq(8, _ => None), 5)

  lemma Boots()
    ensures Bootable(Configurations(), 0, CONFIGURED)
    ensures Booted(Start()) && Good(Start(), 20) && Shows(Start(), START) && Start().nextHandle == 5
  {
    hide InMemory, Rpc, Handles, Booted, Shows, START, Shape, Memory;
    PageInMemory();
    BootStateIsBooted(Configurations(), 0, CONFIGURED, Memory());
    BootedInv(Start());
    StartShows();
  }

  lemma StartShows()
    ensures Shows(Start(), START)
  {
    hide Memory;
    assert Start().processes == Processes(2);
  }
}
