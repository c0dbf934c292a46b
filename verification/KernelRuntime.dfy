/**
 The kernel runtime as objects updated in place: scheduler, RPC dispatch and the x64 trap handler, with the loops and
 branches of kernel/user_runtime.cpp, kernel/rpc.cpp and arch/x64/user_runtime.cpp. Each method is proved to take
 State(), the value of the whole kernel, where the function of KernelModel takes it.
 */
module KernelRuntime {
  import opened Words
  import opened Status
  import opened Search
  import opened AddressSpaces
  import opened UserCopy
  import opened KernelModel
  import opened KernelObjects

  class UserRuntime {
    const processes: seq<ProcessRecord>
    const threads: seq<Thread>
    const endpoints: seq<RpcEndpoint>
    const otherHandles: set<u64>
    const memory: array<u8>
    var channels: seq<RpcChannel?>
    var current: Thread?
    var nextHandle: u64

    function ThreadRecords(): seq<ThreadRecord>
      reads threads
    {
      seq(|threads|, i requires 0 <= i < |threads| reads threads => threads[i].Record())
    }

    function EndpointRecords(): seq<EndpointRecord>
      reads endpoints
    {
      seq(|endpoints|, i requires 0 <= i < |endpoints| reads endpoints => endpoints[i].Record())
    }

    function ChannelRecords(): seq<Option<ChannelRecord>>
      reads this, channels
    {
      seq(|channels|, i requires 0 <= i < |channels| reads this, channels =>
        if channels[i] == null then None else Some(channels[i].Record()))
    }

    function State(): KernelState
      reads this, memory, threads, endpoints, channels
    {
      KernelState(processes, ThreadRecords(), EndpointRecords(), ChannelRecords(), otherHandles, SlotOf(current),
                  nextHandle, memory[..])
    }

    predicate Owns(t: Thread?) {
      t != null ==> t.slot < |threads| && threads[t.slot] == t
    }

    /** The tables as boot makes them: no channel, no current thread. */
    constructor (processes: seq<ProcessRecord>, threads: seq<Thread>, endpoints: seq<RpcEndpoint>, channelCount: nat,
                 memory: array<u8>, nextHandle: u64)
      ensures this.processes == processes && this.threads == threads && this.endpoints == endpoints
      ensures this.memory == memory && this.nextHandle == nextHandle && otherHandles == {} && current == null
      ensures channels == seq(channelCount, _ => null)
    {
      this.processes, this.threads, this.endpoints, this.memory := processes, threads, endpoints, memory;
      otherHandles, channels, current, this.nextHandle := {}, seq(channelCount, _ => null), null, nextHandle;
    }

    /** Objects sit in the slots they claim, and refer to each other only inside the tables. */
    ghost predicate Linked()
      reads this, endpoints, channels
    {
      && (forall i :: 0 <= i < |threads| ==> threads[i].slot == i)
      && (forall i :: 0 <= i < |endpoints| ==> endpoints[i].slot == i && Owns(endpoints[i].ownerThread))
      && (forall i :: 0 <= i < |channels| && channels[i] != null ==>
            var c := channels[i];
            && c.endpoint.slot < |endpoints| && endpoints[c.endpoint.slot] == c.endpoint
            && Owns(c.pendingClient) && Owns(c.pendingServer))
      && (forall i, j :: 0 <= i < j < |channels| && channels[i] != null ==> channels[i] != channels[j])
      && Owns(current)
    }

    ghost predicate Valid()
      reads this, memory, threads, endpoints, channels
    {
      Linked() && Shape(State()) && forall p :: 0 <= p < |processes| ==> WellFormed(processes[p].mappings)
    }

    // ----- One object changes, the rest of State() does not -----

    twostate lemma SameThreads()
      requires forall t :: t in threads ==> unchanged(t)
      ensures ThreadRecords() == old(ThreadRecords())
    {
      forall i | 0 <= i < |threads| ensures ThreadRecords()[i] == old(ThreadRecords())[i] {
        assert threads[i] in threads;
      }
    }

    twostate lemma SameEndpoints()
      requires forall e :: e in endpoints ==> unchanged(e)
      ensures EndpointRecords() == old(EndpointRecords())
    {
      forall i | 0 <= i < |endpoints| ensures EndpointRecords()[i] == old(EndpointRecords())[i] {
        assert endpoints[i] in endpoints;
      }
    }

    twostate lemma SameChannels()
      requires unchanged(this`channels) && forall c :: c in channels && c != null ==> unchanged(c)
      ensures ChannelRecords() == old(ChannelRecords())
    {
      forall i | 0 <= i < |channels| ensures ChannelRecords()[i] == old(ChannelRecords())[i] {
        assert channels[i] in channels;
      }
    }

    twostate lemma ThreadChanged(t: Thread)
      requires old(Linked()) && Owns(t) && forall u :: u in threads && u != t ==> unchanged(u)
      ensures ThreadRecords() == old(ThreadRecords())[t.slot := t.Record()]
    {
      forall i | 0 <= i < |threads|
        ensures ThreadRecords()[i] == old(ThreadRecords())[t.slot := t.Record()][i]
      {
        assert threads[i] in threads && threads[i].slot == i;
      }
    }

    twostate lemma EndpointChanged(e: RpcEndpoint)
      requires old(Linked()) && e.slot < |endpoints| && endpoints[e.slot] == e
      requires forall d :: d in endpoints && d != e ==> unchanged(d)
      ensures EndpointRecords() == old(EndpointRecords())[e.slot := e.Record()]
    {
      forall i | 0 <= i < |endpoints|
        ensures EndpointRecords()[i] == old(EndpointRecords())[e.slot := e.Record()][i]
      {
        assert endpoints[i] in endpoints && endpoints[i].slot == i;
      }
    }

    twostate lemma ChannelChanged(k: nat)
      requires old(Linked()) && unchanged(this`channels) && k < |channels| && channels[k] != null
      requires forall c :: c in channels && c != null && c != channels[k] ==> unchanged(c)
      ensures ChannelRecords() == old(ChannelRecords())[k := Some(channels[k].Record())]
    {
      forall i | 0 <= i < |channels|
        ensures ChannelRecords()[i] == old(ChannelRecords())[k := Some(channels[k].Record())][i]
      {
        assert channels[i] in channels;
      }
    }

    method SetState(t: Thread, state: ThreadState)
      requires Valid() && Owns(t)
      modifies t
      ensures Valid() && State() == PutThread(old(State()), t.slot, old(State()).threads[t.slot].(state := state))
      ensures t.Record() == old(t.Record()).(state := state)
    {
      ghost var s := State();
      assert s.threads[t.slot] == t.Record();
      t.state := state;
      ThreadChanged(t);
      SameEndpoints();
      SameChannels();
      assert State() == PutThread(s, t.slot, s.threads[t.slot].(state := state));
      hide Shape;
    }

    method SetContext(t: Thread, context: ThreadContext)
      requires Valid() && Owns(t)
      modifies t
      ensures Valid() && State() == PutThread(old(State()), t.slot, SetUserContext(old(State()).threads[t.slot], context))
      ensures t.state == old(t.state)
    {
      ghost var s := State();
      assert s.threads[t.slot] == t.Record();
      t.SetContext(context);
      ThreadChanged(t);
      SameEndpoints();
      SameChannels();
      assert State() == PutThread(s, t.slot, SetUserContext(s.threads[t.slot], context));
      hide Shape;
    }

    method PrepareReturn(t: Thread, status: i32)
      requires Valid() && Owns(t)
      modifies t
      ensures Valid() && State() == PutThread(old(State()), t.slot, PrepareSyscallResume(old(State()).threads[t.slot], status))
      ensures t.state == old(t.state)
    {
      ghost var s := State();
      assert s.threads[t.slot] == t.Record();
      t.PrepareReturn(status);
      ThreadChanged(t);
      SameEndpoints();
      SameChannels();
      assert State() == PutThread(s, t.slot, PrepareSyscallResume(s.threads[t.slot], status));
      hide Shape;
    }

    method PrepareCallback(t: Thread, callback: u64, completion: u64, argument0: u64, argument1: u64, stackPointer: u64)
      requires Valid() && Owns(t)
      modifies t
      ensures Valid()
      ensures State() == PutThread(old(State()), t.slot,
                                   PrepareRpcResume(old(State()).threads[t.slot], callback, completion, argument0,
                                                    argument1, stackPointer))
    {
      ghost var s := State();
      assert s.threads[t.slot] == t.Record();
      t.PrepareCallback(callback, completion, argument0, argument1, stackPointer);
      ThreadChanged(t);
      SameEndpoints();
      SameChannels();
      assert State() == PutThread(s, t.slot, PrepareRpcResume(s.threads[t.slot], callback, completion, argument0,
                                                              argument1, stackPointer));
      hide Shape;
    }

    method MakeCurrent(next: Thread?)
      requires Valid() && Owns(next)
      modifies this`current
      ensures Valid() && State() == old(State()).(current := SlotOf(next)) && current == next
    {
      current := next;
      SameThreads();
      SameEndpoints();
      SameChannels();
    }

    // ----- Scheduler (kernel/user_runtime.cpp) -----

    /** find_next_ready_thread. */
    method FindNextReadyThread(after: Thread?) returns (r: Thread?)
      requires Linked() && Owns(after)
      ensures Owns(r) && SlotOf(r) == NextReady(ThreadRecords(), SlotOf(after))
    {
      var start := 0;
      if after != null {
        var index := 0;
        while index < |threads|
          invariant 0 <= index <= after.slot
        {
          if threads[index] == after {
            start := index + 1;
            break;
          }
          assert threads[index].slot == index;
          index := index + 1;
        }
        assert start == after.slot + 1;
      }
      ghost var records := ThreadRecords();
      hide FirstIn;
      for pass := 0 to 2
        invariant pass > 0 ==> FirstIn(records, IsReady, start, |records|).None?
        invariant pass > 1 ==> FirstIn(records, IsReady, 0, start).None?
      {
        var lower := if pass == 0 then start else 0;
        var upper := if pass == 0 then |threads| else start;
        var candidate := FirstReadyIn(lower, upper);
        if candidate != null {
          return candidate;
        }
      }
      return null;
    }

    method FirstReadyIn(lower: nat, upper: nat) returns (r: Thread?)
      requires Linked() && lower <= upper <= |threads|
      ensures Owns(r) && SlotOf(r) == FirstIn(ThreadRecords(), IsReady, lower, upper)
    {
      ghost var records := ThreadRecords();
      for index := lower to upper
        invariant FirstIn(records, IsReady, lower, upper) == FirstIn(records, IsReady, index, upper)
      {
        var candidate := threads[index];
        assert records[index] == candidate.Record() && candidate.slot == index;
        if candidate.state == Ready {
          return candidate;
        }
      }
      return null;
    }

    /** set_current_thread. */
    method SetCurrentThread(next: Thread?)
      requires Valid() && Owns(next)
      modifies this`current, current, next
      ensures Valid() && State() == SetCurrent(old(State()), SlotOf(next)) && current == next
    {
      ghost var s := State();
      hide Shape;
      if current != null && current != next && current.state == Running {
        assert s.threads[current.slot] == current.Record();
        SetState(current, Ready);
      }
      MakeCurrent(next);
      if current != null && current.state == Ready {
        SetState(current, Running);
      }
    }
  
    // ----- Calls (kernel/rpc.cpp) -----

    method BeginOn(k: nat, client: Thread, server: Thread)
      requires Valid() && Owns(client) && Owns(server) && k < |channels| && channels[k] != null
      modifies channels[k], channels[k].endpoint
      ensures Valid() && State() == BeginCall(old(State()), k, client.slot, server.slot)
    {
      ghost var s := State();
      var channel := channels[k];
      assert s.channels[k] == Some(channel.Record()) && s.threads[server.slot] == server.Record();
      assert s.endpoints[channel.endpoint.slot] == channel.endpoint.Record();
      channel.Begin(client, server);
      SameThreads();
      ChannelChanged(k);
      EndpointChanged(channel.endpoint);
      assert State() == BeginCall(s, k, client.slot, server.slot);
      hide Shape;
    }

    method CancelOn(k: nat)
      requires Valid() && k < |channels| && channels[k] != null
      modifies channels[k], channels[k].endpoint
      ensures Valid() && State() == CancelCall(old(State()), k)
    {
      ghost var s := State();
      var channel := channels[k];
      assert s.channels[k] == Some(channel.Record());
      assert s.endpoints[channel.endpoint.slot] == channel.endpoint.Record();
      channel.Cancel();
      SameThreads();
      ChannelChanged(k);
      EndpointChanged(channel.endpoint);
      assert State() == CancelCall(s, k);
      hide Shape;
    }
  
    method FinishOn(k: nat)
      requires Valid() && k < |channels| && channels[k] != null
      modifies channels[k], channels[k].endpoint, channels[k].pendingServer
      ensures Valid() && State() == FinishCall(old(State()), k)
    {
      ghost var s := State();
      var channel := channels[k];
      var server := channel.pendingServer;
      assert s.channels[k] == Some(channel.Record());
      assert s.endpoints[channel.endpoint.slot] == channel.endpoint.Record();
      assert server != null ==> s.threads[server.slot] == server.Record();
      channel.Finish();
      if server != null { ThreadChanged(server); } else { SameThreads(); }
      ChannelChanged(k);
      EndpointChanged(channel.endpoint);
      assert State() == FinishCall(s, k);
      hide Shape;
    }

    /** find_pending_channel_by_server_thread. */
    method FindPendingChannelByServerThread(server: Thread) returns (r: Option<nat>)
      requires Linked() && Owns(server)
      ensures r == PendingByServer(State(), server.slot)
      ensures r.Some? ==> r.value < |channels| && channels[r.value] != null && channels[r.value].pendingServer == server
    {
      ghost var s := State();
      ghost var test := (c: Option<ChannelRecord>) => PendingOn(c, server.slot);
      for index := 0 to |channels|
        invariant FirstIn(s.channels, test, 0, |channels|) == FirstIn(s.channels, test, index, |channels|)
      {
        var channel := channels[index];
        assert s.channels[index] == if channel == null then None else Some(channel.Record());
        if channel != null && channel.pendingServer == server {
          return Some(index);
        }
        assert channel != null && channel.pendingServer != null ==> threads[channel.pendingServer.slot] == channel.pendingServer;
      }
      return None;
    }

    /** complete_call. */
    method CompleteCall(server: Thread, status: i32) returns (result: i32)
      requires Valid() && Owns(server)
      modifies this`current, threads, endpoints, channels
      ensures Valid() && Outcome(State(), result) == KernelModel.CompleteCall(old(State()), server.slot, status)
    {
      hide Shape, PendingByServer, FinishCall, SetCurrent, WakeClient;
      ghost var s := State();
      var found := FindPendingChannelByServerThread(server);
      if found.None? {
        return STATUS_BAD_STATE;
      }
      var channel := channels[found.value];
      assert s.channels[found.value] == Some(channel.Record());
      var client := channel.pendingClient;
      var isSameThreadCall := client == server;
      FinishOn(found.value);
      if isSameThreadCall {
        return status;
      }
      if client == null {
        return STATUS_BAD_STATE;
      }
      Wake(client, status);
      SetCurrentThread(client);
      return STATUS_OK;
    }

    method Wake(client: Thread, status: i32)
      requires Valid() && Owns(client)
      modifies client
      ensures Valid() && State() == WakeClient(old(State()), client.slot, status)
    {
      ghost var s := State();
      assert s.threads[client.slot] == client.Record();
      SetState(client, Ready);
      PrepareReturn(client, status);
      assert State().threads == WakeClient(s, client.slot, status).threads;
      hide Shape;
    }

    /** fail_pending_call. */
    method FailPendingCall(server: Thread, status: i32)
      requires Valid() && Owns(server)
      modifies threads, endpoints, channels
      ensures Valid() && State() == KernelModel.FailPendingCall(old(State()), server.slot, status)
    {
      hide Shape, PendingByServer, CancelCall, WakeClient;
      ghost var s := State();
      var found := FindPendingChannelByServerThread(server);
      if found.None? {
        return;
      }
      var channel := channels[found.value];
      assert s.channels[found.value] == Some(channel.Record());
      var client := channel.pendingClient;
      var isSameThreadCall := client == server;
      CancelOn(found.value);
      if !isSameThreadCall && client != null {
        Wake(client, status);
      }
    }
  
    /** clear_endpoints_owned_by. */
    method ClearEndpointsOwnedBy(owner: Thread)
      requires Valid() && Owns(owner)
      modifies endpoints
      ensures Valid() && State() == old(State()).(endpoints := ClearedEndpoints(old(State()).endpoints, owner.slot))
    {
      ghost var s := State();
      ghost var cleared := ClearedEndpoints(s.endpoints, owner.slot);
      assert forall i :: 0 <= i < |endpoints| ==> s.endpoints[i] == endpoints[i].Record();
      hide Shape, ClearedEndpoints;
      for index := 0 to |endpoints|
        invariant forall i :: 0 <= i < index ==> endpoints[i].Record() == cleared[i] && Owns(endpoints[i].ownerThread)
        invariant forall i :: index <= i < |endpoints| ==>
                    endpoints[i].Record() == s.endpoints[i] && Owns(endpoints[i].ownerThread)
      {
        var endpoint := endpoints[index];
        assert forall i :: 0 <= i < |endpoints| && i != index ==> endpoints[i] != endpoint by {
          assert forall i :: 0 <= i < |endpoints| ==> endpoints[i].slot == i;
        }
        if endpoint.ownerThread == owner {
          endpoint.Clear();
        } else {
          assert endpoint.ownerThread != null ==> threads[endpoint.ownerThread.slot] == endpoint.ownerThread;
        }
      }
      SameThreads();
      SameChannels();
      assert EndpointRecords() == cleared;
      assert State() == s.(endpoints := cleared);
      ClearedShape(s, owner.slot);
    }

    lemma ClearedShape(s: KernelState, owner: nat)
      requires Shape(s)
      ensures Shape(s.(endpoints := ClearedEndpoints(s.endpoints, owner)))
    {
    }

    /** rpc_runtime::handle_thread_exit. */
    method HandleThreadExit(active: Thread, status: i32)
      requires Valid() && Owns(active)
      modifies threads, endpoints, channels
      ensures Valid() && State() == KernelModel.HandleThreadExit(old(State()), active.slot, status)
    {
      hide Shape, KernelModel.FailPendingCall;
      FailPendingCall(active, status);
      ClearEndpointsOwnedBy(active);
    }

    /** schedule_next_ready_thread. */
    method ScheduleNextReadyThread() returns (scheduled: bool)
      requires Valid()
      modifies this`current, threads
      ensures Valid() && State() == ScheduleNext(old(State()))
    {
      hide Shape, NextReady, SetCurrent;
      var next := FindNextReadyThread(current);
      if next == null {
        MakeCurrent(null);
        return false;
      }
      SetCurrentThread(next);
      return true;
    }

    /** terminate_current_thread. */
    method TerminateCurrentThread(exitStatus: u64, peerStatus: i32) returns (scheduled: bool)
      requires Valid()
      modifies this`current, threads, endpoints, channels
      ensures Valid() && State() == TerminateCurrent(old(State()), exitStatus, peerStatus)
    {
      hide Shape, ScheduleNext, KernelModel.HandleThreadExit;
      var active := current;
      if active == null {
        return false;
      }
      HandleThreadExit(active, peerStatus);
      Exit(active, exitStatus);
      scheduled := ScheduleNextReadyThread();
    }

    method Exit(t: Thread, exitStatus: u64)
      requires Valid() && Owns(t)
      modifies t
      ensures Valid()
      ensures State() == PutThread(old(State()), t.slot,
                                   old(State()).threads[t.slot].(state := Exited, exitStatus := exitStatus))
    {
      ghost var s := State();
      assert s.threads[t.slot] == t.Record();
      t.state := Exited;
      t.exitStatus := exitStatus;
      ThreadChanged(t);
      SameEndpoints();
      SameChannels();
      assert State() == PutThread(s, t.slot, s.threads[t.slot].(state := Exited, exitStatus := exitStatus));
      hide Shape;
    }

    // ----- Lookups -----

    /** find_endpoint_by_name. */
    method FindEndpointByName(name: seq<u8>) returns (r: Option<nat>)
      requires Linked()
      ensures r == EndpointByName(State(), name)
    {
      ghost var records := EndpointRecords();
      ghost var test := (e: EndpointRecord) => HasName(e, name);
      for index := 0 to |endpoints|
        invariant FirstIn(records, test, 0, |endpoints|) == FirstIn(records, test, index, |endpoints|)
      {
        var endpoint := endpoints[index];
        assert records[index] == endpoint.Record();
        if endpoint.inUse && endpoint.name == name {
          return Some(index);
        }
      }
      return None;
    }

    /** find_free_endpoint. */
    method FindFreeEndpoint() returns (r: Option<nat>)
      requires Linked()
      ensures r == FreeEndpoint(State())
    {
      ghost var records := EndpointRecords();
      ghost var test := (e: EndpointRecord) => !e.inUse;
      for index := 0 to |endpoints|
        invariant FirstIn(records, test, 0, |endpoints|) == FirstIn(records, test, index, |endpoints|)
      {
        assert records[index] == endpoints[index].Record();
        if !endpoints[index].inUse {
          return Some(index);
        }
      }
      return None;
    }

    /** find_by_handle on the channel pool. */
    method FindChannelByHandle(handle: u64) returns (r: Option<nat>)
      requires Linked()
      ensures r == ChannelByHandle(State(), handle)
    {
      ghost var records := ChannelRecords();
      ghost var test := (c: Option<ChannelRecord>) => HasHandle(c, handle);
      for index := 0 to |channels|
        invariant FirstIn(records, test, 0, |channels|) == FirstIn(records, test, index, |channels|)
      {
        var channel := channels[index];
        assert records[index] == if channel == null then None else Some(channel.Record());
        if channel != null && channel.handle == handle {
          return Some(index);
        }
      }
      return None;
    }

    /** The slot scan of emplace on the channel pool. */
    method FindFreeChannel() returns (r: Option<nat>)
      requires Linked()
      ensures r == FreeChannel(State())
    {
      ghost var records := ChannelRecords();
      ghost var test := (c: Option<ChannelRecord>) => c.None?;
      for index := 0 to |channels|
        invariant FirstIn(records, test, 0, |channels|) == FirstIn(records, test, index, |channels|)
      {
        assert records[index] == if channels[index] == null then None else Some(channels[index].Record());
        if channels[index] == null {
          return Some(index);
        }
      }
      return None;
    }

    /** find_object_by_handle. */
    method FindObjectByHandle(handle: u64) returns (found: bool)
      requires Linked()
      ensures found <==> ObjectExists(State(), handle)
    {
      ghost var s := State();
      for index := 0 to |processes|
        invariant forall p :: 0 <= p < index ==> processes[p].handle != handle
      {
        if processes[index].handle == handle {
          assert s.processes[index].handle == handle;
          return true;
        }
      }
      for index := 0 to |threads|
        invariant forall t :: 0 <= t < index ==> s.threads[t].handle != handle
      {
        assert s.threads[index] == threads[index].Record();
        if threads[index].handle == handle {
          return true;
        }
      }
      return handle in otherHandles;
    }
  
    // ----- User memory -----

    method ValidateUserAddress(process: nat, a: u64) returns (ok: bool)
      requires Valid() && process < |processes|
      ensures ok <==> Backed(processes[process].mappings, a)
    {
      hide Shape, Backed;
      ok := ValidateRange(processes[process].mappings, a, 1);
    }

    /** A user string read through a kernel buffer of `capacity` bytes. */
    method CopyName(process: nat, a: u64, capacity: nat) returns (status: i32, name: seq<u8>)
      requires Valid() && process < |processes| && capacity > 0
      ensures Valid() && State() == old(State())
      ensures var r := UserString(State().memory, processes[process].mappings, a, capacity);
              status == r.status && (status == STATUS_OK ==> name == r.bytes)
    {
      var mappings := processes[process].mappings;
      assert InMemory(State().processes[process].mappings, |State().memory|);
      ghost var r := UserString(memory[..], mappings, a, capacity);
      hide Shape, InMemory, UserString;
      var buffer := new u8[capacity];
      status := CopyUserString(memory, mappings, a, buffer, capacity);
      SameThreads();
      SameEndpoints();
      SameChannels();
      name := [];
      if status == STATUS_OK {
        StringBytes(memory[..], mappings, a, capacity);
        name := BufferString(buffer, r.bytes);
      }
    }

    /** The characters before the first NUL of a buffer. */
    static method BufferString(buffer: array<u8>, ghost bytes: seq<u8>) returns (name: seq<u8>)
      requires |bytes| < buffer.Length && buffer[..|bytes| + 1] == bytes + [0]
      requires forall k :: 0 <= k < |bytes| ==> bytes[k] != 0
      ensures name == bytes
    {
      assert forall k :: 0 <= k <= |bytes| ==> buffer[k] == (bytes + [0])[k];
      name := [];
      while buffer[|name|] != 0
        invariant |name| <= |bytes| && name == bytes[..|name|]
        decreases |bytes| - |name|
      {
        name := name + [buffer[|name|]];
      }
    }

    lemma StringBytes(host: seq<u8>, ms: seq<Mapping>, a: u64, capacity: nat)
      requires InMemory(ms, |host|)
      ensures forall k :: 0 <= k < |UserString(host, ms, a, capacity).bytes| ==> UserString(host, ms, a, capacity).bytes[k] != 0
    {
      hide InMemory;
      UserStringMeaning(host, ms, a, [], capacity);
    }

    method WriteWord(process: nat, a: u64, value: u64) returns (status: i32)
      requires Valid() && process < |processes|
      modifies memory
      ensures Valid()
      ensures InMemory(processes[process].mappings, |old(State()).memory|)
      ensures var r := WriteUser(old(State()).memory, processes[process].mappings, a, LittleEndian(value, 8));
              && State() == PutMemory(old(State()), r.memory)
              && status == if r.ok then STATUS_OK else STATUS_FAULT
    {
      ghost var s := State();
      var encoded := LittleEndian(value, 8);
      var bytes := new u8[8](i requires 0 <= i < 8 => encoded[i]);
      assert bytes[..8] == encoded;
      assert InMemory(s.processes[process].mappings, |s.memory|);
      hide LittleEndian, WriteUser, InMemory;
      status := WriteUserBytes(memory, processes[process].mappings, a, bytes, 8);
      SameThreads();
      SameEndpoints();
      SameChannels();
      assert State() == PutMemory(s, memory[..]);
      hide Shape;
    }

    method CopyRequest(source: nat, sa: u64, destination: nat, da: u64, size: u64) returns (status: i32)
      requires Valid() && source < |processes| && destination < |processes|
      modifies memory
      ensures Valid()
      ensures InMemory(processes[source].mappings, |old(State()).memory|)
      ensures InMemory(processes[destination].mappings, |old(State()).memory|)
      ensures var r := CopyUser(old(State()).memory, processes[source].mappings, sa, processes[destination].mappings, da, size);
              && State() == PutMemory(old(State()), r.memory)
              && status == if r.ok then STATUS_OK else STATUS_FAULT
    {
      ghost var s := State();
      assert InMemory(s.processes[source].mappings, |s.memory|);
      assert InMemory(s.processes[destination].mappings, |s.memory|);
      hide CopyUser, InMemory;
      status := CopyBetweenUserProcesses(memory, processes[source].mappings, sa, processes[destination].mappings, da, size);
      SameThreads();
      SameEndpoints();
      SameChannels();
      assert State() == PutMemory(s, memory[..]);
      hide Shape;
    }

    /** prepare_server_thread, x64 variant. */
    method PrepareServerThread(endpoint: RpcEndpoint, server: Thread, client: nat, request: u64, size: u64)
      returns (status: i32)
      requires Valid() && Owns(server) && client < |processes|
      requires endpoint.slot < |endpoints| && endpoints[endpoint.slot] == endpoint
      modifies memory, server
      ensures Valid()
      ensures Outcome(State(), status) == PrepareServer(old(State()), endpoint.slot, server.slot, client, request, size)
    {
      ghost var s := State();
      assert s.endpoints[endpoint.slot] == endpoint.Record() && s.threads[server.slot] == server.Record();
      assert EndpointShape(s.endpoints[endpoint.slot], |s.processes|, |s.threads|);
      hide Shape, Backed, InMemory, CopyUser, WriteUser, LittleEndian;
      if endpoint.ownerProcess.None? {
        return STATUS_BAD_STATE;
      }
      var owner := endpoint.ownerProcess.value;
      if request == 0 || size == 0 || size > MAX_REQUEST_SIZE {
        return STATUS_INVALID_ARGUMENT;
      }
      var callback, completion := endpoint.callback, endpoint.completion;
      if callback == 0 || completion == 0 {
        return STATUS_FAULT;
      }
      var callbackMapped := ValidateUserAddress(owner, callback);
      if !callbackMapped {
        return STATUS_FAULT;
      }
      var completionMapped := ValidateUserAddress(owner, completion);
      if !completionMapped {
        return STATUS_FAULT;
      }
      var stackPointer := server.context.stackPointer;
      if stackPointer == 0 {
        return STATUS_BAD_STATE;
      }
      if stackPointer <= size + 8 {
        return STATUS_FAULT;
      }
      var requestAddress := AlignDown16(stackPointer - size);
      if requestAddress <= 8 {
        return STATUS_FAULT;
      }
      status := Place(endpoint, server, client, request, size, requestAddress);
    }

    method Place(endpoint: RpcEndpoint, server: Thread, client: nat, request: u64, size: u64, address: u64)
      returns (status: i32)
      requires Valid() && Owns(server) && client < |processes| && address > 8
      requires endpoint.slot < |endpoints| && endpoints[endpoint.slot] == endpoint && endpoint.ownerProcess.Some?
      modifies memory, server
      ensures Valid()
      ensures old(State()).endpoints[endpoint.slot].ownerProcess.Some?
      ensures Outcome(State(), status) == PlaceRequest(old(State()), endpoint.slot, server.slot, client, request, size, address)
    {
      ghost var s := State();
      assert s.endpoints[endpoint.slot] == endpoint.Record() && s.threads[server.slot] == server.Record();
      assert EndpointShape(s.endpoints[endpoint.slot], |s.processes|, |s.threads|);
      hide Shape, InMemory, CopyUser, WriteUser, LittleEndian;
      var owner := endpoint.ownerProcess.value;
      status := CopyRequest(client, request, owner, address, size);
      if status != STATUS_OK {
        return;
      }
      status := WriteWord(owner, address - 8, endpoint.completion);
      if status != STATUS_OK {
        return;
      }
      PrepareCallback(server, endpoint.callback, endpoint.completion, address, size, address - 8);
    }
  
    // ----- System calls (rpc_runtime::dispatch_syscall) -----

    method Register(active: Thread, call: SyscallContext) returns (status: i32)
      requires Valid() && Owns(active)
      modifies this`current, threads, endpoints
      ensures Valid() && Outcome(State(), status) == KernelModel.Register(old(State()), active.slot, call)
    {
      assert State().threads[active.slot] == active.Record();
      assert ThreadShape(State().threads[active.slot], |processes|);
      hide Shape, Backed, UserString, KernelModel.RegisterNamed, Linked, InMemory;
      var owner := active.process;
      if call.argument0 == 0 || call.argument1 == 0 || call.argument2 == 0 {
        return STATUS_INVALID_ARGUMENT;
      }
      var callbackMapped := ValidateUserAddress(owner, call.argument1);
      if !callbackMapped {
        return STATUS_FAULT;
      }
      var completionMapped := ValidateUserAddress(owner, call.argument2);
      if !completionMapped {
        return STATUS_FAULT;
      }
      var nameStatus, name := CopyName(owner, call.argument0, NAME_BUFFER_SIZE);
      if nameStatus != STATUS_OK {
        return nameStatus;
      }
      status := RegisterNamed(active, name, call.argument1, call.argument2);
    }

    method RegisterNamed(active: Thread, name: seq<u8>, callback: u64, completion: u64) returns (status: i32)
      requires Valid() && Owns(active)
      modifies this`current, threads, endpoints
      ensures Valid()
      ensures Outcome(State(), status) == KernelModel.RegisterNamed(old(State()), active.slot, name, callback, completion)
    {
      ghost var s := State();
      hide Shape, EndpointByName, FreeEndpoint, Install;
      var taken := FindEndpointByName(name);
      if taken.Some? {
        return STATUS_BAD_STATE;
      }
      var free := FindFreeEndpoint();
      FreeEndpointInTable(s);
      if free.None? {
        return STATUS_NO_MEMORY;
      }
      status := InstallOn(free.value, active, name, callback, completion);
    }

    method InstallOn(e: nat, active: Thread, name: seq<u8>, callback: u64, completion: u64) returns (status: i32)
      requires Valid() && e < |endpoints| && Owns(active)
      modifies this`current, threads, endpoints
      ensures Valid()
      ensures Outcome(State(), status) == Install(old(State()), e, active.slot, name, callback, completion)
    {
      assert State().threads[active.slot] == active.Record();
      assert ThreadShape(State().threads[active.slot], |processes|);
      hide Shape, KernelModel.YieldUnlessServing;
      InitializeOn(e, active.process, active, name, callback, completion);
      YieldUnlessServing(active);
      return STATUS_OK;
    }

    method YieldUnlessServing(active: Thread)
      requires Valid() && Owns(active)
      modifies this`current, threads
      ensures Valid() && State() == KernelModel.YieldUnlessServing(old(State()), active.slot)
    {
      hide Shape, PendingByServer, NextReady, SetCurrent, PrepareSyscallResume;
      var next := FindNextReadyThread(active);
      if next != null {
        var pending := FindPendingChannelByServerThread(active);
        if pending.None? {
          PrepareReturn(active, STATUS_OK);
          SetCurrentThread(next);
        }
      }
    }

    lemma FreeEndpointInTable(s: KernelState)
      ensures FreeEndpoint(s).Some? ==> FreeEndpoint(s).value < |s.endpoints|
    {
    }

    method InitializeOn(e: nat, owner: nat, active: Thread, name: seq<u8>, callback: u64, completion: u64)
      requires Valid() && e < |endpoints| && owner < |processes| && Owns(active)
      modifies endpoints[e]
      ensures Valid()
      ensures State() == PutEndpoint(old(State()), e, EndpointRecord(true, false, name, Some(owner), Some(active.slot),
                                                                     callback, completion))
    {
      ghost var s := State();
      endpoints[e].Initialize(owner, active, name, callback, completion);
      SameThreads();
      SameChannels();
      EndpointChanged(endpoints[e]);
      assert State() == PutEndpoint(s, e, EndpointRecord(true, false, name, Some(owner), Some(active.slot),
                                                         callback, completion));
      hide Shape;
    }

    method Open(active: Thread, call: SyscallContext) returns (status: i32)
      requires Valid() && Owns(active)
      modifies this`channels, this`nextHandle, memory
      ensures Valid() && Outcome(State(), status) == KernelModel.Open(old(State()), active.slot, call)
    {
      assert State().threads[active.slot] == active.Record();
      assert ThreadShape(State().threads[active.slot], |processes|);
      hide Shape, UserString, KernelModel.OpenNamed, Linked, InMemory;
      var owner := active.process;
      if call.argument0 == 0 || call.argument1 == 0 {
        return STATUS_INVALID_ARGUMENT;
      }
      var nameStatus, name := CopyName(owner, call.argument0, NAME_BUFFER_SIZE);
      if nameStatus != STATUS_OK {
        return nameStatus;
      }
      status := OpenNamed(owner, name, call.argument1);
    }

    method OpenNamed(owner: nat, name: seq<u8>, target: u64) returns (status: i32)
      requires Valid() && owner < |processes|
      modifies this`channels, this`nextHandle, memory
      ensures Valid() && Outcome(State(), status) == KernelModel.OpenNamed(old(State()), owner, name, target)
    {
      ghost var s := State();
      hide Shape, EndpointByName, FreeChannel, Issue;
      var named := FindEndpointByName(name);
      if named.None? {
        return STATUS_NOT_FOUND;
      }
      NamedInTable(s, name);
      var endpoint := endpoints[named.value];
      assert s.endpoints[named.value] == endpoint.Record();
      var server := endpoint.ownerThread;
      if server == null || server.state == Exited {
        return STATUS_PEER_CLOSED;
      }
      assert s.threads[server.slot] == server.Record();
      var free := FindFreeChannel();
      FreeChannelInTable(s);
      if free.None? {
        return STATUS_NO_MEMORY;
      }
      status := IssueOn(free.value, owner, endpoint, target);
    }

    method IssueOn(k: nat, owner: nat, endpoint: RpcEndpoint, target: u64) returns (status: i32)
      requires Valid() && k < |channels| && channels[k] == null && owner < |processes|
      requires endpoint.slot < |endpoints| && endpoints[endpoint.slot] == endpoint
      modifies this`channels, this`nextHandle, memory
      ensures Valid() && Outcome(State(), status) == Issue(old(State()), k, owner, endpoint.slot, target)
    {
      hide Shape, WriteUser, LittleEndian, PutChannel, EraseChannel, Wrap64;
      var handle := Emplace(k, owner, endpoint);
      status := WriteWord(owner, target, handle);
      if status != STATUS_OK {
        var erased := EraseByHandle(handle);
      }
    }

    /** emplace on the channel pool, at its free slot k. */
    method Emplace(k: nat, owner: nat, endpoint: RpcEndpoint) returns (handle: u64)
      requires Valid() && k < |channels| && channels[k] == null && owner < |processes|
      requires endpoint.slot < |endpoints| && endpoints[endpoint.slot] == endpoint
      modifies this`channels, this`nextHandle
      ensures Valid() && handle == old(nextHandle)
      ensures State() == PutChannel(old(State()).(nextHandle := Wrap64(handle + 1)), k,
                                    Some(NewChannel(handle, owner, endpoint.slot)))
    {
      ghost var s := State();
      handle := nextHandle;
      nextHandle := Wrap64(nextHandle + 1);
      var channel := new RpcChannel(handle, owner, endpoint);
      channels := channels[k := channel];
      SameThreads();
      SameEndpoints();
      assert ChannelRecords() == s.channels[k := Some(NewChannel(handle, owner, endpoint.slot))];
      assert State() == PutChannel(s.(nextHandle := Wrap64(handle + 1)), k, Some(NewChannel(handle, owner, endpoint.slot)));
      hide Shape;
    }

    /** erase_by_handle on the channel pool. */
    method EraseByHandle(handle: u64) returns (erased: bool)
      requires Valid()
      modifies this`channels
      ensures Valid() && State() == EraseChannel(old(State()), handle)
      ensures erased == ChannelByHandle(old(State()), handle).Some?
    {
      ghost var s := State();
      hide ChannelByHandle;
      var found := FindChannelByHandle(handle);
      FoundInTable(s, handle);
      if found.None? {
        return false;
      }
      channels := channels[found.value := null];
      assert ChannelRecords() == s.channels[found.value := None];
      assert State() == PutChannel(s, found.value, None);
      hide Shape;
      return true;
    }

    lemma NamedInTable(s: KernelState, name: seq<u8>)
      ensures EndpointByName(s, name).Some? ==> EndpointByName(s, name).value < |s.endpoints|
    {
    }

    lemma FreeChannelInTable(s: KernelState)
      ensures FreeChannel(s).Some? ==> FreeChannel(s).value < |s.channels| && s.channels[FreeChannel(s).value].None?
    {
    }

    lemma FoundInTable(s: KernelState, handle: u64)
      ensures var found := ChannelByHandle(s, handle);
              found.Some? ==> found.value < |s.channels| && s.channels[found.value].Some?
    {
    }
  
    /** The channel a handle names for a process, as RPC_CALL and RPC_CLOSE look it up. */
    method LookupChannel(owner: nat, handle: u64) returns (r: ChannelLookup)
      requires Linked()
      ensures r == KernelModel.LookupChannel(State(), owner, handle)
      ensures r.Found? ==> r.slot < |channels| && channels[r.slot] != null && channels[r.slot].clientProcess == owner
    {
      ghost var s := State();
      hide ChannelByHandle, ObjectExists;
      var found := FindChannelByHandle(handle);
      FoundInTable(s, handle);
      if found.None? {
        var exists_ := FindObjectByHandle(handle);
        return Refused(if exists_ then STATUS_WRONG_TYPE else STATUS_BAD_HANDLE);
      }
      assert s.channels[found.value] == Some(channels[found.value].Record());
      if channels[found.value].clientProcess != owner {
        return Refused(STATUS_BAD_HANDLE);
      }
      return Found(found.value);
    }

    method Call(active: Thread, call: SyscallContext) returns (status: i32)
      requires Valid() && Owns(active)
      modifies this`current, threads, endpoints, channels, memory
      ensures Valid() && Outcome(State(), status) == KernelModel.Call(old(State()), active.slot, call)
    {
      assert State().threads[active.slot] == active.Record();
      hide Shape, KernelModel.CallOn, KernelModel.LookupChannel;
      if call.argument0 == 0 || call.argument1 == 0 || call.argument2 == 0 {
        return STATUS_INVALID_ARGUMENT;
      }
      var requestSize := call.argument2;
      if requestSize > MAX_REQUEST_SIZE {
        return STATUS_INVALID_ARGUMENT;
      }
      var found := LookupChannel(active.process, call.argument0);
      match found {
        case Refused(refusal) => return refusal;
        case Found(k) => status := CallOn(active, k, call.argument1, requestSize);
      }
    }

    method CallOn(active: Thread, k: nat, request: u64, size: u64) returns (status: i32)
      requires Valid() && Owns(active) && k < |channels| && channels[k] != null
      modifies this`current, threads, endpoints, channels, memory
      ensures Valid() && Outcome(State(), status) == KernelModel.CallOn(old(State()), active.slot, k, request, size)
    {
      ghost var s := State();
      var channel := channels[k];
      var endpoint := channel.endpoint;
      assert s.channels[k] == Some(channel.Record()) && s.endpoints[endpoint.slot] == endpoint.Record();
      var server := endpoint.ownerThread;
      assert server != null ==> s.threads[server.slot] == server.Record();
      assert ChannelShape(channel.Record(), |s.processes|, |s.threads|, |s.endpoints|);
      hide Shape, PrepareServer, KernelModel.Accept;
      if server == null || server.state == Exited {
        return STATUS_PEER_CLOSED;
      }
      if !endpoint.inUse || endpoint.busy || channel.IsBusy() {
        return STATUS_WOULD_BLOCK;
      }
      status := PrepareServerThread(endpoint, server, channel.clientProcess, request, size);
      if status != STATUS_OK {
        return;
      }
      Accept(k, active, server);
    }

    method Accept(k: nat, active: Thread, server: Thread)
      requires Valid() && Owns(active) && Owns(server) && k < |channels| && channels[k] != null
      modifies this`current, threads, endpoints, channels
      ensures Valid() && State() == KernelModel.Accept(old(State()), k, active.slot, server.slot)
    {
      hide Shape, BeginCall, SetCurrent;
      BeginOn(k, active, server);
      if server != active {
        assert server.slot != active.slot by { assert threads[server.slot] == server && threads[active.slot] == active; }
        SetState(active, Blocked);
        SetCurrentThread(server);
      }
    }

    method Close(active: Thread, call: SyscallContext) returns (status: i32)
      requires Valid() && Owns(active)
      modifies this`channels
      ensures Valid() && Outcome(State(), status) == KernelModel.Close(old(State()), active.slot, call)
    {
      ghost var s := State();
      assert s.threads[active.slot] == active.Record();
      if call.argument0 == 0 {
        return STATUS_INVALID_ARGUMENT;
      }
      var found := LookupChannel(active.process, call.argument0);
      FoundByHandle(s, active.process, call.argument0);
      hide Shape, KernelModel.LookupChannel, EraseChannel, ChannelByHandle;
      match found {
        case Refused(refusal) => return refusal;
        case Found(k) =>
          assert s.channels[k] == Some(channels[k].Record());
          if channels[k].IsBusy() {
            return STATUS_BAD_STATE;
          }
          status := STATUS_BAD_STATE;
          var erased := EraseByHandle(call.argument0);
          if erased {
            status := STATUS_OK;
          }
      }
    }

    lemma FoundByHandle(s: KernelState, owner: nat, handle: u64)
      ensures KernelModel.LookupChannel(s, owner, handle).Found? ==> ChannelByHandle(s, handle).Some?
    {
      hide ChannelByHandle, ObjectExists;
    }

    // ----- Dispatch and the trap handler -----

    method DebugLog(active: Thread, call: SyscallContext) returns (status: i32)
      requires Valid() && Owns(active)
      ensures Valid() && State() == old(State()) && status == KernelModel.DebugLog(State(), active.slot, call)
    {
      assert State().threads[active.slot] == active.Record();
      assert ThreadShape(State().threads[active.slot], |processes|);
      hide Shape, UserString, Linked, InMemory;
      if call.argument0 == 0 {
        return STATUS_INVALID_ARGUMENT;
      }
      var message;
      status, message := CopyName(active.process, call.argument0, LOG_BUFFER_SIZE);
    }

    method Serve(active: Thread, call: SyscallContext) returns (status: i32)
      requires Valid() && Owns(active) && current == active
      modifies this`current, this`channels, this`nextHandle, threads, endpoints, channels, memory
      ensures Valid() && Outcome(State(), status) == KernelModel.Serve(old(State()), active.slot, call)
    {
      hide Shape, KernelModel.DebugLog, TerminateCurrent, KernelModel.Register, KernelModel.Open, KernelModel.Call,
        KernelModel.Close, KernelModel.CompleteCall, Linked;
      if call.number == SYSCALL_DEBUG_LOG {
        status := DebugLog(active, call);
      } else if call.number == SYSCALL_THREAD_EXIT {
        var scheduled := TerminateCurrentThread(call.argument0, STATUS_PEER_CLOSED);
        status := STATUS_OK;
      } else if call.number == SYSCALL_RPC_REGISTER {
        status := Register(active, call);
      } else if call.number == SYSCALL_RPC_OPEN {
        status := Open(active, call);
      } else if call.number == SYSCALL_RPC_CALL {
        status := Call(active, call);
      } else if call.number == SYSCALL_RPC_CLOSE {
        status := Close(active, call);
      } else if call.number == SYSCALL_RPC_COMPLETE {
        status := CompleteCall(active, ToSigned32(call.argument0));
      } else if call.number == SYSCALL_DEVICE_MEMORY_MAP {
        status := if call.argument0 == 0 || call.argument1 == 0 then STATUS_INVALID_ARGUMENT else STATUS_NOT_FOUND;
      } else {
        status := STATUS_NOT_SUPPORTED;
      }
    }

    /** user_runtime::dispatch_syscall. */
    method Dispatch(call: SyscallContext) returns (status: i32)
      requires Valid()
      modifies this`current, this`channels, this`nextHandle, threads, endpoints, channels, memory
      ensures Valid() && Outcome(State(), status) == KernelModel.Dispatch(old(State()), call)
    {
      hide Shape, KernelModel.Serve;
      var active := current;
      if active == null {
        return STATUS_BAD_STATE;
      }
      SetContext(active, ContextOf(call));
      status := Serve(active, call);
    }

    method SaveRegisters(t: Thread, f: Frame)
      requires Valid() && Owns(t) && FrameShape(f)
      modifies t
      ensures Valid() && |old(State()).threads[t.slot].registers| == REGISTER_COUNT
      ensures State() == PutThread(old(State()), t.slot, SaveFrame(old(State()).threads[t.slot], f))
    {
      ghost var s := State();
      assert s.threads[t.slot] == t.Record();
      assert ThreadShape(s.threads[t.slot], |s.processes|);
      t.SaveRegisters(f);
      ThreadChanged(t);
      SameEndpoints();
      SameChannels();
      assert State() == PutThread(s, t.slot, SaveFrame(s.threads[t.slot], f));
      hide Shape;
    }

    /** has_runnable_thread. */
    predicate HasRunnableThread()
      reads this, current
    {
      current != null && current.state != Blocked && current.state != Exited
    }

    /** x64_handle_syscall. The frame comes in as the trap left it; the result is the frame to return to user code
        with, or none when no thread is runnable. */
    method HandleSyscall(frame: Frame) returns (next: Option<Frame>)
      requires Valid() && current != null && FrameShape(frame)
      modifies this`current, this`channels, this`nextHandle, threads, endpoints, channels, memory
      ensures Valid()
      ensures State() == HandleTrap(old(State()), frame).state && next == HandleTrap(old(State()), frame).frame
    {
      ghost var s := State();
      var active := current;
      hide Shape, KernelModel.Dispatch, SaveFrame, LoadFrame, PrepareSyscallResume;
      SaveRegisters(active, frame);
      var status := Dispatch(CallOf(frame));
      RunnableAgrees();
      if !HasRunnableThread() {
        return None;
      }
      var resumed := current;
      if resumed == active {
        PrepareReturn(resumed, status);
      }
      CurrentRecord();
      return Some(LoadFrame(resumed.Record()));
    }

    lemma RunnableAgrees()
      requires Valid()
      ensures HasRunnableThread() <==> Runnable(State())
    {
      assert current != null ==> State().threads[current.slot] == current.Record();
      hide Shape;
    }

    lemma CurrentRecord()
      requires Valid() && current != null
      ensures State().threads[current.slot] == current.Record() && |current.registers| == REGISTER_COUNT
    {
      assert ThreadShape(State().threads[current.slot], |processes|);
    }
  }
}
