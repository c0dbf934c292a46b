/**
 What the kernel's DEBUG_LOG (kernel/user_runtime.cpp) does with the strings that the C library and the terminal service
 hand to it.
 */
module KernelLog {
  import opened Words
  import opened Status
  import opened UserCopy
  import opened KernelModel
  import Stdio
  import Terminal

  /** The string `text`, ended by its NUL, stands where the caller's argument points. */
  ghost predicate Stands(s: KernelState, active: nat, call: SyscallContext, text: seq<u8>)
    requires Shape(s) && active < |s.threads|
  {
    var mappings := s.processes[s.threads[active].process].mappings;
    && call.argument0 != 0 && StringPrefix(s.memory, mappings, call.argument0, text)
    && StringByte(s.memory, mappings, call.argument0, |text|, 0)
  }

  /** A string is logged iff it is shorter than 96 characters, and refused otherwise. */
  lemma LogAccepts(s: KernelState, active: nat, call: SyscallContext, text: seq<u8>)
    requires Shape(s) && active < |s.threads| && Stands(s, active, call, text)
    ensures DebugLog(s, active, call) == if |text| < LOG_BUFFER_SIZE then STATUS_OK else STATUS_BUFFER_TOO_SMALL
  {
    var mappings := s.processes[s.threads[active].process].mappings;
    var r := UserStringFrom(s.memory, mappings, call.argument0, [], LOG_BUFFER_SIZE);
    UserStringMeaning(s.memory, mappings, call.argument0, [], LOG_BUFFER_SIZE);
    hide Shape, UserStringFrom;
    assert |r.bytes| > |text| ==> StringByte(s.memory, mappings, call.argument0, |text|, r.bytes[|text|]);
    assert |r.bytes| < |text| ==> StringByte(s.memory, mappings, call.argument0, |r.bytes|, text[|r.bytes|]);
  }

  /** Every line the terminal service puts out is accepted. */
  lemma TerminalLinesAreAccepted(s: KernelState, active: nat, call: SyscallContext, input: seq<u8>, k: nat)
    requires Shape(s) && active < |s.threads|
    requires k < |Terminal.LoggedLines(Terminal.Clean(input))|
    requires Stands(s, active, call, Terminal.LoggedLines(Terminal.Clean(input))[k])
    ensures DebugLog(s, active, call) == STATUS_OK
  {
    Terminal.LinesAreLoggable(input);
    LogAccepts(s, active, call, Terminal.LoggedLines(Terminal.Clean(input))[k]);
    hide Shape, Stands, DebugLog;
  }

  /** A text without NULs that vprintf hands on is accepted iff it is shorter than 96 characters. */
  lemma PrintedTextIsAccepted(s: KernelState, active: nat, call: SyscallContext, text: Stdio.CString, bytes: seq<u8>)
    requires Shape(s) && active < |s.threads| && Stands(s, active, call, bytes)
    requires var handed := Stdio.UpToNul(text[..Stdio.Min(|text|, Stdio.LOG_BUFFER_CAPACITY - 1)]);
             |bytes| == |handed| && forall k :: 0 <= k < |bytes| ==> bytes[k] == handed[k] as int
    ensures DebugLog(s, active, call) == STATUS_OK <==> |text| < LOG_BUFFER_SIZE
  {
    Stdio.NothingCut(text[..Stdio.Min(|text|, Stdio.LOG_BUFFER_CAPACITY - 1)]);
    LogAccepts(s, active, call, bytes);
    hide Shape, Stands, DebugLog;
  }
}
