/**
 Resolving a Win32 import (win32/x64_win32_emulation.cpp): find the registered export, emit its stub behind the image,
 hand out the stub's address. Names are C strings without their NUL; the export table is any table.
 */
module Win32Imports {
  import opened Words
  import opened Search
  import opened X64Machine
  import opened ImportStubs

  datatype Export = Export(dll: seq<u8>, symbol: seq<u8>, number: u64)

  datatype ResolutionStatus = ResolutionOk | ResolutionInvalidArgument | ResolutionUnsupported | ResolutionOutOfRange

  function AlignUp(value: u64, alignment: u64): u64 {
    if alignment == 0 then value
    else
      var remainder := value % alignment;
      if remainder == 0 then value else Wrap64(value + (alignment - remainder))
  }

  lemma AlignUpMeaning(value: u64)
    requires value <= U64_MAX - 15
    ensures var r := AlignUp(value, 16); value <= r < value + 16 && r % 16 == 0
  {
  }

  // ----- Names -----

  function ToLower(c: u8): u8 {
    if 0x41 <= c <= 0x5A then c - 0x41 + 0x61 else c
  }

  /** Two characters are the same in any case iff they are equal or one letter in its two cases. */
  lemma SameInAnyCase(a: u8, b: u8)
    ensures ToLower(a) == ToLower(b) <==>
            a == b || (0x41 <= a <= 0x5A && b == a + 0x20) || (0x41 <= b <= 0x5A && a == b + 0x20)
  {
  }

  function Lower(s: seq<u8>): (r: seq<u8>)
    ensures |r| == |s|
  {
    seq(|s|, k requires 0 <= k < |s| => ToLower(s[k]))
  }

  const DLL_SUFFIX: seq<u8> := [0x2E, 0x64, 0x6C, 0x6C]

  /** A DLL is named by its registered name, in any case, with or without ".dll". */
  predicate DllNamesMatch(imported: seq<u8>, registered: seq<u8>) {
    Lower(imported) == Lower(registered) || Lower(imported) == Lower(registered) + DLL_SUFFIX
  }

  method HasDllSuffix(value: seq<u8>, start: nat) returns (r: bool)
    requires start <= |value|
    ensures r <==> Lower(value[start..]) == DLL_SUFFIX[1..]
  {
    ghost var tail := value[start..];
    r := start < |value| && ToLower(value[start]) == 0x64
         && start + 1 < |value| && ToLower(value[start + 1]) == 0x6C
         && start + 2 < |value| && ToLower(value[start + 2]) == 0x6C
         && start + 3 == |value|;
    if r {
      assert Lower(tail) == DLL_SUFFIX[1..];
    } else if |tail| == 3 {
      assert Lower(tail)[0] == ToLower(value[start]) && Lower(tail)[1] == ToLower(value[start + 1]);
      assert Lower(tail)[2] == ToLower(value[start + 2]);
    }
  }

  method MatchDllNames(imported: seq<u8>, registered: seq<u8>) returns (r: bool)
    ensures r <==> DllNamesMatch(imported, registered)
  {
    var index := 0;
    while index < |registered|
      invariant 0 <= index <= |registered| && index <= |imported|
      invariant forall k :: 0 <= k < index ==> Lower(imported)[k] == Lower(registered)[k]
    {
      if index == |imported| || ToLower(imported[index]) != ToLower(registered[index]) {
        assert index < |imported| ==> Lower(imported)[index] != (Lower(registered) + DLL_SUFFIX)[index];
        assert index < |imported| ==> Lower(imported)[index] != Lower(registered)[index];
        return false;
      }
      index := index + 1;
    }
    assert Lower(imported)[..index] == Lower(registered);
    if index == |imported| {
      return true;
    }
    if imported[index] == 0x2E {
      r := HasDllSuffix(imported, index + 1);
    } else {
      r := false;
    }
    SuffixSplits(imported, registered, index);
  }

  lemma SuffixSplits(imported: seq<u8>, registered: seq<u8>, index: nat)
    requires index == |registered| < |imported| && Lower(imported)[..index] == Lower(registered)
    ensures DllNamesMatch(imported, registered)
       <==> imported[index] == 0x2E && Lower(imported[index + 1..]) == DLL_SUFFIX[1..]
  {
    var low := Lower(imported);
    assert low == low[..index] + [low[index]] + low[index + 1..];
    assert low[index + 1..] == Lower(imported[index + 1..]);
    assert DLL_SUFFIX == [0x2E] + DLL_SUFFIX[1..];
    if imported[index] == 0x2E && low[index + 1..] == DLL_SUFFIX[1..] {
      assert low == Lower(registered) + DLL_SUFFIX;
    }
    if low == Lower(registered) + DLL_SUFFIX {
      assert low[index] == DLL_SUFFIX[0] && low[index + 1..] == DLL_SUFFIX[1..];
    }
  }

  method MatchSymbolNames(left: seq<u8>, right: seq<u8>) returns (r: bool)
    ensures r <==> left == right
  {
    var index := 0;
    while index < |left| && index < |right|
      invariant 0 <= index <= |left| && index <= |right| && left[..index] == right[..index]
    {
      if left[index] != right[index] {
        return false;
      }
      index := index + 1;
    }
    r := index == |left| && index == |right|;
  }

  predicate Exports(e: Export, dll: seq<u8>, symbol: seq<u8>) {
    DllNamesMatch(dll, e.dll) && symbol == e.symbol
  }

  /** The first export a name pair denotes. */
  function FindExport(exports: seq<Export>, dll: seq<u8>, symbol: seq<u8>): Option<nat> {
    First(exports, (e: Export) => Exports(e, dll, symbol))
  }

  method LookUpExport(exports: seq<Export>, dll: seq<u8>, symbol: seq<u8>) returns (r: Option<nat>)
    ensures r == FindExport(exports, dll, symbol)
    ensures r.Some? ==> r.value < |exports| && Exports(exports[r.value], dll, symbol)
  {
    ghost var test := (e: Export) => Exports(e, dll, symbol);
    hide DllNamesMatch;
    for index := 0 to |exports|
      invariant FirstIn(exports, test, 0, |exports|) == FirstIn(exports, test, index, |exports|)
    {
      var sameDll := MatchDllNames(dll, exports[index].dll);
      if sameDll {
        var sameSymbol := MatchSymbolNames(symbol, exports[index].symbol);
        if sameSymbol {
          return Some(index);
        }
      }
    }
    return None;
  }

  // ----- Stub emission -----

  /** The image with `bytes` at `at`. */
  function Patched(image: seq<u8>, at: nat, bytes: seq<u8>): (r: seq<u8>)
    requires at + |bytes| <= |image|
    ensures |r| == |image|
    ensures forall k :: 0 <= k < |image| ==> r[k] == if at <= k < at + |bytes| then bytes[k - at] else image[k]
  {
    image[..at] + bytes + image[at + |bytes|..]
  }

  method EmitStub(image: array<u8>, at: nat, number: u32)
    requires at + STUB_SIZE <= image.Length
    modifies image
    ensures image[..] == Patched(old(image[..]), at, StubBytes(number))
  {
    ghost var before := image[..];
    StubLayout(number);
    hide StubBytes;
    var b1, b2, b3 := number / 256 % 256, number / 0x1_0000 % 256, number / 0x100_0000 % 256;
    image[at] := 0x48;
    image[at + 1] := 0x89;
    image[at + 2] := 0xCF;
    image[at + 3] := 0xB8;
    image[at + 4] := number % 256;
    image[at + 5] := b1;
    image[at + 6] := b2;
    image[at + 7] := b3;
    image[at + 8] := 0x0F;
    image[at + 9] := 0x05;
    image[at + 10] := 0xC3;
    assert image[..] == Patched(before, at, StubBytes(number));
  }

  lemma StubLayout(v: u32)
    ensures StubBytes(v) == [0x48, 0x89, 0xCF, 0xB8, v % 256, v / 256 % 256, v / 0x1_0000 % 256, v / 0x100_0000 % 256,
                             0x0F, 0x05, 0xC3]
  {
    FourBytes(v);
  }

  lemma FourBytes(v: u32)
    ensures LittleEndian(v, 4) == [v % 256, v / 256 % 256, v / 0x1_0000 % 256, v / 0x100_0000 % 256]
  {
    assert LittleEndian(v / 0x100_0000, 1) == [v / 0x100_0000 % 256];
    assert v / 256 / 256 == v / 0x1_0000 && v / 0x1_0000 / 256 == v / 0x100_0000;
    assert LittleEndian(v / 0x1_0000, 2) == [v / 0x1_0000 % 256] + LittleEndian(v / 0x100_0000, 1);
    assert LittleEndian(v / 256, 3) == [v / 256 % 256] + LittleEndian(v / 0x1_0000, 2);
    assert LittleEndian(v, 4) == [v % 256] + LittleEndian(v / 256, 3);
  }

  predicate StubFits(next: u64, size: nat) {
    AlignUp(next, 16) <= size && STUB_SIZE <= size - AlignUp(next, 16)
  }

  /** resolve_x64_win32_import. On OK the stub for the first matching export stands at the next multiple of 16; any
      refusal leaves the image as it was. */
  method ResolveImport(exports: seq<Export>, dll: seq<u8>, symbol: seq<u8>, imageBase: u64, image: array<u8>, size: nat,
                       next: u64) returns (status: ResolutionStatus, address: u64, nextStub: u64)
    requires size <= image.Length && size <= U64_MAX
    modifies image
    ensures var found := FindExport(exports, dll, symbol);
            match found
            case None => status == ResolutionUnsupported
            case Some(e) =>
              status == if e < |exports| && exports[e].number < TWO_32 && StubFits(next, size) then ResolutionOk
                        else ResolutionOutOfRange
    ensures status != ResolutionOk ==> image[..] == old(image[..]) && nextStub == next
    ensures status == ResolutionOk ==>
              var e, at := FindExport(exports, dll, symbol).value, AlignUp(next, 16);
              && e < |exports| && exports[e].number < TWO_32
              && Exports(exports[e], dll, symbol) && at + STUB_SIZE <= size
              && image[..] == Patched(old(image[..]), at, StubBytes(exports[e].number))
              && address == Wrap64(imageBase + at) && nextStub == at + STUB_SIZE
  {
    hide DllNamesMatch, StubBytes;
    address, nextStub := 0, next;
    var found := LookUpExport(exports, dll, symbol);
    hide FindExport;
    if found.None? {
      return ResolutionUnsupported, address, nextStub;
    }
    var number := exports[found.value].number;
    if number > 0xFFFF_FFFF {
      return ResolutionOutOfRange, address, nextStub;
    }
    var at := AlignUp(next, 16);
    hide AlignUp;
    if at > size || STUB_SIZE > size - at {
      return ResolutionOutOfRange, address, nextStub;
    }
    EmitStub(image, at, number);
    return ResolutionOk, Wrap64(imageBase + at), at + STUB_SIZE;
  }
}
