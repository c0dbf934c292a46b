/**
 Import tables in the terms of the PE format, and what a successful load has made of them: one binding for every lookup
 entry of every descriptor (win32/x64_pe64_image.cpp). Nothing here is said by way of the loader's own walk.
 */
module PeTables {
  import opened Words
  import opened ImportStubs
  import opened Win32Imports
  import opened PeImports

  // ----- Fields of the image -----

  /** Four bytes, the low one first. */
  function U32At(image: seq<u8>, at: nat): u32
    requires at + 4 <= |image|
  {
    Quad(image[at], image[at + 1], image[at + 2], image[at + 3])
  }

  function U64At(image: seq<u8>, at: nat): u64
    requires at + 8 <= |image|
  {
    var low: int, high: int := U32At(image, at), U32At(image, at + 4);
    low + 0x1_0000_0000 * high
  }

  lemma FieldsRead(image: seq<u8>, at: nat)
    requires at + 4 <= |image|
    ensures Value32(image, at) == U32At(image, at)
    ensures at + 8 <= |image| ==> Value64(image, at) == U64At(image, at)
  {
    FourBytesValue(image[at..at + 4]);
    if at + 8 <= |image| {
      EightBytesValue(image[at..at + 8]);
    }
    hide FromLittleEndian;
  }

  /** A reference is an RVA if it is below the image size, and otherwise an address of the image. */
  predicate Refers(raw: u64, imageBase: u64, imageSize: u32, rva: u32) {
    rva < imageSize && if raw < imageSize then rva == raw else imageBase + rva == raw
  }

  lemma ReferenceResolves(raw: u64, imageBase: u64, imageSize: u32)
    ensures forall rva: u32 :: Refers(raw, imageBase, imageSize, rva) <==> ResolveRva(raw, imageBase, imageSize) == Some(rva)
  {
  }

  // ----- Tables -----

  predicate Fit(bindings: seq<Binding>, size: nat) {
    forall i :: 0 <= i < |bindings| ==> bindings[i].slot + 8 <= size && bindings[i].stub + STUB_SIZE <= size
  }

  /** The image as its first n bindings leave it: stubs and slots written, in order. */
  function After(image: seq<u8>, imageBase: u64, bindings: seq<Binding>, n: nat): (r: seq<u8>)
    requires n <= |bindings| && Fit(bindings, |image|)
    ensures |r| == |image|
  {
    if n == 0 then image else WithBinding(After(image, imageBase, bindings, n - 1), imageBase, bindings[n - 1])
  }

  /** The reference `raw` of a lookup entry leads to a symbol: its name stands behind the two bytes of a hint. */
  ghost predicate Named(now: seq<u8>, imageBase: u64, imageSize: u32, raw: u64, symbol: seq<u8>)
    requires imageSize <= |now|
  {
    exists hint: u32 :: Names(now, imageBase, imageSize, raw, hint, symbol)
  }

  ghost predicate Names(now: seq<u8>, imageBase: u64, imageSize: u32, raw: u64, hint: u32, symbol: seq<u8>)
    requires imageSize <= |now|
  {
    Refers(raw, imageBase, imageSize, hint) && StringAt(now, imageSize, Wrap32(hint + 2), symbol)
  }

  /** A binding is made for entry i of a lookup table: by name, with the address slot of the same index. */
  ghost predicate IsEntry(now: seq<u8>, imageBase: u64, imageSize: u32, b: Binding, dll: seq<u8>, lookup: nat,
                          firstThunk: nat, i: nat)
    requires imageSize <= |now|
  {
    && lookup + 8 * i + 8 <= imageSize
    && 0 < U64At(now, lookup + 8 * i) < ORDINAL_MASK
    && Named(now, imageBase, imageSize, U64At(now, lookup + 8 * i), b.symbol)
    && b.dll == dll && b.slot == firstThunk + 8 * i && b.slot + 8 <= imageSize
  }

  /** Binding from + i is made for entry i, as the table stands by then. */
  ghost predicate EntryBound(image: seq<u8>, imageBase: u64, imageSize: u32, bindings: seq<Binding>, from: nat,
                             dll: seq<u8>, lookup: nat, firstThunk: nat, i: nat)
    requires imageSize <= |image| && Fit(bindings, |image|) && from + i < |bindings|
  {
    IsEntry(After(image, imageBase, bindings, from + i), imageBase, imageSize, bindings[from + i], dll, lookup, firstThunk, i)
  }

  /** The lookup table that starts at `lookup` has exactly the entries of the bindings from .. upTo, then a zero one. */
  ghost predicate EntriesBound(image: seq<u8>, imageBase: u64, imageSize: u32, bindings: seq<Binding>, from: nat, upTo: nat,
                               dll: seq<u8>, lookup: nat, firstThunk: nat)
    requires imageSize <= |image| && Fit(bindings, |image|)
  {
    && from <= upTo <= |bindings|
    && (forall i: nat :: i < upTo - from ==>
          EntryBound(image, imageBase, imageSize, bindings, from, dll, lookup, firstThunk, i))
    && lookup + 8 * (upTo - from) + 8 <= imageSize && firstThunk + 8 * (upTo - from) + 8 <= imageSize
    && U64At(After(image, imageBase, bindings, upTo), lookup + 8 * (upTo - from)) == 0
  }

  /** The image holds an import descriptor at rva: lookup table (or, without one, the address table), DLL name, address
      table. */
  ghost predicate DescribesImports(now: seq<u8>, imageBase: u64, imageSize: u32, rva: nat, dll: seq<u8>, lookup: u32,
                                   firstThunk: u32)
    requires imageSize <= |now| && rva + DESCRIPTOR_SIZE <= |now|
  {
    && (exists name: u32 ::
          Refers(U32At(now, rva + 12), imageBase, imageSize, name) && StringAt(now, imageSize, name, dll))
    && Refers(U32At(now, rva + 16), imageBase, imageSize, firstThunk)
    && if U32At(now, rva) == 0 then lookup == firstThunk else Refers(U32At(now, rva), imageBase, imageSize, lookup)
  }

  predicate AllZero(now: seq<u8>, rva: nat, n: nat)
    requires rva + n <= |now|
  {
    forall k :: rva <= k < rva + n ==> now[k] == 0
  }

  /** Bindings from .. upTo are those of the descriptor at rva. */
  ghost predicate DescriptorBound(image: seq<u8>, imageBase: u64, imageSize: u32, bindings: seq<Binding>, from: nat, upTo: nat,
                                  rva: nat)
    requires imageSize <= |image| && Fit(bindings, |image|) && rva + DESCRIPTOR_SIZE <= |image|
  {
    && from <= upTo <= |bindings|
    && var now := After(image, imageBase, bindings, from);
       && !AllZero(now, rva, DESCRIPTOR_SIZE)
       && exists dll: seq<u8>, lookup: u32, firstThunk: u32 ::
            && DescribesImports(now, imageBase, imageSize, rva, dll, lookup, firstThunk)
            && EntriesBound(image, imageBase, imageSize, bindings, from, upTo, dll, lookup, firstThunk)
  }

  /** The bindings are, in order, those of the descriptors of the table, whose end is an empty descriptor. Descriptor d
      has those from starts[d] to starts[d + 1]. */
  ghost predicate TableBound(image: seq<u8>, imageBase: u64, imageSize: u32, directory: nat, directorySize: nat,
                             bindings: seq<Binding>, starts: seq<nat>)
    requires imageSize <= |image| && Fit(bindings, |image|)
  {
    && |starts| > 0 && starts[0] == 0 && starts[|starts| - 1] == |bindings|
    && DESCRIPTOR_SIZE * |starts| <= directorySize && directory + directorySize <= imageSize
    && (forall d: nat :: d < |starts| - 1 ==>
          DescriptorBound(image, imageBase, imageSize, bindings, starts[d], starts[d + 1], directory + DESCRIPTOR_SIZE * d))
    && AllZero(After(image, imageBase, bindings, |bindings|), directory + DESCRIPTOR_SIZE * (|starts| - 1), DESCRIPTOR_SIZE)
  }

  /** Binding j has the code of the first export it names in a stub of its own, the next multiple of 16 behind the
      stub before, or behind the image. */
  ghost predicate StubMade(exports: seq<Export>, imageSize: u32, loadedSize: u32, bindings: seq<Binding>, j: nat)
    requires j < |bindings|
  {
    var b := bindings[j];
    var end := if j == 0 then imageSize else bindings[j - 1].stub + STUB_SIZE;
    && b.stub % 16 == 0 && end <= b.stub < end + 16 && b.stub + STUB_SIZE <= loadedSize
    && exists e: nat ::
         && e < |exports| && Exports(exports[e], b.dll, b.symbol) && exports[e].number == b.number
         && forall d :: 0 <= d < e ==> !Exports(exports[d], b.dll, b.symbol)
  }

  ghost predicate StubsMade(exports: seq<Export>, imageSize: u32, loadedSize: u32, bindings: seq<Binding>) {
    forall j: nat :: j < |bindings| ==> StubMade(exports, imageSize, loadedSize, bindings, j)
  }

  // ----- The walk makes the table -----

  /** Where the stub before ends, or the image. */
  function EndOf(bindings: seq<Binding>, imageSize: nat): nat {
    if bindings == [] then imageSize else bindings[|bindings| - 1].stub + STUB_SIZE
  }

  /** A walk so far: the image its bindings make, with their stubs in a row. */
  ghost predicate Made(image: seq<u8>, now: seq<u8>, imageBase: u64, imageSize: u32, loadedSize: u32, exports: seq<Export>,
                       next: nat, bindings: seq<Binding>) {
    && Fit(bindings, |image|) && now == After(image, imageBase, bindings, |bindings|)
    && StubsMade(exports, imageSize, loadedSize, bindings) && next == EndOf(bindings, imageSize)
  }

  lemma FitPrefix(done: seq<Binding>, all: seq<Binding>, n: nat)
    requires done <= all && Fit(all, n)
    ensures Fit(done, n)
  {
    assert forall i :: 0 <= i < |done| ==> done[i] == all[i];
  }

  lemma {:induction false} AfterPrefix(image: seq<u8>, imageBase: u64, done: seq<Binding>, all: seq<Binding>, n: nat)
    requires done <= all && n <= |done| && Fit(all, |image|)
    ensures Fit(done, |image|) && After(image, imageBase, done, n) == After(image, imageBase, all, n)
  {
    hide WithBinding;
    FitPrefix(done, all, |image|);
    assert forall i :: 0 <= i < |done| ==> done[i] == all[i];
    hide Fit;
    if n > 0 {
      AfterPrefix(image, imageBase, done, all, n - 1);
    }
  }

  lemma EntryKept(image: seq<u8>, imageBase: u64, imageSize: u32, done: seq<Binding>, all: seq<Binding>, from: nat,
                  dll: seq<u8>, lookup: nat, firstThunk: nat, i: nat)
    requires imageSize <= |image| && done <= all && Fit(all, |image|) && Fit(done, |image|) && from + i < |done|
    ensures EntryBound(image, imageBase, imageSize, done, from, dll, lookup, firstThunk, i)
       <==> EntryBound(image, imageBase, imageSize, all, from, dll, lookup, firstThunk, i)
  {
    hide After, IsEntry, Fit;
    AfterPrefix(image, imageBase, done, all, from + i);
    assert all[..|done|][from + i] == all[from + i];
  }

  /** One more binding. */
  lemma MadeOne(image: seq<u8>, now: seq<u8>, imageBase: u64, imageSize: u32, loadedSize: u32, exports: seq<Export>,
                next: nat, done: seq<Binding>, b: Binding)
    requires Made(image, now, imageBase, imageSize, loadedSize, exports, next, done) && loadedSize <= |image|
    requires b.slot + 8 <= imageSize <= |image| && StubMade(exports, imageSize, loadedSize, done + [b], |done|)
    ensures |now| == |image| && b.stub + STUB_SIZE <= |image|
    ensures Made(image, WithBinding(now, imageBase, b), imageBase, imageSize, loadedSize, exports, b.stub + STUB_SIZE,
                 done + [b])
  {
    hide WithBinding, StubMade, Fit, StubsMade;
    var all := done + [b];
    StubsOne(exports, imageSize, loadedSize, done, b);
    assert all[|done|] == b;
    FitOne(done, b, |image|);
    AfterPrefix(image, imageBase, done, all, |done|);
  }

  lemma FitOne(done: seq<Binding>, b: Binding, n: nat)
    requires Fit(done, n) && b.slot + 8 <= n && b.stub + STUB_SIZE <= n
    ensures Fit(done + [b], n)
  {
  }

  lemma StubsOne(exports: seq<Export>, imageSize: u32, loadedSize: u32, done: seq<Binding>, b: Binding)
    requires StubsMade(exports, imageSize, loadedSize, done)
    requires StubMade(exports, imageSize, loadedSize, done + [b], |done|)
    ensures StubsMade(exports, imageSize, loadedSize, done + [b]) && (done + [b])[|done|].stub + STUB_SIZE <= loadedSize
  {
    hide Exports;
    var all := done + [b];
    forall j: nat | j < |all| ensures StubMade(exports, imageSize, loadedSize, all, j) {
      if j < |done| {
        assert StubMade(exports, imageSize, loadedSize, done, j);
      }
    }
  }

  /** What binding one entry takes: a reference by name to an exported symbol, and room for its stub. */
  lemma StepBinds(now: seq<u8>, imageSize: u32, loadedSize: u32, imageBase: u64, exports: seq<Export>, dll: seq<u8>,
                  entry: u64, slot: u32, next: u64, done: seq<Binding>)
    requires imageSize <= |now| && loadedSize <= |now| && next <= U64_MAX - 15 && next == EndOf(done, imageSize)
    ensures var r := ThunkStep(now, imageSize, loadedSize, imageBase, exports, dll, entry, slot, next);
            r.Binds? ==>
              && entry < ORDINAL_MASK
              && Named(now, imageBase, imageSize, entry, r.binding.symbol)
              && StubMade(exports, imageSize, loadedSize, done + [r.binding], |done|)
  {
    AlignUpMeaning(next);
    ReferenceResolves(entry, imageBase, imageSize);
    hide ResolveRva, AlignUp, Exports, StringAt;
    var r := ThunkStep(now, imageSize, loadedSize, imageBase, exports, dll, entry, slot, next);
    if r.Binds? {
      var hint := ResolveRva(entry, imageBase, imageSize).value;
      assert Names(now, imageBase, imageSize, entry, hint, r.binding.symbol);
    }
  }

  lemma {:induction false} ThunksMake(image: seq<u8>, now: seq<u8>, imageSize: u32, loadedSize: u32, imageBase: u64,
                                      exports: seq<Export>, dll: seq<u8>, lookup: u32, firstThunk: u32, index: nat,
                                      next: u64, done: seq<Binding>, from: nat)
    requires imageSize <= |image| == |now| && loadedSize <= |image| && next <= TWO_32
    requires lookup + 8 * index <= imageSize && firstThunk + 8 * index <= imageSize && |done| == from + index
    requires Made(image, now, imageBase, imageSize, loadedSize, exports, next, done)
    requires forall i: nat :: i < index ==>
               EntryBound(image, imageBase, imageSize, done, from, dll, lookup, firstThunk, i)
    ensures var w := ThunkWalk(now, imageSize, loadedSize, imageBase, exports, dll, lookup, firstThunk, index, next, done);
            && done <= w.bindings
            && Made(image, w.image, imageBase, imageSize, loadedSize, exports, w.next, w.bindings)
            && (w.status == LoadOk ==>
                  EntriesBound(image, imageBase, imageSize, w.bindings, from, |w.bindings|, dll, lookup, firstThunk))
    decreases imageSize - (lookup + 8 * index)
  {
    hide ThunkStep, WithBinding, U64At, Value64, Named, After, StubsMade, EndOf, StubMade, Fit;
    var at, slot := lookup + 8 * index, firstThunk + 8 * index;
    Unwrapped(at, slot, imageSize);
    if InImage(imageSize, Wrap32(at), 8) && InImage(imageSize, Wrap32(slot), 8) {
      FieldsRead(now, at);
      if U64At(now, at) != 0 {
        var r := ThunkStep(now, imageSize, loadedSize, imageBase, exports, dll, U64At(now, at), slot, next);
        StepBinds(now, imageSize, loadedSize, imageBase, exports, dll, U64At(now, at), slot, next, done);
        if r.Binds? {
          var all := done + [r.binding];
          MadeOne(image, now, imageBase, imageSize, loadedSize, exports, next, done, r.binding);
          forall i: nat | i < index + 1
            ensures EntryBound(image, imageBase, imageSize, all, from, dll, lookup, firstThunk, i)
          {
            if i < index {
              EntryKept(image, imageBase, imageSize, done, all, from, dll, lookup, firstThunk, i);
            } else {
              AfterPrefix(image, imageBase, done, all, |done|);
            }
          }
          hide EntryBound;
          ThunksMake(image, WithBinding(now, imageBase, r.binding), imageSize, loadedSize, imageBase, exports, dll, lookup,
                     firstThunk, index + 1, r.binding.stub + STUB_SIZE, all, from);
        }
      }
    }
  }

  lemma Unwrapped(at: nat, slot: nat, imageSize: u32)
    requires at <= imageSize && slot <= imageSize
    ensures Wrap32(at) == at && Wrap32(slot) == slot
  {
  }

  // ----- Descriptors -----

  lemma FieldZero(now: seq<u8>, at: nat)
    requires at + 4 <= |now|
    ensures Value32(now, at) == U32At(now, at) && (U32At(now, at) == 0 <==> AllZero(now, at, 4))
  {
    hide Value32, Value64, Quad;
    FieldsRead(now, at);
    QuadZero(now[at], now[at + 1], now[at + 2], now[at + 3]);
  }

  lemma QuadZero(b0: u8, b1: u8, b2: u8, b3: u8)
    ensures Quad(b0, b1, b2, b3) == 0 <==> b0 == 0 && b1 == 0 && b2 == 0 && b3 == 0
  {
  }

  lemma ZeroSplits(now: seq<u8>, at: nat, m: nat, n: nat)
    requires at + m + n <= |now|
    ensures AllZero(now, at, m + n) <==> AllZero(now, at, m) && AllZero(now, at + m, n)
  {
  }

  lemma EmptyIsZero(now: seq<u8>, rva: nat)
    requires rva + DESCRIPTOR_SIZE <= |now|
    ensures IsEmpty(DescriptorAt(now, rva)) <==> AllZero(now, rva, DESCRIPTOR_SIZE)
    ensures DescriptorAt(now, rva).originalFirstThunk == U32At(now, rva)
    ensures DescriptorAt(now, rva).name == U32At(now, rva + 12)
    ensures DescriptorAt(now, rva).firstThunk == U32At(now, rva + 16)
  {
    hide Value32, U32At, AllZero;
    FieldZero(now, rva);
    FieldZero(now, rva + 4);
    FieldZero(now, rva + 8);
    FieldZero(now, rva + 12);
    FieldZero(now, rva + 16);
    ZeroSplits(now, rva, 4, 16);
    ZeroSplits(now, rva + 4, 4, 12);
    ZeroSplits(now, rva + 8, 4, 8);
    ZeroSplits(now, rva + 12, 4, 4);
  }

  lemma StringLoads(now: seq<u8>, imageSize: u32, rva: u32, name: seq<u8>)
    requires imageSize <= |now|
    ensures LoadedString(now, imageSize, rva) == Some(name) <==> StringAt(now, imageSize, rva, name)
  {
    hide StringAt;
    if StringAt(now, imageSize, rva, name) {
      StringIsUnique(now, imageSize, rva, name, LoadedString(now, imageSize, rva).value);
    }
  }

  lemma SourceDescribes(now: seq<u8>, imageSize: u32, imageBase: u64, rva: nat, dll: seq<u8>, lookup: u32, firstThunk: u32)
    requires imageSize <= |now| && rva + DESCRIPTOR_SIZE <= |now|
    ensures DescriptorSource(now, imageSize, imageBase, DescriptorAt(now, rva)) == Source(dll, lookup, firstThunk)
       <==> DescribesImports(now, imageBase, imageSize, rva, dll, lookup, firstThunk)
  {
    EmptyIsZero(now, rva);
    var d := DescriptorAt(now, rva);
    hide DescriptorAt, ResolveRva, LoadedString, StringAt, Refers, U32At;
    ReferenceResolves(d.name, imageBase, imageSize);
    ReferenceResolves(d.firstThunk, imageBase, imageSize);
    ReferenceResolves(d.originalFirstThunk, imageBase, imageSize);
    var name := ResolveRva(d.name, imageBase, imageSize);
    if name.Some? {
      StringLoads(now, imageSize, name.value, dll);
    }
  }

  lemma DescriptorKept(image: seq<u8>, imageBase: u64, imageSize: u32, done: seq<Binding>, all: seq<Binding>, from: nat,
                       upTo: nat, rva: nat)
    requires imageSize <= |image| && done <= all && Fit(all, |image|) && Fit(done, |image|)
    requires rva + DESCRIPTOR_SIZE <= |image| && DescriptorBound(image, imageBase, imageSize, done, from, upTo, rva)
    ensures DescriptorBound(image, imageBase, imageSize, all, from, upTo, rva)
  {
    hide After, AllZero, DescribesImports, EntriesBound, Fit;
    var now := After(image, imageBase, done, from);
    AfterPrefix(image, imageBase, done, all, from);
    var dll: seq<u8>, lookup: u32, firstThunk: u32 :|
      && DescribesImports(now, imageBase, imageSize, rva, dll, lookup, firstThunk)
      && EntriesBound(image, imageBase, imageSize, done, from, upTo, dll, lookup, firstThunk);
    EntriesKept(image, imageBase, imageSize, done, all, from, upTo, dll, lookup, firstThunk);
  }

  lemma EntriesKept(image: seq<u8>, imageBase: u64, imageSize: u32, done: seq<Binding>, all: seq<Binding>, from: nat,
                    upTo: nat, dll: seq<u8>, lookup: nat, firstThunk: nat)
    requires imageSize <= |image| && done <= all && Fit(all, |image|) && Fit(done, |image|)
    requires EntriesBound(image, imageBase, imageSize, done, from, upTo, dll, lookup, firstThunk)
    ensures EntriesBound(image, imageBase, imageSize, all, from, upTo, dll, lookup, firstThunk)
  {
    hide After, U64At, Fit, EntryBound;
    AfterPrefix(image, imageBase, done, all, upTo);
    forall i: nat | i < upTo - from
      ensures EntryBound(image, imageBase, imageSize, all, from, dll, lookup, firstThunk, i)
    {
      EntryKept(image, imageBase, imageSize, done, all, from, dll, lookup, firstThunk, i);
    }
  }

  /** The first n descriptors, as far as they have been walked. */
  ghost predicate Descriptors(image: seq<u8>, imageBase: u64, imageSize: u32, directory: nat, bindings: seq<Binding>,
                              starts: seq<nat>)
    requires imageSize <= |image| && Fit(bindings, |image|)
  {
    && |starts| > 0 && starts[0] == 0 && starts[|starts| - 1] == |bindings|
    && directory + DESCRIPTOR_SIZE * (|starts| - 1) <= imageSize
    && forall d: nat :: d < |starts| - 1 ==>
         DescriptorBound(image, imageBase, imageSize, bindings, starts[d], starts[d + 1], directory + DESCRIPTOR_SIZE * d)
  }

  lemma DescriptorsOne(image: seq<u8>, imageBase: u64, imageSize: u32, directory: nat, done: seq<Binding>,
                       all: seq<Binding>, starts: seq<nat>)
    requires imageSize <= |image| && done <= all && Fit(all, |image|) && Fit(done, |image|)
    requires Descriptors(image, imageBase, imageSize, directory, done, starts)
    requires directory + DESCRIPTOR_SIZE * |starts| <= imageSize
    requires DescriptorBound(image, imageBase, imageSize, all, |done|, |all|, directory + DESCRIPTOR_SIZE * (|starts| - 1))
    ensures Descriptors(image, imageBase, imageSize, directory, all, starts + [|all|])
  {
    hide DescriptorBound, Fit;
    var more := starts + [|all|];
    forall d: nat | d < |more| - 1
      ensures DescriptorBound(image, imageBase, imageSize, all, more[d], more[d + 1], directory + DESCRIPTOR_SIZE * d)
    {
      if d < |starts| - 1 {
        DescriptorKept(image, imageBase, imageSize, done, all, starts[d], starts[d + 1], directory + DESCRIPTOR_SIZE * d);
      }
    }
  }

  /** One descriptor. */
  lemma DescriptorMakes(image: seq<u8>, now: seq<u8>, imageSize: u32, loadedSize: u32, imageBase: u64,
                        exports: seq<Export>, directory: nat, next: u64, done: seq<Binding>, starts: seq<nat>,
                        dll: seq<u8>, lookup: u32, firstThunk: u32)
    requires imageSize <= |image| == |now| && loadedSize <= |image| && next <= TWO_32 && lookup <= imageSize
    requires |starts| > 0 && Made(image, now, imageBase, imageSize, loadedSize, exports, next, done)
    requires Descriptors(image, imageBase, imageSize, directory, done, starts)
    requires directory + DESCRIPTOR_SIZE * |starts| <= imageSize
    requires var rva := directory + DESCRIPTOR_SIZE * (|starts| - 1);
             && !AllZero(now, rva, DESCRIPTOR_SIZE)
             && DescribesImports(now, imageBase, imageSize, rva, dll, lookup, firstThunk)
    ensures var w := ThunkWalk(now, imageSize, loadedSize, imageBase, exports, dll, lookup, firstThunk, 0, next, done);
            && done <= w.bindings && Made(image, w.image, imageBase, imageSize, loadedSize, exports, w.next, w.bindings)
            && (w.status == LoadOk ==>
                  Descriptors(image, imageBase, imageSize, directory, w.bindings, starts + [|w.bindings|]))
  {
    hide Fit, After, StubsMade, EndOf, DescriptorBound, ThunkWalk, AllZero, EntriesBound, DescribesImports, Descriptors;
    var rva := directory + DESCRIPTOR_SIZE * (|starts| - 1);
    TablesInside(now, imageBase, imageSize, rva, dll, lookup, firstThunk);
    ThunksMake(image, now, imageSize, loadedSize, imageBase, exports, dll, lookup, firstThunk, 0, next, done, |done|);
    var w := ThunkWalk(now, imageSize, loadedSize, imageBase, exports, dll, lookup, firstThunk, 0, next, done);
    if w.status == LoadOk {
      DescriptorMade(image, now, imageBase, imageSize, done, w.bindings, rva, dll, lookup, firstThunk);
      DescriptorsOne(image, imageBase, imageSize, directory, done, w.bindings, starts);
    }
  }

  lemma TableEnds(image: seq<u8>, imageBase: u64, imageSize: u32, directory: nat, directorySize: nat,
                  bindings: seq<Binding>, starts: seq<nat>)
    requires imageSize <= |image| && Fit(bindings, |image|)
    requires Descriptors(image, imageBase, imageSize, directory, bindings, starts)
    requires DESCRIPTOR_SIZE * |starts| <= directorySize && directory + directorySize <= imageSize
    ensures TableBound(image, imageBase, imageSize, directory, directorySize, bindings, starts) <==>
            AllZero(After(image, imageBase, bindings, |bindings|), directory + DESCRIPTOR_SIZE * (|starts| - 1), DESCRIPTOR_SIZE)
  {
    hide Fit, After, AllZero, DescriptorBound;
  }

  lemma {:induction false} DescriptorsMake(image: seq<u8>, now: seq<u8>, imageSize: u32, loadedSize: u32, imageBase: u64,
                                           exports: seq<Export>, directory: nat, directorySize: nat, next: u64,
                                           done: seq<Binding>, starts: seq<nat>) returns (all: seq<nat>)
    requires imageSize <= |image| == |now| && loadedSize <= |image| && next <= TWO_32
    requires directory + directorySize <= imageSize && |starts| > 0
    requires Made(image, now, imageBase, imageSize, loadedSize, exports, next, done)
    requires Descriptors(image, imageBase, imageSize, directory, done, starts)
    ensures var w := DescriptorWalk(now, imageSize, loadedSize, imageBase, exports,
                                    directory + DESCRIPTOR_SIZE * (|starts| - 1), directory + directorySize, next, done);
            && Made(image, w.image, imageBase, imageSize, loadedSize, exports, w.next, w.bindings)
            && (w.status == LoadOk ==>
                  TableBound(image, imageBase, imageSize, directory, directorySize, w.bindings, all))
    decreases directorySize - DESCRIPTOR_SIZE * |starts|
  {
    hide Fit, After, StubsMade, EndOf, DescriptorAt, DescriptorSource, ThunkWalk, IsEmpty, AllZero, DescribesImports,
      Descriptors, TableBound;
    all := starts;
    var rva, limit := directory + DESCRIPTOR_SIZE * (|starts| - 1), directory + directorySize;
    if rva + DESCRIPTOR_SIZE <= limit {
      EmptyIsZero(now, rva);
      TableEnds(image, imageBase, imageSize, directory, directorySize, done, starts);
      var source := DescriptorSource(now, imageSize, imageBase, DescriptorAt(now, rva));
      if !IsEmpty(DescriptorAt(now, rva)) && source.Source? {
        var Source(dll, lookup, firstThunk) := source;
        SourceDescribes(now, imageSize, imageBase, rva, dll, lookup, firstThunk);
        DescriptorMakes(image, now, imageSize, loadedSize, imageBase, exports, directory, next, done, starts, dll, lookup,
                        firstThunk);
        var w := ThunkWalk(now, imageSize, loadedSize, imageBase, exports, dll, lookup, firstThunk, 0, next, done);
        if w.status == LoadOk {
          all := DescriptorsMake(image, w.image, imageSize, loadedSize, imageBase, exports, directory, directorySize, w.next,
                                 w.bindings, starts + [|w.bindings|]);
        }
      }
    }
  }

  lemma TablesInside(now: seq<u8>, imageBase: u64, imageSize: u32, rva: nat, dll: seq<u8>, lookup: u32, firstThunk: u32)
    requires imageSize <= |now| && rva + DESCRIPTOR_SIZE <= |now|
    requires DescribesImports(now, imageBase, imageSize, rva, dll, lookup, firstThunk)
    ensures lookup < imageSize && firstThunk < imageSize
  {
    hide U32At, StringAt;
  }

  lemma DescriptorMade(image: seq<u8>, now: seq<u8>, imageBase: u64, imageSize: u32, done: seq<Binding>, all: seq<Binding>,
                       rva: nat, dll: seq<u8>, lookup: u32, firstThunk: u32)
    requires imageSize <= |image| && done <= all && Fit(all, |image|) && Fit(done, |image|)
    requires rva + DESCRIPTOR_SIZE <= |image| && now == After(image, imageBase, done, |done|)
    requires !AllZero(now, rva, DESCRIPTOR_SIZE) && DescribesImports(now, imageBase, imageSize, rva, dll, lookup, firstThunk)
    requires EntriesBound(image, imageBase, imageSize, all, |done|, |all|, dll, lookup, firstThunk)
    ensures DescriptorBound(image, imageBase, imageSize, all, |done|, |all|, rva)
  {
    AfterPrefix(image, imageBase, done, all, |done|);
    hide After, AllZero, DescribesImports, EntriesBound, Fit;
  }

  // ----- The table makes the walk -----

  /** The first n bindings of a table, and where the next stub may go. */
  function EndAt(bindings: seq<Binding>, n: nat, imageSize: nat): nat
    requires n <= |bindings|
  {
    if n == 0 then imageSize else bindings[n - 1].stub + STUB_SIZE
  }

  lemma StepIsForced(now: seq<u8>, imageSize: u32, loadedSize: u32, imageBase: u64, exports: seq<Export>, entry: u64,
                     slot: u32, next: u64, all: seq<Binding>, j: nat)
    requires imageSize <= |now| && loadedSize <= |now| && next <= U64_MAX - 15 && j < |all|
    requires next == EndAt(all, j, imageSize) && entry < ORDINAL_MASK && slot == all[j].slot
    requires Named(now, imageBase, imageSize, entry, all[j].symbol)
    requires StubMade(exports, imageSize, loadedSize, all, j)
    ensures ThunkStep(now, imageSize, loadedSize, imageBase, exports, all[j].dll, entry, slot, next) == Binds(all[j])
  {
    hide ResolveRva, AlignUp, Exports, StringAt, LoadedString;
    AlignUpMeaning(next);
    ReferenceResolves(entry, imageBase, imageSize);
    var hint: u32 :| Names(now, imageBase, imageSize, entry, hint, all[j].symbol);
    StringLoads(now, imageSize, Wrap32(hint + 2), all[j].symbol);
    assert AlignUp(next, 16) == all[j].stub;
  }

  lemma {:induction false} ThunksForced(image: seq<u8>, now: seq<u8>, imageSize: u32, loadedSize: u32, imageBase: u64,
                                        exports: seq<Export>, dll: seq<u8>, lookup: u32, firstThunk: u32, index: nat,
                                        next: u64, done: seq<Binding>, all: seq<Binding>, from: nat, upTo: nat)
    requires imageSize <= |image| == |now| && loadedSize <= |image| && Fit(all, |image|) && lookup + 8 * index <= imageSize
    requires from + index <= upTo <= |all| && done == all[..from + index] && now == After(image, imageBase, all, from + index)
    requires next == EndAt(all, from + index, imageSize) && next <= TWO_32
    requires EntriesBound(image, imageBase, imageSize, all, from, upTo, dll, lookup, firstThunk)
    requires StubsMade(exports, imageSize, loadedSize, all)
    ensures var w := ThunkWalk(now, imageSize, loadedSize, imageBase, exports, dll, lookup, firstThunk, index, next, done);
            && w.status == LoadOk && w.image == After(image, imageBase, all, upTo)
            && w.next == EndAt(all, upTo, imageSize) && w.bindings == all[..upTo]
    decreases upTo - from - index
  {
    hide ThunkStep, WithBinding, U64At, Value64, Named, StubMade, Fit, After, EndAt;
    var j := from + index;
    Unwrapped(lookup + 8 * index, firstThunk + 8 * index, imageSize);
    FieldsRead(now, lookup + 8 * index);
    if j < upTo {
      assert EntryBound(image, imageBase, imageSize, all, from, dll, lookup, firstThunk, index);
      assert StubMade(exports, imageSize, loadedSize, all, j);
      StepIsForced(now, imageSize, loadedSize, imageBase, exports, U64At(now, lookup + 8 * index), all[j].slot, next, all, j);
      assert done + [all[j]] == all[..j + 1];
      StubInside(exports, imageSize, loadedSize, all, j);
      OneMore(image, imageBase, imageSize, all, j);
      hide EntriesBound;
      ThunksForced(image, WithBinding(now, imageBase, all[j]), imageSize, loadedSize, imageBase, exports, dll, lookup,
                   firstThunk, index + 1, all[j].stub + STUB_SIZE, done + [all[j]], all, from, upTo);
    }
  }

  lemma OneMore(image: seq<u8>, imageBase: u64, imageSize: nat, all: seq<Binding>, j: nat)
    requires j < |all| && Fit(all, |image|)
    ensures After(image, imageBase, all, j + 1) == WithBinding(After(image, imageBase, all, j), imageBase, all[j])
    ensures EndAt(all, j + 1, imageSize) == all[j].stub + STUB_SIZE
    ensures |After(image, imageBase, all, j + 1)| == |After(image, imageBase, all, j)| == |image|
  {
    hide WithBinding;
  }

  lemma StubInside(exports: seq<Export>, imageSize: u32, loadedSize: u32, all: seq<Binding>, j: nat)
    requires j < |all| && StubMade(exports, imageSize, loadedSize, all, j)
    ensures EndAt(all, j + 1, imageSize) <= loadedSize
  {
  }

  lemma {:induction false} DescriptorsForced(image: seq<u8>, now: seq<u8>, imageSize: u32, loadedSize: u32, imageBase: u64,
                                             exports: seq<Export>, directory: nat, directorySize: nat, next: u64,
                                             done: seq<Binding>, all: seq<Binding>, starts: seq<nat>, d: nat)
    requires imageSize <= |image| == |now| && loadedSize <= |image| && Fit(all, |image|) && loadedSize <= TWO_32
    requires TableBound(image, imageBase, imageSize, directory, directorySize, all, starts) && d < |starts|
    requires StubsMade(exports, imageSize, loadedSize, all)
    requires starts[d] <= |all| && done == all[..starts[d]] && now == After(image, imageBase, all, starts[d])
    requires next == EndAt(all, starts[d], imageSize) && next <= TWO_32
    ensures var w := DescriptorWalk(now, imageSize, loadedSize, imageBase, exports, directory + DESCRIPTOR_SIZE * d,
                                    directory + directorySize, next, done);
            w.status == LoadOk && w.bindings == all
    decreases |starts| - d
  {
    hide Fit, After, StubsMade, DescriptorAt, DescriptorSource, ThunkWalk, IsEmpty, AllZero, DescribesImports, EntriesBound,
      EndAt;
    var rva := directory + DESCRIPTOR_SIZE * d;
    EmptyIsZero(now, rva);
    if d < |starts| - 1 {
      assert DescriptorBound(image, imageBase, imageSize, all, starts[d], starts[d + 1], rva);
      var dll: seq<u8>, lookup: u32, firstThunk: u32 :|
        && DescribesImports(now, imageBase, imageSize, rva, dll, lookup, firstThunk)
        && EntriesBound(image, imageBase, imageSize, all, starts[d], starts[d + 1], dll, lookup, firstThunk);
      SourceDescribes(now, imageSize, imageBase, rva, dll, lookup, firstThunk);
      TablesInside(now, imageBase, imageSize, rva, dll, lookup, firstThunk);
      ThunksForced(image, now, imageSize, loadedSize, imageBase, exports, dll, lookup, firstThunk, 0, next, done, all,
                   starts[d], starts[d + 1]);
      var w := ThunkWalk(now, imageSize, loadedSize, imageBase, exports, dll, lookup, firstThunk, 0, next, done);
      EndInside(exports, imageSize, loadedSize, all, starts[d + 1]);
      AfterSize(image, imageBase, all, starts[d + 1]);
      DescriptorsForced(image, w.image, imageSize, loadedSize, imageBase, exports, directory, directorySize, w.next,
                        w.bindings, all, starts, d + 1);
    } else {
      assert all[..|all|] == all;
    }
  }

  lemma AfterSize(image: seq<u8>, imageBase: u64, all: seq<Binding>, n: nat)
    requires n <= |all| && Fit(all, |image|)
    ensures |After(image, imageBase, all, n)| == |image|
  {
  }

  lemma EndInside(exports: seq<Export>, imageSize: u32, loadedSize: u32, all: seq<Binding>, n: nat)
    requires n <= |all| && StubsMade(exports, imageSize, loadedSize, all) && loadedSize <= TWO_32
    ensures EndAt(all, n, imageSize) <= TWO_32
  {
    if n > 0 {
      assert StubMade(exports, imageSize, loadedSize, all, n - 1);
    }
  }

  // ----- Loading -----

  /** The imports of the table are these, and each can have its stub. */
  ghost predicate Loads(image: seq<u8>, imageSize: u32, imageBase: u64, exports: seq<Export>, directory: u32,
                        directorySize: u32, bindings: seq<Binding>, starts: seq<nat>)
    requires imageSize <= |image|
  {
    && Fit(bindings, |image|) && StubsMade(exports, imageSize, Wrap32(|image|), bindings)
    && TableBound(image, imageBase, imageSize, directory, directorySize, bindings, starts)
  }

  lemma NothingMade(image: seq<u8>, imageSize: u32, imageBase: u64, exports: seq<Export>, directory: nat)
    requires imageSize <= |image|
    ensures Made(image, image, imageBase, imageSize, Wrap32(|image|), exports, imageSize, [])
    ensures directory <= imageSize ==> Descriptors(image, imageBase, imageSize, directory, [], [0])
  {
    hide StubMade, DescriptorBound;
  }

  /** A load that succeeds has bound every import of the table, each once and in order, and nothing else. */
  lemma LoadBindsTheTable(image: seq<u8>, imageSize: u32, imageBase: u64, exports: seq<Export>, directory: u32,
                          directorySize: u32) returns (starts: seq<nat>)
    requires imageSize <= |image| && directory != 0
    ensures var w := ImportWalk(image, imageSize, imageBase, exports, directory, directorySize);
            w.status == LoadOk ==>
              && Loads(image, imageSize, imageBase, exports, directory, directorySize, w.bindings, starts)
              && w.image == After(image, imageBase, w.bindings, |w.bindings|)
  {
    hide DescriptorWalk, TableBound, DescriptorBound, StubsMade, Descriptors, After, EndOf, Fit;
    starts := [0];
    if InImage(imageSize, directory, directorySize) {
      NothingMade(image, imageSize, imageBase, exports, directory);
      starts := DescriptorsMake(image, image, imageSize, Wrap32(|image|), imageBase, exports, directory, directorySize,
                                imageSize, [], [0]);
    }
  }

  lemma TableStarts(image: seq<u8>, imageBase: u64, imageSize: u32, directory: nat, directorySize: nat,
                    bindings: seq<Binding>, starts: seq<nat>)
    requires imageSize <= |image| && Fit(bindings, |image|)
    requires TableBound(image, imageBase, imageSize, directory, directorySize, bindings, starts)
    ensures |starts| > 0 && starts[0] == 0 && directory + directorySize <= imageSize && bindings[..0] == []
    ensures EndAt(bindings, 0, imageSize) == imageSize && After(image, imageBase, bindings, 0) == image
  {
    hide DescriptorBound, AllZero;
  }

  /** And it succeeds on every table whose imports can be bound, with those bindings: a load is OK iff there are
      bindings that the table asks for. */
  lemma TableLoads(image: seq<u8>, imageSize: u32, imageBase: u64, exports: seq<Export>, directory: u32,
                   directorySize: u32, bindings: seq<Binding>, starts: seq<nat>)
    requires imageSize <= |image| && directory != 0
    requires Loads(image, imageSize, imageBase, exports, directory, directorySize, bindings, starts)
    ensures var w := ImportWalk(image, imageSize, imageBase, exports, directory, directorySize);
            w.status == LoadOk && w.bindings == bindings
  {
    hide DescriptorWalk, TableBound, Fit, StubsMade, EndAt, After;
    TableStarts(image, imageBase, imageSize, directory, directorySize, bindings, starts);
    DescriptorsForced(image, image, imageSize, Wrap32(|image|), imageBase, exports, directory, directorySize, imageSize, [],
                      bindings, starts, 0);
  }
}
