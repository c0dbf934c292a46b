/**
 Binding the imports of a loaded PE32+ image (win32/x64_pe64_image.cpp): walk the import descriptors and their thunks,
 emit one stub behind the image for each import, and point the import's address slot at it.
 */
module PeImports {
  import opened Words
  import opened ImportStubs
  import opened Win32Imports
  import opened X64Machine

  datatype LoadStatus = LoadOk | InvalidImportDirectory | ImportTableOutOfRange | ImportNameOutOfRange
                      | UnsupportedImport | UnsupportedImportOrdinal | ImportStubOutOfRange

  const DESCRIPTOR_SIZE: nat := 20
  const NAME_SIZE: nat := 64
  const ORDINAL_MASK: u64 := 0x8000_0000_0000_0000

  datatype Descriptor = Descriptor(originalFirstThunk: u32, timeDateStamp: u32, forwarderChain: u32, name: u32, firstThunk: u32)

  // ----- Reading the image -----

  predicate InImage(imageSize: u32, rva: u32, length: nat) {
    rva <= imageSize && length <= imageSize - rva
  }

  function Value32(image: seq<u8>, at: nat): u32
    requires at + 4 <= |image|
  {
    FromLittleEndianBound(image[at..at + 4]);
    Pow256Values();
    FromLittleEndian(image[at..at + 4])
  }

  function Value64(image: seq<u8>, at: nat): u64
    requires at + 8 <= |image|
  {
    FromLittleEndianBound(image[at..at + 8]);
    Pow256Values();
    FromLittleEndian(image[at..at + 8])
  }

  function DescriptorAt(image: seq<u8>, at: nat): Descriptor
    requires at + DESCRIPTOR_SIZE <= |image|
  {
    Descriptor(Value32(image, at), Value32(image, at + 4), Value32(image, at + 8), Value32(image, at + 12),
               Value32(image, at + 16))
  }

  predicate IsEmpty(d: Descriptor) {
    d == Descriptor(0, 0, 0, 0, 0)
  }

  /** try_resolve_import_name_rva: an RVA, or an address inside the image. */
  function ResolveRva(raw: u64, imageBase: u64, imageSize: u32): (r: Option<u32>)
    ensures r.Some? ==> r.value < imageSize && (raw == r.value || raw == imageBase + r.value)
    ensures r.None? ==> raw >= imageSize && !(imageBase <= raw < imageBase + imageSize)
  {
    if raw <= 0xFFFF_FFFF && raw < imageSize then Some(raw)
    else if raw < imageBase then None
    else if raw - imageBase > 0xFFFF_FFFF || raw - imageBase >= imageSize then None
    else Some(raw - imageBase)
  }

  /** Character k of a string at rva; RVAs wrap at 32 bits. */
  function CharAt(image: seq<u8>, imageSize: u32, rva: u32, k: nat): Option<u8>
    requires imageSize <= |image|
  {
    if InImage(imageSize, Wrap32(rva + k), 1) then Some(image[Wrap32(rva + k)]) else None
  }

  /** The image holds this NUL-terminated string at rva, all of it inside the image. */
  predicate StringAt(image: seq<u8>, imageSize: u32, rva: u32, name: seq<u8>)
    requires imageSize <= |image|
  {
    && |name| < NAME_SIZE
    && (forall k :: 0 <= k < |name| ==> name[k] != 0 && CharAt(image, imageSize, rva, k) == Some(name[k]))
    && CharAt(image, imageSize, rva, |name|) == Some(0)
  }

  lemma StringIsUnique(image: seq<u8>, imageSize: u32, rva: u32, s: seq<u8>, t: seq<u8>)
    requires imageSize <= |image| && StringAt(image, imageSize, rva, s) && StringAt(image, imageSize, rva, t)
    ensures s == t
  {
    hide CharAt;
    assert !(|s| < |t|) && !(|t| < |s|);
  }

  /** The string at rva, if there is one. */
  ghost function LoadedString(image: seq<u8>, imageSize: u32, rva: u32): Option<seq<u8>>
    requires imageSize <= |image|
  {
    if exists s :: StringAt(image, imageSize, rva, s) then
      var s :| StringAt(image, imageSize, rva, s);
      Some(s)
    else None
  }

  /** read_loaded_ascii_string: true iff a string of fewer than 64 characters and its NUL stand at rva. */
  method ReadLoadedString(image: array<u8>, imageSize: u32, rva: u32) returns (ok: bool, name: seq<u8>)
    requires imageSize <= image.Length
    ensures ok ==> StringAt(image[..], imageSize, rva, name)
    ensures !ok ==> forall s :: !StringAt(image[..], imageSize, rva, s)
    ensures LoadedString(image[..], imageSize, rva) == if ok then Some(name) else None
  {
    ok, name := ScanLoadedString(image, imageSize, rva);
    hide StringAt;
    if ok {
      assert LoadedString(image[..], imageSize, rva).Some?;
      StringIsUnique(image[..], imageSize, rva, name, LoadedString(image[..], imageSize, rva).value);
    }
  }

  method ScanLoadedString(image: array<u8>, imageSize: u32, rva: u32) returns (ok: bool, name: seq<u8>)
    requires imageSize <= image.Length
    ensures ok ==> StringAt(image[..], imageSize, rva, name)
    ensures !ok ==> forall s :: !StringAt(image[..], imageSize, rva, s)
  {
    hide Wrap32;
    var buffer: seq<u8> := [];
    while |buffer| < NAME_SIZE
      invariant |buffer| <= NAME_SIZE
      invariant forall k :: 0 <= k < |buffer| ==> buffer[k] != 0 && CharAt(image[..], imageSize, rva, k) == Some(buffer[k])
    {
      var at := Wrap32(rva + |buffer|);
      if !InImage(imageSize, at, 1) {
        NoString(image[..], imageSize, rva, buffer);
        return false, buffer;
      }
      assert CharAt(image[..], imageSize, rva, |buffer|) == Some(image[at]);
      if image[at] == 0 {
        return true, buffer;
      }
      buffer := buffer + [image[at]];
    }
    NoString(image[..], imageSize, rva, buffer);
    return false, buffer;
  }

  /** Characters without a NUL, then none or too many: no string. */
  lemma NoString(image: seq<u8>, imageSize: u32, rva: u32, read: seq<u8>)
    requires imageSize <= |image|
    requires forall k :: 0 <= k < |read| ==> read[k] != 0 && CharAt(image, imageSize, rva, k) == Some(read[k])
    requires |read| >= NAME_SIZE || CharAt(image, imageSize, rva, |read|) == None
    ensures forall s :: !StringAt(image, imageSize, rva, s)
  {
    forall s: seq<u8> ensures !StringAt(image, imageSize, rva, s) {
      hide CharAt;
      if |s| < |read| {
        assert CharAt(image, imageSize, rva, |s|) == Some(read[|s|]);
      }
    }
  }

  // ----- What binding leaves behind -----

  /** One bound import: its address slot, its stub, and what it named. */
  datatype Binding = Binding(slot: nat, stub: nat, number: u32, dll: seq<u8>, symbol: seq<u8>)

  predicate BytesHold(image: seq<u8>, at: nat, bytes: seq<u8>) {
    at + |bytes| <= |image| && image[at..at + |bytes|] == bytes
  }

  predicate InSlot(b: Binding, k: int) { b.slot <= k < b.slot + 8 }
  predicate InStub(b: Binding, k: int) { b.stub <= k < b.stub + STUB_SIZE }

  predicate Apart(b: Binding, c: Binding) { b.slot + 8 <= c.slot || c.slot + 8 <= b.slot }

  /** Where a binding's slot and stub may be, and what its names denote. */
  ghost predicate WellPlaced(b: Binding, exports: seq<Export>, imageSize: nat, next: nat) {
    && b.slot + 8 <= imageSize <= b.stub && b.stub % 16 == 0 && b.stub + STUB_SIZE <= next
    && FindExport(exports, b.dll, b.symbol).Some?
    && var e := FindExport(exports, b.dll, b.symbol).value; e < |exports| && exports[e].number == b.number
  }

  ghost predicate AllPlaced(bindings: seq<Binding>, exports: seq<Export>, imageSize: nat, next: nat) {
    forall i :: 0 <= i < |bindings| ==> WellPlaced(bindings[i], exports, imageSize, next)
  }

  predicate StubHolds(image: seq<u8>, b: Binding) {
    BytesHold(image, b.stub, StubBytes(b.number))
  }

  predicate SlotHolds(image: seq<u8>, imageBase: u64, b: Binding) {
    BytesHold(image, b.slot, LittleEndian(Wrap64(imageBase + b.stub), 8))
  }

  ghost predicate StubsHold(image: seq<u8>, bindings: seq<Binding>) {
    forall i :: 0 <= i < |bindings| ==> StubHolds(image, bindings[i])
  }

  ghost predicate StubsApart(bindings: seq<Binding>) {
    forall i, j :: 0 <= i < j < |bindings| ==> bindings[i].stub + STUB_SIZE <= bindings[j].stub
  }

  /** No later binding overlaps the slot of binding i. */
  ghost predicate LastInSlot(bindings: seq<Binding>, i: int)
    requires 0 <= i < |bindings|
  {
    forall j :: i < j < |bindings| ==> Apart(bindings[i], bindings[j])
  }

  ghost predicate SlotsHold(image: seq<u8>, imageBase: u64, bindings: seq<Binding>) {
    forall i :: 0 <= i < |bindings| && LastInSlot(bindings, i) ==> SlotHolds(image, imageBase, bindings[i])
  }

  ghost predicate Untouched(bindings: seq<Binding>, k: int) {
    forall i :: 0 <= i < |bindings| ==> !InSlot(bindings[i], k) && !InStub(bindings[i], k)
  }

  ghost predicate RestKept(before: seq<u8>, after: seq<u8>, bindings: seq<Binding>) {
    |after| == |before| && forall k :: 0 <= k < |after| && Untouched(bindings, k) ==> after[k] == before[k]
  }

  /** The image `after` is `before` with these bindings made: stubs aligned, apart and intact behind the image, slots no
      later binding overlaps pointing at their stubs, and no other byte changed. */
  ghost predicate Bound(before: seq<u8>, after: seq<u8>, exports: seq<Export>, imageBase: u64, imageSize: nat,
                        bindings: seq<Binding>, next: nat) {
    && imageSize <= next <= |after|
    && AllPlaced(bindings, exports, imageSize, next) && StubsHold(after, bindings) && StubsApart(bindings)
    && SlotsHold(after, imageBase, bindings) && RestKept(before, after, bindings)
  }

  lemma NothingBound(image: seq<u8>, exports: seq<Export>, imageBase: u64, imageSize: nat)
    requires imageSize <= |image|
    ensures Bound(image, image, exports, imageBase, imageSize, [], imageSize)
  {
  }

  /** A patch outside a range leaves what the range holds. */
  lemma PatchElsewhere(image: seq<u8>, at: nat, patch: seq<u8>, where_: nat, bytes: seq<u8>)
    requires at + |patch| <= |image| && BytesHold(image, where_, bytes)
    requires where_ + |bytes| <= at || at + |patch| <= where_
    ensures BytesHold(Patched(image, at, patch), where_, bytes)
  {
    var p := Patched(image, at, patch);
    assert p[where_..where_ + |bytes|] == image[where_..where_ + |bytes|];
  }

  lemma PatchHolds(image: seq<u8>, at: nat, patch: seq<u8>)
    requires at + |patch| <= |image|
    ensures BytesHold(Patched(image, at, patch), at, patch)
  {
    assert Patched(image, at, patch)[at..at + |patch|] == patch;
  }

  /** The image with one more import bound. */
  function WithBinding(image: seq<u8>, imageBase: u64, b: Binding): (r: seq<u8>)
    requires b.slot + 8 <= |image| && b.stub + STUB_SIZE <= |image|
    ensures |r| == |image|
  {
    Patched(Patched(image, b.stub, StubBytes(b.number)), b.slot, LittleEndian(Wrap64(imageBase + b.stub), 8))
  }

  /** A binding leaves bytes alone that its stub and its slot miss. */
  lemma BindingElsewhere(image: seq<u8>, imageBase: u64, b: Binding, at: nat, bytes: seq<u8>)
    requires b.slot + 8 <= |image| && b.stub + STUB_SIZE <= |image| && BytesHold(image, at, bytes)
    requires at + |bytes| <= b.stub || b.stub + STUB_SIZE <= at
    requires at + |bytes| <= b.slot || b.slot + 8 <= at
    ensures BytesHold(WithBinding(image, imageBase, b), at, bytes)
  {
    hide StubBytes, LittleEndian, Wrap64, Patched, BytesHold;
    var stubbed := Patched(image, b.stub, StubBytes(b.number));
    PatchElsewhere(image, b.stub, StubBytes(b.number), at, bytes);
    PatchElsewhere(stubbed, b.slot, LittleEndian(Wrap64(imageBase + b.stub), 8), at, bytes);
  }

  lemma BindingHolds(image: seq<u8>, imageBase: u64, b: Binding)
    requires b.slot + 8 <= b.stub && b.stub + STUB_SIZE <= |image|
    ensures var r := WithBinding(image, imageBase, b);
            && BytesHold(r, b.stub, StubBytes(b.number))
            && BytesHold(r, b.slot, LittleEndian(Wrap64(imageBase + b.stub), 8))
  {
    hide StubBytes, LittleEndian, Wrap64, Patched, BytesHold;
    var stubbed := Patched(image, b.stub, StubBytes(b.number));
    PatchHolds(image, b.stub, StubBytes(b.number));
    PatchElsewhere(stubbed, b.slot, LittleEndian(Wrap64(imageBase + b.stub), 8), b.stub, StubBytes(b.number));
    PatchHolds(stubbed, b.slot, LittleEndian(Wrap64(imageBase + b.stub), 8));
  }

  lemma UntouchedByOne(mid: seq<u8>, imageBase: u64, b: Binding, k: nat)
    requires b.slot + 8 <= |mid| && b.stub + STUB_SIZE <= |mid| && k < |mid| && !InSlot(b, k) && !InStub(b, k)
    ensures WithBinding(mid, imageBase, b)[k] == mid[k]
  {
  }

  lemma PlaceOne(bindings: seq<Binding>, exports: seq<Export>, imageSize: nat, next: nat, b: Binding)
    requires AllPlaced(bindings, exports, imageSize, next) && StubsApart(bindings) && next <= b.stub
    requires WellPlaced(b, exports, imageSize, b.stub + STUB_SIZE)
    ensures AllPlaced(bindings + [b], exports, imageSize, b.stub + STUB_SIZE) && StubsApart(bindings + [b])
  {
    hide FindExport;
    var all := bindings + [b];
    forall i | 0 <= i < |bindings| ensures all[i] == bindings[i] && WellPlaced(all[i], exports, imageSize, b.stub + STUB_SIZE) {
      assert WellPlaced(bindings[i], exports, imageSize, next);
    }
  }

  /** A binding whose stub and slot miss the new one's keeps both. */
  lemma SurvivesOne(mid: seq<u8>, imageBase: u64, b: Binding, c: Binding, imageSize: nat)
    requires b.slot + 8 <= imageSize <= c.stub && c.slot + 8 <= imageSize && c.stub + STUB_SIZE <= b.stub
    requires b.stub + STUB_SIZE <= |mid|
    ensures StubHolds(mid, c) ==> StubHolds(WithBinding(mid, imageBase, b), c)
    ensures SlotHolds(mid, imageBase, c) && Apart(c, b) ==> SlotHolds(WithBinding(mid, imageBase, b), imageBase, c)
  {
    hide StubBytes, LittleEndian, Wrap64, Patched, WithBinding, BytesHold;
    if StubHolds(mid, c) {
      BindingElsewhere(mid, imageBase, b, c.stub, StubBytes(c.number));
    }
    if SlotHolds(mid, imageBase, c) && Apart(c, b) {
      BindingElsewhere(mid, imageBase, b, c.slot, LittleEndian(Wrap64(imageBase + c.stub), 8));
    }
  }

  lemma StubsHoldOne(mid: seq<u8>, exports: seq<Export>, imageBase: u64, imageSize: nat, bindings: seq<Binding>, next: nat,
                     b: Binding)
    requires AllPlaced(bindings, exports, imageSize, next) && StubsHold(mid, bindings)
    requires b.slot + 8 <= imageSize <= next <= b.stub && b.stub + STUB_SIZE <= |mid|
    ensures StubsHold(WithBinding(mid, imageBase, b), bindings + [b])
  {
    hide StubHolds, SlotHolds, WithBinding, FindExport;
    var all := bindings + [b];
    BindingHolds(mid, imageBase, b);
    assert StubHolds(WithBinding(mid, imageBase, b), b) by { BindingMeans(mid, imageBase, b); }
    forall i | 0 <= i < |all| ensures StubHolds(WithBinding(mid, imageBase, b), all[i]) {
      if i < |bindings| {
        assert WellPlaced(bindings[i], exports, imageSize, next) && all[i] == bindings[i];
        SurvivesOne(mid, imageBase, b, bindings[i], imageSize);
      }
    }
  }

  lemma BindingMeans(mid: seq<u8>, imageBase: u64, b: Binding)
    requires b.slot + 8 <= b.stub && b.stub + STUB_SIZE <= |mid|
    ensures StubHolds(WithBinding(mid, imageBase, b), b) && SlotHolds(WithBinding(mid, imageBase, b), imageBase, b)
  {
    BindingHolds(mid, imageBase, b);
    hide WithBinding, StubBytes, LittleEndian, Wrap64;
  }

  lemma LastBefore(bindings: seq<Binding>, b: Binding, i: nat)
    requires i < |bindings| && LastInSlot(bindings + [b], i)
    ensures LastInSlot(bindings, i) && Apart(bindings[i], b)
  {
    var all := bindings + [b];
    assert all[i] == bindings[i] && Apart(all[i], all[|bindings|]);
    forall j | i < j < |bindings| ensures Apart(bindings[i], bindings[j]) {
      assert Apart(all[i], all[j]);
    }
  }

  lemma SlotsHoldOne(mid: seq<u8>, exports: seq<Export>, imageBase: u64, imageSize: nat, bindings: seq<Binding>, next: nat,
                     b: Binding)
    requires AllPlaced(bindings, exports, imageSize, next) && SlotsHold(mid, imageBase, bindings)
    requires b.slot + 8 <= imageSize <= next <= b.stub && b.stub + STUB_SIZE <= |mid|
    ensures SlotsHold(WithBinding(mid, imageBase, b), imageBase, bindings + [b])
  {
    hide StubHolds, SlotHolds, WithBinding, FindExport, LastInSlot;
    var all := bindings + [b];
    BindingMeans(mid, imageBase, b);
    forall i: nat | i < |all| && LastInSlot(all, i) ensures SlotHolds(WithBinding(mid, imageBase, b), imageBase, all[i]) {
      if i < |bindings| {
        LastBefore(bindings, b, i);
        assert WellPlaced(bindings[i], exports, imageSize, next) && all[i] == bindings[i];
        SurvivesOne(mid, imageBase, b, bindings[i], imageSize);
      }
    }
  }

  lemma RestKeptOne(before: seq<u8>, mid: seq<u8>, imageBase: u64, bindings: seq<Binding>, b: Binding)
    requires RestKept(before, mid, bindings) && b.slot + 8 <= |mid| && b.stub + STUB_SIZE <= |mid|
    ensures RestKept(before, WithBinding(mid, imageBase, b), bindings + [b])
  {
    var all := bindings + [b];
    var after := WithBinding(mid, imageBase, b);
    forall k: nat | k < |after| && Untouched(all, k) ensures after[k] == before[k] {
      assert !InSlot(all[|bindings|], k) && !InStub(all[|bindings|], k);
      UntouchedByOne(mid, imageBase, b, k);
      forall i | 0 <= i < |bindings| ensures !InSlot(bindings[i], k) && !InStub(bindings[i], k) {
        assert all[i] == bindings[i];
      }
      assert Untouched(bindings, k);
    }
  }

  /** One more import. */
  lemma BindOne(before: seq<u8>, mid: seq<u8>, exports: seq<Export>, imageBase: u64, imageSize: nat,
                bindings: seq<Binding>, next: nat, b: Binding)
    requires Bound(before, mid, exports, imageBase, imageSize, bindings, next)
    requires next <= b.stub && b.stub + STUB_SIZE <= |mid| && WellPlaced(b, exports, imageSize, b.stub + STUB_SIZE)
    ensures b.slot + 8 <= |mid|
    ensures Bound(before, WithBinding(mid, imageBase, b), exports, imageBase, imageSize, bindings + [b], b.stub + STUB_SIZE)
  {
    hide AllPlaced, StubsHold, StubsApart, SlotsHold, RestKept, WithBinding, FindExport;
    PlaceOne(bindings, exports, imageSize, next, b);
    StubsHoldOne(mid, exports, imageBase, imageSize, bindings, next, b);
    SlotsHoldOne(mid, exports, imageBase, imageSize, bindings, next, b);
    RestKeptOne(before, mid, imageBase, bindings, b);
  }

  // ----- The walk over the import tables -----

  datatype ThunkOutcome = Refused(status: LoadStatus) | Binds(binding: Binding)

  /** What the import at a lookup entry asks for. */
  ghost function ThunkStep(image: seq<u8>, imageSize: u32, loadedSize: u32, imageBase: u64, exports: seq<Export>,
                           dll: seq<u8>, entry: u64, slot: u32, next: u64): (r: ThunkOutcome)
    requires imageSize <= |image| && loadedSize <= |image| && next <= U64_MAX - 15
    ensures r.Binds? ==> r.binding.slot == slot && r.binding.dll == dll && next <= r.binding.stub < next + 16
                         && r.binding.stub + STUB_SIZE <= loadedSize
    ensures r.Refused? ==> r.status != LoadOk
  {
    AlignUpMeaning(next);
    if entry >= ORDINAL_MASK then Refused(UnsupportedImportOrdinal)
    else
      match ResolveRva(entry, imageBase, imageSize)
      case None => Refused(ImportTableOutOfRange)
      case Some(hint) =>
        match LoadedString(image, imageSize, Wrap32(Past(hint, 2)))
        case None => Refused(ImportNameOutOfRange)
        case Some(symbol) =>
          match FindExport(exports, dll, symbol)
          case None => Refused(UnsupportedImport)
          case Some(e) =>
            if e < |exports| && exports[e].number < TWO_32 && StubFits(next, loadedSize)
            then Binds(Binding(slot, AlignUp(next, 16), exports[e].number, dll, symbol))
            else Refused(ImportStubOutOfRange)
  }

  function Past(rva: nat, n: nat): nat {
    rva + n
  }

  /** How far binding got: the status so far, the image, where the next stub may go, and the imports bound. */
  datatype Walk = Walk(status: LoadStatus, image: seq<u8>, next: u64, bindings: seq<Binding>)

  lemma EntryInOrder(lookup: u32, index: nat, imageSize: u32)
    requires lookup + 8 * index <= imageSize
    ensures Wrap32(lookup + 8 * index) == lookup + 8 * index
    ensures InImage(imageSize, Wrap32(lookup + 8 * index), 8) ==> lookup + 8 * (index + 1) <= imageSize
  {
  }

  /** The thunks of one descriptor from `index` on. Each entry is read from the image as the bindings before left it. */
  ghost function ThunkWalk(image: seq<u8>, imageSize: u32, loadedSize: u32, imageBase: u64, exports: seq<Export>,
                           dll: seq<u8>, lookup: u32, firstThunk: u32, index: nat, next: u64, done: seq<Binding>): (w: Walk)
    requires imageSize <= |image| && loadedSize <= |image| && next <= TWO_32 && lookup + 8 * index <= imageSize
    ensures |w.image| == |image| && next <= w.next <= TWO_32
    decreases imageSize - (lookup + 8 * index)
  {
    var entryRva, slot := Wrap32(lookup + 8 * index), Wrap32(firstThunk + 8 * index);
    EntryInOrder(lookup, index, imageSize);
    if !InImage(imageSize, entryRva, 8) || !InImage(imageSize, slot, 8) then Walk(ImportTableOutOfRange, image, next, done)
    else
      var entry := Value64(image, entryRva);
      if entry == 0 then Walk(LoadOk, image, next, done)
      else
        match ThunkStep(image, imageSize, loadedSize, imageBase, exports, dll, entry, slot, next)
        case Refused(status) => Walk(status, image, next, done)
        case Binds(b) =>
          ThunkWalk(WithBinding(image, imageBase, b), imageSize, loadedSize, imageBase, exports, dll, lookup, firstThunk,
                    index + 1, b.stub + STUB_SIZE, done + [b])
  }

  datatype Source = Source(dll: seq<u8>, lookup: u32, firstThunk: u32) | NoSource(status: LoadStatus)

  /** What a descriptor imports from, and where its tables are. */
  ghost function DescriptorSource(image: seq<u8>, imageSize: u32, imageBase: u64, d: Descriptor): (r: Source)
    requires imageSize <= |image|
    ensures r.Source? ==> r.lookup < imageSize
    ensures r.NoSource? ==> r.status != LoadOk
  {
    var dllRva, thunkRva := ResolveRva(d.name, imageBase, imageSize), ResolveRva(d.firstThunk, imageBase, imageSize);
    var lookup := if d.originalFirstThunk == 0 then thunkRva else ResolveRva(d.originalFirstThunk, imageBase, imageSize);
    if dllRva.None? || thunkRva.None? || lookup.None? then NoSource(ImportTableOutOfRange)
    else
      match LoadedString(image, imageSize, dllRva.value)
      case None => NoSource(ImportNameOutOfRange)
      case Some(dll) => Source(dll, lookup.value, thunkRva.value)
  }

  /** The descriptors from rva on, up to an empty one. */
  ghost function DescriptorWalk(image: seq<u8>, imageSize: u32, loadedSize: u32, imageBase: u64, exports: seq<Export>,
                                rva: nat, limit: nat, next: u64, done: seq<Binding>): (w: Walk)
    requires imageSize <= |image| && loadedSize <= |image| && next <= TWO_32 && limit <= imageSize
    decreases limit - rva
  {
    if rva + DESCRIPTOR_SIZE > limit then Walk(InvalidImportDirectory, image, next, done)
    else
      var d := DescriptorAt(image, rva);
      if IsEmpty(d) then Walk(LoadOk, image, next, done)
      else
        match DescriptorSource(image, imageSize, imageBase, d)
        case NoSource(status) => Walk(status, image, next, done)
        case Source(dll, lookup, firstThunk) =>
          var w := ThunkWalk(image, imageSize, loadedSize, imageBase, exports, dll, lookup, firstThunk, 0, next, done);
          if w.status != LoadOk then w
          else DescriptorWalk(w.image, imageSize, loadedSize, imageBase, exports, rva + DESCRIPTOR_SIZE, limit, w.next,
                              w.bindings)
  }

  /** Every import of a loaded image. */
  ghost function ImportWalk(image: seq<u8>, imageSize: u32, imageBase: u64, exports: seq<Export>, directory: u32,
                            directorySize: u32): Walk
    requires imageSize <= |image|
  {
    if directory == 0 then Walk(LoadOk, image, imageSize, [])
    else if !InImage(imageSize, directory, directorySize) then Walk(ImportTableOutOfRange, image, imageSize, [])
    else
      DescriptorWalk(image, imageSize, Wrap32(|image|), imageBase, exports, directory, Past(directory, directorySize), imageSize,
                     [])
  }

  /** The bindings a descriptor contributed: its address slots in order, each eight bytes on. */
  ghost predicate FromThunks(bindings: seq<Binding>, from: nat, dll: seq<u8>, firstSlot: nat) {
    from <= |bindings| && forall i :: from <= i < |bindings| ==>
      bindings[i].dll == dll && bindings[i].slot == Wrap32(firstSlot + 8 * (i - from))
  }

  lemma OneMoreThunk(done: seq<Binding>, from: nat, dll: seq<u8>, firstSlot: nat, b: Binding)
    requires FromThunks(done, from, dll, firstSlot) && b.dll == dll && b.slot == Wrap32(firstSlot + 8 * (|done| - from))
    ensures FromThunks(done + [b], from, dll, firstSlot)
  {
    hide Wrap32;
  }

  lemma ThunkStepIsWellPlaced(image: seq<u8>, imageSize: u32, loadedSize: u32, imageBase: u64, exports: seq<Export>,
                              dll: seq<u8>, entry: u64, slot: u32, next: u64)
    requires imageSize <= |image| && loadedSize <= |image| && imageSize <= next <= U64_MAX - 15 && InImage(imageSize, slot, 8)
    ensures var r := ThunkStep(image, imageSize, loadedSize, imageBase, exports, dll, entry, slot, next);
            r.Binds? ==> WellPlaced(r.binding, exports, imageSize, r.binding.stub + STUB_SIZE)
  {
    AlignUpMeaning(next);
    hide ResolveRva, LoadedString, FindExport, AlignUp;
  }

  /** Whatever its outcome, a walk over thunks leaves the image well bound: the earlier bindings stand, and each new one
      fills the next address slot of the descriptor. */
  lemma {:induction false} ThunkWalkBinds(before: seq<u8>, image: seq<u8>, imageSize: u32, loadedSize: u32, imageBase: u64,
                                          exports: seq<Export>, dll: seq<u8>, lookup: u32, firstThunk: u32, index: nat,
                                          next: u64, done: seq<Binding>, from: nat)
    requires imageSize <= |image| && loadedSize <= |image| && next <= TWO_32 && lookup + 8 * index <= imageSize
    requires Bound(before, image, exports, imageBase, imageSize, done, next)
    requires FromThunks(done, from, dll, firstThunk) && |done| == from + index
    ensures var w := ThunkWalk(image, imageSize, loadedSize, imageBase, exports, dll, lookup, firstThunk, index, next, done);
            && done <= w.bindings && FromThunks(w.bindings, from, dll, firstThunk)
            && Bound(before, w.image, exports, imageBase, imageSize, w.bindings, w.next)
            && (w.next <= loadedSize || (w.bindings == done && w.next == next))
    decreases imageSize - (lookup + 8 * index)
  {
    hide AllPlaced, StubsHold, StubsApart, SlotsHold, RestKept, WithBinding, ThunkStep, WellPlaced, Value64;
    var entryRva, slot := Wrap32(lookup + 8 * index), Wrap32(firstThunk + 8 * index);
    if InImage(imageSize, entryRva, 8) && InImage(imageSize, slot, 8) && Value64(image, entryRva) != 0 {
      var entry := Value64(image, entryRva);
      ThunkStepIsWellPlaced(image, imageSize, loadedSize, imageBase, exports, dll, entry, slot, next);
      match ThunkStep(image, imageSize, loadedSize, imageBase, exports, dll, entry, slot, next)
      case Refused(_) =>
      case Binds(b) =>
        BindOne(before, image, exports, imageBase, imageSize, done, next, b);
        hide Bound;
        OneMoreThunk(done, from, dll, firstThunk, b);
        ThunkWalkBinds(before, WithBinding(image, imageBase, b), imageSize, loadedSize, imageBase, exports, dll, lookup,
                       firstThunk, index + 1, b.stub + STUB_SIZE, done + [b], from);
    }
  }

  lemma {:induction false} DescriptorWalkBinds(before: seq<u8>, image: seq<u8>, imageSize: u32, loadedSize: u32,
                                               imageBase: u64, exports: seq<Export>, rva: nat, limit: nat, next: u64,
                                               done: seq<Binding>)
    requires imageSize <= |image| && loadedSize <= |image| && next <= TWO_32 && limit <= imageSize
    requires Bound(before, image, exports, imageBase, imageSize, done, next)
    ensures var w := DescriptorWalk(image, imageSize, loadedSize, imageBase, exports, rva, limit, next, done);
            done <= w.bindings && Bound(before, w.image, exports, imageBase, imageSize, w.bindings, w.next)
            && (w.next <= loadedSize || (w.bindings == done && w.next == next))
    decreases limit - rva
  {
    hide Bound, ThunkWalk, DescriptorSource, DescriptorAt;
    if rva + DESCRIPTOR_SIZE <= limit && !IsEmpty(DescriptorAt(image, rva)) {
      match DescriptorSource(image, imageSize, imageBase, DescriptorAt(image, rva))
      case NoSource(_) =>
      case Source(dll, lookup, firstThunk) =>
        ThunkWalkBinds(before, image, imageSize, loadedSize, imageBase, exports, dll, lookup, firstThunk, 0, next, done, |done|);
        var w := ThunkWalk(image, imageSize, loadedSize, imageBase, exports, dll, lookup, firstThunk, 0, next, done);
        if w.status == LoadOk {
          DescriptorWalkBinds(before, w.image, imageSize, loadedSize, imageBase, exports, rva + DESCRIPTOR_SIZE, limit,
                              w.next, w.bindings);
        }
    }
  }

  /** Binding the imports of any image, whatever the outcome: the stubs are aligned, apart, behind the image and inside
      the loaded region, and hold the code for their exports; slots no later binding overlaps hold base + stub; no
      other byte of the image has changed. */
  lemma ImportWalkBinds(image: seq<u8>, imageSize: u32, imageBase: u64, exports: seq<Export>, directory: u32,
                        directorySize: u32)
    requires imageSize <= |image|
    ensures var w := ImportWalk(image, imageSize, imageBase, exports, directory, directorySize);
            && Bound(image, w.image, exports, imageBase, imageSize, w.bindings, w.next)
            && (w.bindings != [] ==> w.next <= Wrap32(|image|))
  {
    NothingBound(image, exports, imageBase, imageSize);
    hide Bound, DescriptorWalk;
    if directory != 0 && InImage(imageSize, directory, directorySize) {
      DescriptorWalkBinds(image, image, imageSize, Wrap32(|image|), imageBase, exports, directory, Past(directory, directorySize),
                          imageSize, []);
    }
  }

  // ----- The loops -----

  function StatusOf(status: ResolutionStatus): LoadStatus {
    match status
    case ResolutionOk => LoadOk
    case ResolutionInvalidArgument => InvalidImportDirectory
    case ResolutionUnsupported => UnsupportedImport
    case ResolutionOutOfRange => ImportStubOutOfRange
  }

  /** memcpy of the resolved address into its slot. */
  method StoreAddress(image: array<u8>, at: nat, address: u64)
    requires at + 8 <= image.Length
    modifies image
    ensures image[..] == Patched(old(image[..]), at, LittleEndian(address, 8))
  {
    ghost var before := image[..];
    var bytes := LittleEndian(address, 8);
    hide LittleEndian;
    for k := 0 to 8
      invariant forall j :: 0 <= j < image.Length ==> image[j] == if at <= j < at + k then bytes[j - at] else before[j]
    {
      image[at + k] := bytes[k];
    }
  }

  /** One import: find its name, emit its stub, fill its slot. A refusal changes nothing. */
  method BindThunk(image: array<u8>, imageSize: u32, loadedSize: u32, imageBase: u64, exports: seq<Export>,
                   dll: seq<u8>, entry: u64, slot: u32, next: u64) returns (status: LoadStatus, nextStub: u64)
    requires imageSize <= image.Length && loadedSize <= image.Length && InImage(imageSize, slot, 8) && next <= U64_MAX - 15
    modifies image
    ensures match ThunkStep(old(image[..]), imageSize, loadedSize, imageBase, exports, dll, entry, slot, next)
            case Refused(s) => status == s && image[..] == old(image[..]) && nextStub == next
            case Binds(b) => status == LoadOk && image[..] == WithBinding(old(image[..]), imageBase, b)
                             && nextStub == b.stub + STUB_SIZE
  {
    hide StubBytes, LittleEndian, Patched, Exports, FindExport, AlignUp, LoadedString, ResolveRva;
    if entry >= ORDINAL_MASK {
      return UnsupportedImportOrdinal, next;
    }
    var nameRva := ResolveRva(entry, imageBase, imageSize);
    if nameRva.None? {
      return ImportTableOutOfRange, next;
    }
    var ok, symbol := ReadLoadedString(image, imageSize, Wrap32(Past(nameRva.value, 2)));
    if !ok {
      return ImportNameOutOfRange, next;
    }
    var resolution, address;
    resolution, address, nextStub := ResolveImport(exports, dll, symbol, imageBase, image, loadedSize, next);
    if resolution != ResolutionOk {
      return StatusOf(resolution), next;
    }
    StoreAddress(image, slot, address);
    return LoadOk, nextStub;
  }

  /** The thunk loop of one descriptor. */
  method BindThunks(image: array<u8>, imageSize: u32, loadedSize: u32, imageBase: u64, exports: seq<Export>,
                    dll: seq<u8>, lookupRva: u32, firstThunk: u32, next: u64, count: nat, ghost done: seq<Binding>)
    returns (status: LoadStatus, nextStub: u64, total: nat)
    requires imageSize <= image.Length && loadedSize <= image.Length && next <= TWO_32 && lookupRva <= imageSize
    requires count == |done|
    modifies image
    ensures var w := ThunkWalk(old(image[..]), imageSize, loadedSize, imageBase, exports, dll, lookupRva, firstThunk, 0, next, done);
            status == w.status && image[..] == w.image && nextStub == w.next && total == |w.bindings|
  {
    hide ThunkStep, WithBinding, Value64;
    nextStub, total := next, count;
    ghost var bindings := done;
    ghost var w := ThunkWalk(image[..], imageSize, loadedSize, imageBase, exports, dll, lookupRva, firstThunk, 0, next, done);
    var index := 0;
    while true
      invariant 0 <= index && lookupRva + 8 * index <= imageSize && next <= nextStub <= TWO_32
      invariant total == |bindings|
      invariant w == ThunkWalk(image[..], imageSize, loadedSize, imageBase, exports, dll, lookupRva, firstThunk, index,
                               nextStub, bindings)
      decreases imageSize - (lookupRva + 8 * index)
    {
      var lookupEntryRva, slot := Wrap32(lookupRva + 8 * index), Wrap32(firstThunk + 8 * index);
      if !InImage(imageSize, lookupEntryRva, 8) {
        return ImportTableOutOfRange, nextStub, total;
      }
      var entry := Value64(image[..], lookupEntryRva);
      if !InImage(imageSize, slot, 8) {
        return ImportTableOutOfRange, nextStub, total;
      }
      if entry == 0 {
        return LoadOk, nextStub, total;
      }
      ghost var outcome := ThunkStep(image[..], imageSize, loadedSize, imageBase, exports, dll, entry, slot, nextStub);
      status, nextStub := BindThunk(image, imageSize, loadedSize, imageBase, exports, dll, entry, slot, nextStub);
      if status != LoadOk {
        return status, nextStub, total;
      }
      bindings := bindings + [outcome.binding];
      total := total + 1;
      index := index + 1;
    }
  }

  /** The import part of load_x64_pe64_image, from the result of the base load on: an image of imageSize bytes inside
      the loaded region, with an import directory (none if its address is zero). */
  method BindImports(image: array<u8>, imageSize: u32, imageBase: u64, directory: u32, directorySize: u32,
                     exports: seq<Export>) returns (status: LoadStatus, count: nat)
    requires imageSize <= image.Length
    modifies image
    ensures var w := ImportWalk(old(image[..]), imageSize, imageBase, exports, directory, directorySize);
            status == w.status && image[..] == w.image && count == |w.bindings|
  {
    hide ThunkWalk, LoadedString, DescriptorAt, ResolveRva;
    count := 0;
    var loadedSize := Wrap32(image.Length);
    if directory == 0 {
      return LoadOk, 0;
    }
    if !InImage(imageSize, directory, directorySize) {
      return ImportTableOutOfRange, 0;
    }
    ghost var bindings: seq<Binding> := [];
    var next: u64 := imageSize;
    var limit: int := Past(directory, directorySize);
    var rva: int := directory;
    ghost var w := DescriptorWalk(image[..], imageSize, loadedSize, imageBase, exports, rva, limit, next, []);
    while rva + DESCRIPTOR_SIZE <= limit
      invariant 0 <= rva && limit <= imageSize && next <= TWO_32 && count == |bindings|
      invariant w == DescriptorWalk(image[..], imageSize, loadedSize, imageBase, exports, rva, limit, next, bindings)
      decreases limit - rva
    {
      var descriptor := DescriptorAt(image[..], rva);
      if IsEmpty(descriptor) {
        return LoadOk, count;
      }
      var dllRva := ResolveRva(descriptor.name, imageBase, imageSize);
      var thunkRva := ResolveRva(descriptor.firstThunk, imageBase, imageSize);
      if dllRva.None? || thunkRva.None? {
        return ImportTableOutOfRange, count;
      }
      var lookup := thunkRva;
      if descriptor.originalFirstThunk != 0 {
        lookup := ResolveRva(descriptor.originalFirstThunk, imageBase, imageSize);
        if lookup.None? {
          return ImportTableOutOfRange, count;
        }
      }
      var ok, dll := ReadLoadedString(image, imageSize, dllRva.value);
      if !ok {
        return ImportNameOutOfRange, count;
      }
      ghost var thunks := ThunkWalk(image[..], imageSize, loadedSize, imageBase, exports, dll, lookup.value, thunkRva.value, 0,
                                    next, bindings);
      status, next, count := BindThunks(image, imageSize, loadedSize, imageBase, exports, dll, lookup.value,
                                        thunkRva.value, next, count, bindings);
      if status != LoadOk {
        return status, count;
      }
      bindings := thunks.bindings;
      rva := rva + DESCRIPTOR_SIZE;
    }
    return InvalidImportDirectory, count;
  }
}
