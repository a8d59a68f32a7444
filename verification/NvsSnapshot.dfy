/** Reassembling one blob from a raw flash image of a key-value store.  The image is a row of
    4096-byte pages; a page has a 32-byte header, a bitmap with two bits for each of its 126
    slots, and the slots of 32 bytes.  An entry takes one slot or, with its data, several. */
module NvsSnapshot {
  import opened Results

  type Byte = b: int | 0 <= b < 256

  const PAGE: nat := 4096
  const SLOT: nat := 32
  const SLOTS: nat := 128

  const NAMESPACE: string := "gh_n3w_diag"
  const KEY: string := "snapshot"

  datatype NvsError = ImageSizeInvalid | KeyNotAscii | NamespaceMissing | KeyMissing | BlobIncomplete | BlobSizeInvalid

  // ----- Reading one entry

  datatype State = Written | Empty | Erased

  datatype BlobIndex = BlobIndex(namespace: Byte, size: nat, count: Byte, start: Byte)

  datatype Record =
    | Name(name: string, index: Byte)
    | Index(blob: BlobIndex)
    | Chunk(namespace: Byte, key: string, number: Byte, data: seq<Byte>)

  /** A slice as the source's language cuts it: bounds beyond the end are clamped. */
  function Clamp(bytes: seq<Byte>, from: nat, to: nat): seq<Byte> {
    if from >= |bytes| || to <= from then [] else if to > |bytes| then bytes[from..] else bytes[from..to]
  }

  predicate IsPage(page: seq<Byte>) {
    |page| == PAGE
  }

  function Entry(page: seq<Byte>, i: nat): (entry: seq<Byte>)
    requires IsPage(page) && i < SLOTS
    ensures |entry| == SLOT
  {
    page[i * SLOT..(i + 1) * SLOT]
  }

  function Shifted(b: nat, places: nat): nat {
    if places == 0 then b else Shifted(b / 4, places - 1)
  }

  function StateBits(page: seq<Byte>, i: nat): nat
    requires IsPage(page) && 2 <= i < SLOTS
  {
    Shifted(page[SLOT + (i - 2) / 4], (i - 2) % 4) % 4
  }

  function StateAt(page: seq<Byte>, i: nat): State
    requires IsPage(page) && 2 <= i < SLOTS
  {
    if StateBits(page, i) == 2 then Written else if StateBits(page, i) == 3 then Empty else Erased
  }

  function SpanAt(page: seq<Byte>, i: nat): (span: nat)
    requires IsPage(page) && i < SLOTS
    ensures 1 <= span < 256
  {
    if Entry(page, i)[2] == 0 then 1 else Entry(page, i)[2]
  }

  /** Trailing zero bytes are padding. */
  function Stripped(raw: seq<Byte>): seq<Byte> {
    if raw != [] && raw[|raw| - 1] == 0 then Stripped(raw[..|raw| - 1]) else raw
  }

  function Ascii(raw: seq<Byte>): Option<string> {
    if raw == [] then Some("")
    else if raw[0] >= 128 || Ascii(raw[1..]).None? then None
    else Some([raw[0] as char] + Ascii(raw[1..]).value)
  }

  function DecodeKey(raw: seq<Byte>): Option<string> {
    Ascii(Stripped(raw))
  }

  function LittleEndian(b: seq<Byte>): nat
    requires |b| == 4
  {
    (b[0] as int) + 256 * ((b[1] as int) + 256 * ((b[2] as int) + 256 * (b[3] as int)))
  }

  /** The slots after the entry's own, up to its span, cut off at the end of the page. */
  function Children(page: seq<Byte>, i: nat, span: nat): seq<Byte>
    requires span >= 1
  {
    if span == 1 then []
    else Children(page, i, span - 1) + Clamp(page, (i + span - 1) * SLOT, (i + span) * SLOT)
  }

  /** What an entry says, from its fields; entries of other kinds say nothing. */
  function Meaning(namespace: Byte, kind: Byte, number: Byte, key: string, value: seq<Byte>, data: seq<Byte>)
    : seq<Record>
    requires |value| == 8
  {
    if namespace == 0 && kind == 0x01 then [Name(key, value[0])]
    else if kind == 0x48 && key == KEY then [Index(BlobIndex(namespace, LittleEndian(value[..4]), value[4], value[5]))]
    else if kind == 0x42 then [Chunk(namespace, key, number, data)]
    else []
  }

  function ReadEntry(page: seq<Byte>, i: nat): Result<seq<Record>, NvsError>
    requires IsPage(page) && 2 <= i < SLOTS
  {
    if StateAt(page, i) != Written then Success([])
    else
      var entry := Entry(page, i);
      match DecodeKey(entry[8..24])
      case None => Failure(KeyNotAscii)
      case Some(key) =>
        Success(Meaning(entry[0], entry[1], entry[3], key, entry[24..], Children(page, i, SpanAt(page, i))))
  }

  // ----- Reading the image

  predicate IsImage(raw: seq<Byte>) {
    |raw| % PAGE == 0
  }

  function PageAt(raw: seq<Byte>, p: nat): (page: seq<Byte>)
    requires (p + 1) * PAGE <= |raw|
    ensures IsPage(page)
  {
    raw[p * PAGE..(p + 1) * PAGE]
  }

  function After(first: seq<Record>, rest: Result<seq<Record>, NvsError>): Result<seq<Record>, NvsError> {
    match rest
    case Failure(e) => Failure(e)
    case Success(more) => Success(first + more)
  }

  type Span = n: nat | 1 <= n witness 1

  /** What reading at one slot gives, and how far the next entry is. */
  datatype Cell = Cell(read: Result<seq<Record>, NvsError>, span: Span)

  function CellAt(page: seq<Byte>, k: nat): Cell
    requires IsPage(page) && k < SLOTS - 2
  {
    Cell(ReadEntry(page, k + 2), SpanAt(page, k + 2))
  }

  function Cells(page: seq<Byte>): (cells: seq<Cell>)
    requires IsPage(page)
    ensures |cells| == SLOTS - 2
    ensures forall k | 0 <= k < SLOTS - 2 :: cells[k] == CellAt(page, k)
  {
    seq(SLOTS - 2, k requires 0 <= k < SLOTS - 2 => CellAt(page, k))
  }

  function Reels(raw: seq<Byte>): (reels: seq<seq<Cell>>)
    requires IsImage(raw)
    ensures |reels| == |raw| / PAGE
    ensures forall p | 0 <= p < |reels| :: reels[p] == Cells(PageAt(raw, p))
  {
    seq(|raw| / PAGE, p requires 0 <= p < |raw| / PAGE => Cells(PageAt(raw, p)))
  }

  /** All records from slot k of page p on, in the order of the image. */
  function Scan(reels: seq<seq<Cell>>, p: nat, k: nat): Result<seq<Record>, NvsError>
    decreases |reels| - p, if p < |reels| && k < |reels[p]| then |reels[p]| - k else 0
  {
    if p >= |reels| then Success([])
    else if k >= |reels[p]| then Scan(reels, p + 1, 0)
    else
      match reels[p][k].read
      case Failure(e) => Failure(e)
      case Success(records) => After(records, Scan(reels, p, k + reels[p][k].span))
  }

  datatype Directory = Directory(
    names: map<string, Byte>,
    indexes: seq<BlobIndex>,
    chunks: map<(Byte, string, nat), seq<Byte>>)

  function Enter(d: Directory, r: Record): Directory {
    match r
    case Name(name, index) => d.(names := d.names[name := index])
    case Index(blob) => d.(indexes := d.indexes + [blob])
    case Chunk(namespace, key, number, data) => d.(chunks := d.chunks[(namespace, key, number) := data])
  }

  /** Later records overwrite earlier ones. */
  function Collect(records: seq<Record>): Directory {
    if records == [] then Directory(map[], [], map[])
    else Enter(Collect(records[..|records| - 1]), records[|records| - 1])
  }

  function Matching(indexes: seq<BlobIndex>, namespace: Byte): seq<BlobIndex> {
    if indexes == [] then []
    else
      var last := |indexes| - 1;
      Matching(indexes[..last], namespace) + (if indexes[last].namespace == namespace then [indexes[last]] else [])
  }

  function Held(chunks: map<(Byte, string, nat), seq<Byte>>, namespace: Byte, number: nat): Option<seq<Byte>> {
    if (namespace, KEY, number) in chunks then Some(chunks[(namespace, KEY, number)]) else None
  }

  /** The first n chunks of the blob in a row, if all are there. */
  function Joined(chunks: map<(Byte, string, nat), seq<Byte>>, namespace: Byte, start: nat, n: nat): Option<seq<Byte>> {
    if n == 0 then Some([])
    else
      var last := Held(chunks, namespace, start + n - 1);
      match Joined(chunks, namespace, start, n - 1)
      case None => None
      case Some(bytes) => if last.Some? then Some(bytes + last.value) else None
  }

  function Resolve(d: Directory): Result<seq<Byte>, NvsError> {
    if NAMESPACE !in d.names then Failure(NamespaceMissing)
    else
      var namespace := d.names[NAMESPACE];
      var matching := Matching(d.indexes, namespace);
      if matching == [] then Failure(KeyMissing)
      else
        var blob := matching[|matching| - 1];
        match Joined(d.chunks, namespace, blob.start, blob.count)
        case None => Failure(BlobIncomplete)
        case Some(bytes) => if |bytes| < blob.size then Failure(BlobSizeInvalid) else Success(bytes[..blob.size])
  }

  function Extracted(raw: seq<Byte>): Result<seq<Byte>, NvsError> {
    if |raw| == 0 || !IsImage(raw) then Failure(ImageSizeInvalid)
    else
      match Scan(Reels(raw), 0, 0)
      case Failure(e) => Failure(e)
      case Success(records) => Resolve(Collect(records))
  }

  // ----- The scanning loop

  lemma AfterAfter(x: seq<Record>, y: seq<Record>, rest: Result<seq<Record>, NvsError>)
    ensures After(x, After(y, rest)) == After(x + y, rest)
  {
    if rest.Success? {
      assert x + (y + rest.value) == x + y + rest.value;
    }
  }

  method ReadChildren(page: seq<Byte>, i: nat, span: nat) returns (data: seq<Byte>)
    requires span >= 1
    ensures data == Children(page, i, span)
  {
    data := [];
    for child := 1 to span
      invariant data == Children(page, i, child)
    {
      data := data + Clamp(page, (i + child) * SLOT, (i + child + 1) * SLOT);
    }
  }

  function EnterAny(d: Directory, records: seq<Record>): Directory {
    if records == [] then d else Enter(d, records[0])
  }

  lemma CollectAny(done: seq<Record>, records: seq<Record>)
    requires |records| <= 1
    ensures Collect(done + records) == EnterAny(Collect(done), records)
  {
    if records == [] {
      assert done + records == done;
    } else {
      assert (done + records)[..|done|] == done;
    }
  }

  /** Scanning goes on past one entry. */
  lemma ScanStep(reels: seq<seq<Cell>>, p: nat, k: nat, done: seq<Record>)
    requires p < |reels| && k < |reels[p]| && reels[p][k].read.Success?
    ensures After(done, Scan(reels, p, k)) == After(done + reels[p][k].read.value, Scan(reels, p, k + reels[p][k].span))
  {
    AfterAfter(done, reels[p][k].read.value, Scan(reels, p, k + reels[p][k].span));
  }

  lemma ScanFails(reels: seq<seq<Cell>>, p: nat, k: nat, done: seq<Record>)
    requires p < |reels| && k < |reels[p]| && reels[p][k].read.Failure?
    ensures After(done, Scan(reels, p, k)) == Failure(reels[p][k].read.error)
  {
  }

  /** Files one entry under its kind. */
  method File(page: seq<Byte>, i: nat, d: Directory) returns (r: Result<Directory, NvsError>)
    requires IsPage(page) && 2 <= i < SLOTS
    ensures match ReadEntry(page, i)
            case Failure(e) => r == Failure(e)
            case Success(records) => |records| <= 1 && r == Success(EnterAny(d, records))
  {
    if StateAt(page, i) != Written {
      return Success(d);
    }
    var entry := Entry(page, i);
    var decoded := DecodeKey(entry[8..24]);
    if decoded.None? {
      return Failure(KeyNotAscii);
    }
    var namespace, key := entry[0], decoded.value;
    if namespace == 0 && entry[1] == 0x01 {
      return Success(d.(names := d.names[key := entry[24]]));
    } else if entry[1] == 0x48 && key == KEY {
      assert entry[24..][..4] == entry[24..28];
      var blob := BlobIndex(namespace, LittleEndian(entry[24..28]), entry[28], entry[29]);
      return Success(d.(indexes := d.indexes + [blob]));
    } else if entry[1] == 0x42 {
      var data := ReadChildren(page, i, SpanAt(page, i));
      return Success(d.(chunks := d.chunks[(namespace, key, entry[3] as nat) := data]));
    } else {
      return Success(d);
    }
  }

  /** Files one page, entry after entry. */
  method FilePage(raw: seq<Byte>, p: nat, d: Directory, ghost reels: seq<seq<Cell>>, ghost before: seq<Record>)
    returns (r: Result<Directory, NvsError>, ghost done: seq<Record>)
    requires (p + 1) * PAGE <= |raw| && p < |reels| && reels[p] == Cells(PageAt(raw, p))
    requires d == Collect(before)
    ensures r.Success? ==>
              r.value == Collect(done) && After(before, Scan(reels, p, 0)) == After(done, Scan(reels, p + 1, 0))
    ensures r.Failure? ==> After(before, Scan(reels, p, 0)) == Failure(r.error)
  {
    var page := PageAt(raw, p);
    var directory := d;
    done := before;
    var i := 2;
    while i < SLOTS
      invariant 2 <= i
      invariant After(done, Scan(reels, p, i - 2)) == After(before, Scan(reels, p, 0))
      invariant directory == Collect(done)
      decreases SLOTS - i
    {
      ghost var cell := reels[p][i - 2];
      assert cell == CellAt(page, i - 2);
      var filed := File(page, i, directory);
      if filed.Failure? {
        ScanFails(reels, p, i - 2, done);
        return Failure(filed.error), done;
      }
      CollectAny(done, cell.read.value);
      ScanStep(reels, p, i - 2, done);
      directory, done := filed.value, done + cell.read.value;
      i := i + SpanAt(page, i);
    }
    return Success(directory), done;
  }

  method Extract(raw: seq<Byte>) returns (r: Result<seq<Byte>, NvsError>)
    ensures r == Extracted(raw)
  {
    if |raw| == 0 || |raw| % PAGE != 0 {
      return Failure(ImageSizeInvalid);
    }
    var directory := Directory(map[], [], map[]);
    ghost var reels := Reels(raw);
    ghost var done: seq<Record> := [];
    AfterNone(Scan(reels, 0, 0));
    for p := 0 to |raw| / PAGE
      invariant After(done, Scan(reels, p, 0)) == Scan(reels, 0, 0)
      invariant directory == Collect(done)
    {
      var filed;
      filed, done := FilePage(raw, p, directory, reels, done);
      if filed.Failure? {
        return Failure(filed.error);
      }
      directory := filed.value;
    }
    AfterAll(done);
    r := Reassemble(directory);
  }

  lemma AfterAll(done: seq<Record>)
    ensures After(done, Success([])) == Success(done)
  {
    assert done + [] == done;
  }

  lemma AfterNone(r: Result<seq<Record>, NvsError>)
    ensures After([], r) == r
  {
    if r.Success? {
      assert [] + r.value == r.value;
    }
  }

  method Reassemble(d: Directory) returns (r: Result<seq<Byte>, NvsError>)
    ensures r == Resolve(d)
  {
    if NAMESPACE !in d.names {
      return Failure(NamespaceMissing);
    }
    var namespace := d.names[NAMESPACE];
    var matching: seq<BlobIndex> := [];
    for k := 0 to |d.indexes|
      invariant matching == Matching(d.indexes[..k], namespace)
    {
      assert d.indexes[..k + 1][..k] == d.indexes[..k];
      if d.indexes[k].namespace == namespace {
        matching := matching + [d.indexes[k]];
      }
    }
    assert d.indexes[..|d.indexes|] == d.indexes;
    if matching == [] {
      return Failure(KeyMissing);
    }
    var blob := matching[|matching| - 1];
    var bytes: seq<Byte> := [];
    for offset: nat := 0 to blob.count
      invariant Joined(d.chunks, namespace, blob.start, offset) == Some(bytes)
    {
      var at: (Byte, string, nat) := (namespace, KEY, blob.start + offset);
      if at !in d.chunks {
        MissingStays(d.chunks, namespace, blob.start, offset + 1, blob.count);
        return Failure(BlobIncomplete);
      }
      bytes := bytes + d.chunks[at];
    }
    if |bytes| < blob.size {
      return Failure(BlobSizeInvalid);
    }
    return Success(bytes[..blob.size]);
  }

  lemma {:induction false} MissingStays(chunks: map<(Byte, string, nat), seq<Byte>>, namespace: Byte, start: nat,
                                        n: nat, m: nat)
    requires n <= m && Joined(chunks, namespace, start, n) == None
    ensures Joined(chunks, namespace, start, m) == None
  {
    if n < m {
      MissingStays(chunks, namespace, start, n, m - 1);
    }
  }

  // ----- What a store writes

  function Repeated(b: Byte, n: nat): (bytes: seq<Byte>)
    ensures |bytes| == n
  {
    if n == 0 then [] else Repeated(b, n - 1) + [b]
  }

  type Block = b: seq<Byte> | |b| == 32 witness Repeated(0, 32)

  type Bits = b: int | 0 <= b < 4

  datatype Slot = Slot(bits: Bits, bytes: Block)

  /** An entry in use, or one that was erased but still tells its span. */
  datatype Item =
    | Live(namespace: Byte, kind: Byte, number: Byte, crc: seq<Byte>, key: string, value: seq<Byte>,
           children: seq<Block>)
    | Dead(bits: Bits, head: Block, children: seq<Block>)

  predicate KeyFits(key: string) {
    && |key| <= 16
    && (forall c | c in key :: (c as int) < 128)
    && (key != "" ==> key[|key| - 1] as int != 0)
  }

  predicate ItemFits(item: Item) {
    && |item.children| < SLOTS - 2
    && match item
       case Live(_, _, _, crc, key, value, _) => |crc| == 4 && |value| == 8 && KeyFits(key)
       case Dead(bits, head, children) => bits < 2 && (head[2] == |children| + 1 || (head[2] == 0 && children == []))
  }

  function Codes(key: string): (codes: seq<Byte>)
    requires forall c | c in key :: (c as int) < 128
    ensures |codes| == |key|
  {
    if key == "" then []
    else
      assert key[0] in key && forall c | c in key[1..] :: c in key;
      [key[0] as int] + Codes(key[1..])
  }

  function Head(item: Item): Block
    requires ItemFits(item)
  {
    match item
    case Live(namespace, kind, number, crc, key, value, children) =>
      [namespace, kind, |children| + 1, number] + crc + (Codes(key) + Repeated(0, 16 - |key|)) + value
    case Dead(_, head, _) => head
  }

  function ItemBits(item: Item): Bits {
    if item.Live? then 2 else item.bits
  }

  function ChildSlots(bits: Bits, children: seq<Block>): (slots: seq<Slot>)
    ensures |slots| == |children|
  {
    if children == [] then [] else [Slot(bits, children[0])] + ChildSlots(bits, children[1..])
  }

  function ItemSlots(item: Item): (slots: seq<Slot>)
    requires ItemFits(item)
    ensures |slots| == |item.children| + 1
  {
    [Slot(ItemBits(item), Head(item))] + ChildSlots(ItemBits(item), item.children)
  }

  predicate ItemsFit(items: seq<Item>) {
    forall item | item in items :: ItemFits(item)
  }

  function SlotsOf(items: seq<Item>): seq<Slot>
    requires ItemsFit(items)
  {
    if items == [] then [] else ItemSlots(items[0]) + SlotsOf(items[1..])
  }

  function Blank(n: nat): (slots: seq<Slot>)
    ensures |slots| == n
  {
    if n == 0 then [] else [Slot(3, Repeated(255, 32))] + Blank(n - 1)
  }

  datatype Layout = Layout(header: Block, items: seq<Item>)

  predicate LayoutFits(layout: Layout) {
    ItemsFit(layout.items) && |SlotsOf(layout.items)| <= SLOTS - 2
  }

  function LayoutSlots(layout: Layout): (slots: seq<Slot>)
    requires LayoutFits(layout)
    ensures |slots| == SLOTS - 2
  {
    SlotsOf(layout.items) + Blank(SLOTS - 2 - |SlotsOf(layout.items)|)
  }

  function StateBytes(slots: seq<Slot>): (bytes: seq<Byte>)
    ensures |bytes| == |slots| / 4
  {
    if |slots| < 4 then []
    else [slots[0].bits + 4 * slots[1].bits + 16 * slots[2].bits + 64 * slots[3].bits] + StateBytes(slots[4..])
  }

  function Bytes(slots: seq<Slot>): (bytes: seq<Byte>)
    ensures |bytes| == SLOT * |slots|
  {
    if slots == [] then [] else slots[0].bytes + Bytes(slots[1..])
  }

  function PageBytes(layout: Layout): (page: seq<Byte>)
    requires LayoutFits(layout)
    ensures IsPage(page)
  {
    layout.header + StateBytes(LayoutSlots(layout) + Blank(2)) + Bytes(LayoutSlots(layout))
  }

  function ImageBytes(layouts: seq<Layout>): (raw: seq<Byte>)
    requires LayoutsFit(layouts)
    ensures |raw| == PAGE * |layouts|
  {
    if layouts == [] then [] else PageBytes(layouts[0]) + ImageBytes(layouts[1..])
  }

  // ----- Reading back what was written

  lemma Quarter(a: Bits, b: Bits, c: Bits, d: Bits)
    ensures var byte: nat := a + 4 * b + 16 * c + 64 * d;
            && Shifted(byte, 0) % 4 == a && Shifted(byte, 1) % 4 == b
            && Shifted(byte, 2) % 4 == c && Shifted(byte, 3) % 4 == d
  {
    var byte: nat := a + 4 * b + 16 * c + 64 * d;
    assert byte / 4 == b + 4 * c + 16 * d;
    assert byte / 4 / 4 == c + 4 * d;
    assert byte / 4 / 4 / 4 == d;
    assert Shifted(byte, 1) == byte / 4;
    assert Shifted(byte, 2) == Shifted(byte / 4, 1) == byte / 4 / 4;
    assert Shifted(byte, 3) == Shifted(byte / 4, 2) == Shifted(byte / 4 / 4, 1);
  }

  lemma {:induction false} StateByteAt(slots: seq<Slot>, k: nat)
    requires k < |slots| / 4 * 4
    ensures Shifted(StateBytes(slots)[k / 4], k % 4) % 4 == slots[k].bits
  {
    if k < 4 {
      Quarter(slots[0].bits, slots[1].bits, slots[2].bits, slots[3].bits);
    } else {
      StateByteAt(slots[4..], k - 4);
      assert (k - 4) / 4 == k / 4 - 1 && (k - 4) % 4 == k % 4;
      assert StateBytes(slots)[k / 4] == StateBytes(slots[4..])[k / 4 - 1];
      assert slots[4..][k - 4] == slots[k];
    }
  }

  lemma {:induction false} BytesAt(slots: seq<Slot>, k: nat)
    requires k < |slots|
    ensures Bytes(slots)[SLOT * k..SLOT * (k + 1)] == slots[k].bytes
  {
    if k > 0 {
      BytesAt(slots[1..], k - 1);
      assert Bytes(slots)[SLOT * k..SLOT * (k + 1)] == Bytes(slots[1..])[SLOT * (k - 1)..SLOT * k];
    }
  }

  lemma PageParts(header: seq<Byte>, states: seq<Byte>, bytes: seq<Byte>, i: nat, k: nat)
    requires |header| == SLOT && |states| == SLOT && |bytes| == SLOT * (SLOTS - 2)
    requires i < SLOT && k < SLOTS - 2
    ensures (header + states + bytes)[SLOT + i] == states[i]
    ensures (header + states + bytes)[(k + 2) * SLOT..(k + 3) * SLOT] == bytes[SLOT * k..SLOT * (k + 1)]
  {
  }

  lemma SlotReadsBack(layout: Layout, k: nat)
    requires LayoutFits(layout) && k < SLOTS - 2
    ensures Entry(PageBytes(layout), k + 2) == LayoutSlots(layout)[k].bytes
    ensures StateBits(PageBytes(layout), k + 2) == LayoutSlots(layout)[k].bits
  {
    var slots := LayoutSlots(layout);
    StateByteAt(slots + Blank(2), k);
    BytesAt(slots, k);
    PageParts(layout.header, StateBytes(slots + Blank(2)), Bytes(slots), k / 4, k);
  }

  lemma {:induction false} AsciiCodes(key: string)
    requires forall c | c in key :: (c as int) < 128
    ensures Ascii(Codes(key)) == Some(key)
  {
    if key != "" {
      assert key[0] in key && forall c | c in key[1..] :: c in key;
      AsciiCodes(key[1..]);
      assert Codes(key)[1..] == Codes(key[1..]);
      assert [key[0]] + key[1..] == key;
    }
  }

  lemma {:induction false} CodesLast(key: string)
    requires key != "" && forall c | c in key :: (c as int) < 128
    ensures Codes(key)[|key| - 1] == key[|key| - 1] as int
  {
    assert key[0] in key && forall c | c in key[1..] :: c in key;
    if |key| > 1 {
      CodesLast(key[1..]);
    }
  }

  lemma {:induction false} StripZeros(raw: seq<Byte>, n: nat)
    requires raw != [] ==> raw[|raw| - 1] != 0
    ensures Stripped(raw + Repeated(0, n)) == raw
  {
    if n == 0 {
      assert raw + Repeated(0, n) == raw;
    } else {
      StripZeros(raw, n - 1);
      assert (raw + Repeated(0, n))[..|raw| + n - 1] == raw + Repeated(0, n - 1);
    }
  }

  lemma KeyReadsBack(key: string, n: nat)
    requires KeyFits(key)
    ensures DecodeKey(Codes(key) + Repeated(0, n)) == Some(key)
  {
    var codes := Codes(key);
    AsciiCodes(key);
    if key != "" {
      CodesLast(key);
    }
    StripZeros(codes, n);
  }

  // ----- What a scan finds in what was written

  function Flat(children: seq<Block>): (bytes: seq<Byte>)
    ensures |bytes| == SLOT * |children|
  {
    if children == [] then [] else children[0] + Flat(children[1..])
  }

  function RecordsOf(item: Item): seq<Record>
    requires ItemFits(item)
  {
    match item
    case Live(namespace, kind, number, _, key, value, children) =>
      Meaning(namespace, kind, number, key, value, Flat(children))
    case Dead(_, _, _) => []
  }

  function AllRecords(items: seq<Item>): seq<Record>
    requires ItemsFit(items)
  {
    if items == [] then [] else RecordsOf(items[0]) + AllRecords(items[1..])
  }

  lemma ClampInside(page: seq<Byte>, i: nat)
    requires IsPage(page) && i < SLOTS
    ensures Clamp(page, i * SLOT, (i + 1) * SLOT) == Entry(page, i)
  {
  }

  lemma {:induction false} FlatLast(children: seq<Block>)
    requires children != []
    ensures Flat(children) == Flat(children[..|children| - 1]) + children[|children| - 1]
  {
    if |children| == 1 {
      assert children[..0] == [] && children[1..] == [];
      assert Flat(children[1..]) == [];
      assert Flat(children) == children[0] + [];
    } else {
      FlatLast(children[1..]);
      assert children[1..][..|children| - 2] == children[1..|children| - 1];
      assert children[..|children| - 1][1..] == children[1..|children| - 1];
    }
  }

  lemma {:induction false} ChildSlotAt(bits: Bits, children: seq<Block>, k: nat)
    requires k < |children|
    ensures ChildSlots(bits, children)[k] == Slot(bits, children[k])
  {
    if k > 0 {
      ChildSlotAt(bits, children[1..], k - 1);
    }
  }

  /** The item's slots lie in the row from slot `at` on. */
  predicate Lies(row: seq<Slot>, at: nat, item: Item)
    requires ItemFits(item)
  {
    at + |ItemSlots(item)| <= |row| && row[at..at + |ItemSlots(item)|] == ItemSlots(item)
  }

  lemma RowAt<T>(row: seq<T>, at: nat, part: seq<T>, k: nat)
    requires at + |part| <= |row| && row[at..at + |part|] == part && k < |part|
    ensures row[at + k] == part[k]
  {
    assert row[at + k] == row[at..at + |part|][k];
  }

  lemma ItemSlotAt(item: Item, k: nat)
    requires ItemFits(item) && k < |item.children|
    ensures ItemSlots(item)[k + 1] == Slot(ItemBits(item), item.children[k])
  {
    ChildSlotAt(ItemBits(item), item.children, k);
  }

  lemma HeadLies(layout: Layout, row: seq<Slot>, at: nat, item: Item)
    requires LayoutFits(layout) && row == LayoutSlots(layout) && ItemFits(item) && Lies(row, at, item)
    ensures Entry(PageBytes(layout), at + 2) == Head(item)
    ensures StateBits(PageBytes(layout), at + 2) == ItemBits(item)
  {
    SlotReadsBack(layout, at);
    RowAt(row, at, ItemSlots(item), 0);
  }

  lemma ChildLies(layout: Layout, row: seq<Slot>, at: nat, item: Item, page: seq<Byte>, k: nat)
    requires LayoutFits(layout) && row == LayoutSlots(layout) && ItemFits(item) && Lies(row, at, item)
    requires page == PageBytes(layout) && k < |item.children|
    ensures Entry(page, at + 2 + 1 + k) == item.children[k]
  {
    hide PageBytes, ItemFits, LayoutFits;
    SlotReadsBack(layout, at + k + 1);
    ItemSlotAt(item, k);
    RowAt(row, at, ItemSlots(item), k + 1);
  }

  predicate InRow(page: seq<Byte>, i: nat, blocks: seq<Block>)
    requires IsPage(page) && i + |blocks| < SLOTS
  {
    forall k | 0 <= k < |blocks| :: Entry(page, i + 1 + k) == blocks[k]
  }

  lemma ChildrenLie(layout: Layout, row: seq<Slot>, at: nat, item: Item, page: seq<Byte>)
    requires LayoutFits(layout) && row == LayoutSlots(layout) && ItemFits(item) && Lies(row, at, item)
    requires page == PageBytes(layout)
    ensures at + 2 + |item.children| < SLOTS && InRow(page, at + 2, item.children)
  {
    forall k | 0 <= k < |item.children|
      ensures Entry(page, at + 2 + 1 + k) == item.children[k]
    {
      ChildLies(layout, row, at, item, page, k);
    }
  }

  lemma {:induction false} ChildrenInRow(page: seq<Byte>, i: nat, blocks: seq<Block>)
    requires IsPage(page) && i + |blocks| < SLOTS
    requires InRow(page, i, blocks)
    ensures Children(page, i, |blocks| + 1) == Flat(blocks)
  {
    if blocks != [] {
      var n := |blocks| - 1;
      assert forall k | 0 <= k < n :: blocks[..n][k] == blocks[k];
      ChildrenInRow(page, i, blocks[..n]);
      assert Entry(page, i + 1 + n) == blocks[n];
      ClampInside(page, i + |blocks|);
      FlatLast(blocks);
    }
  }

  lemma HeadFields(item: Item)
    requires ItemFits(item) && item.Live?
    ensures var head := Head(item);
            && head[0] == item.namespace && head[1] == item.kind
            && head[2] == |item.children| + 1 && head[3] == item.number
            && head[8..24] == Codes(item.key) + Repeated(0, 16 - |item.key|)
            && head[24..] == item.value
  {
    var key := Codes(item.key) + Repeated(0, 16 - |item.key|);
    var front: seq<Byte> := [item.namespace, item.kind, |item.children| + 1, item.number];
    assert Head(item) == front + item.crc + key + item.value;
    assert |front + item.crc| == 8;
  }

  lemma HeadKey(item: Item)
    requires ItemFits(item) && item.Live?
    ensures DecodeKey(Head(item)[8..24]) == Some(item.key)
  {
    HeadFields(item);
    KeyReadsBack(item.key, 16 - |item.key|);
  }

  lemma LiveHeadReads(page: seq<Byte>, i: nat, item: Item)
    requires IsPage(page) && 2 <= i < SLOTS && ItemFits(item) && item.Live?
    requires Entry(page, i) == Head(item) && StateBits(page, i) == 2
    ensures SpanAt(page, i) == |item.children| + 1
    ensures ReadEntry(page, i) == Success(Meaning(item.namespace, item.kind, item.number, item.key, item.value,
                                                  Children(page, i, |item.children| + 1)))
  {
    HeadFields(item);
    HeadKey(item);
  }

  lemma DeadHeadReads(page: seq<Byte>, i: nat, item: Item)
    requires IsPage(page) && 2 <= i < SLOTS && ItemFits(item) && item.Dead?
    requires Entry(page, i) == Head(item) && StateBits(page, i) == item.bits
    ensures SpanAt(page, i) == |item.children| + 1 && ReadEntry(page, i) == Success([])
  {
  }

  lemma ItemReadsBack(layout: Layout, row: seq<Slot>, at: nat, item: Item, page: seq<Byte>)
    requires LayoutFits(layout) && row == LayoutSlots(layout) && ItemFits(item) && Lies(row, at, item)
    requires page == PageBytes(layout)
    ensures ReadEntry(page, at + 2) == Success(RecordsOf(item))
    ensures SpanAt(page, at + 2) == |item.children| + 1
  {
    HeadLies(layout, row, at, item);
    ChildrenLie(layout, row, at, item, page);
    ChildrenInRow(page, at + 2, item.children);
    if item.Live? {
      LiveHeadReads(page, at + 2, item);
    } else {
      DeadHeadReads(page, at + 2, item);
    }
  }

  // ----- Scanning a page and an image

  /** The rest of the row, from slot `at` on, holds these items and then nothing. */
  predicate Remains(row: seq<Slot>, at: nat, items: seq<Item>)
    requires ItemsFit(items)
  {
    && at + |SlotsOf(items)| <= |row|
    && row[at..] == SlotsOf(items) + Blank(|row| - at - |SlotsOf(items)|)
  }

  lemma Regroup<T>(x: seq<T>, y: seq<T>, z: seq<T>)
    ensures x + y + z == x + (y + z)
  {
  }

  lemma FromStart<T>(row: seq<T>)
    ensures row[0..] == row
  {
  }

  lemma CutRow<T>(row: seq<T>, at: nat, first: seq<T>, rest: seq<T>)
    requires at <= |row| && row[at..] == first + rest
    ensures at + |first| <= |row|
    ensures row[at..at + |first|] == first
    ensures row[at + |first|..] == rest
  {
    assert row[at..at + |first|] == row[at..][..|first|];
    assert row[at + |first|..] == row[at..][|first|..];
  }

  lemma SlotsFirst(items: seq<Item>, blank: seq<Slot>)
    requires ItemsFit(items) && items != []
    ensures ItemFits(items[0]) && ItemsFit(items[1..])
    ensures |SlotsOf(items)| == |ItemSlots(items[0])| + |SlotsOf(items[1..])|
    ensures SlotsOf(items) + blank == ItemSlots(items[0]) + (SlotsOf(items[1..]) + blank)
  {
    Regroup(ItemSlots(items[0]), SlotsOf(items[1..]), blank);
  }

  lemma SplitRow(row: seq<Slot>, at: nat, items: seq<Item>, n: nat)
    requires ItemsFit(items) && items != [] && at <= |row| && row[at..] == SlotsOf(items) + Blank(n)
    ensures ItemFits(items[0]) && ItemsFit(items[1..])
    ensures var next := at + |ItemSlots(items[0])|;
            next <= |row| && row[at..next] == ItemSlots(items[0]) && row[next..] == SlotsOf(items[1..]) + Blank(n)
  {
    hide ItemSlots, Blank;
    SlotsFirst(items, Blank(n));
    CutRow(row, at, ItemSlots(items[0]), SlotsOf(items[1..]) + Blank(n));
  }

  lemma FirstLies(row: seq<Slot>, at: nat, items: seq<Item>)
    requires ItemsFit(items) && Remains(row, at, items) && items != []
    ensures ItemsFit(items[1..]) && Lies(row, at, items[0])
    ensures Remains(row, at + |items[0].children| + 1, items[1..])
  {
    var n := |row| - at - |SlotsOf(items)|;
    SplitRow(row, at, items, n);
    var next := at + |ItemSlots(items[0])|;
    assert |row[next..]| == |SlotsOf(items[1..])| + n;
  }

  lemma BlankReads(layout: Layout, row: seq<Slot>, at: nat)
    requires LayoutFits(layout) && row == LayoutSlots(layout) && Remains(row, at, []) && at < |row|
    ensures ReadEntry(PageBytes(layout), at + 2) == Success([]) && SpanAt(PageBytes(layout), at + 2) == 255
  {
    SlotReadsBack(layout, at);
    assert row[at] == row[at..][0] == Blank(|row| - at)[0];
    RepeatedAt(255, 32, 2);
  }

  lemma {:induction false} RepeatedAt(b: Byte, n: nat, k: nat)
    requires k < n
    ensures Repeated(b, n)[k] == b
  {
    if k < n - 1 {
      RepeatedAt(b, n - 1, k);
    }
  }

  /** From slot k on, entry after entry, the cells hold what the items say, then nothing. */
  predicate Yields(cells: seq<Cell>, k: nat, items: seq<Item>)
    requires ItemsFit(items)
    decreases |items|
  {
    if items == [] then k == |cells| || (k < |cells| && cells[k].read == Success([]) && k + cells[k].span >= |cells|)
    else
      && k < |cells|
      && cells[k] == Cell(Success(RecordsOf(items[0])), |items[0].children| + 1)
      && Yields(cells, k + |items[0].children| + 1, items[1..])
  }

  lemma AllRecordsFirst(items: seq<Item>)
    requires ItemsFit(items) && items != []
    ensures ItemFits(items[0]) && ItemsFit(items[1..])
    ensures AllRecords(items) == RecordsOf(items[0]) + AllRecords(items[1..])
  {
  }

  lemma CellReadsBack(layout: Layout, row: seq<Slot>, at: nat, item: Item, cells: seq<Cell>)
    requires LayoutFits(layout) && row == LayoutSlots(layout) && ItemFits(item) && Lies(row, at, item)
    requires cells == Cells(PageBytes(layout))
    ensures at < |cells| && cells[at] == Cell(Success(RecordsOf(item)), |item.children| + 1)
  {
    ItemReadsBack(layout, row, at, item, PageBytes(layout));
    assert cells[at] == CellAt(PageBytes(layout), at);
  }

  lemma BlankCell(layout: Layout, row: seq<Slot>, at: nat, cells: seq<Cell>)
    requires LayoutFits(layout) && row == LayoutSlots(layout) && Remains(row, at, []) && at < |row|
    requires cells == Cells(PageBytes(layout))
    ensures cells[at] == Cell(Success([]), 255)
  {
    BlankReads(layout, row, at);
    assert cells[at] == CellAt(PageBytes(layout), at);
  }

  lemma YieldsFirst(cells: seq<Cell>, k: nat, items: seq<Item>)
    requires ItemsFit(items) && items != [] && k < |cells|
    requires cells[k] == Cell(Success(RecordsOf(items[0])), |items[0].children| + 1)
    requires Yields(cells, k + |items[0].children| + 1, items[1..])
    ensures Yields(cells, k, items)
  {
  }

  lemma YieldsEnd(layout: Layout, row: seq<Slot>, at: nat, cells: seq<Cell>)
    requires LayoutFits(layout) && row == LayoutSlots(layout) && Remains(row, at, [])
    requires cells == Cells(PageBytes(layout))
    ensures Yields(cells, at, [])
  {
    if at < |row| {
      BlankCell(layout, row, at, cells);
    }
  }

  lemma {:induction false} LayoutYields(layout: Layout, row: seq<Slot>, at: nat, items: seq<Item>, cells: seq<Cell>)
    requires LayoutFits(layout) && row == LayoutSlots(layout) && ItemsFit(items) && Remains(row, at, items)
    requires cells == Cells(PageBytes(layout))
    ensures Yields(cells, at, items)
    decreases |items|
  {
    hide PageBytes, Cells, LayoutSlots, Remains, Lies, Yields;
    if items == [] {
      YieldsEnd(layout, row, at, cells);
    } else {
      FirstLies(row, at, items);
      LayoutYields(layout, row, at + |items[0].children| + 1, items[1..], cells);
      CellReadsBack(layout, row, at, items[0], cells);
      YieldsFirst(cells, at, items);
    }
  }

  lemma {:induction false} ScanPage(reels: seq<seq<Cell>>, p: nat, k: nat, items: seq<Item>)
    requires ItemsFit(items) && p < |reels| && Yields(reels[p], k, items)
    ensures Scan(reels, p, k) == After(AllRecords(items), Scan(reels, p + 1, 0))
    decreases |items|
  {
    if items == [] {
      AfterNone(Scan(reels, p + 1, 0));
    } else {
      AllRecordsFirst(items);
      var records, span := RecordsOf(items[0]), |items[0].children| + 1;
      ScanPage(reels, p, k + span, items[1..]);
      AfterAfter(records, AllRecords(items[1..]), Scan(reels, p + 1, 0));
    }
  }

  function ItemsOf(layouts: seq<Layout>): seq<Item> {
    if layouts == [] then [] else layouts[0].items + ItemsOf(layouts[1..])
  }

  predicate LayoutsFit(layouts: seq<Layout>) {
    forall layout | layout in layouts :: LayoutFits(layout)
  }

  lemma {:induction false} ItemsOfFit(layouts: seq<Layout>)
    requires LayoutsFit(layouts)
    ensures ItemsFit(ItemsOf(layouts))
  {
    if layouts != [] {
      assert LayoutFits(layouts[0]);
      ItemsOfFit(layouts[1..]);
    }
  }

  lemma {:induction false} AllRecordsJoin(x: seq<Item>, y: seq<Item>)
    requires ItemsFit(x) && ItemsFit(y) && ItemsFit(x + y)
    ensures AllRecords(x + y) == AllRecords(x) + AllRecords(y)
  {
    if x == [] {
      assert x + y == y;
    } else {
      assert (x + y)[1..] == x[1..] + y && (x + y)[0] == x[0];
      AllRecordsJoin(x[1..], y);
      var first := RecordsOf(x[0]);
      assert AllRecords(x + y) == first + AllRecords(x[1..] + y);
      assert AllRecords(x) == first + AllRecords(x[1..]);
      Regroup(first, AllRecords(x[1..]), AllRecords(y));
    }
  }

  lemma PageInRest(first: seq<Byte>, rest: seq<Byte>, p: nat)
    requires IsPage(first) && (p + 1) * PAGE <= |rest|
    ensures PageAt(first + rest, p + 1) == PageAt(rest, p)
  {
  }

  lemma {:induction false} ImagePage(layouts: seq<Layout>, p: nat)
    requires LayoutsFit(layouts) && p < |layouts|
    ensures PageAt(ImageBytes(layouts), p) == PageBytes(layouts[p])
  {
    if p > 0 {
      ImagePage(layouts[1..], p - 1);
      PageInRest(PageBytes(layouts[0]), ImageBytes(layouts[1..]), p - 1);
    }
  }

  lemma WholeRemains(layout: Layout)
    requires LayoutFits(layout)
    ensures ItemsFit(layout.items) && Remains(LayoutSlots(layout), 0, layout.items)
  {
    FromStart(LayoutSlots(layout));
  }

  lemma PageYields(layout: Layout)
    requires LayoutFits(layout)
    ensures ItemsFit(layout.items) && Yields(Cells(PageBytes(layout)), 0, layout.items)
  {
    hide PageBytes, Cells, Yields, LayoutSlots, Remains;
    WholeRemains(layout);
    LayoutYields(layout, LayoutSlots(layout), 0, layout.items, Cells(PageBytes(layout)));
  }

  lemma ItemsOfFrom(layouts: seq<Layout>, p: nat)
    requires LayoutsFit(layouts) && p < |layouts|
    ensures ItemsOf(layouts[p..]) == layouts[p].items + ItemsOf(layouts[p + 1..])
  {
    assert layouts[p..][0] == layouts[p] && layouts[p..][1..] == layouts[p + 1..];
  }

  /** Scanning reels that yield the layouts finds the records of all items, page after page. */
  lemma {:induction false} ScanLayouts(reels: seq<seq<Cell>>, layouts: seq<Layout>, p: nat)
    requires LayoutsFit(layouts) && |reels| == |layouts| && p <= |layouts|
    requires forall q | 0 <= q < |layouts| :: ItemsFit(layouts[q].items) && Yields(reels[q], 0, layouts[q].items)
    ensures ItemsFit(ItemsOf(layouts[p..]))
    ensures Scan(reels, p, 0) == Success(AllRecords(ItemsOf(layouts[p..])))
    decreases |layouts| - p
  {
    ItemsOfFit(layouts[p..]);
    if p < |layouts| {
      ScanLayouts(reels, layouts, p + 1);
      ScanPage(reels, p, 0, layouts[p].items);
      ItemsOfFrom(layouts, p);
      AllRecordsJoin(layouts[p].items, ItemsOf(layouts[p + 1..]));
    }
  }

  lemma ReelsYield(layouts: seq<Layout>, raw: seq<Byte>, reels: seq<seq<Cell>>, q: nat)
    requires LayoutsFit(layouts) && raw == ImageBytes(layouts) && reels == Reels(raw) && q < |layouts|
    ensures ItemsFit(layouts[q].items) && q < |reels| && Yields(reels[q], 0, layouts[q].items)
  {
    assert LayoutFits(layouts[q]);
    ImagePage(layouts, q);
    PageYields(layouts[q]);
  }

  lemma ScanImage(layouts: seq<Layout>, raw: seq<Byte>, items: seq<Item>, reels: seq<seq<Cell>>)
    requires LayoutsFit(layouts) && raw == ImageBytes(layouts) && items == ItemsOf(layouts)
    requires reels == Reels(raw)
    ensures ItemsFit(items) && Scan(reels, 0, 0) == Success(AllRecords(items))
  {
    assert |reels| == |layouts|;
    forall q | 0 <= q < |layouts|
      ensures ItemsFit(layouts[q].items) && Yields(reels[q], 0, layouts[q].items)
    {
      ReelsYield(layouts, raw, reels, q);
    }
    ScanLayouts(reels, layouts, 0);
    assert layouts[0..] == layouts;
  }

  // ----- One blob among the items

  predicate IsName(item: Item) {
    item.Live? && item.namespace == 0 && item.kind == 0x01 && item.key == NAMESPACE
  }

  predicate IsIndex(item: Item, namespace: Byte) {
    item.Live? && item.namespace == namespace && item.kind == 0x48 && item.key == KEY
  }

  predicate IsChunk(item: Item, namespace: Byte, number: nat) {
    item.Live? && item.namespace == namespace && item.kind == 0x42 && item.key == KEY && item.number == number
  }

  function FourBytes(n: nat): seq<Byte>
    requires n < 0x1_0000_0000
  {
    [n % 256, n / 256 % 256, n / 65536 % 256, n / 16777216]
  }

  lemma FourBytesReadBack(n: nat)
    requires n < 0x1_0000_0000
    ensures LittleEndian(FourBytes(n)) == n
  {
    var a, b, c := n / 256, n / 65536, n / 16777216;
    assert b == a / 256 && c == b / 256;
    assert n == n % 256 + 256 * a && a == a % 256 + 256 * b && b == b % 256 + 256 * c;
  }

  ghost predicate NamedOnce(items: seq<Item>, namespace: Byte)
    requires ItemsFit(items)
  {
    && (exists item | item in items :: IsName(item))
    && (forall item | item in items && IsName(item) :: item.value[0] == namespace)
  }

  ghost predicate IndexedOnce(items: seq<Item>, blob: BlobIndex)
    requires ItemsFit(items)
  {
    && blob.size < 0x1_0000_0000
    && (exists item | item in items :: IsIndex(item, blob.namespace))
    && (forall item | item in items && IsIndex(item, blob.namespace) ::
          item.value[..4] == FourBytes(blob.size) && item.value[4] == blob.count && item.value[5] == blob.start)
  }

  ghost predicate ChunkStored(items: seq<Item>, namespace: Byte, number: nat, data: seq<Byte>)
    requires ItemsFit(items)
  {
    && (exists item | item in items :: IsChunk(item, namespace, number))
    && (forall item | item in items && IsChunk(item, namespace, number) :: Flat(item.children) == data)
  }

  /** One namespace number, one live index for the blob, and its chunks, in any order and
      among any other items; `data` is what the chunks' slots hold. */
  ghost predicate Stores(items: seq<Item>, blob: BlobIndex, data: seq<seq<Byte>>)
    requires ItemsFit(items)
  {
    && NamedOnce(items, blob.namespace)
    && IndexedOnce(items, blob)
    && blob.count == |data|
    && (forall k | 0 <= k < |data| :: ChunkStored(items, blob.namespace, blob.start + k, data[k]))
  }

  function Concat(parts: seq<seq<Byte>>): seq<Byte> {
    if parts == [] then [] else Concat(parts[..|parts| - 1]) + parts[|parts| - 1]
  }

  lemma {:induction false} RecordFrom(items: seq<Item>, r: Record)
    requires ItemsFit(items)
    ensures r in AllRecords(items) <==> exists item | item in items :: r in RecordsOf(item)
  {
    if items != [] {
      AllRecordsFirst(items);
      RecordFrom(items[1..], r);
      if exists item | item in items :: r in RecordsOf(item) {
        var item :| item in items && r in RecordsOf(item);
        assert item == items[0] || item in items[1..];
      }
    }
  }

  lemma {:induction false} CollectNamed(records: seq<Record>, name: string, index: Byte)
    requires Name(name, index) in records
    requires forall r | r in records && r.Name? && r.name == name :: r.index == index
    ensures name in Collect(records).names && Collect(records).names[name] == index
  {
    var n := |records| - 1;
    if records[n] != Name(name, index) {
      assert Name(name, index) in records[..n];
      CollectNamed(records[..n], name, index);
    }
  }

  lemma {:induction false} CollectChunked(records: seq<Record>, chunk: Record)
    requires chunk.Chunk? && chunk in records
    requires forall r | r in records && r.Chunk? && r.(data := chunk.data) == chunk :: r == chunk
    ensures var d := Collect(records).chunks;
            var at := (chunk.namespace, chunk.key, chunk.number as nat);
            at in d && d[at] == chunk.data
  {
    var n := |records| - 1;
    if records[n] != chunk {
      assert chunk in records[..n];
      CollectChunked(records[..n], chunk);
      assert records[n].Chunk? ==> records[n].(data := chunk.data) != chunk;
    }
  }

  lemma MatchingMore(indexes: seq<BlobIndex>, blob: BlobIndex, namespace: Byte)
    ensures Matching(indexes + [blob], namespace) ==
            Matching(indexes, namespace) + (if blob.namespace == namespace then [blob] else [])
  {
    assert (indexes + [blob])[..|indexes|] == indexes;
  }

  lemma CollectLast(records: seq<Record>, n: nat)
    requires |records| == n + 1
    ensures Collect(records) == Enter(Collect(records[..n]), records[n])
    ensures forall r | r in records :: r == records[n] || r in records[..n]
  {
  }

  /** Every index of the namespace is this one. */
  lemma {:induction false} CollectIndexed(records: seq<Record>, blob: BlobIndex)
    requires forall r | r in records && r.Index? && r.blob.namespace == blob.namespace :: r.blob == blob
    ensures forall b | b in Matching(Collect(records).indexes, blob.namespace) :: b == blob
    ensures Index(blob) in records ==> Matching(Collect(records).indexes, blob.namespace) != []
  {
    if records != [] {
      var n := |records| - 1;
      CollectIndexed(records[..n], blob);
      CollectLast(records, n);
      if records[n].Index? {
        MatchingMore(Collect(records[..n]).indexes, records[n].blob, blob.namespace);
      } else {
        assert Index(blob) in records ==> Index(blob) in records[..n];
      }
    }
  }

  lemma {:induction false} JoinedParts(
      chunks: map<(Byte, string, nat), seq<Byte>>, namespace: Byte, start: nat, data: seq<seq<Byte>>)
    requires forall k: nat | k < |data| :: Held(chunks, namespace, start + k) == Some(data[k])
    ensures Joined(chunks, namespace, start, |data|) == Some(Concat(data))
  {
    if data != [] {
      var n := |data| - 1;
      JoinedParts(chunks, namespace, start, data[..n]);
      assert Held(chunks, namespace, start + n) == Some(data[n]);
    }
  }

  lemma NameRecords(items: seq<Item>, namespace: Byte)
    requires ItemsFit(items) && NamedOnce(items, namespace)
    ensures NAMESPACE in Collect(AllRecords(items)).names && Collect(AllRecords(items)).names[NAMESPACE] == namespace
  {
    hide Collect, AllRecords;
    var records := AllRecords(items);
    var item :| item in items && IsName(item);
    assert Name(NAMESPACE, namespace) in RecordsOf(item);
    RecordFrom(items, Name(NAMESPACE, namespace));
    forall r | r in records && r.Name? && r.name == NAMESPACE
      ensures r.index == namespace
    {
      RecordFrom(items, r);
      var from :| from in items && r in RecordsOf(from);
      assert IsName(from);
    }
    CollectNamed(records, NAMESPACE, namespace);
  }

  lemma IndexRecordIs(items: seq<Item>, blob: BlobIndex, r: Record)
    requires ItemsFit(items) && IndexedOnce(items, blob) && r in AllRecords(items)
    requires r.Index? && r.blob.namespace == blob.namespace
    ensures r.blob == blob
  {
    RecordFrom(items, r);
    var from :| from in items && r in RecordsOf(from);
    assert IsIndex(from, blob.namespace);
    FourBytesReadBack(blob.size);
  }

  lemma IndexRecorded(items: seq<Item>, blob: BlobIndex)
    requires ItemsFit(items) && IndexedOnce(items, blob)
    ensures Index(blob) in AllRecords(items)
  {
    var item :| item in items && IsIndex(item, blob.namespace);
    FourBytesReadBack(blob.size);
    assert Index(blob) in RecordsOf(item);
    RecordFrom(items, Index(blob));
  }

  lemma IndexRecords(items: seq<Item>, blob: BlobIndex)
    requires ItemsFit(items) && IndexedOnce(items, blob)
    ensures var matching := Matching(Collect(AllRecords(items)).indexes, blob.namespace);
            matching != [] && matching[|matching| - 1] == blob
  {
    var records := AllRecords(items);
    forall r | r in records && r.Index? && r.blob.namespace == blob.namespace
      ensures r.blob == blob
    {
      IndexRecordIs(items, blob, r);
    }
    IndexRecorded(items, blob);
    CollectIndexed(records, blob);
    var matching := Matching(Collect(records).indexes, blob.namespace);
    assert matching[|matching| - 1] in matching;
  }

  lemma ChunkRecordIs(items: seq<Item>, namespace: Byte, number: nat, data: seq<Byte>, r: Record)
    requires ItemsFit(items) && ChunkStored(items, namespace, number, data) && r in AllRecords(items)
    requires r.Chunk? && r.namespace == namespace && r.key == KEY && r.number == number
    ensures r.data == data
  {
    hide AllRecords;
    RecordFrom(items, r);
    var from :| from in items && r in RecordsOf(from);
    assert IsChunk(from, namespace, number);
  }

  lemma ChunkRecorded(items: seq<Item>, namespace: Byte, number: nat, data: seq<Byte>) returns (chunk: Record)
    requires ItemsFit(items) && ChunkStored(items, namespace, number, data)
    ensures chunk in AllRecords(items) && chunk.Chunk? && chunk.namespace == namespace && chunk.key == KEY
    ensures chunk.number == number && chunk.data == data
  {
    var item :| item in items && IsChunk(item, namespace, number);
    chunk := Chunk(namespace, KEY, item.number, data);
    assert chunk in RecordsOf(item);
    RecordFrom(items, chunk);
  }

  lemma ChunkRecords(items: seq<Item>, namespace: Byte, number: nat, data: seq<Byte>)
    requires ItemsFit(items) && ChunkStored(items, namespace, number, data)
    ensures Held(Collect(AllRecords(items)).chunks, namespace, number) == Some(data)
  {
    var records := AllRecords(items);
    var chunk := ChunkRecorded(items, namespace, number, data);
    forall r | r in records && r.Chunk? && r.(data := chunk.data) == chunk
      ensures r == chunk
    {
      ChunkRecordIs(items, namespace, number, data, r);
    }
    CollectChunked(records, chunk);
  }

  lemma Resolves(d: Directory, blob: BlobIndex, data: seq<seq<Byte>>)
    requires NAMESPACE in d.names && d.names[NAMESPACE] == blob.namespace
    requires var matching := Matching(d.indexes, blob.namespace);
             matching != [] && matching[|matching| - 1] == blob
    requires Joined(d.chunks, blob.namespace, blob.start, blob.count) == Some(Concat(data))
    ensures Resolve(d) == Cut(Concat(data), blob.size)
  {
  }

  /** The size that the index records, if there are that many bytes. */
  function Cut(bytes: seq<Byte>, size: nat): Result<seq<Byte>, NvsError> {
    if |bytes| < size then Failure(BlobSizeInvalid) else Success(bytes[..size])
  }

  lemma ChunksHeld(items: seq<Item>, blob: BlobIndex, data: seq<seq<Byte>>, chunks: map<(Byte, string, nat), seq<Byte>>)
    requires ItemsFit(items) && Stores(items, blob, data) && chunks == Collect(AllRecords(items)).chunks
    ensures Joined(chunks, blob.namespace, blob.start, blob.count) == Some(Concat(data))
  {
    hide ItemsFit, AllRecords, Collect, ChunkStored, Joined, Concat;
    forall k: nat | k < |data|
      ensures Held(chunks, blob.namespace, blob.start + k) == Some(data[k])
    {
      ChunkRecords(items, blob.namespace, blob.start + k, data[k]);
    }
    JoinedParts(chunks, blob.namespace, blob.start, data);
  }

  lemma StoredResolves(items: seq<Item>, blob: BlobIndex, data: seq<seq<Byte>>, d: Directory)
    requires ItemsFit(items) && Stores(items, blob, data) && d == Collect(AllRecords(items))
    ensures Resolve(d) == Cut(Concat(data), blob.size)
  {
    NameRecords(items, blob.namespace);
    IndexRecords(items, blob);
    ChunksHeld(items, blob, data, d.chunks);
    Resolves(d, blob, data);
  }

  lemma Extracts(raw: seq<Byte>, reels: seq<seq<Cell>>, records: seq<Record>)
    requires raw != [] && IsImage(raw) && reels == Reels(raw) && Scan(reels, 0, 0) == Success(records)
    ensures Extracted(raw) == Resolve(Collect(records))
  {
  }

  lemma ExtractsRecords(layouts: seq<Layout>, raw: seq<Byte>, items: seq<Item>, records: seq<Record>)
    requires layouts != [] && LayoutsFit(layouts) && raw == ImageBytes(layouts)
    requires items == ItemsOf(layouts) && ItemsFit(items) && records == AllRecords(items)
    ensures Extracted(raw) == Resolve(Collect(records))
  {
    ScanImage(layouts, raw, items, Reels(raw));
    Extracts(raw, Reels(raw), records);
  }

  /** What extraction makes of a stored blob, wherever its parts lie: its chunks' slots in a
      row, cut to the recorded size. */
  lemma ExtractsSlots(layouts: seq<Layout>, raw: seq<Byte>, items: seq<Item>, blob: BlobIndex, data: seq<seq<Byte>>)
    requires layouts != [] && LayoutsFit(layouts) && raw == ImageBytes(layouts)
    requires items == ItemsOf(layouts) && ItemsFit(items) && Stores(items, blob, data)
    ensures Extracted(raw) == Cut(Concat(data), blob.size)
  {
    ExtractsRecords(layouts, raw, items, AllRecords(items));
    StoredResolves(items, blob, data, Collect(AllRecords(items)));
  }

  /** Every piece fills its slots, except that the last may be followed by padding. */
  predicate Fills(pieces: seq<seq<Byte>>, data: seq<seq<Byte>>) {
    && |pieces| == |data|
    && (forall k | 0 <= k < |data| - 1 :: data[k] == pieces[k])
    && (data != [] ==> pieces[|data| - 1] <= data[|data| - 1])
  }

  lemma FilledConcat(pieces: seq<seq<Byte>>, data: seq<seq<Byte>>)
    requires Fills(pieces, data)
    ensures Cut(Concat(data), |Concat(pieces)|) == Success(Concat(pieces))
  {
    if data != [] {
      var n := |data| - 1;
      assert pieces[..n] == data[..n];
    }
    assert Concat(data)[..|Concat(pieces)|] == Concat(pieces);
  }

  lemma CutIff(bytes: seq<Byte>, whole: seq<Byte>)
    ensures Cut(bytes, |whole|) == Success(whole) <==> whole <= bytes
  {
    if whole <= bytes {
      assert bytes[..|whole|] == whole;
    }
  }

  /** Reassembly returns exactly the stored blob if and only if the blob is what the chunks'
      slots begin with. */
  lemma ExtractsBlobIff(layouts: seq<Layout>, raw: seq<Byte>, items: seq<Item>, blob: BlobIndex,
                        pieces: seq<seq<Byte>>, data: seq<seq<Byte>>)
    requires layouts != [] && LayoutsFit(layouts) && raw == ImageBytes(layouts)
    requires items == ItemsOf(layouts) && ItemsFit(items) && Stores(items, blob, data)
    requires blob.size == |Concat(pieces)|
    ensures Extracted(raw) == Success(Concat(pieces)) <==> Concat(pieces) <= Concat(data)
  {
    ExtractsSlots(layouts, raw, items, blob, data);
    CutIff(Concat(data), Concat(pieces));
  }

  lemma {:induction false} ConcatAt(parts: seq<seq<Byte>>, j: nat, i: nat)
    requires j < |parts| && i < |parts[j]|
    ensures |Concat(parts[..j])| + i < |Concat(parts)|
    ensures Concat(parts)[|Concat(parts[..j])| + i] == parts[j][i]
  {
    var n := |parts| - 1;
    if j < n {
      assert parts[..n][..j] == parts[..j];
      ConcatAt(parts[..n], j, i);
    }
  }

  lemma GapShows(pieces: seq<seq<Byte>>, data: seq<seq<Byte>>, j: nat)
    requires |pieces| == |data| && j + 1 < |pieces| && pieces[..j] == data[..j]
    requires pieces[j] < data[j] && pieces[j + 1] != [] && data[j][|pieces[j]|] != pieces[j + 1][0]
    ensures Cut(Concat(data), |Concat(pieces)|) != Success(Concat(pieces))
  {
    var at := |Concat(pieces[..j])| + |pieces[j]|;
    ConcatAt(data, j, |pieces[j]|);
    assert Concat(data)[at] == data[j][|pieces[j]|];
    assert pieces[..j + 1][..j] == pieces[..j];
    ConcatAt(pieces, j + 1, 0);
    assert |Concat(pieces[..j + 1])| == at;
    assert Concat(pieces)[at] == pieces[j + 1][0];
  }

  /** Reassembly returns exactly the stored blob, in any pages and slots, when every chunk but
      the last is a whole number of slots. */
  lemma BlobReadsBack(layouts: seq<Layout>, raw: seq<Byte>, items: seq<Item>, blob: BlobIndex,
                      pieces: seq<seq<Byte>>, data: seq<seq<Byte>>)
    requires layouts != [] && LayoutsFit(layouts) && raw == ImageBytes(layouts)
    requires items == ItemsOf(layouts) && ItemsFit(items) && Stores(items, blob, data)
    requires Fills(pieces, data) && blob.size == |Concat(pieces)|
    ensures Extracted(raw) == Success(Concat(pieces))
  {
    ExtractsSlots(layouts, raw, items, blob, data);
    FilledConcat(pieces, data);
  }

  /** The condition on the earlier chunks is needed: padding after a chunk that is not the
      last stays in the result, and shows as soon as it differs from the byte due there. */
  lemma PaddingInTheMiddle(layouts: seq<Layout>, raw: seq<Byte>, items: seq<Item>, blob: BlobIndex,
                           pieces: seq<seq<Byte>>, data: seq<seq<Byte>>, j: nat)
    requires layouts != [] && LayoutsFit(layouts) && raw == ImageBytes(layouts)
    requires items == ItemsOf(layouts) && ItemsFit(items) && Stores(items, blob, data)
    requires blob.size == |Concat(pieces)|
    requires |pieces| == |data| && j + 1 < |pieces| && pieces[..j] == data[..j]
    requires pieces[j] < data[j] && pieces[j + 1] != [] && data[j][|pieces[j]|] != pieces[j + 1][0]
    ensures Extracted(raw) != Success(Concat(pieces))
  {
    ExtractsSlots(layouts, raw, items, blob, data);
    GapShows(pieces, data, j);
  }

  // ----- A blob on one page

  const NO_CRC: seq<Byte> := [0, 0, 0, 0]

  function NameItem(namespace: Byte): Item {
    Live(0, 0x01, 255, NO_CRC, NAMESPACE, [namespace] + Repeated(0, 7), [])
  }

  function IndexItem(blob: BlobIndex): Item
    requires blob.size < 0x1_0000_0000
  {
    Live(blob.namespace, 0x48, 255, NO_CRC, KEY, FourBytes(blob.size) + [blob.count, blob.start, 0, 0], [])
  }

  function ChunkItem(namespace: Byte, number: Byte, blocks: seq<Block>): Item {
    Live(namespace, 0x42, number, NO_CRC, KEY, Repeated(0, 8), blocks)
  }

  predicate ChunksFit(blob: BlobIndex, parts: seq<seq<Block>>) {
    && blob.size < 0x1_0000_0000 && blob.count == |parts| && blob.start + blob.count <= 256
    && forall k | 0 <= k < |parts| :: |parts[k]| < SLOTS - 2
  }

  function ChunkItems(blob: BlobIndex, parts: seq<seq<Block>>): (items: seq<Item>)
    requires ChunksFit(blob, parts)
    ensures |items| == |parts|
    ensures forall k | 0 <= k < |parts| :: items[k] == ChunkItem(blob.namespace, blob.start + k, parts[k])
  {
    seq(|parts|, k requires 0 <= k < |parts| => ChunkItem(blob.namespace, blob.start + k, parts[k]))
  }

  /** A namespace, an index and the chunks. */
  function BlobItems(blob: BlobIndex, parts: seq<seq<Block>>): (items: seq<Item>)
    requires ChunksFit(blob, parts)
    ensures |items| == |parts| + 2
  {
    [NameItem(blob.namespace), IndexItem(blob)] + ChunkItems(blob, parts)
  }

  function Flats(parts: seq<seq<Block>>): (data: seq<seq<Byte>>)
    ensures |data| == |parts| && forall k | 0 <= k < |parts| :: data[k] == Flat(parts[k])
  {
    seq(|parts|, k requires 0 <= k < |parts| => Flat(parts[k]))
  }

  function Blocks(parts: seq<seq<Block>>): nat {
    if parts == [] then 0 else |parts[0]| + Blocks(parts[1..])
  }

  lemma KeysFit()
    ensures KeyFits(NAMESPACE) && KeyFits(KEY) && NAMESPACE != KEY
  {
    assert |NAMESPACE| != |KEY|;
  }

  lemma ItemsOfOnePage(header: Block, items: seq<Item>)
    ensures ItemsOf([Layout(header, items)]) == items
  {
    assert [Layout(header, items)][1..] == [];
    assert items + [] == items;
  }

  lemma BlobItem(blob: BlobIndex, parts: seq<seq<Block>>, item: Item)
    requires ChunksFit(blob, parts) && item in BlobItems(blob, parts)
    ensures || item == NameItem(blob.namespace) || item == IndexItem(blob)
            || exists k | 0 <= k < |parts| :: item == ChunkItem(blob.namespace, blob.start + k, parts[k])
  {
    if item in ChunkItems(blob, parts) {
      var k :| 0 <= k < |parts| && ChunkItems(blob, parts)[k] == item;
    }
  }

  lemma BlobItemsFit(blob: BlobIndex, parts: seq<seq<Block>>)
    requires ChunksFit(blob, parts)
    ensures ItemsFit(BlobItems(blob, parts))
  {
    KeysFit();
    forall item | item in BlobItems(blob, parts)
      ensures ItemFits(item)
    {
      BlobItem(blob, parts, item);
    }
  }

  lemma {:induction false} SlotsOfParts(items: seq<Item>, parts: seq<seq<Block>>)
    requires ItemsFit(items) && |items| == |parts|
    requires forall k | 0 <= k < |items| :: items[k].children == parts[k]
    ensures |SlotsOf(items)| == |parts| + Blocks(parts)
  {
    if items != [] {
      SlotsOfParts(items[1..], parts[1..]);
    }
  }

  lemma BlobItemsSize(blob: BlobIndex, parts: seq<seq<Block>>)
    requires ChunksFit(blob, parts)
    ensures ItemsFit(BlobItems(blob, parts))
    ensures |SlotsOf(BlobItems(blob, parts))| == 2 + |parts| + Blocks(parts)
  {
    hide BlobItems, WithTwo, SlotsOf, ItemsFit;
    BlobItemsFit(blob, parts);
    TwoMore(parts);
    BlobChildren(blob, parts);
    SlotsOfParts(BlobItems(blob, parts), WithTwo(parts));
  }

  function WithTwo(parts: seq<seq<Block>>): (all: seq<seq<Block>>)
    ensures |all| == |parts| + 2
  {
    [[], []] + parts
  }

  lemma TwoMore(parts: seq<seq<Block>>)
    ensures Blocks(WithTwo(parts)) == Blocks(parts)
  {
    var rest := WithTwo(parts)[1..];
    assert rest[1..] == parts;
    assert Blocks(rest) == |rest[0]| + Blocks(rest[1..]);
  }

  lemma BlobChildren(blob: BlobIndex, parts: seq<seq<Block>>)
    requires ChunksFit(blob, parts)
    ensures forall k | 0 <= k < |parts| + 2 :: BlobItems(blob, parts)[k].children == WithTwo(parts)[k]
  {
    var chunks := ChunkItems(blob, parts);
    forall k | 0 <= k < |parts| + 2
      ensures BlobItems(blob, parts)[k].children == WithTwo(parts)[k]
    {
      if k >= 2 {
        assert BlobItems(blob, parts)[k] == chunks[k - 2];
      }
    }
  }

  lemma NameStored(blob: BlobIndex, parts: seq<seq<Block>>)
    requires ChunksFit(blob, parts) && ItemsFit(BlobItems(blob, parts))
    ensures NamedOnce(BlobItems(blob, parts), blob.namespace)
  {
    var items := BlobItems(blob, parts);
    assert items[0] in items && IsName(items[0]);
    KeysFit();
    forall item | item in items && IsName(item)
      ensures item.value[0] == blob.namespace
    {
      BlobItem(blob, parts, item);
    }
  }

  lemma IndexStored(blob: BlobIndex, parts: seq<seq<Block>>)
    requires ChunksFit(blob, parts) && ItemsFit(BlobItems(blob, parts))
    ensures IndexedOnce(BlobItems(blob, parts), blob)
  {
    var items := BlobItems(blob, parts);
    assert items[1] in items && IsIndex(items[1], blob.namespace);
    KeysFit();
    forall item | item in items && IsIndex(item, blob.namespace)
      ensures item == IndexItem(blob)
    {
      BlobItem(blob, parts, item);
    }
    assert IndexItem(blob).value[..4] == FourBytes(blob.size);
  }

  lemma OnlyPart(blob: BlobIndex, parts: seq<seq<Block>>, k: nat, item: Item)
    requires ChunksFit(blob, parts) && k < |parts| && item in BlobItems(blob, parts)
    requires IsChunk(item, blob.namespace, blob.start + k)
    ensures item == ChunkItem(blob.namespace, blob.start + k, parts[k])
  {
    BlobItem(blob, parts, item);
  }

  lemma PartStored(blob: BlobIndex, parts: seq<seq<Block>>, k: nat)
    requires ChunksFit(blob, parts) && ItemsFit(BlobItems(blob, parts)) && k < |parts|
    ensures ChunkStored(BlobItems(blob, parts), blob.namespace, blob.start + k, Flat(parts[k]))
  {
    hide Flat, ItemFits;
    var items := BlobItems(blob, parts);
    assert items[2 + k] == ChunkItem(blob.namespace, blob.start + k, parts[k]) && items[2 + k] in items;
    assert IsChunk(items[2 + k], blob.namespace, blob.start + k);
    forall item | item in items && IsChunk(item, blob.namespace, blob.start + k)
      ensures item == items[2 + k]
    {
      OnlyPart(blob, parts, k, item);
    }
  }

  lemma BlobStored(blob: BlobIndex, parts: seq<seq<Block>>)
    requires ChunksFit(blob, parts) && ItemsFit(BlobItems(blob, parts))
    ensures Stores(BlobItems(blob, parts), blob, Flats(parts))
  {
    NameStored(blob, parts);
    IndexStored(blob, parts);
    forall k: nat | k < |parts|
      ensures ChunkStored(BlobItems(blob, parts), blob.namespace, blob.start + k, Flats(parts)[k])
    {
      PartStored(blob, parts, k);
    }
  }

  /** Writing a namespace, an index and any chunks that fit on one page, then extracting. */
  lemma PageReadsBack(header: Block, blob: BlobIndex, parts: seq<seq<Block>>, whole: seq<Byte>)
    requires ChunksFit(blob, parts) && |parts| + Blocks(parts) <= SLOTS - 4 && blob.size == |whole|
    ensures LayoutFits(Layout(header, BlobItems(blob, parts)))
    ensures var raw := PageBytes(Layout(header, BlobItems(blob, parts)));
            && Extracted(raw) == Cut(Concat(Flats(parts)), blob.size)
            && (Extracted(raw) == Success(whole) <==> whole <= Concat(Flats(parts)))
  {
    BlobItemsSize(blob, parts);
    BlobStored(blob, parts);
    OnePage(Layout(header, BlobItems(blob, parts)), blob, Flats(parts));
    CutIff(Concat(Flats(parts)), whole);
  }

  lemma ImageOfOnePage(layout: Layout)
    requires LayoutFits(layout)
    ensures ImageBytes([layout]) == PageBytes(layout)
  {
    assert [layout][1..] == [];
    assert PageBytes(layout) + [] == PageBytes(layout);
  }

  lemma OnePage(layout: Layout, blob: BlobIndex, data: seq<seq<Byte>>)
    requires LayoutFits(layout) && ItemsFit(layout.items) && Stores(layout.items, blob, data)
    ensures Extracted(PageBytes(layout)) == Cut(Concat(data), blob.size)
  {
    hide PageBytes, Extracted, Cut, Stores;
    ItemsOfOnePage(layout.header, layout.items);
    ImageOfOnePage(layout);
    ExtractsSlots([layout], PageBytes(layout), layout.items, blob, data);
  }

  /** A chunk of one byte, padded with zeros. */
  function Padded(b: Byte): seq<Block> {
    [[b] + Repeated(0, SLOT - 1)]
  }

  function TwoChunks(): seq<seq<Block>> {
    [Padded(1), Padded(2)]
  }

  /** An image in which padding after an earlier chunk ends up in the result: of a blob of two
      bytes in two chunks, the second byte is replaced. */
  lemma SecondByteLost(header: Block, namespace: Byte)
    ensures var blob, parts := BlobIndex(namespace, 2, 2, 0), TwoChunks();
            && ChunksFit(blob, parts) && LayoutFits(Layout(header, BlobItems(blob, parts)))
            && Extracted(PageBytes(Layout(header, BlobItems(blob, parts)))) == Success([1, 0])
  {
    var blob, parts := BlobIndex(namespace, 2, 2, 0), TwoChunks();
    TwoBlocks();
    PageReadsBack(header, blob, parts, [1, 0]);
    BeginsWithOne();
  }

  lemma TwoBlocks()
    ensures Blocks(TwoChunks()) == 2
  {
    var rest: seq<seq<Block>> := TwoChunks()[1..];
    assert rest[0] == Padded(2) && rest[1..] == [];
    assert Blocks(rest) == 1 + Blocks(rest[1..]);
  }

  lemma BeginsWithOne()
    ensures [1, 0] <= Concat(Flats(TwoChunks()))
  {
    var data: seq<seq<Byte>> := Flats(TwoChunks());
    FlatOne(Padded(1)[0]);
    FirstZero();
    var first: seq<seq<Byte>> := data[..1];
    assert first[0] == data[0] && first[..0] == [];
    assert Concat(first) == data[0];
    assert Concat(data) == data[0] + data[1];
    assert data[0] == [1] + Repeated(0, SLOT - 1);
  }

  lemma FlatOne(block: Block)
    ensures Flat([block]) == block
  {
    assert [block][1..] == [];
    assert block + [] == block;
  }

  lemma FirstZero()
    ensures Repeated(0, SLOT - 1)[0] == 0
  {
    RepeatedAt(0, SLOT - 1, 0);
  }
}
