/** The .reloc payload: page blocks of base relocations, and the loader's way of reading them back. */
module BaseRelocs {
  import opened Basics
  import opened Coff
  import opened Bytes
  import opened Sorting

  const Dir64 := 10
  const HighLow := 3

  datatype BaseReloc = BaseReloc(rva: int, kind: int)

  /** A base relocation split into page and offset in the page, as the blocks store it. */
  datatype Slot = Slot(page: int, offset: int, kind: int)

  function SlotOf(r: BaseReloc): Slot {
    Slot(r.rva / 0x1000 * 0x1000, r.rva % 0x1000, r.kind)
  }

  function RelocOf(slot: Slot): BaseReloc {
    BaseReloc(slot.page + slot.offset, slot.kind)
  }

  function SlotsOf(rs: seq<BaseReloc>): seq<Slot> {
    seq(|rs|, i requires 0 <= i < |rs| => SlotOf(rs[i]))
  }

  function RelocsOf(slots: seq<Slot>): seq<BaseReloc> {
    seq(|slots|, i requires 0 <= i < |slots| => RelocOf(slots[i]))
  }

  /** A 32-bit RVA and a 4-bit type other than the padding type 0. */
  predicate Encodable(r: BaseReloc) {
    0 <= r.rva < 0x1_0000_0000 && 1 <= r.kind < 16
  }

  predicate Storable(s: Slot) {
    0 <= s.page < 0x1_0000_0000 && 0 <= s.offset < 0x1000 && 1 <= s.kind < 16
  }

  ghost predicate AllEncodable(rs: seq<BaseReloc>) {
    forall i :: 0 <= i < |rs| ==> Encodable(rs[i])
  }

  ghost predicate AllStorable(slots: seq<Slot>) {
    forall i :: 0 <= i < |slots| ==> Storable(slots[i])
  }

  // ---------- what is written ----------

  /** Type in the top four bits, offset in the page below. */
  function WordOf(s: Slot): int {
    s.kind * 0x1000 + s.offset
  }

  /** Length of the run of slots at the front that share a page. */
  function RunLength(slots: seq<Slot>, page: int): (n: nat)
    ensures n <= |slots|
    ensures forall i :: 0 <= i < n ==> slots[i].page == page
    ensures n < |slots| ==> slots[n].page != page
  {
    if slots == [] || slots[0].page != page then 0 else 1 + RunLength(slots[1..], page)
  }

  /** Length of the first block's run. */
  function FirstRun(slots: seq<Slot>): (n: nat)
    requires slots != []
    ensures 1 <= n <= |slots|
  {
    RunLength(slots, slots[0].page)
  }

  function Words(run: seq<Slot>): (s: seq<byte>)
    ensures |s| == 2 * |run|
  {
    if run == [] then [] else Words(run[..|run| - 1]) + Encode(WordOf(run[|run| - 1]), 2)
  }

  /** One padding word when the count is odd. */
  function Padding(n: nat): (s: seq<byte>)
    ensures |s| == if n % 2 == 1 then 2 else 0
  {
    if n % 2 == 1 then Encode(0, 2) else []
  }

  function BlockSize(n: nat): int {
    8 + 2 * n + |Padding(n)|
  }

  function Block(page: int, run: seq<Slot>): (s: seq<byte>)
    ensures |s| == BlockSize(|run|)
  {
    Encode(page, 4) + Encode(BlockSize(|run|), 4) + (Words(run) + Padding(|run|))
  }

  function Payload(slots: seq<Slot>): seq<byte> {
    if slots == [] then [] else Block(slots[0].page, slots[..FirstRun(slots)]) + Payload(slots[FirstRun(slots)..])
  }

  // ---------- how the loader reads it ----------

  function DecodeWords(page: int, s: seq<byte>): seq<Slot> {
    if |s| < 2 then []
    else
      var word := Decode(s[..2]);
      (if word / 0x1000 == 0 then [] else [Slot(page, word % 0x1000, word / 0x1000)]) + DecodeWords(page, s[2..])
  }

  /** None when a block is truncated, not a multiple of four bytes, or too small to hold its header. */
  function DecodeBlocks(s: seq<byte>): Option<seq<Slot>> {
    if s == [] then Some([])
    else if |s| < 8 then None
    else
      var size := Decode(s[4..8]);
      if size < 8 || size > |s| || size % 4 != 0 then None
      else
        match DecodeBlocks(s[size..])
        case None => None
        case Some(rest) => Some(DecodeWords(Decode(s[..4]), s[8..size]) + rest)
  }

  // ---------- round trip ----------

  lemma WordFits(s: Slot)
    requires Storable(s)
    ensures Decode(Encode(WordOf(s), 2)) == WordOf(s)
    ensures WordOf(s) / 0x1000 == s.kind && WordOf(s) % 0x1000 == s.offset
  {
    Word16(WordOf(s));
  }

  lemma {:induction false} WordsFront(run: seq<Slot>)
    requires run != []
    ensures Words(run) == Encode(WordOf(run[0]), 2) + Words(run[1..])
  {
    if |run| > 1 {
      WordsFront(run[..|run| - 1]);
      assert run[..|run| - 1][1..] == run[1..][..|run| - 2];
    }
  }

  lemma {:induction false} WordsRoundTrip(page: int, run: seq<Slot>, padding: seq<byte>)
    requires AllStorable(run) && (forall i :: 0 <= i < |run| ==> run[i].page == page)
    requires padding == [] || padding == Encode(0, 2)
    ensures DecodeWords(page, Words(run) + padding) == run
  {
    if run == [] {
      assert Words(run) + padding == padding;
      if padding != [] { DecodePadding(page); }
    } else {
      var first, rest := Encode(WordOf(run[0]), 2), Words(run[1..]) + padding;
      WordsFront(run);
      assert Words(run) + padding == first + rest;
      DecodeFirst(page, run[0], rest);
      WordsRoundTrip(page, run[1..], padding);
    }
  }

  lemma DecodePadding(page: int)
    ensures DecodeWords(page, Encode(0, 2)) == []
  {
    Word16(0);
    assert Encode(0, 2)[..2] == Encode(0, 2);
  }

  lemma DecodeFirst(page: int, slot: Slot, rest: seq<byte>)
    requires Storable(slot) && slot.page == page
    ensures DecodeWords(page, Encode(WordOf(slot), 2) + rest) == [slot] + DecodeWords(page, rest)
  {
    var s := Encode(WordOf(slot), 2) + rest;
    assert s[..2] == Encode(WordOf(slot), 2) && s[2..] == rest;
    WordFits(slot);
  }

  lemma MultiplesAdd(x: int, y: int)
    requires x % 4 == 0 && y % 4 == 0
    ensures (x + y) % 4 == 0
  {
  }

  lemma BlockBound(n: nat)
    requires n >= 1
    ensures 8 < BlockSize(n) <= 12 * n && BlockSize(n) % 4 == 0
  {
  }

  /** Every payload is a whole number of words and takes at most twelve bytes per relocation. */
  lemma {:induction false} PayloadSize(slots: seq<Slot>)
    ensures |Payload(slots)| <= 12 * |slots| && |Payload(slots)| % 4 == 0
    decreases |slots|
  {
    if slots != [] {
      var n := FirstRun(slots);
      BlockBound(n);
      PayloadSize(slots[n..]);
      MultiplesAdd(BlockSize(n), |Payload(slots[n..])|);
    }
  }

  lemma ThreeParts(a: seq<byte>, b: seq<byte>, c: seq<byte>, rest: seq<byte>)
    requires |a| == 4 && |b| == 4
    ensures var s := a + b + c + rest;
      s[..4] == a && s[4..8] == b && s[8..8 + |c|] == c && s[8 + |c|..] == rest
  {
  }

  /** Reading the first block of a payload. */
  lemma BlockRoundTrip(page: int, run: seq<Slot>, rest: seq<byte>)
    requires AllStorable(run) && run != [] && 0 <= page < 0x1_0000_0000 && 12 * |run| < 0x1_0000_0000
    requires forall i :: 0 <= i < |run| ==> run[i].page == page
    ensures DecodeBlocks(rest).Some? ==> DecodeBlocks(Block(page, run) + rest) == Some(run + DecodeBlocks(rest).value)
  {
    var size, body := BlockSize(|run|), Words(run) + Padding(|run|);
    BlockBound(|run|);
    ThreeParts(Encode(page, 4), Encode(size, 4), body, rest);
    Word32(page);
    Word32(size);
    WordsRoundTrip(page, run, Padding(|run|));
  }

  /** Decoding the blocks and skipping padding gives back exactly the slots, in order. */
  lemma {:induction false} PayloadRoundTrip(slots: seq<Slot>)
    requires AllStorable(slots) && 12 * |slots| < 0x1_0000_0000
    ensures DecodeBlocks(Payload(slots)) == Some(slots)
    decreases |slots|
  {
    if slots != [] {
      var n := FirstRun(slots);
      var run, rest := slots[..n], slots[n..];
      PayloadRoundTrip(rest);
      assert run + rest == slots;
      assert Storable(slots[0]);
      BlockRoundTrip(slots[0].page, run, Payload(rest));
    }
  }

  // ---------- the writing loop ----------

  lemma RunEnds(slots: seq<Slot>, n: nat)
    requires 1 <= n <= |slots| && (forall i :: 0 <= i < n ==> slots[i].page == slots[0].page)
    requires n < |slots| ==> slots[n].page != slots[0].page
    ensures FirstRun(slots) == n
  {
  }

  /** The words of one run: appends until the page changes, then pads to a multiple of four bytes. */
  method WriteWords(slots: seq<Slot>, page: int) returns (words: seq<byte>, n: nat)
    requires slots != [] && slots[0].page == page
    ensures n == FirstRun(slots) && words == Words(slots[..n]) + Padding(n)
  {
    words, n := [], 0;
    while n < |slots| && slots[n].page == page
      invariant n <= |slots| && words == Words(slots[..n])
      invariant forall i :: 0 <= i < n ==> slots[i].page == page
    {
      words := words + Encode(WordOf(slots[n]), 2);
      assert slots[..n + 1][..n] == slots[..n];
      n := n + 1;
    }
    RunEnds(slots, n);
    words := Pad(words, n);
  }

  lemma WordParity(n: nat)
    ensures (8 + 2 * n) % 4 == 0 <==> n % 2 == 0
  {
  }

  /** Appends zero words until the block of an eight-byte header and these words is a multiple of four bytes long. */
  method Pad(words: seq<byte>, n: nat) returns (r: seq<byte>)
    requires |words| == 2 * n
    ensures r == words + Padding(n)
  {
    r := words;
    ghost var added: nat := 0;
    while (8 + |r|) % 4 != 0
      invariant |r| == 2 * (n + added) && added <= n % 2 && r == words + if added == 0 then [] else Encode(0, 2)
      decreases 1 - added
    {
      WordParity(n + added);
      r, added := r + Encode(0, 2), added + 1;
    }
    WordParity(n + added);
  }

  lemma Backfilled(a: seq<byte>, b: seq<byte>, b': seq<byte>, c: seq<byte>)
    requires |a| == 4 && |b| == 4 && |b'| == 4
    ensures Put(a + b + c, 4, b') == a + b' + c
  {
  }

  /** One block: header with a zero size, words, then the size backfilled. */
  method WriteBlock(slots: seq<Slot>) returns (block: seq<byte>, n: nat)
    requires slots != []
    ensures n == FirstRun(slots) && block == Block(slots[0].page, slots[..n])
  {
    var page := slots[0].page;
    var words;
    words, n := WriteWords(slots, page);
    block := Encode(page, 4) + Encode(0, 4) + words;
    Backfilled(Encode(page, 4), Encode(0, 4), Encode(|block|, 4), words);
    block := Put(block, 4, Encode(|block|, 4));
  }

  lemma Appended(done: seq<byte>, slots: seq<Slot>, whole: seq<byte>)
    requires slots != [] && done + Payload(slots) == whole
    ensures done + Block(slots[0].page, slots[..FirstRun(slots)]) + Payload(slots[FirstRun(slots)..]) == whole
  {
  }

  /** The base-relocation loop of the linker; `rest` is what lies behind its cursor. */
  method WritePayload(slots: seq<Slot>) returns (payload: seq<byte>)
    ensures payload == Payload(slots)
  {
    payload := [];
    var rest := slots;
    while rest != []
      invariant payload + Payload(rest) == Payload(slots)
      decreases |rest|
    {
      var block, n := WriteBlock(rest);
      Appended(payload, rest, Payload(slots));
      payload := payload + block;
      rest := rest[n..];
    }
  }

  // ---------- the sorted list ----------

  /** By page, then by offset in the page, then by type. */
  predicate RelocLess(a: BaseReloc, b: BaseReloc) {
    var x, y := SlotOf(a), SlotOf(b);
    if x.page != y.page then x.page < y.page else if x.offset != y.offset then x.offset < y.offset else x.kind < y.kind
  }

  function SortRelocs(rs: seq<BaseReloc>): seq<BaseReloc> {
    Sort(rs, (a: BaseReloc, b: BaseReloc) => RelocLess(a, b))
  }

  lemma RelocOrder()
    ensures StrictWeak((a: BaseReloc, b: BaseReloc) => RelocLess(a, b))
  {
  }

  lemma SplitJoins(r: BaseReloc)
    requires Encodable(r)
    ensures Storable(SlotOf(r)) && RelocOf(SlotOf(r)) == r
  {
  }

  lemma SplitsJoin(rs: seq<BaseReloc>)
    requires AllEncodable(rs)
    ensures AllStorable(SlotsOf(rs)) && RelocsOf(SlotsOf(rs)) == rs
  {
    forall i | 0 <= i < |rs| ensures Storable(SlotsOf(rs)[i]) && RelocsOf(SlotsOf(rs))[i] == rs[i] {
      SplitJoins(rs[i]);
    }
  }

  /** The .reloc section the linker writes for these relocations, and what the loader reads from one. */
  function RelocSection(rs: seq<BaseReloc>): seq<byte> {
    Payload(SlotsOf(SortRelocs(rs)))
  }

  function LoaderReads(section: seq<byte>): Option<seq<BaseReloc>> {
    match DecodeBlocks(section)
    case None => None
    case Some(slots) => Some(RelocsOf(slots))
  }

  /** By address, and by type where addresses are equal. */
  ghost predicate Ascending(rs: seq<BaseReloc>) {
    forall i, j :: 0 <= i < j < |rs| ==> rs[i].rva < rs[j].rva || (rs[i].rva == rs[j].rva && rs[i].kind <= rs[j].kind)
  }

  lemma LessIsLower(a: BaseReloc, b: BaseReloc)
    ensures RelocLess(a, b) <==> a.rva < b.rva || (a.rva == b.rva && a.kind < b.kind)
  {
  }

  lemma SortedRelocs(rs: seq<BaseReloc>)
    requires AllEncodable(rs)
    ensures multiset(SortRelocs(rs)) == multiset(rs) && |SortRelocs(rs)| == |rs| && AllEncodable(SortRelocs(rs))
    ensures Ascending(SortRelocs(rs))
  {
    var less := (a: BaseReloc, b: BaseReloc) => RelocLess(a, b);
    RelocOrder();
    SortIsSorted(rs, less);
    SortMembers(rs, less);
    var sorted := Sort(rs, less);
    forall i | 0 <= i < |sorted| ensures Encodable(sorted[i]) { assert sorted[i] in sorted; }
    forall i, j | 0 <= i < j < |rs|
      ensures sorted[i].rva < sorted[j].rva || (sorted[i].rva == sorted[j].rva && sorted[i].kind <= sorted[j].kind) {
      assert !less(sorted[j], sorted[i]);
      LessIsLower(sorted[j], sorted[i]);
    }
  }

  /**
   What the loader reads from the written section is the sorted list of exactly these
   relocations, and the section never exceeds the twelve bytes reserved for each.
   */
  lemma RelocSectionRoundTrip(rs: seq<BaseReloc>)
    requires AllEncodable(rs) && 12 * |rs| < 0x1_0000_0000
    ensures LoaderReads(RelocSection(rs)) == Some(SortRelocs(rs)) && multiset(SortRelocs(rs)) == multiset(rs)
    ensures Ascending(SortRelocs(rs)) && |RelocSection(rs)| <= 12 * |rs| && |RelocSection(rs)| % 4 == 0
  {
    SortedRelocs(rs);
    SplitsJoin(SortRelocs(rs));
    PayloadRoundTrip(SlotsOf(SortRelocs(rs)));
    PayloadSize(SlotsOf(SortRelocs(rs)));
  }
}
