/** Code-import thunks: six-byte indirect jumps through the import address table. */
module ImportThunks {
  import opened Basics
  import opened Coff
  import opened Bytes
  import opened ImportPlan

  /** `jmp qword ptr [rip + disp32]` at this offset. */
  predicate IsThunk(text: seq<byte>, offset: int) {
    0 <= offset && offset + 6 <= |text| && text[offset] == 0xFF && text[offset + 1] == 0x25
  }

  /** The RVA such a jump loads its target from. */
  function LoadsFrom(text: seq<byte>, rva: int, offset: int): int
    requires IsThunk(text, offset)
  {
    rva + offset + 6 + Signed(Decode(Get(text, offset + 2, 4)), 0x1_0000_0000)
  }

  /** Thunks of the first `n` imports: in order, even, behind each other and behind the `from` bytes of code. */
  ghost predicate Placed(text: seq<byte>, imports: seq<Import>, offsets: seq<int>, n: nat, from: nat) {
    && n <= |imports| && |offsets| == n && from <= |text|
    && (forall m :: 0 <= m < n && imports[m].isCode ==>
          from <= offsets[m] && offsets[m] % 2 == 0 && IsThunk(text, offsets[m]))
    && (forall m, k :: 0 <= m < k < n && imports[m].isCode && imports[k].isCode ==> offsets[m] + 6 <= offsets[k])
  }

  /** Byte `at` belongs to the thunk of import `m`. */
  predicate InThunk(imports: seq<Import>, offsets: seq<int>, m: int, at: int) {
    0 <= m < |imports| && m < |offsets| && imports[m].isCode && offsets[m] <= at < offsets[m] + 6
  }

  /** The thunks of the first `n` imports fill the bytes behind the code, up to one byte of alignment. */
  ghost predicate Filled(text: seq<byte>, imports: seq<Import>, offsets: seq<int>, n: nat, from: nat) {
    |offsets| == n && forall at :: Even(from) <= at < |text| ==> Thunked(imports, offsets, n, at)
  }

  ghost predicate Thunked(imports: seq<Import>, offsets: seq<int>, n: nat, at: int) {
    exists m :: 0 <= m < n && InThunk(imports, offsets, m, at)
  }

  lemma FilledNext(text: seq<byte>, imports: seq<Import>, offsets: seq<int>, n: nat, from: nat)
    requires Filled(text, imports, offsets, n, from) && n < |imports| && imports[n].isCode && from <= |text|
    requires |text| == from || |text| % 2 == 0
    ensures Filled(Thunk(text), imports, offsets + [Even(|text|)], n + 1, from)
  {
    var next, count := offsets + [Even(|text|)], n + 1;
    forall at | Even(from) <= at < |Thunk(text)| ensures Thunked(imports, next, count, at) {
      if at < |text| {
        assert Thunked(imports, offsets, n, at);
        var m :| 0 <= m < n && InThunk(imports, offsets, m, at);
        assert InThunk(imports, next, m, at);
      } else {
        assert InThunk(imports, next, n, at);
      }
    }
  }

  lemma FilledSkip(text: seq<byte>, imports: seq<Import>, offsets: seq<int>, n: nat, from: nat)
    requires Filled(text, imports, offsets, n, from) && n < |imports|
    ensures Filled(text, imports, offsets + [-1], n + 1, from)
  {
    var next, count := offsets + [-1], n + 1;
    forall at | Even(from) <= at < |text| ensures Thunked(imports, next, count, at) {
      assert Thunked(imports, offsets, n, at);
      var m :| 0 <= m < n && InThunk(imports, offsets, m, at);
      assert InThunk(imports, next, m, at);
    }
  }

  function Thunk(text: seq<byte>): (r: seq<byte>)
    ensures text <= r && IsThunk(r, Even(|text|)) && |r| == Even(|text|) + 6
  {
    text + (if |text| % 2 == 0 then [] else [0]) + [0xFF, 0x25, 0, 0, 0, 0]
  }

  lemma PlacedNext(text: seq<byte>, imports: seq<Import>, offsets: seq<int>, n: nat, from: nat)
    requires Placed(text, imports, offsets, n, from) && n < |imports| && imports[n].isCode
    ensures Placed(Thunk(text), imports, offsets + [Even(|text|)], n + 1, from)
  {
    forall m | 0 <= m < n && imports[m].isCode ensures IsThunk(Thunk(text), offsets[m]) {
      assert IsThunk(text, offsets[m]);
    }
  }

  /** How many of the imports are code. */
  function CodeCount(imports: seq<Import>): nat {
    if imports == [] then 0 else CodeCount(imports[..|imports| - 1]) + if imports[|imports| - 1].isCode then 1 else 0
  }

  /** The length of the code with the thunks of these imports behind it. */
  function ThunksEnd(code: nat, imports: seq<Import>): int {
    if CodeCount(imports) == 0 then code else Even(code) + 6 * CodeCount(imports)
  }

  lemma ThunksEndNext(code: nat, imports: seq<Import>, n: nat)
    requires n < |imports|
    ensures ThunksEnd(code, imports[..n + 1]) ==
      if imports[n].isCode then Even(ThunksEnd(code, imports[..n])) + 6 else ThunksEnd(code, imports[..n])
  {
    assert imports[..n + 1][..n] == imports[..n];
  }

  /** The thunks of the first `n` imports behind the code. */
  ghost predicate ThunksUpTo(code: seq<byte>, text: seq<byte>, imports: seq<Import>, offsets: seq<int>, n: nat) {
    && code <= text && Placed(text, imports, offsets, n, |code|) && Filled(text, imports, offsets, n, |code|)
    && (text == code || |text| % 2 == 0) && |text| == ThunksEnd(|code|, imports[..n])
  }

  lemma ThunkNext(code: seq<byte>, text: seq<byte>, imports: seq<Import>, offsets: seq<int>, n: nat)
    requires ThunksUpTo(code, text, imports, offsets, n) && n < |imports| && imports[n].isCode
    ensures ThunksUpTo(code, Thunk(text), imports, offsets + [Even(|text|)], n + 1)
  {
    PlacedNext(text, imports, offsets, n, |code|);
    FilledNext(text, imports, offsets, n, |code|);
    ThunksEndNext(|code|, imports, n);
  }

  lemma NoThunkNext(code: seq<byte>, text: seq<byte>, imports: seq<Import>, offsets: seq<int>, n: nat)
    requires ThunksUpTo(code, text, imports, offsets, n) && n < |imports| && !imports[n].isCode
    ensures ThunksUpTo(code, text, imports, offsets + [-1], n + 1)
  {
    FilledSkip(text, imports, offsets, n, |code|);
    ThunksEndNext(|code|, imports, n);
  }

  /** Appends one thunk per code import; data imports get none. */
  method PlaceThunks(code: seq<byte>, imports: seq<Import>) returns (text: seq<byte>, offsets: seq<int>)
    ensures code <= text && Placed(text, imports, offsets, |imports|, |code|)
    ensures Filled(text, imports, offsets, |imports|, |code|) && |text| == ThunksEnd(|code|, imports)
  {
    text, offsets := code, [];
    for n := 0 to |imports|
      invariant ThunksUpTo(code, text, imports, offsets, n)
    {
      if imports[n].isCode {
        ThunkNext(code, text, imports, offsets, n);
        offsets := offsets + [Even(|text|)];
        text := Thunk(text);
      } else {
        NoThunkNext(code, text, imports, offsets, n);
        offsets := offsets + [-1];
      }
    }
    assert imports[..|imports|] == imports;
  }

  /** Some import is code exactly when the count is not zero. */
  lemma {:induction false} CodeCounted(imports: seq<Import>)
    ensures (exists m :: 0 <= m < |imports| && imports[m].isCode) <==> CodeCount(imports) > 0
  {
    if imports != [] {
      var front, last := imports[..|imports| - 1], |imports| - 1;
      CodeCounted(front);
      if CodeCount(front) > 0 {
        var m :| 0 <= m < |front| && front[m].isCode;
        assert imports[m].isCode;
      }
      if m :| 0 <= m < |imports| && imports[m].isCode {
        if m < last { assert front[m].isCode; }
      }
    }
  }

  /** Writing one displacement: this thunk loads from the slot, other bytes keep their value. */
  lemma Aimed(text: seq<byte>, rva: int, offset: int, slotRva: int)
    requires IsThunk(text, offset) && -0x8000_0000 <= slotRva - (rva + offset + 6) <= 0x7fff_ffff
    ensures var r := Put(text, offset + 2, Encode(slotRva - (rva + offset + 6), 4));
      && IsThunk(r, offset) && LoadsFrom(r, rva, offset) == slotRva
      && forall i :: 0 <= i < |text| && !(offset + 2 <= i < offset + 6) ==> r[i] == text[i]
  {
    var v := slotRva - (rva + offset + 6);
    var r := Put(text, offset + 2, Encode(v, 4));
    SignedWord(v);
    GetPut(text, offset + 2, Encode(v, 4));
    forall i | 0 <= i < |text| && !(offset + 2 <= i < offset + 6) ensures r[i] == text[i] {
      PutAt(text, offset + 2, Encode(v, 4), i);
    }
  }

  /** Patching the displacement of thunk `n` leaves the other thunks as they are. */
  lemma OthersStay(text: seq<byte>, text': seq<byte>, imports: seq<Import>, offsets: seq<int>, from: nat, rva: int,
          n: nat)
    requires Placed(text, imports, offsets, |imports|, from) && n < |imports| && imports[n].isCode && |text'| == |text|
    requires forall i :: 0 <= i < |text| && !(offsets[n] + 2 <= i < offsets[n] + 6) ==> text'[i] == text[i]
    ensures Placed(text', imports, offsets, |imports|, from)
    ensures forall m :: 0 <= m < |imports| && imports[m].isCode && m != n ==>
      LoadsFrom(text', rva, offsets[m]) == LoadsFrom(text, rva, offsets[m])
  {
    forall m | 0 <= m < |imports| && imports[m].isCode && m != n
      ensures IsThunk(text', offsets[m]) && LoadsFrom(text', rva, offsets[m]) == LoadsFrom(text, rva, offsets[m]) {
      SameThunk(text, text', rva, offsets[m]);
    }
  }

  /** Aims thunk `n` at its slot. */
  method AimThunk(text: seq<byte>, imports: seq<Import>, offsets: seq<int>, from: nat, rva: int, n: nat, slotRva: int)
    returns (r: seq<byte>)
    requires Placed(text, imports, offsets, |imports|, from) && n < |imports| && imports[n].isCode
    requires InReach(rva, offsets[n], slotRva)
    ensures |r| == |text| && r[..from] == text[..from] && Placed(r, imports, offsets, |imports|, from)
    ensures LoadsFrom(r, rva, offsets[n]) == slotRva
    ensures forall m :: 0 <= m < |imports| && imports[m].isCode && m != n ==>
      LoadsFrom(r, rva, offsets[m]) == LoadsFrom(text, rva, offsets[m])
  {
    var offset := offsets[n];
    Aimed(text, rva, offset, slotRva);
    r := Put(text, offset + 2, Encode(slotRva - (rva + offset + 6), 4));
    OthersStay(text, r, imports, offsets, from, rva, n);
  }

  /** Every code thunk jumps through its own slot; the code in front of the thunks is untouched. */
  method AimThunks(text: seq<byte>, imports: seq<Import>, offsets: seq<int>, from: nat, textRva: int, idataRva: int,
          slots: seq<int>)
    returns (r: Result<seq<byte>>)
    requires Placed(text, imports, offsets, |imports|, from) && |slots| == |imports|
    ensures r.Ok? <==>
      forall m :: 0 <= m < |imports| && imports[m].isCode ==> InReach(textRva, offsets[m], idataRva + slots[m])
    ensures r.Ok? ==> |r.value| == |text| && r.value[..from] == text[..from]
    ensures r.Ok? ==> Placed(r.value, imports, offsets, |imports|, from)
    ensures r.Ok? ==>
      forall m :: 0 <= m < |imports| && imports[m].isCode ==>
        LoadsFrom(r.value, textRva, offsets[m]) == idataRva + slots[m]
  {
    var data := text;
    for n := 0 to |imports|
      invariant |data| == |text| && data[..from] == text[..from]
      invariant Placed(data, imports, offsets, |imports|, from)
      invariant forall m :: 0 <= m < n && imports[m].isCode ==>
        InReach(textRva, offsets[m], idataRva + slots[m]) && LoadsFrom(data, textRva, offsets[m]) == idataRva + slots[m]
    {
      if imports[n].isCode {
        var slotRva := idataRva + slots[n];
        if !InReach(textRva, offsets[n], slotRva) { return Err("import thunk displacement overflow"); }
        data := AimThunk(data, imports, offsets, from, textRva, n, slotRva);
      }
    }
    r := Ok(data);
  }

  predicate InReach(textRva: int, offset: int, slotRva: int) {
    -0x8000_0000 <= slotRva - (textRva + offset + 6) <= 0x7fff_ffff
  }

  lemma SameThunk(text: seq<byte>, text': seq<byte>, rva: int, offset: int)
    requires IsThunk(text, offset) && |text| == |text'| && forall i :: offset <= i < offset + 6 ==> text'[i] == text[i]
    ensures IsThunk(text', offset) && LoadsFrom(text', rva, offset) == LoadsFrom(text, rva, offset)
  {
    assert Get(text', offset + 2, 4) == Get(text, offset + 2, 4);
  }
}
