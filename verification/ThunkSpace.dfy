/** Thunks start behind the bytes of .text, which can be short of its extent. */
module ThunkSpace {
  import opened Layout
  import opened Coff
  import opened ImportPlan
  import opened ImportThunks

  /** Some byte belongs both to contribution `i` and to a six-byte thunk at `offset`. */
  ghost predicate Overlaps(items: seq<Item>, i: nat, offset: int)
    requires AllOk(items) && i < |items|
  {
    items[i].size > 0 && OffsetOf(items, 0, i) < offset + 6 && offset < OffsetOf(items, 0, i) + items[i].size
  }

  /** A contribution reaches past the `code` bytes and begins before the thunks end. */
  ghost predicate TailInTheWay(items: seq<Item>, code: nat, end: int)
    requires AllOk(items)
  {
    exists i ::
      0 <= i < |items| && items[i].size > 0 && OffsetOf(items, 0, i) < end
        && Even(code) < OffsetOf(items, 0, i) + items[i].size
  }

  /** A contribution that shares a byte with a thunk is such a tail. */
  lemma OverlapIsTail(items: seq<Item>, code: nat, text: seq<byte>, imports: seq<Import>, offsets: seq<int>, i: nat,
          m: nat)
    requires AllOk(items) && Placed(text, imports, offsets, |imports|, code)
    requires i < |items| && m < |imports| && imports[m].isCode && Overlaps(items, i, offsets[m])
    ensures TailInTheWay(items, code, |text|)
  {
    assert IsThunk(text, offsets[m]) && Even(code) <= offsets[m];
  }

  /** And such a tail shares a byte with some thunk, as thunks leave no gaps. */
  lemma TailOverlaps(items: seq<Item>, code: nat, text: seq<byte>, imports: seq<Import>, offsets: seq<int>)
    returns (i: nat, m: nat)
    requires AllOk(items) && Placed(text, imports, offsets, |imports|, code)
    requires Filled(text, imports, offsets, |imports|, code)
    requires (exists m :: 0 <= m < |imports| && imports[m].isCode) && TailInTheWay(items, code, |text|)
    ensures i < |items| && m < |imports| && imports[m].isCode && Overlaps(items, i, offsets[m])
  {
    i :| 0 <= i < |items| && items[i].size > 0 && OffsetOf(items, 0, i) < |text|
      && Even(code) < OffsetOf(items, 0, i) + items[i].size;
    var some :| 0 <= some < |imports| && imports[some].isCode;
    assert IsThunk(text, offsets[some]) && code <= offsets[some];
    var at := if OffsetOf(items, 0, i) < Even(code) then Even(code) else OffsetOf(items, 0, i);
    assert Thunked(imports, offsets, |imports|, at);
    m :| 0 <= m < |imports| && InThunk(imports, offsets, m, at);
  }
}
