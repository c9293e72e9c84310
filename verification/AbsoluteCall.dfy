/** Where moving an image and linking it again differ: a call to an absolute address. */
module AbsoluteCall {
  import opened Basics
  import opened Bytes
  import opened Targets
  import opened Fields
  import opened Relocate
  import opened Rebase

  /** Four bytes of code. */
  function Code(): Sections {
    [[0, 0, 0, 0]]
  }

  function Rvas(): seq<int> {
    [0x1000]
  }

  /** They hold the distance to address 0x2000. */
  function Call(): seq<Fix> {
    [Fix(0, 0, RelRel32, AbsoluteTarget(0x2000))]
  }

  lemma ZeroAddend()
    ensures Decode([0, 0, 0, 0]) == 0
  {
    assert Decode([0]) == 0 && Decode([0, 0]) == 0 && Decode([0, 0, 0]) == 0;
  }

  /** At a small base the distance fits the field. */
  lemma CallLinks(base: int) returns (linked: Sections)
    requires 0 <= base <= 0x10_0000
    ensures AllFixOk(Rvas(), Call()) && Relocated(Code(), Rvas(), base, Call()) == Ok(linked)
  {
    var fix := Call()[0];
    ZeroAddend();
    assert Field(Code(), 0, 0, 4) == [0, 0, 0, 0];
    assert Rel32Value(Rvas(), base, fix, 0) == 0x2000 - (base + 0x1004);
    var p := PatchOf(Code(), Rvas(), base, fix).value;
    linked := Apply(Code(), p);
    assert Call()[1..] == [];
  }

  /**
   No base relocation covers the call. So an image linked at 0 and moved to 0x10000 keeps the
   distance from 0, and is not the image linked at 0x10000.
   */
  lemma MovedIsNotRelinked() returns (linked: Sections, target: Sections, moved: Sections)
    ensures Mapped(Code(), Rvas()) && AllFixOk(Rvas(), Call()) && FieldsDisjoint(Call())
    ensures Relocated(Code(), Rvas(), 0, Call()) == Ok(linked)
    ensures Relocated(Code(), Rvas(), 0x1_0000, Call()) == Ok(target)
    ensures |linked| == 1 && Rebased(linked, Rvas(), 0x1_0000, Emitted(Rvas(), Call())) == Ok(moved) && moved != target
  {
    linked := CallLinks(0);
    target := CallLinks(0x1_0000);
    assert BaseDependent(Call()[0]);
    var relocs := Emitted(Rvas(), Call());
    moved := RebaseEquivalence(Code(), Rvas(), 0, 0x1_0000, 0x1_0000, false, Call(), relocs, linked, target);
  }
}
