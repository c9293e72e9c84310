/**
 What relocated fields mean when the image runs: the address that a processor or the runtime
 computes from a field is the address of the target plus the addend that was in the field.
 */
module FieldMeaning {
  import opened Basics
  import opened Coff
  import opened Bytes
  import opened Fields
  import opened Relocate
  import opened Targets
  import opened Rebase
  import opened BaseRelocs

  /** The address of a target in an image loaded at `base`. */
  function AddressOf(rvas: seq<int>, base: int, t: Target): int
    requires TargetOk(|rvas|, t)
  {
    match t
    case SectionTarget(a) => base + rvas[a.output] + a.offset
    case ImageBaseTarget => base
    case AbsoluteTarget(value) => value
  }

  /** The end of an instruction whose REL32 field is followed by kind - 4 more bytes: REL32_1 to REL32_5 are 5 to 9. */
  function NextInstruction(rvas: seq<int>, base: int, fix: Fix): int
    requires fix.section < |rvas|
  {
    base + rvas[fix.section] + fix.offset + 4 + (fix.kind - 4)
  }

  /** The bytes a relocation of this type patches. */
  function FieldWidth(kind: int): nat {
    match kind
    case 1 => 8
    case 10 => 2
    case _ => 4
  }

  /**
   The field `bytes` designates the target plus the addend `found`. The types are those of the
   AMD64 COFF format: 1 is ADDR64, 2 is ADDR32, 3 is ADDR32NB, 4 to 9 are REL32 to REL32_5, 10 is
   SECTION and 11 is SECREL.
   */
  predicate Designates(rvas: seq<int>, base: int, fix: Fix, found: seq<byte>, bytes: seq<byte>)
    requires FixOk(rvas, fix)
  {
    var target, addend, value := AddressOf(rvas, base, fix.target), Decode(found), Decode(bytes);
    |found| == |bytes| == FieldWidth(fix.kind) &&
    if 4 <= fix.kind <= 9 then
      (NextInstruction(rvas, base, fix) + Signed(value, 0x1_0000_0000)) % 0x1_0000_0000_0000_0000 ==
        (target + Signed(addend, 0x1_0000_0000)) % 0x1_0000_0000_0000_0000
    else if fix.kind == 1 || fix.kind == 2 then value == (target + addend) % 0x1_0000_0000_0000_0000
    else if fix.kind == 3 then (base + value) % 0x1_0000_0000 == (target + addend) % 0x1_0000_0000
    else if fix.kind == 11 && fix.target.SectionTarget? then
      (base + rvas[fix.target.address.output] + value) % 0x1_0000_0000 == (target + addend) % 0x1_0000_0000
    else if fix.kind == 11 then value == (target + addend) % 0x1_0000_0000
    else fix.kind == 10 && value == SectionIndex(|rvas|, fix.target) % 0x1_0000
  }

  /** Output sections are numbered from one; a target outside all of them has the number behind the last. */
  function SectionIndex(outputs: nat, t: Target): nat {
    if t.SectionTarget? then t.address.output + 1 else outputs + 1
  }

  lemma VaIsAddress(rvas: seq<int>, base: int, t: Target, addend: int)
    requires TargetOk(|rvas|, t)
    ensures (TargetVa(rvas, base, t) + addend) % 0x1_0000_0000_0000_0000 ==
      (AddressOf(rvas, base, t) + addend) % 0x1_0000_0000_0000_0000
  {
    if t.SectionTarget? {
      var a := AddressOf(rvas, base, t);
      ModMod(a, 0x1_0000_0000_0000_0000);
      CongruentSum(a % 0x1_0000_0000_0000_0000, a, addend, addend, 0x1_0000_0000_0000_0000);
    }
  }

  lemma Rel32Designates(rvas: seq<int>, base: int, fix: Fix, found: seq<byte>)
    requires FixOk(rvas, fix) && |found| == Width(fix.kind) && IsRel32(fix.kind) && NewBytes(rvas, base, fix, found).Ok?
    ensures Designates(rvas, base, fix, found, NewBytes(rvas, base, fix, found).value)
  {
    var addend := Decode(found);
    var v, next := Rel32Value(rvas, base, fix, addend), NextInstruction(rvas, base, fix);
    var reached := AddressOf(rvas, base, fix.target) + Signed(addend, 0x1_0000_0000);
    SignedWord(v);
    Rel32Congruent(rvas, base, fix, addend);
    CongruentSum(v, reached - next, next, next, 0x1_0000_0000_0000_0000);
  }

  /** The low 32 bits of `x + value` when `value` was stored as the low 32 bits of `y`. */
  lemma Narrow(x: int, y: int)
    ensures (x + Decode(Encode(y, 4))) % 0x1_0000_0000 == (x + y) % 0x1_0000_0000
  {
    DecodeEncode(y, 4);
    Widths();
    ModMod(y, 0x1_0000_0000);
    CongruentSum(x, x, y % 0x1_0000_0000, y, 0x1_0000_0000);
  }

  lemma AbsoluteDesignates(rvas: seq<int>, base: int, fix: Fix, found: seq<byte>)
    requires FixOk(rvas, fix) && |found| == Width(fix.kind) && NewBytes(rvas, base, fix, found).Ok?
    requires fix.kind == RelAddr64 || fix.kind == RelAddr32
    ensures Designates(rvas, base, fix, found, NewBytes(rvas, base, fix, found).value)
  {
    var sum := TargetVa(rvas, base, fix.target) + Decode(found);
    VaIsAddress(rvas, base, fix.target, Decode(found));
    Widths();
    if fix.kind == RelAddr64 { DecodeEncode(sum, 8); } else { Word32(sum % 0x1_0000_0000_0000_0000); }
  }

  lemma ImageRelativeDesignates(rvas: seq<int>, base: int, fix: Fix, found: seq<byte>)
    requires FixOk(rvas, fix) && |found| == Width(fix.kind) && NewBytes(rvas, base, fix, found).Ok?
    requires fix.kind == RelAddr32Nb
    ensures Designates(rvas, base, fix, found, NewBytes(rvas, base, fix, found).value)
  {
    Narrow(base, TargetRva(rvas, fix.target) + Decode(found));
  }

  lemma SectionRelativeDesignates(rvas: seq<int>, base: int, fix: Fix, found: seq<byte>)
    requires FixOk(rvas, fix) && |found| == Width(fix.kind) && NewBytes(rvas, base, fix, found).Ok?
    requires fix.kind == RelSecRel || fix.kind == RelSection
    ensures Designates(rvas, base, fix, found, NewBytes(rvas, base, fix, found).value)
  {
    var t, addend := fix.target, Decode(found);
    Widths();
    if fix.kind == RelSection {
      DecodeEncode(SectionIndex(|rvas|, t), 2);
    } else if t.SectionTarget? {
      Narrow(base + rvas[t.address.output], t.address.offset + addend);
    } else {
      DecodeEncode(SectionOffset(base, t) + addend, 4);
    }
  }

  /** Every kind of relocation leaves a field that designates its target. */
  lemma FieldDesignates(rvas: seq<int>, base: int, fix: Fix, found: seq<byte>)
    requires FixOk(rvas, fix) && |found| == Width(fix.kind) && NewBytes(rvas, base, fix, found).Ok?
    ensures Designates(rvas, base, fix, found, NewBytes(rvas, base, fix, found).value)
  {
    if IsRel32(fix.kind) {
      Rel32Designates(rvas, base, fix, found);
    } else if fix.kind == RelAddr64 || fix.kind == RelAddr32 {
      AbsoluteDesignates(rvas, base, fix, found);
    } else if fix.kind == RelAddr32Nb {
      ImageRelativeDesignates(rvas, base, fix, found);
    } else {
      SectionRelativeDesignates(rvas, base, fix, found);
    }
  }

  /** The representative of `v` among the signed words of this modulus. */
  ghost predicate SignedIs(v: int, modulus: int, w: int)
    requires modulus > 0
  {
    -modulus <= 2 * w < modulus && w % modulus == v % modulus
  }

  lemma SignedOnce(v: int, w: int)
    ensures SignedIs(v, 0x1_0000_0000_0000_0000, w) <==> w == Signed(v, 0x1_0000_0000_0000_0000)
    ensures SignedIs(v, 0x1_0000_0000, w) <==> w == Signed(v, 0x1_0000_0000)
  {
  }

  /**
   When a field can hold its value: REL32 needs a signed 32-bit distance between the addresses as
   signed 64-bit numbers, ADDR32 an address below 4 GiB, ADDR32NB a target inside the image, and
   the other types always fit. Any other type is an error.
   */
  ghost predicate InReach(rvas: seq<int>, base: int, fix: Fix, found: seq<byte>)
    requires FixOk(rvas, fix)
  {
    var target, addend := AddressOf(rvas, base, fix.target), Decode(found);
    if 4 <= fix.kind <= 9 then
      exists to, from, more ::
        && SignedIs(target, 0x1_0000_0000_0000_0000, to)
        && SignedIs(NextInstruction(rvas, base, fix), 0x1_0000_0000_0000_0000, from)
        && SignedIs(addend, 0x1_0000_0000, more)
        && -0x8000_0000 <= to + more - from <= 0x7fff_ffff
    else if fix.kind == 2 then (target + addend) % 0x1_0000_0000_0000_0000 < 0x1_0000_0000
    else if fix.kind == 3 then !fix.target.AbsoluteTarget?
    else fix.kind == 1 || fix.kind == 10 || fix.kind == 11
  }

  lemma SignedVa(rvas: seq<int>, base: int, t: Target)
    requires TargetOk(|rvas|, t)
    ensures Signed(TargetVa(rvas, base, t), 0x1_0000_0000_0000_0000) ==
      Signed(AddressOf(rvas, base, t), 0x1_0000_0000_0000_0000)
  {
    ModMod(AddressOf(rvas, base, t), 0x1_0000_0000_0000_0000);
  }

  /** A relocation is an error exactly when its field cannot hold the value. */
  lemma FieldFits(rvas: seq<int>, base: int, fix: Fix, found: seq<byte>)
    requires FixOk(rvas, fix) && |found| == Width(fix.kind)
    ensures NewBytes(rvas, base, fix, found).Ok? <==> InReach(rvas, base, fix, found)
  {
    if 4 <= fix.kind <= 9 {
      var target, next, addend := AddressOf(rvas, base, fix.target), NextInstruction(rvas, base, fix), Decode(found);
      var to, from := Signed(target, 0x1_0000_0000_0000_0000), Signed(next, 0x1_0000_0000_0000_0000);
      var more := Signed(addend, 0x1_0000_0000);
      SignedVa(rvas, base, fix.target);
      assert Rel32Value(rvas, base, fix, addend) == to + more - from;
      SignedOnce(target, to);
      SignedOnce(next, from);
      SignedOnce(addend, more);
      forall t, f, m | SignedIs(target, 0x1_0000_0000_0000_0000, t) && SignedIs(next, 0x1_0000_0000_0000_0000, f)
        && SignedIs(addend, 0x1_0000_0000, m) ensures t == to && f == from && m == more {
        SignedOnce(target, t);
        SignedOnce(next, f);
        SignedOnce(addend, m);
      }
    } else if fix.kind == 2 {
      VaIsAddress(rvas, base, fix.target, Decode(found));
    }
  }

  /**
   In a linked image whose fields are disjoint, every field designates its own target plus the
   addend of the input section, whatever was relocated before and after it.
   */
  lemma ImageDesignates(d: Sections, rvas: seq<int>, base: int, fixes: seq<Fix>, linked: Sections, i: nat)
    requires AllFixOk(rvas, fixes) && FieldsDisjoint(fixes) && Relocated(d, rvas, base, fixes) == Ok(linked)
    requires i < |fixes|
    ensures var fix := fixes[i]; var width := Width(fix.kind);
      && InBounds(d, fix.section, fix.offset, width) && InBounds(linked, fix.section, fix.offset, width)
      && Designates(rvas, base, fix, Field(d, fix.section, fix.offset, width),
        Field(linked, fix.section, fix.offset, width))
  {
    var fix := fixes[i];
    RelocatedIsPatched(d, rvas, base, fixes);
    var ps := Patches(d, rvas, base, fixes);
    PatchesDisjoint(d, rvas, base, fixes);
    assert PatchOf(d, rvas, base, fix) == Ok(ps[i]);
    FieldHit(d, ps, i);
    FieldDesignates(rvas, base, fix, Field(d, fix.section, fix.offset, Width(fix.kind)));
  }

  /** With disjoint fields relocation fails exactly when a field lies outside its section or cannot hold its value. */
  lemma RelocatesIff(d: Sections, rvas: seq<int>, base: int, fixes: seq<Fix>)
    requires AllFixOk(rvas, fixes) && FieldsDisjoint(fixes)
    ensures Relocated(d, rvas, base, fixes).Ok? <==>
      forall i :: 0 <= i < |fixes| ==> var fix := fixes[i]; var width := FieldWidth(fix.kind);
        && InBounds(d, fix.section, fix.offset, width)
        && InReach(rvas, base, fix, Field(d, fix.section, fix.offset, width))
  {
    RelocatedIsPatched(d, rvas, base, fixes);
    forall i | 0 <= i < |fixes| && InBounds(d, fixes[i].section, fixes[i].offset, Width(fixes[i].kind))
      ensures PatchOf(d, rvas, base, fixes[i]).Ok? <==>
        InReach(rvas, base, fixes[i], Field(d, fixes[i].section, fixes[i].offset, Width(fixes[i].kind))) {
      FieldFits(rvas, base, fixes[i], Field(d, fixes[i].section, fixes[i].offset, Width(fixes[i].kind)));
    }
  }

  /**
   The base relocations of an image: one for each ADDR64 (as DIR64, 10) and each ADDR32 (as
   HIGHLOW, 3) against anything but an absolute symbol, at the RVA of its field.
   */
  lemma {:induction false} BaseRelocsAre(rvas: seq<int>, fixes: seq<Fix>, r: BaseReloc)
    requires AllFixOk(rvas, fixes)
    ensures r in Emitted(rvas, fixes) <==>
      exists i :: 0 <= i < |fixes| && Moves(rvas, fixes[i], r)
  {
    if fixes != [] {
      var front, last := fixes[..|fixes| - 1], fixes[|fixes| - 1];
      BaseRelocsAre(rvas, front, r);
      assert forall i :: 0 <= i < |front| ==> front[i] == fixes[i];
      if r in Emitted(rvas, front) {
        var i :| 0 <= i < |front| && Moves(rvas, front[i], r);
        assert Moves(rvas, fixes[i], r);
      }
      if i :| 0 <= i < |fixes| && Moves(rvas, fixes[i], r) {
        assert i < |front| ==> Moves(rvas, front[i], r);
      }
    }
  }

  ghost predicate Moves(rvas: seq<int>, fix: Fix, r: BaseReloc)
    requires fix.section < |rvas|
  {
    && !fix.target.AbsoluteTarget? && (fix.kind == 1 || fix.kind == 2) && r.kind == (if fix.kind == 1 then 10 else 3)
    && r.rva == (rvas[fix.section] + fix.offset) % 0x1_0000_0000
  }

  /** Bytes outside the relocated fields are those of the input. */
  lemma OtherBytesStay(d: Sections, rvas: seq<int>, base: int, fixes: seq<Fix>, linked: Sections, section: nat, at: int)
    requires AllFixOk(rvas, fixes) && FieldsDisjoint(fixes) && Relocated(d, rvas, base, fixes) == Ok(linked)
    requires section < |d| && 0 <= at < |d[section]|
    requires forall i :: 0 <= i < |fixes| && fixes[i].section == section ==>
      !(fixes[i].offset <= at < fixes[i].offset + Width(fixes[i].kind))
    ensures section < |linked| && |linked[section]| == |d[section]| && linked[section][at] == d[section][at]
  {
    RelocatedIsPatched(d, rvas, base, fixes);
    var ps := Patches(d, rvas, base, fixes);
    forall k | 0 <= k < |ps| ensures !Covers(ps[k], section, at) {
      assert PatchOf(d, rvas, base, fixes[k]) == Ok(ps[k]);
    }
    Missed(d, ps, section, at);
  }
}
