/** Patching disjoint byte fields of several sections. */
module Fields {
  import opened Coff
  import opened Bytes

  type Sections = seq<seq<byte>>

  /** New bytes for one field of one section. */
  datatype Patch = Patch(section: nat, offset: int, bytes: seq<byte>)

  predicate InBounds(d: Sections, section: nat, offset: int, width: int) {
    section < |d| && 0 <= offset && offset + width <= |d[section]|
  }

  predicate Fits(d: Sections, p: Patch) {
    InBounds(d, p.section, p.offset, |p.bytes|)
  }

  ghost predicate AllFit(d: Sections, ps: seq<Patch>) {
    forall i :: 0 <= i < |ps| ==> Fits(d, ps[i])
  }

  function Apply(d: Sections, p: Patch): (r: Sections)
    requires Fits(d, p)
    ensures |r| == |d| && forall k :: 0 <= k < |d| ==> |r[k]| == |d[k]|
  {
    d[p.section := Put(d[p.section], p.offset, p.bytes)]
  }

  ghost function ApplyAll(d: Sections, ps: seq<Patch>): (r: Sections)
    requires AllFit(d, ps)
    ensures |r| == |d| && forall k :: 0 <= k < |d| ==> |r[k]| == |d[k]|
    decreases |ps|
  {
    if ps == [] then d else ApplyAll(Apply(d, ps[0]), ps[1..])
  }

  predicate Covers(p: Patch, section: int, i: int) {
    p.section == section && p.offset <= i < p.offset + |p.bytes|
  }

  /** No byte belongs to two patches. */
  ghost predicate Disjoint(ps: seq<Patch>) {
    forall j, k, s, i :: 0 <= j < |ps| && 0 <= k < |ps| && Covers(ps[j], s, i) && Covers(ps[k], s, i) ==> j == k
  }

  /** Bytes outside all patches keep their value. */
  lemma {:induction false} Missed(d: Sections, ps: seq<Patch>, s: int, i: int)
    requires AllFit(d, ps) && 0 <= s < |d| && 0 <= i < |d[s]|
    requires forall k :: 0 <= k < |ps| ==> !Covers(ps[k], s, i)
    ensures ApplyAll(d, ps)[s][i] == d[s][i]
    decreases |ps|
  {
    if ps != [] {
      if ps[0].section == s { PutAt(d[s], ps[0].offset, ps[0].bytes, i); }
      Missed(Apply(d, ps[0]), ps[1..], s, i);
    }
  }

  /** Bytes inside a patch take its value, whatever the order of the patches. */
  lemma {:induction false} Hit(d: Sections, ps: seq<Patch>, k: nat, i: int)
    requires AllFit(d, ps) && Disjoint(ps) && k < |ps| && Covers(ps[k], ps[k].section, i)
    ensures ApplyAll(d, ps)[ps[k].section][i] == ps[k].bytes[i - ps[k].offset]
    decreases |ps|
  {
    var d1 := Apply(d, ps[0]);
    if k == 0 {
      forall j | 0 <= j < |ps[1..]| ensures !Covers(ps[1..][j], ps[0].section, i) {
        assert ps[1..][j] == ps[j + 1];
      }
      PutAt(d[ps[0].section], ps[0].offset, ps[0].bytes, i);
      Missed(d1, ps[1..], ps[0].section, i);
    } else {
      assert ps[1..][k - 1] == ps[k];
      Hit(d1, ps[1..], k - 1, i);
    }
  }

  function Field(d: Sections, section: nat, offset: int, width: nat): seq<byte>
    requires InBounds(d, section, offset, width)
  {
    Get(d[section], offset, width)
  }

  lemma FieldIs(d: Sections, section: nat, offset: int, width: nat, bytes: seq<byte>)
    requires InBounds(d, section, offset, width) && |bytes| == width
    requires forall i :: offset <= i < offset + width ==> d[section][i] == bytes[i - offset]
    ensures Field(d, section, offset, width) == bytes
  {
  }

  /** Reading back a patched field. */
  lemma FieldHit(d: Sections, ps: seq<Patch>, k: nat)
    requires AllFit(d, ps) && Disjoint(ps) && k < |ps|
    ensures Fits(d, ps[k]) && Field(ApplyAll(d, ps), ps[k].section, ps[k].offset, |ps[k].bytes|) == ps[k].bytes
  {
    var p, r := ps[k], ApplyAll(d, ps);
    assert Fits(d, p);
    forall i | p.offset <= i < p.offset + |p.bytes| ensures r[p.section][i] == p.bytes[i - p.offset] {
      Hit(d, ps, k, i);
    }
    FieldIs(r, p.section, p.offset, |p.bytes|, p.bytes);
  }

  /** Reading a field that no patch touches. */
  lemma FieldMissed(d: Sections, ps: seq<Patch>, section: nat, offset: int, width: nat)
    requires AllFit(d, ps) && InBounds(d, section, offset, width)
    requires forall k, i :: 0 <= k < |ps| && offset <= i < offset + width ==> !Covers(ps[k], section, i)
    ensures Field(ApplyAll(d, ps), section, offset, width) == Field(d, section, offset, width)
  {
    var r := ApplyAll(d, ps);
    forall i | offset <= i < offset + width ensures r[section][i] == d[section][i] {
      Missed(d, ps, section, i);
    }
    FieldIs(r, section, offset, width, Field(d, section, offset, width));
  }
}
