/** The .dlinfo file: PartStatus structures stored back to back, 32 bytes each. */
module RecordFile {
  import opened Bytes
  import opened Parts
  import opened Download

  const RECORD_SIZE: nat := 32

  /** A PartStatus in memory: a 32-bit id, four bytes of padding, then offset, rest, size. */
  function EncodePart(p: Part): (bs: seq<byte>)
    ensures |bs| == RECORD_SIZE
  {
    LittleEndian(p.id, 4) + [0, 0, 0, 0] + LittleEndian(p.offset, 8) + LittleEndian(p.rest, 8) + LittleEndian(p.size, 8)
  }

  function DecodePart(bs: seq<byte>): Part
    requires |bs| == RECORD_SIZE
  {
    Part(FromLittleEndian(bs[..4]), FromLittleEndian(bs[8..16]),
         FromLittleEndian(bs[16..24]), FromLittleEndian(bs[24..]))
  }

  /** Where a PartStatus keeps its fields. */
  lemma RecordFields(p: Part)
    requires Storable(p)
    ensures var bs := EncodePart(p);
            && FromLittleEndian(bs[..4]) == p.id && FromLittleEndian(bs[8..16]) == p.offset
            && FromLittleEndian(bs[16..24]) == p.rest && FromLittleEndian(bs[24..]) == p.size
  {
    Ranges();
    LittleEndianRoundTrip(p.id, 4);
    LittleEndianRoundTrip(p.offset, 8);
    LittleEndianRoundTrip(p.rest, 8);
    LittleEndianRoundTrip(p.size, 8);
    hide LittleEndian, FromLittleEndian, Range;
    Fields(LittleEndian(p.id, 4), [0, 0, 0, 0], LittleEndian(p.offset, 8), LittleEndian(p.rest, 8),
           LittleEndian(p.size, 8));
  }

  /** The fields fit their types. */
  predicate Storable(p: Part) { p.id < TWO32 && p.offset < TWO64 && p.rest < TWO64 && p.size < TWO64 }

  lemma Fields(a: seq<byte>, pad: seq<byte>, b: seq<byte>, c: seq<byte>, d: seq<byte>)
    requires |a| == |pad| == 4 && |b| == |c| == |d| == 8
    ensures var bs := a + pad + b + c + d;
            bs[..4] == a && bs[8..16] == b && bs[16..24] == c && bs[24..] == d
  {
  }

  lemma PartRoundTrip(p: Part)
    requires Storable(p)
    ensures DecodePart(EncodePart(p)) == p
  {
    hide EncodePart, FromLittleEndian;
    RecordFields(p);
  }

  /** The file for a list of parts. */
  function Save(ps: seq<Part>): (f: seq<byte>)
    ensures |f| == RECORD_SIZE * |ps|
  {
    if ps == [] then [] else Save(ps[..|ps| - 1]) + EncodePart(ps[|ps| - 1])
  }

  /** The resume loop: every whole record, in order; a trailing fragment is ignored. */
  function Load(f: seq<byte>): (ps: seq<Part>)
    ensures |ps| == |f| / RECORD_SIZE
  {
    seq(|f| / RECORD_SIZE, i requires 0 <= i < |f| / RECORD_SIZE =>
      DecodePart(f[i * RECORD_SIZE..i * RECORD_SIZE + RECORD_SIZE]))
  }

  lemma {:induction false} RecordAt(ps: seq<Part>, i: nat)
    requires i < |ps|
    ensures Save(ps)[i * RECORD_SIZE..i * RECORD_SIZE + RECORD_SIZE] == EncodePart(ps[i])
  {
    var init := ps[..|ps| - 1];
    if i < |ps| - 1 {
      RecordAt(init, i);
      assert Save(ps)[i * RECORD_SIZE..i * RECORD_SIZE + RECORD_SIZE]
          == Save(init)[i * RECORD_SIZE..i * RECORD_SIZE + RECORD_SIZE];
    }
  }

  lemma {:induction false} SavePrefix(ps: seq<Part>, k: nat)
    requires k <= |ps|
    ensures Save(ps)[..k * RECORD_SIZE] == Save(ps[..k])
  {
    if k == |ps| {
      assert ps[..k] == ps;
    } else {
      var init := ps[..|ps| - 1];
      SavePrefix(init, k);
      assert init[..k] == ps[..k];
      assert Save(ps)[..k * RECORD_SIZE] == Save(init)[..k * RECORD_SIZE];
    }
  }

  /** If only the first m bytes of what was saved reached the disk, exactly the whole records
      among them come back. */
  lemma SaveLoad(ps: seq<Part>, m: nat)
    requires forall p :: p in ps ==> Storable(p)
    requires m <= |Save(ps)|
    ensures Load(Save(ps)[..m]) == ps[..m / RECORD_SIZE]
  {
    var f := Save(ps)[..m];
    forall i | 0 <= i < m / RECORD_SIZE
      ensures Load(f)[i] == ps[i]
    {
      RecordAt(ps, i);
      PartRoundTrip(ps[i]);
      assert f[i * RECORD_SIZE..i * RECORD_SIZE + RECORD_SIZE]
          == Save(ps)[i * RECORD_SIZE..i * RECORD_SIZE + RECORD_SIZE];
    }
  }

  /** Loading what was saved gives the records back. */
  lemma SaveLoadWhole(ps: seq<Part>)
    requires forall p :: p in ps ==> Storable(p)
    ensures Load(Save(ps)) == ps
  {
    hide Save, Load, Storable;
    SaveLoad(ps, |Save(ps)|);
    WholeSlices(Save(ps), ps);
    CountBack(|ps|);
  }

  lemma CountBack(n: nat)
    ensures RECORD_SIZE * n / RECORD_SIZE == n
  {
  }

  lemma WholeSlices<A, B>(xs: seq<A>, ys: seq<B>)
    ensures xs[..|xs|] == xs && ys[..|ys|] == ys
  {
  }

  lemma LayoutStorable(ps: seq<Part>, total: nat)
    requires total <= MAX_SIZE && Layout(ps, total)
    ensures forall p :: p in ps ==> Storable(p)
  {
    CountFitsIff(total);
    forall p | p in ps ensures Storable(p) {
      var i :| 0 <= i < |ps| && ps[i] == p;
    }
  }

  /** A resumed download covers the whole file exactly when the first write of the record
      file was complete. */
  lemma TornFileIff(total: nat, m: nat)
    requires total <= MAX_SIZE && m <= |Save(Partition(total))|
    ensures Layout(Load(Save(Partition(total))[..m]), total) <==> m == |Save(Partition(total))|
  {
    var ps := Partition(total);
    PartitionIsLayout(total);
    LayoutStorable(ps, total);
    hide Partition, Save, Load, Storable;
    SaveLoad(ps, m);
    if m == |Save(ps)| {
      assert ps[..|ps|] == ps;
    }
  }

  /** updateDownloadStatus: seeking to the part's own slot and writing its structure
      replaces exactly that part's record. */
  lemma SaveOne(ps: seq<Part>, i: nat, p: Part)
    requires i < |ps|
    ensures Splice(Save(ps), i * RECORD_SIZE, EncodePart(p)) == Save(ps[i := p])
  {
    var ps' := ps[i := p];
    var f, g, at := Save(ps), Save(ps'), i * RECORD_SIZE;
    SavePrefix(ps, i);
    SavePrefix(ps', i);
    assert ps'[..i] == ps[..i];
    RecordAt(ps', i);
    SaveSuffix(ps, i, p);
    assert g == g[..at] + g[at..at + RECORD_SIZE] + g[at + RECORD_SIZE..];
    assert Splice(f, at, EncodePart(p)) == f[..at] + EncodePart(p) + f[at + RECORD_SIZE..];
  }

  lemma {:induction false} SaveSuffix(ps: seq<Part>, i: nat, p: Part)
    requires i < |ps|
    ensures Save(ps[i := p])[(i + 1) * RECORD_SIZE..] == Save(ps)[(i + 1) * RECORD_SIZE..]
  {
    var ps' := ps[i := p];
    var init := ps[..|ps| - 1];
    if i < |ps| - 1 {
      SaveSuffix(init, i, p);
      assert ps'[..|ps| - 1] == init[i := p];
      assert Save(ps)[(i + 1) * RECORD_SIZE..] == Save(init)[(i + 1) * RECORD_SIZE..] + EncodePart(ps[|ps| - 1]);
    }
  }

  /** The file with the bytes of one record slot replaced. */
  function OverSlot(f: seq<byte>, i: nat, bs: seq<byte>): seq<byte>
    requires i * RECORD_SIZE + RECORD_SIZE <= |f|
  {
    f[..i * RECORD_SIZE] + bs + f[i * RECORD_SIZE + RECORD_SIZE..]
  }

  lemma OneSlot(ps: seq<Part>, i: nat, p: Part)
    requires i < |ps|
    ensures i * RECORD_SIZE + RECORD_SIZE <= |Save(ps)|
    ensures Splice(Save(ps), i * RECORD_SIZE, EncodePart(p)) == OverSlot(Save(ps), i, EncodePart(p))
  {
    hide Save, EncodePart;
  }
}
