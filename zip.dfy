/** The "stored" (uncompressed) ZIP archive writer of `exportAllZip`
    (app.js:888-980), following the PKWARE .ZIP File Format Specification:
    local file headers (section 4.3.7), central directory headers (section
    4.3.12) and the end of central directory record (section 4.3.16), all
    little-endian, with the CRC-32 of section 4.4.7. File names and contents
    arrive already encoded as bytes. */
module Zip {
  import opened Crc32

  /** The low 16 bits of a non-negative number, as `n & 0xffff` keeps them. */
  function Word16(n: nat): bv16
  {
    (n % 0x1_0000) as bv16
  }

  /** The low 32 bits of a non-negative number, as the 32-bit `&` and `>>` see it. */
  function Word32(n: nat): bv32
  {
    (n % 0x1_0000_0000) as bv32
  }

  /** `u16(n)`: the two bytes of a 16-bit word, least significant first. */
  function U16(w: bv16): (r: seq<bv8>)
    ensures |r| == 2
  {
    [(w & 0xFF) as bv8, ((w >> 8) & 0xFF) as bv8]
  }

  /** `u32(n)`: the four bytes of a 32-bit word, least significant first. */
  function U32(w: bv32): (r: seq<bv8>)
    ensures |r| == 4
  {
    [(w & 0xFF) as bv8, ((w >> 8) & 0xFF) as bv8, ((w >> 16) & 0xFF) as bv8, ((w >> 24) & 0xFF) as bv8]
  }

  /** Reading a little-endian 16-bit field. */
  function Le16(b: seq<bv8>): bv16
    requires |b| == 2
  {
    (b[0] as bv16) | ((b[1] as bv16) << 8)
  }

  /** Reading a little-endian 32-bit field. */
  function Le32(b: seq<bv8>): bv32
    requires |b| == 4
  {
    (b[0] as bv32) | ((b[1] as bv32) << 8) | ((b[2] as bv32) << 16) | ((b[3] as bv32) << 24)
  }

  /** A 16-bit field reads back as the word written. */
  lemma ReadU16(w: bv16)
    ensures Le16(U16(w)) == w
  {
  }

  /** A 32-bit field reads back as the word written. */
  lemma ReadU32(w: bv32)
    ensures Le32(U32(w)) == w
  {
  }

  /** `u16(n)` for a number: reading it back gives `n mod 2^16`. */
  lemma ReadU16OfNumber(n: nat)
    ensures Le16(U16(Word16(n))) == (n % 0x1_0000) as bv16
  {
    ReadU16(Word16(n));
  }

  /** `u32(n)` for a number: reading it back gives `n mod 2^32`. */
  lemma ReadU32OfNumber(n: nat)
    ensures Le32(U32(Word32(n))) == (n % 0x1_0000_0000) as bv32
  {
    ReadU32(Word32(n));
  }

  // ---------------------------------------------------------------------
  // `concat`

  /** The parts one after another. */
  function Flatten(parts: seq<seq<bv8>>): seq<bv8>
  {
    if parts == [] then [] else Flatten(parts[..|parts| - 1]) + parts[|parts| - 1]
  }

  /** The summed lengths of the parts: `arr.reduce((a,b)=>a+b.length,0)`. */
  function TotalLength(parts: seq<seq<bv8>>): nat
  {
    if parts == [] then 0 else TotalLength(parts[..|parts| - 1]) + |parts[|parts| - 1]|
  }

  lemma {:induction false} FlattenLength(parts: seq<seq<bv8>>)
    ensures |Flatten(parts)| == TotalLength(parts)
  {
    if parts != [] {
      FlattenLength(parts[..|parts| - 1]);
    }
  }

  lemma FlattenSnoc(parts: seq<seq<bv8>>, x: seq<bv8>)
    ensures Flatten(parts + [x]) == Flatten(parts) + x
  {
    assert (parts + [x])[..|parts|] == parts;
  }

  lemma {:induction false} FlattenAppend(p: seq<seq<bv8>>, q: seq<seq<bv8>>)
    ensures Flatten(p + q) == Flatten(p) + Flatten(q)
  {
    if q != [] {
      var q' := q[..|q| - 1];
      assert p + q == (p + q') + [q[|q| - 1]];
      assert q == q' + [q[|q| - 1]];
      FlattenAppend(p, q');
      FlattenSnoc(p + q', q[|q| - 1]);
      FlattenSnoc(q', q[|q| - 1]);
    } else {
      assert p + q == p;
    }
  }

  /** `out.set(a, p)`: copy `a` into `out` starting at `p`, leaving the rest. */
  method SetAt(out: array<bv8>, a: seq<bv8>, p: nat)
    requires p + |a| <= out.Length
    modifies out
    ensures out[..p] == old(out[..p])
    ensures out[p..p + |a|] == a
    ensures out[p + |a|..] == old(out[p + |a|..])
  {
    var j := 0;
    while j < |a|
      invariant 0 <= j <= |a|
      invariant out[..p] == old(out[..p])
      invariant out[p..p + j] == a[..j]
      invariant out[p + |a|..] == old(out[p + |a|..])
    {
      out[p + j] := a[j];
      j := j + 1;
    }
  }

  /** Part `k` fits after the parts before it: the copy loop's step. */
  lemma PartFits(parts: seq<seq<bv8>>, k: nat)
    requires k < |parts|
    ensures Flatten(parts[..k + 1]) == Flatten(parts[..k]) + parts[k]
    ensures |Flatten(parts[..k])| + |parts[k]| <= |Flatten(parts)|
  {
    FlattenSnoc(parts[..k], parts[k]);
    assert parts[..k + 1] == parts[..k] + [parts[k]];
    FlattenAppend(parts[..k + 1], parts[k + 1..]);
    assert parts[..k + 1] + parts[k + 1..] == parts;
  }

  /** `concat(arr)`: a fresh buffer of the summed length, each part copied in at
      the running position `p` (app.js:972-979). */
  method Concat(parts: seq<seq<bv8>>) returns (out: array<bv8>)
    ensures fresh(out)
    ensures out[..] == Flatten(parts)
  {
    var total := TotalLength(parts);
    FlattenLength(parts);
    out := new bv8[total];
    var p := 0;
    var k := 0;
    while k < |parts|
      invariant 0 <= k <= |parts|
      invariant p == |Flatten(parts[..k])| <= out.Length
      invariant out[..p] == Flatten(parts[..k])
    {
      PartFits(parts, k);
      SetAt(out, parts[k], p);
      assert out[..p + |parts[k]|] == out[..p] + out[p..p + |parts[k]|];
      p := p + |parts[k]|;
      k := k + 1;
    }
    assert parts[..k] == parts;
    assert out[..] == out[..p];
  }


  /** The summed length of the first `k + 1` parts. */
  lemma PrefixLength(parts: seq<seq<bv8>>, k: nat)
    requires k < |parts|
    ensures TotalLength(parts[..k + 1]) == TotalLength(parts[..k]) + |parts[k]|
  {
    assert parts[..k + 1][..k] == parts[..k];
  }

  /** Part `k` sits in the flattened parts right after the parts before it. */
  lemma PartAt(parts: seq<seq<bv8>>, k: nat)
    requires k < |parts|
    ensures TotalLength(parts[..k]) + |parts[k]| <= |Flatten(parts)|
    ensures Flatten(parts)[TotalLength(parts[..k])..TotalLength(parts[..k]) + |parts[k]|] == parts[k]
  {
    PartFits(parts, k);
    FlattenLength(parts[..k]);
    FlattenAppend(parts[..k + 1], parts[k + 1..]);
    assert parts[..k + 1] + parts[k + 1..] == parts;
  }

  lemma FlattenThree(a: seq<bv8>, b: seq<bv8>, c: seq<bv8>)
    ensures Flatten([a, b, c]) == a + b + c
  {
    FlattenTwo(a, b);
    FlattenSnoc([a, b], c);
    assert [a, b] + [c] == [a, b, c];
  }

  lemma FlattenTwo(a: seq<bv8>, b: seq<bv8>)
    ensures Flatten([a, b]) == a + b
  {
    FlattenSnoc([], a);
    assert [] + [a] == [a];
    FlattenSnoc([a], b);
    assert [a] + [b] == [a, b];
  }

  // ---------------------------------------------------------------------
  // Records

  const LocalSignature: bv32 := 0x0403_4B50
  const CentralSignature: bv32 := 0x0201_4B50
  const EndSignature: bv32 := 0x0605_4B50
  /** "Version needed to extract" and "version made by": 2.0. */
  const Version: bv16 := 20

  /** A file of the archive: its encoded name and contents. */
  datatype Entry = Entry(name: seq<bv8>, data: seq<bv8>)

  /** The fields the writer pushes for a local file header (section 4.3.7):
      signature, version needed, flags, method 0 (stored), time, date,
      CRC-32, compressed and uncompressed size, name length, extra length. */
  function LocalFields(crc: bv32, size: nat, nameLength: nat): seq<seq<bv8>>
  {
    [U32(LocalSignature), U16(Version), U16(0), U16(0), U16(0), U16(0),
     U32(crc), U32(Word32(size)), U32(Word32(size)), U16(Word16(nameLength)), U16(0)]
  }

  /** The fields the writer pushes for a central directory header (section
      4.3.12): signature, version made by, version needed, flags, method,
      time, date, CRC-32, both sizes, name length, extra, comment, disk
      number start, internal and external attributes, and the offset of the
      local header. */
  function CentralFields(crc: bv32, size: nat, nameLength: nat, offset: nat): seq<seq<bv8>>
  {
    [U32(CentralSignature), U16(Version), U16(Version), U16(0), U16(0), U16(0), U16(0),
     U32(crc), U32(Word32(size)), U32(Word32(size)), U16(Word16(nameLength)),
     U16(0), U16(0), U16(0), U16(0), U32(0), U32(Word32(offset))]
  }

  /** The fields of the end of central directory record (section 4.3.16):
      signature, the two disk numbers, the entry count on this disk and in
      total, the size and the start offset of the central directory, and the
      comment length. */
  function EndFields(count: nat, size: nat, start: nat): seq<seq<bv8>>
  {
    [U32(EndSignature), U16(0), U16(0), U16(Word16(count)), U16(Word16(count)),
     U32(Word32(size)), U32(Word32(start)), U16(0)]
  }

  /** Where eleven parts of the local header's widths fall once flattened. */
  lemma LocalLayout(ps: seq<seq<bv8>>)
    requires |ps| == 11
    requires |ps[0]| == 4 && |ps[1]| == 2 && |ps[2]| == 2 && |ps[3]| == 2 && |ps[4]| == 2 && |ps[5]| == 2
    requires |ps[6]| == 4 && |ps[7]| == 4 && |ps[8]| == 4 && |ps[9]| == 2 && |ps[10]| == 2
    ensures |Flatten(ps)| == 30
    ensures Flatten(ps)[0..4] == ps[0]
    ensures Flatten(ps)[8..10] == ps[3]
    ensures Flatten(ps)[14..18] == ps[6]
    ensures Flatten(ps)[18..22] == ps[7]
    ensures Flatten(ps)[22..26] == ps[8]
    ensures Flatten(ps)[26..28] == ps[9]
  {
    assert TotalLength(ps[..0]) == 0;
    PrefixLength(ps, 0);
    PrefixLength(ps, 1);
    PrefixLength(ps, 2);
    PrefixLength(ps, 3);
    PrefixLength(ps, 4);
    PrefixLength(ps, 5);
    PrefixLength(ps, 6);
    PrefixLength(ps, 7);
    PrefixLength(ps, 8);
    PrefixLength(ps, 9);
    PrefixLength(ps, 10);
    assert ps[..11] == ps;
    FlattenLength(ps);
    PartAt(ps, 0);
    PartAt(ps, 3);
    PartAt(ps, 6);
    PartAt(ps, 7);
    PartAt(ps, 8);
    PartAt(ps, 9);
  }

  /** The offsets at which the central header's first eleven fields start. */
  lemma CentralOffsetsLow(ps: seq<seq<bv8>>)
    requires |ps| == 17
    requires |ps[0]| == 4 && |ps[1]| == 2 && |ps[2]| == 2 && |ps[3]| == 2 && |ps[4]| == 2 && |ps[5]| == 2
    requires |ps[6]| == 2 && |ps[7]| == 4 && |ps[8]| == 4 && |ps[9]| == 4
    ensures TotalLength(ps[..4]) == 10 && TotalLength(ps[..7]) == 16 && TotalLength(ps[..8]) == 20
    ensures TotalLength(ps[..9]) == 24 && TotalLength(ps[..10]) == 28
  {
    assert TotalLength(ps[..0]) == 0;
    PrefixLength(ps, 0);
    PrefixLength(ps, 1);
    PrefixLength(ps, 2);
    PrefixLength(ps, 3);
    PrefixLength(ps, 4);
    PrefixLength(ps, 5);
    PrefixLength(ps, 6);
    PrefixLength(ps, 7);
    PrefixLength(ps, 8);
    PrefixLength(ps, 9);
  }

  /** The offsets at which the central header's last seven fields start. */
  lemma CentralOffsetsHigh(ps: seq<seq<bv8>>)
    requires |ps| == 17 && TotalLength(ps[..10]) == 28
    requires |ps[10]| == 2 && |ps[11]| == 2
    requires |ps[12]| == 2 && |ps[13]| == 2 && |ps[14]| == 2 && |ps[15]| == 4 && |ps[16]| == 4
    ensures TotalLength(ps[..16]) == 42 && TotalLength(ps) == 46
  {
    PrefixLength(ps, 10);
    PrefixLength(ps, 11);
    PrefixLength(ps, 12);
    PrefixLength(ps, 13);
    PrefixLength(ps, 14);
    PrefixLength(ps, 15);
    PrefixLength(ps, 16);
    assert ps[..17] == ps;
  }

  /** Where seventeen parts of the central header's widths fall once flattened. */
  lemma CentralLayout(ps: seq<seq<bv8>>)
    requires |ps| == 17
    requires |ps[0]| == 4 && |ps[1]| == 2 && |ps[2]| == 2 && |ps[3]| == 2 && |ps[4]| == 2 && |ps[5]| == 2
    requires |ps[6]| == 2 && |ps[7]| == 4 && |ps[8]| == 4 && |ps[9]| == 4 && |ps[10]| == 2 && |ps[11]| == 2
    requires |ps[12]| == 2 && |ps[13]| == 2 && |ps[14]| == 2 && |ps[15]| == 4 && |ps[16]| == 4
    ensures |Flatten(ps)| == 46
    ensures Flatten(ps)[0..4] == ps[0]
    ensures Flatten(ps)[10..12] == ps[4]
    ensures Flatten(ps)[16..20] == ps[7]
    ensures Flatten(ps)[20..24] == ps[8]
    ensures Flatten(ps)[24..28] == ps[9]
    ensures Flatten(ps)[28..30] == ps[10]
    ensures Flatten(ps)[42..46] == ps[16]
  {
    CentralOffsetsLow(ps);
    CentralOffsetsHigh(ps);
    assert TotalLength(ps[..0]) == 0;
    FlattenLength(ps);
    PartAt(ps, 0);
    PartAt(ps, 4);
    PartAt(ps, 7);
    PartAt(ps, 8);
    PartAt(ps, 9);
    PartAt(ps, 10);
    PartAt(ps, 16);
  }

  lemma CentralParts(a: seq<bv8>, b: seq<bv8>, c: seq<bv8>, d: seq<bv8>, e: seq<bv8>, f: seq<bv8>,
                     g: seq<bv8>, h: seq<bv8>, i: seq<bv8>, j: seq<bv8>, k: seq<bv8>, l: seq<bv8>,
                     m: seq<bv8>, n: seq<bv8>, o: seq<bv8>, p: seq<bv8>, q: seq<bv8>)
    requires |a| == 4 && |b| == 2 && |c| == 2 && |d| == 2 && |e| == 2 && |f| == 2
    requires |g| == 2 && |h| == 4 && |i| == 4 && |j| == 4 && |k| == 2 && |l| == 2
    requires |m| == 2 && |n| == 2 && |o| == 2 && |p| == 4 && |q| == 4
    ensures |Flatten([a, b, c, d, e, f, g, h, i, j, k, l, m, n, o, p, q])| == 46
    ensures Flatten([a, b, c, d, e, f, g, h, i, j, k, l, m, n, o, p, q])[0..4] == a
    ensures Flatten([a, b, c, d, e, f, g, h, i, j, k, l, m, n, o, p, q])[10..12] == e
    ensures Flatten([a, b, c, d, e, f, g, h, i, j, k, l, m, n, o, p, q])[16..20] == h
    ensures Flatten([a, b, c, d, e, f, g, h, i, j, k, l, m, n, o, p, q])[20..24] == i
    ensures Flatten([a, b, c, d, e, f, g, h, i, j, k, l, m, n, o, p, q])[24..28] == j
    ensures Flatten([a, b, c, d, e, f, g, h, i, j, k, l, m, n, o, p, q])[28..30] == k
    ensures Flatten([a, b, c, d, e, f, g, h, i, j, k, l, m, n, o, p, q])[42..46] == q
  {
    CentralLayout([a, b, c, d, e, f, g, h, i, j, k, l, m, n, o, p, q]);
  }

  lemma EndParts(a: seq<bv8>, b: seq<bv8>, c: seq<bv8>, d: seq<bv8>, e: seq<bv8>, f: seq<bv8>,
                 g: seq<bv8>, h: seq<bv8>)
    requires |a| == 4 && |b| == 2 && |c| == 2 && |d| == 2 && |e| == 2
    requires |f| == 4 && |g| == 4 && |h| == 2
    ensures |Flatten([a, b, c, d, e, f, g, h])| == 22
    ensures Flatten([a, b, c, d, e, f, g, h])[0..4] == a
    ensures Flatten([a, b, c, d, e, f, g, h])[8..10] == d
    ensures Flatten([a, b, c, d, e, f, g, h])[10..12] == e
    ensures Flatten([a, b, c, d, e, f, g, h])[12..16] == f
    ensures Flatten([a, b, c, d, e, f, g, h])[16..20] == g
  {
    EndLayout([a, b, c, d, e, f, g, h]);
  }

  /** Where eight parts of the end record's widths fall once flattened. */
  lemma EndLayout(ps: seq<seq<bv8>>)
    requires |ps| == 8
    requires |ps[0]| == 4 && |ps[1]| == 2 && |ps[2]| == 2 && |ps[3]| == 2 && |ps[4]| == 2
    requires |ps[5]| == 4 && |ps[6]| == 4 && |ps[7]| == 2
    ensures |Flatten(ps)| == 22
    ensures Flatten(ps)[0..4] == ps[0]
    ensures Flatten(ps)[8..10] == ps[3]
    ensures Flatten(ps)[10..12] == ps[4]
    ensures Flatten(ps)[12..16] == ps[5]
    ensures Flatten(ps)[16..20] == ps[6]
  {
    assert TotalLength(ps[..0]) == 0;
    PrefixLength(ps, 0);
    PrefixLength(ps, 1);
    PrefixLength(ps, 2);
    PrefixLength(ps, 3);
    PrefixLength(ps, 4);
    PrefixLength(ps, 5);
    PrefixLength(ps, 6);
    PrefixLength(ps, 7);
    assert ps[..8] == ps;
    FlattenLength(ps);
    PartAt(ps, 0);
    PartAt(ps, 3);
    PartAt(ps, 4);
    PartAt(ps, 5);
    PartAt(ps, 6);
  }

  lemma LocalParts(a: seq<bv8>, b: seq<bv8>, c: seq<bv8>, d: seq<bv8>, e: seq<bv8>, f: seq<bv8>,
                   g: seq<bv8>, h: seq<bv8>, i: seq<bv8>, j: seq<bv8>, k: seq<bv8>)
    requires |a| == 4 && |b| == 2 && |c| == 2 && |d| == 2 && |e| == 2 && |f| == 2
    requires |g| == 4 && |h| == 4 && |i| == 4 && |j| == 2 && |k| == 2
    ensures |Flatten([a, b, c, d, e, f, g, h, i, j, k])| == 30
    ensures Flatten([a, b, c, d, e, f, g, h, i, j, k])[0..4] == a
    ensures Flatten([a, b, c, d, e, f, g, h, i, j, k])[8..10] == d
    ensures Flatten([a, b, c, d, e, f, g, h, i, j, k])[14..18] == g
    ensures Flatten([a, b, c, d, e, f, g, h, i, j, k])[18..22] == h
    ensures Flatten([a, b, c, d, e, f, g, h, i, j, k])[22..26] == i
    ensures Flatten([a, b, c, d, e, f, g, h, i, j, k])[26..28] == j
  {
    LocalLayout([a, b, c, d, e, f, g, h, i, j, k]);
  }

  /** The local file header of an entry. */
  function LocalHeader(e: Entry): seq<bv8>
  {
    Flatten(LocalFields(Crc(e.data), |e.data|, |e.name|))
  }

  /** The central directory header of an entry whose local header starts at `offset`. */
  function CentralHeader(e: Entry, offset: nat): seq<bv8>
  {
    Flatten(CentralFields(Crc(e.data), |e.data|, |e.name|, offset))
  }

  /** The end of central directory record. */
  function EndRecord(count: nat, size: nat, start: nat): seq<bv8>
  {
    Flatten(EndFields(count, size, start))
  }

  /** The local header is 30 bytes, with the signature at 0, method 0 (stored)
      at 8, the CRC-32 of the data at 14, its length as both sizes at 18 and
      22, and the name length at 26. */
  lemma LocalHeaderLayout(e: Entry)
    ensures |LocalHeader(e)| == 30
    ensures LocalHeader(e)[0..4] == U32(LocalSignature)
    ensures LocalHeader(e)[8..10] == U16(0)
    ensures LocalHeader(e)[14..18] == U32(Crc(e.data))
    ensures LocalHeader(e)[18..22] == U32(Word32(|e.data|))
    ensures LocalHeader(e)[22..26] == U32(Word32(|e.data|))
    ensures LocalHeader(e)[26..28] == U16(Word16(|e.name|))
  {
    LocalParts(U32(LocalSignature), U16(Version), U16(0), U16(0), U16(0), U16(0),
      U32(Crc(e.data)), U32(Word32(|e.data|)), U32(Word32(|e.data|)), U16(Word16(|e.name|)), U16(0));
  }

  /** The central header is 46 bytes, with the signature at 0, method 0 at
      10, the CRC-32 at 16, both sizes at 20 and 24, the name length at 28 and
      the local header's offset at 42. */
  lemma CentralHeaderLayout(e: Entry, offset: nat)
    ensures |CentralHeader(e, offset)| == 46
    ensures CentralHeader(e, offset)[0..4] == U32(CentralSignature)
    ensures CentralHeader(e, offset)[10..12] == U16(0)
    ensures CentralHeader(e, offset)[16..20] == U32(Crc(e.data))
    ensures CentralHeader(e, offset)[20..24] == U32(Word32(|e.data|))
    ensures CentralHeader(e, offset)[24..28] == U32(Word32(|e.data|))
    ensures CentralHeader(e, offset)[28..30] == U16(Word16(|e.name|))
    ensures CentralHeader(e, offset)[42..46] == U32(Word32(offset))
  {
    CentralParts(U32(CentralSignature), U16(Version), U16(Version), U16(0), U16(0), U16(0), U16(0),
      U32(Crc(e.data)), U32(Word32(|e.data|)), U32(Word32(|e.data|)), U16(Word16(|e.name|)),
      U16(0), U16(0), U16(0), U16(0), U32(0), U32(Word32(offset)));
  }

  /** The end record is 22 bytes, with the signature at 0, both entry counts
      at 8 and 10, the central directory's size at 12 and its start at 16. */
  lemma EndRecordLayout(count: nat, size: nat, start: nat)
    ensures |EndRecord(count, size, start)| == 22
    ensures EndRecord(count, size, start)[0..4] == U32(EndSignature)
    ensures EndRecord(count, size, start)[8..10] == U16(Word16(count))
    ensures EndRecord(count, size, start)[10..12] == U16(Word16(count))
    ensures EndRecord(count, size, start)[12..16] == U32(Word32(size))
    ensures EndRecord(count, size, start)[16..20] == U32(Word32(start))
  {
    EndParts(U32(EndSignature), U16(0), U16(0), U16(Word16(count)), U16(Word16(count)),
      U32(Word32(size)), U32(Word32(start)), U16(0));
  }

  // ---------------------------------------------------------------------
  // The archive

  /** One piece per file, each computed from the file and the files before it. */
  function Section(piece: (seq<Entry>, Entry) -> seq<bv8>, files: seq<Entry>): seq<bv8>
  {
    if files == [] then []
    else Section(piece, files[..|files| - 1]) + piece(files[..|files| - 1], files[|files| - 1])
  }

  /** The pieces of the first `k` files start the section. */
  lemma {:induction false} SectionPrefix(piece: (seq<Entry>, Entry) -> seq<bv8>, files: seq<Entry>, k: nat)
    requires k <= |files|
    ensures |Section(piece, files[..k])| <= |Section(piece, files)|
    ensures Section(piece, files)[..|Section(piece, files[..k])|] == Section(piece, files[..k])
  {
    if k < |files| {
      var before := files[..|files| - 1];
      assert before[..k] == files[..k];
      SectionPrefix(piece, before, k);
    } else {
      assert files[..k] == files;
    }
  }

  /** When `a + b` starts `s`, `b` lies in `s` just after `a`. */
  lemma SecondOfPrefix(s: seq<bv8>, a: seq<bv8>, b: seq<bv8>)
    requires |a + b| <= |s| && s[..|a + b|] == a + b
    ensures |a| + |b| <= |s| && s[|a|..|a| + |b|] == b
  {
    assert forall x :: |a| <= x < |a| + |b| ==> s[x] == (a + b)[x];
  }

  /** File `k`'s piece follows the pieces of the files before it. */
  lemma PieceAt(piece: (seq<Entry>, Entry) -> seq<bv8>, files: seq<Entry>, k: nat)
    requires k < |files|
    ensures var off := |Section(piece, files[..k])|;
      var p := piece(files[..k], files[k]);
      off + |p| <= |Section(piece, files)| && Section(piece, files)[off..off + |p|] == p
  {
    SectionPrefix(piece, files, k + 1);
    var before := files[..k + 1];
    assert before[..k] == files[..k] && before[k] == files[k];
    SecondOfPrefix(Section(piece, files), Section(piece, files[..k]), piece(files[..k], files[k]));
  }

  /** Adding a file adds its piece at the end. */
  lemma SectionSnoc(piece: (seq<Entry>, Entry) -> seq<bv8>, files: seq<Entry>, f: Entry)
    ensures Section(piece, files + [f]) == Section(piece, files) + piece(files, f)
  {
    assert (files + [f])[..|files|] == files;
  }

  /** A local entry: header, name, then the stored data. */
  function LocalEntry(e: Entry): seq<bv8>
  {
    LocalHeader(e) + e.name + e.data
  }

  function LocalPiece(before: seq<Entry>, e: Entry): seq<bv8>
  {
    LocalEntry(e)
  }

  /** The local entries of the files, in order: the `chunks` of the writer. */
  function LocalSection(files: seq<Entry>): seq<bv8>
  {
    Section(LocalPiece, files)
  }

  /** The summed sizes (30-byte header, name, data) of the files' local
      entries: the writer's running `offset`. */
  function EntriesSize(files: seq<Entry>): nat
  {
    if files == [] then 0
    else EntriesSize(files[..|files| - 1]) + 30 + |files[|files| - 1].name| + |files[|files| - 1].data|
  }

  /** A central directory record: header, then name. */
  function CentralRecord(e: Entry, offset: nat): seq<bv8>
  {
    CentralHeader(e, offset) + e.name
  }

  /** A file's central record names the offset the writer had reached when
      it wrote the file's local entry. */
  function CentralPiece(before: seq<Entry>, e: Entry): seq<bv8>
  {
    CentralRecord(e, EntriesSize(before))
  }

  /** The central directory: the writer's `central`. */
  function CentralSection(files: seq<Entry>): seq<bv8>
  {
    Section(CentralPiece, files)
  }

  /** An archive laid out from two kinds of pieces: the local pieces, the
      central pieces, then the end record counting the files and giving the
      central directory's size and start. */
  function Image(local: (seq<Entry>, Entry) -> seq<bv8>, central: (seq<Entry>, Entry) -> seq<bv8>,
                 files: seq<Entry>): seq<bv8>
  {
    var l := Section(local, files);
    var c := Section(central, files);
    l + c + EndRecord(|files|, |c|, |l|)
  }

  /** The whole archive: the local entries, the central directory, the end record. */
  function ZipImage(files: seq<Entry>): seq<bv8>
  {
    Image(LocalPiece, CentralPiece, files)
  }

  lemma LocalEntryLength(e: Entry)
    ensures |LocalEntry(e)| == 30 + |e.name| + |e.data|
  {
    LocalHeaderLayout(e);
  }

  /** The local section is as long as the summed entry sizes: the offsets
      the writer counts are the positions the entries land at. */
  lemma {:induction false} LocalSectionLength(files: seq<Entry>)
    ensures |LocalSection(files)| == EntriesSize(files)
  {
    if files != [] {
      LocalSectionLength(files[..|files| - 1]);
      LocalEntryLength(files[|files| - 1]);
    }
  }

  /** The writer's `offset += header.length + nameBytes.length + data.length`. */
  lemma EntriesSizeSnoc(files: seq<Entry>, i: nat)
    requires i < |files|
    ensures EntriesSize(files[..i + 1]) == EntriesSize(files[..i]) + 30 + |files[i].name| + |files[i].data|
  {
    assert files[..i + 1][..i] == files[..i];
  }

  /** Adding a file's header, name and data to the chunks adds its local entry. */
  lemma LocalStep(files: seq<Entry>, i: nat, chunks: seq<seq<bv8>>, header: seq<bv8>)
    requires i < |files| && Flatten(chunks) == LocalSection(files[..i])
    requires header == LocalHeader(files[i])
    ensures Flatten(chunks + [header, files[i].name, files[i].data]) == LocalSection(files[..i + 1])
  {
    FlattenAppend(chunks, [header, files[i].name, files[i].data]);
    FlattenThree(header, files[i].name, files[i].data);
    assert files[..i + 1] == files[..i] + [files[i]];
    SectionSnoc(LocalPiece, files[..i], files[i]);
  }

  /** Adding a file's central header and name adds its central record. */
  lemma CentralStep(files: seq<Entry>, i: nat, central: seq<seq<bv8>>, record: seq<bv8>)
    requires i < |files| && Flatten(central) == CentralSection(files[..i])
    requires record == CentralHeader(files[i], EntriesSize(files[..i]))
    ensures Flatten(central + [record, files[i].name]) == CentralSection(files[..i + 1])
  {
    FlattenAppend(central, [record, files[i].name]);
    FlattenTwo(record, files[i].name);
    assert files[..i + 1] == files[..i] + [files[i]];
    SectionSnoc(CentralPiece, files[..i], files[i]);
  }

  /** The blob the writer downloads: the chunks, the central blob, the end record. */
  lemma ImageParts(chunks: seq<seq<bv8>>, central: seq<bv8>, eocd: seq<bv8>)
    ensures Flatten(chunks + [central, eocd]) == Flatten(chunks) + central + eocd
  {
    FlattenAppend(chunks, [central, eocd]);
    FlattenTwo(central, eocd);
  }

  /** The local header of app.js:917-930, from the CRC the writer computed. */
  method WriteLocalHeader(crc: bv32, f: Entry) returns (header: seq<bv8>)
    requires crc == Crc(f.data)
    ensures header == LocalHeader(f) && |header| == 30
  {
    var out := Concat(LocalFields(crc, |f.data|, |f.name|));
    header := out[..];
    LocalHeaderLayout(f);
  }

  /** The central directory header of app.js:933-951. */
  method WriteCentralHeader(crc: bv32, f: Entry, offset: nat) returns (record: seq<bv8>)
    requires crc == Crc(f.data)
    ensures record == CentralHeader(f, offset)
  {
    var out := Concat(CentralFields(crc, |f.data|, |f.name|, offset));
    record := out[..];
  }

  /** The loop of app.js:911-955 over the files: each file's local header,
      name and data are added to `chunks` and its central record to
      `central`, while `offset` counts the bytes emitted so far. */
  method WriteEntries(files: seq<Entry>) returns (chunks: seq<seq<bv8>>, central: seq<seq<bv8>>, offset: nat)
    ensures Flatten(chunks) == LocalSection(files)
    ensures Flatten(central) == CentralSection(files)
    ensures offset == EntriesSize(files)
  {
    var table := MakeTable();
    chunks, offset, central := [], 0, [];
    var i := 0;
    while i < |files|
      invariant 0 <= i <= |files|
      invariant IsCrcTable(table[..])
      invariant Flatten(chunks) == LocalSection(files[..i])
      invariant Flatten(central) == CentralSection(files[..i])
      invariant offset == EntriesSize(files[..i])
    {
      var crc := ComputeCrc(table, files[i].data);
      var header := WriteLocalHeader(crc, files[i]);
      LocalStep(files, i, chunks, header);
      chunks := chunks + [header, files[i].name, files[i].data];
      var record := WriteCentralHeader(crc, files[i], offset);
      CentralStep(files, i, central, record);
      central := central + [record, files[i].name];
      EntriesSizeSnoc(files, i);
      offset := offset + |header| + |files[i].name| + |files[i].data|;
      i := i + 1;
    }
    assert files[..i] == files;
  }

  /** `exportAllZip`'s archive (app.js:911-970): the entries, then the
      central directory starting where they end, then the end record; the
      result is the concatenation of the parts handed to the `Blob`. */
  method BuildZip(files: seq<Entry>) returns (zip: seq<bv8>)
    ensures zip == ZipImage(files)
  {
    var chunks, central, offset := WriteEntries(files);
    LocalSectionLength(files);
    var centralStart := offset;
    var centralBlob := Concat(central);
    offset := offset + centralBlob.Length;
    var eocd := Concat(EndFields(|files|, centralBlob.Length, centralStart));
    ImageParts(chunks, centralBlob[..], eocd[..]);
    zip := Flatten(chunks + [centralBlob[..], eocd[..]]);
  }

  // ---------------------------------------------------------------------
  // Reading the archive back

  /** A slice of a part found at `a` is a slice of the whole. */
  lemma SliceWithin(s: seq<bv8>, a: nat, p: seq<bv8>, i: nat, j: nat)
    requires a + |p| <= |s| && s[a..a + |p|] == p && i <= j <= |p|
    ensures s[a + i..a + j] == p[i..j]
  {
    assert forall x :: a + i <= x < a + j ==> s[x] == s[a..a + |p|][x - a];
  }

  /** Where three concatenated parts lie. */
  lemma ThreeParts(a: seq<bv8>, b: seq<bv8>, c: seq<bv8>)
    ensures |a + b + c| == |a| + |b| + |c|
    ensures (a + b + c)[..|a|] == a
    ensures (a + b + c)[|a|..|a| + |b|] == b
    ensures (a + b + c)[|a| + |b|..] == c
  {
  }

  /** The archive is its local section, its central directory and a 22-byte
      end record, in that order; the local section is as long as the summed
      entry sizes. */
  lemma ArchiveParts(files: seq<Entry>)
    ensures var local := LocalSection(files);
      var central := CentralSection(files);
      var z := ZipImage(files);
      |local| == EntriesSize(files) &&
      |z| == |local| + |central| + 22 &&
      z[..|local|] == local &&
      z[|local|..|local| + |central|] == central &&
      z[|local| + |central|..] == EndRecord(|files|, |central|, |local|)
  {
    LocalSectionLength(files);
    var local := LocalSection(files);
    var central := CentralSection(files);
    EndRecordLayout(|files|, |central|, |local|);
    ThreeParts(local, central, EndRecord(|files|, |central|, |local|));
  }

  /** Reading the fields of an end record found at the tail of `z`. */
  lemma EndFieldsAt(z: seq<bv8>, e: nat, count: nat, size: nat, start: nat)
    requires e + 22 == |z| && z[e..] == EndRecord(count, size, start)
    ensures z[e..e + 4] == U32(EndSignature)
    ensures Le16(z[e + 8..e + 10]) == Word16(count)
    ensures Le16(z[e + 10..e + 12]) == Word16(count)
    ensures Le32(z[e + 12..e + 16]) == Word32(size)
    ensures Le32(z[e + 16..e + 20]) == Word32(start)
  {
    var r := EndRecord(count, size, start);
    EndRecordLayout(count, size, start);
    assert z[e..e + 22] == r;
    SliceWithin(z, e, r, 0, 4);
    SliceWithin(z, e, r, 8, 10);
    SliceWithin(z, e, r, 10, 12);
    SliceWithin(z, e, r, 12, 16);
    SliceWithin(z, e, r, 16, 20);
    ReadU16(Word16(count));
    ReadU32(Word32(size));
    ReadU32(Word32(start));
  }

  /** The end record holds the number of files (as 16 bits) in both count
      fields, and the central directory's size and start (as 32 bits); the
      start is where the central directory begins, just after the entries. */
  lemma EndRecordReadsBack(files: seq<Entry>)
    ensures var z := ZipImage(files);
      var local := LocalSection(files);
      var central := CentralSection(files);
      var e := |local| + |central|;
      |z| == e + 22 &&
      z[e..e + 4] == U32(EndSignature) &&
      Le16(z[e + 8..e + 10]) == Word16(|files|) &&
      Le16(z[e + 10..e + 12]) == Word16(|files|) &&
      Le32(z[e + 12..e + 16]) == Word32(|central|) &&
      Le32(z[e + 16..e + 20]) == Word32(|local|) &&
      z[|local|..|local| + |central|] == central
  {
    ArchiveParts(files);
    var local := LocalSection(files);
    var central := CentralSection(files);
    EndFieldsAt(ZipImage(files), |local| + |central|, |files|, |central|, |local|);
  }

  /** What a reader finds in a local header: the signature, method 0 (stored),
      the CRC-32 of the data, its length as both sizes (as 32 bits) and the
      name length (as 16 bits). */
  lemma LocalHeaderFields(e: Entry)
    ensures var h := LocalHeader(e);
      |h| == 30 &&
      h[0..4] == U32(LocalSignature) &&
      Le16(h[8..10]) == 0 &&
      Le32(h[14..18]) == Crc(e.data) &&
      Le32(h[18..22]) == Word32(|e.data|) &&
      Le32(h[22..26]) == Word32(|e.data|) &&
      Le16(h[26..28]) == Word16(|e.name|)
  {
    LocalHeaderLayout(e);
    ReadU16(0);
    ReadU32(Crc(e.data));
    ReadU32(Word32(|e.data|));
    ReadU16(Word16(|e.name|));
  }

  /** What a reader finds in a central header: the signature, method 0, the
      CRC-32, both sizes, the name length and the offset of the local header
      (as 32 bits). */
  lemma CentralHeaderFields(e: Entry, offset: nat)
    ensures var h := CentralHeader(e, offset);
      |h| == 46 &&
      h[0..4] == U32(CentralSignature) &&
      Le16(h[10..12]) == 0 &&
      Le32(h[16..20]) == Crc(e.data) &&
      Le32(h[20..24]) == Word32(|e.data|) &&
      Le32(h[24..28]) == Word32(|e.data|) &&
      Le16(h[28..30]) == Word16(|e.name|) &&
      Le32(h[42..46]) == Word32(offset)
  {
    CentralHeaderLayout(e, offset);
    ReadU16(0);
    ReadU32(Crc(e.data));
    ReadU32(Word32(|e.data|));
    ReadU16(Word16(|e.name|));
    ReadU32(Word32(offset));
  }

  /** File `k`'s local entry lies in the local section at the summed size of
      the entries of the files before it. */
  lemma LocalEntryAt(files: seq<Entry>, k: nat)
    requires k < |files|
    ensures var lo := EntriesSize(files[..k]);
      lo + |LocalEntry(files[k])| <= |LocalSection(files)| &&
      LocalSection(files)[lo..lo + |LocalEntry(files[k])|] == LocalEntry(files[k])
  {
    LocalSectionLength(files[..k]);
    PieceAt(LocalPiece, files, k);
  }

  /** File `k`'s central record follows the records of the files before it,
      and names the summed size of their entries as its local header's offset. */
  lemma CentralRecordAt(files: seq<Entry>, k: nat)
    requires k < |files|
    ensures var co := |CentralSection(files[..k])|;
      var r := CentralRecord(files[k], EntriesSize(files[..k]));
      co + |r| <= |CentralSection(files)| && CentralSection(files)[co..co + |r|] == r
  {
    PieceAt(CentralPiece, files, k);
  }
}
