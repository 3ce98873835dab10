/** The stored forms of claims and notes (crates/flux-fs/src/claims.rs), and the reading of a stored key back. */
module ClaimCodec {
  import opened Basics
  import Protocol
  import opened Utf8

  // ---------------------------------------------------------------------------------------------
  // Big-endian numbers and the byte order

  /** `to_be_bytes` of a `width`-byte integer. */
  function BigEndian(v: nat, width: nat): (b: Bytes)
    ensures |b| == width
  {
    if width == 0 then [] else BigEndian(v / 256, width - 1) + [v % 256]
  }

  /** `from_be_bytes`. */
  function Number(b: Bytes): nat {
    if b == [] then 0 else Number(b[..|b| - 1]) * 256 + b[|b| - 1]
  }

  function Bound(width: nat): nat {
    if width == 0 then 1 else Bound(width - 1) * 256
  }

  const LEN_BOUND: nat := 0x1_0000_0000

  /** The bounds of the widths in use, as the source's integer types have them. */
  lemma Bounds()
    ensures Bound(4) == LEN_BOUND
    ensures Bound(8) == 0x1_0000_0000_0000_0000
    ensures Bound(16) == 0x1_0000_0000_0000_0000_0000_0000_0000_0000
  {
    assert Bound(8) == Bound(4) * 0x1_0000_0000;
    assert Bound(12) == Bound(8) * 0x1_0000_0000;
  }

  lemma {:induction false} NumberOfBigEndian(v: nat, width: nat)
    requires v < Bound(width)
    ensures Number(BigEndian(v, width)) == v
  {
    if width > 0 {
      NumberOfBigEndian(v / 256, width - 1);
      var b := BigEndian(v, width);
      assert b[..|b| - 1] == BigEndian(v / 256, width - 1);
    }
  }

  lemma {:induction false} BigEndianOfNumber(b: Bytes)
    ensures Number(b) < Bound(|b|)
    ensures BigEndian(Number(b), |b|) == b
  {
    if b != [] {
      BigEndianOfNumber(b[..|b| - 1]);
      assert b == b[..|b| - 1] + [b[|b| - 1]];
    }
  }

  /** The order of byte strings. */
  predicate Less(a: Bytes, b: Bytes) {
    b != [] && (a == [] || a[0] < b[0] || (a[0] == b[0] && Less(a[1..], b[1..])))
  }

  lemma {:induction false} LessInParts(a: Bytes, b: Bytes, c: Bytes, d: Bytes)
    requires |a| == |b|
    ensures Less(a + c, b + d) <==> Less(a, b) || (a == b && Less(c, d))
  {
    if a == [] {
      assert a + c == c && b + d == d;
    } else {
      LessInParts(a[1..], b[1..], c, d);
      assert (a + c)[1..] == a[1..] + c && (b + d)[1..] == b[1..] + d;
      assert a[0] == b[0] && a[1..] == b[1..] ==> a == [a[0]] + a[1..] == b;
    }
  }

  /** Big-endian numbers of one width are ordered as their bytes are. */
  lemma {:induction false} NumbersAreOrderedAsBytes(a: Bytes, b: Bytes)
    requires |a| == |b|
    ensures Number(a) < Number(b) <==> Less(a, b)
    ensures Number(a) == Number(b) <==> a == b
  {
    BigEndianOfNumber(a);
    BigEndianOfNumber(b);
    if a != [] {
      var n := |a| - 1;
      NumbersAreOrderedAsBytes(a[..n], b[..n]);
      LessInParts(a[..n], b[..n], [a[n]], [b[n]]);
      assert a == a[..n] + [a[n]] && b == b[..n] + [b[n]];
    }
  }

  // ---------------------------------------------------------------------------------------------
  // Keys

  datatype ClaimKey = ClaimKey(parent: Protocol.ObjectId, name: Bytes)

  /** A `u64` volume and a `u128` index. */
  predicate Fits(k: ClaimKey) { k.parent.volume < Bound(8) && k.parent.index < Bound(16) }

  function EncodeKey(k: ClaimKey): Bytes {
    BigEndian(k.parent.volume, 8) + BigEndian(k.parent.index, 16) + k.name
  }

  function DecodeKey(b: Bytes): Option<ClaimKey> {
    if |b| < 8 then None
    else
      var rest := b[8..];
      if |rest| < 16 then None
      else Some(ClaimKey(Protocol.ObjectId(Number(b[..8]), Number(rest[..16])), rest[16..]))
  }

  lemma KeyParts(k: ClaimKey)
    ensures var b := EncodeKey(k);
      b[..8] == BigEndian(k.parent.volume, 8) && b[8..][..16] == BigEndian(k.parent.index, 16) && b[8..][16..] == k.name
  {
    var v, i := BigEndian(k.parent.volume, 8), BigEndian(k.parent.index, 16);
    assert EncodeKey(k)[8..] == i + k.name;
  }

  /** Reading a stored key is the exact inverse of storing it, on every byte string. */
  lemma KeyCodec(b: Bytes, k: ClaimKey)
    ensures DecodeKey(b) == Some(k) <==> Fits(k) && EncodeKey(k) == b
    ensures DecodeKey(b) == None <==> |b| < 24
  {
    hide BigEndian, Number, Bound;
    KeyParts(k);
    if Fits(k) {
      NumberOfBigEndian(k.parent.volume, 8);
      NumberOfBigEndian(k.parent.index, 16);
    }
    if |b| >= 24 {
      var rest := b[8..];
      BigEndianOfNumber(b[..8]);
      BigEndianOfNumber(rest[..16]);
      assert rest == rest[..16] + rest[16..] && b == b[..8] + rest;
    }
  }

  lemma KeysAreInjective(a: ClaimKey, b: ClaimKey)
    requires Fits(a) && Fits(b)
    ensures EncodeKey(a) == EncodeKey(b) <==> a == b
  {
    KeyCodec(EncodeKey(a), a);
    KeyCodec(EncodeKey(a), b);
  }

  /** The order of keys as a reader thinks of it: by volume, then by index, then by the bytes of the name. */
  predicate KeyLess(a: ClaimKey, b: ClaimKey) {
    || a.parent.volume < b.parent.volume
    || (a.parent.volume == b.parent.volume &&
        (|| a.parent.index < b.parent.index
         || (a.parent.index == b.parent.index && Less(a.name, b.name))))
  }

  lemma FixedWidthOrder(v: nat, w: nat, width: nat)
    requires v < Bound(width) && w < Bound(width)
    ensures Less(BigEndian(v, width), BigEndian(w, width)) <==> v < w
    ensures BigEndian(v, width) == BigEndian(w, width) <==> v == w
  {
    NumberOfBigEndian(v, width);
    NumberOfBigEndian(w, width);
    NumbersAreOrderedAsBytes(BigEndian(v, width), BigEndian(w, width));
  }

  /** The byte order of stored keys is the order of the keys. */
  lemma StoredOrderIsKeyOrder(a: ClaimKey, b: ClaimKey)
    requires Fits(a) && Fits(b)
    ensures Less(EncodeKey(a), EncodeKey(b)) <==> KeyLess(a, b)
  {
    hide BigEndian, Bound, Less;
    var av, ai := BigEndian(a.parent.volume, 8), BigEndian(a.parent.index, 16);
    var bv, bi := BigEndian(b.parent.volume, 8), BigEndian(b.parent.index, 16);
    FixedWidthOrder(a.parent.volume, b.parent.volume, 8);
    FixedWidthOrder(a.parent.index, b.parent.index, 16);
    LessInParts(av, bv, ai + a.name, bi + b.name);
    LessInParts(ai, bi, a.name, b.name);
    assert EncodeKey(a) == av + (ai + a.name) && EncodeKey(b) == bv + (bi + b.name);
  }

  // ---------------------------------------------------------------------------------------------
  // Claims

  datatype Status = Existing | Created

  datatype ClaimRecord = ClaimRecord(target: Bytes, status: Status)

  function EncodeClaim(r: ClaimRecord): Bytes {
    [if r.status.Existing? then 0 else 1] + r.target
  }

  function DecodeClaim(b: Bytes): Option<ClaimRecord> {
    if b == [] then None
    else if b[0] == 0 then Some(ClaimRecord(b[1..], Existing))
    else if b[0] == 1 then Some(ClaimRecord(b[1..], Created))
    else None
  }

  lemma ClaimCodecIsExact(b: Bytes, r: ClaimRecord)
    ensures DecodeClaim(b) == Some(r) <==> EncodeClaim(r) == b
  {
    if b != [] {
      assert b == [b[0]] + b[1..];
    }
    assert EncodeClaim(r)[1..] == r.target;
  }

  // ---------------------------------------------------------------------------------------------
  // Notes

  datatype PreparedRecord = PreparedRecord(
    target: Bytes, tempName: Bytes, identity: Bytes, dirPath: Bytes, name: Bytes, plannedName: Bytes, replacement: bool)

  function Fields(p: PreparedRecord): seq<Bytes> {
    [p.target, p.tempName, p.identity, p.dirPath, p.name, p.plannedName]
  }

  /** A field: its length, cut to 32 bits, and its bytes. */
  function FieldBytes(f: Bytes): Bytes {
    BigEndian(|f| % LEN_BOUND, 4) + f
  }

  function FieldsBytes(fs: seq<Bytes>): Bytes {
    if fs == [] then [] else FieldsBytes(fs[..|fs| - 1]) + FieldBytes(fs[|fs| - 1])
  }

  function Flag(on: bool): Bytes { [if on then 1 else 0] }

  /** The stored form of a note. */
  function Encoded(p: PreparedRecord): Bytes {
    [1] + FieldsBytes(Fields(p)) + Flag(p.replacement)
  }

  predicate Short(f: Bytes) { |f| < LEN_BOUND }

  predicate AllShort(fs: seq<Bytes>) {
    forall i | 0 <= i < |fs| :: Short(fs[i])
  }

  /** The notes the format can hold: no field of 2^32 bytes or more, and text where there must be text. */
  ghost predicate Storable(p: PreparedRecord) {
    AllShort(Fields(p)) && Valid(p.identity) && Valid(p.dirPath)
  }

  ghost predicate Stored(b: Bytes) {
    exists p :: Storable(p) && Encoded(p) == b
  }

  /** `PreparedRecord::encode`. */
  method Encode(p: PreparedRecord) returns (out: Bytes)
    ensures out == Encoded(p)
  {
    hide BigEndian;
    out := [1];
    var fs := Fields(p);
    for i := 0 to |fs|
      invariant out == [1] + FieldsBytes(fs[..i])
    {
      assert fs[..i + 1][..i] == fs[..i];
      out := out + BigEndian(|fs[i]| % LEN_BOUND, 4);
      out := out + fs[i];
    }
    assert fs[..|fs|] == fs;
    out := out + Flag(p.replacement);
  }

  /** The first field of what is left, and the rest. */
  function Field(rest: Bytes): Option<(Bytes, Bytes)> {
    if |rest| < 4 then None
    else
      var n, tail := Number(rest[..4]), rest[4..];
      if |tail| < n then None else Some((tail[..n], tail[n..]))
  }

  lemma FieldIsThere(rest: Bytes)
    requires Field(rest).Some?
    ensures var (f, tail) := Field(rest).value; Short(f) && rest == FieldBytes(f) + tail
  {
    hide BigEndian, Number, Bound;
    BigEndianOfNumber(rest[..4]);
    Bounds();
    var n, tail := Number(rest[..4]), rest[4..];
    assert rest == rest[..4] + tail && tail == tail[..n] + tail[n..];
  }

  lemma FieldIsRead(f: Bytes, tail: Bytes)
    requires Short(f)
    ensures Field(FieldBytes(f) + tail) == Some((f, tail))
  {
    hide BigEndian, Number, Bound;
    var rest := FieldBytes(f) + tail;
    Bounds();
    NumberOfBigEndian(|f|, 4);
    assert rest[..4] == BigEndian(|f|, 4) && rest[4..] == f + tail;
    assert (f + tail)[..|f|] == f && (f + tail)[|f|..] == tail;
  }

  /** Fields delimit themselves: what follows them cannot be mistaken for part of them. */
  lemma {:induction false} FieldsAreSelfDelimiting(a: seq<Bytes>, x: Bytes, b: seq<Bytes>, y: Bytes)
    requires AllShort(a) && AllShort(b) && |a| == |b|
    requires FieldsBytes(a) + x == FieldsBytes(b) + y
    ensures a == b && x == y
  {
    hide FieldBytes, Field;
    if a == [] {
      assert FieldsBytes(a) + x == x && FieldsBytes(b) + y == y;
    } else {
      var n := |a| - 1;
      assert FieldsBytes(a) + x == FieldsBytes(a[..n]) + (FieldBytes(a[n]) + x);
      assert FieldsBytes(b) + y == FieldsBytes(b[..n]) + (FieldBytes(b[n]) + y);
      FieldsAreSelfDelimiting(a[..n], FieldBytes(a[n]) + x, b[..n], FieldBytes(b[n]) + y);
      FieldIsRead(a[n], x);
      FieldIsRead(b[n], y);
      assert a == a[..n] + [a[n]] && b == b[..n] + [b[n]];
    }
  }

  lemma {:induction false} FieldsInParts(fs: seq<Bytes>, n: nat)
    requires n <= |fs|
    ensures FieldsBytes(fs) == FieldsBytes(fs[..n]) + FieldsBytes(fs[n..])
    decreases |fs|
  {
    hide FieldBytes;
    if n == |fs| {
      assert fs[..n] == fs && fs[n..] == [];
    } else {
      var m := |fs| - 1;
      FieldsInParts(fs[..m], n);
      var tail := fs[n..];
      assert fs[..m][..n] == fs[..n] && tail[..m - n] == fs[..m][n..] && tail[m - n] == fs[m];
      assert FieldsBytes(tail) == FieldsBytes(tail[..m - n]) + FieldBytes(fs[m]);
      assert FieldsBytes(fs) == FieldsBytes(fs[..m]) + FieldBytes(fs[m]);
    }
  }

  lemma FirstIsRead(fs: seq<Bytes>, flag: Bytes)
    requires AllShort(fs) && fs != []
    ensures Field(FieldsBytes(fs) + flag).Some?
  {
    hide FieldBytes, Field, FieldsBytes;
    FirstOf(fs);
    var more := FieldsBytes(fs[1..]) + flag;
    assert FieldsBytes(fs) + flag == FieldBytes(fs[0]) + more;
    FieldIsRead(fs[0], more);
  }

  lemma ShortParts(fs: seq<Bytes>, n: nat)
    requires AllShort(fs) && n <= |fs|
    ensures AllShort(fs[..n]) && AllShort(fs[n..])
  {
  }

  lemma ReadSoFar(all: seq<Bytes>, flag: Bytes, fs: seq<Bytes>, rest: Bytes)
    requires AllShort(all) && AllShort(fs) && |fs| <= |all|
    requires FieldsBytes(all) + flag == FieldsBytes(fs) + rest
    ensures fs == all[..|fs|]
    ensures if |fs| == |all| then rest == flag else Field(rest).Some?
  {
    hide FieldBytes, Field, FieldsBytes, AllShort;
    var n := |fs|;
    ShortParts(all, n);
    FieldsInParts(all, n);
    var tail := FieldsBytes(all[n..]) + flag;
    assert FieldsBytes(all) + flag == FieldsBytes(all[..n]) + tail;
    FieldsAreSelfDelimiting(fs, rest, all[..n], tail);
    if n < |all| {
      FirstIsRead(all[n..], flag);
    } else {
      NothingLeft();
      assert tail == flag;
    }
  }

  lemma AfterVersion(a: Bytes, b: Bytes)
    ensures ([1] + a + b)[1..] == a + b
  {
  }

  lemma SixFields(p: PreparedRecord)
    ensures |Fields(p)| == 6
  {
  }

  /** Where a storable note is being read, the fields read so far are its own and the next one is there. */
  lemma NextFieldIsThere(p: PreparedRecord, fs: seq<Bytes>, rest: Bytes)
    requires Storable(p) && AllShort(fs) && |fs| <= 6
    requires Encoded(p) == [1] + FieldsBytes(fs) + rest
    ensures fs == Fields(p)[..|fs|]
    ensures if |fs| == 6 then rest == Flag(p.replacement) else Field(rest).Some?
  {
    hide Field, Valid, FieldsBytes, AllShort, Flag, Fields;
    AfterVersion(FieldsBytes(Fields(p)), Flag(p.replacement));
    AfterVersion(FieldsBytes(fs), rest);
    assert |Fields(p)| == 6 by { SixFields(p); }
    ReadSoFar(Fields(p), Flag(p.replacement), fs, rest);
  }

  lemma NothingLeft()
    ensures FieldsBytes([]) == []
  {
  }

  lemma FirstOf(fs: seq<Bytes>)
    requires fs != []
    ensures FieldsBytes(fs) == FieldBytes(fs[0]) + FieldsBytes(fs[1..])
  {
    FieldsInParts(fs, 1);
    assert fs[..1][..0] == [];
    assert FieldsBytes(fs[..1]) == FieldBytes(fs[0]);
  }

  /** One call of `field`, moving the cursor `rest`. */
  method NextField(rest: Bytes, ghost b: Bytes, ghost fs: seq<Bytes>) returns (f: Option<Bytes>, left: Bytes)
    requires b == [1] + FieldsBytes(fs) + rest && AllShort(fs) && |fs| < 6
    ensures f.Some? ==> b == [1] + FieldsBytes(fs + [f.value]) + left && AllShort(fs + [f.value])
    ensures f.None? ==> !Stored(b)
  {
    var r := Field(rest);
    if r.None? {
      forall p | Storable(p)
        ensures Encoded(p) != b
      {
        if Encoded(p) == b {
          NextFieldIsThere(p, fs, rest);
        }
      }
      return None, rest;
    }
    FieldIsThere(rest);
    assert (fs + [r.value.0])[..|fs|] == fs;
    return Some(r.value.0), r.value.1;
  }

  lemma TextFieldIsText(p: PreparedRecord, fs: seq<Bytes>, rest: Bytes)
    requires Storable(p) && AllShort(fs) && 3 <= |fs| <= 4
    requires Encoded(p) == [1] + FieldsBytes(fs) + rest
    ensures Valid(fs[|fs| - 1])
  {
    hide FieldsBytes, AllShort, Encoded, Valid, Field, Flag;
    NextFieldIsThere(p, fs, rest);
    var n := |fs| - 1;
    assert fs[n] == Fields(p)[n];
  }

  /** A text field whose bytes are no text ends the reading. */
  lemma NotText(b: Bytes, fs: seq<Bytes>, rest: Bytes)
    requires b == [1] + FieldsBytes(fs) + rest && AllShort(fs) && 3 <= |fs| <= 4 && !Valid(fs[|fs| - 1])
    ensures !Stored(b)
  {
    hide FieldsBytes, AllShort, Encoded, Valid, Storable;
    forall p | Storable(p)
      ensures Encoded(p) != b
    {
      if Encoded(p) == b {
        TextFieldIsText(p, fs, rest);
      }
    }
  }

  lemma BadFlag(b: Bytes, fs: seq<Bytes>, rest: Bytes)
    requires b == [1] + FieldsBytes(fs) + rest && AllShort(fs) && |fs| == 6 && rest != [0] && rest != [1]
    ensures !Stored(b)
  {
    forall p | Storable(p)
      ensures Encoded(p) != b
    {
      if Encoded(p) == b {
        NextFieldIsThere(p, fs, rest);
      }
    }
  }

  predicate IsText(b: Bytes)
    ensures IsText(b) <==> Valid(b)
  {
    ValidUpToIsTheLongest(b);
    ValidUpTo(b) == |b|
  }

  /**
   `PreparedRecord::decode`: exactly the inverse of the encoding. A byte string is read if and only if it is the
   stored form of a storable note, and then as that note.
   */
  method Decode(b: Bytes) returns (r: Option<PreparedRecord>)
    ensures r.Some? ==> Storable(r.value) && Encoded(r.value) == b
    ensures r.None? ==> !Stored(b)
    ensures r == NoteOf(b)
  {
    hide FieldsBytes, Valid, AllShort;
    if b == [] || b[0] != 1 {
      return None;
    }
    assert b == [1] + FieldsBytes([]) + b[1..] && AllShort([]) by { NothingLeft(); NoneIsShort(); }
    var target, rest := NextField(b[1..], b, []);
    if target.None? { return None; }
    ghost var fs := [] + [target.value];
    var tempName, identity, dirPath, name, plannedName;
    tempName, rest := NextField(rest, b, fs);
    if tempName.None? { return None; }
    fs := fs + [tempName.value];
    identity, rest := NextField(rest, b, fs);
    if identity.None? { return None; }
    fs := fs + [identity.value];
    if !IsText(identity.value) {
      NotText(b, fs, rest);
      return None;
    }
    dirPath, rest := NextField(rest, b, fs);
    if dirPath.None? { return None; }
    fs := fs + [dirPath.value];
    if !IsText(dirPath.value) {
      NotText(b, fs, rest);
      return None;
    }
    name, rest := NextField(rest, b, fs);
    if name.None? { return None; }
    fs := fs + [name.value];
    plannedName, rest := NextField(rest, b, fs);
    if plannedName.None? { return None; }
    fs := fs + [plannedName.value];
    if rest != [0] && rest != [1] {
      BadFlag(b, fs, rest);
      return None;
    }
    r := Some(PreparedRecord(target.value, tempName.value, identity.value, dirPath.value, name.value,
                             plannedName.value, rest == [1]));
    assert Fields(r.value) == fs;
    NoteOfIsExact(b, r.value);
  }

  lemma NoneIsShort()
    ensures AllShort([])
  {
  }

  /** No stored note is the beginning of another: neither a strict prefix nor an extension of one can be read. */
  lemma StoredNotesDelimitThemselves(p: PreparedRecord, q: PreparedRecord)
    requires Storable(p) && Storable(q) && Encoded(p) <= Encoded(q)
    ensures p == q
  {
    hide FieldsBytes, Valid;
    var extra := Encoded(q)[|Encoded(p)|..];
    var a, b := Fields(p), Fields(q);
    assert Encoded(q) == Encoded(p) + extra;
    assert Encoded(q)[1..] == FieldsBytes(b) + Flag(q.replacement);
    assert Encoded(p)[1..] == FieldsBytes(a) + Flag(p.replacement);
    assert Encoded(q)[1..] == Encoded(p)[1..] + extra == FieldsBytes(a) + (Flag(p.replacement) + extra);
    FieldsAreSelfDelimiting(a, Flag(p.replacement) + extra, b, Flag(q.replacement));
    assert (Flag(p.replacement) + extra)[0] == Flag(p.replacement)[0];
    assert a[0] == b[0] && a[1] == b[1] && a[2] == b[2] && a[3] == b[3] && a[4] == b[4] && a[5] == b[5];
  }

  /** The note a stored byte string stands for. */
  ghost function NoteOf(b: Bytes): Option<PreparedRecord> {
    if Stored(b) then var p :| Storable(p) && Encoded(p) == b; Some(p) else None
  }

  lemma NoteOfIsExact(b: Bytes, p: PreparedRecord)
    ensures NoteOf(b) == Some(p) <==> Storable(p) && Encoded(p) == b
  {
    if Storable(p) && Encoded(p) == b {
      StoredNotesDelimitThemselves(p, NoteOf(b).value);
    }
  }

  /** Storing and reading gives a note back, unless one of its fields has 2^32 bytes or more. */
  lemma RoundTrip(p: PreparedRecord)
    requires Valid(p.identity) && Valid(p.dirPath)
    ensures NoteOf(Encoded(p)) == Some(p) <==> AllShort(Fields(p))
  {
    NoteOfIsExact(Encoded(p), p);
  }

  /** Such a note: its length is stored as 0, and what is read, if anything, is another note. */
  lemma AnOverlongNoteIsLost() returns (p: PreparedRecord)
    ensures Valid(p.identity) && Valid(p.dirPath) && |p.target| == LEN_BOUND && !Storable(p)
    ensures FieldBytes(p.target)[..4] == BigEndian(0, 4) && NoteOf(Encoded(p)) != Some(p)
  {
    p := PreparedRecord(seq(LEN_BOUND, i => 0), [], [], [], [], [], false);
    AsciiIsValid([]);
    assert !Short(Fields(p)[0]);
    RoundTrip(p);
  }
}
