/** The snapshot archive: every file as path length, path, data length and data, lengths in little-endian. */
module SnapshotArchive {
  import opened Options

  type byte = x: nat | x < 256

  datatype File = File(path: seq<byte>, data: seq<byte>)

  /** How unpacking ends: at the end of the input, at a path that is not UTF-8, or in a panic on a length that overflows. */
  datatype Verdict = Finished | BadPath | Panicked

  const U32: nat := 0x1_0000_0000
  /** No buffer is longer than half the address space. */
  const MaxBuffer := TWO_63

  // ---------- little-endian numbers ----------

  function Pow256(k: nat): nat {
    if k == 0 then 1 else 256 * Pow256(k - 1)
  }

  /** The lowest `k` bytes of `n`, lowest first. */
  function LittleEndian(n: nat, k: nat): (r: seq<byte>)
    ensures |r| == k
    decreases k, n
  {
    if k == 0 then [] else [n % 256] + LittleEndian(n / 256, k - 1)
  }

  function FromLittleEndian(b: seq<byte>): (r: nat)
    ensures r < Pow256(|b|)
  {
    if b == [] then 0 else b[0] + 256 * FromLittleEndian(b[1..])
  }

  /** A length is written with its lowest byte first. */
  lemma FourBytes(b: seq<byte>)
    requires |b| == 4
    ensures FromLittleEndian(b) == (b[0] as nat) + 256 * (b[1] as nat) + 65_536 * (b[2] as nat) + 16_777_216 * (b[3] as nat)
  {
    LowestFirst(b);
    LowestFirst(b[1..]);
    LowestFirst(b[1..][1..]);
    LowestFirst(b[1..][1..][1..]);
  }

  lemma LowestFirst(b: seq<byte>)
    requires b != []
    ensures FromLittleEndian(b) == (b[0] as nat) + 256 * FromLittleEndian(b[1..])
  {
  }

  lemma {:induction false} ReadBack(n: nat, k: nat)
    requires n < Pow256(k)
    ensures FromLittleEndian(LittleEndian(n, k)) == n
  {
    if 0 < k {
      ReadBack(n / 256, k - 1);
      assert LittleEndian(n, k)[1..] == LittleEndian(n / 256, k - 1);
    }
  }

  lemma {:induction false} WriteBack(b: seq<byte>)
    ensures LittleEndian(FromLittleEndian(b), |b|) == b
  {
    if b != [] {
      WriteBack(b[1..]);
      LowByte(b[0], FromLittleEndian(b[1..]));
      assert b == [b[0]] + b[1..];
    }
  }

  lemma LowByte(low: byte, high: nat)
    ensures (low + 256 * high) % 256 == low && (low + 256 * high) / 256 == high
  {
  }

  lemma {:induction false} Pow256Add(j: nat, k: nat)
    ensures Pow256(j + k) == Pow256(j) * Pow256(k)
  {
    if 0 < j {
      Pow256Add(j - 1, k);
    }
  }

  lemma Widths()
    ensures Pow256(4) == U32 && Pow256(8) == TWO_64
  {
    assert Pow256(1) == 256;
    Pow256Add(1, 1);
    Pow256Add(2, 2);
    Pow256Add(4, 4);
  }

  // ---------- packing ----------

  /** The path length is cut to 32 bits. */
  function Encode(f: File): seq<byte> {
    LittleEndian(|f.path|, 4) + f.path + LittleEndian(|f.data|, 8) + f.data
  }

  function Pack(files: seq<File>): seq<byte> {
    if files == [] then [] else Encode(files[0]) + Pack(files[1..])
  }

  lemma {:induction false} Zeros(k: nat)
    ensures LittleEndian(0, k) == seq(k, _ => 0)
  {
    if 0 < k {
      Zeros(k - 1);
    }
  }

  lemma SmallNumber(n: byte, k: nat)
    requires 0 < k
    ensures LittleEndian(n, k) == [n] + seq(k - 1, _ => 0)
  {
    Zeros(k - 1);
  }

  /** A file `a` holding `hi`, byte for byte. */
  lemma OneFileArchive()
    ensures Pack([File([97], [104, 105])]) == [1, 0, 0, 0, 97, 2, 0, 0, 0, 0, 0, 0, 0, 104, 105]
  {
    PackOne(File([97], [104, 105]));
    SmallNumber(1, 4);
    SmallNumber(2, 8);
  }

  lemma Assoc(a: seq<byte>, b: seq<byte>, c: seq<byte>)
    ensures a + (b + c) == (a + b) + c
  {
  }

  lemma {:induction false} PackAppend(a: seq<File>, b: seq<File>)
    ensures Pack(a + b) == Pack(a) + Pack(b)
  {
    if a == [] {
      assert a + b == b;
    } else {
      PackAppend(a[1..], b);
      assert (a + b)[1..] == a[1..] + b;
      Assoc(Encode(a[0]), Pack(a[1..]), Pack(b));
    }
  }

  lemma PackOne(f: File)
    ensures Pack([f]) == Encode(f)
  {
    assert Encode(f) + [] == Encode(f);
  }

  lemma FourParts(b: seq<byte>, w: seq<byte>, x: seq<byte>, y: seq<byte>, z: seq<byte>)
    ensures b + w + x + y + z == b + (w + x + y + z)
  {
  }

  method PackDirectory(files: seq<File>) returns (buf: seq<byte>)
    ensures buf == Pack(files)
  {
    buf := [];
    for i := 0 to |files|
      invariant buf == Pack(files[..i])
    {
      var f := files[i];
      FourParts(buf, LittleEndian(|f.path|, 4), f.path, LittleEndian(|f.data|, 8), f.data);
      PackAppend(files[..i], [f]);
      PackOne(f);
      assert files[..i + 1] == files[..i] + [f];
      buf := buf + LittleEndian(|f.path|, 4);
      buf := buf + f.path;
      buf := buf + LittleEndian(|f.data|, 8);
      buf := buf + f.data;
    }
    assert files[..|files|] == files;
  }

  // ---------- unpacking ----------

  type Utf8 = seq<byte> -> bool

  /** The record that starts at `c`, if it is whole: its path and data span `p..q` and `d..e`. */
  datatype Slot = Short | Bad | Overflow | Whole(p: nat, q: nat, d: nat, e: nat)

  function Read(data: seq<byte>, c: nat, utf8: Utf8): (r: Slot)
    requires c <= |data|
    ensures r.Whole? ==> c + 4 == r.p <= r.q && r.q + 8 == r.d <= r.e <= |data|
  {
    if c + 4 > |data| then Short
    else
      var p := c + 4;
      var q := p + FromLittleEndian(data[c..p]);
      if q > |data| then Short
      else if !utf8(data[p..q]) then Bad
      else if q + 8 > |data| then Short
      else
        var d := q + 8;
        var e := d + FromLittleEndian(data[q..d]);
        if e >= TWO_64 then Overflow else if e > |data| then Short else Whole(p, q, d, e)
  }

  function Unpack(data: seq<byte>, c: nat, utf8: Utf8): (Verdict, seq<File>)
    requires c <= |data|
    decreases |data| - c
  {
    match Read(data, c, utf8)
    case Short => (Finished, [])
    case Bad => (BadPath, [])
    case Overflow => (Panicked, [])
    case Whole(p, q, d, e) =>
      var (v, rest) := Unpack(data, e, utf8);
      (v, [File(data[p..q], data[d..e])] + rest)
  }

  /** One turn of the loop, up to the data: the record at the cursor. */
  method ReadRecord(data: seq<byte>, start: nat, utf8: Utf8) returns (slot: Slot)
    requires start <= |data|
    ensures slot == Read(data, start, utf8)
  {
    var cursor := start;
    if cursor + 4 > |data| {
      return Short;
    }
    var pathLen := FromLittleEndian(data[cursor..cursor + 4]);
    cursor := cursor + 4;
    if cursor + pathLen > |data| {
      return Short;
    }
    if !utf8(data[cursor..cursor + pathLen]) {
      return Bad;
    }
    cursor := cursor + pathLen;
    if cursor + 8 > |data| {
      return Short;
    }
    var dataLen := FromLittleEndian(data[cursor..cursor + 8]);
    cursor := cursor + 8;
    if cursor + dataLen >= TWO_64 {
      return Overflow;
    }
    if cursor + dataLen > |data| {
      return Short;
    }
    slot := Whole(start + 4, start + 4 + pathLen, cursor, cursor + dataLen);
  }

  /** The loop over the cursor; `files` are those written, in order. */
  method UnpackDirectory(data: seq<byte>, utf8: Utf8) returns (v: Verdict, files: seq<File>)
    ensures (v, files) == Unpack(data, 0, utf8)
  {
    files := [];
    var cursor := 0;
    assert [] + Unpack(data, 0, utf8).1 == Unpack(data, 0, utf8).1;
    while cursor < |data|
      invariant cursor <= |data|
      invariant Unpack(data, 0, utf8) == (Unpack(data, cursor, utf8).0, files + Unpack(data, cursor, utf8).1)
      decreases |data| - cursor
    {
      assert files + [] == files;
      var slot := ReadRecord(data, cursor, utf8);
      match slot
      case Short => return Finished, files;
      case Bad => return BadPath, files;
      case Overflow => return Panicked, files;
      case Whole(p, q, d, e) =>
        var file := File(data[p..q], data[d..e]);
        AppendOne(files, file, Unpack(data, e, utf8).1);
        files := files + [file];
        cursor := e;
    }
    assert files + [] == files;
    return Finished, files;
  }

  lemma AppendOne(files: seq<File>, f: File, rest: seq<File>)
    ensures files + ([f] + rest) == (files + [f]) + rest
  {
  }

  // ---------- reading what was written ----------

  predicate Storable(f: File, utf8: Utf8) {
    |f.path| < U32 && utf8(f.path) && |f.data| < MaxBuffer
  }

  lemma EncodedParts(f: File)
    ensures var r, n := Encode(f), |f.path|;
            && |r| == 12 + n + |f.data| && r[0..4] == LittleEndian(n, 4) && r[4..4 + n] == f.path
            && r[4 + n..12 + n] == LittleEndian(|f.data|, 8) && r[12 + n..12 + n + |f.data|] == f.data
  {
  }

  lemma LengthsReadBack(f: File)
    requires |f.path| < U32 && |f.data| < MaxBuffer
    ensures FromLittleEndian(LittleEndian(|f.path|, 4)) == |f.path| && FromLittleEndian(LittleEndian(|f.data|, 8)) == |f.data|
  {
    Widths();
    ReadBack(|f.path|, 4);
    ReadBack(|f.data|, 8);
  }

  lemma EncodedReads(f: File, utf8: Utf8)
    requires Storable(f, utf8)
    ensures var r, n, m := Encode(f), |f.path|, |f.data|;
            && |r| == 12 + n + m && FromLittleEndian(r[0..4]) == n && FromLittleEndian(r[4 + n..12 + n]) == m
            && r[4..4 + n] == f.path && r[12 + n..12 + n + m] == f.data && utf8(r[4..4 + n])
  {
    EncodedParts(f);
    LengthsReadBack(f);
  }

  lemma ReadsRecord(data: seq<byte>, c: nat, r: seq<byte>, n: nat, m: nat, utf8: Utf8)
    requires c <= |data| < MaxBuffer && r <= data[c..] && |r| == 12 + n + m
    requires FromLittleEndian(r[0..4]) == n && utf8(r[4..4 + n]) && FromLittleEndian(r[4 + n..12 + n]) == m
    ensures Read(data, c, utf8) == Whole(c + 4, c + 4 + n, c + 12 + n, c + |r|)
    ensures data[c + 4..c + 4 + n] == r[4..4 + n] && data[c + 12 + n..c + |r|] == r[12 + n..12 + n + m]
  {
    Window(data, c, r, 0, 4);
    Window(data, c, r, 4, 4 + n);
    Window(data, c, r, 4 + n, 12 + n);
    Window(data, c, r, 12 + n, 12 + n + m);
  }

  lemma Window(data: seq<byte>, c: nat, r: seq<byte>, lo: nat, hi: nat)
    requires c <= |data| && r <= data[c..] && lo <= hi <= |r|
    ensures data[c + lo..c + hi] == r[lo..hi]
  {
    assert data[c + lo..c + hi] == data[c..][lo..hi];
    assert r == data[c..][..|r|];
  }

  /** A whole record is read back. */
  lemma ReadsWhole(data: seq<byte>, c: nat, f: File, utf8: Utf8)
    requires c <= |data| < MaxBuffer && Encode(f) <= data[c..] && Storable(f, utf8)
    ensures Read(data, c, utf8) == Whole(c + 4, c + 4 + |f.path|, c + 12 + |f.path|, c + |Encode(f)|)
    ensures c + |Encode(f)| == c + 12 + |f.path| + |f.data| <= |data|
    ensures File(data[c + 4..c + 4 + |f.path|], data[c + 12 + |f.path|..c + |Encode(f)|]) == f
  {
    EncodedReads(f, utf8);
    ReadsRecord(data, c, Encode(f), |f.path|, |f.data|, utf8);
  }

  /** Reading a file at `c` and going on at `e`. */
  ghost predicate Continues(data: seq<byte>, c: nat, e: nat, f: File, utf8: Utf8) {
    && c <= |data| && e <= |data|
    && Unpack(data, c, utf8) == (Unpack(data, e, utf8).0, [f] + Unpack(data, e, utf8).1)
  }

  lemma UnpackStep(data: seq<byte>, c: nat, slot: Slot, utf8: Utf8)
    requires c <= |data| && slot == Read(data, c, utf8) && slot.Whole?
    ensures Continues(data, c, slot.e, File(data[slot.p..slot.q], data[slot.d..slot.e]), utf8)
  {
  }

  lemma UnpackWhole(data: seq<byte>, c: nat, f: File, utf8: Utf8)
    requires c <= |data| < MaxBuffer && Encode(f) <= data[c..] && Storable(f, utf8)
    ensures Continues(data, c, c + |Encode(f)|, f, utf8)
  {
    ReadsWhole(data, c, f, utf8);
    UnpackStep(data, c, Read(data, c, utf8), utf8);
  }

  lemma SplitWindow(data: seq<byte>, c: nat, e: nat, a: seq<byte>, b: seq<byte>)
    requires c <= e <= |data| && data[c..e] == a + b
    ensures c + |a| <= e && a <= data[c..] && data[c + |a|..e] == b
  {
    assert data[c..][..|a|] == data[c..e][..|a|] == a;
    assert data[c + |a|..e] == data[c..e][|a|..];
  }

  /** Packed files followed by something too short to be a record are read exactly. */
  lemma {:induction false} ReadsAll(data: seq<byte>, c: nat, e: nat, files: seq<File>, utf8: Utf8)
    requires c <= e <= |data| < MaxBuffer && data[c..e] == Pack(files) && forall i :: 0 <= i < |files| ==> Storable(files[i], utf8)
    requires Read(data, e, utf8).Short?
    ensures Unpack(data, c, utf8) == (Finished, files)
    decreases |files|
  {
    if files != [] {
      var f, rest := files[0], files[1..];
      SplitWindow(data, c, e, Encode(f), Pack(rest));
      UnpackWhole(data, c, f, utf8);
      ReadsAll(data, c + |Encode(f)|, e, rest, utf8);
      assert files == [f] + rest;
    }
  }

  lemma RoundTrip(files: seq<File>, utf8: Utf8)
    requires |Pack(files)| < MaxBuffer
    ensures Unpack(Pack(files), 0, utf8) == (Finished, files) <==> forall i :: 0 <= i < |files| ==> |files[i].path| < U32 && utf8(files[i].path)
  {
    var data := Pack(files);
    assert data[0..|data|] == data;
    if forall i :: 0 <= i < |files| ==> |files[i].path| < U32 && utf8(files[i].path) {
      forall i | 0 <= i < |files|
        ensures Storable(files[i], utf8)
      {
        DataFits(files, i);
      }
      ReadsAll(data, 0, |data|, files, utf8);
    } else {
      PathsRead(data, 0, utf8);
    }
  }

  lemma {:induction false} DataFits(files: seq<File>, i: nat)
    requires i < |files|
    ensures |files[i].data| <= |Pack(files)|
  {
    if 0 < i {
      DataFits(files[1..], i - 1);
    }
  }

  /** Whatever is read has a UTF-8 path of less than 2^32 bytes. */
  lemma {:induction false} PathsRead(data: seq<byte>, c: nat, utf8: Utf8)
    requires c <= |data|
    ensures forall i :: 0 <= i < |Unpack(data, c, utf8).1| ==> |Unpack(data, c, utf8).1[i].path| < U32 && utf8(Unpack(data, c, utf8).1[i].path)
    decreases |data| - c
  {
    var slot := Read(data, c, utf8);
    if slot.Whole? {
      Widths();
      PathsRead(data, slot.e, utf8);
    }
  }

  /** What is read, packed again, is a prefix of the input, whatever the input. */
  lemma {:induction false} RepackIsPrefix(data: seq<byte>, c: nat, utf8: Utf8)
    requires c <= |data|
    ensures Pack(Unpack(data, c, utf8).1) <= data[c..]
    decreases |data| - c
  {
    var slot := Read(data, c, utf8);
    if slot.Whole? {
      RepackIsPrefix(data, slot.e, utf8);
      RecordIs(data, c, slot, utf8);
      PackFirst(File(data[slot.p..slot.q], data[slot.d..slot.e]), Unpack(data, slot.e, utf8).1);
      PrefixJoin(data, c, slot.e, Pack(Unpack(data, slot.e, utf8).1));
    }
  }

  function VerdictOf(slot: Slot): Verdict {
    match slot
    case Bad => BadPath
    case Overflow => Panicked
    case _ => Finished
  }

  /** Reading ends at `stop`, and the verdict is that of the record there. */
  ghost predicate StopsAt(data: seq<byte>, stop: nat, v: Verdict, utf8: Utf8) {
    stop <= |data| && !Read(data, stop, utf8).Whole? && v == VerdictOf(Read(data, stop, utf8))
  }

  /** One file read: its record ends where reading goes on. */
  lemma ReadsOne(data: seq<byte>, c: nat, slot: Slot, utf8: Utf8) returns (f: File)
    requires c <= |data| && slot == Read(data, c, utf8) && slot.Whole?
    ensures Unpack(data, c, utf8) == (Unpack(data, slot.e, utf8).0, [f] + Unpack(data, slot.e, utf8).1) && slot.e == c + |Encode(f)|
  {
    f := File(data[slot.p..slot.q], data[slot.d..slot.e]);
    UnpackStep(data, c, slot, utf8);
    RecordIs(data, c, slot, utf8);
  }

  lemma StopsHere(data: seq<byte>, c: nat, utf8: Utf8)
    requires c <= |data| && !Read(data, c, utf8).Whole?
    ensures Unpack(data, c, utf8) == (VerdictOf(Read(data, c, utf8)), [])
  {
  }

  lemma {:induction false} StopsSomewhere(data: seq<byte>, c: nat, utf8: Utf8) returns (stop: nat)
    requires c <= |data|
    ensures stop == c + |Pack(Unpack(data, c, utf8).1)| && StopsAt(data, stop, Unpack(data, c, utf8).0, utf8)
    decreases |data| - c
  {
    var slot := Read(data, c, utf8);
    if slot.Whole? {
      var f := ReadsOne(data, c, slot, utf8);
      stop := StopsSomewhere(data, slot.e, utf8);
      PackFirst(f, Unpack(data, slot.e, utf8).1);
    } else {
      StopsHere(data, c, utf8);
      stop := c;
    }
  }

  /** The path length and, behind the path, the data length of a record at the start of `rest`. */
  function PathLength(rest: seq<byte>): nat
    requires 4 <= |rest|
  {
    FromLittleEndian(rest[..4])
  }

  function DataLength(rest: seq<byte>): nat
    requires 4 <= |rest| && 12 + PathLength(rest) <= |rest|
  {
    FromLittleEndian(rest[4 + PathLength(rest)..12 + PathLength(rest)])
  }

  /** Why reading ends as it does before `rest`, `c` bytes into the input. */
  ghost predicate EndsRightly(rest: seq<byte>, c: nat, v: Verdict, utf8: Utf8) {
    var path := 4 <= |rest| && 4 + PathLength(rest) <= |rest|;
    var head := path && 12 + PathLength(rest) <= |rest|;
    && (v == BadPath <==> path && !utf8(rest[4..4 + PathLength(rest)]))
    && (v == Panicked <==> head && utf8(rest[4..4 + PathLength(rest)]) && c + 12 + PathLength(rest) + DataLength(rest) >= TWO_64)
    && (v == Finished ==> !head || 12 + PathLength(rest) + DataLength(rest) > |rest|)
  }

  /**
   For any input: with what was read taken off, the rest begins with a whole path that is not UTF-8 (an
   error), with a data length past the address space (a panic), or with no whole record (the end).
   */
  lemma StopsBecause(data: seq<byte>, utf8: Utf8)
    ensures var (v, files) := Unpack(data, 0, utf8);
            Pack(files) <= data && EndsRightly(data[|Pack(files)|..], |Pack(files)|, v, utf8)
  {
    RepackIsPrefix(data, 0, utf8);
    assert data[0..] == data;
    var stop := StopsSomewhere(data, 0, utf8);
    RestOf(data, stop, utf8);
  }

  lemma RestOf(data: seq<byte>, c: nat, utf8: Utf8)
    requires c <= |data| && !Read(data, c, utf8).Whole?
    ensures EndsRightly(data[c..], c, VerdictOf(Read(data, c, utf8)), utf8)
  {
    var rest := data[c..];
    if 4 <= |rest| {
      assert data[c..c + 4] == rest[..4];
      var n := PathLength(rest);
      if 4 + n <= |rest| {
        assert data[c + 4..c + 4 + n] == rest[4..4 + n];
        if 12 + n <= |rest| {
          assert data[c + 4 + n..c + 12 + n] == rest[4 + n..12 + n];
        }
      }
    }
  }

  lemma PackFirst(f: File, rest: seq<File>)
    ensures Pack([f] + rest) == Encode(f) + Pack(rest)
  {
    assert ([f] + rest)[1..] == rest;
  }

  lemma PrefixJoin(data: seq<byte>, c: nat, e: nat, b: seq<byte>)
    requires c <= e <= |data| && b <= data[e..]
    ensures data[c..e] + b <= data[c..]
  {
    assert data[c..] == data[c..e] + data[e..];
  }

  lemma RecordLengths(data: seq<byte>, c: nat, slot: Slot, utf8: Utf8)
    requires c <= |data| && slot == Read(data, c, utf8) && slot.Whole?
    ensures LittleEndian(slot.q - slot.p, 4) == data[c..slot.p] && LittleEndian(slot.e - slot.d, 8) == data[slot.q..slot.d]
  {
    WriteBack(data[c..slot.p]);
    WriteBack(data[slot.q..slot.d]);
  }

  lemma RecordIs(data: seq<byte>, c: nat, slot: Slot, utf8: Utf8)
    requires c <= |data| && slot == Read(data, c, utf8) && slot.Whole?
    ensures Encode(File(data[slot.p..slot.q], data[slot.d..slot.e])) == data[c..slot.e]
  {
    RecordLengths(data, c, slot, utf8);
    Pieces(data, c, slot.p, slot.q, slot.d, slot.e);
  }

  lemma Pieces(data: seq<byte>, c: nat, p: nat, q: nat, d: nat, e: nat)
    requires c <= p <= q <= d <= e <= |data|
    ensures data[c..e] == data[c..p] + data[p..q] + data[q..d] + data[d..e]
  {
    assert data[c..q] == data[c..p] + data[p..q];
    assert data[c..d] == data[c..q] + data[q..d];
  }

  // ---------- truncation ----------

  lemma Slice(data: seq<byte>, c: nat, r: seq<byte>, lo: nat, hi: nat)
    requires c <= |data| && data[c..] <= r && lo <= hi <= |data| - c
    ensures data[c + lo..c + hi] == r[lo..hi]
  {
    assert data[c + lo..c + hi] == data[c..][lo..hi];
    assert data[c..][lo..hi] == r[lo..hi];
  }

  lemma ReadsShort(data: seq<byte>, c: nat, r: seq<byte>, n: nat, m: nat, utf8: Utf8)
    requires c <= |data| < MaxBuffer && data[c..] <= r && |data| - c < |r| == 12 + n + m && m < MaxBuffer
    requires FromLittleEndian(r[0..4]) == n && utf8(r[4..4 + n]) && FromLittleEndian(r[4 + n..12 + n]) == m
    ensures Read(data, c, utf8).Short?
  {
    var left := |data| - c;
    if 4 <= left {
      Slice(data, c, r, 0, 4);
      if 4 + n <= left {
        Slice(data, c, r, 4, 4 + n);
        if 12 + n <= left {
          Slice(data, c, r, 4 + n, 12 + n);
        }
      }
    }
  }

  /** A record cut short is not read at all. */
  lemma ReadsNothing(data: seq<byte>, c: nat, f: File, utf8: Utf8)
    requires c <= |data| < MaxBuffer && data[c..] <= Encode(f) && |data| - c < |Encode(f)| && Storable(f, utf8)
    ensures Read(data, c, utf8).Short?
  {
    EncodedReads(f, utf8);
    ReadsShort(data, c, Encode(f), |f.path|, |f.data|, utf8);
  }

  /** How many of the files fit wholly into `n` bytes. */
  function Fit(files: seq<File>, n: nat): nat {
    if files == [] || |Encode(files[0])| > n then 0 else 1 + Fit(files[1..], n - |Encode(files[0])|)
  }

  lemma {:induction false} FitIs(files: seq<File>, n: nat)
    ensures Fit(files, n) <= |files| && |Pack(files[..Fit(files, n)])| <= n
    ensures Fit(files, n) < |files| ==> n < |Pack(files[..Fit(files, n) + 1])|
  {
    if files != [] {
      var f, rest := files[0], files[1..];
      if |Encode(f)| <= n {
        var k := Fit(rest, n - |Encode(f)|);
        FitIs(rest, n - |Encode(f)|);
        PackCons(files, k + 1);
        if k < |rest| {
          PackCons(files, k + 2);
        }
      } else {
        PackCons(files, 1);
      }
    }
  }

  lemma PackCons(files: seq<File>, k: nat)
    requires 0 < k <= |files|
    ensures |Pack(files[..k])| == |Encode(files[0])| + |Pack(files[1..][..k - 1])|
  {
    assert files[..k][1..] == files[1..][..k - 1];
  }

  lemma PrefixSplit(s: seq<byte>, a: seq<byte>, b: seq<byte>)
    requires s <= a + b && |a| <= |s|
    ensures s[0..|a|] == a && s[|a|..] <= b
  {
    assert a == (a + b)[..|a|] == s[..|a|];
    assert s[|a|..] == (a + b)[|a|..|s|];
  }

  lemma PrefixShort(s: seq<byte>, a: seq<byte>, b: seq<byte>)
    requires s <= a + b && |s| < |a|
    ensures s <= a
  {
  }

  /** Behind the files that fit there is nothing, or the beginning of the next record. */
  lemma TailIsShort(data: seq<byte>, c: nat, rest: seq<File>, utf8: Utf8)
    requires c <= |data| < MaxBuffer && data[c..] <= Pack(rest)
    requires rest != [] ==> |data| - c < |Encode(rest[0])| && Storable(rest[0], utf8)
    ensures Read(data, c, utf8).Short?
  {
    if rest != [] {
      PrefixShort(data[c..], Encode(rest[0]), Pack(rest[1..]));
      ReadsNothing(data, c, rest[0], utf8);
    }
  }

  lemma FitsNoMore(files: seq<File>, k: nat, n: nat)
    requires k < |files| && n < |Pack(files[..k + 1])|
    ensures n - |Pack(files[..k])| < |Encode(files[k])|
  {
    assert files[..k + 1] == files[..k] + [files[k]];
    PackAppend(files[..k], [files[k]]);
    PackOne(files[k]);
  }

  /** Cutting a packed archive anywhere yields exactly the files wholly inside, never a partial one. */
  lemma Truncation(files: seq<File>, n: nat, utf8: Utf8) returns (k: nat)
    requires n <= |Pack(files)| < MaxBuffer && forall i :: 0 <= i < |files| ==> Storable(files[i], utf8)
    ensures k <= |files| && |Pack(files[..k])| <= n && (k < |files| ==> n < |Pack(files[..k + 1])|)
    ensures Unpack(Pack(files)[..n], 0, utf8) == (Finished, files[..k])
  {
    k := Fit(files, n);
    FitIs(files, n);
    var data, good, rest := Pack(files)[..n], files[..k], files[k..];
    var e := |Pack(good)|;
    assert files == good + rest;
    PackAppend(good, rest);
    PrefixSplit(data, Pack(good), Pack(rest));
    if k < |files| {
      FitsNoMore(files, k, n);
    }
    TailIsShort(data, e, rest, utf8);
    ReadsAll(data, 0, e, good, utf8);
  }
}
