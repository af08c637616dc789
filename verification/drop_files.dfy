/** The CF_HDROP payload: a DROPFILES header followed by NUL-terminated UTF-16
    paths and one more NUL. Byte layout, size formula, a reference reader of
    the list (what `DragQueryFileW` reports) and the memory stores the writers
    perform on the locked global block. */
module DropFiles {
  import opened Unicode

  /** `size_of::<DROPFILES>()`: pFiles (u32), pt (two i32), fNC (BOOL), fWide (BOOL). */
  const DropFilesSize: nat := 20
  /** The closing NUL unit of the list. */
  const TerminatorSize: nat := 2

  function LeU32(v: nat): (r: seq<byte>)
    requires v < 0x1_0000_0000
    ensures |r| == 4
  {
    [v % 0x100, (v / 0x100) % 0x100, (v / 0x1_0000) % 0x100, v / 0x100_0000]
  }

  /** The u32 stored little-endian at `b[k..k + 4]`. */
  function U32At(b: seq<byte>, k: nat): nat
    requires k + 4 <= |b|
  {
    b[k] as int + 0x100 * (b[k + 1] as int) + 0x1_0000 * (b[k + 2] as int) + 0x100_0000 * (b[k + 3] as int)
  }

  /** The header the writers store: pFiles = 20, pt = (0, 0), fNC = FALSE, fWide = TRUE. */
  function Header(): (r: seq<byte>)
    ensures |r| == DropFilesSize
  {
    LeU32(DropFilesSize) + LeU32(0) + LeU32(0) + LeU32(0) + LeU32(1)
  }

  /** UTF-16 units as little-endian bytes. */
  function UnitsToBytes(us: seq<u16>): (r: seq<byte>)
    ensures |r| == 2 * |us|
  {
    seq(2 * |us|, i requires 0 <= i < 2 * |us| => if i % 2 == 0 then us[i / 2] % 0x100 else us[i / 2] / 0x100)
  }

  /** Little-endian bytes read back as UTF-16 units; an odd trailing byte is ignored. */
  function BytesToUnits(b: seq<byte>): (r: seq<u16>)
    ensures |r| == |b| / 2
  {
    seq(|b| / 2, i requires 0 <= i < |b| / 2 => (b[2 * i] as int + 0x100 * (b[2 * i + 1] as int)) as u16)
  }

  lemma UnitsBytesRoundTrip(us: seq<u16>)
    ensures BytesToUnits(UnitsToBytes(us)) == us
  {
    var b := UnitsToBytes(us);
    forall i | 0 <= i < |us| ensures BytesToUnits(b)[i] == us[i] {
      assert b[2 * i] == us[i] % 0x100 && b[2 * i + 1] == us[i] / 0x100;
    }
  }

  lemma UnitsToBytesAppend(a: seq<u16>, c: seq<u16>)
    ensures UnitsToBytes(a + c) == UnitsToBytes(a) + UnitsToBytes(c)
  {
    var l := UnitsToBytes(a + c);
    var r := UnitsToBytes(a) + UnitsToBytes(c);
    forall i | 0 <= i < |l| ensures l[i] == r[i] {
      if i >= 2 * |a| {
        assert (i - 2 * |a|) / 2 == i / 2 - |a| && (i - 2 * |a|) % 2 == i % 2;
      }
    }
  }

  /** `to_wide_null`: the path as UTF-16 followed by one NUL unit. */
  function ToWideNull(s: string): (r: seq<u16>)
    ensures |r| >= 1 && r[|r| - 1] == 0
  {
    Utf16Encode(s) + [0]
  }

  function WidePaths(paths: seq<string>): (r: seq<seq<u16>>)
    ensures |r| == |paths|
    ensures forall i :: 0 <= i < |paths| ==> r[i] == ToWideNull(paths[i])
  {
    if paths == [] then [] else [ToWideNull(paths[0])] + WidePaths(paths[1..])
  }

  function Flatten(ws: seq<seq<u16>>): seq<u16> {
    if ws == [] then [] else ws[0] + Flatten(ws[1..])
  }

  lemma {:induction false} FlattenSnoc(ws: seq<seq<u16>>, w: seq<u16>)
    ensures Flatten(ws + [w]) == Flatten(ws) + w
  {
    if ws != [] {
      assert (ws + [w])[1..] == ws[1..] + [w];
      FlattenSnoc(ws[1..], w);
    }
  }

  lemma {:induction false} FlattenAppend(a: seq<seq<u16>>, c: seq<seq<u16>>)
    ensures Flatten(a + c) == Flatten(a) + Flatten(c)
  {
    if a == [] {
      assert a + c == c;
    } else {
      assert (a + c)[1..] == a[1..] + c;
      FlattenAppend(a[1..], c);
    }
  }

  /** Bytes the list occupies: two per unit, NULs included. */
  function ListBytes(ws: seq<seq<u16>>): nat {
    if ws == [] then 0 else 2 * |ws[0]| + ListBytes(ws[1..])
  }

  lemma {:induction false} ListBytesIsFlattenLength(ws: seq<seq<u16>>)
    ensures ListBytes(ws) == 2 * |Flatten(ws)|
  {
    if ws != [] {
      ListBytesIsFlattenLength(ws[1..]);
    }
  }

  /** The whole CF_HDROP block for `paths`. */
  function Block(paths: seq<string>): seq<byte> {
    Header() + UnitsToBytes(Flatten(WidePaths(paths)) + [0])
  }

  /** The allocation size the writers compute is the block's length. */
  lemma BlockSize(paths: seq<string>)
    ensures |Block(paths)| == DropFilesSize + TerminatorSize + ListBytes(WidePaths(paths))
  {
    ListBytesIsFlattenLength(WidePaths(paths));
  }

  /** The header fields read back from a block: pFiles points just past the
      header, the drop point is (0, 0), fNC is FALSE and fWide is TRUE. */
  lemma HeaderFields(paths: seq<string>)
    ensures |Block(paths)| >= DropFilesSize + TerminatorSize
    ensures U32At(Block(paths), 0) == DropFilesSize
    ensures U32At(Block(paths), 4) == 0 && U32At(Block(paths), 8) == 0
    ensures U32At(Block(paths), 12) == 0
    ensures U32At(Block(paths), 16) == 1
  {
    var b := Block(paths);
    assert b[..20] == Header();
    assert b[..20][0] == 20 && b[..20][16] == 1;
  }

  function Count(us: seq<u16>, u: u16): nat {
    if us == [] then 0 else (if us[0] == u then 1 else 0) + Count(us[1..], u)
  }

  lemma {:induction false} CountAppend(a: seq<u16>, c: seq<u16>, u: u16)
    ensures Count(a + c, u) == Count(a, u) + Count(c, u)
  {
    if a != [] {
      assert (a + c)[0] == a[0];
      assert (a + c)[1..] == a[1..] + c;
      CountAppend(a[1..], c, u);
    } else {
      assert a + c == c;
    }
  }

  lemma {:induction false} CountAbsent(a: seq<u16>, u: u16)
    requires u !in a
    ensures Count(a, u) == 0
  {
    if a != [] {
      CountAbsent(a[1..], u);
    }
  }

  /** For paths without NUL characters, the list holds one NUL per path plus
      the closing one. */
  lemma {:induction false} NulCount(paths: seq<string>)
    requires forall i :: 0 <= i < |paths| ==> '\0' !in paths[i]
    ensures Count(Flatten(WidePaths(paths)) + [0], 0) == |paths| + 1
  {
    if paths == [] {
      assert Flatten(WidePaths(paths)) + [0] == [0];
    } else {
      var w := WidePaths(paths);
      assert w[1..] == WidePaths(paths[1..]);
      Utf16NoNul(paths[0]);
      CountAbsent(Utf16Encode(paths[0]), 0);
      CountAppend(Utf16Encode(paths[0]), [0], 0);
      assert Flatten(w) + [0] == ToWideNull(paths[0]) + (Flatten(w[1..]) + [0]);
      CountAppend(ToWideNull(paths[0]), Flatten(w[1..]) + [0], 0);
      NulCount(paths[1..]);
    }
  }

  // ---------------------------------------------------------------- reading

  function IndexOfUnit(us: seq<u16>, u: u16): (k: nat)
    requires u in us
    ensures k < |us| && us[k] == u && u !in us[..k]
    ensures forall j :: 0 <= j < k ==> us[j] != u
  {
    if us[0] == u then 0 else 1 + IndexOfUnit(us[1..], u)
  }

  /** The NUL-terminated strings of a list, up to the first empty one; an
      unterminated tail is not a file name. */
  function SplitEntries(us: seq<u16>): (r: seq<seq<u16>>)
    ensures forall i :: 0 <= i < |r| ==> r[i] != [] && 0 !in r[i]
    decreases |us|
  {
    if 0 !in us then []
    else
      var k := IndexOfUnit(us, 0);
      if k == 0 then [] else [us[..k]] + SplitEntries(us[k + 1..])
  }

  /** The file names a wide DROPFILES block lists, as `DragQueryFileW` reports
      them: the units from offset pFiles split into entries. */
  function DroppedFiles(block: seq<byte>): (r: seq<seq<u16>>)
    ensures forall i :: 0 <= i < |r| ==> r[i] != [] && 0 !in r[i]
  {
    if |block| < DropFilesSize then []
    else
      var offset := U32At(block, 0);
      if offset > |block| then [] else SplitEntries(BytesToUnits(block[offset..]))
  }

  function EncodedPaths(paths: seq<string>): (r: seq<seq<u16>>)
    ensures |r| == |paths|
    ensures forall i :: 0 <= i < |paths| ==> r[i] == Utf16Encode(paths[i])
  {
    if paths == [] then [] else [Utf16Encode(paths[0])] + EncodedPaths(paths[1..])
  }

  lemma {:induction false} SplitWidePaths(paths: seq<string>)
    requires forall i :: 0 <= i < |paths| ==> paths[i] != "" && '\0' !in paths[i]
    ensures SplitEntries(Flatten(WidePaths(paths)) + [0]) == EncodedPaths(paths)
  {
    if paths == [] {
      assert Flatten(WidePaths(paths)) + [0] == [0];
    } else {
      var e := Utf16Encode(paths[0]);
      var rest := Flatten(WidePaths(paths[1..])) + [0];
      var us := Flatten(WidePaths(paths)) + [0];
      assert WidePaths(paths)[1..] == WidePaths(paths[1..]);
      assert us == e + [0] + rest;
      Utf16NoNul(paths[0]);
      Utf16LengthAtLeast(paths[0]);
      assert us[|e|] == 0;
      assert us[..|e|] == e;
      assert IndexOfUnit(us, 0) == |e|;
      assert us[|e| + 1..] == rest;
      SplitWidePaths(paths[1..]);
    }
  }

  lemma Utf16LengthAtLeast(s: string)
    requires s != ""
    ensures Utf16Encode(s) != []
  {
    Utf16EncodeAppend([s[0]], s[1..]);
    assert [s[0]] + s[1..] == s;
  }

  /** Reading a written block back yields the paths it was written from,
      provided each is non-empty and free of NUL. */
  lemma DropFilesRoundTrip(paths: seq<string>)
    requires forall i :: 0 <= i < |paths| ==> paths[i] != "" && '\0' !in paths[i]
    ensures DroppedFiles(Block(paths)) == EncodedPaths(paths)
  {
    var b := Block(paths);
    HeaderFields(paths);
    var list := Flatten(WidePaths(paths)) + [0];
    assert b[DropFilesSize..] == UnitsToBytes(list);
    UnitsBytesRoundTrip(list);
    SplitWidePaths(paths);
  }

  // ---------------------------------------------------------------- stores

  /** The path list stored after the header (the copy loop and the closing
      NUL unit of both writers). */
  method StoreList(mem: array<byte>, wide: seq<seq<u16>>)
    requires mem.Length == DropFilesSize + 2 * |Flatten(wide)| + TerminatorSize
    modifies mem
    ensures mem[DropFilesSize..] == UnitsToBytes(Flatten(wide) + [0])
    ensures forall k :: 0 <= k < DropFilesSize ==> mem[k] == old(mem[k])
  {
    var dest := DropFilesSize;
    var j := 0;
    while j < |wide|
      invariant 0 <= j <= |wide|
      invariant dest == DropFilesSize + 2 * |Flatten(wide[..j])|
      invariant dest + 2 * |Flatten(wide[j..])| + TerminatorSize == mem.Length
      invariant mem[DropFilesSize..dest] == UnitsToBytes(Flatten(wide[..j]))
      invariant forall k :: 0 <= k < DropFilesSize ==> mem[k] == old(mem[k])
    {
      FlattenAppend([wide[j]], wide[j + 1..]);
      assert wide[j..] == [wide[j]] + wide[j + 1..];
      StoreNext(mem, dest, Flatten(wide[..j]), wide[j]);
      assert wide[..j + 1] == wide[..j] + [wide[j]];
      FlattenSnoc(wide[..j], wide[j]);
      dest := dest + 2 * |wide[j]|;
      j := j + 1;
    }
    assert wide[..j] == wide;
    StoreNext(mem, dest, Flatten(wide), [0]);
  }

  /** One more run of units stored right after those already in the list. */
  method StoreNext(mem: array<byte>, dest: nat, done: seq<u16>, units: seq<u16>)
    requires dest == DropFilesSize + 2 * |done| && dest + 2 * |units| <= mem.Length
    requires mem[DropFilesSize..dest] == UnitsToBytes(done)
    modifies mem
    ensures mem[DropFilesSize..dest + 2 * |units|] == UnitsToBytes(done + units)
    ensures forall k :: 0 <= k < DropFilesSize ==> mem[k] == old(mem[k])
  {
    ghost var before := mem[..];
    StoreUnits(mem, dest, units);
    assert mem[DropFilesSize..dest] == before[DropFilesSize..dest];
    assert mem[DropFilesSize..dest + 2 * |units|] == mem[DropFilesSize..dest] + mem[dest..dest + 2 * |units|];
    UnitsToBytesAppend(done, units);
  }

  /** A u32 field store into the locked block. */
  method StoreU32(mem: array<byte>, at: nat, v: nat)
    requires at + 4 <= mem.Length && v < 0x1_0000_0000
    modifies mem
    ensures mem[at..at + 4] == LeU32(v)
    ensures forall k :: 0 <= k < mem.Length && !(at <= k < at + 4) ==> mem[k] == old(mem[k])
  {
    var bytes := LeU32(v);
    mem[at] := bytes[0];
    mem[at + 1] := bytes[1];
    mem[at + 2] := bytes[2];
    mem[at + 3] := bytes[3];
  }

  /** `copy_nonoverlapping` of UTF-16 units into the block at byte offset `at`. */
  method StoreUnits(mem: array<byte>, at: nat, units: seq<u16>)
    requires at + 2 * |units| <= mem.Length
    modifies mem
    ensures mem[at..at + 2 * |units|] == UnitsToBytes(units)
    ensures forall k :: 0 <= k < mem.Length && !(at <= k < at + 2 * |units|) ==> mem[k] == old(mem[k])
  {
    var j := 0;
    while j < |units|
      invariant 0 <= j <= |units|
      invariant forall k :: 0 <= k < 2 * j ==> mem[at + k] == UnitsToBytes(units)[k]
      invariant forall k :: 0 <= k < mem.Length && !(at <= k < at + 2 * j) ==> mem[k] == old(mem[k])
    {
      mem[at + 2 * j] := units[j] % 0x100;
      mem[at + 2 * j + 1] := units[j] / 0x100;
      j := j + 1;
    }
  }
}
