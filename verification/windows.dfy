/** The Windows adapter: writes canonicalised paths as a CF_HDROP block,
    reads CF_UNICODETEXT as text or raw bytes, and reads the CF_HDROP list
    back. Every call that opens the clipboard closes it on every exit, and
    the writer frees its block exactly when it fails after allocating it. */
module Windows {
  import opened Wrappers
  import opened Errors
  import opened Unicode
  import opened Paths
  import opened DropFiles
  import opened Win32

  /** An error carrying the `{:?}` rendering of the last Win32 error. */
  function Win32Error(what: string, lastError: string): IoError {
    IoError(Other, what + ": " + lastError)
  }

  const NoText: string := "No text available in clipboard"
  const NoData: string := "No data available in clipboard"
  const NoFilePaths: string := "No file paths available in clipboard"
  const NoValidFilePaths: string := "No valid file paths found in clipboard"

  /** The error for a path that does not canonicalise to valid Unicode. */
  function PathError(path: string, c: Canonical): IoError
    requires !c.Resolved?
  {
    match c
    case Unresolvable(e) => IoError(InvalidInput, "Failed to canonicalize path " + path + ": " + e)
    case NotUnicode(_, debug) => IoError(InvalidInput, "Path contains invalid characters: " + debug)
  }

  /** `to_wide_null` on Basic Multilingual Plane text: one unit per character,
      the character's code, then NUL. */
  lemma ToWideNullBmp(s: string)
    requires forall i :: 0 <= i < |s| ==> s[i] as int < 0x1_0000
    ensures |ToWideNull(s)| == |s| + 1 && ToWideNull(s)[|s|] == 0
    ensures forall i :: 0 <= i < |s| ==> ToWideNull(s)[i] == s[i] as int
  {
    Utf16LengthBmp(s);
  }

  /** The header stores of `copy_files_to_clipboard`. */
  method StoreHeader(mem: array<byte>)
    requires DropFilesSize <= mem.Length
    modifies mem
    ensures mem[..DropFilesSize] == Header()
    ensures forall k :: DropFilesSize <= k < mem.Length ==> mem[k] == old(mem[k])
  {
    StoreFieldAfter(mem, 0, DropFilesSize, []);                                        // pFiles
    StoreFieldAfter(mem, 4, 0, LeU32(DropFilesSize));                                  // pt.x
    StoreFieldAfter(mem, 8, 0, LeU32(DropFilesSize) + LeU32(0));                       // pt.y
    StoreFieldAfter(mem, 12, 0, LeU32(DropFilesSize) + LeU32(0) + LeU32(0));           // fNC
    StoreFieldAfter(mem, 16, 1, LeU32(DropFilesSize) + LeU32(0) + LeU32(0) + LeU32(0)); // fWide
  }

  /** A field store right after the fields already stored. */
  method StoreFieldAfter(mem: array<byte>, at: nat, v: nat, ghost done: seq<byte>)
    requires at + 4 <= mem.Length && v < 0x1_0000_0000
    requires mem[..at] == done
    modifies mem
    ensures mem[..at + 4] == done + LeU32(v)
    ensures forall k :: at + 4 <= k < mem.Length ==> mem[k] == old(mem[k])
  {
    StoreU32(mem, at, v);
    assert mem[..at + 4] == mem[..at] + mem[at..at + 4];
  }

  /** `copy_files_to_clipboard`: opens and empties the clipboard, canonicalises
      every path, builds the block and hands it to the clipboard. */
  method CopyFilesToClipboard(env: Win32Clipboard, paths: seq<string>, resolve: Resolver)
    returns (r: Result<Unit, IoError>)
    requires !env.isOpen && env.block == NoBlock && !env.dataLocked
    modifies env
    ensures !env.isOpen && !env.dataLocked
    ensures r.Ok? <==> env.block == HandedOver
    ensures r.Ok? <==> !env.openFails && !env.emptyFails && AllResolved(paths, resolve)
                       && !env.allocFails && !env.lockFails && !env.setFails
    ensures r.Ok? ==> env.formats == map[CF_HDROP := Block(CanonicalPaths(paths, resolve))]
    ensures env.openFails ==> r == Err(Win32Error("Failed to open clipboard", env.lastError))
    ensures !env.openFails && env.emptyFails ==> r == Err(Win32Error("Failed to empty clipboard", env.lastError))
    ensures env.openFails || env.emptyFails ==> env.formats == old(env.formats)
    ensures !env.openFails && !env.emptyFails && !AllResolved(paths, resolve) ==>
      r == Err(PathError(paths[FirstUnresolved(paths, resolve)], resolve(paths[FirstUnresolved(paths, resolve)])))
    ensures !env.openFails && !env.emptyFails && AllResolved(paths, resolve) && env.allocFails ==>
      r == Err(Win32Error("Failed to allocate memory", env.lastError))
    ensures !env.openFails && !env.emptyFails && AllResolved(paths, resolve) && !env.allocFails && env.lockFails ==>
      r == Err(Win32Error("Failed to lock memory", env.lastError))
    ensures (!env.openFails && !env.emptyFails && AllResolved(paths, resolve) && !env.allocFails &&
             !env.lockFails && env.setFails) ==> r == Err(Win32Error("Failed to set clipboard data", env.lastError))
    ensures r.Err? && !env.openFails && !env.emptyFails ==> env.formats == map[]
    ensures env.block == Freed <==> r.Err? && !env.openFails && !env.emptyFails && AllResolved(paths, resolve)
                                    && !env.allocFails
    ensures env.block == NoBlock <==> r.Err? && !(env.block == Freed)
  {
    var didOpen := env.OpenClipboard();
    if !didOpen {
      return Err(Win32Error("Failed to open clipboard", env.lastError));
    }
    var emptied := env.EmptyClipboard();
    if !emptied {
      env.CloseClipboard();
      return Err(Win32Error("Failed to empty clipboard", env.lastError));
    }

    var widePaths, totalSize, failed := WidenCanonical(paths, resolve);
    if failed.Some? {
      env.CloseClipboard();
      return Err(PathError(paths[failed.value], resolve(paths[failed.value])));
    }

    var gotMem, mem := env.GlobalAlloc(totalSize, false);
    if !gotMem {
      env.CloseClipboard();
      return Err(Win32Error("Failed to allocate memory", env.lastError));
    }
    var locked := env.GlobalLock();
    if !locked {
      env.GlobalFree();
      env.CloseClipboard();
      return Err(Win32Error("Failed to lock memory", env.lastError));
    }
    FillBlock(mem, widePaths);
    env.GlobalUnlock();

    var handedOver := env.SetClipboardData(CF_HDROP, mem);
    if !handedOver {
      env.GlobalFree();
      env.CloseClipboard();
      return Err(Win32Error("Failed to set clipboard data", env.lastError));
    }
    env.CloseClipboard();
    return Ok(Unit);
  }

  /** The canonicalisation loop of `copy_files_to_clipboard`: the NUL-terminated
      UTF-16 form of every canonical path and the allocation size they need,
      or the index of the first path that fails, where the loop stops. */
  method WidenCanonical(paths: seq<string>, resolve: Resolver)
    returns (widePaths: seq<seq<u16>>, totalSize: nat, failed: Option<nat>)
    ensures failed.None? <==> AllResolved(paths, resolve)
    ensures failed.Some? ==> !AllResolved(paths, resolve) && failed.value == FirstUnresolved(paths, resolve)
    ensures failed.None? ==> widePaths == WidePaths(CanonicalPaths(paths, resolve))
    ensures failed.None? ==> totalSize == DropFilesSize + TerminatorSize + 2 * |Flatten(widePaths)|
  {
    totalSize := DropFilesSize + TerminatorSize;
    widePaths := [];
    var i := 0;
    while i < |paths|
      invariant 0 <= i <= |paths|
      invariant AllResolved(paths[..i], resolve)
      invariant |widePaths| == i
      invariant forall j :: 0 <= j < i ==> widePaths[j] == ToWideNull(resolve(paths[j]).path)
      invariant totalSize == DropFilesSize + TerminatorSize + 2 * |Flatten(widePaths)|
    {
      if !resolve(paths[i]).Resolved? {
        FirstUnresolvedAt(paths, resolve, i);
        return widePaths, totalSize, Some(i);
      }
      ResolvedPrefix(paths, resolve, i);
      var wide := ToWideNull(resolve(paths[i]).path);
      FlattenSnoc(widePaths, wide);
      totalSize := totalSize + |wide| * 2;
      widePaths := widePaths + [wide];
      i := i + 1;
    }
    assert paths[..i] == paths;
    failed := None;
  }

  /** The header and list stores into the locked block. */
  method FillBlock(mem: array<byte>, widePaths: seq<seq<u16>>)
    requires mem.Length == DropFilesSize + 2 * |Flatten(widePaths)| + TerminatorSize
    modifies mem
    ensures mem[..] == Header() + UnitsToBytes(Flatten(widePaths) + [0])
  {
    StoreHeader(mem);
    ghost var header := mem[..DropFilesSize];
    StoreList(mem, widePaths);
    assert mem[..] == mem[..DropFilesSize] + mem[DropFilesSize..];
    assert mem[..DropFilesSize] == header;
  }

  // ---------------------------------------------------------------- reading

  /** The text of a CF_UNICODETEXT block: its units up to the first NUL,
      decoded with replacement of unpaired surrogates. */
  function TextOfBlock(data: seq<byte>): string
    requires 0 in BytesToUnits(data)
  {
    var units := BytesToUnits(data);
    Utf16DecodeLossy(units[..IndexOfUnit(units, 0)])
  }

  /** Text stored as NUL-terminated UTF-16 is read back unchanged. */
  lemma TextBlockRoundTrip(s: string)
    requires '\0' !in s
    ensures 0 in BytesToUnits(UnitsToBytes(ToWideNull(s)))
    ensures TextOfBlock(UnitsToBytes(ToWideNull(s))) == s
  {
    var w := ToWideNull(s);
    UnitsBytesRoundTrip(w);
    Utf16NoNul(s);
    assert w[|w| - 1] == 0;
    assert w[..|w| - 1] == Utf16Encode(s);
    assert IndexOfUnit(w, 0) == |w| - 1;
    Utf16RoundTrip(s);
  }

  /** The scan for the closing NUL unit: the number of units before it. */
  method NulLength(units: seq<u16>) returns (len: nat)
    requires 0 in units
    ensures len == IndexOfUnit(units, 0)
  {
    len := 0;
    while units[len] != 0
      invariant len <= IndexOfUnit(units, 0)
      decreases |units| - len
    {
      len := len + 1;
    }
  }

  /** `read_clipboard_text`. The block must hold a NUL unit: the source scans
      for one without a bound. */
  method ReadClipboardText(env: Win32Clipboard) returns (r: Result<string, IoError>)
    requires !env.isOpen && !env.dataLocked
    requires CF_UNICODETEXT in env.formats ==> 0 in BytesToUnits(env.formats[CF_UNICODETEXT])
    modifies env
    ensures !env.isOpen && !env.dataLocked
    ensures env.formats == old(env.formats) && env.block == old(env.block)
    ensures env.openFails ==> r == Err(Win32Error("Failed to open clipboard", env.lastError))
    ensures !env.openFails && CF_UNICODETEXT !in env.formats ==> r == Err(IoError(Other, NoText))
    ensures !env.openFails && CF_UNICODETEXT in env.formats && env.getFails ==>
      r == Err(Win32Error("Failed to get clipboard data", env.lastError))
    ensures !env.openFails && CF_UNICODETEXT in env.formats && !env.getFails && env.lockFails ==>
      r == Err(Win32Error("Failed to lock memory", env.lastError))
    ensures !env.openFails && CF_UNICODETEXT in env.formats && !env.getFails && !env.lockFails ==>
      r == Ok(TextOfBlock(env.formats[CF_UNICODETEXT]))
  {
    var didOpen := env.OpenClipboard();
    if !didOpen {
      return Err(Win32Error("Failed to open clipboard", env.lastError));
    }
    if !env.IsClipboardFormatAvailable(CF_UNICODETEXT) {
      env.CloseClipboard();
      return Err(IoError(Other, NoText));
    }
    var handle := env.GetClipboardData(CF_UNICODETEXT);
    if !handle {
      env.CloseClipboard();
      return Err(Win32Error("Failed to get clipboard data", env.lastError));
    }
    var locked, data := env.LockData(CF_UNICODETEXT);
    if !locked {
      env.CloseClipboard();
      return Err(Win32Error("Failed to lock memory", env.lastError));
    }
    var units := BytesToUnits(data);
    var len := NulLength(units);
    var text := Utf16DecodeLossy(units[..len]);
    env.UnlockData();
    env.CloseClipboard();
    return Ok(text);
  }

  /** `read_clipboard_raw`: the CF_UNICODETEXT block's bytes as they are. */
  method ReadClipboardRaw(env: Win32Clipboard) returns (r: Result<seq<byte>, IoError>)
    requires !env.isOpen && !env.dataLocked
    modifies env
    ensures !env.isOpen && !env.dataLocked
    ensures env.formats == old(env.formats) && env.block == old(env.block)
    ensures env.openFails ==> r == Err(Win32Error("Failed to open clipboard", env.lastError))
    ensures !env.openFails && (CF_UNICODETEXT !in env.formats || env.getFails) ==>
      r == Err(Win32Error("Failed to get clipboard data", env.lastError))
    ensures !env.openFails && CF_UNICODETEXT in env.formats && !env.getFails && env.lockFails ==>
      r == Err(Win32Error("Failed to lock memory", env.lastError))
    ensures !env.openFails && CF_UNICODETEXT in env.formats && !env.getFails && !env.lockFails ==>
      r == (if env.formats[CF_UNICODETEXT] == [] then Err(IoError(Other, NoData))
            else Ok(env.formats[CF_UNICODETEXT]))
  {
    var didOpen := env.OpenClipboard();
    if !didOpen {
      return Err(Win32Error("Failed to open clipboard", env.lastError));
    }
    var handle := env.GetClipboardData(CF_UNICODETEXT);
    if !handle {
      env.CloseClipboard();
      return Err(Win32Error("Failed to get clipboard data", env.lastError));
    }
    var locked, block := env.LockData(CF_UNICODETEXT);
    if !locked {
      env.CloseClipboard();
      return Err(Win32Error("Failed to lock memory", env.lastError));
    }
    var size := env.GlobalSize(CF_UNICODETEXT);
    var data: seq<byte> := if size > 0 then block[..size] else [];
    assert block[..size] == block;
    env.UnlockData();
    env.CloseClipboard();
    if data == [] {
      return Err(IoError(Other, NoData));
    }
    return Ok(data);
  }

  /** The entries of a list that are not empty, each decoded, in order. */
  function DecodeNonEmpty<E>(decode: seq<E> -> string, entries: seq<seq<E>>): (r: seq<string>)
    ensures |r| <= |entries|
  {
    if entries == [] then []
    else
      var last := entries[|entries| - 1];
      DecodeNonEmpty(decode, entries[..|entries| - 1]) + (if |last| > 0 then [decode(last)] else [])
  }

  /** The file names of a list, decoded, skipping empty entries. */
  function DecodeEntries(entries: seq<seq<u16>>): (r: seq<string>)
    ensures |r| <= |entries|
  {
    DecodeNonEmpty(Utf16DecodeLossy, entries)
  }

  /** The paths a CF_HDROP block lists. */
  function DroppedPaths(block: seq<byte>): seq<string> {
    DecodeEntries(DroppedFiles(block))
  }

  /** Entries that are all non-empty are each decoded, in order. */
  lemma {:induction false} DecodeNonEmptyAll<E>(decode: seq<E> -> string, entries: seq<seq<E>>)
    requires forall i :: 0 <= i < |entries| ==> entries[i] != []
    ensures |DecodeNonEmpty(decode, entries)| == |entries|
    ensures forall i :: 0 <= i < |entries| ==> DecodeNonEmpty(decode, entries)[i] == decode(entries[i])
  {
    if entries != [] {
      var n := |entries| - 1;
      var front := entries[..n];
      forall i | 0 <= i < n ensures front[i] != [] {
        assert front[i] == entries[i];
      }
      DecodeNonEmptyAll(decode, front);
      assert DecodeNonEmpty(decode, entries) == DecodeNonEmpty(decode, front) + [decode(entries[n])];
      forall i | 0 <= i < n ensures DecodeNonEmpty(decode, entries)[i] == decode(entries[i]) {
        assert front[i] == entries[i];
      }
    }
  }

  lemma DecodeAllEntries(entries: seq<seq<u16>>)
    requires forall i :: 0 <= i < |entries| ==> entries[i] != []
    ensures |DecodeEntries(entries)| == |entries|
    ensures forall i :: 0 <= i < |entries| ==> DecodeEntries(entries)[i] == Utf16DecodeLossy(entries[i])
  {
    DecodeNonEmptyAll(Utf16DecodeLossy, entries);
  }

  /** The reader returns exactly the paths the writer stored, provided each is
      non-empty and free of NUL. */
  lemma HdropRoundTrip(paths: seq<string>)
    requires forall i :: 0 <= i < |paths| ==> paths[i] != "" && '\0' !in paths[i]
    ensures DroppedPaths(Block(paths)) == paths
  {
    DropFilesRoundTrip(paths);
    var e := EncodedPaths(paths);
    forall i | 0 <= i < |paths| ensures e[i] != [] && Utf16DecodeLossy(e[i]) == paths[i] {
      Utf16LengthAtLeast(paths[i]);
      Utf16RoundTrip(paths[i]);
    }
    DecodeAllEntries(e);
  }

  /** Extending a list by one entry extends its decoding by that entry's
      decoding, when it is not empty. */
  lemma DecodeEntriesStep(entries: seq<seq<u16>>, i: nat)
    requires i < |entries|
    ensures DecodeEntries(entries[..i + 1]) ==
      DecodeEntries(entries[..i]) + (if |entries[i]| > 0 then [Utf16DecodeLossy(entries[i])] else [])
  {
    assert entries[..i + 1][..i] == entries[..i];
  }

  /** The loop of `read_clipboard_file_paths`: every file of the list fetched
      into a buffer one unit longer than its length, the non-empty ones
      decoded, in order. */
  method QueryPaths(env: Win32Clipboard) returns (paths: seq<string>)
    requires CF_HDROP in env.formats
    ensures paths == DroppedPaths(env.formats[CF_HDROP])
  {
    var fileCount := env.DragQueryCount();
    ghost var entries := env.DragQueryEntries();
    paths := [];
    var i := 0;
    while i < fileCount
      invariant 0 <= i <= fileCount
      invariant paths == DecodeEntries(entries[..i])
    {
      var size := env.DragQueryLength(i) + 1;
      var buffer := new u16[size];
      var length := env.DragQueryFile(i, buffer);
      DecodeEntriesStep(entries, i);
      if length > 0 {
        assert buffer[..length] == entries[i];
        var path := Utf16DecodeLossy(buffer[..length]);
        paths := paths + [path];
      }
      i := i + 1;
    }
    assert entries[..i] == entries;
  }

  /** `read_clipboard_file_paths`: asks for the file count, then fetches each
      file into a buffer one unit longer than its length. */
  method ReadClipboardFilePaths(env: Win32Clipboard) returns (r: Result<seq<string>, IoError>)
    requires !env.isOpen && !env.dataLocked
    modifies env
    ensures !env.isOpen && !env.dataLocked
    ensures env.formats == old(env.formats) && env.block == old(env.block)
    ensures env.openFails ==> r == Err(Win32Error("Failed to open clipboard", env.lastError))
    ensures !env.openFails && CF_HDROP !in env.formats ==> r == Err(IoError(Other, NoFilePaths))
    ensures !env.openFails && CF_HDROP in env.formats && env.getFails ==>
      r == Err(Win32Error("Failed to get clipboard data", env.lastError))
    ensures !env.openFails && CF_HDROP in env.formats && !env.getFails ==>
      r == (if DroppedPaths(env.formats[CF_HDROP]) == [] then Err(IoError(Other, NoValidFilePaths))
            else Ok(DroppedPaths(env.formats[CF_HDROP])))
  {
    var didOpen := env.OpenClipboard();
    if !didOpen {
      return Err(Win32Error("Failed to open clipboard", env.lastError));
    }
    if !env.IsClipboardFormatAvailable(CF_HDROP) {
      env.CloseClipboard();
      return Err(IoError(Other, NoFilePaths));
    }
    var hdrop := env.GetClipboardData(CF_HDROP);
    if !hdrop {
      env.CloseClipboard();
      return Err(Win32Error("Failed to get clipboard data", env.lastError));
    }
    var paths := QueryPaths(env);
    env.CloseClipboard();
    if paths == [] {
      return Err(IoError(Other, NoValidFilePaths));
    }
    return Ok(paths);
  }
}
