/** The second Windows writer: it builds the CF_HDROP block from the paths as
    given (no canonicalisation) in a zero-initialised allocation made before
    the clipboard is opened, ignores the result of emptying the clipboard, and
    reports failures as the last OS error. */
module WindowsZeroInit {
  import opened Wrappers
  import opened Errors
  import opened Unicode
  import opened DropFiles
  import opened Win32

  /** `copy_files_to_clipboard` with GMEM_ZEROINIT. The allocation is unwrapped,
      so a failing allocation is outside what the function handles. */
  method CopyFilesToClipboard(env: Win32Clipboard, paths: seq<string>) returns (r: Result<Unit, IoError>)
    requires !env.isOpen && env.block == NoBlock && !env.dataLocked
    requires !env.allocFails
    modifies env
    ensures !env.isOpen && !env.dataLocked
    ensures r.Ok? <==> env.block == HandedOver
    ensures r.Err? <==> env.block == Freed
    ensures r.Ok? <==> !env.lockFails && !env.openFails && !env.setFails
    ensures r.Err? ==> r.error == env.lastOsError
    ensures env.lockFails || env.openFails ==> env.formats == old(env.formats)
    ensures (!env.lockFails && !env.openFails && !env.setFails) ==>
      env.formats == (if env.emptyFails then old(env.formats) else map[])[CF_HDROP := Block(paths)]
    ensures (!env.lockFails && !env.openFails && env.setFails) ==>
      env.formats == (if env.emptyFails then old(env.formats) else map[])
  {
    var widePaths := WidePaths(paths);
    var totalSize := SizeOfList(widePaths);
    totalSize := totalSize + TerminatorSize;

    var gotMem, mem := env.GlobalAlloc(totalSize, true);
    if !gotMem {
      assert false;
    }
    var locked := env.GlobalLock();
    if !locked {
      env.GlobalFree();
      return Err(env.lastOsError);
    }
    FillZeroedBlock(mem, widePaths);
    env.GlobalUnlock();

    var didOpen := env.OpenClipboard();
    if !didOpen {
      env.GlobalFree();
      return Err(env.lastOsError);
    }
    var _ := env.EmptyClipboard();
    var handedOver := env.SetClipboardData(CF_HDROP, mem);
    env.CloseClipboard();
    if !handedOver {
      env.GlobalFree();
      return Err(env.lastOsError);
    }
    return Ok(Unit);
  }

  /** The size loop: the header plus two bytes per unit of every path. */
  method SizeOfList(widePaths: seq<seq<u16>>) returns (totalSize: nat)
    ensures totalSize == DropFilesSize + 2 * |Flatten(widePaths)|
  {
    totalSize := DropFilesSize;
    var i := 0;
    while i < |widePaths|
      invariant 0 <= i <= |widePaths|
      invariant totalSize == DropFilesSize + 2 * |Flatten(widePaths[..i])|
    {
      assert widePaths[..i + 1] == widePaths[..i] + [widePaths[i]];
      FlattenSnoc(widePaths[..i], widePaths[i]);
      totalSize := totalSize + |widePaths[i]| * 2;
      i := i + 1;
    }
    assert widePaths[..i] == widePaths;
  }

  /** The stores into the zeroed block: pFiles and fWide of the header (the
      drop point and fNC keep their zeros), then the list. */
  method FillZeroedBlock(mem: array<byte>, widePaths: seq<seq<u16>>)
    requires mem.Length == DropFilesSize + 2 * |Flatten(widePaths)| + TerminatorSize
    requires forall k :: 0 <= k < mem.Length ==> mem[k] == 0
    modifies mem
    ensures mem[..] == Header() + UnitsToBytes(Flatten(widePaths) + [0])
  {
    StoreU32(mem, 0, DropFilesSize);   // pFiles
    StoreU32(mem, 16, 1);              // fWide; pt and fNC keep their zeros
    assert mem[..DropFilesSize] == Header() by {
      assert mem[..DropFilesSize] == mem[0..4] + mem[4..16] + mem[16..20];
      assert mem[4..16] == LeU32(0) + LeU32(0) + LeU32(0);
    }
    ghost var header := mem[..DropFilesSize];
    StoreList(mem, widePaths);
    assert mem[..DropFilesSize] == header;
    assert mem[..] == mem[..DropFilesSize] + mem[DropFilesSize..];
  }
}
