/** The part of the Win32 API the Windows adapters call: the clipboard
    (open/close/empty/get/set), global memory (alloc/lock/unlock/free/size)
    and `DragQueryFileW`. One object is the API as one process sees it
    during one operation: the clipboard content, who holds the clipboard,
    the state of the block being written, and which calls fail. */
module Win32 {
  import opened Unicode
  import opened Errors
  import opened DropFiles

  const CF_UNICODETEXT: nat := 13
  const CF_HDROP: nat := 15

  /** The life of the global block a writer allocates. Only an unlocked block
      may be freed or handed to the clipboard, and only once. */
  datatype BlockState = NoBlock | Unlocked | Locked | Freed | HandedOver

  class Win32Clipboard {
    /** The clipboard content: format number to the bytes of its global block. */
    var formats: map<nat, seq<byte>>
    /** This process holds the clipboard open. */
    var isOpen: bool
    var block: BlockState
    /** A block obtained with `GetClipboardData` is locked. */
    var dataLocked: bool

    // which calls fail during this operation
    const openFails: bool
    const emptyFails: bool
    const allocFails: bool
    const lockFails: bool
    const setFails: bool
    const getFails: bool
    /** `{:?}` of `GetLastError()` after a failed call. */
    const lastError: string
    /** `io::Error::last_os_error()` after a failed call. */
    const lastOsError: IoError

    constructor (formats: map<nat, seq<byte>>, openFails: bool, emptyFails: bool, allocFails: bool,
                 lockFails: bool, setFails: bool, getFails: bool, lastError: string, lastOsError: IoError)
      ensures this.formats == formats && !isOpen && block == NoBlock && !dataLocked
      ensures this.openFails == openFails && this.emptyFails == emptyFails && this.allocFails == allocFails
      ensures this.lockFails == lockFails && this.setFails == setFails && this.getFails == getFails
      ensures this.lastError == lastError && this.lastOsError == lastOsError
    {
      this.formats := formats;
      isOpen := false;
      block := NoBlock;
      dataLocked := false;
      this.openFails := openFails;
      this.emptyFails := emptyFails;
      this.allocFails := allocFails;
      this.lockFails := lockFails;
      this.setFails := setFails;
      this.getFails := getFails;
      this.lastError := lastError;
      this.lastOsError := lastOsError;
    }

    method OpenClipboard() returns (ok: bool)
      requires !isOpen
      modifies this
      ensures ok == !openFails && isOpen == ok
      ensures formats == old(formats) && block == old(block) && dataLocked == old(dataLocked)
    {
      ok := !openFails;
      isOpen := ok;
    }

    method CloseClipboard()
      requires isOpen
      modifies this
      ensures !isOpen
      ensures formats == old(formats) && block == old(block) && dataLocked == old(dataLocked)
    {
      isOpen := false;
    }

    method EmptyClipboard() returns (ok: bool)
      requires isOpen
      modifies this
      ensures ok == !emptyFails
      ensures formats == (if ok then map[] else old(formats))
      ensures isOpen && block == old(block) && dataLocked == old(dataLocked)
    {
      ok := !emptyFails;
      if ok {
        formats := map[];
      }
    }

    /** `GlobalAlloc`; with GMEM_ZEROINIT the block starts zeroed, otherwise
        its content is unspecified. */
    method GlobalAlloc(size: nat, zeroInit: bool) returns (ok: bool, mem: array<byte>)
      requires block == NoBlock
      modifies this
      ensures fresh(mem)
      ensures ok == !allocFails
      ensures ok ==> mem.Length == size && block == Unlocked
      ensures ok && zeroInit ==> forall i :: 0 <= i < mem.Length ==> mem[i] == 0
      ensures !ok ==> block == NoBlock
      ensures formats == old(formats) && isOpen == old(isOpen) && dataLocked == old(dataLocked)
    {
      ok := !allocFails;
      if !ok {
        mem := new byte[0];
        return;
      }
      if zeroInit {
        mem := new byte[size](_ => 0);
      } else {
        mem := new byte[size];
      }
      block := Unlocked;
    }

    method GlobalLock() returns (ok: bool)
      requires block == Unlocked
      modifies this
      ensures ok == !lockFails
      ensures block == (if ok then Locked else Unlocked)
      ensures formats == old(formats) && isOpen == old(isOpen) && dataLocked == old(dataLocked)
    {
      ok := !lockFails;
      if ok {
        block := Locked;
      }
    }

    method GlobalUnlock()
      requires block == Locked
      modifies this
      ensures block == Unlocked
      ensures formats == old(formats) && isOpen == old(isOpen) && dataLocked == old(dataLocked)
    {
      block := Unlocked;
    }

    method GlobalFree()
      requires block == Unlocked
      modifies this
      ensures block == Freed
      ensures formats == old(formats) && isOpen == old(isOpen) && dataLocked == old(dataLocked)
    {
      block := Freed;
    }

    /** `SetClipboardData`: on success the clipboard owns the block. */
    method SetClipboardData(format: nat, mem: array<byte>) returns (ok: bool)
      requires isOpen && block == Unlocked
      modifies this
      ensures ok == !setFails
      ensures ok ==> block == HandedOver && formats == old(formats)[format := mem[..]]
      ensures !ok ==> block == Unlocked && formats == old(formats)
      ensures isOpen && dataLocked == old(dataLocked)
    {
      ok := !setFails;
      if ok {
        block := HandedOver;
        formats := formats[format := mem[..]];
      }
    }

    function IsClipboardFormatAvailable(format: nat): bool
      reads this
    {
      format in formats
    }

    /** `GetClipboardData`: `ok` is false for an invalid handle. */
    method GetClipboardData(format: nat) returns (ok: bool)
      requires isOpen
      ensures ok == (format in formats && !getFails)
    {
      ok := format in formats && !getFails;
    }

    /** `GlobalLock` on a handle from `GetClipboardData`, giving its bytes. */
    method LockData(format: nat) returns (ok: bool, data: seq<byte>)
      requires isOpen && format in formats && !dataLocked
      modifies this
      ensures formats == old(formats) && isOpen && block == old(block)
      ensures ok == !lockFails && dataLocked == ok
      ensures ok ==> data == formats[format]
    {
      ok := !lockFails;
      data := if ok then formats[format] else [];
      dataLocked := ok;
    }

    method UnlockData()
      requires dataLocked
      modifies this
      ensures !dataLocked
      ensures formats == old(formats) && isOpen == old(isOpen) && block == old(block)
    {
      dataLocked := false;
    }

    /** `GlobalSize` of a clipboard block. */
    function GlobalSize(format: nat): nat
      requires format in formats
      reads this
    {
      |formats[format]|
    }

    /** The files of the CF_HDROP block, as the shell reads them. */
    function DragQueryEntries(): seq<seq<u16>>
      requires CF_HDROP in formats
      reads this
    {
      DroppedFiles(formats[CF_HDROP])
    }

    /** `DragQueryFileW(hdrop, 0xFFFFFFFF, None)`: the number of files. */
    function DragQueryCount(): nat
      requires CF_HDROP in formats
      reads this
    {
      |DragQueryEntries()|
    }

    /** `DragQueryFileW(hdrop, i, None)`: the length of file `i` in units. */
    function DragQueryLength(i: nat): nat
      requires CF_HDROP in formats && i < DragQueryCount()
      reads this
    {
      |DragQueryEntries()[i]|
    }

    /** `DragQueryFileW(hdrop, i, Some(buffer))`: copies as much of file `i` as
        fits before a closing NUL and returns the number of units copied. */
    method DragQueryFile(i: nat, buffer: array<u16>) returns (copied: nat)
      requires CF_HDROP in formats && i < DragQueryCount()
      modifies buffer
      ensures buffer.Length == 0 ==> copied == 0
      ensures buffer.Length > 0 ==> copied == Min(DragQueryLength(i), buffer.Length - 1)
      ensures copied <= DragQueryLength(i) && buffer[..copied] == DragQueryEntries()[i][..copied]
    {
      if buffer.Length == 0 {
        return 0;
      }
      var entry := DragQueryEntries()[i];
      copied := Min(|entry|, buffer.Length - 1);
      var j := 0;
      while j < copied
        invariant 0 <= j <= copied
        invariant buffer[..j] == entry[..j]
      {
        buffer[j] := entry[j];
        j := j + 1;
      }
      buffer[copied] := 0;
    }
  }

  function Min(a: int, b: int): int { if a < b then a else b }
}
