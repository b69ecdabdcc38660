/**
 * The two callback states the datafile reader hands to the format engine:
 * `CallbackDataNew`, through which the engine reads the header sequentially
 * while the index is built, and `CallbackData`, through which it later reads
 * data payloads at offsets relative to the seek base.
 */
module DfCallbacks {
  import opened Base
  import opened Sys
  import opened DfRead

  /**
   * Whether the data file, which starts `datafileStart` bytes into a file of
   * `actualLen` bytes, is at least `filesize` bytes long.
   */
  function FilesizeFits(actualLen: u64, datafileStart: u64, filesize: u32): (fits: bool)
    requires datafileStart <= actualLen
    ensures fits <==> datafileStart + filesize <= actualLen
  {
    var rest := CheckedSub(actualLen, datafileStart);
    rest.value >= filesize
  }

  /**
   * The part of a `CallbackDataNew` and its file that construction changes:
   * the cursor, the fault script, the offset counter, the seek base, and the
   * cursor position at which the seek base was last set.
   */
  datatype SourceState = SourceState(pos: nat, faults: seq<Fault>, counter: u64, seekBase: Option<u64>, seekBaseAt: nat)

  /**
   * `CallbackDataNew`: the file, the position at which the data file starts in
   * it, the number of bytes read through this state so far, and the seek base
   * once the engine has set it. `seekBaseAt` records where the file's cursor
   * was when the seek base was set.
   */
  class SequentialSource {
    const file: File
    const datafileStart: u64
    var curDatafileOffset: u64
    var seekBase: Option<u64>
    ghost var seekBaseAt: nat

    ghost predicate Valid()
      reads this, file
    {
      file.Valid()
    }

    /** The offset counter follows the cursor: the cursor is `curDatafileOffset` bytes past the start. */
    ghost predicate Tracking()
      reads this, file
    {
      file.pos == datafileStart + curDatafileOffset
    }

    ghost function State(): SourceState
      reads this, file
    {
      SourceState(file.pos, file.faults, curDatafileOffset, seekBase, seekBaseAt)
    }

    /** The seek base is set and, added to the start, gives the cursor position at which it was set. */
    ghost predicate BaseTracking()
      reads this
    {
      seekBase.Some? && seekBase.value + datafileStart == seekBaseAt
    }

    constructor (file: File, datafileStart: u64)
      requires file.Valid()
      ensures Valid()
      ensures this.file == file && this.datafileStart == datafileStart
      ensures curDatafileOffset == 0 && seekBase == None && seekBaseAt == 0
    {
      this.file := file;
      this.datafileStart := datafileStart;
      curDatafileOffset := 0;
      seekBase := None;
      seekBaseAt := 0;
    }

    /**
     * `read`: fills `buffer` from the file as `Fill` describes. A successful
     * fill of `n` bytes advances the offset counter by `n` and returns `n`,
     * unless the sum overflows 64 bits, in which case the result is
     * `SeekOverflow` and the counter stays. A failed fill leaves the counter.
     */
    method Read(buffer: array<u8>) returns (r: Result<nat, IoError>)
      requires Valid()
      modifies this`curDatafileOffset, file, buffer
      ensures Valid() && file.offsetsRead == old(file.offsetsRead)
      ensures Fill(file.data, old(file.pos), old(file.faults), buffer.Length).count <= Avail(file.data, old(file.pos))
      ensures var o := Fill(file.data, old(file.pos), old(file.faults), buffer.Length);
        && file.faults == o.left
        && file.pos == old(file.pos) + o.count
        && (forall i :: 0 <= i < buffer.Length ==>
              buffer[i] == if i < o.count then file.data[old(file.pos) + i] else old(buffer[i]))
      ensures var o := Fill(file.data, old(file.pos), old(file.faults), buffer.Length);
        && (o.Failed? ==> r == Err(o.error) && curDatafileOffset == old(curDatafileOffset))
        && (o.Filled? && old(curDatafileOffset) + o.count <= U64_MAX ==>
              r == Ok(o.count) && curDatafileOffset == old(curDatafileOffset) + o.count)
        && (o.Filled? && old(curDatafileOffset) + o.count > U64_MAX ==>
              r == Err(SeekOverflow) && curDatafileOffset == old(curDatafileOffset))
      ensures old(Tracking()) ==>
        r == Fill(file.data, old(file.pos), old(file.faults), buffer.Length).AsResult() && (r.Ok? ==> Tracking())
    {
      var res := DfRead.Read(file, buffer);
      match res {
        case Ok(n) =>
          var next := So(CheckedAdd(curDatafileOffset, n));
          if next.Err? {
            return Err(next.error);
          }
          curDatafileOffset := next.value;
          r := Ok(n);
        case Err(e) =>
          r := Err(e);
      }
    }

    /** `set_seek_base`: the seek base becomes the offset counter; nothing else changes. */
    method SetSeekBase() returns (r: Result<(), IoError>)
      modifies this`seekBase, this`seekBaseAt
      ensures r == Ok(()) && seekBase == Some(curDatafileOffset) && seekBaseAt == file.pos
      ensures old(Tracking()) ==> BaseTracking()
    {
      seekBase := Some(curDatafileOffset);
      seekBaseAt := file.pos;
      r := Ok(());
    }

    /**
     * `ensure_filesize`: asks the file for its length and tells whether the
     * data file, from `datafileStart` on, holds at least `filesize` bytes.
     * A file shorter than `datafileStart` makes the source panic on `unwrap`,
     * which the precondition excludes.
     */
    method EnsureFilesize(filesize: u32) returns (r: Result<Result<(), ()>, IoError>)
      requires Valid()
      requires !Next(file.faults).Fail? ==> datafileStart <= |file.data|
      modifies file`faults
      ensures file.faults == Rest(old(file.faults))
      ensures Next(old(file.faults)).Fail? ==> r == Err(Next(old(file.faults)).error)
      ensures !Next(old(file.faults)).Fail? ==>
        r.Ok? && (r.value.Ok? <==> datafileStart + filesize <= |file.data|)
    {
      var actual := file.Length();
      if actual.Err? {
        return Err(actual.error);
      }
      r := Ok(if FilesizeFits(actual.value, datafileStart, filesize) then Ok(()) else Err(()));
    }
  }

  /**
   * What `seek_read` yields: `SeekOverflow` without reading when `seekBase +
   * start` does not fit in 64 bits, otherwise what `read_offset` yields at that offset.
   */
  function SeekReadOutcome(data: seq<u8>, faults: seq<Fault>, seekBase: u64, start: u32, want: nat): Outcome
  {
    if seekBase + start > U64_MAX then Failed(SeekOverflow, 0, faults)
    else ReadOffsetOutcome(data, faults, seekBase + start, want)
  }

  /** `CallbackData`: the file, read only at positions, and the seek base payload offsets are relative to. */
  class RandomAccessSource {
    const file: File
    const seekBase: u64

    constructor (file: File, seekBase: u64)
      ensures this.file == file && this.seekBase == seekBase
    {
      this.file := file;
      this.seekBase := seekBase;
    }

    /**
     * `seek_read`: fills `buffer` from file position `seekBase + start`. When
     * that sum overflows nothing is read; otherwise every positioned read
     * lies in `[seekBase + start, seekBase + start + buffer.Length)`.
     */
    method SeekRead(start: u32, buffer: array<u8>) returns (r: Result<nat, IoError>)
      requires file.Valid()
      modifies file, buffer
      ensures file.Valid() && file.pos == old(file.pos)
      ensures SeekReadOutcome(file.data, old(file.faults), seekBase, start, buffer.Length).count
        <= Avail(file.data, seekBase + start)
      ensures var o := SeekReadOutcome(file.data, old(file.faults), seekBase, start, buffer.Length);
        && r == o.AsResult()
        && file.faults == o.left
        && (forall i :: 0 <= i < buffer.Length ==>
              buffer[i] == if i < o.count then file.data[seekBase + start + i] else old(buffer[i]))
      ensures |old(file.offsetsRead)| <= |file.offsetsRead|
      ensures file.offsetsRead[..|old(file.offsetsRead)|] == old(file.offsetsRead)
      ensures forall i :: |old(file.offsetsRead)| <= i < |file.offsetsRead| ==>
        seekBase + start <= file.offsetsRead[i] < seekBase + start + buffer.Length <= U64_MAX
    {
      var offset := So(CheckedAdd(seekBase, start));
      if offset.Err? {
        return Err(offset.error);
      }
      r := ReadOffset(file, buffer, offset.value);
    }

    /** `alloc_data`: a new buffer of exactly `length` bytes. */
    method AllocData(length: nat) returns (r: Result<array<u8>, IoError>)
      ensures r.Ok? && fresh(r.value) && r.value.Length == length
    {
      var buffer := new u8[length];
      r := Ok(buffer);
    }
  }
}
