/**
 * The public reader of the datafile crate: its error type and the conversions
 * into it, construction from a file (`new`, `open`), `read_data`, and the
 * iterator over all data entries.
 */
module DfReader {
  import opened Base
  import opened Sys
  import opened DfCallbacks
  import DfRead
  import Raw

  /** `datafile::Error`: a format error, or an I/O error. */
  datatype Error = Df(format: Raw.FormatError) | Io(io: IoError)

  /** `From<format::Error>`. */
  function FromFormat(e: Raw.FormatError): (r: Error)
    ensures r.Df? && r.format == e
  {
    Df(e)
  }

  /** `From<io::Error>`. */
  function FromIo(e: IoError): (r: Error)
    ensures r.Io? && r.io == e
  {
    Io(e)
  }

  /** `From<raw::Error<io::Error>>`: engine errors become `Df`, callback errors `Io`, carrying the same error. */
  function FromRaw(e: Raw.RawError): (r: Error)
    ensures e.Df? <==> r.Df?
    ensures e.Df? ==> r.format == e.format
    ensures e.Cb? ==> r.io == e.io
  {
    match e
    case Df(f) => Df(f)
    case Cb(io) => Io(io)
  }

  /** `From<raw::WrapCallbackError<io::Error>>`: the wrapped error, as `Io`. */
  function FromWrap(e: Raw.WrapCallbackError): (r: Error)
    ensures r.Io? && r.io == e.io
  {
    Io(e.io)
  }

  /**
   * The conversions lose nothing and agree with each other: distinct engine
   * errors stay distinct, and converting a format or I/O error directly gives
   * what converting it through `raw::Error` or `WrapCallbackError` gives.
   */
  lemma ConversionsAgree(a: Raw.RawError, b: Raw.RawError, f: Raw.FormatError, io: IoError)
    ensures FromRaw(a) == FromRaw(b) <==> a == b
    ensures FromFormat(f) == FromRaw(Raw.Df(f))
    ensures FromIo(io) == FromRaw(Raw.Cb(io)) == FromWrap(Raw.WrapCallbackError(io))
  {
  }

  /** What `read_data(i)` returns, and the fault script it leaves. */
  function DataResult(raw: Raw.Index, data: seq<u8>, faults: seq<Fault>, seekBase: u64, i: nat)
    : (Result<seq<u8>, Error>, seq<Fault>)
  {
    var (res, left) := Raw.DataOutcome(raw, data, faults, seekBase, i);
    (if res.Ok? then Ok(res.value) else Err(FromRaw(res.error)), left)
  }

  /**
   * `read_data` on a file that produces no faults leaves it producing none, so
   * a repeated `read_data(i)` returns the same bytes or the same error.
   */
  lemma ReadDataRepeatable(raw: Raw.Index, data: seq<u8>, seekBase: u64, i: nat)
    ensures DataResult(raw, data, [], seekBase, i).1 == []
  {
    if i < raw.NumData() && raw.plans[i].Fetch? {
      var p := raw.plans[i];
      if seekBase + p.start + p.size <= U64_MAX {
        DfRead.FillCleanStream(data, seekBase + p.start, p.size);
      }
    }
  }

  /** The indices `lo, lo + 1, ..., hi - 1`. */
  function Indices(lo: nat, hi: nat): (s: seq<nat>)
    requires lo <= hi
    ensures |s| == hi - lo && forall k :: 0 <= k < |s| ==> s[k] == lo + k
    decreases hi - lo
  {
    if lo == hi then [] else [lo] + Indices(lo + 1, hi)
  }

  /**
   * `Reader`: the random-access callback state and the engine's index.
   * `fetched` records the entries `read_data` was called for, in order.
   */
  class Reader {
    const callbackData: RandomAccessSource
    const raw: Raw.Index
    ghost var fetched: seq<nat>

    ghost predicate Valid()
      reads this, callbackData, callbackData.file
    {
      callbackData.file.Valid()
    }

    constructor (callbackData: RandomAccessSource, raw: Raw.Index)
      ensures this.callbackData == callbackData && this.raw == raw && fetched == []
    {
      this.callbackData := callbackData;
      this.raw := raw;
      fetched := [];
    }

    /** `num_data`: the number of data entries in the index. */
    function NumData(): nat
    {
      raw.NumData()
    }

    /** `read_data`: the entry's bytes, or the engine's error converted into `Error`. */
    method ReadData(index: nat) returns (r: Result<seq<u8>, Error>)
      requires Valid()
      modifies callbackData.file, this`fetched
      ensures Valid() && callbackData.file.pos == old(callbackData.file.pos)
      ensures fetched == old(fetched) + [index]
      ensures (r, callbackData.file.faults)
        == DataResult(raw, callbackData.file.data, old(callbackData.file.faults), callbackData.seekBase, index)
    ensures Raw.LoggedWithin(raw, callbackData.seekBase, index, old(callbackData.file.offsetsRead), callbackData.file.offsetsRead)
    {
      var res := Raw.ReadData(raw, callbackData, index);
      fetched := fetched + [index];
      if res.Err? {
        return Err(FromRaw(res.error));
      }
      r := Ok(res.value[..]);
    }

    /** `data_iter`: an iterator over entries `0 .. num_data`. */
    method DataIter() returns (it: DataIter)
      requires Valid()
      ensures fresh(it) && it.reader == this && it.end == NumData() && it.next == 0
      ensures it.Valid()
    {
      it := new DataIter(this, NumData());
    }
  }

  /**
   * `DataIter`: yields `read_data(i)` for `i` from `next` up to `end`, then
   * nothing. `fetchedBefore` is what the reader had fetched when the
   * iterator was made; since then it has fetched exactly `0 .. next`.
   */
  class DataIter {
    const reader: Reader
    const end: nat
    var next: nat
    ghost const fetchedBefore: seq<nat>

    ghost predicate Valid()
      reads this, reader, reader.callbackData, reader.callbackData.file
    {
      reader.Valid() && next <= end && reader.fetched == fetchedBefore + Indices(0, next)
    }

    constructor (reader: Reader, end: nat)
      requires reader.Valid()
      ensures Valid() && this.reader == reader && this.end == end && next == 0
      ensures fetchedBefore == reader.fetched
    {
      this.reader := reader;
      this.end := end;
      next := 0;
      fetchedBefore := reader.fetched;
    }

    /** `next`: the next entry's `read_data` result, or `None` once all `end` entries were yielded. */
    method Next() returns (item: Option<Result<seq<u8>, Error>>)
      requires Valid()
      modifies this`next, reader`fetched, reader.callbackData.file
      ensures Valid()
      ensures old(next) == end ==>
        item == None && next == old(next) && unchanged(reader.callbackData.file) && reader.fetched == old(reader.fetched)
      ensures old(next) < end ==>
        && next == old(next) + 1
        && reader.callbackData.file.pos == old(reader.callbackData.file.pos)
        && Raw.LoggedWithin(reader.raw, reader.callbackData.seekBase, old(next),
                            old(reader.callbackData.file.offsetsRead), reader.callbackData.file.offsetsRead)
        && item.Some?
        && (item.value, reader.callbackData.file.faults)
           == DataResult(reader.raw, reader.callbackData.file.data, old(reader.callbackData.file.faults),
                         reader.callbackData.seekBase, old(next))
    {
      if next == end {
        return None;
      }
      var r := reader.ReadData(next);
      assert Indices(0, next + 1) == Indices(0, next) + [next];
      next := next + 1;
      item := Some(r);
    }
  }

  /**
   * What `new_impl` hands the engine: the fault script after the position
   * query of `new` (none for `open`), and where the data file starts.
   */
  function EngineFaults(faults: seq<Fault>, checkInitialOffset: bool): seq<Fault>
  {
    if checkInitialOffset then Rest(faults) else faults
  }

  function DatafileStart(pos: u64, checkInitialOffset: bool): u64
  {
    if checkInitialOffset then pos else 0
  }

  /**
   * The state the engine's construction starts from inside `new_impl`: the
   * file's cursor and script, the counter at 0 and no seek base.
   */
  function Initial(file: File, checkInitialOffset: bool): SourceState
    reads file
  {
    SourceState(file.pos, EngineFaults(file.faults, checkInitialOffset), 0, None, 0)
  }

  /** What the engine's construction returns inside `new_impl`. */
  function Constructed(file: File, checkInitialOffset: bool, script: Raw.Script): Result<Raw.Index, Raw.RawError>
    reads file
  {
    Raw.Built(script.requests, script.verdict, file.data, Initial(file, checkInitialOffset),
              DatafileStart(file.pos, checkInitialOffset))
  }

  /** The state the engine's construction leaves inside `new_impl`. */
  function ConstructedState(file: File, checkInitialOffset: bool, script: Raw.Script): SourceState
    reads file
  {
    Raw.BuiltState(script.requests, file.data, Initial(file, checkInitialOffset),
                   DatafileStart(file.pos, checkInitialOffset))
  }

  /**
   * `new_impl`: the data file starts at the file's current position when
   * `checkInitialOffset` is set (`new`), and at 0 otherwise (`open`). A failed
   * position query is an I/O error. The engine builds its index through a
   * `CallbackDataNew` whose counter starts at 0 with no seek base; its error is
   * converted by `From<raw::Error>`. On success the reader keeps the file as
   * construction left it, the engine's index and the seek base construction
   * set, which is the cursor position at that moment less the data file's
   * start, not the position itself.
   */
  method NewImpl(file: File, checkInitialOffset: bool, script: Raw.Script) returns (r: Result<Reader, Error>)
    requires file.Valid()
    requires !(checkInitialOffset && Next(file.faults).Fail?) && Constructed(file, checkInitialOffset, script).Ok?
      ==> Raw.SetsSeekBase(script.requests)
    requires Raw.ChecksFilesize(script.requests) && checkInitialOffset ==> file.pos <= |file.data|
    modifies file
    ensures file.Valid() && file.offsetsRead == old(file.offsetsRead)
    ensures checkInitialOffset && Next(old(file.faults)).Fail? ==> r == Err(Io(Next(old(file.faults)).error))
    ensures !(checkInitialOffset && Next(old(file.faults)).Fail?) ==>
      var built := old(Constructed(file, checkInitialOffset, script));
      && (r.Ok? <==> built.Ok?)
      && (built.Err? ==> r == Err(FromRaw(built.error)))
    ensures r.Ok? ==>
      var after := old(ConstructedState(file, checkInitialOffset, script));
      && script.verdict.Ok?
      && fresh(r.value)
      && r.value.Valid()
      && r.value.callbackData.file == file
      && r.value.raw == script.verdict.value
      && r.value.fetched == []
      && file.pos == after.pos && file.faults == after.faults
      && after.seekBase.Some? && r.value.callbackData.seekBase == after.seekBase.value
    ensures r.Ok? && (checkInitialOffset || old(file.pos) == 0) ==>
      r.value.callbackData.seekBase + old(file.pos) == old(ConstructedState(file, checkInitialOffset, script)).seekBaseAt
  {
    var datafileStart := 0;
    if checkInitialOffset {
      var position := file.Tell();
      if position.Err? {
        return Err(FromWrap(Raw.WrapCallbackError(position.error)));
      }
      datafileStart := position.value;
    }
    var callbackDataNew := new SequentialSource(file, datafileStart);
    ghost var initial := SourceState(old(file.pos), EngineFaults(old(file.faults), checkInitialOffset), 0, None, 0);
    assert callbackDataNew.State() == initial && datafileStart == DatafileStart(old(file.pos), checkInitialOffset);
    var built := Raw.Construct(callbackDataNew, script);
    if built.Err? {
      return Err(FromRaw(built.error));
    }
    Raw.BuiltOk(script.requests, script.verdict, file.data, initial, datafileStart);
    Raw.BuiltTracking(script.requests, script.verdict, file.data, initial, datafileStart);
    var callbackData := new RandomAccessSource(file, callbackDataNew.seekBase.value);
    var reader := new Reader(callbackData, built.value);
    r := Ok(reader);
  }

  /** Where the engine set the seek base: the cursor position at its last seek-base request. */
  function DataSectionAt(file: File, checkInitialOffset: bool, script: Raw.Script): nat
    reads file
  {
    ConstructedState(file, checkInitialOffset, script).seekBaseAt
  }

  /**
   * `new`: a reader over a file already positioned at the start of the data
   * file; a failed position query is an I/O error, and otherwise the result is
   * the engine's, with the data file starting at the cursor. The seek base
   * plus the initial cursor is where the engine set the seek base.
   */
  method New(file: File, script: Raw.Script) returns (r: Result<Reader, Error>)
    requires file.Valid()
    requires !Next(file.faults).Fail? && Constructed(file, true, script).Ok? ==> Raw.SetsSeekBase(script.requests)
    requires Raw.ChecksFilesize(script.requests) ==> file.pos <= |file.data|
    modifies file
    ensures file.Valid() && file.offsetsRead == old(file.offsetsRead)
    ensures Next(old(file.faults)).Fail? ==> r == Err(Io(Next(old(file.faults)).error))
    ensures !Next(old(file.faults)).Fail? ==>
      var built := Raw.Built(script.requests, script.verdict, file.data,
                             SourceState(old(file.pos), Rest(old(file.faults)), 0, None, 0), old(file.pos));
      && (r.Ok? <==> built.Ok?)
      && (built.Err? ==> r == Err(FromRaw(built.error)))
    ensures r.Ok? ==> fresh(r.value) && r.value.Valid() && r.value.callbackData.file == file && r.value.fetched == []
    ensures r.Ok? ==> script.verdict.Ok? && r.value.raw == script.verdict.value
    ensures r.Ok? ==>
      var after := old(ConstructedState(file, true, script));
      file.pos == after.pos && file.faults == after.faults
      && after.seekBase.Some? && r.value.callbackData.seekBase == after.seekBase.value
    ensures r.Ok? ==> r.value.callbackData.seekBase + old(file.pos) == old(DataSectionAt(file, true, script))
  {
    r := NewImpl(file, true, script);
  }

  /**
   * `open`: opening the file at the path yields its contents or an I/O error;
   * the opened file's cursor is at 0, the data file starts there, the result
   * is the engine's, and the seek base is the position at which the engine
   * set it.
   */
  method Open(contents: Result<seq<u8>, IoError>, faults: seq<Fault>, script: Raw.Script) returns (r: Result<Reader, Error>)
    requires contents.Ok? ==> |contents.value| <= U64_MAX
    requires contents.Ok? && Raw.Built(script.requests, script.verdict, contents.value, SourceState(0, faults, 0, None, 0), 0).Ok?
      ==> Raw.SetsSeekBase(script.requests)
    ensures contents.Err? ==> r == Err(Io(contents.error))
    ensures contents.Ok? ==>
      var built := Raw.Built(script.requests, script.verdict, contents.value, SourceState(0, faults, 0, None, 0), 0);
      && (r.Ok? <==> built.Ok?)
      && (built.Err? ==> r == Err(FromRaw(built.error)))
    ensures r.Ok? ==> contents.Ok? && fresh(r.value) && r.value.Valid() && r.value.fetched == []
    ensures r.Ok? ==> script.verdict.Ok? && r.value.callbackData.file.data == contents.value && r.value.raw == script.verdict.value
    ensures r.Ok? ==>
      var after := Raw.BuiltState(script.requests, contents.value, SourceState(0, faults, 0, None, 0), 0);
      && fresh(r.value.callbackData.file)
      && r.value.callbackData.file.pos == after.pos && r.value.callbackData.file.faults == after.faults
      && r.value.callbackData.file.offsetsRead == []
      && after.seekBase.Some? && r.value.callbackData.seekBase == after.seekBase.value
      && r.value.callbackData.seekBase == after.seekBaseAt
  {
    if contents.Err? {
      return Err(FromIo(contents.error));
    }
    var file := new File(contents.value, 0, faults);
    r := NewImpl(file, false, script);
  }
}
