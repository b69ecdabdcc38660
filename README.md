# The file-backed reading layer of `datafile`, and the `map_stats` error tally

This project models, in Dafny, the part of the Teeworlds `datafile` crate that
stands between an open file and the format engine (`raw::Reader`) that parses
the datafile index, together with the error tally of the `map_stats` tool.

- **Filling buffers.** `read` fills a buffer from a stream. It retries on
  `Interrupted`, stops at end of stream, and passes any other error on.
  `read_offset` does the same with positioned reads. It first refuses with
  `SeekOverflow` (an `InvalidData` I/O error) an `offset + len` that does not
  fit in 64 bits. Both loops are specified by one function, `DfRead.Fill`.
- **The file.** The operating system is an oracle (`Sys.File`). Its contents
  are fixed, it has a cursor, and a script of faults says whether each call
  delivers all it can, delivers a short read, or fails with a system error (never
  `SeekOverflow`, which only `so` builds). Once the script is used
  up, every call delivers in full. A ghost log records where positioned reads
  were issued.
- **Construction-time callbacks (`CallbackDataNew`).** `DfCallbacks.SequentialSource`
  counts the bytes read with a checked add, sets the seek base from that count,
  and compares a declared size with `file length - datafile_start`.
- **Query-time callbacks (`CallbackData`).** `DfCallbacks.RandomAccessSource`
  reads payloads at `seek_base + start`, again with a checked add.
- **The format engine.** `raw::Reader` is not part of this model. `Raw` stands
  in for it and takes its decisions as data:
  - the requests it makes while building the index, and its verdict;
  - for each data entry, the range to fetch or the format error to report.
- **The public `Reader`.** `DfReader` holds the two-variant `Error` and the
  `From` conversions, plus `new_impl`/`new`/`open`, `read_data`, and the data
  iterator.
- **`map_stats`.** `MapStats` models `ErrorStats`, `update_error_stats`, and the
  loop of `stats` over per-file outcomes. The tally is specified by a left fold
  (`Tallied`). The lemmas show that every file is counted exactly once, and that
  every error is counted as often as it occurred.

**Behaviour of the code worth knowing.**

- *Seek base.* `set_seek_base` (datafile/src/file.rs:236) stores the number of
  bytes read since construction. It does not add `datafile_start`.
  `seek_read` (datafile/src/file.rs:251-252) then uses `seek_base + start` as
  an absolute file offset. `Raw.BuiltState` computes the state construction
  leaves behind. Its seek base is the counter at the engine's last seek-base
  request, and `seekBaseAt` is the cursor position at that request.
  `DfReader.New` proves that the reader holds exactly that seek base, and that
  `seekBase + (initial cursor position) == DataSectionAt(...)`, the cursor
  position at that request. So a reader made with `new` on a file whose cursor
  is not at 0 reads payloads that many bytes before the data section.
  `DfReader.Open` proves `seekBase == seekBaseAt`, because an opened file
  starts at 0.
- *Short file.* `ensure_filesize` `unwrap`s `actual.checked_sub(datafile_start)`
  (datafile/src/file.rs:241). It panics when the file is shorter than
  `datafile_start`. That happens only with `new` on a cursor past the end of
  the file. The model states this as a precondition.
- *Uninitialised buffers.* `alloc_data` only sets the length of uninitialised
  memory (datafile/src/file.rs:256-257). The buffer's contents are whatever
  the allocation held.

## Model

| member | source | states |
|---|---|---|
| Base.CheckedAdd | datafile/src/file.rs:204 | `checked_add` is `None` exactly when the sum exceeds `u64::MAX`, and the sum otherwise |
| Base.CheckedSub | datafile/src/file.rs:241 | `checked_sub` is `None` exactly when the subtrahend is larger, and the difference otherwise |
| Sys.File.Read | datafile/src/file.rs:192 | one read at the cursor into `buffer[read..]`: the result comes from the fault script, the cursor moves by the bytes delivered, those bytes are the file's next bytes, and the rest of the buffer is untouched |
| Sys.File.ReadAt | datafile/src/file.rs:208 | one positioned read: as `Read`, but the cursor stays and the offset is logged |
| Sys.File.Tell | datafile/src/file.rs:98 | `seek(SeekFrom::Current(0))` returns the cursor, or the scripted error |
| Sys.File.Length | datafile/src/file.rs:240 | `metadata().len()` returns the file length, or the scripted error |
| DfRead.FillBound | datafile/src/file.rs:189-200 | a fill never yields more than the buffer length nor more than the file holds from the start position |
| DfRead.FillExact | datafile/src/file.rs:189-200 | a fill that ends without an error yields exactly `min(buffer length, bytes available)`, so it is short only at end of file (`Ok(0)`) |
| DfRead.FillFailure | datafile/src/file.rs:195-196 | a fill that ends with an error reports a system error the script produced, never `Interrupted` and never `SeekOverflow`, and ends with bytes still wanted |
| DfRead.InterruptsTransparent | datafile/src/file.rs:195 | removing every `Interrupted` response from the script changes neither the count nor the result: interruptions are retried and leave the count alone |
| DfRead.FillCleanStream | datafile/src/file.rs:189-200 | on a fault-free file, a fill yields `min(buffer length, bytes available)` and leaves no fault behind |
| DfRead.Fill | datafile/src/file.rs:189-200 | what repeatedly reading `want` bytes from position `at` yields: a read of 0 bytes ends the fill, an `Interrupted` error is retried, any other error ends it with that error, and a read of k bytes goes on with k fewer wanted; it gives the count, or the error and the count so far, and the script left over |
| DfRead.So | datafile/src/file.rs:219-221 | `so(None)` is the `InvalidData` error `SeekOverflow`, and `so(Some(x))` is `Ok(x)` |
| DfRead.Read | datafile/src/file.rs:189-200 | the `read` loop returns `Fill`'s count or error, leaves the cursor and the script where `Fill` says, and puts the file's bytes in the buffer prefix with the rest untouched |
| DfRead.ReadOffsetOutcome | datafile/src/file.rs:202-216 | `read_offset`'s outcome: `SeekOverflow` with nothing read when `offset + want` exceeds `u64::MAX`, otherwise the fill from `offset` |
| DfRead.ReadOffset | datafile/src/file.rs:202-216 | the `read_offset` loop does as `Fill` says from `offset`, leaves the cursor alone, issues no read at all when `offset + len` overflows, and otherwise issues every read inside `[offset, offset + len)`, below `u64::MAX` |
| DfCallbacks.FilesizeFits | datafile/src/file.rs:241-245 | the size check passes exactly when `datafile_start + filesize <= file length` |
| DfCallbacks.SequentialSource.constructor | datafile/src/file.rs:102-107 | a new `CallbackDataNew` has offset counter 0 and no seek base |
| DfCallbacks.SequentialSource.Read | datafile/src/file.rs:225-234 | a successful fill of `n` bytes adds `n` to the counter and returns `n`; on overflow it returns `SeekOverflow` with the counter unchanged; a failed fill leaves the counter; while the counter follows the cursor the add never overflows and keeps following it |
| DfCallbacks.SequentialSource.SetSeekBase | datafile/src/file.rs:235-238 | the seek base becomes `Some(counter)`; nothing else changes; a later call overwrites it; while the counter follows the cursor, `seek_base + datafile_start` is the cursor position at that moment |
| DfCallbacks.SequentialSource.EnsureFilesize | datafile/src/file.rs:239-246 | `Ok(Ok(()))` exactly when `datafile_start + filesize <= file length`, `Ok(Err(()))` otherwise, and the metadata error when that call fails |
| DfCallbacks.RandomAccessSource.constructor | datafile/src/file.rs:109-112 | `CallbackData` keeps the file and the seek base |
| DfCallbacks.SeekReadOutcome | datafile/src/file.rs:250-253 | `seek_read`'s outcome: `SeekOverflow` with nothing read when `seek_base + start` exceeds `u64::MAX`, otherwise `read_offset`'s outcome at that offset |
| DfCallbacks.RandomAccessSource.SeekRead | datafile/src/file.rs:250-253 | `SeekOverflow` with nothing read when `seek_base + start` overflows; otherwise `read_offset` at `seek_base + start`, with every read inside the requested range |
| DfCallbacks.RandomAccessSource.AllocData | datafile/src/file.rs:255-259 | always succeeds, with a new buffer of exactly `length` bytes |
| Raw.Concluded | datafile/src/file.rs:108 | the engine's verdict as a construction result: an accepted index is `Ok` of that index, and a rejection is `Err` of the same format error as `raw::Error` |
| Raw.BuiltOk | datafile/src/file.rs:108 | a construction that succeeds yields the engine's index: success is possible only when the engine accepts the file |
| Raw.BuiltClean | datafile/src/file.rs:224-246 | on a fault-free file that holds every byte the reads ask for, whose counter cannot overflow and whose size checks all pass, construction returns exactly the engine's verdict: the callbacks fail no request |
| Raw.StepOf | datafile/src/file.rs:224-246 | one request of the engine as `CallbackDataNew` serves it: a read fills as `Fill` describes, moves cursor and script, adds the count to the counter unless that overflows, and is the format error `onShort` when short; `set_seek_base` takes the counter and records the cursor; a size check uses one script entry and passes exactly when `datafile_start + filesize <= length` |
| Raw.Built | datafile/src/file.rs:108 | construction's result: the first request whose `StepOf` fails ends it with that error; once all succeed, the verdict decides |
| Raw.BuiltState | datafile/src/file.rs:224-246 | the cursor, script, counter and seek base construction leaves: the state after the last request run, along the same path as `Built` |
| Raw.BuiltTracking | datafile/src/file.rs:227-236 | after a successful construction the seek base is set exactly when the engine asked for one (else untouched); if the counter followed the cursor at the start it still does, and the seek base plus `datafile_start` is the cursor position at the last seek-base request |
| Raw.Perform | datafile/src/file.rs:224-246 | one request against a `CallbackDataNew`: its error and the new cursor, script, counter and seek base are exactly `StepOf`'s |
| Raw.Construct | datafile/src/file.rs:108 | the engine's construction against `CallbackDataNew` returns exactly `Built` and leaves exactly `BuiltState`: the first failed fill, counter overflow, short read, failed metadata query or failed size check ends it with that error, and otherwise the verdict decides |
| Raw.SeekReadBound | datafile/src/file.rs:250-253 | `seek_read` yields at most the requested bytes, and only bytes within the file |
| Raw.DataOutcome | datafile/src/file.rs:133-135 | a payload returned by `read_data` belongs to an in-range fetched entry and has exactly the planned size |
| Raw.FetchClean | datafile/src/file.rs:133-135 | on a fault-free file: a fetched entry returns exactly the file bytes at `seek_base + start`; it is a format error when the range runs past the end; it is `SeekOverflow` when the end overflows; and the file stays fault-free |
| Raw.ReadData | datafile/src/file.rs:133-135 | `read_data` through `CallbackData` returns a fresh buffer holding `DataOutcome`'s bytes, or `DataOutcome`'s error; the cursor stays, and every positioned read lies in the entry's range `[seek_base + start, seek_base + start + size)` |
| DfReader.FromFormat | datafile/src/file.rs:49-53 | a format error becomes `Error::Df` of the same error |
| DfReader.FromIo | datafile/src/file.rs:55-59 | an I/O error becomes `Error::Io` of the same error |
| DfReader.FromRaw | datafile/src/file.rs:61-68 | `raw::Error::Df` becomes `Error::Df` and `raw::Error::Cb` becomes `Error::Io`, each carrying the same error |
| DfReader.FromWrap | datafile/src/file.rs:70-75 | `WrapCallbackError(e)` becomes `Error::Io(e)` |
| DfReader.ConversionsAgree | datafile/src/file.rs:49-75 | the conversion from `raw::Error` is injective, and the direct conversions agree with the ones through `raw::Error` and `WrapCallbackError` |
| DfReader.DataResult | datafile/src/file.rs:133-135 | `read_data(i)`'s result: the engine's bytes for entry `i`, or its error converted by `From<raw::Error>`, together with the script left over |
| DfReader.ReadDataRepeatable | datafile/src/file.rs:133-135 | `read_data` on a fault-free file leaves it fault-free, so repeating it returns the same result |
| DfReader.Reader.constructor | datafile/src/file.rs:113-116 | the reader holds the callback state and the engine's index |
| DfReader.Reader.NumData | datafile/src/file.rs:142-144 | `num_data` is the number of entries in the engine's index, the bound `data_iter` runs up to |
| DfReader.Reader.ReadData | datafile/src/file.rs:133-135 | `read_data(i)` returns the engine's bytes for entry `i`, or its error converted by `From`; the cursor stays, every positioned read lies in the entry's range, and the fetch is logged |
| DfReader.Reader.DataIter | datafile/src/file.rs:168-174 | `data_iter` starts at index 0 and ends at `num_data` |
| DfReader.DataIter.constructor | datafile/src/file.rs:173 | a new iterator over `0..end` has yielded nothing |
| DfReader.DataIter.Next | datafile/src/file.rs:168-174 | each call yields `read_data(next)` and advances, until `num_data` results were yielded in index order, keeping the cursor and reading only inside the entry's range; after that it yields `None` and reads nothing |
| DfReader.Constructed | datafile/src/file.rs:95-108 | the engine's construction result inside `new_impl`: `Built` from the file's cursor and script (after the position query for `new`), with the counter at 0, no seek base, and the data file starting at the cursor (`new`) or at 0 (`open`) |
| DfReader.ConstructedState | datafile/src/file.rs:95-108 | the cursor, script, counter and seek base that construction inside `new_impl` leaves, from the same start as `Constructed` |
| DfReader.NewImpl | datafile/src/file.rs:95-117 | the data file starts at the cursor (`new`) or at 0 (`open`); a failed `seek` becomes `Error::Io`; otherwise the reader is built exactly when the engine's construction succeeds, and a construction error is returned through `From<raw::Error>`; on success the reader keeps the file with the cursor and script construction left and its read log untouched, the engine's index, and exactly the seek base construction set, which plus the data file's start is the cursor position when it was set |
| DfReader.New | datafile/src/file.rs:118-120 | `new` is `new_impl` with the cursor as the data file's start: a failed `seek` is `Error::Io`; otherwise it succeeds exactly when the engine's construction does and returns its converted error when not; the file is left as construction left it, the seek base is the one construction set, and it plus the initial cursor is `DataSectionAt`, the cursor position at the seek-base request |
| DfReader.Open | datafile/src/file.rs:121-126 | `open` fails with `Error::Io` when the file cannot be opened; otherwise it is `new_impl` on a fresh file at position 0: it succeeds exactly when the engine's construction does, returns its converted error when not, and the seek base is the one construction set, which equals the cursor position at the seek-base request |
| MapStats.Bumped | tools/src/map_stats.rs:20 | `*entry(e).or_insert(0) += 1` adds key `e` if missing, raises its count by one, and changes no other count |
| MapStats.Record | tools/src/map_stats.rs:17-29 | `update_error_stats` on the tally: a map error bumps its count in `map_errors`, a format error bumps its count in `df_errors`, and an I/O error is appended to `io_errors` |
| MapStats.Step | tools/src/map_stats.rs:66-72 | one turn of the loop in `stats`: an `Ok(())` outcome adds one to `ok`, and an error is recorded as `update_error_stats` does |
| MapStats.Tallied | tools/src/map_stats.rs:64-73 | the tally after the loop over the files' outcomes: `Step` applied to each outcome in order, starting from `ErrorStats::default()` |
| MapStats.SumBumped | tools/src/map_stats.rs:20 | bumping one key raises the sum of all counts by exactly one |
| MapStats.RecordTotal | tools/src/map_stats.rs:17-29 | recording any error raises the tally's total by exactly one |
| MapStats.TalliedTotal | tools/src/map_stats.rs:64-73 | after the loop, `ok + sum(map_errors) + sum(df_errors) + len(io_errors)` is the number of files processed |
| MapStats.TalliedOk | tools/src/map_stats.rs:64-73 | `ok` is the number of successful files, and `io_errors` holds the I/O errors in the order they occurred |
| MapStats.TalliedMapErrors | tools/src/map_stats.rs:19-21 | each map error's count is the number of files that failed with it, and it has a key exactly when some file did |
| MapStats.TalliedDfErrors | tools/src/map_stats.rs:22-24 | each format error's count is the number of files that failed with it, and it has a key exactly when some file did |
| MapStats.ErrorStats.constructor | tools/src/map_stats.rs:9-15 | the default `ErrorStats` has empty maps, no I/O errors and `ok == 0` |
| MapStats.UpdateErrorStats | tools/src/map_stats.rs:17-29 | a map error bumps `map_errors[e]`; a format error bumps `df_errors[e]`; an I/O error is appended to `io_errors`; every other field is unchanged |
| MapStats.Stats | tools/src/map_stats.rs:51-81 | the loop leaves the tally at `Tallied(results)`, so every file is counted once, and the summary is produced exactly when some file was named |

## Left out

- Real I/O. `File`, `BufReader`, `seek`, `metadata`, `File::open` and `FileExt::read_offset` are an oracle with fixed contents and a fault script. `open` takes the opened file's contents, or the error, as a parameter. The oracle returns `Ok(0)` only at the end of the file's fixed contents (or for an empty buffer), so "a fill is short only after a read of 0 bytes" becomes "a fill is short only at the end of the file". A file that grows or is truncated while it is read is not modelled. The fault script is finite, so an endless run of `Interrupted` errors, on which the loops of `read` and `read_offset` (datafile/src/file.rs:191-197, 206-213) never end, cannot be expressed; `Fill` terminates because of this.
- `BufReader` buffering is treated as transparent. The model's cursor is the logical position in the stream. Read-ahead and `into_inner` dropping buffered bytes are not modelled. They do not matter afterwards, because `CallbackData` only does positioned reads.
- The format engine `raw::Reader` is not part of this model. `Raw` is a stand-in whose requests, verdict and per-entry plans are given in advance rather than computed from the header bytes. Decompression of payloads is not modelled: a fetched entry is the raw range.
- The `Reader` query delegations (datafile/src/file.rs:127-167) are left out, because they only forward to the engine. The exception is `num_data`, which `data_iter` uses. `debug_dump` and `version` are left out for the same reason.
- `SeekOverflow`'s `Debug`, `Display` and `description` impls (datafile/src/file.rs:29-47) are formatting only.
- DfCallbacks.RandomAccessSource.AllocData: the buffer's contents are left uninitialised in the source. Dafny arrays are always initialised, so the model only promises the length.
- Raw.Construct: the `unwrap` panic in `ensure_filesize` is excluded by a precondition on the whole construction: the data file must not start past the end of the file whenever the engine checks the file size at all, not only when that check is reached.
- DfReader.NewImpl: the `unwrap` of the seek base (datafile/src/file.rs:111) is excluded by requiring that the engine asks for a seek base whenever its construction succeeds. An engine that fails before setting one is allowed, and its error is returned, as in the source.
- DfReader.NewImpl: the requirement that the file is not shorter than the cursor is stated whenever the engine checks the file size. It is not limited to a run that reaches the check after a successful `seek`, so a file whose engine would fail before the check is excluded too.
- DfReader.New: carries the same size-check `requires` as `NewImpl`, with the same reach. It is the only caller the requirement affects, since `open` starts the data file at 0.
- `usize` is taken to fit in `u64`, as `.u64()` does (datafile/src/file.rs:204, 229).
- MapStats.Stats: `ErrorStats`' `u64` counters are unbounded. Wrap-around after 2^64 files is not modelled.
- In `map_stats`, the following are console, environment or closure behaviour and are left out:
  - `print_error_stats` and every `println!`;
  - `logger::init`;
  - `env::args_os` and the program name;
  - `process`, `process_inner` and the `summary` closure. Each file's outcome is a parameter of `Stats`.
- `HashMap` iteration order only affects printing.
- `gamenet/teeworlds-0.6/src/msg/mod.rs` is not part of this model. It only dispatches to decoders whose source is not available.
