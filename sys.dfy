/**
 * The operating system as seen by the reading layer, modelled as an oracle:
 * `io::Error`, and a file whose contents are fixed and whose successive calls
 * deliver everything they can, deliver a short read, or fail, as a script of
 * faults says. Once the script is used up, every call delivers in full.
 */
module Sys {
  import opened Base

  /** The `io::ErrorKind`s the model tells apart. */
  datatype ErrorKind = Interrupted | InvalidData | NotFound | PermissionDenied | UnexpectedEof | Other

  /**
   * An `io::Error`: one reported by the system, or the `InvalidData` error
   * that carries `SeekOverflow` (built by `so`).
   */
  datatype IoError = Os(osKind: ErrorKind, code: int) | SeekOverflow
  {
    function Kind(): ErrorKind
    {
      match this
      case Os(k, _) => k
      case SeekOverflow => InvalidData
    }
  }

  type Positive = n: nat | 0 < n witness 1

  /** An error the system itself reports; `SeekOverflow` is never one. */
  type OsError = e: IoError | e.Os? witness Os(Other, 0)

  /** What the system does on one call: deliver all it can, deliver at most `limit` bytes, or fail with a system error. */
  datatype Fault = Full | Short(limit: Positive) | Fail(error: OsError)

  /** The behaviour of the next call. */
  function Next(faults: seq<Fault>): Fault
  {
    if faults == [] then Full else faults[0]
  }

  /** The script after one call. */
  function Rest(faults: seq<Fault>): seq<Fault>
  {
    if faults == [] then [] else faults[1..]
  }

  /** How many bytes of `data` lie at or after position `at`. */
  function Avail(data: seq<u8>, at: nat): nat
  {
    if at < |data| then |data| - at else 0
  }

  /** How many bytes one successful read at position `at` into `space` free bytes delivers. */
  function Grant(data: seq<u8>, at: nat, f: Fault, space: nat): (k: nat)
    requires !f.Fail?
    ensures k <= Min(space, Avail(data, at))
    ensures k == 0 <==> space == 0 || Avail(data, at) == 0
  {
    var k := Min(space, Avail(data, at));
    if f.Short? then Min(k, f.limit) else k
  }

  /** The `n` bytes of `data` that start at position `at`. */
  function Window(data: seq<u8>, at: nat, n: nat): (w: seq<u8>)
    requires n <= Avail(data, at)
    ensures |w| == n
  {
    if n == 0 then [] else data[at..at + n]
  }

  /** What one read call at position `at` into `space` free bytes returns. */
  function Call(data: seq<u8>, at: nat, f: Fault, space: nat): (r: Result<nat, IoError>)
    ensures r.Ok? ==> r.value <= Min(space, Avail(data, at))
  {
    if f.Fail? then Err(f.error) else Ok(Grant(data, at, f, space))
  }

  /** How many bytes a call's result put into the buffer. */
  function Delivered(r: Result<nat, IoError>): nat
  {
    if r.Ok? then r.value else 0
  }

  /**
   * An open file. `data` is its contents (its length is what `metadata().len()`
   * reports), `pos` its cursor, `faults` the script of what the system does on
   * the coming calls, and `offsetsRead` the positions at which positioned reads
   * were issued.
   */
  class File {
    const data: seq<u8>
    var pos: u64
    var faults: seq<Fault>
    ghost var offsetsRead: seq<nat>

    /** A file length is a `u64`. */
    ghost predicate Valid()
      reads this
    {
      |data| <= U64_MAX
    }

    constructor (data: seq<u8>, pos: u64, faults: seq<Fault>)
      requires |data| <= U64_MAX
      ensures Valid()
      ensures this.data == data && this.pos == pos && this.faults == faults && offsetsRead == []
    {
      this.data := data;
      this.pos := pos;
      this.faults := faults;
      offsetsRead := [];
    }

    /** `Read::read` at the cursor, into `buf[from..]`. */
    method Read(buf: array<u8>, from: nat) returns (r: Result<nat, IoError>)
      requires Valid() && from < buf.Length
      modifies this, buf
      ensures Valid() && faults == Rest(old(faults)) && offsetsRead == old(offsetsRead)
      ensures r == Call(data, old(pos), Next(old(faults)), buf.Length - from)
      ensures pos == old(pos) + Delivered(r)
      ensures forall i :: from <= i < from + Delivered(r) ==> buf[i] == data[old(pos) + (i - from)]
      ensures forall i :: 0 <= i < buf.Length && !(from <= i < from + Delivered(r)) ==> buf[i] == old(buf[i])
    {
      r := Call(data, pos, Next(faults), buf.Length - from);
      faults := Rest(faults);
      var k := Delivered(r);
      forall i | 0 <= i < k {
        buf[from + i] := data[pos + i];
      }
      pos := pos + k;
    }

    /** `FileExt::read_offset`: a read at position `offset` into `buf[from..]` that leaves the cursor alone. */
    method ReadAt(buf: array<u8>, from: nat, offset: nat) returns (r: Result<nat, IoError>)
      requires Valid() && from < buf.Length
      modifies this, buf
      ensures Valid() && pos == old(pos) && faults == Rest(old(faults))
      ensures offsetsRead == old(offsetsRead) + [offset]
      ensures r == Call(data, offset, Next(old(faults)), buf.Length - from)
      ensures forall i :: from <= i < from + Delivered(r) ==> buf[i] == data[offset + (i - from)]
      ensures forall i :: 0 <= i < buf.Length && !(from <= i < from + Delivered(r)) ==> buf[i] == old(buf[i])
    {
      r := Call(data, offset, Next(faults), buf.Length - from);
      faults := Rest(faults);
      offsetsRead := offsetsRead + [offset];
      var k := Delivered(r);
      forall i | 0 <= i < k {
        buf[from + i] := data[offset + i];
      }
    }

    /** `seek(SeekFrom::Current(0))`: the cursor position. */
    method Tell() returns (r: Result<u64, IoError>)
      modifies this`faults
      ensures faults == Rest(old(faults))
      ensures r == if Next(old(faults)).Fail? then Err(Next(old(faults)).error) else Ok(pos)
    {
      var f := Next(faults);
      faults := Rest(faults);
      r := if f.Fail? then Err(f.error) else Ok(pos);
    }

    /** `metadata().len()`: the file length. */
    method Length() returns (r: Result<u64, IoError>)
      requires Valid()
      modifies this`faults
      ensures faults == Rest(old(faults))
      ensures r == if Next(old(faults)).Fail? then Err(Next(old(faults)).error) else Ok(|data|)
    {
      var f := Next(faults);
      faults := Rest(faults);
      r := if f.Fail? then Err(f.error) else Ok(|data|);
    }
  }
}
