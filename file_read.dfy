/**
 * The two buffer-filling loops of the datafile reader (`read` at the cursor and
 * `read_offset` at an explicit position) and the `so` error constructor.
 *
 * Both loops are specified by one function, `Fill`: what repeatedly reading a
 * file, starting at a position, into a buffer of a given size yields, given the
 * script of faults the system will produce.
 */
module DfRead {
  import opened Base
  import opened Sys

  /**
   * The result of filling a buffer: `count` bytes were read and then either the
   * loop finished (`Filled`) or an error ended it (`Failed`); `left` is the
   * fault script that remains.
   */
  datatype Outcome = Filled(count: nat, left: seq<Fault>) | Failed(error: IoError, count: nat, left: seq<Fault>)
  {
    /** The same outcome after `k` more bytes read before it. */
    function Shifted(k: nat): Outcome
    {
      this.(count := k + count)
    }

    /** What the loop returns: the count, or the error. */
    function AsResult(): Result<nat, IoError>
    {
      match this
      case Filled(n, _) => Ok(n)
      case Failed(e, _, _) => Err(e)
    }
  }

  /**
   * Filling `want` bytes from position `at` of `data`: an `Interrupted` error
   * is retried, any other error ends the loop, a read of 0 bytes ends it, and a
   * read of k bytes moves on with k fewer bytes wanted.
   */
  function Fill(data: seq<u8>, at: nat, faults: seq<Fault>, want: nat): Outcome
    decreases |faults| + want
  {
    if want == 0 then Filled(0, faults)
    else
      var r := Call(data, at, Next(faults), want);
      if r.Err? then
        if r.error.Kind() == Interrupted then Fill(data, at, Rest(faults), want)
        else Failed(r.error, 0, Rest(faults))
      else if r.value == 0 then Filled(0, Rest(faults))
      else Fill(data, at + r.value, Rest(faults), want - r.value).Shifted(r.value)
  }

  /**
   * A fill never yields more than was wanted nor more than the file holds from `at`.
   */
  lemma {:induction false} FillBound(data: seq<u8>, at: nat, faults: seq<Fault>, want: nat)
    ensures Fill(data, at, faults, want).count <= Min(want, Avail(data, at))
    decreases |faults| + want
  {
    if want > 0 {
      var r := Call(data, at, Next(faults), want);
      if r.Err? {
        if r.error.Kind() == Interrupted {
          FillBound(data, at, Rest(faults), want);
        }
      } else if r.value > 0 {
        FillBound(data, at + r.value, Rest(faults), want - r.value);
      }
    }
  }

  /**
   * A fill that is not ended by an error stops short of `want` only at the end
   * of the file: it yields exactly `min(want, bytes available)`.
   */
  lemma {:induction false} FillExact(data: seq<u8>, at: nat, faults: seq<Fault>, want: nat)
    ensures Fill(data, at, faults, want).Filled? ==> Fill(data, at, faults, want).count == Min(want, Avail(data, at))
    decreases |faults| + want
  {
    if want > 0 {
      var r := Call(data, at, Next(faults), want);
      if r.Err? {
        if r.error.Kind() == Interrupted {
          FillExact(data, at, Rest(faults), want);
        }
      } else if r.value > 0 {
        FillExact(data, at + r.value, Rest(faults), want - r.value);
      }
    }
  }

  /**
   * A fill ended by an error reports a system error the script produced,
   * never an `Interrupted` one and never `SeekOverflow`, and happens with
   * bytes still wanted.
   */
  lemma {:induction false} FillFailure(data: seq<u8>, at: nat, faults: seq<Fault>, want: nat)
    ensures var o := Fill(data, at, faults, want);
      o.Failed? ==> o.error.Os? && Fail(o.error) in faults && o.error.Kind() != Interrupted && o.count < want
    decreases |faults| + want
  {
    if want > 0 {
      var r := Call(data, at, Next(faults), want);
      var rest := Rest(faults);
      assert forall f :: f in rest ==> f in faults;
      if r.Err? {
        if r.error.Kind() == Interrupted {
          FillFailure(data, at, rest, want);
        }
      } else if r.value > 0 {
        FillFailure(data, at + r.value, rest, want - r.value);
      }
    }
  }

  /** A script with `Interrupted` errors taken out. */
  function StripInterrupts(faults: seq<Fault>): (s: seq<Fault>)
  {
    if faults == [] then []
    else if faults[0].Fail? && faults[0].error.Kind() == Interrupted then StripInterrupts(faults[1..])
    else [faults[0]] + StripInterrupts(faults[1..])
  }

  /**
   * Interruptions are invisible: the bytes read and the error reported are the
   * same whether or not `Interrupted` errors occur on the way.
   */
  lemma {:induction false} InterruptsTransparent(data: seq<u8>, at: nat, faults: seq<Fault>, want: nat)
    ensures var o, s := Fill(data, at, faults, want), Fill(data, at, StripInterrupts(faults), want);
      o.AsResult() == s.AsResult() && o.count == s.count
    decreases |faults| + want
  {
    var stripped := StripInterrupts(faults);
    if want == 0 || faults == [] {
    } else if faults[0].Fail? && faults[0].error.Kind() == Interrupted {
      InterruptsTransparent(data, at, faults[1..], want);
    } else {
      assert stripped[0] == faults[0] && stripped[1..] == StripInterrupts(faults[1..]);
      if !faults[0].Fail? {
        var k := Grant(data, at, faults[0], want);
        if k > 0 {
          InterruptsTransparent(data, at + k, faults[1..], want - k);
        }
      }
    }
  }

  /**
   * On a file that produces no faults the fill reads `min(want, bytes
   * available)` and leaves no script behind, so repeating it gives the same result.
   */
  lemma {:induction false} FillCleanStream(data: seq<u8>, at: nat, want: nat)
    ensures Fill(data, at, [], want) == Filled(Min(want, Avail(data, at)), [])
    decreases want
  {
    if want > 0 {
      var k := Grant(data, at, Full, want);
      if k > 0 {
        FillCleanStream(data, at + k, want - k);
      }
    }
  }

  /** A fill of `len` bytes from `at` that already holds `read` of them and goes on from there. */
  function Resume(data: seq<u8>, at: nat, faults: seq<Fault>, len: nat, read: nat): Outcome
    requires read <= len
  {
    Fill(data, at + read, faults, len - read).Shifted(read)
  }

  /**
   * One turn of either loop: the call's result decides whether the fill goes
   * on with the rest of the script (after more bytes, or after an
   * interruption) or ends here with the bytes read so far.
   */
  lemma FillStep(data: seq<u8>, at: nat, read: nat, faults: seq<Fault>, len: nat, step: Result<nat, IoError>)
    requires read < len && read <= Avail(data, at)
    requires step == Call(data, at + read, Next(faults), len - read)
    ensures read + Delivered(step) <= len && read + Delivered(step) <= Avail(data, at)
    ensures step.Ok? && step.value > 0 ==>
      Resume(data, at, faults, len, read) == Resume(data, at, Rest(faults), len, read + step.value)
    ensures step.Err? && step.error.Kind() == Interrupted ==>
      Resume(data, at, faults, len, read) == Resume(data, at, Rest(faults), len, read)
    ensures step == Ok(0) ==> Resume(data, at, faults, len, read) == Filled(read, Rest(faults))
    ensures step.Err? && step.error.Kind() != Interrupted ==>
      Resume(data, at, faults, len, read) == Failed(step.error, read, Rest(faults))
  {
  }

  /** `so`: a missing checked sum becomes an `InvalidData` error carrying `SeekOverflow`. */
  function So(o: Option<u64>): (r: Result<u64, IoError>)
    ensures r.Err? <==> o.None?
    ensures r.Err? ==> r.error == SeekOverflow && r.error.Kind() == InvalidData
    ensures r.Ok? ==> r.value == o.value
  {
    match o
    case Some(x) => Ok(x)
    case None => Err(SeekOverflow)
  }

  /**
   * `read_offset`: when `offset + want` does not fit in 64 bits the call fails
   * with `SeekOverflow` before reading; otherwise it fills from `offset`.
   */
  function ReadOffsetOutcome(data: seq<u8>, faults: seq<Fault>, offset: u64, want: nat): Outcome
  {
    if offset + want > U64_MAX then Failed(SeekOverflow, 0, faults)
    else Fill(data, offset, faults, want)
  }

  /**
   * `read`: fills `buffer` from the reader's cursor. The result, the bytes
   * placed at the front of the buffer, the cursor and the remaining script are
   * those `Fill` describes; the rest of the buffer is untouched.
   */
  method Read(reader: File, buffer: array<u8>) returns (r: Result<nat, IoError>)
    requires reader.Valid()
    modifies reader, buffer
    ensures reader.Valid() && reader.offsetsRead == old(reader.offsetsRead)
    ensures Fill(reader.data, old(reader.pos), old(reader.faults), buffer.Length).count <= Avail(reader.data, old(reader.pos))
    ensures var o := Fill(reader.data, old(reader.pos), old(reader.faults), buffer.Length);
      && r == o.AsResult()
      && reader.faults == o.left
      && reader.pos == old(reader.pos) + o.count
    ensures var o := Fill(reader.data, old(reader.pos), old(reader.faults), buffer.Length);
      forall i :: 0 <= i < buffer.Length ==> buffer[i] == if i < o.count then reader.data[old(reader.pos) + i] else old(buffer[i])
  {
    FillBound(reader.data, reader.pos, reader.faults, buffer.Length);
    ghost var start := reader.pos;
    ghost var whole := Fill(reader.data, reader.pos, reader.faults, buffer.Length);
    var read := 0;
    while read != buffer.Length
      invariant read <= buffer.Length && read <= Avail(reader.data, start)
      invariant reader.Valid() && reader.offsetsRead == old(reader.offsetsRead)
      invariant reader.pos == start + read
      invariant whole == Resume(reader.data, start, reader.faults, buffer.Length, read)
      invariant forall i :: 0 <= i < buffer.Length ==> buffer[i] == if i < read then reader.data[start + i] else old(buffer[i])
      decreases |reader.faults| + (buffer.Length - read)
    {
      ghost var before := reader.faults;
      var step := reader.Read(buffer, read);
      FillStep(reader.data, start, read, before, buffer.Length, step);
      match step {
        case Ok(n) =>
          if n == 0 {
            break;
          }
          read := read + n;
        case Err(e) =>
          if e.Kind() != Interrupted {
            return Err(e);
          }
      }
    }
    r := Ok(read);
  }

  /**
   * `read_offset`: fills `buffer` from position `offset` without moving the
   * cursor. A sum `offset + buffer.len()` beyond `u64::MAX` is refused before
   * any read is issued; otherwise every positioned read is issued at an offset
   * in `[offset, offset + buffer.len())`, so none of them can overflow.
   */
  method ReadOffset(file: File, buffer: array<u8>, offset: u64) returns (r: Result<nat, IoError>)
    requires file.Valid()
    modifies file, buffer
    ensures file.Valid() && file.pos == old(file.pos)
    ensures ReadOffsetOutcome(file.data, old(file.faults), offset, buffer.Length).count <= Avail(file.data, offset)
    ensures var o := ReadOffsetOutcome(file.data, old(file.faults), offset, buffer.Length);
      && r == o.AsResult()
      && file.faults == o.left
    ensures var o := ReadOffsetOutcome(file.data, old(file.faults), offset, buffer.Length);
      forall i :: 0 <= i < buffer.Length ==> buffer[i] == if i < o.count then file.data[offset + i] else old(buffer[i])
    ensures offset + buffer.Length > U64_MAX ==> file.offsetsRead == old(file.offsetsRead)
    ensures |old(file.offsetsRead)| <= |file.offsetsRead|
    ensures file.offsetsRead[..|old(file.offsetsRead)|] == old(file.offsetsRead)
    ensures forall i :: |old(file.offsetsRead)| <= i < |file.offsetsRead| ==>
      offset <= file.offsetsRead[i] < offset + buffer.Length <= U64_MAX
  {
    FillBound(file.data, offset, file.faults, buffer.Length);
    var endOffset := So(CheckedAdd(offset, buffer.Length));
    if endOffset.Err? {
      return Err(endOffset.error);
    }
    ghost var log := file.offsetsRead;
    ghost var whole := Fill(file.data, offset, file.faults, buffer.Length);
    var read := 0;
    while read != buffer.Length
      invariant read <= buffer.Length && read <= Avail(file.data, offset)
      invariant file.Valid() && file.pos == old(file.pos)
      invariant whole == Resume(file.data, offset, file.faults, buffer.Length, read)
      invariant forall i :: 0 <= i < buffer.Length ==> buffer[i] == if i < read then file.data[offset + i] else old(buffer[i])
      invariant |log| <= |file.offsetsRead| && file.offsetsRead[..|log|] == log
      invariant forall i :: |log| <= i < |file.offsetsRead| ==> offset <= file.offsetsRead[i] < offset + buffer.Length
      decreases |file.faults| + (buffer.Length - read)
    {
      ghost var before := file.faults;
      var step := file.ReadAt(buffer, read, offset + read);
      FillStep(file.data, offset, read, before, buffer.Length, step);
      match step {
        case Ok(n) =>
          if n == 0 {
            break;
          }
          read := read + n;
        case Err(e) =>
          if e.Kind() != Interrupted {
            return Err(e);
          }
      }
    }
    r := Ok(read);
  }
}
