/**
 * A stand-in for the format engine `raw::Reader`, whose source is not part of
 * this model. Its decisions are given as data: while the index is built it
 * makes a fixed series of requests of the sequential source and then accepts
 * or rejects the file; afterwards each data entry is either fetched from a
 * range relative to the seek base or rejected.
 */
module Raw {
  import opened Base
  import opened Sys
  import opened DfRead
  import opened DfCallbacks

  /** A `format::Error`, told apart only by a code. */
  datatype FormatError = FormatError(code: nat)

  /** `raw::Error<io::Error>`: the engine's own error, or the callback's. */
  datatype RawError = Df(format: FormatError) | Cb(io: IoError)

  /** `raw::WrapCallbackError<io::Error>`: a callback error on a path that has no format errors. */
  datatype WrapCallbackError = WrapCallbackError(io: IoError)

  /**
   * One request of the sequential source: read `len` bytes (fewer is the
   * format error `onShort`), set the seek base, or check the file size
   * (too small is the format error `onShort`).
   */
  datatype Request =
    | ReadRequest(len: nat, onShort: FormatError)
    | SetSeekBaseRequest
    | EnsureFilesizeRequest(filesize: u32, onShort: FormatError)

  /** How the engine serves data entry `i`: read `size` bytes at `start`, or report a format error. */
  datatype DataPlan = Fetch(start: u32, size: nat, onShort: FormatError) | Reject(error: FormatError)

  /** The built index: one plan per data entry, and the error for an index out of range. */
  datatype Index = Index(plans: seq<DataPlan>, outOfRange: FormatError)
  {
    function NumData(): nat
    {
      |plans|
    }
  }

  /** The engine's construction: the requests it makes, and its verdict once they all succeed. */
  datatype Script = Script(requests: seq<Request>, verdict: Result<Index, FormatError>)

  predicate SetsSeekBase(requests: seq<Request>)
  {
    exists i :: 0 <= i < |requests| && requests[i] == SetSeekBaseRequest
  }

  predicate ChecksFilesize(requests: seq<Request>)
  {
    exists i :: 0 <= i < |requests| && requests[i].EnsureFilesizeRequest?
  }

  /** What construction returns once every request has succeeded: the verdict, a rejection as a format error. */
  function Concluded(verdict: Result<Index, FormatError>): (r: Result<Index, RawError>)
    ensures r.Ok? <==> verdict.Ok?
    ensures r.Ok? ==> r.value == verdict.value
    ensures r.Err? ==> r.error == Df(verdict.error)
  {
    match verdict
    case Ok(index) => Ok(index)
    case Err(e) => Err(Df(e))
  }

  /** What one request does: the error that ends construction, if any, and the state after it. */
  datatype Step = Step(stop: Option<RawError>, after: SourceState)

  /**
   * One request of the engine, as the callbacks of `CallbackDataNew` serve it
   * on a file holding `data` whose data file starts at `datafileStart`. A read
   * fills its buffer as `Fill` describes and moves the cursor and the script;
   * unless the fill failed or the counter would overflow, the count is added to
   * the counter, and fewer bytes than asked for is the format error `onShort`.
   * Setting the seek base takes the counter and records the cursor. A size
   * check uses up one script entry and fails with `onShort` when the data file
   * is too small.
   */
  function StepOf(request: Request, data: seq<u8>, s: SourceState, datafileStart: u64): Step
  {
    match request
    case ReadRequest(len, onShort) =>
      var o := Fill(data, s.pos, s.faults, len);
      var moved := s.(pos := s.pos + o.count, faults := o.left);
      if o.Failed? then Step(Some(Cb(o.error)), moved)
      else if s.counter + o.count > U64_MAX then Step(Some(Cb(SeekOverflow)), moved)
      else Step(if o.count < len then Some(Df(onShort)) else None, moved.(counter := s.counter + o.count))
    case SetSeekBaseRequest =>
      Step(None, s.(seekBase := Some(s.counter), seekBaseAt := s.pos))
    case EnsureFilesizeRequest(filesize, onShort) =>
      var checked := s.(faults := Rest(s.faults));
      if Next(s.faults).Fail? then Step(Some(Cb(Next(s.faults).error)), checked)
      else Step(if datafileStart + filesize <= |data| then None else Some(Df(onShort)), checked)
  }

  /**
   * What `raw::Reader::new` returns when its `requests` meet a file holding
   * `data`, starting from the state `s`: the first request that fails ends
   * construction with its error; once all succeed, the verdict decides.
   */
  function Built(requests: seq<Request>, verdict: Result<Index, FormatError>,
                 data: seq<u8>, s: SourceState, datafileStart: u64): Result<Index, RawError>
    decreases |requests|
  {
    if requests == [] then Concluded(verdict)
    else
      var step := StepOf(requests[0], data, s, datafileStart);
      if step.stop.Some? then Err(step.stop.value)
      else Built(requests[1..], verdict, data, step.after, datafileStart)
  }

  /** The state construction leaves behind, along the same path as `Built`: the state after the last request run. */
  function BuiltState(requests: seq<Request>, data: seq<u8>, s: SourceState, datafileStart: u64): SourceState
    decreases |requests|
  {
    if requests == [] then s
    else
      var step := StepOf(requests[0], data, s, datafileStart);
      if step.stop.Some? then step.after
      else BuiltState(requests[1..], data, step.after, datafileStart)
  }

  /** A successful construction yields the engine's index: success carries the verdict. */
  lemma {:induction false} BuiltOk(requests: seq<Request>, verdict: Result<Index, FormatError>,
                                   data: seq<u8>, s: SourceState, datafileStart: u64)
    ensures var r := Built(requests, verdict, data, s, datafileStart);
      r.Ok? ==> verdict.Ok? && r.value == verdict.value
    decreases |requests|
  {
    if requests != [] {
      BuiltOk(requests[1..], verdict, data, StepOf(requests[0], data, s, datafileStart).after, datafileStart);
    }
  }

  /** Whether `requests` set the seek base after the first one. */
  lemma SetsSeekBaseLater(requests: seq<Request>)
    requires requests != []
    ensures SetsSeekBase(requests) <==> requests[0] == SetSeekBaseRequest || SetsSeekBase(requests[1..])
  {
    if SetsSeekBase(requests) && requests[0] != SetSeekBaseRequest {
      var i :| 0 <= i < |requests| && requests[i] == SetSeekBaseRequest;
      assert requests[1..][i - 1] == requests[i];
    }
    if SetsSeekBase(requests[1..]) {
      var i :| 0 <= i < |requests[1..]| && requests[1..][i] == SetSeekBaseRequest;
      assert requests[i + 1] == SetSeekBaseRequest;
    }
  }

  /**
   * After a successful construction the seek base is set if the engine asked
   * for one, and is untouched otherwise. If the counter followed the cursor at
   * the start, it still does at the end, and the seek base, added to the data
   * file's start, is the cursor position at which it was set.
   */
  lemma {:induction false} BuiltTracking(requests: seq<Request>, verdict: Result<Index, FormatError>,
                                         data: seq<u8>, s: SourceState, datafileStart: u64)
    requires Built(requests, verdict, data, s, datafileStart).Ok?
    ensures var t := BuiltState(requests, data, s, datafileStart);
      && (SetsSeekBase(requests) ==> t.seekBase.Some?)
      && (!SetsSeekBase(requests) ==> t.seekBase == s.seekBase && t.seekBaseAt == s.seekBaseAt)
      && (s.pos == datafileStart + s.counter ==>
            && t.pos == datafileStart + t.counter
            && (SetsSeekBase(requests) ==> t.seekBase.value + datafileStart == t.seekBaseAt))
    decreases |requests|
  {
    if requests != [] {
      SetsSeekBaseLater(requests);
      BuiltTracking(requests[1..], verdict, data, StepOf(requests[0], data, s, datafileStart).after, datafileStart);
    }
  }

  /** The number of bytes the read requests ask for, in all. */
  function ReadTotal(requests: seq<Request>): nat
    decreases |requests|
  {
    if requests == [] then 0
    else (if requests[0].ReadRequest? then requests[0].len else 0) + ReadTotal(requests[1..])
  }

  /** Every size check among `requests` passes for a data file starting at `datafileStart` in a file of `size` bytes. */
  predicate SizesFit(requests: seq<Request>, datafileStart: nat, size: nat)
  {
    forall i :: 0 <= i < |requests| && requests[i].EnsureFilesizeRequest? ==>
      datafileStart + requests[i].filesize <= size
  }

  /**
   * On a file that produces no faults, construction fails only for the verdict:
   * when the file holds every byte the reads ask for, the counter cannot
   * overflow and every size check passes, the result is the verdict.
   */
  lemma {:induction false} BuiltClean(requests: seq<Request>, verdict: Result<Index, FormatError>,
                                      data: seq<u8>, s: SourceState, datafileStart: u64)
    requires s.faults == []
    requires s.pos + ReadTotal(requests) <= |data|
    requires s.counter + ReadTotal(requests) <= U64_MAX
    requires SizesFit(requests, datafileStart, |data|)
    ensures Built(requests, verdict, data, s, datafileStart) == Concluded(verdict)
    decreases |requests|
  {
    if requests != [] {
      var rest := requests[1..];
      assert SizesFit(rest, datafileStart, |data|) by {
        forall i | 0 <= i < |rest| && rest[i].EnsureFilesizeRequest?
          ensures datafileStart + rest[i].filesize <= |data|
        {
          assert rest[i] == requests[i + 1];
        }
      }
      match requests[0] {
        case ReadRequest(len, onShort) =>
          assert ReadTotal(requests) == len + ReadTotal(rest);
          FillCleanStream(data, s.pos, len);
          assert Min(len, Avail(data, s.pos)) == len;
          assert StepOf(requests[0], data, s, datafileStart) == Step(None, s.(pos := s.pos + len, counter := s.counter + len));
        case SetSeekBaseRequest =>
        case EnsureFilesizeRequest(filesize, onShort) =>
          assert requests[0].EnsureFilesizeRequest?;
      }
      BuiltClean(rest, verdict, data, StepOf(requests[0], data, s, datafileStart).after, datafileStart);
    }
  }

  /** One request of the engine against `src`: exactly what `StepOf` describes. */
  method Perform(src: SequentialSource, request: Request) returns (stop: Option<RawError>)
    requires src.Valid()
    requires request.EnsureFilesizeRequest? ==> src.datafileStart <= |src.file.data|
    modifies src, src.file
    ensures src.Valid() && src.file.offsetsRead == old(src.file.offsetsRead)
    ensures var step := StepOf(request, src.file.data, old(src.State()), src.datafileStart);
      stop == step.stop && src.State() == step.after
  {
    match request {
      case ReadRequest(len, onShort) =>
        var buffer := new u8[len];
        var res := src.Read(buffer);
        if res.Err? {
          return Some(Cb(res.error));
        }
        stop := if res.value < len then Some(Df(onShort)) else None;
      case SetSeekBaseRequest =>
        var _ := src.SetSeekBase();
        stop := None;
      case EnsureFilesizeRequest(filesize, onShort) =>
        var res := src.EnsureFilesize(filesize);
        if res.Err? {
          return Some(Cb(res.error));
        }
        stop := if res.value.Ok? then None else Some(Df(onShort));
    }
  }

  /**
   * `raw::Reader::new`: runs the requests in order against `src`; the first
   * failing one ends construction with its callback or format error. The
   * result is exactly `Built`, and the cursor, script, counter and seek base
   * left behind are exactly `BuiltState`.
   */
  method Construct(src: SequentialSource, script: Script) returns (r: Result<Index, RawError>)
    requires src.Valid()
    requires ChecksFilesize(script.requests) ==> src.datafileStart <= |src.file.data|
    modifies src, src.file
    ensures src.Valid() && src.file.offsetsRead == old(src.file.offsetsRead)
    ensures r == Built(script.requests, script.verdict, src.file.data, old(src.State()), src.datafileStart)
    ensures src.State() == BuiltState(script.requests, src.file.data, old(src.State()), src.datafileStart)
  {
    var requests := script.requests;
    var i := 0;
    while i < |requests|
      invariant 0 <= i <= |requests|
      invariant src.Valid() && src.file.offsetsRead == old(src.file.offsetsRead)
      invariant Built(requests[i..], script.verdict, src.file.data, src.State(), src.datafileStart)
        == Built(requests, script.verdict, src.file.data, old(src.State()), src.datafileStart)
      invariant BuiltState(requests[i..], src.file.data, src.State(), src.datafileStart)
        == BuiltState(requests, src.file.data, old(src.State()), src.datafileStart)
    {
      assert requests[i..][0] == requests[i] && requests[i..][1..] == requests[i + 1..];
      assert requests[i].EnsureFilesizeRequest? ==> ChecksFilesize(requests);
      var stop := Perform(src, requests[i]);
      if stop.Some? {
        return Err(stop.value);
      }
      i := i + 1;
    }
    r := Concluded(script.verdict);
  }

  /** A successful `seek_read` never yields more bytes than the file holds from where it reads. */
  lemma SeekReadBound(data: seq<u8>, faults: seq<Fault>, seekBase: u64, start: u32, want: nat)
    ensures var o := SeekReadOutcome(data, faults, seekBase, start, want);
      o.count <= want && (o.count > 0 ==> seekBase + start + o.count <= |data|)
  {
    if seekBase + start <= U64_MAX && seekBase + start + want <= U64_MAX {
      FillBound(data, seekBase + start, faults, want);
    }
  }

  /**
   * `raw::Reader::read_data`, as the engine's plan for entry `i` and the
   * callbacks make it: the bytes of the planned range, the callback's error,
   * or a format error when the index is out of range, the entry is rejected,
   * or the range lies past the end of the file. Also the script left behind.
   */
  function DataOutcome(index: Index, data: seq<u8>, faults: seq<Fault>, seekBase: u64, i: nat)
    : (r: (Result<seq<u8>, RawError>, seq<Fault>))
    ensures r.0.Ok? ==> i < index.NumData() && index.plans[i].Fetch? && |r.0.value| == index.plans[i].size
  {
    if i >= |index.plans| then (Err(Df(index.outOfRange)), faults)
    else match index.plans[i]
      case Reject(e) => (Err(Df(e)), faults)
      case Fetch(start, size, onShort) =>
        var o := SeekReadOutcome(data, faults, seekBase, start, size);
        if o.Failed? then (Err(Cb(o.error)), o.left)
        else if o.count < size then (Err(Df(onShort)), o.left)
        else
          SeekReadBound(data, faults, seekBase, start, size);
          (Ok(Window(data, seekBase + start, size)), o.left)
  }

  /**
   * On a file that produces no faults, a fetched entry yields the planned
   * range of the file exactly when the range lies within the file, the
   * short-read format error when it runs past the end, and `SeekOverflow` when
   * its end does not fit in 64 bits; the file is left as clean as it was, so
   * reading the entry again yields the same.
   */
  lemma FetchClean(index: Index, data: seq<u8>, seekBase: u64, i: nat)
    requires |data| <= U64_MAX
    requires i < index.NumData() && index.plans[i].Fetch?
    ensures var p := index.plans[i];
      var (res, left) := DataOutcome(index, data, [], seekBase, i);
      && left == []
      && (seekBase + p.start + p.size > U64_MAX ==> res == Err(Cb(SeekOverflow)))
      && (seekBase + p.start + p.size <= |data| ==> res == Ok(data[seekBase + p.start..seekBase + p.start + p.size]))
      && (|data| < seekBase + p.start + p.size <= U64_MAX && p.size > 0 ==> res == Err(Df(p.onShort)))
      && (seekBase + p.start + p.size <= U64_MAX && p.size == 0 ==> res == Ok([]))
  {
    var p := index.plans[i];
    var at := seekBase + p.start;
    if at + p.size <= U64_MAX {
      FillCleanStream(data, at, p.size);
      if at + p.size <= |data| {
        assert Min(p.size, Avail(data, at)) == p.size;
        assert Window(data, at, p.size) == data[at..at + p.size];
      }
    }
  }

  /**
   * The positioned-read log `after` is `before` extended only by offsets
   * inside the range that entry `i` is fetched from; an entry that is not
   * fetched reads nothing.
   */
  predicate LoggedWithin(index: Index, seekBase: u64, i: nat, before: seq<nat>, after: seq<nat>)
  {
    && |before| <= |after| && after[..|before|] == before
    && forall k :: |before| <= k < |after| ==>
         && i < index.NumData() && index.plans[i].Fetch?
         && seekBase + index.plans[i].start <= after[k] < seekBase + index.plans[i].start + index.plans[i].size
  }

  /** `raw::Reader::read_data`: allocates a buffer of the planned size and fills it through `seek_read`. */
  method ReadData(index: Index, src: RandomAccessSource, i: nat) returns (r: Result<array<u8>, RawError>)
    requires src.file.Valid()
    modifies src.file
    ensures src.file.Valid() && src.file.pos == old(src.file.pos)
    ensures var (res, left) := DataOutcome(index, src.file.data, old(src.file.faults), src.seekBase, i);
      && src.file.faults == left
      && r.Ok? == res.Ok?
      && (r.Ok? ==> fresh(r.value) && r.value[..] == res.value)
      && (r.Err? ==> r.error == res.error)
    ensures LoggedWithin(index, src.seekBase, i, old(src.file.offsetsRead), src.file.offsetsRead)
  {
    if i >= |index.plans| {
      return Err(Df(index.outOfRange));
    }
    match index.plans[i] {
      case Reject(e) =>
        return Err(Df(e));
      case Fetch(start, size, onShort) =>
        var alloc := src.AllocData(size);
        var buffer := alloc.value;
        var n := src.SeekRead(start, buffer);
        if n.Err? {
          return Err(Cb(n.error));
        }
        if n.value < size {
          return Err(Df(onShort));
        }
        SeekReadBound(src.file.data, old(src.file.faults), src.seekBase, start, size);
        assert buffer[..] == Window(src.file.data, src.seekBase + start, size);
        r := Ok(buffer);
    }
  }
}
