/**
 * The error tally of the `map_stats` tool: every map file named on the
 * command line is processed, and its outcome either counts as ok or is
 * recorded by kind of error.
 */
module MapStats {
  import opened Base
  import Sys
  import Raw
  import DfReader

  /** A `map::format::Error`, told apart only by a code. */
  datatype MapFormatError = MapFormatError(code: nat)

  /** `map::Error`: an error of the map layer, or one of the datafile reader. */
  datatype MapError = Map(mapError: MapFormatError) | Df(dfError: DfReader.Error)

  /** How often `k` was counted in `m`; a missing key counts 0. */
  function Count<K>(m: map<K, nat>, k: K): nat
  {
    if k in m then m[k] else 0
  }

  /** `*m.entry(k).or_insert(0) += 1`. */
  function Bumped<K(!new)>(m: map<K, nat>, k: K): (b: map<K, nat>)
    ensures b.Keys == m.Keys + {k}
    ensures Count(b, k) == Count(m, k) + 1
    ensures forall j :: j != k ==> Count(b, j) == Count(m, j)
  {
    m[k := Count(m, k) + 1]
  }

  /** The sum of all counts in `m`. */
  ghost function Sum<K(!new)>(m: map<K, nat>): nat
    decreases |m.Keys|
  {
    if m == map[] then 0
    else
      var k :| k in m;
      m[k] + Sum(m - {k})
  }

  /** The sum can be taken apart at any key. */
  lemma {:induction false} SumRemove<K(!new)>(m: map<K, nat>, k: K)
    requires k in m
    ensures Sum(m) == m[k] + Sum(m - {k})
    decreases |m.Keys|
  {
    var j :| j in m && Sum(m) == m[j] + Sum(m - {j});
    if j != k {
      var rest := m - {j};
      assert k in rest;
      SumRemove(rest, k);
      assert rest - {k} == (m - {k}) - {j};
      SumRemove(m - {k}, j);
    }
  }

  /** Bumping one key adds exactly one to the sum. */
  lemma SumBumped<K(!new)>(m: map<K, nat>, k: K)
    ensures Sum(Bumped(m, k)) == Sum(m) + 1
  {
    var b := Bumped(m, k);
    SumRemove(b, k);
    if k in m {
      SumRemove(m, k);
      assert b - {k} == m - {k};
    } else {
      assert b - {k} == m;
    }
  }

  /** The contents of an `ErrorStats`. */
  datatype Tally = Tally(
    mapErrors: map<MapFormatError, nat>,
    dfErrors: map<Raw.FormatError, nat>,
    ioErrors: seq<Sys.IoError>,
    ok: nat)

  /** `ErrorStats::default()`. */
  const EmptyTally := Tally(map[], map[], [], 0)

  /** Everything the tally has counted. */
  ghost function Total(t: Tally): nat
  {
    t.ok + Sum(t.mapErrors) + Sum(t.dfErrors) + |t.ioErrors|
  }

  /** `update_error_stats`, on values. */
  function Record(t: Tally, err: MapError): Tally
  {
    match err
    case Map(e) => t.(mapErrors := Bumped(t.mapErrors, e))
    case Df(d) =>
      if d.Df? then t.(dfErrors := Bumped(t.dfErrors, d.format))
      else t.(ioErrors := t.ioErrors + [d.io])
  }

  /** One turn of the loop in `stats`: an ok file bumps `ok`, a failed one is recorded. */
  function Step(t: Tally, result: Result<(), MapError>): Tally
  {
    match result
    case Ok(_) => t.(ok := t.ok + 1)
    case Err(err) => Record(t, err)
  }

  /** The tally after the outcomes `results`, taken in order. */
  function Tallied(results: seq<Result<(), MapError>>): Tally
  {
    if results == [] then EmptyTally
    else Step(Tallied(results[..|results| - 1]), results[|results| - 1])
  }

  /** The I/O errors among `results`, in order. */
  function IoErrorsOf(results: seq<Result<(), MapError>>): seq<Sys.IoError>
  {
    if results == [] then []
    else
      var last := results[|results| - 1];
      IoErrorsOf(results[..|results| - 1])
        + (if last.Err? && last.error.Df? && last.error.dfError.Io? then [last.error.dfError.io] else [])
  }

  /** Recording an error counts exactly one more thing. */
  lemma RecordTotal(t: Tally, err: MapError)
    ensures Total(Record(t, err)) == Total(t) + 1
  {
    if err.Map? {
      SumBumped(t.mapErrors, err.mapError);
    } else if err.dfError.Df? {
      SumBumped(t.dfErrors, err.dfError.format);
    }
  }

  /** Every outcome is counted exactly once: the tally's total is the number of files. */
  lemma {:induction false} TalliedTotal(results: seq<Result<(), MapError>>)
    ensures Total(Tallied(results)) == |results|
    decreases |results|
  {
    if results != [] {
      var init, last := results[..|results| - 1], results[|results| - 1];
      TalliedTotal(init);
      if last.Err? {
        RecordTotal(Tallied(init), last.error);
      }
    }
  }

  /** The outcomes up to the last, and the last one, make up the multiset of all outcomes. */
  lemma Unsnoc(results: seq<Result<(), MapError>>)
    requires results != []
    ensures multiset(results) == multiset(results[..|results| - 1]) + multiset{results[|results| - 1]}
  {
    assert results == results[..|results| - 1] + [results[|results| - 1]];
  }

  /** `ok` is the number of ok outcomes, and the I/O errors are kept in the order they occurred. */
  lemma {:induction false} TalliedOk(results: seq<Result<(), MapError>>)
    ensures Tallied(results).ok == multiset(results)[Ok(())]
    ensures Tallied(results).ioErrors == IoErrorsOf(results)
    decreases |results|
  {
    if results != [] {
      var last := results[|results| - 1];
      Unsnoc(results);
      if last.Ok? {
        assert last.value == ();
        assert last == Ok(());
      }
      TalliedOk(results[..|results| - 1]);
    }
  }

  /** Each map error is counted as often as it occurred, and has a key exactly when it occurred. */
  lemma {:induction false} TalliedMapErrors(results: seq<Result<(), MapError>>)
    ensures forall e :: Count(Tallied(results).mapErrors, e) == multiset(results)[Err(Map(e))]
    ensures forall e :: e in Tallied(results).mapErrors <==> Err(Map(e)) in results
    decreases |results|
  {
    if results != [] {
      Unsnoc(results);
      TalliedMapErrors(results[..|results| - 1]);
    }
  }

  /** Each format error is counted as often as it occurred, and has a key exactly when it occurred. */
  lemma {:induction false} TalliedDfErrors(results: seq<Result<(), MapError>>)
    ensures forall e :: Count(Tallied(results).dfErrors, e) == multiset(results)[Err(Df(DfReader.Df(e)))]
    ensures forall e :: e in Tallied(results).dfErrors <==> Err(Df(DfReader.Df(e))) in results
    decreases |results|
  {
    if results != [] {
      Unsnoc(results);
      TalliedDfErrors(results[..|results| - 1]);
    }
  }

  /** `ErrorStats`: the counts of map and format errors by error, the I/O errors, and the ok files. */
  class ErrorStats {
    var mapErrors: map<MapFormatError, nat>
    var dfErrors: map<Raw.FormatError, nat>
    var ioErrors: seq<Sys.IoError>
    var ok: nat

    function View(): Tally
      reads this
    {
      Tally(mapErrors, dfErrors, ioErrors, ok)
    }

    /** `ErrorStats::default()`: nothing counted. */
    constructor ()
      ensures mapErrors == map[] && dfErrors == map[] && ioErrors == [] && ok == 0
      ensures View() == EmptyTally
    {
      mapErrors := map[];
      dfErrors := map[];
      ioErrors := [];
      ok := 0;
    }
  }

  /**
   * `update_error_stats`: a map error or a format error bumps its own count,
   * an I/O error is appended; nothing else changes.
   */
  method UpdateErrorStats(stats: ErrorStats, err: MapError)
    modifies stats
    ensures stats.View() == Record(old(stats.View()), err)
    ensures err.Map? ==>
      stats.mapErrors == Bumped(old(stats.mapErrors), err.mapError)
      && stats.dfErrors == old(stats.dfErrors) && stats.ioErrors == old(stats.ioErrors) && stats.ok == old(stats.ok)
    ensures err.Df? && err.dfError.Df? ==>
      stats.dfErrors == Bumped(old(stats.dfErrors), err.dfError.format)
      && stats.mapErrors == old(stats.mapErrors) && stats.ioErrors == old(stats.ioErrors) && stats.ok == old(stats.ok)
    ensures err.Df? && err.dfError.Io? ==>
      stats.ioErrors == old(stats.ioErrors) + [err.dfError.io]
      && stats.mapErrors == old(stats.mapErrors) && stats.dfErrors == old(stats.dfErrors) && stats.ok == old(stats.ok)
  {
    match err {
      case Map(e) =>
        stats.mapErrors := stats.mapErrors[e := Count(stats.mapErrors, e) + 1];
      case Df(d) =>
        match d {
          case Df(e) =>
            stats.dfErrors := stats.dfErrors[e := Count(stats.dfErrors, e) + 1];
          case Io(e) =>
            stats.ioErrors := stats.ioErrors + [e];
        }
    }
  }

  /**
   * The loop of `stats`, given the outcome of processing each file named on
   * the command line: the tally ends as `Tallied(results)`, so it has counted
   * every file exactly once, and the summary is produced only when some file
   * was named.
   */
  method Stats(results: seq<Result<(), MapError>>) returns (errorStats: ErrorStats, summaryCalled: bool)
    ensures fresh(errorStats)
    ensures errorStats.View() == Tallied(results)
    ensures Total(errorStats.View()) == |results|
    ensures summaryCalled <==> results != []
  {
    var haveArgs := false;
    errorStats := new ErrorStats();
    for i := 0 to |results|
      invariant fresh(errorStats)
      invariant errorStats.View() == Tallied(results[..i])
      invariant haveArgs <==> i > 0
    {
      assert results[..i + 1][..i] == results[..i];
      haveArgs := true;
      match results[i] {
        case Ok(_) =>
          errorStats.ok := errorStats.ok + 1;
        case Err(err) =>
          UpdateErrorStats(errorStats, err);
      }
    }
    assert results[..|results|] == results;
    TalliedTotal(results);
    if !haveArgs {
      return errorStats, false;
    }
    summaryCalled := true;
  }
}
