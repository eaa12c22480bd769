/**
  The write loop of `push_to_supabase`: one upsert per record, each failure
  counted and logged, none stopping the batch.
 */
module Sync {

  import opened Records

  /** What one upsert call does: the store accepts the row, or the call raises. */
  datatype UpsertOutcome = Stored | Raised

  /** What the write step reports: the early "no movies" return, or the summary line. */
  datatype PushReport = NothingToInsert | Summary(successful: nat, failed: nat)

  function CountStored(outcomes: seq<UpsertOutcome>): nat
  {
    if outcomes == [] then 0
    else CountStored(outcomes[..|outcomes| - 1]) + (if outcomes[|outcomes| - 1] == Stored then 1 else 0)
  }

  function CountRaised(outcomes: seq<UpsertOutcome>): nat
  {
    if outcomes == [] then 0
    else CountRaised(outcomes[..|outcomes| - 1]) + (if outcomes[|outcomes| - 1] == Raised then 1 else 0)
  }

  /** The records whose upsert raised, in batch order: the ones the error log names. */
  function RaisedRecords(movies: seq<Movie>, outcomes: seq<UpsertOutcome>): seq<Movie>
    requires |outcomes| == |movies|
  {
    if movies == [] then []
    else
      var n := |movies| - 1;
      RaisedRecords(movies[..n], outcomes[..n]) + (if outcomes[n] == Raised then [movies[n]] else [])
  }

  /** The report for a batch whose calls had the given outcomes. */
  function Report(movies: seq<Movie>, outcomes: seq<UpsertOutcome>): (r: PushReport)
    ensures r.Summary? <==> movies != []
    ensures r.Summary? ==> r.successful + r.failed == |outcomes|
  {
    CountsCover(outcomes);
    if movies == [] then NothingToInsert else Summary(CountStored(outcomes), CountRaised(outcomes))
  }

  /** Every call is counted once: successes plus failures is the number of calls. */
  lemma {:induction false} CountsCover(outcomes: seq<UpsertOutcome>)
    ensures CountStored(outcomes) + CountRaised(outcomes) == |outcomes|
  {
    if outcomes != [] {
      CountsCover(outcomes[..|outcomes| - 1]);
    }
  }

  /** The error log names exactly the records counted as failed. */
  lemma {:induction false} RaisedRecordsCounted(movies: seq<Movie>, outcomes: seq<UpsertOutcome>)
    requires |outcomes| == |movies|
    ensures |RaisedRecords(movies, outcomes)| == CountRaised(outcomes)
  {
    if movies != [] {
      var n := |movies| - 1;
      RaisedRecordsCounted(movies[..n], outcomes[..n]);
    }
  }

  /** A batch in which no call raises reports every record as inserted. */
  lemma {:induction false} AllStored(outcomes: seq<UpsertOutcome>)
    requires forall i :: 0 <= i < |outcomes| ==> outcomes[i] == Stored
    ensures CountStored(outcomes) == |outcomes| && CountRaised(outcomes) == 0
  {
    if outcomes != [] {
      AllStored(outcomes[..|outcomes| - 1]);
    }
  }

  /**
    `push_to_supabase`: `outcomes[i]` is what the store does with the i-th call.
    Returns the upsert calls made, in order, the report, and the records logged as failed.
   */
  method PushToStore(movies: seq<Movie>, outcomes: seq<UpsertOutcome>)
    returns (calls: seq<Movie>, report: PushReport, failedRecords: seq<Movie>)
    requires |outcomes| == |movies|
    ensures movies == [] ==> calls == [] && report == NothingToInsert && failedRecords == []
    ensures movies != [] ==> calls == movies
    ensures movies != [] ==> report == Summary(CountStored(outcomes), CountRaised(outcomes))
    ensures report.Summary? ==> report.successful + report.failed == |movies|
    ensures failedRecords == RaisedRecords(movies, outcomes)
    ensures |failedRecords| == CountRaised(outcomes)
  {
    if movies == [] {
      return [], NothingToInsert, [];
    }
    var successful, failed := 0, 0;
    calls, failedRecords := [], [];
    var i := 0;
    while i < |movies|
      invariant 0 <= i <= |movies|
      invariant calls == movies[..i]
      invariant successful == CountStored(outcomes[..i])
      invariant failed == CountRaised(outcomes[..i])
      invariant failedRecords == RaisedRecords(movies[..i], outcomes[..i])
    {
      assert movies[..i + 1][..i] == movies[..i];
      assert outcomes[..i + 1][..i] == outcomes[..i];
      calls := calls + [movies[i]];
      if outcomes[i] == Stored {
        successful := successful + 1;
      } else {
        failed := failed + 1;
        failedRecords := failedRecords + [movies[i]];
      }
      i := i + 1;
    }
    assert movies[..i] == movies;
    assert outcomes[..i] == outcomes;
    report := Summary(successful, failed);
    CountsCover(outcomes);
    RaisedRecordsCounted(movies, outcomes);
  }
}
