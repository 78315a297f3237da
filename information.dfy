/** The Information type of main.go: the loaded historical records and the
    scheduled entry, with the loaders and the accessors of the LeapSeconds
    interface. The HTTP transport is not modelled: each loader takes what the
    GET of its URI delivered, the response body or the transport's error, and
    the embedded data file is a parameter. Instants are whole seconds since
    the Unix epoch; a time.Duration is a count of nanoseconds. */
module Leapseconds {
  import opened Wrappers
  import opened Errors
  import opened Numbers
  import opened Text
  import opened Calendar
  import opened Scheduled
  import opened Historical

  const NanosPerSecond := 1_000_000_000
  /** time.Duration is an int64. */
  const MaxDuration := 0x7FFF_FFFF_FFFF_FFFF

  /** The zero time.Time, 0001-01-01 00:00:00 UTC. */
  function ZeroTime(): int {
    Seconds(CivilDate(1, 1, 1), 0, 0, 0)
  }

  /** The zero lastEntry a new Information holds before loading. */
  function ZeroEntry(): LastEntry {
    LastEntry(0, ZeroTime(), None)
  }

  /** What the GET of a URI delivered: the response body, or the reason the
      transport gave for failing. */
  type Fetched = Result<string, string>

  /** fetchDataFileFromURL once the GET has answered: the transport error, or
      the parse of the body. */
  function HistoricalFromURL(fetched: Fetched): Result<seq<LeapSecond>, Error> {
    match fetched
    case Failure(reason) => Failure(Transport(reason))
    case Success(body) => DataFile(body)
  }

  /** fetchScheduledFromURL once the GET has answered. */
  function ScheduledFromURL(fetched: Fetched): Result<LastEntry, Error> {
    match fetched
    case Failure(reason) => Failure(Transport(reason))
    case Success(body) => ParseScheduled(body)
  }

  /** The historical records and the error after loadHistorical. */
  datatype HistoricalState = HistoricalState(historical: seq<LeapSecond>, err: Option<Error>)

  /** loadHistorical: the records from the URI; when that fails, nothing (the
      fetch returned nil) and the error, unless failover is enabled, in which
      case the embedded file is parsed the same way. A panic while parsing
      stops everything: the assignment it would have made does not happen,
      and there is no failover. */
  function LoadHistoricalSpec(fetched: Fetched, embedded: string, failover: bool,
                              current: seq<LeapSecond>): HistoricalState
  {
    match HistoricalFromURL(fetched)
    case Success(records) => HistoricalState(records, None)
    case Failure(e) =>
      if e.IndexPanic? then HistoricalState(current, Some(e))
      else if !failover then HistoricalState([], Some(e))
      else
        match DataFile(embedded)
        case Success(records) => HistoricalState(records, None)
        case Failure(e') => HistoricalState([], Some(e'))
  }

  /** loadHistorical succeeds exactly when the URI gives a valid file, or,
      with failover, when it fails without a panic and the embedded file is
      valid. */
  lemma LoadHistoricalSucceeds(fetched: Fetched, embedded: string, failover: bool,
                               current: seq<LeapSecond>)
    ensures var u := HistoricalFromURL(fetched);
      LoadHistoricalSpec(fetched, embedded, failover, current).err.None? <==>
        u.Success? || (failover && !u.error.IndexPanic? && DataFile(embedded).Success?)
  {
  }

  /** A panic while parsing the fetched body leaves the previous records
      untouched. A panic while parsing the embedded file leaves none, because
      the failed fetch has already stored nil. Any other failure also leaves
      no records at all, never the part of a file read before its bad line. */
  lemma FailedLoadKeepsNothing(fetched: Fetched, embedded: string, failover: bool,
                               current: seq<LeapSecond>)
    ensures var u, e, h := HistoricalFromURL(fetched), DataFile(embedded),
                           LoadHistoricalSpec(fetched, embedded, failover, current);
      (u.Failure? && u.error.IndexPanic? ==> h == HistoricalState(current, Some(u.error))) &&
      ((failover && u.Failure? && !u.error.IndexPanic? && e.Failure? && e.error.IndexPanic?)
         ==> h == HistoricalState([], Some(e.error))) &&
      (h.err.Some? && !(u.Failure? && u.error.IndexPanic?) ==> h.historical == [])
  {
  }

  /** After a successful load every record is well formed. */
  lemma LoadedRecordsWellFormed(fetched: Fetched, embedded: string, failover: bool,
                                current: seq<LeapSecond>)
    ensures var h := LoadHistoricalSpec(fetched, embedded, failover, current);
      h.err.None? ==> forall j :: 0 <= j < |h.historical| ==> WellFormed(h.historical[j])
  {
    DataFileWellFormed(embedded);
    if fetched.Success? {
      DataFileWellFormed(fetched.value);
    }
  }

  /** With failover, the embedded file stands in for a URI that cannot be
      fetched. */
  lemma FailoverToEmbedded(reason: string, recs: seq<LeapSecond>, current: seq<LeapSecond>)
    requires forall j :: 0 <= j < |recs| ==> Writable(recs[j])
    ensures LoadHistoricalSpec(Failure(reason), FormatFile(recs), true, current) ==
              HistoricalState(recs, None)
    ensures LoadHistoricalSpec(Failure(reason), FormatFile(recs), false, current) ==
              HistoricalState([], Some(Transport(reason)))
  {
    FileRoundTrip(recs);
  }

  /** A data file served by the URI is loaded whatever the embedded file. */
  lemma LoadFromURL(recs: seq<LeapSecond>, embedded: string, failover: bool, current: seq<LeapSecond>)
    requires forall j :: 0 <= j < |recs| ==> Writable(recs[j])
    ensures LoadHistoricalSpec(Success(FormatFile(recs)), embedded, failover, current) ==
              HistoricalState(recs, None)
  {
    FileRoundTrip(recs);
  }

  /** A scheduled body whose first line is a well-formed entry gives that
      entry, whatever follows. */
  lemma ScheduledBodyRoundTrip(offset: Uint16, last: CivilDate, next: Option<CivilDate>, rest: string)
    requires Valid(last) && 0 <= last.year <= 9999
    requires next.Some? ==> Valid(next.value) && 0 <= next.value.year <= 9999
    ensures ScheduledFromURL(Success(FormatLastEntry(offset, last, next) + "\n" + rest)) ==
              Success(LastEntry(offset, Seconds(last, 0, 0, 0),
                                if next.Some? then Some(Seconds(next.value, 0, 0, 0)) else None))
  {
    var line := FormatLastEntry(offset, last, next);
    FormatLastEntryPlain(offset, last, next);
    ParseScheduledFirstLineOnly(line, rest);
    ScheduledRoundTrip(offset, last, next);
  }

  class Information {
    /** EmbeddedFailover: fall back to the embedded data file when the
        historical URI cannot be loaded. */
    var embeddedFailover: bool
    var historical: seq<LeapSecond>
    var scheduled: LastEntry

    /** New: failover off, nothing loaded. */
    constructor ()
      ensures !embeddedFailover && historical == [] && scheduled == ZeroEntry()
    {
      embeddedFailover := false;
      historical := [];
      scheduled := ZeroEntry();
    }

    /** Set the exported EmbeddedFailover field. */
    method SetEmbeddedFailover(on: bool)
      modifies this
      ensures embeddedFailover == on
      ensures historical == old(historical) && scheduled == old(scheduled)
    {
      embeddedFailover := on;
    }

    method LoadHistorical(fetched: Fetched, embedded: string) returns (err: Option<Error>)
      modifies this
      ensures HistoricalState(historical, err) ==
                LoadHistoricalSpec(fetched, embedded, old(embeddedFailover), old(historical))
      ensures embeddedFailover == old(embeddedFailover) && scheduled == old(scheduled)
    {
      var fromURL: Result<seq<LeapSecond>, Error>;
      match fetched {
        case Failure(reason) => fromURL := Failure(Transport(reason));
        case Success(body) => fromURL := FetchDataFileFromReader(body);
      }
      if fromURL.Success? {
        historical := fromURL.value;
        return None;
      }
      if fromURL.error.IndexPanic? {
        return Some(fromURL.error);
      }
      historical := [];
      if !embeddedFailover {
        return Some(fromURL.error);
      }
      var fromEmbedded := FetchDataFileFromReader(embedded);
      if fromEmbedded.Failure? {
        return Some(fromEmbedded.error);
      }
      historical := fromEmbedded.value;
      return None;
    }

    /** loadScheduled: the entry is replaced only when the scheduled URI gave
        a valid line. */
    method LoadScheduled(fetched: Fetched) returns (err: Option<Error>)
      modifies this
      ensures var r := ScheduledFromURL(fetched);
        (r.Success? ==> scheduled == r.value && err == None) &&
        (r.Failure? ==> scheduled == old(scheduled) && err == Some(r.error))
      ensures embeddedFailover == old(embeddedFailover) && historical == old(historical)
    {
      var r := ScheduledFromURL(fetched);
      if r.Failure? {
        return Some(r.error);
      }
      scheduled := r.value;
      return None;
    }

    /** Load: the historical data, then the scheduled entry; the first error
        is returned, and the historical data already loaded stays. */
    method Load(historicalFetched: Fetched, embedded: string,
                scheduledFetched: Fetched) returns (err: Option<Error>)
      modifies this
      ensures var h := LoadHistoricalSpec(historicalFetched, embedded, old(embeddedFailover), old(historical));
        var s := ScheduledFromURL(scheduledFetched);
        historical == h.historical &&
        (h.err.Some? ==> err == h.err && scheduled == old(scheduled)) &&
        (h.err.None? && s.Success? ==> err == None && scheduled == s.value) &&
        (h.err.None? && s.Failure? ==> err == Some(s.error) && scheduled == old(scheduled))
      ensures embeddedFailover == old(embeddedFailover)
    {
      err := LoadHistorical(historicalFetched, embedded);
      if err.Some? {
        return;
      }
      err := LoadScheduled(scheduledFetched);
    }

    /** All: the instant of every historical leap second, in file order. */
    method All() returns (dates: seq<int>)
      ensures |dates| == |historical|
      ensures forall k :: 0 <= k < |dates| ==> dates[k] == historical[k].date
    {
      dates := [];
      var i := 0;
      while i < |historical|
        invariant 0 <= i <= |historical|
        invariant |dates| == i
        invariant forall k :: 0 <= k < i ==> dates[k] == historical[k].date
      {
        dates := dates + [historical[i].date];
        i := i + 1;
      }
    }

    /** Last: the most recent leap second of the scheduled entry. */
    function Last(): (t: int)
      reads this
      ensures t == scheduled.last
    {
      scheduled.last
    }

    /** Scheduled: the announced next leap second, if any. */
    function Scheduled(): (t: Option<int>)
      reads this
      ensures t == scheduled.next
    {
      scheduled.next
    }

    /** TAIOffset: the offset as a time.Duration, a whole number of seconds
        that always fits in an int64. */
    function TAIOffset(): (d: int)
      reads this
      ensures d % NanosPerSecond == 0 && d / NanosPerSecond == scheduled.taiOffset
      ensures 0 <= d <= MaxDuration
    {
      scheduled.taiOffset * NanosPerSecond
    }
  }
}
