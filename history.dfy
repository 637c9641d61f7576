/** The local research history (`HistoryManager`): a newest-first list of
    interaction records keyed by id. The on-disk JSON document is the `records`
    field of a `HistoryStore`; a document that is missing or does not load is
    the empty list. Timestamps are opaque values supplied by the caller. */
module History {
  import opened Json

  type Timestamp = string

  /** The list keeps at most this many records (`[:50]`). */
  const MaxRecords := 50
  /** Stored queries are cut to this many characters, then "..." is appended. */
  const MaxQueryLength := 200
  const Ellipsis := "..."

  /** The status values the client writes. */
  const Started := "started"
  const Streaming := "streaming"
  const Completed := "completed"
  const Failed := "failed"
  const TimedOut := "timeout"

  datatype Record = Record(
    id: string,
    query: string,
    startedAt: Timestamp,
    status: string,
    updatedAt: Option<Timestamp>,
    completedAt: Option<Timestamp>)

  /** The query as stored in a new record. */
  function StoredQuery(query: string): (r: string)
    ensures |query| <= MaxQueryLength ==> r == query
    ensures |query| > MaxQueryLength ==>
              |r| == MaxQueryLength + 3 && r[..MaxQueryLength] == query[..MaxQueryLength] && r[MaxQueryLength..] == Ellipsis
  {
    if |query| > MaxQueryLength then query[..MaxQueryLength] + Ellipsis else query
  }

  /** Position of the first record with the given id, if any. */
  function IndexOf(records: seq<Record>, id: string): (r: Option<nat>)
    ensures r.Some? ==> r.value < |records| && records[r.value].id == id
    ensures r.Some? ==> forall j :: 0 <= j < r.value ==> records[j].id != id
    ensures r.None? ==> forall j :: 0 <= j < |records| ==> records[j].id != id
  {
    if records == [] then None
    else if records[0].id == id then Some(0)
    else match IndexOf(records[1..], id)
      case None => None
      case Some(i) => Some(i + 1)
  }

  /** `get_interaction`: the first record with the given id. */
  function Lookup(records: seq<Record>, id: string): (r: Option<Record>)
    ensures r.Some? ==> r.value in records && r.value.id == id
    ensures r.Some? ==>
              exists i :: (&& 0 <= i < |records| && records[i] == r.value
                           && forall j :: 0 <= j < i ==> records[j].id != id)
    ensures r.None? <==> forall j :: 0 <= j < |records| ==> records[j].id != id
  {
    match IndexOf(records, id)
    case None => None
    case Some(i) => Some(records[i])
  }

  /** The record `add_interaction` puts at the front for an unknown id. */
  function NewRecord(id: string, query: string, status: string, now: Timestamp): Record
  {
    Record(id, StoredQuery(query), now, status, None, None)
  }

  /** Python's `records[:50]`. */
  function Cap(records: seq<Record>): seq<Record>
  {
    if |records| > MaxRecords then records[..MaxRecords] else records
  }

  /** `add_interaction`: refresh the first record with this id, or insert a new
      record at the front and keep the 50 newest. */
  function Upsert(records: seq<Record>, id: string, query: string, status: string, now: Timestamp): (r: seq<Record>)
    ensures Lookup(records, id).Some? ==> |r| == |records|
    ensures Lookup(records, id).None? ==>
              |r| == (if |records| + 1 < MaxRecords then |records| + 1 else MaxRecords) && r[0].id == id
  {
    match IndexOf(records, id)
    case Some(i) => records[i := records[i].(status := status, updatedAt := Some(now))]
    case None => Cap([NewRecord(id, query, status, now)] + records)
  }

  /** The record after `update_status` has written to it. */
  function Stamp(rec: Record, status: string, now: Timestamp): Record
  {
    rec.(status := status,
         updatedAt := Some(now),
         completedAt := if status == Completed then Some(now) else rec.completedAt)
  }

  /** `update_status`: rewrite the first record with this id; no-op if none. */
  function SetStatus(records: seq<Record>, id: string, status: string, now: Timestamp): (r: seq<Record>)
    ensures |r| == |records| && forall j :: 0 <= j < |r| ==> r[j].id == records[j].id
  {
    match IndexOf(records, id)
    case Some(i) => records[i := Stamp(records[i], status, now)]
    case None => records
  }

  /** `get_recent`: Python's `records[:limit]`, where a negative limit drops
      that many records from the end. */
  function Recent(records: seq<Record>, limit: int): (r: seq<Record>)
    ensures |r| <= |records| && r == records[..|r|]
    ensures limit >= 0 ==> |r| == (if limit < |records| then limit else |records|)
    ensures limit < 0 ==> |r| == (if |records| + limit > 0 then |records| + limit else 0)
  {
    if limit >= 0 then records[..if limit < |records| then limit else |records|]
    else records[..if |records| + limit > 0 then |records| + limit else 0]
  }

  // ---------------------------------------------------------------------
  // Properties of the specification functions
  // ---------------------------------------------------------------------

  /** Any index holding the id at which no earlier record has it is the one
      `IndexOf` finds. */
  lemma IndexOfUnique(records: seq<Record>, id: string, i: nat)
    requires i < |records| && records[i].id == id
    requires forall j :: 0 <= j < i ==> records[j].id != id
    ensures IndexOf(records, id) == Some(i)
  {
  }

  /** Upserting an id that is present changes only that record's status and
      update time; the length, the query, the start time and every other
      record stay as they were. */
  lemma UpsertExisting(records: seq<Record>, id: string, query: string, status: string, now: Timestamp, i: nat)
    requires i < |records| && records[i].id == id
    requires forall j :: 0 <= j < i ==> records[j].id != id
    ensures var r := Upsert(records, id, query, status, now);
      && |r| == |records|
      && r[i] == records[i].(status := status, updatedAt := Some(now))
      && r[i].query == records[i].query && r[i].startedAt == records[i].startedAt
      && forall j :: 0 <= j < |records| && j != i ==> r[j] == records[j]
  {
    IndexOfUnique(records, id, i);
  }

  /** Upserting an absent id puts the new record first, shifts the old list
      by one and keeps min(n + 1, 50) records: once the list is full the
      oldest record is evicted. */
  lemma UpsertNew(records: seq<Record>, id: string, query: string, status: string, now: Timestamp)
    requires forall j :: 0 <= j < |records| ==> records[j].id != id
    ensures var r := Upsert(records, id, query, status, now);
      && |r| == (if |records| + 1 < MaxRecords then |records| + 1 else MaxRecords)
      && r[0] == Record(id, StoredQuery(query), now, status, None, None)
      && r[1..] == records[..|r| - 1]
  {
    var r := Upsert(records, id, query, status, now);
    assert IndexOf(records, id).None?;
    assert r == Cap([NewRecord(id, query, status, now)] + records);
  }

  /** The history never grows past 50 records. */
  lemma UpsertBounded(records: seq<Record>, id: string, query: string, status: string, now: Timestamp)
    requires |records| <= MaxRecords
    ensures |Upsert(records, id, query, status, now)| <= MaxRecords
  {
  }

  /** Reading back an id right after upserting it finds a record with that
      status; a new record also carries the truncated query and `now` as its
      start time. */
  lemma LookupAfterUpsert(records: seq<Record>, id: string, query: string, status: string, now: Timestamp)
    ensures var r := Lookup(Upsert(records, id, query, status, now), id);
      && r.Some? && r.value.id == id && r.value.status == status
      && (Lookup(records, id).Some? ==> r.value == Lookup(records, id).value.(status := status, updatedAt := Some(now)))
      && (Lookup(records, id).None? ==> r.value == NewRecord(id, query, status, now))
  {
    var u := Upsert(records, id, query, status, now);
    match IndexOf(records, id)
    case Some(i) =>
      IndexOfUnique(u, id, i);
    case None =>
      IndexOfUnique(u, id, 0);
  }

  /** Upserting one id does not change what another id finds, unless the new
      record pushed the other id's record out of a full list: that happens
      only when its first record sits at the last place a full list keeps. */
  lemma UpsertKeepsOthers(records: seq<Record>, id: string, other: string, query: string, status: string, now: Timestamp)
    requires other != id
    requires Lookup(records, id).Some? || IndexOf(records, other).None? || IndexOf(records, other).value < MaxRecords - 1
    ensures Lookup(Upsert(records, id, query, status, now), other) == Lookup(records, other)
  {
    if IndexOf(records, id).Some? {
      RefreshKeepsOthers(records, id, other, query, status, now, IndexOf(records, id).value);
    } else {
      InsertKeepsOthers(records, id, other, query, status, now);
    }
  }

  /** `UpsertKeepsOthers` when the id is present: the refresh in place. */
  lemma RefreshKeepsOthers(records: seq<Record>, id: string, other: string, query: string, status: string, now: Timestamp, i: nat)
    requires other != id && IndexOf(records, id) == Some(i)
    ensures Lookup(Upsert(records, id, query, status, now), other) == Lookup(records, other)
  {
    var u := records[i := records[i].(status := status, updatedAt := Some(now))];
    assert Upsert(records, id, query, status, now) == u;
    match IndexOf(records, other)
    case Some(k) =>
      IndexOfUnique(u, other, k);
    case None =>
      assert forall j :: 0 <= j < |u| ==> u[j].id == records[j].id;
  }

  /** `UpsertKeepsOthers` when the id is new: the insertion at the front. */
  lemma InsertKeepsOthers(records: seq<Record>, id: string, other: string, query: string, status: string, now: Timestamp)
    requires other != id && IndexOf(records, id).None?
    requires IndexOf(records, other).None? || IndexOf(records, other).value < MaxRecords - 1
    ensures Lookup(Upsert(records, id, query, status, now), other) == Lookup(records, other)
  {
    var rec := NewRecord(id, query, status, now);
    var u := Cap([rec] + records);
    assert Upsert(records, id, query, status, now) == u;
    CapFront(rec, records);
    match IndexOf(records, other)
    case Some(k) =>
      IndexOfUnique(u, other, k + 1);
    case None =>
      assert forall j :: 0 <= j < |u| ==> u[j].id != other;
  }

  /** The capped list with a record put in front: the record, then the old
      list shifted by one place. */
  lemma CapFront(rec: Record, records: seq<Record>)
    ensures var u := Cap([rec] + records);
      && |u| == (if |records| + 1 < MaxRecords then |records| + 1 else MaxRecords)
      && u[0] == rec
      && forall j :: 1 <= j < |u| ==> u[j] == records[j - 1]
  {
  }

  /** `update_status` on an absent id leaves the list as it was. */
  lemma SetStatusAbsent(records: seq<Record>, id: string, status: string, now: Timestamp)
    requires forall j :: 0 <= j < |records| ==> records[j].id != id
    ensures SetStatus(records, id, status, now) == records
  {
    assert IndexOf(records, id).None?;
  }

  /** `update_status` on a present id changes the first matching record only:
      its status and update time are set, `completed_at` is set if and only
      if the status is "completed", and the id, query, start time and every
      other record are untouched. */
  lemma SetStatusPresent(records: seq<Record>, id: string, status: string, now: Timestamp, i: nat)
    requires i < |records| && records[i].id == id
    requires forall j :: 0 <= j < i ==> records[j].id != id
    ensures var r := SetStatus(records, id, status, now);
      && |r| == |records|
      && r[i].id == id && r[i].query == records[i].query && r[i].startedAt == records[i].startedAt
      && r[i].status == status && r[i].updatedAt == Some(now)
      && (status == Completed ==> r[i].completedAt == Some(now))
      && (status != Completed ==> r[i].completedAt == records[i].completedAt)
      && forall j :: 0 <= j < |records| && j != i ==> r[j] == records[j]
  {
    IndexOfUnique(records, id, i);
  }

  /** Reading back an id right after `update_status` on it: a present id
      finds its record with the new status, and with the completion time
      set exactly when the status is "completed"; an absent id stays absent. */
  lemma SetStatusReadBack(records: seq<Record>, id: string, status: string, now: Timestamp)
    ensures var r := Lookup(SetStatus(records, id, status, now), id);
      && (Lookup(records, id).None? ==> r.None?)
      && (Lookup(records, id).Some? ==>
            && r.Some?
            && r.value == Stamp(Lookup(records, id).value, status, now)
            && r.value.status == status
            && (status == Completed ==> r.value.completedAt == Some(now)))
  {
    match IndexOf(records, id)
    case None =>
    case Some(i) =>
      IndexOfUnique(SetStatus(records, id, status, now), id, i);
  }

  /** `update_status` on one id does not change what another id finds. */
  lemma SetStatusKeepsOthers(records: seq<Record>, id: string, other: string, status: string, now: Timestamp)
    requires other != id
    ensures Lookup(SetStatus(records, id, status, now), other) == Lookup(records, other)
  {
    var u := SetStatus(records, id, status, now);
    match IndexOf(records, id)
    case None =>
    case Some(i) =>
      match IndexOf(records, other)
      case Some(k) =>
        IndexOfUnique(u, other, k);
      case None =>
        assert forall j :: 0 <= j < |u| ==> u[j].id == records[j].id;
  }

  /** Writing the same status twice leaves the record as one write at the
      later time would: only the timestamps move. */
  lemma SetStatusIdempotent(records: seq<Record>, id: string, status: string, t1: Timestamp, t2: Timestamp)
    ensures SetStatus(SetStatus(records, id, status, t1), id, status, t2) == SetStatus(records, id, status, t2)
  {
    var once := SetStatus(records, id, status, t1);
    match IndexOf(records, id)
    case None =>
    case Some(i) =>
      IndexOfUnique(once, id, i);
  }

  // ---------------------------------------------------------------------
  // The store
  // ---------------------------------------------------------------------

  class HistoryStore {
    /** The `interactions` list of the history document, newest first. */
    var records: seq<Record>

    /** Opens the store on the loaded document (the empty list when the file
        is missing or does not parse). */
    constructor (loaded: seq<Record>)
      ensures records == loaded
    {
      records := loaded;
    }

    /** `add_interaction`. */
    method AddInteraction(id: string, query: string, status: string, now: Timestamp)
      modifies this
      ensures records == Upsert(old(records), id, query, status, now)
    {
      var i := 0;
      while i < |records|
        invariant 0 <= i <= |records|
        invariant records == old(records)
        invariant forall j :: 0 <= j < i ==> records[j].id != id
      {
        if records[i].id == id {
          IndexOfUnique(records, id, i);
          records := records[i := records[i].(status := status, updatedAt := Some(now))];
          return;
        }
        i := i + 1;
      }
      records := [NewRecord(id, query, status, now)] + records;
      if |records| > MaxRecords {
        records := records[..MaxRecords];
      }
    }

    /** `update_status`. */
    method UpdateStatus(id: string, status: string, now: Timestamp)
      modifies this
      ensures records == SetStatus(old(records), id, status, now)
    {
      var i := 0;
      while i < |records|
        invariant 0 <= i <= |records|
        invariant records == old(records)
        invariant forall j :: 0 <= j < i ==> records[j].id != id
      {
        if records[i].id == id {
          IndexOfUnique(records, id, i);
          var rec := records[i].(status := status, updatedAt := Some(now));
          if status == Completed {
            rec := rec.(completedAt := Some(now));
          }
          records := records[i := rec];
          break;
        }
        i := i + 1;
      }
    }

    /** `get_recent`. */
    method GetRecent(limit: int) returns (r: seq<Record>)
      ensures r == Recent(records, limit)
    {
      r := Recent(records, limit);
    }

    /** `get_interaction`: the first record with the id, or nothing. */
    method GetInteraction(id: string) returns (r: Option<Record>)
      ensures r == Lookup(records, id)
      ensures r.Some? ==> r.value in records && r.value.id == id
      ensures r.None? <==> forall j :: 0 <= j < |records| ==> records[j].id != id
    {
      var i := 0;
      while i < |records|
        invariant 0 <= i <= |records|
        invariant forall j :: 0 <= j < i ==> records[j].id != id
      {
        if records[i].id == id {
          IndexOfUnique(records, id, i);
          return Some(records[i]);
        }
        i := i + 1;
      }
      return None;
    }
  }
}
