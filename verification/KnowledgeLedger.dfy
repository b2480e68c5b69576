/**
 * The indexing ledger of one knowledge base: its document rows and the three aggregates stored
 * beside them (`app/repositories/knowledge.py`), as the service's uploads, observations,
 * listings, retries and deletes move them (`app/services/knowledge.py`).
 *
 * Every service call is one transaction; what the upstream answers is a parameter of the call.
 */
module KnowledgeLedger {
  import opened Wrappers

  type DocId = string

  datatype Status = Indexing | Completed | Failed

  datatype KbStatus = Ready | KbIndexing | KbFailed

  datatype Row = Row(name: string, status: Status, error: Option<string>)

  type Rows = map<DocId, Row>

  datatype Ledger = Ledger(rows: Rows, indexingStatus: KbStatus, docCount: int, chunkCount: int)

  const EMPTY := Ledger(map[], Ready, 0, 0)

  /** One listed document, with the segment total a follow-up status read would answer (None: it fails). */
  datatype Listed = Listed(id: DocId, status: string, error: Option<string>, segments: Option<nat>)

  datatype Op =
    | Upload(created: Option<DocId>, name: string)
    | Observe(id: DocId, status: string, error: Option<string>, segments: nat)
    | List(listing: seq<Listed>)
    | Retry(id: DocId, accepted: bool)
    | Delete(id: DocId, share: Option<nat>, deleted: bool)

  // ---------------------------------------------------------------- statuses

  /** The upstream's fine-grained statuses folded into three. */
  function DocumentStatus(indexingStatus: string): Status {
    if indexingStatus == "completed" then Completed
    else if indexingStatus == "error" || indexingStatus == "failed" then Failed
    else Indexing
  }

  predicate Terminal(s: Status) {
    s != Indexing
  }

  /** What an observation answers: a terminal record is never answered as unfinished. */
  function AnsweredStatus(recorded: Option<Row>, folded: Status, error: Option<string>): (Status, Option<string>) {
    if recorded.None? || Terminal(folded) then (folded, error)
    else if Terminal(recorded.value.status) then (recorded.value.status, recorded.value.error)
    else (folded, error)
  }

  function Find(rows: Rows, id: DocId): Option<Row> {
    if id in rows then Some(rows[id]) else None
  }

  predicate AnyWith(rows: Rows, s: Status) {
    exists id :: id in rows && rows[id].status == s
  }

  function FoldStatus(rows: Rows): KbStatus {
    if AnyWith(rows, Indexing) then KbIndexing else if AnyWith(rows, Failed) then KbFailed else Ready
  }

  // ---------------------------------------------------------------- the transactions on values

  /** The guarded status move: None when its guard fails. */
  function Moved(rows: Rows, id: DocId, s: Status, error: Option<string>, from: Option<Status>): Option<Rows> {
    if id !in rows then None
    else if (if from.None? then rows[id].status == s else rows[id].status != from.value) then None
    else Some(rows[id := rows[id].(status := s, error := error)])
  }

  function Refreshed(l: Ledger): Ledger {
    l.(indexingStatus := FoldStatus(l.rows))
  }

  /** Record one terminal status; None when the segment total is needed and cannot be read. */
  function RecordTerminal(
      l: Ledger, id: DocId, s: Status, error: Option<string>, segments: Option<nat>): Option<Ledger> {
    match Moved(l.rows, id, s, error, None)
    case None => Some(l)
    case Some(rows) =>
      var moved := Refreshed(l.(rows := rows));
      if s != Completed then Some(moved)
      else if segments.None? then None
      else Some(moved.(chunkCount := moved.chunkCount + segments.value))
  }

  /** Record the terminal answers of a listing, decided against the rows as they stood before it. */
  function RecordListed(l: Ledger, records: Rows, listing: seq<Listed>): Option<Ledger> {
    if listing == [] then Some(l) else
    match RecordListed(l, records, listing[..|listing| - 1])
    case None => None
    case Some(before) =>
      var doc := listing[|listing| - 1];
      RecordOne(before, Find(records, doc.id), doc)
  }

  function RecordOne(l: Ledger, record: Option<Row>, doc: Listed): Option<Ledger> {
    var (answered, error) := AnsweredStatus(record, DocumentStatus(doc.status), doc.error);
    if Terminal(answered) then RecordTerminal(l, doc.id, answered, error, doc.segments) else Some(l)
  }

  function Max(a: int, b: int): int {
    if a >= b then a else b
  }

  function Next(l: Ledger, op: Op): Ledger {
    match op
    case Upload(created, name) =>
      if created.None? then l else
      var id := created.value;
      var row := if id in l.rows then l.rows[id].(name := name) else Row(name, Indexing, None);
      Refreshed(l.(rows := l.rows[id := row], docCount := l.docCount + 1))
    case Observe(id, status, error, segments) =>
      var s := DocumentStatus(status);
      if Terminal(s) then RecordTerminal(l, id, s, error, Some(segments)).value else l
    case List(listing) =>
      var recorded := RecordListed(l, l.rows, listing);
      if recorded.None? then l else recorded.value
    case Retry(id, accepted) =>
      if (id in l.rows && l.rows[id].status != Failed) || !accepted then l
      else
        var moved := Moved(l.rows, id, Indexing, None, Some(Failed));
        Refreshed(if moved.None? then l else l.(rows := moved.value))
    case Delete(id, segments, deleted) =>
      var counted := id in l.rows && l.rows[id].status == Completed;
      if (counted && segments.None?) || !deleted || id !in l.rows then l
      else Refreshed(Ledger(l.rows - {id}, l.indexingStatus,
                            if l.docCount > 0 then l.docCount - 1 else l.docCount,
                            Max(l.chunkCount - (if counted then segments.value else 0), 0)))
  }

  // ---------------------------------------------------------------- the service over its tables

  class KnowledgeService {
    var rows: Rows
    var indexingStatus: KbStatus
    var docCount: int
    var chunkCount: int

    ghost function State(): Ledger
      reads this
    {
      Ledger(rows, indexingStatus, docCount, chunkCount)
    }

    constructor ()
      ensures State() == EMPTY
    {
      rows, indexingStatus, docCount, chunkCount := map[], Ready, 0, 0;
    }

    method TransitionDocumentStatus(id: DocId, status: Status, error: Option<string>, from: Option<Status>)
      returns (moved: bool)
      modifies this`rows
      ensures var r := Moved(old(rows), id, status, error, from);
              moved == r.Some? && rows == if moved then r.value else old(rows)
    {
      if id !in rows || (from.None? && rows[id].status == status) || (from.Some? && rows[id].status != from.value) {
        return false;
      }
      rows := rows[id := rows[id].(status := status, error := error)];
      return true;
    }

    method RefreshIndexingStatus()
      modifies this`indexingStatus
      ensures State() == Refreshed(old(State()))
      ensures indexingStatus == Ready <==> forall id :: id in rows ==> rows[id].status == Completed
      ensures indexingStatus == KbFailed <==>
                AnyWith(rows, Failed) && forall id :: id in rows ==> Terminal(rows[id].status)
    {
      indexingStatus := if exists id :: id in rows && rows[id].status == Indexing then KbIndexing
                        else if exists id :: id in rows && rows[id].status == Failed then KbFailed
                        else Ready;
    }

    /** Upload a document; `created` is the id the upstream answered with, if any. */
    method UploadDocument(created: Option<DocId>, name: string) returns (ok: bool)
      modifies this
      ensures State() == Next(old(State()), Upload(created, name)) && ok == created.Some?
    {
      if created.None? {
        return false;
      }
      var id := created.value;
      docCount := docCount + 1;
      rows := rows[id := if id in rows then rows[id].(name := name) else Row(name, Indexing, None)];
      RefreshIndexingStatus();
      return true;
    }

    /**
     * Record one terminal status. `raised` means the upstream failed after the row had moved; the
     * caller's transaction is then rolled back.
     */
    method RecordTerminalStatus(id: DocId, status: Status, error: Option<string>, segments: Option<nat>)
      returns (transitioned: bool, raised: bool)
      modifies this
      ensures var r := RecordTerminal(old(State()), id, status, error, segments);
              raised == r.None? && (!raised ==> State() == r.value)
      ensures transitioned == Moved(old(rows), id, status, error, None).Some?
    {
      transitioned := TransitionDocumentStatus(id, status, error, None);
      if !transitioned {
        return false, false;
      }
      RefreshIndexingStatus();
      if status == Completed {
        if segments.None? {
          return true, true;
        }
        chunkCount := chunkCount + segments.value;
      }
      return true, false;
    }

    /** Answer one document's status and record it when terminal. */
    method GetDocumentStatus(id: DocId, status: string, error: Option<string>, segments: nat)
      returns (answered: (Status, Option<string>))
      modifies this
      ensures answered ==
                if status == "completed" then (Completed, error)
                else if status == "error" || status == "failed" then (Failed, error)
                else if id in old(rows) && old(rows)[id].status != Indexing
                  then (old(rows)[id].status, old(rows)[id].error)
                else (Indexing, error)
      ensures State() == Next(old(State()), Observe(id, status, error, segments))
    {
      var newStatus := DocumentStatus(status);
      answered := AnsweredStatus(Find(rows, id), newStatus, error);
      if Terminal(newStatus) {
        var _, _ := RecordTerminalStatus(id, newStatus, error, Some(segments));
      }
    }

    /** List one page and record its terminal answers; false when the transaction was rolled back. */
    method ListDocuments(listing: seq<Listed>) returns (ok: bool)
      modifies this
      ensures State() == Next(old(State()), List(listing))
      ensures ok == RecordListed(old(State()), old(rows), listing).Some?
    {
      var records, status, docs, chunks := rows, indexingStatus, docCount, chunkCount;
      for i := 0 to |listing|
        invariant RecordListed(old(State()), records, listing[..i]) == Some(State())
      {
        assert listing[..i + 1][..i] == listing[..i];
        var doc := listing[i];
        var (answered, error) := AnsweredStatus(Find(records, doc.id), DocumentStatus(doc.status), doc.error);
        if !Terminal(answered) {
          continue;
        }
        var _, raised := RecordTerminalStatus(doc.id, answered, error, doc.segments);
        if raised {
          RaisedForGood(old(State()), records, listing, i + 1);
          rows, indexingStatus, docCount, chunkCount := records, status, docs, chunks;
          return false;
        }
      }
      assert listing[..|listing|] == listing;
      return true;
    }

    /** Restart a failed document; false when the call is refused, by the record or by the upstream. */
    method RetryDocument(id: DocId, accepted: bool) returns (ok: bool)
      modifies this
      ensures State() == Next(old(State()), Retry(id, accepted))
      ensures ok <==> accepted && (id in old(rows) ==> old(rows)[id].status == Failed)
    {
      if id in rows && rows[id].status != Failed {
        return false;
      }
      if !accepted {
        return false;
      }
      var _ := TransitionDocumentStatus(id, Indexing, None, Some(Failed));
      RefreshIndexingStatus();
      return true;
    }

    /** Delete a document; `segments` answers the status read, `deleted` the upstream delete. */
    method DeleteDocument(id: DocId, segments: Option<nat>, deleted: bool) returns (ok: bool)
      modifies this
      ensures State() == Next(old(State()), Delete(id, segments, deleted))
    {
      var counted := id in rows && rows[id].status == Completed;
      var share := 0;
      if counted {
        if segments.None? {
          return false;
        }
        share := segments.value;
      }
      if !deleted {
        return false;
      }
      if id in rows {
        rows := rows - {id};
        if docCount > 0 {
          docCount := docCount - 1;
        }
        chunkCount := Max(chunkCount - share, 0);
        RefreshIndexingStatus();
      }
      return true;
    }
  }

  /** Once recording a listing has raised, the rest of the listing does not matter. */
  lemma {:induction false} RaisedForGood(l: Ledger, records: Rows, listing: seq<Listed>, i: nat)
    requires i <= |listing| && RecordListed(l, records, listing[..i]).None?
    ensures RecordListed(l, records, listing).None?
    decreases |listing|
  {
    if i == |listing| {
      assert listing[..i] == listing;
    } else {
      assert listing[..|listing| - 1][..i] == listing[..i];
      RaisedForGood(l, records, listing[..|listing| - 1], i);
    }
  }

  // ---------------------------------------------------------------- what each call writes

  /** `l'` is `l` with one row rewritten, its chunk total raised, and its status folded from the rows. */
  predicate RowRewritten(l: Ledger, l': Ledger, id: DocId, row: Row, segments: int) {
    l' == Ledger(l.rows[id := row], FoldStatus(l.rows[id := row]), l.docCount, l.chunkCount + segments)
  }

  /**
   * What an observation writes: the upstream's "completed", "error" or "failed" moves a recorded
   * document that stands otherwise, a completion with its segments, and nothing else writes.
   */
  lemma ObservationWrites(l: Ledger, id: DocId, status: string, error: Option<string>, segments: nat)
    ensures var l' := Next(l, Observe(id, status, error, segments));
            if id in l.rows && status == "completed" && l.rows[id].status != Completed then
              RowRewritten(l, l', id, Row(l.rows[id].name, Completed, error), segments)
            else if id in l.rows && (status == "error" || status == "failed") && l.rows[id].status != Failed then
              RowRewritten(l, l', id, Row(l.rows[id].name, Failed, error), 0)
            else l' == l
  {}

  /** What a retry writes: an accepted one takes a failed document back to indexing, its error gone. */
  lemma RetryWrites(l: Ledger, id: DocId, accepted: bool)
    ensures var l' := Next(l, Retry(id, accepted));
            if accepted && id in l.rows && l.rows[id].status == Failed then
              RowRewritten(l, l', id, Row(l.rows[id].name, Indexing, None), 0)
            else l' == if accepted && id !in l.rows then l.(indexingStatus := FoldStatus(l.rows)) else l
  {}

  /**
   * What a delete writes: the row goes once the upstream has deleted the document, and with it one
   * document and, if it was recorded completed, the segments read before; neither total below zero.
   */
  lemma DeleteWrites(l: Ledger, id: DocId, segments: Option<nat>, deleted: bool)
    requires l.docCount >= 0 && l.chunkCount >= 0
    ensures var (l', counted) := (Next(l, Delete(id, segments, deleted)), RecordedAs(l, id, Completed));
            if !deleted || id !in l.rows || (counted && segments.None?) then l' == l
            else
              && l'.rows.Keys == l.rows.Keys - {id} && (forall k :: k in l'.rows ==> l'.rows[k] == l.rows[k])
              && l'.indexingStatus == FoldStatus(l'.rows) && l'.docCount >= 0 && l'.chunkCount >= 0
              && (l.docCount > 0 ==> l'.docCount == l.docCount - 1)
              && (counted ==> l'.chunkCount == l.chunkCount - segments.value
                              || (l'.chunkCount == 0 && segments.value > l.chunkCount))
              && (!counted ==> l'.chunkCount == l.chunkCount)
  {}

  /** What an upload writes: a document that is indexing, or a known one's new name, and one more counted. */
  lemma UploadWrites(l: Ledger, id: DocId, name: string)
    ensures var (l', known) := (Next(l, Upload(Some(id), name)), id in l.rows);
            && l'.rows == l.rows[id := if known then Row(name, l.rows[id].status, l.rows[id].error)
                                       else Row(name, Indexing, None)]
            && l'.docCount == l.docCount + 1 && l'.chunkCount == l.chunkCount
            && (!known ==> l'.indexingStatus == KbIndexing)
    ensures Next(l, Upload(None, name)) == l
  {
    assert id !in l.rows ==> Next(l, Upload(Some(id), name)).rows[id].status == Indexing;
  }

  /** What a listing records of one document it answers on the ledger it read. */
  lemma ListingWrites(l: Ledger, doc: Listed)
    ensures var r := RecordOne(l, Find(l.rows, doc.id), doc);
            if doc.id in l.rows && doc.status == "completed" && l.rows[doc.id].status != Completed then
              if doc.segments.None? then r == None
              else r.Some? && RowRewritten(l, r.value, doc.id, Row(l.rows[doc.id].name, Completed, doc.error),
                                           doc.segments.value)
            else if doc.id in l.rows && (doc.status == "error" || doc.status == "failed")
                    && l.rows[doc.id].status != Failed then
              r.Some? && RowRewritten(l, r.value, doc.id, Row(l.rows[doc.id].name, Failed, doc.error), 0)
            else r == Some(l)
  {}

  /** The row of a listed document behind the listing. */
  function RowListed(row: Row, doc: Listed): Row {
    if doc.status == "completed" && row.status != Completed then Row(row.name, Completed, doc.error)
    else if (doc.status == "error" || doc.status == "failed") && row.status != Failed then
      Row(row.name, Failed, doc.error)
    else row
  }

  /** The segments of the documents a listing completes. */
  function SegmentsListed(rows: Rows, listing: seq<Listed>): int {
    if listing == [] then 0 else
    var doc := listing[|listing| - 1];
    SegmentsListed(rows, listing[..|listing| - 1])
    + (if doc.id in rows && doc.status == "completed" && rows[doc.id].status != Completed && doc.segments.Some?
       then doc.segments.value else 0)
  }

  /** What a whole listing has written: each listed row by its own answer, the others not at all. */
  ghost predicate ListingDone(l: Ledger, l': Ledger, listing: seq<Listed>) {
    && l'.rows.Keys == l.rows.Keys && l'.docCount == l.docCount
    && l'.chunkCount == l.chunkCount + SegmentsListed(l.rows, listing)
    && (forall i :: 0 <= i < |listing| && listing[i].id in l.rows ==>
          l'.rows[listing[i].id] == RowListed(l.rows[listing[i].id], listing[i]))
    && (forall id :: id in l.rows && (forall i :: 0 <= i < |listing| ==> listing[i].id != id) ==>
          l'.rows[id] == l.rows[id])
  }

  lemma OneMoreListed(l: Ledger, mid: Ledger, rest: seq<Listed>, doc: Listed)
    requires ListingDone(l, mid, rest) && forall i :: 0 <= i < |rest| ==> rest[i].id != doc.id
    requires RecordOne(mid, Find(l.rows, doc.id), doc).Some?
    ensures ListingDone(l, RecordOne(mid, Find(l.rows, doc.id), doc).value, rest + [doc])
  {
    var (listing, end) := (rest + [doc], RecordOne(mid, Find(l.rows, doc.id), doc).value);
    assert listing[..|rest|] == rest && listing[|rest|] == doc;
    assert Find(mid.rows, doc.id) == Find(l.rows, doc.id);
    ListingWrites(mid, doc);
    forall i | 0 <= i < |listing| && listing[i].id in l.rows
      ensures end.rows[listing[i].id] == RowListed(l.rows[listing[i].id], listing[i])
    {
      assert i < |rest| ==> listing[i] == rest[i];
    }
    forall id | id in l.rows && forall i :: 0 <= i < |listing| ==> listing[i].id != id
      ensures end.rows[id] == l.rows[id]
    {
      assert listing[|rest|].id != id;
      assert forall i :: 0 <= i < |rest| ==> rest[i] == listing[i];
    }
  }

  /** A listing that names each document once records every document's answer against its own row. */
  lemma {:induction false} ListingRecordsEach(l: Ledger, listing: seq<Listed>)
    requires forall i, j :: 0 <= i < j < |listing| ==> listing[i].id != listing[j].id
    requires RecordListed(l, l.rows, listing).Some?
    ensures ListingDone(l, RecordListed(l, l.rows, listing).value, listing)
    decreases |listing|
  {
    if listing != [] {
      var (rest, doc) := (listing[..|listing| - 1], listing[|listing| - 1]);
      assert listing == rest + [doc];
      ListingRecordsEach(l, rest);
      OneMoreListed(l, RecordListed(l, l.rows, rest).value, rest, doc);
    }
  }

  // ---------------------------------------------------------------- the ledger invariant

  /** Segments of a set of documents, by each document's own total. */
  ghost function Sum(ids: set<DocId>, seg: DocId -> nat): nat {
    if ids == {} then 0 else var id :| id in ids; seg(id) + Sum(ids - {id}, seg)
  }

  lemma {:induction false} SumTakes(ids: set<DocId>, seg: DocId -> nat, id: DocId)
    requires id in ids
    ensures Sum(ids, seg) == seg(id) + Sum(ids - {id}, seg)
    decreases ids
  {
    var first :| first in ids && Sum(ids, seg) == seg(first) + Sum(ids - {first}, seg);
    if first != id {
      SumTakes(ids - {first}, seg, id);
      SumTakes(ids - {id}, seg, first);
      assert ids - {first} - {id} == ids - {id} - {first};
    }
  }

  function CompletedIds(rows: Rows): set<DocId> {
    set id | id in rows && rows[id].status == Completed
  }

  /** The aggregates agree with the rows; `seg` is each document's segment total upstream. */
  ghost predicate Balanced(l: Ledger, seg: DocId -> nat) {
    && l.indexingStatus == FoldStatus(l.rows)
    && l.docCount == |l.rows|
    && l.chunkCount == Sum(CompletedIds(l.rows), seg)
  }

  predicate RecordedAs(l: Ledger, id: DocId, s: Status) {
    id in l.rows && l.rows[id].status == s
  }

  /**
   * What the upstream must keep to for one call: fresh ids for new documents, each document once
   * per page, a completed document never reported failed, and its segment total unchanged.
   */
  ghost predicate Honest(l: Ledger, op: Op, seg: DocId -> nat) {
    match op
    case Upload(created, _) => created.Some? ==> created.value !in l.rows
    case Observe(id, status, _, segments) => HonestReport(l, id, status, Some(segments), seg)
    case List(listing) =>
      && (forall i, j :: 0 <= i < j < |listing| ==> listing[i].id != listing[j].id)
      && forall i :: 0 <= i < |listing| ==>
           HonestReport(l, listing[i].id, listing[i].status, listing[i].segments, seg)
    case Retry(_, _) => true
    case Delete(id, segments, _) => RecordedAs(l, id, Completed) && segments.Some? ==> segments.value == seg(id)
  }

  predicate HonestReport(l: Ledger, id: DocId, status: string, segments: Option<nat>, seg: DocId -> nat) {
    && (DocumentStatus(status) == Failed ==> !RecordedAs(l, id, Completed))
    && (DocumentStatus(status) == Completed && segments.Some? ==> segments.value == seg(id))
  }

  /** Exactly when recording a terminal status keeps the ledger balanced. */
  lemma RecordBalancedIff(
      l: Ledger, id: DocId, s: Status, error: Option<string>, segments: nat, seg: DocId -> nat)
    requires Balanced(l, seg) && Terminal(s)
    ensures Balanced(RecordTerminal(l, id, s, error, Some(segments)).value, seg) <==>
            && (s == Completed && id in l.rows && l.rows[id].status != Completed ==> segments == seg(id))
            && (s == Failed && RecordedAs(l, id, Completed) ==> seg(id) == 0)
  {
    var l' := RecordTerminal(l, id, s, error, Some(segments)).value;
    var ids, ids' := CompletedIds(l.rows), CompletedIds(l'.rows);
    if id in l.rows && l.rows[id].status != s {
      SameSize(l.rows, l'.rows);
      CompletedMoves(l.rows, id, l'.rows[id]);
      if s == Completed {
        SumTakes(ids', seg, id);
      } else if l.rows[id].status == Completed {
        SumTakes(ids, seg, id);
      }
    }
  }

  /** One row rewritten: what that does to the set of completed documents. */
  lemma CompletedMoves(rows: Rows, id: DocId, row: Row)
    requires id in rows
    ensures rows[id := row].Keys == rows.Keys
    ensures var (before, after) := (CompletedIds(rows), CompletedIds(rows[id := row]));
            && (row.status != Completed && rows[id].status != Completed ==> after == before)
            && (row.status == Completed && rows[id].status != Completed ==> id in after && after - {id} == before)
            && (row.status != Completed ==> after == before - {id})
  {}

  lemma SameSize(a: Rows, b: Rows)
    requires a.Keys == b.Keys
    ensures |a| == |b|
  {
    assert |a.Keys| == |a| && |b.Keys| == |b|;
  }

  /** An upload keeps the ledger balanced exactly when the upstream's id is new. */
  lemma UploadBalancedIff(l: Ledger, id: DocId, name: string, seg: DocId -> nat)
    requires Balanced(l, seg)
    ensures Balanced(Next(l, Upload(Some(id), name)), seg) <==> id !in l.rows
  {
    var l' := Next(l, Upload(Some(id), name));
    assert CompletedIds(l'.rows) == CompletedIds(l.rows);
    if id in l.rows {
      assert l'.rows.Keys == l.rows.Keys;
      SameSize(l.rows, l'.rows);
    }
  }

  /** A balanced ledger's status reads the rows: ready, failed or still indexing. */
  lemma StatusReadsRows(l: Ledger, seg: DocId -> nat)
    requires Balanced(l, seg)
    ensures l.indexingStatus == Ready <==> CompletedIds(l.rows) == l.rows.Keys
    ensures l.indexingStatus == KbFailed <==>
            AnyWith(l.rows, Failed) && forall id :: id in l.rows ==> Terminal(l.rows[id].status)
    ensures l.indexingStatus == Ready ==> l.chunkCount == Sum(l.rows.Keys, seg)
  {
    if l.indexingStatus == Ready {
      forall id | id in l.rows ensures id in CompletedIds(l.rows) {
        assert l.rows[id].status == Indexing ==> AnyWith(l.rows, Indexing);
        assert l.rows[id].status == Failed ==> AnyWith(l.rows, Failed);
      }
    }
    if AnyWith(l.rows, Indexing) {
      var id :| id in l.rows && l.rows[id].status == Indexing;
      assert id !in CompletedIds(l.rows);
    } else if AnyWith(l.rows, Failed) {
      var id :| id in l.rows && l.rows[id].status == Failed;
      assert id !in CompletedIds(l.rows);
    }
  }

  // ---------------------------------------------------------------- deletes that overlap other calls

  /** What a delete decides before it awaits the upstream: the segments it will give back. */
  function OwedBack(l: Ledger, id: DocId, segments: nat): nat {
    if RecordedAs(l, id, Completed) then segments else 0
  }

  /** The end of a delete, whenever the upstream has answered: the row and its share go. */
  function DeleteEnd(l: Ledger, id: DocId, owed: nat): Ledger {
    if id !in l.rows then l
    else Refreshed(Ledger(l.rows - {id}, l.indexingStatus,
                          if l.docCount > 0 then l.docCount - 1 else l.docCount, Max(l.chunkCount - owed, 0)))
  }

  /** Nothing in between, a delete is its two halves. */
  lemma DeleteIsItsHalves(l: Ledger, id: DocId, segments: nat)
    ensures Next(l, Delete(id, Some(segments), true)) == DeleteEnd(l, id, OwedBack(l, id, segments))
  {}

  lemma DeleteEndBalancedIff(l: Ledger, id: DocId, owed: nat, seg: DocId -> nat)
    requires Balanced(l, seg) && id in l.rows
    ensures var counted := if l.rows[id].status == Completed then seg(id) else 0;
            Balanced(DeleteEnd(l, id, owed), seg) <==> owed == counted || (owed > counted && l.chunkCount == counted)
  {
    assert CompletedIds(DeleteEnd(l, id, owed).rows) == CompletedIds(l.rows) - {id};
    if l.rows[id].status == Completed {
      SumTakes(CompletedIds(l.rows), seg, id);
    } else {
      assert CompletedIds(l.rows) - {id} == CompletedIds(l.rows);
    }
    RemovedSize(l.rows, id);
  }

  /**
   * A delete that reads the record, awaits the upstream and ends on a ledger other calls have moved
   * in the meantime keeps it balanced if and only if the document was recorded completed at both
   * ends or at neither, or has no segments, or the zero floor hides what is given back for nothing.
   */
  lemma OverlappedDeleteBalancedIff(l: Ledger, meanwhile: seq<Op>, id: DocId, seg: DocId -> nat)
    requires Balanced(l, seg) && HonestRun(l, meanwhile, seg) && id in Run(l, meanwhile).rows
    ensures var end := Run(l, meanwhile);
            Balanced(DeleteEnd(end, id, OwedBack(l, id, seg(id))), seg) <==>
              || (RecordedAs(l, id, Completed) <==> RecordedAs(end, id, Completed))
              || seg(id) == 0
              || (RecordedAs(l, id, Completed) && end.chunkCount == 0)
  {
    LedgerStaysBalanced(l, meanwhile, seg);
    DeleteEndBalancedIff(Run(l, meanwhile), id, OwedBack(l, id, seg(id)), seg);
  }

  /** Such a run: a listing completes the document while its delete awaits the upstream. */
  lemma ListedDuringDelete(l: Ledger, id: DocId, seg: DocId -> nat)
    requires Balanced(l, seg) && RecordedAs(l, id, Indexing) && seg(id) > 0
    ensures var meanwhile := [List([Listed(id, "completed", None, Some(seg(id)))])];
            && HonestRun(l, meanwhile, seg)
            && !Balanced(DeleteEnd(Run(l, meanwhile), id, OwedBack(l, id, seg(id))), seg)
  {
    var doc := Listed(id, "completed", None, Some(seg(id)));
    var meanwhile := [List([doc])];
    assert [doc][..0] == [] && meanwhile[1..] == [];
    assert HonestRun(Next(l, meanwhile[0]), [], seg);
    assert RecordListed(l, l.rows, []) == Some(l);
    assert RecordListed(l, l.rows, [doc]) == RecordOne(l, Find(l.rows, id), doc);
    assert Run(Next(l, meanwhile[0]), []) == Next(l, meanwhile[0]);
    assert RecordedAs(Run(l, meanwhile), id, Completed);
    OverlappedDeleteBalancedIff(l, meanwhile, id, seg);
  }

  /**
   * A completed document leaves the ledger balanced exactly when the total read at its deletion is
   * the one it brought in, or exceeds it where the zero floor hides the difference.
   */
  lemma DeleteBalancedIff(l: Ledger, id: DocId, segments: nat, seg: DocId -> nat)
    requires Balanced(l, seg) && RecordedAs(l, id, Completed)
    ensures Balanced(Next(l, Delete(id, Some(segments), true)), seg) <==>
            segments == seg(id) || (segments > seg(id) && l.chunkCount == seg(id))
  {
    var l' := Next(l, Delete(id, Some(segments), true));
    assert CompletedIds(l'.rows) == CompletedIds(l.rows) - {id};
    SumTakes(CompletedIds(l.rows), seg, id);
    RemovedSize(l.rows, id);
  }

  lemma RemovedSize(rows: Rows, id: DocId)
    requires id in rows
    ensures |rows - {id}| == |rows| - 1
  {
    assert (rows - {id}).Keys == rows.Keys - {id};
    assert |rows.Keys| == |rows| && |(rows - {id}).Keys| == |rows - {id}|;
  }

  lemma DeleteUncountedBalanced(l: Ledger, id: DocId, segments: Option<nat>, deleted: bool, seg: DocId -> nat)
    requires Balanced(l, seg) && !RecordedAs(l, id, Completed)
    ensures Balanced(Next(l, Delete(id, segments, deleted)), seg)
  {
    if id in l.rows && deleted {
      assert CompletedIds(Next(l, Delete(id, segments, deleted)).rows) == CompletedIds(l.rows);
      RemovedSize(l.rows, id);
    }
  }

  lemma RetryBalanced(l: Ledger, id: DocId, accepted: bool, seg: DocId -> nat)
    requires Balanced(l, seg)
    ensures Balanced(Next(l, Retry(id, accepted)), seg)
    ensures CompletedIds(Next(l, Retry(id, accepted)).rows) == CompletedIds(l.rows)
  {
    var l' := Next(l, Retry(id, accepted));
    assert l'.rows.Keys == l.rows.Keys;
    SameSize(l.rows, l'.rows);
    assert CompletedIds(l'.rows) == CompletedIds(l.rows);
  }

  /** The end of a retry, whenever the upstream has answered: only a record still failed moves. */
  function RetryEnd(l: Ledger, id: DocId): Ledger {
    var moved := Moved(l.rows, id, Indexing, None, Some(Failed));
    Refreshed(if moved.None? then l else l.(rows := moved.value))
  }

  /** Whatever other calls do while a retry awaits the upstream, its guarded end keeps the ledger balanced. */
  lemma OverlappedRetryBalanced(l: Ledger, meanwhile: seq<Op>, id: DocId, seg: DocId -> nat)
    requires Balanced(l, seg) && HonestRun(l, meanwhile, seg)
    ensures var (end, after) := (Run(l, meanwhile), RetryEnd(Run(l, meanwhile), id));
            Balanced(after, seg) && after == if RecordedAs(end, id, Failed) then Next(end, Retry(id, true)) else end
  {
    var end := Run(l, meanwhile);
    LedgerStaysBalanced(l, meanwhile, seg);
    if RecordedAs(end, id, Failed) {
      RetryBalanced(end, id, true, seg);
    }
  }

  // ---------------------------------------------------------------- listings that overlap other calls

  /** A terminal record that a listing read, and that other calls have moved by the time it is recorded. */
  predicate Overtaken(read: Rows, now: Rows, id: DocId) {
    && id in read && Terminal(read[id].status)
    && id in now && now[id].status != read[id].status
  }

  /**
   * A listing reads the records, and records what it answers on a ledger other calls have moved in
   * the meantime. A document the upstream reports unfinished is put back to the record the listing
   * read, if and only if that was terminal and has been overtaken. The ledger stays balanced unless
   * this takes back a completion whose segments are counted, or counts other segments than its own.
   */
  lemma OverlappedListingIff(l: Ledger, meanwhile: seq<Op>, doc: Listed, seg: DocId -> nat)
    requires Balanced(l, seg) && HonestRun(l, meanwhile, seg) && DocumentStatus(doc.status) == Indexing
    ensures var (id, end) := (doc.id, Run(l, meanwhile));
            var r := RecordOne(end, Find(l.rows, id), doc);
            if !Overtaken(l.rows, end.rows, id) then r == Some(end)
            else
              var read := l.rows[id];
              && (r.None? <==> read.status == Completed && doc.segments.None?)
              && (r.Some? ==>
                    && r.value.rows == end.rows[id := end.rows[id].(status := read.status, error := read.error)]
                    && (Balanced(r.value, seg) <==>
                          && (read.status == Completed ==> doc.segments.value == seg(id))
                          && (RecordedAs(end, id, Completed) ==> seg(id) == 0)))
  {
    var end := Run(l, meanwhile);
    LedgerStaysBalanced(l, meanwhile, seg);
    if Overtaken(l.rows, end.rows, doc.id) {
      var read := l.rows[doc.id];
      var segments := if doc.segments.Some? then doc.segments.value else 0;
      RecordBalancedIff(end, doc.id, read.status, read.error, segments, seg);
    }
  }

  /**
   * Such a run: a listing reads a failed record just before a retry restarts the document, and puts
   * it back to failed while the upstream indexes it.
   */
  lemma ListedDuringRetry(l: Ledger, id: DocId, seg: DocId -> nat)
    requires Balanced(l, seg) && RecordedAs(l, id, Failed)
    ensures var (meanwhile, doc) := ([Retry(id, true)], Listed(id, "indexing", None, None));
            var r := RecordOne(Run(l, meanwhile), Find(l.rows, id), doc);
            && HonestRun(l, meanwhile, seg) && RecordedAs(Run(l, meanwhile), id, Indexing)
            && r.Some? && RecordedAs(r.value, id, Failed) && Balanced(r.value, seg)
  {
    var (meanwhile, doc) := ([Retry(id, true)], Listed(id, "indexing", None, None));
    assert meanwhile[1..] == [];
    assert Run(Next(l, meanwhile[0]), []) == Next(l, meanwhile[0]);
    assert HonestRun(Next(l, meanwhile[0]), [], seg);
    OverlappedListingIff(l, meanwhile, doc, seg);
  }

  /** If the restarted document completes before the listing records, its completion is taken back uncounted. */
  lemma ListedDuringRecovery(l: Ledger, id: DocId, seg: DocId -> nat)
    requires Balanced(l, seg) && RecordedAs(l, id, Failed) && seg(id) > 0
    ensures var (meanwhile, doc) := ([Retry(id, true), Observe(id, "completed", None, seg(id))],
                                     Listed(id, "indexing", None, None));
            var r := RecordOne(Run(l, meanwhile), Find(l.rows, id), doc);
            && HonestRun(l, meanwhile, seg) && RecordedAs(Run(l, meanwhile), id, Completed)
            && r.Some? && RecordedAs(r.value, id, Failed) && !Balanced(r.value, seg)
  {
    var (retry, observe) := (Retry(id, true), Observe(id, "completed", None, seg(id)));
    var (meanwhile, doc) := ([retry, observe], Listed(id, "indexing", None, None));
    var restarted := Next(l, retry);
    assert meanwhile[1..] == [observe] && [observe][1..] == [];
    assert Run(restarted, [observe]) == Next(restarted, observe) by {
      assert Run(Next(restarted, observe), []) == Next(restarted, observe);
    }
    assert HonestRun(restarted, [observe], seg) by {
      assert HonestRun(Next(restarted, observe), [], seg);
    }
    OverlappedListingIff(l, meanwhile, doc, seg);
  }

  /** Only documents the listing names have moved, and none came or went. */
  ghost predicate OnlyListed(before: Rows, after: Rows, listing: seq<Listed>) {
    && after.Keys == before.Keys
    && forall id :: id in before && (forall i :: 0 <= i < |listing| ==> listing[i].id != id) ==> after[id] == before[id]
  }

  lemma OnlyListedGrows(before: Rows, mid: Rows, after: Rows, listing: seq<Listed>, doc: Listed)
    requires OnlyListed(before, mid, listing) && OnlyListed(mid, after, [doc])
    ensures OnlyListed(before, after, listing + [doc])
  {
    forall id | id in before && forall i :: 0 <= i <= |listing| ==> (listing + [doc])[i].id != id
      ensures after[id] == before[id]
    {
      assert (listing + [doc])[|listing|].id != id;
      assert forall i :: 0 <= i < |listing| ==> (listing + [doc])[i] == listing[i];
    }
  }

  lemma OneListed(l: Ledger, doc: Listed, seg: DocId -> nat)
    requires Balanced(l, seg) && HonestReport(l, doc.id, doc.status, doc.segments, seg)
    ensures var r := RecordOne(l, Find(l.rows, doc.id), doc);
            r.Some? ==> Balanced(r.value, seg) && OnlyListed(l.rows, r.value.rows, [doc])
  {
    var (answered, error) := AnsweredStatus(Find(l.rows, doc.id), DocumentStatus(doc.status), doc.error);
    assert [doc][0].id == doc.id;
    if Terminal(answered) && doc.segments.Some? {
      RecordBalancedIff(l, doc.id, answered, error, doc.segments.value, seg);
    } else if answered == Failed {
      RecordBalancedIff(l, doc.id, answered, error, 0, seg);
    }
  }

  lemma HonestPrefix(l: Ledger, listing: seq<Listed>, doc: Listed, seg: DocId -> nat)
    requires Honest(l, List(listing + [doc]), seg)
    ensures Honest(l, List(listing), seg) && HonestReport(l, doc.id, doc.status, doc.segments, seg)
    ensures forall i :: 0 <= i < |listing| ==> listing[i].id != doc.id
  {
    assert (listing + [doc])[|listing|] == doc;
    assert forall i :: 0 <= i < |listing| ==> (listing + [doc])[i] == listing[i];
  }

  /** A listing that names each document once moves only the documents it names. */
  lemma {:induction false} ListedBalanced(l: Ledger, listing: seq<Listed>, seg: DocId -> nat)
    requires Balanced(l, seg) && Honest(l, List(listing), seg)
    ensures var r := RecordListed(l, l.rows, listing);
            r.Some? ==> Balanced(r.value, seg) && OnlyListed(l.rows, r.value.rows, listing)
    decreases |listing|
  {
    if listing != [] {
      var n := |listing| - 1;
      var rest, doc := listing[..n], listing[n];
      assert listing == rest + [doc];
      HonestPrefix(l, rest, doc, seg);
      ListedBalanced(l, rest, seg);
      var r := RecordListed(l, l.rows, rest);
      if r.Some? {
        assert doc.id in l.rows ==> r.value.rows[doc.id] == l.rows[doc.id];
        OneListed(r.value, doc, seg);
        var last := RecordOne(r.value, Find(l.rows, doc.id), doc);
        if last.Some? {
          OnlyListedGrows(l.rows, r.value.rows, last.value.rows, rest, doc);
        }
      }
    }
  }

  lemma StepBalanced(l: Ledger, op: Op, seg: DocId -> nat)
    requires Balanced(l, seg) && Honest(l, op, seg)
    ensures Balanced(Next(l, op), seg)
  {
    match op
    case Upload(created, name) =>
      if created.Some? { UploadBalancedIff(l, created.value, name, seg); }
    case Observe(id, status, error, segments) =>
      if Terminal(DocumentStatus(status)) {
        RecordBalancedIff(l, id, DocumentStatus(status), error, segments, seg);
      }
    case List(listing) => ListedBalanced(l, listing, seg);
    case Retry(id, accepted) => RetryBalanced(l, id, accepted, seg);
    case Delete(id, segments, deleted) =>
      if RecordedAs(l, id, Completed) {
        if segments.Some? { DeleteBalancedIff(l, id, segments.value, seg); }
      } else {
        DeleteUncountedBalanced(l, id, segments, deleted, seg);
      }
  }

  function Run(l: Ledger, ops: seq<Op>): Ledger
    decreases ops
  {
    if ops == [] then l else Run(Next(l, ops[0]), ops[1..])
  }

  ghost predicate HonestRun(l: Ledger, ops: seq<Op>, seg: DocId -> nat)
    decreases ops
  {
    ops != [] ==> Honest(l, ops[0], seg) && HonestRun(Next(l, ops[0]), ops[1..], seg)
  }

  /** Over any serial run the stored aggregates are those of the rows. */
  lemma {:induction false} LedgerStaysBalanced(l: Ledger, ops: seq<Op>, seg: DocId -> nat)
    requires Balanced(l, seg) && HonestRun(l, ops, seg)
    ensures Balanced(Run(l, ops), seg)
    decreases ops
  {
    if ops != [] {
      StepBalanced(l, ops[0], seg);
      LedgerStaysBalanced(Next(l, ops[0]), ops[1..], seg);
    }
  }

  lemma ReachableLedgerBalanced(ops: seq<Op>, seg: DocId -> nat)
    requires HonestRun(EMPTY, ops, seg)
    ensures Balanced(Run(EMPTY, ops), seg)
  {
    assert CompletedIds(EMPTY.rows) == {};
    LedgerStaysBalanced(EMPTY, ops, seg);
  }
}
