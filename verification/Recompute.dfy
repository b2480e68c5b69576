/**
 * The repair script `scripts/recompute_kb_counts.py`: plan each knowledge base's chunk total from
 * its documents' segment counts, apply the plan by compare-and-set with snapshots, roll it back.
 */
module Recompute {
  import opened Wrappers

  type KbId = string
  type DocId = string

  /** A knowledge base as the plan read it: its counter and its `completed` documents. */
  datatype KbRef = KbRef(id: KbId, chunkCount: int, documents: seq<DocId>)

  datatype Change = Change(kb: KbRef, suggested: int)

  /** What the upstream answers for one document: a segment total, 404, or another failure. */
  datatype Answer = Segments(count: nat) | Gone | Unreadable

  datatype Plan = Plan(
    changes: seq<Change>, failures: seq<(KbId, DocId)>, missing: seq<(KbId, DocId)>, skipped: nat)

  // ---------------------------------------------------------------- the plan

  function Total(kb: KbId, docs: seq<DocId>, dify: (KbId, DocId) -> Answer): nat {
    if docs == [] then 0
    else Total(kb, docs[..|docs| - 1], dify)
         + (var a := dify(kb, docs[|docs| - 1]); if a.Segments? then a.count else 0)
  }

  function Those(kb: KbId, docs: seq<DocId>, dify: (KbId, DocId) -> Answer, a: Answer): seq<(KbId, DocId)> {
    if docs == [] then []
    else Those(kb, docs[..|docs| - 1], dify, a)
         + (if dify(kb, docs[|docs| - 1]) == a then [(kb, docs[|docs| - 1])] else [])
  }

  predicate Readable(kb: KbRef, dify: (KbId, DocId) -> Answer) {
    forall i :: 0 <= i < |kb.documents| ==> dify(kb.id, kb.documents[i]) != Unreadable
  }

  /** The plan the script owes for `kbs`, built one knowledge base at a time. */
  function Planned(kbs: seq<KbRef>, dify: (KbId, DocId) -> Answer): Plan {
    if kbs == [] then Plan([], [], [], 0) else
    var p, kb := Planned(kbs[..|kbs| - 1], dify), kbs[|kbs| - 1];
    var failures := p.failures + Those(kb.id, kb.documents, dify, Unreadable);
    var missing := p.missing + Those(kb.id, kb.documents, dify, Gone);
    if Readable(kb, dify)
    then Plan(p.changes + [Change(kb, Total(kb.id, kb.documents, dify))], failures, missing, p.skipped)
    else Plan(p.changes, failures, missing, p.skipped + 1)
  }

  /** The inner loop of the plan: probe every document of one knowledge base. */
  method ProbeDocuments(kb: KbRef, dify: (KbId, DocId) -> Answer)
    returns (total: nat, failures: seq<(KbId, DocId)>, missing: seq<(KbId, DocId)>, blocked: bool)
    ensures total == Total(kb.id, kb.documents, dify)
    ensures failures == Those(kb.id, kb.documents, dify, Unreadable)
    ensures missing == Those(kb.id, kb.documents, dify, Gone)
    ensures blocked <==> !Readable(kb, dify)
  {
    total, failures, missing, blocked := 0, [], [], false;
    for j := 0 to |kb.documents|
      invariant total == Total(kb.id, kb.documents[..j], dify)
      invariant failures == Those(kb.id, kb.documents[..j], dify, Unreadable)
      invariant missing == Those(kb.id, kb.documents[..j], dify, Gone)
      invariant blocked <==> exists k :: 0 <= k < j && dify(kb.id, kb.documents[k]) == Unreadable
    {
      var documentId := kb.documents[j];
      assert kb.documents[..j + 1][..j] == kb.documents[..j];
      match dify(kb.id, documentId) {
        case Segments(count) => total := total + count;
        case Gone => missing := missing + [(kb.id, documentId)];
        case Unreadable =>
          failures := failures + [(kb.id, documentId)];
          blocked := true;
      }
    }
    assert kb.documents[..|kb.documents|] == kb.documents;
  }

  method PlanRecompute(kbs: seq<KbRef>, dify: (KbId, DocId) -> Answer) returns (plan: Plan)
    ensures plan == Planned(kbs, dify)
  {
    plan := Plan([], [], [], 0);
    for i := 0 to |kbs|
      invariant plan == Planned(kbs[..i], dify)
    {
      assert kbs[..i + 1][..i] == kbs[..i];
      var total, failures, missing, blocked := ProbeDocuments(kbs[i], dify);
      plan := plan.(failures := plan.failures + failures, missing := plan.missing + missing);
      if blocked {
        plan := plan.(skipped := plan.skipped + 1);
        continue;
      }
      plan := plan.(changes := plan.changes + [Change(kbs[i], total)]);
    }
    assert kbs[..|kbs|] == kbs;
  }

  // ---------------------------------------------------------------- the tables

  type Counts = map<KbId, int>

  datatype Snapshot = Snapshot(previous: int, applied: int)

  /** Snapshot rows by run, then by knowledge base (the table's composite key). */
  type Snapshots = map<string, map<KbId, Snapshot>>

  function Rows(snapshots: Snapshots, id: string): map<KbId, Snapshot> {
    if id in snapshots then snapshots[id] else map[]
  }

  /** A knowledge base the compare-and-set left alone: what was planned, what is there now. */
  datatype Stale = Stale(kb: KbId, planned: int, current: Option<int>)

  /** Each knowledge base is planned at most once. */
  ghost predicate Distinct(changes: seq<Change>) {
    forall i, j :: 0 <= i < j < |changes| ==> changes[i].kb.id != changes[j].kb.id
  }

  /** Change `c` finds its counter as planned. */
  predicate Hits(counts: Counts, c: Change) {
    c.kb.id in counts && counts[c.kb.id] == c.kb.chunkCount
  }

  /** `counts'` is `counts` with exactly the counters that still hold the planned value overwritten. */
  ghost predicate AppliedTo(counts: Counts, changes: seq<Change>, counts': Counts) {
    && counts'.Keys == counts.Keys
    && (forall c :: c in changes && Hits(counts, c) ==> counts'[c.kb.id] == c.suggested)
    && (forall kb :: kb in counts && (forall c :: c in changes && Hits(counts, c) ==> c.kb.id != kb) ==>
          counts'[kb] == counts[kb])
  }

  /** Run `id` recorded exactly the counters it overwrote, and other runs' rows are as before. */
  ghost predicate Recorded(
      counts: Counts, changes: seq<Change>, id: string, snapshots: Snapshots, snapshots': Snapshots) {
    && (forall c :: c in changes && Hits(counts, c) ==>
          c.kb.id in Rows(snapshots', id) && Rows(snapshots', id)[c.kb.id] == Snapshot(c.kb.chunkCount, c.suggested))
    && (forall kb :: kb in Rows(snapshots', id) ==> exists c :: c in changes && Hits(counts, c) && c.kb.id == kb)
    && (forall run :: run != id ==> Rows(snapshots', run) == Rows(snapshots, run))
  }

  /** The counters after rolling back run `id`: only those that still hold what the run wrote move. */
  function Restored(counts: Counts, rows: map<KbId, Snapshot>): Counts {
    map kb | kb in counts ::
      if kb in rows && counts[kb] == rows[kb].applied then rows[kb].previous else counts[kb]
  }

  /** The rows whose counter still holds what their run wrote. */
  function Undone(counts: Counts, rows: map<KbId, Snapshot>): set<KbId> {
    set kb | kb in rows && kb in counts && counts[kb] == rows[kb].applied
  }

  function CountHits(counts: Counts, changes: seq<Change>): nat {
    if changes == [] then 0
    else CountHits(counts, changes[..|changes| - 1]) + (if Hits(counts, changes[|changes| - 1]) then 1 else 0)
  }

  function Misses(counts: Counts, changes: seq<Change>): seq<Change> {
    if changes == [] then []
    else Misses(counts, changes[..|changes| - 1])
         + (if Hits(counts, changes[|changes| - 1]) then [] else [changes[|changes| - 1]])
  }

  predicate Fresh(snapshots: Snapshots, id: string) {
    Rows(snapshots, id) == map[]
  }

  class Registry {
    var counts: Counts
    var snapshots: Snapshots

    constructor (counts: Counts)
      ensures this.counts == counts && snapshots == map[]
    {
      this.counts, snapshots := counts, map[];
    }

    /** Overwrite each planned counter under a compare-and-set, one transaction. */
    method Apply(changes: seq<Change>, snapshotId: string) returns (written: nat, stale: seq<Stale>)
      requires Distinct(changes) && Fresh(snapshots, snapshotId)
      modifies this
      ensures AppliedTo(old(counts), changes, counts)
      ensures Recorded(old(counts), changes, snapshotId, old(snapshots), snapshots)
      ensures written == CountHits(old(counts), changes)
      ensures stale == Described(Misses(old(counts), changes), old(counts))
    {
      written := 0;
      var missed: seq<Change> := [];
      for i := 0 to |changes|
        invariant AppliedTo(old(counts), changes[..i], counts)
        invariant Recorded(old(counts), changes[..i], snapshotId, old(snapshots), snapshots)
        invariant written == CountHits(old(counts), changes[..i]) && missed == Misses(old(counts), changes[..i])
      {
        var change := changes[i];
        assert changes[..i + 1] == changes[..i] + [change] && changes[..i + 1][..i] == changes[..i];
        NotYetTouched(old(counts), changes, i, counts);
        ApplyOne(old(counts), changes[..i], counts, change, snapshotId, old(snapshots), snapshots);
        if change.kb.id !in counts || counts[change.kb.id] != change.kb.chunkCount {
          missed := missed + [change];
        } else {
          counts := counts[change.kb.id := change.suggested];
          written := written + 1;
          var row := Snapshot(change.kb.chunkCount, change.suggested);
          snapshots := snapshots[snapshotId := Rows(snapshots, snapshotId)[change.kb.id := row]];
        }
      }
      assert changes[..|changes|] == changes;
      MissedCountersUntouched(old(counts), changes, counts, missed);
      stale := Described(missed, counts);
    }

    /**
     * Roll back run `snapshotId`; None when no row carries the id. The code returns the sizes of
     * the two sets returned here: the rows put back and the rows that had moved on.
     */
    method Restore(snapshotId: string) returns (outcome: Option<(set<KbId>, set<KbId>)>)
      modifies this`counts
      ensures var rows := Rows(snapshots, snapshotId);
              var undone := Undone(old(counts), rows);
              && counts == Restored(old(counts), rows) && counts.Keys == old(counts).Keys
              && (forall kb :: kb in counts ==>
                    counts[kb] == if kb in rows && old(counts)[kb] == rows[kb].applied
                                  then rows[kb].previous else old(counts)[kb])
              && outcome == if rows == map[] then None else Some((undone, rows.Keys - undone))
    {
      var rows := Rows(snapshots, snapshotId);
      if rows == map[] {
        return None;
      }
      var restored, conflicts, left := {}, {}, rows.Keys;
      while left != {}
        invariant left <= rows.Keys && counts.Keys == old(counts).Keys
        invariant restored == Undone(old(counts), rows) - left
        invariant conflicts == rows.Keys - left - restored
        invariant forall kb :: kb in counts ==>
                    counts[kb] == if kb in restored then rows[kb].previous else old(counts)[kb]
        decreases left
      {
        var kb :| kb in left;
        left := left - {kb};
        if kb in counts && counts[kb] == rows[kb].applied {
          counts := counts[kb := rows[kb].previous];
          restored := restored + {kb};
        } else {
          conflicts := conflicts + {kb};
        }
      }
      assert restored == Undone(old(counts), rows) && conflicts == rows.Keys - restored;
      assert counts == Restored(old(counts), rows);
      return Some((restored, conflicts));
    }
  }

  /** The report on the changes left alone, with what their counters hold. */
  function Described(missed: seq<Change>, counts: Counts): seq<Stale> {
    if missed == [] then [] else
    var kb := missed[|missed| - 1].kb;
    Described(missed[..|missed| - 1], counts)
    + [Stale(kb.id, kb.chunkCount, if kb.id in counts then Some(counts[kb.id]) else None)]
  }

  lemma NotYetTouched(before: Counts, changes: seq<Change>, i: nat, counts: Counts)
    requires Distinct(changes) && i < |changes| && AppliedTo(before, changes[..i], counts)
    ensures forall c :: c in changes[..i] ==> c.kb.id != changes[i].kb.id
    ensures changes[i].kb.id in before <==> changes[i].kb.id in counts
    ensures changes[i].kb.id in before ==> counts[changes[i].kb.id] == before[changes[i].kb.id]
  {}

  lemma ApplyOne(before: Counts, done: seq<Change>, counts: Counts, c: Change, id: string,
                 snapshots: Snapshots, recorded: Snapshots)
    requires AppliedTo(before, done, counts) && Recorded(before, done, id, snapshots, recorded)
    requires forall d :: d in done ==> d.kb.id != c.kb.id
    ensures Hits(before, c) ==>
              && AppliedTo(before, done + [c], counts[c.kb.id := c.suggested])
              && Recorded(before, done + [c], id, snapshots,
                          recorded[id := Rows(recorded, id)[c.kb.id := Snapshot(c.kb.chunkCount, c.suggested)]])
    ensures !Hits(before, c) ==>
              AppliedTo(before, done + [c], counts) && Recorded(before, done + [c], id, snapshots, recorded)
  {
    assert forall d :: d in done + [c] <==> d in done || d == c;
  }

  lemma {:induction false} MissedCountersUntouched(
      before: Counts, changes: seq<Change>, counts: Counts, missed: seq<Change>)
    requires Distinct(changes) && AppliedTo(before, changes, counts)
    requires forall c :: c in missed ==> c in Misses(before, changes)
    ensures Described(missed, counts) == Described(missed, before)
  {
    if missed != [] {
      var c := missed[|missed| - 1];
      MissesAreMisses(before, changes);
      MissedCountersUntouched(before, changes, counts, missed[..|missed| - 1]);
      assert c in changes && !Hits(before, c);
      assert forall d :: d in changes && Hits(before, d) ==> d.kb.id != c.kb.id;
    }
  }

  lemma {:induction false} MissesAreMisses(counts: Counts, changes: seq<Change>)
    ensures forall c :: c in Misses(counts, changes) <==> c in changes && !Hits(counts, c)
  {
    if changes != [] {
      MissesAreMisses(counts, changes[..|changes| - 1]);
      assert changes == changes[..|changes| - 1] + [changes[|changes| - 1]];
    }
  }

  // ---------------------------------------------------------------- undoing runs

  /** Rolling a run back at once gives back exactly the counters it found. */
  lemma RollbackUndoesRun(
      counts: Counts, snapshots: Snapshots, changes: seq<Change>, id: string, counts': Counts, snapshots': Snapshots)
    requires AppliedTo(counts, changes, counts') && Recorded(counts, changes, id, snapshots, snapshots')
    ensures Restored(counts', Rows(snapshots', id)) == counts
  {
    var rows := Rows(snapshots', id);
    forall kb | kb in counts
      ensures Restored(counts', rows)[kb] == counts[kb]
    {
      if c :| c in changes && Hits(counts, c) && c.kb.id == kb {
        assert rows[kb] == Snapshot(c.kb.chunkCount, c.suggested);
      }
    }
  }

  ghost predicate RealChanges(rows: map<KbId, Snapshot>) {
    forall kb :: kb in rows ==> rows[kb].previous != rows[kb].applied
  }

  /** A run that writes only changed totals records only real changes. */
  lemma RunRecordsRealChanges(
      counts: Counts, snapshots: Snapshots, changes: seq<Change>, id: string, snapshots': Snapshots)
    requires Recorded(counts, changes, id, snapshots, snapshots')
    requires forall c :: c in changes ==> HasChanged(c)
    ensures RealChanges(Rows(snapshots', id))
  {
    forall kb | kb in Rows(snapshots', id)
      ensures Rows(snapshots', id)[kb].previous != Rows(snapshots', id)[kb].applied
    {
      var c :| c in changes && Hits(counts, c) && c.kb.id == kb;
      assert Rows(snapshots', id)[kb] == Snapshot(c.kb.chunkCount, c.suggested);
    }
  }

  /** A repeated rollback moves nothing, and finds only conflicts exactly when all it undid were real changes. */
  lemma RollbackTwice(counts: Counts, rows: map<KbId, Snapshot>)
    ensures Restored(Restored(counts, rows), rows) == Restored(counts, rows)
    ensures Undone(Restored(counts, rows), rows) == {} <==>
            forall kb :: kb in Undone(counts, rows) ==> rows[kb].previous != rows[kb].applied
  {
    var again := Restored(counts, rows);
    forall kb | kb in Undone(counts, rows)
      ensures kb in Undone(again, rows) <==> rows[kb].previous == rows[kb].applied
    {}
  }

  datatype Run = Run(id: string, changes: seq<Change>)

  datatype Tables = Tables(counts: Counts, snapshots: Snapshots)

  /** `tables` are the states around a stack of runs, whatever each plan had read. */
  ghost predicate RunStack(runs: seq<Run>, tables: seq<Tables>) {
    && |tables| == |runs| + 1
    && (forall i, j :: 0 <= i < j < |runs| ==> runs[i].id != runs[j].id)
    && forall i :: 0 <= i < |runs| ==> Follows(tables[i], runs[i], tables[i + 1])
  }

  ghost predicate Follows(before: Tables, run: Run, after: Tables) {
    && AppliedTo(before.counts, run.changes, after.counts)
    && Recorded(before.counts, run.changes, run.id, before.snapshots, after.snapshots)
  }

  /** Roll the runs back, the latest first. */
  function UndoAll(counts: Counts, snapshots: Snapshots, runs: seq<Run>): Counts {
    if runs == [] then counts
    else UndoAll(Restored(counts, Rows(snapshots, runs[|runs| - 1].id)), snapshots, runs[..|runs| - 1])
  }

  lemma {:induction false} UndoReadsOwnRows(counts: Counts, a: Snapshots, b: Snapshots, runs: seq<Run>)
    requires forall i :: 0 <= i < |runs| ==> Rows(a, runs[i].id) == Rows(b, runs[i].id)
    ensures UndoAll(counts, a, runs) == UndoAll(counts, b, runs)
    decreases |runs|
  {
    if runs != [] {
      UndoReadsOwnRows(Restored(counts, Rows(a, runs[|runs| - 1].id)), a, b, runs[..|runs| - 1]);
    }
  }

  lemma UndoTop(runs: seq<Run>, tables: seq<Tables>)
    requires RunStack(runs, tables) && runs != []
    ensures var n := |runs| - 1;
            && Restored(tables[n + 1].counts, Rows(tables[n + 1].snapshots, runs[n].id)) == tables[n].counts
            && forall i :: 0 <= i < n ==>
                 Rows(tables[n].snapshots, runs[i].id) == Rows(tables[n + 1].snapshots, runs[i].id)
  {
    var n := |runs| - 1;
    var before, after := tables[n], tables[n + 1];
    assert Follows(before, runs[n], after);
    RollbackUndoesRun(before.counts, before.snapshots, runs[n].changes, runs[n].id, after.counts, after.snapshots);
  }

  lemma RunStackPrefix(runs: seq<Run>, tables: seq<Tables>)
    requires RunStack(runs, tables) && runs != []
    ensures RunStack(runs[..|runs| - 1], tables[..|runs|])
  {
    var n := |runs| - 1;
    assert forall i :: 0 <= i < n ==> runs[..n][i] == runs[i];
    assert forall i :: 0 <= i <= n ==> tables[..n + 1][i] == tables[i];
  }

  /** Undoing a stack of runs in reverse order restores the original counters. */
  lemma {:induction false} UndoStack(runs: seq<Run>, tables: seq<Tables>)
    requires RunStack(runs, tables)
    ensures UndoAll(tables[|runs|].counts, tables[|runs|].snapshots, runs) == tables[0].counts
    decreases |runs|
  {
    if runs != [] {
      var n := |runs| - 1;
      UndoTop(runs, tables);
      RunStackPrefix(runs, tables);
      UndoStack(runs[..n], tables[..n + 1]);
      UndoReadsOwnRows(tables[n].counts, tables[n].snapshots, tables[n + 1].snapshots, runs[..n]);
    }
  }

  // ---------------------------------------------------------------- a quiet run converges

  predicate HasChanged(c: Change) {
    c.suggested != c.kb.chunkCount
  }

  /** The changes a run applies: those whose total moves. */
  function Changed(changes: seq<Change>): (kept: seq<Change>)
    ensures forall c :: c in kept <==> c in changes && HasChanged(c)
  {
    if changes == [] then []
    else if HasChanged(changes[0]) then [changes[0]] + Changed(changes[1..])
    else Changed(changes[1..])
  }

  /** The plan read every knowledge base once, with its counter. */
  ghost predicate Loaded(kbs: seq<KbRef>, counts: Counts) {
    && (forall i, j :: 0 <= i < j < |kbs| ==> kbs[i].id != kbs[j].id)
    && (forall i :: 0 <= i < |kbs| ==> kbs[i].id in counts && counts[kbs[i].id] == kbs[i].chunkCount)
  }

  /** The pair stands for a document of the knowledge bases that was answered that way. */
  ghost predicate Reported(kbs: seq<KbRef>, dify: (KbId, DocId) -> Answer, a: Answer, pair: (KbId, DocId)) {
    exists i :: 0 <= i < |kbs| && kbs[i].id == pair.0 && pair.1 in kbs[i].documents && dify(pair.0, pair.1) == a
  }

  lemma {:induction false} ThoseAreThose(kb: KbId, docs: seq<DocId>, dify: (KbId, DocId) -> Answer, a: Answer)
    ensures forall pair :: pair in Those(kb, docs, dify, a) <==>
              pair.0 == kb && pair.1 in docs && dify(kb, pair.1) == a
  {
    if docs != [] {
      ThoseAreThose(kb, docs[..|docs| - 1], dify, a);
      assert docs == docs[..|docs| - 1] + [docs[|docs| - 1]];
    }
  }

  lemma ReportedMore(kbs: seq<KbRef>, dify: (KbId, DocId) -> Answer, a: Answer, pair: (KbId, DocId))
    requires kbs != []
    ensures var (rest, kb) := (kbs[..|kbs| - 1], kbs[|kbs| - 1]);
            Reported(kbs, dify, a, pair) <==>
              Reported(rest, dify, a, pair) || (pair.0 == kb.id && pair.1 in kb.documents && dify(kb.id, pair.1) == a)
  {
    var n := |kbs| - 1;
    if i :| 0 <= i < n && kbs[..n][i].id == pair.0 && pair.1 in kbs[..n][i].documents && dify(pair.0, pair.1) == a {
      assert kbs[i] == kbs[..n][i];
    }
    if i :| 0 <= i < |kbs| && kbs[i].id == pair.0 && pair.1 in kbs[i].documents && dify(pair.0, pair.1) == a {
      assert i < n ==> kbs[..n][i] == kbs[i];
    }
  }

  /** The plan's report: exactly the unreadable documents as failures and the 404s as missing. */
  lemma {:induction false} PlanReports(kbs: seq<KbRef>, dify: (KbId, DocId) -> Answer, pair: (KbId, DocId))
    ensures pair in Planned(kbs, dify).failures <==> Reported(kbs, dify, Unreadable, pair)
    ensures pair in Planned(kbs, dify).missing <==> Reported(kbs, dify, Gone, pair)
    ensures |Planned(kbs, dify).changes| + Planned(kbs, dify).skipped == |kbs|
  {
    if kbs != [] {
      var (rest, kb) := (kbs[..|kbs| - 1], kbs[|kbs| - 1]);
      PlanReports(rest, dify, pair);
      ThoseAreThose(kb.id, kb.documents, dify, Unreadable);
      ThoseAreThose(kb.id, kb.documents, dify, Gone);
      ReportedMore(kbs, dify, Unreadable, pair);
      ReportedMore(kbs, dify, Gone, pair);
    }
  }

  /** Every change is either written or reported, and the report says what stands there now. */
  lemma {:induction false} WrittenOrReported(counts: Counts, changes: seq<Change>)
    ensures CountHits(counts, changes) + |Described(Misses(counts, changes), counts)| == |changes|
    ensures forall s :: s in Described(Misses(counts, changes), counts) <==>
              exists c :: c in changes && !(c.kb.id in counts && counts[c.kb.id] == c.kb.chunkCount)
                && s == Stale(c.kb.id, c.kb.chunkCount, if c.kb.id in counts then Some(counts[c.kb.id]) else None)
  {
    MissesAreMisses(counts, changes);
    DescribedAre(Misses(counts, changes), counts);
    HitsAndMisses(counts, changes);
  }

  lemma {:induction false} HitsAndMisses(counts: Counts, changes: seq<Change>)
    ensures CountHits(counts, changes) + |Misses(counts, changes)| == |changes|
  {
    if changes != [] {
      HitsAndMisses(counts, changes[..|changes| - 1]);
    }
  }

  lemma {:induction false} DescribedAre(missed: seq<Change>, counts: Counts)
    ensures |Described(missed, counts)| == |missed|
    ensures forall s :: s in Described(missed, counts) <==>
              exists c :: c in missed
                && s == Stale(c.kb.id, c.kb.chunkCount, if c.kb.id in counts then Some(counts[c.kb.id]) else None)
  {
    if missed != [] {
      var n := |missed| - 1;
      DescribedAre(missed[..n], counts);
      assert missed == missed[..n] + [missed[n]];
    }
  }

  lemma {:induction false} PlanCoversReadable(kbs: seq<KbRef>, dify: (KbId, DocId) -> Answer, c: Change)
    ensures c in Planned(kbs, dify).changes <==>
            c.kb in kbs && Readable(c.kb, dify) && c.suggested == Total(c.kb.id, c.kb.documents, dify)
  {
    if kbs != [] {
      PlanCoversReadable(kbs[..|kbs| - 1], dify, c);
      assert kbs == kbs[..|kbs| - 1] + [kbs[|kbs| - 1]];
    }
  }

  /**
   * With no concurrent writer, a run leaves every readable knowledge base at the sum of its
   * documents' segments, and every skipped one as it was.
   */
  lemma QuietRunConverges(kbs: seq<KbRef>, dify: (KbId, DocId) -> Answer, counts: Counts, counts': Counts, kb: KbRef)
    requires Loaded(kbs, counts) && kb in kbs
    requires AppliedTo(counts, Changed(Planned(kbs, dify).changes), counts')
    ensures counts'[kb.id] == if Readable(kb, dify) then Total(kb.id, kb.documents, dify) else counts[kb.id]
  {
    var changes := Changed(Planned(kbs, dify).changes);
    var own := Change(kb, Total(kb.id, kb.documents, dify));
    PlanCoversReadable(kbs, dify, own);
    if own in changes {
      assert Hits(counts, own);
    } else {
      forall c | c in changes && Hits(counts, c)
        ensures c.kb.id != kb.id
      {
        PlanCoversReadable(kbs, dify, c);
      }
    }
  }
}
