/**
 * The repair script meets the ledger: a quiet run rebuilds exactly the chunk total that the
 * ledger invariant of the service calls for.
 */
module KnowledgeRepair {
  import KnowledgeLedger
  import Recompute

  /** `docs` lists each completed document of the ledger once, as the script loads them. */
  ghost predicate ListsCompleted(docs: seq<string>, rows: KnowledgeLedger.Rows) {
    && (forall i, j :: 0 <= i < j < |docs| ==> docs[i] != docs[j])
    && (forall d :: d in docs <==> d in KnowledgeLedger.CompletedIds(rows))
  }

  lemma {:induction false} TotalIsSum(
      kb: string, docs: seq<string>, ids: set<string>, dify: (string, string) -> Recompute.Answer, seg: string -> nat)
    requires forall i, j :: 0 <= i < j < |docs| ==> docs[i] != docs[j]
    requires forall d :: d in docs <==> d in ids
    requires forall d :: d in docs ==> dify(kb, d) == Recompute.Segments(seg(d))
    ensures Recompute.Total(kb, docs, dify) == KnowledgeLedger.Sum(ids, seg)
    decreases |docs|
  {
    if docs == [] {
      assert ids == {};
    } else {
      var rest, last := docs[..|docs| - 1], docs[|docs| - 1];
      assert docs == rest + [last];
      KnowledgeLedger.SumTakes(ids, seg, last);
      TotalIsSum(kb, rest, ids - {last}, dify, seg);
    }
  }

  /** Whatever the stored total was, a quiet run leaves the knowledge base's ledger balanced. */
  lemma RepairBalancesLedger(
      l: KnowledgeLedger.Ledger, seg: string -> nat,
      kbs: seq<Recompute.KbRef>, kb: Recompute.KbRef, dify: (string, string) -> Recompute.Answer,
      counts: Recompute.Counts, counts': Recompute.Counts)
    requires Recompute.Loaded(kbs, counts) && kb in kbs && ListsCompleted(kb.documents, l.rows)
    requires forall d :: d in kb.documents ==> dify(kb.id, d) == Recompute.Segments(seg(d))
    requires Recompute.AppliedTo(counts, Recompute.Changed(Recompute.Planned(kbs, dify).changes), counts')
    requires l.indexingStatus == KnowledgeLedger.FoldStatus(l.rows) && l.docCount == |l.rows|
    ensures KnowledgeLedger.Balanced(l.(chunkCount := counts'[kb.id]), seg)
  {
    Recompute.QuietRunConverges(kbs, dify, counts, counts', kb);
    TotalIsSum(kb.id, kb.documents, KnowledgeLedger.CompletedIds(l.rows), dify, seg);
  }
}
