/** What both passes over a response leave of its texts. */
module CompactedTexts {
  import opened Payload
  import opened Fitting
  import opened FittingTexts
  import opened TwoPassFit

  lemma PassingKeepsTexts(q: Response, p: Response, cfg: Config, budget: int, evidenceTotal: nat, snippetTotal: nat,
                          ps: seq<nat>) returns (qs: seq<nat>)
    requires cfg.evidenceFloor >= 100 && cfg.snippetFloor >= 20 && TextsKept(q, p, cfg.catalogue, ps)
    requires CutsAreFlagged(q, p, ps)
    ensures TextsKept(Pass(q, cfg, budget, evidenceTotal, snippetTotal), p, cfg.catalogue, qs)
    ensures CutsAreFlagged(Pass(q, cfg, budget, evidenceTotal, snippetTotal), p, qs)
  {
    qs := FittingOnKeepsTexts(q, p, cfg, budget, JsonChars, ps);
  }

  /** Both passes together leave every text, title, heading and the query as it was, or normalised, or a beginning of
      it with the ellipsis of at least half the lowest floor; and without the flag for shortened texts the texts of
      evidence and snippets are unchanged. */
  lemma CompactedKeepsTexts(p: Response, cfg: Config, budget: int, evidenceTotal: nat, snippetTotal: nat)
    returns (ps: seq<nat>)
    requires cfg.evidenceFloor >= 100 && cfg.snippetFloor >= 20
    ensures TextsKept(Compacted(p, cfg, budget, evidenceTotal, snippetTotal), p, cfg.catalogue, ps)
    ensures CutsAreFlagged(Compacted(p, cfg, budget, evidenceTotal, snippetTotal), p, ps)
  {
    ps := NothingIsCutYet(p, cfg.catalogue);
    ps := PassingKeepsTexts(p, p, cfg, budget, evidenceTotal, snippetTotal, ps);
    ps := PassingKeepsTexts(Pass(p, cfg, budget, evidenceTotal, snippetTotal), p, cfg, budget, evidenceTotal,
                            snippetTotal, ps);
  }

  lemma {:induction false} AtLeastItsPlace(ps: seq<nat>, k: nat)
    requires k < |ps| && forall i, j :: 0 <= i < j < |ps| ==> ps[i] < ps[j]
    ensures ps[k] >= k
  {
    if k > 0 { AtLeastItsPlace(ps, k - 1); }
  }

  /** Shown and omitted snippets add up to their number. */
  lemma SnippetsAddUp(p: Response, cfg: Config, budget: int, evidenceTotal: nat, snippetTotal: nat)
    requires cfg.evidenceFloor >= 100 && cfg.snippetFloor >= 20 && |p.snippets| <= snippetTotal
    ensures var q := Compacted(p, cfg, budget, evidenceTotal, snippetTotal);
            q.omittedSnippets + |q.snippets| == snippetTotal
  {
    var ps := CompactedKeepsTexts(p, cfg, budget, evidenceTotal, snippetTotal);
    if ps != [] { AtLeastItsPlace(ps, |ps| - 1); }
  }
}
