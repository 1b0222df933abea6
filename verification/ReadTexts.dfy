/** What fitting the response for one page leaves of its texts. */
module ReadTexts {
  import opened FittingTexts
  import F = Fitting
  import opened Payload
  import opened ReadFitting
  import opened ReadResponse

  /** The passages are a beginning of the original ones, each with its heading and its text, the text normalised, or
      a beginning of it with the ellipsis of at least half the floor of 320. */
  ghost predicate PassagesKept(ps: seq<Passage>, originals: seq<Passage>) {
    |ps| <= |originals| && forall i :: 0 <= i < |ps| ==> AbridgesPassage(ps[i], originals[i])
  }

  ghost predicate AbridgesPassage(p: Passage, original: Passage) {
    p.heading == original.heading && Abridges(p.text, original.text, 160)
  }

  ghost predicate CutsAreFlagged(q: Page, p: Page)
    requires |q.passages| <= |p.passages|
  {
    q.textCompacted || q.passages <= p.passages
  }

  lemma CutPassageAbridges(p: Passage, original: Passage)
    requires AbridgesPassage(p, original) && |p.text| > FLOOR
    ensures AbridgesPassage(ShrunkPassage(p), original)
  {
    ShrinkingAbridges(p.text, original.text, FLOOR, STEP, 160);
    assert ShrunkPassage(p).text == F.Shrunk(p.text, FLOOR, STEP);
  }

  lemma ChangedPassageIsKept(ps: seq<Passage>, originals: seq<Passage>, i: nat, p: Passage)
    requires PassagesKept(ps, originals) && i < |ps| && AbridgesPassage(p, originals[i])
    ensures PassagesKept(ps[i := p], originals)
  {
  }

  lemma NextKeepsTexts(q: Page, p: Page)
    requires PassagesKept(q.passages, p.passages) && CutsAreFlagged(q, p) && Next(q).Some?
    ensures PassagesKept(Next(q).value.passages, p.passages) && CutsAreFlagged(Next(q).value, p)
  {
    var longest := Longest(Texts(q.passages), FLOOR);
    if longest.Some? {
      var i := longest.value;
      CutPassageAbridges(q.passages[i], p.passages[i]);
      ChangedPassageIsKept(q.passages, p.passages, i, ShrunkPassage(q.passages[i]));
    }
  }

  lemma {:induction false} FittingOnKeepsTexts(q: Page, p: Page, budget: int, size: Size)
    requires PassagesKept(q.passages, p.passages) && CutsAreFlagged(q, p)
    ensures PassagesKept(Fitted(q, budget, size).passages, p.passages) && CutsAreFlagged(Fitted(q, budget, size), p)
    decreases |q.passages|, Sum(Texts(q.passages))
  {
    if size(q) > budget && Next(q).Some? {
      NextKeepsTexts(q, p);
      NextIsLighter(q);
      FittingOnKeepsTexts(Next(q).value, p, budget, size);
    }
  }

  /** Both passes together cut no text below half of the floor, and flag every text they change. */
  lemma CompactedKeepsTexts(p: Page, budget: int, total: nat)
    ensures PassagesKept(Compacted(p, budget, total).passages, p.passages)
    ensures CutsAreFlagged(Compacted(p, budget, total), p)
  {
    FittingOnKeepsTexts(p, p, budget, PageChars);
    FittingOnKeepsTexts(Pass(p, budget, total), p, budget, PageChars);
  }
}
