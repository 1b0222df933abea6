/** The fitting loop as it runs: the response is trimmed in place, field by field. */
module FittingLoop {
  import opened Wrappers
  import opened Clipping
  import opened Payload
  import opened Fitting

  lemma Visit(p: Response, rs: seq<Reduction>, k: nat)
    requires k < |rs| && FirstOf(p, rs) == FirstOf(p, rs[k..])
    ensures Applicable(p, rs[k]) ==> FirstOf(p, rs) == Some(rs[k])
    ensures !Applicable(p, rs[k]) ==> FirstOf(p, rs) == FirstOf(p, rs[k + 1..])
  {
    assert rs[k..][0] == rs[k] && rs[k..][1..] == rs[k + 1..];
  }

  lemma {:induction false} FirstOfAppend(p: Response, xs: seq<Reduction>, ys: seq<Reduction>)
    ensures FirstOf(p, xs + ys) == if FirstOf(p, xs).Some? then FirstOf(p, xs) else FirstOf(p, ys)
  {
    if xs == [] {
      assert xs + ys == ys;
    } else {
      FirstOfAppend(p, xs[1..], ys);
      assert (xs + ys)[0] == xs[0] && (xs + ys)[1..] == xs[1..] + ys;
    }
  }

  function OrElse(x: Option<Reduction>, y: Option<Reduction>): Option<Reduction> {
    if x.Some? then x else y
  }

  lemma ChoiceByGroups(p: Response, cfg: Config)
    ensures Choice(p, cfg) ==
            OrElse(OrElse(OrElse(FirstOf(p, NoteReductions()), FirstOf(p, TextReductions(cfg))),
                          OrElse(FirstOf(p, FindingReductions()), FirstOf(p, TitleReductions()))),
                   OrElse(FirstOf(p, LastNoteReductions()), FirstOf(p, LastTextReductions())))
  {
    FirstOfAppend(p, EarlyReductions(cfg) + MiddleReductions(), LateReductions());
    FirstOfAppend(p, EarlyReductions(cfg), MiddleReductions());
    FirstOfAppend(p, NoteReductions(), TextReductions(cfg));
    FirstOfAppend(p, FindingReductions(), TitleReductions());
    FirstOfAppend(p, LastNoteReductions(), LastTextReductions());
  }

  class ResponsePayload {
    const frame: Frame
    const catalogue: Catalogue
    const size: Response -> nat
    var omittedEvidence: nat
    var omittedSnippets: nat
    var serializedChars: Option<nat>
    var covered: seq<string>
    var missing: seq<string>
    var sources: seq<Source>
    var evidence: seq<Evidence>
    var snippets: seq<Snippet>
    var contradictions: seq<Contradiction>
    var unresolved: seq<string>
    var warnings: seq<string>
    var failures: seq<Failure>
    var query: Option<string>
    var textCompacted: bool
    var budgetExceeded: bool

    constructor (p: Response, catalogue: Catalogue, size: Response -> nat)
      ensures View() == p && this.catalogue == catalogue && this.size == size
    {
      frame, this.catalogue, this.size := p.frame, catalogue, size;
      omittedEvidence, omittedSnippets, serializedChars := p.omittedEvidence, p.omittedSnippets, p.serializedChars;
      covered, missing, sources, evidence, snippets := p.covered, p.missing, p.sources, p.evidence, p.snippets;
      contradictions, unresolved, warnings, failures := p.contradictions, p.unresolved, p.warnings, p.failures;
      query, textCompacted, budgetExceeded := p.query, p.textCompacted, p.budgetExceeded;
    }

    function View(): Response
      reads this
    {
      Response(frame, covered, missing, sources, evidence, snippets, contradictions, unresolved, warnings, failures,
               query, omittedEvidence, omittedSnippets, textCompacted, budgetExceeded, serializedChars)
    }

    /** The effect of trying one reduction: made if it applies, otherwise nothing changes. */
    twostate predicate Tried(cfg: Config, r: Reduction, done: bool)
      reads this
    {
      && done == Applicable(old(View()), r)
      && View() == if done then Reduced(old(View()), cfg, r) else old(View())
    }

    method PopExpandedSnippet(cfg: Config) returns (done: bool)
      modifies this
      ensures Tried(cfg, DropExpandedSnippet, done)
    {
      var last := LastExpanded(snippets);
      done := last.Some?;
      if done { snippets := snippets[..last.value] + snippets[last.value + 1..]; }
    }

    method PopWarning(cfg: Config, keep: nat) returns (done: bool)
      modifies this
      ensures Tried(cfg, TrimWarnings(keep), done)
    {
      done := |warnings| > keep;
      if done { warnings := warnings[..|warnings|-1]; }
    }

    method PopUnresolved(cfg: Config, keep: nat) returns (done: bool)
      modifies this
      ensures Tried(cfg, TrimUnresolved(keep), done)
    {
      done := |unresolved| > keep;
      if done { unresolved := unresolved[..|unresolved|-1]; }
    }

    method PopCovered(cfg: Config, keep: nat) returns (done: bool)
      modifies this
      ensures Tried(cfg, TrimCovered(keep), done)
    {
      done := |covered| > keep;
      if done { covered := covered[..|covered|-1]; }
    }

    method PopMissing(cfg: Config, keep: nat) returns (done: bool)
      modifies this
      ensures Tried(cfg, TrimMissing(keep), done)
    {
      done := |missing| > keep;
      if done { missing := missing[..|missing|-1]; }
    }

    method PopFailure(cfg: Config, keep: nat) returns (done: bool)
      modifies this
      ensures Tried(cfg, TrimFailures(keep), done)
    {
      done := |failures| > keep;
      if done { failures := failures[..|failures|-1]; }
    }

    method PopContradiction(cfg: Config) returns (done: bool)
      modifies this
      ensures Tried(cfg, DropContradiction, done)
    {
      done := contradictions != [];
      if done { contradictions := contradictions[..|contradictions|-1]; }
    }

    method PopEvidence(cfg: Config, keep: nat) returns (done: bool)
      requires cfg.catalogue == catalogue
      modifies this
      ensures Tried(cfg, DropEvidence(keep), done)
    {
      done := |evidence| > keep;
      if done {
        evidence := evidence[..|evidence|-1];
        sources := CompactSources(catalogue, evidence);
      }
    }

    method ShrinkLongestEvidence(cfg: Config, floor: nat, step: nat) returns (done: bool)
      requires step > 0
      modifies this
      ensures Tried(cfg, ShrinkEvidence(floor, step), done)
    {
      var longest := Longest(EvidenceTexts(evidence), floor);
      done := longest.Some?;
      if done {
        var item := evidence[longest.value];
        evidence := evidence[longest.value := item.(text := Shrunk(item.text, floor, step))];
        textCompacted := true;
      }
    }

    method ShrinkLongestSnippet(cfg: Config, floor: nat, step: nat) returns (done: bool)
      requires step > 0
      modifies this
      ensures Tried(cfg, ShrinkSnippet(floor, step), done)
    {
      var longest := Longest(SnippetTexts(snippets), floor);
      done := longest.Some?;
      if done {
        var item := snippets[longest.value];
        snippets := snippets[longest.value := item.(text := Some(Shrunk(OrEmpty(item.text), floor, step)))];
        textCompacted := true;
      }
    }

    /** From the last source backwards, the first metadatum found is removed. */
    method PopMetadatum(cfg: Config) returns (done: bool)
      modifies this
      ensures Tried(cfg, DropSourceMetadata, done)
    {
      var i := |sources|;
      assert sources[..i] == sources;
      while i > 0 && MetadataCount(sources[i - 1]) == 0
        invariant 0 <= i <= |sources| && LastWithMetadata(sources) == LastWithMetadata(sources[..i])
      {
        assert sources[..i][..i - 1] == sources[..i - 1];
        i := i - 1;
      }
      done := i > 0;
      if done { sources := sources[i - 1 := WithoutMetadatum(sources[i - 1])]; }
    }

    method ShortenQuery(cfg: Config) returns (done: bool)
      modifies this
      ensures Tried(cfg, ClipQuery, done)
    {
      var text := OrEmpty(query);
      done := |text| > QUERY_FLOOR;
      if done { query := Some(ClipText(text, Max(QUERY_FLOOR, |text| - 120))); }
    }

    method ShortenSourceTitle(cfg: Config) returns (done: bool)
      modifies this
      ensures Tried(cfg, ShrinkSourceTitle, done)
    {
      var longest := Longest(SourceTitles(sources), TITLE_FLOOR);
      done := longest.Some?;
      if done {
        var item := sources[longest.value];
        sources := sources[longest.value := item.(title := Shrunk(item.title, TITLE_FLOOR, 60))];
      }
    }

    method ShortenSnippetTitle(cfg: Config) returns (done: bool)
      modifies this
      ensures Tried(cfg, ShrinkSnippetTitle, done)
    {
      var longest := Longest(SnippetTitles(snippets), TITLE_FLOOR);
      done := longest.Some?;
      if done {
        var item := snippets[longest.value];
        snippets := snippets[longest.value := item.(title := Shrunk(item.title, TITLE_FLOOR, 60))];
      }
    }

    method ShortenHeading(cfg: Config) returns (done: bool)
      modifies this
      ensures Tried(cfg, ShrinkHeading, done)
    {
      var longest := Longest(Headings(evidence), HEADING_FLOOR);
      done := longest.Some?;
      if done {
        var item := evidence[longest.value];
        var shorter := item.(heading := Some(Shrunk(OrEmpty(item.heading), HEADING_FLOOR, 40)));
        evidence := evidence[longest.value := shorter];
      }
    }

    /** The effect of trying a list of reductions: the first that applies is made. */
    twostate predicate TriedAll(cfg: Config, rs: seq<Reduction>, done: bool)
      reads this
    {
      var first := FirstOf(old(View()), rs);
      && done == first.Some?
      && View() == if done then Reduced(old(View()), cfg, first.value) else old(View())
    }

    method TrimNotes(cfg: Config) returns (done: bool)
      requires cfg.catalogue == catalogue
      modifies this
      ensures TriedAll(cfg, NoteReductions(), done)
    {
      ghost var p, rs := View(), NoteReductions();
      assert rs[0..] == rs;
      done := PopExpandedSnippet(cfg);
      Visit(p, rs, 0);
      if done { return; }
      done := PopWarning(cfg, 2);
      Visit(p, rs, 1);
      if done { return; }
      done := PopUnresolved(cfg, 3);
      Visit(p, rs, 2);
      if done { return; }
      done := PopCovered(cfg, 2);
      Visit(p, rs, 3);
    }

    method TrimTexts(cfg: Config) returns (done: bool)
      requires cfg.catalogue == catalogue
      modifies this
      ensures TriedAll(cfg, TextReductions(cfg), done)
    {
      ghost var p, rs := View(), TextReductions(cfg);
      assert rs[0..] == rs;
      done := ShrinkLongestEvidence(cfg, cfg.evidenceFloor, 140);
      Visit(p, rs, 0);
      if done { return; }
      done := ShrinkLongestSnippet(cfg, cfg.snippetFloor, 60);
      Visit(p, rs, 1);
      if done { return; }
      done := PopEvidence(cfg, cfg.minimumEvidence);
      Visit(p, rs, 2);
    }

    method TrimFindings(cfg: Config) returns (done: bool)
      requires cfg.catalogue == catalogue
      modifies this
      ensures TriedAll(cfg, FindingReductions(), done)
    {
      ghost var p, rs := View(), FindingReductions();
      assert rs[0..] == rs;
      done := PopContradiction(cfg);
      Visit(p, rs, 0);
      if done { return; }
      done := PopFailure(cfg, 1);
      Visit(p, rs, 1);
      if done { return; }
      done := PopMetadatum(cfg);
      Visit(p, rs, 2);
      if done { return; }
      done := ShortenQuery(cfg);
      Visit(p, rs, 3);
    }

    method TrimTitles(cfg: Config) returns (done: bool)
      requires cfg.catalogue == catalogue
      modifies this
      ensures TriedAll(cfg, TitleReductions(), done)
    {
      ghost var p, rs := View(), TitleReductions();
      assert rs[0..] == rs;
      done := ShortenSourceTitle(cfg);
      Visit(p, rs, 0);
      if done { return; }
      done := ShortenSnippetTitle(cfg);
      Visit(p, rs, 1);
      if done { return; }
      done := ShortenHeading(cfg);
      Visit(p, rs, 2);
    }

    method TrimLastNotes(cfg: Config) returns (done: bool)
      requires cfg.catalogue == catalogue
      modifies this
      ensures TriedAll(cfg, LastNoteReductions(), done)
    {
      ghost var p, rs := View(), LastNoteReductions();
      assert rs[0..] == rs;
      done := PopWarning(cfg, 0);
      Visit(p, rs, 0);
      if done { return; }
      done := PopUnresolved(cfg, 0);
      Visit(p, rs, 1);
      if done { return; }
      done := PopContradiction(cfg);
      Visit(p, rs, 2);
      if done { return; }
      done := PopFailure(cfg, 0);
      Visit(p, rs, 3);
    }

    method TrimLastTexts(cfg: Config) returns (done: bool)
      requires cfg.catalogue == catalogue
      modifies this
      ensures TriedAll(cfg, LastTextReductions(), done)
    {
      ghost var p, rs := View(), LastTextReductions();
      assert rs[0..] == rs;
      done := PopMissing(cfg, 1);
      Visit(p, rs, 0);
      if done { return; }
      done := PopCovered(cfg, 0);
      Visit(p, rs, 1);
      if done { return; }
      done := ShrinkLongestEvidence(cfg, 100, 80);
      Visit(p, rs, 2);
      if done { return; }
      done := ShrinkLongestSnippet(cfg, 20, 40);
      Visit(p, rs, 3);
      if done { return; }
      done := PopEvidence(cfg, 2);
      Visit(p, rs, 4);
    }

    /** One round: the first applicable reduction of the whole list is made. */
    method Trim(cfg: Config) returns (done: bool)
      requires cfg.catalogue == catalogue
      modifies this
      ensures TriedAll(cfg, Priorities(cfg), done)
    {
      ChoiceByGroups(View(), cfg);
      done := TrimNotes(cfg);
      if !done { done := TrimTexts(cfg); }
      if !done { done := TrimFindings(cfg); }
      if !done { done := TrimTitles(cfg); }
      if !done { done := TrimLastNotes(cfg); }
      if !done { done := TrimLastTexts(cfg); }
    }

    /** Trims until the response fits, or flags the excess when nothing is left to trim. */
    method Fit(cfg: Config, budget: int)
      requires cfg.catalogue == catalogue
      modifies this
      ensures View() == Fitted(old(View()), cfg, budget, size)
    {
      while size(View()) > budget
        invariant Fitted(View(), cfg, budget, size) == Fitted(old(View()), cfg, budget, size)
        decreases |evidence|, Weight(View())
      {
        ghost var p := View();
        var done := Trim(cfg);
        if !done {
          budgetExceeded := true;
          return;
        }
        ReductionsMakeProgress(p, cfg, Choice(p, cfg).value);
      }
    }
  }
}
