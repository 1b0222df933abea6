/** What the server puts into a package before it is compacted. */
module PackageForms {
  import opened Payload
  import opened Json

  // ---------- Numbered ids and citations ----------

  /** A number with at least three digits. */
  function Padded(n: nat): string {
    (if n < 10 then "00" else if n < 100 then "0" else "") + Decimal(n)
  }

  function SourceId(n: nat): string {
    "src_" + Padded(n)
  }

  function EvidenceCitation(sourceId: string, n: nat): string {
    "[" + sourceId + ", ev_" + Padded(n) + "]"
  }

  function SnippetCitation(n: nat): string {
    "[search_" + Padded(n) + "]"
  }

  // ---------- Limits ----------

  const LONGEST_URL := 4_096
  const MOST_PAGES := 25
  const MOST_EVIDENCE := 25
  const MOST_EXACT := 10
  const MOST_EXPANDED := 6
  const MOST_SNIPPETS := 20

  predicate UrlForm(url: string) {
    0 < |url| <= LONGEST_URL
  }

  predicate ListForm(xs: seq<string>, items: nat, length: nat) {
    |xs| <= items && forall i :: 0 <= i < |xs| ==> |xs[i]| <= length
  }

  // ---------- Pages and the evidence taken from them ----------

  const PRIMARY_TYPES := {"official_documentation", "primary_institution", "source_repository"}
  const SOURCE_TYPES := PRIMARY_TYPES + {"issue_tracker", "publication", "web_page"}

  ghost predicate PageForm(page: SourceRecord) {
    && (exists n: nat :: page.sourceId == SourceId(n))
    && page.title != "" && UrlForm(page.url) && page.sourceType in SOURCE_TYPES
  }

  ghost predicate PagesForm(pages: Catalogue) {
    |pages| <= MOST_PAGES && forall id <- pages :: pages[id].sourceId == id && PageForm(pages[id])
  }

  predicate RecordForm(e: Evidence, n: nat, pages: Catalogue) {
    && e.sourceId in pages && e.citation == EvidenceCitation(e.sourceId, n)
    && e.text != "" && (e.heading.Some? ==> |e.heading.value| <= 160)
  }

  /** Records are numbered in order, and no page gives more than two of them. */
  ghost predicate EvidenceForm(es: seq<Evidence>, pages: Catalogue) {
    && |es| <= MOST_EVIDENCE
    && (forall i :: 0 <= i < |es| ==> RecordForm(es[i], i + 1, pages))
    && (forall i, j, k :: 0 <= i < j < k < |es| ==> !(es[i].sourceId == es[j].sourceId == es[k].sourceId))
  }

  // ---------- Search snippets ----------

  predicate SnippetForm(s: Snippet, n: nat) {
    && s.citation == SnippetCitation(n) && |s.title| <= 180 && UrlForm(s.url)
    && (s.text.Some? ==> 0 < |s.text.value| <= 320)
  }

  /** Snippets are numbered in order, the exact ones first. */
  ghost predicate SnippetsForm(ss: seq<Snippet>, exact: nat) {
    && exact <= |ss| && exact <= MOST_EXACT && |ss| - exact <= MOST_EXPANDED
    && (forall i :: 0 <= i < |ss| ==> (ss[i].exact <==> i < exact))
    && (forall i :: 0 <= i < |ss| ==> SnippetForm(ss[i], i + 1))
  }

  // ---------- Coverage, notes and privacy ----------

  const STATUSES := {"insufficient", "weak", "moderate", "strong"}

  function Privacy(transports: (string, string), direct: bool, mode: string): seq<(string, string)> {
    [("search_transport", transports.0), ("fetch_transport", transports.1),
     ("direct_egress_allowed", if direct then "true" else "false"), ("mode", mode)]
  }

  predicate PrivacyForm(rows: seq<(string, string)>) {
    || rows == Privacy(("\"tor-search\"", "\"tor-fetch\""), false, "\"strict\"")
    || rows == Privacy(("\"development\"", "\"development\""), false, "\"development\"")
    || rows == Privacy(("\"development\"", "\"development\""), true, "\"development\"")
  }

  ghost predicate FrameForm(f: Frame, budget: int) {
    && f.contextBudget == budget && f.status in STATUSES && 0 < |f.score| <= 5
    && f.independentSources <= MOST_PAGES && PrivacyForm(f.privacy)
  }

  /** Every topic is covered or missing, nothing is covered without evidence, and what is missing is also
      listed as unresolved. */
  ghost predicate CoverageForm(p: Response) {
    && ListForm(p.covered, 6, 180) && ListForm(p.missing, 6, 220) && ListForm(p.unresolved, 6, 240)
    && |p.covered| + |p.missing| > 0 && (p.evidence == [] ==> p.covered == [])
    && (p.missing != [] || !p.frame.primarySource ==> p.unresolved != [])
    && (p.frame.primarySource ==> exists i :: 0 <= i < |p.sources| && p.sources[i].sourceType.Some?
                                              && p.sources[i].sourceType.value in PRIMARY_TYPES)
    && p.frame.independentSources <= |p.sources|
  }

  /** There is always a warning: the server ranks without embeddings and says so. */
  ghost predicate NotesForm(p: Response) {
    && ListForm(p.warnings, 5, 240) && p.warnings != [] && |p.contradictions| <= 4 && |p.failures| <= 6
  }

  /** A response made from what the server retrieves. */
  ghost predicate Supplied(p: Response, pages: Catalogue, budget: int) {
    && FrameForm(p.frame, budget) && PagesForm(pages) && EvidenceForm(p.evidence, pages)
    && (exists exact: nat :: SnippetsForm(p.snippets, exact)) && CoverageForm(p) && NotesForm(p)
  }
}
