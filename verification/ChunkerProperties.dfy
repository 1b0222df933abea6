/** What the passages of `Chunker.IsChunking` promise, whatever the text and the sizes. */
module ChunkerProperties {
  import opened Wrappers
  import opened TextSpans
  import opened Chunker

  // ---------- From paragraphs to pieces to groups ----------

  /** Where the pieces of paragraph `k` begin. */
  ghost function Offset(parts: seq<seq<Span>>, k: nat): nat
    requires k <= |parts|
  {
    if k == 0 then 0 else Offset(parts, k - 1) + |parts[k-1]|
  }

  lemma {:induction false} OffsetOfPrefix(parts: seq<seq<Span>>, n: nat, k: nat)
    requires k <= n <= |parts|
    ensures Offset(parts[..n], k) == Offset(parts, k)
  {
    if k > 0 { OffsetOfPrefix(parts, n, k - 1); }
  }

  lemma {:induction false} PieceCount(text: string, maxChars: int, ps: seq<Span>, parts: seq<seq<Span>>)
    requires |parts| <= |ps| && AllTrimmed(text, ps)
    ensures |PiecesOf(text, maxChars, ps, parts)| == Offset(parts, |parts|)
  {
    if parts != [] {
      var n := |parts|;
      PieceCount(text, maxChars, ps, parts[..n-1]);
      OffsetOfPrefix(parts, n - 1, n - 1);
    }
  }

  /** Span `j` of paragraph `k` is piece number `Offset(k) + j`. */
  lemma {:induction false} PieceAt(text: string, maxChars: int, ps: seq<Span>, parts: seq<seq<Span>>, k: nat, j: nat)
    requires k < |parts| <= |ps| && AllTrimmed(text, ps) && j < |parts[k]|
    ensures Offset(parts, k) + j < |PiecesOf(text, maxChars, ps, parts)|
    ensures PiecesOf(text, maxChars, ps, parts)[Offset(parts, k) + j] == Tagged(text, maxChars, ps, k + 1, parts[k])[j]
    decreases |parts|
  {
    var n := |parts|;
    PieceCount(text, maxChars, ps, parts[..n-1]);
    OffsetOfPrefix(parts, n - 1, n - 1);
    if k < n - 1 {
      PieceAt(text, maxChars, ps, parts[..n-1], k, j);
      OffsetOfPrefix(parts, n - 1, k);
    }
  }

  /** Every piece comes from some paragraph. */
  lemma {:induction false} PieceOrigin(text: string, maxChars: int, ps: seq<Span>, parts: seq<seq<Span>>, i: nat)
    returns (k: nat, j: nat)
    requires |parts| <= |ps| && AllTrimmed(text, ps) && i < |PiecesOf(text, maxChars, ps, parts)|
    ensures k < |parts| && j < |parts[k]| && i == Offset(parts, k) + j
    ensures PiecesOf(text, maxChars, ps, parts)[i] == Tagged(text, maxChars, ps, k + 1, parts[k])[j]
    decreases |parts|
  {
    var n := |parts|;
    PieceCount(text, maxChars, ps, parts[..n-1]);
    OffsetOfPrefix(parts, n - 1, n - 1);
    if i < Offset(parts, n - 1) {
      k, j := PieceOrigin(text, maxChars, ps, parts[..n-1], i);
      OffsetOfPrefix(parts, n - 1, k);
    } else {
      k, j := n - 1, i - Offset(parts, n - 1);
    }
  }

  /** What a piece owes to the paragraph it comes from. */
  lemma PieceFacts(text: string, maxChars: int, ps: seq<Span>, parts: seq<seq<Span>>, i: nat) returns (k: nat, j: nat)
    requires AreParts(text, maxChars, ps, parts) && i < |PiecesOf(text, maxChars, ps, parts)|
    ensures k < |parts| && j < |parts[k]|
    ensures var piece := PiecesOf(text, maxChars, ps, parts)[i];
            && piece.span == parts[k][j] && ps[k].start <= piece.span.start && piece.span.end <= ps[k].end
            && piece.heading == HeadingAfter(text, ps, k + 1)
            && (piece.opensHeading ==> IsHeading(text, ps[k]) && piece.span.start == ps[k].start)
  {
    k, j := PieceOrigin(text, maxChars, ps, parts, i);
    assert IsPart(text, maxChars, ps[k], parts[k]);
    PartsAreInOrder(text, maxChars, ps[k], parts[k]);
  }

  /** The first piece of a paragraph starts where the paragraph does, and opens it if it is a heading. */
  lemma FirstPiece(text: string, maxChars: int, ps: seq<Span>, parts: seq<seq<Span>>, k: nat) returns (i: nat)
    requires AreParts(text, maxChars, ps, parts) && k < |parts|
    ensures i < |PiecesOf(text, maxChars, ps, parts)|
    ensures var piece := PiecesOf(text, maxChars, ps, parts)[i];
            piece.span.start == ps[k].start && piece.opensHeading == IsHeading(text, ps[k])
  {
    assert IsPart(text, maxChars, ps[k], parts[k]);
    PartsAreInOrder(text, maxChars, ps[k], parts[k]);
    PieceAt(text, maxChars, ps, parts, k, 0);
    i := Offset(parts, k);
  }

  /** Every piece belongs to some group. */
  lemma GroupContaining(pieces: seq<Piece>, starts: seq<nat>, i: nat) returns (g: nat)
    requires Increasing(pieces, starts) && i < |pieces|
    ensures g < |starts| && starts[g] <= i < GroupEnd(pieces, starts, g)
  {
    g := 0;
    while g + 1 < |starts| && starts[g+1] <= i
      invariant g < |starts| && starts[g] <= i
    {
      g := g + 1;
    }
  }

  /** The ends of a group's pieces lie within its passage. */
  lemma GroupSpan(text: string, pieces: seq<Piece>, starts: seq<nat>, passages: seq<Passage>, g: nat, i: nat)
    requires SpansIn(text, pieces) && Increasing(pieces, starts) && AreGroups(text, pieces, starts, passages)
    requires g < |passages| && starts[g] <= i < GroupEnd(pieces, starts, g)
    ensures passages[g].start == pieces[starts[g]].span.start <= pieces[i].span.start
    ensures pieces[i].span.end <= passages[g].end == pieces[GroupEnd(pieces, starts, g) - 1].span.end <= |text|
  {
    var s, e := starts[g], GroupEnd(pieces, starts, g) - 1;
    assert IsTrimmed(text, pieces[s].span) && IsTrimmed(text, pieces[i].span) && IsTrimmed(text, pieces[e].span);
    assert s < i ==> pieces[s].span.end <= pieces[i].span.start;
    assert i < e ==> pieces[i].span.end <= pieces[e].span.start;
  }

  // ---------- The promises ----------

  lemma GroupIsExactSlice(text: string, pieces: seq<Piece>, starts: seq<nat>, passages: seq<Passage>, g: nat)
    requires SpansIn(text, pieces) && Increasing(pieces, starts) && AreGroups(text, pieces, starts, passages)
             && g < |passages|
    ensures IsTrimmed(text, Span(passages[g].start, passages[g].end))
    ensures passages[g].text == text[passages[g].start..passages[g].end]
  {
    GroupSpan(text, pieces, starts, passages, g, starts[g]);
    assert IsTrimmed(text, pieces[starts[g]].span) && IsTrimmed(text, pieces[GroupEnd(pieces, starts, g) - 1].span);
  }

  /** Every passage is a non-empty, trimmed, exact slice, and passages come in order without overlap. */
  lemma PassagesAreExactSlices(text: string, target: int, maxChars: int, passages: seq<Passage>)
    requires IsChunking(text, target, maxChars, passages)
    ensures forall g :: 0 <= g < |passages| ==>
              && IsTrimmed(text, Span(passages[g].start, passages[g].end))
              && passages[g].text == text[passages[g].start..passages[g].end]
    ensures forall g, h :: 0 <= g < h < |passages| ==> passages[g].end <= passages[h].start
  {
    var ps: seq<Span>, parts: seq<seq<Span>>, starts: seq<nat> :|
      IsChunkingOf(text, target, maxChars, passages, ps, parts, starts);
    var pieces := PiecesOf(text, maxChars, ps, parts);
    forall g | 0 <= g < |passages|
      ensures IsTrimmed(text, Span(passages[g].start, passages[g].end))
      ensures passages[g].text == text[passages[g].start..passages[g].end]
    {
      GroupIsExactSlice(text, pieces, starts, passages, g);
    }
  }

  lemma FindInside(spans: seq<Span>, c: nat) returns (k: nat)
    requires Inside(spans, c)
    ensures k < |spans| && spans[k].start <= c < spans[k].end
  {
    k :| 0 <= k < |spans| && spans[k].start <= c < spans[k].end;
  }

  lemma ParagraphCovers(text: string, ps: seq<Span>, c: nat) returns (k: nat)
    requires AreParagraphs(text, ps) && c < |text| && !IsSpace(text[c])
    ensures k < |ps| && ps[k].start <= c < ps[k].end
  {
    assert Inside(ps, c);
    k := FindInside(ps, c);
  }

  lemma ParagraphsAreCovered(text: string, maxChars: int, ps: seq<Span>, parts: seq<seq<Span>>, c: nat) returns (i: nat)
    requires AreParagraphs(text, ps) && AreParts(text, maxChars, ps, parts) && |parts| == |ps|
    requires c < |text| && !IsSpace(text[c])
    ensures i < |PiecesOf(text, maxChars, ps, parts)|
    ensures var span := PiecesOf(text, maxChars, ps, parts)[i].span; span.start <= c < span.end
  {
    var k := ParagraphCovers(text, ps, c);
    i := PartIsCovered(text, maxChars, ps, parts, k, c);
  }

  lemma PartIsCovered(text: string, maxChars: int, ps: seq<Span>, parts: seq<seq<Span>>, k: nat, c: nat)
    returns (i: nat)
    requires AreParts(text, maxChars, ps, parts) && k < |parts| && ps[k].start <= c < ps[k].end <= |text|
             && !IsSpace(text[c])
    ensures i < |PiecesOf(text, maxChars, ps, parts)|
    ensures var span := PiecesOf(text, maxChars, ps, parts)[i].span; span.start <= c < span.end
  {
    var j := PartCovers(text, maxChars, ps[k], parts[k], c);
    PieceAt(text, maxChars, ps, parts, k, j);
    i := Offset(parts, k) + j;
  }

  lemma PartCovers(text: string, maxChars: int, p: Span, part: seq<Span>, c: nat) returns (j: nat)
    requires IsTrimmed(text, p) && IsPart(text, maxChars, p, part) && p.start <= c < p.end && !IsSpace(text[c])
    ensures j < |part| && part[j].start <= c < part[j].end
  {
    j := 0;
    if p.end - p.start > maxChars {
      assert Inside(part, c);
      j := FindInside(part, c);
    }
  }

  predicate Contains(p: Passage, c: nat) {
    p.start <= c < p.end
  }

  /** Every character that is not white space lies in exactly one passage. */
  lemma EveryCharacterIsInOnePassage(text: string, target: int, maxChars: int, passages: seq<Passage>, c: nat)
    requires IsChunking(text, target, maxChars, passages) && c < |text| && !IsSpace(text[c])
    ensures exists g :: 0 <= g < |passages| && Contains(passages[g], c)
    ensures forall g, h :: 0 <= g < h < |passages| ==> !(Contains(passages[g], c) && Contains(passages[h], c))
  {
    var ps: seq<Span>, parts: seq<seq<Span>>, starts: seq<nat> :|
      IsChunkingOf(text, target, maxChars, passages, ps, parts, starts);
    var pieces := PiecesOf(text, maxChars, ps, parts);
    var i := ParagraphsAreCovered(text, maxChars, ps, parts, c);
    var g := GroupContaining(pieces, starts, i);
    GroupSpan(text, pieces, starts, passages, g, i);
    assert Contains(passages[g], c);
    PassagesAreExactSlices(text, target, maxChars, passages);
  }

  /** `heading` is the text of the latest heading paragraph that starts at or before `position`. */
  ghost predicate IsLatestHeading(text: string, ps: seq<Span>, position: nat, heading: Option<string>)
    requires AllTrimmed(text, ps)
  {
    match heading
    case None => forall k :: 0 <= k < |ps| && IsHeading(text, ps[k]) ==> position < ps[k].start
    case Some(h) =>
      exists k :: 0 <= k < |ps| && IsHeading(text, ps[k]) && ps[k].start <= position
        && h == text[ps[k].start..ps[k].end]
        && forall k' :: k < k' < |ps| && IsHeading(text, ps[k']) ==> position < ps[k'].start
  }

  lemma {:induction false} HeadingAfterIsLatest(text: string, ps: seq<Span>, n: nat, position: nat)
    requires AllTrimmed(text, ps) && n <= |ps|
    requires forall k :: 0 <= k < n ==> ps[k].start <= position
    requires forall k :: n <= k < |ps| && IsHeading(text, ps[k]) ==> position < ps[k].start
    ensures IsLatestHeading(text, ps, position, HeadingAfter(text, ps, n))
    decreases n
  {
    if n > 0 && !IsHeading(text, ps[n-1]) {
      HeadingAfterIsLatest(text, ps, n - 1, position);
    }
  }


  /** Every heading paragraph starts a passage, and each passage carries the latest heading at or
      before its start. */
  lemma HeadingsStartPassages(text: string, target: int, maxChars: int, passages: seq<Passage>) returns (ps: seq<Span>)
    requires IsChunking(text, target, maxChars, passages)
    ensures AreParagraphs(text, ps) && AllTrimmed(text, ps)
    ensures forall k :: 0 <= k < |ps| && IsHeading(text, ps[k]) ==>
              exists g :: 0 <= g < |passages| && passages[g].start == ps[k].start
    ensures forall g :: 0 <= g < |passages| ==> IsLatestHeading(text, ps, passages[g].start, passages[g].heading)
  {
    var parts: seq<seq<Span>>, starts: seq<nat>;
    ps, parts, starts :| IsChunkingOf(text, target, maxChars, passages, ps, parts, starts);
    var pieces := PiecesOf(text, maxChars, ps, parts);
    forall k | 0 <= k < |ps| && IsHeading(text, ps[k])
      ensures exists g :: 0 <= g < |passages| && passages[g].start == ps[k].start
    {
      var i := FirstPiece(text, maxChars, ps, parts, k);
      var g := HeadingOpensGroup(text, target, maxChars, passages, pieces, starts, i);
    }
    forall g | 0 <= g < |passages| ensures IsLatestHeading(text, ps, passages[g].start, passages[g].heading) {
      PieceHeadingIsLatest(text, maxChars, ps, parts, starts[g]);
      assert IsTrimmed(text, pieces[starts[g]].span);
    }
  }

  lemma HeadingOpensGroup(text: string, target: int, maxChars: int, passages: seq<Passage>,
                          pieces: seq<Piece>, starts: seq<nat>, i: nat) returns (g: nat)
    requires SpansIn(text, pieces) && Grouped(pieces, target, maxChars, starts)
    requires AreGroups(text, pieces, starts, passages) && |passages| == |starts|
    requires i < |pieces| && pieces[i].opensHeading
    ensures g < |passages| && passages[g].start == pieces[i].span.start
  {
    g := GroupContaining(pieces, starts, i);
    assert starts[g] < i ==> Breaks(pieces, target, maxChars, starts[g], i);
    GroupSpan(text, pieces, starts, passages, g, i);
  }

  lemma ParagraphHeadingIsLatest(text: string, ps: seq<Span>, k: nat, position: nat)
    requires InOrder(ps) && AllTrimmed(text, ps) && k < |ps| && ps[k].start <= position < ps[k].end
    ensures IsLatestHeading(text, ps, position, HeadingAfter(text, ps, k + 1))
  {
    HeadingAfterIsLatest(text, ps, k + 1, position);
  }

  lemma PieceHeadingIsLatest(text: string, maxChars: int, ps: seq<Span>, parts: seq<seq<Span>>, i: nat)
    requires InOrder(ps) && AreParts(text, maxChars, ps, parts) && i < |PiecesOf(text, maxChars, ps, parts)|
    ensures var piece := PiecesOf(text, maxChars, ps, parts)[i];
            IsTrimmed(text, piece.span) ==> IsLatestHeading(text, ps, piece.span.start, piece.heading)
  {
    var k, j := PieceFacts(text, maxChars, ps, parts, i);
    var piece := PiecesOf(text, maxChars, ps, parts)[i];
    if IsTrimmed(text, piece.span) { ParagraphHeadingIsLatest(text, ps, k, piece.span.start); }
  }

  ghost predicate IsLongParagraph(text: string, maxChars: int, p: Span) {
    p.end <= |text| && p.end - p.start > maxChars && exists ps :: AreParagraphs(text, ps) && p in ps
  }

  ghost predicate IsHeadingStart(text: string, position: nat) {
    exists ps: seq<Span>, p: Span ::
      AreParagraphs(text, ps) && p in ps && IsTrimmed(text, p) && IsHeading(text, p) && p.start == position
  }

  /** A passage is longer than the maximum only when it is a single sentence of a paragraph that is
      longer than the maximum. */
  lemma OversizePassagesAreSentences(text: string, target: int, maxChars: int, passages: seq<Passage>, g: nat)
    requires IsChunking(text, target, maxChars, passages) && g < |passages|
    requires passages[g].end - passages[g].start > maxChars
    ensures exists p, sentences :: IsLongParagraph(text, maxChars, p) && AreSentences(text, p.start, p.end, sentences)
              && Span(passages[g].start, passages[g].end) in sentences
  {
    var ps: seq<Span>, parts: seq<seq<Span>>, starts: seq<nat> :|
      IsChunkingOf(text, target, maxChars, passages, ps, parts, starts);
    var pieces := PiecesOf(text, maxChars, ps, parts);
    var s := starts[g];
    OversizeGroupIsOnePiece(text, target, maxChars, passages, pieces, starts, g);
    var k, j := PieceFacts(text, maxChars, ps, parts, s);
    assert ps[k] in ps;
    SentenceOfLongParagraph(text, maxChars, ps[k], parts[k], pieces[s].span);
    assert IsLongParagraph(text, maxChars, ps[k]);
  }

  lemma MergedPassagesFit(text: string, target: int, maxChars: int, passages: seq<Passage>,
                          pieces: seq<Piece>, starts: seq<nat>, g: nat)
    requires SpansIn(text, pieces) && Grouped(pieces, target, maxChars, starts)
    requires AreGroups(text, pieces, starts, passages) && g < |passages| == |starts|
    requires starts[g] < GroupEnd(pieces, starts, g) - 1
    ensures passages[g].end - passages[g].start <= maxChars
  {
    GroupSpan(text, pieces, starts, passages, g, starts[g]);
    assert !Breaks(pieces, target, maxChars, starts[g], GroupEnd(pieces, starts, g) - 1);
  }

  lemma OversizeGroupIsOnePiece(text: string, target: int, maxChars: int, passages: seq<Passage>,
                                pieces: seq<Piece>, starts: seq<nat>, g: nat)
    requires SpansIn(text, pieces) && Grouped(pieces, target, maxChars, starts)
    requires AreGroups(text, pieces, starts, passages) && g < |passages| == |starts|
    requires passages[g].end - passages[g].start > maxChars
    ensures pieces[starts[g]].span == Span(passages[g].start, passages[g].end)
  {
    var s, e := starts[g], GroupEnd(pieces, starts, g) - 1;
    GroupSpan(text, pieces, starts, passages, g, s);
    if s < e { MergedPassagesFit(text, target, maxChars, passages, pieces, starts, g); }
  }

  lemma SentenceOfLongParagraph(text: string, maxChars: int, p: Span, part: seq<Span>, s: Span)
    requires IsTrimmed(text, p) && IsPart(text, maxChars, p, part) && s in part && s.end - s.start > maxChars
    ensures p.end <= |text| && p.end - p.start > maxChars && AreSentences(text, p.start, p.end, part)
  {
  }

  lemma GroupsBreak(text: string, pieces: seq<Piece>, target: int, maxChars: int, starts: seq<nat>,
                    passages: seq<Passage>, g: nat)
    requires SpansIn(text, pieces) && Grouped(pieces, target, maxChars, starts)
             && AreGroups(text, pieces, starts, passages)
    requires g + 1 < |passages|
    ensures starts[g+1] < |pieces| && passages[g+1].start == pieces[starts[g+1]].span.start
    ensures || passages[g].end - passages[g].start >= target
            || pieces[starts[g+1]].span.end - passages[g].start > maxChars
            || pieces[starts[g+1]].opensHeading
  {
    var b := starts[g+1];
    assert Breaks(pieces, target, maxChars, starts[g], b);
    GroupSpan(text, pieces, starts, passages, g, starts[g]);
  }

  /** No passage stops early: the next one starts at a heading, or the target was reached, or the passage
      would be too long with the piece that the next one starts with. */
  lemma PassagesStopOnlyForAReason(text: string, target: int, maxChars: int, passages: seq<Passage>,
                                   ps: seq<Span>, parts: seq<seq<Span>>, starts: seq<nat>, g: nat)
    requires IsChunkingOf(text, target, maxChars, passages, ps, parts, starts) && g + 1 < |passages|
    ensures var pieces := PiecesOf(text, maxChars, ps, parts);
            && starts[g+1] < |pieces| && passages[g+1].start == pieces[starts[g+1]].span.start
            && (|| passages[g].end - passages[g].start >= target
                || pieces[starts[g+1]].span.end - passages[g].start > maxChars
                || IsHeadingStart(text, passages[g+1].start))
  {
    var pieces := PiecesOf(text, maxChars, ps, parts);
    GroupsBreak(text, pieces, target, maxChars, starts, passages, g);
    if pieces[starts[g+1]].opensHeading {
      var k, j := PieceFacts(text, maxChars, ps, parts, starts[g+1]);
      assert ps[k] in ps && IsHeading(text, ps[k]) && ps[k].start == passages[g+1].start;
    }
  }

  /** A passage of several pieces goes on only while it is below the target and no heading follows: without
      its last piece it is shorter than the target, and only its first piece can open a heading. */
  lemma PassagesGoOnUntilTheTarget(text: string, target: int, maxChars: int, passages: seq<Passage>,
                                   ps: seq<Span>, parts: seq<seq<Span>>, starts: seq<nat>, g: nat, b: nat)
    requires IsChunkingOf(text, target, maxChars, passages, ps, parts, starts) && g < |passages|
    requires starts[g] < b < GroupEnd(PiecesOf(text, maxChars, ps, parts), starts, g)
    ensures var pieces := PiecesOf(text, maxChars, ps, parts);
            && b < |pieces| && !pieces[b].opensHeading
            && pieces[b-1].span.end - passages[g].start < target
            && pieces[b].span.end - passages[g].start <= maxChars
  {
    var pieces := PiecesOf(text, maxChars, ps, parts);
    GroupSpan(text, pieces, starts, passages, g, starts[g]);
    assert !Breaks(pieces, target, maxChars, starts[g], b);
  }

  /** A short line without closing punctuation. */
  predicate OpenLine(text: string, p: Span)
    requires IsTrimmed(text, p)
  {
    var last := text[p.end-1];
    p.end - p.start <= 140 && last != '.' && last != '!' && last != '?'
  }

  lemma LatestHeadingAtItself(text: string, ps: seq<Span>, k: nat, heading: Option<string>)
    requires InOrder(ps) && AllTrimmed(text, ps) && k < |ps| && IsHeading(text, ps[k])
    requires IsLatestHeading(text, ps, ps[k].start, heading)
    ensures heading == Some(text[ps[k].start..ps[k].end])
  {
    if heading.Some? {
      var j :| 0 <= j < |ps| && IsHeading(text, ps[j]) && ps[j].start <= ps[k].start
        && heading.value == text[ps[j].start..ps[j].end]
        && forall k' :: j < k' < |ps| && IsHeading(text, ps[k']) ==> ps[k].start < ps[k'].start;
      assert j >= k;
    }
  }

  /** Every paragraph of at most 140 characters without closing punctuation starts a passage under itself as
      heading, and no other text ever becomes a heading. */
  lemma OpenLinesAreTheHeadings(text: string, target: int, maxChars: int, passages: seq<Passage>)
    returns (ps: seq<Span>)
    requires IsChunking(text, target, maxChars, passages)
    ensures AreParagraphs(text, ps) && AllTrimmed(text, ps)
    ensures forall k :: 0 <= k < |ps| && OpenLine(text, ps[k]) ==>
              exists g :: 0 <= g < |passages| && passages[g].start == ps[k].start
                && passages[g].heading == Some(text[ps[k].start..ps[k].end])
    ensures forall g :: 0 <= g < |passages| && passages[g].heading.Some? ==>
              exists k :: 0 <= k < |ps| && OpenLine(text, ps[k]) && ps[k].start <= passages[g].start
                && passages[g].heading.value == text[ps[k].start..ps[k].end]
  {
    ps := HeadingsStartPassages(text, target, maxChars, passages);
    assert InOrder(ps);
    forall k | 0 <= k < |ps| ensures OpenLine(text, ps[k]) <==> IsHeading(text, ps[k]) {}
    forall k | 0 <= k < |ps| && OpenLine(text, ps[k])
      ensures exists g :: 0 <= g < |passages| && passages[g].start == ps[k].start
                && passages[g].heading == Some(text[ps[k].start..ps[k].end])
    {
      var g :| 0 <= g < |passages| && passages[g].start == ps[k].start;
      LatestHeadingAtItself(text, ps, k, passages[g].heading);
    }
  }
}
