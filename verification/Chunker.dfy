/** Splitting a page's text into passages: exact slices that partition everything but white space. */
module Chunker {
  import opened Wrappers
  import opened TextSpans

  // Paragraphs are cut into pieces (whole paragraphs, or sentences when a paragraph is too long), and a
  // buffer merges consecutive pieces into passages. `IsChunking` says which grouping results; the
  // lemmas after it state what the passages promise.

  const HEADING_LIMIT := 140

  datatype Passage = Passage(heading: Option<string>, text: string, start: nat, end: nat)

  /** A span that is never split: with the heading in force, whether it begins a heading paragraph,
      and whether it is one sentence of an over-long paragraph. */
  datatype Piece = Piece(span: Span, heading: Option<string>, opensHeading: bool, sentence: bool)

  predicate IsHeading(text: string, p: Span)
    requires IsTrimmed(text, p)
  {
    p.end - p.start <= HEADING_LIMIT && !EndsSentence(text[p.end - 1])
  }

  // ---------- Pieces ----------

  ghost predicate AllTrimmed(text: string, ps: seq<Span>) {
    forall k :: 0 <= k < |ps| ==> IsTrimmed(text, ps[k])
  }

  /** The text of the last heading among the first `n` paragraphs. */
  ghost function HeadingAfter(text: string, ps: seq<Span>, n: nat): Option<string>
    requires n <= |ps| && AllTrimmed(text, ps)
  {
    if n == 0 then None
    else if IsHeading(text, ps[n-1]) then Some(text[ps[n-1].start..ps[n-1].end])
    else HeadingAfter(text, ps, n - 1)
  }

  /** How each paragraph is cut: into its sentences when it is longer than `maxChars`, else not at all. */
  ghost predicate AreParts(text: string, maxChars: int, ps: seq<Span>, parts: seq<seq<Span>>) {
    && |parts| <= |ps|
    && AllTrimmed(text, ps)
    && forall k :: 0 <= k < |parts| ==> IsPart(text, maxChars, ps[k], parts[k])
  }

  ghost predicate IsPart(text: string, maxChars: int, p: Span, part: seq<Span>)
    requires IsTrimmed(text, p)
  {
    if p.end - p.start > maxChars then AreSentences(text, p.start, p.end, part) else part == [p]
  }

  ghost function Tagged(text: string, maxChars: int, ps: seq<Span>, n: nat, part: seq<Span>): seq<Piece>
    requires 0 < n <= |ps| && AllTrimmed(text, ps)
  {
    var p := ps[n-1];
    seq(|part|, i requires 0 <= i < |part| =>
      Piece(part[i], HeadingAfter(text, ps, n), IsHeading(text, p) && i == 0, p.end - p.start > maxChars))
  }

  /** The pieces of the paragraphs cut so far. */
  ghost function PiecesOf(text: string, maxChars: int, ps: seq<Span>, parts: seq<seq<Span>>): seq<Piece>
    requires |parts| <= |ps| && AllTrimmed(text, ps)
  {
    if parts == [] then []
    else
      var n := |parts|;
      PiecesOf(text, maxChars, ps, parts[..n-1]) + Tagged(text, maxChars, ps, n, parts[n-1])
  }

  // ---------- Grouping ----------

  /** Why a new passage starts at piece `b` when the current one started at piece `s`: a heading, the
      size limit, or the target size already reached. */
  ghost predicate Breaks(pieces: seq<Piece>, target: int, maxChars: int, s: nat, b: nat)
    requires s < b < |pieces|
  {
    || pieces[b].opensHeading
    || pieces[b].span.end - pieces[s].span.start > maxChars
    || pieces[b-1].span.end - pieces[s].span.start >= target
  }

  ghost function GroupEnd(pieces: seq<Piece>, starts: seq<nat>, j: nat): nat
    requires j < |starts|
  {
    if j + 1 < |starts| then starts[j+1] else |pieces|
  }

  ghost predicate Increasing(pieces: seq<Piece>, starts: seq<nat>) {
    && (pieces == [] <==> starts == [])
    && (starts != [] ==> starts[0] == 0)
    && (forall j :: 0 <= j < |starts| ==> starts[j] < |pieces|)
    && (forall i, j :: 0 <= i < j < |starts| ==> starts[i] < starts[j])
  }

  /** The pieces are grouped greedily: a group ends exactly where there is a reason to. */
  ghost predicate Grouped(pieces: seq<Piece>, target: int, maxChars: int, starts: seq<nat>) {
    && Increasing(pieces, starts)
    && (forall j, b {:trigger Breaks(pieces, target, maxChars, starts[j], b)} ::
          0 <= j < |starts| && starts[j] < b < GroupEnd(pieces, starts, j) ==>
          !Breaks(pieces, target, maxChars, starts[j], b))
    && (forall i, j :: 0 <= i < |starts| && 0 <= j < |starts| && j == i + 1 ==>
          Breaks(pieces, target, maxChars, starts[i], starts[j]))
  }

  ghost predicate SpansIn(text: string, pieces: seq<Piece>) {
    && (forall i :: 0 <= i < |pieces| ==> IsTrimmed(text, pieces[i].span))
    && (forall i, j :: 0 <= i < j < |pieces| ==> pieces[i].span.end <= pieces[j].span.start)
  }

  ghost function PassageOf(text: string, pieces: seq<Piece>, lo: nat, hi: nat): Passage
    requires SpansIn(text, pieces) && lo < hi <= |pieces|
  {
    var a, b := pieces[lo].span.start, pieces[hi-1].span.end;
    assert lo < hi - 1 ==> pieces[lo].span.end <= pieces[hi-1].span.start;
    Passage(pieces[lo].heading, text[a..b], a, b)
  }

  ghost predicate AreGroups(text: string, pieces: seq<Piece>, starts: seq<nat>, passages: seq<Passage>)
    requires SpansIn(text, pieces) && Increasing(pieces, starts)
  {
    && |passages| <= |starts|
    && forall j {:trigger passages[j]} :: 0 <= j < |passages| ==>
         passages[j] == PassageOf(text, pieces, starts[j], GroupEnd(pieces, starts, j))
  }

  ghost predicate IsChunkingOf(text: string, target: int, maxChars: int, passages: seq<Passage>,
                               ps: seq<Span>, parts: seq<seq<Span>>, starts: seq<nat>)
  {
    && AreParagraphs(text, ps) && AreParts(text, maxChars, ps, parts) && |parts| == |ps|
    && var pieces := PiecesOf(text, maxChars, ps, parts);
       && SpansIn(text, pieces) && Grouped(pieces, target, maxChars, starts)
       && |passages| == |starts| && AreGroups(text, pieces, starts, passages)
  }

  /** The passages of a text, for any target and maximum sizes. */
  ghost predicate IsChunking(text: string, target: int, maxChars: int, passages: seq<Passage>) {
    exists ps, parts, starts :: IsChunkingOf(text, target, maxChars, passages, ps, parts, starts)
  }

  lemma BreaksIsStable(pieces: seq<Piece>, p: Piece, target: int, maxChars: int, s: nat, b: nat)
    requires s < b < |pieces|
    ensures Breaks(pieces + [p], target, maxChars, s, b) == Breaks(pieces, target, maxChars, s, b)
  {
  }

  /** A piece without a reason to break joins the last group. */
  lemma GroupExtends(pieces: seq<Piece>, p: Piece, target: int, maxChars: int, starts: seq<nat>)
    requires Grouped(pieces, target, maxChars, starts) && starts != []
    requires !Breaks(pieces + [p], target, maxChars, starts[|starts|-1], |pieces|)
    ensures Grouped(pieces + [p], target, maxChars, starts)
  {
    var all := pieces + [p];
    forall j, b | 0 <= j < |starts| && starts[j] < b < GroupEnd(all, starts, j)
      ensures !Breaks(all, target, maxChars, starts[j], b)
    {
      if b < |pieces| {
        assert b < GroupEnd(pieces, starts, j);
        BreaksIsStable(pieces, p, target, maxChars, starts[j], b);
      } else {
        assert j == |starts| - 1;
      }
    }
    forall i, j | 0 <= i < |starts| && 0 <= j < |starts| && j == i + 1
      ensures Breaks(all, target, maxChars, starts[i], starts[j])
    {
      BreaksIsStable(pieces, p, target, maxChars, starts[i], starts[j]);
    }
  }

  lemma GroupOpensInOrder(pieces: seq<Piece>, p: Piece, starts: seq<nat>)
    requires Increasing(pieces, starts)
    ensures Increasing(pieces + [p], starts + [|pieces|])
  {
  }

  /** A piece with a reason to break, or the very first one, opens a group. */
  lemma GroupOpens(pieces: seq<Piece>, p: Piece, target: int, maxChars: int, starts: seq<nat>)
    requires Grouped(pieces, target, maxChars, starts)
    requires pieces != [] ==> Breaks(pieces + [p], target, maxChars, starts[|starts|-1], |pieces|)
    ensures Grouped(pieces + [p], target, maxChars, starts + [|pieces|])
  {
    var all, starts' := pieces + [p], starts + [|pieces|];
    GroupOpensInOrder(pieces, p, starts);
    forall j, b | 0 <= j < |starts'| && starts'[j] < b < GroupEnd(all, starts', j)
      ensures !Breaks(all, target, maxChars, starts'[j], b)
    {
      assert j < |starts|;
      assert b < GroupEnd(pieces, starts, j) <= |pieces|;
      BreaksIsStable(pieces, p, target, maxChars, starts[j], b);
    }
    forall i, j | 0 <= i < |starts'| && 0 <= j < |starts'| && j == i + 1
      ensures Breaks(all, target, maxChars, starts'[i], starts'[j])
    {
      if j < |starts| { BreaksIsStable(pieces, p, target, maxChars, starts[i], starts[j]); }
    }
  }

  /** Neither changes the passages already made. */
  lemma PassagesStay(text: string, pieces: seq<Piece>, p: Piece, starts: seq<nat>, passages: seq<Passage>)
    requires SpansIn(text, pieces) && SpansIn(text, pieces + [p])
    requires Increasing(pieces, starts) && AreGroups(text, pieces, starts, passages)
    ensures |starts| == |passages| + 1 ==>
              Increasing(pieces + [p], starts) && AreGroups(text, pieces + [p], starts, passages)
    ensures |starts| == |passages| ==>
              Increasing(pieces + [p], starts + [|pieces|])
                && AreGroups(text, pieces + [p], starts + [|pieces|], passages)
  {
    GroupOpensInOrder(pieces, p, starts);
    var all, starts' := pieces + [p], starts + [|pieces|];
    forall j | 0 <= j < |passages|
      ensures |starts| == |passages| + 1 ==> passages[j] == PassageOf(text, all, starts[j], GroupEnd(all, starts, j))
      ensures |starts| == |passages| ==> passages[j] == PassageOf(text, all, starts'[j], GroupEnd(all, starts', j))
    {
      var hi := GroupEnd(pieces, starts, j);
      assert passages[j] == PassageOf(text, pieces, starts[j], hi) == PassageOf(text, all, starts[j], hi);
    }
  }

  // ---------- The buffer, as a value ----------

  /** The passages made so far and the span being built, if any. */
  datatype Buffer = Buffer(passages: seq<Passage>, heading: Option<string>, start: Option<nat>, end: Option<nat>)

  const EMPTY_BUFFER := Buffer([], None, None, None)

  function Slice(text: string, lo: nat, hi: nat): string {
    if lo <= hi <= |text| then text[lo..hi] else ""
  }

  function Flushed(text: string, b: Buffer): Buffer {
    if b.start.None? || b.end.None? then b
    else
      var passage := Passage(b.heading, Slice(text, b.start.value, b.end.value), b.start.value, b.end.value);
      Buffer(b.passages + [passage], None, None, None)
  }

  /** The buffer after one more span that does not open a heading. */
  function Appended(text: string, target: int, maxChars: int, b: Buffer, heading: Option<string>, s: Span): Buffer {
    var full := b.start.Some? && b.end.Some?
                && (s.end - b.start.value > maxChars || b.end.value - b.start.value >= target);
    var room := if full then Flushed(text, b) else b;
    if room.start.None? then Buffer(room.passages, heading, Some(s.start), Some(s.end)) else room.(end := Some(s.end))
  }

  function Fed(text: string, target: int, maxChars: int, b: Buffer, p: Piece): Buffer {
    Appended(text, target, maxChars, if p.opensHeading then Flushed(text, b) else b, p.heading, p.span)
  }

  function FedAll(text: string, target: int, maxChars: int, b: Buffer, pieces: seq<Piece>): Buffer {
    if pieces == [] then b
    else Fed(text, target, maxChars, FedAll(text, target, maxChars, b, pieces[..|pieces|-1]), pieces[|pieces|-1])
  }

  lemma {:induction false} FedInTwoParts(text: string, target: int, maxChars: int, b: Buffer, xs: seq<Piece>,
                                         ys: seq<Piece>)
    ensures FedAll(text, target, maxChars, b, xs + ys)
         == FedAll(text, target, maxChars, FedAll(text, target, maxChars, b, xs), ys)
  {
    if ys == [] {
      assert xs + ys == xs;
    } else {
      FedInTwoParts(text, target, maxChars, b, xs, ys[..|ys|-1]);
      assert (xs + ys)[..|xs + ys| - 1] == xs + ys[..|ys|-1];
    }
  }

  /** What the buffer holds after some pieces: the passages of all groups but the last, which is open. */
  ghost predicate Holds(text: string, pieces: seq<Piece>, starts: seq<nat>, b: Buffer)
    requires SpansIn(text, pieces) && Increasing(pieces, starts)
  {
    && AreGroups(text, pieces, starts, b.passages)
    && (pieces == [] ==> b == EMPTY_BUFFER)
    && (pieces != [] ==>
          && |starts| == |b.passages| + 1
          && var open := PassageOf(text, pieces, starts[|b.passages|], |pieces|);
             b.heading == open.heading && b.start == Some(open.start) && b.end == Some(open.end))
  }

  lemma FlushingCompletes(text: string, pieces: seq<Piece>, starts: seq<nat>, b: Buffer)
    requires SpansIn(text, pieces) && Increasing(pieces, starts) && Holds(text, pieces, starts, b)
    ensures AreGroups(text, pieces, starts, Flushed(text, b).passages)
    ensures |Flushed(text, b).passages| == |starts| && Flushed(text, b).start.None?
  {
    if pieces != [] {
      var last := PassageOf(text, pieces, starts[|b.passages|], |pieces|);
      assert Flushed(text, b).passages == b.passages + [last];
    }
  }

  /** Feeding one piece extends the last group or opens a new one, whichever the rule says. */
  lemma FeedingGroups(text: string, pieces: seq<Piece>, p: Piece, target: int, maxChars: int, starts: seq<nat>,
                      b: Buffer)
    returns (starts': seq<nat>)
    requires SpansIn(text, pieces) && SpansIn(text, pieces + [p])
    requires Grouped(pieces, target, maxChars, starts) && Holds(text, pieces, starts, b)
    ensures Grouped(pieces + [p], target, maxChars, starts')
    ensures Holds(text, pieces + [p], starts', Fed(text, target, maxChars, b, p))
  {
    if pieces != [] && !Breaks(pieces + [p], target, maxChars, starts[|starts|-1], |pieces|) {
      starts' := starts;
      GroupExtends(pieces, p, target, maxChars, starts);
      PassagesStay(text, pieces, p, starts, b.passages);
    } else {
      starts' := starts + [|pieces|];
      GroupOpens(pieces, p, target, maxChars, starts);
      FlushingCompletes(text, pieces, starts, b);
      PassagesStay(text, pieces, p, starts, Flushed(text, b).passages);
      assert Flushed(text, Flushed(text, b)) == Flushed(text, b);
      assert Fed(text, target, maxChars, b, p).passages == Flushed(text, b).passages;
    }
  }

  lemma SpansInFront(text: string, pieces: seq<Piece>, p: Piece)
    requires SpansIn(text, pieces + [p])
    ensures SpansIn(text, pieces)
  {
    var all := pieces + [p];
    assert forall i :: 0 <= i < |pieces| ==> all[i] == pieces[i];
  }

  lemma {:induction false} FeedingAllGroups(text: string, pieces: seq<Piece>, target: int, maxChars: int)
    returns (starts: seq<nat>)
    requires SpansIn(text, pieces)
    ensures Grouped(pieces, target, maxChars, starts)
    ensures Holds(text, pieces, starts, FedAll(text, target, maxChars, EMPTY_BUFFER, pieces))
    decreases |pieces|
  {
    if pieces == [] {
      starts := [];
    } else {
      var before, p := pieces[..|pieces|-1], pieces[|pieces|-1];
      assert pieces == before + [p];
      SpansInFront(text, before, p);
      starts := FeedingAllGroups(text, before, target, maxChars);
      starts := FeedingGroups(text, before, p, target, maxChars, starts,
        FedAll(text, target, maxChars, EMPTY_BUFFER, before));
    }
  }

  // ---------- Pieces come in order ----------

  lemma PartsAreInOrder(text: string, maxChars: int, p: Span, part: seq<Span>)
    requires IsTrimmed(text, p) && IsPart(text, maxChars, p, part)
    ensures part != [] && part[0].start == p.start
    ensures forall i :: 0 <= i < |part| ==> IsTrimmed(text, part[i]) && p.start <= part[i].start && part[i].end <= p.end
    ensures forall i, j :: 0 <= i < j < |part| ==> part[i].end <= part[j].start
  {
    if p.end - p.start > maxChars {
      assert Inside(part, p.start);
    }
  }

  ghost predicate InOrder(spans: seq<Span>) {
    forall j, k :: 0 <= j < k < |spans| ==> spans[j].end <= spans[k].start
  }

  ghost predicate EndBy(pieces: seq<Piece>, limit: nat) {
    forall i :: 0 <= i < |pieces| ==> pieces[i].span.end <= limit
  }

  lemma OrderedListsJoin(text: string, xs: seq<Piece>, ys: seq<Piece>, boundary: nat)
    requires SpansIn(text, xs) && SpansIn(text, ys)
    requires EndBy(xs, boundary)
    requires forall i :: 0 <= i < |ys| ==> boundary <= ys[i].span.start
    ensures SpansIn(text, xs + ys)
  {
    var all := xs + ys;
    forall i, j | 0 <= i < j < |all| ensures all[i].span.end <= all[j].span.start {
      if i < |xs| <= j {
        assert all[i] == xs[i] && all[j] == ys[j - |xs|];
      }
    }
  }

  lemma TaggedAreInOrder(text: string, maxChars: int, ps: seq<Span>, n: nat, part: seq<Span>)
    requires 0 < n <= |ps| && AllTrimmed(text, ps) && IsPart(text, maxChars, ps[n-1], part)
    ensures var tagged := Tagged(text, maxChars, ps, n, part);
            && SpansIn(text, tagged) && EndBy(tagged, ps[n-1].end)
            && forall i :: 0 <= i < |tagged| ==> ps[n-1].start <= tagged[i].span.start
  {
    PartsAreInOrder(text, maxChars, ps[n-1], part);
  }

  lemma EndByJoins(xs: seq<Piece>, ys: seq<Piece>, low: nat, high: nat)
    requires EndBy(xs, low) && low <= high && EndBy(ys, high)
    ensures EndBy(xs + ys, high)
  {
  }

  lemma {:induction false} PiecesComeInOrder(text: string, maxChars: int, ps: seq<Span>, parts: seq<seq<Span>>)
    requires InOrder(ps) && AreParts(text, maxChars, ps, parts)
    ensures SpansIn(text, PiecesOf(text, maxChars, ps, parts))
    ensures EndBy(PiecesOf(text, maxChars, ps, parts), if parts == [] then 0 else ps[|parts|-1].end)
  {
    if parts != [] {
      var n := |parts|;
      PiecesComeInOrder(text, maxChars, ps, parts[..n-1]);
      TaggedAreInOrder(text, maxChars, ps, n, parts[n-1]);
      var before, tagged := PiecesOf(text, maxChars, ps, parts[..n-1]), Tagged(text, maxChars, ps, n, parts[n-1]);
      var low := if n == 1 then 0 else ps[n-2].end;
      assert low <= ps[n-1].start < ps[n-1].end;
      OrderedListsJoin(text, before, tagged, low);
      EndByJoins(before, tagged, low, ps[n-1].end);
    }
  }

  // ---------- The code ----------

  class PassageBuffer {
    const text: string
    const targetChars: int
    const maxChars: int
    var passages: seq<Passage>
    var currentHeading: Option<string>
    var bufferHeading: Option<string>
    var bufferStart: Option<nat>
    var bufferEnd: Option<nat>

    function View(): Buffer
      reads this
    {
      Buffer(passages, bufferHeading, bufferStart, bufferEnd)
    }

    constructor (text: string, targetChars: int, maxChars: int)
      ensures View() == EMPTY_BUFFER && currentHeading.None?
      ensures this.text == text && this.targetChars == targetChars && this.maxChars == maxChars
    {
      this.text, this.targetChars, this.maxChars := text, targetChars, maxChars;
      passages := [];
      currentHeading, bufferHeading, bufferStart, bufferEnd := None, None, None, None;
    }

    method Flush()
      modifies this
      ensures View() == Flushed(text, old(View())) && currentHeading == old(currentHeading)
    {
      if bufferStart.None? || bufferEnd.None? {
        return;
      }
      var slice := Slice(text, bufferStart.value, bufferEnd.value);
      passages := passages + [Passage(bufferHeading, slice, bufferStart.value, bufferEnd.value)];
      bufferHeading, bufferStart, bufferEnd := None, None, None;
    }

    method AppendSpan(start: nat, end: nat)
      modifies this
      ensures View() == Appended(text, targetChars, maxChars, old(View()), currentHeading, Span(start, end))
      ensures currentHeading == old(currentHeading)
    {
      if bufferStart.Some? && bufferEnd.Some? {
        if end - bufferStart.value > maxChars || bufferEnd.value - bufferStart.value >= targetChars {
          Flush();
        }
      }
      if bufferStart.None? {
        bufferHeading := currentHeading;
        bufferStart := Some(start);
      }
      bufferEnd := Some(end);
    }

    /** Appends the spans of one paragraph to the buffer left after its heading, if any, flushed it. */
    method AppendSpans(spans: seq<Span>, ghost before: Buffer, ghost tagged: seq<Piece>)
      requires spans != [] && |tagged| == |spans|
      requires forall i :: 0 <= i < |spans| ==>
                 tagged[i].span == spans[i] && tagged[i].heading == currentHeading
                   && (tagged[i].opensHeading ==> i == 0)
      requires View() == if tagged[0].opensHeading then Flushed(text, before) else before
      modifies this
      ensures currentHeading == old(currentHeading)
      ensures View() == FedAll(text, targetChars, maxChars, before, tagged)
    {
      for i := 0 to |spans|
        invariant currentHeading == old(currentHeading)
        invariant i == 0 ==> View() == old(View())
        invariant i > 0 ==> View() == FedAll(text, targetChars, maxChars, before, tagged[..i])
      {
        AppendSpan(spans[i].start, spans[i].end);
        assert tagged[..i+1][..i] == tagged[..i];
      }
      assert tagged[..|spans|] == tagged;
    }

    /** One round of the main loop: a heading flushes the buffer, then the paragraph's spans go in. */
    method AppendParagraph(p: Span, ghost ps: seq<Span>, ghost k: nat) returns (ghost part: seq<Span>)
      requires k < |ps| && AllTrimmed(text, ps) && ps[k] == p && currentHeading == HeadingAfter(text, ps, k)
      modifies this
      ensures IsPart(text, maxChars, p, part) && currentHeading == HeadingAfter(text, ps, k + 1)
      ensures View() == FedAll(text, targetChars, maxChars, old(View()), Tagged(text, maxChars, ps, k + 1, part))
    {
      var paragraph := text[p.start..p.end];
      var isHeading := |paragraph| <= HEADING_LIMIT && !EndsSentence(paragraph[|paragraph|-1]);
      if isHeading {
        Flush();
        currentHeading := Some(paragraph);
      }
      var spans := [p];
      if p.end - p.start > maxChars {
        spans := SentenceSpans(text, p.start, p.end);
      }
      PartsAreInOrder(text, maxChars, p, spans);
      part := spans;
      ghost var tagged := Tagged(text, maxChars, ps, k + 1, spans);
      assert isHeading == IsHeading(text, ps[k]);
      assert currentHeading == HeadingAfter(text, ps, k + 1);
      assert forall i :: 0 <= i < |spans| ==> tagged[i].heading == currentHeading;
      AppendSpans(spans, old(View()), tagged);
    }
  }

  lemma FeedingOneMorePart(text: string, targetChars: int, maxChars: int, ps: seq<Span>, parts: seq<seq<Span>>,
                           part: seq<Span>)
    requires |parts| < |ps| && AreParts(text, maxChars, ps, parts) && IsPart(text, maxChars, ps[|parts|], part)
    ensures AreParts(text, maxChars, ps, parts + [part])
    ensures FedAll(text, targetChars, maxChars, EMPTY_BUFFER, PiecesOf(text, maxChars, ps, parts + [part])) ==
            FedAll(text, targetChars, maxChars, FedAll(text, targetChars, maxChars, EMPTY_BUFFER,
              PiecesOf(text, maxChars, ps, parts)),
                   Tagged(text, maxChars, ps, |parts| + 1, part))
  {
    assert (parts + [part])[..|parts|] == parts;
    FedInTwoParts(text, targetChars, maxChars, EMPTY_BUFFER, PiecesOf(text, maxChars, ps, parts),
                  Tagged(text, maxChars, ps, |parts| + 1, part));
  }

  method ChunkText(text: string, targetChars: int := 1200, maxChars: int := 1800) returns (passages: seq<Passage>)
    ensures IsChunking(text, targetChars, maxChars, passages)
  {
    var buffer := new PassageBuffer(text, targetChars, maxChars);
    var ps := ParagraphSpans(text);
    ghost var parts: seq<seq<Span>> := [];
    for k := 0 to |ps|
      invariant fresh(buffer)
      invariant buffer.text == text && buffer.targetChars == targetChars && buffer.maxChars == maxChars
      invariant |parts| == k && AreParts(text, maxChars, ps, parts)
      invariant buffer.currentHeading == HeadingAfter(text, ps, k)
      invariant buffer.View() ==
                  FedAll(text, targetChars, maxChars, EMPTY_BUFFER, PiecesOf(text, maxChars, ps, parts))
    {
      ghost var part := buffer.AppendParagraph(ps[k], ps, k);
      FeedingOneMorePart(text, targetChars, maxChars, ps, parts, part);
      parts := parts + [part];
    }
    ghost var pieces := PiecesOf(text, maxChars, ps, parts);
    PiecesComeInOrder(text, maxChars, ps, parts);
    ghost var starts := FeedingAllGroups(text, pieces, targetChars, maxChars);
    FlushingCompletes(text, pieces, starts, buffer.View());
    buffer.Flush();
    passages := buffer.passages;
    assert IsChunkingOf(text, targetChars, maxChars, passages, ps, parts, starts);
  }
}
