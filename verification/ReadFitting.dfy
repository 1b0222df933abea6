/** Fitting the response for one page: texts shrink to a floor first, then passages go, then the excess
    is flagged. */
module ReadFitting {
  import opened Wrappers
  import opened Clipping
  import opened Json
  import opened Payload

  datatype Passage = Passage(text: string, heading: Option<string>)

  /** `identity` holds the URL, title, source and privacy members, which fitting never touches. */
  datatype Page = Page(identity: seq<(string, Value)>, contextBudget: nat, passages: seq<Passage>, omitted: nat,
                       textCompacted: bool, budgetExceeded: bool, serializedChars: Option<nat>)

  type Size = Page -> nat

  const FLOOR := 320
  const STEP := 160
  const KEEP := 3

  function Texts(ps: seq<Passage>): seq<nat> {
    seq(|ps|, i requires 0 <= i < |ps| => |ps[i].text|)
  }

  function ShrunkPassage(p: Passage): Passage {
    p.(text := ClipText(p.text, Max(FLOOR, |p.text| - STEP)))
  }

  function ShrunkLongest(p: Page, i: nat): Page
    requires i < |p.passages|
  {
    p.(passages := p.passages[i := ShrunkPassage(p.passages[i])], textCompacted := true)
  }

  function WithoutLast(p: Page): Page
    requires p.passages != []
  {
    p.(passages := p.passages[..|p.passages|-1])
  }

  lemma ShrinkingIsLighter(p: Page, i: nat)
    requires i < |p.passages| && |p.passages[i].text| > FLOOR
    ensures Sum(Texts(ShrunkLongest(p, i).passages)) < Sum(Texts(p.passages))
  {
    var ps := p.passages;
    ShrinkingIsStrict(ps[i].text, FLOOR, STEP);
    SumOfUpdate(Texts(ps), i, |ShrunkPassage(ps[i]).text|);
    assert Texts(ShrunkLongest(p, i).passages) == Texts(ps)[i := |ShrunkPassage(ps[i]).text|];
  }

  /** One reduction, if there is any left. */
  function Next(p: Page): Option<Page> {
    match Longest(Texts(p.passages), FLOOR)
    case Some(i) => Some(ShrunkLongest(p, i))
    case None => if |p.passages| > KEEP then Some(WithoutLast(p)) else None
  }

  lemma NextIsLighter(p: Page)
    requires Next(p).Some?
    ensures var q := Next(p).value;
            |q.passages| < |p.passages| || (|q.passages| == |p.passages|
              && Sum(Texts(q.passages)) < Sum(Texts(p.passages)))
  {
    var longest := Longest(Texts(p.passages), FLOOR);
    if longest.Some? { ShrinkingIsLighter(p, longest.value); }
  }

  function Fitted(p: Page, budget: int, size: Size): Page
    decreases |p.passages|, Sum(Texts(p.passages))
  {
    if size(p) <= budget then p
    else
      match Next(p)
      case None => p.(budgetExceeded := true)
      case Some(q) =>
        NextIsLighter(p);
        Fitted(q, budget, size)
  }

  ghost predicate Short(ps: seq<Passage>) {
    forall i :: 0 <= i < |ps| ==> |ps[i].text| <= FLOOR
  }

  lemma NoneLongIsShort(ps: seq<Passage>)
    requires Longest(Texts(ps), FLOOR).None?
    ensures Short(ps)
  {
    forall i | 0 <= i < |ps| ensures |ps[i].text| <= FLOOR {
      assert Texts(ps)[i] <= FLOOR;
    }
  }

  /** From one state of the loop to a later one: identity and headings stay, passages are lost from the
      end only, only when all texts are short, and never below three. */
  ghost predicate Keeps(p: Page, q: Page) {
    && q == p.(passages := q.passages, textCompacted := q.textCompacted, budgetExceeded := q.budgetExceeded)
    && (p.textCompacted ==> q.textCompacted)
    && Min(|p.passages|, KEEP) <= |q.passages| <= |p.passages|
    && (forall i :: 0 <= i < |q.passages| ==> q.passages[i].heading == p.passages[i].heading
                                              && |q.passages[i].text| <= |p.passages[i].text|)
    && (|q.passages| < |p.passages| ==> Short(q.passages))
  }

  lemma NextKeeps(p: Page)
    ensures Next(p).Some? ==> Keeps(p, Next(p).value)
    ensures Next(p).None? ==> Short(p.passages) && |p.passages| <= KEEP
  {
    var longest := Longest(Texts(p.passages), FLOOR);
    if longest.Some? {
      ShrinkingIsStrict(p.passages[longest.value].text, FLOOR, STEP);
    } else {
      NoneLongIsShort(p.passages);
    }
  }

  lemma {:induction false} FittingKeeps(p: Page, budget: int, size: Size)
    ensures var q := Fitted(p, budget, size);
            && Keeps(p, q)
            && (|| (size(q) <= budget && q.budgetExceeded == p.budgetExceeded)
                || (q.budgetExceeded && Short(q.passages) && |q.passages| <= KEEP
                  && size(q.(budgetExceeded := p.budgetExceeded)) > budget))
    decreases |p.passages|, Sum(Texts(p.passages))
  {
    NextKeeps(p);
    if size(p) > budget {
      if Next(p).Some? {
        NextIsLighter(p);
        FittingKeeps(Next(p).value, budget, size);
      } else {
        assert p.(budgetExceeded := true).(budgetExceeded := p.budgetExceeded) == p;
      }
    }
  }

  class PagePayload {
    const size: Size
    var identity: seq<(string, Value)>
    var contextBudget: nat
    var passages: seq<Passage>
    var omitted: nat
    var textCompacted: bool
    var budgetExceeded: bool
    var serializedChars: Option<nat>

    constructor (p: Page, size: Size)
      ensures View() == p && this.size == size
    {
      this.size, identity, contextBudget, passages := size, p.identity, p.contextBudget, p.passages;
      omitted := p.omitted;
      textCompacted, budgetExceeded, serializedChars := p.textCompacted, p.budgetExceeded, p.serializedChars;
    }

    function View(): Page
      reads this
    {
      Page(identity, contextBudget, passages, omitted, textCompacted, budgetExceeded, serializedChars)
    }

    method Trim() returns (done: bool)
      modifies this
      ensures done == Next(old(View())).Some?
      ensures View() == if done then Next(old(View())).value else old(View())
    {
      var longest := Longest(Texts(passages), FLOOR);
      done := true;
      if longest.Some? {
        passages := passages[longest.value := ShrunkPassage(passages[longest.value])];
        textCompacted := true;
      } else if |passages| > KEEP {
        passages := passages[..|passages|-1];
      } else {
        done := false;
      }
    }

    method Fit(budget: int)
      modifies this
      ensures View() == Fitted(old(View()), budget, size)
    {
      while size(View()) > budget
        invariant Fitted(View(), budget, size) == Fitted(old(View()), budget, size)
        decreases |passages|, Sum(Texts(passages))
      {
        ghost var p := View();
        var done := Trim();
        if !done {
          budgetExceeded := true;
          return;
        }
        NextIsLighter(p);
      }
    }
  }
}
