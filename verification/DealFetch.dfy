/** Fetching a window of deals by bisecting around the broker's row cap, within a request budget. */
module DealFetch {
  const MIN_MS: int := 3_600_000
  const MAX_FETCHES: nat := 64

  datatype Deal = Deal(id: nat, time: int)

  datatype Window = Window(lo: int, hi: int)

  datatype Answer = Answer(deals: seq<Deal>, more: bool)

  ghost predicate Inside(d: Deal, w: Window) {
    w.lo <= d.time <= w.hi
  }

  /** The broker's side: a window answered without has_more came back whole. */
  ghost predicate Whole(book: set<Deal>, w: Window, a: Answer) {
    !a.more ==> forall d | d in book && Inside(d, w) :: d in a.deals
  }

  ghost predicate Covered(d: Deal, windows: seq<Window>) {
    exists i :: 0 <= i < |windows| && Inside(d, windows[i])
  }

  lemma CoveredSplit(d: Deal, pending: seq<Window>, lo: int, mid: int, hi: int)
    requires lo <= mid <= hi
    requires Covered(d, pending) || Inside(d, Window(lo, hi))
    ensures Covered(d, pending + [Window(lo, mid), Window(mid, hi)])
  {
    var p := pending + [Window(lo, mid), Window(mid, hi)];
    if i :| 0 <= i < |pending| && Inside(d, pending[i]) {
      assert Inside(d, p[i]);
    } else {
      assert Inside(d, p[|pending|]) || Inside(d, p[|pending| + 1]);
    }
  }

  lemma CoveredGrows(d: Deal, windows: seq<Window>, w: Window)
    requires Covered(d, windows) || Inside(d, w)
    ensures Covered(d, windows + [w])
  {
    if i :| 0 <= i < |windows| && Inside(d, windows[i]) {
      assert Inside(d, (windows + [w])[i]);
    } else {
      assert Inside(d, (windows + [w])[|windows|]);
    }
  }

  lemma CoveredPop(d: Deal, pending: seq<Window>)
    requires pending != [] && Covered(d, pending)
    ensures Covered(d, pending[..|pending| - 1]) || Inside(d, pending[|pending| - 1])
  {
    var i :| 0 <= i < |pending| && Inside(d, pending[i]);
    if i < |pending| - 1 {
      assert Inside(d, pending[..|pending| - 1][i]);
    }
  }

  /** Everything the broker answered, in the order it was asked. */
  ghost function AllAnswers(answer: (Window, nat) -> Answer, asked: seq<Window>): seq<Deal> {
    if asked == [] then []
    else var n := |asked| - 1; AllAnswers(answer, asked[..n]) + answer(asked[n], n).deals
  }

  /** The window is one half of the other. */
  ghost predicate HalfOf(w: Window, v: Window) {
    var mid := (v.lo + v.hi) / 2;
    w == Window(v.lo, mid) || w == Window(mid, v.hi)
  }

  /** It was asked before, answered with more to come, and was still long enough to be split. */
  ghost predicate SplitUp(answer: (Window, nat) -> Answer, asked: seq<Window>, m: nat) {
    m < |asked| && answer(asked[m], m).more && asked[m].hi - asked[m].lo > MIN_MS
  }

  ghost predicate Descends(answer: (Window, nat) -> Answer, asked: seq<Window>, w: Window) {
    exists m: nat :: SplitUp(answer, asked, m) && HalfOf(w, asked[m])
  }

  lemma DescendsOn(answer: (Window, nat) -> Answer, asked: seq<Window>, more: Window, w: Window)
    requires Descends(answer, asked, w)
    ensures Descends(answer, asked + [more], w)
  {
    var m: nat :| SplitUp(answer, asked, m) && HalfOf(w, asked[m]);
    assert (asked + [more])[m] == asked[m] && SplitUp(answer, asked + [more], m);
  }

  /** Every request after the first is for one half of an earlier one. */
  ghost predicate Halving(answer: (Window, nat) -> Answer, asked: seq<Window>) {
    forall n | 0 < n < |asked| :: Descends(answer, asked[..n], asked[n])
  }

  lemma HalvingGrows(answer: (Window, nat) -> Answer, asked: seq<Window>, w: Window)
    requires Halving(answer, asked) && (asked != [] ==> Descends(answer, asked, w))
    ensures Halving(answer, asked + [w])
  {
    var longer := asked + [w];
    forall n | 0 < n < |longer|
      ensures Descends(answer, longer[..n], longer[n])
    {
      assert longer[..n] == asked[..n];
      if n == |asked| {
        assert asked[..n] == asked;
      }
    }
  }

  /** What is left to ask: at first the whole window, then halves of what was asked. */
  ghost predicate Due(answer: (Window, nat) -> Answer, asked: seq<Window>, pending: seq<Window>, whole: Window) {
    if asked == [] then pending == [whole]
    else asked[0] == whole && forall w | w in pending :: Descends(answer, asked, w)
  }

  /** The last window is taken off, and put back in two halves or not at all. */
  ghost predicate TakesLast(answer: (Window, nat) -> Answer, asked: seq<Window>, before: seq<Window>,
                            pending: seq<Window>)
  {
    before != [] &&
    var w, rest := before[|before| - 1], before[..|before| - 1];
    var mid := (w.lo + w.hi) / 2;
    || pending == rest
    || (pending == rest + [Window(w.lo, mid), Window(mid, w.hi)] && SplitUp(answer, asked + [w], |asked|))
  }

  lemma StillDue(answer: (Window, nat) -> Answer, asked: seq<Window>, before: seq<Window>, pending: seq<Window>,
                 whole: Window)
    requires Due(answer, asked, before, whole) && TakesLast(answer, asked, before, pending)
    ensures Due(answer, asked + [before[|before| - 1]], pending, whole)
  {
    var w, rest := before[|before| - 1], before[..|before| - 1];
    forall v | v in pending
      ensures Descends(answer, asked + [w], v)
    {
      if v in rest {
        assert v in before;
        DescendsOn(answer, asked, w, v);
      } else {
        assert HalfOf(v, (asked + [w])[|asked|]);
      }
    }
  }

  lemma AnswersGrow(answer: (Window, nat) -> Answer, asked: seq<Window>, w: Window)
    ensures AllAnswers(answer, asked + [w]) == AllAnswers(answer, asked) + answer(w, |asked|).deals
  {
    assert (asked + [w])[..|asked|] == asked;
  }

  /** What was asked so far, what came of it, and what is left to ask. */
  ghost predicate TrailOk(answer: (Window, nat) -> Answer, asked: seq<Window>, pending: seq<Window>, deals: seq<Deal>,
                          whole: Window)
  {
    deals == AllAnswers(answer, asked) && Due(answer, asked, pending, whole) && Halving(answer, asked)
  }

  lemma TrailGoesOn(answer: (Window, nat) -> Answer, asked: seq<Window>, before: seq<Window>, pending: seq<Window>,
                    deals: seq<Deal>, whole: Window)
    requires TrailOk(answer, asked, before, deals, whole) && TakesLast(answer, asked, before, pending)
    ensures var w := before[|before| - 1];
            TrailOk(answer, asked + [w], pending, deals + answer(w, |asked|).deals, whole)
  {
    var w := before[|before| - 1];
    AnswersGrow(answer, asked, w);
    StillDue(answer, asked, before, pending, whole);
    assert w in before;
    HalvingGrows(answer, asked, w);
  }

  /**
   COMPLETE AND BOUNDED: `answer(w, n)` is the broker's reply to the n-th request and may be
   anything that keeps its side. Every deal of the window is returned unless it lies in a window
   reported unreachable; requests are 1 + 2 * splits, at most 127; what is returned is every answer in
   full, in order; each request after the first is for one half of an earlier one that had more; and
   while the budget lasts an unreachable window is at most an hour.
   */
  method FetchWindow(book: set<Deal>, answer: (Window, nat) -> Answer, from: int, to: int)
    returns (deals: seq<Deal>, unreachable: seq<Window>, fetches: nat, splits: nat, asked: seq<Window>)
    requires from <= to
    requires Honest(book, answer)
    ensures Complete(book, deals, unreachable, Window(from, to))
    ensures fetches == 1 + 2 * splits <= 2 * MAX_FETCHES - 1 == 127
    ensures |asked| == fetches && asked[0] == Window(from, to) && deals == AllAnswers(answer, asked)
    ensures Halving(answer, asked)
    ensures Within(unreachable, from, to)
    ensures fetches < MAX_FETCHES ==> Short(unreachable)
  {
    var pending := [Window(from, to)];
    deals, unreachable, fetches, splits, asked := [], [], 0, 0, [];
    Begins(book, answer, Window(from, to));
    while pending != []
      invariant fetches + |pending| == 1 + 2 * splits
      invariant splits <= fetches && splits <= MAX_FETCHES - 1
      invariant |asked| == fetches && SoFar(book, answer, asked, pending, unreachable, deals, Window(from, to))
      decreases if fetches < MAX_FETCHES then MAX_FETCHES - fetches else 0, |pending|
    {
      ghost var before, deals0, lost0, asked0 := pending, deals, unreachable, asked;
      var w := pending[|pending| - 1];
      pending := pending[..|pending| - 1];
      var a := answer(w, fetches);
      asked := asked + [w];
      fetches := fetches + 1;
      deals := deals + a.deals;
      if a.more {
        if w.hi - w.lo <= MIN_MS || fetches >= MAX_FETCHES {
          unreachable := unreachable + [w];
        } else {
          var mid := (w.lo + w.hi) / 2;
          pending := pending + [Window(w.lo, mid), Window(mid, w.hi)];
          splits := splits + 1;
        }
      }
      GoesOn(book, answer, asked0, before, lost0, deals0, Window(from, to), pending, unreachable);
    }
    NothingLeft(book, answer, asked, unreachable, deals, Window(from, to));
  }

  /** The broker keeps its side in every answer. */
  ghost predicate Honest(book: set<Deal>, answer: (Window, nat) -> Answer) {
    forall w, n :: Whole(book, w, answer(w, n))
  }

  ghost predicate SoFar(book: set<Deal>, answer: (Window, nat) -> Answer, asked: seq<Window>, pending: seq<Window>,
                        unreachable: seq<Window>, deals: seq<Deal>, whole: Window)
  {
    && Tracked(book, deals, unreachable, pending, whole) && TrailOk(answer, asked, pending, deals, whole)
    && Within(pending, whole.lo, whole.hi) && Within(unreachable, whole.lo, whole.hi)
    && (|asked| < MAX_FETCHES ==> Short(unreachable))
  }

  lemma GoesOn(book: set<Deal>, answer: (Window, nat) -> Answer, asked: seq<Window>, before: seq<Window>,
               lost: seq<Window>, deals: seq<Deal>, whole: Window, pending: seq<Window>, unreachable: seq<Window>)
    requires Honest(book, answer) && SoFar(book, answer, asked, before, lost, deals, whole) && before != []
    requires var w, rest := before[|before| - 1], before[..|before| - 1];
             var a, mid := answer(w, |asked|), (w.lo + w.hi) / 2;
             if !a.more then pending == rest && unreachable == lost
             else if w.hi - w.lo <= MIN_MS || |asked| + 1 >= MAX_FETCHES then
               pending == rest && unreachable == lost + [w]
             else pending == rest + [Window(w.lo, mid), Window(mid, w.hi)] && unreachable == lost
    ensures var w := before[|before| - 1];
            SoFar(book, answer, asked + [w], pending, unreachable, deals + answer(w, |asked|).deals, whole)
  {
    var w := before[|before| - 1];
    assert w in before;
    assert Whole(book, w, answer(w, |asked|));
    TrailGoesOn(answer, asked, before, pending, deals, whole);
    TrackGoesOn(book, deals, lost, before, answer(w, |asked|), pending, unreachable, whole);
  }

  /** Every deal of the window is returned or lies in a window reported unreachable. */
  ghost predicate Complete(book: set<Deal>, deals: seq<Deal>, unreachable: seq<Window>, whole: Window) {
    forall d | d in book && Inside(d, whole) :: d in deals || Covered(d, unreachable)
  }

  lemma Begins(book: set<Deal>, answer: (Window, nat) -> Answer, whole: Window)
    requires whole.lo <= whole.hi
    ensures SoFar(book, answer, [], [whole], [], [], whole)
  {
    assert forall d | Inside(d, whole) :: Inside(d, [whole][0]);
  }

  lemma NothingLeft(book: set<Deal>, answer: (Window, nat) -> Answer, asked: seq<Window>, unreachable: seq<Window>,
                    deals: seq<Deal>, whole: Window)
    requires SoFar(book, answer, asked, [], unreachable, deals, whole) && asked != []
    ensures Complete(book, deals, unreachable, whole) && asked[0] == whole && deals == AllAnswers(answer, asked)
    ensures Halving(answer, asked) && Within(unreachable, whole.lo, whole.hi)
    ensures |asked| < MAX_FETCHES ==> Short(unreachable)
  {
    forall d | d in book && Inside(d, whole)
      ensures d in deals || Covered(d, unreachable)
    {
      assert !Covered(d, []);
    }
  }

  /** Every deal of the window is had, lies in a window reported unreachable, or is still to be asked for. */
  ghost predicate Tracked(book: set<Deal>, deals: seq<Deal>, unreachable: seq<Window>, pending: seq<Window>,
                          whole: Window)
  {
    forall d | d in book && Inside(d, whole) :: d in deals || Covered(d, unreachable) || Covered(d, pending)
  }

  ghost predicate Within(windows: seq<Window>, from: int, to: int) {
    forall w | w in windows :: from <= w.lo <= w.hi <= to
  }

  ghost predicate Short(windows: seq<Window>) {
    forall w | w in windows :: w.hi - w.lo <= 3_600_000
  }

  /** What one iteration makes of the window it took off. */
  ghost predicate Handles(before: seq<Window>, lost: seq<Window>, a: Answer, pending: seq<Window>,
                          unreachable: seq<Window>)
  {
    before != [] &&
    var w, rest := before[|before| - 1], before[..|before| - 1];
    var mid := (w.lo + w.hi) / 2;
    || (!a.more && pending == rest && unreachable == lost)
    || (a.more && pending == rest && unreachable == lost + [w])
    || (a.more && pending == rest + [Window(w.lo, mid), Window(mid, w.hi)] && unreachable == lost)
  }

  lemma TrackGoesOn(book: set<Deal>, deals: seq<Deal>, lost: seq<Window>, before: seq<Window>, a: Answer,
                    pending: seq<Window>, unreachable: seq<Window>, whole: Window)
    requires Tracked(book, deals, lost, before, whole) && Handles(before, lost, a, pending, unreachable)
    requires before[|before| - 1].lo <= before[|before| - 1].hi && Whole(book, before[|before| - 1], a)
    ensures Tracked(book, deals + a.deals, unreachable, pending, whole)
  {
    forall d | d in book && Inside(d, whole)
      ensures d in deals + a.deals || Covered(d, unreachable) || Covered(d, pending)
    {
      KeepsTrack(d, before, lost, a, pending, unreachable);
    }
  }

  /** One iteration loses track of no deal. */
  lemma KeepsTrack(d: Deal, before: seq<Window>, lost: seq<Window>, a: Answer, pending: seq<Window>,
                   unreachable: seq<Window>)
    requires Handles(before, lost, a, pending, unreachable) && before[|before| - 1].lo <= before[|before| - 1].hi
    requires Inside(d, before[|before| - 1]) ==> a.more || d in a.deals
    ensures Covered(d, lost) ==> Covered(d, unreachable)
    ensures Covered(d, before) ==> Covered(d, pending) || Covered(d, unreachable) || d in a.deals
  {
    var w, rest := before[|before| - 1], before[..|before| - 1];
    if Covered(d, lost) {
      CoveredGrows(d, lost, w);
    }
    if Covered(d, before) {
      CoveredPop(d, before);
      CoveredSplit(d, rest, w.lo, (w.lo + w.hi) / 2, w.hi);
      if Inside(d, w) {
        CoveredGrows(d, lost, w);
      }
    }
  }
}
