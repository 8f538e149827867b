/**
  Window vectors and return products, src/app/composite_reporting/models.py: what is accepted
  tiles its horizon.
*/
module Windows {
  import opened Wrappers
  import opened Calendar

  /** A window; `pin` stands for the identities it carries beside its dates. */
  datatype Window = Window(materialization: int, start: Date, end: Date, pin: string)

  /** The fields a product must share with the primary selection. */
  datatype Scope = Scope(tenant: string, composite: string, currency: string, view: string, methodology: string,
    engine: string)

  datatype Selection = Selection(scope: Scope, start: Date, end: Date, windows: seq<Window>)

  datatype Product =
    | CalendarReturn(key: string, year: int, selection: Selection)
    | TrailingReturn(key: string, months: int, selection: Selection)

  /** The dates are dates. */
  predicate Dated(s: Selection) {
    && Valid(s.start) && Valid(s.end)
    && forall i :: 0 <= i < |s.windows| ==> Valid(s.windows[i].start) && Valid(s.windows[i].end)
  }

  predicate UniqueIds(windows: seq<Window>) {
    forall i, j :: 0 <= i < j < |windows| ==> windows[i].materialization != windows[j].materialization
  }

  /** The next window starts on the day after; on the last day of the calendar the addition overflows. */
  predicate Adjacent(windows: seq<Window>, i: nat)
    requires i + 1 < |windows| && Valid(windows[i].end)
  {
    NextDay(windows[i].end) == Some(windows[i + 1].start)
  }

  /** The checks of `CompositeWindowPin` and `CompositeReportSelection`. */
  predicate VectorAccepted(s: Selection)
    requires Dated(s)
  {
    && 1 <= |s.windows| <= 120
    && (forall i :: 0 <= i < |s.windows| ==> AtMost(s.windows[i].start, s.windows[i].end))
    && UniqueIds(s.windows)
    && s.windows[0].start == s.start && s.windows[|s.windows| - 1].end == s.end
    && (forall i :: 0 <= i < |s.windows| - 1 ==> Adjacent(s.windows, i))
  }

  predicate InWindow(d: Date, w: Window) { AtMost(w.start, d) && AtMost(d, w.end) }

  /** The windows in order, each after the one before. */
  predicate Chronological(windows: seq<Window>) {
    forall i, j :: 0 <= i < j < |windows| ==> Rank(windows[i].end) < Rank(windows[j].start)
  }

  lemma {:induction false} AcceptedInOrder(s: Selection, i: nat, j: nat)
    requires Dated(s) && VectorAccepted(s) && i < j < |s.windows|
    ensures Rank(s.windows[i].end) < Rank(s.windows[j].start)
    decreases j
  {
    assert Adjacent(s.windows, j - 1);
    if i < j - 1 { AcceptedInOrder(s, i, j - 1); }
  }

  lemma {:induction false} Covered(s: Selection, d: Date, n: nat) returns (i: nat)
    requires Dated(s) && VectorAccepted(s) && Valid(d) && n < |s.windows|
    requires AtMost(s.start, d) && AtMost(d, s.windows[n].end)
    ensures i <= n && InWindow(d, s.windows[i])
  {
    if AtMost(s.windows[n].start, d) {
      i := n;
    } else {
      assert Adjacent(s.windows, n - 1);
      if Rank(s.windows[n - 1].end) < Rank(d) { NextIsNext(s.windows[n - 1].end, d); }
      i := Covered(s, d, n - 1);
    }
  }

  /** Every day of the horizon is in exactly one window, and no other day is in any. */
  ghost predicate Tiles(s: Selection) {
    && (forall d :: Valid(d) ==>
          ((AtMost(s.start, d) && AtMost(d, s.end)) <==> exists i :: 0 <= i < |s.windows| && InWindow(d, s.windows[i])))
    && (forall d, i, j :: Valid(d) && 0 <= i < j < |s.windows| && InWindow(d, s.windows[i]) ==>
      !InWindow(d, s.windows[j]))
  }

  /** An accepted vector tiles its horizon in chronological order. */
  lemma AcceptedTiles(s: Selection)
    requires Dated(s) && VectorAccepted(s)
    ensures Tiles(s) && Chronological(s.windows)
  {
    var n := |s.windows|;
    forall i, j | 0 <= i < j < n ensures Rank(s.windows[i].end) < Rank(s.windows[j].start) {
      AcceptedInOrder(s, i, j);
    }
    forall d | Valid(d)
      ensures (AtMost(s.start, d) && AtMost(d, s.end)) <==> exists i :: 0 <= i < n && InWindow(d, s.windows[i]) {
      if AtMost(s.start, d) && AtMost(d, s.end) {
        var i := Covered(s, d, n - 1);
      }
    }
  }

  lemma TilesAccepted(s: Selection)
    requires Dated(s) && 1 <= |s.windows| <= 120 && UniqueIds(s.windows)
    requires forall i :: 0 <= i < |s.windows| ==> AtMost(s.windows[i].start, s.windows[i].end)
    requires Tiles(s) && Chronological(s.windows) && AtMost(s.start, s.end)
    ensures VectorAccepted(s)
  {
    TilesEnds(s);
    forall i | 0 <= i < |s.windows| - 1 ensures Adjacent(s.windows, i) { TilesAdjacent(s, i); }
  }

  /** The identities of the windows. */
  function Ids(windows: seq<Window>): set<int> {
    set i | 0 <= i < |windows| :: windows[i].materialization
  }

  lemma {:induction false} DistinctIds(windows: seq<Window>)
    ensures |Ids(windows)| <= |windows|
    ensures UniqueIds(windows) <==> |Ids(windows)| == |windows|
    decreases |windows|
  {
    if |windows| > 0 {
      var n := |windows| - 1;
      var front := windows[..n];
      DistinctIds(front);
      assert forall i :: 0 <= i < n ==> front[i] == windows[i];
      assert Ids(windows) == Ids(front) + {windows[n].materialization};
    }
  }

  /** A vector is accepted exactly when it is one of 1 to 120 nonempty windows in order that tile its
      horizon, as many as they have identities: nothing but tiling is demanded. */
  lemma VectorExactly(s: Selection)
    requires Dated(s)
    ensures VectorAccepted(s) <==>
      && 1 <= |s.windows| <= 120 && |Ids(s.windows)| == |s.windows|
      && (forall i :: 0 <= i < |s.windows| ==> AtMost(s.windows[i].start, s.windows[i].end))
      && AtMost(s.start, s.end) && Tiles(s) && Chronological(s.windows)
  {
    hide UniqueIds, Ids, Adjacent, Tiles, Chronological;
    DistinctIds(s.windows);
    if VectorAccepted(s) {
      AcceptedTiles(s);
      HorizonInOrder(s);
    } else if && 1 <= |s.windows| <= 120 && |Ids(s.windows)| == |s.windows|
       && (forall i :: 0 <= i < |s.windows| ==> AtMost(s.windows[i].start, s.windows[i].end))
       && AtMost(s.start, s.end) && Tiles(s) && Chronological(s.windows) {
      TilesAccepted(s);
    }
  }

  lemma HorizonInOrder(s: Selection)
    requires Dated(s) && VectorAccepted(s)
    ensures AtMost(s.start, s.end)
  {
    if |s.windows| > 1 { AcceptedInOrder(s, 0, |s.windows| - 1); }
  }

  /** The day is in a window, and no day outside the horizon is. */
  lemma TiledDay(s: Selection, d: Date) returns (i: nat)
    requires Tiles(s) && Valid(d) && AtMost(s.start, d) && AtMost(d, s.end)
    ensures i < |s.windows| && InWindow(d, s.windows[i])
  {
    i :| 0 <= i < |s.windows| && InWindow(d, s.windows[i]);
  }

  lemma TiledInside(s: Selection, d: Date, i: nat)
    requires Tiles(s) && Valid(d) && i < |s.windows| && InWindow(d, s.windows[i])
    ensures AtMost(s.start, d) && AtMost(d, s.end)
  {
  }

  lemma TilesEnds(s: Selection)
    requires Dated(s) && |s.windows| >= 1 && Tiles(s) && Chronological(s.windows) && AtMost(s.start, s.end)
    requires forall i :: 0 <= i < |s.windows| ==> AtMost(s.windows[i].start, s.windows[i].end)
    ensures s.windows[0].start == s.start && s.windows[|s.windows| - 1].end == s.end
  {
    hide Rank, Tiles;
    var n := |s.windows|;
    var first := TiledDay(s, s.start);
    TiledInside(s, s.windows[0].start, 0);
    RankInjective(s.windows[0].start, s.start);
    var last := TiledDay(s, s.end);
    TiledInside(s, s.windows[n - 1].end, n - 1);
    RankInjective(s.windows[n - 1].end, s.end);
  }

  lemma TilesAdjacent(s: Selection, i: nat)
    requires Dated(s) && i < |s.windows| - 1 && Tiles(s) && Chronological(s.windows)
    requires forall i :: 0 <= i < |s.windows| ==> AtMost(s.windows[i].start, s.windows[i].end)
    ensures Adjacent(s.windows, i)
  {
    hide Rank, Tiles;
    var a, b := s.windows[i], s.windows[i + 1];
    NextIsNext(a.end, b.start);
    var d := NextDay(a.end).value;
    TiledInside(s, a.end, i);
    TiledInside(s, b.start, i + 1);
    var k := TiledDay(s, d);
    assert k > i;
    RankInjective(d, b.start);
  }

  // -------------------------------------------------------------------- complete months

  predicate CompleteMonth(w: Window) {
    w.start.day == 1 && w.start.year == w.end.year && w.start.month == w.end.month
    && w.end.day == DaysIn(w.start.year, w.start.month)
  }

  /** From the first day of a month to the day before the first of the next. */
  predicate IsMonth(w: Window, year: int, month: int)
    requires Valid(w.end) && 1 <= month <= 12
  {
    w.start == Date(year, month, 1) && DayNumber(w.end) + 1 == DayNumber(NextMonth(year, month))
  }

  /** The check of days is that of whole months. */
  lemma CompleteIsMonth(w: Window)
    requires Valid(w.start) && Valid(w.end)
    ensures CompleteMonth(w) <==> IsMonth(w, w.start.year, w.start.month)
  {
    var last := Date(w.start.year, w.start.month, DaysIn(w.start.year, w.start.month));
    MonthEnds(w.start.year, w.start.month);
    NumbersInOrder(w.end, last);
  }

  predicate ProductAccepted(p: Product)
    requires Dated(p.selection)
  {
    && VectorAccepted(p.selection)
    && (forall i :: 0 <= i < |p.selection.windows| ==> CompleteMonth(p.selection.windows[i]))
    && match p
       case CalendarReturn(_, year, s) =>
         1 <= year <= 9999 && s.start == Date(year, 1, 1) && s.end == Date(year, 12, 31) && |s.windows| == 12
       case TrailingReturn(_, months, s) => 1 <= months <= 120 && |s.windows| == months
  }

  /** A calendar product is accepted exactly when its windows are the twelve months of its year, in
      order, under distinct identities, and its horizon is the year. */
  lemma CalendarIsTheYear(p: Product)
    requires p.CalendarReturn? && Dated(p.selection)
    ensures ProductAccepted(p) <==>
      && 1 <= p.year <= 9999 && p.selection.start == Date(p.year, 1, 1) && p.selection.end == Date(p.year, 12, 31)
      && |p.selection.windows| == 12 && |Ids(p.selection.windows)| == 12
      && (forall m :: 0 <= m < 12 ==> IsMonth(p.selection.windows[m], p.year, m + 1))
  {
    hide IsMonth, Ids, UniqueIds;
    var s := p.selection;
    DistinctIds(s.windows);
    if ProductAccepted(p) {
      forall m: nat | m < 12 ensures IsMonth(s.windows[m], p.year, m + 1) {
        MonthOf(p, m);
        CompleteIsMonth(s.windows[m]);
      }
    }
    if 1 <= p.year <= 9999 && |s.windows| == 12 && forall m :: 0 <= m < 12 ==> IsMonth(s.windows[m], p.year, m + 1) {
      forall m: nat | m < 12
        ensures s.windows[m].start == Date(p.year, m + 1, 1)
                && s.windows[m].end == Date(p.year, m + 1, DaysIn(p.year, m + 1)) {
        MonthIs(s.windows[m], p.year, m + 1);
      }
    }
  }

  lemma MonthIs(w: Window, year: int, month: int)
    requires Valid(w.end) && 1 <= month <= 12 && 1 <= year <= 9999 && IsMonth(w, year, month)
    ensures w.start == Date(year, month, 1) && w.end == Date(year, month, DaysIn(year, month))
  {
    MonthEnds(year, month);
    NumbersInOrder(w.end, Date(year, month, DaysIn(year, month)));
  }

  lemma {:induction false} MonthOf(p: Product, m: nat)
    requires p.CalendarReturn? && Dated(p.selection) && ProductAccepted(p) && m < 12
    ensures p.selection.windows[m].start == Date(p.year, m + 1, 1)
  {
    var s := p.selection;
    assert CompleteMonth(s.windows[m]);
    if m > 0 {
      MonthOf(p, m - 1);
      assert CompleteMonth(s.windows[m - 1]);
      assert Adjacent(s.windows, m - 1);
    }
  }

  /** A trailing product is accepted exactly when its vector is one of as many whole months as it says. */
  lemma TrailingIsMonths(p: Product)
    requires p.TrailingReturn? && Dated(p.selection)
    ensures ProductAccepted(p) <==>
      && VectorAccepted(p.selection) && 1 <= p.months <= 120 && |p.selection.windows| == p.months
      && forall i :: 0 <= i < |p.selection.windows| ==>
           var w := p.selection.windows[i]; IsMonth(w, w.start.year, w.start.month)
  {
    hide VectorAccepted, IsMonth, CompleteMonth;
    forall i | 0 <= i < |p.selection.windows|
      ensures var w := p.selection.windows[i]; CompleteMonth(w) <==> IsMonth(w, w.start.year, w.start.month) {
      CompleteIsMonth(p.selection.windows[i]);
    }
  }

  // ---------------------------------------------------------------------- product scope

  /** The primary windows inside a product's horizon. */
  function Inside(windows: seq<Window>, start: Date, end: Date): seq<Window> {
    if windows == [] then []
    else
      var last := windows[|windows| - 1];
      Inside(windows[..|windows| - 1], start, end) + if AtMost(start, last.start)
        && AtMost(last.end, end) then [last] else []
  }

  /** `require_product_scope`. */
  predicate ScopeAccepted(primary: Selection, products: seq<Product>) {
    && (forall i, j :: 0 <= i < j < |products| ==> products[i].key != products[j].key)
    && forall i :: 0 <= i < |products| ==>
         var s := products[i].selection;
         && s.scope == primary.scope
         && Inside(primary.windows, s.start, s.end) == s.windows
         && (products[i].TrailingReturn? ==> s.end == primary.end)
  }

  predicate IsInside(w: Window, start: Date, end: Date) { AtMost(start, w.start) && AtMost(w.end, end) }

  /** The windows from `lo` to `hi` are those inside; after a run of them has ended none follows. */
  ghost predicate Block(windows: seq<Window>, start: Date, end: Date, lo: nat, hi: nat) {
    && lo <= hi <= |windows| && Inside(windows, start, end) == windows[lo..hi]
    && (lo < hi ==> IsInside(windows[hi - 1], start, end))
    && (lo < hi < |windows| ==> !AtMost(windows[hi].end, end))
  }

  /** In chronological windows, those inside a horizon are consecutive. */
  lemma {:induction false} InsideIsBlock(windows: seq<Window>, start: Date, end: Date) returns (lo: nat, hi: nat)
    requires Chronological(windows) && forall i :: 0 <= i < |windows| ==> AtMost(windows[i].start, windows[i].end)
    ensures Block(windows, start, end, lo, hi)
  {
    if windows == [] {
      lo, hi := 0, 0;
    } else {
      var n := |windows| - 1;
      var front, last := windows[..n], windows[n];
      lo, hi := InsideIsBlock(front, start, end);
      assert forall i :: 0 <= i < n ==> front[i] == windows[i] && Rank(front[i].end) < Rank(last.start);
      assert windows == front + [last];
      lo, hi := BlockExtended(front, last, start, end, lo, hi);
    }
  }

  lemma BlockExtended(front: seq<Window>, last: Window, start: Date, end: Date, lo: nat, hi: nat)
      returns (lo': nat, hi': nat)
    requires Block(front, start, end, lo, hi) && AtMost(last.start, last.end)
    requires forall i :: 0 <= i < |front| ==>
        Rank(front[i].end) < Rank(last.start) && AtMost(front[i].start, front[i].end)
    ensures Block(front + [last], start, end, lo', hi')
  {
    hide Rank;
    var n, all := |front|, front + [last];
    assert all[..n] == front && all[n] == last;
    lo', hi' := lo, hi;
    if IsInside(last, start, end) {
      assert lo < hi ==> hi == n;
      if lo == hi { lo' := n; }
      hi' := n + 1;
      assert all[lo'..hi'] == front[lo..hi] + [last];
    } else {
      assert all[lo..hi] == front[lo..hi];
      assert lo < hi ==> all[hi - 1] == front[hi - 1];
      assert lo < hi < n ==> all[hi] == front[hi];
    }
  }

  /** Accepted products are of the primary's tenant, composite, currency, view, methodology and engine,
      have their own keys, and trail up to the primary's end. */
  lemma ScopeShared(primary: Selection, products: seq<Product>, i: nat, j: nat)
    requires ScopeAccepted(primary, products) && i < |products| && j < |products|
    ensures var scope := products[i].selection.scope;
            && scope.tenant == primary.scope.tenant && scope.composite == primary.scope.composite
            && scope.currency == primary.scope.currency && scope.view == primary.scope.view
            && scope.methodology == primary.scope.methodology && scope.engine == primary.scope.engine
    ensures products[i].key == products[j].key ==> i == j
    ensures products[i].TrailingReturn? ==> products[i].selection.end == primary.end
  {
  }

  /** The windows from `lo` to `hi` of a selection, on their own horizon. */
  function Run(s: Selection, lo: nat, hi: nat): Selection
    requires lo < hi <= |s.windows|
  {
    s.(start := s.windows[lo].start, end := s.windows[hi - 1].end, windows := s.windows[lo..hi])
  }

  ghost predicate IsRun(primary: Selection, p: Product) {
    exists lo: nat, hi: nat :: lo < hi <= |primary.windows| && p.selection == Run(primary, lo, hi)
                               && (p.TrailingReturn? ==> hi == |primary.windows|)
  }

  lemma InRun(s: Selection, lo: nat, hi: nat, k: nat)
    requires Dated(s) && VectorAccepted(s) && lo < hi <= |s.windows| && k < |s.windows|
    ensures (AtMost(s.windows[lo].start, s.windows[k].start) && AtMost(s.windows[k].end, s.windows[hi - 1].end))
            <==> lo <= k < hi
  {
    hide Rank;
    if k < lo { AcceptedInOrder(s, k, lo); }
    if lo < k { AcceptedInOrder(s, lo, k); }
    if k < hi - 1 { AcceptedInOrder(s, k, hi - 1); }
    if hi - 1 < k { AcceptedInOrder(s, hi - 1, k); }
  }

  lemma {:induction false} InsideRun(s: Selection, lo: nat, hi: nat, n: nat)
    requires Dated(s) && VectorAccepted(s) && lo < hi <= |s.windows| && n <= |s.windows|
    ensures Inside(s.windows[..n], s.windows[lo].start, s.windows[hi - 1].end)
            == if n <= lo then [] else s.windows[lo..if n <= hi then n else hi]
    decreases n
  {
    hide AtMost, VectorAccepted, Dated;
    if n > 0 {
      InsideRun(s, lo, hi, n - 1);
      InRun(s, lo, hi, n - 1);
      var w := s.windows[n - 1];
      InsideOn(s.windows[..n - 1], w, s.windows[lo].start, s.windows[hi - 1].end);
      assert s.windows[..n] == s.windows[..n - 1] + [w];
      if lo < n <= hi { assert s.windows[lo..n] == s.windows[lo..n - 1] + [w]; }
    }
  }

  lemma InsideOn(front: seq<Window>, last: Window, start: Date, end: Date)
    ensures Inside(front + [last], start, end)
            == Inside(front, start, end) + if AtMost(start, last.start) && AtMost(last.end, end) then [last] else []
  {
    assert (front + [last])[..|front|] == front;
  }

  lemma RunInside(primary: Selection, s: Selection, lo: nat, hi: nat)
    requires Dated(primary) && VectorAccepted(primary) && lo < hi <= |primary.windows| && s == Run(primary, lo, hi)
    ensures s.scope == primary.scope && Inside(primary.windows, s.start, s.end) == s.windows
    ensures hi == |primary.windows| ==> s.end == primary.end
  {
    hide Inside;
    InsideRun(primary, lo, hi, |primary.windows|);
    assert primary.windows[..|primary.windows|] == primary.windows;
  }

  /** And nothing more is asked: any runs of the primary's windows, under their own keys and those of
      trailing products up to the end, are accepted. */
  lemma RunsAccepted(primary: Selection, products: seq<Product>)
    requires Dated(primary) && VectorAccepted(primary)
    requires forall i, j :: 0 <= i < j < |products| ==> products[i].key != products[j].key
    requires forall i :: 0 <= i < |products| ==> IsRun(primary, products[i])
    ensures ScopeAccepted(primary, products)
  {
    hide VectorAccepted, Inside, Run;
    forall i | 0 <= i < |products|
      ensures var s := products[i].selection;
              s.scope == primary.scope && Inside(primary.windows, s.start, s.end) == s.windows
              && (products[i].TrailingReturn? ==> s.end == primary.end) {
      assert IsRun(primary, products[i]);
      var lo: nat, hi: nat :| lo < hi <= |primary.windows| && products[i].selection == Run(primary, lo, hi)
                              && (products[i].TrailingReturn? ==> hi == |primary.windows|);
      RunInside(primary, products[i].selection, lo, hi);
    }
  }

  /** Every accepted product is a run of consecutive windows of the primary. */
  lemma ProductIsBlock(primary: Selection, products: seq<Product>, i: nat) returns (lo: nat, hi: nat)
    requires Dated(primary) && VectorAccepted(primary) && ScopeAccepted(primary, products) && i < |products|
    ensures lo <= hi <= |primary.windows| && products[i].selection.windows == primary.windows[lo..hi]
  {
    AcceptedTiles(primary);
    lo, hi := InsideIsBlock(primary.windows, products[i].selection.start, products[i].selection.end);
  }

  /** An accepted trailing product is exactly the last `months` windows of the primary. */
  lemma TrailingIsTheEnd(primary: Selection, products: seq<Product>, i: nat)
    requires Dated(primary) && VectorAccepted(primary) && ScopeAccepted(primary, products) && i < |products|
    requires products[i].TrailingReturn? && Dated(products[i].selection) && ProductAccepted(products[i])
    ensures products[i].months <= |primary.windows|
    ensures products[i].selection.windows == primary.windows[|primary.windows| - products[i].months..]
  {
    var lo, hi := ProductIsBlock(primary, products, i);
    BlockToTheEnd(primary, products[i].selection, lo, hi);
  }

  /** A run of windows that ends when the horizon does goes to the last window. */
  lemma BlockToTheEnd(primary: Selection, s: Selection, lo: nat, hi: nat)
    requires Dated(primary) && VectorAccepted(primary) && lo <= hi <= |primary.windows|
    requires s.windows == primary.windows[lo..hi] && s.end == primary.end
    requires |s.windows| >= 1 && s.windows[|s.windows| - 1].end == s.end
    ensures hi == |primary.windows|
  {
    var n := |primary.windows|;
    assert s.windows[|s.windows| - 1] == primary.windows[hi - 1];
    if hi < n { AcceptedInOrder(primary, hi - 1, n - 1); }
  }
}
