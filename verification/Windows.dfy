/** Overlap checks on price windows and operating hours (PriceSnapshot.check_rule in
    backend/app/modules/pricing/domain.py and LotInformation.no_overlap in
    backend/app/modules/lot_settings/schemas.py). */
module Windows {

  datatype Window = Window(weekday: nat, start: int, end: int)

  /** A window ends after it starts, on a day of the week; the field validators reject any other.
      Price windows have no day; here they are all on day zero. */
  predicate Forward(w: Window) { w.start < w.end && w.weekday < 7 }

  predicate AllForward(ws: seq<Window>) { forall w :: w in ws ==> Forward(w) }

  predicate Disjoint(v: Window, w: Window) { v.end <= w.start || w.end <= v.start }

  ghost predicate PairwiseDisjoint(ws: seq<Window>) {
    forall i, j :: 0 <= i < j < |ws| ==> Disjoint(ws[i], ws[j])
  }

  // ---------------------------------------------------------------------------------------
  // Sorting by start, stably
  // ---------------------------------------------------------------------------------------

  predicate SortedByStart(ws: seq<Window>) {
    forall i, j :: 0 <= i < j < |ws| ==> ws[i].start <= ws[j].start
  }

  function Insert(w: Window, ws: seq<Window>): (r: seq<Window>)
    ensures multiset(r) == multiset(ws) + multiset{w}
    ensures forall x :: x in r <==> x == w || x in ws
  {
    if ws == [] || w.start <= ws[0].start then [w] + ws
    else
      assert ws == [ws[0]] + ws[1..];
      [ws[0]] + Insert(w, ws[1..])
  }

  function SortByStart(ws: seq<Window>): (r: seq<Window>)
    ensures multiset(r) == multiset(ws)
    ensures forall x :: x in r <==> x in ws
  {
    if ws == [] then []
    else
      assert ws == [ws[0]] + ws[1..];
      Insert(ws[0], SortByStart(ws[1..]))
  }

  lemma SortedFirst(w: Window, ws: seq<Window>)
    ensures SortedByStart([w] + ws) <==> SortedByStart(ws) && forall x :: x in ws ==> w.start <= x.start
  {
    var all := [w] + ws;
    if SortedByStart(all) {
      forall x | x in ws ensures w.start <= x.start {
        var k :| 0 <= k < |ws| && ws[k] == x;
        assert all[0].start <= all[k + 1].start;
      }
      forall i, j | 0 <= i < j < |ws| ensures ws[i].start <= ws[j].start {
        assert all[i + 1].start <= all[j + 1].start;
      }
    }
  }

  lemma {:induction false} InsertSorts(w: Window, ws: seq<Window>)
    requires SortedByStart(ws)
    ensures SortedByStart(Insert(w, ws))
  {
    if ws == [] || w.start <= ws[0].start {
      SortedFirst(w, ws);
    } else {
      assert ws == [ws[0]] + ws[1..];
      SortedFirst(ws[0], ws[1..]);
      InsertSorts(w, ws[1..]);
      SortedFirst(ws[0], Insert(w, ws[1..]));
    }
  }

  lemma {:induction false} SortSorts(ws: seq<Window>)
    ensures SortedByStart(SortByStart(ws))
  {
    if ws != [] {
      SortSorts(ws[1..]);
      InsertSorts(ws[0], SortByStart(ws[1..]));
    }
  }

  /** No window of the list overlaps the one after it. */
  predicate NeighboursDisjoint(ws: seq<Window>) {
    forall i :: 0 <= i < |ws| - 1 ==> ws[i].end <= ws[i + 1].start
  }

  // ---------------------------------------------------------------------------------------
  // The two checks
  // ---------------------------------------------------------------------------------------

  predicate PriceWindowsAccepted(ws: seq<Window>) { NeighboursDisjoint(SortByStart(ws)) }

  function OnDay(ws: seq<Window>, day: nat): (r: seq<Window>)
    ensures forall x :: x in r ==> x in ws
  {
    if ws == [] then []
    else (if ws[0].weekday == day then [ws[0]] else []) + OnDay(ws[1..], day)
  }

  predicate OperatingHoursAccepted(ws: seq<Window>) {
    forall day :: 0 <= day < 7 ==> NeighboursDisjoint(SortByStart(OnDay(ws, day)))
  }

  // ---------------------------------------------------------------------------------------
  // They accept exactly the pairwise-disjoint lists
  // ---------------------------------------------------------------------------------------

  ghost predicate Clear(w: Window, ws: seq<Window>) { forall x :: x in ws ==> Disjoint(w, x) }

  lemma PairwiseFirst(w: Window, ws: seq<Window>)
    ensures PairwiseDisjoint([w] + ws) <==> Clear(w, ws) && PairwiseDisjoint(ws)
  {
    var all := [w] + ws;
    if PairwiseDisjoint(all) {
      forall x | x in ws ensures Disjoint(w, x) {
        var k :| 0 <= k < |ws| && ws[k] == x;
        assert Disjoint(all[0], all[k + 1]);
      }
      forall i, j | 0 <= i < j < |ws| ensures Disjoint(ws[i], ws[j]) {
        assert Disjoint(all[i + 1], all[j + 1]);
      }
    }
  }

  lemma {:induction false} InsertKeepsDisjointness(w: Window, ws: seq<Window>)
    ensures PairwiseDisjoint(Insert(w, ws)) <==> Clear(w, ws) && PairwiseDisjoint(ws)
  {
    if ws == [] || w.start <= ws[0].start {
      PairwiseFirst(w, ws);
    } else {
      var rest := Insert(w, ws[1..]);
      assert ws == [ws[0]] + ws[1..];
      InsertKeepsDisjointness(w, ws[1..]);
      PairwiseFirst(ws[0], rest);
      PairwiseFirst(ws[0], ws[1..]);
      assert Clear(ws[0], rest) <==> Clear(ws[0], ws[1..]) && Disjoint(ws[0], w);
      assert Clear(w, ws) <==> Clear(w, ws[1..]) && Disjoint(w, ws[0]);
    }
  }

  lemma {:induction false} SortKeepsDisjointness(ws: seq<Window>)
    ensures PairwiseDisjoint(SortByStart(ws)) <==> PairwiseDisjoint(ws)
  {
    if ws != [] {
      assert ws == [ws[0]] + ws[1..];
      SortKeepsDisjointness(ws[1..]);
      InsertKeepsDisjointness(ws[0], SortByStart(ws[1..]));
      PairwiseFirst(ws[0], ws[1..]);
    }
  }

  lemma {:induction false} NeighboursReach(ws: seq<Window>, i: nat, j: nat)
    requires AllForward(ws) && NeighboursDisjoint(ws) && i < j < |ws|
    ensures ws[i].end <= ws[j].start
  {
    if i < j - 1 {
      NeighboursReach(ws, i, j - 1);
      assert Forward(ws[j - 1]);
    }
  }

  lemma NeighboursSuffice(ws: seq<Window>)
    requires AllForward(ws) && SortedByStart(ws)
    ensures NeighboursDisjoint(ws) <==> PairwiseDisjoint(ws)
  {
    if NeighboursDisjoint(ws) {
      forall i, j | 0 <= i < j < |ws| ensures Disjoint(ws[i], ws[j]) {
        NeighboursReach(ws, i, j);
      }
    }
    if PairwiseDisjoint(ws) {
      forall i | 0 <= i < |ws| - 1 ensures ws[i].end <= ws[i + 1].start {
        assert Disjoint(ws[i], ws[i + 1]) && Forward(ws[i + 1]);
      }
    }
  }

  lemma PriceWindowsExactly(ws: seq<Window>)
    requires AllForward(ws)
    ensures PriceWindowsAccepted(ws) <==> PairwiseDisjoint(ws)
  {
    SortSorts(ws);
    NeighboursSuffice(SortByStart(ws));
    SortKeepsDisjointness(ws);
  }

  ghost predicate DisjointOnDay(ws: seq<Window>, day: nat) {
    forall i, j :: 0 <= i < j < |ws| && ws[i].weekday == ws[j].weekday == day ==> Disjoint(ws[i], ws[j])
  }

  lemma {:induction false} InOnDay(ws: seq<Window>, day: nat, x: Window)
    ensures x in OnDay(ws, day) <==> x in ws && x.weekday == day
  {
    if ws != [] {
      assert ws == [ws[0]] + ws[1..];
      InOnDay(ws[1..], day, x);
    }
  }

  lemma DisjointOnDayFirst(w: Window, ws: seq<Window>, day: nat)
    ensures DisjointOnDay([w] + ws, day) <==>
              && DisjointOnDay(ws, day)
              && (w.weekday == day ==> forall x :: x in ws && x.weekday == day ==> Disjoint(w, x))
  {
    var all := [w] + ws;
    if DisjointOnDay(all, day) {
      forall x | x in ws && x.weekday == w.weekday == day ensures Disjoint(w, x) {
        var k :| 0 <= k < |ws| && ws[k] == x;
        assert Disjoint(all[0], all[k + 1]);
      }
      forall i, j | 0 <= i < j < |ws| && ws[i].weekday == ws[j].weekday == day
        ensures Disjoint(ws[i], ws[j])
      {
        assert Disjoint(all[i + 1], all[j + 1]);
      }
    }
  }

  lemma {:induction false} OnDayPairwise(ws: seq<Window>, day: nat)
    ensures PairwiseDisjoint(OnDay(ws, day)) <==> DisjointOnDay(ws, day)
  {
    if ws != [] {
      var w, rest := ws[0], ws[1..];
      assert ws == [w] + rest;
      OnDayPairwise(rest, day);
      DisjointOnDayFirst(w, rest, day);
      if w.weekday == day {
        PairwiseFirst(w, OnDay(rest, day));
        forall x ensures x in OnDay(rest, day) <==> x in rest && x.weekday == day {
          InOnDay(rest, day, x);
        }
      } else {
        assert OnDay(ws, day) == OnDay(rest, day);
      }
    }
  }

  /** No two windows of the same weekday overlap. */
  ghost predicate DisjointByDay(ws: seq<Window>) {
    forall i, j :: 0 <= i < j < |ws| && ws[i].weekday == ws[j].weekday ==> Disjoint(ws[i], ws[j])
  }

  lemma OperatingHoursExactly(ws: seq<Window>)
    requires AllForward(ws)
    ensures OperatingHoursAccepted(ws) <==> DisjointByDay(ws)
  {
    forall day | 0 <= day < 7
      ensures NeighboursDisjoint(SortByStart(OnDay(ws, day))) <==> DisjointOnDay(ws, day)
    {
      SortSorts(OnDay(ws, day));
      NeighboursSuffice(SortByStart(OnDay(ws, day)));
      SortKeepsDisjointness(OnDay(ws, day));
      OnDayPairwise(ws, day);
    }
    if OperatingHoursAccepted(ws) {
      forall i, j | 0 <= i < j < |ws| && ws[i].weekday == ws[j].weekday ensures Disjoint(ws[i], ws[j]) {
        assert Forward(ws[i]) && DisjointOnDay(ws, ws[i].weekday);
      }
    }
  }
}
