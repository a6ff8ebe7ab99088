/** With positive weights, push-sum disagreement only falls, never below its floor, and sits on the
    floor exactly when all records agree; estimates stay between the contributed ratios. */
module PushSumPotential {
  import opened PushSum

  ghost predicate AllPositive(g: World) {
    && (forall n :: n in g.boxes ==> Positive(g.boxes[n]))
    && forall i :: 0 <= i < |g.net| ==> g.net[i].mass.w > 0.0
  }

  ghost predicate PositiveStart(e: Event) {
    e.Start? ==> e.mass.w > 0.0
  }

  lemma RoundedPositive(key: string, masses: seq<Mass>, target: Target)
    requires Positive(masses)
    ensures var (kept, sent) := Rounded(key, masses, target);
            Positive(kept) && forall i :: 0 <= i < |sent| ==> sent[i].mass.w > 0.0
  {
    WeightsAdd(masses);
  }

  lemma StepPositive(g: World, e: Event)
    requires AllPositive(g) && PositiveStart(e)
    ensures AllPositive(Step(g, e))
  {
    if Enabled(g, e) && e.Round? {
      RoundedPositive(g.key, g.boxes[e.n], e.target);
    }
  }

  // ---- The potential ---------------------------------------------------------------------

  /** Rounds and deliveries never raise the potential; a contribution adds exactly its own. */
  lemma PotentialFalls(g: World, e: Event)
    requires Shape(g) && AllPositive(g) && PositiveStart(e)
    ensures if Enabled(g, e) && e.Start? then Grand(P, Step(g, e)) == Grand(P, g) + P(e.mass)
            else Grand(P, Step(g, e)) <= Grand(P, g)
  {
    if Enabled(g, e) {
      match e
      case Start(n, mass) => StartTotal(P, g, n, mass);
      case Round(n, target) =>
        if g.boxes[n] != [] {
          RoundTotal(P, g, n, target);
          GatheringLowers(g.boxes[n]);
          WeightsAdd(g.boxes[n]);
          HalvingKeeps(Sum(g.boxes[n]));
        } else {
          EmptyRound(g, n, target);
        }
      case Receive(i) => ReceiveTotal(P, g, i);
    }
  }

  lemma {:induction false} BoxSplits(h: Mass -> real, f: Mass -> real, g: Mass -> real, k: Mass -> real,
                                     boxes: map<string, seq<Mass>>, names: seq<string>)
    requires Splits(h, f, g, k) && forall n :: n in boxes ==> Positive(boxes[n])
    ensures BoxTotal(h, boxes, names) == BoxTotal(f, boxes, names) - BoxTotal(g, boxes, names) + BoxTotal(k, boxes, names)
    ensures BoxTotal(h, boxes, names) >= 0.0
  {
    if names != [] {
      var n := |names| - 1;
      BoxSplits(h, f, g, k, boxes, names[..n]);
      if names[n] in boxes {
        TotalSplits(h, f, g, k, boxes[names[n]]);
      }
    }
  }

  lemma {:induction false} BoxScale(a: real, f: Mass -> real, boxes: map<string, seq<Mass>>, names: seq<string>)
    ensures BoxTotal(Scale(a, f), boxes, names) == Mul(a, BoxTotal(f, boxes, names))
  {
    if names != [] {
      var n := |names| - 1;
      BoxScale(a, f, boxes, names[..n]);
      if names[n] in boxes {
        TotalScale(a, f, boxes[names[n]]);
        TimesSum(a, BoxTotal(f, boxes, names[..n]), Total(f, boxes[names[n]]));
      }
    }
  }

  lemma GrandScale(a: real, f: Mass -> real, g: World)
    ensures Grand(Scale(a, f), g) == Mul(a, Grand(f, g))
  {
    BoxScale(a, f, g.boxes, g.names);
    TotalScale(a, f, Masses(g.net));
    TimesSum(a, BoxTotal(f, g.boxes, g.names), Total(f, Masses(g.net)));
  }

  lemma {:induction false} MassesAt(net: seq<Parcel>)
    ensures |Masses(net)| == |net| && forall i :: 0 <= i < |net| ==> Masses(net)[i] == net[i].mass
  {
    if net != [] {
      MassesAt(net[..|net| - 1]);
    }
  }

  /** The whole disagreement around `t`. */
  lemma OffGrand(t: real, a: real, b: real, g: World)
    requires AllPositive(g) && Square(t, a, b)
    ensures Grand(Off(t), g) == Grand(P, g) - Grand(Scale(a, S), g) + Grand(Scale(b, W), g)
    ensures BoxTotal(Off(t), g.boxes, g.names) >= 0.0 && Total(Off(t), Masses(g.net)) >= 0.0
  {
    MassesAt(g.net);
    OffSplits(t, a, b);
    BoxSplits(Off(t), P, Scale(a, S), Scale(b, W), g.boxes, g.names);
    TotalSplits(Off(t), P, Scale(a, S), Scale(b, W), Masses(g.net));
  }

  /** The floor: the square of all the mass over all the weight. */
  ghost function Floor(g: World): real {
    P(Mass(Grand(S, g), Grand(W, g)))
  }

  ghost function Mean(g: World): real
    requires Grand(W, g) > 0.0
  {
    Grand(S, g) / Grand(W, g)
  }

  lemma OffAround(t: real, a: real, b: real, g: World)
    requires AllPositive(g) && Square(t, a, b)
    ensures Grand(Off(t), g) == Grand(P, g) - (Mul(a, Grand(S, g)) - Mul(b, Grand(W, g)))
    ensures BoxTotal(Off(t), g.boxes, g.names) >= 0.0 && Total(Off(t), Masses(g.net)) >= 0.0
  {
    OffGrand(t, a, b, g);
    GrandScale(a, S, g);
    GrandScale(b, W, g);
  }

  lemma AboveFloorBy(g: World)
    requires AllPositive(g) && Grand(W, g) > 0.0
    ensures Grand(P, g) - Floor(g) == Grand(Off(Mean(g)), g)
    ensures BoxTotal(Off(Mean(g)), g.boxes, g.names) >= 0.0 && Total(Off(Mean(g)), Masses(g.net)) >= 0.0
  {
    var t := Mean(g);
    OffAround(t, 2.0 * t, Mul(t, t), g);
    AtMean(Grand(S, g), Grand(W, g), 2.0 * t, Mul(t, t));
  }

  lemma TotalNotNegative(t: real, masses: seq<Mass>)
    requires Positive(masses)
    ensures Total(Off(t), masses) >= 0.0
  {
    OffSplits(t, 2.0 * t, Mul(t, t));
    TotalSplits(Off(t), P, Scale(2.0 * t, S), Scale(Mul(t, t), W), masses);
  }

  lemma {:induction false} NoneOff(t: real, masses: seq<Mass>)
    requires Positive(masses) && Total(Off(t), masses) == 0.0
    ensures forall i :: 0 <= i < |masses| ==> masses[i].s == Mul(t, masses[i].w)
  {
    if masses != [] {
      var n := |masses| - 1;
      TotalNotNegative(t, masses[..n]);
      OffNonNegative(t, masses[n]);
      OffZero(t, masses[n]);
      NoneOff(t, masses[..n]);
    }
  }

  lemma OffZero(t: real, m: Mass)
    requires m.w > 0.0 && Off(t)(m) == 0.0
    ensures m.s == Mul(t, m.w)
  {
    var d := m.s / m.w - t;
    ZeroFactor(m.w, d);
    assert m.s == (m.s / m.w) * m.w;
  }

  lemma ZeroFactor(w: real, d: real)
    requires w > 0.0 && Mul(w, Mul(d, d)) == 0.0
    ensures d == 0.0
  {
    if d != 0.0 {
      SquarePositive(d);
      PositiveTimes(w, Mul(d, d));
      assert false;
    }
  }

  lemma SquarePositive(d: real)
    requires d != 0.0
    ensures Mul(d, d) > 0.0
  {
    if d > 0.0 {
      PositiveTimes(d, d);
    } else {
      PositiveTimes(-d, -d);
      assert Mul(-d, -d) == Mul(d, d);
    }
  }

  lemma PositiveTimes(a: real, b: real)
    requires a > 0.0 && b > 0.0
    ensures Mul(a, b) > 0.0
  {
  }

  lemma {:induction false} NoneOffBoxes(t: real, boxes: map<string, seq<Mass>>, names: seq<string>, n: string)
    requires forall k :: k in boxes ==> Positive(boxes[k])
    requires BoxTotal(Off(t), boxes, names) == 0.0 && n in names && n in boxes
    ensures Total(Off(t), boxes[n]) == 0.0
  {
    var k := |names| - 1;
    OffSplits(t, 2.0 * t, Mul(t, t));
    BoxSplits(Off(t), P, Scale(2.0 * t, S), Scale(Mul(t, t), W), boxes, names[..k]);
    if names[k] in boxes {
      TotalNotNegative(t, boxes[names[k]]);
    }
    if n != names[k] {
      assert names == names[..k] + [names[k]];
      NoneOffBoxes(t, boxes, names[..k], n);
    }
  }

  ghost predicate Agree(t: real, masses: seq<Mass>) {
    forall i :: 0 <= i < |masses| ==> masses[i].s == Mul(t, masses[i].w)
  }

  ghost predicate AllAgree(t: real, g: World) {
    (forall n :: n in g.boxes ==> Agree(t, g.boxes[n])) && Agree(t, Masses(g.net))
  }

  lemma RatioIs(t: real, m: Mass)
    requires m.w > 0.0 && m.s == Mul(t, m.w)
    ensures P(m) == Mul(t, m.s) && m.s / m.w == t
  {
    assert m.s / m.w == t;
    assert Mul(m.s, t) == Mul(t, m.s);
  }

  lemma {:induction false} TotalAgrees(t: real, masses: seq<Mass>)
    requires Positive(masses) && Agree(t, masses)
    ensures Total(S, masses) == Mul(t, Total(W, masses)) && Total(P, masses) == Mul(t, Total(S, masses))
  {
    if masses != [] {
      var n := |masses| - 1;
      TotalAgrees(t, masses[..n]);
      RatioIs(t, masses[n]);
      TimesSum(t, Total(W, masses[..n]), masses[n].w);
      TimesSum(t, Total(S, masses[..n]), masses[n].s);
    }
  }

  lemma {:induction false} BoxesAgree(t: real, boxes: map<string, seq<Mass>>, names: seq<string>)
    requires forall n :: n in boxes ==> Positive(boxes[n]) && Agree(t, boxes[n])
    ensures BoxTotal(S, boxes, names) == Mul(t, BoxTotal(W, boxes, names))
    ensures BoxTotal(P, boxes, names) == Mul(t, BoxTotal(S, boxes, names))
  {
    if names != [] {
      var n := |names| - 1;
      BoxesAgree(t, boxes, names[..n]);
      if names[n] in boxes {
        var box := boxes[names[n]];
        TotalAgrees(t, box);
        TimesSum(t, BoxTotal(W, boxes, names[..n]), Total(W, box));
        TimesSum(t, BoxTotal(S, boxes, names[..n]), Total(S, box));
      }
    }
  }

  lemma NothingOff(t: real, g: World)
    requires Shape(g) && AllPositive(g) && Grand(Off(t), g) == 0.0
    requires BoxTotal(Off(t), g.boxes, g.names) >= 0.0 && Total(Off(t), Masses(g.net)) >= 0.0
    ensures AllAgree(t, g)
  {
    forall n | n in g.boxes ensures Agree(t, g.boxes[n]) {
      NoneOffBoxes(t, g.boxes, g.names, n);
      NoneOff(t, g.boxes[n]);
    }
    MassesAt(g.net);
    NoneOff(t, Masses(g.net));
  }

  /** The potential is on the floor exactly when every record, in a mailbox or in flight, has one
      and the same ratio, the mean of everything. */
  lemma FloorIsAgreement(g: World)
    requires Shape(g) && AllPositive(g) && Grand(W, g) > 0.0
    ensures Grand(P, g) == Floor(g) <==> AllAgree(Mean(g), g)
  {
    AboveFloorBy(g);
    if Grand(P, g) == Floor(g) {
      NothingOff(Mean(g), g);
    }
    if AllAgree(Mean(g), g) {
      AgreementIsFloor(g, Mean(g));
    }
  }

  /** When all records agree at all, it is on the mean, and the potential is on the floor. */
  lemma AgreementIsFloor(g: World, t: real)
    requires AllPositive(g) && AllAgree(t, g) && Grand(W, g) > 0.0
    ensures Grand(P, g) == Floor(g) && Mean(g) == t
  {
    MassesAt(g.net);
    BoxesAgree(t, g.boxes, g.names);
    TotalAgrees(t, Masses(g.net));
    TimesSum(t, BoxTotal(W, g.boxes, g.names), Total(W, Masses(g.net)));
    TimesSum(t, BoxTotal(S, g.boxes, g.names), Total(S, Masses(g.net)));
    RatioIs(t, Mass(Grand(S, g), Grand(W, g)));
  }

  ghost predicate PositiveStarts(events: seq<Event>) {
    forall i :: 0 <= i < |events| ==> PositiveStart(events[i])
  }

  lemma {:induction false} PotentialRun(g: World, events: seq<Event>)
    requires Shape(g) && AllPositive(g) && PositiveStarts(events) && Grand(P, g) <= Total(P, g.given)
    ensures var h := Run(g, events); Shape(h) && AllPositive(h) && Grand(P, h) <= Total(P, h.given)
    decreases |events|
  {
    if events != [] {
      var e := events[0];
      PotentialFalls(g, e);
      StepPositive(g, e);
      if Enabled(g, e) && e.Start? {
        TotalConcat(P, g.given, [e.mass]);
        TotalOne(P, e.mass);
      }
      PotentialRun(Step(g, e), events[1..]);
    }
  }

  /** Over every run: the potential lies between the floor and what the contributions put in. */
  lemma PotentialBounds(g: World, events: seq<Event>)
    requires Fresh(g) && PositiveStarts(events)
    ensures var h := Run(g, events);
            Grand(P, h) <= Total(P, h.given) && (Grand(W, h) > 0.0 ==> Grand(P, h) >= Floor(h))
  {
    FreshTotal(P, g.boxes, g.names);
    PotentialRun(g, events);
    var h := Run(g, events);
    if Grand(W, h) > 0.0 {
      AboveFloorBy(h);
    }
  }

  // ---- Estimates -------------------------------------------------------------------------

  /** The record's ratio lies between `lo` and `hi`. */
  ghost predicate Within(lo: real, hi: real, m: Mass) {
    m.w > 0.0 && Mul(lo, m.w) <= m.s <= Mul(hi, m.w)
  }

  ghost predicate AllWithin(lo: real, hi: real, masses: seq<Mass>) {
    forall i :: 0 <= i < |masses| ==> Within(lo, hi, masses[i])
  }

  ghost predicate Bounded(lo: real, hi: real, g: World) {
    && g.estimates.Keys == g.boxes.Keys
    && (forall n :: n in g.boxes ==> AllWithin(lo, hi, g.boxes[n]))
    && (forall i :: 0 <= i < |g.net| ==> Within(lo, hi, g.net[i].mass))
    && forall n, k :: n in g.estimates && k in g.estimates[n] ==> lo <= g.estimates[n][k] <= hi
  }

  lemma {:induction false} SumWithin(lo: real, hi: real, masses: seq<Mass>)
    requires AllWithin(lo, hi, masses)
    ensures Mul(lo, Total(W, masses)) <= Total(S, masses) <= Mul(hi, Total(W, masses))
    ensures Total(W, masses) >= 0.0 && (masses != [] ==> Within(lo, hi, Sum(masses)))
  {
    if masses != [] {
      var n := |masses| - 1;
      SumWithin(lo, hi, masses[..n]);
      assert Within(lo, hi, masses[n]);
      TimesSum(lo, Total(W, masses[..n]), masses[n].w);
      TimesSum(hi, Total(W, masses[..n]), masses[n].w);
    }
  }

  lemma Cancel(a: real, b: real, w: real)
    requires w > 0.0 && a * w <= b * w
    ensures a <= b
  {
    assert (b - a) * w >= 0.0;
  }

  lemma RatioWithin(lo: real, hi: real, m: Mass)
    requires Within(lo, hi, m)
    ensures lo <= m.s / m.w <= hi && Within(lo, hi, Half(m))
  {
    var r := m.s / m.w;
    assert r * m.w == m.s;
    Cancel(lo, r, m.w);
    Cancel(r, hi, m.w);
    assert lo * (m.w / 2.0) == (lo * m.w) / 2.0 && hi * (m.w / 2.0) == (hi * m.w) / 2.0;
  }

  lemma RoundWithin(lo: real, hi: real, prior: map<string, real>, key: string, masses: seq<Mass>, target: Target)
    requires AllWithin(lo, hi, masses) && forall k :: k in prior ==> lo <= prior[k] <= hi
    ensures var (kept, sent) := Rounded(key, masses, target);
            AllWithin(lo, hi, kept) && forall i :: 0 <= i < |sent| ==> Within(lo, hi, sent[i].mass)
    ensures forall k :: k in Estimated(prior, key, masses) ==> lo <= Estimated(prior, key, masses)[k] <= hi
  {
    if masses != [] {
      SumWithin(lo, hi, masses);
      RatioWithin(lo, hi, Sum(masses));
      HalvesAreWhole(Sum(masses));
    }
  }

  lemma StepBounded(lo: real, hi: real, g: World, e: Event)
    requires Bounded(lo, hi, g) && (e.Start? ==> Within(lo, hi, e.mass))
    ensures Bounded(lo, hi, Step(g, e))
  {
    if Enabled(g, e) && e.Round? {
      RoundWithin(lo, hi, g.estimates[e.n], g.key, g.boxes[e.n], e.target);
    }
  }

  ghost predicate StartsWithin(lo: real, hi: real, events: seq<Event>) {
    forall i :: 0 <= i < |events| && events[i].Start? ==> Within(lo, hi, events[i].mass)
  }

  lemma {:induction false} RunBounded(lo: real, hi: real, g: World, events: seq<Event>)
    requires Bounded(lo, hi, g) && StartsWithin(lo, hi, events)
    ensures Bounded(lo, hi, Run(g, events))
    decreases |events|
  {
    if events != [] {
      StepBounded(lo, hi, g, events[0]);
      RunBounded(lo, hi, Step(g, events[0]), events[1..]);
    }
  }

  /** Over every run: an estimate is never below the least or above the greatest ratio put in. */
  lemma EstimatesWithinContributions(lo: real, hi: real, g: World, events: seq<Event>, n: string, k: string)
    requires Fresh(g) && StartsWithin(lo, hi, events)
    requires n in Run(g, events).estimates && k in Run(g, events).estimates[n]
    ensures lo <= Run(g, events).estimates[n][k] <= hi
  {
    RunBounded(lo, hi, g, events);
  }
}
