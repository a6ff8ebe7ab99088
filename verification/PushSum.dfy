/** Push-sum: nodes halve and pass on mass. In exact arithmetic no mass is lost, the disagreement
    between estimates never grows, and every estimate stays within the contributed values. */
module PushSum {
  import opened Seqs

  datatype Mass = Mass(s: real, w: real)

  /** The peer drawn for one aggregation in one round, if any is alive. */
  datatype Target = Nobody | Peer(id: string)

  datatype Parcel = Parcel(to: string, key: string, mass: Mass)

  // ---- Totals over mass records ----------------------------------------------------------

  function Total(f: Mass -> real, masses: seq<Mass>): real {
    if masses == [] then 0.0 else Total(f, masses[..|masses| - 1]) + f(masses[|masses| - 1])
  }

  function Mul(a: real, x: real): real { a * x }

  function S(m: Mass): real { m.s }
  function W(m: Mass): real { m.w }

  /** The square of the sum over the weight: what disagreement makes larger. */
  function P(m: Mass): real { if m.w > 0.0 then Mul(m.s, m.s / m.w) else 0.0 }

  function Sum(masses: seq<Mass>): Mass {
    Mass(Total(S, masses), Total(W, masses))
  }

  lemma {:induction false} TotalConcat(f: Mass -> real, a: seq<Mass>, b: seq<Mass>)
    ensures Total(f, a + b) == Total(f, a) + Total(f, b)
  {
    if b == [] {
      assert a + b == a;
    } else {
      var n := |b| - 1;
      assert (a + b)[..|a + b| - 1] == a + b[..n];
      TotalConcat(f, a, b[..n]);
    }
  }

  lemma TotalOne(f: Mass -> real, m: Mass)
    ensures Total(f, [m]) == f(m)
  {
    assert [m][..0] == [];
  }

  // ---- One round of one aggregation ------------------------------------------------------

  function Half(m: Mass): Mass {
    Mass(m.s / 2.0, m.w / 2.0)
  }

  /** What stays in the mailbox, and the parcels sent. */
  function Rounded(key: string, masses: seq<Mass>, target: Target): (seq<Mass>, seq<Parcel>) {
    if masses == [] then ([], [])
    else
      var total := Sum(masses);
      var keep := Half(total);
      var send := Mass(total.s - keep.s, total.w - keep.w);
      match target
      case Nobody => ([keep, send], [])
      case Peer(id) => ([keep], [Parcel(id, key, send)])
  }

  function Estimated(prior: map<string, real>, key: string, masses: seq<Mass>): map<string, real> {
    var total := Sum(masses);
    if masses != [] && total.w > 0.0 then prior[key := total.s / total.w] else prior
  }

  // ---- Potential -------------------------------------------------------------------------

  ghost predicate Positive(masses: seq<Mass>) {
    forall i :: 0 <= i < |masses| ==> masses[i].w > 0.0
  }

  /** The weighted square distance of a record's ratio from `t`. */
  function Off(t: real): Mass -> real {
    (m: Mass) => if m.w > 0.0 then Mul(m.w, Mul(m.s / m.w - t, m.s / m.w - t)) else 0.0
  }

  /** The square written out: `a` and `b` stand for twice `t` and its square. */
  ghost predicate Square(t: real, a: real, b: real) {
    a == 2.0 * t && b == Mul(t, t)
  }

  lemma OffExpands(t: real, a: real, b: real, m: Mass)
    requires m.w > 0.0 && Square(t, a, b)
    ensures Off(t)(m) == P(m) - Mul(a, m.s) + Mul(b, m.w)
  {
    var r := m.s / m.w;
    assert m.s == r * m.w;
    assert (r - t) * (r - t) == r * r - a * r + b;
    assert m.w * (r * r) == m.s * r;
    assert m.w * (a * r) == a * m.s;
  }

  lemma OffNonNegative(t: real, m: Mass)
    ensures Off(t)(m) >= 0.0
  {
    if m.w > 0.0 {
      var d := m.s / m.w - t;
      assert Mul(d, d) >= 0.0;
      TimesNonNegative(m.w, Mul(d, d));
    }
  }

  lemma TimesNonNegative(a: real, b: real)
    requires a >= 0.0 && b >= 0.0
    ensures Mul(a, b) >= 0.0
  {
  }

  function Scale(a: real, f: Mass -> real): Mass -> real {
    (m: Mass) => Mul(a, f(m))
  }

  lemma {:induction false} TotalScale(a: real, f: Mass -> real, masses: seq<Mass>)
    ensures Total(Scale(a, f), masses) == Mul(a, Total(f, masses))
  {
    if masses != [] {
      var n := |masses| - 1;
      TotalScale(a, f, masses[..n]);
      TimesSum(a, Total(f, masses[..n]), f(masses[n]));
    }
  }

  lemma TimesSum(a: real, x: real, y: real)
    ensures Mul(a, x + y) == Mul(a, x) + Mul(a, y)
  {
  }

  /** On records with weight, `h` is never negative and is `f` less `g` plus `k`. */
  ghost predicate Splits(h: Mass -> real, f: Mass -> real, g: Mass -> real, k: Mass -> real) {
    forall m: Mass :: m.w > 0.0 ==> h(m) == f(m) - g(m) + k(m) && h(m) >= 0.0
  }

  lemma OffSplitsAt(t: real, a: real, b: real, m: Mass)
    requires Square(t, a, b) && m.w > 0.0
    ensures Off(t)(m) == P(m) - Scale(a, S)(m) + Scale(b, W)(m) && Off(t)(m) >= 0.0
  {
    OffExpands(t, a, b, m);
    assert Off(t)(m) == P(m) - Mul(a, m.s) + Mul(b, m.w);
    assert S(m) == m.s && W(m) == m.w;
    assert Scale(a, S)(m) == Mul(a, S(m));
    assert Scale(b, W)(m) == Mul(b, W(m));
    assert Mul(a, S(m)) == Mul(a, m.s);
    OffNonNegative(t, m);
  }

  lemma OffSplits(t: real, a: real, b: real)
    requires Square(t, a, b)
    ensures Splits(Off(t), P, Scale(a, S), Scale(b, W))
  {
    forall m: Mass | m.w > 0.0
      ensures Off(t)(m) == P(m) - Scale(a, S)(m) + Scale(b, W)(m) && Off(t)(m) >= 0.0
    {
      OffSplitsAt(t, a, b, m);
    }
  }

  lemma {:induction false} TotalSplits(h: Mass -> real, f: Mass -> real, g: Mass -> real, k: Mass -> real, masses: seq<Mass>)
    requires Positive(masses) && Splits(h, f, g, k)
    ensures Total(h, masses) == Total(f, masses) - Total(g, masses) + Total(k, masses)
    ensures Total(h, masses) >= 0.0
  {
    if masses != [] {
      TotalSplits(h, f, g, k, masses[..|masses| - 1]);
    }
  }

  lemma {:induction false} WeightsAdd(masses: seq<Mass>)
    requires Positive(masses)
    ensures masses != [] ==> Total(W, masses) > 0.0
    ensures Total(W, masses) >= 0.0
  {
    if masses != [] {
      WeightsAdd(masses[..|masses| - 1]);
    }
  }

  /** Putting masses together never raises the potential. */
  lemma GatheringLowers(masses: seq<Mass>)
    requires Positive(masses) && masses != []
    ensures P(Sum(masses)) <= Total(P, masses)
  {
    WeightsAdd(masses);
    var s, w := Total(S, masses), Total(W, masses);
    var t := s / w;
    AroundMean(t, 2.0 * t, Mul(t, t), masses);
    AtMean(s, w, 2.0 * t, Mul(t, t));
  }

  lemma AroundMean(t: real, a: real, b: real, masses: seq<Mass>)
    requires Positive(masses) && Square(t, a, b)
    ensures Total(P, masses) >= Mul(a, Total(S, masses)) - Mul(b, Total(W, masses))
  {
    OffSplits(t, a, b);
    TotalSplits(Off(t), P, Scale(a, S), Scale(b, W), masses);
    TotalScale(a, S, masses);
    TotalScale(b, W, masses);
  }

  lemma AtMean(s: real, w: real, a: real, b: real)
    requires w > 0.0 && Square(s / w, a, b)
    ensures Mul(a, s) - Mul(b, w) == P(Mass(s, w))
  {
    var t := s / w;
    assert t * w == s;
    assert b * w == t * (t * w);
    assert a * s == 2.0 * (t * s);
  }

  /** Splitting in half keeps it. */
  lemma HalvingKeeps(m: Mass)
    requires m.w > 0.0
    ensures P(Half(m)) + P(Half(m)) == P(m)
  {
    assert (m.s / 2.0) / (m.w / 2.0) == m.s / m.w;
  }

  lemma HalvesAreWhole(m: Mass)
    ensures Mass(m.s - Half(m).s, m.w - Half(m).w) == Half(m)
  {
  }

  // ---- A swarm, for one aggregation ------------------------------------------------------

  /** `given` is everything ever contributed. */
  datatype World = World(key: string, names: seq<string>, boxes: map<string, seq<Mass>>, net: seq<Parcel>,
                         estimates: map<string, map<string, real>>, given: seq<Mass>)

  datatype Event = Start(n: string, mass: Mass) | Round(n: string, target: Target) | Receive(i: nat)

  ghost predicate Shape(g: World) {
    Walks(g.names, g.boxes.Keys) && g.estimates.Keys == g.boxes.Keys
  }

  /** No parcel goes astray: whoever is drawn is there. */
  ghost predicate Enabled(g: World, e: Event) {
    match e
    case Start(n, _) => n in g.boxes
    case Round(n, target) => n in g.boxes && n in g.estimates && (target.Peer? ==> target.id in g.boxes)
    case Receive(i) => i < |g.net| && g.net[i].to in g.boxes
  }

  ghost function Step(g: World, e: Event): World {
    if !Enabled(g, e) then g
    else match e
      case Start(n, mass) => g.(boxes := g.boxes[n := g.boxes[n] + [mass]], given := g.given + [mass])
      case Round(n, target) =>
        var (kept, sent) := Rounded(g.key, g.boxes[n], target);
        g.(boxes := g.boxes[n := kept], net := g.net + sent,
           estimates := g.estimates[n := Estimated(g.estimates[n], g.key, g.boxes[n])])
      case Receive(i) =>
        var x := g.net[i];
        g.(boxes := g.boxes[x.to := g.boxes[x.to] + [x.mass]], net := g.net[..i] + g.net[i + 1..])
  }

  ghost function Run(g: World, events: seq<Event>): World
    decreases |events|
  {
    if events == [] then g else Run(Step(g, events[0]), events[1..])
  }

  ghost predicate Fresh(g: World) {
    Shape(g) && g.net == [] && g.given == []
    && forall n :: n in g.boxes ==> g.boxes[n] == [] && g.estimates[n] == map[]
  }

  function Masses(net: seq<Parcel>): seq<Mass> {
    if net == [] then [] else Masses(net[..|net| - 1]) + [net[|net| - 1].mass]
  }

  ghost function BoxTotal(f: Mass -> real, boxes: map<string, seq<Mass>>, names: seq<string>): real {
    if names == [] then 0.0
    else
      var n := |names| - 1;
      BoxTotal(f, boxes, names[..n]) + if names[n] in boxes then Total(f, boxes[names[n]]) else 0.0
  }

  /** Over every mass record there is: in a mailbox or in flight. */
  ghost function Grand(f: Mass -> real, g: World): real {
    BoxTotal(f, g.boxes, g.names) + Total(f, Masses(g.net))
  }

  lemma {:induction false} BoxUpdate(f: Mass -> real, boxes: map<string, seq<Mass>>, names: seq<string>, n: string, box: seq<Mass>)
    requires NoRepeats(names) && n in boxes
    ensures BoxTotal(f, boxes[n := box], names) ==
              BoxTotal(f, boxes, names) + if n in names then Total(f, box) - Total(f, boxes[n]) else 0.0
  {
    if names != [] {
      var k := |names| - 1;
      BoxUpdate(f, boxes, names[..k], n, box);
      assert names == names[..k] + [names[k]];
    }
  }

  lemma {:induction false} MassesConcat(a: seq<Parcel>, b: seq<Parcel>)
    ensures Masses(a + b) == Masses(a) + Masses(b)
  {
    if b == [] {
      assert a + b == a;
    } else {
      var n := |b| - 1;
      assert (a + b)[..|a + b| - 1] == a + b[..n];
      MassesConcat(a, b[..n]);
    }
  }

  lemma MassesOne(x: Parcel)
    ensures Masses([x]) == [x.mass]
  {
    assert [x][..0] == [];
  }

  // ---- What a step does to any total -----------------------------------------------------

  lemma StartTotal(f: Mass -> real, g: World, n: string, mass: Mass)
    requires Shape(g) && n in g.boxes
    ensures Grand(f, Step(g, Start(n, mass))) == Grand(f, g) + f(mass)
  {
    BoxUpdate(f, g.boxes, g.names, n, g.boxes[n] + [mass]);
    TotalConcat(f, g.boxes[n], [mass]);
    TotalOne(f, mass);
  }

  lemma ReceiveTotal(f: Mass -> real, g: World, i: nat)
    requires Shape(g) && Enabled(g, Receive(i))
    ensures Grand(f, Step(g, Receive(i))) == Grand(f, g)
  {
    var x, a, b := g.net[i], g.net[..i], g.net[i + 1..];
    BoxUpdate(f, g.boxes, g.names, x.to, g.boxes[x.to] + [x.mass]);
    TotalConcat(f, g.boxes[x.to], [x.mass]);
    TotalOne(f, x.mass);
    SplitAt(g.net, i);
    PartsTotal(f, a, x, b);
  }

  lemma PartsTotal(f: Mass -> real, a: seq<Parcel>, x: Parcel, b: seq<Parcel>)
    ensures Total(f, Masses((a + [x]) + b)) == Total(f, Masses(a + b)) + f(x.mass)
  {
    MassesConcat(a + [x], b);
    MassesConcat(a, [x]);
    MassesConcat(a, b);
    MassesOne(x);
    TotalConcat(f, Masses(a) + [x.mass], Masses(b));
    TotalConcat(f, Masses(a), [x.mass]);
    TotalConcat(f, Masses(a), Masses(b));
    TotalOne(f, x.mass);
  }

  /** The two halves, wherever they go. */
  lemma RoundedTotal(f: Mass -> real, key: string, masses: seq<Mass>, target: Target)
    requires masses != []
    ensures var (kept, sent) := Rounded(key, masses, target);
            Total(f, kept) + Total(f, Masses(sent)) == f(Half(Sum(masses))) + f(Half(Sum(masses)))
  {
    var half := Half(Sum(masses));
    HalvesAreWhole(Sum(masses));
    TotalOne(f, half);
    match target
    case Nobody =>
      TotalConcat(f, [half], [half]);
      assert [half, half] == [half] + [half];
    case Peer(id) =>
      MassesOne(Parcel(id, key, half));
  }

  lemma MovedTotal(f: Mass -> real, g: World, n: string, kept: seq<Mass>, sent: seq<Parcel>)
    requires Shape(g) && n in g.boxes
    ensures Grand(f, g.(boxes := g.boxes[n := kept], net := g.net + sent))
            == Grand(f, g) - Total(f, g.boxes[n]) + Total(f, kept) + Total(f, Masses(sent))
  {
    BoxUpdate(f, g.boxes, g.names, n, kept);
    MassesConcat(g.net, sent);
    TotalConcat(f, Masses(g.net), Masses(sent));
  }

  /** A round replaces the masses of a mailbox by two halves of their sum. */
  lemma RoundTotal(f: Mass -> real, g: World, n: string, target: Target)
    requires Shape(g) && Enabled(g, Round(n, target)) && g.boxes[n] != []
    ensures Grand(f, Step(g, Round(n, target))) ==
              Grand(f, g) - Total(f, g.boxes[n]) + f(Half(Sum(g.boxes[n]))) + f(Half(Sum(g.boxes[n])))
  {
    RoundedTotal(f, g.key, g.boxes[n], target);
    MovedTotal(f, g, n, Rounded(g.key, g.boxes[n], target).0, Rounded(g.key, g.boxes[n], target).1);
  }

  // ---- Conservation ----------------------------------------------------------------------

  /** Two halves of the sum count for as much as the masses added up. */
  ghost predicate Halves(f: Mass -> real, masses: seq<Mass>) {
    f(Half(Sum(masses))) + f(Half(Sum(masses))) == Total(f, masses)
  }

  ghost predicate Linear(f: Mass -> real) {
    forall masses: seq<Mass> :: Halves(f, masses)
  }

  lemma {:induction false} Conserved(f: Mass -> real, g: World, events: seq<Event>)
    requires Shape(g) && Linear(f) && Grand(f, g) == Total(f, g.given)
    ensures var h := Run(g, events); Shape(h) && Grand(f, h) == Total(f, h.given)
    decreases |events|
  {
    if events != [] {
      ConservedStep(f, g, events[0]);
      Conserved(f, Step(g, events[0]), events[1..]);
    }
  }

  lemma ConservedStep(f: Mass -> real, g: World, e: Event)
    requires Shape(g) && Linear(f) && Grand(f, g) == Total(f, g.given)
    ensures var h := Step(g, e); Shape(h) && Grand(f, h) == Total(f, h.given)
  {
    if Enabled(g, e) {
      match e
      case Start(n, mass) =>
        StartTotal(f, g, n, mass);
        TotalConcat(f, g.given, [mass]);
        TotalOne(f, mass);
      case Round(n, target) =>
        if g.boxes[n] != [] {
          RoundTotal(f, g, n, target);
          assert Halves(f, g.boxes[n]);
        } else {
          EmptyRound(g, n, target);
        }
      case Receive(i) =>
        ReceiveTotal(f, g, i);
    }
  }

  lemma EmptyRound(g: World, n: string, target: Target)
    requires Shape(g) && Enabled(g, Round(n, target)) && g.boxes[n] == []
    ensures Step(g, Round(n, target)) == g
  {
    assert g.net + [] == g.net;
    assert g.boxes[n := []] == g.boxes && g.estimates[n := g.estimates[n]] == g.estimates;
  }

  lemma {:induction false} FreshTotal(f: Mass -> real, boxes: map<string, seq<Mass>>, names: seq<string>)
    requires forall n :: n in boxes ==> boxes[n] == []
    ensures BoxTotal(f, boxes, names) == 0.0
  {
    if names != [] {
      FreshTotal(f, boxes, names[..|names| - 1]);
    }
  }

  lemma SAndWLinear()
    ensures Linear(S) && Linear(W)
  {
  }

  lemma FreshGrand(f: Mass -> real, g: World)
    requires Fresh(g)
    ensures Grand(f, g) == 0.0 && Total(f, g.given) == 0.0
  {
    FreshTotal(f, g.boxes, g.names);
  }

  lemma FreshConserved(f: Mass -> real, g: World, events: seq<Event>)
    requires Fresh(g) && Linear(f)
    ensures var h := Run(g, events); Shape(h) && Grand(f, h) == Total(f, h.given)
  {
    FreshGrand(f, g);
    Conserved(f, g, events);
  }

  /** No mass is made or lost: after any run the values and weights in all mailboxes and in flight
      add up to what was contributed. */
  lemma MassIsConserved(g: World, events: seq<Event>)
    requires Fresh(g)
    ensures var h := Run(g, events); Grand(S, h) == Total(S, h.given) && Grand(W, h) == Total(W, h.given)
  {
    SAndWLinear();
    FreshConserved(S, g, events);
    FreshConserved(W, g, events);
  }

  // ---- The aggregator object -------------------------------------------------------------

  /** The parcels of a whole round, aggregation by aggregation. */
  function AllSent(inbox: map<string, seq<Mass>>, keys: seq<string>, pick: string -> Target): seq<Parcel> {
    if keys == [] then []
    else
      var n := |keys| - 1;
      AllSent(inbox, keys[..n], pick)
      + if keys[n] in inbox then Rounded(keys[n], inbox[keys[n]], pick(keys[n])).1 else []
  }

  function AllEstimated(prior: map<string, real>, inbox: map<string, seq<Mass>>, keys: seq<string>): map<string, real> {
    if keys == [] then prior
    else
      var n := |keys| - 1;
      var before := AllEstimated(prior, inbox, keys[..n]);
      if keys[n] in inbox then Estimated(before, keys[n], inbox[keys[n]]) else before
  }

  /** The parcels of one aggregation. */
  function ParcelsOf(sent: seq<Parcel>, k: string): seq<Parcel> {
    if sent == [] then []
    else ParcelsOf(sent[..|sent| - 1], k) + if sent[|sent| - 1].key == k then [sent[|sent| - 1]] else []
  }

  lemma {:induction false} ParcelsConcat(a: seq<Parcel>, b: seq<Parcel>, k: string)
    ensures ParcelsOf(a + b, k) == ParcelsOf(a, k) + ParcelsOf(b, k)
  {
    if b == [] {
      assert a + b == a;
    } else {
      var n := |b| - 1;
      assert (a + b)[..|a + b| - 1] == a + b[..n];
      ParcelsConcat(a, b[..n], k);
    }
  }

  /** What one aggregation goes through in a round: an empty mailbox does nothing; else half of the
      mass stays, and half goes to the peer drawn in one parcel, or stays too when nobody is there. */
  ghost predicate Halved(k: string, box: seq<Mass>, target: Target, kept: seq<Mass>, parcels: seq<Parcel>) {
    && (box == [] ==> kept == [] && parcels == [])
    && (target.Nobody? ==> parcels == [])
    && (box != [] && target.Peer? ==> |parcels| == 1 && parcels[0].to == target.id && parcels[0].key == k
                                      && |kept| == 1 && kept[0] == parcels[0].mass)
    && Total(S, kept) + Total(S, Masses(parcels)) == Total(S, box)
    && Total(W, kept) + Total(W, Masses(parcels)) == Total(W, box)
  }

  lemma RoundedHalves(k: string, box: seq<Mass>, target: Target)
    ensures Halved(k, box, target, Rounded(k, box, target).0, Rounded(k, box, target).1)
    ensures forall x :: x in Rounded(k, box, target).1 ==> x.key == k
  {
    if box != [] {
      RoundedTotal(S, k, box, target);
      RoundedTotal(W, k, box, target);
      HalvesAreWhole(Sum(box));
    }
  }

  lemma {:induction false} OwnParcels(sent: seq<Parcel>, k: string, j: string)
    requires forall x :: x in sent ==> x.key == k
    ensures ParcelsOf(sent, j) == if j == k then sent else []
  {
    if sent != [] {
      var n := |sent| - 1;
      OwnParcels(sent[..n], k, j);
      assert sent[n] in sent && sent == sent[..n] + [sent[n]];
    }
  }

  /** Over a whole round each aggregation sends its own parcels and no others, wherever it comes in
      the walk. */
  lemma {:induction false} SentOf(inbox: map<string, seq<Mass>>, keys: seq<string>, pick: string -> Target, k: string)
    requires NoRepeats(keys)
    ensures ParcelsOf(AllSent(inbox, keys, pick), k) == if k in keys && k in inbox then Rounded(k, inbox[k], pick(k)).1 else []
    ensures forall x :: x in AllSent(inbox, keys, pick) ==> x.key in keys && x.key in inbox
  {
    if keys != [] {
      var n := |keys| - 1;
      SentOf(inbox, keys[..n], pick, k);
      assert keys == keys[..n] + [keys[n]];
      var more := if keys[n] in inbox then Rounded(keys[n], inbox[keys[n]], pick(keys[n])).1 else [];
      ParcelsConcat(AllSent(inbox, keys[..n], pick), more, k);
      if keys[n] in inbox { RoundedHalves(keys[n], inbox[keys[n]], pick(keys[n])); }
      OwnParcels(more, keys[n], k);
    }
  }

  lemma RoundShares(inbox: map<string, seq<Mass>>, keys: seq<string>, pick: string -> Target)
    requires Walks(keys, inbox.Keys)
    ensures forall k :: k in inbox ==> Halved(k, inbox[k], pick(k), Rounded(k, inbox[k], pick(k)).0, ParcelsOf(AllSent(inbox, keys, pick), k))
    ensures forall x :: x in AllSent(inbox, keys, pick) ==> x.key in inbox
  {
    forall k | k in inbox ensures Halved(k, inbox[k], pick(k), Rounded(k, inbox[k], pick(k)).0, ParcelsOf(AllSent(inbox, keys, pick), k)) {
      SentOf(inbox, keys, pick, k);
      RoundedHalves(k, inbox[k], pick(k));
    }
    SentOf(inbox, keys, pick, "");
  }

  /** A round leaves the estimates of all other keys alone: those of aggregations with no weight at
      hand, and those of no aggregation. */
  lemma {:induction false} EstimateStays(prior: map<string, real>, inbox: map<string, seq<Mass>>, keys: seq<string>, k: string)
    requires k in keys && k in inbox ==> inbox[k] == [] || Sum(inbox[k]).w <= 0.0
    ensures k in AllEstimated(prior, inbox, keys) <==> k in prior
    ensures k in prior ==> AllEstimated(prior, inbox, keys)[k] == prior[k]
  {
    if keys != [] {
      assert keys == keys[..|keys| - 1] + [keys[|keys| - 1]];
      EstimateStays(prior, inbox, keys[..|keys| - 1], k);
    }
  }

  /** Every aggregation with weight at hand gets the ratio of its own mailbox as its estimate. */
  lemma {:induction false} EstimateOf(prior: map<string, real>, inbox: map<string, seq<Mass>>, keys: seq<string>, k: string)
    requires NoRepeats(keys) && k in keys && k in inbox && inbox[k] != [] && Sum(inbox[k]).w > 0.0
    ensures k in AllEstimated(prior, inbox, keys)
    ensures AllEstimated(prior, inbox, keys)[k] == Sum(inbox[k]).s / Sum(inbox[k]).w
  {
    var n := |keys| - 1;
    assert keys == keys[..n] + [keys[n]];
    if k != keys[n] {
      EstimateOf(prior, inbox, keys[..n], k);
    }
  }

  /** `pick(key)` is the alive peer drawn for the aggregation `key` in this round. */
  class PushSumAggregator {
    var inbox: map<string, seq<Mass>>
    var estimate: map<string, real>

    constructor ()
      ensures inbox == map[] && estimate == map[]
    {
      inbox, estimate := map[], map[];
    }

    method Start(key: string, value: real, weight: real)
      modifies this`inbox
      ensures inbox == old(inbox)[key := (if key in old(inbox) then old(inbox)[key] else []) + [Mass(value, weight)]]
    {
      var box := if key in inbox then inbox[key] else [];
      inbox := inbox[key := box + [Mass(value, weight)]];
    }

    method OnMessage(key: string, s: real, w: real)
      modifies this`inbox
      ensures inbox == old(inbox)[key := (if key in old(inbox) then old(inbox)[key] else []) + [Mass(s, w)]]
    {
      var box := if key in inbox then inbox[key] else [];
      inbox := inbox[key := box + [Mass(s, w)]];
    }

    method AddUp(masses: seq<Mass>) returns (total: Mass)
      ensures total == Sum(masses)
    {
      total := Mass(0.0, 0.0);
      for i := 0 to |masses|
        invariant total == Sum(masses[..i])
      {
        assert masses[..i + 1][..i] == masses[..i];
        total := Mass(total.s + masses[i].s, total.w + masses[i].w);
      }
      assert masses[..|masses|] == masses;
    }

    /** The round of one aggregation. */
    method RoundKey(key: string, target: Target) returns (sent: seq<Parcel>)
      requires key in inbox
      modifies this
      ensures inbox == old(inbox)[key := Rounded(key, old(inbox)[key], target).0]
      ensures sent == Rounded(key, old(inbox)[key], target).1
      ensures estimate == Estimated(old(estimate), key, old(inbox)[key])
    {
      sent := [];
      var masses := inbox[key];
      if masses == [] {
        assert inbox == inbox[key := []];
        return;
      }
      var total := AddUp(masses);
      if total.w > 0.0 {
        estimate := estimate[key := total.s / total.w];
      }
      var keep := Mass(total.s / 2.0, total.w / 2.0);
      var send := Mass(total.s - keep.s, total.w - keep.w);
      var kept := [keep];
      match target {
        case Nobody => kept := kept + [send];
        case Peer(id) => sent := [Parcel(id, key, send)];
      }
      assert kept == Rounded(key, masses, target).0;
      inbox := inbox[key := kept];
    }

    /** The aggregations do not touch one another: each is rounded from its own mailbox alone. */
    method Round(pick: string -> Target) returns (sent: seq<Parcel>, ghost walked: seq<string>)
      modifies this
      ensures Walks(walked, old(inbox).Keys) && inbox.Keys == old(inbox).Keys
      ensures forall k :: k in inbox ==> inbox[k] == Rounded(k, old(inbox)[k], pick(k)).0
      ensures estimate == AllEstimated(old(estimate), old(inbox), walked)
      ensures sent == AllSent(old(inbox), walked, pick)
      ensures forall k :: k in inbox ==> Halved(k, old(inbox)[k], pick(k), inbox[k], ParcelsOf(sent, k))
      ensures forall x :: x in sent ==> x.key in inbox
    {
      ghost var before := inbox;
      sent, walked := [], [];
      var todo := inbox.Keys;
      while todo != {}
        invariant todo <= before.Keys && Walks(walked, before.Keys - todo) && inbox.Keys == before.Keys
        invariant forall k :: k in inbox ==> inbox[k] == if k in todo then before[k] else Rounded(k, before[k], pick(k)).0
        invariant estimate == AllEstimated(old(estimate), before, walked)
        invariant sent == AllSent(before, walked, pick)
      {
        var key :| key in todo;
        todo := todo - {key};
        assert (walked + [key])[..|walked|] == walked;
        walked := walked + [key];
        var parcels := RoundKey(key, pick(key));
        sent := sent + parcels;
      }
      RoundShares(before, walked, pick);
    }
  }
}
