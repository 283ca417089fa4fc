/** Matching front cushions to cars, best score first, one cushion to a car. */
module Association {
  datatype Kind = Car | Cushion

  datatype Box = Box(x1: int, y1: int, x2: int, y2: int)

  datatype Detection = Detection(kind: Kind, box: Box, confidence: real, track: int)

  /** A car and a cushion by their places in the two lists. */
  datatype Candidate = Candidate(score: real, car: nat, cushion: nat)

  function CenterX(b: Box): real { (b.x1 + b.x2) as real / 2.0 }

  function CenterY(b: Box): real { (b.y1 + b.y2) as real / 2.0 }

  function Diagonal2(b: Box): real {
    ((b.x2 - b.x1) * (b.x2 - b.x1) + (b.y2 - b.y1) * (b.y2 - b.y1)) as real
  }

  /** The cushion's centre lies in the car's box or within 0.6 of its size around it. */
  predicate InsideOrAdjacent(car: Box, cushion: Box) {
    var mx, my := (car.x2 - car.x1) as real * 0.6, (car.y2 - car.y1) as real * 0.6;
    && car.x1 as real - mx <= CenterX(cushion) <= car.x2 as real + mx
    && car.y1 as real - my <= CenterY(cushion) <= car.y2 as real + my
  }

  /** The centres are at most 0.9 of the car's diagonal apart. */
  predicate CloseEnough(car: Box, cushion: Box) {
    var dx, dy := CenterX(cushion) - CenterX(car), CenterY(cushion) - CenterY(car);
    dx * dx + dy * dy <= 0.81 * Diagonal2(car)
  }

  predicate Admissible(car: Detection, cushion: Detection) {
    InsideOrAdjacent(car.box, cushion.box) && CloseEnough(car.box, cushion.box)
  }

  function Select(ds: seq<Detection>, kind: Kind): seq<Detection> {
    if |ds| == 0 then []
    else Select(ds[..|ds| - 1], kind) + (if ds[|ds| - 1].kind == kind then [ds[|ds| - 1]] else [])
  }

  lemma {:induction false} SelectJoins(a: seq<Detection>, b: seq<Detection>, kind: Kind)
    ensures Select(a + b, kind) == Select(a, kind) + Select(b, kind)
    decreases |b|
  {
    if |b| == 0 {
      assert a + b == a;
    } else {
      SelectJoins(a, b[..|b| - 1], kind);
      assert (a + b)[..|a + b| - 1] == a + b[..|b| - 1];
    }
  }

  lemma {:induction false} SelectKeeps(ds: seq<Detection>, kind: Kind, d: Detection)
    ensures multiset(Select(ds, kind))[d] == if d.kind == kind then multiset(ds)[d] else 0
  {
    if |ds| > 0 {
      SelectKeeps(ds[..|ds| - 1], kind, d);
      assert ds == ds[..|ds| - 1] + [ds[|ds| - 1]];
    }
  }

  /** Selecting keeps every detection of the kind as often as it occurs, and no other; parts are selected in order. */
  lemma SelectExactly(ds: seq<Detection>, kind: Kind, d: Detection, cut: nat)
    requires cut <= |ds|
    ensures multiset(Select(ds, kind))[d] == if d.kind == kind then multiset(ds)[d] else 0
    ensures Select(ds, kind) == Select(ds[..cut], kind) + Select(ds[cut..], kind)
  {
    hide Select;
    SelectKeeps(ds, kind, d);
    SelectJoins(ds[..cut], ds[cut..], kind);
    assert ds[..cut] + ds[cut..] == ds;
  }

  /**
   Whether a car and a cushion may be paired, in whole numbers of half pixels: the cushion's centre lies in the car's
   box widened by six tenths of its size on each side, and no farther from its centre than nine tenths of its diagonal.
   */
  lemma AdmissibleExactly(car: Detection, cushion: Detection)
    ensures var a, b := car.box, cushion.box;
      var w, h, x, y := a.x2 - a.x1, a.y2 - a.y1, b.x1 + b.x2, b.y1 + b.y2;
      var dx, dy := x - a.x1 - a.x2, y - a.y1 - a.y2;
      Admissible(car, cushion) <==>
        && 10 * a.x1 - 6 * w <= 5 * x <= 10 * a.x2 + 6 * w
        && 10 * a.y1 - 6 * h <= 5 * y <= 10 * a.y2 + 6 * h
        && 100 * (dx * dx + dy * dy) <= 324 * (w * w + h * h)
  {
    CloseExactly(car.box, cushion.box);
    hide CloseEnough;
  }

  lemma CloseExactly(a: Box, b: Box)
    ensures var w, h := a.x2 - a.x1, a.y2 - a.y1;
      var dx, dy := b.x1 + b.x2 - a.x1 - a.x2, b.y1 + b.y2 - a.y1 - a.y2;
      CloseEnough(a, b) <==> 100 * (dx * dx + dy * dy) <= 324 * (w * w + h * h)
  {
    var dx, dy := b.x1 + b.x2 - a.x1 - a.x2, b.y1 + b.y2 - a.y1 - a.y2;
    HalfSquared(dx);
    HalfSquared(dy);
    assert CenterX(b) - CenterX(a) == dx as real / 2.0 && CenterY(b) - CenterY(a) == dy as real / 2.0;
  }

  lemma HalfSquared(n: int)
    ensures (n as real / 2.0) * (n as real / 2.0) == (n * n) as real / 4.0
  {
  }

  // --- best first ---

  predicate Descending(cs: seq<Candidate>) {
    forall i, j :: 0 <= i < j < |cs| ==> cs[i].score >= cs[j].score
  }

  /** Place a candidate behind every one of at least its score. */
  function Insert(cs: seq<Candidate>, c: Candidate): seq<Candidate> {
    if |cs| == 0 || cs[|cs| - 1].score >= c.score then cs + [c]
    else Insert(cs[..|cs| - 1], c) + [cs[|cs| - 1]]
  }

  /** By descending score, equal scores in their given order. */
  function Sort(cs: seq<Candidate>): seq<Candidate> {
    if |cs| == 0 then [] else Insert(Sort(cs[..|cs| - 1]), cs[|cs| - 1])
  }

  lemma {:induction false} InsertHas(cs: seq<Candidate>, c: Candidate)
    ensures multiset(Insert(cs, c)) == multiset(cs) + multiset{c}
  {
    if |cs| > 0 && cs[|cs| - 1].score < c.score {
      InsertHas(cs[..|cs| - 1], c);
      assert cs == cs[..|cs| - 1] + [cs[|cs| - 1]];
    }
  }

  lemma {:induction false} InsertKeepsOrder(cs: seq<Candidate>, c: Candidate)
    requires Descending(cs)
    ensures Descending(Insert(cs, c))
  {
    if |cs| > 0 && cs[|cs| - 1].score < c.score {
      var front, last := cs[..|cs| - 1], cs[|cs| - 1];
      InsertKeepsOrder(front, c);
      InsertHas(front, c);
      forall i | 0 <= i < |Insert(front, c)|
        ensures Insert(front, c)[i].score >= last.score
      {
        assert Insert(front, c)[i] in multiset(Insert(front, c));
      }
    }
  }

  lemma {:induction false} SortSorts(cs: seq<Candidate>)
    ensures Descending(Sort(cs)) && multiset(Sort(cs)) == multiset(cs)
  {
    if |cs| > 0 {
      SortSorts(cs[..|cs| - 1]);
      InsertKeepsOrder(Sort(cs[..|cs| - 1]), cs[|cs| - 1]);
      InsertHas(Sort(cs[..|cs| - 1]), cs[|cs| - 1]);
      assert cs == cs[..|cs| - 1] + [cs[|cs| - 1]];
    }
  }

  /** The candidates of one score, in list order. */
  function OfScore(cs: seq<Candidate>, score: real): seq<Candidate> {
    if |cs| == 0 then []
    else OfScore(cs[..|cs| - 1], score) + (if cs[|cs| - 1].score == score then [cs[|cs| - 1]] else [])
  }

  lemma {:induction false} InsertIsStable(cs: seq<Candidate>, c: Candidate, score: real)
    requires Descending(cs)
    ensures OfScore(Insert(cs, c), score) == OfScore(cs, score) + (if c.score == score then [c] else [])
  {
    if |cs| > 0 && cs[|cs| - 1].score < c.score {
      var front, last := cs[..|cs| - 1], cs[|cs| - 1];
      InsertIsStable(front, c, score);
      assert (Insert(front, c) + [last])[..|Insert(front, c)|] == Insert(front, c);
    } else {
      assert (cs + [c])[..|cs|] == cs;
    }
  }

  /** Sorting keeps candidates of equal score in their given order. */
  lemma {:induction false} SortIsStable(cs: seq<Candidate>, score: real)
    ensures OfScore(Sort(cs), score) == OfScore(cs, score)
  {
    if |cs| > 0 {
      SortSorts(cs[..|cs| - 1]);
      SortIsStable(cs[..|cs| - 1], score);
      InsertIsStable(Sort(cs[..|cs| - 1]), cs[|cs| - 1], score);
    }
  }

  // --- one to one ---

  predicate Shares(a: Candidate, b: Candidate) { a.car == b.car || a.cushion == b.cushion }

  lemma SharesSymmetric(a: Candidate, b: Candidate)
    ensures Shares(a, b) <==> Shares(b, a)
  {
  }

  predicate Blocked(pairs: seq<Candidate>, c: Candidate) {
    exists p :: p in pairs && Shares(p, c)
  }

  /** Take every candidate in turn unless its car or cushion is already taken. */
  function Greedy(cs: seq<Candidate>): seq<Candidate> {
    if |cs| == 0 then []
    else
      var front, c := Greedy(cs[..|cs| - 1]), cs[|cs| - 1];
      if Blocked(front, c) then front else front + [c]
  }

  ghost predicate OneToOne(pairs: seq<Candidate>) {
    forall i, j :: 0 <= i < j < |pairs| ==> !Shares(pairs[i], pairs[j])
  }

  lemma {:induction false} GreedyIsOneToOne(cs: seq<Candidate>)
    ensures OneToOne(Greedy(cs))
    ensures forall p :: p in Greedy(cs) ==> p in cs
  {
    if |cs| > 0 {
      GreedyIsOneToOne(cs[..|cs| - 1]);
    }
  }

  /** A candidate that is passed over shares its car or cushion with a chosen pair of at least its score. */
  lemma {:induction false} GreedyIsStable(cs: seq<Candidate>, c: Candidate) returns (p: Candidate)
    requires Descending(cs) && c in cs
    ensures p in Greedy(cs) && p.score >= c.score && Shares(p, c)
  {
    var front := cs[..|cs| - 1];
    GreedyIsOneToOne(front);
    if c in front {
      p := GreedyIsStable(front, c);
    } else if Blocked(Greedy(front), c) {
      p :| p in Greedy(front) && Shares(p, c);
      assert p in front;
    } else {
      p := c;
    }
  }

  /** A one-to-one choice that leaves nobody better off: whatever it omits is blocked by something at least as good. */
  ghost predicate StableChoice(cs: seq<Candidate>, chosen: set<Candidate>) {
    && (forall c :: c in chosen ==> c in cs)
    && (forall a, b :: a in chosen && b in chosen && a != b ==> !Shares(a, b))
    && (forall c :: c in cs && c !in chosen ==> exists p :: p in chosen && Shares(p, c) && p.score >= c.score)
  }

  ghost predicate DistinctScores(cs: seq<Candidate>) {
    forall i, j :: 0 <= i < j < |cs| ==> cs[i].score != cs[j].score
  }

  lemma Earlier(cs: seq<Candidate>, k: nat, p: Candidate)
    requires Descending(cs) && DistinctScores(cs) && k < |cs| && p in cs && p != cs[k] && p.score >= cs[k].score
    ensures p in cs[..k]
  {
    var i :| 0 <= i < |cs| && cs[i] == p;
    assert i < k;
    assert cs[..k][i] == p;
  }

  lemma GreedyStep(cs: seq<Candidate>, k: nat)
    requires 0 < k <= |cs|
    ensures var front := Greedy(cs[..k - 1]);
      Greedy(cs[..k]) == if Blocked(front, cs[k - 1]) then front else front + [cs[k - 1]]
  {
    assert cs[..k][..k - 1] == cs[..k - 1];
  }

  /** Nothing chosen in front blocks a chosen candidate, and something does block one that is not chosen. */
  lemma LastIsForced(cs: seq<Candidate>, chosen: set<Candidate>, k: nat)
    requires Descending(cs) && DistinctScores(cs) && StableChoice(cs, chosen) && 0 < k <= |cs|
    requires forall d :: d in cs[..k - 1] ==> (d in chosen <==> d in Greedy(cs[..k - 1]))
    ensures cs[k - 1] in chosen <==> !Blocked(Greedy(cs[..k - 1]), cs[k - 1])
  {
    hide Greedy, Shares;
    var front, last := cs[..k - 1], cs[k - 1];
    GreedyIsOneToOne(front);
    LastIsNew(cs, k);
    if last !in chosen {
      var p :| p in chosen && Shares(p, last) && p.score >= last.score;
      Earlier(cs, k - 1, p);
      assert Blocked(Greedy(front), last);
    } else {
      forall p | p in Greedy(front)
        ensures !Shares(p, last)
      {
        assert p in chosen && p != last;
      }
    }
  }

  lemma LastIsNew(cs: seq<Candidate>, k: nat)
    requires DistinctScores(cs) && 0 < k <= |cs|
    ensures cs[k - 1] !in cs[..k - 1]
  {
  }

  lemma {:induction false} ChoiceIsForced(cs: seq<Candidate>, chosen: set<Candidate>, k: nat)
    requires Descending(cs) && DistinctScores(cs) && StableChoice(cs, chosen) && k <= |cs|
    ensures forall c :: c in cs[..k] ==> (c in chosen <==> c in Greedy(cs[..k]))
    decreases k
  {
    hide Greedy, StableChoice, Descending, DistinctScores, Blocked;
    if k > 0 {
      ChoiceIsForced(cs, chosen, k - 1);
      LastIsForced(cs, chosen, k);
      GreedyStep(cs, k);
      LastIsNew(cs, k);
      GreedyIsOneToOne(cs[..k - 1]);
      assert cs[..k] == cs[..k - 1] + [cs[k - 1]];
    }
  }

  /** With distinct scores the greedy choice is the only stable one. */
  lemma GreedyIsTheStableChoice(cs: seq<Candidate>, chosen: set<Candidate>)
    requires Descending(cs) && DistinctScores(cs)
    ensures StableChoice(cs, chosen) <==> chosen == set p | p in Greedy(cs)
  {
    GreedyIsOneToOne(cs);
    hide Greedy, Shares;
    if StableChoice(cs, chosen) {
      assert cs[..|cs|] == cs;
      ChoiceIsForced(cs, chosen, |cs|);
    }
    if chosen == set p | p in Greedy(cs) {
      forall a, b | a in chosen && b in chosen && a != b
        ensures !Shares(a, b)
      {
        var i :| 0 <= i < |Greedy(cs)| && Greedy(cs)[i] == a;
        var j :| 0 <= j < |Greedy(cs)| && Greedy(cs)[j] == b;
        SharesSymmetric(a, b);
      }
      forall c | c in cs && c !in chosen
        ensures exists p :: p in chosen && Shares(p, c) && p.score >= c.score
      {
        var p := GreedyIsStable(cs, c);
      }
    }
  }

  // --- the procedure ---

  /** The admissible candidates of the first n cars, car by car. */
  function Candidates(cars: seq<Detection>, cushions: seq<Detection>, n: nat,
                      score: (Detection, Detection) -> real): seq<Candidate>
    requires n <= |cars|
  {
    if n == 0 then []
    else Candidates(cars, cushions, n - 1, score) + OfCar(cars[n - 1], n - 1, cushions, |cushions|, score)
  }

  function OfCar(car: Detection, index: nat, cushions: seq<Detection>, n: nat,
                 score: (Detection, Detection) -> real): seq<Candidate>
    requires n <= |cushions|
  {
    if n == 0 then []
    else
      OfCar(car, index, cushions, n - 1, score)
      + (if Admissible(car, cushions[n - 1]) then [Candidate(score(car, cushions[n - 1]), index, n - 1)] else [])
  }

  lemma {:induction false} OfCarHas(car: Detection, index: nat, cushions: seq<Detection>, n: nat,
                                    score: (Detection, Detection) -> real, c: Candidate)
    requires n <= |cushions|
    ensures c in OfCar(car, index, cushions, n, score) <==>
      c.car == index && c.cushion < n && Admissible(car, cushions[c.cushion]) && c.score == score(car, cushions[c.cushion])
    decreases n
  {
    hide Admissible;
    if n > 0 {
      OfCarHas(car, index, cushions, n - 1, score, c);
    }
  }

  /** The candidates are exactly the admissible combinations, with their scores. */
  lemma {:induction false} CandidatesAre(cars: seq<Detection>, cushions: seq<Detection>, n: nat,
                                         score: (Detection, Detection) -> real, c: Candidate)
    requires n <= |cars|
    ensures c in Candidates(cars, cushions, n, score) <==>
      && c.car < n && c.cushion < |cushions| && Admissible(cars[c.car], cushions[c.cushion])
      && c.score == score(cars[c.car], cushions[c.cushion])
  {
    hide Admissible, OfCar;
    if n > 0 {
      CandidatesAre(cars, cushions, n - 1, score, c);
      OfCarHas(cars[n - 1], n - 1, cushions, |cushions|, score, c);
    }
  }

  predicate Uses(pairs: seq<Candidate>, car: nat) {
    exists p :: p in pairs && p.car == car
  }

  /** The cars, by place, that no pair uses. */
  function Unpaired(pairs: seq<Candidate>, n: nat): seq<nat> {
    if n == 0 then [] else Unpaired(pairs, n - 1) + (if Uses(pairs, n - 1) then [] else [n - 1])
  }

  lemma {:induction false} UnpairedAreEarlier(pairs: seq<Candidate>, n: nat, i: nat)
    requires i < |Unpaired(pairs, n)|
    ensures Unpaired(pairs, n)[i] < n && !Uses(pairs, Unpaired(pairs, n)[i])
    decreases n
  {
    hide Uses;
    if i < |Unpaired(pairs, n - 1)| {
      UnpairedAreEarlier(pairs, n - 1, i);
    }
  }

  /** The unpaired cars are listed in increasing order, so each once, and a car is listed exactly when no pair uses it. */
  lemma {:induction false} CarsArePartitioned(pairs: seq<Candidate>, n: nat, car: nat)
    ensures car in Unpaired(pairs, n) <==> car < n && !Uses(pairs, car)
    ensures forall i, j :: 0 <= i < j < |Unpaired(pairs, n)| ==> Unpaired(pairs, n)[i] < Unpaired(pairs, n)[j]
    decreases n
  {
    hide Uses;
    if n > 0 {
      CarsArePartitioned(pairs, n - 1, car);
      var before := Unpaired(pairs, n - 1);
      forall i | 0 <= i < |before|
        ensures before[i] < n - 1
      {
        UnpairedAreEarlier(pairs, n - 1, i);
      }
    }
  }

  method FindCandidates(cars: seq<Detection>, cushions: seq<Detection>, score: (Detection, Detection) -> real)
    returns (candidates: seq<Candidate>)
    ensures candidates == Candidates(cars, cushions, |cars|, score)
  {
    hide Admissible;
    candidates := [];
    for i := 0 to |cars|
      invariant candidates == Candidates(cars, cushions, i, score)
    {
      for j := 0 to |cushions|
        invariant candidates == Candidates(cars, cushions, i, score) + OfCar(cars[i], i, cushions, j, score)
      {
        if Admissible(cars[i], cushions[j]) {
          candidates := candidates + [Candidate(score(cars[i], cushions[j]), i, j)];
        }
      }
    }
  }

  method PickPairs(candidates: seq<Candidate>) returns (pairs: seq<Candidate>, usedCars: set<nat>)
    ensures pairs == Greedy(candidates)
    ensures usedCars == set p | p in pairs :: p.car
  {
    pairs, usedCars := [], {};
    var usedCushions: set<nat> := {};
    for i := 0 to |candidates|
      invariant pairs == Greedy(candidates[..i])
      invariant usedCars == set p | p in pairs :: p.car
      invariant usedCushions == set p | p in pairs :: p.cushion
    {
      var c := candidates[i];
      assert candidates[..i + 1][..i] == candidates[..i];
      assert c.car in usedCars || c.cushion in usedCushions <==> Blocked(pairs, c);
      if c.car in usedCars || c.cushion in usedCushions {
        continue;
      }
      usedCars := usedCars + {c.car};
      usedCushions := usedCushions + {c.cushion};
      pairs := pairs + [c];
    }
    assert candidates[..|candidates|] == candidates;
  }

  /**
   Split the cars of a frame into those with a cushion and those without. `score` stands for closeness,
   confidence and continuity of the heading; closeness is relative to the car's diagonal, so a car with an
   admissible cushion must have one.
   */
  method Associate(detections: seq<Detection>, score: (Detection, Detection) -> real)
    returns (pairs: seq<Candidate>, unpaired: seq<nat>)
    requires forall d, e :: d in detections && e in detections && d.kind == Car && e.kind == Cushion && Admissible(d, e) ==>
      Diagonal2(d.box) > 0.0
    ensures var cars, cushions := Select(detections, Car), Select(detections, Cushion);
      && pairs == Greedy(Sort(Candidates(cars, cushions, |cars|, score)))
      && unpaired == Unpaired(pairs, |cars|)
  {
    hide Admissible;
    var cars, cushions := Select(detections, Car), Select(detections, Cushion);
    if |cars| == 0 {
      return [], [];
    }
    var candidates := FindCandidates(cars, cushions, score);
    var usedCars;
    pairs, usedCars := PickPairs(Sort(candidates));
    unpaired := [];
    for i := 0 to |cars|
      invariant unpaired == Unpaired(pairs, i)
    {
      assert i in usedCars <==> Uses(pairs, i);
      if i !in usedCars {
        unpaired := unpaired + [i];
      }
    }
  }

  /**
   The result is a one-to-one matching of admissible car and cushion combinations, and stable: every admissible
   combination left out shares its car or cushion with a chosen pair of at least its score.
   */
  lemma AssociationIsStable(cars: seq<Detection>, cushions: seq<Detection>, score: (Detection, Detection) -> real,
                            c: Candidate) returns (p: Candidate)
    requires c.car < |cars| && c.cushion < |cushions| && Admissible(cars[c.car], cushions[c.cushion])
    requires c.score == score(cars[c.car], cushions[c.cushion])
    ensures var pairs := Greedy(Sort(Candidates(cars, cushions, |cars|, score)));
      && OneToOne(pairs)
      && (forall q :: q in pairs ==> q.car < |cars| && q.cushion < |cushions| && Admissible(cars[q.car], cushions[q.cushion]))
      && p in pairs && Shares(p, c) && p.score >= c.score
  {
    hide Admissible, Candidates, Sort, Greedy;
    var cs := Candidates(cars, cushions, |cars|, score);
    SortSorts(cs);
    CandidatesAre(cars, cushions, |cars|, score, c);
    assert c in multiset(Sort(cs));
    GreedyIsOneToOne(Sort(cs));
    forall q | q in Greedy(Sort(cs))
      ensures q.car < |cars| && q.cushion < |cushions| && Admissible(cars[q.car], cushions[q.cushion])
    {
      assert q in multiset(Sort(cs));
      CandidatesAre(cars, cushions, |cars|, score, q);
    }
    p := GreedyIsStable(Sort(cs), c);
  }
}
