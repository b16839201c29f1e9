/** Selecting the routed experts of a token: deterministic top-k with normalised coefficients,
    over exact reals. */
module Routing {
  import opened Common

  datatype Candidate = Candidate(id: nat, score: real, weight: real)

  datatype RoutedExpert = RoutedExpert(id: nat, coefficient: real)

  /** Higher score first; equal scores by ascending id. */
  predicate Better(a: Candidate, b: Candidate) {
    a.score > b.score || (a.score == b.score && a.id < b.id)
  }

  // --- sorting --------------------------------------------------------------------------------------

  function Insert<T>(before: (T, T) -> bool, x: T, s: seq<T>): seq<T> {
    if s == [] then [x] else if before(x, s[0]) then [x] + s else [s[0]] + Insert(before, x, s[1..])
  }

  function Sort<T>(before: (T, T) -> bool, s: seq<T>): seq<T> {
    if s == [] then [] else Insert(before, s[0], Sort(before, s[1..]))
  }

  ghost predicate SortedBy<T>(before: (T, T) -> bool, s: seq<T>) {
    forall i, j | 0 <= i < j < |s| :: before(s[i], s[j])
  }

  ghost predicate Transitive<T(!new)>(before: (T, T) -> bool) {
    forall x, y, z :: before(x, y) && before(y, z) ==> before(x, z)
  }

  ghost predicate Comparable<T>(before: (T, T) -> bool, x: T, s: seq<T>) {
    forall i | 0 <= i < |s| :: before(x, s[i]) || before(s[i], x)
  }

  /** Any two elements at different places are comparable. */
  ghost predicate Distinguished<T>(before: (T, T) -> bool, s: seq<T>) {
    forall i, j | 0 <= i < j < |s| :: before(s[i], s[j]) || before(s[j], s[i])
  }

  lemma {:induction false} InsertPermutes<T>(before: (T, T) -> bool, x: T, s: seq<T>)
    ensures multiset(Insert(before, x, s)) == multiset{x} + multiset(s)
  {
    if s != [] {
      InsertPermutes(before, x, s[1..]);
      assert s == [s[0]] + s[1..];
    }
  }

  lemma {:induction false} InsertSorts<T(!new)>(before: (T, T) -> bool, x: T, s: seq<T>)
    requires Transitive(before) && SortedBy(before, s) && Comparable(before, x, s)
    ensures SortedBy(before, Insert(before, x, s))
  {
    if s != [] {
      if before(x, s[0]) {
        InFront(before, x, s);
      } else {
        InsertSorts(before, x, s[1..]);
        InsertPermutes(before, x, s[1..]);
        var rest := Insert(before, x, s[1..]);
        forall j | 0 <= j < |rest| ensures before(s[0], rest[j]) {
          assert rest[j] in multiset(rest);
          if rest[j] != x {
            assert rest[j] in s[1..];
          }
        }
      }
    }
  }

  lemma InFront<T(!new)>(before: (T, T) -> bool, x: T, s: seq<T>)
    requires Transitive(before) && SortedBy(before, s) && s != [] && before(x, s[0])
    ensures SortedBy(before, [x] + s)
  {
    forall j | 0 <= j < |s| ensures before(x, s[j]) {
      assert j > 0 ==> before(s[0], s[j]);
    }
  }

  lemma {:induction false} SortPermutes<T>(before: (T, T) -> bool, s: seq<T>)
    ensures multiset(Sort(before, s)) == multiset(s)
    ensures |Sort(before, s)| == |s|
  {
    if s != [] {
      SortPermutes(before, s[1..]);
      InsertPermutes(before, s[0], Sort(before, s[1..]));
      assert s == [s[0]] + s[1..];
    }
    assert |multiset(Sort(before, s))| == |multiset(s)|;
  }

  lemma {:induction false} SortSorts<T(!new)>(before: (T, T) -> bool, s: seq<T>)
    requires Transitive(before) && Distinguished(before, s)
    ensures SortedBy(before, Sort(before, s))
  {
    if s != [] {
      SortSorts(before, s[1..]);
      SortPermutes(before, s[1..]);
      var rest := Sort(before, s[1..]);
      forall i | 0 <= i < |rest| ensures before(s[0], rest[i]) || before(rest[i], s[0]) {
        assert rest[i] in multiset(s[1..]);
        var j :| 0 <= j < |s[1..]| && s[1..][j] == rest[i];
        assert s[j + 1] == rest[i];
      }
      InsertSorts(before, s[0], rest);
    }
  }

  // --- the two orders ----------------------------------------------------------------------------------

  function ByScore(): (Candidate, Candidate) -> bool { (a: Candidate, b: Candidate) => Better(a, b) }

  function ById(): (RoutedExpert, RoutedExpert) -> bool { (a: RoutedExpert, b: RoutedExpert) => a.id < b.id }

  /** Candidate `i` of the router. */
  function CandidateOf(weights: seq<real>, bias: seq<real>, i: nat): Candidate
    requires i < |weights| == |bias|
  {
    Candidate(i, weights[i] + bias[i], weights[i])
  }

  function Candidates(weights: seq<real>, bias: seq<real>): (r: seq<Candidate>)
    requires |weights| == |bias|
    ensures |r| == |weights| && forall i | 0 <= i < |r| :: r[i] == CandidateOf(weights, bias, i)
  {
    seq(|weights|, i requires 0 <= i < |weights| => CandidateOf(weights, bias, i))
  }

  function Ranked(weights: seq<real>, bias: seq<real>): (r: seq<Candidate>)
    requires |weights| == |bias|
    ensures |r| == |weights|
  {
    SortPermutes(ByScore(), Candidates(weights, bias));
    Sort(ByScore(), Candidates(weights, bias))
  }

  /** The ranking holds every candidate once, best first. */
  lemma RankedFacts(weights: seq<real>, bias: seq<real>)
    requires |weights| == |bias|
    ensures SortedBy(ByScore(), Ranked(weights, bias))
    ensures multiset(Ranked(weights, bias)) == multiset(Candidates(weights, bias))
  {
    var cs := Candidates(weights, bias);
    assert Transitive(ByScore());
    assert Distinguished(ByScore(), cs);
    SortSorts(ByScore(), cs);
    SortPermutes(ByScore(), cs);
  }

  // --- coefficients ------------------------------------------------------------------------------------

  /** 2^-14 as written in the source */
  const FLOOR: real := 0.000061035156

  function WeightSum(top: seq<Candidate>, n: nat): real
    requires n <= |top|
  {
    if n == 0 then 0.0 else WeightSum(top, n - 1) + top[n - 1].weight
  }

  function Max(x: real, y: real): real { if x >= y then x else y }

  function Portion(weight: real, sum: real, scale: real): real
    requires sum > 0.0
  {
    weight / sum * scale
  }

  function Coefficient(top: seq<Candidate>, scale: real, c: Candidate): real {
    Portion(c.weight, Max(WeightSum(top, |top|), FLOOR), scale)
  }

  function Unsorted(top: seq<Candidate>, scale: real): (r: seq<RoutedExpert>)
    ensures |r| == |top| && forall i | 0 <= i < |r| :: r[i] == RoutedExpert(top[i].id, Coefficient(top, scale, top[i]))
  {
    seq(|top|, i requires 0 <= i < |top| => RoutedExpert(top[i].id, Coefficient(top, scale, top[i])))
  }

  /** The selected experts: the first `k` of the ranking, by ascending id. */
  function Selected(weights: seq<real>, bias: seq<real>, k: nat, scale: real): seq<RoutedExpert>
    requires |weights| == |bias| && k <= |weights|
  {
    Sort(ById(), Unsorted(Ranked(weights, bias)[..k], scale))
  }

  // --- what is selected ------------------------------------------------------------------------------------

  lemma RankedIs(weights: seq<real>, bias: seq<real>, i: nat)
    requires |weights| == |bias| && i < |weights|
    ensures var c := Ranked(weights, bias)[i];
            c.id < |weights| && c == CandidateOf(weights, bias, c.id)
  {
    RankedFacts(weights, bias);
    var c := Ranked(weights, bias)[i];
    assert c in multiset(Candidates(weights, bias));
    assert c in Candidates(weights, bias);
  }

  /** Where expert `id` is in the ranking. */
  lemma Rank(weights: seq<real>, bias: seq<real>, id: nat) returns (i: nat)
    requires |weights| == |bias| && id < |weights|
    ensures i < |weights| && Ranked(weights, bias)[i] == CandidateOf(weights, bias, id)
  {
    RankedFacts(weights, bias);
    var c := CandidateOf(weights, bias, id);
    assert Candidates(weights, bias)[id] == c;
    assert c in multiset(Ranked(weights, bias));
    i :| 0 <= i < |weights| && Ranked(weights, bias)[i] == c;
  }

  ghost predicate IsSelected(selected: seq<RoutedExpert>, id: nat) {
    exists j | 0 <= j < |selected| :: selected[j].id == id
  }

  lemma SortedById(top: seq<Candidate>, scale: real)
    requires SortedBy(ByScore(), top)
    requires forall i, j | 0 <= i < j < |top| :: top[i].id != top[j].id
    ensures SortedBy(ById(), Sort(ById(), Unsorted(top, scale)))
    ensures multiset(Sort(ById(), Unsorted(top, scale))) == multiset(Unsorted(top, scale))
    ensures |Sort(ById(), Unsorted(top, scale))| == |top|
  {
    var rs := Unsorted(top, scale);
    assert Transitive(ById());
    assert Distinguished(ById(), rs);
    SortSorts(ById(), rs);
    SortPermutes(ById(), rs);
  }

  lemma TopDistinct(weights: seq<real>, bias: seq<real>, i: nat, j: nat)
    requires |weights| == |bias| && i < j < |weights|
    ensures Ranked(weights, bias)[i].id != Ranked(weights, bias)[j].id
  {
    RankedFacts(weights, bias);
    RankedIs(weights, bias, i);
    RankedIs(weights, bias, j);
    assert Better(Ranked(weights, bias)[i], Ranked(weights, bias)[j]) by {
      assert ByScore()(Ranked(weights, bias)[i], Ranked(weights, bias)[j]);
    }
  }

  /** Exactly `k` experts are selected, with distinct ids in ascending order. */
  lemma SelectedAscend(weights: seq<real>, bias: seq<real>, k: nat, scale: real)
    requires |weights| == |bias| && k <= |weights|
    ensures var s := Selected(weights, bias, k, scale);
            |s| == k && forall i, j | 0 <= i < j < k :: s[i].id < s[j].id
    ensures multiset(Selected(weights, bias, k, scale)) == multiset(Unsorted(Ranked(weights, bias)[..k], scale))
  {
    RankedFacts(weights, bias);
    var top := Ranked(weights, bias)[..k];
    forall i, j | 0 <= i < j < k ensures top[i].id != top[j].id {
      TopDistinct(weights, bias, i, j);
    }
    SortedById(top, scale);
    var s := Selected(weights, bias, k, scale);
    forall i, j | 0 <= i < j < k ensures s[i].id < s[j].id {
      assert ById()(s[i], s[j]);
    }
  }

  lemma SelectedIff(weights: seq<real>, bias: seq<real>, k: nat, scale: real, i: nat)
    requires |weights| == |bias| && k <= |weights| && i < |weights|
    ensures IsSelected(Selected(weights, bias, k, scale), Ranked(weights, bias)[i].id) <==> i < k
  {
    SelectedAscend(weights, bias, k, scale);
    var ranked, s := Ranked(weights, bias), Selected(weights, bias, k, scale);
    var rs := Unsorted(ranked[..k], scale);
    if i < k {
      assert rs[i].id == ranked[i].id;
      assert rs[i] in multiset(s);
      var j :| 0 <= j < |s| && s[j] == rs[i];
      assert s[j].id == ranked[i].id;
    }
    if IsSelected(s, ranked[i].id) {
      var j :| 0 <= j < |s| && s[j].id == ranked[i].id;
      assert s[j] in multiset(rs);
      var l :| 0 <= l < |rs| && rs[l] == s[j];
      if i != l {
        TopDistinct(weights, bias, if i < l then i else l, if i < l then l else i);
      }
    }
  }

  /** The selected experts are the best ones: each of them beats each expert that is not selected. */
  lemma SelectsTheBest(weights: seq<real>, bias: seq<real>, k: nat, scale: real, e: nat, f: nat)
    requires |weights| == |bias| && k <= |weights| && e < |weights| && f < |weights|
    requires IsSelected(Selected(weights, bias, k, scale), e) && !IsSelected(Selected(weights, bias, k, scale), f)
    ensures Better(CandidateOf(weights, bias, e), CandidateOf(weights, bias, f))
  {
    var i := Rank(weights, bias, e);
    var j := Rank(weights, bias, f);
    SelectedIff(weights, bias, k, scale, i);
    SelectedIff(weights, bias, k, scale, j);
    RankedFacts(weights, bias);
    assert ByScore()(Ranked(weights, bias)[i], Ranked(weights, bias)[j]);
  }

  // --- what the coefficients add up to ---------------------------------------------------------------------

  function TotalOf(value: RoutedExpert -> real, s: seq<RoutedExpert>): real {
    if s == [] then 0.0 else value(s[0]) + TotalOf(value, s[1..])
  }

  function Total(s: seq<RoutedExpert>): real {
    TotalOf(Coefficients(), s)
  }

  function Coefficients(): RoutedExpert -> real { (x: RoutedExpert) => x.coefficient }

  lemma {:induction false} TotalPush(value: RoutedExpert -> real, s: seq<RoutedExpert>, x: RoutedExpert)
    ensures TotalOf(value, s + [x]) == TotalOf(value, s) + value(x)
  {
    if s == [] {
      assert [x][1..] == [];
    } else {
      assert (s + [x])[1..] == s[1..] + [x];
      TotalPush(value, s[1..], x);
    }
  }

  lemma {:induction false} InsertTotal(value: RoutedExpert -> real, before: (RoutedExpert, RoutedExpert) -> bool,
                                       x: RoutedExpert, s: seq<RoutedExpert>)
    ensures TotalOf(value, Insert(before, x, s)) == value(x) + TotalOf(value, s)
  {
    if s == [] {
      assert [x][1..] == [];
    } else if before(x, s[0]) {
      assert ([x] + s)[1..] == s;
    } else {
      InsertTotal(value, before, x, s[1..]);
      assert ([s[0]] + Insert(before, x, s[1..]))[1..] == Insert(before, x, s[1..]);
    }
  }

  lemma {:induction false} SortTotal(value: RoutedExpert -> real, before: (RoutedExpert, RoutedExpert) -> bool,
                                     s: seq<RoutedExpert>)
    ensures TotalOf(value, Sort(before, s)) == TotalOf(value, s)
  {
    if s != [] {
      SortTotal(value, before, s[1..]);
      InsertTotal(value, before, s[0], Sort(before, s[1..]));
    }
  }

  lemma Share(a: real, w: real, d: real, scale: real)
    requires d > 0.0
    ensures Portion(a, d, scale) + Portion(w, d, scale) == Portion(a + w, d, scale)
  {
    assert a / d + w / d == (a + w) / d;
  }

  lemma {:induction false} UnsortedTotal(top: seq<Candidate>, scale: real, d: real, n: nat)
    requires n <= |top| && d == Max(WeightSum(top, |top|), FLOOR)
    ensures Total(Unsorted(top, scale)[..n]) == Portion(WeightSum(top, n), d, scale)
  {
    if n == 0 {
      NoPortion(d, scale);
    } else {
      var rs := Unsorted(top, scale);
      UnsortedTotal(top, scale, d, n - 1);
      assert rs[..n] == rs[..n - 1] + [rs[n - 1]];
      TotalPush(Coefficients(), rs[..n - 1], rs[n - 1]);
      Share(WeightSum(top, n - 1), top[n - 1].weight, d, scale);
    }
  }

  lemma NoPortion(d: real, scale: real)
    requires d > 0.0
    ensures Portion(0.0, d, scale) == 0.0
  {}

  /** The coefficients add up to scale * S / max(S, floor), with S the sum of unbiased weights of
      the selected experts. */
  lemma CoefficientsSum(weights: seq<real>, bias: seq<real>, k: nat, scale: real)
    requires |weights| == |bias| && k <= |weights|
    ensures var s := WeightSum(Ranked(weights, bias)[..k], k);
            Total(Selected(weights, bias, k, scale)) == scale * s / Max(s, FLOOR)
  {
    var d, total := TopTotal(Ranked(weights, bias)[..k], scale);
    Swap(WeightSum(Ranked(weights, bias)[..k], k), d, scale, total);
  }

  lemma TopTotal(top: seq<Candidate>, scale: real) returns (d: real, total: real)
    ensures d == Max(WeightSum(top, |top|), FLOOR) && total == Total(Sort(ById(), Unsorted(top, scale)))
    ensures total == Portion(WeightSum(top, |top|), d, scale)
  {
    d := Max(WeightSum(top, |top|), FLOOR);
    total := Total(Sort(ById(), Unsorted(top, scale)));
    SortTotal(Coefficients(), ById(), Unsorted(top, scale));
    UnsortedTotal(top, scale, d, |top|);
    assert Unsorted(top, scale)[..|top|] == Unsorted(top, scale);
  }

  lemma Swap(s: real, d: real, scale: real, total: real)
    requires d > 0.0 && total == Portion(s, d, scale)
    ensures total == scale * s / d
  {}

  /** Above the floor the coefficients add up to the scale itself. */
  lemma Normalised(weights: seq<real>, bias: seq<real>, k: nat, scale: real)
    requires |weights| == |bias| && k <= |weights| && WeightSum(Ranked(weights, bias)[..k], k) >= FLOOR
    ensures Total(Selected(weights, bias, k, scale)) == scale
  {
    CoefficientsSum(weights, bias, k, scale);
  }

  // --- in terms of logits and biases ------------------------------------------------------------------------

  /** Expert `e` comes before expert `f`: its gate plus bias is higher, or equal and its id is lower. */
  predicate Beats(sigmoid: real -> real, logits: seq<real>, bias: seq<real>, e: nat, f: nat)
    requires |bias| == |logits| && e < |logits| && f < |logits|
  {
    var a, b := sigmoid(logits[e]) + bias[e], sigmoid(logits[f]) + bias[f];
    a > b || (a == b && e < f)
  }

  /** The gate of a routed expert, without bias. */
  function Gates(sigmoid: real -> real, logits: seq<real>): RoutedExpert -> real {
    (x: RoutedExpert) => if x.id < |logits| then sigmoid(logits[x.id]) else 0.0
  }

  /** A correct routing: `k` experts in ascending order that beat all others, each with its share of
      the scale in proportion to its gate. */
  ghost predicate Routes(sigmoid: real -> real, logits: seq<real>, bias: seq<real>, k: nat, scale: real,
                         selected: seq<RoutedExpert>)
    requires |bias| == |logits|
  {
    var sum := TotalOf(Gates(sigmoid, logits), selected);
    |selected| == k && (forall j | 0 <= j < k :: selected[j].id < |logits|) &&
    (forall i, j | 0 <= i < j < k :: selected[i].id < selected[j].id) &&
    (forall e: nat, f: nat | e < |logits| && f < |logits| && IsSelected(selected, e) && !IsSelected(selected, f) ::
       Beats(sigmoid, logits, bias, e, f)) &&
    forall j | 0 <= j < k :: FairShare(selected[j].coefficient, sigmoid(logits[selected[j].id]), sum, scale)
  }

  /** A gate's share of the scale; a sum below the floor counts as the floor. */
  predicate FairShare(coefficient: real, gate: real, sum: real, scale: real) {
    coefficient == gate / (if sum >= FLOOR then sum else FLOOR) * scale
  }

  lemma {:induction false} GatesOfTop(sigmoid: real -> real, logits: seq<real>, bias: seq<real>, k: nat, scale: real,
                                      n: nat)
    requires |bias| == |logits| && n <= k <= |logits|
    ensures var top := Ranked(Weights(sigmoid, logits), bias)[..k];
            TotalOf(Gates(sigmoid, logits), Unsorted(top, scale)[..n]) == WeightSum(top, n)
    decreases n
  {
    if n > 0 {
      var top := Ranked(Weights(sigmoid, logits), bias)[..k];
      var rs := Unsorted(top, scale);
      GatesOfTop(sigmoid, logits, bias, k, scale, n - 1);
      assert rs[..n] == rs[..n - 1] + [rs[n - 1]];
      TotalPush(Gates(sigmoid, logits), rs[..n - 1], rs[n - 1]);
      RankedIs(Weights(sigmoid, logits), bias, n - 1);
    }
  }

  /** The sum of gates the coefficients are taken from is that of the selected experts. */
  lemma GatesOfSelected(sigmoid: real -> real, logits: seq<real>, bias: seq<real>, k: nat, scale: real)
    requires |bias| == |logits| && k <= |logits|
    ensures var top := Ranked(Weights(sigmoid, logits), bias)[..k];
            TotalOf(Gates(sigmoid, logits), Selected(Weights(sigmoid, logits), bias, k, scale)) == WeightSum(top, |top|)
  {
    var top := Ranked(Weights(sigmoid, logits), bias)[..k];
    SortTotal(Gates(sigmoid, logits), ById(), Unsorted(top, scale));
    GatesOfTop(sigmoid, logits, bias, k, scale, k);
    assert Unsorted(top, scale)[..k] == Unsorted(top, scale);
  }

  lemma SelectedShare(sigmoid: real -> real, logits: seq<real>, bias: seq<real>, k: nat, scale: real, j: nat)
    requires |bias| == |logits| && k <= |logits| && j < k
    ensures var s := Selected(Weights(sigmoid, logits), bias, k, scale);
            |s| == k && s[j].id < |logits| &&
            FairShare(s[j].coefficient, sigmoid(logits[s[j].id]), TotalOf(Gates(sigmoid, logits), s), scale)
  {
    var weights := Weights(sigmoid, logits);
    var s, rs := Selected(weights, bias, k, scale), Unsorted(Ranked(weights, bias)[..k], scale);
    SelectedAscend(weights, bias, k, scale);
    assert s[j] in multiset(rs);
    var i :| 0 <= i < |rs| && rs[i] == s[j];
    RankedIs(weights, bias, i);
    GatesOfSelected(sigmoid, logits, bias, k, scale);
    PortionIsFair(weights[s[j].id], WeightSum(Ranked(weights, bias)[..k], k), scale);
  }

  lemma PortionIsFair(gate: real, sum: real, scale: real)
    ensures FairShare(Portion(gate, Max(sum, FLOOR), scale), gate, sum, scale)
  {}

  lemma SelectedBeats(sigmoid: real -> real, logits: seq<real>, bias: seq<real>, k: nat, scale: real, e: nat, f: nat)
    requires |bias| == |logits| && k <= |logits| && e < |logits| && f < |logits|
    requires IsSelected(Selected(Weights(sigmoid, logits), bias, k, scale), e)
    requires !IsSelected(Selected(Weights(sigmoid, logits), bias, k, scale), f)
    ensures Beats(sigmoid, logits, bias, e, f)
  {
    SelectsTheBest(Weights(sigmoid, logits), bias, k, scale, e, f);
  }

  /** What is selected is a correct routing. */
  lemma SelectedRoutes(sigmoid: real -> real, logits: seq<real>, bias: seq<real>, k: nat, scale: real)
    requires |bias| == |logits| && k <= |logits|
    ensures Routes(sigmoid, logits, bias, k, scale, Selected(Weights(sigmoid, logits), bias, k, scale))
  {
    var s := Selected(Weights(sigmoid, logits), bias, k, scale);
    SelectedAscend(Weights(sigmoid, logits), bias, k, scale);
    forall j | 0 <= j < k
      ensures s[j].id < |logits|
      ensures FairShare(s[j].coefficient, sigmoid(logits[s[j].id]), TotalOf(Gates(sigmoid, logits), s), scale)
    {
      SelectedShare(sigmoid, logits, bias, k, scale, j);
    }
    forall e: nat, f: nat | e < |logits| && f < |logits| && IsSelected(s, e) && !IsSelected(s, f)
      ensures Beats(sigmoid, logits, bias, e, f)
    {
      SelectedBeats(sigmoid, logits, bias, k, scale, e, f);
    }
  }

  // --- the code ---------------------------------------------------------------------------------------------

  datatype RoutingError =
    | TooManyExperts
    | BiasLength
    | TopK
    | CandidatesLength
    | SelectedLength
    | NonFiniteScale
    | NonFiniteLogit(index: nat)
    | NonFiniteBias(index: nat)

  function RouteError(experts: nat, bias: nat, k: nat, candidates: nat, selected: nat): (r: Option<RoutingError>)
    ensures r == None <==>
              experts <= 0xFFFF_FFFF && bias == experts == candidates && 0 < k <= experts && selected == k
  {
    if experts > 0xFFFF_FFFF then Some(TooManyExperts)
    else if bias != experts then Some(BiasLength)
    else if k == 0 || k > experts then Some(TopK)
    else if candidates != experts then Some(CandidatesLength)
    else if selected != k then Some(SelectedLength)
    else None
  }

  function Weights(sigmoid: real -> real, logits: seq<real>): (r: seq<real>)
    ensures |r| == |logits| && forall i | 0 <= i < |r| :: r[i] == sigmoid(logits[i])
  {
    seq(|logits|, i requires 0 <= i < |logits| => sigmoid(logits[i]))
  }

  /** A library sort, in place. */
  method SortInPlace<T>(before: (T, T) -> bool, a: array<T>)
    modifies a
    ensures a[..] == Sort(before, old(a[..]))
  {
    SortPermutes(before, a[..]);
    var sorted := Sort(before, a[..]);
    for i := 0 to a.Length
      invariant forall j | 0 <= j < i :: a[j] == sorted[j]
    {
      a[i] := sorted[i];
    }
  }

  method FillCandidates(sigmoid: real -> real, logits: seq<real>, bias: seq<real>, candidates: array<Candidate>)
    requires |bias| == |logits| == candidates.Length
    modifies candidates
    ensures candidates[..] == Candidates(Weights(sigmoid, logits), bias)
  {
    for i := 0 to |logits|
      invariant forall j | 0 <= j < i :: candidates[j] == CandidateOf(Weights(sigmoid, logits), bias, j)
    {
      var weight := sigmoid(logits[i]);
      candidates[i] := Candidate(i, weight + bias[i], weight);
    }
  }

  method SumWeights(top: seq<Candidate>) returns (sum: real)
    ensures sum == Max(WeightSum(top, |top|), FLOOR)
  {
    sum := 0.0;
    for i := 0 to |top|
      invariant sum == WeightSum(top, i)
    {
      sum := sum + top[i].weight;
    }
    sum := Max(sum, FLOOR);
  }

  method FillSelected(top: seq<Candidate>, sum: real, scale: real, selected: array<RoutedExpert>)
    requires selected.Length == |top| && sum == Max(WeightSum(top, |top|), FLOOR)
    modifies selected
    ensures selected[..] == Unsorted(top, scale)
  {
    for i := 0 to |top|
      invariant forall j | 0 <= j < i :: selected[j] == RoutedExpert(top[j].id, Coefficient(top, scale, top[j]))
    {
      selected[i] := RoutedExpert(top[i].id, top[i].weight / sum * scale);
    }
  }

  /** Which of the finiteness checks fails first: the scale, then expert by expert the logit and
      the bias. */
  ghost predicate FirstFault(scale: Number, logits: seq<Number>, bias: seq<Number>, error: RoutingError)
    requires |bias| == |logits|
  {
    match error
    case NonFiniteScale => scale.NonFinite?
    case NonFiniteLogit(i) =>
      scale.Finite? && i < |logits| && Finites(logits[..i]) && Finites(bias[..i]) && logits[i].NonFinite?
    case NonFiniteBias(i) =>
      scale.Finite? && i < |logits| && Finites(logits[..i]) && Finites(bias[..i]) && logits[i].Finite? &&
      bias[i].NonFinite?
    case _ => false
  }

  method CheckFiniteInputs(scale: Number, logits: seq<Number>, bias: seq<Number>) returns (error: Option<RoutingError>)
    requires |bias| == |logits|
    ensures error == None <==> scale.Finite? && Finites(logits) && Finites(bias)
    ensures error.Some? ==> FirstFault(scale, logits, bias, error.value)
  {
    if scale.NonFinite? {
      return Some(NonFiniteScale);
    }
    for i := 0 to |logits|
      invariant Finites(logits[..i]) && Finites(bias[..i])
    {
      if logits[i].NonFinite? {
        return Some(NonFiniteLogit(i));
      }
      if bias[i].NonFinite? {
        return Some(NonFiniteBias(i));
      }
      assert logits[..i + 1] == logits[..i] + [logits[i]] && bias[..i + 1] == bias[..i] + [bias[i]];
    }
    assert logits[..|logits|] == logits && bias[..|logits|] == bias;
    error := None;
  }

  /** Routing into caller-owned buffers, which a rejected call leaves alone. The candidates end up
      ranked, the selection in ascending order of ids. */
  method RouteExperts(sigmoid: real -> real, logits: seq<Number>, bias: seq<Number>, k: nat, scale: Number,
                      candidates: array<Candidate>, selected: array<RoutedExpert>) returns (error: Option<RoutingError>)
    modifies candidates, selected
    ensures error == None <==> RouteError(|logits|, |bias|, k, candidates.Length, selected.Length) == None &&
                               scale.Finite? && Finites(logits) && Finites(bias)
    ensures RouteError(|logits|, |bias|, k, candidates.Length, selected.Length).Some? ==>
              error == RouteError(|logits|, |bias|, k, candidates.Length, selected.Length)
    ensures RouteError(|logits|, |bias|, k, candidates.Length, selected.Length) == None && error.Some? ==>
              FirstFault(scale, logits, bias, error.value)
    ensures error.Some? ==> candidates[..] == old(candidates[..]) && selected[..] == old(selected[..])
    ensures error == None ==> var weights := Weights(sigmoid, Reals(logits));
                              candidates[..] == Ranked(weights, Reals(bias)) &&
                              selected[..] == Selected(weights, Reals(bias), k, scale.value)
    ensures error == None ==> Routes(sigmoid, Reals(logits), Reals(bias), k, scale.value, selected[..])
  {
    error := RouteError(|logits|, |bias|, k, candidates.Length, selected.Length);
    if error.Some? {
      return;
    }
    error := CheckFiniteInputs(scale, logits, bias);
    if error.Some? {
      return;
    }
    Select(sigmoid, Reals(logits), Reals(bias), k, scale.value, candidates, selected);
    SelectedRoutes(sigmoid, Reals(logits), Reals(bias), k, scale.value);
  }

  method Select(sigmoid: real -> real, logits: seq<real>, bias: seq<real>, k: nat, scale: real,
                candidates: array<Candidate>, selected: array<RoutedExpert>)
    requires |bias| == |logits| == candidates.Length && k == selected.Length <= |logits|
    modifies candidates, selected
    ensures candidates[..] == Ranked(Weights(sigmoid, logits), bias)
    ensures selected[..] == Selected(Weights(sigmoid, logits), bias, k, scale)
  {
    FillCandidates(sigmoid, logits, bias, candidates);
    SortInPlace(ByScore(), candidates);
    var top := candidates[..k];
    var sum := SumWeights(top);
    FillSelected(top, sum, scale, selected);
    SortInPlace(ById(), selected);
  }

  // --- the consumer ---------------------------------------------------------------------------------------------

  datatype OrderError = DuplicateRoutedExpert | RoutedExpertOrder

  /** The order check of the MoE kernel. */
  method CheckOrder(routed: seq<RoutedExpert>) returns (error: Option<OrderError>)
    ensures error == None <==> forall i, j | 0 <= i < j < |routed| :: routed[i].id < routed[j].id
  {
    for i := 0 to |routed|
      invariant forall j, l | 0 <= j < l < i :: routed[j].id < routed[l].id
    {
      if i > 0 {
        if routed[i].id == routed[i - 1].id {
          return Some(DuplicateRoutedExpert);
        }
        if routed[i].id < routed[i - 1].id {
          return Some(RoutedExpertOrder);
        }
      }
    }
    error := None;
  }

  /** What routing selects is never rejected for its order. */
  method RouteThenCheck(sigmoid: real -> real, logits: seq<Number>, bias: seq<Number>, k: nat, scale: Number,
                        candidates: array<Candidate>, selected: array<RoutedExpert>)
    returns (error: Option<RoutingError>, order: Option<OrderError>)
    modifies candidates, selected
    ensures error == None <==> RouteError(|logits|, |bias|, k, candidates.Length, selected.Length) == None &&
                               scale.Finite? && Finites(logits) && Finites(bias)
    ensures error == None ==> order == None
  {
    order := None;
    error := RouteExperts(sigmoid, logits, bias, k, scale, candidates, selected);
    if error == None {
      SelectedAscend(Weights(sigmoid, Reals(logits)), Reals(bias), k, scale.value);
      order := CheckOrder(selected[..]);
    }
  }
}
