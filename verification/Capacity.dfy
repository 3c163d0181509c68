/** One Twitch app's counter under concurrent registrations: an app is chosen while its
    counter is below its limit and charged only after Twitch has answered. */
module Capacity {
  type Caller = nat

  datatype State = State(cost: int, limit: int, inFlight: set<Caller>)

  datatype Step =
    | Choose(c: Caller)
    | Charge(c: Caller, amount: nat)
    | Abandon(c: Caller)
    | Release(amount: nat)

  /** A step that is not enabled changes nothing. */
  function Next(s: State, a: Step): State {
    match a
    case Choose(c) => if c !in s.inFlight && s.cost < s.limit then s.(inFlight := s.inFlight + {c}) else s
    case Charge(c, n) =>
      if c in s.inFlight then s.(cost := s.cost + n, inFlight := s.inFlight - {c}) else s
    case Abandon(c) => s.(inFlight := s.inFlight - {c})
    case Release(n) => s.(cost := s.cost - n)
  }

  function Run(s: State, steps: seq<Step>): State
    decreases |steps|
  {
    if steps == [] then s else Run(Next(s, steps[0]), steps[1..])
  }

  /** What each step does: only an app with room is chosen, a charge ends its registration and is
      counted in full, giving up ends it uncounted, a release is counted back. */
  lemma StepOutcome(s: State, c: Caller, amount: nat)
    ensures c !in s.inFlight ==>
      Next(s, Choose(c)) == State(s.cost, s.limit, if s.cost < s.limit then s.inFlight + {c} else s.inFlight)
    ensures c in s.inFlight ==> Next(s, Charge(c, amount)) == State(s.cost + amount, s.limit, s.inFlight - {c})
    ensures Next(s, Abandon(c)) == State(s.cost, s.limit, s.inFlight - {c})
    ensures Next(s, Release(amount)) == State(s.cost - amount, s.limit, s.inFlight)
  {
  }

  /** Never more than `k` registrations in flight, none charging more than `most`. */
  predicate Bounded(s: State, steps: seq<Step>, k: nat, most: nat)
    decreases |steps|
  {
    |s.inFlight| <= k &&
    (steps != [] ==> (steps[0].Charge? ==> steps[0].amount <= most) && Bounded(Next(s, steps[0]), steps[1..], k, most))
  }

  lemma MulLess(a: int, b: int, most: nat)
    requires a <= b
    ensures a * most <= b * most
  {
  }

  lemma StepStaysWithin(s: State, a: Step, k: nat, most: nat)
    requires s.cost + |s.inFlight| * most <= s.limit - 1 + k * most
    requires |Next(s, a).inFlight| <= k && (a.Charge? ==> a.amount <= most)
    ensures var t := Next(s, a); t.limit == s.limit && t.cost + |t.inFlight| * most <= t.limit - 1 + k * most
  {
    var t := Next(s, a);
    match a
    case Choose(c) =>
      if t != s { MulLess(|t.inFlight|, k, most); }
    case Charge(c, n) =>
      if t != s {
        assert |s.inFlight| == |t.inFlight| + 1;
        assert |s.inFlight| * most == |t.inFlight| * most + most;
      }
    case Abandon(c) =>
      MulLess(|t.inFlight|, |s.inFlight|, most) by { Shrinks(s.inFlight, c); }
    case Release(n) =>
  }

  lemma Shrinks(S: set<Caller>, c: Caller)
    ensures |S - {c}| <= |S|
  {
    if c !in S { assert S - {c} == S; }
  }

  /** With at most `k` registrations in flight and none costing more than `most`, the counter
      never exceeds `limit - 1 + k * most`, however the steps interleave. */
  lemma {:induction false} CapacityBound(s: State, steps: seq<Step>, k: nat, most: nat)
    requires Bounded(s, steps, k, most)
    requires s.cost + |s.inFlight| * most <= s.limit - 1 + k * most
    ensures Run(s, steps).cost <= s.limit - 1 + k * most
    decreases |steps|
  {
    if steps == [] {
      MulLess(0, |s.inFlight|, most);
    } else {
      StepStaysWithin(s, steps[0], k, most);
      CapacityBound(Next(s, steps[0]), steps[1..], k, most);
    }
  }

  /** One registration at a time at unit cost never passes the limit. */
  lemma OneAtATimeStaysWithinLimit(s: State, steps: seq<Step>)
    requires s.inFlight == {} && s.cost <= s.limit && Bounded(s, steps, 1, 1)
    ensures Run(s, steps).cost <= s.limit
  {
    CapacityBound(s, steps, 1, 1);
  }

  // ---------------------------------------------------------------- the bound is reached

  function Choices(k: nat): seq<Step> {
    if k == 0 then [] else Choices(k - 1) + [Choose(k - 1)]
  }

  function Charges(k: nat, most: nat): seq<Step> {
    if k == 0 then [] else [Charge(k - 1, most)] + Charges(k - 1, most)
  }

  function Below(k: nat): set<Caller> {
    if k == 0 then {} else Below(k - 1) + {k - 1}
  }

  lemma {:induction false} BelowSize(k: nat)
    ensures |Below(k)| == k && forall c: Caller :: c in Below(k) <==> c < k
  {
    if k > 0 {
      BelowSize(k - 1);
    }
  }

  lemma {:induction false} RunAppend(s: State, a: seq<Step>, b: seq<Step>)
    ensures Run(s, a + b) == Run(Run(s, a), b)
    decreases |a|
  {
    if a == [] {
      assert a + b == b;
    } else {
      assert (a + b)[1..] == a[1..] + b;
      RunAppend(Next(s, a[0]), a[1..], b);
    }
  }

  lemma {:induction false} BoundedAppend(s: State, a: seq<Step>, b: seq<Step>, k: nat, most: nat)
    requires Bounded(s, a, k, most) && Bounded(Run(s, a), b, k, most)
    ensures Bounded(s, a + b, k, most)
    decreases |a|
  {
    if a == [] {
      assert a + b == b;
    } else {
      assert (a + b)[1..] == a[1..] + b;
      BoundedAppend(Next(s, a[0]), a[1..], b, k, most);
    }
  }

  lemma RunsInTurn(s: State, a: seq<Step>, b: seq<Step>, k: nat, most: nat)
    requires Bounded(s, a, k, most) && Bounded(Run(s, a), b, k, most)
    ensures Run(s, a + b) == Run(Run(s, a), b) && Bounded(s, a + b, k, most)
  {
    RunAppend(s, a, b);
    BoundedAppend(s, a, b, k, most);
  }

  /** The j-th choice finds the counter as it was and joins the flight. */
  lemma OneMoreChoice(cost: int, limit: int, j: nat, k: nat, most: nat)
    requires cost < limit && j < k
    ensures var t := State(cost, limit, Below(j)); var steps := [Choose(j)];
      Run(t, steps) == State(cost, limit, Below(j + 1)) && Bounded(t, steps, k, most)
  {
    var t := State(cost, limit, Below(j));
    BelowSize(j);
    BelowSize(j + 1);
    assert [Choose(j)][1..] == [];
    assert Next(t, Choose(j)) == State(cost, limit, Below(j + 1));
    assert Bounded(Next(t, Choose(j)), [], k, most);
  }

  lemma {:induction false} AllChoose(cost: int, limit: int, j: nat, k: nat, most: nat)
    requires cost < limit && j <= k
    ensures Run(State(cost, limit, {}), Choices(j)) == State(cost, limit, Below(j))
    ensures Bounded(State(cost, limit, {}), Choices(j), k, most)
  {
    if j > 0 {
      AllChoose(cost, limit, j - 1, k, most);
      OneMoreChoice(cost, limit, j - 1, k, most);
      RunsInTurn(State(cost, limit, {}), Choices(j - 1), [Choose(j - 1)], k, most);
    }
  }

  lemma FirstCharge(cost: int, limit: int, j: nat, most: nat)
    requires j > 0
    ensures Next(State(cost, limit, Below(j)), Charge(j - 1, most)) == State(cost + most, limit, Below(j - 1))
  {
    BelowSize(j);
    BelowSize(j - 1);
    assert Below(j) - {j - 1} == Below(j - 1);
  }

  lemma OneMore(j: nat, most: nat)
    requires j > 0
    ensures most + (j - 1) * most == j * most
  {
  }

  lemma {:induction false} AllCharge(cost: int, limit: int, j: nat, k: nat, most: nat)
    requires j <= k
    ensures Run(State(cost, limit, Below(j)), Charges(j, most)).cost == cost + j * most
    ensures Bounded(State(cost, limit, Below(j)), Charges(j, most), k, most)
    decreases j
  {
    BelowSize(j);
    if j > 0 {
      FirstCharge(cost, limit, j, most);
      assert Charges(j, most)[0] == Charge(j - 1, most) && Charges(j, most)[1..] == Charges(j - 1, most);
      AllCharge(cost + most, limit, j - 1, k, most);
      OneMore(j, most);
    }
  }

  /** The bound cannot be improved: for every limit, number in flight and cost there is a run
      within those bounds that reaches it. */
  lemma CapacityBoundIsReached(limit: int, k: nat, most: nat)
    ensures var s := State(limit - 1, limit, {}); var steps := Choices(k) + Charges(k, most);
      Bounded(s, steps, k, most) && Run(s, steps).cost == limit - 1 + k * most
  {
    var s := State(limit - 1, limit, {});
    AllChoose(limit - 1, limit, k, k, most);
    AllCharge(limit - 1, limit, k, k, most);
    RunsInTurn(s, Choices(k), Charges(k, most), k, most);
  }
}
