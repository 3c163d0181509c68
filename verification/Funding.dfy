/** Paying for notifications: any number of concurrent creations, whose affordability check
    and charge are far apart, next to admin balance resets and new accounts. */
module Funding {
  import opened Wrappers

  datatype Account = UserAccount(id: nat) | GuildAccount(id: nat)
  datatype Kind = Discord | Webhook
  datatype CostType = Personal | Credit | Guild
  type Caller = nat

  const STANDARD: nat := 1
  const FREE: nat := 0
  const BASE_GUILD_BALANCE: nat := 5
  const BASE_BALANCE: nat := 10

  function ResolveCost(t: CostType): nat {
    if t.Credit? then FREE else STANDARD
  }

  datatype Request = Request(kind: Kind, owner: nat, costType: CostType, guild: Option<nat>, creditAllowed: bool)

  /** The account a request is charged to, if it is charged. */
  function Payer(q: Request): Option<Account> {
    match q.costType
    case Personal => Some(UserAccount(q.owner))
    case Guild => if q.guild.Some? then Some(GuildAccount(q.guild.value)) else None
    case Credit => None
  }

  datatype Pc =
    | Checked                                     // affordability was checked
    | Subscribed                                  // the event row exists
    | Charged(epoch: nat)                         // paid, or free of charge
    | Saved(epoch: nat)
    | Lost(epoch: nat)                            // paid, but a later step failed
    | Failed

  datatype State = State(
    balance: map<Account, nat>,
    base: map<Account, nat>,                      // value at the last set
    epoch: map<Account, nat>,                     // how often the balance was set
    requests: map<Caller, Request>,               // what the creation asked for
    pcs: map<Caller, Pc>,
    costType: map<Caller, CostType>)              // what the saved notification says now

  datatype Step =
    | Check(c: Caller, q: Request)
    | GetEvent(c: Caller)
    | Charge(c: Caller)
    | Save(c: Caller)
    | Update(c: Caller, costType: CostType)       // an update of a saved notification
    | Fail(c: Caller)                             // a validation or a guild lookup throws
    | GetOrCreateGuild(g: nat)
    | NewUser(u: nat)
    | SetBalance(u: nat, value: nat)

  function Init(): State {
    State(map[], map[], map[], map[], map[], map[])
  }

  /** `assertCanAfford`. */
  predicate CanAfford(s: State, q: Request) {
    match q.costType
    case Credit => q.creditAllowed
    case Personal => UserAccount(q.owner) in s.balance && s.balance[UserAccount(q.owner)] >= STANDARD
    case Guild => q.guild.Some? && GuildAccount(q.guild.value) in s.balance && s.balance[GuildAccount(q.guild.value)] >= STANDARD
  }

  function SetAccount(s: State, a: Account, value: nat): State {
    s.(balance := s.balance[a := value], base := s.base[a := value],
       epoch := s.epoch[a := 1 + if a in s.epoch then s.epoch[a] else 0])
  }

  /** `applyCharge`: one guarded decrement. */
  function ApplyCharge(s: State, c: Caller): State
    requires c in s.requests
  {
    var q := s.requests[c];
    if ResolveCost(q.costType) == 0 || Payer(q).None? then s.(pcs := s.pcs[c := Charged(0)])
    else
      var a := Payer(q).value;
      if a in s.balance && a in s.epoch && s.balance[a] >= ResolveCost(q.costType)
      then s.(balance := s.balance[a := s.balance[a] - ResolveCost(q.costType)], pcs := s.pcs[c := Charged(s.epoch[a])])
      else s.(pcs := s.pcs[c := Failed])
  }

  function Next(s: State, a: Step): State {
    match a
    case Check(c, q) =>
      if c in s.pcs then s
      else s.(requests := s.requests[c := q], pcs := s.pcs[c := if CanAfford(s, q) then Checked else Failed])
    case GetEvent(c) =>
      if c in s.pcs && s.pcs[c].Checked? then s.(pcs := s.pcs[c := Subscribed]) else s
    case Charge(c) =>
      if c in s.pcs && c in s.requests && s.pcs[c].Subscribed? then ApplyCharge(s, c) else s
    case Save(c) =>
      if c in s.pcs && c in s.requests && s.pcs[c].Charged?
      then s.(pcs := s.pcs[c := Saved(s.pcs[c].epoch)], costType := s.costType[c := s.requests[c].costType])
      else s
    case Update(c, t) =>                          // the cost type is written and nothing is charged
      if c in s.pcs && s.pcs[c].Saved? then s.(costType := s.costType[c := t]) else s
    case Fail(c) =>
      if c !in s.pcs then s
      else if s.pcs[c].Charged? then s.(pcs := s.pcs[c := Lost(s.pcs[c].epoch)])
      else if s.pcs[c].Checked? || s.pcs[c].Subscribed? then s.(pcs := s.pcs[c := Failed])
      else s
    case GetOrCreateGuild(g) =>
      if GuildAccount(g) in s.balance then s else SetAccount(s, GuildAccount(g), BASE_GUILD_BALANCE)
    case NewUser(u) =>
      if UserAccount(u) in s.balance then s else SetAccount(s, UserAccount(u), BASE_BALANCE)
    case SetBalance(u, v) =>
      if UserAccount(u) in s.balance then SetAccount(s, UserAccount(u), v) else s
  }

  function Run(s: State, steps: seq<Step>): State
    decreases |steps|
  {
    if steps == [] then s else Run(Next(s, steps[0]), steps[1..])
  }

  // ---------------------------------------------------------------- conservation

  /** When the creation paid, if it did: the number of sets of its account until then. */
  function PaidEpoch(p: Pc): Option<nat> {
    match p
    case Charged(e) => Some(e)
    case Saved(e) => Some(e)
    case Lost(e) => Some(e)
    case _ => None
  }

  function PayerOf(s: State, c: Caller): Option<Account> {
    if c in s.requests then Payer(s.requests[c]) else None
  }

  /** The creation took its money from this account after the account was last set. */
  predicate PaidBy(s: State, c: Caller, a: Account) {
    c in s.pcs && PayerOf(s, c) == Some(a) && a in s.epoch && PaidEpoch(s.pcs[c]) == Some(s.epoch[a])
  }

  function Payments(s: State, a: Account): set<Caller> {
    set c | c in s.pcs && PaidBy(s, c, a)
  }

  predicate EpochsPast(s: State) {
    forall c <- s.pcs :: c in s.requests &&
      (PayerOf(s, c).Some? && PaidEpoch(s.pcs[c]).Some? ==>
        PayerOf(s, c).value in s.epoch && PaidEpoch(s.pcs[c]).value <= s.epoch[PayerOf(s, c).value])
  }

  predicate Balanced(s: State, a: Account)
    requires a in s.balance && a in s.base
  {
    s.balance[a] + |Payments(s, a)| * STANDARD == s.base[a]
  }

  predicate Conserved(s: State) {
    && s.base.Keys == s.balance.Keys == s.epoch.Keys
    && EpochsPast(s)
    && forall a <- s.balance :: Balanced(s, a)
  }

  lemma SamePayments(s: State, t: State, a: Account)
    requires forall c :: PaidBy(s, c, a) <==> PaidBy(t, c, a)
    ensures Payments(t, a) == Payments(s, a)
  {
  }

  /** Only the caller's program counter, and its request when it is new, may differ. */
  predicate OnlyMoves(s: State, t: State, c: Caller) {
    && t.epoch == s.epoch && t.base == s.base
    && c in t.pcs && c in t.requests
    && t.pcs == s.pcs[c := t.pcs[c]] && t.requests == s.requests[c := t.requests[c]]
    && (c in s.pcs && c in s.requests ==> t.requests[c] == s.requests[c])
  }

  lemma OthersPayTheSame(s: State, t: State, c: Caller, a: Account)
    requires OnlyMoves(s, t, c)
    ensures Payments(t, a) - {c} == Payments(s, a) - {c}
  {
  }

  /** The move takes no payment and undoes none. */
  predicate MovesFree(s: State, t: State, c: Caller) {
    OnlyMoves(s, t, c) && t.balance == s.balance &&
    (Payer(t.requests[c]).None? || PaidEpoch(t.pcs[c]) == if c in s.pcs then PaidEpoch(s.pcs[c]) else None)
  }

  lemma FreeMoveKeepsPayments(s: State, t: State, c: Caller, a: Account)
    requires EpochsPast(s) && MovesFree(s, t, c)
    ensures Payments(t, a) == Payments(s, a)
  {
    OthersPayTheSame(s, t, c, a);
    assert c in Payments(t, a) <==> c in Payments(s, a);
    assert Payments(t, a) == (Payments(t, a) - {c}) + (if c in Payments(t, a) then {c} else {});
    assert Payments(s, a) == (Payments(s, a) - {c}) + (if c in Payments(s, a) then {c} else {});
  }

  lemma FreeMoveKeepsEpochs(s: State, t: State, c: Caller)
    requires EpochsPast(s) && MovesFree(s, t, c)
    ensures EpochsPast(t)
  {
    forall d <- t.pcs ensures d in t.requests &&
      (PayerOf(t, d).Some? && PaidEpoch(t.pcs[d]).Some? ==>
        PayerOf(t, d).value in t.epoch && PaidEpoch(t.pcs[d]).value <= t.epoch[PayerOf(t, d).value])
    {
      if d != c {
        assert d in s.pcs && PayerOf(t, d) == PayerOf(s, d) && t.pcs[d] == s.pcs[d];
      }
    }
  }

  lemma MoveConserves(s: State, t: State, c: Caller)
    requires Conserved(s) && MovesFree(s, t, c)
    ensures Conserved(t)
  {
    FreeMoveKeepsEpochs(s, t, c);
    forall a <- t.balance ensures Balanced(t, a) {
      assert Balanced(s, a);
      FreeMoveKeepsPayments(s, t, c, a);
    }
  }

  lemma PaymentIsAdded(s: State, t: State, c: Caller, a: Account, b: Account)
    requires OnlyMoves(s, t, c) && c in s.pcs && c in s.requests && PaidEpoch(s.pcs[c]).None?
    requires Payer(s.requests[c]) == Some(a) && a in s.epoch && t.pcs[c] == Charged(s.epoch[a])
    ensures Payments(t, b) == if b == a then Payments(s, b) + {c} else Payments(s, b)
    ensures c !in Payments(s, b)
  {
    OthersPayTheSame(s, t, c, b);
    assert c !in Payments(s, b);
    assert c in Payments(t, b) <==> b == a;
  }

  lemma PaymentKeepsEpochs(s: State, t: State, c: Caller, a: Account)
    requires EpochsPast(s) && OnlyMoves(s, t, c) && c in s.pcs && c in s.requests
    requires Payer(s.requests[c]) == Some(a) && a in s.epoch && t.pcs[c] == Charged(s.epoch[a])
    ensures EpochsPast(t)
  {
    assert forall d <- t.pcs :: d != c ==> d in s.pcs && PayerOf(t, d) == PayerOf(s, d) && t.pcs[d] == s.pcs[d];
  }

  lemma PaymentConserves(s: State, t: State, c: Caller, a: Account)
    requires Conserved(s) && OnlyMoves(s, t, c) && c in s.pcs && c in s.requests && PaidEpoch(s.pcs[c]).None?
    requires Payer(s.requests[c]) == Some(a) && a in s.balance && s.balance[a] >= STANDARD
    requires t.pcs[c] == Charged(s.epoch[a]) && t.balance == s.balance[a := s.balance[a] - STANDARD]
    ensures Conserved(t)
  {
    PaymentKeepsEpochs(s, t, c, a);
    forall b <- t.balance ensures Balanced(t, b) {
      assert Balanced(s, b);
      PaymentIsAdded(s, t, c, a, b);
    }
  }

  lemma ChargeMoves(s: State, c: Caller)
    requires c in s.pcs && c in s.requests
    ensures OnlyMoves(s, ApplyCharge(s, c), c)
  {
    var t := ApplyCharge(s, c);
    assert t.requests == s.requests[c := t.requests[c]];
  }

  predicate Decrements(s: State, t: State, c: Caller)
    requires c in s.requests && c in t.pcs
  {
    match Payer(s.requests[c])
    case None => false
    case Some(a) =>
      a in s.balance && a in s.epoch && s.balance[a] >= STANDARD
      && t.pcs[c] == Charged(s.epoch[a]) && t.balance == s.balance[a := s.balance[a] - STANDARD]
  }

  /** A charge either moves no money or is one guarded decrement. */
  lemma FreeOrDecrement(s: State, c: Caller)
    requires c in s.pcs && c in s.requests && s.pcs[c].Subscribed?
    ensures ApplyCharge(s, c).balance == s.balance ==> MovesFree(s, ApplyCharge(s, c), c)
    ensures ApplyCharge(s, c).balance != s.balance ==> Decrements(s, ApplyCharge(s, c), c)
  {
    ChargeMoves(s, c);
  }

  lemma ChargeConserves(s: State, c: Caller)
    requires Conserved(s) && c in s.pcs && s.pcs[c].Subscribed?
    ensures Conserved(ApplyCharge(s, c))
  {
    var t := ApplyCharge(s, c);
    ChargeMoves(s, c);
    FreeOrDecrement(s, c);
    if t.balance == s.balance {
      MoveConserves(s, t, c);
    } else {
      PaymentConserves(s, t, c, Payer(s.requests[c]).value);
    }
  }

  lemma SetConserves(s: State, a: Account, value: nat)
    requires Conserved(s)
    ensures Conserved(SetAccount(s, a, value))
  {
    var t := SetAccount(s, a, value);
    forall b <- t.balance ensures Balanced(t, b) {
      if b == a {
        assert Payments(t, a) == {};
      } else {
        assert Balanced(s, b);
        SamePayments(s, t, b);
      }
    }
  }

  lemma CheckConserves(s: State, c: Caller, q: Request)
    requires Conserved(s)
    ensures Conserved(Next(s, Check(c, q)))
  {
    var t := Next(s, Check(c, q));
    if t != s {
      MoveConserves(s, t, c);
    }
  }

  lemma FailMoves(s: State, c: Caller)
    requires EpochsPast(s) && Next(s, Fail(c)) != s
    ensures MovesFree(s, Next(s, Fail(c)), c)
  {
    var t := Next(s, Fail(c));
    assert c in s.requests && t.requests == s.requests[c := t.requests[c]];
  }

  lemma FailConserves(s: State, c: Caller)
    requires Conserved(s)
    ensures Conserved(Next(s, Fail(c)))
  {
    if Next(s, Fail(c)) != s {
      FailMoves(s, c);
      MoveConserves(s, Next(s, Fail(c)), c);
    }
  }

  lemma AdvanceConserves(s: State, a: Step)
    requires Conserved(s) && (a.GetEvent? || a.Save?)
    ensures Conserved(Next(s, a))
  {
    var t := Next(s, a);
    if t != s {
      assert t.requests == s.requests[a.c := t.requests[a.c]];
      MoveConserves(s, t, a.c);
    }
  }

  lemma UpdateConserves(s: State, a: Step)
    requires Conserved(s) && a.Update?
    ensures Conserved(Next(s, a))
  {
    var t := Next(s, a);
    forall b <- t.balance ensures Balanced(t, b) {
      assert Balanced(s, b);
      SamePayments(s, t, b);
    }
  }

  lemma StepConserves(s: State, a: Step)
    requires Conserved(s)
    ensures Conserved(Next(s, a))
  {
    match a
    case Charge(c) =>
      if c in s.pcs && s.pcs[c].Subscribed? { ChargeConserves(s, c); }
    case GetOrCreateGuild(g) => SetConserves(s, GuildAccount(g), BASE_GUILD_BALANCE);
    case NewUser(u) => SetConserves(s, UserAccount(u), BASE_BALANCE);
    case SetBalance(u, v) => SetConserves(s, UserAccount(u), v);
    case Update(_, _) => UpdateConserves(s, a);
    case Check(c, q) => CheckConserves(s, c, q);
    case Fail(c) => FailConserves(s, c);
    case _ => AdvanceConserves(s, a);
  }

  /** In every interleaving each balance is the value last set minus the charges since, and
      so never negative. */
  lemma {:induction false} MoneyIsConserved(s: State, steps: seq<Step>)
    requires Conserved(s)
    ensures Conserved(Run(s, steps))
    decreases |steps|
  {
    if steps != [] {
      StepConserves(s, steps[0]);
      MoneyIsConserved(Next(s, steps[0]), steps[1..]);
    }
  }

  function SavedSince(s: State, a: Account): set<Caller> {
    set c | c in s.pcs && s.pcs[c].Saved? && PaidBy(s, c, a)
  }

  lemma SubsetSize(A: set<Caller>, B: set<Caller>)
    requires A <= B
    ensures |A| <= |B|
  {
    assert |B| == |A| + |B - A| by { assert B == A + (B - A); }
  }

  /** No account pays for more notifications than it was last given, although every creation
      checked its funds long before paying. */
  lemma NoOverspending(steps: seq<Step>, a: Account)
    ensures var s := Run(Init(), steps);
      a in s.balance ==> a in s.base && |SavedSince(s, a)| * STANDARD <= s.base[a]
  {
    MoneyIsConserved(Init(), steps);
    var s := Run(Init(), steps);
    SubsetSize(SavedSince(s, a), Payments(s, a));
  }

  predicate MustPay(q: Request) {
    !q.costType.Credit?
  }

  predicate ChargedAs(q: Request, p: Pc, epoch: map<Account, nat>) {
    Payer(q).Some? && Payer(q).value in epoch && PaidEpoch(p).Some? && 1 <= PaidEpoch(p).value <= epoch[Payer(q).value]
  }

  /** The creation went through a guarded decrement of its payer's balance: only that records
      a positive epoch, the epoch in which `Payments` counts it. */
  predicate WasCharged(s: State, c: Caller) {
    c in s.pcs && c in s.requests && ChargedAs(s.requests[c], s.pcs[c], s.epoch)
  }

  /** A request that must pay names an account from its check on, and has paid it once charged. */
  predicate PaysAs(q: Request, p: Pc, epoch: map<Account, nat>) {
    MustPay(q) ==>
      (p.Checked? || p.Subscribed? ==> Payer(q).Some?) && (PaidEpoch(p).Some? ==> ChargedAs(q, p, epoch))
  }

  predicate PaysInTime(s: State, c: Caller)
    requires c in s.pcs
  {
    c in s.requests && PaysAs(s.requests[c], s.pcs[c], s.epoch) && (s.pcs[c].Saved? ==> c in s.costType)
  }

  predicate PaidWhenSaved(s: State) {
    && s.epoch.Keys == s.balance.Keys
    && (forall a <- s.epoch :: s.epoch[a] >= 1)
    && (forall c <- s.pcs :: PaysInTime(s, c))
  }

  lemma ChargedCallerPays(s: State, d: Caller, c: Caller)
    requires PaidWhenSaved(s) && d in s.pcs && d in s.requests && s.pcs[d].Subscribed? && c in ApplyCharge(s, d).pcs
    ensures PaysInTime(ApplyCharge(s, d), c)
  {
    assert PaysInTime(s, c);
  }

  lemma ResetCallerPays(s: State, a: Account, value: nat, c: Caller)
    requires PaidWhenSaved(s) && c in s.pcs
    ensures PaysInTime(SetAccount(s, a, value), c)
  {
    assert PaysInTime(s, c);
  }

  lemma CheckedCallerPays(s: State, a: Step, c: Caller)
    requires a.Check? && (c in s.pcs ==> PaysInTime(s, c)) && c in Next(s, a).pcs
    ensures PaysInTime(Next(s, a), c)
  {
  }

  lemma FailedCallerPays(s: State, a: Step, c: Caller)
    requires a.Fail? && (c in s.pcs ==> PaysInTime(s, c)) && c in Next(s, a).pcs
    ensures PaysInTime(Next(s, a), c)
  {
    var t := Next(s, a);
    assert t.epoch == s.epoch && t.requests == s.requests && t.costType == s.costType;
    assert t.pcs[c] == s.pcs[c] || t.pcs[c].Failed? || PaidEpoch(t.pcs[c]) == PaidEpoch(s.pcs[c]);
  }

  lemma MovedCallerPays(s: State, a: Step, c: Caller)
    requires a.GetEvent? || a.Save? || a.Update?
    requires (c in s.pcs ==> PaysInTime(s, c)) && c in Next(s, a).pcs
    ensures PaysInTime(Next(s, a), c)
  {
  }

  lemma CallerPays(s: State, a: Step, c: Caller)
    requires PaidWhenSaved(s) && c in Next(s, a).pcs
    ensures PaysInTime(Next(s, a), c)
  {
    assert c in s.pcs ==> PaysInTime(s, c);
    match a
    case Charge(d) =>
      if d in s.pcs && s.pcs[d].Subscribed? && d in s.requests { ChargedCallerPays(s, d, c); }
    case GetOrCreateGuild(g) => ResetCallerPays(s, GuildAccount(g), BASE_GUILD_BALANCE, c);
    case NewUser(u) => ResetCallerPays(s, UserAccount(u), BASE_BALANCE, c);
    case SetBalance(u, v) => ResetCallerPays(s, UserAccount(u), v, c);
    case Check(_, _) => CheckedCallerPays(s, a, c);
    case Fail(_) => FailedCallerPays(s, a, c);
    case _ => MovedCallerPays(s, a, c);
  }

  lemma PaidWhenSavedStep(s: State, a: Step)
    requires PaidWhenSaved(s)
    ensures PaidWhenSaved(Next(s, a))
  {
    forall c <- Next(s, a).pcs ensures PaysInTime(Next(s, a), c) {
      CallerPays(s, a, c);
    }
  }

  lemma {:induction false} PaidWhenSavedRun(s: State, steps: seq<Step>)
    requires PaidWhenSaved(s)
    ensures PaidWhenSaved(Run(s, steps))
    decreases |steps|
  {
    if steps != [] {
      PaidWhenSavedStep(s, steps[0]);
      PaidWhenSavedRun(Next(s, steps[0]), steps[1..]);
    }
  }

  /** On every run, updates included: a saved notification was charged exactly when it was not
      created on credit, whatever cost type it carries now. */
  lemma SavedChargedIff(steps: seq<Step>, c: Caller)
    ensures var t := Run(Init(), steps);
      c in t.pcs && t.pcs[c].Saved? ==>
        c in t.requests && c in t.costType && (WasCharged(t, c) <==> MustPay(t.requests[c]))
  {
    PaidWhenSavedRun(Init(), steps);
    var t := Run(Init(), steps);
    if c in t.pcs {
      assert PaysInTime(t, c);
    }
  }

  predicate TypeAsCreated(s: State, c: Caller) {
    c in s.costType ==> c in s.pcs && s.pcs[c].Saved? && c in s.requests && s.costType[c] == s.requests[c].costType
  }

  lemma TypeStep(s: State, a: Step, c: Caller)
    requires TypeAsCreated(s, c) && !(a.Update? && a.c == c)
    ensures TypeAsCreated(Next(s, a), c)
  {
  }

  lemma {:induction false} TypeRun(s: State, steps: seq<Step>, c: Caller)
    requires TypeAsCreated(s, c) && forall a <- steps :: !(a.Update? && a.c == c)
    ensures TypeAsCreated(Run(s, steps), c)
    decreases |steps|
  {
    if steps != [] {
      TypeStep(s, steps[0], c);
      TypeRun(Next(s, steps[0]), steps[1..], c);
    }
  }

  /** A saved notification that no update has touched and that is not funded by credit was
      charged. */
  lemma UntouchedIsPaid(steps: seq<Step>, c: Caller)
    requires forall a <- steps :: !(a.Update? && a.c == c)
    ensures var t := Run(Init(), steps);
      c in t.pcs && t.pcs[c].Saved? && c in t.costType && !t.costType[c].Credit? ==> WasCharged(t, c)
  {
    SavedChargedIff(steps, c);
    TypeRun(Init(), steps, c);
  }

  /** An update is the way around: in every state a new notification created on credit and then
      updated to another cost type is saved under that type with nothing charged. */
  lemma CreditThenPersonal(s: State, c: Caller, q: Request, t: CostType)
    requires c !in s.pcs && q.costType.Credit? && q.creditAllowed && !t.Credit?
    ensures var u := Next(Next(Next(Next(Next(s, Check(c, q)), GetEvent(c)), Charge(c)), Save(c)), Update(c, t));
      c in u.pcs && u.pcs[c].Saved? && u.costType[c] == t && !WasCharged(u, c) && u.balance == s.balance
  {
    var s1 := Next(Next(s, Check(c, q)), GetEvent(c));
    assert s1.pcs[c] == Subscribed && s1.requests[c] == q && s1.balance == s.balance;
    var s2 := Next(Next(s1, Charge(c)), Save(c));
    assert s2.pcs[c] == Saved(0) && s2.requests[c] == q && s2.balance == s.balance;
  }

  // ---------------------------------------------------------------- one creation by itself

  /** One creation with nothing in between is saved exactly when it may be: on credit where the
      streamer allows it, and otherwise with at least one unit on the account it names, which then
      loses one unit and no other account anything. */
  lemma CreationOutcome(s: State, c: Caller, q: Request)
    requires Conserved(s) && c !in s.pcs
    ensures var t := Next(Next(Next(Next(s, Check(c, q)), GetEvent(c)), Charge(c)), Save(c));
      var u, g := UserAccount(q.owner), if q.guild.Some? then GuildAccount(q.guild.value) else UserAccount(q.owner);
      c in t.pcs && match q.costType
        case Credit => (t.pcs[c].Saved? <==> q.creditAllowed) && t.balance == s.balance
        case Personal =>
          && (t.pcs[c].Saved? <==> u in s.balance && s.balance[u] >= 1)
          && t.balance == if t.pcs[c].Saved? then s.balance[u := s.balance[u] - 1] else s.balance
        case Guild =>
          && (t.pcs[c].Saved? <==> q.guild.Some? && g in s.balance && s.balance[g] >= 1)
          && t.balance == if t.pcs[c].Saved? then s.balance[g := s.balance[g] - 1] else s.balance
  {
    CreationAlone(s, c, q);
    AffordOutcome(s, q);
  }

  lemma CreationAlone(s: State, c: Caller, q: Request)
    requires Conserved(s) && c !in s.pcs
    ensures var t := Next(Next(Next(Next(s, Check(c, q)), GetEvent(c)), Charge(c)), Save(c));
      && c in t.pcs && (t.pcs[c].Saved? <==> CanAfford(s, q))
      && (t.pcs[c].Saved? && Payer(q).Some? ==> Payer(q).value in s.balance && s.balance[Payer(q).value] >= 1)
      && t.balance == (if t.pcs[c].Saved? && Payer(q).Some?
                       then s.balance[Payer(q).value := s.balance[Payer(q).value] - 1] else s.balance)
  {
    CheckAlone(s, c, q);
    var s1 := s.(requests := s.requests[c := q], pcs := s.pcs[c := if CanAfford(s, q) then Subscribed else Failed]);
    if CanAfford(s, q) {
      assert Next(s1, Charge(c)) == ApplyCharge(s1, c);
      ChargeAlone(s1, c);
      SaveAlone(ApplyCharge(s1, c), c);
    } else {
      FailedStays(s1, c);
    }
  }

  lemma FailedStays(s: State, c: Caller)
    requires c in s.pcs && s.pcs[c] == Failed
    ensures Next(s, Charge(c)) == s && Next(s, Save(c)) == s
  {
  }

  lemma AffordOutcome(s: State, q: Request)
    ensures CanAfford(s, q) ==> (q.costType.Credit? ==> q.creditAllowed) && (Payer(q).Some? <==> !q.costType.Credit?)
    ensures q.costType.Personal? ==> Payer(q) == Some(UserAccount(q.owner))
    ensures q.costType.Guild? && q.guild.Some? ==> Payer(q) == Some(GuildAccount(q.guild.value))
  {
  }

  lemma CheckAlone(s: State, c: Caller, q: Request)
    requires c !in s.pcs
    ensures Next(Next(s, Check(c, q)), GetEvent(c)) ==
      s.(requests := s.requests[c := q], pcs := s.pcs[c := if CanAfford(s, q) then Subscribed else Failed])
  {
    assert s.pcs[c := Checked][c := Subscribed] == s.pcs[c := Subscribed];
  }

  lemma ChargeAlone(s: State, c: Caller)
    requires s.epoch.Keys == s.balance.Keys
    requires c in s.requests && CanAfford(s, s.requests[c])
    ensures var t := ApplyCharge(s, c); var payer := Payer(s.requests[c]);
      && t.requests == s.requests && c in t.pcs && t.pcs[c].Charged?
      && (payer.None? <==> s.requests[c].costType.Credit?)
      && (payer.None? ==> t.balance == s.balance)
      && (payer.Some? ==> payer.value in s.balance && s.balance[payer.value] >= 1)
      && (payer.Some? ==> t.balance == s.balance[payer.value := s.balance[payer.value] - 1])
  {
  }

  lemma SaveAlone(s: State, c: Caller)
    requires c in s.requests && c in s.pcs && s.pcs[c].Charged?
    ensures var t := Next(s, Save(c)); c in t.pcs && t.pcs[c].Saved? && t.balance == s.balance
  {
  }

  /** A new user starts with ten units and a new guild with five, an administrator sets a known
      user's balance, and an account that exists is left alone by the first two. */
  lemma AccountOutcome(s: State, u: nat, g: nat, value: nat)
    ensures Next(s, NewUser(u)).balance == if UserAccount(u) in s.balance then s.balance else s.balance[UserAccount(u) := 10]
    ensures Next(s, GetOrCreateGuild(g)).balance == if GuildAccount(g) in s.balance then s.balance else s.balance[GuildAccount(g) := 5]
    ensures Next(s, SetBalance(u, value)).balance == if UserAccount(u) in s.balance then s.balance[UserAccount(u) := value] else s.balance
  {
  }

  /** The last unit is spent once: of two creations that both passed the check on it, the one
      that charges first pays and the other fails. */
  lemma LastUnitIsSpentOnce(s: State, c: Caller, d: Caller, a: Account)
    requires c != d && c in s.pcs && d in s.pcs && s.pcs[c].Subscribed? && s.pcs[d].Subscribed?
    requires c in s.requests && d in s.requests && a in s.epoch
    requires Payer(s.requests[c]) == Some(a) && Payer(s.requests[d]) == Some(a)
    requires a in s.balance && s.balance[a] == STANDARD
    ensures var t := Next(Next(s, Charge(c)), Charge(d));
      t.balance[a] == 0 && t.pcs[c].Charged? && t.pcs[d].Failed?
  {
  }
}
