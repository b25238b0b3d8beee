/** What a batch does to the score board in total: its costs, what attribution moves from hits
    to misses, and the credits it issues. */
module BoardTotals {
  import opened Wrappers
  import opened CostAttribution
  import opened CostLedger
  import opened ChargeQueue

  // ---------- sums over clients ----------

  function SumOver(cs: seq<Client>, f: Client -> real): real {
    if cs == [] then 0.0 else SumOver(cs[..|cs| - 1], f) + f(cs[|cs| - 1])
  }

  lemma {:induction false} SumAdd(cs: seq<Client>, f: Client -> real, g: Client -> real, h: Client -> real)
    requires forall c :: h(c) == f(c) + g(c)
    ensures SumOver(cs, h) == SumOver(cs, f) + SumOver(cs, g)
  {
    if cs != [] {
      SumAdd(cs[..|cs| - 1], f, g, h);
    }
  }

  lemma {:induction false} SumZero(cs: seq<Client>, f: Client -> real)
    requires forall c :: f(c) == 0.0
    ensures SumOver(cs, f) == 0.0
  {
    if cs != [] {
      SumZero(cs[..|cs| - 1], f);
    }
  }

  /** A change at one client. */
  lemma {:induction false} SumShift(cs: seq<Client>, f: Client -> real, g: Client -> real, at: Client, x: real)
    requires Distinct(cs) && forall c :: g(c) == f(c) + (if c == at then x else 0.0)
    ensures SumOver(cs, g) == SumOver(cs, f) + (if at in cs then x else 0.0)
  {
    if cs != [] {
      var n := |cs| - 1;
      SumShift(cs[..n], f, g, at, x);
      assert cs == cs[..n] + [cs[n]];
    }
  }

  // ---------- dictionaries as reported ----------

  /** A list with one entry for every client of a dictionary. */
  ghost predicate ListsServed(usage: seq<Usage>, served: map<Client, (int, int)>) {
    && (forall i, j :: 0 <= i < j < |usage| ==> usage[i].client != usage[j].client)
    && (forall i :: 0 <= i < |usage| ==>
          usage[i].client in served && served[usage[i].client] == (usage[i].hit, usage[i].miss))
    && (forall c :: c in served ==> exists i :: 0 <= i < |usage| && usage[i].client == c)
  }

  ghost predicate ListsCredits(list: seq<(Client, real)>, credits: map<Client, real>) {
    && (forall i, j :: 0 <= i < j < |list| ==> list[i].0 != list[j].0)
    && (forall i :: 0 <= i < |list| ==> list[i].0 in credits && credits[list[i].0] == list[i].1)
    && (forall c :: c in credits ==> exists i :: 0 <= i < |list| && list[i].0 == c)
  }

  lemma {:induction false} CostOfNone(w: Weights, usage: seq<Usage>, c: Client)
    requires forall i :: 0 <= i < |usage| ==> usage[i].client != c
    ensures CostOf(w, usage, c) == 0.0
  {
    if usage != [] {
      CostOfNone(w, usage[..|usage| - 1], c);
    }
  }

  lemma {:induction false} CostOfOne(w: Weights, usage: seq<Usage>, i: nat)
    requires forall j, k :: 0 <= j < k < |usage| ==> usage[j].client != usage[k].client
    requires i < |usage|
    ensures CostOf(w, usage, usage[i].client) == w.Cost(usage[i])
  {
    var n := |usage| - 1;
    if i == n {
      CostOfNone(w, usage[..n], usage[n].client);
    } else {
      CostOfOne(w, usage[..n], i);
    }
  }

  lemma ListedCost(w: Weights, usage: seq<Usage>, served: map<Client, (int, int)>, c: Client)
    requires ListsServed(usage, served)
    ensures CostOf(w, usage, c) == w.Cost(UsageOf(served, c))
  {
    if c in served {
      var i :| 0 <= i < |usage| && usage[i].client == c;
      CostOfOne(w, usage, i);
    } else {
      CostOfNone(w, usage, c);
      NoCost(w, c);
    }
  }

  function UsageOf(served: map<Client, (int, int)>, c: Client): Usage {
    Usage(c, ServedOf(served, c).0, ServedOf(served, c).1)
  }

  lemma NoCost(w: Weights, c: Client)
    ensures w.Cost(Usage(c, 0, 0)) == 0.0
  {}

  lemma {:induction false} CreditsToNone(list: seq<(Client, real)>, c: Client)
    requires forall i :: 0 <= i < |list| ==> list[i].0 != c
    ensures CreditsTo(list, c) == 0.0
  {
    if list != [] {
      CreditsToNone(list[..|list| - 1], c);
    }
  }

  lemma {:induction false} CreditsToOne(list: seq<(Client, real)>, i: nat)
    requires forall j, k :: 0 <= j < k < |list| ==> list[j].0 != list[k].0
    requires i < |list|
    ensures CreditsTo(list, list[i].0) == list[i].1
  {
    var n := |list| - 1;
    if i == n {
      CreditsToNone(list[..n], list[n].0);
    } else {
      CreditsToOne(list[..n], i);
    }
  }

  lemma ListedCredits(list: seq<(Client, real)>, credits: map<Client, real>, c: Client)
    requires ListsCredits(list, credits)
    ensures CreditsTo(list, c) == Get(credits, c)
  {
    if c in credits {
      var i :| 0 <= i < |list| && list[i].0 == c;
      CreditsToOne(list, i);
    } else {
      CreditsToNone(list, c);
    }
  }

  // ---------- a batch ----------

  function SumCharges(charges: seq<Charge>, f: Charge -> real): real {
    if charges == [] then 0.0 else SumCharges(charges[..|charges| - 1], f) + f(charges[|charges| - 1])
  }

  lemma SumOne(ch: Charge, f: Charge -> real)
    ensures SumCharges([ch], f) == f(ch)
  {
    assert [ch][..|[ch]| - 1] == [];
    assert SumCharges([], f) == 0.0;
  }

  /** What a charged sequence would cost without attribution. */
  function BaseOf(w: Weights, ch: Charge): real {
    if ch.preempted then 0.0 else w.Cost(Usage(ch.client, ch.numComputed, ch.totalLen - ch.numComputed))
  }

  /** What it costs with it. */
  function CostWith(w: Weights, ch: Charge): real {
    var hit := AdjustedHit(ch.numComputed, DeltaHitReduce(ch.items));
    if ch.preempted then 0.0 else w.Cost(Usage(ch.client, hit, ch.totalLen - hit))
  }

  /** The rounded shares of a charged sequence. */
  function MovedOf(ch: Charge): real {
    if ch.preempted then 0.0 else Round(DeltaHitReduce(ch.items)) as real
  }

  // the same as function values, to sum them up

  function BaseFn(w: Weights): Charge -> real {
    ch => BaseOf(w, ch)
  }

  function CostFn(w: Weights): Charge -> real {
    ch => CostWith(w, ch)
  }

  function MovedFn(): Charge -> real {
    ch => MovedOf(ch)
  }

  function BaseCost(w: Weights, charges: seq<Charge>): real {
    SumCharges(charges, BaseFn(w))
  }

  function ChargedCost(w: Weights, charges: seq<Charge>): real {
    SumCharges(charges, CostFn(w))
  }

  function Moved(charges: seq<Charge>): real {
    SumCharges(charges, MovedFn())
  }

  /** The shares of all sequences, before rounding. */
  function Shares(charges: seq<Charge>): real {
    SumCharges(charges, (ch: Charge) => DeltaHitReduce(ch.items))
  }

  /** A batch of clients of `cs`, with shares that are not negative. */
  ghost predicate BatchAmong(cs: seq<Client>, charges: seq<Charge>) {
    && (forall i :: 0 <= i < |charges| ==> charges[i].client in cs && DeltaHitReduce(charges[i].items) >= 0.0)
    && (forall i :: 0 <= i < |charges| ==> ItemsAmong(cs, charges[i].items))
  }

  ghost predicate ItemsAmong(cs: seq<Client>, items: seq<Attribution>) {
    forall j :: 0 <= j < |items| ==>
      Distinct(items[j].oldClients) && forall k :: 0 <= k < |items[j].oldClients| ==> items[j].oldClients[k] in cs
  }

  lemma {:induction false} SumChargesAdd(charges: seq<Charge>, f: Charge -> real, g: Charge -> real, h: Charge -> real)
    requires forall i :: 0 <= i < |charges| ==> f(charges[i]) == g(charges[i]) + h(charges[i])
    ensures SumCharges(charges, f) == SumCharges(charges, g) + SumCharges(charges, h)
  {
    if charges != [] {
      SumChargesAdd(charges[..|charges| - 1], f, g, h);
    }
  }

  lemma {:induction false} SumChargesTimes(charges: seq<Charge>, x: real, f: Charge -> real, g: Charge -> real)
    requires forall i :: 0 <= i < |charges| ==> g(charges[i]) == x * f(charges[i])
    ensures SumCharges(charges, g) == x * SumCharges(charges, f)
  {
    if charges != [] {
      var n := |charges| - 1;
      SumChargesTimes(charges[..n], x, f, g);
      Distribute(x, SumCharges(charges[..n], f), f(charges[n]));
    }
  }

  /** What a token costs more as a miss than as a hit. */
  function Gap(w: Weights): real {
    w.prefill - w.hit
  }

  /** What attribution adds to the cost of a sequence. */
  function Extra(x: real, ch: Charge): real {
    x * MovedOf(ch)
  }

  function ExtraFn(x: real): Charge -> real {
    ch => Extra(x, ch)
  }

  /** What it adds to the cost of a batch. */
  function ExtraCost(w: Weights, charges: seq<Charge>): real {
    SumCharges(charges, ExtraFn(Gap(w)))
  }

  /** The difference of the weights for every token of the rounded shares. */
  lemma ExtraIsMoved(w: Weights, charges: seq<Charge>)
    ensures ExtraCost(w, charges) == Gap(w) * Moved(charges)
  {
    ExtraTimes(Gap(w), charges);
  }

  lemma ExtraTimes(x: real, charges: seq<Charge>)
    ensures SumCharges(charges, ExtraFn(x)) == x * Moved(charges)
  {
    SumChargesTimes(charges, x, MovedFn(), ExtraFn(x));
  }

  lemma ChargedIsBaseAndExtra(w: Weights, charges: seq<Charge>)
    requires forall i :: 0 <= i < |charges| ==> DeltaHitReduce(charges[i].items) >= 0.0
    ensures ChargedCost(w, charges) == BaseCost(w, charges) + ExtraCost(w, charges)
  {
    var x := Gap(w);
    forall i | 0 <= i < |charges|
      ensures CostFn(w)(charges[i]) == BaseFn(w)(charges[i]) + ExtraFn(x)(charges[i])
    {
      OneCharge(w, x, charges[i]);
    }
    SumChargesAdd(charges, CostFn(w), BaseFn(w), ExtraFn(x));
  }

  lemma OneCharge(w: Weights, x: real, ch: Charge)
    requires x == w.prefill - w.hit && DeltaHitReduce(ch.items) >= 0.0
    ensures CostWith(w, ch) == BaseOf(w, ch) + Extra(x, ch)
  {
    if !ch.preempted {
      AttributionCharge(w, ch.client, ch.numComputed, ch.totalLen, DeltaHitReduce(ch.items));
    }
  }

  /** The served dictionary costs what the charges do. */
  lemma {:induction false} ServedCost(cs: seq<Client>, w: Weights, charges: seq<Charge>)
    requires Distinct(cs) && forall i :: 0 <= i < |charges| ==> charges[i].client in cs
    ensures SumOver(cs, c => w.Cost(UsageOf(AfterServingAll(map[], charges), c))) == ChargedCost(w, charges)
  {
    var g := c => w.Cost(UsageOf(AfterServingAll(map[], charges), c));
    if charges == [] {
      forall c
        ensures g(c) == 0.0
      {
        NoCost(w, c);
      }
      SumZero(cs, g);
    } else {
      var n := |charges| - 1;
      var before := AfterServingAll(map[], charges[..n]);
      var f := c => w.Cost(UsageOf(before, c));
      ServedCost(cs, w, charges[..n]);
      var ch := charges[n];
      forall c
        ensures g(c) == f(c) + (if c == ch.client then CostWith(w, ch) else 0.0)
      {
        ServedStep(w, before, ch, c);
      }
      SumShift(cs, f, g, ch.client, CostWith(w, ch));
    }
  }

  lemma ServedStep(w: Weights, before: map<Client, (int, int)>, ch: Charge, c: Client)
    ensures w.Cost(UsageOf(AfterServing(before, ch), c))
            == w.Cost(UsageOf(before, c)) + (if c == ch.client then CostWith(w, ch) else 0.0)
  {
    var hit := AdjustedHit(ch.numComputed, DeltaHitReduce(ch.items));
    CostAdds(w, c, ServedOf(before, c).0, ServedOf(before, c).1, hit, ch.totalLen - hit);
  }

  lemma CostAdds(w: Weights, c: Client, hit: int, miss: int, hit': int, miss': int)
    ensures w.Cost(Usage(c, hit + hit', miss + miss')) == w.Cost(Usage(c, hit, miss)) + w.Cost(Usage(c, hit', miss'))
  {
    Distribute(w.hit, hit as real, hit' as real);
    Distribute(w.prefill, miss as real, miss' as real);
  }

  /** The credits of one retrieve are its shares at the prefill weight. */
  lemma ItemCredits(cs: seq<Client>, items: seq<Attribution>, client: Client)
    requires Distinct(cs) && ItemsAmong(cs, items) && client in cs
    ensures SumOver(cs, c => CreditOf(items, c)) == PREFILL_WEIGHT_COST * DeltaHitReduce(items)
  {
    var net := Settle(map[], client, items, Uncharged);
    SettleTotal(cs, map[], client, items, Uncharged);
    NoTotal(cs);
    UnpaidIsShares(items);
    forall c
      ensures Get(net, c) == -CreditOf(items, c)
    {
      SettleIsChargeMinusCredit(map[], client, items, Uncharged, c);
    }
    TotalIsSum(cs, net, c => CreditOf(items, c));
  }

  lemma {:induction false} TotalIsSum(cs: seq<Client>, net: map<Client, real>, f: Client -> real)
    requires forall c :: Get(net, c) == -f(c)
    ensures Total(cs, net) == -SumOver(cs, f)
  {
    if cs != [] {
      TotalIsSum(cs[..|cs| - 1], net, f);
    }
  }

  lemma {:induction false} NoTotal(cs: seq<Client>)
    ensures Total(cs, map[]) == 0.0
  {
    if cs != [] {
      NoTotal(cs[..|cs| - 1]);
    }
  }

  lemma {:induction false} UnpaidIsShares(items: seq<Attribution>)
    ensures UnpaidShares(items, Uncharged) == PREFILL_WEIGHT_COST * DeltaHitReduce(items)
  {
    if items != [] {
      var n := |items| - 1;
      UnpaidIsShares(items[..n]);
      if items[n].Shared() {
        ShareOfTokens(items[n].tok, |items[n].oldClients| + 1);
      }
    }
  }

  /** And so are those of a batch, preempted sequences included. */
  lemma {:induction false} BatchCredits(cs: seq<Client>, charges: seq<Charge>)
    requires Distinct(cs) && BatchAmong(cs, charges)
    ensures SumOver(cs, c => CreditOfAll(charges, c)) == PREFILL_WEIGHT_COST * Shares(charges)
  {
    var h := c => CreditOfAll(charges, c);
    if charges == [] {
      SumZero(cs, h);
    } else {
      var n := |charges| - 1;
      var f, g := c => CreditOfAll(charges[..n], c), c => CreditOf(charges[n].items, c);
      BatchCredits(cs, charges[..n]);
      ItemCredits(cs, charges[n].items, charges[n].client);
      SumAdd(cs, f, g, h);
    }
  }

  // ---------- on the board ----------

  function TotalBalance(cs: seq<Client>, b: Board): real {
    SumOver(cs, c => b.Balance(c))
  }

  /** A report that lists the dictionaries a batch leaves. */
  ghost predicate ReportOf(r: Report, charges: seq<Charge>, credits: map<Client, real>) {
    && ListsServed(r.usage, AfterServingAll(map[], charges))
    && ListsCredits(r.credits, credits)
    && forall c :: Get(credits, c) == CreditOfAll(charges, c)
  }

  /** One client's balance after the report of a batch. */
  lemma ReportedBalance(w: Weights, b: Board, r: Report, charges: seq<Charge>, credits: map<Client, real>, c: Client)
    requires ReportOf(r, charges, credits)
    ensures AfterReport(w, b, r).Balance(c) ==
            b.Balance(c) + w.Cost(UsageOf(AfterServingAll(map[], charges), c)) - CreditOfAll(charges, c)
  {
    CreditAllBalance(b, r.credits, c);
    ChargeAllBalance(w, CreditAll(b, r.credits), r.usage, c);
    ListedCost(w, r.usage, AfterServingAll(map[], charges), c);
    ListedCredits(r.credits, credits, c);
  }

  lemma BalanceSums(cs: seq<Client>, w: Weights, b: Board, r: Report, charges: seq<Charge>, credits: map<Client, real>)
    requires Distinct(cs) && BatchAmong(cs, charges) && ReportOf(r, charges, credits)
    ensures TotalBalance(cs, AfterReport(w, b, r)) ==
            TotalBalance(cs, b) + ChargedCost(w, charges) - PREFILL_WEIGHT_COST * Shares(charges)
  {
    var old', new' := c => b.Balance(c), c => AfterReport(w, b, r).Balance(c);
    var cost, credit := c => w.Cost(UsageOf(AfterServingAll(map[], charges), c)), c => CreditOfAll(charges, c);
    var mid := c => new'(c) + credit(c);
    forall c
      ensures mid(c) == old'(c) + cost(c)
    {
      ReportedBalance(w, b, r, charges, credits, c);
    }
    SumAdd(cs, new', credit, mid);
    SumAdd(cs, old', cost, mid);
    ServedCost(cs, w, charges);
    BatchCredits(cs, charges);
  }

  /** The balance of all clients moves by the base costs, plus the difference of the weights for
      every token of the rounded shares (`ExtraIsMoved`), minus the shares at the prefill weight. */
  lemma BatchOnBoard(cs: seq<Client>, w: Weights, b: Board, r: Report, charges: seq<Charge>, credits: map<Client, real>)
    requires Distinct(cs) && BatchAmong(cs, charges) && ReportOf(r, charges, credits)
    ensures TotalBalance(cs, AfterReport(w, b, r)) ==
            TotalBalance(cs, b) + BaseCost(w, charges) + ExtraCost(w, charges) - PREFILL_WEIGHT_COST * Shares(charges)
  {
    BalanceSums(cs, w, b, r, charges, credits);
    ChargedIsBaseAndExtra(w, charges);
  }

  /** Attribution is neutral on the score board exactly when the weights make the rounded shares
      of the charged sequences pay for the shares of all. */
  lemma NeutralIff(cs: seq<Client>, w: Weights, b: Board, r: Report, charges: seq<Charge>, credits: map<Client, real>)
    requires Distinct(cs) && BatchAmong(cs, charges) && ReportOf(r, charges, credits)
    ensures TotalBalance(cs, AfterReport(w, b, r)) == TotalBalance(cs, b) + BaseCost(w, charges) <==>
            Gap(w) * Moved(charges) == PREFILL_WEIGHT_COST * Shares(charges)
  {
    BatchOnBoard(cs, w, b, r, charges, credits);
    ExtraIsMoved(w, charges);
  }

  const DEFAULT_WEIGHTS: Weights := Weights(0.02, 0.1)

  /** With the default weights a single charged sequence is neutral only without shares, or with
      shares of exactly 0.8 or 1.6 tokens. */
  lemma DefaultWeightsNeutralIff(ch: Charge)
    requires !ch.preempted && DeltaHitReduce(ch.items) >= 0.0
    ensures var w, delta := DEFAULT_WEIGHTS, DeltaHitReduce(ch.items);
            Gap(w) * Moved([ch]) == PREFILL_WEIGHT_COST * Shares([ch]) <==>
            delta == 0.0 || delta == 0.8 || delta == 1.6
  {
    var delta := DeltaHitReduce(ch.items);
    SumOne(ch, MovedFn());
    SumOne(ch, (c: Charge) => DeltaHitReduce(c.items));
    assert Moved([ch]) == Round(delta) as real && Shares([ch]) == delta;
    RoundedFiveFourths(delta);
  }

  lemma RoundedFiveFourths(delta: real)
    requires delta >= 0.0
    ensures 0.08 * Round(delta) as real == 0.1 * delta <==> delta == 0.0 || delta == 0.8 || delta == 1.6
  {
    var n := Round(delta);
    if 0.08 * n as real == 0.1 * delta {
      assert delta == 0.8 * n as real;
      assert -0.5 <= n as real - delta <= 0.5;
      assert n <= 2;
    }
  }
}
