/** Splitting the cost of shared prefill between clients: charges, shares and credits. */
module CostAttribution {
  import opened Wrappers

  type Client = int

  /** What a retrieve reports of one chunk: whether the client is new to it, who used it
      before, and the tokens charged for it. */
  datatype Attribution = Attribution(wasNew: bool, oldClients: seq<Client>, tok: int) {
    predicate Shared() {
      wasNew && oldClients != []
    }
  }

  /** `dict.get(c, 0)` */
  function Get(m: map<Client, real>, c: Client): real {
    if c in m then m[c] else 0.0
  }

  function Add(m: map<Client, real>, c: Client, x: real): map<Client, real> {
    m[c := Get(m, c) + x]
  }

  const PREFILL_WEIGHT_COST: real := 0.1
  const ETA_ATTRIBUTION: real := 1.0

  /** The part of a chunk's cost that the n-th of its clients bears. */
  function CostPer(tok: int, n: nat): real
    requires n > 0
  {
    PREFILL_WEIGHT_COST * tok as real / n as real
  }

  // ---------- what the retrieve loop hands out ----------

  /** The hit tokens that count as misses instead, over the chunks of one retrieve. */
  function DeltaHitReduce(items: seq<Attribution>): real {
    if items == [] then 0.0
    else
      var n := |items| - 1;
      DeltaHitReduce(items[..n])
      + (if items[n].Shared() then items[n].tok as real / (|items[n].oldClients| + 1) as real else 0.0)
  }

  /** The credit a chunk gives to each of its old clients. */
  function CreditPerOld(a: Attribution): real
    requires a.Shared()
  {
    var k := |a.oldClients|;
    ETA_ATTRIBUTION * (CostPer(a.tok, k) - CostPer(a.tok, k + 1))
  }

  function CreditOf(items: seq<Attribution>, c: Client): real {
    if items == [] then 0.0
    else
      var n := |items| - 1;
      CreditOf(items[..n], c) + (if items[n].Shared() && c in items[n].oldClients then CreditPerOld(items[n]) else 0.0)
  }

  /** Python's `round`: to the nearest integer, halves to the even one. */
  function Round(x: real): int {
    var f := x.Floor;
    var d := x - f as real;
    if d < 0.5 || (d == 0.5 && f % 2 == 0) then f else f + 1
  }

  /** The nearest integer, and of two that are as near the even one; nothing else. */
  lemma RoundIff(x: real, n: int)
    ensures Round(x) == n <==>
            n as real - 0.5 <= x <= n as real + 0.5
            && (x == n as real - 0.5 || x == n as real + 0.5 ==> n % 2 == 0)
  {
    var f := x.Floor;
    if n as real - 0.5 <= x <= n as real + 0.5 {
      assert n - 1 <= f <= n;
    }
  }

  /** The hit tokens a client is charged for after attribution. */
  function AdjustedHit(numComputed: int, deltaHitReduce: real): int {
    if deltaHitReduce > 0.0 then numComputed - Round(deltaHitReduce) else numComputed
  }

  /** What is charged for one sequence of the batch; a sequence that was preempted before
      has been charged already. */
  datatype Charge = Charge(client: Client, preempted: bool, numComputed: int, totalLen: int, items: seq<Attribution>)

  function ServedOf(served: map<Client, (int, int)>, c: Client): (int, int) {
    if c in served then served[c] else (0, 0)
  }

  function AfterServing(served: map<Client, (int, int)>, ch: Charge): map<Client, (int, int)> {
    if ch.preempted then served
    else
      var hit := AdjustedHit(ch.numComputed, DeltaHitReduce(ch.items));
      var was := ServedOf(served, ch.client);
      served[ch.client := (was.0 + hit, was.1 + (ch.totalLen - hit))]
  }

  function AfterServingAll(served: map<Client, (int, int)>, charges: seq<Charge>): map<Client, (int, int)> {
    if charges == [] then served
    else AfterServing(AfterServingAll(served, charges[..|charges| - 1]), charges[|charges| - 1])
  }

  function CreditOfAll(charges: seq<Charge>, c: Client): real {
    if charges == [] then 0.0
    else CreditOfAll(charges[..|charges| - 1], c) + CreditOf(charges[|charges| - 1].items, c)
  }

  /** The accounting dictionaries of one retrieve loop. */
  class Accounting {
    var credits: map<Client, real>
    var served: map<Client, (int, int)>

    constructor ()
      ensures credits == map[] && served == map[]
    {
      credits, served := map[], map[];
    }

    /** Issues the credits of one retrieve and sums up the tokens that become misses. */
    method Attribute(items: seq<Attribution>) returns (deltaHitReduce: real)
      requires forall i :: 0 <= i < |items| ==> Distinct(items[i].oldClients)
      modifies this`credits
      ensures deltaHitReduce == DeltaHitReduce(items)
      ensures forall c :: Get(credits, c) == Get(old(credits), c) + CreditOf(items, c)
    {
      deltaHitReduce := 0.0;
      for i := 0 to |items|
        invariant deltaHitReduce == DeltaHitReduce(items[..i])
        invariant forall c :: Get(credits, c) == Get(old(credits), c) + CreditOf(items[..i], c)
      {
        assert items[..i + 1][..i] == items[..i];
        var a := items[i];
        if a.wasNew && |a.oldClients| > 0 {
          var k := |a.oldClients|;
          deltaHitReduce := deltaHitReduce + a.tok as real / (k + 1) as real;
          ghost var before := credits;
          for j := 0 to k
            invariant forall c ::
                        Get(credits, c) == Get(before, c) + (if c in a.oldClients[..j] then CreditPerOld(a) else 0.0)
          {
            assert a.oldClients[..j + 1] == a.oldClients[..j] + [a.oldClients[j]];
            credits := Add(credits, a.oldClients[j], CreditPerOld(a));
          }
          assert a.oldClients[..k] == a.oldClients;
        }
      }
      assert items[..|items|] == items;
    }

    /** Charges one sequence that was never preempted. */
    method CountServed(client: Client, numComputed: int, totalLen: int, deltaHitReduce: real)
      modifies this`served
      ensures var hit := AdjustedHit(numComputed, deltaHitReduce);
              var was := ServedOf(old(served), client);
              served == old(served)[client := (was.0 + hit, was.1 + (totalLen - hit))]
    {
      var hit, miss;
      if deltaHitReduce > 0.0 {
        hit := numComputed - Round(deltaHitReduce);
        miss := totalLen - hit;
      } else {
        hit := numComputed;
        miss := totalLen - numComputed;
      }
      if client !in served {
        served := served[client := (hit, miss)];
      } else {
        served := served[client := (served[client].0 + hit, served[client].1 + miss)];
      }
    }

    /** The accounting half of the loop over the sequences of a batch. */
    method ChargeBatch(charges: seq<Charge>)
      requires forall i, j :: 0 <= i < |charges| && 0 <= j < |charges[i].items| ==>
                 Distinct(charges[i].items[j].oldClients)
      modifies this
      ensures served == AfterServingAll(old(served), charges)
      ensures forall c :: Get(credits, c) == Get(old(credits), c) + CreditOfAll(charges, c)
    {
      for i := 0 to |charges|
        invariant served == AfterServingAll(old(served), charges[..i])
        invariant forall c :: Get(credits, c) == Get(old(credits), c) + CreditOfAll(charges[..i], c)
      {
        assert charges[..i + 1][..i] == charges[..i];
        var deltaHitReduce := Attribute(charges[i].items);
        if !charges[i].preempted {
          CountServed(charges[i].client, charges[i].numComputed, charges[i].totalLen, deltaHitReduce);
        }
      }
      assert charges[..|charges|] == charges;
    }
  }

  // ---------- shares of a cost ----------

  lemma CostPerTimes(tok: int, n: nat)
    requires n > 0
    ensures CostPer(tok, n) * n as real == PREFILL_WEIGHT_COST * tok as real
  {
  }

  lemma CostPerInjective(tok: int, tok': int, n: nat)
    requires n > 0 && CostPer(tok, n) == CostPer(tok', n)
    ensures tok == tok'
  {
    CostPerTimes(tok, n);
    CostPerTimes(tok', n);
  }

  lemma SharesCancel(tok: int, k: nat)
    requires k > 0
    ensures CostPer(tok, k + 1) == k as real * (CostPer(tok, k) - CostPer(tok, k + 1))
  {
    CostPerTimes(tok, k);
    CostPerTimes(tok, k + 1);
    assert CostPer(tok, k) * k as real == CostPer(tok, k + 1) * (k + 1) as real;
  }

  lemma CreditsMakeShare(a: Attribution)
    requires a.Shared()
    ensures |a.oldClients| as real * CreditPerOld(a) == CostPer(a.tok, |a.oldClients| + 1)
  {
    SharesCancel(a.tok, |a.oldClients|);
    assert CreditPerOld(a) == CostPer(a.tok, |a.oldClients|) - CostPer(a.tok, |a.oldClients| + 1);
  }

  lemma ShareOfTokens(tok: int, n: nat)
    requires n > 0
    ensures CostPer(tok, n) == PREFILL_WEIGHT_COST * (tok as real / n as real)
  {
    var t, m := tok as real, n as real;
    var q := t / m;
    DivTimes(t, m);
    DivTimes(PREFILL_WEIGHT_COST * t, m);
    Associate(PREFILL_WEIGHT_COST, q, m);
    Cancel(CostPer(tok, n), PREFILL_WEIGHT_COST * q, m, PREFILL_WEIGHT_COST * t);
  }

  lemma DivTimes(x: real, y: real)
    requires y > 0.0
    ensures (x / y) * y == x
  {
  }

  lemma Associate(x: real, y: real, z: real)
    ensures (x * y) * z == x * (y * z)
  {
  }

  lemma Cancel(x: real, y: real, n: real, z: real)
    requires n > 0.0 && x * n == z && y * n == z
    ensures x == y
  {
    assert (x - y) * n == 0.0;
  }
}
