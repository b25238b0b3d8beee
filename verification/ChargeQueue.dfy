/** The scheduler's score board: prefill costs are charged net of the credits a client has
    been given for prefixes it created. */
module ChargeQueue {
  import opened CostAttribution

  /** Hits and misses of one client in a prefill. */
  datatype Usage = Usage(client: Client, hit: int, miss: int)

  /** What one prefill reports: usage per client, and credits per client. */
  datatype Report = Report(usage: seq<Usage>, credits: seq<(Client, real)>)

  datatype Weights = Weights(hit: real, prefill: real) {
    function Cost(u: Usage): real {
      hit * u.hit as real + prefill * u.miss as real
    }
  }

  function Max(x: real, y: real): real {
    if x >= y then x else y
  }

  function CostOf(w: Weights, usage: seq<Usage>, c: Client): real {
    if usage == [] then 0.0
    else
      var u := usage[|usage| - 1];
      CostOf(w, usage[..|usage| - 1], c) + (if u.client == c then w.Cost(u) else 0.0)
  }

  function CreditsTo(credits: seq<(Client, real)>, c: Client): real {
    if credits == [] then 0.0
    else
      var x := credits[|credits| - 1];
      CreditsTo(credits[..|credits| - 1], c) + (if x.0 == c then x.1 else 0.0)
  }

  /** The score board: what every client has been served, and the credits it has left. */
  datatype Board = Board(served: map<Client, real>, credits: map<Client, real>) {
    /** What a client owes on balance. */
    function Balance(c: Client): real {
      Get(served, c) - Get(credits, c)
    }
  }

  function CreditAll(b: Board, credits: seq<(Client, real)>): Board {
    if credits == [] then b
    else
      var x := credits[|credits| - 1];
      var b' := CreditAll(b, credits[..|credits| - 1]);
      b'.(credits := Add(b'.credits, x.0, x.1))
  }

  /** Credits are spent first, the rest of the cost is added to the score, and the rest of
      the credits is kept. */
  function ChargeOne(w: Weights, b: Board, u: Usage): Board {
    var d := Get(b.credits, u.client);
    Board(Add(b.served, u.client, Max(0.0, w.Cost(u) - d)), b.credits[u.client := Max(0.0, d - w.Cost(u))])
  }

  function ChargeAll(w: Weights, b: Board, usage: seq<Usage>): Board {
    if usage == [] then b else ChargeOne(w, ChargeAll(w, b, usage[..|usage| - 1]), usage[|usage| - 1])
  }

  function AfterReport(w: Weights, b: Board, r: Report): Board {
    ChargeAll(w, CreditAll(b, r.credits), r.usage)
  }

  class CPIReqQueue {
    const weights: Weights
    var served: map<Client, real>
    var credits: map<Client, real>

    constructor (weights: Weights)
      ensures this.weights == weights && served == map[] && credits == map[]
    {
      this.weights := weights;
      served, credits := map[], map[];
    }

    function TheBoard(): Board
      reads this
    {
      Board(served, credits)
    }

    method UpdatePrefillServed(report: Report)
      modifies this`served, this`credits
      ensures TheBoard() == AfterReport(weights, old(TheBoard()), report)
    {
      for i := 0 to |report.credits|
        invariant TheBoard() == CreditAll(old(TheBoard()), report.credits[..i])
      {
        assert report.credits[..i + 1][..i] == report.credits[..i];
        var (cid, cred) := report.credits[i];
        credits := Add(credits, cid, cred);
      }
      assert report.credits[..|report.credits|] == report.credits;
      ghost var credited := TheBoard();
      for i := 0 to |report.usage|
        invariant TheBoard() == ChargeAll(weights, credited, report.usage[..i])
      {
        assert report.usage[..i + 1][..i] == report.usage[..i];
        var u := report.usage[i];
        var cost := weights.Cost(u);
        var d := Get(credits, u.client);
        var netCost := Max(0.0, cost - d);
        served := served[u.client := Get(served, u.client) + netCost];
        credits := credits[u.client := Max(0.0, d - cost)];
      }
      assert report.usage[..|report.usage|] == report.usage;
    }
  }

  lemma {:induction false} CreditAllBalance(b: Board, credits: seq<(Client, real)>, c: Client)
    ensures CreditAll(b, credits).Balance(c) == b.Balance(c) - CreditsTo(credits, c)
    ensures CreditAll(b, credits).served == b.served
  {
    if credits != [] {
      CreditAllBalance(b, credits[..|credits| - 1], c);
    }
  }

  lemma {:induction false} ChargeAllBalance(w: Weights, b: Board, usage: seq<Usage>, c: Client)
    ensures ChargeAll(w, b, usage).Balance(c) == b.Balance(c) + CostOf(w, usage, c)
    ensures Get(ChargeAll(w, b, usage).served, c) >= Get(b.served, c)
  {
    if usage != [] {
      ChargeAllBalance(w, b, usage[..|usage| - 1], c);
    }
  }

  // ---------- credits are spent first ----------

  /** What one charge does to the client it charges: a cost that its credit covers is taken
      from the credit alone, and any other cost uses the credit up and adds the rest to the
      score. */
  ghost predicate Charged(before: Board, after: Board, c: Client, cost: real) {
    if cost <= Get(before.credits, c)
    then Get(after.served, c) == Get(before.served, c) && Get(after.credits, c) == Get(before.credits, c) - cost
    else Get(after.served, c) == Get(before.served, c) + (cost - Get(before.credits, c)) && Get(after.credits, c) == 0.0
  }

  lemma ChargeSpends(w: Weights, b: Board, u: Usage, c: Client)
    ensures Charged(b, ChargeAll(w, b, [u]), u.client, w.Cost(u))
    ensures c != u.client ==>
              && Get(ChargeAll(w, b, [u]).served, c) == Get(b.served, c)
              && Get(ChargeAll(w, b, [u]).credits, c) == Get(b.credits, c)
  {
    assert [u][..0] == [];
  }

  /** A client's costs in a list, none of them negative. */
  ghost predicate NoNegativeCost(w: Weights, usage: seq<Usage>, c: Client) {
    forall i :: 0 <= i < |usage| && usage[i].client == c ==> w.Cost(usage[i]) >= 0.0
  }

  /** However often a client is charged, its credit is spent before its score rises: charging
      its costs one by one is charging their sum. */
  lemma {:induction false} ChargesSpend(w: Weights, b: Board, usage: seq<Usage>, c: Client)
    requires NoNegativeCost(w, usage, c) && Get(b.credits, c) >= 0.0
    ensures CostOf(w, usage, c) >= 0.0
    ensures Charged(b, ChargeAll(w, b, usage), c, CostOf(w, usage, c))
  {
    if usage != [] {
      var n := |usage| - 1;
      ChargesSpend(w, b, usage[..n], c);
    }
  }

  lemma {:induction false} CreditAllCredits(b: Board, credits: seq<(Client, real)>, c: Client)
    ensures Get(CreditAll(b, credits).credits, c) == Get(b.credits, c) + CreditsTo(credits, c)
    ensures CreditAll(b, credits).served == b.served
  {
    if credits != [] {
      CreditAllCredits(b, credits[..|credits| - 1], c);
    }
  }

  /** A report: the credits it issues come first, and the costs are charged against them. The
      score of a client rises by exactly what its credit does not cover. */
  lemma ReportSpends(w: Weights, b: Board, r: Report, c: Client)
    requires NoNegativeCost(w, r.usage, c) && Get(b.credits, c) + CreditsTo(r.credits, c) >= 0.0
    ensures var after := AfterReport(w, b, r);
            var due, credit := CostOf(w, r.usage, c), Get(b.credits, c) + CreditsTo(r.credits, c);
            && Get(after.served, c) - Get(b.served, c) == (if due > credit then due - credit else 0.0)
            && Get(after.credits, c) == (if due > credit then 0.0 else credit - due)
            && (Get(after.served, c) > Get(b.served, c) ==> Get(after.credits, c) == 0.0)
  {
    CreditAllCredits(b, r.credits, c);
    ChargesSpend(w, CreditAll(b, r.credits), r.usage, c);
  }

  /** No report issues a negative credit. */
  ghost predicate IssuesCredits(reports: seq<Report>) {
    forall i, j :: 0 <= i < |reports| && 0 <= j < |reports[i].credits| ==> reports[i].credits[j].1 >= 0.0
  }

  lemma {:induction false} CreditsToNonNegative(credits: seq<(Client, real)>, c: Client)
    requires forall j :: 0 <= j < |credits| ==> credits[j].1 >= 0.0
    ensures CreditsTo(credits, c) >= 0.0
  {
    if credits != [] {
      CreditsToNonNegative(credits[..|credits| - 1], c);
    }
  }

  lemma {:induction false} ChargeAllNonNegative(w: Weights, b: Board, usage: seq<Usage>, c: Client)
    requires Get(b.credits, c) >= 0.0
    ensures Get(ChargeAll(w, b, usage).credits, c) >= 0.0
  {
    if usage != [] {
      ChargeAllNonNegative(w, b, usage[..|usage| - 1], c);
    }
  }

  /** Over every run of reports no credit goes below zero, whatever is charged. */
  lemma {:induction false} CreditsNeverNegative(w: Weights, b: Board, reports: seq<Report>, c: Client)
    requires IssuesCredits(reports) && Get(b.credits, c) >= 0.0
    ensures Get(AfterAll(w, b, reports).credits, c) >= 0.0
  {
    if reports != [] {
      var n := |reports| - 1;
      CreditsNeverNegative(w, b, reports[..n], c);
      var before := AfterAll(w, b, reports[..n]);
      CreditAllCredits(before, reports[n].credits, c);
      CreditsToNonNegative(reports[n].credits, c);
      ChargeAllNonNegative(w, CreditAll(before, reports[n].credits), reports[n].usage, c);
    }
  }

  /** No credit is lost and none is spent twice: over any run of reports every client's
      balance grows by exactly its costs minus its credits, and no score ever falls. */
  lemma {:induction false} BalanceInEveryRun(w: Weights, b: Board, reports: seq<Report>, c: Client)
    ensures var b' := AfterAll(w, b, reports);
            && b'.Balance(c) == b.Balance(c) + RunCost(w, reports, c) - RunCredit(reports, c)
            && Get(b'.served, c) >= Get(b.served, c)
  {
    if reports != [] {
      var n := |reports| - 1;
      var before := AfterAll(w, b, reports[..n]);
      BalanceInEveryRun(w, b, reports[..n], c);
      CreditAllBalance(before, reports[n].credits, c);
      ChargeAllBalance(w, CreditAll(before, reports[n].credits), reports[n].usage, c);
    }
  }

  function AfterAll(w: Weights, b: Board, reports: seq<Report>): Board {
    if reports == [] then b else AfterReport(w, AfterAll(w, b, reports[..|reports| - 1]), reports[|reports| - 1])
  }

  function RunCost(w: Weights, reports: seq<Report>, c: Client): real {
    if reports == [] then 0.0
    else RunCost(w, reports[..|reports| - 1], c) + CostOf(w, reports[|reports| - 1].usage, c)
  }

  function RunCredit(reports: seq<Report>, c: Client): real {
    if reports == [] then 0.0
    else RunCredit(reports[..|reports| - 1], c) + CreditsTo(reports[|reports| - 1].credits, c)
  }

  /** What attribution adds to a client's charge: the difference of the two weights for every
      token that became a miss. */
  lemma AttributionCharge(w: Weights, c: Client, numComputed: int, totalLen: int, delta: real)
    requires delta >= 0.0
    ensures var hit := AdjustedHit(numComputed, delta);
            w.Cost(Usage(c, hit, totalLen - hit)) - w.Cost(Usage(c, numComputed, totalLen - numComputed))
            == (w.prefill - w.hit) * Round(delta) as real
  {
    var moved := Round(delta) as real;
    var hit := AdjustedHit(numComputed, delta);
    assert hit as real == numComputed as real - moved;
    assert (totalLen - hit) as real == (totalLen - numComputed) as real + moved;
    Distribute(w.hit, numComputed as real, -moved);
    Distribute(w.prefill, (totalLen - numComputed) as real, moved);
    assert w.hit * (-moved) == -(w.hit * moved);
    assert (w.prefill - w.hit) * moved == w.prefill * moved - w.hit * moved;
  }

  lemma Distribute(x: real, y: real, z: real)
    ensures x * (y + z) == x * y + x * z
  {
  }
}
