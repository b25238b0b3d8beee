/** The ledger of shared prefill: who used which block, and what it cost every client on
    balance, over whole runs. */
module CostLedger {
  import opened Wrappers
  import opened CostAttribution

  type BlockKey(==,!new)

  /** A block of cached KV: the tokens it cost to create, and its clients. */
  datatype Block = Block(tok: int, clients: seq<Client>)

  /** Every block there ever was, which of them a key leads to now, and the net prefill
      charge of every client. */
  datatype Ledger = Ledger(blocks: seq<Block>, live: map<BlockKey, nat>, net: map<Client, real>)

  const EMPTY: Ledger := Ledger([], map[], map[])

  /** How a retrieve is billed: in full; with credits to the old clients but no charge, when
      the sequence was preempted before; or not at all, when the retrieve is part of a chunked
      prefill that is abandoned after the client has been registered. */
  datatype Billing = Charged | Uncharged | Dropped

  datatype Event =
    | Create(key: BlockKey, creator: Client, tok: int, charged: bool)
    | Hit(client: Client, keys: seq<BlockKey>, toks: seq<int>, billing: Billing)
    | Evict(gone: set<BlockKey>)

  /** What the backend reports of one key before it registers the client. */
  function ItemOf(l: Ledger, client: Client, key: BlockKey, tok: int): Attribution
    requires Valid(l)
  {
    if key in l.live
    then Attribution(client !in l.blocks[l.live[key]].clients, l.blocks[l.live[key]].clients, tok)
    else Attribution(false, [], tok)
  }

  function AttributionOf(l: Ledger, client: Client, keys: seq<BlockKey>, toks: seq<int>): (items: seq<Attribution>)
    requires Valid(l) && |keys| == |toks|
    ensures |items| == |keys| && forall i :: 0 <= i < |keys| ==> items[i] == ItemOf(l, client, keys[i], toks[i])
  {
    seq(|keys|, i requires 0 <= i < |keys| => ItemOf(l, client, keys[i], toks[i]))
  }

  /** Registers the client with a block. */
  function Join(b: Block, client: Client): Block {
    if client in b.clients then b else b.(clients := b.clients + [client])
  }

  /** Registers the client with every retrieved block; each block is touched once, so the
      order does not matter. */
  function Joined(l: Ledger, client: Client, keys: seq<BlockKey>): (blocks: seq<Block>)
    ensures |blocks| == |l.blocks|
  {
    var touched := set k | k in keys && k in l.live :: l.live[k];
    seq(|l.blocks|, i requires 0 <= i < |l.blocks| => if i in touched then Join(l.blocks[i], client) else l.blocks[i])
  }

  function PayOld(net: map<Client, real>, old': seq<Client>, x: real): map<Client, real> {
    if old' == [] then net else Add(PayOld(net, old'[..|old'| - 1], x), old'[|old'| - 1], -x)
  }

  /** Settling one chunk: a new client pays its share if it is charged, and the old ones are
      credited unless everything is dropped. */
  function SettleOne(net: map<Client, real>, client: Client, a: Attribution, billing: Billing): map<Client, real> {
    if !a.Shared() || billing == Dropped then net
    else
      var charged := if billing == Charged then Add(net, client, CostPer(a.tok, |a.oldClients| + 1)) else net;
      PayOld(charged, a.oldClients, CreditPerOld(a))
  }

  function Settle(net: map<Client, real>, client: Client, items: seq<Attribution>, billing: Billing)
    : map<Client, real>
  {
    if items == [] then net
    else SettleOne(Settle(net, client, items[..|items| - 1], billing), client, items[|items| - 1], billing)
  }

  function Next(l: Ledger, ev: Event): Ledger
    requires Valid(l) && Possible(ev)
  {
    match ev
    case Create(key, creator, tok, charged) =>
      Ledger(l.blocks + [Block(tok, [creator])], l.live[key := |l.blocks|],
             if charged then Add(l.net, creator, CostPer(tok, 1)) else l.net)
    case Hit(client, keys, toks, billing) =>
      Ledger(Joined(l, client, keys), l.live, Settle(l.net, client, AttributionOf(l, client, keys, toks), billing))
    case Evict(gone) => l.(live := l.live - gone)
  }

  ghost predicate Valid(l: Ledger) {
    && (forall k :: k in l.live ==> l.live[k] < |l.blocks|)
    && (forall k, k' :: k in l.live && k' in l.live && l.live[k] == l.live[k'] ==> k == k')
    && AllValid(l.blocks)
  }

  ghost predicate AllValid(blocks: seq<Block>) {
    forall i :: 0 <= i < |blocks| ==> ValidBlock(blocks[i])
  }

  ghost predicate ValidBlock(b: Block) {
    b.tok > 0 && b.clients != [] && Distinct(b.clients)
  }

  /** The keys of one retrieve are the chained hashes of one sequence, hence distinct, and
      every chunk has tokens. */
  ghost predicate Possible(ev: Event) {
    && (ev.Create? ==> ev.tok > 0)
    && (ev.Hit? ==> |ev.keys| == |ev.toks| && Distinct(ev.keys) && forall i :: 0 <= i < |ev.toks| ==> ev.toks[i] > 0)
  }

  ghost predicate AllPossible(events: seq<Event>) {
    forall i :: 0 <= i < |events| ==> Possible(events[i])
  }

  lemma NextValid(l: Ledger, ev: Event)
    requires Valid(l) && Possible(ev)
    ensures Valid(Next(l, ev))
  {
    match ev {
      case Create(key, creator, tok, charged) =>
        assert forall i :: 0 <= i < |l.blocks| ==> Next(l, ev).blocks[i] == l.blocks[i];
      case Hit(client, keys, toks, billing) =>
        JoinedValid(l, client, keys);
      case Evict(gone) =>
    }
  }

  lemma JoinedValid(l: Ledger, client: Client, keys: seq<BlockKey>)
    requires Valid(l)
    ensures AllValid(Joined(l, client, keys))
  {
    assert forall i :: 0 <= i < |l.blocks| ==> ValidBlock(l.blocks[i]) && ValidBlock(Join(l.blocks[i], client));
  }

  function Run(l: Ledger, events: seq<Event>): (l': Ledger)
    requires Valid(l) && AllPossible(events)
    ensures Valid(l')
    decreases |events|
  {
    if events == [] then l
    else
      NextValid(l, events[0]);
      Run(Next(l, events[0]), events[1..])
  }

  // ---------- settling, client by client ----------

  lemma {:induction false} PayOldAt(net: map<Client, real>, old': seq<Client>, x: real, c: Client)
    requires Distinct(old')
    ensures Get(PayOld(net, old', x), c) == Get(net, c) - (if c in old' then x else 0.0)
  {
    if old' != [] {
      var n := |old'| - 1;
      PayOldAt(net, old'[..n], x, c);
      assert old' == old'[..n] + [old'[n]];
    }
  }

  lemma SettleOneAt(net: map<Client, real>, client: Client, a: Attribution, billing: Billing, c: Client)
    requires Distinct(a.oldClients)
    ensures Get(SettleOne(net, client, a, billing), c) ==
            Get(net, c)
            + (if a.Shared() && billing == Charged && c == client then CostPer(a.tok, |a.oldClients| + 1) else 0.0)
            - (if a.Shared() && billing != Dropped && c in a.oldClients then CreditPerOld(a) else 0.0)
  {
    if a.Shared() && billing != Dropped {
      var charged := if billing == Charged then Add(net, client, CostPer(a.tok, |a.oldClients| + 1)) else net;
      PayOldAt(charged, a.oldClients, CreditPerOld(a), c);
    }
  }

  lemma SettleNext(net: map<Client, real>, client: Client, items: seq<Attribution>, billing: Billing, m: nat)
    requires m < |items|
    ensures Settle(net, client, items[..m + 1], billing)
            == SettleOne(Settle(net, client, items[..m], billing), client, items[m], billing)
  {
    assert items[..m + 1][..m] == items[..m];
  }

  // ---------- what the loop reports is what the ledger settles ----------

  /** How the sequences of a batch are billed. */
  function BillingOf(ch: Charge, abandoned: bool): Billing {
    if abandoned then Dropped else if ch.preempted then Uncharged else Charged
  }

  function SettleBatch(net: map<Client, real>, charges: seq<Charge>, abandoned: bool): map<Client, real> {
    if charges == [] then net
    else
      var ch := charges[|charges| - 1];
      Settle(SettleBatch(net, charges[..|charges| - 1], abandoned), ch.client, ch.items, BillingOf(ch, abandoned))
  }

  /** The extra misses of a client over a batch, before rounding. */
  function ExtraMisses(charges: seq<Charge>, c: Client): real {
    if charges == [] then 0.0
    else
      var ch := charges[|charges| - 1];
      ExtraMisses(charges[..|charges| - 1], c)
      + (if ch.client == c && !ch.preempted then DeltaHitReduce(ch.items) else 0.0)
  }

  /** One retrieve: the extra misses at the prefill weight if it is charged, minus the credits
      it issues unless it is dropped. */
  lemma {:induction false} SettleIsChargeMinusCredit(net: map<Client, real>, client: Client, items: seq<Attribution>,
                                                     billing: Billing, c: Client)
    requires forall i :: 0 <= i < |items| ==> Distinct(items[i].oldClients)
    ensures Get(Settle(net, client, items, billing), c) ==
            Get(net, c)
            + (if c == client && billing == Charged then PREFILL_WEIGHT_COST * DeltaHitReduce(items) else 0.0)
            - (if billing != Dropped then CreditOf(items, c) else 0.0)
  {
    if items != [] {
      var n := |items| - 1;
      SettleIsChargeMinusCredit(net, client, items[..n], billing, c);
      SettleOneAt(Settle(net, client, items[..n], billing), client, items[n], billing, c);
      if items[n].Shared() {
        ShareOfTokens(items[n].tok, |items[n].oldClients| + 1);
      }
    }
  }

  /** A whole batch: what the ledger settles is what the loop's dictionaries hold, preempted
      sequences included, and nothing when the batch is abandoned. */
  lemma {:induction false} SettleBatchIsReport(net: map<Client, real>, charges: seq<Charge>, abandoned: bool, c: Client)
    requires forall i, j :: 0 <= i < |charges| && 0 <= j < |charges[i].items| ==>
               Distinct(charges[i].items[j].oldClients)
    ensures Get(SettleBatch(net, charges, abandoned), c) ==
            if abandoned then Get(net, c)
            else Get(net, c) + PREFILL_WEIGHT_COST * ExtraMisses(charges, c) - CreditOfAll(charges, c)
  {
    if charges != [] {
      var n := |charges| - 1;
      var ch := charges[n];
      SettleBatchIsReport(net, charges[..n], abandoned, c);
      SettleIsChargeMinusCredit(SettleBatch(net, charges[..n], abandoned), ch.client, ch.items,
                                BillingOf(ch, abandoned), c);
    }
  }

  // ---------- shares, exactly ----------

  /** The part of a block's cost that is a client's equal share. */
  function Part(b: Block, c: Client): real
    requires b.clients != []
  {
    if c in b.clients then CostPer(b.tok, |b.clients|) else 0.0
  }

  /** A client's equal share of every block. */
  ghost function Owed(blocks: seq<Block>, c: Client): real
    requires AllValid(blocks)
  {
    if blocks == [] then 0.0
    else
      var last := blocks[|blocks| - 1];
      assert ValidBlock(last);
      Owed(blocks[..|blocks| - 1], c) + Part(last, c)
  }

  /** How far a client's net charge is from its equal shares. */
  ghost function Excess(l: Ledger, c: Client): real
    requires Valid(l)
  {
    Get(l.net, c) - Owed(l.blocks, c)
  }

  ghost predicate FairlyShared(l: Ledger)
    requires Valid(l)
  {
    forall c :: Excess(l, c) == 0.0
  }

  /** What one join adds to a client's excess: the joiner lacks its share if it is not charged,
      or is charged for other tokens than the block's; an old client lacks its relief if no
      credits are given, or credits for other tokens. */
  function JoinExcess(b: Block, client: Client, tok: int, billing: Billing, c: Client): real
    requires b.clients != []
  {
    var k := |b.clients|;
    if client in b.clients then 0.0
    else if c == client then (if billing == Charged then CostPer(tok, k + 1) else 0.0) - CostPer(b.tok, k + 1)
    else if c in b.clients then
      (CostPer(b.tok, k) - CostPer(b.tok, k + 1))
          - (if billing == Dropped then 0.0 else CostPer(tok, k) - CostPer(tok, k + 1))
    else 0.0
  }

  /** The same for the chunks of a hit that are in the ledger. */
  ghost function HitExcess(l: Ledger, client: Client, keys: seq<BlockKey>, toks: seq<int>, billing: Billing,
                           c: Client): real
    requires Valid(l) && |keys| == |toks|
  {
    if keys == [] then 0.0
    else
      var n := |keys| - 1;
      HitExcess(l, client, keys[..n], toks[..n], billing, c)
      + (if keys[n] in l.live then JoinExcess(l.blocks[l.live[keys[n]]], client, toks[n], billing, c) else 0.0)
  }

  ghost function EventExcess(l: Ledger, ev: Event, c: Client): real
    requires Valid(l) && Possible(ev)
  {
    match ev
    case Create(_, creator, tok, charged) => if c == creator && !charged then -CostPer(tok, 1) else 0.0
    case Hit(client, keys, toks, billing) => HitExcess(l, client, keys, toks, billing, c)
    case Evict(_) => 0.0
  }

  lemma {:induction false} OwedUpdate(blocks: seq<Block>, i: nat, b: Block, c: Client)
    requires i < |blocks| && ValidBlock(b) && AllValid(blocks)
    ensures Owed(blocks[i := b], c) == Owed(blocks, c) - Part(blocks[i], c) + Part(b, c)
  {
    var n := |blocks| - 1;
    if i < n {
      OwedUpdate(blocks[..n], i, b, c);
      assert blocks[i := b][..n] == blocks[..n][i := b];
    } else {
      assert blocks[i := b][..n] == blocks[..n];
    }
  }

  /** One client joining one block. */
  lemma JoinShares(net: map<Client, real>, b: Block, client: Client, tok: int, billing: Billing, c: Client)
    requires ValidBlock(b)
    ensures var a := Attribution(client !in b.clients, b.clients, tok);
            Get(SettleOne(net, client, a, billing), c) - Part(Join(b, client), c)
            == Get(net, c) - Part(b, c) + JoinExcess(b, client, tok, billing, c)
  {
    SettleOneAt(net, client, Attribution(client !in b.clients, b.clients, tok), billing, c);
  }

  /** The next key touches its own block, which no earlier key touched. */
  lemma JoinedNext(l: Ledger, client: Client, keys: seq<BlockKey>, m: nat)
    requires Valid(l) && Distinct(keys) && m < |keys|
    ensures var before, after := Joined(l, client, keys[..m]), Joined(l, client, keys[..m + 1]);
            if keys[m] in l.live then
              var i := l.live[keys[m]];
              before[i] == l.blocks[i] && after == before[i := Join(l.blocks[i], client)]
            else after == before
  {
    assert keys[..m + 1] == keys[..m] + [keys[m]];
    assert keys[m] !in keys[..m];
  }

  /** After the first `n` chunks of a hit, settled and joined: what is not explained by the
      excess of the joins. */
  ghost function Unexplained(l: Ledger, client: Client, keys: seq<BlockKey>, toks: seq<int>, billing: Billing,
                             n: nat, c: Client): real
    requires Valid(l) && |keys| == |toks| && n <= |keys|
  {
    JoinedValid(l, client, keys[..n]);
    Get(Settle(l.net, client, AttributionOf(l, client, keys, toks)[..n], billing), c)
    - Owed(Joined(l, client, keys[..n]), c)
    - HitExcess(l, client, keys[..n], toks[..n], billing, c)
  }

  predicate SameNext(f: nat -> real, m: nat) {
    f(m + 1) == f(m)
  }

  lemma {:induction false} Steady(f: nat -> real, n: nat)
    requires forall m: nat {:trigger SameNext(f, m)} :: m < n ==> SameNext(f, m)
    ensures f(n) == f(0)
  {
    if n > 0 {
      Steady(f, n - 1);
      assert SameNext(f, n - 1);
    }
  }

  lemma HitPrefix(l: Ledger, client: Client, keys: seq<BlockKey>, toks: seq<int>, billing: Billing, c: Client)
    requires Valid(l) && |keys| == |toks| && Distinct(keys)
    ensures Unexplained(l, client, keys, toks, billing, |keys|, c) == Excess(l, c)
  {
    var f: nat -> real := (n: nat) => if n <= |keys| then Unexplained(l, client, keys, toks, billing, n, c) else 0.0;
    forall m: nat | m < |keys|
      ensures SameNext(f, m)
    {
      HitNext(l, client, keys, toks, billing, m, c);
    }
    Steady(f, |keys|);
    HitStart(l, client, keys, toks, billing, c);
  }

  lemma HitStart(l: Ledger, client: Client, keys: seq<BlockKey>, toks: seq<int>, billing: Billing, c: Client)
    requires Valid(l) && |keys| == |toks|
    ensures Unexplained(l, client, keys, toks, billing, 0, c) == Excess(l, c)
  {
    assert keys[..0] == [] && Joined(l, client, []) == l.blocks;
  }

  /** One more chunk of a hit. */
  lemma HitNext(l: Ledger, client: Client, keys: seq<BlockKey>, toks: seq<int>, billing: Billing, m: nat, c: Client)
    requires Valid(l) && |keys| == |toks| && Distinct(keys) && m < |keys|
    ensures Unexplained(l, client, keys, toks, billing, m + 1, c) == Unexplained(l, client, keys, toks, billing, m, c)
  {
    var items := AttributionOf(l, client, keys, toks);
    JoinedValid(l, client, keys[..m]);
    JoinedValid(l, client, keys[..m + 1]);
    assert keys[..m + 1][..m] == keys[..m] && toks[..m + 1][..m] == toks[..m];
    SettleNext(l.net, client, items, billing, m);
    JoinedNext(l, client, keys, m);
    if keys[m] in l.live {
      var i := l.live[keys[m]];
      JoinShares(Settle(l.net, client, items[..m], billing), l.blocks[i], client, toks[m], billing, c);
      OwedUpdate(Joined(l, client, keys[..m]), i, Join(l.blocks[i], client), c);
    }
  }

  lemma NextExcess(l: Ledger, ev: Event, c: Client)
    requires Valid(l) && Possible(ev)
    ensures Valid(Next(l, ev)) && Excess(Next(l, ev), c) == Excess(l, c) + EventExcess(l, ev, c)
  {
    NextValid(l, ev);
    match ev {
      case Create(key, creator, tok, charged) =>
        assert Next(l, ev).blocks[..|l.blocks|] == l.blocks;
      case Hit(client, keys, toks, billing) =>
        HitPrefix(l, client, keys, toks, billing, c);
        assert keys[..|keys|] == keys && toks[..|toks|] == toks;
        assert AttributionOf(l, client, keys, toks)[..|keys|] == AttributionOf(l, client, keys, toks);
      case Evict(gone) =>
    }
  }

  ghost function RunExcess(l: Ledger, events: seq<Event>, c: Client): real
    requires Valid(l) && AllPossible(events)
    decreases |events|
  {
    if events == [] then 0.0
    else
      NextValid(l, events[0]);
      EventExcess(l, events[0], c) + RunExcess(Next(l, events[0]), events[1..], c)
  }

  /** In every run, whatever is charged, uncharged or dropped: a client's net charge is its
      equal share of every block it ever used, plus exactly the excess of the joins. */
  lemma {:induction false} SharesInEveryRun(l: Ledger, events: seq<Event>, c: Client)
    requires Valid(l) && AllPossible(events)
    ensures Excess(Run(l, events), c) == Excess(l, c) + RunExcess(l, events, c)
    decreases |events|
  {
    if events != [] {
      NextExcess(l, events[0], c);
      SharesInEveryRun(Next(l, events[0]), events[1..], c);
    }
  }

  // ---------- when shares are equal ----------

  /** A hit that makes its client a new sharer of some block. */
  ghost predicate SharesNew(l: Ledger, ev: Event)
    requires Valid(l) && Possible(ev)
  {
    ev.Hit? && exists i :: 0 <= i < |ev.keys| && NewAt(l, ev.client, ev.keys[i])
  }

  predicate NewAt(l: Ledger, client: Client, key: BlockKey)
    requires Valid(l)
  {
    key in l.live && client !in l.blocks[l.live[key]].clients
  }

  /** Whoever creates or newly shares a block is charged for it. */
  ghost predicate Billed(l: Ledger, ev: Event)
    requires Valid(l) && Possible(ev)
  {
    && (ev.Create? ==> ev.charged)
    && (SharesNew(l, ev) ==> ev.billing == Charged)
  }

  /** A charged hit is charged for all tokens of each block. */
  ghost predicate Whole(l: Ledger, ev: Event)
    requires Valid(l) && Possible(ev)
  {
    ev.Hit? && ev.billing == Charged ==>
      forall i :: 0 <= i < |ev.keys| && ev.keys[i] in l.live ==> ev.toks[i] == l.blocks[l.live[ev.keys[i]]].tok
  }

  lemma {:induction false} HitExcessNone(l: Ledger, client: Client, keys: seq<BlockKey>, toks: seq<int>,
                                         billing: Billing, c: Client)
    requires Valid(l) && |keys| == |toks|
    requires forall i :: 0 <= i < |keys| && NewAt(l, client, keys[i]) ==>
               billing == Charged && toks[i] == l.blocks[l.live[keys[i]]].tok
    ensures HitExcess(l, client, keys, toks, billing, c) == 0.0
  {
    if keys != [] {
      var n := |keys| - 1;
      HitExcessNone(l, client, keys[..n], toks[..n], billing, c);
      assert keys[n] in l.live && !NewAt(l, client, keys[n]) ==> client in l.blocks[l.live[keys[n]]].clients;
    }
  }

  lemma {:induction false} HitExcessUnbilled(l: Ledger, client: Client, keys: seq<BlockKey>, toks: seq<int>,
                                             billing: Billing)
    requires Valid(l) && |keys| == |toks| && billing != Charged
    ensures HitExcess(l, client, keys, toks, billing, client) <= 0.0
    ensures (exists i :: 0 <= i < |keys| && NewAt(l, client, keys[i])) ==>
            HitExcess(l, client, keys, toks, billing, client) < 0.0
  {
    if keys != [] {
      var n := |keys| - 1;
      HitExcessUnbilled(l, client, keys[..n], toks[..n], billing);
      assert forall i :: 0 <= i < n ==> keys[..n][i] == keys[i];
      if NewAt(l, client, keys[n]) {
        var b := l.blocks[l.live[keys[n]]];
        CostPerPositive(b.tok, |b.clients| + 1);
      }
    }
  }

  lemma CostPerPositive(tok: int, n: nat)
    requires tok > 0 && n > 0
    ensures CostPer(tok, n) > 0.0
  {
    CostPerTimes(tok, n);
  }

  /** From equal shares, an event keeps them exactly when it is billed. */
  lemma NextFairIff(l: Ledger, ev: Event)
    requires Valid(l) && Possible(ev) && Whole(l, ev) && FairlyShared(l)
    ensures Valid(Next(l, ev)) && (FairlyShared(Next(l, ev)) <==> Billed(l, ev))
  {
    NextValid(l, ev);
    if Billed(l, ev) {
      forall c
        ensures Excess(Next(l, ev), c) == 0.0
      {
        NextExcess(l, ev, c);
        if ev.Hit? {
          HitExcessNone(l, ev.client, ev.keys, ev.toks, ev.billing, c);
        }
      }
    } else if ev.Create? {
      NextExcess(l, ev, ev.creator);
      CostPerPositive(ev.tok, 1);
      assert Excess(Next(l, ev), ev.creator) < 0.0;
    } else {
      NextExcess(l, ev, ev.client);
      HitExcessUnbilled(l, ev.client, ev.keys, ev.toks, ev.billing);
      assert Excess(Next(l, ev), ev.client) < 0.0;
    }
  }

  ghost predicate AllWhole(l: Ledger, events: seq<Event>)
    requires Valid(l) && AllPossible(events)
    decreases |events|
  {
    events == [] ||
    (Whole(l, events[0]) && (NextValid(l, events[0]); AllWhole(Next(l, events[0]), events[1..])))
  }

  ghost predicate AllBilled(l: Ledger, events: seq<Event>)
    requires Valid(l) && AllPossible(events)
    decreases |events|
  {
    events == [] ||
    (Billed(l, events[0]) && (NextValid(l, events[0]); AllBilled(Next(l, events[0]), events[1..])))
  }

  /** Shares are equal at every point of the run. */
  ghost predicate AlwaysFair(l: Ledger, events: seq<Event>)
    requires Valid(l) && AllPossible(events)
    decreases |events|
  {
    FairlyShared(l) && (events == [] || (NextValid(l, events[0]); AlwaysFair(Next(l, events[0]), events[1..])))
  }

  /** Fair telescoping: in a run whose charged hits are charged for whole blocks, however
      clients join and blocks come and go, shares are equal at every point if and only if
      everyone who creates or newly shares a block is charged for it. */
  lemma {:induction false} EqualSharesIff(l: Ledger, events: seq<Event>)
    requires Valid(l) && AllPossible(events) && AllWhole(l, events) && FairlyShared(l)
    ensures AlwaysFair(l, events) <==> AllBilled(l, events)
    decreases |events|
  {
    if events != [] {
      NextFairIff(l, events[0]);
      if FairlyShared(Next(l, events[0])) {
        EqualSharesIff(Next(l, events[0]), events[1..]);
      }
    }
  }

  lemma {:induction false} EqualSharesAtEnd(l: Ledger, events: seq<Event>)
    requires Valid(l) && AllPossible(events) && AlwaysFair(l, events)
    ensures FairlyShared(Run(l, events))
    decreases |events|
  {
    if events != [] {
      NextValid(l, events[0]);
      EqualSharesAtEnd(Next(l, events[0]), events[1..]);
    }
  }

  // ---------- one block, from the start ----------

  /** The creation of one block and the joins of some clients. */
  function Joins(key: BlockKey, creator: Client, tok: int, joiners: seq<Client>): (events: seq<Event>)
    ensures tok > 0 ==> AllPossible(events)
  {
    [Create(key, creator, tok, true)]
    + seq(|joiners|, i requires 0 <= i < |joiners| => Hit(joiners[i], [key], [tok], Charged))
  }

  lemma {:induction false} RunSnoc(l: Ledger, events: seq<Event>, ev: Event)
    requires Valid(l) && AllPossible(events) && Possible(ev)
    ensures Run(l, events + [ev]) == Next(Run(l, events), ev)
    decreases |events|
  {
    if events == [] {
      assert [] + [ev] == [ev];
    } else {
      NextValid(l, events[0]);
      RunSnoc(Next(l, events[0]), events[1..], ev);
      assert (events + [ev])[1..] == events[1..] + [ev];
    }
  }

  /** A charge is what the backend reports of a hit. */
  ghost predicate ChargeOf(before: Ledger, hit: Event, ch: Charge, abandoned: bool)
    requires Valid(before) && Possible(hit)
  {
    && hit.Hit? && hit.client == ch.client && hit.billing == BillingOf(ch, abandoned)
    && ch.items == AttributionOf(before, hit.client, hit.keys, hit.toks)
  }

  /** The charges of a batch are what the backend reports of its hits, one after another. */
  ghost predicate Reported(l: Ledger, hits: seq<Event>, charges: seq<Charge>, abandoned: bool)
    requires Valid(l) && AllPossible(hits)
    decreases |hits|
  {
    && |hits| == |charges|
    && (hits != [] ==>
          var n := |hits| - 1;
          && Reported(l, hits[..n], charges[..n], abandoned)
          && ChargeOf(Run(l, hits[..n]), hits[n], charges[n], abandoned))
  }

  /** The ledger after the hits of a batch is the batch settled charge by charge. */
  lemma {:induction false} RunIsBatch(l: Ledger, hits: seq<Event>, charges: seq<Charge>, abandoned: bool)
    requires Valid(l) && AllPossible(hits) && Reported(l, hits, charges, abandoned)
    ensures Run(l, hits).net == SettleBatch(l.net, charges, abandoned)
    decreases |hits|
  {
    if hits != [] {
      var n := |hits| - 1;
      RunIsBatch(l, hits[..n], charges[..n], abandoned);
      LastHit(l, hits, n);
    }
  }

  lemma LastHit(l: Ledger, hits: seq<Event>, n: nat)
    requires Valid(l) && AllPossible(hits) && n + 1 == |hits| && hits[n].Hit?
    ensures var before, hit := Run(l, hits[..n]), hits[n];
            Run(l, hits).net
            == Settle(before.net, hit.client, AttributionOf(before, hit.client, hit.keys, hit.toks), hit.billing)
  {
    assert hits == hits[..n] + [hits[n]];
    RunSnoc(l, hits[..n], hits[n]);
  }

  /** What the loop's dictionaries hold after a batch is what its hits do to the ledger. */
  lemma RunIsReport(l: Ledger, hits: seq<Event>, charges: seq<Charge>, abandoned: bool, c: Client)
    requires Valid(l) && AllPossible(hits) && Reported(l, hits, charges, abandoned)
    ensures Get(Run(l, hits).net, c) ==
            if abandoned then Get(l.net, c)
            else Get(l.net, c) + PREFILL_WEIGHT_COST * ExtraMisses(charges, c) - CreditOfAll(charges, c)
  {
    RunIsBatch(l, hits, charges, abandoned);
    ReportedDistinct(l, hits, charges, abandoned);
    assert forall i :: 0 <= i < |charges| ==> DistinctItems(charges[i]);
    SettleBatchIsReport(l.net, charges, abandoned, c);
  }

  /** The old clients of every item are distinct. */
  ghost predicate DistinctItems(ch: Charge) {
    forall j :: 0 <= j < |ch.items| ==> Distinct(ch.items[j].oldClients)
  }

  lemma {:induction false} ReportedDistinct(l: Ledger, hits: seq<Event>, charges: seq<Charge>, abandoned: bool)
    requires Valid(l) && AllPossible(hits) && Reported(l, hits, charges, abandoned)
    ensures forall i :: 0 <= i < |charges| ==> DistinctItems(charges[i])
    decreases |hits|
  {
    if hits != [] {
      var n := |hits| - 1;
      ReportedDistinct(l, hits[..n], charges[..n], abandoned);
      ChargeDistinct(Run(l, hits[..n]), hits[n], charges[n], abandoned);
      forall i | 0 <= i < |charges|
        ensures DistinctItems(charges[i])
      {
        assert i < n ==> charges[..n][i] == charges[i];
      }
    }
  }

  lemma ChargeDistinct(before: Ledger, hit: Event, ch: Charge, abandoned: bool)
    requires Valid(before) && Possible(hit) && ChargeOf(before, hit, ch, abandoned)
    ensures DistinctItems(ch)
  {
    forall j | 0 <= j < |ch.items|
      ensures Distinct(ch.items[j].oldClients)
    {
      ItemDistinct(before, hit.client, hit.keys[j], hit.toks[j]);
    }
  }

  lemma ItemDistinct(l: Ledger, client: Client, key: BlockKey, tok: int)
    requires Valid(l)
    ensures Distinct(ItemOf(l, client, key, tok).oldClients)
  {
    if key in l.live {
      assert ValidBlock(l.blocks[l.live[key]]);
    }
  }

  /** Where n distinct clients share one block, each has been charged cost / n of it on
      balance, whatever the order they came in. */
  lemma {:induction false} OneBlockShares(key: BlockKey, creator: Client, tok: int, joiners: seq<Client>, c: Client)
    requires tok > 0 && Distinct([creator] + joiners)
    ensures var l := Run(EMPTY, Joins(key, creator, tok, joiners));
            && l.blocks == [Block(tok, [creator] + joiners)] && l.live == map[key := 0]
            && Get(l.net, c) == if c in [creator] + joiners then CostPer(tok, 1 + |joiners|) else 0.0
    decreases |joiners|
  {
    if joiners == [] {
      CreatedOnly(key, creator, tok);
      assert [creator] + joiners == [creator];
    } else {
      var n := |joiners| - 1;
      var before, ev := Joins(key, creator, tok, joiners[..n]), Hit(joiners[n], [key], [tok], Charged);
      LastJoiner(creator, joiners);
      OneBlockShares(key, creator, tok, joiners[..n], c);
      JoinsNext(key, creator, tok, joiners);
      JoinOnly(Run(EMPTY, before), key, joiners[n], c);
    }
  }

  lemma JoinsNext(key: BlockKey, creator: Client, tok: int, joiners: seq<Client>)
    requires tok > 0 && joiners != []
    ensures var n := |joiners| - 1;
            Run(EMPTY, Joins(key, creator, tok, joiners))
            == Next(Run(EMPTY, Joins(key, creator, tok, joiners[..n])), Hit(joiners[n], [key], [tok], Charged))
  {
    var n := |joiners| - 1;
    var before, ev := Joins(key, creator, tok, joiners[..n]), Hit(joiners[n], [key], [tok], Charged);
    assert Joins(key, creator, tok, joiners) == before + [ev];
    RunSnoc(EMPTY, before, ev);
  }

  lemma LastJoiner(creator: Client, joiners: seq<Client>)
    requires joiners != [] && Distinct([creator] + joiners)
    ensures var clients, last := [creator] + joiners[..|joiners| - 1], joiners[|joiners| - 1];
            Distinct(clients) && last !in clients && [creator] + joiners == clients + [last]
  {
    var all, n := [creator] + joiners, |joiners| - 1;
    var clients := [creator] + joiners[..n];
    assert all == clients + [joiners[n]];
    assert forall i :: 0 <= i < |clients| ==> clients[i] == all[i] != all[|clients|];
  }

  lemma CreatedOnly(key: BlockKey, creator: Client, tok: int)
    requires tok > 0
    ensures Run(EMPTY, Joins(key, creator, tok, [])) ==
            Ledger([Block(tok, [creator])], map[key := 0], map[creator := CostPer(tok, 1)])
  {
    var ev := Create(key, creator, tok, true);
    assert Joins(key, creator, tok, []) == [] + [ev];
    RunSnoc(EMPTY, [], ev);
  }

  /** A charged join of a ledger with a single block. */
  lemma JoinOnly(l: Ledger, key: BlockKey, client: Client, c: Client)
    requires Valid(l) && |l.blocks| == 1 && l.live == map[key := 0] && client !in l.blocks[0].clients
    ensures var b := l.blocks[0];
            var l' := Next(l, Hit(client, [key], [b.tok], Charged));
            && l'.blocks == [Join(b, client)] && l'.live == l.live
            && Get(l'.net, c) == Get(l.net, c) - Part(b, c) + Part(Join(b, client), c)
  {
    var b := l.blocks[0];
    var items := AttributionOf(l, client, [key], [b.tok]);
    assert ValidBlock(b) && key in [key];
    assert items == [Attribution(true, b.clients, b.tok)] && items[..0] == [] && items[..0 + 1] == items;
    SettleNext(l.net, client, items, Charged, 0);
    JoinShares(l.net, b, client, b.tok, Charged, c);
  }

  /** The shares of one block differ after a charged join exactly when the join was charged
      for another number of tokens than the block: a first chunk cut by the mask, or a partial
      last chunk counted as full. */
  lemma JoinFairIff(net: map<Client, real>, b: Block, client: Client, tok: int)
    requires ValidBlock(b) && client !in b.clients
    requires forall c :: Get(net, c) == Part(b, c)
    ensures var net' := SettleOne(net, client, Attribution(true, b.clients, tok), Charged);
            (forall c :: Get(net', c) == Part(Join(b, client), c)) <==> tok == b.tok
  {
    var net' := SettleOne(net, client, Attribution(true, b.clients, tok), Charged);
    if tok == b.tok {
      forall c
        ensures Get(net', c) == Part(Join(b, client), c)
      {
        JoinShares(net, b, client, tok, Charged, c);
      }
    } else {
      JoinShares(net, b, client, tok, Charged, client);
      if CostPer(tok, |b.clients| + 1) == CostPer(b.tok, |b.clients| + 1) {
        CostPerInjective(tok, b.tok, |b.clients| + 1);
      }
    }
  }

  // ---------- what is charged in total ----------

  function Total(cs: seq<Client>, net: map<Client, real>): real {
    if cs == [] then 0.0 else Total(cs[..|cs| - 1], net) + Get(net, cs[|cs| - 1])
  }

  lemma {:induction false} TotalAdd(cs: seq<Client>, net: map<Client, real>, c: Client, x: real)
    requires Distinct(cs)
    ensures Total(cs, Add(net, c, x)) == Total(cs, net) + (if c in cs then x else 0.0)
  {
    if cs != [] {
      var n := |cs| - 1;
      TotalAdd(cs[..n], net, c, x);
      assert cs == cs[..n] + [cs[n]];
    }
  }

  lemma OneMore(n: nat, x: real)
    ensures (n + 1) as real * x == n as real * x + x
  {}

  lemma {:induction false} TotalPayOld(cs: seq<Client>, net: map<Client, real>, old': seq<Client>, x: real)
    requires Distinct(cs) && forall i :: 0 <= i < |old'| ==> old'[i] in cs
    ensures Total(cs, PayOld(net, old', x)) == Total(cs, net) - |old'| as real * x
  {
    if old' != [] {
      var n := |old'| - 1;
      TotalPayOld(cs, net, old'[..n], x);
      TotalAdd(cs, PayOld(net, old'[..n], x), old'[n], -x);
      OneMore(n, x);
    }
  }

  /** The share of a join that is credited but paid by nobody. */
  function UnpaidShare(a: Attribution, billing: Billing): real {
    if a.Shared() && billing == Uncharged then CostPer(a.tok, |a.oldClients| + 1) else 0.0
  }

  function UnpaidShares(items: seq<Attribution>, billing: Billing): real {
    if items == [] then 0.0
    else UnpaidShares(items[..|items| - 1], billing) + UnpaidShare(items[|items| - 1], billing)
  }

  /** The credits for a join add up to the joiner's share. */
  lemma CreditsTotal(cs: seq<Client>, net: map<Client, real>, a: Attribution)
    requires Distinct(cs) && a.Shared() && forall i :: 0 <= i < |a.oldClients| ==> a.oldClients[i] in cs
    ensures Total(cs, PayOld(net, a.oldClients, CreditPerOld(a))) == Total(cs, net) - CostPer(a.tok, |a.oldClients| + 1)
  {
    TotalPayOld(cs, net, a.oldClients, CreditPerOld(a));
    CreditsMakeShare(a);
  }

  /** A charged share is credited in full, and an uncharged one is credited as well. */
  lemma SettleOneTotal(cs: seq<Client>, net: map<Client, real>, client: Client, a: Attribution, billing: Billing)
    requires Distinct(cs) && client in cs && forall i :: 0 <= i < |a.oldClients| ==> a.oldClients[i] in cs
    ensures Total(cs, SettleOne(net, client, a, billing)) == Total(cs, net) - UnpaidShare(a, billing)
  {
    if a.Shared() && billing != Dropped {
      var share := CostPer(a.tok, |a.oldClients| + 1);
      TotalAdd(cs, net, client, share);
      CreditsTotal(cs, if billing == Charged then Add(net, client, share) else net, a);
    }
  }

  lemma {:induction false} SettleTotal(cs: seq<Client>, net: map<Client, real>, client: Client,
                                       items: seq<Attribution>, billing: Billing)
    requires Distinct(cs) && client in cs
    requires forall i, j :: 0 <= i < |items| && 0 <= j < |items[i].oldClients| ==> items[i].oldClients[j] in cs
    ensures Total(cs, Settle(net, client, items, billing)) == Total(cs, net) - UnpaidShares(items, billing)
  {
    if items != [] {
      var n := |items| - 1;
      SettleTotal(cs, net, client, items[..n], billing);
      SettleOneTotal(cs, Settle(net, client, items[..n], billing), client, items[n], billing);
    }
  }

  /** Only clients of `cs` take part. */
  ghost predicate Among(cs: seq<Client>, l: Ledger) {
    forall i, j :: 0 <= i < |l.blocks| && 0 <= j < |l.blocks[i].clients| ==> l.blocks[i].clients[j] in cs
  }

  ghost predicate EventAmong(cs: seq<Client>, ev: Event) {
    && (ev.Create? ==> ev.creator in cs)
    && (ev.Hit? ==> ev.client in cs)
  }

  /** What an event's creator is charged. */
  function Paid(ev: Event): real {
    if ev.Create? && ev.charged then CostPer(ev.tok, 1) else 0.0
  }

  function Unpaid(l: Ledger, ev: Event): real
    requires Valid(l) && Possible(ev)
  {
    if ev.Hit? then UnpaidShares(AttributionOf(l, ev.client, ev.keys, ev.toks), ev.billing) else 0.0
  }

  lemma NextTotal(cs: seq<Client>, l: Ledger, ev: Event)
    requires Valid(l) && Possible(ev) && Distinct(cs) && Among(cs, l) && EventAmong(cs, ev)
    ensures Among(cs, Next(l, ev))
    ensures Total(cs, Next(l, ev).net) == Total(cs, l.net) + Paid(ev) - Unpaid(l, ev)
  {
    match ev {
      case Create(key, creator, tok, charged) => TotalAdd(cs, l.net, creator, CostPer(tok, 1));
      case Hit(client, keys, toks, billing) =>
        SettleTotal(cs, l.net, client, AttributionOf(l, client, keys, toks), billing);
      case Evict(gone) =>
    }
  }

  function PaidInRun(events: seq<Event>): real {
    if events == [] then 0.0 else Paid(events[0]) + PaidInRun(events[1..])
  }

  function UnpaidInRun(l: Ledger, events: seq<Event>): real
    requires Valid(l) && AllPossible(events)
    decreases |events|
  {
    if events == [] then 0.0
    else
      NextValid(l, events[0]);
      Unpaid(l, events[0]) + UnpaidInRun(Next(l, events[0]), events[1..])
  }

  ghost predicate AllAmong(cs: seq<Client>, events: seq<Event>) {
    forall i :: 0 <= i < |events| ==> EventAmong(cs, events[i])
  }

  /** In every run the net charges grow by what creators were charged, minus the shares of
      uncharged joins, which are credited and paid by nobody. */
  lemma {:induction false} TotalInEveryRun(cs: seq<Client>, l: Ledger, events: seq<Event>)
    requires Valid(l) && AllPossible(events) && Distinct(cs) && Among(cs, l) && AllAmong(cs, events)
    ensures Total(cs, Run(l, events).net) == Total(cs, l.net) + PaidInRun(events) - UnpaidInRun(l, events)
    decreases |events|
  {
    if events != [] {
      NextValid(l, events[0]);
      NextTotal(cs, l, events[0]);
      TotalInEveryRun(cs, Next(l, events[0]), events[1..]);
    }
  }

  /** An uncharged hit that makes its client a new sharer. */
  ghost predicate SharesUnpaid(l: Ledger, ev: Event)
    requires Valid(l) && Possible(ev)
  {
    SharesNew(l, ev) && ev.billing == Uncharged
  }

  ghost predicate NeverUnpaid(l: Ledger, events: seq<Event>)
    requires Valid(l) && AllPossible(events)
    decreases |events|
  {
    events == [] ||
    (!SharesUnpaid(l, events[0]) && (NextValid(l, events[0]); NeverUnpaid(Next(l, events[0]), events[1..])))
  }

  lemma {:induction false} UnpaidPositiveIff(items: seq<Attribution>, billing: Billing)
    requires forall i :: 0 <= i < |items| ==> items[i].tok > 0
    ensures UnpaidShares(items, billing) >= 0.0
    ensures UnpaidShares(items, billing) > 0.0
            <==> billing == Uncharged && exists i :: 0 <= i < |items| && items[i].Shared()
  {
    if items != [] {
      var n := |items| - 1;
      UnpaidPositiveIff(items[..n], billing);
      assert forall i :: 0 <= i < n ==> items[..n][i] == items[i];
      if items[n].Shared() {
        CostPerPositive(items[n].tok, |items[n].oldClients| + 1);
      }
    }
  }

  lemma UnpaidIff(l: Ledger, ev: Event)
    requires Valid(l) && Possible(ev)
    ensures Unpaid(l, ev) >= 0.0 && (Unpaid(l, ev) > 0.0 <==> SharesUnpaid(l, ev))
  {
    if ev.Hit? {
      var items := AttributionOf(l, ev.client, ev.keys, ev.toks);
      UnpaidPositiveIff(items, ev.billing);
      assert forall i :: 0 <= i < |items| ==> (items[i].Shared() <==> NewAt(l, ev.client, ev.keys[i]));
    }
  }

  lemma {:induction false} UnpaidInRunIff(l: Ledger, events: seq<Event>)
    requires Valid(l) && AllPossible(events)
    ensures UnpaidInRun(l, events) >= 0.0 && (UnpaidInRun(l, events) == 0.0 <==> NeverUnpaid(l, events))
    decreases |events|
  {
    if events != [] {
      NextValid(l, events[0]);
      UnpaidIff(l, events[0]);
      UnpaidInRunIff(Next(l, events[0]), events[1..]);
    }
  }

  /** Conservation: the net charges of a run add up to what creators were charged if and only
      if no uncharged hit ever made its client a new sharer. */
  lemma ConservedIff(cs: seq<Client>, l: Ledger, events: seq<Event>)
    requires Valid(l) && AllPossible(events) && Distinct(cs) && Among(cs, l) && AllAmong(cs, events)
    ensures Total(cs, Run(l, events).net) == Total(cs, l.net) + PaidInRun(events) <==> NeverUnpaid(l, events)
  {
    TotalInEveryRun(cs, l, events);
    UnpaidInRunIff(l, events);
  }

  /** A preempted sequence of client 1 that newly shares a chunk of client 7: nothing is served,
      12.8 is credited, and the net charges lose as much. */
  lemma PreemptedJoinUnpaid()
    ensures var a := Attribution(true, [7], 256);
            var ch := Charge(1, true, 256, 512, [a]);
            && AfterServingAll(map[], [ch]) == map[]
            && CreditOfAll([ch], 7) == 12.8
            && BillingOf(ch, false) == Uncharged
            && Total([1, 7], SettleOne(map[], 1, a, Uncharged)) == -12.8
            && Total([1, 7], SettleOne(map[], 1, a, Charged)) == 0.0
  {
    var a := Attribution(true, [7], 256);
    var ch := Charge(1, true, 256, 512, [a]);
    assert [ch][..|[ch]| - 1] == [] && [a][..|[a]| - 1] == [];
    assert CreditOf([a], 7) == CreditPerOld(a);
    assert CreditPerOld(a) == 12.8 && CostPer(256, 2) == 12.8;
    assert Total([1, 7], map[]) == 0.0;
    SettleOneTotal([1, 7], map[], 1, a, Uncharged);
    SettleOneTotal([1, 7], map[], 1, a, Charged);
  }
}
