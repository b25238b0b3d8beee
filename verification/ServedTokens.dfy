/** Token accounting: what clients are charged for adds up, and stays in range exactly when
    the attributed tokens do. */
module ServedTokens {
  import opened Wrappers
  import opened Chunking
  import opened EngineModel
  import opened CacheCoherence
  import opened CostAttribution

  // ---------- rounding ----------

  lemma RoundIsNearest(x: real)
    ensures -0.5 <= Round(x) as real - x <= 0.5
  {
  }

  lemma RoundMonotone(x: real, y: real)
    requires x <= y
    ensures Round(x) <= Round(y)
  {
  }

  // ---------- conservation ----------

  /** Hits plus misses over a list of clients. */
  function TotalServed(cs: seq<Client>, served: map<Client, (int, int)>): int {
    if cs == [] then 0
    else
      var s := ServedOf(served, cs[|cs| - 1]);
      TotalServed(cs[..|cs| - 1], served) + s.0 + s.1
  }

  /** The lengths of the sequences that were never preempted. */
  function ChargedLength(charges: seq<Charge>): int {
    if charges == [] then 0
    else
      var ch := charges[|charges| - 1];
      ChargedLength(charges[..|charges| - 1]) + (if ch.preempted then 0 else ch.totalLen)
  }

  lemma {:induction false} TotalServedUpdate(cs: seq<Client>, served: map<Client, (int, int)>, c: Client, s: (int, int))
    requires Distinct(cs)
    ensures TotalServed(cs, served[c := s]) ==
            TotalServed(cs, served) + (if c in cs then s.0 + s.1 - ServedOf(served, c).0 - ServedOf(served, c).1 else 0)
  {
    if cs != [] {
      var n := |cs| - 1;
      TotalServedUpdate(cs[..n], served, c, s);
      assert cs == cs[..n] + [cs[n]];
    }
  }

  /** Attribution moves tokens between hits and misses but never makes or loses any: the
      hits and misses of all clients add up to the lengths of the charged sequences. */
  lemma {:induction false} ServedConserved(cs: seq<Client>, served: map<Client, (int, int)>, charges: seq<Charge>)
    requires Distinct(cs) && forall i :: 0 <= i < |charges| ==> charges[i].client in cs
    ensures TotalServed(cs, AfterServingAll(served, charges)) == TotalServed(cs, served) + ChargedLength(charges)
  {
    if charges != [] {
      var n := |charges| - 1;
      var before := AfterServingAll(served, charges[..n]);
      ServedConserved(cs, served, charges[..n]);
      if !charges[n].preempted {
        var ch := charges[n];
        var hit, was := AdjustedHit(ch.numComputed, DeltaHitReduce(ch.items)), ServedOf(before, ch.client);
        TotalServedUpdate(cs, before, ch.client, (was.0 + hit, was.1 + (ch.totalLen - hit)));
      }
    }
  }

  /** The integer adjustment is within half a token of the exact one. */
  lemma AdjustmentBound(numComputed: int, delta: real)
    requires delta >= 0.0
    ensures var exact := numComputed as real - delta;
            -0.5 <= AdjustedHit(numComputed, delta) as real - exact <= 0.5
  {
    RoundIsNearest(delta);
  }

  // ---------- when adjusted hits stay in range ----------

  function Sum(toks: seq<int>): int {
    if toks == [] then 0 else Sum(toks[..|toks| - 1]) + toks[|toks| - 1]
  }

  function Half(toks: seq<int>): real {
    Sum(toks) as real / 2.0
  }

  ghost predicate Attributes(items: seq<Attribution>, toks: seq<int>) {
    |items| == |toks| && forall i :: 0 <= i < |items| ==> items[i].tok == toks[i]
  }

  /** At most half of the attributed tokens become misses. */
  lemma {:induction false} DeltaBounds(items: seq<Attribution>, toks: seq<int>)
    requires Attributes(items, toks) && forall i :: 0 <= i < |toks| ==> toks[i] >= 0
    ensures 0.0 <= DeltaHitReduce(items) <= Half(toks)
  {
    if items != [] {
      var n := |items| - 1;
      DeltaBounds(items[..n], toks[..n]);
      if items[n].Shared() {
        ShareAtMostHalf(toks[n] as real, (|items[n].oldClients| + 1) as real);
      }
    }
  }

  lemma ShareAtMostHalf(t: real, m: real)
    requires t >= 0.0 && m >= 2.0
    ensures 0.0 <= t / m <= t / 2.0
  {
    var q := t / m;
    assert q * m == t;
    assert q >= 0.0;
    assert q * m >= q * 2.0;
  }

  /** Every chunk newly shared with a single other client. */
  function WorstCase(toks: seq<int>): (items: seq<Attribution>)
    ensures Attributes(items, toks)
  {
    seq(|toks|, i requires 0 <= i < |toks| => Attribution(true, [0], toks[i]))
  }

  lemma {:induction false} WorstCaseDelta(toks: seq<int>)
    ensures DeltaHitReduce(WorstCase(toks)) == Half(toks)
  {
    if toks != [] {
      var n := |toks| - 1;
      assert WorstCase(toks)[..n] == WorstCase(toks[..n]);
      WorstCaseDelta(toks[..n]);
    }
  }

  /** The adjusted hits are in range for every pattern of sharing. */
  ghost predicate AlwaysInRange(toks: seq<int>, numComputed: int) {
    forall items :: Attributes(items, toks) ==> 0 <= AdjustedHit(numComputed, DeltaHitReduce(items)) <= numComputed
  }

  lemma WorstOutOfRange(toks: seq<int>, numComputed: nat)
    requires Round(Half(toks)) > numComputed
    ensures AdjustedHit(numComputed, DeltaHitReduce(WorstCase(toks))) < 0
  {
    WorstCaseDelta(toks);
    RoundIsNearest(Half(toks));
  }

  lemma InRange(items: seq<Attribution>, toks: seq<int>, numComputed: nat)
    requires Attributes(items, toks) && forall i :: 0 <= i < |toks| ==> toks[i] >= 0
    requires Round(Half(toks)) <= numComputed
    ensures 0 <= AdjustedHit(numComputed, DeltaHitReduce(items)) <= numComputed
  {
    DeltaBounds(items, toks);
    RoundMonotone(DeltaHitReduce(items), Half(toks));
    RoundMonotone(0.0, DeltaHitReduce(items));
  }

  /** Adjusted hits stay within [0, computed] for every pattern of sharing exactly when half
      of the attributed tokens, rounded, is at most the computed tokens. */
  lemma InRangeIff(toks: seq<int>, numComputed: nat)
    requires forall i :: 0 <= i < |toks| ==> toks[i] >= 0
    ensures AlwaysInRange(toks, numComputed) <==> Round(Half(toks)) <= numComputed
  {
    if Round(Half(toks)) <= numComputed {
      forall items | Attributes(items, toks)
        ensures 0 <= AdjustedHit(numComputed, DeltaHitReduce(items)) <= numComputed
      {
        InRange(items, toks, numComputed);
      }
    } else {
      WorstOutOfRange(toks, numComputed);
    }
  }

  // ---------- full chunks and partial ones ----------

  lemma {:induction false} SumAttributed(size: pos, extra: nat, chunks: nat)
    ensures Sum(AttributedTokens(size, extra, chunks)) == if chunks == 0 then 0 else chunks * size - extra
  {
    if chunks > 0 {
      assert AttributedTokens(size, extra, chunks)[..chunks - 1] == AttributedTokens(size, extra, chunks - 1);
      SumAttributed(size, extra, chunks - 1);
      assert chunks * size == (chunks - 1) * size + size;
    }
  }

  /** How far a position is from the end of its chunk. */
  function Padding(r: nat, size: pos): nat {
    if Aligned(r, size) then 0 else Floor(r, size) + size - r
  }

  lemma {:induction false} GatherPadding(cfg: Config, b: Backend, identified: bool,
                                         env: nat -> Change, i: nat, tokens: seq<Token>, at: nat)
    requires at <= |tokens| && (at == |tokens| || Aligned(at, cfg.chunker.size))
    ensures var chunks := Gather(cfg, b, identified, env, i, tokens, at);
            var r := Reach(cfg, b, identified, env, i, tokens, at);
            |chunks| * cfg.chunker.size == if chunks == [] then 0 else r - at + Padding(r, cfg.chunker.size)
    decreases |tokens| - at
  {
    var size := cfg.chunker.size;
    if at < |tokens| {
      var now := Disturb(b, env(i));
      var e := cfg.chunker.ChunkEnd(at, |tokens|);
      GatherStep(cfg, b, identified, env, i, tokens, at);
      if cfg.KeyOf(tokens[..e]) in now.dict && identified {
        var rest := Gather(cfg, now, identified, env, i + 1, tokens, e);
        cfg.chunker.ChunkEndAligned(at, |tokens|);
        GatherPadding(cfg, now, identified, env, i + 1, tokens, e);
        MulSucc(|rest|, size);
        PaddingOf(at, e, size);
        NothingPastEnd(cfg, now, identified, env, i + 1, tokens, e);
      }
    }
  }

  lemma NothingPastEnd(cfg: Config, b: Backend, identified: bool, env: nat -> Change, i: nat, tokens: seq<Token>,
                       at: nat)
    requires at <= |tokens|
    ensures Gather(cfg, b, identified, env, i, tokens, at) == []
            <==> Reach(cfg, b, identified, env, i, tokens, at) == at
  {}

  lemma PaddingOf(at: nat, e: nat, size: pos)
    requires Aligned(at, size) && at < e <= at + size
    ensures Padding(e, size) == at + size - e
  {
    if e < at + size {
      FloorUnique(e, size, at);
      FloorIsDiv(e, size);
    }
  }

  /** The tokens attributed by a retrieve exceed the tokens retrieved by exactly the padding
      of a partial last chunk. */
  lemma AttributedOvercount(cfg: Config, b: Backend, identified: bool, env: nat -> Change, tokens: seq<Token>,
                            mask: Option<seq<bool>>)
    requires Skipped(mask) <= |tokens|
    ensures var skip := Skipped(mask);
            var found := RetrieveFrom(cfg, b, identified, env, tokens, mask);
            var r := Reached(cfg, b, identified, env, tokens, skip);
            Sum(found.attributed) == if found.keys == [] then 0 else r - skip + Padding(r, cfg.chunker.size)
  {
    var size, skip := cfg.chunker.size, Skipped(mask);
    var start := Floor(skip, size);
    GatherPadding(cfg, b, identified, env, 0, tokens, start);
    SumAttributed(size, skip - start, |Gather(cfg, b, identified, env, 0, tokens, start)|);
  }

  /** Half of what a retrieve attributes: what it retrieved and the padding of its last chunk. */
  function HalfAttributed(found: Retrieved, r: nat, size: pos): real {
    if found.keys == [] then 0.0 else (|found.kv| + Padding(r, size)) as real / 2.0
  }

  lemma AttributedSum(cfg: Config, step: Step, b: Backend, identified: bool, env: nat -> Change,
                      tokens: seq<Token>, mask: Option<seq<bool>>)
    requires Coherent(cfg, step, b) && Skipped(mask) <= |tokens|
    ensures var found := RetrieveFrom(cfg, b, identified, env, tokens, mask);
            var r := Reached(cfg, b, identified, env, tokens, Skipped(mask));
            && Half(found.attributed) == HalfAttributed(found, r, cfg.chunker.size)
            && forall i :: 0 <= i < |found.attributed| ==> found.attributed[i] >= 0
  {
    AttributedOvercount(cfg, b, identified, env, tokens, mask);
    RetrievedUpTo(cfg, step, b, identified, env, tokens, mask);
  }

  /** The adjusted hits of a retrieve are in range for every pattern of sharing exactly when
      half of the tokens retrieved, the padding included, is at most the computed tokens. */
  lemma RetrieveInRangeIff(cfg: Config, step: Step, b: Backend, identified: bool, env: nat -> Change,
                           tokens: seq<Token>, mask: Option<seq<bool>>, numComputed: nat)
    requires Coherent(cfg, step, b) && Skipped(mask) <= |tokens|
    ensures var found := RetrieveFrom(cfg, b, identified, env, tokens, mask);
            var r := Reached(cfg, b, identified, env, tokens, Skipped(mask));
            AlwaysInRange(found.attributed, numComputed) <==>
            Round(HalfAttributed(found, r, cfg.chunker.size)) <= numComputed
  {
    AttributedSum(cfg, step, b, identified, env, tokens, mask);
    InRangeIff(RetrieveFrom(cfg, b, identified, env, tokens, mask).attributed, numComputed);
  }

  lemma RetrievedUpTo(cfg: Config, step: Step, b: Backend, identified: bool, env: nat -> Change,
                      tokens: seq<Token>, mask: Option<seq<bool>>)
    requires Coherent(cfg, step, b) && Skipped(mask) <= |tokens|
    ensures var found := RetrieveFrom(cfg, b, identified, env, tokens, mask);
            var r := Reached(cfg, b, identified, env, tokens, Skipped(mask));
            found.keys != [] ==> r >= Skipped(mask) && |found.kv| == r - Skipped(mask)
  {
    GatheredTiles(cfg, step, b, identified, env, tokens, Skipped(mask));
    RetrieveIsRecomputation(cfg, step, b, identified, env, tokens, mask);
  }

  /** When the stored chunks end on a chunk boundary the adjusted hits are always in range,
      also when the last token of a full hit is left to compute. */
  lemma FullChunksInRange(cfg: Config, step: Step, b: Backend, identified: bool, env: nat -> Change,
                          tokens: seq<Token>, mask: Option<seq<bool>>, left: nat)
    requires Coherent(cfg, step, b) && Skipped(mask) <= |tokens| && left <= 1
    requires Aligned(Reached(cfg, b, identified, env, tokens, Skipped(mask)), cfg.chunker.size)
    requires left <= Skipped(mask) + |RetrieveFrom(cfg, b, identified, env, tokens, mask).kv|
    ensures var found := RetrieveFrom(cfg, b, identified, env, tokens, mask);
            AlwaysInRange(found.attributed, Skipped(mask) + |found.kv| - left)
  {
    var found := RetrieveFrom(cfg, b, identified, env, tokens, mask);
    var numComputed: nat := Skipped(mask) + |found.kv| - left;
    RetrieveInRangeIff(cfg, step, b, identified, env, tokens, mask, numComputed);
    HalfOfFull(found, Reached(cfg, b, identified, env, tokens, Skipped(mask)), cfg.chunker.size);
  }

  lemma HalfOfFull(found: Retrieved, r: nat, size: pos)
    requires Aligned(r, size)
    ensures var n, half := |found.kv|, Round(HalfAttributed(found, r, size));
            half <= n && (n > 0 ==> half <= n - 1)
  {
    if found.keys != [] {
      assert |found.kv| + Padding(r, size) == |found.kv|;
      HalfRounded(|found.kv|);
    } else {
      assert Round(0.0) == 0;
    }
  }

  lemma HalfRounded(n: nat)
    ensures Round(n as real / 2.0) <= n && (n > 0 ==> Round(n as real / 2.0) <= n - 1)
  {}

  /** One token cached in a chunk of 256, newly shared: the client is charged -128 hits. */
  lemma PartialChunkOutOfRange()
    ensures AttributedTokens(256, 0, 1) == [256]
    ensures AdjustedHit(0, DeltaHitReduce([Attribution(true, [7], 256)])) == -128
  {
    assert [Attribution(true, [7], 256)][..0] == [];
  }
}
