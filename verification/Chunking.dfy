/** Cutting token sequences into chunks, chaining the chunk hashes, and the causal
    KV model the cache has to agree with. */
module Chunking {
  import opened Wrappers

  type Token = int
  type Hash = string

  /** The KV data of one token position, over all layers. */
  type KV(==, !new)

  /** One step of the model: the KV of a token given the KV of everything before it. */
  type Step = (seq<KV>, Token, nat) -> KV

  // ---------- division by a positive chunk size ----------

  lemma MulSign(m: pos, d: int)
    ensures d > 0 ==> m * d >= m
    ensures d < 0 ==> m * d + m <= 0
  {
  }

  lemma DivModUnique(n: int, m: pos, q: int, r: int)
    requires n == m * q + r && 0 <= r < m
    ensures n / m == q && n % m == r
  {
    var d := n / m - q;
    assert n == m * (n / m) + n % m;
    assert m * d == m * (n / m) - m * q;
    MulSign(m, d);
  }

  /** Whether `n` is a multiple of `m`. */
  predicate Aligned(n: nat, m: pos) {
    n == 0 || (n >= m && Aligned(n - m, m))
  }

  lemma MulSucc(n: nat, m: nat)
    ensures (1 + n) * m == m + n * m
  {}

  /** `k * m`, one addition at a time. */
  function Times(k: nat, m: pos): nat {
    if k == 0 then 0 else Times(k - 1, m) + m
  }

  lemma {:induction false} TimesIsProduct(k: nat, m: pos)
    ensures Times(k, m) == k * m
  {
    if k > 0 {
      TimesIsProduct(k - 1, m);
      MulSucc(k - 1, m);
    }
  }

  lemma {:induction false} TimesMonotone(k: nat, n: nat, m: pos)
    requires k < n
    ensures Times(n, m) >= Times(k, m) + m
  {
    if k + 1 < n {
      TimesMonotone(k, n - 1, m);
    }
  }

  /** The largest multiple of `m` that is at most `n`. */
  function Floor(n: nat, m: pos): (f: nat)
    ensures f <= n < f + m && Aligned(f, m)
  {
    if n < m then 0 else m + Floor(n - m, m)
  }

  lemma {:induction false} FloorUnique(n: nat, m: pos, f: nat)
    requires f <= n < f + m && Aligned(f, m)
    ensures Floor(n, m) == f
  {
    if f != 0 {
      FloorUnique(n - m, m, f - m);
    }
  }

  lemma DivModShift(n: nat, m: pos)
    ensures (n + m) / m == n / m + 1
    ensures (n + m) % m == n % m
  {
    var q := n / m;
    assert n == m * q + n % m;
    assert m * (q + 1) == m * q + m;
    DivModUnique(n + m, m, q + 1, n % m);
  }

  /** `Floor` and `Aligned` are what the source computes with `//` and `%`. */
  lemma {:induction false} FloorIsDiv(n: nat, m: pos)
    ensures Floor(n, m) == n / m * m
    ensures Aligned(n, m) <==> n % m == 0
    ensures Aligned(n, m) <==> Floor(n, m) == n
  {
    if n < m {
      DivModUnique(n, m, 0, n);
    } else {
      FloorIsDiv(n - m, m);
      DivModShift(n - m, m);
    }
  }

  lemma FloorIsTimes(n: nat, m: pos, k: nat)
    requires k == n / m
    ensures Floor(n, m) == k * m
  {
    FloorIsDiv(n, m);
  }

  // ---------- the causal model ----------

  /** Every value of `kv` is what the model computes from the values before it. */
  ghost predicate Computed(step: Step, tokens: seq<Token>, kv: seq<KV>) {
    && |kv| == |tokens|
    && forall j: nat {:trigger ComputedAt(step, tokens, kv, j)} :: j < |tokens| ==> ComputedAt(step, tokens, kv, j)
  }

  ghost predicate ComputedAt(step: Step, tokens: seq<Token>, kv: seq<KV>, j: nat)
    requires j < |tokens| == |kv|
  {
    kv[j] == step(kv[..j], tokens[j], j)
  }

  lemma {:induction false} ComputedExists(step: Step, tokens: seq<Token>)
    ensures exists kv :: Computed(step, tokens, kv)
  {
    if tokens == [] {
      assert Computed(step, tokens, []);
    } else {
      var n := |tokens| - 1;
      ComputedExists(step, tokens[..n]);
      var before :| Computed(step, tokens[..n], before);
      var kv := before + [step(before, tokens[n], n)];
      forall j: nat | j < |tokens|
        ensures ComputedAt(step, tokens, kv, j)
      {
        assert kv[..j] == before[..j];
        assert j < n ==> ComputedAt(step, tokens[..n], before, j);
      }
      assert Computed(step, tokens, kv);
    }
  }

  lemma {:induction false} ComputedUnique(step: Step, tokens: seq<Token>, kv: seq<KV>, kv': seq<KV>, n: nat)
    requires Computed(step, tokens, kv) && Computed(step, tokens, kv') && n <= |tokens|
    ensures kv[..n] == kv'[..n]
  {
    if n > 0 {
      ComputedUnique(step, tokens, kv, kv', n - 1);
      assert ComputedAt(step, tokens, kv, n - 1) && ComputedAt(step, tokens, kv', n - 1);
      assert kv[..n] == kv[..n - 1] + [kv[n - 1]] && kv'[..n] == kv'[..n - 1] + [kv'[n - 1]];
    }
  }

  /** The KV of every position of `tokens`, computed from scratch. */
  ghost function FullKV(step: Step, tokens: seq<Token>): (kv: seq<KV>)
    ensures |kv| == |tokens| && Computed(step, tokens, kv)
  {
    ComputedExists(step, tokens);
    var kv :| Computed(step, tokens, kv);
    kv
  }

  /** Causality: the KV of a prefix is the prefix of the KV. */
  lemma FullKVPrefix(step: Step, tokens: seq<Token>, i: nat)
    requires i <= |tokens|
    ensures FullKV(step, tokens[..i]) == FullKV(step, tokens)[..i]
  {
    var kv, part := FullKV(step, tokens), FullKV(step, tokens[..i]);
    forall j: nat | j < i
      ensures ComputedAt(step, tokens[..i], kv[..i], j)
    {
      assert ComputedAt(step, tokens, kv, j) && kv[..i][..j] == kv[..j];
    }
    ComputedUnique(step, tokens[..i], part, kv[..i], i);
    assert part[..i] == part && kv[..i][..i] == kv[..i];
  }

  lemma FullKVAt(step: Step, tokens: seq<Token>, i: nat)
    requires i < |tokens|
    ensures FullKV(step, tokens)[i] == step(FullKV(step, tokens)[..i], tokens[i], i)
  {
    assert ComputedAt(step, tokens, FullKV(step, tokens), i);
  }

  lemma SliceOfPrefix<T>(s: seq<T>, t: seq<T>, at: nat, e: nat)
    requires at <= e <= |s| && t == s[..e]
    ensures t[at..] == s[at..e]
  {
  }

  // ---------- chunks and their chained hashes ----------

  /** What the source assumes of SHA-256 on (chunk, prefix hash): no collisions, and
      no digest equal to the empty initial hash. */
  ghost predicate CollisionFree(hash: (seq<Token>, Hash) -> Hash) {
    && (forall c, h :: hash(c, h) != "")
    && (forall c, h, c', h' :: hash(c, h) == hash(c', h') ==> c == c' && h == h')
  }

  /** The KV slice stored under the chained hash of `p`: its last chunk. */
  ghost function LastChunkKV(step: Step, size: pos, p: seq<Token>): seq<KV>
    requires p != []
  {
    FullKV(step, p)[Floor(|p| - 1, size)..]
  }

  lemma LastChunkOfPrefix(step: Step, size: pos, tokens: seq<Token>, at: nat, e: nat)
    requires at < e <= |tokens| && Floor(e - 1, size) == at
    ensures LastChunkKV(step, size, tokens[..e]) == FullKV(step, tokens)[at..e]
  {
    FullKVPrefix(step, tokens, e);
    SliceOfPrefix(FullKV(step, tokens), FullKV(step, tokens[..e]), at, e);
  }

  datatype Chunker = Chunker(size: pos, hash: (seq<Token>, Hash) -> Hash) {

    /** Where the chunk starting at `at` ends in a sequence of `n` tokens. */
    function ChunkEnd(at: nat, n: nat): (e: nat)
      requires at < n
      ensures at < e <= n && e <= at + size
    {
      if at + size <= n then at + size else n
    }

    /** The chained hash of a whole token prefix. */
    function ChainHash(p: seq<Token>): Hash
      decreases |p|
    {
      if p == [] then ""
      else
        var s := Floor(|p| - 1, size);
        hash(p[s..], ChainHash(p[..s]))
    }

    /** The chunks of `tokens` from position `at` on. */
    function Chunks(tokens: seq<Token>, at: nat): seq<seq<Token>>
      requires at <= |tokens|
      decreases |tokens| - at
    {
      if at == |tokens| then []
      else
        var e := ChunkEnd(at, |tokens|);
        [tokens[at..e]] + Chunks(tokens, e)
    }

    /** The chained hashes of the chunks of `tokens` from position `at` on. */
    function HashesFrom(tokens: seq<Token>, at: nat): seq<Hash>
      requires at <= |tokens|
      decreases |tokens| - at
    {
      if at == |tokens| then []
      else
        var e := ChunkEnd(at, |tokens|);
        [ChainHash(tokens[..e])] + HashesFrom(tokens, e)
    }

    /** Distinct prefixes have distinct chained hashes. */
    lemma {:induction false} ChainHashInjective(p: seq<Token>, q: seq<Token>)
      requires CollisionFree(hash)
      requires ChainHash(p) == ChainHash(q)
      ensures p == q
      decreases |p|
    {
      if p != [] && q != [] {
        var s, t := Floor(|p| - 1, size), Floor(|q| - 1, size);
        ChainHashInjective(p[..s], q[..t]);
        assert p == p[..s] + p[s..] && q == q[..t] + q[t..];
      }
    }

    lemma ChainHashSplit(p: seq<Token>, s: nat, last: seq<Token>, before: seq<Token>)
      requires p == before + last && |before| == s < |p| && Floor(|p| - 1, size) == s
      ensures ChainHash(p) == hash(last, ChainHash(before))
    {
      assert p[s..] == last && p[..s] == before;
    }

    /** Hashing one chunk onto the chained hash of everything before it. */
    lemma ChainHashStep(tokens: seq<Token>, at: nat)
      requires at < |tokens| && Aligned(at, size)
      ensures var e := ChunkEnd(at, |tokens|);
              ChainHash(tokens[..e]) == hash(tokens[at..e], ChainHash(tokens[..at]))
    {
      var e := ChunkEnd(at, |tokens|);
      FloorUnique(e - 1, size, at);
      ChainHashSplit(tokens[..e], at, tokens[at..e], tokens[..at]);
    }

    lemma ChunkEndAligned(at: nat, n: nat)
      requires at < n && Aligned(at, size)
      ensures ChunkEnd(at, n) == n || Aligned(ChunkEnd(at, n), size)
    {
    }

    lemma HashesStep(tokens: seq<Token>, at: nat)
      requires at < |tokens|
      ensures var e := ChunkEnd(at, |tokens|);
              HashesFrom(tokens, at) == [ChainHash(tokens[..e])] + HashesFrom(tokens, e)
    {}

    /** Everything that moves on by one chunk. */
    lemma NextChunk(tokens: seq<Token>, at: nat)
      requires at < |tokens| && Aligned(at, size)
      ensures var e := ChunkEnd(at, |tokens|);
              && (e == |tokens| || Aligned(e, size))
              && Chunks(tokens, at) == [tokens[at..e]] + Chunks(tokens, e)
              && HashesFrom(tokens, at) == [ChainHash(tokens[..e])] + HashesFrom(tokens, e)
              && ChainHash(tokens[..e]) == hash(tokens[at..e], ChainHash(tokens[..at]))
    {
      ChainHashStep(tokens, at);
      ChunkEndAligned(at, |tokens|);
    }

    /** The KV slice of the chunk that starts at `at`. */
    lemma LastChunkIsSlice(step: Step, tokens: seq<Token>, at: nat)
      requires at < |tokens| && Aligned(at, size)
      ensures var e := ChunkEnd(at, |tokens|);
              LastChunkKV(step, size, tokens[..e]) == FullKV(step, tokens)[at..e]
    {
      var e := ChunkEnd(at, |tokens|);
      assert at <= e - 1 < at + size && tokens[..e] != [];
      FloorUnique(e - 1, size, at);
      LastChunkOfPrefix(step, size, tokens, at, e);
    }

    /** `hashes[k:]` of all hashes of `tokens`. */
    function HashesPast(tokens: seq<Token>, k: nat): seq<Hash> {
      var all := HashesFrom(tokens, 0);
      if k <= |all| then all[k..] else []
    }

    /** Dropping the first `k` hashes starts the list `k` chunks later. */
    lemma {:induction false} HashesFromDrop(tokens: seq<Token>, k: nat, at: nat)
      requires at == Times(k, size) && at <= |tokens|
      ensures k <= |HashesFrom(tokens, 0)|
      ensures HashesFrom(tokens, 0)[k..] == HashesFrom(tokens, at)
    {
      if k > 0 {
        HashesFromDrop(tokens, k - 1, at - size);
        HashesStep(tokens, at - size);
        var all := HashesFrom(tokens, 0);
        assert all[k..] == all[k - 1..][1..];
      }
    }

    lemma {:induction false} HashCount(tokens: seq<Token>, at: nat)
      requires at <= |tokens|
      ensures Times(|HashesFrom(tokens, at)|, size) < |tokens| - at + size
      decreases |tokens| - at
    {
      if at < |tokens| {
        HashCount(tokens, ChunkEnd(at, |tokens|));
        HashesStep(tokens, at);
      }
    }

    /** Past `k` whole chunks, which may be more than there are. */
    lemma HashesPastChunks(tokens: seq<Token>, k: nat, start: nat)
      requires start == k * size
      ensures HashesPast(tokens, k) == if start <= |tokens| then HashesFrom(tokens, start) else []
    {
      TimesIsProduct(k, size);
      PastTimes(tokens, k);
    }

    lemma PastTimes(tokens: seq<Token>, k: nat)
      ensures var start := Times(k, size);
              HashesPast(tokens, k) == if start <= |tokens| then HashesFrom(tokens, start) else []
    {
      if Times(k, size) <= |tokens| {
        HashesFromDrop(tokens, k, Times(k, size));
      } else {
        HashCount(tokens, 0);
        if k < |HashesFrom(tokens, 0)| {
          TimesMonotone(k, |HashesFrom(tokens, 0)|, size);
        }
      }
    }

    /** Past the `k` whole chunks among the first `skip` tokens. */
    lemma HashesPastSkip(tokens: seq<Token>, skip: nat, k: nat)
      requires k == skip / size
      ensures var start := Floor(skip, size);
              && start == k * size
              && HashesPast(tokens, k) == if start <= |tokens| then HashesFrom(tokens, start) else []
    {
      FloorIsTimes(skip, size, k);
      HashesPastChunks(tokens, k, Floor(skip, size));
    }
  }
}
