/** The assumption on the chunk hash can be met: spelling out the chunk in front of the
    prefix hash never collides. */
module HashWitness {
  import opened Chunking

  function Ones(n: nat): string {
    if n == 0 then "" else "1" + Ones(n - 1)
  }

  function Word(t: Token): string {
    (if t < 0 then "-" else "+") + Ones(Abs(t))
  }

  function Abs(t: Token): nat {
    if t < 0 then -t else t
  }

  /** Each token in unary, then the prefix hash. */
  function Spell(chunk: seq<Token>, prefix: Hash): (h: Hash)
    ensures h != "" && h[0] != '1'
    ensures chunk == [] <==> h[0] == ';'
  {
    if chunk == [] then ";" + prefix else Word(chunk[0]) + Spell(chunk[1..], prefix)
  }

  lemma OnesHead(n: nat, x: string)
    requires x != ""
    ensures Ones(n) + x != ""
    ensures if n == 0 then Ones(n) + x == x else (Ones(n) + x)[0] == '1' && (Ones(n) + x)[1..] == Ones(n - 1) + x
  {
    if n == 0 {
      assert "" + x == x;
    } else {
      assert Ones(n) + x == "1" + (Ones(n - 1) + x);
    }
  }

  lemma {:induction false} OnesUnique(n: nat, x: string, m: nat, y: string)
    requires x != "" && x[0] != '1' && y != "" && y[0] != '1'
    requires Ones(n) + x == Ones(m) + y
    ensures n == m && x == y
  {
    OnesHead(n, x);
    OnesHead(m, y);
    if n > 0 && m > 0 {
      OnesUnique(n - 1, x, m - 1, y);
    }
  }

  lemma WordHead(t: Token, x: string)
    ensures (Word(t) + x)[0] == (if t < 0 then '-' else '+')
    ensures (Word(t) + x)[1..] == Ones(Abs(t)) + x
  {
    assert Word(t) + x == (if t < 0 then "-" else "+") + (Ones(Abs(t)) + x);
  }

  lemma WordUnique(s: Token, x: string, t: Token, y: string)
    requires x != "" && x[0] != '1' && y != "" && y[0] != '1'
    requires Word(s) + x == Word(t) + y
    ensures s == t && x == y
  {
    WordHead(s, x);
    WordHead(t, y);
    OnesUnique(Abs(s), x, Abs(t), y);
  }

  lemma {:induction false} SpellUnique(c: seq<Token>, g: Hash, d: seq<Token>, h: Hash)
    requires Spell(c, g) == Spell(d, h)
    ensures c == d && g == h
  {
    if c == [] {
      assert Spell(c, g)[1..] == g && Spell(d, h)[1..] == h;
    } else {
      WordUnique(c[0], Spell(c[1..], g), d[0], Spell(d[1..], h));
      SpellUnique(c[1..], g, d[1..], h);
      assert c == [c[0]] + c[1..] && d == [d[0]] + d[1..];
    }
  }

  lemma CollisionFreeHashExists()
    ensures CollisionFree((c, h) => Spell(c, h))
  {
    forall c: seq<Token>, g: Hash, d: seq<Token>, h: Hash | Spell(c, g) == Spell(d, h)
      ensures c == d && g == h
    {
      SpellUnique(c, g, d, h);
    }
  }
}
