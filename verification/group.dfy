// An abstract abelian group and its integer multiples. The curve's addition formulas are not modelled; the
// scalar-multiplication loops are proved to compute the right multiple in any group.
module Groups {

  datatype Group<!G> = Group(zero: G, add: (G, G) -> G, neg: G -> G)

  ghost predicate Abelian<G(!new)>(g: Group<G>)
  {
    && (forall x :: g.add(x, g.zero) == x)
    && (forall x :: g.add(x, g.neg(x)) == g.zero)
    && (forall x, y :: g.add(x, y) == g.add(y, x))
    && (forall x, y, z :: g.add(g.add(x, y), z) == g.add(x, g.add(y, z)))
  }

  // n times x
  ghost function Mul<G>(g: Group<G>, n: int, x: G): G
    decreases if n < 0 then -n else n
  {
    if n == 0 then g.zero
    else if n > 0 then g.add(Mul(g, n - 1, x), x)
    else g.add(Mul(g, n + 1, x), g.neg(x))
  }

  lemma AddNeg<G(!new)>(g: Group<G>, y: G, x: G)
    requires Abelian(g)
    ensures g.add(g.add(y, x), g.neg(x)) == y
    ensures g.add(g.add(y, g.neg(x)), x) == y
  {
    assert g.add(g.add(y, g.neg(x)), x) == g.add(y, g.add(g.neg(x), x));
  }

  lemma MulSucc<G(!new)>(g: Group<G>, n: int, x: G)
    requires Abelian(g)
    ensures Mul(g, n + 1, x) == g.add(Mul(g, n, x), x)
    ensures Mul(g, n - 1, x) == g.add(Mul(g, n, x), g.neg(x))
  {
    if n >= 0 {
      AddNeg(g, Mul(g, n - 1, x), x);
    } else {
      AddNeg(g, Mul(g, n + 1, x), x);
    }
    if n == 0 {
      assert Mul(g, -1, x) == g.add(Mul(g, 0, x), g.neg(x));
    }
  }

  lemma Regroup<G(!new)>(g: Group<G>, a: G, b: G, c: G, d: G)
    requires Abelian(g)
    ensures g.add(g.add(a, b), g.add(c, d)) == g.add(g.add(a, c), g.add(b, d))
  {
    calc {
      g.add(g.add(a, b), g.add(c, d));
      g.add(a, g.add(b, g.add(c, d)));
      g.add(a, g.add(g.add(b, c), d));
      g.add(a, g.add(g.add(c, b), d));
      g.add(a, g.add(c, g.add(b, d)));
      g.add(g.add(a, c), g.add(b, d));
    }
  }

  lemma Assoc<G(!new)>(g: Group<G>, x: G, y: G, z: G)
    requires Abelian(g)
    ensures g.add(g.add(x, y), z) == g.add(x, g.add(y, z))
  {
  }

  lemma ZeroIsUnit<G(!new)>(g: Group<G>, x: G)
    requires Abelian(g)
    ensures g.add(x, g.zero) == x == g.add(g.zero, x)
  {
  }

  lemma {:induction false} MulAdd<G(!new)>(g: Group<G>, m: int, n: int, x: G)
    requires Abelian(g)
    ensures Mul(g, m + n, x) == g.add(Mul(g, m, x), Mul(g, n, x))
    decreases if n < 0 then -n else n
  {
    hide Abelian;
    if n == 0 {
      ZeroIsUnit(g, Mul(g, m, x));
    } else if n > 0 {
      MulAdd(g, m, n - 1, x);
      MulSucc(g, m + n - 1, x);
      Assoc(g, Mul(g, m, x), Mul(g, n - 1, x), x);
    } else {
      MulAdd(g, m, n + 1, x);
      MulSucc(g, m + n + 1, x);
      Assoc(g, Mul(g, m, x), Mul(g, n + 1, x), g.neg(x));
    }
  }

  lemma {:induction false} MulMul<G(!new)>(g: Group<G>, m: int, n: int, x: G)
    requires Abelian(g)
    ensures Mul(g, m, Mul(g, n, x)) == Mul(g, m * n, x)
    decreases if m < 0 then -m else m
  {
    hide Abelian;
    if m == 0 {
    } else if m > 0 {
      MulMul(g, m - 1, n, x);
      MulAdd(g, (m - 1) * n, n, x);
      assert (m - 1) * n + n == m * n;
    } else {
      MulMul(g, m + 1, n, x);
      MulAdd(g, m * n, n, x);
      assert m * n + n == (m + 1) * n;
      AddNeg(g, Mul(g, m * n, x), Mul(g, n, x));
    }
  }

  lemma NegMul<G(!new)>(g: Group<G>, n: int, x: G)
    requires Abelian(g)
    ensures g.neg(Mul(g, n, x)) == Mul(g, -n, x)
  {
    hide Abelian;
    MulAdd(g, -n, n, x);
    AddNeg(g, Mul(g, -n, x), Mul(g, n, x));
    ZeroIsUnit(g, g.neg(Mul(g, n, x)));
  }

  // m times x plus n times y
  ghost function Lin<G>(g: Group<G>, m: int, x: G, n: int, y: G): G {
    g.add(Mul(g, m, x), Mul(g, n, y))
  }

  lemma LinDouble<G(!new)>(g: Group<G>, m: int, x: G, n: int, y: G)
    requires Abelian(g)
    ensures g.add(Lin(g, m, x, n, y), Lin(g, m, x, n, y)) == Lin(g, 2 * m, x, 2 * n, y)
  {
    hide Abelian;
    Regroup(g, Mul(g, m, x), Mul(g, n, y), Mul(g, m, x), Mul(g, n, y));
    MulAdd(g, m, m, x);
    MulAdd(g, n, n, y);
  }

  lemma LinAddLeft<G(!new)>(g: Group<G>, m: int, x: G, n: int, y: G, k: int)
    requires Abelian(g)
    ensures g.add(Lin(g, m, x, n, y), Mul(g, k, x)) == Lin(g, m + k, x, n, y)
  {
    hide Abelian;
    MulAdd(g, m, k, x);
    Regroup(g, Mul(g, m, x), Mul(g, n, y), Mul(g, k, x), g.zero);
    ZeroIsUnit(g, Mul(g, k, x));
    ZeroIsUnit(g, Mul(g, n, y));
  }

  lemma LinAddRight<G(!new)>(g: Group<G>, m: int, x: G, n: int, y: G, k: int)
    requires Abelian(g)
    ensures g.add(Lin(g, m, x, n, y), Mul(g, k, y)) == Lin(g, m, x, n + k, y)
  {
    hide Abelian;
    MulAdd(g, n, k, y);
    Assoc(g, Mul(g, m, x), Mul(g, n, y), Mul(g, k, y));
  }
}
