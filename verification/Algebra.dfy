/** Products of reals as units, for proofs about sums of products. */
module Algebra {

  /** The product a * b. The recursion keeps it folded, so that a proof can treat products as units and use only the
      laws below; `ProductIs` unfolds it. */
  function Product(a: real, b: real, folds: nat := 3): real {
    if folds == 0 then a * b else Product(a, b, folds - 1)
  }

  lemma ProductIs(a: real, b: real)
    ensures Product(a, b) == a * b
  {
    assert Product(a, b, 0) == Product(a, b, 1) == Product(a, b, 2) == Product(a, b, 3);
  }

  lemma ProductSum(c: real, p: real, q: real, sum: real)
    requires sum == p + q
    ensures Product(c, sum) == Product(c, p) + Product(c, q)
  {
    ProductIs(c, p);
    ProductIs(c, q);
    ProductIs(c, sum);
  }

  lemma ProductAssociates(a: real, b: real, c: real)
    ensures Product(Product(a, b), c) == Product(a, Product(b, c))
  {
    ProductIs(a, b);
    ProductIs(b, c);
    ProductIs(a * b, c);
    ProductIs(a, b * c);
  }

  lemma ProductUnits(a: real)
    ensures Product(a, 0.0) == 0.0 == Product(0.0, a)
    ensures Product(a, 1.0) == a == Product(1.0, a)
  {
    ProductIs(a, 0.0);
    ProductIs(0.0, a);
    ProductIs(a, 1.0);
    ProductIs(1.0, a);
  }
}
