/** Places in a ring: a number modulo the size of the ring. */
module Places {

  // t & (n - 1) for a power of two n.
  function Place(t: int, n: nat): (p: nat)
    requires n > 0
    ensures p < n
  {
    t % n
  }

  lemma Times(d: int, n: nat)
    ensures d > 0 ==> d * n >= n
    ensures d < 0 ==> d * n + n <= 0
  {
  }

  lemma PlaceIs(t: int, n: nat, q: int, r: nat)
    requires n > 0 && t == q * n + r && r < n
    ensures Place(t, n) == r
  {
    var d := t / n - q;
    assert t == (t / n) * n + t % n;
    assert d * n == r - t % n;
    Times(d, n);
  }

  // The same place is a multiple of n away.
  lemma PlaceLaps(a: int, b: int, n: nat) returns (q: int)
    requires n > 0 && Place(a, n) == Place(b, n)
    ensures a == b + q * n
  {
    q := a / n - b / n;
    assert a == a / n * n + a % n && b == b / n * n + b % n;
  }

  lemma PlacesDiffer(a: int, b: int, n: nat)
    requires n > 0 && a < b < a + n
    ensures Place(a, n) != Place(b, n)
  {
    hide Place;
    if Place(a, n) == Place(b, n) {
      var q := PlaceLaps(b, a, n);
      Times(q, n);
    }
  }

  // Places that agree still do k further on.
  lemma PlacesMove(a: int, b: int, k: int, n: nat)
    requires n > 0 && Place(a, n) == Place(b, n)
    ensures Place(a + k, n) == Place(b + k, n)
  {
    var q := PlaceLaps(a, b, n);
    var p, r := (b + k) / n, (b + k) % n;
    assert b + k == p * n + r;
    assert (p + q) * n == p * n + q * n;
    PlaceIs(a + k, n, p + q, r);
  }

  lemma PlaceMoves(t: int, k: nat, n: nat)
    requires n > 0 && Place(t, n) + k <= n
    ensures Place(t + k, n) == if Place(t, n) + k < n then Place(t, n) + k else 0
  {
    var q, r := t / n, t % n;
    assert t == q * n + r;
    if r + k < n {
      PlaceIs(t + k, n, q, r + k);
    } else {
      assert (q + 1) * n == q * n + n;
      PlaceIs(t + k, n, q + 1, 0);
    }
  }

  lemma PlaceOfEnd(n: nat)
    requires n > 0
    ensures Place(n, n) == 0
  {
    PlaceIs(n, n, 1, 0);
  }

  lemma PlaceInside(t: nat, n: nat)
    requires t < n
    ensures Place(t, n) == t
  {
    PlaceIs(t, n, 0, t);
  }

  // How far the places of two output bytes are apart.
  lemma Distance(t: int, dist: nat, n: nat)
    requires n > 0 && 0 < dist <= n
    ensures Place(t, n) - Place(t - dist, n) == dist || Place(t, n) - Place(t - dist, n) == dist - n
  {
    var q := t / n - (t - dist) / n;
    assert t == t / n * n + t % n && t - dist == (t - dist) / n * n + (t - dist) % n;
    assert q * n == dist - (t % n - (t - dist) % n);
    Times(q, n);
    Times(q - 1, n);
    assert (q - 1) * n == q * n - n;
  }
}
