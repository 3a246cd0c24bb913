/** The inflater's Huffman tables (deps/miniz/tinfl.c): a look-up table for codes of at most 10 bits,
    and a tree for what is longer. */
module HuffmanTable {
  import opened Powers
  import opened BitStrings
  import opened CanonicalCode

  const FAST_BITS: nat := 10
  const FAST_SIZE: nat := 1024
  const MAX_SYMBOLS: nat := 288
  const TREE_SIZE: nat := 576

  // A negative entry -1, -3, -5, ... refers to the pair of tree slots at 0, 2, 4, ...
  predicate IsNode(v: int, n: nat) {
    v < 0 && -v % 2 == 1 && (-v - 1) / 2 < n
  }

  function NodeAt(v: int): nat
    requires v < 0
  {
    (-v - 1) / 2
  }

  // ------------------------------------------------------------------
  // What the entries mean
  // ------------------------------------------------------------------

  // The table while symbol n, with code word w, is being added: the first n symbols are in it,
  // and the nodes for w of less than d bits.
  datatype Stage = Stage(lens: seq<nat>, n: nat, w: seq<bool>, d: nat)

  ghost predicate StageOk(g: Stage) {
    && Lengths(g.lens) && Complete(g.lens) && g.n <= |g.lens| <= MAX_SYMBOLS
    && FAST_BITS <= g.d && (g.d > FAST_BITS ==> g.d <= |g.w| && Used(g.lens, g.n) && g.w == CodeWord(g.lens, g.n))
  }

  ghost predicate Extends(lens: seq<nat>, sym: nat, p: seq<bool>) {
    Used(lens, sym) && |p| < lens[sym] && CodeWord(lens, sym)[..|p|] == p
  }

  // The code goes on below p.
  ghost predicate Below(g: Stage, p: seq<bool>) {
    || (exists t :: 0 <= t < g.n && Extends(g.lens, t, p))
    || (FAST_BITS <= |p| < g.d <= |g.w| && p == g.w[..|p|])
  }

  function Leaf(lens: seq<nat>, t: nat, p: seq<bool>): nat
    requires t < |lens|
  {
    if |p| == FAST_BITS then 512 * lens[t] + t else t
  }

  // The entry v for the bits p: a node if the code goes on below p, otherwise the symbol whose
  // code p begins with, and 0 if there is none yet.
  ghost predicate Entry(g: Stage, nodes: seq<seq<bool>>, v: int, p: seq<bool>)
    requires g.n <= |g.lens|
  {
    && (v < 0 <==> Below(g, p))
    && (v < 0 ==> IsNode(v, |nodes|) && nodes[NodeAt(v)] == p)
    && (v >= 0 ==> forall t :: 0 <= t < g.n && Begins(g.lens, t, p) ==> v == Leaf(g.lens, t, p))
    && (v > 0 ==> exists t :: 0 <= t < g.n && Begins(g.lens, t, p))
  }

  ghost predicate LookUpOk(g: Stage, nodes: seq<seq<bool>>, lookup: seq<int>)
    requires g.n <= |g.lens|
  {
    |lookup| == FAST_SIZE &&
    forall i {:trigger Low(i, FAST_BITS)} :: 0 <= i < FAST_SIZE ==> Entry(g, nodes, lookup[i], Low(i, FAST_BITS))
  }

  function Child(p: seq<bool>, b: bool): seq<bool> {
    p + [b]
  }

  ghost predicate TreeOk(g: Stage, nodes: seq<seq<bool>>, tree: seq<int>)
    requires g.n <= |g.lens|
  {
    && |tree| == TREE_SIZE && 2 * |nodes| <= TREE_SIZE
    && (forall j, b {:trigger Child(nodes[j], b)} :: 0 <= j < |nodes| ==>
        Entry(g, nodes, tree[2 * j + Bit(b)], Child(nodes[j], b)))
    && (forall k :: 2 * |nodes| <= k < TREE_SIZE ==> tree[k] == 0)
  }

  ghost predicate NodesOk(g: Stage, nodes: seq<seq<bool>>) {
    && (forall j :: 0 <= j < |nodes| ==> |nodes[j]| >= FAST_BITS && Below(g, nodes[j]))
    && (forall i, j :: 0 <= i < j < |nodes| ==> nodes[i] != nodes[j])
  }

  ghost predicate TableOk(g: Stage, nodes: seq<seq<bool>>, lookup: seq<int>, tree: seq<int>) {
    && |lookup| == FAST_SIZE && |tree| == TREE_SIZE
    && StageOk(g) && LookUpOk(g, nodes, lookup) && TreeOk(g, nodes, tree) && NodesOk(g, nodes)
  }

  // ------------------------------------------------------------------
  // How many nodes there are
  // ------------------------------------------------------------------

  function Zeros(n: nat): (w: seq<bool>)
    ensures |w| == n && forall i :: 0 <= i < n ==> !w[i]
  {
    seq(n, _ => false)
  }

  // The symbol reached from p by one right turn, and then left as far as it goes.
  ghost predicate RightThenLeft(lens: seq<nat>, p: seq<bool>, sym: nat) {
    && Used(lens, sym) && lens[sym] > |p|
    && CodeWord(lens, sym) == (p + [true] + Zeros(lens[sym]))[..lens[sym]]
  }

  lemma TurnRight(lens: seq<nat>, p: seq<bool>, t: nat) returns (sym: nat)
    requires Lengths(lens) && Complete(lens) && t < |lens| && Extends(lens, t, p)
    ensures RightThenLeft(lens, p, sym)
  {
    var s := p + [true] + Zeros(MAX_LENGTH);
    sym := EveryStreamBegins(lens, s);
    var w, l := CodeWord(lens, sym), lens[sym];
    if l <= |p| {
      assert w == CodeWord(lens, t)[..l];
      PrefixFree(lens, sym, t);
      assert false;
    }
    assert w == (p + [true] + Zeros(l))[..l];
  }

  // Such a symbol tells where it came from.
  lemma TurnBack(lens: seq<nat>, p: seq<bool>, q: seq<bool>, sym: nat)
    requires RightThenLeft(lens, p, sym) && RightThenLeft(lens, q, sym)
    ensures p == q
  {
    var w, l := CodeWord(lens, sym), lens[sym];
    assert w[|p|] && w[|q|];
    assert forall i :: |p| < i < l ==> !w[i];
    assert forall i :: |q| < i < l ==> !w[i];
    assert p == w[..|p|] && q == w[..|q|];
  }

  // Some code goes on below p.
  ghost predicate Interior(lens: seq<nat>, p: seq<bool>) {
    exists t :: 0 <= t < |lens| && Extends(lens, t, p)
  }

  ghost predicate Distinct(nodes: seq<seq<bool>>) {
    forall i, j :: 0 <= i < j < |nodes| ==> nodes[i] != nodes[j]
  }

  // The nodes have as many different symbols.
  lemma {:induction false} SymbolsOf(lens: seq<nat>, nodes: seq<seq<bool>>, n: nat) returns (syms: set<nat>)
    requires Lengths(lens) && Complete(lens) && n <= |nodes| && Distinct(nodes)
    requires forall j :: 0 <= j < |nodes| ==> Interior(lens, nodes[j])
    ensures |syms| == n && forall y :: y in syms ==> y < |lens| && exists j :: 0 <= j < n && RightThenLeft(lens, nodes[j], y)
  {
    if n == 0 {
      syms := {};
    } else {
      var rest := SymbolsOf(lens, nodes, n - 1);
      assert Interior(lens, nodes[n - 1]);
      var t :| 0 <= t < |lens| && Extends(lens, t, nodes[n - 1]);
      var sym := TurnRight(lens, nodes[n - 1], t);
      if sym in rest {
        var j :| 0 <= j < n - 1 && RightThenLeft(lens, nodes[j], sym);
        TurnBack(lens, nodes[j], nodes[n - 1], sym);
      }
      syms := rest + {sym};
    }
  }

  lemma {:induction false} SetBound(s: set<nat>, n: nat)
    requires forall y :: y in s ==> y < n
    ensures |s| <= n
  {
    if n > 0 {
      SetBound(s - {n - 1}, n - 1);
    } else {
      assert s == {};
    }
  }

  /** A complete code never needs more tree slots than there are. */
  lemma NodeBound(lens: seq<nat>, nodes: seq<seq<bool>>)
    requires Lengths(lens) && Complete(lens) && |lens| <= MAX_SYMBOLS && Distinct(nodes)
    requires forall j :: 0 <= j < |nodes| ==> Interior(lens, nodes[j])
    ensures 2 * |nodes| <= TREE_SIZE
  {
    var syms := SymbolsOf(lens, nodes, |nodes|);
    SetBound(syms, |lens|);
  }

  // ------------------------------------------------------------------
  // Adding a symbol
  // ------------------------------------------------------------------

  lemma BelowIsInterior(g: Stage, p: seq<bool>)
    requires StageOk(g) && Below(g, p)
    ensures Interior(g.lens, p)
  {
    if exists t :: 0 <= t < g.n && Extends(g.lens, t, p) {
    } else {
      assert Extends(g.lens, g.n, p);
    }
  }

  // A code that ends at or above p, and another that goes on below p, cannot be.
  lemma NotBoth(lens: seq<nat>, a: nat, b: nat, p: seq<bool>)
    requires Lengths(lens) && Complete(lens) && Begins(lens, a, p)
    ensures !Extends(lens, b, p)
  {
    if Extends(lens, b, p) {
      assert CodeWord(lens, b)[..lens[a]] == p[..lens[a]];
      PrefixFree(lens, a, b);
    }
  }

  lemma EndsOrGoesOn(g: Stage, a: nat, p: seq<bool>)
    requires StageOk(g) && Begins(g.lens, a, p)
    ensures !Below(g, p)
  {
    if Below(g, p) {
      BelowIsInterior(g, p);
      var t :| 0 <= t < |g.lens| && Extends(g.lens, t, p);
      NotBoth(g.lens, a, t, p);
    }
  }

  // What an entry says stays true for bits that the new symbol has nothing to do with.
  lemma EntryKept(g: Stage, g': Stage, nodes: seq<seq<bool>>, nodes': seq<seq<bool>>, v: int, p: seq<bool>)
    requires g.lens == g'.lens && g.n <= g'.n <= g.n + 1 && g'.n <= |g.lens| && nodes <= nodes'
    requires Entry(g, nodes, v, p) && (Below(g, p) <==> Below(g', p))
    requires g'.n == g.n + 1 ==> !Begins(g.lens, g.n, p)
    ensures Entry(g', nodes', v, p)
  {
    if v > 0 {
      var t :| 0 <= t < g.n && Begins(g.lens, t, p);
      assert 0 <= t < g'.n;
    }
  }

  lemma EntrySymbol(g: Stage, nodes: seq<seq<bool>>, sym: nat, p: seq<bool>)
    requires StageOk(g) && sym < g.n && Begins(g.lens, sym, p)
    ensures Entry(g, nodes, Leaf(g.lens, sym, p), p)
  {
    EndsOrGoesOn(g, sym, p);
    forall t | 0 <= t < g.n && Begins(g.lens, t, p) ensures t == sym {
      BeginsOnce(g.lens, t, sym, p);
    }
  }

  function At(lens: seq<nat>, n: nat): Stage {
    Stage(lens, n, [], FAST_BITS)
  }

  // An unused symbol changes nothing.
  lemma SkipSymbol(lens: seq<nat>, n: nat, nodes: seq<seq<bool>>, lookup: seq<int>, tree: seq<int>)
    requires n < |lens| && lens[n] == 0 && TableOk(At(lens, n), nodes, lookup, tree)
    ensures TableOk(At(lens, n + 1), nodes, lookup, tree)
  {
    var g, g' := At(lens, n), At(lens, n + 1);
    forall p ensures Below(g, p) <==> Below(g', p) {
      if Below(g, p) {
        var t :| 0 <= t < n && Extends(lens, t, p);
        assert 0 <= t < n + 1;
      }
    }
    forall i {:trigger Low(i, FAST_BITS)} | 0 <= i < FAST_SIZE ensures Entry(g', nodes, lookup[i], Low(i, FAST_BITS)) {
      EntryKept(g, g', nodes, nodes, lookup[i], Low(i, FAST_BITS));
    }
    forall j, b {:trigger Child(nodes[j], b)} | 0 <= j < |nodes| ensures Entry(g', nodes, tree[2 * j + Bit(b)], Child(nodes[j], b)) {
      EntryKept(g, g', nodes, nodes, tree[2 * j + Bit(b)], Child(nodes[j], b));
    }
  }

  // --- a code of at most 10 bits ---

  // The low bits of i are w.
  predicate Ends(i: nat, w: seq<bool>) {
    Low(i, |w|) == w
  }

  // The look-up table with the entries below n that begin with the code word filled in.
  ghost predicate FilledTo(lookup: seq<int>, lookup': seq<int>, w: seq<bool>, v: int, n: nat) {
    |lookup| == |lookup'| == FAST_SIZE && |w| <= FAST_BITS &&
    forall i: nat :: i < FAST_SIZE ==> lookup'[i] == if i < n && Ends(i, w) then v else lookup[i]
  }

  ghost predicate Filled(lookup: seq<int>, lookup': seq<int>, w: seq<bool>, v: int) {
    FilledTo(lookup, lookup', w, v, FAST_SIZE)
  }

  lemma FilledFirst(lookup: seq<int>, w: seq<bool>, v: int)
    requires |lookup| == FAST_SIZE && |w| <= FAST_BITS
    ensures Ends(Val(w), w) && FilledTo(lookup, lookup, w, v, Val(w))
  {
    LowOfVal(w);
    forall i: nat | i < Val(w) ensures !Ends(i, w) {
      if Ends(i, w) {
        LowApart(i, Val(w), |w|);
      }
    }
  }

  // The next index with the same low bits is 2^|w| further on.
  lemma NextEnds(w: seq<bool>, n: nat)
    requires Ends(n, w)
    ensures Ends(n + Pow2(|w|), w) && forall i: nat :: n < i < n + Pow2(|w|) ==> !Ends(i, w)
  {
    hide Low, Pow2;
    LowPeriod(n, |w|);
    forall i: nat | n < i < n + Pow2(|w|) ensures !Ends(i, w) {
      NotBetween(w, n, i);
    }
  }

  lemma NotBetween(w: seq<bool>, n: nat, i: nat)
    requires Ends(n, w) && n < i < n + Pow2(|w|)
    ensures !Ends(i, w)
  {
    if Ends(i, w) {
      LowApart(n, i, |w|);
    }
  }

  lemma FilledStep(lookup: seq<int>, lookup': seq<int>, w: seq<bool>, v: int, n: nat)
    requires FilledTo(lookup, lookup', w, v, n) && n < FAST_SIZE && Ends(n, w)
    ensures FilledTo(lookup, lookup'[n := v], w, v, n + Pow2(|w|)) && Ends(n + Pow2(|w|), w)
  {
    hide Ends;
    NextEnds(w, n);
  }

  lemma ShortBelow(lens: seq<nat>, n: nat, p: seq<bool>)
    requires n < |lens| && lens[n] <= FAST_BITS <= |p|
    ensures Below(At(lens, n), p) <==> Below(At(lens, n + 1), p)
  {
    if Below(At(lens, n), p) {
      var t :| 0 <= t < n && Extends(lens, t, p);
      assert 0 <= t < n + 1;
    }
  }

  lemma ShortLookUp(lens: seq<nat>, n: nat, nodes: seq<seq<bool>>, lookup: seq<int>, tree: seq<int>, lookup': seq<int>, i: nat)
    requires Used(lens, n) && lens[n] <= FAST_BITS && TableOk(At(lens, n), nodes, lookup, tree) && i < FAST_SIZE
    requires Filled(lookup, lookup', CodeWord(lens, n), 512 * lens[n] + n)
    ensures Entry(At(lens, n + 1), nodes, lookup'[i], Low(i, FAST_BITS))
  {
    var p, l := Low(i, FAST_BITS), lens[n];
    LowPrefix(i, FAST_BITS, l);
    ShortBelow(lens, n, p);
    if Ends(i, CodeWord(lens, n)) {
      EntrySymbol(At(lens, n + 1), nodes, n, p);
    } else {
      EntryKept(At(lens, n), At(lens, n + 1), nodes, nodes, lookup[i], p);
    }
  }

  lemma ShortTree(lens: seq<nat>, n: nat, nodes: seq<seq<bool>>, lookup: seq<int>, tree: seq<int>, j: nat, b: bool)
    requires Used(lens, n) && lens[n] <= FAST_BITS && TableOk(At(lens, n), nodes, lookup, tree) && j < |nodes|
    ensures Entry(At(lens, n + 1), nodes, tree[2 * j + Bit(b)], Child(nodes[j], b))
  {
    var g, q, p := At(lens, n), nodes[j], Child(nodes[j], b);
    ShortBelow(lens, n, p);
    if Begins(lens, n, p) {
      assert p[..lens[n]] == q[..lens[n]];
      EndsOrGoesOn(g, n, q);
    }
    EntryKept(g, At(lens, n + 1), nodes, nodes, tree[2 * j + Bit(b)], p);
  }

  lemma AddShort(lens: seq<nat>, n: nat, nodes: seq<seq<bool>>, lookup: seq<int>, tree: seq<int>, lookup': seq<int>)
    requires Used(lens, n) && lens[n] <= FAST_BITS && TableOk(At(lens, n), nodes, lookup, tree)
    requires Filled(lookup, lookup', CodeWord(lens, n), 512 * lens[n] + n)
    ensures TableOk(At(lens, n + 1), nodes, lookup', tree)
  {
    forall i {:trigger Low(i, FAST_BITS)} | 0 <= i < FAST_SIZE
      ensures Entry(At(lens, n + 1), nodes, lookup'[i], Low(i, FAST_BITS))
    {
      ShortLookUp(lens, n, nodes, lookup, tree, lookup', i);
    }
    forall j, b {:trigger Child(nodes[j], b)} | 0 <= j < |nodes|
      ensures Entry(At(lens, n + 1), nodes, tree[2 * j + Bit(b)], Child(nodes[j], b))
    {
      ShortTree(lens, n, nodes, lookup, tree, j, b);
    }
    forall j | 0 <= j < |nodes| ensures Below(At(lens, n + 1), nodes[j]) {
      ShortBelow(lens, n, nodes[j]);
    }
  }

  // --- a longer code ---

  // The place of an entry: in the look-up table, or below a node.
  datatype Place = Top(i: nat) | Under(j: nat, b: bool)

  ghost predicate PlaceOk(nodes: seq<seq<bool>>, at: Place) {
    match at
    case Top(i) => i < FAST_SIZE
    case Under(j, b) => j < |nodes|
  }

  ghost function PathOf(nodes: seq<seq<bool>>, at: Place): seq<bool>
    requires PlaceOk(nodes, at)
  {
    match at
    case Top(i) => Low(i, FAST_BITS)
    case Under(j, b) => Child(nodes[j], b)
  }

  ghost function Get(lookup: seq<int>, tree: seq<int>, at: Place): int
    requires |lookup| == FAST_SIZE && |tree| == TREE_SIZE
  {
    match at
    case Top(i) => if i < FAST_SIZE then lookup[i] else 0
    case Under(j, b) => if 2 * j + Bit(b) < TREE_SIZE then tree[2 * j + Bit(b)] else 0
  }

  // Only the entry at one place has changed, to v.
  ghost predicate Put(lookup: seq<int>, tree: seq<int>, at: Place, v: int, lookup': seq<int>, tree': seq<int>) {
    && |lookup| == FAST_SIZE && |tree| == TREE_SIZE
    && (match at
        case Top(i) => i < FAST_SIZE && lookup' == lookup[i := v] && tree' == tree
        case Under(j, b) => 2 * j + Bit(b) < TREE_SIZE && tree' == tree[2 * j + Bit(b) := v] && lookup' == lookup)
  }

  // Different places stand for different bits.
  lemma PathsDiffer(nodes: seq<seq<bool>>, x: Place, y: Place)
    requires PlaceOk(nodes, x) && PlaceOk(nodes, y) && x != y && Distinct(nodes)
    requires forall j :: 0 <= j < |nodes| ==> |nodes[j]| >= FAST_BITS
    ensures PathOf(nodes, x) != PathOf(nodes, y)
  {
    var p, q := PathOf(nodes, x), PathOf(nodes, y);
    assert x.Under? ==> p[..|p| - 1] == nodes[x.j] && p[|p| - 1] == x.b;
    assert y.Under? ==> q[..|q| - 1] == nodes[y.j] && q[|q| - 1] == y.b;
    if p == q && x.Top? && y.Top? {
      TenBits();
      if x.i < y.i {
        LowApart(x.i, y.i, FAST_BITS);
      } else {
        LowApart(y.i, x.i, FAST_BITS);
      }
    }
  }

  lemma TenBits()
    ensures Pow2(10) == FAST_SIZE
  {
    Pow2Adds(5, 5);
  }

  // All entries, by place.
  ghost predicate EntriesOk(g: Stage, nodes: seq<seq<bool>>, lookup: seq<int>, tree: seq<int>)
    requires g.n <= |g.lens| && |lookup| == FAST_SIZE && |tree| == TREE_SIZE
  {
    forall at {:trigger PlaceOk(nodes, at)} :: PlaceOk(nodes, at) ==> Entry(g, nodes, Get(lookup, tree, at), PathOf(nodes, at))
  }

  lemma ByPlace(g: Stage, nodes: seq<seq<bool>>, lookup: seq<int>, tree: seq<int>)
    requires StageOk(g) && |lookup| == FAST_SIZE && |tree| == TREE_SIZE && 2 * |nodes| <= TREE_SIZE
    requires forall k :: 2 * |nodes| <= k < TREE_SIZE ==> tree[k] == 0
    ensures EntriesOk(g, nodes, lookup, tree) <==> LookUpOk(g, nodes, lookup) && TreeOk(g, nodes, tree)
  {
    if EntriesOk(g, nodes, lookup, tree) {
      forall i {:trigger Low(i, FAST_BITS)} | 0 <= i < FAST_SIZE ensures Entry(g, nodes, lookup[i], Low(i, FAST_BITS)) {
        assert PlaceOk(nodes, Top(i));
      }
      forall j, b {:trigger Child(nodes[j], b)} | 0 <= j < |nodes|
        ensures Entry(g, nodes, tree[2 * j + Bit(b)], Child(nodes[j], b))
      {
        assert PlaceOk(nodes, Under(j, b));
      }
    }
  }

  // Symbol n, with a code of more than 10 bits, is being added.
  ghost predicate Adding(g: Stage) {
    StageOk(g) && Used(g.lens, g.n) && g.w == CodeWord(g.lens, g.n) && g.d <= |g.w|
  }

  function Deeper(g: Stage): Stage {
    g.(d := g.d + 1)
  }

  lemma DeeperBelow(g: Stage, p: seq<bool>)
    requires Adding(g) && g.d < |g.w|
    ensures Below(Deeper(g), p) <==> Below(g, p) || p == g.w[..g.d]
  {
    assert |g.w[..g.d]| == g.d;
  }

  // No symbol that is in the table ends on the way of the new one.
  lemma NoneEnds(g: Stage, t: nat, p: seq<bool>)
    requires Adding(g) && t < g.n && |p| <= |g.w| && p == g.w[..|p|]
    ensures !Begins(g.lens, t, p)
  {
    if Begins(g.lens, t, p) {
      assert g.w[..g.lens[t]] == p[..g.lens[t]];
      PrefixFree(g.lens, t, g.n);
    }
  }

  // The entry on the way of the new symbol is a node or 0.
  lemma OnTheWay(g: Stage, nodes: seq<seq<bool>>, v: int)
    requires Adding(g) && g.d <= |g.w| && Entry(g, nodes, v, g.w[..g.d])
    ensures v <= 0
  {
    if v > 0 {
      var t :| 0 <= t < g.n && Begins(g.lens, t, g.w[..g.d]);
      NoneEnds(g, t, g.w[..g.d]);
    }
  }

  // There is a node already.
  lemma NodeThere(g: Stage, nodes: seq<seq<bool>>, lookup: seq<int>, tree: seq<int>, at: Place)
    requires Adding(g) && g.d < |g.w| && TableOk(g, nodes, lookup, tree)
    requires PlaceOk(nodes, at) && PathOf(nodes, at) == g.w[..g.d] && Get(lookup, tree, at) < 0
    ensures TableOk(Deeper(g), nodes, lookup, tree) && Adding(Deeper(g))
    ensures IsNode(Get(lookup, tree, at), |nodes|) && nodes[NodeAt(Get(lookup, tree, at))] == g.w[..g.d]
  {
    ByPlace(g, nodes, lookup, tree);
    assert Entry(g, nodes, Get(lookup, tree, at), PathOf(nodes, at));
    forall p ensures Below(Deeper(g), p) <==> Below(g, p) {
      DeeperBelow(g, p);
    }
    forall x {:trigger PlaceOk(nodes, x)} | PlaceOk(nodes, x)
      ensures Entry(Deeper(g), nodes, Get(lookup, tree, x), PathOf(nodes, x))
    {
      EntryKept(g, Deeper(g), nodes, nodes, Get(lookup, tree, x), PathOf(nodes, x));
    }
    ByPlace(Deeper(g), nodes, lookup, tree);
  }

  // The slots of a new node are empty, and rightly so.
  lemma NewChild(g: Stage, nodes: seq<seq<bool>>, b: bool)
    requires Adding(g) && g.d < |g.w| && !Below(g, g.w[..g.d])
    ensures Entry(Deeper(g), nodes, 0, Child(g.w[..g.d], b))
  {
    var p := g.w[..g.d];
    var c := Child(p, b);
    if Below(Deeper(g), c) {
      DeeperBelow(g, c);
      if t :| 0 <= t < g.n && Extends(g.lens, t, c) {
        assert CodeWord(g.lens, t)[..|p|] == c[..|p|];
        assert Extends(g.lens, t, p);
      }
    }
    forall t | 0 <= t < g.n ensures !Begins(g.lens, t, c) {
      assert !Extends(g.lens, t, p);
      if Begins(g.lens, t, c) {
        if g.lens[t] <= |p| {
          assert c[..g.lens[t]] == p[..g.lens[t]];
          NoneEnds(g, t, p);
        }
      }
    }
  }

  lemma NewNodesOk(g: Stage, nodes: seq<seq<bool>>)
    requires Adding(g) && g.d < |g.w| && NodesOk(g, nodes) && !Below(g, g.w[..g.d])
    ensures NodesOk(Deeper(g), nodes + [g.w[..g.d]]) && 2 * |nodes| + 2 <= TREE_SIZE
  {
    var nodes' := nodes + [g.w[..g.d]];
    forall j | 0 <= j < |nodes'|
      ensures |nodes'[j]| >= FAST_BITS && Below(Deeper(g), nodes'[j]) && Interior(g.lens, nodes'[j])
    {
      DeeperBelow(g, nodes'[j]);
      BelowIsInterior(Deeper(g), nodes'[j]);
    }
    NodeBound(g.lens, nodes');
  }

  lemma NewNodeEntry(g: Stage, nodes: seq<seq<bool>>, lookup: seq<int>, tree: seq<int>, at: Place, lookup': seq<int>, tree': seq<int>, x: Place)
    requires Adding(g) && g.d < |g.w| && TableOk(g, nodes, lookup, tree) && 2 * |nodes| + 2 <= TREE_SIZE
    requires PlaceOk(nodes, at) && PathOf(nodes, at) == g.w[..g.d] && !Below(g, g.w[..g.d])
    requires Put(lookup, tree, at, -1 - 2 * |nodes|, lookup', tree')
    requires PlaceOk(nodes + [g.w[..g.d]], x)
    ensures Entry(Deeper(g), nodes + [g.w[..g.d]], Get(lookup', tree', x), PathOf(nodes + [g.w[..g.d]], x))
  {
    var nodes' := nodes + [g.w[..g.d]];
    var p := PathOf(nodes', x);
    if x.Under? && x.j == |nodes| {
      assert Get(lookup', tree', x) == 0;
      NewChild(g, nodes', x.b);
    } else {
      assert PlaceOk(nodes, x) && PathOf(nodes, x) == p;
      DeeperBelow(g, p);
      if x == at {
        forall t | 0 <= t < g.n ensures !Begins(g.lens, t, p) {
          NoneEnds(g, t, p);
        }
      } else {
        PathsDiffer(nodes, x, at);
        ByPlace(g, nodes, lookup, tree);
        assert Get(lookup', tree', x) == Get(lookup, tree, x);
        EntryKept(g, Deeper(g), nodes, nodes', Get(lookup, tree, x), p);
      }
    }
  }

  // A node is made.
  lemma NewNode(g: Stage, nodes: seq<seq<bool>>, lookup: seq<int>, tree: seq<int>, at: Place, lookup': seq<int>, tree': seq<int>)
    requires Adding(g) && g.d < |g.w| && TableOk(g, nodes, lookup, tree)
    requires PlaceOk(nodes, at) && PathOf(nodes, at) == g.w[..g.d] && Get(lookup, tree, at) == 0
    requires Put(lookup, tree, at, -1 - 2 * |nodes|, lookup', tree')
    ensures TableOk(Deeper(g), nodes + [g.w[..g.d]], lookup', tree') && Adding(Deeper(g))
  {
    var nodes' := nodes + [g.w[..g.d]];
    ByPlace(g, nodes, lookup, tree);
    assert Entry(g, nodes, Get(lookup, tree, at), PathOf(nodes, at));
    NewNodesOk(g, nodes);
    forall x {:trigger PlaceOk(nodes', x)} | PlaceOk(nodes', x)
      ensures Entry(Deeper(g), nodes', Get(lookup', tree', x), PathOf(nodes', x))
    {
      NewNodeEntry(g, nodes, lookup, tree, at, lookup', tree', x);
    }
    ByPlace(Deeper(g), nodes', lookup', tree');
  }

  lemma EndBelow(g: Stage, p: seq<bool>)
    requires Adding(g) && g.d == |g.w| && |p| >= FAST_BITS
    ensures Below(g, p) <==> Below(At(g.lens, g.n + 1), p)
  {
    if t :| 0 <= t < g.n && Extends(g.lens, t, p) {
      assert 0 <= t < g.n + 1;
    } else if Below(g, p) {
      assert Extends(g.lens, g.n, p);
    }
  }

  lemma LeafEntry(g: Stage, nodes: seq<seq<bool>>, lookup: seq<int>, tree: seq<int>, at: Place, lookup': seq<int>, tree': seq<int>, x: Place)
    requires Adding(g) && g.d == |g.w| > FAST_BITS && TableOk(g, nodes, lookup, tree)
    requires PlaceOk(nodes, at) && PathOf(nodes, at) == g.w && Put(lookup, tree, at, g.n, lookup', tree') && PlaceOk(nodes, x)
    ensures Entry(At(g.lens, g.n + 1), nodes, Get(lookup', tree', x), PathOf(nodes, x))
  {
    var p, g' := PathOf(nodes, x), At(g.lens, g.n + 1);
    EndBelow(g, p);
    if x == at {
      assert g.w[..|g.w|] == g.w;
      EntrySymbol(g', nodes, g.n, p);
    } else {
      PathsDiffer(nodes, x, at);
      ByPlace(g, nodes, lookup, tree);
      assert Get(lookup', tree', x) == Get(lookup, tree, x);
      if Begins(g.lens, g.n, p) {
        var q := nodes[x.j];
        assert p != g.w && |p| > |g.w| && p[..|g.w|] == q[..|g.w|];
        assert Begins(g.lens, g.n, q);
        EndsOrGoesOn(g, g.n, q);
      }
      EntryKept(g, g', nodes, nodes, Get(lookup, tree, x), p);
    }
  }

  // The symbol itself goes into the last slot.
  lemma AddLeaf(g: Stage, nodes: seq<seq<bool>>, lookup: seq<int>, tree: seq<int>, at: Place, lookup': seq<int>, tree': seq<int>)
    requires Adding(g) && g.d == |g.w| > FAST_BITS && TableOk(g, nodes, lookup, tree)
    requires PlaceOk(nodes, at) && PathOf(nodes, at) == g.w && Put(lookup, tree, at, g.n, lookup', tree')
    ensures TableOk(At(g.lens, g.n + 1), nodes, lookup', tree')
  {
    var g' := At(g.lens, g.n + 1);
    forall x {:trigger PlaceOk(nodes, x)} | PlaceOk(nodes, x) ensures Entry(g', nodes, Get(lookup', tree', x), PathOf(nodes, x)) {
      LeafEntry(g, nodes, lookup, tree, at, lookup', tree', x);
    }
    forall j | 0 <= j < |nodes| ensures Below(g', nodes[j]) {
      EndBelow(g, nodes[j]);
    }
    ByPlace(g', nodes, lookup', tree');
  }

  // ------------------------------------------------------------------
  // Building the table
  // ------------------------------------------------------------------

  // The bits of a code in the order of the stream: the last of the code becomes the highest.
  method ReverseCode(code: nat, size: nat) returns (rev: nat)
    ensures rev == Val(Word(code, size))
  {
    rev := 0;
    var cur: nat, l: nat := code, size;
    ghost var w := Word(code, size);
    while l > 0
      invariant l <= size && rev == Val(w[l..]) && w[..l] == Word(cur, l)
    {
      assert w[l - 1..] == [w[l - 1]] + w[l..];
      assert w[l - 1] == Word(cur, l)[l - 1];
      assert w[..l - 1] == Word(cur, l)[..l - 1];
      rev := 2 * rev + cur % 2;
      l, cur := l - 1, cur / 2;
    }
    assert w[0..] == w;
  }

  // Every index that ends in the bits of a short code gets its entry.
  method FillLookUp(lookup: array<int>, rev: nat, size: nat, k: int, ghost w: seq<bool>)
    requires lookup.Length == FAST_SIZE && size == |w| <= FAST_BITS && rev == Val(w)
    modifies lookup
    ensures Filled(old(lookup[..]), lookup[..], w, k)
  {
    var i := rev;
    FilledFirst(lookup[..], w, k);
    while i < FAST_SIZE
      invariant Ends(i, w) && FilledTo(old(lookup[..]), lookup[..], w, k, i)
      decreases FAST_SIZE - i
    {
      FilledStep(old(lookup[..]), lookup[..], w, k, i);
      lookup[i] := k;
      i := i + Pow2(size);
    }
  }

  // Before any of its bits are in the table.
  lemma StartLong(lens: seq<nat>, n: nat, nodes: seq<seq<bool>>, lookup: seq<int>, tree: seq<int>, w: seq<bool>)
    requires TableOk(At(lens, n), nodes, lookup, tree) && Used(lens, n) && w == CodeWord(lens, n) && |w| > FAST_BITS
    ensures Adding(Stage(lens, n, w, FAST_BITS)) && TableOk(Stage(lens, n, w, FAST_BITS), nodes, lookup, tree)
  {
    var g, g' := At(lens, n), Stage(lens, n, w, FAST_BITS);
    forall p ensures Below(g, p) <==> Below(g', p) {}
    ByPlace(g, nodes, lookup, tree);
    forall x {:trigger PlaceOk(nodes, x)} | PlaceOk(nodes, x) ensures Entry(g', nodes, Get(lookup, tree, x), PathOf(nodes, x)) {
      EntryKept(g, g', nodes, nodes, Get(lookup, tree, x), PathOf(nodes, x));
    }
    ByPlace(g', nodes, lookup, tree);
  }

  // The index of the first ten bits of a code.
  lemma TopIndex(rev: nat, w: seq<bool>)
    requires rev == Val(w) && |w| >= FAST_BITS
    ensures Low(rev % FAST_SIZE, FAST_BITS) == w[..FAST_BITS]
  {
    TenBits();
    LowOfVal(w);
    LowOfMod(rev, FAST_BITS);
    LowPrefix(rev, |w|, FAST_BITS);
  }

  lemma BitOf(rev: nat, w: seq<bool>, k: nat)
    requires rev == Val(w) && k < |w|
    ensures w[k] == (Shr(rev, k) % 2 == 1) && Bit(w[k]) == Shr(rev, k) % 2
    ensures w[..k + 1] == Child(w[..k], w[k])
  {
    LowOfVal(w);
    LowAt(rev, |w|, k);
  }

  // One step down the tree of nodes: the entry at a place becomes a node if it is not one.
  lemma Step(g: Stage, nodes: seq<seq<bool>>, lookup: seq<int>, tree: seq<int>, at: Place, lookup': seq<int>, tree': seq<int>)
    returns (nodes': seq<seq<bool>>)
    requires Adding(g) && g.d < |g.w| && TableOk(g, nodes, lookup, tree)
    requires PlaceOk(nodes, at) && PathOf(nodes, at) == g.w[..g.d]
    requires if Get(lookup, tree, at) == 0 then Put(lookup, tree, at, -1 - 2 * |nodes|, lookup', tree') else lookup' == lookup && tree' == tree
    ensures TableOk(Deeper(g), nodes', lookup', tree') && Adding(Deeper(g)) && Get(lookup', tree', at) < 0
    ensures |nodes'| == if Get(lookup, tree, at) == 0 then |nodes| + 1 else |nodes|
    ensures IsNode(Get(lookup', tree', at), |nodes'|) && nodes'[NodeAt(Get(lookup', tree', at))] == g.w[..g.d]
  {
    if Get(lookup, tree, at) == 0 {
      NewNode(g, nodes, lookup, tree, at, lookup', tree');
      nodes' := nodes + [g.w[..g.d]];
    } else {
      ByPlace(g, nodes, lookup, tree);
      OnTheWay(g, nodes, Get(lookup, tree, at));
      NodeThere(g, nodes, lookup, tree, at);
      nodes' := nodes;
    }
  }

  // cur refers to the node that the bits so far lead to.
  ghost predicate Cursor(g: Stage, nodes: seq<seq<bool>>, cur: int) {
    FAST_BITS < g.d <= |g.w| && IsNode(cur, |nodes|) && nodes[NodeAt(cur)] == g.w[..g.d - 1]
  }

  // The slot below the cursor for the next bit.
  lemma SlotOf(g: Stage, nodes: seq<seq<bool>>, cur: int, code: nat)
    requires Cursor(g, nodes, cur) && code == Val(g.w)
    ensures var at, bit := Under(NodeAt(cur), g.w[g.d - 1]), Shr(code, g.d - 1) % 2;
      PlaceOk(nodes, at) && PathOf(nodes, at) == g.w[..g.d] && -(cur - bit) - 1 == 2 * at.j + Bit(at.b)
  {
    BitOf(code, g.w, g.d - 1);
    NodeSlot(cur, |nodes|);
    hide IsNode, NodeAt, Shr;
  }

  lemma NodeSlot(cur: int, n: nat)
    requires IsNode(cur, n)
    ensures -cur - 1 == 2 * NodeAt(cur) && NodeAt(cur) < n
  {
  }

  // The first ten bits.
  method EnterTop(lookup: array<int>, tree: array<int>, code: nat, next0: int, ghost g: Stage, ghost nodes0: seq<seq<bool>>)
    returns (cur: int, next: int, ghost nodes: seq<seq<bool>>)
    requires lookup != tree && Adding(g) && g.d == FAST_BITS < |g.w| && TableOk(g, nodes0, lookup[..], tree[..])
    requires code == Val(g.w) && next0 == -1 - 2 * |nodes0|
    modifies lookup
    ensures TableOk(Deeper(g), nodes, lookup[..], tree[..]) && Adding(Deeper(g)) && Cursor(Deeper(g), nodes, cur)
    ensures next == -1 - 2 * |nodes|
  {
    hide Low, Val, LookUpOk, TreeOk, NodesOk, StageOk;
    next := next0;
    var i := code % FAST_SIZE;
    TopIndex(code, g.w);
    ghost var before := lookup[..];
    cur := lookup[i];
    if cur == 0 {
      lookup[i] := next;
      cur := next;
      next := next - 2;
    }
    nodes := Step(g, nodes0, before, tree[..], Top(i), lookup[..], tree[..]);
  }

  // One more bit, with more to come.
  method Descend(lookup: array<int>, tree: array<int>, cur0: int, bit: nat, next0: int, ghost code: nat, ghost g: Stage, ghost nodes0: seq<seq<bool>>)
    returns (cur: int, next: int, ghost nodes: seq<seq<bool>>)
    requires lookup != tree && Adding(g) && g.d < |g.w| && TableOk(g, nodes0, lookup[..], tree[..]) && Cursor(g, nodes0, cur0)
    requires code == Val(g.w) && next0 == -1 - 2 * |nodes0| && bit == Shr(code, g.d - 1) % 2
    modifies tree
    ensures TableOk(Deeper(g), nodes, lookup[..], tree[..]) && Adding(Deeper(g)) && Cursor(Deeper(g), nodes, cur)
    ensures next == -1 - 2 * |nodes|
  {
    SlotOf(g, nodes0, cur0, code);
    ghost var at, before := Under(NodeAt(cur0), g.w[g.d - 1]), tree[..];
    next := next0;
    cur := cur0 - bit;
    if tree[-cur - 1] == 0 {
      tree[-cur - 1] := next;
      cur := next;
      next := next - 2;
    } else {
      cur := tree[-cur - 1];
    }
    nodes := Step(g, nodes0, lookup[..], before, at, lookup[..], tree[..]);
  }

  // A code of more than 10 bits.
  method AddLong(lookup: array<int>, tree: array<int>, code: nat, size: nat, sym: nat, next0: int,
                 ghost lens: seq<nat>, ghost nodes0: seq<seq<bool>>)
    returns (next: int, ghost nodes: seq<seq<bool>>)
    requires lookup != tree && TableOk(At(lens, sym), nodes0, lookup[..], tree[..])
    requires Used(lens, sym) && size == lens[sym] > FAST_BITS && code == Val(CodeWord(lens, sym))
    requires next0 == -1 - 2 * |nodes0|
    modifies lookup, tree
    ensures TableOk(At(lens, sym + 1), nodes, lookup[..], tree[..]) && next == -1 - 2 * |nodes|
  {
    hide LookUpOk, TreeOk, NodesOk, StageOk;
    ghost var w := CodeWord(lens, sym);
    ghost var g := Stage(lens, sym, w, FAST_BITS);
    StartLong(lens, sym, nodes0, lookup[..], tree[..], w);
    var cur;
    cur, next, nodes := EnterTop(lookup, tree, code, next0, g, nodes0);
    g := Deeper(g);
    var rev := Shr(code, FAST_BITS - 1);
    var j := size;
    while j > FAST_BITS + 1
      invariant FAST_BITS < j <= size && g == Stage(lens, sym, w, size - j + FAST_BITS + 1)
      invariant Adding(g) && TableOk(g, nodes, lookup[..], tree[..]) && next == -1 - 2 * |nodes|
      invariant rev == Shr(code, g.d - 2) && Cursor(g, nodes, cur)
    {
      ShrStep(code, g.d - 2);
      rev := rev / 2;
      cur, next, nodes := Descend(lookup, tree, cur, rev % 2, next, code, g, nodes);
      g := Deeper(g);
      j := j - 1;
    }
    ShrStep(code, g.d - 2);
    rev := rev / 2;
    nodes := EndLong(lookup, tree, cur, rev % 2, sym, code, g, nodes);
  }

  method EndLong(lookup: array<int>, tree: array<int>, cur0: int, bit: nat, sym: nat, ghost code: nat, ghost g: Stage, ghost nodes0: seq<seq<bool>>)
    returns (ghost nodes: seq<seq<bool>>)
    requires lookup != tree && Adding(g) && g.d == |g.w| && TableOk(g, nodes0, lookup[..], tree[..]) && Cursor(g, nodes0, cur0)
    requires code == Val(g.w) && bit == Shr(code, g.d - 1) % 2 && sym == g.n
    modifies tree
    ensures TableOk(At(g.lens, sym + 1), nodes, lookup[..], tree[..]) && nodes == nodes0
  {
    nodes := nodes0;
    SlotOf(g, nodes, cur0, code);
    ghost var at, before := Under(NodeAt(cur0), g.w[g.d - 1]), tree[..];
    var cur := cur0 - bit;
    tree[-cur - 1] := sym;
    assert g.w[..g.d] == g.w;
    AddLeaf(g, nodes, lookup[..], before, at, lookup[..], tree[..]);
  }

  method Clear(a: array<int>)
    modifies a
    ensures forall i :: 0 <= i < a.Length ==> a[i] == 0
  {
    for i := 0 to a.Length
      invariant forall k :: 0 <= k < i ==> a[k] == 0
    {
      a[i] := 0;
    }
  }

  // How many symbols have each length.
  method CountTotals(lens: seq<nat>) returns (totals: array<nat>)
    requires Lengths(lens)
    ensures fresh(totals) && totals.Length == 16 && forall l :: 0 <= l < 16 ==> totals[l] == Count(lens, l)
  {
    totals := new nat[16](_ => 0);
    for i := 0 to |lens|
      invariant forall l :: 0 <= l < 16 ==> totals[l] == CountBelow(lens, l, i)
    {
      totals[lens[i]] := totals[lens[i]] + 1;
    }
  }

  lemma FirstStep(lens: seq<nat>, l: nat)
    requires l >= 1
    ensures First(lens, l + 1) == 2 * (First(lens, l) + Count(lens, l))
  {
  }

  /** The number of symbols in use, and the first code of each length. The lengths are accepted if
      they are complete or there is at most one symbol. */
  method CountLengths(lens: seq<nat>) returns (next: array<nat>, accepted: bool)
    requires Lengths(lens)
    ensures fresh(next) && next.Length == 17 && forall l :: 1 <= l <= 16 ==> next[l] == First(lens, l)
    ensures accepted <==> Complete(lens) || UsedUpTo(lens, MAX_LENGTH) <= 1
  {
    hide First, Count;
    var totals := CountTotals(lens);
    next := new nat[17];
    next[0], next[1] := 0, 0;
    var used, total := 0, 0;
    FirstIsZero(lens);
    for i := 1 to 16
      invariant forall l :: 1 <= l <= i ==> next[l] == First(lens, l)
      invariant total == First(lens, i) && used == UsedUpTo(lens, i - 1)
      invariant forall l :: 0 <= l < 16 ==> totals[l] == Count(lens, l)
    {
      FirstStep(lens, i);
      used := used + totals[i];
      total := 2 * (total + totals[i]);
      next[i + 1] := total;
    }
    accepted := total == 0x1_0000 || used <= 1;
  }

  lemma FirstIsZero(lens: seq<nat>)
    ensures First(lens, 1) == 0
  {
  }

  // How many symbols have a length of 1 to l.
  function UsedUpTo(lens: seq<nat>, l: nat): nat {
    if l == 0 then 0 else UsedUpTo(lens, l - 1) + Count(lens, l)
  }

  lemma EmptyTable(lens: seq<nat>, lookup: seq<int>, tree: seq<int>)
    requires Lengths(lens) && Complete(lens) && |lens| <= MAX_SYMBOLS
    requires |lookup| == FAST_SIZE && |tree| == TREE_SIZE
    requires (forall i :: 0 <= i < FAST_SIZE ==> lookup[i] == 0) && forall i :: 0 <= i < TREE_SIZE ==> tree[i] == 0
    ensures TableOk(At(lens, 0), [], lookup, tree)
  {
  }

  method AddSymbol(lens: seq<nat>, sym: nat, code: nat, lookup: array<int>, tree: array<int>, next0: int, ghost nodes0: seq<seq<bool>>)
    returns (next: int, ghost nodes: seq<seq<bool>>)
    requires lookup != tree && TableOk(At(lens, sym), nodes0, lookup[..], tree[..]) && next0 == -1 - 2 * |nodes0|
    requires Used(lens, sym) && code == Code(lens, sym)
    modifies lookup, tree
    ensures TableOk(At(lens, sym + 1), nodes, lookup[..], tree[..]) && next == -1 - 2 * |nodes|
  {
    var size := lens[sym];
    var rev := ReverseCode(code, size);
    if size <= FAST_BITS {
      ghost var before := lookup[..];
      FillLookUp(lookup, rev, size, 512 * size + sym, CodeWord(lens, sym));
      next, nodes := next0, nodes0;
      AddShort(lens, sym, nodes, before, tree[..], lookup[..]);
    } else {
      next, nodes := AddLong(lookup, tree, rev, size, sym, next0, lens, nodes0);
    }
  }

  /** The table of a complete code, built as tinfl_decompress does. */
  method BuildTable(lens: seq<nat>, next: array<nat>, lookup: array<int>, tree: array<int>)
    requires Lengths(lens) && Complete(lens) && |lens| <= MAX_SYMBOLS
    requires next.Length == 17 && forall l :: 1 <= l <= 16 ==> next[l] == First(lens, l)
    requires lookup.Length == FAST_SIZE && tree.Length == TREE_SIZE && lookup != tree
    modifies next, lookup, tree
    ensures Decodes(lens, lookup[..], tree[..])
  {
    hide TableOk, Complete;
    Clear(lookup);
    Clear(tree);
    EmptyTable(lens, lookup[..], tree[..]);
    ghost var nodes := [];
    var tree_next := -1;
    for sym := 0 to |lens|
      invariant TableOk(At(lens, sym), nodes, lookup[..], tree[..]) && tree_next == -1 - 2 * |nodes|
      invariant forall l :: 1 <= l <= MAX_LENGTH ==> next[l] == First(lens, l) + CountBelow(lens, l, sym)
    {
      if lens[sym] == 0 {
        SkipSymbol(lens, sym, nodes, lookup[..], tree[..]);
      } else {
        var code := next[lens[sym]];
        next[lens[sym]] := next[lens[sym]] + 1;
        tree_next, nodes := AddSymbol(lens, sym, code, lookup, tree, tree_next, nodes);
      }
    }
  }

  // ------------------------------------------------------------------
  // Decoding
  // ------------------------------------------------------------------

  // A finished table.
  ghost predicate Decodes(lens: seq<nat>, lookup: seq<int>, tree: seq<int>) {
    exists nodes :: TableOk(At(lens, |lens|), nodes, lookup, tree)
  }

  // What the table has for the bits p that s begins with.
  lemma EntryOf(lens: seq<nat>, nodes: seq<seq<bool>>, v: int, p: seq<bool>, sym: nat, s: seq<bool>)
    requires StageOk(At(lens, |lens|)) && Entry(At(lens, |lens|), nodes, v, p) && Begins(lens, sym, s) && |p| <= |s| && p == s[..|p|]
    ensures lens[sym] <= |p| <==> v >= 0
    ensures lens[sym] <= |p| ==> v == Leaf(lens, sym, p)
    ensures lens[sym] > |p| ==> IsNode(v, |nodes|) && nodes[NodeAt(v)] == p
  {
    if lens[sym] <= |p| {
      assert s[..lens[sym]] == p[..lens[sym]];
      assert Begins(lens, sym, p);
      EndsOrGoesOn(At(lens, |lens|), sym, p);
    } else {
      assert s[..lens[sym]][..|p|] == p;
      assert Extends(lens, sym, p);
    }
  }

  // v is the entry for the first size bits of s, which begins with the code of y.
  ghost predicate Walk(lens: seq<nat>, nodes: seq<seq<bool>>, s: seq<bool>, y: nat, size: nat, v: int) {
    && Begins(lens, y, s) && FAST_BITS <= size <= |s|
    && (v < 0 ==> size < lens[y] && IsNode(v, |nodes|) && nodes[NodeAt(v)] == s[..size])
    && (v >= 0 ==> lens[y] <= size && v == Leaf(lens, y, s[..size]))
    && (size > FAST_BITS ==> size <= lens[y])
  }

  lemma WalkTop(lens: seq<nat>, nodes: seq<seq<bool>>, lookup: seq<int>, tree: seq<int>, bits: nat, y: nat)
    requires TableOk(At(lens, |lens|), nodes, lookup, tree) && Begins(lens, y, Low(bits, MAX_LENGTH))
    ensures Walk(lens, nodes, Low(bits, MAX_LENGTH), y, FAST_BITS, lookup[bits % FAST_SIZE])
  {
    var i := bits % FAST_SIZE;
    IndexOf(bits);
    EntryOf(lens, nodes, lookup[i], Low(i, FAST_BITS), y, Low(bits, MAX_LENGTH));
  }

  lemma WalkDown(lens: seq<nat>, nodes: seq<seq<bool>>, lookup: seq<int>, tree: seq<int>, bits: nat, y: nat, size: nat, v: int)
    requires TableOk(At(lens, |lens|), nodes, lookup, tree) && v < 0 && size < MAX_LENGTH
    requires Walk(lens, nodes, Low(bits, MAX_LENGTH), y, size, v)
    ensures 0 <= -v - 1 + Shr(bits, size) % 2 < TREE_SIZE
    ensures Walk(lens, nodes, Low(bits, MAX_LENGTH), y, size + 1, tree[-v - 1 + Shr(bits, size) % 2])
  {
    hide NodeAt, Shr, Low, Begins, LookUpOk, NodesOk, StageOk, IsNode;
    var s := Low(bits, MAX_LENGTH);
    NodeSlot(v, |nodes|);
    NextBit(bits, size);
    var j := NodeAt(v);
    assert Child(nodes[j], s[size]) == s[..size + 1];
    EntryOf(lens, nodes, tree[2 * j + Bit(s[size])], Child(nodes[j], s[size]), y, s);
  }

  lemma WalkEnds(lens: seq<nat>, nodes: seq<seq<bool>>, s: seq<bool>, y: nat, size: nat, v: int)
    requires Walk(lens, nodes, s, y, size, v) && v >= 0 && |lens| <= MAX_SYMBOLS
    ensures Begins(lens, y, s)
    ensures if size == FAST_BITS then v / 512 == lens[y] && v % 512 == y else v == y && size == lens[y]
  {
  }

  /** TINFL_HUFF_DECODE on 15 bits or more: the symbol, and the length of its code, that the stream
      begins with. */
  method Decode(lookup: seq<int>, tree: seq<int>, bits: nat, ghost lens: seq<nat>) returns (sym: nat, size: nat)
    requires Decodes(lens, lookup, tree)
    ensures Begins(lens, sym, Low(bits, MAX_LENGTH)) && size == lens[sym]
  {
    ghost var s := Low(bits, MAX_LENGTH);
    ghost var nodes :| TableOk(At(lens, |lens|), nodes, lookup, tree);
    ghost var y := EveryStreamBegins(lens, s);
    WalkTop(lens, nodes, lookup, tree, bits, y);
    hide TableOk, Begins, Low, Shr, Leaf;
    var v := lookup[bits % FAST_SIZE];
    if v >= 0 {
      WalkEnds(lens, nodes, s, y, FAST_BITS, v);
      size, sym := v / 512, v % 512;
    } else {
      size := FAST_BITS;
      while v < 0
        invariant size <= MAX_LENGTH && Walk(lens, nodes, s, y, size, v) && (v < 0 || size > FAST_BITS)
        decreases MAX_LENGTH - size
      {
        WalkDown(lens, nodes, lookup, tree, bits, y, size, v);
        v := tree[-v - 1 + Shr(bits, size) % 2];
        size := size + 1;
      }
      WalkEnds(lens, nodes, s, y, size, v);
      sym := v;
    }
  }

  lemma IndexOf(bits: nat)
    ensures Low(bits % FAST_SIZE, FAST_BITS) == Low(bits, MAX_LENGTH)[..FAST_BITS]
  {
    TenBits();
    LowOfMod(bits, FAST_BITS);
    LowPrefix(bits, MAX_LENGTH, FAST_BITS);
  }

  lemma NextBit(bits: nat, k: nat)
    requires k < MAX_LENGTH
    ensures var s := Low(bits, MAX_LENGTH); Bit(s[k]) == Shr(bits, k) % 2 && s[..k + 1] == s[..k] + [s[k]]
  {
    LowAt(bits, MAX_LENGTH, k);
  }

  // ------------------------------------------------------------------
  // With less than 15 bits in the buffer
  // ------------------------------------------------------------------

  // The zeros above the n bits in the buffer do not matter when the code is within them.
  lemma CodeInside(lens: seq<nat>, bits: nat, n: nat, y: nat)
    requires Lengths(lens) && Complete(lens) && n <= MAX_LENGTH && Begins(lens, y, Low(bits, MAX_LENGTH))
    ensures lens[y] <= n <==> Begins(lens, y, Low(bits, n))
    ensures lens[y] > n ==> forall z: nat :: !Begins(lens, z, Low(bits, n))
  {
    var s, p := Low(bits, MAX_LENGTH), Low(bits, n);
    LowPrefix(bits, MAX_LENGTH, n);
    assert lens[y] <= n ==> p[..lens[y]] == s[..lens[y]];
    forall z: nat | Begins(lens, z, p) ensures z == y {
      assert s[..lens[z]] == p[..lens[z]];
      BeginsOnce(lens, y, z, s);
    }
  }

  /** The test of TINFL_HUFF_BITBUF_FILL: whether the n bits in the buffer hold a whole code. */
  method HasCode(lookup: seq<int>, tree: seq<int>, bits: nat, n: nat, ghost lens: seq<nat>) returns (found: bool, ghost y: nat)
    requires Decodes(lens, lookup, tree) && n < MAX_LENGTH
    ensures Begins(lens, y, Low(bits, MAX_LENGTH)) && (found <==> lens[y] <= n)
  {
    ghost var s := Low(bits, MAX_LENGTH);
    ghost var nodes :| TableOk(At(lens, |lens|), nodes, lookup, tree);
    y := EveryStreamBegins(lens, s);
    WalkTop(lens, nodes, lookup, tree, bits, y);
    hide TableOk, Low, Shr, Leaf;
    var v := lookup[bits % FAST_SIZE];
    found := false;
    if v >= 0 {
      WalkEnds(lens, nodes, s, y, FAST_BITS, v);
      found := v / 512 != 0 && n >= v / 512;
    } else if n > FAST_BITS {
      var size := FAST_BITS;
      while v < 0 && n >= size + 1
        invariant size <= n && Walk(lens, nodes, s, y, size, v) && (v < 0 || size > FAST_BITS)
        decreases n - size
      {
        WalkDown(lens, nodes, lookup, tree, bits, y, size, v);
        v := tree[-v - 1 + Shr(bits, size) % 2];
        size := size + 1;
      }
      if v >= 0 {
        WalkEnds(lens, nodes, s, y, size, v);
      }
      found := v >= 0;
    }
  }
}
