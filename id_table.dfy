/**
 * Append-only tables that give every new key the next dense integer index.
 * The n-gram vocabulary and the label universe of the classifier are both
 * such tables; they are filled by scanning a sequence of keys in order.
 */
module IdTable {

  /** Indices never collide. */
  ghost predicate Injective<T>(m: map<T, nat>)
  {
    forall x, y :: x in m && y in m && m[x] == m[y] ==> x == y
  }

  /** Every index lies below the size of the table, and no two keys share one. */
  ghost predicate Dense<T>(m: map<T, nat>)
  {
    && (forall x :: x in m ==> m[x] < |m|)
    && Injective(m)
  }

  /**
   * `m` gives the key `order[i]` the index `i`, and holds no other key:
   * `order` lists the keys of `m` by index.
   */
  ghost predicate IndexedBy<T>(m: map<T, nat>, order: seq<T>)
  {
    && |order| == |m|
    && (forall i :: 0 <= i < |order| ==> order[i] in m && m[order[i]] == i)
    && (forall x :: x in m ==> x in order)
  }

  /** `set(xs)`: the elements of a list. */
  function SetOf<T>(xs: seq<T>): set<T>
  {
    set x | x in xs
  }

  /** Adds `x` with the next index if it is absent; leaves the table alone otherwise. */
  function Register<T>(m: map<T, nat>, x: T): (r: map<T, nat>)
    ensures x in r && r.Keys == m.Keys + {x}
    ensures forall y :: y in m ==> r[y] == m[y]
    ensures |r| == if x in m then |m| else |m| + 1
    ensures x !in m ==> r[x] == |m|
    ensures x in m ==> r == m
  {
    if x in m then m else m[x := |m|]
  }

  /** Registers the keys of `xs` from left to right. */
  function RegisterAll<T>(m: map<T, nat>, xs: seq<T>): (r: map<T, nat>)
    ensures |m| <= |r| <= |m| + |xs|
    decreases |xs|
  {
    if xs == [] then m
    else Register(RegisterAll(m, xs[..|xs| - 1]), xs[|xs| - 1])
  }

  /**
   * Registration with a separately kept counter `n` as the next index, instead
   * of the size of the table. It agrees with Register only while `n == |m|`.
   */
  function RegisterCounted<T>(m: map<T, nat>, n: nat, x: T): (map<T, nat>, nat)
  {
    if x in m then (m, n) else (m[x := n], n + 1)
  }

  /** `RegisterCounted` over `xs` from left to right; the counter advances at most once per key. */
  function RegisterAllCounted<T>(m: map<T, nat>, n: nat, xs: seq<T>): (r: (map<T, nat>, nat))
    ensures n <= r.1 <= n + |xs|
    decreases |xs|
  {
    if xs == [] then (m, n)
    else
      var p := RegisterAllCounted(m, n, xs[..|xs| - 1]);
      RegisterCounted(p.0, p.1, xs[|xs| - 1])
  }

  /** The keys of `order` followed by those of `xs` not seen before, in first-seen order. */
  function Extend<T(==)>(order: seq<T>, xs: seq<T>): seq<T>
    decreases |xs|
  {
    if xs == [] then order
    else
      var p := Extend(order, xs[..|xs| - 1]);
      if xs[|xs| - 1] in p then p else p + [xs[|xs| - 1]]
  }

  /** The distinct elements of `xs` in the order of their first occurrence. */
  function FirstSeen<T(==)>(xs: seq<T>): seq<T>
  {
    Extend([], xs)
  }

  /** The position of the first occurrence of `x` in `xs`. */
  function FirstIndex<T(==)>(xs: seq<T>, x: T): (i: nat)
    requires x in xs
    ensures i < |xs| && xs[i] == x
    ensures forall j :: 0 <= j < i ==> xs[j] != x
    decreases |xs|
  {
    if x in xs[..|xs| - 1] then FirstIndex(xs[..|xs| - 1], x) else |xs| - 1
  }

  /** Counted scanning adds exactly the scanned keys and never moves an existing index. */
  lemma {:induction false} RegisterAllCountedKeys<T>(m: map<T, nat>, n: nat, xs: seq<T>)
    ensures RegisterAllCounted(m, n, xs).0.Keys == m.Keys + SetOf(xs)
    ensures forall y :: y in m ==> RegisterAllCounted(m, n, xs).0[y] == m[y]
    decreases |xs|
  {
    if xs != [] {
      var init := xs[..|xs| - 1];
      RegisterAllCountedKeys(m, n, init);
      var prev := RegisterAllCounted(m, n, init);
      assert SetOf(xs) == SetOf(init) + {xs[|xs| - 1]} by {
        assert xs == init + [xs[|xs| - 1]];
      }
      forall y | y in m
        ensures RegisterCounted(prev.0, prev.1, xs[|xs| - 1]).0[y] == m[y]
      {
        assert y in prev.0;
      }
    }
  }

  /** Scanning adds exactly the scanned keys and never moves an existing index. */
  lemma RegisterAllKeys<T>(m: map<T, nat>, xs: seq<T>)
    ensures RegisterAll(m, xs).Keys == m.Keys + SetOf(xs)
    ensures forall y :: y in m ==> RegisterAll(m, xs)[y] == m[y]
  {
    CountedIsRegister(m, |m|, xs);
    RegisterAllCountedKeys(m, |m|, xs);
  }

  /** Growing a prefix of `b` by one element, after a fixed `a`. */
  lemma PrefixStep<T>(a: seq<T>, b: seq<T>, j: nat)
    requires j < |b|
    ensures a + b[..j + 1] == (a + b[..j]) + [b[j]]
  {
    assert b[..j + 1] == b[..j] + [b[j]];
  }

  lemma RegisterAllSnoc<T>(m: map<T, nat>, xs: seq<T>, x: T)
    ensures RegisterAll(m, xs + [x]) == Register(RegisterAll(m, xs), x)
  {
    assert (xs + [x])[..|xs|] == xs;
  }

  /** Scanning `a` then `b` is scanning `a + b`. */
  lemma {:induction false} RegisterAllAppend<T>(m: map<T, nat>, a: seq<T>, b: seq<T>)
    ensures RegisterAll(m, a + b) == RegisterAll(RegisterAll(m, a), b)
    decreases |b|
  {
    if b == [] {
      assert a + b == a;
    } else {
      var init, x := b[..|b| - 1], b[|b| - 1];
      assert a + b == (a + init) + [x];
      RegisterAllAppend(m, a, init);
      RegisterAllSnoc(m, a + init, x);
    }
  }

  lemma RegisterAllCountedSnoc<T>(m: map<T, nat>, n: nat, xs: seq<T>, x: T)
    ensures var p := RegisterAllCounted(m, n, xs);
            RegisterAllCounted(m, n, xs + [x]) == RegisterCounted(p.0, p.1, x)
  {
    assert (xs + [x])[..|xs|] == xs;
  }

  /** Registering a key keeps the table dense. */
  lemma RegisterKeepsDense<T>(m: map<T, nat>, x: T)
    requires Dense(m)
    ensures Dense(Register(m, x))
  {
  }

  /** Registering a key extends the index order by that key when it is new. */
  lemma RegisterKeepsIndexed<T>(m: map<T, nat>, order: seq<T>, x: T)
    requires IndexedBy(m, order)
    ensures IndexedBy(Register(m, x), if x in order then order else order + [x])
  {
    if x !in m {
      assert x !in order;
      var r, o := Register(m, x), order + [x];
      forall i | 0 <= i < |o|
        ensures o[i] in r && r[o[i]] == i
      {
        if i < |order| {
          assert o[i] == order[i];
        }
      }
    }
  }

  /** Scanning `xs` into a table indexed by `order` gives the table indexed by Extend(order, xs). */
  lemma {:induction false} RegisterAllIndexed<T>(m: map<T, nat>, order: seq<T>, xs: seq<T>)
    requires IndexedBy(m, order)
    ensures IndexedBy(RegisterAll(m, xs), Extend(order, xs))
    decreases |xs|
  {
    if xs != [] {
      var init := xs[..|xs| - 1];
      RegisterAllIndexed(m, order, init);
      RegisterKeepsIndexed(RegisterAll(m, init), Extend(order, init), xs[|xs| - 1]);
    }
  }

  /** A table indexed by a sequence holds exactly the indices 0 .. size-1, one key each. */
  lemma IndexedIsDense<T>(m: map<T, nat>, order: seq<T>)
    requires IndexedBy(m, order)
    ensures Dense(m)
    ensures forall i :: i in m.Values <==> 0 <= i < |m|
  {
    forall x | x in m
      ensures m[x] < |m| && order[m[x]] == x
    {
      var i :| 0 <= i < |order| && order[i] == x;
    }
    forall i | 0 <= i < |m|
      ensures i in m.Values
    {
      assert order[i] in m && m[order[i]] == i;
    }
  }

  /** The first-seen sequence holds the elements of `xs`, each once, in the order they first occur. */
  lemma {:induction false} FirstSeenOrdered<T>(xs: seq<T>)
    ensures forall x :: x in FirstSeen(xs) <==> x in xs
    ensures forall i, j :: 0 <= i < j < |FirstSeen(xs)| ==>
      FirstIndex(xs, FirstSeen(xs)[i]) < FirstIndex(xs, FirstSeen(xs)[j])
    decreases |xs|
  {
    if xs != [] {
      var init, z := xs[..|xs| - 1], xs[|xs| - 1];
      assert xs == init + [z];
      FirstSeenOrdered(init);
      var p := FirstSeen(init);
      assert FirstSeen(xs) == if z in p then p else p + [z];
      forall y | y in init
        ensures FirstIndex(xs, y) == FirstIndex(init, y)
      {
      }
      if z !in p {
        forall i | 0 <= i < |p|
          ensures FirstIndex(xs, p[i]) < FirstIndex(xs, z)
        {
          assert p[i] in p;
        }
      }
    }
  }

  /** Scanning `xs` into an empty table gives the table indexed by the first-seen order of `xs`. */
  lemma FreshTableIndexed<T>(xs: seq<T>)
    ensures IndexedBy(RegisterAll(map[], xs), FirstSeen(xs))
  {
    RegisterAllIndexed(map[], [], xs);
  }

  /** In a table indexed by `order`, a key sits in `order` at its own index. */
  lemma IndexedAt<T>(m: map<T, nat>, order: seq<T>, x: T)
    requires IndexedBy(m, order) && x in m
    ensures m[x] < |order| && order[m[x]] == x
  {
    var i :| 0 <= i < |order| && order[i] == x;
  }

  /** Two positions of the first-seen sequence are in the order of their keys' first occurrences. */
  lemma FirstSeenAt<T>(xs: seq<T>, i: nat, j: nat)
    requires i < j < |FirstSeen(xs)|
    ensures FirstSeen(xs)[i] in xs && FirstSeen(xs)[j] in xs
    ensures FirstIndex(xs, FirstSeen(xs)[i]) < FirstIndex(xs, FirstSeen(xs)[j])
  {
    FirstSeenOrdered(xs);
  }

  /** In a table indexed by the first-seen order of `xs`, indices follow the order of first occurrence. */
  lemma FirstSeenIndexOrder<T>(m: map<T, nat>, xs: seq<T>, x: T, y: T)
    requires IndexedBy(m, FirstSeen(xs))
    requires x in m && y in m && x in xs && y in xs
    ensures m[x] < m[y] <==> FirstIndex(xs, x) < FirstIndex(xs, y)
  {
    var f := FirstSeen(xs);
    IndexedAt(m, f, x);
    IndexedAt(m, f, y);
    var i, j := m[x], m[y];
    if i < j {
      FirstSeenAt(xs, i, j);
    } else if j < i {
      FirstSeenAt(xs, j, i);
    }
  }

  /**
   * Scanning `xs` into an empty table: the keys are the elements of `xs`, the
   * indices are exactly 0 .. size-1, one key each, and they follow the order in
   * which the keys first occur in `xs`.
   */
  lemma FreshTableFirstSeen<T>(xs: seq<T>)
    ensures var m := RegisterAll(map[], xs);
      && m.Keys == SetOf(xs)
      && Dense(m)
      && (forall i :: i in m.Values <==> 0 <= i < |m|)
      && forall x, y :: x in m && y in m ==> (m[x] < m[y] <==> FirstIndex(xs, x) < FirstIndex(xs, y))
  {
    RegisterAllKeys(map[], xs);
    FreshTableIndexed(xs);
    IndexedIsDense(RegisterAll(map[], xs), FirstSeen(xs));
    var m := RegisterAll(map[], xs);
    forall x, y | x in m && y in m
      ensures m[x] < m[y] <==> FirstIndex(xs, x) < FirstIndex(xs, y)
    {
      FirstSeenIndexOrder(m, xs, x, y);
    }
  }

  /** The size of a table filled from empty is the number of distinct keys scanned. */
  lemma FreshTableSize<T>(xs: seq<T>)
    ensures |RegisterAll(map[], xs)| == |SetOf(xs)|
  {
    var m := RegisterAll(map[], xs);
    RegisterAllKeys(map[], xs);
    assert m.Keys == SetOf(xs);
  }

  /** While the counter equals the table size, counted registration is plain registration. */
  lemma {:induction false} CountedIsRegister<T>(m: map<T, nat>, n: nat, xs: seq<T>)
    requires n == |m|
    ensures RegisterAllCounted(m, n, xs) == (RegisterAll(m, xs), |RegisterAll(m, xs)|)
    decreases |xs|
  {
    if xs != [] {
      CountedIsRegister(m, n, xs[..|xs| - 1]);
    }
  }

  /**
   * With the counter restarted at 0 on a table that already holds keys, the
   * next new key receives the index of the first key already registered.
   */
  lemma CountedRestartCollides<T>(m: map<T, nat>, order: seq<T>, x: T)
    requires IndexedBy(m, order) && |order| > 0 && x !in m
    ensures var r := RegisterAllCounted(m, 0, [x]).0;
            x in r && order[0] in r && x != order[0] && r[x] == r[order[0]]
  {
    assert [x][..0] == [];
  }
}
