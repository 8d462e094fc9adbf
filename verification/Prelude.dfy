/** Small helpers shared by the models: an option type, ASCII text, sums over a sequence, finite sets and maps. */
module Prelude {

  datatype Option<+T> = None | Some(value: T)

  predicate StartsWith(s: string, prefix: string) { prefix <= s }

  function LowerChar(c: char): char { if 'A' <= c <= 'Z' then (c as int + 32) as char else c }

  function Lower(s: string): string { seq(|s|, i requires 0 <= i < |s| => LowerChar(s[i])) }

  /** The sum of `f` over `ts`. */
  ghost function Sum<T>(ts: seq<T>, f: T -> int): int {
    if ts == [] then 0 else f(ts[0]) + Sum(ts[1..], f)
  }

  lemma {:induction false} SumUpdate<T>(ts: seq<T>, i: nat, x: T, f: T -> int)
    requires i < |ts|
    ensures Sum(ts[i := x], f) == Sum(ts, f) - f(ts[i]) + f(x)
  {
    if i == 0 {
      assert ts[i := x][1..] == ts[1..];
    } else {
      assert ts[i := x][1..] == ts[1..][i - 1 := x];
      SumUpdate(ts[1..], i - 1, x, f);
    }
  }

  lemma {:induction false} SumAppend<T>(ts: seq<T>, x: T, f: T -> int)
    ensures Sum(ts + [x], f) == Sum(ts, f) + f(x)
  {
    if ts == [] {
      assert ts + [x] == [x];
    } else {
      assert (ts + [x])[1..] == ts[1..] + [x];
      SumAppend(ts[1..], x, f);
    }
  }

  lemma {:induction false} SumNonNegative<T>(ts: seq<T>, f: T -> int)
    requires forall x <- ts :: f(x) >= 0
    ensures Sum(ts, f) >= 0
  {
    if ts != [] {
      SumNonNegative(ts[1..], f);
    }
  }

  lemma {:induction false} SumAtLeastOne<T>(ts: seq<T>, i: nat, f: T -> int)
    requires i < |ts|
    requires forall x <- ts :: f(x) >= 0
    ensures Sum(ts, f) >= f(ts[i])
  {
    if i == 0 {
      SumNonNegative(ts[1..], f);
    } else {
      SumAtLeastOne(ts[1..], i - 1, f);
    }
  }

  lemma {:induction false} SumAtLeastTwo<T>(ts: seq<T>, i: nat, j: nat, f: T -> int)
    requires i < j < |ts|
    requires forall x <- ts :: f(x) >= 0
    ensures Sum(ts, f) >= f(ts[i]) + f(ts[j])
  {
    if i == 0 {
      SumAtLeastOne(ts[1..], j - 1, f);
    } else {
      SumAtLeastTwo(ts[1..], i - 1, j - 1, f);
    }
  }

  lemma {:induction false} SumMonotone<T>(ts: seq<T>, f: T -> int, g: T -> int)
    requires forall x <- ts :: f(x) <= g(x)
    ensures Sum(ts, f) <= Sum(ts, g)
  {
    if ts != [] {
      SumMonotone(ts[1..], f, g);
    }
  }

  /** Maps with the same entries are one map. */
  lemma SameMap<K(!new), V>(a: map<K, V>, b: map<K, V>)
    requires forall k :: (k in a <==> k in b) && (k in a ==> a[k] == b[k])
    ensures a == b
  {
  }

  lemma SameSet<T(!new)>(a: set<T>, b: set<T>)
    requires forall x :: x in a <==> x in b
    ensures a == b
  {
  }

  lemma NoElements<T(!new)>(xs: set<T>)
    requires forall x :: x !in xs
    ensures xs == {}
  {
  }

  /** Some element of a set that has one. */
  method Pick<T(==)>(xs: set<T>) returns (x: T)
    requires xs != {}
    ensures x in xs
  {
    x :| x in xs;
  }

  ghost predicate Ascending(xs: seq<int>) {
    forall i, j | 0 <= i < j < |xs| :: xs[i] < xs[j]
  }

  method Least(xs: set<int>) returns (x: int)
    requires xs != {}
    ensures x in xs && forall y | y in xs :: x <= y
  {
    x := Pick(xs);
    var others := xs - {x};
    while others != {}
      invariant others <= xs && x in xs
      invariant forall y | y in xs && y !in others :: x <= y
      decreases others
    {
      var y := Pick(others);
      if y < x {
        x := y;
      }
      others := others - {y};
    }
  }

  /** The keys of a map in ascending order: `sorted(m)`, or `ORDER BY` the key. */
  method SortedKeys<T>(m: map<int, T>) returns (keys: seq<int>)
    ensures Ascending(keys) && forall k :: k in keys <==> k in m
    ensures forall i | 0 <= i < |keys| :: keys[i] in m
  {
    keys := [];
    var rest := m.Keys;
    while rest != {}
      invariant rest <= m.Keys && Ascending(keys)
      invariant forall i | 0 <= i < |keys| :: keys[i] in m && keys[i] !in rest
      invariant forall k | k in m && k !in rest :: k in keys
      invariant forall i, k | 0 <= i < |keys| && k in rest :: keys[i] < k
      decreases rest
    {
      var least := Least(rest);
      forall k | k in m && k !in rest - {least} ensures k in keys + [least] {}
      keys := keys + [least];
      rest := rest - {least};
    }
  }
}
