/**
  Changing the keys of a table row by row, as an SQL UPDATE of a unique column does: the new key
  is checked against the rows there are at that moment, row after row, in whatever order the
  engine visits them.
 */
module Rekey {

  /** The row keyed `a` may take key `b`: it is there, and no other row has that key. */
  predicate CanMove<K(==), V>(t: map<K, V>, a: K, b: K) {
    a in t && (b == a || b !in t)
  }

  function Move<K(==), V>(t: map<K, V>, a: K, b: K): map<K, V>
    requires a in t
  {
    (t - {a})[b := t[a]]
  }

  /** Every row update of the statement passes the uniqueness check. */
  predicate Passes<K(==), V>(t: map<K, V>, order: seq<K>, to: map<K, K>)
    requires forall k <- order :: k in to
    decreases |order|
  {
    order == [] || (CanMove(t, order[0], to[order[0]]) && Passes(Move(t, order[0], to[order[0]]), order[1..], to))
  }

  function Result<K(==), V>(t: map<K, V>, order: seq<K>, to: map<K, K>): map<K, V>
    requires forall k <- order :: k in to
    requires Passes(t, order, to)
    decreases |order|
  {
    if order == [] then t else Result(Move(t, order[0], to[order[0]]), order[1..], to)
  }

  ghost predicate Distinct<K>(order: seq<K>) {
    forall i, j | 0 <= i < j < |order| :: order[i] != order[j]
  }

  /** A visit of the rows in `keys`, each once. */
  ghost predicate Visits<K(!new)>(order: seq<K>, keys: set<K>) {
    Distinct(order) && forall k :: k in order <==> k in keys
  }

  ghost predicate Injective<K>(to: map<K, K>) {
    forall a, b | a in to && b in to && a != b :: to[a] != to[b]
  }

  /** A row's new key is free in the table as it stands, or is the key it has. */
  ghost predicate FreeTargets<K, V>(t: map<K, V>, to: map<K, K>) {
    to.Keys <= t.Keys && forall a | a in to :: to[a] == a || to[a] !in t
  }

  function NewKey<K(==)>(to: map<K, K>, k: K): K { if k in to then to[k] else k }

  /** `u` has the rows of `t`, each under its new key, and no others. */
  ghost predicate Renamed<K, V>(t: map<K, V>, to: map<K, K>, u: map<K, V>) {
    && (forall k | k in t :: NewKey(to, k) in u && u[NewKey(to, k)] == t[k])
    && (forall l | l in u :: exists k :: k in t && NewKey(to, k) == l)
    && (forall k, l | k in t && l in t && k != l :: NewKey(to, k) != NewKey(to, l))
  }

  lemma OldKey<K(!new), V>(t: map<K, V>, to: map<K, K>, u: map<K, V>, l: K) returns (k: K)
    requires Renamed(t, to, u) && l in u
    ensures k in t && NewKey(to, k) == l && u[l] == t[k]
  {
    k :| k in t && NewKey(to, k) == l;
  }

  lemma StepRenames<K(!new), V>(t: map<K, V>, to: map<K, K>, a: K, u: map<K, V>)
    requires to.Keys <= t.Keys && a in to && CanMove(t, a, to[a])
    requires Renamed(Move(t, a, to[a]), to - {a}, u)
    ensures Renamed(t, to, u)
  {
    var t' := Move(t, a, to[a]);
    forall k | k in t
      ensures var k' := if k == a then to[a] else k; k' in t' && t'[k'] == t[k] && NewKey(to - {a}, k') == NewKey(to, k)
    {}
    forall l | l in u
      ensures exists k :: k in t && NewKey(to, k) == l
    {
      var k' :| k' in t' && NewKey(to - {a}, k') == l;
      assert NewKey(to, if k' == to[a] then a else k') == l;
    }
  }

  /** A statement that passes gives each row its new key. */
  lemma {:induction false} PassesRenames<K(!new), V>(t: map<K, V>, to: map<K, K>, order: seq<K>)
    requires to.Keys <= t.Keys && Visits(order, to.Keys) && Passes(t, order, to)
    ensures Renamed(t, to, Result(t, order, to))
    decreases |order|
  {
    if order == [] {
      assert to.Keys == {};
      assert forall k | k in t :: NewKey(to, k) == k;
    } else {
      var a := order[0];
      var t', to', rest := Move(t, a, to[a]), to - {a}, order[1..];
      assert a in order;
      assert forall k :: k in order <==> k == a || k in rest;
      SameMoves(t', rest, to', to);
      PassesRenames(t', to', rest);
      StepRenames(t, to, a, Result(t', rest, to'));
    }
  }

  /** With free targets every row update passes, in any order. */
  lemma {:induction false} AnyOrderPasses<K(!new), V>(t: map<K, V>, to: map<K, K>, order: seq<K>)
    requires FreeTargets(t, to) && Injective(to) && Visits(order, to.Keys)
    ensures Passes(t, order, to)
    decreases |order|
  {
    if order != [] {
      var a := order[0];
      var t', to', rest := Move(t, a, to[a]), to - {a}, order[1..];
      assert a in order;
      assert forall k :: k in order <==> k == a || k in rest;
      assert FreeTargets(t', to');
      AnyOrderPasses(t', to', rest);
      SameMoves(t', rest, to', to);
    }
  }

  lemma {:induction false} SameMoves<K(!new), V>(t: map<K, V>, order: seq<K>, to: map<K, K>, more: map<K, K>)
    requires forall k <- order :: k in to && k in more && to[k] == more[k]
    ensures Passes(t, order, to) == Passes(t, order, more)
    ensures Passes(t, order, to) ==> Result(t, order, to) == Result(t, order, more)
    decreases |order|
  {
    if order != [] && CanMove(t, order[0], to[order[0]]) {
      SameMoves(Move(t, order[0], to[order[0]]), order[1..], to, more);
    }
  }

  /** A statement is safe in every order exactly when its targets are free beforehand. */
  lemma SafeInEveryOrder<K(!new), V>(t: map<K, V>, to: map<K, K>)
    requires to.Keys <= t.Keys && Injective(to)
    ensures (forall order | Visits(order, to.Keys) :: Passes(t, order, to)) <==> FreeTargets(t, to)
  {
    if FreeTargets(t, to) {
      forall order | Visits(order, to.Keys) ensures Passes(t, order, to) {
        AnyOrderPasses(t, to, order);
      }
    } else {
      var a :| a in to && to[a] != a && to[a] in t;
      var order := SomeVisit(to.Keys, a);
      assert order[0] == a;
      assert !Passes(t, order, to);
    }
  }

  /** A visit that starts with row `a`. */
  lemma {:induction false} SomeVisit<K(!new)>(keys: set<K>, a: K) returns (order: seq<K>)
    requires a in keys
    ensures Visits(order, keys) && order[0] == a
    decreases |keys|
  {
    var rest := keys - {a};
    if rest == {} {
      order := [a];
      assert keys == {a};
    } else {
      var b :| b in rest;
      var tail := SomeVisit(rest, b);
      order := [a] + tail;
      assert forall k :: k in order <==> k == a || k in tail;
    }
  }

  /** `second` takes each row from its scratch key to its new key. */
  ghost predicate SecondLeg<K>(moves: map<K, K>, scratch: map<K, K>, second: map<K, K>) {
    && scratch.Keys == moves.Keys
    && (forall o | o in moves :: scratch[o] in second && second[scratch[o]] == moves[o])
    && (forall s | s in second :: exists o :: o in moves && scratch[o] == s)
  }

  /** The moves make sense: rows of the table, each to a key of its own that no unmoved row has, by scratch keys not in use. */
  ghost predicate Detour<K, V>(t: map<K, V>, moves: map<K, K>, scratch: map<K, K>, second: map<K, K>) {
    && moves.Keys <= t.Keys && Injective(moves) && Injective(scratch) && SecondLeg(moves, scratch, second)
    && (forall o | o in moves :: scratch[o] !in t)
    && (forall o | o in moves :: moves[o] in t ==> moves[o] in moves)
  }

  /** No row is to end on another row's scratch key. */
  ghost predicate ApartFromScratch<K>(moves: map<K, K>, scratch: map<K, K>)
    requires scratch.Keys == moves.Keys
  {
    forall o, p | o in moves && p in moves && o != p :: moves[o] != scratch[p]
  }

  /** After the first statement the second one's targets are free exactly when they avoid the scratch keys. */
  lemma SecondTargets<K(!new), V>(t: map<K, V>, moves: map<K, K>, scratch: map<K, K>, second: map<K, K>, t1: map<K, V>)
    requires Detour(t, moves, scratch, second) && Renamed(t, scratch, t1)
    ensures second.Keys <= t1.Keys && Injective(second)
    ensures FreeTargets(t1, second) <==> ApartFromScratch(moves, scratch)
  {
    forall s | s in second ensures s in t1 {
      var o :| o in moves && scratch[o] == s;
      assert NewKey(scratch, o) in t1;
    }
    forall x, y | x in second && y in second && x != y ensures second[x] != second[y] {
      var o :| o in moves && scratch[o] == x;
      var p :| p in moves && scratch[p] == y;
    }
    if ApartFromScratch(moves, scratch) {
      forall s | s in second ensures second[s] == s || second[s] !in t1 {
        var o :| o in moves && scratch[o] == s;
        assert moves[o] == s || forall k | k in t :: NewKey(scratch, k) != moves[o];
      }
    }
    if FreeTargets(t1, second) {
      forall o, p | o in moves && p in moves && o != p ensures moves[o] != scratch[p] {
        assert scratch[p] in second && scratch[p] in t1;
        assert second[scratch[o]] == moves[o];
      }
    }
  }

  /** Through free scratch keys, apart from the new ones, both statements pass, whatever orders the rows are visited in. */
  lemma TwoStatementsPass<K(!new), V>(
      t: map<K, V>, moves: map<K, K>, scratch: map<K, K>, second: map<K, K>, first: seq<K>, later: seq<K>)
    requires Detour(t, moves, scratch, second) && ApartFromScratch(moves, scratch)
    requires Visits(first, moves.Keys) && Visits(later, second.Keys)
    ensures Passes(t, first, scratch) && Passes(Result(t, first, scratch), later, second)
  {
    AnyOrderPasses(t, scratch, first);
    PassesRenames(t, scratch, first);
    var t1 := Result(t, first, scratch);
    SecondTargets(t, moves, scratch, second, t1);
    AnyOrderPasses(t1, second, later);
  }

  /** And whenever both pass, free or not, each row has its new key. */
  lemma TwoStatementsRename<K(!new), V>(
      t: map<K, V>, moves: map<K, K>, scratch: map<K, K>, second: map<K, K>, first: seq<K>, later: seq<K>)
    requires moves.Keys <= t.Keys && SecondLeg(moves, scratch, second)
    requires Visits(first, moves.Keys) && Visits(later, second.Keys)
    requires Passes(t, first, scratch) && Passes(Result(t, first, scratch), later, second)
    ensures Renamed(t, moves, Result(Result(t, first, scratch), later, second))
  {
    PassesRenames(t, scratch, first);
    var t1 := Result(t, first, scratch);
    forall s | s in second ensures s in t1 {
      var o :| o in moves && scratch[o] == s;
      assert NewKey(scratch, o) in t1;
    }
    PassesRenames(t1, second, later);
    RenamesCompose(t, moves, scratch, second, t1, Result(t1, later, second));
  }

  lemma RenamesCompose<K(!new), V>(
      t: map<K, V>, moves: map<K, K>, scratch: map<K, K>, second: map<K, K>, t1: map<K, V>, t2: map<K, V>)
    requires moves.Keys <= t.Keys && SecondLeg(moves, scratch, second) && Renamed(t, scratch, t1) && Renamed(t1, second, t2)
    ensures Renamed(t, moves, t2)
  {
    forall k | k in t ensures NewKey(second, NewKey(scratch, k)) == NewKey(moves, k) {}
    forall l | l in t2 ensures exists k :: k in t && NewKey(moves, k) == l {
      var j :| j in t1 && NewKey(second, j) == l;
      var k :| k in t && NewKey(scratch, k) == j;
      assert NewKey(moves, k) == l;
    }
    forall k, l | k in t && l in t && k != l ensures NewKey(moves, k) != NewKey(moves, l) {
      assert NewKey(scratch, k) != NewKey(scratch, l);
    }
  }

  /** The second statement passes in every order exactly when no row is to end on another's scratch key. */
  lemma SecondStatementSafeExactlyWhen<K(!new), V>(
      t: map<K, V>, moves: map<K, K>, scratch: map<K, K>, second: map<K, K>, first: seq<K>)
    requires Detour(t, moves, scratch, second) && Visits(first, moves.Keys)
    ensures Passes(t, first, scratch)
    ensures (forall order | Visits(order, second.Keys) :: Passes(Result(t, first, scratch), order, second))
              <==> ApartFromScratch(moves, scratch)
  {
    AnyOrderPasses(t, scratch, first);
    PassesRenames(t, scratch, first);
    var t1 := Result(t, first, scratch);
    SecondTargets(t, moves, scratch, second, t1);
    SafeInEveryOrder(t1, second);
  }

  /** Some order in which an engine may visit the rows. */
  method SomeOrder<K(==, !new)>(keys: set<K>) returns (order: seq<K>)
    ensures Visits(order, keys) && |order| == |keys|
  {
    order := [];
    var rest := keys;
    while rest != {}
      invariant |order| + |rest| == |keys|
      invariant rest <= keys && Distinct(order) && forall k :: k in order <==> k in keys && k !in rest
      decreases rest
    {
      var k :| k in rest;
      assert forall j :: j in order + [k] <==> j in order || j == k;
      order := order + [k];
      rest := rest - {k};
    }
  }

  /** The statement, row by row; a taken key ends it and the table is as it was. */
  method Update<K(==, !new), V>(t: map<K, V>, to: map<K, K>) returns (ok: bool, u: map<K, V>, ghost order: seq<K>)
    ensures Visits(order, to.Keys) && ok == Passes(t, order, to)
    ensures u == if ok then Result(t, order, to) else t
  {
    var rows := SomeOrder(to.Keys);
    order := rows;
    u := t;
    for i := 0 to |rows|
      invariant order == rows
      invariant Passes(u, rows[i..], to) == Passes(t, rows, to)
      invariant Passes(t, rows, to) ==> Result(u, rows[i..], to) == Result(t, rows, to)
    {
      assert rows[i..][1..] == rows[i + 1..];
      assert rows[i] in rows;
      if !(rows[i] in u && (to[rows[i]] == rows[i] || to[rows[i]] !in u)) {
        return false, t, rows;
      }
      u := Move(u, rows[i], to[rows[i]]);
    }
    ok := true;
  }
}
