/** Players, pairs and the availability filter of the draft-pairing engine.
    The list functions recurse on the last element, so that an index into a
    prefix is an index into the whole list. */
module Roster {

  /** A roster entry `(name, handicap)`. Handicaps are decimals with one
      fractional digit (and may be negative), so they are exact reals here. */
  datatype Player = Player(name: string, handicap: real)

  /** The tuple `(a, b)` that the selectors build, in enumeration order. */
  datatype Pair = Pair(first: Player, second: Player)

  /** Python's `None` or a value. */
  datatype Option<T> = None | Some(value: T)

  /** The names of a list of players. */
  function Names(ps: seq<Player>): set<string>
  {
    set p | p in ps :: p.name
  }

  /** No two entries of a roster share a name. */
  predicate UniqueNames(ps: seq<Player>)
  {
    forall i, j :: 0 <= i < j < |ps| ==> ps[i].name != ps[j].name
  }

  /** A non-empty list is its prefix followed by its last entry. */
  lemma Snoc(ps: seq<Player>)
    requires ps != []
    ensures ps == ps[..|ps| - 1] + [ps[|ps| - 1]]
  {
  }

  /** `get_available(pool, used)`: the entries of `pool`, in pool order, whose
      name is not in `used`. */
  function Available(pool: seq<Player>, used: set<string>): (r: seq<Player>)
    ensures |r| <= |pool|
  {
    if pool == [] then []
    else
      var last := pool[|pool| - 1];
      Available(pool[..|pool| - 1], used) + (if last.name in used then [] else [last])
  }

  /** An entry is available exactly when it stands in the pool and its name
      has not been used. */
  lemma {:induction false} AvailableMembers(pool: seq<Player>, used: set<string>)
    ensures forall p :: p in Available(pool, used) <==> p in pool && p.name !in used
  {
    if pool != [] {
      AvailableMembers(pool[..|pool| - 1], used);
      Snoc(pool);
    }
  }

  /** Before anything is used, every entry is available. */
  lemma {:induction false} AvailableUnused(pool: seq<Player>)
    ensures Available(pool, {}) == pool
  {
    if pool != [] {
      AvailableUnused(pool[..|pool| - 1]);
      Snoc(pool);
    }
  }

  /** The names still available are the pool's names less the used ones. */
  lemma AvailableNames(pool: seq<Player>, used: set<string>)
    ensures Names(Available(pool, used)) == Names(pool) - used
  {
    AvailableMembers(pool, used);
  }

  /** A list has no names exactly when it is empty. */
  lemma NoNamesNoPlayers(ps: seq<Player>)
    ensures Names(ps) == {} <==> ps == []
  {
    if ps != [] {
      assert ps[0].name in Names(ps);
    }
  }

  /** The entries `Available` drops are exactly those that `Pick(pool, used)`
      keeps, so the two split the pool between them: together with
      `KeptPositions`, every entry with an unused name is kept. */
  lemma {:induction false} AvailablePartition(pool: seq<Player>, used: set<string>)
    ensures |Available(pool, used)| + |Pick(pool, used)| == |pool|
  {
    if pool != [] {
      AvailablePartition(pool[..|pool| - 1], used);
    }
  }

  /** The pool positions that `Available` keeps. They witness that the
      result is a subsequence of the pool: strictly increasing positions
      with the kept entry at each. */
  ghost function KeptPositions(pool: seq<Player>, used: set<string>): (ix: seq<int>)
    ensures |ix| == |Available(pool, used)|
    ensures forall k :: 0 <= k < |ix| ==> 0 <= ix[k] < |pool|
    ensures forall k :: 0 <= k < |ix| ==> Available(pool, used)[k] == pool[ix[k]]
    ensures forall k, l :: 0 <= k < l < |ix| ==> ix[k] < ix[l]
  {
    if pool == [] then []
    else
      var rest := KeptPositions(pool[..|pool| - 1], used);
      if pool[|pool| - 1].name in used then rest else rest + [|pool| - 1]
  }

  /** Two entries that `Available` lists in a given order stand in the pool in
      that same order. */
  lemma AvailableKeepsOrder(pool: seq<Player>, used: set<string>, i: int, j: int)
    requires 0 <= i < j < |Available(pool, used)|
    ensures exists k, l :: 0 <= k < l < |pool| && pool[k] == Available(pool, used)[i] && pool[l] == Available(pool, used)[j]
  {
    var ix := KeptPositions(pool, used);
    assert pool[ix[i]] == Available(pool, used)[i] && pool[ix[j]] == Available(pool, used)[j];
  }

  /** `[p for p in pool if p[0] in chosen]`: how the draft turns the selected
      names back into roster entries, in pool order. */
  function Pick(pool: seq<Player>, chosen: set<string>): (r: seq<Player>)
    ensures |r| <= |pool|
  {
    if pool == [] then []
    else
      var last := pool[|pool| - 1];
      Pick(pool[..|pool| - 1], chosen) + (if last.name in chosen then [last] else [])
  }

  /** An entry is picked exactly when it stands in the pool and its name is
      one of the chosen names. */
  lemma {:induction false} PickMembers(pool: seq<Player>, chosen: set<string>)
    ensures forall p :: p in Pick(pool, chosen) <==> p in pool && p.name in chosen
  {
    if pool != [] {
      PickMembers(pool[..|pool| - 1], chosen);
      Snoc(pool);
    }
  }

  /** Picking names that all stand in the roster yields exactly those names. */
  lemma PickedNames(pool: seq<Player>, chosen: set<string>)
    requires chosen <= Names(pool)
    ensures Names(Pick(pool, chosen)) == chosen
  {
    PickMembers(pool, chosen);
    forall x | x in chosen ensures x in Names(Pick(pool, chosen)) {
      var p :| p in pool && p.name == x;
      assert p in Pick(pool, chosen);
    }
  }

  /** The names of a non-empty list: its prefix's and its last entry's. */
  lemma NamesSnoc(ps: seq<Player>)
    requires ps != []
    ensures Names(ps) == Names(ps[..|ps| - 1]) + {ps[|ps| - 1].name}
  {
    Snoc(ps);
  }

  /** Uniqueness passes to the prefix, whose names miss the last entry's. */
  lemma UniquePrefix(ps: seq<Player>)
    requires ps != [] && UniqueNames(ps)
    ensures UniqueNames(ps[..|ps| - 1]) && ps[|ps| - 1].name !in Names(ps[..|ps| - 1])
  {
    var prefix := ps[..|ps| - 1];
    forall p | p in prefix ensures p.name != ps[|ps| - 1].name {
      var i :| 0 <= i < |prefix| && prefix[i] == p;
      assert ps[i] == p;
    }
  }

  /** On a roster with unique names, picking yields one entry per chosen name
      that stands in the roster; two distinct offered names give a pair. */
  lemma {:induction false} PickSize(pool: seq<Player>, chosen: set<string>)
    requires UniqueNames(pool)
    ensures |Pick(pool, chosen)| == |Names(pool) * chosen|
  {
    if pool == [] {
      assert Names(pool) == {};
    } else {
      var prefix := pool[..|pool| - 1];
      UniquePrefix(pool);
      NamesSnoc(pool);
      PickSize(prefix, chosen);
      IntersectStep(pool[|pool| - 1].name, Names(prefix), chosen);
    }
  }

  /** Adding a fresh name to a set adds one to its chosen part exactly when
      the name is chosen. */
  lemma IntersectStep(x: string, names: set<string>, chosen: set<string>)
    requires x !in names
    ensures |(names + {x}) * chosen| == |names * chosen| + (if x in chosen then 1 else 0)
  {
    if x in chosen {
      assert (names + {x}) * chosen == names * chosen + {x};
    } else {
      assert (names + {x}) * chosen == names * chosen;
    }
  }

  /** On a roster with unique names there are as many names as entries. */
  lemma {:induction false} UniqueNamesCount(pool: seq<Player>)
    requires UniqueNames(pool)
    ensures |Names(pool)| == |pool|
  {
    PickSize(pool, Names(pool));
    PickAll(pool);
    assert Names(pool) * Names(pool) == Names(pool);
  }

  /** Picking every name of the roster yields the roster. */
  lemma {:induction false} PickAll(pool: seq<Player>)
    ensures Pick(pool, Names(pool)) == pool
  {
    PickSuperset(pool, Names(pool));
  }

  lemma {:induction false} PickSuperset(pool: seq<Player>, chosen: set<string>)
    requires Names(pool) <= chosen
    ensures Pick(pool, chosen) == pool
  {
    if pool != [] {
      var prefix := pool[..|pool| - 1];
      NamesSnoc(pool);
      PickSuperset(prefix, chosen);
      Snoc(pool);
    }
  }
}
