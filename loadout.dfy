/** How a monster's move loadout is chosen from its species' moveset: sort
    by learn level (a stable sort, like Python's `sorted`), keep the moves
    learnt by the monster's level that the move catalog knows, cut to four
    (dunkemon_game/monster.py, the constructor). */
module Loadout {
  import opened Catalog

  predicate SortedByLevel(s: seq<Learnable>) {
    forall i, j :: 0 <= i < j < |s| ==> s[i].1 <= s[j].1
  }

  /** Inserts `e` before the first entry learnt at its level or later. */
  function Insert(e: Learnable, t: seq<Learnable>): seq<Learnable> {
    if t == [] || e.1 <= t[0].1 then [e] + t else [t[0]] + Insert(e, t[1..])
  }

  /** Reference stable sort by learn level (insertion sort). */
  function SortByLevel(s: seq<Learnable>): seq<Learnable> {
    if s == [] then [] else Insert(s[0], SortByLevel(s[1..]))
  }

  /** The entries of `s` learnt at exactly level `l`, in order. */
  function AtLevel(s: seq<Learnable>, l: int): seq<Learnable> {
    if s == [] then [] else (if s[0].1 == l then [s[0]] else []) + AtLevel(s[1..], l)
  }

  lemma {:induction false} InsertMultiset(e: Learnable, t: seq<Learnable>)
    ensures multiset(Insert(e, t)) == multiset(t) + multiset{e}
  {
    if t != [] && e.1 > t[0].1 {
      InsertMultiset(e, t[1..]);
      assert t == [t[0]] + t[1..];
    }
  }

  lemma {:induction false} InsertAbove(e: Learnable, t: seq<Learnable>, b: int)
    requires b <= e.1 && forall i :: 0 <= i < |t| ==> b <= t[i].1
    ensures forall i :: 0 <= i < |Insert(e, t)| ==> b <= Insert(e, t)[i].1
  {
    if t != [] && e.1 > t[0].1 {
      InsertAbove(e, t[1..], b);
      assert forall i :: 0 < i < |Insert(e, t)| ==> Insert(e, t)[i] == Insert(e, t[1..])[i - 1];
    }
  }

  lemma {:induction false} InsertSorted(e: Learnable, t: seq<Learnable>)
    requires SortedByLevel(t)
    ensures SortedByLevel(Insert(e, t))
  {
    if t != [] && e.1 > t[0].1 {
      InsertSorted(e, t[1..]);
      InsertAbove(e, t[1..], t[0].1);
      var r := Insert(e, t[1..]);
      var s := [t[0]] + r;
      assert Insert(e, t) == s;
      forall i, j | 0 <= i < j < |s| ensures s[i].1 <= s[j].1 {
        assert s[j] == r[j - 1];
        if i > 0 {
          assert s[i] == r[i - 1];
        }
      }
    }
  }

  /** The sort yields a learn-level-ordered permutation of its input. */
  lemma {:induction false} SortProperties(s: seq<Learnable>)
    ensures SortedByLevel(SortByLevel(s))
    ensures multiset(SortByLevel(s)) == multiset(s)
  {
    if s != [] {
      SortProperties(s[1..]);
      InsertSorted(s[0], SortByLevel(s[1..]));
      InsertMultiset(s[0], SortByLevel(s[1..]));
      assert s == [s[0]] + s[1..];
    }
  }

  lemma {:induction false} AtLevelInsert(e: Learnable, t: seq<Learnable>, l: int)
    ensures AtLevel(Insert(e, t), l) == (if e.1 == l then [e] else []) + AtLevel(t, l)
  {
    if t == [] || e.1 <= t[0].1 {
      assert Insert(e, t) == [e] + t;
      assert ([e] + t)[1..] == t;
    } else {
      AtLevelInsert(e, t[1..], l);
      assert ([t[0]] + Insert(e, t[1..]))[1..] == Insert(e, t[1..]);
      assert AtLevel(t, l) == (if t[0].1 == l then [t[0]] else []) + AtLevel(t[1..], l);
    }
  }

  /** Stability: entries learnt at the same level keep their catalog order. */
  lemma {:induction false} SortIsStable(s: seq<Learnable>, l: int)
    ensures AtLevel(SortByLevel(s), l) == AtLevel(s, l)
  {
    if s != [] {
      SortIsStable(s[1..], l);
      AtLevelInsert(s[0], SortByLevel(s[1..]), l);
    }
  }

  /** Whether the loop of the constructor keeps an entry. */
  predicate Learnt(e: Learnable, level: int, movesData: MoveCatalog) {
    level >= e.1 && e.0 in movesData
  }

  /** The kept entries of `s`, in order. */
  function Eligible(s: seq<Learnable>, level: int, movesData: MoveCatalog): seq<Learnable> {
    if s == [] then []
    else Eligible(s[..|s| - 1], level, movesData)
         + (if Learnt(s[|s| - 1], level, movesData) then [s[|s| - 1]] else [])
  }

  lemma {:induction false} EligibleMembers(s: seq<Learnable>, level: int, movesData: MoveCatalog)
    ensures forall x :: x in Eligible(s, level, movesData) <==> x in s && Learnt(x, level, movesData)
  {
    if s != [] {
      EligibleMembers(s[..|s| - 1], level, movesData);
      assert s == s[..|s| - 1] + [s[|s| - 1]];
    }
  }

  lemma {:induction false} EligibleSorted(s: seq<Learnable>, level: int, movesData: MoveCatalog)
    requires SortedByLevel(s)
    ensures SortedByLevel(Eligible(s, level, movesData))
  {
    if s != [] {
      var init := s[..|s| - 1];
      EligibleSorted(init, level, movesData);
      EligibleMembers(init, level, movesData);
      var e := Eligible(init, level, movesData);
      forall i | 0 <= i < |e| ensures e[i].1 <= s[|s| - 1].1 {
        assert e[i] in init;
      }
    }
  }

  lemma {:induction false} EligibleDistinct(s: seq<Learnable>, level: int, movesData: MoveCatalog)
    requires DistinctNames(s)
    ensures DistinctNames(Eligible(s, level, movesData))
  {
    if s != [] {
      var init := s[..|s| - 1];
      EligibleDistinct(init, level, movesData);
      EligibleMembers(init, level, movesData);
      var e := Eligible(init, level, movesData);
      forall i | 0 <= i < |e| ensures e[i].0 != s[|s| - 1].0 {
        assert e[i] in init;
      }
    }
  }

  lemma {:induction false} InsertAvoids(e: Learnable, t: seq<Learnable>, n: string)
    requires e.0 != n && forall i :: 0 <= i < |t| ==> t[i].0 != n
    ensures forall i :: 0 <= i < |Insert(e, t)| ==> Insert(e, t)[i].0 != n
  {
    if t != [] && e.1 > t[0].1 {
      InsertAvoids(e, t[1..], n);
      assert forall i :: 0 < i < |Insert(e, t)| ==> Insert(e, t)[i] == Insert(e, t[1..])[i - 1];
    }
  }

  lemma {:induction false} InsertDistinct(e: Learnable, t: seq<Learnable>)
    requires DistinctNames(t)
    requires forall x :: x in t ==> x.0 != e.0
    ensures DistinctNames(Insert(e, t))
  {
    if t == [] || e.1 <= t[0].1 {
      var s := [e] + t;
      forall i, j | 0 <= i < j < |s| ensures s[i].0 != s[j].0 {
        assert s[j] == t[j - 1];
        if i > 0 {
          assert s[i] == t[i - 1];
        }
      }
    } else {
      InsertDistinct(e, t[1..]);
      InsertAvoids(e, t[1..], t[0].0);
      var r := Insert(e, t[1..]);
      var s := [t[0]] + r;
      forall i, j | 0 <= i < j < |s| ensures s[i].0 != s[j].0 {
        assert s[j] == r[j - 1];
        if i > 0 {
          assert s[i] == r[i - 1];
        }
      }
    }
  }

  lemma {:induction false} SortDistinct(s: seq<Learnable>)
    requires DistinctNames(s)
    ensures DistinctNames(SortByLevel(s))
  {
    if s != [] {
      SortDistinct(s[1..]);
      SortProperties(s[1..]);
      forall x: Learnable | x in SortByLevel(s[1..]) ensures x.0 != s[0].0 {
        assert x in multiset(s[1..]);
        var k :| 0 <= k < |s[1..]| && s[1..][k] == x;
        assert s[k + 1] == x;
      }
      InsertDistinct(s[0], SortByLevel(s[1..]));
    }
  }

  /** The loadout: the first four eligible entries in learn-level order. */
  function Choose(moveset: seq<Learnable>, level: int, movesData: MoveCatalog): seq<Learnable> {
    var e := Eligible(SortByLevel(moveset), level, movesData);
    if |e| <= 4 then e else e[..4]
  }

  /** Every kept entry comes from the moveset, is known to the catalog and
      is learnt by `level`. */
  lemma ChooseMembers(moveset: seq<Learnable>, level: int, movesData: MoveCatalog)
    ensures var c := Choose(moveset, level, movesData);
      forall i :: 0 <= i < |c| ==> c[i] in moveset && c[i].0 in movesData && c[i].1 <= level
  {
    var sorted := SortByLevel(moveset);
    SortProperties(moveset);
    EligibleMembers(sorted, level, movesData);
    var e := Eligible(sorted, level, movesData);
    var c := Choose(moveset, level, movesData);
    forall i | 0 <= i < |c| ensures c[i] in moveset && c[i].0 in movesData && c[i].1 <= level {
      assert c[i] == e[i];
      assert e[i] in e;
      assert c[i] in multiset(sorted);
    }
  }

  /** An eligible entry is left out only when four were kept, all learnt no
      later than it. */
  lemma ChooseKeepsEarliest(moveset: seq<Learnable>, level: int, movesData: MoveCatalog)
    ensures var c := Choose(moveset, level, movesData);
      && SortedByLevel(c)
      && forall x :: x in moveset && Learnt(x, level, movesData) && x !in c ==>
           |c| == 4 && forall i :: 0 <= i < |c| ==> c[i].1 <= x.1
  {
    var sorted := SortByLevel(moveset);
    SortProperties(moveset);
    EligibleMembers(sorted, level, movesData);
    EligibleSorted(sorted, level, movesData);
    var e := Eligible(sorted, level, movesData);
    var c := Choose(moveset, level, movesData);
    forall x: Learnable | x in moveset && Learnt(x, level, movesData) && x !in c
      ensures |c| == 4 && forall i :: 0 <= i < |c| ==> c[i].1 <= x.1
    {
      assert x in multiset(moveset);
      assert x in sorted;
      assert x in e;
      var k :| 0 <= k < |e| && e[k] == x;
      assert k >= 4;
    }
  }

  /** What the loadout promises: at most four entries, each from the moveset,
      known to the catalog and learnt by `level`, in nondecreasing learn-level
      order; every eligible entry left out is learnt no earlier than any kept
      one, and nothing eligible is left out when there are at most four. */
  lemma ChooseProperties(moveset: seq<Learnable>, level: int, movesData: MoveCatalog)
    ensures var c := Choose(moveset, level, movesData);
      && |c| <= 4
      && (forall i :: 0 <= i < |c| ==> c[i] in moveset && c[i].0 in movesData && c[i].1 <= level)
      && SortedByLevel(c)
      && (forall x :: x in moveset && Learnt(x, level, movesData) && x !in c ==>
            |c| == 4 && forall i :: 0 <= i < |c| ==> c[i].1 <= x.1)
  {
    ChooseMembers(moveset, level, movesData);
    ChooseKeepsEarliest(moveset, level, movesData);
  }

  /** A moveset with distinct move names yields a loadout with distinct names. */
  lemma ChooseDistinct(moveset: seq<Learnable>, level: int, movesData: MoveCatalog)
    requires DistinctNames(moveset)
    ensures DistinctNames(Choose(moveset, level, movesData))
  {
    SortDistinct(moveset);
    EligibleDistinct(SortByLevel(moveset), level, movesData);
  }
}
