/**
 * Kotlin `MutableList<Track>` operations that compare by value. Track objects
 * are shared between the master list and the collections, so a list holds
 * object ids and `table` gives each object's current value; `indexOf`,
 * `lastIndexOf` and `remove(element)` compare those values with `==`, as a
 * data class's `equals` does.
 */
module Lists {

  type Id = nat

  /** The element with id `id` is equal to `v`. */
  predicate Eq<T(==)>(table: map<Id, T>, id: Id, v: T) {
    id in table && table[id] == v
  }

  /** `indexOf(v)`: the first position holding a value equal to v, or -1. */
  function IndexOf<T(==)>(ids: seq<Id>, table: map<Id, T>, v: T): (k: int)
    ensures -1 <= k < |ids|
    ensures k >= 0 ==> Eq(table, ids[k], v) && forall j | 0 <= j < k :: !Eq(table, ids[j], v)
    ensures k == -1 ==> forall j | 0 <= j < |ids| :: !Eq(table, ids[j], v)
  {
    if ids == [] then -1
    else if Eq(table, ids[0], v) then 0
    else
      var k := IndexOf(ids[1..], table, v);
      if k == -1 then -1 else k + 1
  }

  /** `lastIndexOf(v)`: the last position holding a value equal to v, or -1. */
  function LastIndexOf<T(==)>(ids: seq<Id>, table: map<Id, T>, v: T): (k: int)
    ensures -1 <= k < |ids|
    ensures k >= 0 ==> Eq(table, ids[k], v) && forall j | k < j < |ids| :: !Eq(table, ids[j], v)
    ensures k == -1 ==> forall j | 0 <= j < |ids| :: !Eq(table, ids[j], v)
  {
    if ids == [] then -1
    else if Eq(table, ids[|ids| - 1], v) then |ids| - 1
    else LastIndexOf(ids[..|ids| - 1], table, v)
  }

  /** `remove(v)`: drops the first element equal to v, if there is one. */
  function RemoveFirstEq<T(==)>(ids: seq<Id>, table: map<Id, T>, v: T): seq<Id> {
    var k := IndexOf(ids, table, v);
    if k < 0 then ids else ids[..k] + ids[k + 1..]
  }

  /** `remove(v)` called n times in a row. */
  function RemoveN<T(==)>(ids: seq<Id>, table: map<Id, T>, v: T, n: nat): seq<Id> {
    if n == 0 then ids else RemoveN(RemoveFirstEq(ids, table, v), table, v, n - 1)
  }

  /** How many elements of ids are equal to v. */
  function Count<T(==)>(ids: seq<Id>, table: map<Id, T>, v: T): nat {
    if ids == [] then 0
    else (if Eq(table, ids[0], v) then 1 else 0) + Count(ids[1..], table, v)
  }

  /** How many times x occurs in s. */
  function Occurrences<U(==)>(s: seq<U>, x: U): nat {
    if s == [] then 0 else (if s[0] == x then 1 else 0) + Occurrences(s[1..], x)
  }

  /** a can be obtained from b by deleting elements, keeping the order of the rest. */
  predicate Subseq<U(==)>(a: seq<U>, b: seq<U>)
    decreases |b|
  {
    if a == [] then true
    else if b == [] then false
    else (a[0] == b[0] && Subseq(a[1..], b[1..])) || Subseq(a, b[1..])
  }

  lemma {:induction false} CountAppend<T>(a: seq<Id>, b: seq<Id>, table: map<Id, T>, v: T)
    ensures Count(a + b, table, v) == Count(a, table, v) + Count(b, table, v)
  {
    if a == [] {
      assert a + b == b;
    } else {
      assert (a + b)[1..] == a[1..] + b;
      CountAppend(a[1..], b, table, v);
    }
  }

  lemma {:induction false} CountZero<T>(ids: seq<Id>, table: map<Id, T>, v: T)
    ensures Count(ids, table, v) == 0 <==> forall j | 0 <= j < |ids| :: !Eq(table, ids[j], v)
  {
    if ids != [] {
      CountZero(ids[1..], table, v);
      if Count(ids, table, v) == 0 {
        forall j | 0 <= j < |ids| ensures !Eq(table, ids[j], v) {
          if j > 0 { assert ids[j] == ids[1..][j - 1]; }
        }
      }
      if forall j | 0 <= j < |ids| :: !Eq(table, ids[j], v) {
        assert forall j | 0 <= j < |ids| - 1 :: !Eq(table, ids[1..][j], v) by {
          forall j | 0 <= j < |ids| - 1 ensures !Eq(table, ids[1..][j], v) {
            assert ids[1..][j] == ids[j + 1];
          }
        }
      }
    }
  }

  /**
   * `remove(v)` takes exactly one element equal to v away when there is one,
   * and leaves the number of elements equal to any other value unchanged.
   */
  lemma {:induction false} RemoveFirstEqCount<T>(ids: seq<Id>, table: map<Id, T>, v: T, w: T)
    ensures Count(RemoveFirstEq(ids, table, v), table, w)
         == Count(ids, table, w) - (if v == w && Count(ids, table, v) > 0 then 1 else 0)
  {
    if ids != [] {
      RemoveFirstEqCons(ids, table, v);
      if !Eq(table, ids[0], v) {
        var rest := RemoveFirstEq(ids[1..], table, v);
        assert ([ids[0]] + rest)[1..] == rest;
        RemoveFirstEqCount(ids[1..], table, v, w);
      }
    }
  }

  /** `remove(v)` on a non-empty list: the head goes if it is equal to v, else the removal happens in the tail. */
  lemma RemoveFirstEqCons<T>(ids: seq<Id>, table: map<Id, T>, v: T)
    requires ids != []
    ensures RemoveFirstEq(ids, table, v)
         == if Eq(table, ids[0], v) then ids[1..] else [ids[0]] + RemoveFirstEq(ids[1..], table, v)
  {
    var k := IndexOf(ids[1..], table, v);
    if !Eq(table, ids[0], v) && k >= 0 {
      assert ids[..k + 1] == [ids[0]] + ids[1..][..k];
      assert ids[k + 2..] == ids[1..][k + 1..];
    }
  }

  lemma {:induction false} SubseqRefl<U>(a: seq<U>)
    ensures Subseq(a, a)
  {
    if a != [] { SubseqRefl(a[1..]); }
  }

  lemma {:induction false} SubseqDrop<U>(a: seq<U>, b: seq<U>)
    requires Subseq(a, b) && a != []
    ensures Subseq(a[1..], b)
    decreases |b|
  {
    if a[0] == b[0] && Subseq(a[1..], b[1..]) {
      SubseqSkip(a[1..], b[1..], b[0]);
    } else {
      SubseqDrop(a, b[1..]);
      SubseqSkip(a[1..], b[1..], b[0]);
    }
  }

  lemma SubseqSkip<U>(a: seq<U>, b: seq<U>, x: U)
    requires Subseq(a, b)
    ensures Subseq(a, [x] + b)
  {
    assert ([x] + b)[1..] == b;
  }

  lemma {:induction false} SubseqTrans<U>(a: seq<U>, b: seq<U>, c: seq<U>)
    requires Subseq(a, b) && Subseq(b, c)
    ensures Subseq(a, c)
    decreases |c|
  {
    if a == [] {
    } else if c[0] == b[0] && Subseq(b[1..], c[1..]) {
      if a[0] == b[0] && Subseq(a[1..], b[1..]) {
        SubseqTrans(a[1..], b[1..], c[1..]);
      } else {
        SubseqTrans(a, b[1..], c[1..]);
      }
    } else {
      SubseqTrans(a, b, c[1..]);
    }
  }

  lemma {:induction false} SubseqPrefixRest<U>(p: seq<U>, q: seq<U>, b: seq<U>)
    requires Subseq(q, b)
    ensures Subseq(p + q, p + b)
  {
    if p == [] {
      assert p + q == q && p + b == b;
    } else {
      SubseqPrefixRest(p[1..], q, b);
      assert (p + q)[1..] == p[1..] + q;
      assert (p + b)[1..] == p[1..] + b;
      assert (p + q)[0] == (p + b)[0];
    }
  }

  /** `remove(v)` keeps the other elements in their order. */
  lemma RemoveFirstEqSubseq<T>(ids: seq<Id>, table: map<Id, T>, v: T)
    ensures Subseq(RemoveFirstEq(ids, table, v), ids)
  {
    var k := IndexOf(ids, table, v);
    if k < 0 {
      SubseqRefl(ids);
    } else {
      var rest := ids[k + 1..];
      SubseqRefl(rest);
      SubseqSkip(rest, rest, ids[k]);
      assert ids[k..] == [ids[k]] + rest;
      SubseqPrefixRest(ids[..k], rest, ids[k..]);
      assert ids[..k] + ids[k..] == ids;
    }
  }

  lemma {:induction false} RemoveNSubseq<T>(ids: seq<Id>, table: map<Id, T>, v: T, n: nat)
    ensures Subseq(RemoveN(ids, table, v, n), ids)
  {
    if n == 0 {
      SubseqRefl(ids);
    } else {
      var once := RemoveFirstEq(ids, table, v);
      RemoveFirstEqSubseq(ids, table, v);
      RemoveNSubseq(once, table, v, n - 1);
      SubseqTrans(RemoveN(once, table, v, n - 1), once, ids);
    }
  }

  /** `remove(v)` n times takes min(n, count) elements equal to v away, and nothing else. */
  lemma {:induction false} RemoveNCount<T>(ids: seq<Id>, table: map<Id, T>, v: T, n: nat, w: T)
    ensures var c := Count(ids, table, v);
      Count(RemoveN(ids, table, v, n), table, w)
      == Count(ids, table, w) - (if v == w then (if n <= c then n else c) else 0)
  {
    if n > 0 {
      RemoveFirstEqCount(ids, table, v, w);
      RemoveFirstEqCount(ids, table, v, v);
      RemoveNCount(RemoveFirstEq(ids, table, v), table, v, n - 1, w);
    }
  }

  lemma {:induction false} OccurrencesAppend<U>(s: seq<U>, x: U, a: U)
    ensures Occurrences(s + [x], a) == Occurrences(s, a) + (if x == a then 1 else 0)
  {
    if s == [] {
      assert s + [x] == [x];
    } else {
      assert (s + [x])[1..] == s[1..] + [x];
      OccurrencesAppend(s[1..], x, a);
    }
  }

  /** The occurrences in s are those before its last element, plus the last one. */
  lemma OccurrencesLast<U>(s: seq<U>, a: U)
    requires s != []
    ensures Occurrences(s, a) == Occurrences(s[..|s| - 1], a) + (if s[|s| - 1] == a then 1 else 0)
  {
    assert s == s[..|s| - 1] + [s[|s| - 1]];
    OccurrencesAppend(s[..|s| - 1], s[|s| - 1], a);
  }

  lemma {:induction false} RemoveNLast<T>(ids: seq<Id>, table: map<Id, T>, v: T, n: nat)
    ensures RemoveFirstEq(RemoveN(ids, table, v, n), table, v) == RemoveN(ids, table, v, n + 1)
  {
    if n > 0 {
      RemoveNLast(RemoveFirstEq(ids, table, v), table, v, n - 1);
    }
  }

  /** Every element of a subsequence occurs in the sequence. */
  lemma {:induction false} SubseqMember<U>(a: seq<U>, b: seq<U>, i: int)
    requires Subseq(a, b) && 0 <= i < |a|
    ensures a[i] in b
    decreases |b|
  {
    if a[0] == b[0] && Subseq(a[1..], b[1..]) {
      if i > 0 {
        SubseqMember(a[1..], b[1..], i - 1);
      }
    } else {
      SubseqMember(a, b[1..], i);
    }
  }

  /** `remove(table[d])` for each id d of `victims` in turn. */
  function RemoveAll<T(==)>(ids: seq<Id>, table: map<Id, T>, victims: seq<Id>): seq<Id> {
    if victims == [] then ids
    else
      var prev := RemoveAll(ids, table, victims[..|victims| - 1]);
      var last := victims[|victims| - 1];
      if last in table then RemoveFirstEq(prev, table, table[last]) else prev
  }

  lemma {:induction false} RemoveAllSubseq<T>(ids: seq<Id>, table: map<Id, T>, victims: seq<Id>)
    ensures Subseq(RemoveAll(ids, table, victims), ids)
  {
    if victims == [] {
      SubseqRefl(ids);
    } else {
      var prev := RemoveAll(ids, table, victims[..|victims| - 1]);
      var last := victims[|victims| - 1];
      RemoveAllSubseq(ids, table, victims[..|victims| - 1]);
      if last in table {
        RemoveFirstEqSubseq(prev, table, table[last]);
        SubseqTrans(RemoveFirstEq(prev, table, table[last]), prev, ids);
      }
    }
  }

  lemma CountSingle<T>(x: Id, table: map<Id, T>, w: T)
    ensures Count([x], table, w) == if Eq(table, x, w) then 1 else 0
  {
    assert [x][1..] == [];
  }

  /**
   * Removing the values of `victims` one by one, when the list holds at least
   * as many copies of every value as there are victims with that value, takes
   * away exactly one copy per victim.
   */
  lemma {:induction false} RemoveAllCount<T>(ids: seq<Id>, table: map<Id, T>, victims: seq<Id>, w: T)
    requires forall d | d in victims :: d in table
    requires forall u :: Count(victims, table, u) <= Count(ids, table, u)
    ensures Count(RemoveAll(ids, table, victims), table, w) == Count(ids, table, w) - Count(victims, table, w)
  {
    if victims != [] {
      var init := victims[..|victims| - 1];
      var last := victims[|victims| - 1];
      assert victims == init + [last];
      var v := table[last];
      forall u ensures Count(init, table, u) <= Count(ids, table, u) {
        CountAppend(init, [last], table, u);
      }
      CountAppend(init, [last], table, w);
      CountAppend(init, [last], table, v);
      CountSingle(last, table, w);
      CountSingle(last, table, v);
      RemoveAllCount(ids, table, init, w);
      RemoveAllCount(ids, table, init, v);
      RemoveFirstEqCount(RemoveAll(ids, table, init), table, v, w);
    }
  }

  /**
   * The list without the first element equal to each value of `vs`: walking
   * from the front, an element whose value is still in `vs` is dropped and
   * its value leaves `vs`; every other element stays, in order.
   */
  function DropFirstOf<T(==)>(ids: seq<Id>, table: map<Id, T>, vs: set<T>): seq<Id> {
    if ids == [] then []
    else if ids[0] in table && table[ids[0]] in vs then DropFirstOf(ids[1..], table, vs - {table[ids[0]]})
    else [ids[0]] + DropFirstOf(ids[1..], table, vs)
  }

  /** The values of the ids of `victims` that the table knows. */
  function ValuesOf<T(==)>(victims: seq<Id>, table: map<Id, T>): set<T> {
    set d | d in victims && d in table :: table[d]
  }

  /** `remove(v)` after dropping the first copies of `vs` drops the first copy of v as well. */
  lemma {:induction false} RemoveFirstEqDropFirstOf<T>(ids: seq<Id>, table: map<Id, T>, vs: set<T>, v: T)
    requires v !in vs
    ensures RemoveFirstEq(DropFirstOf(ids, table, vs), table, v) == DropFirstOf(ids, table, vs + {v})
  {
    if ids != [] {
      var h, tail := ids[0], ids[1..];
      if h in table && table[h] in vs {
        var u := table[h];
        RemoveFirstEqDropFirstOf(tail, table, vs - {u}, v);
        assert (vs - {u}) + {v} == (vs + {v}) - {u};
      } else if Eq(table, h, v) {
        var rest := DropFirstOf(tail, table, vs);
        RemoveFirstEqCons([h] + rest, table, v);
        assert ([h] + rest)[1..] == rest;
        assert (vs + {v}) - {v} == vs;
      } else {
        var rest := DropFirstOf(tail, table, vs);
        RemoveFirstEqCons([h] + rest, table, v);
        assert ([h] + rest)[1..] == rest;
        RemoveFirstEqDropFirstOf(tail, table, vs, v);
      }
    }
  }

  /**
   * Removing the values of `victims` one by one, when no two victims have
   * the same value, drops the first copy of each of those values.
   */
  lemma {:induction false} RemoveAllDropFirstOf<T>(ids: seq<Id>, table: map<Id, T>, victims: seq<Id>)
    requires forall d | d in victims :: d in table
    requires forall u :: Count(victims, table, u) <= 1
    ensures RemoveAll(ids, table, victims) == DropFirstOf(ids, table, ValuesOf(victims, table))
  {
    if victims == [] {
      assert ValuesOf(victims, table) == {};
      DropFirstOfNone(ids, table);
    } else {
      var init := victims[..|victims| - 1];
      var last := victims[|victims| - 1];
      assert victims == init + [last];
      var v := table[last];
      forall u ensures Count(init, table, u) <= 1 {
        CountAppend(init, [last], table, u);
      }
      RemoveAllDropFirstOf(ids, table, init);
      CountAppend(init, [last], table, v);
      CountSingle(last, table, v);
      CountZero(init, table, v);
      assert v !in ValuesOf(init, table) by {
        forall d | d in init && d in table ensures table[d] != v {
          var j :| 0 <= j < |init| && init[j] == d;
          assert !Eq(table, init[j], v);
        }
      }
      RemoveFirstEqDropFirstOf(ids, table, ValuesOf(init, table), v);
      assert ValuesOf(victims, table) == ValuesOf(init, table) + {v};
    }
  }

  lemma {:induction false} DropFirstOfNone<T>(ids: seq<Id>, table: map<Id, T>)
    ensures DropFirstOf(ids, table, {}) == ids
  {
    if ids != [] {
      DropFirstOfNone(ids[1..], table);
    }
  }

  lemma PrefixTrans<U>(a: seq<U>, b: seq<U>, c: seq<U>)
    requires a <= b && b <= c
    ensures a <= c
  {
    assert c[..|a|] == c[..|b|][..|a|];
  }

  lemma PrefixMember<U>(a: seq<U>, b: seq<U>, x: U)
    requires a <= b && x in a
    ensures x in b
  {
    var i :| 0 <= i < |a| && a[i] == x;
    assert b[i] == a[i];
  }
}
