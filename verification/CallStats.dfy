/** Call statistics keyed by vertex name or by edge: the vectors that a graph keeps. */
module CallStats {

  /** callCount and callTime of one vertex or edge. */
  datatype Stat<K> = Stat(key: K, count: int, time: int)

  /** Which of the two numbers a statement is about. */
  datatype Measure = Calls | Time

  function Amount<K>(s: Stat<K>, m: Measure): int {
    if m == Calls then s.count else s.time
  }

  /** One vector entry per key: an entry whose key is present is added to that entry, any other is appended. */
  function Insert<K(==)>(stats: seq<Stat<K>>, s: Stat<K>): seq<Stat<K>> {
    if stats == [] then [s]
    else if stats[0].key == s.key then [Stat(s.key, stats[0].count + s.count, stats[0].time + s.time)] + stats[1..]
    else [stats[0]] + Insert(stats[1..], s)
  }

  function InsertAll<K(==)>(stats: seq<Stat<K>>, more: seq<Stat<K>>): seq<Stat<K>> {
    if more == [] then stats else Insert(InsertAll(stats, more[..|more| - 1]), more[|more| - 1])
  }

  /** Everything recorded under one key. */
  function Of<K(==)>(stats: seq<Stat<K>>, key: K, m: Measure): int {
    if stats == [] then 0
    else (if stats[0].key == key then Amount(stats[0], m) else 0) + Of(stats[1..], key, m)
  }

  function Total<K>(stats: seq<Stat<K>>, m: Measure): int {
    if stats == [] then 0 else Amount(stats[0], m) + Total(stats[1..], m)
  }

  ghost function Keys<K(!new)>(stats: seq<Stat<K>>): set<K> {
    set i | 0 <= i < |stats| :: stats[i].key
  }

  ghost predicate Unique<K(!new)>(stats: seq<Stat<K>>) {
    forall i, j :: 0 <= i < j < |stats| ==> stats[i].key != stats[j].key
  }

  lemma {:induction false} InsertOf<K(!new)>(stats: seq<Stat<K>>, s: Stat<K>, key: K, m: Measure)
    ensures Of(Insert(stats, s), key, m) == Of(stats, key, m) + (if s.key == key then Amount(s, m) else 0)
  {
    if stats != [] && stats[0].key != s.key {
      InsertOf(stats[1..], s, key, m);
      assert Insert(stats, s)[1..] == Insert(stats[1..], s);
    }
  }

  lemma {:induction false} InsertTotal<K(!new)>(stats: seq<Stat<K>>, s: Stat<K>, m: Measure)
    ensures Total(Insert(stats, s), m) == Total(stats, m) + Amount(s, m)
  {
    if stats != [] && stats[0].key != s.key {
      InsertTotal(stats[1..], s, m);
      assert Insert(stats, s)[1..] == Insert(stats[1..], s);
    }
  }

  lemma FindKey<K(!new)>(stats: seq<Stat<K>>, key: K) returns (i: nat)
    ensures i <= |stats| && forall j :: 0 <= j < i ==> stats[j].key != key
    ensures i < |stats| ==> stats[i].key == key
  {
    i := 0;
    while i < |stats| && stats[i].key != key
      invariant i <= |stats| && forall j :: 0 <= j < i ==> stats[j].key != key
    {
      i := i + 1;
    }
  }

  lemma InsertKeys<K(!new)>(stats: seq<Stat<K>>, s: Stat<K>)
    ensures Keys(Insert(stats, s)) == Keys(stats) + {s.key}
    ensures Unique(stats) ==> Unique(Insert(stats, s))
  {
    var i := FindKey(stats, s.key);
    InsertAt(stats, i, s);
    hide Insert;
    hide Keys, Unique;
    if i < |stats| {
      SameKeys(stats, Insert(stats, s));
      HasKey(stats, i);
    } else {
      KeysSnoc(stats, s);
      UniqueSnoc(stats, s);
    }
  }

  lemma HasKey<K(!new)>(stats: seq<Stat<K>>, i: nat)
    requires i < |stats|
    ensures Keys(stats) + {stats[i].key} == Keys(stats)
  {
    assert stats[i].key in Keys(stats);
  }

  lemma UniqueSnoc<K(!new)>(stats: seq<Stat<K>>, s: Stat<K>)
    requires forall j :: 0 <= j < |stats| ==> stats[j].key != s.key
    ensures Unique(stats) ==> Unique(stats + [s])
  {
  }

  lemma SameKeys<K(!new)>(a: seq<Stat<K>>, b: seq<Stat<K>>)
    requires |a| == |b| && forall j :: 0 <= j < |a| ==> a[j].key == b[j].key
    ensures Keys(a) == Keys(b) && (Unique(a) ==> Unique(b))
  {
    forall k | k in Keys(a) ensures k in Keys(b) {
      var j :| 0 <= j < |a| && a[j].key == k;
      assert b[j].key == k;
    }
    forall k | k in Keys(b) ensures k in Keys(a) {
      var j :| 0 <= j < |b| && b[j].key == k;
      assert a[j].key == k;
    }
  }

  lemma {:induction false} OfAppend<K(!new)>(a: seq<Stat<K>>, b: seq<Stat<K>>, key: K, m: Measure)
    ensures Of(a + b, key, m) == Of(a, key, m) + Of(b, key, m)
  {
    if a == [] {
      assert a + b == b;
    } else {
      OfAppend(a[1..], b, key, m);
      assert (a + b)[1..] == a[1..] + b;
    }
  }

  lemma {:induction false} TotalAppend<K>(a: seq<Stat<K>>, b: seq<Stat<K>>, m: Measure)
    ensures Total(a + b, m) == Total(a, m) + Total(b, m)
  {
    if a == [] {
      assert a + b == b;
    } else {
      TotalAppend(a[1..], b, m);
      assert (a + b)[1..] == a[1..] + b;
    }
  }

  lemma OfOne<K(!new)>(s: Stat<K>, key: K, m: Measure)
    ensures Of([s], key, m) == if s.key == key then Amount(s, m) else 0
    ensures Total([s], m) == Amount(s, m)
  {
    assert [s][1..] == [];
  }

  /** Inserting a whole list loses and invents nothing under any key. */
  lemma {:induction false} InsertAllOf<K(!new)>(stats: seq<Stat<K>>, more: seq<Stat<K>>, key: K, m: Measure)
    ensures Of(InsertAll(stats, more), key, m) == Of(stats, key, m) + Of(more, key, m)
  {
    if more != [] {
      var init, s := more[..|more| - 1], more[|more| - 1];
      InsertAllOf(stats, init, key, m);
      InsertOf(InsertAll(stats, init), s, key, m);
      assert more == init + [s];
      OfAppend(init, [s], key, m);
      OfOne(s, key, m);
    }
  }

  /** ... nor in total, */
  lemma {:induction false} InsertAllTotal<K(!new)>(stats: seq<Stat<K>>, more: seq<Stat<K>>, m: Measure)
    ensures Total(InsertAll(stats, more), m) == Total(stats, m) + Total(more, m)
  {
    if more != [] {
      var init, s := more[..|more| - 1], more[|more| - 1];
      InsertAllTotal(stats, init, m);
      InsertTotal(InsertAll(stats, init), s, m);
      assert more == init + [s];
      TotalAppend(init, [s], m);
      OfOne(s, s.key, m);
    }
  }

  /** ... and no key is ever stored twice or dropped. */
  lemma {:induction false} InsertAllKeys<K(!new)>(stats: seq<Stat<K>>, more: seq<Stat<K>>)
    ensures Keys(InsertAll(stats, more)) == Keys(stats) + Keys(more)
    ensures Unique(stats) ==> Unique(InsertAll(stats, more))
  {
    if more != [] {
      var init, s := more[..|more| - 1], more[|more| - 1];
      InsertAllKeys(stats, init);
      InsertKeys(InsertAll(stats, init), s);
      assert more == init + [s];
      KeysSnoc(init, s);
    }
  }

  lemma KeysSnoc<K(!new)>(a: seq<Stat<K>>, s: Stat<K>)
    ensures Keys(a + [s]) == Keys(a) + {s.key}
  {
    var r := a + [s];
    forall k | k in Keys(a) ensures k in Keys(r) {
      var j :| 0 <= j < |a| && a[j].key == k;
      assert r[j].key == k;
    }
    assert r[|a|].key == s.key;
  }

  lemma {:induction false} InsertAt<K(!new)>(stats: seq<Stat<K>>, i: nat, s: Stat<K>)
    requires i <= |stats|
    requires forall j :: 0 <= j < i ==> stats[j].key != s.key
    requires i < |stats| ==> stats[i].key == s.key
    ensures Insert(stats, s) ==
      if i < |stats| then stats[i := Stat(s.key, stats[i].count + s.count, stats[i].time + s.time)] else stats + [s]
  {
    if i > 0 {
      InsertAt(stats[1..], i - 1, s);
    }
  }

  lemma InsertAllSnoc<K>(stats: seq<Stat<K>>, more: seq<Stat<K>>, s: Stat<K>)
    ensures InsertAll(stats, more + [s]) == Insert(InsertAll(stats, more), s)
  {
    assert (more + [s])[..|more + [s]| - 1] == more;
  }

  lemma {:induction false} InsertAllAppend<K(!new)>(stats: seq<Stat<K>>, a: seq<Stat<K>>, b: seq<Stat<K>>)
    ensures InsertAll(stats, a + b) == InsertAll(InsertAll(stats, a), b)
  {
    if b == [] {
      assert a + b == a;
    } else {
      InsertAllAppend(stats, a, b[..|b| - 1]);
      assert (a + b)[..|a + b| - 1] == a + b[..|b| - 1];
    }
  }

  /** The statistics of one graph while it is being filled. */
  class Table<K(!new, ==)> {
    var stats: seq<Stat<K>>

    constructor ()
      ensures stats == []
    {
      stats := [];
    }

    constructor Holding(stats: seq<Stat<K>>)
      ensures this.stats == stats
    {
      this.stats := stats;
    }

    method Add(s: Stat<K>)
      modifies this
      ensures stats == Insert(old(stats), s)
    {
      for i := 0 to |stats|
        invariant stats == old(stats)
        invariant forall j :: 0 <= j < i ==> stats[j].key != s.key
      {
        if stats[i].key == s.key {
          InsertAt(stats, i, s);
          stats := stats[i := Stat(s.key, stats[i].count + s.count, stats[i].time + s.time)];
          return;
        }
      }
      InsertAt(stats, |stats|, s);
      stats := stats + [s];
    }

    method AddAll(more: seq<Stat<K>>)
      modifies this
      ensures stats == InsertAll(old(stats), more)
    {
      for i := 0 to |more|
        invariant stats == InsertAll(old(stats), more[..i])
      {
        assert more[..i + 1] == more[..i] + [more[i]];
        InsertAllSnoc(old(stats), more[..i], more[i]);
        Add(more[i]);
      }
      assert more[..|more|] == more;
    }
  }
}
