/** Call statistics packed into one 64-bit number: the number of calls above bit 40, their total time below. */
module PackedRecord {
  const BITS40 := 0x100_0000_0000
  const BITS39 := 0x80_0000_0000
  const BITS23 := 0x80_0000
  const BITS24 := 0x100_0000
  const BITS63 := 0x8000_0000_0000_0000
  const BITS64 := 0x1_0000_0000_0000_0000

  /** What is left of a number in a signed 64-bit variable. */
  function Wrap(x: int): (r: int)
    ensures -BITS63 <= r < BITS63
  {
    (x + BITS63) % BITS64 - BITS63
  }

  /** Set bit 40. */
  function SetCountBit(d: nat): (r: nat)
    ensures r / BITS40 % 2 == 1 && r % BITS40 == d % BITS40 && r / BITS40 / 2 == d / BITS40 / 2
  {
    if d / BITS40 % 2 == 1 then d else d + BITS40
  }

  predicate ValidTimes(begin: int, end: int) {
    begin != 0 && end != 0 && end >= begin
  }

  function ToRecord(begin: int, end: int): int {
    if ValidTimes(begin, end) then Wrap(SetCountBit(end - begin)) else 0
  }

  /** The shifts by 40 bits and by 24 bits there and back: the latter make bit 39 a sign. */
  function CountOf(record: int): int {
    record / BITS40
  }

  function TimeOf(record: int): int {
    Wrap(record * BITS24) / BITS24
  }

  datatype Interval = Interval(begin: int, end: int)

  /** The records of a list of calls, added up in a 64-bit variable. */
  function Packed(calls: seq<Interval>): (r: int)
    ensures -BITS63 <= r < BITS63
  {
    if calls == [] then 0
    else
      var c := calls[|calls| - 1];
      Wrap(Packed(calls[..|calls| - 1]) + ToRecord(c.begin, c.end))
  }

  /** The number of calls with both times known and in order, and their total time. */
  function Calls(calls: seq<Interval>): nat {
    if calls == [] then 0
    else
      var c := calls[|calls| - 1];
      Calls(calls[..|calls| - 1]) + if c.begin == 0 || c.end == 0 || c.end < c.begin then 0 else 1
  }

  function Time(calls: seq<Interval>): nat {
    if calls == [] then 0
    else
      var c := calls[|calls| - 1];
      Time(calls[..|calls| - 1]) + if c.begin == 0 || c.end == 0 || c.end < c.begin then 0 else c.end - c.begin
  }

  lemma WrapSmall(x: int)
    requires -BITS63 <= x < BITS63
    ensures Wrap(x) == x
  {
  }

  lemma SmallRecord(begin: int, end: int)
    requires ValidTimes(begin, end) && end - begin < BITS40
    ensures ToRecord(begin, end) == BITS40 + end - begin
  {
  }

  lemma {:induction false} SmallSumsPackExactly(calls: seq<Interval>)
    requires Calls(calls) < BITS23 && Time(calls) < BITS39
    ensures Packed(calls) == Calls(calls) * BITS40 + Time(calls)
  {
    hide Wrap;
    if calls != [] {
      var c, init := calls[|calls| - 1], calls[..|calls| - 1];
      SmallSumsPackExactly(init);
      if ValidTimes(c.begin, c.end) {
        SmallRecord(c.begin, c.end);
      }
      WrapSmall(Packed(init) + ToRecord(c.begin, c.end));
    } else {
      assert Packed(calls) == 0;
    }
  }

  lemma UnpackParts(n: nat, t: nat)
    requires n < BITS23 && t < BITS39
    ensures CountOf(n * BITS40 + t) == n && TimeOf(n * BITS40 + t) == t
  {
  }

  /** Main result: the sum of the records of any list of calls unpacks to the number of calls with valid times and their
      total time exactly when that number fits 23 bits and that time fits 39. */
  lemma UnpacksExactly(calls: seq<Interval>)
    ensures CountOf(Packed(calls)) == Calls(calls) && TimeOf(Packed(calls)) == Time(calls)
       <==> Calls(calls) < BITS23 && Time(calls) < BITS39
  {
    if Calls(calls) < BITS23 && Time(calls) < BITS39 {
      SmallSumsPackExactly(calls);
      UnpackParts(Calls(calls), Time(calls));
    }
  }

  // ----- adding graphs to a link -----

  /** An edge or a vertex of a graph: the key it is summed under, and its record. */
  datatype Item = Item(key: string, record: int)

  function RecordOf(m: map<string, int>, key: string): int {
    if key in m then m[key] else 0
  }

  /** The records under one key. */
  function SumOf(items: seq<Item>, key: string): int {
    if items == [] then 0
    else
      var i := items[|items| - 1];
      SumOf(items[..|items| - 1], key) + if i.key == key then i.record else 0
  }

  /** Adding modulo 2^64 may wrap at every step or once at the end. */
  lemma WrapAdd(a: int, b: int, r: int)
    requires Wrap(a) == Wrap(b)
    ensures Wrap(Wrap(a + r)) == Wrap(b + r)
  {
    hide Wrap;
    var i := WrapIsShift(a);
    var j := WrapIsShift(b);
    var k := WrapIsShift(a + r);
    WrapShift(a + r, k);
    WrapShift(b + r, j - i);
  }

  lemma WrapIsShift(x: int) returns (k: int)
    ensures Wrap(x) == x + k * BITS64
  {
    k := -((x + BITS63) / BITS64);
  }

  lemma WrapShift(x: int, k: int)
    ensures Wrap(x + k * BITS64) == Wrap(x)
  {
    var q := (x + BITS63) / BITS64;
    assert (x + BITS63 + k * BITS64) / BITS64 == q + k;
  }

  lemma NoItems()
    ensures forall key :: SumOf([], key) == 0
  {
  }

  lemma OneMoreItem(items: seq<Item>, i: nat, key: string)
    requires i < |items|
    ensures SumOf(items[..i + 1], key) == SumOf(items[..i], key) + if items[i].key == key then items[i].record else 0
  {
    assert items[..i + 1][..i] == items[..i];
  }

  /** The sums kept for all graphs of one shape. */
  class Link {
    var vertexes: map<string, int>
    var edges: map<string, int>

    /** Add items to a table; a table that has been filled before must know all the keys. */
    method AddAll(items: seq<Item>, m: map<string, int>, firstUpdate: bool) returns (sums: map<string, int>, ok: bool)
      ensures ok <==> firstUpdate || forall i :: 0 <= i < |items| ==> items[i].key in m
      ensures ok ==> forall key :: key in sums ==>
        Wrap(sums[key]) == Wrap((if key in m then m[key] else 0) + SumOf(items, key))
      ensures ok ==> forall key :: key in sums <==> key in m || exists i :: 0 <= i < |items| && items[i].key == key
    {
      hide Wrap, SumOf;
      sums, ok := m, true;
      assert items[..0] == [] && forall key :: SumOf([], key) == 0 by { NoItems(); }
      for i := 0 to |items|
        invariant ok && (firstUpdate || forall j :: 0 <= j < i ==> items[j].key in m)
        invariant forall key :: Wrap(RecordOf(sums, key)) == Wrap(RecordOf(m, key) + SumOf(items[..i], key))
        invariant forall key :: key in sums <==> key in m || exists j :: 0 <= j < i && items[j].key == key
      {
        var e, was := items[i], sums;
        forall key ensures SumOf(items[..i + 1], key) == SumOf(items[..i], key) + if e.key == key then e.record else 0 {
          OneMoreItem(items, i, key);
        }
        WrapAdd(RecordOf(was, e.key), RecordOf(m, e.key) + SumOf(items[..i], e.key), e.record);
        if e.key !in sums {
          if !firstUpdate {
            return sums, false;
          }
          sums := sums[e.key := e.record];
          WrapAdd(e.record, e.record, 0);
        } else {
          sums := sums[e.key := Wrap(sums[e.key] + e.record)];
        }
      }
      assert items[..|items|] == items;
      assert forall key :: key in sums ==> RecordOf(sums, key) == sums[key];
    }

    /** Add a graph's records to the sums: with the first graph keys may be new, after that they must all be known. */
    method Update(es: seq<Item>, vs: seq<Item>, firstUpdate: bool) returns (ok: bool)
      modifies this
      ensures ok <==> (firstUpdate || ((forall i :: 0 <= i < |es| ==> es[i].key in old(edges))
                                       && forall i :: 0 <= i < |vs| ==> vs[i].key in old(vertexes)))
      ensures ok ==> forall key :: key in edges ==>
        Wrap(edges[key]) == Wrap((if key in old(edges) then old(edges)[key] else 0) + SumOf(es, key))
      ensures ok ==> forall key :: key in vertexes ==>
        Wrap(vertexes[key]) == Wrap((if key in old(vertexes) then old(vertexes)[key] else 0) + SumOf(vs, key))
      ensures ok ==> forall key :: key in edges <==> key in old(edges) || exists i :: 0 <= i < |es| && es[i].key == key
      ensures ok ==>
        forall key :: key in vertexes <==> key in old(vertexes) || exists i :: 0 <= i < |vs| && vs[i].key == key
    {
      edges, ok := AddAll(es, edges, firstUpdate);
      if ok {
        vertexes, ok := AddAll(vs, vertexes, firstUpdate);
      }
    }
  }
}
