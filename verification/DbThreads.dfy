/** How the property server spreads its databases over its insert threads. */
module DbThreads {
  import opened Basics

  /** A machine, by its address. */
  datatype Host = Host(address: string)

  /** How many of the first n databases are on a machine. */
  function CountTo(ips: seq<Host>, n: nat, ip: Host): (r: nat)
    requires n <= |ips|
    ensures r <= n
  {
    if n == 0 then 0 else CountTo(ips, n - 1, ip) + if ips[n - 1] == ip then 1 else 0
  }

  function Count(ips: seq<Host>, ip: Host): nat {
    CountTo(ips, |ips|, ip)
  }

  /** The machines, each once, in the order in which they get their threads. */
  ghost predicate Machines(order: seq<Host>, ips: seq<Host>) {
    && (forall i, j :: 0 <= i < j < |order| ==> order[i] != order[j])
    && (forall ip :: ip in order <==> ip in ips)
  }

  /** Where each database goes: `number` machines' worth of threads, `each` threads a machine. */
  datatype Allocation = Allocation(number: nat, each: nat, thread: seq<nat>)

  /** The smallest number of databases on a machine, but no more than 999999. */
  ghost predicate Fewest(order: seq<Host>, ips: seq<Host>, n: nat, least: nat) {
    && least <= 999999
    && (forall m :: 0 <= m < n && m < |order| ==> least <= Count(ips, order[m]))
    && (least < 999999 ==> exists m :: 0 <= m < n && m < |order| && least == Count(ips, order[m]))
  }

  /** The s-th thread of those that begin with the f-th group. */
  function ThreadOf(f: nat, s: nat, each: nat): nat {
    f * each + s
  }

  function Modulo(x: nat, n: nat): (r: nat)
    requires n > 0
    ensures r < n
  {
    x % n
  }

  /** The p-th machine's databases go round its threads, and so do the machines. */
  ghost predicate RoundRobin(order: seq<Host>, ips: seq<Host>, a: Allocation) {
    && a.number > 0 && a.each > 0
    && |a.thread| == |ips|
    && forall i, p :: 0 <= i < |ips| && 0 <= p < |order| && order[p] == ips[i] ==>
         a.thread[i] == ThreadOf(Modulo(p, a.number), Modulo(CountTo(ips, i, ips[i]), a.each), a.each)
  }

  ghost predicate Allocated(order: seq<Host>, ips: seq<Host>, byMachine: nat, byDb: nat, a: Allocation) {
    && a.number == Min(byMachine, |order|)
    && (exists least: nat :: Fewest(order, ips, |order|, least) && a.each == Min(byDb, least))
    && RoundRobin(order, ips, a)
  }

  lemma {:induction false} CountPositive(ips: seq<Host>, n: nat, i: nat)
    requires i < n <= |ips|
    ensures CountTo(ips, n, ips[i]) > 0
    decreases n
  {
    if i < n - 1 { CountPositive(ips, n - 1, i); }
  }

  /** The machines' first threads, going round. */
  method Firsts(order: seq<Host>, number: nat) returns (first: map<Host, nat>, next: map<Host, nat>)
    requires number > 0 && forall i, j :: 0 <= i < j < |order| ==> order[i] != order[j]
    ensures first.Keys == next.Keys && (forall ip :: ip in first <==> ip in order)
    ensures forall ip :: ip in next ==> next[ip] == 0
    ensures forall q :: 0 <= q < |order| ==> first[order[q]] == Modulo(q, number)
  {
    hide Modulo;
    first, next := map[], map[];
    var index := 0;
    NoRemainder(number);
    for m := 0 to |order|
      invariant index == Modulo(m, number) < number && first.Keys == next.Keys
      invariant forall ip :: ip in first <==> ip in order[..m]
      invariant forall ip :: ip in next ==> next[ip] == 0
      invariant forall q :: 0 <= q < m ==> order[q] in first && first[order[q]] == Modulo(q, number)
    {
      assert order[..m + 1] == order[..m] + [order[m]];
      first, next := first[order[m] := index], next[order[m] := 0];
      NextRemainder(m, number);
      index := index + 1;
      if index == number {
        index := 0;
      }
    }
  }

  /** Each machine's turn after n databases. */
  ghost predicate Turns(ips: seq<Host>, n: nat, next: map<Host, nat>, each: nat)
    requires n <= |ips| && each > 0
  {
    forall ip :: ip in next ==> next[ip] == Modulo(CountTo(ips, n, ip), each)
  }

  function NextTurn(next: map<Host, nat>, ip: Host, each: nat): map<Host, nat>
    requires ip in next
  {
    next[ip := if next[ip] + 1 == each then 0 else next[ip] + 1]
  }

  lemma TurnsGoRound(ips: seq<Host>, i: nat, next: map<Host, nat>, each: nat)
    requires i < |ips| && each > 0 && ips[i] in next && Turns(ips, i, next, each)
    ensures Turns(ips, i + 1, NextTurn(next, ips[i], each), each)
  {
    hide Modulo;
    NextRemainder(CountTo(ips, i, ips[i]), each);
  }

  function ThreadFor(ips: seq<Host>, first: map<Host, nat>, each: nat, i: nat): nat
    requires i < |ips| && ips[i] in first && each > 0
  {
    ThreadOf(first[ips[i]], Modulo(CountTo(ips, i, ips[i]), each), each)
  }

  /** Every database's thread, going round those of its machine. */
  method Threads(ips: seq<Host>, first: map<Host, nat>, next0: map<Host, nat>, each: nat) returns (thread: seq<nat>)
    requires each > 0 && first.Keys == next0.Keys
    requires forall i :: 0 <= i < |ips| ==> ips[i] in first
    requires forall ip :: ip in next0 ==> next0[ip] == 0
    ensures |thread| == |ips|
    ensures forall i :: 0 <= i < |ips| ==> thread[i] == ThreadFor(ips, first, each, i)
  {
    thread := [];
    var next := next0;
    NoRemainder(each);
    assert Turns(ips, 0, next, each);
    for i := 0 to |ips|
      invariant |thread| == i && next.Keys == first.Keys && Turns(ips, i, next, each)
      invariant forall j :: 0 <= j < i ==> thread[j] == ThreadFor(ips, first, each, j)
    {
      hide NextTurn, ThreadOf, Modulo, CountTo;
      var ip := ips[i];
      assert next[ip] == Modulo(CountTo(ips, i, ip), each);
      hide Turns;
      thread := thread + [ThreadOf(first[ip], next[ip], each)];
      TurnsGoRound(ips, i, next, each);
      next := Advance(next, ip, each);
    }
  }

  method Advance(next: map<Host, nat>, ip: Host, each: nat) returns (r: map<Host, nat>)
    requires ip in next
    ensures r == NextTurn(next, ip, each) && r.Keys == next.Keys
  {
    r := next[ip := if next[ip] + 1 == each then 0 else next[ip] + 1];
  }

  lemma ThreadsRoundRobin(order: seq<Host>, ips: seq<Host>, first: map<Host, nat>, a: Allocation)
    requires a.number > 0 && a.each > 0 && |a.thread| == |ips|
    requires forall i :: 0 <= i < |ips| ==> ips[i] in first && a.thread[i] == ThreadFor(ips, first, a.each, i)
    requires forall q :: 0 <= q < |order| ==> order[q] in first && first[order[q]] == Modulo(q, a.number)
    ensures RoundRobin(order, ips, a)
  {
    hide Modulo, ThreadOf, CountTo;
  }

  /** The smallest number of databases on a machine. */
  method LeastPerMachine(order: seq<Host>, ips: seq<Host>) returns (least: nat)
    requires forall m :: 0 <= m < |order| ==> order[m] in ips
    ensures Fewest(order, ips, |order|, least) && least > 0
  {
    hide CountTo;
    least := 999999;
    for m := 0 to |order|
      invariant Fewest(order, ips, m, least) && least > 0
    {
      assert order[m] in ips;
      var k :| 0 <= k < |ips| && ips[k] == order[m];
      CountPositive(ips, |ips|, k);
      var size := Count(ips, order[m]);
      if size < least {
        least := size;
      }
    }
  }

  /** The constructor's allocation. */
  method Allocate(order: seq<Host>, ips: seq<Host>, byMachine: nat, byDb: nat) returns (a: Allocation)
    requires ips != [] && byMachine > 0 && byDb > 0 && Machines(order, ips)
    ensures Allocated(order, ips, byMachine, byDb, a)
  {
    hide Fewest, CountTo, Modulo, ThreadOf, RoundRobin, ThreadFor;
    assert ips[0] in order;
    var number := if byMachine < |order| then byMachine else |order|;
    MachinesListed(order, ips);
    var least := LeastPerMachine(order, ips);
    var each := if byDb > least then least else byDb;
    var first, next := Firsts(order, number);
    hide Machines;
    var thread := Threads(ips, first, next, each);
    a := Allocation(number, each, thread);
    ThreadsRoundRobin(order, ips, first, a);
  }

  lemma MachinesListed(order: seq<Host>, ips: seq<Host>)
    requires Machines(order, ips)
    ensures forall m :: 0 <= m < |order| ==> order[m] in ips
    ensures forall i :: 0 <= i < |ips| ==> ips[i] in order
  {
  }

  lemma NoRemainder(n: nat)
    requires n > 0
    ensures Modulo(0, n) == 0
  {
    Remainder(0, 0, n);
  }

  lemma NextRemainder(c: nat, n: nat)
    requires n > 0
    ensures Modulo(c + 1, n) == if Modulo(c, n) + 1 == n then 0 else Modulo(c, n) + 1
  {
    NextShare(c, n);
  }

  lemma Remainder(q: nat, r: nat, n: nat)
    requires r < n
    ensures (q * n + r) % n == r && (q * n + r) / n == q
  {
    var x := q * n + r;
    var k := x / n;
    assert x == k * n + x % n;
    assert (k - q) * n == r - x % n;
    if k > q { AtLeastOnce(k - q, n); }
    if k < q { AtLeastOnce(q - k, n); }
  }

  lemma AtLeastOnce(d: nat, n: nat)
    requires d > 0
    ensures d * n >= n
  {
    assert d * n == (d - 1) * n + n;
  }

  // ----- what the allocation is worth -----

  lemma FewestIsLeast(order: seq<Host>, ips: seq<Host>, byMachine: nat, byDb: nat, a: Allocation, p: nat)
    requires Allocated(order, ips, byMachine, byDb, a) && p < |order|
    ensures a.each <= Count(ips, order[p])
  {
  }

  /** How many threads there are: as many groups as configured, but no more than machines; in each as many threads as
      configured, but no more than the fewest databases on a machine (or 999999). */
  lemma ThreadCount(order: seq<Host>, ips: seq<Host>, byMachine: nat, byDb: nat, a: Allocation)
    requires Allocated(order, ips, byMachine, byDb, a)
    ensures a.number <= byMachine && a.number <= |order| && (a.number == byMachine || a.number == |order|)
    ensures a.each <= byDb && a.each <= 999999 && forall p :: 0 <= p < |order| ==> a.each <= Count(ips, order[p])
    ensures a.each == byDb || a.each == 999999 || exists p :: 0 <= p < |order| && a.each == Count(ips, order[p])
  {
    hide CountTo, Count, RoundRobin;
  }

  /** Every database is given one of the threads there are. */
  lemma ThreadExists(order: seq<Host>, ips: seq<Host>, a: Allocation, i: nat)
    requires RoundRobin(order, ips, a) && Machines(order, ips) && i < |ips|
    ensures |a.thread| == |ips| && a.thread[i] < a.number * a.each
  {
    hide ThreadOf, Modulo;
    assert ips[i] in order;
    var p :| 0 <= p < |order| && order[p] == ips[i];
    ThreadInRange(Modulo(p, a.number), Modulo(CountTo(ips, i, ips[i]), a.each), a.number, a.each);
  }

  lemma ThreadInRange(f: nat, s: nat, number: nat, each: nat)
    requires f < number && s < each
    ensures ThreadOf(f, s, each) < number * each
  {
    assert number * each == f * each + each + (number - f - 1) * each;
    Product(number - f - 1, each);
  }

  /** The parts of a thread's number. */
  lemma ThreadParts(t: nat, number: nat, each: nat) returns (p: nat, r: nat)
    requires each > 0 && t < number * each
    ensures p < number && r < each && t == ThreadOf(p, r, each) && Modulo(p, number) == p && Modulo(r, each) == r
  {
    p, r := t / each, t % each;
    assert t == p * each + r;
    QuotientBelow(p, r, number, each);
    Remainder(0, p, number);
    Remainder(0, r, each);
  }

  lemma QuotientBelow(p: nat, r: nat, number: nat, each: nat)
    requires p * each + r < number * each
    ensures p < number
  {
    if p >= number { MoreTimes(p, number, each); }
  }

  lemma MoreTimes(a: nat, b: nat, n: nat)
    requires a >= b
    ensures a * n >= b * n
  {
    assert a * n == b * n + (a - b) * n;
    Product(a - b, n);
  }

  lemma Product(x: nat, y: nat)
    ensures x * y >= 0
  {
  }

  /** The r-th database of a machine. */
  lemma {:induction false} NthOfMachine(ips: seq<Host>, n: nat, ip: Host, r: nat) returns (i: nat)
    requires n <= |ips| && r < CountTo(ips, n, ip)
    ensures i < n && ips[i] == ip && CountTo(ips, i, ip) == r
    decreases n
  {
    if ips[n - 1] == ip && CountTo(ips, n - 1, ip) == r {
      i := n - 1;
    } else {
      i := NthOfMachine(ips, n - 1, ip, r);
    }
  }

  /** Every thread is given a database. */
  lemma NoThreadIsIdle(order: seq<Host>, ips: seq<Host>, byMachine: nat, byDb: nat, a: Allocation, t: nat)
    returns (i: nat)
    requires Allocated(order, ips, byMachine, byDb, a) && t < a.number * a.each
    ensures i < |ips| == |a.thread| && a.thread[i] == t
  {
    hide ThreadOf, Modulo, CountTo, Fewest;
    var p, r := ThreadParts(t, a.number, a.each);
    FewestIsLeast(order, ips, byMachine, byDb, a, p);
    i := NthOfMachine(ips, |ips|, order[p], r);
  }

  /** How many of the first n databases are of the machine and in the thread. */
  function Load(ips: seq<Host>, a: Allocation, n: nat, ip: Host, thread: nat): nat
    requires n <= |ips| == |a.thread|
  {
    if n == 0 then 0
    else Load(ips, a, n - 1, ip, thread) + if ips[n - 1] == ip && a.thread[n - 1] == thread then 1 else 0
  }

  lemma {:induction false} LoadIsShare(order: seq<Host>, ips: seq<Host>, a: Allocation, n: nat, p: nat, t: nat)
    requires RoundRobin(order, ips, a) && n <= |ips| && p < |order| && t < a.each
    ensures var c := CountTo(ips, n, order[p]);
      Load(ips, a, n, order[p], ThreadOf(Modulo(p, a.number), t, a.each))
      == c / a.each + if t < c % a.each then 1 else 0
  {
    if n > 0 {
      LoadIsShare(order, ips, a, n - 1, p, t);
      var c := CountTo(ips, n - 1, order[p]);
      if ips[n - 1] == order[p] {
        assert a.thread[n - 1] == ThreadOf(Modulo(p, a.number), Modulo(c, a.each), a.each);
        SameThread(Modulo(p, a.number), Modulo(c, a.each), t, a.each);
        hide ThreadOf;
        NextShare(c, a.each);
      }
    } else {
      Remainder(0, 0, a.each);
    }
  }

  lemma SameThread(f: nat, s: nat, t: nat, each: nat)
    ensures ThreadOf(f, s, each) == ThreadOf(f, t, each) <==> s == t
  {
  }

  lemma NextShare(c: nat, n: nat)
    requires n > 0
    ensures if c % n + 1 == n then (c + 1) / n == c / n + 1 && (c + 1) % n == 0
            else (c + 1) / n == c / n && (c + 1) % n == c % n + 1
  {
    var q, r := c / n, c % n;
    assert c == q * n + r;
    if r + 1 == n {
      assert c + 1 == (q + 1) * n;
      Remainder(q + 1, 0, n);
    } else {
      Remainder(q, r + 1, n);
    }
  }

  /** The databases of one machine go to the threads of one group, and are spread evenly over them: the loads differ by
      at most one. */
  lemma MachineIsBalanced(order: seq<Host>, ips: seq<Host>, a: Allocation, p: nat, t: nat, u: nat)
    requires RoundRobin(order, ips, a) && p < |order| && t < a.each && u < a.each
    ensures var f := Modulo(p, a.number);
      Load(ips, a, |ips|, order[p], ThreadOf(f, t, a.each)) <= Load(ips, a, |ips|, order[p], ThreadOf(f, u, a.each)) + 1
    ensures forall i :: 0 <= i < |ips| && ips[i] == order[p] ==>
      exists s: nat :: s < a.each && a.thread[i] == ThreadOf(Modulo(p, a.number), s, a.each)
  {
    hide ThreadOf, CountTo;
    LoadIsShare(order, ips, a, |ips|, p, t);
    LoadIsShare(order, ips, a, |ips|, p, u);
  }
}
