/** Which connection to use for a node: nodes report themselves over connections, and the index answers with
    the connection that reported most recently and is still open. */
module NodeIndex {
  import opened Basics

  /** A connection object; a connection is identified by its uid. */
  datatype Current = Current(uid: int, stamp: nat)

  /** One element of a linked list, with its address: what a list iterator refers to. */
  datatype Cell = Cell(at: nat, uid: int)

  /** The connections of one node, latest first, with the address of each connection's list element. */
  datatype UidList = UidList(time: int, uids: seq<Cell>, its: map<int, nat>)

  datatype Index = Index(nodes: map<string, UidList>, uidNodes: map<int, set<string>>,
                         uidCurrent: map<int, Current>, nextAddress: nat)

  const EMPTY := Index(map[], map[], map[], 0)

  // ----- steps -----

  /** The list without the element at an address. */
  function Erase(cells: seq<Cell>, at: nat): seq<Cell> {
    if cells == [] then []
    else if cells[0].at == at then cells[1..]
    else [cells[0]] + Erase(cells[1..], at)
  }

  function Detach(l: UidList, uid: int): UidList {
    if uid in l.its then l.(uids := Erase(l.uids, l.its[uid]), its := l.its - {uid}) else l
  }

  function Touch(l: UidList, uid: int, at: nat, now: int): UidList {
    var left := if uid in l.its then Erase(l.uids, l.its[uid]) else l.uids;
    UidList(now, [Cell(at, uid)] + left, l.its[uid := at])
  }

  function NamesOn(s: Index, uid: int): set<string> {
    if uid in s.uidNodes then s.uidNodes[uid] else {}
  }

  function Report(s: Index, node: string, current: Current, now: int): Index {
    var uid := current.uid;
    var l := if node in s.nodes then s.nodes[node] else UidList(now, [], map[]);
    Index(s.nodes[node := Touch(l, uid, s.nextAddress, now)],
          s.uidNodes[uid := NamesOn(s, uid) + {node}],
          s.uidCurrent[uid := current],
          s.nextAddress + 1)
  }

  predicate Lists(l: UidList, uid: int) {
    exists i :: 0 <= i < |l.uids| && l.uids[i].uid == uid
  }

  /** The nodes of a connection after a node has gone off line, if the connection is among the given elements. */
  function OffAmong(names: set<string>, cells: seq<Cell>, uid: int, node: string): set<string> {
    if exists i :: 0 <= i < |cells| && cells[i].uid == uid then names - {node} else names
  }

  function Delete(s: Index, node: string): Index {
    if node !in s.nodes then s
    else s.(nodes := s.nodes - {node},
            uidNodes := map u | u in s.uidNodes :: OffAmong(s.uidNodes[u], s.nodes[node].uids, u, node))
  }

  /** The nodes left when a connection is taken off the given ones; a node without connections goes. */
  function DetachFrom(nodes: map<string, UidList>, names: set<string>, uid: int): map<string, UidList> {
    map n | n in nodes && !(n in names && Detach(nodes[n], uid).uids == []) ::
      if n in names then Detach(nodes[n], uid) else nodes[n]
  }

  function Close(s: Index, uid: int): Index {
    if uid !in s.uidNodes then s
    else s.(nodes := DetachFrom(s.nodes, s.uidNodes[uid], uid),
            uidNodes := s.uidNodes - {uid}, uidCurrent := s.uidCurrent - {uid})
  }

  // ----- consistency -----

  function Uids(cells: seq<Cell>): (r: seq<int>)
    ensures |r| == |cells| && forall i :: 0 <= i < |r| ==> r[i] == cells[i].uid
  {
    seq(|cells|, i requires 0 <= i < |cells| => cells[i].uid)
  }

  ghost predicate Apart(cells: seq<Cell>) {
    forall i, j :: 0 <= i < j < |cells| ==> cells[i].at != cells[j].at
  }

  ghost predicate Pointed(l: UidList, bound: nat) {
    forall i :: 0 <= i < |l.uids| ==> l.uids[i].uid in l.its && l.its[l.uids[i].uid] == l.uids[i].at < bound
  }

  /** The iterator map points every listed connection at its own list element, and lists nothing else; the
      elements have different addresses, so no connection is listed twice. */
  ghost predicate ListOk(l: UidList, bound: nat) {
    Apart(l.uids) && Pointed(l, bound) && forall u :: u in l.its ==> Lists(l, u)
  }

  /** The maps are inverse to each other, and no node is listed without a connection. */
  ghost predicate Consistent(s: Index) {
    && (forall n :: n in s.nodes ==> s.nodes[n].uids != [] && ListOk(s.nodes[n], s.nextAddress))
    && (forall n, u :: (n in s.nodes && u in s.nodes[n].its) <==> n in NamesOn(s, u))
    && s.uidNodes.Keys == s.uidCurrent.Keys
    && (forall u :: u in s.uidCurrent ==> s.uidCurrent[u].uid == u)
  }

  function Remove(uids: seq<int>, uid: int): seq<int> {
    if uids == [] then [] else if uids[0] == uid then uids[1..] else [uids[0]] + Remove(uids[1..], uid)
  }

  lemma {:induction false} EraseIsRemove(cells: seq<Cell>, at: nat, uid: int)
    requires forall i :: 0 <= i < |cells| ==> (cells[i].at == at <==> cells[i].uid == uid)
    ensures Uids(Erase(cells, at)) == Remove(Uids(cells), uid)
    ensures forall c :: c in Erase(cells, at) ==> c in cells
  {
    if cells == [] {
    } else {
      assert Uids(cells)[1..] == Uids(cells[1..]);
      if cells[0].at != at {
        EraseIsRemove(cells[1..], at, uid);
        assert Uids(Erase(cells, at)) == [cells[0].uid] + Uids(Erase(cells[1..], at));
      }
    }
  }

  /** Where the erased element was: everything before it stays, everything behind it moves up. */
  lemma {:induction false} EraseAt(cells: seq<Cell>, k: nat)
    requires k < |cells| && forall i :: 0 <= i < k ==> cells[i].at != cells[k].at
    ensures Erase(cells, cells[k].at) == cells[..k] + cells[k + 1..]
  {
    if k > 0 {
      EraseAt(cells[1..], k - 1);
      assert cells[..k] == [cells[0]] + cells[1..][..k - 1];
    }
  }

  /** The element a detached connection had, and the list around it. */
  lemma DetachedCells(l: UidList, uid: int, bound: nat) returns (k: nat)
    requires ListOk(l, bound) && uid in l.its
    ensures k < |l.uids| && l.uids[k] == Cell(l.its[uid], uid)
    ensures Detach(l, uid).uids == l.uids[..k] + l.uids[k + 1..]
    ensures forall i :: 0 <= i < |l.uids| ==> (l.uids[i].at == l.its[uid] <==> l.uids[i].uid == uid)
  {
    assert Lists(l, uid);
    k :| 0 <= k < |l.uids| && l.uids[k].uid == uid;
    EraseAt(l.uids, k);
  }

  lemma DetachOk(l: UidList, uid: int, bound: nat)
    requires ListOk(l, bound)
    ensures ListOk(Detach(l, uid), bound) && uid !in Detach(l, uid).its
    ensures Detach(l, uid).its.Keys == l.its.Keys - {uid}
  {
    hide Erase;
    if uid in l.its {
      var k := DetachedCells(l, uid, bound);
      var d := Detach(l, uid);
      hide Detach;
      WithoutOk(l, d, k, bound);
    }
  }

  /** Taking out one element, with its iterator, keeps a list in order. */
  lemma WithoutOk(l: UidList, d: UidList, k: nat, bound: nat)
    requires ListOk(l, bound) && k < |l.uids|
    requires d.uids == l.uids[..k] + l.uids[k + 1..] && d.its == l.its - {l.uids[k].uid}
    requires forall i :: 0 <= i < |l.uids| && l.uids[i].uid == l.uids[k].uid ==> i == k
    ensures ListOk(d, bound)
  {
    assert forall i :: 0 <= i < |d.uids| ==> d.uids[i] == l.uids[if i < k then i else i + 1];
    assert Apart(d.uids);
    hide Apart;
    assert Pointed(d, bound);
    hide Pointed;
    forall u | u in d.its ensures Lists(d, u) {
      assert Lists(l, u);
      var i :| 0 <= i < |l.uids| && l.uids[i].uid == u;
      assert d.uids[if i < k then i else i - 1].uid == u;
    }
  }

  lemma DetachUids(l: UidList, uid: int, bound: nat)
    requires ListOk(l, bound)
    ensures Uids(Detach(l, uid).uids) == if uid in l.its then Remove(Uids(l.uids), uid) else Uids(l.uids)
  {
    if uid in l.its {
      var k := DetachedCells(l, uid, bound);
      EraseIsRemove(l.uids, l.its[uid], uid);
    }
  }

  lemma AddOk(d: UidList, uid: int, at: nat, now: int)
    requires ListOk(d, at) && uid !in d.its
    ensures ListOk(UidList(now, [Cell(at, uid)] + d.uids, d.its[uid := at]), at + 1)
  {
    var t := UidList(now, [Cell(at, uid)] + d.uids, d.its[uid := at]);
    assert forall i :: 0 < i < |t.uids| ==> t.uids[i] == d.uids[i - 1];
    forall u | u in t.its ensures Lists(t, u) {
      if u == uid {
        assert t.uids[0].uid == uid;
      } else {
        assert Lists(d, u);
        var i :| 0 <= i < |d.uids| && d.uids[i].uid == u;
        assert t.uids[i + 1].uid == u;
      }
    }
  }

  lemma TouchOk(l: UidList, uid: int, at: nat, now: int)
    requires ListOk(l, at)
    ensures ListOk(Touch(l, uid, at, now), at + 1)
    ensures Uids(Touch(l, uid, at, now).uids) == [uid] + Uids(Detach(l, uid).uids)
    ensures Touch(l, uid, at, now).its.Keys == l.its.Keys + {uid}
  {
    hide Erase, ListOk;
    DetachOk(l, uid, at);
    var d := Detach(l, uid);
    AddOk(d, uid, at, now);
    assert d.its[uid := at] == l.its[uid := at];
    assert Touch(l, uid, at, now) == UidList(now, [Cell(at, uid)] + d.uids, d.its[uid := at]);
  }

  lemma ListBound(l: UidList, a: nat, b: nat)
    requires ListOk(l, a) && a <= b
    ensures ListOk(l, b)
  {
  }

  /** A report keeps the maps inverse to each other. */
  lemma ReportKeepsConsistent(s: Index, node: string, current: Current, now: int)
    requires Consistent(s)
    ensures Consistent(Report(s, node, current, now))
  {
    var s', uid := Report(s, node, current, now), current.uid;
    var l := if node in s.nodes then s.nodes[node] else UidList(now, [], map[]);
    TouchOk(l, uid, s.nextAddress, now);
    forall n | n in s'.nodes ensures s'.nodes[n].uids != [] && ListOk(s'.nodes[n], s'.nextAddress) {
      if n != node { ListBound(s.nodes[n], s.nextAddress, s'.nextAddress); }
    }
    forall n, u ensures (n in s'.nodes && u in s'.nodes[n].its) <==> n in NamesOn(s', u) {
      assert (n in s.nodes && u in s.nodes[n].its) <==> n in NamesOn(s, u);
    }
  }

  lemma ListsIffIterator(l: UidList, bound: nat, u: int)
    requires ListOk(l, bound)
    ensures Lists(l, u) <==> u in l.its
  {
  }

  /** So does taking a node off line, */
  lemma DeleteKeepsConsistent(s: Index, node: string)
    requires Consistent(s)
    ensures Consistent(Delete(s, node))
  {
    if node in s.nodes {
      var s' := Delete(s, node);
      forall n, u ensures (n in s'.nodes && u in s'.nodes[n].its) <==> n in NamesOn(s', u) {
        ListsIffIterator(s.nodes[node], s.nextAddress, u);
        assert (n in s.nodes && u in s.nodes[n].its) <==> n in NamesOn(s, u);
        assert (node in s.nodes && u in s.nodes[node].its) <==> node in NamesOn(s, u);
      }
    }
  }

  /** and closing a connection. */
  lemma CloseKeepsConsistent(s: Index, uid: int)
    requires Consistent(s)
    ensures Consistent(Close(s, uid))
  {
    if uid in s.uidNodes {
      var s' := Close(s, uid);
      forall n | n in s.nodes ensures ListOk(Detach(s.nodes[n], uid), s.nextAddress) {
        DetachOk(s.nodes[n], uid, s.nextAddress);
      }
      forall n, u ensures (n in s'.nodes && u in s'.nodes[n].its) <==> n in NamesOn(s', u) {
        assert (n in s.nodes && u in s.nodes[n].its) <==> n in NamesOn(s, u);
        assert (n in s.nodes && uid in s.nodes[n].its) <==> n in NamesOn(s, uid);
        if n in s.nodes {
          DetachOk(s.nodes[n], uid, s.nextAddress);
          var d := Detach(s.nodes[n], uid);
          if u in d.its { ListsIffIterator(d, s.nextAddress, u); }
        }
      }
    }
  }

  // ----- what the index means: the history of events -----

  datatype Event = Reported(node: string, current: Current, now: int) | Deleted(node: string) | Closed(uid: int)

  function Step(s: Index, e: Event): Index {
    match e
    case Reported(node, current, now) => Report(s, node, current, now)
    case Deleted(node) => Delete(s, node)
    case Closed(uid) => Close(s, uid)
  }

  function After(events: seq<Event>): Index {
    if events == [] then EMPTY else Step(After(events[..|events| - 1]), events[|events| - 1])
  }

  /** The connections of a node that are open, by latest report. */
  function Recency(events: seq<Event>, node: string): seq<int> {
    if events == [] then []
    else
      var before := Recency(events[..|events| - 1], node);
      match events[|events| - 1]
      case Reported(n, c, _) => if n == node then [c.uid] + Remove(before, c.uid) else before
      case Deleted(n) => if n == node then [] else before
      case Closed(u) => Remove(before, u)
  }

  function LatestCurrent(events: seq<Event>, uid: int): Option<Current> {
    if events == [] then None
    else
      match events[|events| - 1]
      case Reported(_, c, _) => if c.uid == uid then Some(c) else LatestCurrent(events[..|events| - 1], uid)
      case Deleted(_) => LatestCurrent(events[..|events| - 1], uid)
      case Closed(u) => if u == uid then None else LatestCurrent(events[..|events| - 1], uid)
  }

  function Listed(s: Index, node: string): seq<int> {
    if node in s.nodes then Uids(s.nodes[node].uids) else []
  }

  function Held(s: Index, uid: int): Option<Current> {
    if uid in s.uidCurrent then Some(s.uidCurrent[uid]) else None
  }

  lemma {:induction false} RemoveAbsent(uids: seq<int>, uid: int)
    requires uid !in uids
    ensures Remove(uids, uid) == uids
  {
    if uids != [] {
      RemoveAbsent(uids[1..], uid);
    }
  }

  lemma ListedIffIterator(s: Index, node: string, uid: int)
    requires Consistent(s)
    ensures uid in Listed(s, node) <==> node in NamesOn(s, uid)
  {
    assert (node in s.nodes && uid in s.nodes[node].its) <==> node in NamesOn(s, uid);
    if node in s.nodes {
      var l := s.nodes[node];
      if uid in l.its {
        var i :| 0 <= i < |l.uids| && l.uids[i].uid == uid;
        assert Uids(l.uids)[i] == uid;
      }
    }
  }

  lemma StepLists(s: Index, e: Event, node: string)
    requires Consistent(s)
    ensures Listed(Step(s, e), node) ==
      match e
      case Reported(n, c, _) => if n == node then [c.uid] + Remove(Listed(s, node), c.uid) else Listed(s, node)
      case Deleted(n) => if n == node then [] else Listed(s, node)
      case Closed(u) => Remove(Listed(s, node), u)
  {
    match e
    case Reported(n, c, now) =>
      if n == node {
        var l := if node in s.nodes then s.nodes[node] else UidList(now, [], map[]);
        TouchOk(l, c.uid, s.nextAddress, now);
        DetachUids(l, c.uid, s.nextAddress);
        RemoveUnlisted(s, node, c.uid);
      }
    case Deleted(n) =>
    case Closed(u) =>
      RemoveUnlisted(s, node, u);
      if node in s.nodes { DetachUids(s.nodes[node], u, s.nextAddress); }
  }

  lemma StepHolds(s: Index, e: Event, uid: int)
    requires Consistent(s)
    ensures Held(Step(s, e), uid) ==
      match e
      case Reported(_, c, _) => if c.uid == uid then Some(c) else Held(s, uid)
      case Deleted(_) => Held(s, uid)
      case Closed(u) => if u == uid then None else Held(s, uid)
  {
  }

  lemma RemoveUnlisted(s: Index, node: string, uid: int)
    requires Consistent(s)
    ensures node !in NamesOn(s, uid) ==> Remove(Listed(s, node), uid) == Listed(s, node)
  {
    ListedIffIterator(s, node, uid);
    if node !in NamesOn(s, uid) { RemoveAbsent(Listed(s, node), uid); }
  }

  lemma EmptyIsConsistent()
    ensures Consistent(EMPTY)
  {
  }

  /** Main result, in every state the index can reach: the maps are inverse to each other, every node's list is
      its open connections by latest report, and every connection is kept as it last reported. */
  lemma {:induction false} IndexFollowsHistory(events: seq<Event>, node: string, uid: int)
    ensures Consistent(After(events))
    ensures Listed(After(events), node) == Recency(events, node)
    ensures Held(After(events), uid) == LatestCurrent(events, uid)
  {
    hide Consistent, Report, Delete, Close;
    if events == [] {
      EmptyIsConsistent();
    } else {
      var init, e := events[..|events| - 1], events[|events| - 1];
      IndexFollowsHistory(init, node, uid);
      match e {
        case Reported(n, c, now) => ReportKeepsConsistent(After(init), n, c, now);
        case Deleted(n) => DeleteKeepsConsistent(After(init), n);
        case Closed(u) => CloseKeepsConsistent(After(init), u);
      }
      StepLists(After(init), e, node);
      StepHolds(After(init), e, uid);
    }
  }

  // ----- the answer, stated without lists -----

  ghost predicate Ends(e: Event, node: string, uid: int) {
    e == Deleted(node) || e == Closed(uid)
  }

  /** Event i is a report of the node whose connection has since been neither closed nor taken off the node. */
  ghost predicate Alive(events: seq<Event>, node: string, i: nat) {
    && i < |events| && events[i].Reported? && events[i].node == node
    && forall j :: i < j < |events| ==> !Ends(events[j], node, events[i].current.uid)
  }

  ghost predicate AliveOn(events: seq<Event>, node: string, uid: int, i: nat) {
    Alive(events, node, i) && events[i].current.uid == uid
  }

  lemma AliveOneMore(init: seq<Event>, e: Event, node: string, i: nat)
    requires i < |init|
    ensures Alive(init + [e], node, i) <==> Alive(init, node, i) && !Ends(e, node, init[i].current.uid)
  {
    var all := init + [e];
    if Alive(all, node, i) {
      assert all[|init|] == e;
      forall j | i < j < |init| ensures !Ends(init[j], node, init[i].current.uid) { assert all[j] == init[j]; }
    }
  }

  /** The number of the latest alive report of a node over a connection, or -1. */
  function LastReport(events: seq<Event>, node: string, uid: int): int {
    if events == [] then -1
    else
      var before := LastReport(events[..|events| - 1], node, uid);
      match events[|events| - 1]
      case Reported(n, c, _) => if n == node && c.uid == uid then |events| - 1 else before
      case Deleted(n) => if n == node then -1 else before
      case Closed(u) => if u == uid then -1 else before
  }

  lemma {:induction false} LastReportIsAlive(events: seq<Event>, node: string, uid: int)
    ensures -1 <= LastReport(events, node, uid) < |events|
    ensures LastReport(events, node, uid) >= 0 ==> AliveOn(events, node, uid, LastReport(events, node, uid))
    ensures forall i: nat :: AliveOn(events, node, uid, i) ==> i <= LastReport(events, node, uid)
  {
    if events != [] {
      var init, e := events[..|events| - 1], events[|events| - 1];
      assert init + [e] == events;
      LastReportIsAlive(init, node, uid);
      var before, last := LastReport(init, node, uid), LastReport(events, node, uid);
      if 0 <= last < |init| { AliveOneMore(init, e, node, last); }
      forall i: nat | AliveOn(events, node, uid, i) ensures i <= last {
        if i < |init| {
          AliveOneMore(init, e, node, i);
          assert AliveOn(init, node, uid, i);
        }
      }
    }
  }

  ghost predicate Above(events: seq<Event>, node: string, a: int, uids: seq<int>) {
    forall k :: 0 <= k < |uids| ==> LastReport(events, node, a) > LastReport(events, node, uids[k])
  }

  /** A list in the order of the latest alive reports. */
  ghost predicate Descending(events: seq<Event>, node: string, uids: seq<int>) {
    forall i :: 0 <= i < |uids| ==> Above(events, node, uids[i], uids[i + 1..])
  }

  lemma DescendingCons(events: seq<Event>, node: string, a: int, rest: seq<int>)
    ensures Descending(events, node, [a] + rest) <==> Above(events, node, a, rest) && Descending(events, node, rest)
  {
    hide LastReport, Above;
    var all := [a] + rest;
    assert all[1..] == rest;
    assert forall i :: 0 < i < |all| ==> all[i + 1..] == rest[i..] && all[i] == rest[i - 1];
    if Descending(events, node, all) {
      assert Above(events, node, all[0], all[0 + 1..]);
      forall i | 0 <= i < |rest| ensures Above(events, node, rest[i], rest[i + 1..]) {
        assert Above(events, node, all[i + 1], all[i + 2..]);
      }
    }
    if Above(events, node, a, rest) && Descending(events, node, rest) {
      forall i | 0 <= i < |all| ensures Above(events, node, all[i], all[i + 1..]) {
        if i > 0 { assert Above(events, node, rest[i - 1], rest[i - 1 + 1..]); }
      }
    }
  }

  lemma {:induction false} DescendingRemove(events: seq<Event>, node: string, uids: seq<int>, u: int)
    requires Descending(events, node, uids)
    ensures Descending(events, node, Remove(uids, u))
    ensures forall x :: x in Remove(uids, u) <==> x in uids && x != u
  {
    hide Descending, LastReport;
    if uids != [] {
      var a, rest := uids[0], uids[1..];
      assert uids == [a] + rest;
      DescendingCons(events, node, a, rest);
      if a != u {
        DescendingRemove(events, node, rest, u);
        var left := Remove(rest, u);
        forall k | 0 <= k < |left| ensures LastReport(events, node, a) > LastReport(events, node, left[k]) {
          assert left[k] in left;
        }
        DescendingCons(events, node, a, left);
      }
    }
  }

  lemma SameRanks(events: seq<Event>, events': seq<Event>, node: string, uids: seq<int>)
    requires Descending(events, node, uids)
    requires forall u :: u in uids ==> LastReport(events, node, u) == LastReport(events', node, u)
    ensures Descending(events', node, uids)
  {
    hide LastReport;
    forall i | 0 <= i < |uids| ensures Above(events', node, uids[i], uids[i + 1..]) {
      assert Above(events, node, uids[i], uids[i + 1..]);
      var rest := uids[i + 1..];
      assert forall k :: 0 <= k < |rest| ==> rest[k] == uids[i + 1 + k] && rest[k] in uids;
    }
  }

  lemma ReportRanks(events: seq<Event>, node: string)
    requires events != []
    requires events[|events| - 1].Reported? && events[|events| - 1].node == node
    requires Descending(events[..|events| - 1], node, Recency(events[..|events| - 1], node))
    ensures Descending(events, node, Recency(events, node))
  {
    var init, u0 := events[..|events| - 1], events[|events| - 1].current.uid;
    var before, rest := Recency(init, node), Remove(Recency(init, node), u0);
    DescendingRemove(init, node, before, u0);
    assert Recency(events, node) == [u0] + rest;
    hide Recency, Descending, Remove;
    SameRanks(init, events, node, rest);
    forall k | 0 <= k < |rest| ensures LastReport(events, node, u0) > LastReport(events, node, rest[k]) {
      assert rest[k] in rest;
      LastReportIsAlive(init, node, rest[k]);
    }
    DescendingCons(events, node, u0, rest);
  }

  lemma DescendingNone(events: seq<Event>, node: string)
    ensures Descending(events, node, [])
  {
  }

  /** The list holds the connections with an alive report of the node, in the order of the latest such reports. */
  lemma {:induction false} RecencyIsRanked(events: seq<Event>, node: string)
    ensures Descending(events, node, Recency(events, node))
    ensures forall u :: u in Recency(events, node) <==> LastReport(events, node, u) >= 0
  {
    hide Descending, Remove;
    if events == [] {
      DescendingNone(events, node);
    } else {
      var init, e := events[..|events| - 1], events[|events| - 1];
      RecencyIsRanked(init, node);
      var before, uids := Recency(init, node), Recency(events, node);
      if e.Reported? && e.node == node {
        DescendingRemove(init, node, before, e.current.uid);
        ReportRanks(events, node);
      } else {
        if e.Closed? { DescendingRemove(init, node, before, e.uid); }
        if uids == [] { DescendingNone(events, node); } else { SameRanks(init, events, node, uids); }
      }
    }
  }

  function Get(s: Index, node: string): Option<Current> {
    if node in s.nodes && s.nodes[node].uids != [] then Held(s, s.nodes[node].uids[0].uid) else None
  }

  /** Main result: the index has an answer for a node exactly when some report of the node is still alive, and then
      the answer is the connection of the last such report, as that connection last reported. */
  lemma AnswerIsLatestAlive(events: seq<Event>, node: string)
    ensures Get(After(events), node).Some? <==> exists i: nat :: Alive(events, node, i)
    ensures Get(After(events), node).Some? ==>
      var current := Get(After(events), node).value;
      && LatestCurrent(events, current.uid) == Some(current)
      && exists i: nat :: AliveOn(events, node, current.uid, i) && forall j: nat :: Alive(events, node, j) ==> j <= i
  {
    hide After, Recency, LastReport, LatestCurrent, Consistent;
    var s, uids := After(events), Recency(events, node);
    IndexFollowsHistory(events, node, 0);
    RecencyIsRanked(events, node);
    if uids != [] { assert Above(events, node, uids[0], uids[1..]) && uids == [uids[0]] + uids[1..]; }
    forall j: nat | Alive(events, node, j)
      ensures uids != [] && j <= LastReport(events, node, events[j].current.uid) <= LastReport(events, node, uids[0])
    {
      var u := events[j].current.uid;
      assert AliveOn(events, node, u, j);
      LastReportIsAlive(events, node, u);
      assert u in uids;
    }
    if uids != [] {
      var u := uids[0];
      assert u in uids;
      IndexFollowsHistory(events, node, u);
      HeldWhenListed(s, node, u);
      LastReportIsAlive(events, node, u);
      assert Get(s, node) == LatestCurrent(events, u);
    }
  }

  lemma HeldWhenListed(s: Index, node: string, uid: int)
    requires Consistent(s) && uid in Listed(s, node)
    ensures Held(s, uid).Some? && Held(s, uid).value.uid == uid
  {
    ListedIffIterator(s, node, uid);
  }

  lemma OffAmongOneMore(names: set<string>, cells: seq<Cell>, i: nat, uid: int, node: string)
    requires i < |cells|
    ensures OffAmong(names, cells[..i + 1], uid, node)
         == OffAmong(names, cells[..i], uid, node) - if uid == cells[i].uid then {node} else {}
  {
    if uid == cells[i].uid { assert cells[..i + 1][i].uid == uid; }
    if j :| 0 <= j < i && cells[j].uid == uid { assert cells[..i][j].uid == uid && cells[..i + 1][j].uid == uid; }
  }

  lemma DetachFromNone(nodes: map<string, UidList>, uid: int)
    ensures DetachFrom(nodes, {}, uid) == nodes
  {
  }

  lemma DetachFromOthers(nodes: map<string, UidList>, names: set<string>, name: string, uid: int)
    requires name !in names
    ensures name in DetachFrom(nodes, names, uid) <==> name in nodes
    ensures name in nodes ==> DetachFrom(nodes, names, uid)[name] == nodes[name]
  {
  }

  lemma DetachFromOneMore(nodes: map<string, UidList>, names: set<string>, name: string, uid: int)
    requires name !in names
    ensures DetachFrom(nodes, names + {name}, uid) ==
      if name !in nodes then DetachFrom(nodes, names, uid)
      else if Detach(nodes[name], uid).uids == [] then DetachFrom(nodes, names, uid) - {name}
      else DetachFrom(nodes, names, uid)[name := Detach(nodes[name], uid)]
  {
    hide Detach;
  }

  // ----- the index as the program runs it -----

  class NodeManager {
    var mapNodeId: map<string, UidList>
    var mapIdNode: map<int, set<string>>
    var mapIdCurrent: map<int, Current>
    /** The address the next list element gets. */
    var nextAddress: nat

    ghost function Value(): Index
      reads this
    {
      Index(mapNodeId, mapIdNode, mapIdCurrent, nextAddress)
    }

    ghost predicate Valid()
      reads this
    {
      Consistent(Value())
    }

    constructor ()
      ensures Valid() && Value() == EMPTY
    {
      mapNodeId, mapIdNode, mapIdCurrent, nextAddress := map[], map[], map[], 0;
    }

    method CreateNodeCurrent(nodeName: string, current: Current, now: int)
      requires Valid()
      modifies this
      ensures Valid() && Value() == Report(old(Value()), nodeName, current, now)
    {
      hide Consistent, Erase;
      ghost var s := Value();
      ReportKeepsConsistent(s, nodeName, current, now);
      var uid := current.uid;
      if nodeName in mapNodeId {
        var l := mapNodeId[nodeName];
        if uid in l.its {
          l := l.(uids := Erase(l.uids, l.its[uid]));
        }
        l := UidList(now, [Cell(nextAddress, uid)] + l.uids, l.its[uid := nextAddress]);
        mapNodeId := mapNodeId[nodeName := l];
      } else {
        mapNodeId := mapNodeId[nodeName := UidList(now, [Cell(nextAddress, uid)], map[uid := nextAddress])];
      }
      nextAddress := nextAddress + 1;
      if uid in mapIdNode {
        mapIdNode := mapIdNode[uid := mapIdNode[uid] + {nodeName}];
      } else {
        mapIdNode := mapIdNode[uid := {nodeName}];
        assert {} + {nodeName} == {nodeName};
      }
      mapIdCurrent := mapIdCurrent[uid := current];
      assert [Cell(s.nextAddress, uid)] + [] == [Cell(s.nextAddress, uid)];
      assert mapNodeId == Report(s, nodeName, current, now).nodes;
      assert mapIdNode == Report(s, nodeName, current, now).uidNodes;
      assert Value() == Report(s, nodeName, current, now);
    }

    method DeleteNodeCurrent(nodeName: string)
      requires Valid()
      modifies this
      ensures Valid() && Value() == Delete(old(Value()), nodeName)
    {
      hide Consistent;
      ghost var s := Value();
      DeleteKeepsConsistent(s, nodeName);
      if nodeName in mapNodeId {
        var uids := mapNodeId[nodeName].uids;
        for i := 0 to |uids|
          invariant Value() == s.(uidNodes := mapIdNode) && mapIdNode.Keys == s.uidNodes.Keys
          invariant forall u :: u in mapIdNode ==> mapIdNode[u] == OffAmong(s.uidNodes[u], uids[..i], u, nodeName)
        {
          var uid := uids[i].uid;
          forall u | u in mapIdNode
            ensures OffAmong(s.uidNodes[u], uids[..i + 1], u, nodeName)
                 == OffAmong(s.uidNodes[u], uids[..i], u, nodeName) - if u == uid then {nodeName} else {}
          {
            OffAmongOneMore(s.uidNodes[u], uids, i, u, nodeName);
          }
          if uid in mapIdNode {
            mapIdNode := mapIdNode[uid := mapIdNode[uid] - {nodeName}];
          }
        }
        assert uids[..|uids|] == uids;
        mapNodeId := mapNodeId - {nodeName};
        assert mapIdNode == Delete(s, nodeName).uidNodes;
        assert Value() == Delete(s, nodeName);
      }
    }

    /** The lookup of the chosen uid cannot miss, and a listed node always has a connection. */
    method GetNodeCurrent(nodeName: string) returns (current: Option<Current>)
      requires Valid()
      ensures current == Get(Value(), nodeName)
      ensures current.Some? <==> nodeName in mapNodeId
    {
      if nodeName in mapNodeId {
        var uids := mapNodeId[nodeName].uids;
        if uids == [] {
          return None;
        }
        assert nodeName in NamesOn(Value(), uids[0].uid);
        return Some(mapIdCurrent[uids[0].uid]);
      }
      return None;
    }

    method EraseNodeCurrent(uid: int)
      requires Valid()
      modifies this
      ensures Valid() && Value() == Close(old(Value()), uid)
    {
      hide Consistent, DetachFrom, Erase;
      ghost var s := Value();
      CloseKeepsConsistent(s, uid);
      if uid in mapIdNode {
        var names := mapIdNode[uid];
        var left := names;
        assert names - left == {};
        DetachFromNone(s.nodes, uid);
        while left != {}
          invariant left <= names && Value() == s.(nodes := DetachFrom(s.nodes, names - left, uid))
        {
          var nodeName :| nodeName in left;
          DetachFromOneMore(s.nodes, names - left, nodeName, uid);
          DetachFromOthers(s.nodes, names - left, nodeName, uid);
          assert names - (left - {nodeName}) == names - left + {nodeName};
          if nodeName in mapNodeId {
            var l := mapNodeId[nodeName];
            if uid in l.its {
              l := l.(uids := Erase(l.uids, l.its[uid]), its := l.its - {uid});
              mapNodeId := mapNodeId[nodeName := l];
            }
            if l.uids == [] {
              mapNodeId := mapNodeId - {nodeName};
            }
          }
          left := left - {nodeName};
        }
        assert names - {} == names;
        mapIdCurrent := mapIdCurrent - {uid};
        mapIdNode := mapIdNode - {uid};
      }
    }
  }
}
