/** Assembling a trace from log lines that may arrive in any order. */
module TraceAssembly {
  import opened TraceData

  // ----- what one log line does, as a function -----

  /** First writer wins: an empty text takes the new one, any other text stays. */
  function Fill(kept: string, offered: string): string {
    if kept == "" then offered else kept
  }

  function UpdateSpan(l: RawLog, s: Span): (r: Span)
    ensures r.span == s.span && r.children == s.children
  {
    match l.kind
    case Ts | Cs =>
      s.(parent := Fill(s.parent, l.parent), master := Fill(s.master, l.master), slave := Fill(s.slave, l.slave),
         func := Fill(s.func, l.func), csData := Fill(s.csData, l.data), csTime := l.time)
    case Te | Cr =>
      s.(parent := Fill(s.parent, l.parent), master := Fill(s.master, l.master), slave := Fill(s.slave, l.slave),
         func := Fill(s.func, l.func), ret := Fill(s.ret, l.ret), crData := Fill(s.crData, l.data), crTime := l.time)
    case Sr =>
      s.(slave := Fill(s.slave, l.slave), func := Fill(s.func, l.func), srData := Fill(s.srData, l.data),
         srTime := l.time)
    case Ss =>
      s.(slave := Fill(s.slave, l.slave), func := Fill(s.func, l.func), ret := Fill(s.ret, l.ret),
         ssData := Fill(s.ssData, l.data), ssTime := l.time)
    case Other => s
  }

  function AddChild(children: seq<string>, c: string): seq<string> {
    if c in children then children else children + [c]
  }

  /** The span list with s stored under its own id: in place of the first span of that id, else at the end. */
  function Put(spans: seq<Span>, s: Span): seq<Span> {
    if spans == [] then [s]
    else if spans[0].span == s.span then [s] + spans[1..]
    else [spans[0]] + Put(spans[1..], s)
  }

  predicate OpensRoot(l: RawLog) {
    l.kind == Ts || (l.kind == Cs && l.parent == l.span)
  }

  predicate ClosesRoot(l: RawLog) {
    l.kind == Te || (l.kind == Cr && l.parent == l.span)
  }

  /** A caller-side line whose parent is another span makes this span a child of that one. */
  predicate IsLink(l: RawLog) {
    (l.kind == Cs || l.kind == Cr) && l.parent != l.span
  }

  function UpdateHeader(l: RawLog, t: Trace): (r: Trace)
    ensures r.spans == t.spans
  {
    var t := t.(trace := Fill(t.trace, l.trace));
    if OpensRoot(l) then t.(tsTime := l.time, tSpan := Fill(t.tSpan, l.span), tMaster := Fill(t.tMaster, l.master))
    else if ClosesRoot(l)
    then t.(teTime := l.time, tSpan := Fill(t.tSpan, l.span), tMaster := Fill(t.tMaster, l.master))
    else t
  }

  function LinkSpans(l: RawLog, spans: seq<Span>): seq<Span> {
    if IsLink(l) then
      var p := Lookup(spans, l.parent);
      Put(spans, p.(children := AddChild(p.children, l.span)))
    else spans
  }

  function UpdateTrace(l: RawLog, t: Trace): Trace {
    var spans := LinkSpans(l, t.spans);
    UpdateHeader(l, t).(spans := Put(spans, UpdateSpan(l, Lookup(spans, l.span))))
  }

  /** The trace that a whole sequence of log lines builds. */
  function Assemble(logs: seq<RawLog>): Trace {
    if logs == [] then EMPTY_TRACE
    else UpdateTrace(logs[|logs| - 1], Assemble(logs[..|logs| - 1]))
  }

  // ----- the span list as a map -----

  lemma {:induction false} LookupPut(spans: seq<Span>, s: Span, id: string)
    ensures Lookup(Put(spans, s), id) == if id == s.span then s else Lookup(spans, id)
  {
    if spans != [] && spans[0].span != s.span {
      LookupPut(spans[1..], s, id);
      assert ([spans[0]] + Put(spans[1..], s))[1..] == Put(spans[1..], s);
    }
  }

  lemma {:induction false} PutMembers(spans: seq<Span>, s: Span)
    ensures s in Put(spans, s)
    ensures forall x :: x in Put(spans, s) ==> x == s || x in spans
    ensures forall x :: x in spans && x.span != s.span ==> x in Put(spans, s)
    ensures forall id :: Known(Put(spans, s), id) <==> id == s.span || Known(spans, id)
  {
    if spans != [] {
      var rest := spans[1..];
      assert spans == [spans[0]] + rest;
      if spans[0].span == s.span {
      } else {
        PutMembers(rest, s);
      }
      forall id ensures Known(spans, id) <==> spans[0].span == id || Known(rest, id) { KnownCons(spans[0], rest, id); }
      if spans[0].span != s.span {
        forall id ensures Known(Put(spans, s), id) <==> spans[0].span == id || Known(Put(rest, s), id) {
          KnownCons(spans[0], Put(rest, s), id);
        }
      } else {
        forall id ensures Known(Put(spans, s), id) <==> s.span == id || Known(rest, id) { KnownCons(s, rest, id); }
      }
    } else {
      assert Put(spans, s)[0] == s;
    }
  }

  lemma KnownCons(s: Span, rest: seq<Span>, id: string)
    ensures Known([s] + rest, id) <==> s.span == id || Known(rest, id)
  {
    var all := [s] + rest;
    if s.span == id { assert all[0].span == id; }
    if Known(rest, id) {
      var i :| 0 <= i < |rest| && rest[i].span == id;
      assert all[i + 1].span == id;
    }
    if Known(all, id) && s.span != id {
      var i :| 0 <= i < |all| && all[i].span == id;
      assert rest[i - 1].span == id;
    }
  }

  lemma {:induction false} PutDistinct(spans: seq<Span>, s: Span)
    requires DistinctIds(spans)
    ensures DistinctIds(Put(spans, s))
  {
    if spans != [] && spans[0].span != s.span {
      var rest := spans[1..];
      PutDistinct(rest, s);
      PutMembers(rest, s);
      forall j | 0 <= j < |Put(rest, s)| ensures Put(rest, s)[j].span != spans[0].span {
        assert Put(rest, s)[j] in Put(rest, s);
      }
    }
  }

  // ----- what a reader of the trace can observe -----

  datatype Field = Parent | Master | Slave | Func | Ret | CsData | CrData | SrData | SsData
  datatype Slot = CsSlot | CrSlot | SrSlot | SsSlot

  /** Every text a trace holds, by where it is held. */
  datatype TextKey = TraceName | RootSpan | RootMaster | SpanText(id: string, field: Field)

  /** Every time a trace holds. */
  datatype TimeKey = RootStart | RootEnd | SpanTime(id: string, slot: Slot)

  function SpanField(s: Span, f: Field): string {
    match f
    case Parent => s.parent case Master => s.master case Slave => s.slave case Func => s.func case Ret => s.ret
    case CsData => s.csData case CrData => s.crData case SrData => s.srData case SsData => s.ssData
  }

  function SpanSlot(s: Span, slot: Slot): int {
    match slot case CsSlot => s.csTime case CrSlot => s.crTime case SrSlot => s.srTime case SsSlot => s.ssTime
  }

  function Text(t: Trace, k: TextKey): string {
    match k
    case TraceName => t.trace
    case RootSpan => t.tSpan
    case RootMaster => t.tMaster
    case SpanText(id, f) => SpanField(Lookup(t.spans, id), f)
  }

  function Time(t: Trace, k: TimeKey): int {
    match k
    case RootStart => t.tsTime
    case RootEnd => t.teTime
    case SpanTime(id, slot) => SpanSlot(Lookup(t.spans, id), slot)
  }

  /** Two traces that differ at most in the order of their spans and of a span's children. */
  ghost predicate SameView(t: Trace, u: Trace) {
    && t.(spans := []) == u.(spans := [])
    && (forall id :: Known(t.spans, id) <==> Known(u.spans, id))
    && (forall id :: Lookup(t.spans, id).(children := []) == Lookup(u.spans, id).(children := []))
    && (forall p, c :: Linked(t.spans, p, c) <==> Linked(u.spans, p, c))
  }

  // ----- what one log line writes -----

  /** The text a line offers for a key; "" when it offers none. */
  function Offer(l: RawLog, k: TextKey): string {
    match k
    case TraceName => l.trace
    case RootSpan => if OpensRoot(l) || ClosesRoot(l) then l.span else ""
    case RootMaster => if OpensRoot(l) || ClosesRoot(l) then l.master else ""
    case SpanText(id, f) =>
      if id != l.span || l.kind == Other then ""
      else
        match f
        case Parent => if l.kind in {Sr, Ss} then "" else l.parent
        case Master => if l.kind in {Sr, Ss} then "" else l.master
        case Slave => l.slave
        case Func => l.func
        case Ret => if l.kind in {Te, Cr, Ss} then l.ret else ""
        case CsData => if l.kind in {Ts, Cs} then l.data else ""
        case CrData => if l.kind in {Te, Cr} then l.data else ""
        case SrData => if l.kind == Sr then l.data else ""
        case SsData => if l.kind == Ss then l.data else ""
  }

  predicate Stamps(l: RawLog, k: TimeKey) {
    match k
    case RootStart => OpensRoot(l)
    case RootEnd => ClosesRoot(l)
    case SpanTime(id, slot) =>
      id == l.span &&
      match slot
      case CsSlot => l.kind in {Ts, Cs}
      case CrSlot => l.kind in {Te, Cr}
      case SrSlot => l.kind == Sr
      case SsSlot => l.kind == Ss
  }

  lemma UpdateLookup(l: RawLog, t: Trace, id: string)
    ensures var s := Lookup(UpdateTrace(l, t).spans, id);
            var s0 := Lookup(t.spans, id);
            && s.children == (if IsLink(l) && id == l.parent then AddChild(s0.children, l.span) else s0.children)
            && s.(children := []) == (if id == l.span then UpdateSpan(l, s0) else s0).(children := [])
  {
    var spans := LinkSpans(l, t.spans);
    LookupPut(spans, UpdateSpan(l, Lookup(spans, l.span)), id);
    if IsLink(l) {
      var p := Lookup(t.spans, l.parent);
      LookupPut(t.spans, p.(children := AddChild(p.children, l.span)), id);
      LookupPut(t.spans, p.(children := AddChild(p.children, l.span)), l.span);
    }
  }

  lemma UpdateKnown(l: RawLog, t: Trace, id: string)
    ensures Known(UpdateTrace(l, t).spans, id) <==> Known(t.spans, id) || id == l.span || (IsLink(l) && id == l.parent)
  {
    var spans := LinkSpans(l, t.spans);
    PutMembers(spans, UpdateSpan(l, Lookup(spans, l.span)));
    if IsLink(l) {
      var p := Lookup(t.spans, l.parent);
      PutMembers(t.spans, p.(children := AddChild(p.children, l.span)));
    }
  }

  lemma SpanWrites(l: RawLog, s: Span, f: Field, slot: Slot)
    requires s.span == l.span
    ensures SpanField(UpdateSpan(l, s), f) == Fill(SpanField(s, f), Offer(l, SpanText(l.span, f)))
    ensures SpanSlot(UpdateSpan(l, s), slot) == if Stamps(l, SpanTime(l.span, slot)) then l.time else SpanSlot(s, slot)
  {
  }

  lemma SpanFieldSkipsChildren(s: Span, u: Span, f: Field, slot: Slot)
    requires s.(children := []) == u.(children := [])
    ensures SpanField(s, f) == SpanField(u, f) && SpanSlot(s, slot) == SpanSlot(u, slot)
  {
    assert SpanField(s, f) == SpanField(s.(children := []), f) && SpanField(u, f) == SpanField(u.(children := []), f);
    assert SpanSlot(s, slot) == SpanSlot(s.(children := []), slot);
    assert SpanSlot(u, slot) == SpanSlot(u.(children := []), slot);
  }

  /** Every text is first-writer-wins: a line fills a text with what it offers, if the text is still empty. */
  lemma UpdateWritesText(l: RawLog, t: Trace, k: TextKey)
    ensures Text(UpdateTrace(l, t), k) == Fill(Text(t, k), Offer(l, k))
  {
    if k.SpanText? {
      UpdateLookup(l, t, k.id);
      var s0 := Lookup(t.spans, k.id);
      var s := if k.id == l.span then UpdateSpan(l, s0) else s0;
      SpanFieldSkipsChildren(Lookup(UpdateTrace(l, t).spans, k.id), s, k.field, CsSlot);
      if k.id == l.span { SpanWrites(l, s0, k.field, CsSlot); }
    }
  }

  /** Every time is last-writer-wins. */
  lemma UpdateWritesTime(l: RawLog, t: Trace, h: TimeKey)
    ensures Time(UpdateTrace(l, t), h) == if Stamps(l, h) then l.time else Time(t, h)
  {
    if h.SpanTime? {
      UpdateLookup(l, t, h.id);
      var s0 := Lookup(t.spans, h.id);
      var s := if h.id == l.span then UpdateSpan(l, s0) else s0;
      SpanFieldSkipsChildren(Lookup(UpdateTrace(l, t).spans, h.id), s, Parent, h.slot);
      if h.id == l.span { SpanWrites(l, s0, Parent, h.slot); }
    }
  }

  /** What a line does to the trace itself, by its kind, parent and span. A ts line, or a cs line that is its own
      parent, sets the start; a te or such a cr line sets the end; these four fill the root and its master. */
  lemma LineSetsRoot(l: RawLog, t: Trace)
    ensures var u := UpdateTrace(l, t);
      var opens := l.kind == Ts || (l.kind == Cs && l.parent == l.span);
      var closes := l.kind == Te || (l.kind == Cr && l.parent == l.span);
      && u.tsTime == (if opens then l.time else t.tsTime)
      && u.teTime == (if closes then l.time else t.teTime)
      && u.tSpan == (if (opens || closes) && t.tSpan == "" then l.span else t.tSpan)
      && u.tMaster == (if (opens || closes) && t.tMaster == "" then l.master else t.tMaster)
      && u.trace == (if t.trace == "" then l.trace else t.trace)
  {
  }

  /** A cs or cr line with another parent makes its span a child of that one, and no other line links anything. */
  lemma LineLinks(l: RawLog, t: Trace, p: string, c: string)
    ensures Linked(UpdateTrace(l, t).spans, p, c) <==>
      Linked(t.spans, p, c) || (l.kind in {Cs, Cr} && l.parent == p != c == l.span)
  {
    UpdateLookup(l, t, p);
  }

  /** A span is known afterwards iff it was, or is the line's own, or the other parent that a cs or cr line names. */
  lemma LineMentions(l: RawLog, t: Trace, id: string)
    ensures Known(UpdateTrace(l, t).spans, id) <==>
      Known(t.spans, id) || id == l.span || (l.kind in {Cs, Cr} && id == l.parent)
  {
    UpdateKnown(l, t, id);
  }

  // ----- the closed form of a whole run -----

  function FirstOffer(logs: seq<RawLog>, k: TextKey): string {
    if logs == [] then "" else Fill(FirstOffer(logs[..|logs| - 1], k), Offer(logs[|logs| - 1], k))
  }

  function LastStamp(logs: seq<RawLog>, k: TimeKey): int {
    if logs == [] then 0
    else if Stamps(logs[|logs| - 1], k) then logs[|logs| - 1].time
    else LastStamp(logs[..|logs| - 1], k)
  }

  lemma NothingWritten(k: TextKey, h: TimeKey)
    ensures Text(EMPTY_TRACE, k) == "" && Time(EMPTY_TRACE, h) == 0
  {
  }

  lemma {:induction false} AssembleWrites(logs: seq<RawLog>, k: TextKey, h: TimeKey)
    ensures Text(Assemble(logs), k) == FirstOffer(logs, k)
    ensures Time(Assemble(logs), h) == LastStamp(logs, h)
  {
    hide UpdateTrace, Fill, Offer, Stamps;
    if logs == [] {
      NothingWritten(k, h);
    } else {
      AssembleWrites(logs[..|logs| - 1], k, h);
      UpdateWritesText(logs[|logs| - 1], Assemble(logs[..|logs| - 1]), k);
      UpdateWritesTime(logs[|logs| - 1], Assemble(logs[..|logs| - 1]), h);
    }
  }

  ghost predicate Mentions(logs: seq<RawLog>, id: string) {
    exists l :: l in logs && (id == l.span || (IsLink(l) && id == l.parent))
  }

  ghost predicate Links(logs: seq<RawLog>, p: string, c: string) {
    exists l :: l in logs && IsLink(l) && l.parent == p && l.span == c
  }

  lemma NothingKnown(id: string)
    ensures !Known(EMPTY_TRACE.spans, id)
  {
  }

  /** The spans of a trace are exactly the ids its lines mention. */
  lemma {:induction false} AssembleKnown(logs: seq<RawLog>, id: string)
    ensures Known(Assemble(logs).spans, id) <==> Mentions(logs, id)
  {
    hide UpdateTrace, Known;
    if logs == [] {
      NothingKnown(id);
    } else {
      var init, l := logs[..|logs| - 1], logs[|logs| - 1];
      AssembleKnown(init, id);
      UpdateKnown(l, Assemble(init), id);
      assert forall x :: x in logs <==> x in init || x == l by { assert logs == init + [l]; }
    }
  }

  lemma NothingLinked(p: string, c: string)
    ensures !Linked(EMPTY_TRACE.spans, p, c)
  {
  }

  lemma UpdateLinked(l: RawLog, t: Trace, p: string, c: string)
    ensures Linked(UpdateTrace(l, t).spans, p, c) <==>
            Linked(t.spans, p, c) || (IsLink(l) && l.parent == p && l.span == c)
  {
    UpdateLookup(l, t, p);
  }

  /** Its parent-child pairs are exactly those its caller-side lines state. */
  lemma {:induction false} AssembleLinked(logs: seq<RawLog>, p: string, c: string)
    ensures Linked(Assemble(logs).spans, p, c) <==> Links(logs, p, c)
  {
    hide UpdateTrace, Linked;
    if logs == [] {
      assert !Linked(EMPTY_TRACE.spans, p, c) by { NothingLinked(p, c); }
    } else {
      var init, l := logs[..|logs| - 1], logs[|logs| - 1];
      AssembleLinked(init, p, c);
      UpdateLinked(l, Assemble(init), p, c);
      assert forall x :: x in logs <==> x in init || x == l by { assert logs == init + [l]; }
    }
  }

  // ----- order independence -----

  /** Two lines that can be applied in either order: for no key do they offer two different texts, and
      for no time slot do they stamp two different times. */
  ghost predicate Consistent(a: RawLog, b: RawLog) {
    && (forall k :: Offer(a, k) != "" && Offer(b, k) != "" ==> Offer(a, k) == Offer(b, k))
    && (forall k :: Stamps(a, k) && Stamps(b, k) ==> a.time == b.time)
  }

  ghost predicate AllConsistent(logs: seq<RawLog>) {
    forall a, b :: a in logs && b in logs ==> Consistent(a, b)
  }

  lemma {:induction false} FirstOfferSource(logs: seq<RawLog>, k: TextKey)
    ensures FirstOffer(logs, k) == "" ==> forall l :: l in logs ==> Offer(l, k) == ""
    ensures FirstOffer(logs, k) != "" ==> exists l :: l in logs && Offer(l, k) == FirstOffer(logs, k)
  {
    if logs != [] {
      var init, l := logs[..|logs| - 1], logs[|logs| - 1];
      FirstOfferSource(init, k);
      assert logs == init + [l];
    }
  }

  lemma {:induction false} LastStampSource(logs: seq<RawLog>, k: TimeKey)
    ensures (exists l :: l in logs && Stamps(l, k) && l.time == LastStamp(logs, k))
         || (LastStamp(logs, k) == 0 && forall l :: l in logs ==> !Stamps(l, k))
  {
    if logs != [] {
      var init, l := logs[..|logs| - 1], logs[|logs| - 1];
      LastStampSource(init, k);
      assert logs == init + [l];
    }
  }

  lemma SameElements(p: seq<RawLog>, q: seq<RawLog>)
    requires multiset(p) == multiset(q)
    ensures forall l :: l in p <==> l in q
  {
    forall l ensures l in p <==> l in q {
      assert l in p <==> l in multiset(p);
      assert l in q <==> l in multiset(q);
    }
  }

  lemma ConsistentTexts(p: seq<RawLog>, q: seq<RawLog>, k: TextKey)
    requires (forall l :: l in p <==> l in q) && AllConsistent(p)
    ensures FirstOffer(p, k) == FirstOffer(q, k)
  {
    FirstOfferSource(p, k);
    FirstOfferSource(q, k);
    if FirstOffer(p, k) != "" && FirstOffer(q, k) != "" {
      var a :| a in p && Offer(a, k) == FirstOffer(p, k);
      var b :| b in q && Offer(b, k) == FirstOffer(q, k);
      assert Consistent(a, b);
    }
  }

  lemma ConsistentTimes(p: seq<RawLog>, q: seq<RawLog>, h: TimeKey)
    requires (forall l :: l in p <==> l in q) && AllConsistent(p)
    ensures LastStamp(p, h) == LastStamp(q, h)
  {
    LastStampSource(p, h);
    LastStampSource(q, h);
    if (exists a :: a in p && Stamps(a, h) && a.time == LastStamp(p, h))
       && (exists b :: b in q && Stamps(b, h) && b.time == LastStamp(q, h)) {
      var a :| a in p && Stamps(a, h) && a.time == LastStamp(p, h);
      var b :| b in q && Stamps(b, h) && b.time == LastStamp(q, h);
      assert Consistent(a, b);
    }
  }

  lemma ConsistentRunsAgree(p: seq<RawLog>, q: seq<RawLog>)
    requires multiset(p) == multiset(q) && AllConsistent(p)
    ensures SameView(Assemble(p), Assemble(q))
  {
    var t, u := Assemble(p), Assemble(q);
    SameElements(p, q);
    forall k ensures Text(t, k) == Text(u, k) {
      AssembleWrites(p, k, RootStart);
      AssembleWrites(q, k, RootStart);
      ConsistentTexts(p, q, k);
    }
    forall h ensures Time(t, h) == Time(u, h) {
      AssembleWrites(p, TraceName, h);
      AssembleWrites(q, TraceName, h);
      ConsistentTimes(p, q, h);
    }
    forall id ensures Known(t.spans, id) <==> Known(u.spans, id) {
      AssembleKnown(p, id);
      AssembleKnown(q, id);
    }
    forall id, c ensures Linked(t.spans, id, c) <==> Linked(u.spans, id, c) {
      AssembleLinked(p, id, c);
      AssembleLinked(q, id, c);
    }
    SameKeysSameView(t, u);
  }

  lemma SameKeysSameView(t: Trace, u: Trace)
    requires forall k :: Text(t, k) == Text(u, k)
    requires forall h :: Time(t, h) == Time(u, h)
    requires forall id :: Known(t.spans, id) <==> Known(u.spans, id)
    requires forall p, c :: Linked(t.spans, p, c) <==> Linked(u.spans, p, c)
    ensures SameView(t, u)
  {
    assert Text(t, TraceName) == Text(u, TraceName) && Text(t, RootSpan) == Text(u, RootSpan);
    assert Text(t, RootMaster) == Text(u, RootMaster);
    assert Time(t, RootStart) == Time(u, RootStart) && Time(t, RootEnd) == Time(u, RootEnd);
    forall id ensures Lookup(t.spans, id).(children := []) == Lookup(u.spans, id).(children := []) {
      var a, b := Lookup(t.spans, id), Lookup(u.spans, id);
      forall f ensures SpanField(a, f) == SpanField(b, f) {
        assert Text(t, SpanText(id, f)) == Text(u, SpanText(id, f));
      }
      forall s ensures SpanSlot(a, s) == SpanSlot(b, s) { assert Time(t, SpanTime(id, s)) == Time(u, SpanTime(id, s)); }
      assert SpanField(a, Parent) == SpanField(b, Parent) && SpanField(a, Master) == SpanField(b, Master);
      assert SpanField(a, Slave) == SpanField(b, Slave) && SpanField(a, Func) == SpanField(b, Func);
      assert SpanField(a, Ret) == SpanField(b, Ret) && SpanField(a, CsData) == SpanField(b, CsData);
      assert SpanField(a, CrData) == SpanField(b, CrData) && SpanField(a, SrData) == SpanField(b, SrData);
      assert SpanField(a, SsData) == SpanField(b, SsData);
      assert SpanSlot(a, CsSlot) == SpanSlot(b, CsSlot) && SpanSlot(a, CrSlot) == SpanSlot(b, CrSlot);
      assert SpanSlot(a, SrSlot) == SpanSlot(b, SrSlot) && SpanSlot(a, SsSlot) == SpanSlot(b, SsSlot);
    }
  }

  function Without(logs: seq<RawLog>, i: nat): (r: seq<RawLog>)
    requires i < |logs|
    ensures multiset(r) + multiset{logs[i]} == multiset(logs)
  {
    assert logs == logs[..i] + [logs[i]] + logs[i + 1..];
    logs[..i] + logs[i + 1..]
  }

  /** A line put first decides every text it offers; a line put last decides every time it stamps. */
  lemma {:induction false} FirstAndLastWord(l: RawLog, rest: seq<RawLog>, k: TextKey, h: TimeKey)
    ensures Offer(l, k) != "" ==> FirstOffer([l] + rest, k) == Offer(l, k)
    ensures Stamps(l, h) ==> LastStamp(rest + [l], h) == l.time
  {
    var first := [l] + rest;
    if rest == [] {
      assert first[..0] == [];
    } else {
      FirstAndLastWord(l, rest[..|rest| - 1], k, h);
      assert first[..|first| - 1] == [l] + rest[..|rest| - 1];
    }
  }

  lemma InconsistentRunsDiffer(logs: seq<RawLog>, i: nat, j: nat) returns (p: seq<RawLog>, q: seq<RawLog>)
    requires i < |logs| && j < |logs| && !Consistent(logs[i], logs[j])
    ensures multiset(p) == multiset(logs) == multiset(q)
    ensures !SameView(Assemble(p), Assemble(q))
  {
    var a, b := logs[i], logs[j];
    if k :| Offer(a, k) != "" && Offer(b, k) != "" && Offer(a, k) != Offer(b, k) {
      p, q := [a] + Without(logs, i), [b] + Without(logs, j);
      FirstAndLastWord(a, Without(logs, i), k, RootStart);
      FirstAndLastWord(b, Without(logs, j), k, RootStart);
      AssembleWrites(p, k, RootStart);
      AssembleWrites(q, k, RootStart);
      assert Text(Assemble(p), k) != Text(Assemble(q), k);
    } else {
      var h :| Stamps(a, h) && Stamps(b, h) && a.time != b.time;
      p, q := Without(logs, i) + [a], Without(logs, j) + [b];
      FirstAndLastWord(a, Without(logs, i), TraceName, h);
      FirstAndLastWord(b, Without(logs, j), TraceName, h);
      AssembleWrites(p, TraceName, h);
      AssembleWrites(q, TraceName, h);
      assert Time(Assemble(p), h) != Time(Assemble(q), h);
    }
    if SameView(Assemble(p), Assemble(q)) {
      ViewDecides(Assemble(p), Assemble(q));
    }
  }

  lemma ViewDecides(t: Trace, u: Trace)
    requires SameView(t, u)
    ensures forall k :: Text(t, k) == Text(u, k)
    ensures forall h :: Time(t, h) == Time(u, h)
  {
    var t0, u0 := t.(spans := []), u.(spans := []);
    assert t0 == u0;
    forall k ensures Text(t, k) == Text(u, k) {
      if k.SpanText? {
        assert Lookup(t.spans, k.id).(children := []) == Lookup(u.spans, k.id).(children := []);
        assert SpanField(Lookup(t.spans, k.id).(children := []), k.field) == SpanField(Lookup(t.spans, k.id), k.field);
        assert SpanField(Lookup(u.spans, k.id).(children := []), k.field) == SpanField(Lookup(u.spans, k.id), k.field);
      } else {
        assert Text(t0, k) == Text(t, k) && Text(u0, k) == Text(u, k);
      }
    }
    forall h ensures Time(t, h) == Time(u, h) {
      if h.SpanTime? {
        assert Lookup(t.spans, h.id).(children := []) == Lookup(u.spans, h.id).(children := []);
        assert SpanSlot(Lookup(t.spans, h.id).(children := []), h.slot) == SpanSlot(Lookup(t.spans, h.id), h.slot);
        assert SpanSlot(Lookup(u.spans, h.id).(children := []), h.slot) == SpanSlot(Lookup(u.spans, h.id), h.slot);
      } else {
        assert Time(t0, h) == Time(t, h) && Time(u0, h) == Time(u, h);
      }
    }
  }

  /** Main result: every order of the same lines builds the same trace if and only if no two of the lines
      contradict each other. */
  lemma OrderIndependence(logs: seq<RawLog>)
    ensures AllConsistent(logs) <==>
            forall p, q :: multiset(p) == multiset(logs) && multiset(q) == multiset(logs)
                           ==> SameView(Assemble(p), Assemble(q))
  {
    if AllConsistent(logs) {
      forall p, q | multiset(p) == multiset(logs) && multiset(q) == multiset(logs)
        ensures SameView(Assemble(p), Assemble(q))
      {
        SameElements(p, logs);
        ConsistentRunsAgree(p, q);
      }
    } else {
      var a, b :| a in logs && b in logs && !Consistent(a, b);
      var i :| 0 <= i < |logs| && logs[i] == a;
      var j :| 0 <= j < |logs| && logs[j] == b;
      var p, q := InconsistentRunsDiffer(logs, i, j);
    }
  }

  // ----- what every trace satisfies -----

  predicate NoRepeats(xs: seq<string>) {
    forall i, j :: 0 <= i < j < |xs| ==> xs[i] != xs[j]
  }

  ghost predicate SpanOk(s: Span, spans: seq<Span>) {
    NoRepeats(s.children) && s.span !in s.children && forall c :: c in s.children ==> Known(spans, c)
  }

  ghost predicate WellFormed(t: Trace) {
    && DistinctIds(t.spans)
    && (forall s :: s in t.spans ==> SpanOk(s, t.spans))
    && (t.tSpan != "" ==> Known(t.spans, t.tSpan))
  }

  lemma PutKeepsOk(spans: seq<Span>, s: Span, extra: string)
    requires DistinctIds(spans) && forall x :: x in spans ==> SpanOk(x, spans)
    requires NoRepeats(s.children) && s.span !in s.children
    requires forall c :: c in s.children ==> Known(spans, c) || c == extra
    ensures DistinctIds(Put(spans, s))
    ensures forall x :: x in Put(spans, s) ==> NoRepeats(x.children) && x.span !in x.children
    ensures forall x, c :: x in Put(spans, s) && c in x.children ==> Known(Put(spans, s), c) || c == extra
  {
    PutDistinct(spans, s);
    PutMembers(spans, s);
  }

  lemma LookupOk(spans: seq<Span>, id: string)
    requires forall x :: x in spans ==> SpanOk(x, spans)
    ensures SpanOk(Lookup(spans, id), spans)
  {
    if Known(spans, id) { LookupMember(spans, id); } else { LookupUnknown(spans, id); }
  }

  lemma LinkKeepsOk(l: RawLog, spans: seq<Span>)
    requires DistinctIds(spans) && forall x :: x in spans ==> SpanOk(x, spans)
    ensures var r := LinkSpans(l, spans);
      && DistinctIds(r)
      && (forall x :: x in r ==> NoRepeats(x.children) && x.span !in x.children)
      && (forall x, c :: x in r && c in x.children ==> Known(r, c) || c == l.span)
  {
    if IsLink(l) {
      var p := Lookup(spans, l.parent);
      LookupOk(spans, l.parent);
      PutKeepsOk(spans, p.(children := AddChild(p.children, l.span)), l.span);
    }
  }

  lemma PutPresentOk(spans: seq<Span>, s: Span)
    requires DistinctIds(spans)
    requires forall x :: x in spans ==> NoRepeats(x.children) && x.span !in x.children
    requires forall x, c :: x in spans && c in x.children ==> Known(spans, c) || c == s.span
    requires s.children == Lookup(spans, s.span).children
    ensures DistinctIds(Put(spans, s)) && forall x :: x in Put(spans, s) ==> SpanOk(x, Put(spans, s))
  {
    PutDistinct(spans, s);
    PutMembers(spans, s);
    if Known(spans, s.span) { LookupMember(spans, s.span); } else { LookupUnknown(spans, s.span); }
  }

  /** No step can break the shape of a trace: ids stay distinct, a span's children stay duplicate-free, never
      include the span itself and are all present, and the root is present once it is named. */
  lemma UpdateKeepsWellFormed(l: RawLog, t: Trace)
    requires WellFormed(t)
    ensures WellFormed(UpdateTrace(l, t))
  {
    var spans := LinkSpans(l, t.spans);
    LinkKeepsOk(l, t.spans);
    PutPresentOk(spans, UpdateSpan(l, Lookup(spans, l.span)));
    UpdateKnown(l, t, UpdateTrace(l, t).tSpan);
  }

  lemma {:induction false} AssembledIsWellFormed(logs: seq<RawLog>)
    ensures WellFormed(Assemble(logs))
  {
    if logs != [] {
      AssembledIsWellFormed(logs[..|logs| - 1]);
      UpdateKeepsWellFormed(logs[|logs| - 1], Assemble(logs[..|logs| - 1]));
    }
  }

  // ----- the assembler as the program runs it -----

  lemma {:induction false} PutAt(spans: seq<Span>, i: nat, s: Span)
    requires i <= |spans|
    requires forall j :: 0 <= j < i ==> spans[j].span != s.span
    requires i < |spans| ==> spans[i].span == s.span
    ensures Put(spans, s) == if i < |spans| then spans[i := s] else spans + [s]
    ensures Lookup(spans, s.span) == if i < |spans| then spans[i] else EmptySpan(s.span)
  {
    if i > 0 {
      PutAt(spans[1..], i - 1, s);
    }
  }

  /** A trace under construction: the fields the assembler overwrites in place. */
  class TraceBuilder {
    var trace: string
    var tSpan: string
    var tMaster: string
    var tsTime: int
    var teTime: int
    var spans: seq<Span>

    ghost function Value(): Trace
      reads this
    {
      Trace(trace, tSpan, tMaster, tsTime, teTime, spans)
    }

    constructor ()
      ensures Value() == EMPTY_TRACE
    {
      trace, tSpan, tMaster, tsTime, teTime, spans := "", "", "", 0, 0, [];
    }

    constructor Of(t: Trace)
      ensures Value() == t
    {
      trace, tSpan, tMaster, tsTime, teTime, spans := t.trace, t.tSpan, t.tMaster, t.tsTime, t.teTime, t.spans;
    }

    /** Position of the span called id, which is appended when it is missing. */
    method FindOrAdd(id: string) returns (i: nat)
      modifies this`spans
      ensures i < |spans| && spans[i] == Lookup(old(spans), id)
      ensures forall s: Span :: s.span == id ==> spans[i := s] == Put(old(spans), s)
    {
      i := 0;
      while i < |spans| && spans[i].span != id
        invariant i <= |spans|
        invariant forall j :: 0 <= j < i ==> spans[j].span != id
      {
        i := i + 1;
      }
      forall s: Span | s.span == id
        ensures Put(spans, s) == if i < |spans| then spans[i := s] else spans + [s]
        ensures Lookup(spans, id) == if i < |spans| then spans[i] else EmptySpan(id)
      {
        PutAt(spans, i, s);
      }
      assert EmptySpan(id).span == id;
      if i == |spans| {
        spans := spans + [EmptySpan(id)];
      }
    }

    method InsertChild(i: nat, child: string)
      requires i < |spans|
      modifies this`spans
      ensures spans == old(spans)[i := old(spans)[i].(children := AddChild(old(spans)[i].children, child))]
    {
      var children := spans[i].children;
      for j := 0 to |children|
        invariant child !in children[..j]
      {
        if children[j] == child {
          assert spans == spans[i := spans[i].(children := children)];
          return;
        }
      }
      spans := spans[i := spans[i].(children := children + [child])];
    }

    method Update(l: RawLog)
      modifies this
      ensures Value() == UpdateTrace(l, old(Value()))
    {
      if trace == "" { trace := l.trace; }
      if OpensRoot(l) || ClosesRoot(l) {
        if OpensRoot(l) { tsTime := l.time; } else { teTime := l.time; }
        if tSpan == "" { tSpan := l.span; }
        if tMaster == "" { tMaster := l.master; }
      } else if l.kind == Cs || l.kind == Cr {
        var p := FindOrAdd(l.parent);
        InsertChild(p, l.span);
      }
      label linked:
      assert spans == LinkSpans(l, old(spans));
      var i := FindOrAdd(l.span);
      spans := spans[i := UpdateSpan(l, spans[i])];
      assert spans == Put(old@linked(spans), UpdateSpan(l, Lookup(old@linked(spans), l.span)));
    }
  }
}
