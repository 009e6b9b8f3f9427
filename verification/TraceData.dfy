/** The records that the trace pipeline passes around: one parsed log line, the
    spans it contributes to, and the trace that collects the spans. */
module TraceData {

  /** The `type` column of a log line.  Ts/te open and close a whole trace, cs/cr
      are the caller's two ends of a call, sr/ss the callee's.  Any other text
      falls through every branch of the assembler. */
  datatype LogKind = Ts | Te | Cs | Cr | Sr | Ss | Other

  datatype RawLog = RawLog(
    trace: string, span: string, parent: string, kind: LogKind, master: string,
    slave: string, func: string, time: int, ret: string, data: string)

  datatype Span = Span(
    span: string, parent: string, master: string, slave: string, func: string,
    csTime: int, crTime: int, srTime: int, ssTime: int,
    csData: string, crData: string, srData: string, ssData: string,
    ret: string, children: seq<string>)

  datatype Trace = Trace(
    trace: string, tSpan: string, tMaster: string, tsTime: int, teTime: int, spans: seq<Span>)

  function EmptySpan(id: string): Span {
    Span(id, "", "", "", "", 0, 0, 0, 0, "", "", "", "", "", [])
  }

  const EMPTY_TRACE := Trace("", "", "", 0, 0, [])

  /** The first span called id; an untouched one if there is none. */
  function Lookup(spans: seq<Span>, id: string): (s: Span)
    ensures s.span == id
  {
    if spans == [] then EmptySpan(id)
    else if spans[0].span == id then spans[0]
    else Lookup(spans[1..], id)
  }

  predicate Known(spans: seq<Span>, id: string) {
    exists i :: 0 <= i < |spans| && spans[i].span == id
  }

  ghost predicate Linked(spans: seq<Span>, parent: string, child: string) {
    child in Lookup(spans, parent).children
  }

  predicate DistinctIds(spans: seq<Span>) {
    forall i, j :: 0 <= i < j < |spans| ==> spans[i].span != spans[j].span
  }

  lemma {:induction false} LookupAt(spans: seq<Span>, i: nat)
    requires i < |spans|
    requires forall j :: 0 <= j < i ==> spans[j].span != spans[i].span
    ensures Lookup(spans, spans[i].span) == spans[i]
  {
    if i > 0 {
      LookupAt(spans[1..], i - 1);
    }
  }

  lemma {:induction false} LookupUnknown(spans: seq<Span>, id: string)
    requires !Known(spans, id)
    ensures Lookup(spans, id) == EmptySpan(id)
  {
    if spans != [] {
      assert spans[0].span != id;
      assert forall i :: 0 <= i < |spans[1..]| ==> spans[1..][i] == spans[i + 1];
      LookupUnknown(spans[1..], id);
    }
  }

  lemma {:induction false} LookupMember(spans: seq<Span>, id: string)
    requires Known(spans, id)
    ensures exists i :: 0 <= i < |spans| && spans[i] == Lookup(spans, id)
  {
    if spans[0].span != id {
      var i :| 0 <= i < |spans| && spans[i].span == id;
      assert spans[1..][i - 1].span == id;
      LookupMember(spans[1..], id);
      var k :| 0 <= k < |spans[1..]| && spans[1..][k] == Lookup(spans[1..], id);
      assert spans[k + 1] == Lookup(spans, id);
    }
  }
}
