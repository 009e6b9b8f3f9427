/** Following a growing log file through a fixed buffer. */
module LogReader {
  import opened TraceData
  import opened LogLines

  const IDLE_SECONDS := 60

  // ----- one read, as a function of the reader's state -----

  /** seek is the position in the file, pending the bytes read since the last complete line. */
  datatype Reader = Reader(seek: nat, pending: string, isOpen: bool, lastReadTime: int)

  const FRESH := Reader(0, "", false, 0)

  /** What a read meets: whether the file can be opened if it is not open yet, what it holds, how many bytes
      the file system hands over, and when. */
  datatype Input = Input(canOpen: bool, data: string, size: nat, now: int)

  function Reopened(r: Reader, i: Input): Reader {
    if r.isOpen || !i.canOpen then r
    else if r.seek > |i.data| then Reader(0, "", true, i.now)  // the file was truncated
    else r.(isOpen := true, lastReadTime := i.now)
  }

  /** A file system never hands over more than the buffer has room for or the file holds. */
  predicate Possible(r: Reader, i: Input) {
    var r := Reopened(r, i);
    && |r.pending| <= MAX_READ_SIZE
    && r.seek >= |r.pending|
    && (i.size > 0 ==> r.seek + i.size <= |i.data| && |r.pending| + i.size <= MAX_READ_SIZE)
  }

  /** The text a read leaves in the buffer before it is cut. */
  function Buffered(r: Reader, i: Input): string
    requires Possible(r, i)
  {
    var r := Reopened(r, i);
    if i.size == 0 then r.pending else r.pending + i.data[r.seek..r.seek + i.size]
  }

  function Read(r: Reader, i: Input): Reader
    requires Possible(r, i)
  {
    var r' := Reopened(r, i);
    if !r'.isOpen then r'
    else if i.size == 0 then
      if r'.lastReadTime + IDLE_SECONDS < i.now then r'.(seek := r'.seek - |r'.pending|, pending := "", isOpen := false)
      else r'
    else Reader(r'.seek + i.size, Rest(Buffered(r, i)), true, i.now)
  }

  /** The lines a read hands out. */
  function Delivered(r: Reader, i: Input): seq<string>
    requires Possible(r, i)
  {
    if Reopened(r, i).isOpen && i.size > 0 then Lines(Buffered(r, i)) else []
  }

  /** When a read opens and closes the file, and where it leaves the reader. A closed file is opened if that is
      possible; an open one is closed by a read that finds nothing more than 60 seconds after the last that found
      something, or after the opening, and then the unfinished bytes are read again. */
  lemma ReadOpensAndCloses(r: Reader, i: Input)
    requires Possible(r, i)
    ensures var r' := Read(r, i);
      && (r'.isOpen <==> if r.isOpen then i.size > 0 || i.now <= r.lastReadTime + 60 else i.canOpen)
      && r'.lastReadTime == (if (if r.isOpen then i.size > 0 else i.canOpen) then i.now else r.lastReadTime)
      && (!r'.isOpen ==> r'.seek == (if r.isOpen then r.seek - |r.pending| else r.seek))
      && (r.isOpen && !r'.isOpen ==> r'.pending == "")
      && (!r.isOpen && !r'.isOpen ==> r' == r)
      && (r.isOpen && r'.isOpen ==> r'.seek == r.seek + i.size && (i.size == 0 ==> r' == r))
      && (!r.isOpen && r'.isOpen ==> r'.seek == (if r.seek > |i.data| then 0 else r.seek) + i.size)
      && (i.size == 0 || !r'.isOpen ==> Delivered(r, i) == [])
  {
    hide Lines, Rest;
  }

  // ----- any run of reads over an append-only file -----

  /** The reads of a run with the file growing underneath. */
  ghost predicate Run(r: Reader, inputs: seq<Input>, before: string)
    decreases |inputs|
  {
    inputs == [] ||
    (before <= inputs[0].data && Possible(r, inputs[0]) && Run(Read(r, inputs[0]), inputs[1..], inputs[0].data))
  }

  ghost function After(r: Reader, inputs: seq<Input>, before: string): Reader
    requires Run(r, inputs, before)
    decreases |inputs|
  {
    if inputs == [] then r else After(Read(r, inputs[0]), inputs[1..], inputs[0].data)
  }

  ghost function AllDelivered(r: Reader, inputs: seq<Input>, before: string): seq<string>
    requires Run(r, inputs, before)
    decreases |inputs|
  {
    if inputs == [] then []
    else Delivered(r, inputs[0]) + AllDelivered(Read(r, inputs[0]), inputs[1..], inputs[0].data)
  }

  function LastData(inputs: seq<Input>, before: string): string {
    if inputs == [] then before else inputs[|inputs| - 1].data
  }

  /** The reader has cut the file up to seek and keeps what follows the last complete line. */
  ghost predicate InStep(r: Reader, data: string) {
    r.seek <= |data| && r.pending == Rest(data[..r.seek]) && |r.pending| <= MAX_READ_SIZE
  }

  lemma InStepStays(r: Reader, before: string, data: string)
    requires InStep(r, before) && before <= data
    ensures InStep(r, data) && data[..r.seek] == before[..r.seek]
  {
    assert data[..r.seek] == before[..r.seek];
  }

  lemma MoreBytes(data: string, seek: nat, size: nat)
    requires seek + size <= |data|
    ensures var text := Rest(data[..seek]) + data[seek..seek + size];
      && Lines(data[..seek]) + Lines(text) == Lines(data[..seek + size])
      && Rest(text) == Rest(data[..seek + size])
      && |Rest(text)| <= |text|
  {
    CutResumes(data[..seek], data[seek..seek + size]);
    assert data[..seek] + data[seek..seek + size] == data[..seek + size];
    CutWithoutRest(Rest(data[..seek]) + data[seek..seek + size]);
  }

  lemma IdleClose(data: string, seek: nat)
    requires seek <= |data|
    ensures var saved := seek - |Rest(data[..seek])|;
      0 <= saved && Lines(data[..saved]) == Lines(data[..seek]) && Rest(data[..saved]) == ""
  {
    CutWithoutRest(data[..seek]);
    var saved := seek - |Rest(data[..seek])|;
    assert data[..seek][..saved] == data[..saved];
  }

  /** One read delivers exactly the lines that end in the bytes it adds. */
  lemma ReadKeepsStep(r: Reader, i: Input)
    requires InStep(r, i.data) && Possible(r, i)
    ensures InStep(Read(r, i), i.data)
    ensures Lines(i.data[..r.seek]) + Delivered(r, i) == Lines(i.data[..Read(r, i).seek])
  {
    hide Lines, Rest;
    if Reopened(r, i).isOpen && i.size > 0 {
      MoreBytes(i.data, r.seek, i.size);
      assert Read(r, i).seek == r.seek + i.size;
    } else {
      SilentRead(r, i);
    }
  }

  lemma SilentRead(r: Reader, i: Input)
    requires InStep(r, i.data) && Possible(r, i) && !(Reopened(r, i).isOpen && i.size > 0)
    ensures Delivered(r, i) == [] && InStep(Read(r, i), i.data)
    ensures Lines(i.data[..r.seek]) == Lines(i.data[..Read(r, i).seek])
  {
    IdleClose(i.data, r.seek);
  }

  /** Main result: however the file grows and however the reads are sized, idle closes and reopens included,
      the lines handed out over a run are exactly the complete lines of the bytes read, each once and in
      order; and the bytes kept are the beginning of the next one. */
  lemma {:induction false} ChunksDoNotMatter(r: Reader, inputs: seq<Input>, before: string)
    requires InStep(r, before) && Run(r, inputs, before)
    ensures var r', data := After(r, inputs, before), LastData(inputs, before);
      && InStep(r', data)
      && Lines(before[..r.seek]) + AllDelivered(r, inputs, before) == Lines(data[..r'.seek])
    decreases |inputs|
  {
    if inputs != [] {
      var i := inputs[0];
      InStepStays(r, before, i.data);
      ReadKeepsStep(r, i);
      ChunksDoNotMatter(Read(r, i), inputs[1..], i.data);
    }
  }

  /** A file found shorter than what was read of it is read from its start: the reader is in step with it at once, so
      what holds of a run holds of the rest. */
  lemma TruncatedFileStartsOver(r: Reader, i: Input)
    requires !r.isOpen && i.canOpen && r.seek > |i.data| && Possible(r, i)
    ensures InStep(Read(r, i), i.data) && Delivered(r, i) == Lines(i.data[..Read(r, i).seek])
  {
    hide Lines, Rest;
    NothingRead(i.data);
    if i.size > 0 {
      MoreBytes(i.data, 0, i.size);
      assert "" + i.data[0..i.size] == i.data[..i.size] && [] + Lines(i.data[..i.size]) == Lines(i.data[..i.size]);
    }
  }

  lemma NothingRead(data: string)
    ensures data[..0] == "" && Lines("") == [] && Rest("") == ""
  {
  }

  /** From the start of the file the run delivers the lines of the prefix it has read. */
  lemma FreshRunDelivers(inputs: seq<Input>, before: string)
    requires Run(FRESH, inputs, before)
    ensures var r, data := After(FRESH, inputs, before), LastData(inputs, before);
      && r.seek <= |data|
      && AllDelivered(FRESH, inputs, before) == Lines(data[..r.seek])
      && r.pending == Rest(data[..r.seek])
  {
    assert before[..0] == "";
    ChunksDoNotMatter(FRESH, inputs, before);
  }

  /** The kept bytes are the last bytes read. */
  lemma PendingIsSuffix(r: Reader, data: string)
    requires InStep(r, data)
    ensures |r.pending| <= r.seek && r.pending == data[r.seek - |r.pending|..r.seek]
  {
    LinesCutExactly(data[..r.seek]);
    var s := data[..r.seek];
    assert s == Join(Lines(s)) + r.pending;
    assert s[|s| - |r.pending|..] == r.pending;
  }

  /** The position a snapshot saves is where the first line not yet handed out begins, so a fresh reader
      started there hands out exactly the lines that are still missing. */
  lemma SavedPositionResumes(data: string, seek: nat, more: nat)
    requires seek <= more <= |data|
    ensures var saved := seek - |Rest(data[..seek])|;
      && 0 <= saved <= more
      && Lines(data[..seek]) + Lines(data[saved..more]) == Lines(data[..more])
      && Rest(data[saved..more]) == Rest(data[..more])
  {
    var saved := seek - |Rest(data[..seek])|;
    hide Lines, Rest;
    CutWithoutRest(data[..seek]);
    Slices(data, saved, seek);
    Slices(data, saved, more);
    CutResumes(data[..saved], data[saved..more]);
  }

  lemma Slices(data: string, a: nat, b: nat)
    requires a <= b <= |data|
    ensures data[..b][..a] == data[..a] && data[..a] + data[a..b] == data[..b] && "" + data[a..b] == data[a..b]
  {
  }

  // ----- the reader as the program runs it -----

  /** The state of the cutting loop: the lines done so far and the position where the next one begins. */
  ghost predicate CutSoFar(text: string, begin: nat, done: seq<string>) {
    && begin <= |text| && AllReadable(done)
    && Lines(text) == done + Lines(text[begin..])
    && Rest(text) == Rest(text[begin..])
  }

  lemma NothingCutYet(text: string)
    ensures CutSoFar(text, 0, [])
  {
    assert text[0..] == text && [] + Lines(text) == Lines(text);
  }

  lemma {:induction false} NextPiece(text: string, begin: nat, next: nat, done: seq<string>)
    requires CutSoFar(text, begin, done) && AllReadable(Lines(text))
    requires NextEnd(text[begin..]) < |text[begin..]| && next == begin + NextEnd(text[begin..]) + 2
    ensures next <= |text| && Readable(text[begin..next])
    ensures CutSoFar(text, next, done + [text[begin..next]])
    ensures ParseAll(done + [text[begin..next]]) == ParseAll(done) + [Parse(text[begin..next])]
  {
    hide Lines, Rest, NextEnd, Readable, Parse, ParseAll, AllReadable;
    PieceOff(text, begin, next);
    var l, left, more := text[begin..next], Lines(text[begin..]), Lines(text[next..]);
    MoveOne(Lines(text), done, l, left, more);
  }

  lemma SliceOfPrefix(buff: string, n: nat, lo: nat, hi: nat)
    requires lo <= hi <= n <= |buff|
    ensures buff[lo..hi] == buff[..n][lo..hi] && buff[..n][lo..] == buff[lo..n]
  {
  }

  lemma Split(text: string, begin: nat, next: nat)
    requires begin <= next <= |text|
    ensures text[begin..][..next - begin] == text[begin..next] && text[begin..][next - begin..] == text[next..]
  {
  }

  lemma PieceOff(text: string, begin: nat, next: nat)
    requires begin <= |text| && NextEnd(text[begin..]) < |text[begin..]| && next == begin + NextEnd(text[begin..]) + 2
    ensures next <= |text| && Lines(text[begin..]) == [text[begin..next]] + Lines(text[next..])
    ensures Rest(text[begin..]) == Rest(text[next..])
  {
    hide Lines, Rest, NextEnd;
    LineFirst(text[begin..]);
    Split(text, begin, next);
  }

  /** The first of the remaining lines is readable and moves to those done. */
  lemma MoveOne(all: seq<string>, done: seq<string>, l: string, left: seq<string>, more: seq<string>)
    requires all == done + left && left == [l] + more && AllReadable(all)
    ensures all == (done + [l]) + more && Readable(l) && AllReadable(done) && AllReadable(done + [l])
    ensures ParseAll(done + [l]) == ParseAll(done) + [Parse(l)]
  {
    hide Readable, Parse;
    assert all[|done|] == l && forall i :: 0 <= i < |done| ==> all[i] == done[i];
  }

  lemma {:induction false} LineFirst(text: string)
    requires NextEnd(text) < |text|
    ensures NextEnd(text) + 2 <= |text|
    ensures Lines(text) == [text[..NextEnd(text) + 2]] + Lines(text[NextEnd(text) + 2..])
    ensures Rest(text) == Rest(text[NextEnd(text) + 2..])
  {
  }

  lemma NoMorePieces(text: string, begin: nat, done: seq<string>)
    requires CutSoFar(text, begin, done) && NextEnd(text[begin..]) == |text[begin..]|
    ensures done == Lines(text) && Rest(text) == text[begin..]
  {
  }

  lemma NextColumn(all: seq<string>, columns: seq<string>, left: string)
    requires all == columns + Columns(left) && |columns| < |all|
    ensures NextBar(left) < |left|
    ensures all == (columns + [left[..NextBar(left)]]) + Columns(left[NextBar(left) + 1..])
  {
    hide Columns, NextBar;
    assert |all| == |columns| + |Columns(left)|;
    FirstColumn(left);
    AppendMoves(columns, left[..NextBar(left)], Columns(left[NextBar(left) + 1..]));
  }

  /** The next column of a buffer, by positions. */
  lemma NextColumnAt(buffer: string, columns: seq<string>, next: nat, end: nat)
    requires next <= |buffer| && end == next + NextBar(buffer[next..])
    requires Columns(buffer) == columns + Columns(buffer[next..]) && |columns| < |Columns(buffer)|
    ensures end < |buffer|
    ensures Columns(buffer) == (columns + [buffer[next..end]]) + Columns(buffer[end + 1..])
  {
    hide Columns, NextBar;
    var left := buffer[next..];
    NextColumn(Columns(buffer), columns, left);
    assert left[..end - next] == buffer[next..end] && left[end - next + 1..] == buffer[end + 1..];
  }

  lemma AppendMoves(a: seq<string>, x: string, c: seq<string>)
    ensures a + ([x] + c) == (a + [x]) + c
  {
  }

  lemma {:induction false} FirstColumn(s: string)
    requires |Columns(s)| > 0
    ensures NextBar(s) < |s| && Columns(s) == [s[..NextBar(s)]] + Columns(s[NextBar(s) + 1..])
  {
  }

  lemma FromColumnsReadsPrefix(a: seq<string>, b: seq<string>)
    requires |a| == COLUMNS && a <= b
    ensures FromColumns(a) == FromColumns(b)
  {
    assert forall i :: 0 <= i < |a| ==> a[i] == b[i];
  }

  class FileReader {
    const buff: array<char>
    const line: array<char>
    var inputPos: nat
    var readSeek: nat
    var isOpen: bool
    var lastReadTime: int
    var v: seq<RawLog>

    ghost predicate Valid()
      reads this
    {
      && buff.Length == MAX_READ_SIZE && line.Length == MAX_LINE_SIZE && buff != line
      && inputPos <= MAX_READ_SIZE && inputPos <= readSeek
    }

    ghost function State(): Reader
      requires Valid()
      reads this, buff
    {
      Reader(readSeek, buff[..inputPos], isOpen, lastReadTime)
    }

    constructor ()
      ensures Valid() && State() == FRESH && fresh(buff) && fresh(line)
    {
      buff := new char[MAX_READ_SIZE];
      line := new char[MAX_LINE_SIZE];
      inputPos, readSeek, isOpen, lastReadTime, v := 0, 0, false, 0, [];
    }

    method ReopenFile(i: Input) returns (ok: bool)
      requires Valid()
      modifies this
      ensures Valid() && v == old(v)
      ensures State() == Reopened(old(State()), i) && ok == isOpen
    {
      if isOpen { return true; }
      if i.canOpen {
        isOpen, lastReadTime := true, i.now;
        if readSeek > |i.data| {
          readSeek, inputPos := 0, 0;
        }
        return true;
      }
      return false;
    }

    method ReadFile(i: Input)
      requires Valid() && Possible(State(), i) && AllReadable(Delivered(State(), i))
      modifies this, buff, line
      ensures Valid() && State() == Read(old(State()), i)
      ensures v == ParseAll(old(Delivered(State(), i)))
    {
      hide Lines, Rest, ParseAll;
      v := [];
      var ok := ReopenFile(i);
      if !ok { return; }
      if i.size == 0 {
        if lastReadTime + IDLE_SECONDS < i.now {
          readSeek := readSeek - inputPos;
          inputPos := 0;
          isOpen := false;
        }
        return;
      }
      ReadMore(i.data[readSeek..readSeek + i.size], i.now);
    }

    method ReadMore(bytes: string, now: int)
      requires Valid() && isOpen && v == [] && inputPos + |bytes| <= MAX_READ_SIZE
      requires AllReadable(Lines(buff[..inputPos] + bytes))
      modifies this, buff, line
      ensures Valid()
      ensures State() == Reader(old(readSeek) + |bytes|, Rest(old(buff[..inputPos]) + bytes), true, now)
      ensures v == ParseAll(Lines(old(buff[..inputPos]) + bytes))
    {
      ghost var text := buff[..inputPos] + bytes;
      lastReadTime := now;
      FillBuffer(bytes);
      SplitLine(inputPos + |bytes|, text);
    }

    method FillBuffer(bytes: string)
      requires Valid() && inputPos + |bytes| <= MAX_READ_SIZE
      modifies this`readSeek, buff
      ensures Valid() && readSeek == old(readSeek) + |bytes|
      ensures buff[..inputPos + |bytes|] == old(buff[..inputPos]) + bytes
    {
      forall k | 0 <= k < |bytes| {
        buff[inputPos + k] := bytes[k];
      }
      readSeek := readSeek + |bytes|;
    }

    /** Position of the first line end at or after begin; dataEnd if there is none. */
    method FindLineEnd(begin: nat, dataEnd: nat) returns (e: nat)
      requires begin <= dataEnd <= buff.Length
      ensures e == begin + NextEnd(buff[begin..dataEnd])
    {
      ghost var text := buff[begin..dataEnd];
      e := begin;
      while e + 2 <= dataEnd
        invariant begin <= e <= dataEnd
        invariant forall j :: 0 <= j < e - begin ==> !EndsAt(text, j)
        decreases dataEnd - e
      {
        if buff[e] == '|' && buff[e + 1] == '\n' {
          assert EndsAt(text, e - begin);
          return;
        }
        assert !EndsAt(text, e - begin);
        e := e + 1;
      }
      e := dataEnd;
    }

    method SplitLine(dataEnd: nat, ghost text: string)
      requires dataEnd <= buff.Length == MAX_READ_SIZE && line.Length == MAX_LINE_SIZE && buff != line
      requires text == buff[..dataEnd] && AllReadable(Lines(text)) && v == []
      modifies this`v, this`inputPos, buff, line
      ensures inputPos <= dataEnd && buff[..inputPos] == Rest(text)
      ensures v == ParseAll(Lines(text))
    {
      hide Lines, Rest, Columns, CutSoFar, Parse;
      var begin := 0;
      ghost var done: seq<string> := [];
      NothingCutYet(text);
      while begin < dataEnd
        invariant begin <= dataEnd && buff[..dataEnd] == text
        invariant CutSoFar(text, begin, done) && AllReadable(done) && v == ParseAll(done)
        decreases dataEnd - begin
      {
        SliceOfPrefix(buff[..], dataEnd, begin, dataEnd);
        var e := FindLineEnd(begin, dataEnd);
        if e == dataEnd {
          NoMorePieces(text, begin, done);
          KeepTail(begin, dataEnd, text);
          return;
        }
        NextPiece(text, begin, e + 2, done);
        SliceOfPrefix(buff[..], dataEnd, begin, e + 2);
        CopyLine(begin, e + 2 - begin);
        ParseLine(text[begin..e + 2]);
        done := done + [text[begin..e + 2]];
        begin := e + 2;
      }
      NoMorePieces(text, begin, done);
      inputPos := 0;
    }

    method KeepTail(begin: nat, dataEnd: nat, ghost text: string)
      requires begin < dataEnd <= buff.Length && buff[..dataEnd] == text
      modifies this`inputPos, buff
      ensures inputPos <= dataEnd && buff[..inputPos] == text[begin..]
    {
      forall k | 0 <= k < dataEnd - begin {
        buff[k] := buff[begin + k];
      }
      inputPos := dataEnd - begin;
    }

    method CopyLine(begin: nat, size: nat)
      requires buff != line && begin + size <= buff.Length && size + PADDING <= line.Length
      modifies line
      ensures line[..size] == buff[begin..begin + size]
    {
      forall k | 0 <= k < PADDING {
        line[size + k] := '\0';
      }
      forall k | 0 <= k < size {
        line[k] := buff[begin + k];
      }
    }

    /** Reads the columns from the line buffer, whatever is left behind the line in it. */
    method ParseLine(ghost text: string)
      requires line.Length == MAX_LINE_SIZE && |text| <= line.Length && line[..|text|] == text && Readable(text)
      modifies this`v
      ensures v == old(v) + [Parse(text)]
    {
      ghost var tail := line[|text|..];
      assert line[..] == text + tail;
      ColumnsIgnoreTail(text, tail);
      var columns := SplitColumns(text + tail);
      FromColumnsReadsPrefix(columns, Columns(text));
      v := v + [FromColumns(columns)];
    }

    method SplitColumns(ghost buffer: string) returns (columns: seq<string>)
      requires line[..] == buffer && |Columns(buffer)| >= COLUMNS
      ensures columns == Columns(buffer)[..COLUMNS]
    {
      hide Columns, NextBar;
      columns := [];
      var next := 0;
      assert buffer[0..] == buffer && [] + Columns(buffer) == Columns(buffer);
      while |columns| < COLUMNS
        invariant next <= line.Length && |columns| <= COLUMNS
        invariant Columns(buffer) == columns + Columns(buffer[next..])
        decreases COLUMNS - |columns|
      {
        var end := FindBar(next);
        assert line[next..] == buffer[next..];
        NextColumnAt(buffer, columns, next, end);
        assert line[next..end] == buffer[next..end];
        columns := columns + [line[next..end]];
        next := end + 1;
      }
    }

    method FindBar(next: nat) returns (end: nat)
      requires next <= line.Length
      ensures end == next + NextBar(line[next..])
    {
      end := next;
      while end < line.Length && line[end] != '|'
        invariant next <= end <= line.Length
        invariant forall j :: next <= j < end ==> line[j] != '|'
      {
        end := end + 1;
      }
      if end < line.Length { NextBarIs(line[next..], end - next); }
    }
  }
}
