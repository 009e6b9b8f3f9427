/** Cutting the bytes of a log file into lines, and a line into its columns. */
module LogLines {
  import opened TraceData

  // ----- lines: pieces that end with a bar and a newline -----

  predicate EndsAt(s: string, i: nat) {
    i + 1 < |s| && s[i] == '|' && s[i + 1] == '\n'
  }

  /** Where the first line end begins; |s| if there is none. */
  function NextEnd(s: string, i: nat := 0): (e: nat)
    requires i <= |s|
    ensures i <= e <= |s| && (e < |s| ==> EndsAt(s, e)) && forall j :: i <= j < e ==> !EndsAt(s, j)
    decreases |s| - i
  {
    if i == |s| || EndsAt(s, i) then i else NextEnd(s, i + 1)
  }

  function Lines(s: string): seq<string> {
    var e := NextEnd(s);
    if e == |s| then [] else [s[..e + 2]] + Lines(s[e + 2..])
  }

  /** The bytes after the last complete line. */
  function Rest(s: string): string {
    var e := NextEnd(s);
    if e == |s| then s else Rest(s[e + 2..])
  }

  /** One complete line: the only line end is at its end. */
  predicate IsLine(l: string) {
    |l| >= 2 && EndsAt(l, |l| - 2) && forall j: nat :: j < |l| - 2 ==> !EndsAt(l, j)
  }

  function Join(lines: seq<string>): string {
    if lines == [] then "" else lines[0] + Join(lines[1..])
  }

  lemma NextEndIs(s: string, e: nat)
    requires EndsAt(s, e) && forall j: nat :: j < e ==> !EndsAt(s, j)
    ensures NextEnd(s) == e
  {
  }

  lemma LinePrepended(l: string, t: string)
    requires IsLine(l)
    ensures Lines(l + t) == [l] + Lines(t) && Rest(l + t) == Rest(t)
  {
    var s := l + t;
    forall j: nat | j < |l| - 2 ensures !EndsAt(s, j) { assert !EndsAt(l, j); }
    assert EndsAt(s, |l| - 2);
    NextEndIs(s, |l| - 2);
    assert s[..|l|] == l && s[|l|..] == t;
  }

  /** A text is either without a line end or begins with a line. */
  lemma FirstLine(s: string) returns (l: string, t: string)
    ensures NextEnd(s) == |s| ==> Lines(s) == [] && Rest(s) == s && forall j: nat :: !EndsAt(s, j)
    ensures NextEnd(s) < |s| ==> IsLine(l) && |l| >= 2 && s == l + t && Lines(s) == [l] + Lines(t) && Rest(s) == Rest(t)
  {
    var e := NextEnd(s);
    l, t := "", "";
    if e < |s| {
      l, t := s[..e + 2], s[e + 2..];
      forall j: nat | j < |l| - 2 ensures !EndsAt(l, j) { assert !EndsAt(s, j); }
      assert EndsAt(l, |l| - 2);
    }
  }

  lemma {:induction false} LinesCutExactly(s: string)
    ensures Join(Lines(s)) + Rest(s) == s
    ensures forall l :: l in Lines(s) ==> IsLine(l)
    ensures forall j: nat :: !EndsAt(Rest(s), j)
    decreases |s|
  {
    hide Lines, Rest, NextEnd, IsLine, EndsAt, Join;
    var l, t := FirstLine(s);
    if NextEnd(s) < |s| {
      LinesCutExactly(t);
      JoinFirst(l, Lines(t), Rest(t));
    } else {
      JoinNone(s);
    }
  }

  lemma JoinFirst(l: string, lines: seq<string>, rest: string)
    ensures Join([l] + lines) + rest == l + (Join(lines) + rest)
  {
    assert ([l] + lines)[1..] == lines;
  }

  lemma JoinNone(rest: string)
    ensures Join([]) + rest == rest
  {
  }

  /** There is no other way to cut a text into complete lines and a remainder without a line end. */
  lemma {:induction false} LinesAreUnique(lines: seq<string>, rest: string)
    requires (forall l :: l in lines ==> IsLine(l)) && (forall j: nat :: !EndsAt(rest, j))
    ensures Lines(Join(lines) + rest) == lines && Rest(Join(lines) + rest) == rest
  {
    if lines == [] {
      assert Join(lines) + rest == rest;
      assert NextEnd(rest) == |rest|;
    } else {
      LinesAreUnique(lines[1..], rest);
      assert Join(lines) + rest == lines[0] + (Join(lines[1..]) + rest);
      LinePrepended(lines[0], Join(lines[1..]) + rest);
    }
  }

  /** Cutting can be resumed from the remainder: reading a then b is the same as reading a + b. */
  lemma {:induction false} CutResumes(a: string, b: string)
    ensures Lines(a + b) == Lines(a) + Lines(Rest(a) + b)
    ensures Rest(a + b) == Rest(Rest(a) + b)
    decreases |a|
  {
    var l, t := FirstLine(a);
    if NextEnd(a) == |a| {
      assert [] + Lines(a + b) == Lines(a + b);
    } else {
      assert |l| >= 2;
      hide Lines, Rest, NextEnd;
      CutResumes(t, b);
      assert a + b == l + (t + b);
      calc {
        Lines(a + b);
        { LinePrepended(l, t + b); }
        [l] + Lines(t + b);
        [l] + (Lines(t) + Lines(Rest(t) + b));
        ([l] + Lines(t)) + Lines(Rest(t) + b);
        Lines(a) + Lines(Rest(a) + b);
      }
      LinePrepended(l, t + b);
    }
  }

  /** Dropping the remainder leaves the lines as they are. */
  lemma CutWithoutRest(s: string)
    ensures |Rest(s)| <= |s| && Lines(s[..|s| - |Rest(s)|]) == Lines(s) && Rest(s[..|s| - |Rest(s)|]) == ""
  {
    LinesCutExactly(s);
    assert s[..|s| - |Rest(s)|] == Join(Lines(s)) + "";
    LinesAreUnique(Lines(s), "");
  }

  // ----- columns: pieces that end with a bar -----

  const COLUMNS := 14

  function NextBar(s: string, i: nat := 0): (e: nat)
    requires i <= |s|
    ensures i <= e <= |s| && (e < |s| ==> s[e] == '|') && forall j :: i <= j < e ==> s[j] != '|'
    decreases |s| - i
  {
    if i == |s| || s[i] == '|' then i else NextBar(s, i + 1)
  }

  function Columns(s: string): seq<string> {
    var e := NextBar(s);
    if e == |s| then [] else [s[..e]] + Columns(s[e + 1..])
  }

  /** Bytes behind a line cannot change the columns the line already completes. */
  lemma {:induction false} ColumnsIgnoreTail(s: string, tail: string)
    ensures Columns(s) <= Columns(s + tail)
  {
    var e := NextBar(s);
    if e < |s| {
      ColumnsIgnoreTail(s[e + 1..], tail);
      NextBarIs(s + tail, e);
      assert (s + tail)[..e] == s[..e] && (s + tail)[e + 1..] == s[e + 1..] + tail;
    }
  }

  lemma NextBarIs(s: string, e: nat)
    requires e < |s| && s[e] == '|' && forall j :: 0 <= j < e ==> s[j] != '|'
    ensures NextBar(s) == e
  {
  }

  function KindOf(s: string): LogKind {
    if s == "ts" then Ts else if s == "te" then Te else if s == "cs" then Cs
    else if s == "cr" then Cr else if s == "sr" then Sr else if s == "ss" then Ss else Other
  }

  function FindDot(s: string, i: nat): (d: nat)
    ensures d <= |s| && (d < |s| ==> i <= d && s[d] == '.')
    decreases |s| - i
  {
    if i >= |s| then |s| else if s[i] == '.' then i else FindDot(s, i + 1)
  }

  /** App.Server of a servant name: everything before the second dot, where a leading dot does not count. */
  function ServerName(s: string): string {
    var first := FindDot(s, 1);
    if first == |s| then s
    else
      var second := FindDot(s, first + 1);
      s[..second]
  }

  const INT64_MAX := 0x7fff_ffff_ffff_ffff
  const INT64_MIN := -0x8000_0000_0000_0000

  function Clamp(n: int): int {
    if n > INT64_MAX then INT64_MAX else if n < INT64_MIN then INT64_MIN else n
  }

  function Digits(s: string, acc: nat): (n: nat) {
    if s == "" || !('0' <= s[0] <= '9') then acc else Digits(s[1..], 10 * acc + (s[0] as int - '0' as int))
  }

  /** The number a text starts with, saturated to 64 bits; 0 if it starts with none. */
  function Number(s: string): int {
    if s != "" && (s[0] == ' ' || '\t' <= s[0] <= '\r') then Number(s[1..])
    else if s != "" && s[0] == '-' then Clamp(0 - Digits(s[1..], 0))
    else if s != "" && s[0] == '+' then Clamp(Digits(s[1..], 0))
    else Clamp(Digits(s, 0))
  }

  function FromColumns(c: seq<string>): RawLog
    requires |c| >= COLUMNS
  {
    RawLog(c[4], c[5], c[6], KindOf(c[7]), c[8], ServerName(c[9]), c[10], Number(c[11]), c[12], c[13])
  }

  /** A line the reader can parse: all columns are there, and it fits the line buffer with its padding. */
  predicate Readable(line: string) {
    |Columns(line)| >= COLUMNS && |line| + PADDING <= MAX_LINE_SIZE
  }

  const MAX_READ_SIZE := 1024 * 1024 * 5
  const MAX_LINE_SIZE := 1024 * 100
  const PADDING := 10

  predicate AllReadable(lines: seq<string>) {
    forall l :: l in lines ==> Readable(l)
  }

  function Parse(line: string): RawLog
    requires Readable(line)
  {
    FromColumns(Columns(line))
  }

  function ParseAll(lines: seq<string>): (r: seq<RawLog>)
    requires AllReadable(lines)
    ensures |r| == |lines| && forall i :: 0 <= i < |r| ==> r[i] == Parse(lines[i])
  {
    seq(|lines|, i requires 0 <= i < |lines| => Parse(lines[i]))
  }

  // ----- what a record gets from its line -----

  /** Texts written out with a bar after each. */
  function Barred(columns: seq<string>): string {
    if columns == [] then "" else columns[0] + "|" + Barred(columns[1..])
  }

  lemma ColumnFirst(c: string, rest: string)
    requires '|' !in c
    ensures Columns(c + "|" + rest) == [c] + Columns(rest)
  {
    var s := c + "|" + rest;
    assert forall j :: 0 <= j < |c| ==> s[j] == c[j] && c[j] in c;
    NextBarIs(s, |c|);
    assert s[..|c|] == c && s[|c| + 1..] == rest;
  }

  lemma {:induction false} ColumnsOfBarred(columns: seq<string>, tail: string)
    requires forall i :: 0 <= i < |columns| ==> '|' !in columns[i]
    ensures Columns(Barred(columns) + tail) == columns + Columns(tail)
  {
    hide Columns;
    if columns == [] {
      assert Barred(columns) + tail == tail;
    } else {
      var c, rest := columns[0], columns[1..];
      ColumnsOfBarred(rest, tail);
      ColumnFirst(c, Barred(rest) + tail);
      assert Barred(columns) + tail == c + "|" + (Barred(rest) + tail);
      hide Barred;
    }
  }

  lemma {:induction false} BarredEnds(columns: seq<string>)
    requires columns != [] && forall i :: 0 <= i < |columns| ==> '|' !in columns[i] && !("\n" <= columns[i])
    ensures var s := Barred(columns);
      s != "" && s[0] != '\n' && s[|s| - 1] == '|' && forall j: nat :: !EndsAt(s, j)
  {
    var c, rest := columns[0], columns[1..];
    var s, t := Barred(columns), Barred(rest);
    assert s == c + "|" + t;
    if rest != [] { BarredEnds(rest); }
    hide Barred;
    forall j: nat ensures !EndsAt(s, j) {
      if j < |c| { assert s[j] in c; } else if j > |c| { assert !EndsAt(t, j - |c| - 1); }
    }
  }

  /** Main result: a written record, with a newline behind its last bar, is one line of the file, whatever follows. A
      newline inside a column does not end it. */
  lemma WrittenRecordIsLine(columns: seq<string>, more: string)
    requires columns != [] && forall i :: 0 <= i < |columns| ==> '|' !in columns[i] && !("\n" <= columns[i])
    ensures Lines(Barred(columns) + "\n" + more) == [Barred(columns) + "\n"] + Lines(more)
  {
    BarredEnds(columns);
    var b, l := Barred(columns), Barred(columns) + "\n";
    hide Barred, Lines;
    forall j: nat | j < |l| - 2 ensures !EndsAt(l, j) { assert !EndsAt(b, j); }
    LinePrepended(l, more);
  }

  function Decimal(n: nat): string {
    (if n < 10 then "" else Decimal(n / 10)) + [(n % 10 + '0' as int) as char]
  }

  predicate AllDigits(s: string) {
    forall i :: 0 <= i < |s| ==> '0' <= s[i] <= '9'
  }

  lemma {:induction false} DigitsSnoc(s: string, d: char, acc: nat)
    requires AllDigits(s) && '0' <= d <= '9'
    ensures Digits(s + [d], acc) == 10 * Digits(s, acc) + (d as int - '0' as int)
  {
    if s == "" {
      assert s + [d] == [d] && [d][1..] == "";
      assert Digits("", 10 * acc + (d as int - '0' as int)) == 10 * acc + (d as int - '0' as int);
    } else {
      assert (s + [d])[1..] == s[1..] + [d];
      DigitsSnoc(s[1..], d, 10 * acc + (s[0] as int - '0' as int));
    }
  }

  lemma {:induction false} DigitsOfDecimal(n: nat)
    ensures AllDigits(Decimal(n)) && Decimal(n) != "" && Digits(Decimal(n), 0) == n
  {
    var d := (n % 10 + '0' as int) as char;
    if n < 10 {
      assert Decimal(n) == "" + [d];
      DigitsSnoc("", d, 0);
    } else {
      DigitsOfDecimal(n / 10);
      DigitsSnoc(Decimal(n / 10), d, 0);
    }
  }

  /** A number written in decimal is read back, up to the limits of 64 bits; a text without one gives 0. */
  lemma NumberOfDecimal(s: string, n: nat)
    ensures s == Decimal(n) ==> Number(s) == if n <= 0x7fff_ffff_ffff_ffff then n else 0x7fff_ffff_ffff_ffff
    ensures s == "-" + Decimal(n) ==> Number(s) == if n <= 0x8000_0000_0000_0000 then 0 - n else -0x8000_0000_0000_0000
    ensures s == "" || (s[0] !in {' ', '+', '-'} && !('\t' <= s[0] <= '\r') && !('0' <= s[0] <= '9')) ==> Number(s) == 0
  {
    DigitsOfDecimal(n);
    if s == Decimal(n) {
      assert '0' <= s[0] <= '9';
    } else if s == "-" + Decimal(n) {
      assert s[0] == '-' && s[1..] == Decimal(n);
    }
    hide Decimal;
  }

  /** White space in front of a number (codes 9 to 13 and 32) and a plus sign make no difference. */
  lemma NumberSkips(c: char, s: string, n: nat)
    ensures c as int in {9, 10, 11, 12, 13, 32} ==> Number([c] + s) == Number(s)
    ensures Number("+" + Decimal(n)) == Number(Decimal(n))
  {
    assert ([c] + s)[1..] == s;
    DigitsOfDecimal(n);
    assert ("+" + Decimal(n))[1..] == Decimal(n);
    assert '0' <= Decimal(n)[0] <= '9';
    hide Decimal;
  }

  /** A name cut before its second dot, where a leading dot does not count; whole if it has no two. */
  ghost predicate CutBeforeSecondDot(whole: string, cut: string) {
    && cut <= whole
    && (forall d, e :: 0 < d < e < |cut| && cut[d] == '.' ==> cut[e] != '.')
    && (cut != whole ==> whole[|cut|] == '.' && exists d :: 0 < d < |cut| && cut[d] == '.')
  }

  lemma {:induction false} FirstDot(s: string, i: nat)
    ensures forall j :: i <= j < FindDot(s, i) ==> s[j] != '.'
    decreases |s| - i
  {
    if i < |s| && s[i] != '.' { FirstDot(s, i + 1); }
  }

  lemma ServerNameIsCut(s: string)
    ensures CutBeforeSecondDot(s, ServerName(s))
  {
    var first := FindDot(s, 1);
    FirstDot(s, 1);
    if first < |s| { FirstDot(s, first + 1); }
  }

  /** Main result: parsing a written line gives back what was written. Of the fourteen columns, trace, span, parent,
      master, function, ret and data are columns 4, 5, 6, 8, 10, 12 and 13; column 7 names the kind; the slave is
      column 9 without what follows its second dot; the time is the number in column 11. */
  lemma ParsedRecord(c: seq<string>, tail: string, n: nat)
    requires |c| == 14 && forall i :: 0 <= i < 14 ==> '|' !in c[i]
    requires |Barred(c) + tail| + 10 <= 1024 * 100
    ensures Readable(Barred(c) + tail)
    ensures var l := Parse(Barred(c) + tail);
      && l.trace == c[4] && l.span == c[5] && l.parent == c[6] && l.master == c[8] && l.func == c[10]
      && l.ret == c[12] && l.data == c[13]
      && (l.kind == Ts <==> c[7] == "ts") && (l.kind == Te <==> c[7] == "te") && (l.kind == Cs <==> c[7] == "cs")
      && (l.kind == Cr <==> c[7] == "cr") && (l.kind == Sr <==> c[7] == "sr") && (l.kind == Ss <==> c[7] == "ss")
      && CutBeforeSecondDot(c[9], l.slave)
      && (c[11] == Decimal(n) && n <= 0x7fff_ffff_ffff_ffff ==> l.time == n)
      && (c[11] == "-" + Decimal(n) && n <= 0x8000_0000_0000_0000 ==> l.time == 0 - n)
  {
    ColumnsOfBarred(c, tail);
    ServerNameIsCut(c[9]);
    NumberOfDecimal(c[11], n);
    hide Columns, Barred, Decimal, ServerName, Number, CutBeforeSecondDot;
  }
}
