/** How a patch file gets from the patch server to a node: the server answers requests for a piece of the file, from
    its cache or from the file itself, and the node asks for piece after piece until the file is complete. */
module PatchTransfer {
  import opened Basics

  type Byte = bv8

  /** Positions are 32-bit numbers; file sizes on the server are 64-bit. */
  const INT_LIMIT := 0x8000_0000
  const SIZE_LIMIT := 0x1_0000_0000_0000_0000

  /** The sizes of files that are ever put into the cache. */
  const CACHE_MIN := 1024 * 1024
  const CACHE_MAX := 100 * 1024 * 1024

  function ToInt(x: nat): (r: int)
    ensures -INT_LIMIT <= r < INT_LIMIT
  {
    (x + INT_LIMIT) % (2 * INT_LIMIT) - INT_LIMIT
  }

  // ----- the server -----

  datatype Reply = Reply(code: int, data: seq<Byte>)

  /** The answer out of a cached copy; a negative position becomes a huge unsigned one. */
  function FromMem(content: seq<Byte>, pos: int, size: nat): Reply
    requires -INT_LIMIT <= pos < INT_LIMIT
  {
    var p := if pos < 0 then pos + SIZE_LIMIT else pos;
    if p >= |content| then Reply(1, [])
    else
      var n := if |content| - p >= size then size else |content| - p;
      Reply(0, content[p..p + n])
  }

  /** The answer out of the file: seeking to a negative position fails, and reading nothing is the end of the file only
      if something was asked for. */
  function FromFile(content: seq<Byte>, pos: int, size: nat): Reply {
    if pos < 0 then Reply(-2, [])
    else
      var read := content[Min(pos, |content|)..Min(pos + size, |content|)];
      if read != [] then Reply(0, read) else if size > 0 then Reply(1, []) else Reply(-3, [])
  }

  function Download(content: seq<Byte>, pos: int, size: nat, cached: bool): Reply
    requires -INT_LIMIT <= pos < INT_LIMIT
  {
    if cached then FromMem(content, pos, size) else FromFile(content, pos, size)
  }

  /** The server answers with the piece at the position, and says "end" exactly at the end, wherever it looks. */
  lemma AnswersThePiece(content: seq<Byte>, pos: int, size: nat, cached: bool)
    requires 0 <= pos < INT_LIMIT && size > 0
    ensures Download(content, pos, size, cached) ==
      if pos >= |content| then Reply(1, []) else Reply(0, content[pos..Min(pos + size, |content|)])
  {
  }

  /** Cache and file agree exactly on the requests that make sense. */
  lemma CacheAgreesWithFile(content: seq<Byte>, pos: int, size: nat)
    requires -INT_LIMIT <= pos < INT_LIMIT && |content| <= CACHE_MAX
    ensures FromMem(content, pos, size) == FromFile(content, pos, size) <==> pos >= 0 && size > 0
  {
  }

  /** What makes no sense is refused: the cache takes a negative position for one behind the end, the file reports a
      failed seek, and a read of nothing that finds no end. */
  lemma SenselessRequests(content: seq<Byte>, pos: int, size: nat)
    requires -INT_LIMIT <= pos < INT_LIMIT && |content| <= CACHE_MAX
    ensures pos < 0 ==> FromMem(content, pos, size) == Reply(1, []) && FromFile(content, pos, size) == Reply(-2, [])
    ensures pos >= 0 && size == 0 ==>
      FromMem(content, pos, size) == Reply(if pos < |content| then 0 else 1, [])
      && FromFile(content, pos, size) == Reply(-3, [])
  {
  }

  // ----- the node -----

  /** What may go on while one piece is fetched: each of two calls may fail, the server may have the file cached, and
      the local file may take only some of the bytes. */
  datatype Round = Round(firstFails: bool, secondFails: bool, cached: bool, accepted: nat)

  /** How far the download is after k rounds, if all goes on. */
  function Position(content: seq<Byte>, size: nat, rounds: nat -> Round, k: nat): (r: nat)
    ensures r <= |content|
  {
    if k == 0 then 0
    else
      var p := Position(content, size, rounds, k - 1);
      p + Min(rounds(k - 1).accepted, Min(size, |content| - p))
  }

  /** In round k the server says "end", and until then all calls are answered and all writes get on. */
  ghost predicate CompleteAt(content: seq<Byte>, size: nat, rounds: nat -> Round, k: nat) {
    && Position(content, size, rounds, k) == |content|
    && (forall i: nat :: i <= k ==> !rounds(i).firstFails || !rounds(i).secondFails)
    && (forall i: nat :: i < k ==> rounds(i).accepted > 0)
  }

  /** Positions wrap around; a step past the limit makes them negative. */
  lemma StepWraps(pos: nat, n: nat)
    requires pos < INT_LIMIT && n < INT_LIMIT
    ensures ToInt(pos + n) == if pos + n < INT_LIMIT then pos + n else pos + n - 2 * INT_LIMIT
  {
  }

  /** The answer to a node that has fetched a first part of the file. */
  lemma NextAnswer(content: seq<Byte>, done: nat, pos: int, size: nat, cached: bool)
    requires done <= |content| && -INT_LIMIT <= pos < INT_LIMIT && (size == 0 ==> done == 0)
    requires if done < INT_LIMIT then pos == done else pos < 0
    requires cached ==> CACHE_MIN <= |content| <= CACHE_MAX
    ensures var reply := Download(content, pos, size, cached);
      && (reply.code < 0 ==> |content| >= INT_LIMIT || size == 0)
      && (reply.code == 0 ==> pos == done < |content| && reply.data == content[done..Min(done + size, |content|)])
      && (reply.code > 0 <==> done == |content| && done < INT_LIMIT && size > 0)
  {
  }

  lemma StartsAtZero(content: seq<Byte>, size: nat, rounds: nat -> Round)
    ensures Position(content, size, rounds, 0) == 0
  {
  }

  lemma NextPosition(content: seq<Byte>, size: nat, rounds: nat -> Round, k: nat)
    ensures var p := Position(content, size, rounds, k);
      Position(content, size, rounds, k + 1) == p + Min(rounds(k).accepted, Min(size, |content| - p))
  {
  }

  lemma PieceFits(content: seq<Byte>, done: nat, end: nat, n: nat)
    requires done + n <= end <= |content|
    ensures content[..done] + content[done..end][..n] == content[..done + n]
  {
  }

  /** Main result. What has been written is always a first part of the remote file; the download reports success only
      when it is the whole of it; and it does report success exactly when the file is smaller than 2 GB, pieces are not
      empty and the rounds needed get through. (A reply cannot carry 2 GB.) */
  method FetchFile(content: seq<Byte>, size: nat, rounds: nat -> Round) returns (ret: int, file: seq<Byte>)
    requires size < INT_LIMIT && forall i :: rounds(i).cached ==> CACHE_MIN <= |content| <= CACHE_MAX
    ensures file <= content
    ensures ret == 0 ==> file == content
    ensures ret == 0 || ret == -6
    ensures ret == 0 <==> size > 0 && |content| < INT_LIMIT && exists k: nat :: CompleteAt(content, size, rounds, k)
  {
    hide Download, ToInt, Position;
    StartsAtZero(content, size, rounds);
    file := [];
    var pos := 0;
    var downloadRet := 0;
    var k := 0;
    var fileEnded := false;
    while true
      invariant |file| <= |content| && file == content[..|file|]
      invariant |file| == Position(content, size, rounds, k) && (size == 0 ==> file == [])
      invariant -INT_LIMIT <= pos < INT_LIMIT && downloadRet == 0 && !fileEnded
      invariant if |file| < INT_LIMIT then pos == |file| else pos < 0
      invariant forall i: nat :: i < k ==> Position(content, size, rounds, i) < |content|
      invariant forall i: nat :: i < k ==> (!rounds(i).firstFails || !rounds(i).secondFails) && rounds(i).accepted > 0
      decreases |content| - |file|
    {
      var buffer := [];
      var r := rounds(k);
      if !r.firstFails || !r.secondFails {
        NextAnswer(content, |file|, pos, size, r.cached);
        var reply := Download(content, pos, size, r.cached);
        downloadRet, buffer := reply.code, reply.data;
      }
      if downloadRet < 0 {
        break;
      } else if downloadRet == 0 {
        var n := Min(r.accepted, |buffer|);
        if n == 0 {
          break;
        }
        StepWraps(pos, n);
        NextPosition(content, size, rounds, k);
        PieceFits(content, |file|, Min(|file| + size, |content|), n);
        file := file + buffer[..n];
        pos := ToInt(pos + n);
        k := k + 1;
      } else {
        fileEnded := true;
        assert CompleteAt(content, size, rounds, k);
        break;
      }
    }
    ret := if fileEnded then 0 else -6;
  }
}
