/** The patch server's pool of file buffers: a fixed number of slots, each counting the requests that are using it. */
module PatchCache {
  import opened Basics
  import opened PatchTransfer

  datatype LoadState = NotLoaded | Loading | Reloading | Loaded

  /** What the file system says about a file without reading it. */
  datatype Stat = Stat(size: nat, inode: nat, time: int)

  /** A slot: the file it is for and how that looked, how many requests are using it, when it was last used, and its
      whole buffer, of which the file takes up the beginning. */
  datatype Slot = Slot(name: string, stat: Stat, count: int, usedAt: int, load: LoadState, data: seq<Byte>)

  /** The limits of the pool, and what newly allocated memory happens to hold. */
  datatype Options = Options(max: nat, min: nat, num: nat, expire: nat, garbage: nat -> Byte)

  /** The slots, and which slot is a file's. */
  datatype Cache = Cache(slots: seq<Slot>, files: map<string, nat>)

  /** How reading a file into a buffer goes: the bytes that get there; a failed read may have put some there too. */
  datatype Outcome = Read(data: seq<Byte>) | NotRead(left: seq<Byte>)

  const EMPTY := Cache([], map[])

  // ----- steps -----

  /** A buffer after bytes have been written to its beginning. */
  function Overwritten(buffer: seq<Byte>, bytes: seq<Byte>): (r: seq<Byte>)
    ensures |r| == |buffer|
  {
    if |bytes| >= |buffer| then bytes[..|buffer|] else bytes + buffer[|bytes|..]
  }

  function NewBuffer(o: Options): (r: seq<Byte>)
    ensures |r| == o.max
  {
    seq(o.max, i requires 0 <= i < o.max => o.garbage(i))
  }

  /** What a request copies from: as much of the buffer as the file had bytes when it was loaded. */
  function Content(s: Slot, size: nat): seq<Byte> {
    if size <= |s.data| then s.data[..size] else s.data
  }

  predicate Free(o: Options, s: Slot, now: int) {
    (s.load == NotLoaded || s.load == Loaded) && s.count == 0 && s.usedAt + o.expire <= now
  }

  function FirstFree(o: Options, slots: seq<Slot>, now: int): (r: Option<nat>)
    ensures r.Some? ==> r.value < |slots| && Free(o, slots[r.value], now)
    ensures r.None? ==> forall i :: 0 <= i < |slots| ==> !Free(o, slots[i], now)
  {
    if slots == [] then None
    else if Free(o, slots[0], now) then Some(0)
    else
      match FirstFree(o, slots[1..], now)
      case None => None
      case Some(i) => Some(i + 1)
  }

  /** Take a slot for a file: the first free one, whose file is forgotten, or a new one. */
  function TakeSlot(o: Options, c: Cache, name: string, stat: Stat, now: int): (Cache, Option<nat>) {
    match FirstFree(o, c.slots, now)
    case Some(i) =>
      var files := c.files - {c.slots[i].name};
      (Cache(c.slots[i := c.slots[i].(name := name, stat := stat, count := 0, load := Loading)],
             if name in files then files else files[name := i]), Some(i))
    case None =>
      if |c.slots| < o.num
      then (Cache(c.slots + [Slot(name, stat, 0, 0, Loading, NewBuffer(o))], c.files[name := |c.slots|]),
            Some(|c.slots|))
      else (c, None)
  }

  /** Read the file into its slot. */
  function Fill(c: Cache, i: nat, out: Outcome, now: int): (Cache, Option<nat>)
    requires i < |c.slots|
  {
    var s := c.slots[i];
    match out
    case Read(data) =>
      (c.(slots := c.slots[i := s.(count := s.count + 1, usedAt := now, load := Loaded,
                                           data := Overwritten(s.data, data))]), Some(i))
    case NotRead(left) =>
      (c.(slots := c.slots[i := s.(usedAt := 0, load := NotLoaded, data := Overwritten(s.data, left))]), None)
  }

  predicate Fits(o: Options, stat: Option<Stat>) {
    stat.Some? && o.min <= stat.value.size <= o.max
  }

  /** A request for a file: which slot serves it, if any. */
  function Load(o: Options, c: Cache, name: string, stat: Option<Stat>, out: Outcome, now: int): (Cache, Option<nat>) {
    if !Fits(o, stat) then (c, None)
    else if name in c.files then
      var i := c.files[name];
      if i >= |c.slots| then (c, None)
      else
        var s := c.slots[i];
        if s.load == Loading || s.load == Reloading then (c.(files := c.files - {name}), None)
        else if s.stat == stat.value
        then (c.(slots := c.slots[i := s.(usedAt := now, count := s.count + 1)]), Some(i))
        else Fill(c.(slots := c.slots[i := s.(stat := stat.value, load := Reloading)]), i, out, now)
    else
      var (c', slot) := TakeSlot(o, c, name, stat.value, now);
      if slot.None? || slot.value >= |c'.slots| then (c, None) else Fill(c', slot.value, out, now)
  }

  function Release(c: Cache, name: string): Cache {
    if name in c.files && c.files[name] < |c.slots|
    then c.(slots := c.slots[c.files[name] := c.slots[c.files[name]].(count := c.slots[c.files[name]].count - 1)])
    else c
  }

  // ----- the invariant -----

  predicate Settled(o: Options, s: Slot) {
    s.count >= 0 && (s.load == NotLoaded || s.load == Loaded) && Sized(o, s)
  }

  predicate Sized(o: Options, s: Slot) {
    s.stat.size <= o.max == |s.data|
  }

  /** Files and slots correspond one to one. */
  ghost predicate Paired(c: Cache) {
    && (forall n :: n in c.files ==> c.files[n] < |c.slots| && c.slots[c.files[n]].name == n)
    && (forall i :: 0 <= i < |c.slots| ==> c.slots[i].name in c.files && c.files[c.slots[i].name] == i)
  }

  ghost predicate Inv(o: Options, c: Cache) {
    Paired(c) && |c.slots| <= o.num && forall i :: 0 <= i < |c.slots| ==> Settled(o, c.slots[i])
  }

  /** How many requests are using a file. */
  function Users(c: Cache, name: string): int {
    if name in c.files && c.files[name] < |c.slots| then c.slots[c.files[name]].count else 0
  }

  /** All slots but one are settled; that one belongs to the file. */
  ghost predicate Filling(o: Options, c: Cache, i: nat, name: string) {
    && Paired(c) && |c.slots| <= o.num
    && i < |c.slots| && c.slots[i].name == name && c.slots[i].count >= 0 && Sized(o, c.slots[i])
    && forall j :: 0 <= j < |c.slots| && j != i ==> Settled(o, c.slots[j])
  }

  lemma TakenIsFilling(o: Options, c: Cache, name: string, stat: Stat, now: int)
    requires Inv(o, c) && name !in c.files && stat.size <= o.max
    ensures var (c', slot) := TakeSlot(o, c, name, stat, now);
      slot.Some? ==> Filling(o, c', slot.value, name) && c'.slots[slot.value].count == 0
  {
    hide FirstFree, NewBuffer, Paired;
    match FirstFree(o, c.slots, now)
    case Some(i) => ReusePairs(c, i, name, c.slots[i].(name := name, stat := stat, count := 0, load := Loading));
    case None => NewPairs(c, name, Slot(name, stat, 0, 0, Loading, NewBuffer(o)));
  }

  lemma ReusePairs(c: Cache, i: nat, name: string, s: Slot)
    requires Paired(c) && name !in c.files && i < |c.slots| && s.name == name
    ensures name !in c.files - {c.slots[i].name}
    ensures Paired(Cache(c.slots[i := s], (c.files - {c.slots[i].name})[name := i]))
  {
  }

  lemma NewPairs(c: Cache, name: string, s: Slot)
    requires Paired(c) && name !in c.files && s.name == name
    ensures Paired(Cache(c.slots + [s], c.files[name := |c.slots|]))
  {
  }

  lemma FilledIsSettled(o: Options, c: Cache, i: nat, name: string, out: Outcome, now: int)
    requires Filling(o, c, i, name)
    ensures var (c', slot) := Fill(c, i, out, now);
      && Inv(o, c') && (slot.Some? ==> slot.value == i) && name in c'.files && c'.files[name] == i
      && Users(c', name) == c.slots[i].count + (if slot.Some? then 1 else 0)
  {
  }

  /** A request keeps the correspondence, and counts itself if it is served. */
  lemma LoadKeepsInv(o: Options, c: Cache, name: string, stat: Option<Stat>, out: Outcome, now: int)
    requires Inv(o, c)
    ensures var (c', slot) := Load(o, c, name, stat, out, now);
      && Inv(o, c')
      && (slot.Some? ==> name in c'.files && c'.files[name] == slot.value)
      && Users(c', name) == Users(c, name) + (if slot.Some? then 1 else 0)
  {
    if Fits(o, stat) {
      if name in c.files {
        var i := c.files[name];
        if c.slots[i].stat != stat.value {
          var c1 := c.(slots := c.slots[i := c.slots[i].(stat := stat.value, load := Reloading)]);
          FilledIsSettled(o, c1, i, name, out, now);
        }
      } else {
        TakenIsFilling(o, c, name, stat.value, now);
        var (c1, slot) := TakeSlot(o, c, name, stat.value, now);
        if slot.Some? { FilledIsSettled(o, c1, slot.value, name, out, now); }
        hide TakeSlot, Fill;
      }
    }
  }

  /** Whatever is requested, a buffer in use by another file is left alone. */
  lemma LoadKeepsOthers(o: Options, c: Cache, name: string, stat: Option<Stat>, out: Outcome, now: int, other: string)
    requires Inv(o, c) && other != name
    ensures var c' := Load(o, c, name, stat, out, now).0;
      && Users(c', other) == Users(c, other)
      && (Users(c, other) > 0 ==> other in c'.files && c'.files[other] == c.files[other]
                                  && c'.slots[c.files[other]] == c.slots[c.files[other]])
  {
  }

  lemma ReleaseKeepsInv(o: Options, c: Cache, name: string)
    requires Inv(o, c) && Users(c, name) > 0
    ensures Inv(o, Release(c, name)) && Users(Release(c, name), name) == Users(c, name) - 1
    ensures forall other :: other != name ==> Users(Release(c, name), other) == Users(c, other)
  {
  }

  // ----- which requests are served -----

  /** A slot that another file can be given: nobody is using it, and its last use is long enough ago. */
  ghost predicate Spare(o: Options, c: Cache, now: int) {
    exists i :: 0 <= i < |c.slots| && c.slots[i].count == 0 && c.slots[i].usedAt + o.expire <= now
  }

  lemma SpareIsFound(o: Options, c: Cache, now: int)
    requires Inv(o, c)
    ensures FirstFree(o, c.slots, now).Some? <==> Spare(o, c, now)
    ensures FirstFree(o, c.slots, now).Some? ==>
      var i := FirstFree(o, c.slots, now).value; c.slots[i].count == 0 && c.slots[i].usedAt + o.expire <= now
  {
    forall i | 0 <= i < |c.slots|
      ensures Free(o, c.slots[i], now) <==> c.slots[i].count == 0 && c.slots[i].usedAt + o.expire <= now
    {
      assert Settled(o, c.slots[i]);
    }
    hide FirstFree, Free, Inv;
  }

  /** Main result: a file of a size that is put into the pool is served exactly if it looks as its slot remembers it, or
      can be read and has a slot, or can get a new one or a spare one. */
  lemma ServedExactly(o: Options, c: Cache, name: string, stat: Option<Stat>, out: Outcome, now: int)
    requires Inv(o, c)
    ensures Load(o, c, name, stat, out, now).1.Some? <==>
      && stat.Some? && o.min <= stat.value.size && stat.value.size <= o.max
      && if name in c.files then c.slots[c.files[name]].stat == stat.value || out.Read?
         else out.Read? && (|c.slots| < o.num || Spare(o, c, now))
  {
    SpareIsFound(o, c, now);
    if name in c.files { assert Settled(o, c.slots[c.files[name]]); }
    hide FirstFree, Spare, NewBuffer, Overwritten;
  }

  /** The slot of a served request is that of its file as it looks now, used just now; a file with a slot keeps it, and
      only the owner of a spare slot ever loses his. */
  lemma ServedSlot(o: Options, c: Cache, name: string, stat: Stat, out: Outcome, now: int)
    requires Inv(o, c) && Load(o, c, name, Some(stat), out, now).1.Some?
    ensures var (c', slot) := Load(o, c, name, Some(stat), out, now);
      && slot.value < |c'.slots| && name in c'.files && c'.files[name] == slot.value
      && var s := c'.slots[slot.value];
         s.name == name && s.stat == stat && s.usedAt == now
         && (name in c.files ==> c.files[name] == slot.value)
         && (name !in c.files ==> s.load == Loaded && s.count == 1)
    ensures var (c', slot) := Load(o, c, name, Some(stat), out, now);
      forall other :: other in c.files && other !in c'.files ==>
        var s := c.slots[c.files[other]]; s.count == 0 && s.usedAt + o.expire <= now
  {
    LoadKeepsInv(o, c, name, Some(stat), out, now);
    SpareIsFound(o, c, now);
    if name in c.files { assert Settled(o, c.slots[c.files[name]]); }
    hide FirstFree, Spare, NewBuffer, Overwritten;
  }

  // ----- runs -----

  datatype Event = Loads(name: string, stat: Option<Stat>, out: Outcome, now: int) | Releases(name: string)

  function Step(o: Options, c: Cache, e: Event): Cache {
    match e
    case Loads(name, stat, out, now) => Load(o, c, name, stat, out, now).0
    case Releases(name) => Release(c, name)
  }

  function After(o: Options, c: Cache, events: seq<Event>): Cache {
    if events == [] then c else Step(o, After(o, c, events[..|events| - 1]), events[|events| - 1])
  }

  /** How often a file was loaded successfully, less how often it was released. */
  function Outstanding(o: Options, events: seq<Event>, name: string): int {
    if events == [] then 0
    else
      var init := events[..|events| - 1];
      var before := Outstanding(o, init, name);
      match events[|events| - 1]
      case Loads(n, stat, out, now) =>
        if n == name && Load(o, After(o, EMPTY, init), n, stat, out, now).1.Some? then before + 1 else before
      case Releases(n) => if n == name then before - 1 else before
  }

  /** Only what was loaded is released. */
  ghost predicate Balanced(o: Options, events: seq<Event>) {
    forall i :: 0 <= i < |events| && events[i].Releases? ==> Outstanding(o, events[..i], events[i].name) > 0
  }

  /** Main result, in every state the pool can reach: files and slots correspond one to one, there are never more slots
      than allowed, and a slot counts exactly the loads of its file that have not been released. */
  lemma {:induction false} PoolFollowsHistory(o: Options, events: seq<Event>, name: string)
    requires Balanced(o, events)
    ensures Inv(o, After(o, EMPTY, events)) && Users(After(o, EMPTY, events), name) == Outstanding(o, events, name)
  {
    hide Inv, Users, Load, Release;
    if events == [] {
      EmptyInv(o, name);
    } else {
      var init, e := events[..|events| - 1], events[|events| - 1];
      assert forall i :: 0 <= i < |init| ==> init[..i] == events[..i];
      PoolFollowsHistory(o, init, name);
      var c := After(o, EMPTY, init);
      match e {
        case Loads(n, stat, out, now) =>
          LoadKeepsInv(o, c, n, stat, out, now);
          if n != name { LoadKeepsOthers(o, c, n, stat, out, now, name); }
        case Releases(n) =>
          PoolFollowsHistory(o, init, n);
          ReleaseKeepsInv(o, c, n);
      }
    }
  }

  lemma EmptyInv(o: Options, name: string)
    ensures Inv(o, EMPTY) && Users(EMPTY, name) == 0
  {
  }

  /** A slot in use keeps its file through any step. */
  lemma UsedSlotKeepsFile(o: Options, c: Cache, e: Event, i: nat)
    requires Inv(o, c) && i < |c.slots| && c.slots[i].count > 0
    requires e.Releases? ==> Users(c, e.name) > 0
    ensures i < |Step(o, c, e).slots| && Step(o, c, e).slots[i].name == c.slots[i].name
    ensures c.slots[i].name in Step(o, c, e).files && Step(o, c, e).files[c.slots[i].name] == i
  {
    var name := c.slots[i].name;
    assert Users(c, name) > 0;
    if e.Loads? {
      LoadKeepsInv(o, c, e.name, e.stat, e.out, e.now);
      if e.name != name { LoadKeepsOthers(o, c, e.name, e.stat, e.out, e.now, name); }
    }
  }

  // ----- what a buffer holds -----

  /** How a file looked when it was read, and what the read got. */
  datatype Reading = Reading(stat: Stat, data: seq<Byte>)

  /** A read gets at most as many bytes as were asked for. */
  predicate Plausible(e: Event) {
    e.Loads? && e.stat.Some? && e.out.Read? ==> |e.out.data| <= e.stat.value.size
  }

  predicate Complete(e: Event) {
    e.Loads? && e.stat.Some? && e.out.Read? ==> |e.out.data| == e.stat.value.size
  }

  /** The file looks as it did when its slot was last filled, or was meant to be. */
  predicate LooksSame(c: Cache, name: string, stat: Stat) {
    name in c.files && c.files[name] < |c.slots| && c.slots[c.files[name]].stat == stat
  }

  /** It does, but filling the slot failed. */
  predicate FailedBefore(c: Cache, name: string, stat: Stat) {
    LooksSame(c, name, stat) && c.slots[c.files[name]].load == NotLoaded
  }

  /** The event is a request for the file that reads it with success. */
  predicate Reads(o: Options, c: Cache, name: string, e: Event) {
    && e.Loads? && e.name == name && Fits(o, e.stat) && !LooksSame(c, name, e.stat.value)
    && e.out.Read? && Load(o, c, name, e.stat, e.out, e.now).1.Some?
  }

  /** What the last request that read the file got. */
  function LastRead(o: Options, events: seq<Event>, name: string): Option<Reading> {
    if events == [] then None
    else
      var init, e := events[..|events| - 1], events[|events| - 1];
      if Reads(o, After(o, EMPTY, init), name, e) then Some(Reading(e.stat.value, e.out.data))
      else LastRead(o, init, name)
  }

  predicate HoldsReading(s: Slot, r: Option<Reading>) {
    r.Some? && s.stat == r.value.stat && r.value.data <= s.data
  }

  /** A loaded slot belongs to the last look at its file and begins with what the last read of the file got. */
  ghost predicate Fresh(o: Options, events: seq<Event>, c: Cache) {
    forall i :: 0 <= i < |c.slots| && c.slots[i].load == Loaded ==>
      HoldsReading(c.slots[i], LastRead(o, events, c.slots[i].name))
  }

  lemma WrittenContent(buffer: seq<Byte>, bytes: seq<Byte>)
    requires |bytes| <= |buffer|
    ensures Overwritten(buffer, bytes)[..|bytes|] == bytes
  {
  }

  /** After an incomplete read the rest of the file's place holds what was in the buffer before. */
  lemma WrittenPart(buffer: seq<Byte>, bytes: seq<Byte>, b: seq<Byte>)
    requires bytes <= b && |b| <= |buffer|
    ensures Overwritten(buffer, bytes)[..|b|] == b <==> buffer[|bytes|..|b|] == b[|bytes|..]
  {
    assert Overwritten(buffer, bytes)[..|b|] == bytes + buffer[|bytes|..|b|];
    assert b == bytes + b[|bytes|..];
    assert (bytes + buffer[|bytes|..|b|])[|bytes|..] == buffer[|bytes|..|b|];
  }

  /** The buffer that a request which has to read its file reads it into. */
  function BufferFor(o: Options, c: Cache, name: string, now: int): seq<Byte> {
    if name in c.files && c.files[name] < |c.slots| then c.slots[c.files[name]].data
    else
      match FirstFree(o, c.slots, now)
      case Some(i) => c.slots[i].data
      case None => NewBuffer(o)
  }

  /** The pool and the slot that a request not served from a loaded slot fills. */
  ghost predicate ToFill(o: Options, c: Cache, name: string, stat: Stat, now: int, c1: Cache, i: nat) {
    if name in c.files
    then i == c.files[name] && i < |c.slots| && c.slots[i].stat != stat
         && c1 == c.(slots := c.slots[i := c.slots[i].(stat := stat, load := Reloading)])
    else TakeSlot(o, c, name, stat, now) == (c1, Some(i))
  }

  lemma ToFillIsReady(o: Options, c: Cache, name: string, stat: Stat, now: int, c1: Cache, i: nat)
    requires Inv(o, c) && stat.size <= o.max && ToFill(o, c, name, stat, now, c1, i)
    ensures i < |c1.slots| && c1.slots[i].name == name && c1.slots[i].stat == stat
    ensures c1.slots[i].data == BufferFor(o, c, name, now) && |c1.slots[i].data| == o.max
    ensures forall j :: 0 <= j < |c1.slots| && j != i ==> j < |c.slots| && c1.slots[j] == c.slots[j]
    ensures !LooksSame(c, name, stat)
  {
    hide NewBuffer;
    if name in c.files { assert Settled(o, c.slots[i]); } else { TakenIsFilling(o, c, name, stat, now); }
  }

  /** How a request goes: refused, served from its slot as it is, or filled. */
  lemma LoadCases(o: Options, c: Cache, name: string, stat: Option<Stat>, out: Outcome, now: int)
      returns (c1: Cache, i: nat)
    requires Inv(o, c)
    ensures var r := Load(o, c, name, stat, out, now);
      || r == (c, None)
      || (Fits(o, stat) && LooksSame(c, name, stat.value) && i == c.files[name]
          && r == (c.(slots := c.slots[i := c.slots[i].(usedAt := now, count := c.slots[i].count + 1)]), Some(i)))
      || (Fits(o, stat) && ToFill(o, c, name, stat.value, now, c1, i) && i < |c1.slots| && r == Fill(c1, i, out, now))
  {
    hide Fill;
    c1, i := c, 0;
    if Fits(o, stat) {
      if name in c.files {
        i := c.files[name];
        assert Settled(o, c.slots[i]);
        c1 := c.(slots := c.slots[i := c.slots[i].(stat := stat.value, load := Reloading)]);
      } else {
        TakenIsFilling(o, c, name, stat.value, now);
        var (c2, slot) := TakeSlot(o, c, name, stat.value, now);
        if slot.Some? { c1, i := c2, slot.value; }
      }
    }
  }

  lemma FillHolds(c: Cache, i: nat, out: Outcome, now: int)
    requires i < |c.slots| && |c.slots[i].data| >= c.slots[i].stat.size
    ensures var c' := Fill(c, i, out, now).0;
      && |c'.slots| == |c.slots| && (forall j :: 0 <= j < |c.slots| && j != i ==> c'.slots[j] == c.slots[j])
      && c'.slots[i].name == c.slots[i].name && (c'.slots[i].load == Loaded <==> out.Read?)
      && (out.Read? && |out.data| <= c.slots[i].stat.size ==>
            HoldsReading(c'.slots[i], Some(Reading(c.slots[i].stat, out.data))))
  {
    if out.Read? && |out.data| <= c.slots[i].stat.size { WrittenContent(c.slots[i].data, out.data); }
    hide Overwritten;
  }

  /** After a step, a loaded slot holds what the step has read of its file, or else what it held before. */
  lemma StepKeepsReading(o: Options, c: Cache, e: Event, j: nat, before: Option<Reading>)
    requires Inv(o, c) && Inv(o, Step(o, c, e)) && Plausible(e)
    requires j < |Step(o, c, e).slots| && Step(o, c, e).slots[j].load == Loaded
    requires j < |c.slots| && c.slots[j].load == Loaded && c.slots[j].name == Step(o, c, e).slots[j].name ==>
      HoldsReading(c.slots[j], before)
    ensures var s := Step(o, c, e).slots[j];
      HoldsReading(s, if Reads(o, c, s.name, e) then Some(Reading(e.stat.value, e.out.data)) else before)
  {
    if e.Loads? {
      var c1, i := LoadCases(o, c, e.name, e.stat, e.out, e.now);
      hide Load;
      if Fits(o, e.stat) && ToFill(o, c, e.name, e.stat.value, e.now, c1, i) {
        ToFillIsReady(o, c, e.name, e.stat.value, e.now, c1, i);
        FillHolds(c1, i, e.out, e.now);
      }
      hide ToFill, Fill;
    }
  }

  /** In every reachable state, a loaded slot holds what the last request that read its file got. */
  lemma {:induction false} PoolIsFresh(o: Options, events: seq<Event>)
    requires Balanced(o, events) && forall i :: 0 <= i < |events| ==> Plausible(events[i])
    ensures Inv(o, After(o, EMPTY, events)) && Fresh(o, events, After(o, EMPTY, events))
  {
    hide Inv, Step, HoldsReading, Reads;
    PoolFollowsHistory(o, events, "");
    if events != [] {
      var init, e := events[..|events| - 1], events[|events| - 1];
      assert forall i :: 0 <= i < |init| ==> init[..i] == events[..i];
      PoolIsFresh(o, init);
      var c, c' := After(o, EMPTY, init), After(o, EMPTY, events);
      forall j | 0 <= j < |c'.slots| && c'.slots[j].load == Loaded
        ensures HoldsReading(c'.slots[j], LastRead(o, events, c'.slots[j].name))
      {
        StepKeepsReading(o, c, e, j, LastRead(o, init, c'.slots[j].name));
      }
    }
  }

  /** If the file looks as before, the request finds what is in its slot; otherwise what it reads, and where that is
      short what was left in the buffer. */
  predicate FindsContent(o: Options, c: Cache, name: string, stat: Stat, b: seq<Byte>, out: Outcome, now: int) {
    if LooksSame(c, name, stat) then Content(c.slots[c.files[name]], stat.size) == b
    else
      var buffer := BufferFor(o, c, name, now);
      out.Read? && |out.data| <= |b| <= |buffer| && buffer[|out.data|..|b|] == b[|out.data|..]
  }

  /** One request, for a file that holds `b` by now, of which a read gets a first part at least: the content it is
      served with is `b` in exactly these cases; in particular whenever it reads the whole file. */
  lemma LoadedContent(o: Options, c: Cache, name: string, stat: Stat, b: seq<Byte>, out: Outcome, now: int)
    requires Inv(o, c) && |b| == stat.size && (out.Read? ==> out.data <= b)
    requires Load(o, c, name, Some(stat), out, now).1.Some?
    ensures var (c', slot) := Load(o, c, name, Some(stat), out, now);
      && slot.value < |c'.slots| && c'.slots[slot.value].stat == stat
      && (Content(c'.slots[slot.value], stat.size) == b <==> FindsContent(o, c, name, stat, b, out, now))
    ensures !LooksSame(c, name, stat) && (out.Read? ==> out.data == b) ==> FindsContent(o, c, name, stat, b, out, now)
  {
    var c1, i := LoadCases(o, c, name, Some(stat), out, now);
    hide Load, BufferFor;
    if LooksSame(c, name, stat) {
      SameContent(c, i, now, stat.size);
      hide Content;
    } else {
      ToFillIsReady(o, c, name, stat, now, c1, i);
      hide Inv, ToFill;
      WrittenPart(c1.slots[i].data, out.data, b);
      hide Overwritten;
    }
  }

  lemma SameContent(c: Cache, i: nat, now: int, size: nat)
    requires i < |c.slots|
    ensures Content(c.slots[i].(usedAt := now, count := c.slots[i].count + 1), size) == Content(c.slots[i], size)
  {
  }

  lemma {:induction false} LastReadIsComplete(o: Options, events: seq<Event>, name: string)
    requires forall i :: 0 <= i < |events| ==> Complete(events[i])
    ensures var r := LastRead(o, events, name); r.Some? ==> |r.value.data| == r.value.stat.size
  {
    if events != [] { LastReadIsComplete(o, events[..|events| - 1], name); }
  }

  /** Main result, over every run of complete reads: a served request finds what its file holds by now, except exactly
      when the file looks as it did when it was last read, but holds something else than was read then (or, if that
      read failed, than happens to be in the buffer). */
  lemma ServedContent(o: Options, events: seq<Event>, name: string, stat: Stat, b: seq<Byte>, out: Outcome, now: int)
    requires Balanced(o, events) && forall i :: 0 <= i < |events| ==> Complete(events[i])
    requires |b| == stat.size && (out.Read? ==> out.data == b)
    requires Load(o, After(o, EMPTY, events), name, Some(stat), out, now).1.Some?
    ensures var c := After(o, EMPTY, events);
      var (c', slot) := Load(o, c, name, Some(stat), out, now);
      && slot.value < |c'.slots|
      && (Content(c'.slots[slot.value], stat.size) == b <==>
            !(LooksSame(c, name, stat)
              && if FailedBefore(c, name, stat) then Content(c.slots[c.files[name]], stat.size) != b
                 else LastRead(o, events, name) != Some(Reading(stat, b))))
  {
    hide Load, Content, BufferFor, Reads, LastRead, After;
    var c := After(o, EMPTY, events);
    PoolIsFresh(o, events);
    LoadedContent(o, c, name, stat, b, out, now);
    LastReadIsComplete(o, events, name);
    if LooksSame(c, name, stat) && !FailedBefore(c, name, stat) {
      var s := c.slots[c.files[name]];
      assert Settled(o, s) && HoldsReading(s, LastRead(o, events, name));
      WholeReading(s, LastRead(o, events, name).value);
    }
    hide Inv, Fresh;
  }

  lemma WholeReading(s: Slot, r: Reading)
    requires HoldsReading(s, Some(r)) && |r.data| == r.stat.size
    ensures Content(s, s.stat.size) == r.data
  {
  }

  /** It does happen, without any failed read: a second copy of the same size, made over the first within the same
      second, looks the same, and requests go on being served with the first. */
  lemma SecondCopyIsMissed(o: Options, name: string, stat: Stat, a: seq<Byte>, b: seq<Byte>, now: int, later: int)
    requires o.min <= stat.size <= o.max && o.num > 0 && |a| == |b| == stat.size && a != b
    ensures var (c1, first) := Load(o, EMPTY, name, Some(stat), Read(a), now);
      var (c2, second) := Load(o, c1, name, Some(stat), Read(b), later);
      && first == second == Some(0) && !FailedBefore(c1, name, stat) && |c2.slots| == 1
      && Content(c2.slots[0], stat.size) == a
  {
    WrittenContent(NewBuffer(o), a);
    hide Overwritten, NewBuffer;
  }

  /** And so does the other exception: after a failed read, an immediate second request is served with what the first
      left behind. */
  lemma FailedReadIsServed(o: Options, name: string, stat: Stat, left: seq<Byte>, out: Outcome, now: int)
    requires o.min <= stat.size <= o.max && o.num > 0
    ensures var c := Load(o, EMPTY, name, Some(stat), NotRead(left), now).0;
      && Load(o, EMPTY, name, Some(stat), NotRead(left), now).1 == None
      && Load(o, c, name, Some(stat), out, now).1 == Some(0)
      && Load(o, c, name, Some(stat), out, now).0.slots[0].data == Overwritten(NewBuffer(o), left)
  {
    hide Overwritten, NewBuffer;
  }

  // ----- what happens to a buffer while a request copies from it -----

  /** The slot is the file's, and in use. */
  predicate Held(c: Cache, i: nat, name: string) {
    i < |c.slots| && c.slots[i].name == name && c.slots[i].count > 0
  }

  /** A request for the file that finds it changed. */
  predicate Reloads(o: Options, name: string, stat: Stat, e: Event) {
    e.Loads? && e.name == name && Fits(o, e.stat) && e.stat.value != stat
  }

  /** Others only release what they have loaded, so not what the one request is holding. */
  predicate Fair(c: Cache, name: string, e: Event) {
    e.Releases? ==> Users(c, e.name) > if e.name == name then 1 else 0
  }

  /** A step keeps a slot that is held, and unless it is a request that finds the file changed also its buffer. */
  lemma StepKeepsHeld(o: Options, c: Cache, i: nat, name: string, e: Event)
    requires Inv(o, c) && Held(c, i, name) && Fair(c, name, e)
    ensures Inv(o, Step(o, c, e)) && Held(Step(o, c, e), i, name)
    ensures !Reloads(o, name, c.slots[i].stat, e) ==>
      Step(o, c, e).slots[i].data == c.slots[i].data && Step(o, c, e).slots[i].stat == c.slots[i].stat
  {
    assert Users(c, name) > 0;
    if e.Loads? {
      LoadKeepsInv(o, c, e.name, e.stat, e.out, e.now);
      if e.name != name { LoadKeepsOthers(o, c, e.name, e.stat, e.out, e.now, name); }
    } else {
      ReleaseKeepsInv(o, c, e.name);
    }
  }

  /** Main result, one step: a request leaves a buffer in use alone, whatever it reads, if and only if it is not one for
      the same file that finds it changed. */
  lemma HeldBufferStaysExactly(o: Options, c: Cache, i: nat, name: string, stat: Option<Stat>, now: int)
    requires Inv(o, c) && i < |c.slots| && c.slots[i].count > 0 && o.max > 0
    ensures (forall out :: Load(o, c, name, stat, out, now).0.slots[i].data == c.slots[i].data)
       <==> !(name == c.slots[i].name && Fits(o, stat) && stat.value != c.slots[i].stat)
  {
    var owner := c.slots[i].name;
    if Reloads(o, owner, c.slots[i].stat, Loads(name, stat, Read([]), now)) {
      var out := Read([c.slots[i].data[0] + 1]);
      assert Load(o, c, name, stat, out, now).0.slots[i].data[0] == c.slots[i].data[0] + 1;
    } else {
      forall out ensures Load(o, c, name, stat, out, now).0.slots[i].data == c.slots[i].data {
        StepKeepsHeld(o, c, i, owner, Loads(name, stat, out, now));
      }
    }
  }

  ghost predicate FairRun(o: Options, c: Cache, name: string, events: seq<Event>) {
    forall k :: 0 <= k < |events| ==> Fair(After(o, c, events[..k]), name, events[k])
  }

  ghost predicate NoReload(o: Options, name: string, stat: Stat, events: seq<Event>) {
    forall k :: 0 <= k < |events| ==> !Reloads(o, name, stat, events[k])
  }

  lemma {:induction false} HeldBufferStays(o: Options, c: Cache, i: nat, name: string, events: seq<Event>)
    requires Inv(o, c) && Held(c, i, name) && FairRun(o, c, name, events)
    ensures Inv(o, After(o, c, events)) && Held(After(o, c, events), i, name)
    ensures NoReload(o, name, c.slots[i].stat, events) ==>
      After(o, c, events).slots[i].data == c.slots[i].data && After(o, c, events).slots[i].stat == c.slots[i].stat
  {
    hide Inv, Step, Reloads, Fair, FairRun, NoReload;
    if events != [] {
      var init, e := events[..|events| - 1], events[|events| - 1];
      assert events == init + [e];
      FairLess(o, c, name, init, e);
      NoReloadOneMore(o, name, c.slots[i].stat, init, e);
      HeldBufferStays(o, c, i, name, init);
      StepKeepsHeld(o, After(o, c, init), i, name, e);
      assert After(o, c, events) == Step(o, After(o, c, init), e);
      hide After;
    }
  }

  /** The same requests and releases, but what is read of the one file may differ. */
  predicate SameButReads(name: string, e: Event, e': Event) {
    e == e' || (e.Loads? && e'.Loads? && e.name == name && e' == e.(out := e'.out))
  }

  predicate Variant(name: string, events: seq<Event>, events': seq<Event>) {
    |events| == |events'| && forall k :: 0 <= k < |events| ==> SameButReads(name, events[k], events'[k])
  }

  /** The variant in which every read of the file begins with one byte. */
  function Spoil(name: string, b: Byte, e: Event): Event {
    if e.Loads? && e.name == name then e.(out := Read([b])) else e
  }

  function SpoilAll(name: string, b: Byte, events: seq<Event>): (r: seq<Event>)
    ensures |r| == |events| && forall k :: 0 <= k < |r| ==> r[k] == Spoil(name, b, events[k])
  {
    seq(|events|, k requires 0 <= k < |events| => Spoil(name, b, events[k]))
  }

  /** Two pools that differ in the buffer and the users of one held slot. */
  ghost predicate Twins(c: Cache, c': Cache, i: nat, name: string) {
    && c.files == c'.files && |c.slots| == |c'.slots|
    && (forall j :: 0 <= j < |c.slots| && j != i ==> c.slots[j] == c'.slots[j])
    && Held(c, i, name) && Held(c', i, name)
    && c.slots[i].stat == c'.slots[i].stat && c.slots[i].count <= c'.slots[i].count
  }

  lemma {:induction false} SameFree(o: Options, a: seq<Slot>, b: seq<Slot>, i: nat, now: int)
    requires i < |a| == |b| && a[i].count > 0 && b[i].count > 0
    requires forall j :: 0 <= j < |a| && j != i ==> a[j] == b[j]
    ensures FirstFree(o, a, now) == FirstFree(o, b, now)
  {
    if i > 0 {
      assert a[0] == b[0];
      assert forall j :: 0 <= j < |a| - 1 ==> a[1..][j] == a[j + 1] && b[1..][j] == b[j + 1];
      SameFree(o, a[1..], b[1..], i - 1, now);
    } else {
      assert a[1..] == b[1..] && !Free(o, a[0], now) && !Free(o, b[0], now);
    }
  }

  lemma TwinsTake(o: Options, c: Cache, c': Cache, i: nat, name: string, other: string, stat: Stat, now: int)
    requires Inv(o, c) && Inv(o, c') && Twins(c, c', i, name) && other !in c.files
    ensures TakeSlot(o, c, other, stat, now).1 == TakeSlot(o, c', other, stat, now).1 != Some(i)
    ensures Twins(TakeSlot(o, c, other, stat, now).0, TakeSlot(o, c', other, stat, now).0, i, name)
  {
    SameFree(o, c.slots, c'.slots, i, now);
    hide FirstFree;
  }

  lemma TwinsFill(c: Cache, c': Cache, i: nat, name: string, j: nat, out: Outcome, now: int)
    requires Twins(c, c', i, name) && j < |c.slots| && j != i
    ensures Twins(Fill(c, j, out, now).0, Fill(c', j, out, now).0, i, name)
  {
    hide Overwritten;
  }

  lemma TwinsStepElsewhere(o: Options, c: Cache, c': Cache, i: nat, name: string, e: Event)
    requires Inv(o, c) && Inv(o, c') && Twins(c, c', i, name) && e.name != name && Fair(c, name, e)
    ensures Twins(Step(o, c, e), Step(o, c', e), i, name) && Fair(c', name, e)
  {
    hide Overwritten, FirstFree;
    if e.Loads? && Fits(o, e.stat) {
      if e.name in c.files {
        var j, stat := c.files[e.name], e.stat.value;
        var s := c.slots[j];
        assert j != i && Settled(o, s);
        if s.stat != stat {
          TwinsFill(c.(slots := c.slots[j := s.(stat := stat, load := Reloading)]),
                    c'.(slots := c'.slots[j := s.(stat := stat, load := Reloading)]), i, name, j, e.out, e.now);
        }
      } else {
        TwinsTake(o, c, c', i, name, e.name, e.stat.value, e.now);
        TakenIsFilling(o, c, e.name, e.stat.value, e.now);
        var (c1, slot) := TakeSlot(o, c, e.name, e.stat.value, e.now);
        var (c2, slot') := TakeSlot(o, c', e.name, e.stat.value, e.now);
        hide TakeSlot;
        if slot.Some? { TwinsFill(c1, c2, i, name, slot.value, e.out, e.now); }
      }
    }
  }

  /** The slot after a request for its own file. */
  function Requested(s: Slot, stat: Stat, out: Outcome, now: int): Slot {
    if s.stat == stat then s.(usedAt := now, count := s.count + 1)
    else
      match out
      case Read(data) =>
        s.(stat := stat, count := s.count + 1, usedAt := now, load := Loaded, data := Overwritten(s.data, data))
      case NotRead(left) => s.(stat := stat, usedAt := 0, load := NotLoaded, data := Overwritten(s.data, left))
  }

  lemma RequestHere(o: Options, c: Cache, i: nat, name: string, stat: Option<Stat>, out: Outcome, now: int)
    requires Inv(o, c) && Held(c, i, name)
    ensures Load(o, c, name, stat, out, now).0 ==
      if Fits(o, stat) then c.(slots := c.slots[i := Requested(c.slots[i], stat.value, out, now)]) else c
  {
    assert name in c.files && c.files[name] == i && Settled(o, c.slots[i]);
    hide Overwritten, Inv, TakeSlot;
  }

  lemma TwinsReplaced(c: Cache, c': Cache, i: nat, name: string, s: Slot, s': Slot)
    requires Twins(c, c', i, name) && s.name == s'.name == name && s.stat == s'.stat && 0 < s.count <= s'.count
    ensures Twins(c.(slots := c.slots[i := s]), c'.(slots := c'.slots[i := s']), i, name)
  {
  }

  lemma TwinsStepHere(o: Options, c: Cache, c': Cache, i: nat, name: string, e: Event, b: Byte)
    requires Inv(o, c) && Inv(o, c') && Twins(c, c', i, name) && e.name == name && Fair(c, name, e) && o.max > 0
    ensures Twins(Step(o, c, e), Step(o, c', Spoil(name, b, e)), i, name) && Fair(c', name, Spoil(name, b, e))
    ensures Step(o, c', Spoil(name, b, e)).slots[i].data == c'.slots[i].data
         || Step(o, c', Spoil(name, b, e)).slots[i].data == Overwritten(c'.slots[i].data, [b])
    ensures Reloads(o, name, c'.slots[i].stat, e) ==>
      Step(o, c', Spoil(name, b, e)).slots[i].data == Overwritten(c'.slots[i].data, [b])
  {
    hide Overwritten, Load;
    var s, s' := c.slots[i], c'.slots[i];
    if e.Loads? {
      RequestHere(o, c, i, name, e.stat, e.out, e.now);
      RequestHere(o, c', i, name, e.stat, Read([b]), e.now);
      hide Inv;
      if Fits(o, e.stat) {
        TwinsReplaced(c, c', i, name, Requested(s, e.stat.value, e.out, e.now),
                      Requested(s', e.stat.value, Read([b]), e.now));
      }
    } else {
      assert name in c.files && c.files[name] == i && Users(c, name) == s.count;
      hide Inv;
      TwinsReplaced(c, c', i, name, s.(count := s.count - 1), s'.(count := s'.count - 1));
    }
  }

  lemma NoReloadOneMore(o: Options, name: string, stat: Stat, events: seq<Event>, e: Event)
    ensures NoReload(o, name, stat, events + [e]) <==> NoReload(o, name, stat, events) && !Reloads(o, name, stat, e)
  {
    hide Reloads;
    var all := events + [e];
    assert all[|events|] == e && forall k :: 0 <= k < |events| ==> all[k] == events[k];
  }

  /** The spoiled run goes like the original, except that a request that finds the file changed spoils the buffer. */
  ghost predicate Spoiled(o: Options, c: Cache, i: nat, name: string, events: seq<Event>, spoiled: seq<Event>, b: Byte)
  {
    && FairRun(o, c, name, spoiled) && Inv(o, After(o, c, spoiled)) && Inv(o, After(o, c, events))
    && Twins(After(o, c, events), After(o, c, spoiled), i, name)
    && i < |c.slots| && i < |After(o, c, spoiled).slots| && |After(o, c, spoiled).slots[i].data| > 0
    && (if NoReload(o, name, c.slots[i].stat, events) then After(o, c, spoiled).slots[i].stat == c.slots[i].stat
        else After(o, c, spoiled).slots[i].data[0] == b)
  }

  lemma {:induction false} SpoiledRun(o: Options, c: Cache, i: nat, name: string, events: seq<Event>, b: Byte)
    requires Inv(o, c) && Held(c, i, name) && FairRun(o, c, name, events) && o.max > 0
    ensures Spoiled(o, c, i, name, events, SpoilAll(name, b, events), b)
  {
    hide Inv, Fair, FairRun, After, Spoiled, NoReload, Held;
    if events == [] {
      SpoiledNone(o, c, i, name, b);
    } else {
      var init, e := events[..|events| - 1], events[|events| - 1];
      assert events == init + [e];
      FairLess(o, c, name, init, e);
      SpoiledRun(o, c, i, name, init, b);
      HeldBufferStays(o, c, i, name, events);
      assert SpoilAll(name, b, events) == SpoilAll(name, b, init) + [Spoil(name, b, e)];
      SpoiledOneMore(o, c, i, name, init, SpoilAll(name, b, init), e, b);
    }
  }

  lemma SpoiledNone(o: Options, c: Cache, i: nat, name: string, b: Byte)
    requires Inv(o, c) && Held(c, i, name) && o.max > 0
    ensures Spoiled(o, c, i, name, [], [], b)
  {
    hide Inv;
    SizedSlot(o, c, i);
  }

  lemma FairLess(o: Options, c: Cache, name: string, init: seq<Event>, e: Event)
    requires FairRun(o, c, name, init + [e])
    ensures FairRun(o, c, name, init) && Fair(After(o, c, init), name, e)
  {
    hide Fair, After;
    var all := init + [e];
    assert all[..|init|] == init && all[|init|] == e;
    forall k | 0 <= k < |init| ensures Fair(After(o, c, init[..k]), name, init[k]) {
      assert all[..k] == init[..k] && all[k] == init[k];
    }
  }

  lemma SpoiledOneMore(o: Options, c: Cache, i: nat, name: string, init: seq<Event>, spoiled: seq<Event>, e: Event,
                       b: Byte)
    requires Inv(o, c) && Held(c, i, name) && Spoiled(o, c, i, name, init, spoiled, b) && o.max > 0
    requires Fair(After(o, c, init), name, e) && FairRun(o, c, name, init)
    requires Inv(o, After(o, c, init + [e]))
    ensures Spoiled(o, c, i, name, init + [e], spoiled + [Spoil(name, b, e)], b)
  {
    hide Inv, Step, Fair, Twins, Reloads, FairRun, After;
    var e' := Spoil(name, b, e);
    var c1, c2 := After(o, c, init), After(o, c, spoiled);
    SpoiledStep(o, c1, c2, i, name, e, b);
    FairOneMore(o, c, name, spoiled, e');
    FairOneMore(o, c, name, init, e);
    NoReloadOneMore(o, name, c.slots[i].stat, init, e);
    hide NoReload, Spoil;
  }

  lemma FairOneMore(o: Options, c: Cache, name: string, events: seq<Event>, e: Event)
    requires FairRun(o, c, name, events) && Fair(After(o, c, events), name, e)
    ensures FairRun(o, c, name, events + [e]) && After(o, c, events + [e]) == Step(o, After(o, c, events), e)
  {
    hide Fair, Step;
    var all := events + [e];
    assert all[..|events|] == events;
    forall k | 0 <= k < |all| ensures Fair(After(o, c, all[..k]), name, all[k]) {
      if k < |events| { assert all[..k] == events[..k]; }
    }
  }

  lemma SpoiledStep(o: Options, c: Cache, c': Cache, i: nat, name: string, e: Event, b: Byte)
    requires Inv(o, c) && Inv(o, c') && Twins(c, c', i, name) && Fair(c, name, e) && o.max > 0
    ensures var e', c2 := Spoil(name, b, e), Step(o, c', Spoil(name, b, e));
      && Twins(Step(o, c, e), c2, i, name) && Fair(c', name, e') && Inv(o, c2)
      && i < |c'.slots| && i < |c2.slots| && |c'.slots[i].data| > 0 && |c2.slots[i].data| > 0
      && (c'.slots[i].data[0] == b ==> c2.slots[i].data[0] == b)
      && (if Reloads(o, name, c'.slots[i].stat, e) then c2.slots[i].data[0] == b
          else c2.slots[i].stat == c'.slots[i].stat)
  {
    hide Step, Inv, Overwritten, Fair;
    SizedSlot(o, c', i);
    if e.name == name {
      TwinsStepHere(o, c, c', i, name, e, b);
      StepKeepsHeld(o, c', i, name, Spoil(name, b, e));
      FirstByte(c'.slots[i].data, b);
    } else {
      TwinsStepElsewhere(o, c, c', i, name, e);
      StepKeepsHeld(o, c', i, name, e);
    }
    SizedSlot(o, Step(o, c', Spoil(name, b, e)), i);
  }

  lemma SizedSlot(o: Options, c: Cache, i: nat)
    requires Inv(o, c) && i < |c.slots|
    ensures |c.slots[i].data| == o.max
  {
    assert Settled(o, c.slots[i]);
  }

  lemma FirstByte(buffer: seq<Byte>, b: Byte)
    requires |buffer| > 0
    ensures Overwritten(buffer, [b])[0] == b
  {
  }

  /** Whatever is read of the file meanwhile, the request copies what it loaded. */
  ghost predicate CopiesWhatItLoaded(o: Options, c: Cache, i: nat, name: string, between: seq<Event>, size: nat)
    requires i < |c.slots|
  {
    forall events :: Variant(name, between, events) && FairRun(o, c, name, events) ==>
      i < |After(o, c, events).slots| && Content(After(o, c, events).slots[i], size) == Content(c.slots[i], size)
  }

  /** Main result, whole runs: between load and copy anything may happen. Whatever the requests in between read of the
      file, the copy is what was loaded, if and only if none of them finds the file changed. */
  lemma CopyIsSafeExactly(o: Options, c: Cache, i: nat, name: string, between: seq<Event>)
    requires Inv(o, c) && Held(c, i, name) && FairRun(o, c, name, between) && c.slots[i].stat.size > 0
    ensures CopiesWhatItLoaded(o, c, i, name, between, c.slots[i].stat.size)
       <==> NoReload(o, name, c.slots[i].stat, between)
  {
    hide Inv, Step, FairRun;
    var stat := c.slots[i].stat;
    SizedSlot(o, c, i);
    StatFits(o, c, i);
    if NoReload(o, name, stat, between) {
      forall events | Variant(name, between, events) && FairRun(o, c, name, events)
        ensures i < |After(o, c, events).slots|
        ensures Content(After(o, c, events).slots[i], stat.size) == Content(c.slots[i], stat.size)
      {
        VariantReloads(o, name, stat, between, events);
        HeldBufferStays(o, c, i, name, events);
      }
    } else {
      var b := c.slots[i].data[0] + 1;
      var events := SpoilAll(name, b, between);
      SpoiledRun(o, c, i, name, between, b);
      HeldBufferStays(o, c, i, name, events);
      SizedSlot(o, After(o, c, events), i);
      assert Variant(name, between, events);
      assert Content(After(o, c, events).slots[i], stat.size)[0] == b;
      assert Content(c.slots[i], stat.size)[0] != b;
    }
  }

  lemma StatFits(o: Options, c: Cache, i: nat)
    requires Inv(o, c) && i < |c.slots|
    ensures c.slots[i].stat.size <= o.max
  {
    assert Settled(o, c.slots[i]);
  }

  lemma VariantReloads(o: Options, name: string, stat: Stat, events: seq<Event>, events': seq<Event>)
    requires Variant(name, events, events') && NoReload(o, name, stat, events)
    ensures NoReload(o, name, stat, events')
  {
    forall k | 0 <= k < |events'| ensures !Reloads(o, name, stat, events'[k]) {
      assert SameButReads(name, events[k], events'[k]) && !Reloads(o, name, stat, events[k]);
    }
  }

  /** It does happen, without any failed read: a second request finds the file changed while the first is copying, and
      the first copies out of the new file. */
  lemma ReloadUnderReader(o: Options, name: string, before: Stat, after: Stat, a: seq<Byte>, b: seq<Byte>, now: int)
    requires o.min <= before.size <= o.max && o.min <= after.size <= o.max && o.num > 0 && before != after
    requires |a| == before.size && |b| == after.size
    ensures var (c1, first) := Load(o, EMPTY, name, Some(before), Read(a), now);
      var (c2, second) := Load(o, c1, name, Some(after), Read(b), now);
      && first == second == Some(0) && c2.slots[0].count == 2
      && c1.slots[0].data[..before.size] == a && c2.slots[0].data[..after.size] == b
  {
    WrittenContent(NewBuffer(o), a);
    WrittenContent(Overwritten(NewBuffer(o), a), b);
    hide Overwritten, NewBuffer;
  }

  /** If no request in between finds the file changed, the answers of a request through the cache, at whatever position,
      are those the file itself gave at the load, if and only if the load found the file's content. */
  lemma CachedAnswer(o: Options, c: Cache, name: string, stat: Stat, b: seq<Byte>, out: Outcome, now: int,
                     between: seq<Event>, size: nat)
    requires Inv(o, c) && |b| == stat.size < INT_LIMIT && (out.Read? ==> out.data <= b)
    requires Load(o, c, name, Some(stat), out, now).1.Some?
    requires FairRun(o, Load(o, c, name, Some(stat), out, now).0, name, between) && NoReload(o, name, stat, between)
    requires size > 0
    ensures var (c1, slot) := Load(o, c, name, Some(stat), out, now);
      && slot.value < |After(o, c1, between).slots|
      && (SameAnswers(Content(After(o, c1, between).slots[slot.value], stat.size), b, size)
          <==> FindsContent(o, c, name, stat, b, out, now))
  {
    hide Inv, Step, Reloads, FairRun, FindsContent, SameAnswers;
    var (c1, slot) := Load(o, c, name, Some(stat), out, now);
    LoadedContent(o, c, name, stat, b, out, now);
    LoadHolds(o, c, name, Some(stat), out, now);
    LoadKeepsInv(o, c, name, Some(stat), out, now);
    hide Load;
    HeldBufferStays(o, c1, slot.value, name, between);
    SizedSlot(o, c1, slot.value);
    StatFits(o, c1, slot.value);
    SameAnswersExactly(Content(c1.slots[slot.value], stat.size), b, size);
  }

  /** The answers out of the copy are those out of the file. */
  ghost predicate SameAnswers(copy: seq<Byte>, file: seq<Byte>, size: nat) {
    forall pos :: 0 <= pos < INT_LIMIT ==> FromMem(copy, pos, size) == FromFile(file, pos, size)
  }

  lemma SameAnswersExactly(copy: seq<Byte>, file: seq<Byte>, size: nat)
    requires |copy| == |file| < INT_LIMIT && size > 0
    ensures SameAnswers(copy, file, size) <==> copy == file
  {
    hide FromMem, FromFile;
    forall pos | 0 <= pos < INT_LIMIT
      ensures copy == file ==> FromMem(copy, pos, size) == FromFile(file, pos, size)
      ensures FromMem(copy, pos, size) == FromFile(file, pos, size) && pos < |file| ==> copy[pos] == file[pos]
    {
      AnswersThePiece(copy, pos, size, true);
      AnswersThePiece(file, pos, size, false);
      if pos < |file| {
        var end := Min(pos + size, |file|);
        assert copy[pos..end] == file[pos..end] ==> copy[pos..end][0] == file[pos..end][0];
      }
    }
  }

  lemma LoadHolds(o: Options, c: Cache, name: string, stat: Option<Stat>, out: Outcome, now: int)
    requires Inv(o, c) && Load(o, c, name, stat, out, now).1.Some?
    ensures var (c1, slot) := Load(o, c, name, stat, out, now); Held(c1, slot.value, name)
  {
    LoadKeepsInv(o, c, name, stat, out, now);
    UsersArePositive(o, c, name);
  }

  lemma UsersArePositive(o: Options, c: Cache, name: string)
    requires Inv(o, c)
    ensures Users(c, name) >= 0
  {
  }

  // ----- the pool object -----

  class Pool {
    const options: Options
    var vecMems: seq<Slot>
    var mapFiles: map<string, nat>

    ghost function Value(): Cache
      reads this
    {
      Cache(vecMems, mapFiles)
    }

    ghost predicate Valid()
      reads this
    {
      Inv(options, Value())
    }

    constructor (o: Options)
      ensures Valid() && options == o && Value() == EMPTY
    {
      options, vecMems, mapFiles := o, [], map[];
    }

    /** The first slot that is not in use and old enough. */
    method FindFree(now: int) returns (cur: Option<nat>)
      ensures cur == FirstFree(options, vecMems, now)
    {
      for i := 0 to |vecMems|
        invariant FirstFree(options, vecMems, now) ==
          (match FirstFree(options, vecMems[i..], now) case None => None case Some(k) => Some(i + k))
      {
        var rest := vecMems[i..];
        assert rest[0] == vecMems[i] && rest[1..] == vecMems[i + 1..];
        if Free(options, vecMems[i], now) {
          return Some(i);
        }
      }
      return None;
    }

    /** Find or make a slot for a file. */
    method GetMem(name: string, stat: Stat, now: int) returns (cur: Option<nat>)
      modifies this
      ensures (Value(), cur) == TakeSlot(options, old(Value()), name, stat, now)
    {
      hide FirstFree;
      cur := FindFree(now);
      if cur.Some? {
        mapFiles := mapFiles - {vecMems[cur.value].name};
        vecMems := vecMems[cur.value := vecMems[cur.value].(name := name, stat := stat, count := 0, load := Loading)];
        if name !in mapFiles {
          mapFiles := mapFiles[name := cur.value];
        }
      } else if |vecMems| < options.num {
        cur := Some(|vecMems|);
        vecMems := vecMems + [Slot(name, stat, 0, 0, Loading, NewBuffer(options))];
        mapFiles := mapFiles[name := cur.value];
      }
    }

    method LoadFile(name: string, stat: Option<Stat>, out: Outcome, now: int) returns (mem: Option<nat>)
      requires Valid()
      modifies this
      ensures Valid() && (Value(), mem) == Load(options, old(Value()), name, stat, out, now)
    {
      LoadKeepsInv(options, Value(), name, stat, out, now);
      if stat.None? || stat.value.size > options.max || stat.value.size < options.min {
        return None;
      }
      var cur: nat;
      if name in mapFiles {
        cur := mapFiles[name];
        var s := vecMems[cur];
        assert Settled(options, s);
        if s.stat == stat.value {
          vecMems := vecMems[cur := s.(usedAt := now, count := s.count + 1)];
          return Some(cur);
        }
        vecMems := vecMems[cur := s.(stat := stat.value, load := Reloading)];
      } else {
        TakenIsFilling(options, Value(), name, stat.value, now);
        var slot := GetMem(name, stat.value, now);
        if slot.None? {
          return None;
        }
        cur := slot.value;
      }
      hide Inv, TakeSlot;
      mem := FillSlot(cur, out, now);
    }

    /** Read the file into its slot and count the request if that succeeds. */
    method FillSlot(i: nat, out: Outcome, now: int) returns (mem: Option<nat>)
      requires i < |vecMems|
      modifies this`vecMems
      ensures (Value(), mem) == Fill(old(Value()), i, out, now)
    {
      var s := vecMems[i];
      match out {
        case Read(data) =>
          vecMems := vecMems[i := s.(count := s.count + 1, usedAt := now, load := Loaded,
                                     data := Overwritten(s.data, data))];
          return Some(i);
        case NotRead(left) =>
          vecMems := vecMems[i := s.(usedAt := 0, load := NotLoaded, data := Overwritten(s.data, left))];
          return None;
      }
    }

    method ReleaseFile(name: string) returns (ok: bool)
      requires Valid() && (name in mapFiles ==> Users(Value(), name) > 0)
      modifies this
      ensures Valid() && Value() == Release(old(Value()), name) && ok == (name in old(mapFiles))
    {
      if name !in mapFiles {
        return false;
      }
      ReleaseKeepsInv(options, Value(), name);
      var i := mapFiles[name];
      vecMems := vecMems[i := vecMems[i].(count := vecMems[i].count - 1)];
      return true;
    }

    /** The first half of a request through the cache: the slot to copy from and the size of the file. */
    method BeginDownload(name: string, stat: Option<Stat>, out: Outcome, now: int) returns (mem: Option<Memory>)
      requires Valid()
      modifies this
      ensures Valid() && Value() == Load(options, old(Value()), name, stat, out, now).0
      ensures var slot := Load(options, old(Value()), name, stat, out, now).1;
        if slot.None? then mem == None else stat.Some? && mem == Some(Memory(slot.value, stat.value.size))
    {
      hide Inv, Load;
      var slot := LoadFile(name, stat, out, now);
      if slot.None? {
        return None;
      }
      ServedHasStat(options, old(Value()), name, stat, out, now);
      return Some(Memory(slot.value, vecMems[slot.value].stat.size));
    }

    /** The second half, after whatever other requests have done: copy, without the lock, and release. */
    method FinishDownload(name: string, mem: Memory, pos: int, size: nat) returns (reply: Reply)
      requires Valid() && mem.slot < |vecMems| && Held(Value(), mem.slot, name) && -INT_LIMIT <= pos < INT_LIMIT
      modifies this
      ensures Valid() && Value() == Release(old(Value()), name)
      ensures reply == FromMem(Content(old(vecMems)[mem.slot], mem.size), pos, size)
    {
      assert name in mapFiles && mapFiles[name] == mem.slot;
      hide Inv, FromMem;
      reply := FromMem(Content(vecMems[mem.slot], mem.size), pos, size);
      var ok := ReleaseFile(name);
    }
  }

  /** What a request remembers between load and copy. */
  datatype Memory = Memory(slot: nat, size: nat)

  lemma ServedHasStat(o: Options, c: Cache, name: string, stat: Option<Stat>, out: Outcome, now: int)
    requires Load(o, c, name, stat, out, now).1.Some?
    ensures var (c', slot) := Load(o, c, name, stat, out, now);
      slot.value < |c'.slots| && stat.Some? && c'.slots[slot.value].stat == stat.value
  {
  }
}
