/** How the config server puts a server's configuration together out of layers: the texts referenced by the server's
    own configuration, that configuration, and the same again for the server on one host. */
module ConfigMerge {
  const SEPARATOR := "\r\n\r\n"

  function MergeConfig(low: string, high: string): string {
    if low == "" then high else if high == "" then low else low + SEPARATOR + high
  }

  /** Layers can be merged in any grouping, and an empty one makes no difference. */
  lemma MergeIsMonoid(a: string, b: string, c: string)
    ensures MergeConfig(MergeConfig(a, b), c) == MergeConfig(a, MergeConfig(b, c))
    ensures MergeConfig("", a) == a == MergeConfig(a, "")
  {
    if a != "" && b != "" && c != "" {
      assert (a + SEPARATOR + b) + SEPARATOR + c == a + SEPARATOR + (b + SEPARATOR + c);
    }
  }

  function MergeAll(texts: seq<string>): string {
    if texts == [] then "" else MergeConfig(MergeAll(texts[..|texts| - 1]), texts[|texts| - 1])
  }

  lemma {:induction false} MergeAllSplits(a: seq<string>, b: seq<string>)
    ensures MergeAll(a + b) == MergeConfig(MergeAll(a), MergeAll(b))
  {
    if b == [] {
      assert a + b == a;
      MergeIsMonoid(MergeAll(a), "", "");
    } else {
      var init, last := b[..|b| - 1], b[|b| - 1];
      assert (a + b)[..|a + b| - 1] == a + init;
      MergeAllSplits(a, init);
      MergeIsMonoid(MergeAll(a), MergeAll(init), last);
    }
  }

  // ----- the tables -----

  datatype Level = App | AllServer | IpServer | OtherLevel

  /** The set a configuration is for; all parts are empty for a configuration without one. */
  datatype Division = Division(name: string, area: string, group: string)

  const NO_DIVISION := Division("", "", "")

  datatype Row = Row(id: int, server: string, file: string, host: string, level: Level, division: Division,
                     config: string)

  /** A reference from one configuration to another. */
  datatype Reference = Reference(config: int, target: int)

  /** The queries; any of them may fail. */
  datatype Query = Own(level: Level) | References(config: int) | Text(id: int)

  datatype Db = Db(rows: seq<Row>, references: seq<Reference>, down: set<Query>, message: string)

  /** Which configuration is asked for. The set division is none, malformed, or three parts. */
  datatype Request = Request(server: string, file: string, host: string, division: SetDivision)

  datatype SetDivision = NoSet | Malformed | Parts(division: Division)

  function DivisionOf(s: SetDivision): Division {
    if s.Parts? then s.division else NO_DIVISION
  }

  /** What a query selects. */
  datatype Filter = IsOwn(q: Request, level: Level) | HasId(id: int)
                  | IsForSet(server: string, file: string, division: Division)

  predicate Selects(f: Filter, r: Row) {
    match f
    case IsOwn(q, level) =>
      && r.server == q.server && r.file == q.file && r.level == level && r.division == DivisionOf(q.division)
      && (level == IpServer ==> r.host == q.host)
    case HasId(id) => r.id == id
    case IsForSet(server, file, division) =>
      r.server == server && r.file == file && r.level == App && r.division == division
  }

  function Select(rows: seq<Row>, f: Filter): seq<Row> {
    if rows == [] then []
    else Select(rows[..|rows| - 1], f) + if Selects(f, rows[|rows| - 1]) then [rows[|rows| - 1]] else []
  }

  function Targets(refs: seq<Reference>, config: int): seq<int> {
    if refs == [] then []
    else Targets(refs[..|refs| - 1], config)
         + if refs[|refs| - 1].config == config then [refs[|refs| - 1].target] else []
  }

  /** The configuration of a level, if there is exactly one, with its id. */
  function OwnRow(db: Db, q: Request, level: Level): (string, int) {
    var found := Select(db.rows, IsOwn(q, level));
    if |found| == 1 then (found[0].config, found[0].id) else ("", 0)
  }

  function PlainText(db: Db, id: int): string {
    var found := Select(db.rows, HasId(id));
    if |found| == 1 then found[0].config else ""
  }

  /** A referenced text, followed by what its application says for the set. */
  function SetText(db: Db, id: int, s: SetDivision): string {
    var found := Select(db.rows, HasId(id));
    if |found| != 1 then ""
    else if !s.Parts? then MergeConfig(found[0].config, "")
    else
      var forSet := Select(db.rows, IsForSet(found[0].server, found[0].file, s.division));
      MergeConfig(found[0].config, if |forSet| == 1 then forSet[0].config else "")
  }

  // ----- which rows the texts come from -----

  lemma {:induction false} SelectNone(rows: seq<Row>, f: Filter)
    requires forall j :: 0 <= j < |rows| ==> !Selects(f, rows[j])
    ensures Select(rows, f) == []
  {
    if rows != [] { SelectNone(rows[..|rows| - 1], f); }
  }

  lemma {:induction false} SelectOne(rows: seq<Row>, f: Filter, i: nat)
    requires i < |rows| && forall j :: 0 <= j < |rows| ==> (Selects(f, rows[j]) <==> j == i)
    ensures Select(rows, f) == [rows[i]]
  {
    if i < |rows| - 1 {
      SelectOne(rows[..|rows| - 1], f, i);
    } else {
      SelectNone(rows[..i], f);
    }
  }

  lemma {:induction false} SelectTwo(rows: seq<Row>, f: Filter, i: nat, j: nat)
    requires i < j < |rows| && Selects(f, rows[i]) && Selects(f, rows[j])
    ensures |Select(rows, f)| >= 2
  {
    var init := rows[..|rows| - 1];
    if j < |init| { SelectTwo(init, f, i, j); } else { SelectSome(init, f, i); }
  }

  lemma {:induction false} SelectSome(rows: seq<Row>, f: Filter, i: nat)
    requires i < |rows| && Selects(f, rows[i])
    ensures |Select(rows, f)| >= 1
  {
    if i < |rows| - 1 { SelectSome(rows[..|rows| - 1], f, i); }
  }

  /** Row i is the only one a query selects, */
  ghost predicate Alone(db: Db, f: Filter, i: nat) {
    i < |db.rows| && forall j :: 0 <= j < |db.rows| ==> (Selects(f, db.rows[j]) <==> j == i)
  }

  /** and only then does it have an answer. */
  lemma SelectsAlone(db: Db, f: Filter)
    ensures |Select(db.rows, f)| == 1 <==> exists i: nat :: Alone(db, f, i)
    ensures forall i: nat :: Alone(db, f, i) ==> Select(db.rows, f) == [db.rows[i]]
  {
    hide Selects;
    forall i: nat | Alone(db, f, i) ensures Select(db.rows, f) == [db.rows[i]] { SelectOne(db.rows, f, i); }
    if |Select(db.rows, f)| == 1 {
      if k: nat :| k < |db.rows| && Selects(f, db.rows[k]) {
        forall j: nat | j < |db.rows| && j != k ensures !Selects(f, db.rows[j]) {
          if Selects(f, db.rows[j]) {
            if j < k { SelectTwo(db.rows, f, j, k); } else { SelectTwo(db.rows, f, k, j); }
          }
        }
        assert Alone(db, f, k);
      } else {
        SelectNone(db.rows, f);
      }
    }
  }

  /** A level's own configuration: the one row of the server and file, of the level, for the set asked for or for none,
      and on the level of a host for that host. If there is no such row, or another one, there is no text. */
  lemma OwnRowByFields(db: Db, q: Request, level: Level, i: nat)
    requires i < |db.rows|
    requires var d := if q.division.Parts? then q.division.division else Division("", "", "");
      forall j :: 0 <= j < |db.rows| ==> var r := db.rows[j];
        (j == i <==> r.server == q.server && r.file == q.file && r.level == level && r.division == d
                     && (level == IpServer ==> r.host == q.host))
    ensures OwnRow(db, q, level) == (db.rows[i].config, db.rows[i].id)
  {
    assert Alone(db, IsOwn(q, level), i);
    SelectsAlone(db, IsOwn(q, level));
    hide Select, Selects;
  }

  lemma NoOwnRow(db: Db, q: Request, level: Level)
    requires !exists i: nat :: Alone(db, IsOwn(q, level), i)
    ensures OwnRow(db, q, level) == ("", 0)
  {
    SelectsAlone(db, IsOwn(q, level));
    hide Select, Selects, Alone;
  }

  /** A referenced text: the one row with the id, followed, if a set is asked for, by the one row of the same server and
      file on the application's level for that set. */
  lemma SetTextByFields(db: Db, id: int, s: SetDivision, i: nat)
    requires i < |db.rows| && forall j :: 0 <= j < |db.rows| ==> (db.rows[j].id == id <==> j == i)
    ensures !s.Parts? ==> SetText(db, id, s) == db.rows[i].config
    ensures s.Parts? ==> forall k: nat :: k < |db.rows| && AppRow(db, i, s.division, k) ==>
      SetText(db, id, s) == MergeConfig(db.rows[i].config, db.rows[k].config)
    ensures s.Parts? && (forall k: nat :: k < |db.rows| ==> !AppRow(db, i, s.division, k)) ==>
      SetText(db, id, s) == db.rows[i].config
  {
    assert Alone(db, HasId(id), i);
    SelectsAlone(db, HasId(id));
    if s.Parts? {
      var f := IsForSet(db.rows[i].server, db.rows[i].file, s.division);
      SelectsAlone(db, f);
      forall k: nat | k < |db.rows| ensures AppRow(db, i, s.division, k) <==> Alone(db, f, k) { }
    }
    hide Select, Selects;
  }

  /** Row k is the only one of row i's server and file on the application's level for the set. */
  ghost predicate AppRow(db: Db, i: nat, d: Division, k: nat)
    requires i < |db.rows| && k < |db.rows|
  {
    forall j :: 0 <= j < |db.rows| ==> var r := db.rows[j];
      (j == k <==> r.server == db.rows[i].server && r.file == db.rows[i].file && r.level == App && r.division == d)
  }

  /** The targets of a configuration are those of its references, in their order. */
  lemma {:induction false} TargetsSplit(a: seq<Reference>, b: seq<Reference>, config: int)
    ensures Targets(a + b, config) == Targets(a, config) + Targets(b, config)
  {
    if b == [] {
      assert a + b == a;
    } else {
      TargetsSplit(a, b[..|b| - 1], config);
      assert (a + b)[..|a + b| - 1] == a + b[..|b| - 1];
    }
  }

  lemma TargetsOne(r: Reference, config: int)
    ensures Targets([r], config) == if r.config == config then [r.target] else []
  {
    assert [r][..0] == [];
  }

  // ----- the configuration, as a list of layers -----

  function Referenced(db: Db, ids: seq<int>, s: SetDivision): seq<string> {
    if ids == [] then []
    else
      var id := ids[|ids| - 1];
      Referenced(db, ids[..|ids| - 1], s) + [if Text(id) in db.down then "" else SetText(db, id, s)]
  }

  /** The referenced texts of a configuration, if the references themselves can be read. */
  function Readable(db: Db, id: int, s: SetDivision): seq<string> {
    if References(id) in db.down then [] else Referenced(db, Targets(db.references, id), s)
  }

  /** The layers of one level: the referenced texts that can be read, then the level's own. */
  function Layers(db: Db, q: Request, level: Level): seq<string> {
    var (own, id) := OwnRow(db, q, level);
    Readable(db, id, q.division) + [own]
  }

  /** The return code of reading a level's references. */
  function Status(db: Db, id: int): int {
    var ids := Targets(db.references, id);
    if References(id) in db.down then -1
    else if ids != [] && Text(ids[|ids| - 1]) in db.down then -1 else 0
  }

  /** The answer to a request: a code and a text. */
  function Effective(db: Db, q: Request): (int, string) {
    if q.division.Malformed? then (-1, "")
    else if Own(AllServer) in db.down || Own(IpServer) in db.down then (-1, db.message)
    else (Status(db, OwnRow(db, q, IpServer).1), MergeAll(Layers(db, q, AllServer) + Layers(db, q, IpServer)))
  }

  lemma OneMoreReferenced(db: Db, ids: seq<int>, i: nat, s: SetDivision)
    requires i < |ids|
    ensures Referenced(db, ids[..i + 1], s)
         == Referenced(db, ids[..i], s) + [if Text(ids[i]) in db.down then "" else SetText(db, ids[i], s)]
  {
    assert ids[..i + 1][..i] == ids[..i];
  }

  lemma OneMoreLayer(texts: seq<string>, text: string)
    ensures MergeAll(texts + [text]) == MergeConfig(MergeAll(texts), text)
  {
    assert (texts + [text])[..|texts|] == texts;
  }

  lemma PlainIsSetText(db: Db, id: int)
    ensures SetText(db, id, NoSet) == PlainText(db, id)
  {
  }

  // ----- the two ways the program does it -----

  /** Append a text to what there is. */
  method Append(config: string, text: string) returns (r: string)
    ensures r == MergeConfig(config, text)
  {
    if text == "" {
      return config;
    }
    if config == "" {
      return config + text;
    }
    assert config + (SEPARATOR + text) == config + SEPARATOR + text;
    return config + (SEPARATOR + text);
  }

  /** One level in the appending style: referenced texts one by one, then the level's own. */
  method AppendLevel(db: Db, q: Request, level: Level, config0: string) returns (ret: int, config: string)
    requires q.division.NoSet?
    ensures config == MergeConfig(config0, MergeAll(Layers(db, q, level)))
    ensures ret == Status(db, OwnRow(db, q, level).1)
  {
    hide Referenced, Targets, Select, SetText, PlainText, MergeConfig, MergeAll;
    var (own, id) := OwnRow(db, q, level);
    ret, config := 0, config0;
    ghost var texts: seq<string> := [];
    NoLayers(db, config0);
    if References(id) in db.down {
      ret := -1;
    } else {
      var ids := Targets(db.references, id);
      for i := 0 to |ids|
        invariant texts == Referenced(db, ids[..i], NoSet) && config == MergeConfig(config0, MergeAll(texts))
        invariant ret == if i > 0 && Text(ids[i - 1]) in db.down then -1 else 0
      {
        OneMoreReferenced(db, ids, i, NoSet);
        PlainIsSetText(db, ids[i]);
        var text := "";
        if Text(ids[i]) in db.down {
          ret := -1;
        } else {
          ret, text := 0, PlainText(db, ids[i]);
        }
        OneMoreLayer(texts, text);
        MergeIsMonoid(config0, MergeAll(texts), text);
        config := Append(config, text);
        texts := texts + [text];
      }
      assert ids[..|ids|] == ids;
    }
    OneMoreLayer(texts, own);
    MergeIsMonoid(config0, MergeAll(texts), own);
    config := Append(config, own);
    assert Layers(db, q, level) == texts + [own];
  }

  lemma NoLayers(db: Db, config: string)
    ensures MergeAll([]) == "" && MergeConfig(config, "") == config && Referenced(db, [], NoSet) == []
  {
  }

  /** The older request, which knows no sets. */
  method LoadConfigByHost(db: Db, q: Request) returns (ret: int, config: string)
    requires q.division.NoSet?
    ensures (ret, config) == Effective(db, q)
  {
    hide Layers, MergeConfig, MergeAll, Status;
    if Own(AllServer) in db.down {
      return -1, db.message;
    }
    var code, text := AppendLevel(db, q, AllServer, "");
    MergeIsMonoid("", MergeAll(Layers(db, q, AllServer)), "");
    MergeIsMonoid(MergeAll(Layers(db, q, AllServer)), "", "");
    if Own(IpServer) in db.down {
      return -1, db.message;
    }
    MergeAllSplits(Layers(db, q, AllServer), Layers(db, q, IpServer));
    ret, config := AppendLevel(db, q, IpServer, text);
  }

  /** The referenced texts in the merging style, and the code of the last lookup. */
  method MergeReferenced(db: Db, id: int, division: SetDivision) returns (ret: int, merged: string)
    ensures ret == Status(db, id)
    ensures merged == MergeAll(Readable(db, id, division))
  {
    merged := "";
    if References(id) in db.down {
      return -1, merged;
    }
    ret := 0;
    var ids := Targets(db.references, id);
    hide Targets, SetText, MergeConfig;
    for i := 0 to |ids|
      invariant merged == MergeAll(Referenced(db, ids[..i], division))
      invariant ret == if i > 0 && Text(ids[i - 1]) in db.down then -1 else 0
    {
      OneMoreReferenced(db, ids, i, division);
      var text := if Text(ids[i]) in db.down then "" else SetText(db, ids[i], division);
      OneMoreLayer(Referenced(db, ids[..i], division), text);
      MergeIsMonoid(merged, "", "");
      if Text(ids[i]) in db.down {
        ret := -1;
      } else {
        ret := 0;
        if text != "" {
          merged := MergeConfig(merged, text);
        }
      }
    }
    assert ids[..|ids|] == ids;
  }

  /** The newer request, for any set division. */
  method LoadConfigByInfo(db: Db, q: Request) returns (ret: int, config: string)
    ensures (ret, config) == Effective(db, q)
  {
    hide MergeConfig, MergeAll, Status, Referenced, Select, Targets;
    if q.division.Malformed? {
      return -1, "";
    }
    if Own(AllServer) in db.down {
      return -1, db.message;
    }
    var (allOwn, allId) := OwnRow(db, q, AllServer);
    var code, all := MergeReferenced(db, allId, q.division);
    LevelIsMerged(db, q, AllServer);
    config := MergeConfig(all, allOwn);
    if Own(IpServer) in db.down {
      return -1, db.message;
    }
    var (ipOwn, ipId) := OwnRow(db, q, IpServer);
    var status, ip := MergeReferenced(db, ipId, q.division);
    LevelIsMerged(db, q, IpServer);
    MergeAllSplits(Layers(db, q, AllServer), Layers(db, q, IpServer));
    return status, MergeConfig(config, MergeConfig(ip, ipOwn));
  }

  lemma LevelIsMerged(db: Db, q: Request, level: Level)
    ensures var (own, id) := OwnRow(db, q, level);
      MergeAll(Layers(db, q, level)) ==
        MergeConfig(MergeAll(Readable(db, id, q.division)), own)
  {
    hide MergeConfig, MergeAll, OwnRow, Referenced, Targets;
    var (own, id) := OwnRow(db, q, level);
    OneMoreLayer(Readable(db, id, q.division), own);
  }

  // ----- what the answer is -----

  function NonEmpty(texts: seq<string>): seq<string> {
    if texts == [] then []
    else NonEmpty(texts[..|texts| - 1]) + if texts[|texts| - 1] != "" then [texts[|texts| - 1]] else []
  }

  function Length(texts: seq<string>): nat {
    if texts == [] then 0 else Length(texts[..|texts| - 1]) + |texts[|texts| - 1]|
  }

  /** Every layer's text is in the answer, undivided and in order: the i-th layer starts after the earlier ones and one
      separator for each of those that are not empty. */
  lemma {:induction false} LayersAreKept(texts: seq<string>, i: nat)
    requires i < |texts| && texts[i] != ""
    ensures var at := Length(texts[..i]) + |SEPARATOR| * |NonEmpty(texts[..i])|;
      at + |texts[i]| <= |MergeAll(texts)| && MergeAll(texts)[at..at + |texts[i]|] == texts[i]
    decreases |texts|
  {
    var init, last := texts[..|texts| - 1], texts[|texts| - 1];
    MergedLength(init);
    if i < |init| {
      LayersAreKept(init, i);
      assert init[..i] == texts[..i];
      assert MergeAll(init) <= MergeAll(texts);
    } else {
      assert init == texts[..i];
    }
  }

  lemma {:induction false} MergedLength(texts: seq<string>)
    ensures |MergeAll(texts)| + (if NonEmpty(texts) != [] then |SEPARATOR| else 0)
         == Length(texts) + |SEPARATOR| * |NonEmpty(texts)|
    ensures MergeAll(texts) == "" <==> NonEmpty(texts) == []
  {
    if texts != [] { MergedLength(texts[..|texts| - 1]); }
  }
}
