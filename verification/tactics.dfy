/**
 * The tactics board domain (`src/lib/tactics.ts`): normalising stored or
 * submitted board data into players, pass chains and cones, the burner and
 * pass-chain rules, and the "remaining passes" drawn from a focused player.
 * Coordinates are reals in board units; a JavaScript number that may be NaN
 * or infinite is a `Num`.
 */
module Tactics {
  import opened Wrappers
  import opened Json
  import opened Text

  /** A JavaScript number: finite, or NaN or an infinity. */
  datatype Num = Finite(value: real) | NonFinite

  /** `TacticPlayer` after normalisation: `isBurner` and `radius` are always set. */
  datatype Player = Player(
    id: string,
    name: string,
    number: Option<string>,
    role: Option<string>,
    x: real,
    y: real,
    radius: real,
    isBurner: bool)

  /** `TacticPassChain`: only the id, the name and the player ids survive normalisation. */
  datatype PassChain = PassChain(id: string, name: string, playerIds: seq<string>)

  datatype Cone = Cone(id: string, x: real, y: real)

  /** The result of a board rule: ok, or a machine code with a Swedish message. */
  datatype Verdict = Accepted | Rejected(code: string, message: string)

  const InvalidBurnerSelection := "INVALID_BURNER_SELECTION"
  const InvalidPassChain := "INVALID_PASS_CHAIN"
  const BurnerMessage := "Spelplan med spelare maste ha exakt en brannare."
  const ChainTooShortMessage := "Alla passningskedjor maste innehalla minst tva spelare."
  const ChainUnknownPlayerMessage := "Passningskedjor innehaller spelare som inte finns pa planen."

  // ---------------------------------------------------------------- clamps

  /** `clamp01`: into [0, 1]; NaN and the infinities become 0. */
  function Clamp01(n: Num): (r: real)
    ensures 0.0 <= r <= 1.0
    ensures n.Finite? && 0.0 <= n.value <= 1.0 ==> r == n.value
    ensures n.Finite? && n.value > 1.0 ==> r == 1.0
    ensures n.NonFinite? || n.value < 0.0 ==> r == 0.0
  {
    if n.NonFinite? then 0.0
    else if n.value < 0.0 then 0.0
    else if n.value > 1.0 then 1.0
    else n.value
  }

  /** `clampRadius`: into [0, 0.5]; NaN and the infinities become 0. */
  function ClampRadius(n: Num): (r: real)
    ensures 0.0 <= r <= 0.5
    ensures n.Finite? && 0.0 <= n.value <= 0.5 ==> r == n.value
    ensures n.Finite? && n.value > 0.5 ==> r == 0.5
    ensures n.NonFinite? || n.value < 0.0 ==> r == 0.0
  {
    if n.NonFinite? then 0.0
    else if n.value < 0.0 then 0.0
    else if n.value > 0.5 then 0.5
    else n.value
  }

  // ------------------------------------------------------- reading fields

  /** `readString`: a string field, trimmed; absent when it is not a string or is blank. */
  function ReadString(v: Option<Json>): (r: Option<string>)
    ensures r.None? <==> v.None? || !v.value.JStr? || IsBlank(v.value.s)
    ensures r.Some? ==> r.value == Trim(v.value.s) && Trimmed(r.value)
  {
    if v.Some? && v.value.JStr? && !IsBlank(v.value.s) then Some(Trim(v.value.s)) else None
  }

  /** A non-empty string with no white space at either end: what `readString` yields. */
  predicate Trimmed(s: string) {
    s != [] && NoOuterSpace(s)
  }

  /** A trimmed string is read back as itself. */
  lemma ReadTrimmed(s: string)
    requires Trimmed(s)
    ensures ReadString(Some(JStr(s))) == Some(s)
  {
    TrimUnspaced(s);
  }

  /**
   * `readNumber`: a JSON number as is, or a non-blank string through
   * `Number(...)` when that gives a finite number. A parsed JSON text holds
   * no NaN or infinity, so a number field is always finite.
   */
  function ReadNumber(v: Option<Json>, parse: NumberParser): (r: Option<real>)
    ensures v.Some? && v.value.JNum? ==> r == Some(v.value.n)
    ensures v.Some? && v.value.JStr? && !IsBlank(v.value.s) ==> r == parse(v.value.s)
    ensures r.Some? ==> v.Some? && (v.value.JNum? || (v.value.JStr? && !IsBlank(v.value.s)))
  {
    if v.None? then None
    else match v.value
      case JNum(n) => Some(n)
      case JStr(s) => if IsBlank(s) then None else parse(s)
      case _ => None
  }

  /** The 1-based position used in default names: `${index + 1}`. */
  function Ordinal(index: nat): (r: string)
    ensures r != [] && AllDigits(r)
  {
    NatToDecimal(index + 1)
  }

  // --------------------------------------------------------------- players

  /** A coordinate field: the number read, else `default`, clamped into [0, 1]. */
  function Coordinate(v: Option<Json>, parse: NumberParser, default: real): (r: real)
    requires 0.0 <= default <= 1.0
    ensures 0.0 <= r <= 1.0
    ensures ReadNumber(v, parse).None? ==> r == default
    ensures var n := ReadNumber(v, parse); n.Some? && 0.0 <= n.value <= 1.0 ==> r == n.value
    ensures var n := ReadNumber(v, parse); n.Some? && n.value > 1.0 ==> r == 1.0
    ensures var n := ReadNumber(v, parse); n.Some? && n.value < 0.0 ==> r == 0.0
  {
    Clamp01(Finite(ReadNumber(v, parse).GetOr(default)))
  }

  /** The radius field: the number read, else 0, clamped into [0, 0.5]. */
  function Radius(v: Option<Json>, parse: NumberParser): (r: real)
    ensures 0.0 <= r <= 0.5
    ensures ReadNumber(v, parse).None? ==> r == 0.0
    ensures var n := ReadNumber(v, parse); n.Some? && 0.0 <= n.value <= 0.5 ==> r == n.value
    ensures var n := ReadNumber(v, parse); n.Some? && n.value > 0.5 ==> r == 0.5
    ensures var n := ReadNumber(v, parse); n.Some? && n.value < 0.0 ==> r == 0.0
  {
    ClampRadius(Finite(ReadNumber(v, parse).GetOr(0.0)))
  }

  /** `record.isBurner === true || role?.toLowerCase() === "brannare"`. */
  predicate BurnerFlag(record: Json, role: Option<string>) {
    Field(record, "isBurner") == Some(JBool(true)) || (role.Some? && ToLower(role.value) == "brannare")
  }

  /** One player from a record at position `index` of the submitted list. */
  function NormalizePlayer(record: Json, index: nat, parse: NumberParser): (p: Player)
    ensures p.id != [] && p.name != []
    ensures ReadString(Field(record, "id")).Some? ==> p.id == ReadString(Field(record, "id")).value
    ensures ReadString(Field(record, "id")).None? ==> p.id == "player-" + Ordinal(index)
    ensures ReadString(Field(record, "name")).Some? ==> p.name == ReadString(Field(record, "name")).value
    ensures ReadString(Field(record, "name")).None? ==> p.name == "Spelare " + Ordinal(index)
    ensures p.number == ReadString(Field(record, "number")) && p.role == ReadString(Field(record, "role"))
    ensures 0.0 <= p.x <= 1.0 && 0.0 <= p.y <= 1.0 && 0.0 <= p.radius <= 0.5
    ensures ReadNumber(Field(record, "x"), parse).None? ==> p.x == 0.5
    ensures ReadNumber(Field(record, "y"), parse).None? ==> p.y == 0.5
    ensures ReadNumber(Field(record, "radius"), parse).None? ==> p.radius == 0.0
    ensures var x := ReadNumber(Field(record, "x"), parse); x.Some? && 0.0 <= x.value <= 1.0 ==> p.x == x.value
    ensures var y := ReadNumber(Field(record, "y"), parse); y.Some? && 0.0 <= y.value <= 1.0 ==> p.y == y.value
    ensures p.isBurner <==> BurnerFlag(record, p.role)
  {
    var role := ReadString(Field(record, "role"));
    Player(
      ReadString(Field(record, "id")).GetOr("player-" + Ordinal(index)),
      ReadString(Field(record, "name")).GetOr("Spelare " + Ordinal(index)),
      ReadString(Field(record, "number")),
      role,
      Coordinate(Field(record, "x"), parse, 0.5),
      Coordinate(Field(record, "y"), parse, 0.5),
      Radius(Field(record, "radius"), parse),
      BurnerFlag(record, role))
  }

  /**
   * Coordinates outside the board are pulled to its nearest edge: above 1
   * becomes 1 and below 0 becomes 0.
   */
  lemma NormalizedPlayerClamps(record: Json, index: nat, parse: NumberParser)
    ensures var p := NormalizePlayer(record, index, parse);
      var x := ReadNumber(Field(record, "x"), parse);
      var y := ReadNumber(Field(record, "y"), parse);
      (x.Some? && x.value > 1.0 ==> p.x == 1.0) && (x.Some? && x.value < 0.0 ==> p.x == 0.0) &&
      (y.Some? && y.value > 1.0 ==> p.y == 1.0) && (y.Some? && y.value < 0.0 ==> p.y == 0.0)
  {
  }

  /** A radius is kept when it lies in [0, 0.5], and otherwise becomes 0.5 or 0. */
  lemma NormalizedPlayerRadius(record: Json, index: nat, parse: NumberParser)
    ensures var p := NormalizePlayer(record, index, parse);
      var d := ReadNumber(Field(record, "radius"), parse);
      (d.Some? && 0.0 <= d.value <= 0.5 ==> p.radius == d.value) &&
      (d.Some? && d.value > 0.5 ==> p.radius == 0.5) && (d.Some? && d.value < 0.0 ==> p.radius == 0.0)
  {
  }

  /** The players normalised from the first `n` entries; non-objects are skipped. */
  function PlayersOf(items: seq<Json>, n: nat, parse: NumberParser): (ps: seq<Player>)
    requires n <= |items|
    ensures |ps| <= n
  {
    if n == 0 then []
    else PlayersOf(items, n - 1, parse) + (if items[n - 1].JObj? then [NormalizePlayer(items[n - 1], n - 1, parse)] else [])
  }

  /** `f` applied to each object entry among the first `n`, with its position, in order. */
  function MapObjects<T>(items: seq<Json>, n: nat, f: (Json, nat) -> T): (ts: seq<T>)
    requires n <= |items|
    ensures |ts| <= n
  {
    if n == 0 then []
    else MapObjects(items, n - 1, f) + (if items[n - 1].JObj? then [f(items[n - 1], n - 1)] else [])
  }

  /** The positions among the first `n` entries that hold objects, in order. */
  function ObjectPositions(items: seq<Json>, n: nat): (ks: seq<nat>)
    requires n <= |items|
    ensures forall j | 0 <= j < |ks| :: ks[j] < n && items[ks[j]].JObj?
    ensures forall j, l | 0 <= j < l < |ks| :: ks[j] < ks[l]
  {
    if n == 0 then []
    else ObjectPositions(items, n - 1) + (if items[n - 1].JObj? then [n - 1] else [])
  }

  /** No record entry is missed. */
  lemma {:induction false} ObjectPositionsComplete(items: seq<Json>, n: nat)
    requires n <= |items|
    ensures forall k | 0 <= k < n && items[k].JObj? :: k in ObjectPositions(items, n)
  {
    if n > 0 {
      ObjectPositionsComplete(items, n - 1);
      var ks0 := ObjectPositions(items, n - 1);
      var ks := ObjectPositions(items, n);
      assert ks == ks0 + (if items[n - 1].JObj? then [n - 1] else []);
      forall k | 0 <= k < n && items[k].JObj? ensures k in ks {
        if k < n - 1 {
          assert k in ks0;
        } else {
          assert ks[|ks| - 1] == n - 1;
        }
      }
    }
  }

  /**
   * Normalisation keeps exactly the object entries, in order, each with the
   * defaults of its ORIGINAL position in the list.
   */
  lemma {:induction false} PlayersOfObjects(items: seq<Json>, n: nat, parse: NumberParser)
    requires n <= |items|
    ensures var ps := PlayersOf(items, n, parse); var ks := ObjectPositions(items, n);
      |ps| == |ks| && forall j | 0 <= j < |ps| :: ps[j] == NormalizePlayer(items[ks[j]], ks[j], parse)
  {
    var f := (r: Json, i: nat) => NormalizePlayer(r, i, parse);
    PlayersOfIsMap(items, n, parse, f);
    MapObjectsPositions(items, n, f);
  }

  lemma {:induction false} PlayersOfIsMap(items: seq<Json>, n: nat, parse: NumberParser, f: (Json, nat) -> Player)
    requires n <= |items|
    requires forall r, i :: f(r, i) == NormalizePlayer(r, i, parse)
    ensures PlayersOf(items, n, parse) == MapObjects(items, n, f)
  {
    if n > 0 {
      PlayersOfIsMap(items, n - 1, parse, f);
    }
  }

  /** `MapObjects` pairs each result with the position of its object entry. */
  lemma {:induction false} MapObjectsPositions<T>(items: seq<Json>, n: nat, f: (Json, nat) -> T)
    requires n <= |items|
    ensures var ts := MapObjects(items, n, f); var ks := ObjectPositions(items, n);
      |ts| == |ks| && forall j | 0 <= j < |ts| :: ts[j] == f(items[ks[j]], ks[j])
  {
    if n > 0 {
      MapObjectsPositions(items, n - 1, f);
      var ts0 := MapObjects(items, n - 1, f);
      var ks0 := ObjectPositions(items, n - 1);
      if items[n - 1].JObj? {
        assert MapObjects(items, n, f) == ts0 + [f(items[n - 1], n - 1)];
        assert ObjectPositions(items, n) == ks0 + [n - 1];
        PositionsExtend(items, f, ts0, ks0, n - 1);
      } else {
        assert MapObjects(items, n, f) == ts0;
        assert ObjectPositions(items, n) == ks0;
      }
    }
  }

  /** Pairing values with their positions survives appending one more entry. */
  lemma PositionsExtend<T>(items: seq<Json>, f: (Json, nat) -> T, ps: seq<T>, ks: seq<nat>, k: nat)
    requires k < |items|
    requires forall j | 0 <= j < |ks| :: ks[j] < |items|
    requires |ps| == |ks| && forall j | 0 <= j < |ps| :: ps[j] == f(items[ks[j]], ks[j])
    ensures var ps' := ps + [f(items[k], k)]; var ks' := ks + [k];
      |ps'| == |ks'| && forall j | 0 <= j < |ps'| :: ps'[j] == f(items[ks'[j]], ks'[j])
  {
    var ps' := ps + [f(items[k], k)];
    var ks' := ks + [k];
    forall j | 0 <= j < |ps'| ensures ps'[j] == f(items[ks'[j]], ks'[j]) {
      if j < |ps| {
        assert ps'[j] == ps[j] && ks'[j] == ks[j];
      }
    }
  }

  /** What `normalizeTacticPlayers` returns for any value: a non-array gives no players. */
  function NormalizedPlayers(value: Json, parse: NumberParser): (ps: seq<Player>)
    ensures forall i | 0 <= i < |ps| :: PlayerInNormalForm(ps[i])
  {
    if value.JArr? then
      NormalizedPlayersInNormalForm(value.items, |value.items|, parse);
      PlayersOf(value.items, |value.items|, parse)
    else []
  }

  /** `normalizeTacticPlayers`. */
  method NormalizeTacticPlayers(value: Json, parse: NumberParser) returns (normalized: seq<Player>)
    ensures normalized == NormalizedPlayers(value, parse)
  {
    if !value.JArr? {
      return [];
    }
    normalized := [];
    var index := 0;
    while index < |value.items|
      invariant 0 <= index <= |value.items|
      invariant normalized == PlayersOf(value.items, index, parse)
    {
      var entry := value.items[index];
      if entry.JObj? {
        normalized := normalized + [NormalizePlayer(entry, index, parse)];
      }
      index := index + 1;
    }
  }

  // ----------------------------------------------------------- pass chains

  /** The ids of the players on the board: `new Set(players.map(p => p.id))`. */
  function PlayerIds(players: seq<Player>): (ids: set<string>)
    ensures forall i | 0 <= i < |players| :: players[i].id in ids
    ensures forall id | id in ids :: exists i | 0 <= i < |players| :: players[i].id == id
  {
    set i | 0 <= i < |players| :: players[i].id
  }

  /** The raw chain ids read as strings, trimmed, and filtered to known players, in order. */
  function KnownIds(raw: seq<Json>, known: set<string>): (ids: seq<string>)
    ensures |ids| <= |raw|
    ensures forall j | 0 <= j < |ids| :: ids[j] in known && Trimmed(ids[j])
    ensures |raw| == 1 ==> ids == KnownId(raw[0], known)
  {
    if raw == [] then []
    else
      var head := KnownId(raw[0], known);
      var tail := KnownIds(raw[1..], known);
      KnownConcat(head, tail, known);
      head + tail
  }

  /** One raw chain id: the trimmed string when it names a known player, else nothing. */
  function KnownId(item: Json, known: set<string>): (h: seq<string>)
    ensures |h| <= 1
    ensures forall j | 0 <= j < |h| :: h[j] in known && Trimmed(h[j])
    ensures |h| == 1 <==> ReadString(Some(item)).Some? && ReadString(Some(item)).value in known
    ensures |h| == 1 ==> h[0] == ReadString(Some(item)).value
  {
    var r := ReadString(Some(item));
    if r.Some? && r.value in known then [r.value] else []
  }

  lemma KnownConcat(head: seq<string>, tail: seq<string>, known: set<string>)
    requires forall j | 0 <= j < |head| :: head[j] in known && Trimmed(head[j])
    requires forall j | 0 <= j < |tail| :: tail[j] in known && Trimmed(tail[j])
    ensures forall j | 0 <= j < |head + tail| :: (head + tail)[j] in known && Trimmed((head + tail)[j])
  {
    forall j | 0 <= j < |head + tail| ensures (head + tail)[j] in known && Trimmed((head + tail)[j]) {
      if j < |head| {
        assert (head + tail)[j] == head[j];
      } else {
        assert (head + tail)[j] == tail[j - |head|];
      }
    }
  }

  /**
   * Reading ids distributes over concatenation. With the one-entry case this
   * fixes the result: the known ids, trimmed, in their order, each as often
   * as it occurs.
   */
  lemma {:induction false} KnownIdsAppend(a: seq<Json>, b: seq<Json>, known: set<string>)
    ensures KnownIds(a + b, known) == KnownIds(a, known) + KnownIds(b, known)
  {
    if a == [] {
      assert a + b == b;
    } else {
      assert (a + b)[0] == a[0];
      assert (a + b)[1..] == a[1..] + b;
      var head := KnownId(a[0], known);
      calc {
        KnownIds(a + b, known);
        head + KnownIds(a[1..] + b, known);
        { KnownIdsAppend(a[1..], b, known); }
        head + (KnownIds(a[1..], known) + KnownIds(b, known));
        (head + KnownIds(a[1..], known)) + KnownIds(b, known);
        KnownIds(a, known) + KnownIds(b, known);
      }
    }
  }

  /** Every raw entry that reads as a known id is kept, and nothing else is. */
  lemma {:induction false} KnownIdsMembers(raw: seq<Json>, known: set<string>)
    ensures forall id :: id in KnownIds(raw, known) <==> id in known && ReadsAs(raw, id)
  {
    if raw != [] {
      KnownIdsMembers(raw[1..], known);
      var head := KnownId(raw[0], known);
      var tail := KnownIds(raw[1..], known);
      assert KnownIds(raw, known) == head + tail;
      forall id ensures id in head + tail <==> id in known && ReadsAs(raw, id) {
        ReadsAsCons(raw, id);
        assert id in head <==> id in known && ReadString(Some(raw[0])) == Some(id);
      }
    }
  }

  /** Some entry of `raw` reads as `id`. */
  predicate ReadsAs(raw: seq<Json>, id: string) {
    exists k | 0 <= k < |raw| :: IsId(id)(raw[k])
  }

  function IsId(id: string): Json -> bool {
    (j: Json) => ReadString(Some(j)) == Some(id)
  }

  lemma ReadsAsCons(raw: seq<Json>, id: string)
    requires raw != []
    ensures ReadsAs(raw, id) <==> ReadString(Some(raw[0])) == Some(id) || ReadsAs(raw[1..], id)
  {
    SomeAtCons(raw, IsId(id));
  }

  lemma SomeAtCons<T>(s: seq<T>, p: T -> bool)
    requires s != []
    ensures (exists k | 0 <= k < |s| :: p(s[k])) <==> p(s[0]) || exists k | 0 <= k < |s[1..]| :: p(s[1..][k])
  {
    if exists k | 0 <= k < |s| :: p(s[k]) {
      var k :| 0 <= k < |s| && p(s[k]);
      if k > 0 {
        assert s[1..][k - 1] == s[k];
      }
    }
    if exists k | 0 <= k < |s[1..]| :: p(s[1..][k]) {
      var k :| 0 <= k < |s[1..]| && p(s[1..][k]);
      assert s[k + 1] == s[1..][k];
    }
  }

  /** The `playerIds` field when it is an array, else nothing. */
  function ChainRawIds(record: Json): (raw: seq<Json>)
    ensures var f := Field(record, "playerIds"); f.Some? && f.value.JArr? ==> raw == f.value.items
    ensures var f := Field(record, "playerIds"); !(f.Some? && f.value.JArr?) ==> raw == []
  {
    var field := Field(record, "playerIds");
    if field.Some? && field.value.JArr? then field.value.items else []
  }

  /** One chain from a record at position `index`; absent when fewer than two known ids remain. */
  function NormalizeChain(record: Json, index: nat, known: set<string>): (c: Option<PassChain>)
    requires record.JObj?
    ensures c.Some? ==> |c.value.playerIds| >= 2 && (forall j | 0 <= j < |c.value.playerIds| :: c.value.playerIds[j] in known)
    ensures c.Some? ==> c.value.id != [] && c.value.name != []
    ensures c.Some? && ReadString(Field(record, "id")).None? ==> c.value.id == "chain-" + Ordinal(index)
    ensures c.Some? && ReadString(Field(record, "name")).None? ==> c.value.name == "Kedja " + Ordinal(index)
    ensures c.Some? <==> |KnownIds(ChainRawIds(record), known)| >= 2
    ensures c.Some? ==> c.value.playerIds == KnownIds(ChainRawIds(record), known)
    ensures c.Some? && ReadString(Field(record, "id")).Some? ==> c.value.id == ReadString(Field(record, "id")).value
    ensures c.Some? && ReadString(Field(record, "name")).Some? ==> c.value.name == ReadString(Field(record, "name")).value
  {
    var ids := KnownIds(ChainRawIds(record), known);
    if |ids| < 2 then None
    else Some(PassChain(ReadString(Field(record, "id")).GetOr("chain-" + Ordinal(index)),
                        ReadString(Field(record, "name")).GetOr("Kedja " + Ordinal(index)),
                        ids))
  }

  /** The chains normalised from the first `n` entries. */
  function ChainsOf(items: seq<Json>, n: nat, known: set<string>): (cs: seq<PassChain>)
    requires n <= |items|
    ensures |cs| <= n
  {
    if n == 0 then []
    else
      var c := if items[n - 1].JObj? then NormalizeChain(items[n - 1], n - 1, known) else None;
      ChainsOf(items, n - 1, known) + (if c.Some? then [c.value] else [])
  }

  /** Entry `k` is a record that yields a chain. */
  predicate YieldsChain(items: seq<Json>, k: nat, known: set<string>)
    requires k < |items|
  {
    items[k].JObj? && NormalizeChain(items[k], k, known).Some?
  }

  /** The chain read from entry `k`, which yields one. */
  function ChainAt(items: seq<Json>, k: nat, known: set<string>): (c: PassChain)
    requires k < |items| && YieldsChain(items, k, known)
    ensures Some(c) == NormalizeChain(items[k], k, known)
  {
    NormalizeChain(items[k], k, known).value
  }

  /** The positions below `n` that `keep` accepts, in increasing order. */
  function Positions(n: nat, keep: nat -> bool): (ks: seq<nat>)
    ensures forall j | 0 <= j < |ks| :: ks[j] < n && keep(ks[j])
    ensures forall j, l | 0 <= j < l < |ks| :: ks[j] < ks[l]
  {
    if n == 0 then [] else Positions(n - 1, keep) + (if keep(n - 1) then [n - 1] else [])
  }

  /** No accepted position is missed. */
  lemma {:induction false} PositionsComplete(n: nat, keep: nat -> bool)
    ensures forall k | 0 <= k < n && keep(k) :: k in Positions(n, keep)
  {
    if n > 0 {
      PositionsComplete(n - 1, keep);
      var ks := Positions(n, keep);
      assert ks == Positions(n - 1, keep) + (if keep(n - 1) then [n - 1] else []);
      if keep(n - 1) {
        assert ks[|ks| - 1] == n - 1;
      }
    }
  }

  function ChainKeep(items: seq<Json>, known: set<string>): nat -> bool {
    (k: nat) => k < |items| && YieldsChain(items, k, known)
  }

  /** The positions among the first `n` entries that yield a chain, in order. */
  function ChainPositions(items: seq<Json>, n: nat, known: set<string>): (ks: seq<nat>)
    requires n <= |items|
    ensures forall j | 0 <= j < |ks| :: ks[j] < n && YieldsChain(items, ks[j], known)
    ensures forall j, l | 0 <= j < l < |ks| :: ks[j] < ks[l]
  {
    var ks := Positions(n, ChainKeep(items, known));
    assert forall j | 0 <= j < |ks| :: ChainKeep(items, known)(ks[j]);
    ks
  }

  /** No entry that yields a chain is missed. */
  lemma ChainPositionsComplete(items: seq<Json>, n: nat, known: set<string>)
    requires n <= |items|
    ensures forall k | 0 <= k < n && YieldsChain(items, k, known) :: k in ChainPositions(items, n, known)
  {
    PositionsComplete(n, ChainKeep(items, known));
    forall k | 0 <= k < n && YieldsChain(items, k, known) ensures k in ChainPositions(items, n, known) {
      assert ChainKeep(items, known)(k);
    }
  }

  /**
   * The normalised chains are exactly the chains read from the entries that
   * yield one, in order, each with the defaults of its ORIGINAL position.
   */
  lemma {:induction false} ChainsOfPositions(items: seq<Json>, n: nat, known: set<string>)
    requires n <= |items|
    ensures var cs := ChainsOf(items, n, known); var ks := ChainPositions(items, n, known);
      |cs| == |ks| && forall j | 0 <= j < |cs| :: cs[j] == ChainAt(items, ks[j], known)
  {
    if n > 0 {
      ChainsOfPositions(items, n - 1, known);
      ChainsAndPositionsStep(items, n, known);
      if YieldsChain(items, n - 1, known) {
        ChainPositionsExtend(items, known, ChainsOf(items, n - 1, known), ChainPositions(items, n - 1, known), n - 1);
      }
    }
  }

  /** One more entry adds its chain, if it yields one, to both sides. */
  lemma ChainsAndPositionsStep(items: seq<Json>, n: nat, known: set<string>)
    requires 0 < n <= |items|
    ensures ChainsOf(items, n, known) == ChainsOf(items, n - 1, known) +
      (if YieldsChain(items, n - 1, known) then [ChainAt(items, n - 1, known)] else [])
    ensures ChainPositions(items, n, known) == ChainPositions(items, n - 1, known) +
      (if YieldsChain(items, n - 1, known) then [n - 1] else [])
  {
    ChainsOfNext(items, n, known);
    ChainPositionsNext(items, n, known);
  }

  lemma ChainsOfNext(items: seq<Json>, n: nat, known: set<string>)
    requires 0 < n <= |items|
    ensures ChainsOf(items, n, known) == ChainsOf(items, n - 1, known) +
      (if YieldsChain(items, n - 1, known) then [ChainAt(items, n - 1, known)] else [])
  {
  }

  lemma ChainPositionsNext(items: seq<Json>, n: nat, known: set<string>)
    requires 0 < n <= |items|
    ensures ChainPositions(items, n, known) == ChainPositions(items, n - 1, known) +
      (if YieldsChain(items, n - 1, known) then [n - 1] else [])
  {
    var keep := ChainKeep(items, known);
    calc {
      ChainPositions(items, n, known);
    == { ChainPositionsAre(items, n, known); }
      Positions(n, keep);
    == { PositionsNext(n, keep); }
      Positions(n - 1, keep) + (if keep(n - 1) then [n - 1] else []);
    == { ChainPositionsAre(items, n - 1, known); KeepAt(items, n - 1, known); }
      ChainPositions(items, n - 1, known) + (if YieldsChain(items, n - 1, known) then [n - 1] else []);
    }
  }

  lemma ChainPositionsAre(items: seq<Json>, n: nat, known: set<string>)
    requires n <= |items|
    ensures ChainPositions(items, n, known) == Positions(n, ChainKeep(items, known))
  {
  }

  lemma KeepAt(items: seq<Json>, k: nat, known: set<string>)
    requires k < |items|
    ensures ChainKeep(items, known)(k) == YieldsChain(items, k, known)
  {
  }

  lemma PositionsNext(n: nat, keep: nat -> bool)
    requires 0 < n
    ensures Positions(n, keep) == Positions(n - 1, keep) + (if keep(n - 1) then [n - 1] else [])
  {
  }

  lemma ChainPositionsExtend(items: seq<Json>, known: set<string>, cs: seq<PassChain>, ks: seq<nat>, k: nat)
    requires k < |items| && YieldsChain(items, k, known)
    requires forall j | 0 <= j < |ks| :: ks[j] < |items| && YieldsChain(items, ks[j], known)
    requires |cs| == |ks| && forall j | 0 <= j < |cs| :: cs[j] == ChainAt(items, ks[j], known)
    ensures var cs' := cs + [ChainAt(items, k, known)]; var ks' := ks + [k];
      |cs'| == |ks'| && forall j | 0 <= j < |cs'| :: cs'[j] == ChainAt(items, ks'[j], known)
  {
    var cs' := cs + [ChainAt(items, k, known)];
    var ks' := ks + [k];
    forall j | 0 <= j < |cs'| ensures cs'[j] == ChainAt(items, ks'[j], known) {
      if j < |cs| {
        assert cs'[j] == cs[j] && ks'[j] == ks[j];
      }
    }
  }

  /** What `normalizePassChains` returns for any value: a non-array gives no chains. */
  function NormalizedChains(value: Json, players: seq<Player>): (cs: seq<PassChain>)
    ensures !value.JArr? ==> cs == []
    ensures value.JArr? ==> var ks := ChainPositions(value.items, |value.items|, PlayerIds(players));
      |cs| == |ks| && forall j | 0 <= j < |cs| :: cs[j] == ChainAt(value.items, ks[j], PlayerIds(players))
    ensures forall i | 0 <= i < |cs| :: ChainInNormalForm(cs[i], PlayerIds(players))
    ensures AllChainsValid(cs, PlayerIds(players))
  {
    if value.JArr? then
      NormalizedChainsInNormalForm(value.items, |value.items|, PlayerIds(players));
      ChainsOfPositions(value.items, |value.items|, PlayerIds(players));
      ChainsOf(value.items, |value.items|, PlayerIds(players))
    else []
  }

  /** `normalizePassChains`. */
  method NormalizePassChains(value: Json, players: seq<Player>) returns (normalized: seq<PassChain>)
    ensures normalized == NormalizedChains(value, players)
  {
    if !value.JArr? {
      return [];
    }
    var playerIds := PlayerIds(players);
    normalized := [];
    var index := 0;
    while index < |value.items|
      invariant 0 <= index <= |value.items|
      invariant normalized == ChainsOf(value.items, index, playerIds)
    {
      normalized := AppendChainOf(normalized, value.items, index, playerIds);
      index := index + 1;
    }
  }

  /** One step of `normalizePassChains`: the chain read from entry `index`, if any, appended. */
  method AppendChainOf(normalized: seq<PassChain>, items: seq<Json>, index: nat, known: set<string>)
    returns (out: seq<PassChain>)
    requires index < |items| && normalized == ChainsOf(items, index, known)
    ensures out == ChainsOf(items, index + 1, known)
  {
    out := normalized;
    var entry := items[index];
    if entry.JObj? {
      var chain := NormalizeChain(entry, index, known);
      if chain.Some? {
        out := out + [chain.value];
      }
    }
  }

  /** What `validatePassChains` checks of one chain. */
  predicate ChainValid(c: PassChain, known: set<string>) {
    |c.playerIds| >= 2 && forall j | 0 <= j < |c.playerIds| :: c.playerIds[j] in known
  }

  predicate AllChainsValid(chains: seq<PassChain>, known: set<string>) {
    forall k | 0 <= k < |chains| :: ChainValid(chains[k], known)
  }

  /** `validatePassChains`: the first chain that fails decides the message. */
  method ValidatePassChains(chains: seq<PassChain>, players: seq<Player>) returns (r: Verdict)
    ensures r.Accepted? <==> AllChainsValid(chains, PlayerIds(players))
    ensures r.Rejected? ==> r.code == InvalidPassChain
    ensures r.Rejected? ==>
      exists k | 0 <= k < |chains| ::
        && !ChainValid(chains[k], PlayerIds(players))
        && AllChainsValid(chains[..k], PlayerIds(players))
        && r.message == (if |chains[k].playerIds| < 2 then ChainTooShortMessage else ChainUnknownPlayerMessage)
  {
    var playerIds := PlayerIds(players);
    var k := 0;
    while k < |chains|
      invariant 0 <= k <= |chains|
      invariant AllChainsValid(chains[..k], playerIds)
    {
      var chain := chains[k];
      if |chain.playerIds| < 2 {
        return Rejected(InvalidPassChain, ChainTooShortMessage);
      }
      if exists j | 0 <= j < |chain.playerIds| :: chain.playerIds[j] !in playerIds {
        return Rejected(InvalidPassChain, ChainUnknownPlayerMessage);
      }
      assert chains[..k + 1] == chains[..k] + [chain];
      k := k + 1;
    }
    assert chains[..k] == chains;
    return Accepted;
  }

  // ------------------------------------------------------------------ cones

  /** `defaultCones`: the four corners of the standard drill. */
  function DefaultCones(): (cs: seq<Cone>)
    ensures |cs| == 4
  {
    [Cone("cone-1", 0.34, 0.5), Cone("cone-2", 0.66, 0.5), Cone("cone-3", 0.66, 0.82), Cone("cone-4", 0.34, 0.82)]
  }

  /** One cone from `value[index]`, falling back on the default cone field by field. */
  function NormalizeCone(entry: Json, fallback: Cone, parse: NumberParser): (c: Cone)
    requires entry.JObj?
    ensures ReadString(Field(entry, "id")).None? ==> c.id == fallback.id
    ensures ReadString(Field(entry, "id")).Some? ==> c.id == ReadString(Field(entry, "id")).value
    ensures 0.0 <= c.x <= 1.0 && 0.0 <= c.y <= 1.0
    ensures ReadNumber(Field(entry, "x"), parse).None? && 0.0 <= fallback.x <= 1.0 ==> c.x == fallback.x
    ensures ReadNumber(Field(entry, "y"), parse).None? && 0.0 <= fallback.y <= 1.0 ==> c.y == fallback.y
  {
    Cone(ReadString(Field(entry, "id")).GetOr(fallback.id),
         Clamp01(Finite(ReadNumber(Field(entry, "x"), parse).GetOr(fallback.x))),
         Clamp01(Finite(ReadNumber(Field(entry, "y"), parse).GetOr(fallback.y))))
  }

  /** Whether `value[index]` is a record: an array entry that is an object. */
  predicate EntryIsRecord(value: Json, index: nat) {
    value.JArr? && index < |value.items| && value.items[index].JObj?
  }

  /** `normalizeCones`: always four cones; entry `i` overrides default cone `i` when it is a record. */
  function NormalizeCones(value: Json, parse: NumberParser): (cones: seq<Cone>)
    ensures |cones| == 4
    ensures forall i | 0 <= i < 4 :: !EntryIsRecord(value, i) ==> cones[i] == DefaultCones()[i]
    ensures forall i | 0 <= i < 4 :: EntryIsRecord(value, i) ==> cones[i] == NormalizeCone(value.items[i], DefaultCones()[i], parse)
    ensures forall i | 0 <= i < 4 :: ConeInNormalForm(cones[i])
  {
    seq(4, i requires 0 <= i < 4 => ConeAt(value, i, parse))
  }

  /** The cone at position `i`: the record there normalised, else the default cone. */
  function ConeAt(value: Json, i: nat, parse: NumberParser): (c: Cone)
    requires i < 4
    ensures !EntryIsRecord(value, i) ==> c == DefaultCones()[i]
    ensures EntryIsRecord(value, i) ==> c == NormalizeCone(value.items[i], DefaultCones()[i], parse)
    ensures ConeInNormalForm(c)
  {
    var fallback := DefaultCones()[i];
    assert ConeInNormalForm(fallback) by {
      assert fallback.id == "cone-" + Ordinal(i);
      DefaultNameTrimmed("cone-", i);
    }
    if EntryIsRecord(value, i) then NormalizeCone(value.items[i], fallback, parse) else fallback
  }

  /** Missing cone data gives exactly the default cones. */
  lemma MissingConesGiveDefaults(parse: NumberParser)
    ensures NormalizeCones(JNull, parse) == DefaultCones()
  {
    var cones := NormalizeCones(JNull, parse);
    forall i | 0 <= i < 4 ensures cones[i] == DefaultCones()[i] {
      assert !EntryIsRecord(JNull, i);
    }
  }

  // ------------------------------------------------------------ stored form

  /** `prefix` followed by a 1-based position, as in the default names, is trimmed. */
  lemma DefaultNameTrimmed(prefix: string, index: nat)
    requires prefix != [] && !IsSpace(prefix[0])
    ensures Trimmed(prefix + Ordinal(index))
  {
    var o := Ordinal(index);
    assert (prefix + o)[|prefix + o| - 1] == o[|o| - 1];
  }

  /** A player as `normalizeTacticPlayers` leaves it. */
  predicate PlayerInNormalForm(p: Player) {
    && Trimmed(p.id) && Trimmed(p.name)
    && (p.number.Some? ==> Trimmed(p.number.value))
    && (p.role.Some? ==> Trimmed(p.role.value))
    && 0.0 <= p.x <= 1.0 && 0.0 <= p.y <= 1.0 && 0.0 <= p.radius <= 0.5
    && (p.role.Some? && ToLower(p.role.value) == "brannare" ==> p.isBurner)
  }

  lemma NormalizedPlayerInNormalForm(record: Json, index: nat, parse: NumberParser)
    requires record.JObj?
    ensures PlayerInNormalForm(NormalizePlayer(record, index, parse))
  {
    DefaultNameTrimmed("player-", index);
    DefaultNameTrimmed("Spelare ", index);
  }

  /** The JSON the board table stores for a player: `number` and `role` only when set. */
  function PlayerJson(p: Player): (j: Json)
    ensures j.JObj?
  {
    var base := map["id" := JStr(p.id), "name" := JStr(p.name), "x" := JNum(p.x), "y" := JNum(p.y),
                    "radius" := JNum(p.radius), "isBurner" := JBool(p.isBurner)];
    var withNumber := if p.number.Some? then base["number" := JStr(p.number.value)] else base;
    JObj(if p.role.Some? then withNumber["role" := JStr(p.role.value)] else withNumber)
  }

  /** The fields of a stored player, key by key. */
  lemma PlayerJsonFields(p: Player)
    ensures var j := PlayerJson(p);
      && Field(j, "id") == Some(JStr(p.id)) && Field(j, "name") == Some(JStr(p.name))
      && Field(j, "x") == Some(JNum(p.x)) && Field(j, "y") == Some(JNum(p.y))
      && Field(j, "radius") == Some(JNum(p.radius)) && Field(j, "isBurner") == Some(JBool(p.isBurner))
      && Field(j, "number") == (if p.number.Some? then Some(JStr(p.number.value)) else None)
      && Field(j, "role") == (if p.role.Some? then Some(JStr(p.role.value)) else None)
  {
  }

  /** Reading back an optional trimmed string field. */
  lemma ReadOptionalTrimmed(v: Option<string>)
    requires v.Some? ==> Trimmed(v.value)
    ensures ReadString(if v.Some? then Some(JStr(v.value)) else None) == v
  {
    if v.Some? {
      ReadTrimmed(v.value);
    }
  }

  /** A stored normalised player reads back as itself, wherever it sits in the list. */
  lemma PlayerRoundTrip(p: Player, index: nat, parse: NumberParser)
    requires PlayerInNormalForm(p)
    ensures NormalizePlayer(PlayerJson(p), index, parse) == p
  {
    PlayerJsonFields(p);
    ReadFieldsBack(PlayerJson(p), p, index, parse);
  }

  /** Any record whose fields hold a normalised player's values reads back as that player. */
  lemma ReadFieldsBack(j: Json, p: Player, index: nat, parse: NumberParser)
    requires PlayerInNormalForm(p)
    requires && Field(j, "id") == Some(JStr(p.id)) && Field(j, "name") == Some(JStr(p.name))
      && Field(j, "x") == Some(JNum(p.x)) && Field(j, "y") == Some(JNum(p.y))
      && Field(j, "radius") == Some(JNum(p.radius)) && Field(j, "isBurner") == Some(JBool(p.isBurner))
      && Field(j, "number") == (if p.number.Some? then Some(JStr(p.number.value)) else None)
      && Field(j, "role") == (if p.role.Some? then Some(JStr(p.role.value)) else None)
    ensures NormalizePlayer(j, index, parse) == p
  {
    ReadTextBack(j, p, index, parse);
    ReadGeometryBack(j, p, index, parse);
  }

  lemma ReadTextBack(j: Json, p: Player, index: nat, parse: NumberParser)
    requires PlayerInNormalForm(p)
    requires && Field(j, "id") == Some(JStr(p.id)) && Field(j, "name") == Some(JStr(p.name))
      && Field(j, "x") == Some(JNum(p.x)) && Field(j, "y") == Some(JNum(p.y))
      && Field(j, "radius") == Some(JNum(p.radius)) && Field(j, "isBurner") == Some(JBool(p.isBurner))
      && Field(j, "number") == (if p.number.Some? then Some(JStr(p.number.value)) else None)
      && Field(j, "role") == (if p.role.Some? then Some(JStr(p.role.value)) else None)
    ensures var q := NormalizePlayer(j, index, parse);
      q.id == p.id && q.name == p.name && q.number == p.number && q.role == p.role
  {
    var q := NormalizePlayer(j, index, parse);
    assert q.id == p.id by { ReadTrimmed(p.id); }
    assert q.name == p.name by { ReadTrimmed(p.name); }
    assert q.number == p.number by { ReadOptionalTrimmed(p.number); }
    ReadOptionalTrimmed(p.role);
  }

  lemma ReadGeometryBack(j: Json, p: Player, index: nat, parse: NumberParser)
    requires PlayerInNormalForm(p)
    requires && Field(j, "id") == Some(JStr(p.id)) && Field(j, "name") == Some(JStr(p.name))
      && Field(j, "x") == Some(JNum(p.x)) && Field(j, "y") == Some(JNum(p.y))
      && Field(j, "radius") == Some(JNum(p.radius)) && Field(j, "isBurner") == Some(JBool(p.isBurner))
      && Field(j, "number") == (if p.number.Some? then Some(JStr(p.number.value)) else None)
      && Field(j, "role") == (if p.role.Some? then Some(JStr(p.role.value)) else None)
    ensures var q := NormalizePlayer(j, index, parse);
      q.x == p.x && q.y == p.y && q.radius == p.radius && q.isBurner == p.isBurner
  {
    var q := NormalizePlayer(j, index, parse);
    assert q.x == p.x by { NumberReadBack(Field(j, "x"), p.x, parse); }
    assert q.y == p.y by { NumberReadBack(Field(j, "y"), p.y, parse); }
    NumberReadBack(Field(j, "radius"), p.radius, parse);
  }

  /** A number field inside the board is read back as itself, as a coordinate and as a radius. */
  lemma NumberReadBack(v: Option<Json>, n: real, parse: NumberParser)
    requires v == Some(JNum(n))
    ensures 0.0 <= n <= 1.0 ==> Coordinate(v, parse, 0.5) == n
    ensures 0.0 <= n <= 0.5 ==> Radius(v, parse) == n
  {
    assert ReadNumber(v, parse) == Some(n);
  }

  function PlayersJson(ps: seq<Player>): (j: Json)
    ensures j.JArr? && |j.items| == |ps|
  {
    JArr(seq(|ps|, i requires 0 <= i < |ps| => PlayerJson(ps[i])))
  }

  lemma {:induction false} PlayersRoundTripPrefix(ps: seq<Player>, n: nat, parse: NumberParser)
    requires n <= |ps|
    requires forall i | 0 <= i < |ps| :: PlayerInNormalForm(ps[i])
    ensures PlayersOf(PlayersJson(ps).items, n, parse) == ps[..n]
  {
    if n > 0 {
      var items := PlayersJson(ps).items;
      assert ps[..n] == ps[..n - 1] + [ps[n - 1]];
      assert items[n - 1] == PlayerJson(ps[n - 1]);
      PlayerRoundTrip(ps[n - 1], n - 1, parse);
      PlayersOfStep(items, n, parse, ps[n - 1]);
      PlayersRoundTripPrefix(ps, n - 1, parse);
    }
  }

  lemma PlayersOfStep(items: seq<Json>, n: nat, parse: NumberParser, p: Player)
    requires 0 < n <= |items| && items[n - 1].JObj? && NormalizePlayer(items[n - 1], n - 1, parse) == p
    ensures PlayersOf(items, n, parse) == PlayersOf(items, n - 1, parse) + [p]
  {
  }

  /** Normalising the stored form of normalised players gives them back unchanged. */
  lemma PlayersRoundTrip(ps: seq<Player>, parse: NumberParser)
    requires forall i | 0 <= i < |ps| :: PlayerInNormalForm(ps[i])
    ensures PlayersOf(PlayersJson(ps).items, |ps|, parse) == ps
  {
    PlayersRoundTripPrefix(ps, |ps|, parse);
  }

  /** Every normalised player is in normal form. */
  lemma NormalizedPlayersInNormalForm(items: seq<Json>, n: nat, parse: NumberParser)
    requires n <= |items|
    ensures forall i | 0 <= i < |PlayersOf(items, n, parse)| :: PlayerInNormalForm(PlayersOf(items, n, parse)[i])
  {
    PlayersOfObjects(items, n, parse);
    var ps := PlayersOf(items, n, parse);
    var ks := ObjectPositions(items, n);
    forall j | 0 <= j < |ps| ensures PlayerInNormalForm(ps[j]) {
      NormalizedPlayerInNormalForm(items[ks[j]], ks[j], parse);
    }
  }

  /** A chain as `normalizePassChains` leaves it, against the board's player ids. */
  predicate ChainInNormalForm(c: PassChain, known: set<string>) {
    && Trimmed(c.id) && Trimmed(c.name)
    && |c.playerIds| >= 2
    && forall j | 0 <= j < |c.playerIds| :: Trimmed(c.playerIds[j]) && c.playerIds[j] in known
  }

  function IdsJson(ids: seq<string>): (items: seq<Json>)
    ensures |items| == |ids|
  {
    seq(|ids|, i requires 0 <= i < |ids| => JStr(ids[i]))
  }

  lemma {:induction false} KnownIdsRoundTrip(ids: seq<string>, known: set<string>)
    requires forall j | 0 <= j < |ids| :: Trimmed(ids[j]) && ids[j] in known
    ensures KnownIds(IdsJson(ids), known) == ids
  {
    if ids != [] {
      assert IdsJson(ids)[1..] == IdsJson(ids[1..]);
      ReadTrimmed(ids[0]);
      KnownIdsRoundTrip(ids[1..], known);
    }
  }

  function ChainJson(c: PassChain): (j: Json)
    ensures j.JObj?
  {
    JObj(map["id" := JStr(c.id), "name" := JStr(c.name), "playerIds" := JArr(IdsJson(c.playerIds))])
  }

  /** The fields of a stored chain, key by key. */
  lemma ChainJsonFields(c: PassChain)
    ensures var j := ChainJson(c);
      && Field(j, "id") == Some(JStr(c.id)) && Field(j, "name") == Some(JStr(c.name))
      && Field(j, "playerIds") == Some(JArr(IdsJson(c.playerIds)))
  {
  }

  lemma ChainRoundTrip(c: PassChain, index: nat, known: set<string>)
    requires ChainInNormalForm(c, known)
    ensures NormalizeChain(ChainJson(c), index, known) == Some(c)
  {
    ChainJsonFields(c);
    ReadTrimmed(c.id);
    ReadTrimmed(c.name);
    KnownIdsRoundTrip(c.playerIds, known);
  }

  function ChainsJson(cs: seq<PassChain>): (j: Json)
    ensures j.JArr? && |j.items| == |cs|
  {
    JArr(seq(|cs|, i requires 0 <= i < |cs| => ChainJson(cs[i])))
  }

  lemma {:induction false} ChainsRoundTripPrefix(cs: seq<PassChain>, n: nat, known: set<string>)
    requires n <= |cs|
    requires forall i | 0 <= i < |cs| :: ChainInNormalForm(cs[i], known)
    ensures ChainsOf(ChainsJson(cs).items, n, known) == cs[..n]
  {
    if n > 0 {
      var items := ChainsJson(cs).items;
      assert cs[..n] == cs[..n - 1] + [cs[n - 1]];
      assert items[n - 1] == ChainJson(cs[n - 1]);
      ChainRoundTrip(cs[n - 1], n - 1, known);
      ChainsOfStep(items, n, known, cs[n - 1]);
      ChainsRoundTripPrefix(cs, n - 1, known);
    }
  }

  lemma ChainsOfStep(items: seq<Json>, n: nat, known: set<string>, c: PassChain)
    requires 0 < n <= |items| && items[n - 1].JObj? && NormalizeChain(items[n - 1], n - 1, known) == Some(c)
    ensures ChainsOf(items, n, known) == ChainsOf(items, n - 1, known) + [c]
  {
  }

  /** Normalising the stored form of normalised chains, against the same ids, gives them back unchanged. */
  lemma ChainsRoundTrip(cs: seq<PassChain>, known: set<string>)
    requires forall i | 0 <= i < |cs| :: ChainInNormalForm(cs[i], known)
    ensures ChainsOf(ChainsJson(cs).items, |cs|, known) == cs
  {
    ChainsRoundTripPrefix(cs, |cs|, known);
  }

  /** Every normalised chain is in normal form, so in particular passes `validatePassChains`. */
  lemma {:induction false} NormalizedChainsInNormalForm(items: seq<Json>, n: nat, known: set<string>)
    requires n <= |items|
    ensures var cs := ChainsOf(items, n, known);
      && (forall i | 0 <= i < |cs| :: ChainInNormalForm(cs[i], known))
      && AllChainsValid(cs, known)
  {
    if n > 0 {
      var cs0 := ChainsOf(items, n - 1, known);
      var c := if items[n - 1].JObj? then NormalizeChain(items[n - 1], n - 1, known) else None;
      var extra := if c.Some? then [c.value] else [];
      assert ChainsOf(items, n, known) == cs0 + extra;
      NormalizedChainsInNormalForm(items, n - 1, known);
      if items[n - 1].JObj? {
        NormalizedChainInNormalForm(items[n - 1], n - 1, known);
      }
      ConcatChainsInNormalForm(cs0, extra, known);
    }
  }

  /** One normalised chain is in normal form. */
  lemma NormalizedChainInNormalForm(record: Json, index: nat, known: set<string>)
    requires record.JObj?
    ensures var c := NormalizeChain(record, index, known);
      c.Some? ==> ChainInNormalForm(c.value, known)
  {
    DefaultNameTrimmed("chain-", index);
    DefaultNameTrimmed("Kedja ", index);
  }

  lemma ConcatChainsInNormalForm(cs: seq<PassChain>, ds: seq<PassChain>, known: set<string>)
    requires forall i | 0 <= i < |cs| :: ChainInNormalForm(cs[i], known)
    requires forall i | 0 <= i < |ds| :: ChainInNormalForm(ds[i], known)
    ensures forall i | 0 <= i < |cs + ds| :: ChainInNormalForm((cs + ds)[i], known)
    ensures AllChainsValid(cs + ds, known)
  {
    forall i | 0 <= i < |cs + ds| ensures ChainInNormalForm((cs + ds)[i], known) {
      if i < |cs| {
        assert (cs + ds)[i] == cs[i];
      } else {
        assert (cs + ds)[i] == ds[i - |cs|];
      }
    }
  }

  /** A cone as `normalizeCones` leaves it. */
  predicate ConeInNormalForm(c: Cone) {
    Trimmed(c.id) && 0.0 <= c.x <= 1.0 && 0.0 <= c.y <= 1.0
  }

  function ConeJson(c: Cone): (j: Json)
    ensures j.JObj?
  {
    JObj(map["id" := JStr(c.id), "x" := JNum(c.x), "y" := JNum(c.y)])
  }

  function ConesJson(cs: seq<Cone>): (j: Json)
    ensures j.JArr? && |j.items| == |cs|
  {
    JArr(seq(|cs|, i requires 0 <= i < |cs| => ConeJson(cs[i])))
  }

  /** A normalised cone, stored and read back, is unchanged whatever its fallback. */
  lemma ConeRoundTrip(c: Cone, fallback: Cone, parse: NumberParser)
    requires ConeInNormalForm(c)
    ensures NormalizeCone(ConeJson(c), fallback, parse) == c
  {
    var e := ConeJson(c);
    ReadTrimmed(c.id);
    assert Field(e, "id") == Some(JStr(c.id));
    assert Field(e, "x") == Some(JNum(c.x)) && Field(e, "y") == Some(JNum(c.y));
  }

  /** Four normalised cones, stored and read back, are unchanged. */
  lemma ConesRoundTrip(cs: seq<Cone>, parse: NumberParser)
    requires |cs| == 4 && forall i | 0 <= i < 4 :: ConeInNormalForm(cs[i])
    ensures NormalizeCones(ConesJson(cs), parse) == cs
  {
    var j := ConesJson(cs);
    var r := NormalizeCones(j, parse);
    forall i | 0 <= i < 4 ensures r[i] == cs[i] {
      assert j.items[i] == ConeJson(cs[i]);
      assert EntryIsRecord(j, i);
      ConeRoundTrip(cs[i], DefaultCones()[i], parse);
    }
  }

  // ---------------------------------------------------------------- burners

  /** `countBurners`. */
  function CountBurners(players: seq<Player>): (n: nat)
    ensures n <= |players|
    ensures n == 0 <==> forall i | 0 <= i < |players| :: !players[i].isBurner
  {
    if players == [] then 0
    else (if players[0].isBurner then 1 else 0) + CountBurners(players[1..])
  }

  /** Exactly one player is the burner. */
  predicate UniqueBurner(players: seq<Player>, b: nat) {
    b < |players| && players[b].isBurner && forall j | 0 <= j < |players| && j != b :: !players[j].isBurner
  }

  /** A burner count of one means there is exactly one burner, and conversely. */
  lemma {:induction false} CountOneIsUniqueBurner(players: seq<Player>)
    ensures CountBurners(players) == 1 <==> exists b: nat :: UniqueBurner(players, b)
  {
    if players != [] {
      var tail := players[1..];
      CountOneIsUniqueBurner(tail);
      if CountBurners(players) == 1 {
        if players[0].isBurner {
          assert UniqueBurner(players, 0);
        } else {
          var b: nat :| UniqueBurner(tail, b);
          assert forall j | 1 <= j < |players| :: players[j] == tail[j - 1];
          assert UniqueBurner(players, b + 1);
        }
      }
      if b: nat :| UniqueBurner(players, b) {
        assert forall j | 1 <= j < |players| :: players[j] == tail[j - 1];
        if b == 0 {
          assert CountBurners(tail) == 0;
        } else {
          assert UniqueBurner(tail, b - 1);
        }
      }
    }
  }

  /** `validateBurnerSelection`: an empty board, or exactly one burner. */
  function ValidateBurnerSelection(players: seq<Player>): (r: Verdict)
    ensures r.Accepted? <==> |players| == 0 || exists b: nat :: UniqueBurner(players, b)
    ensures r.Rejected? ==> r == Rejected(InvalidBurnerSelection, BurnerMessage)
  {
    CountOneIsUniqueBurner(players);
    if |players| == 0 then Accepted
    else if CountBurners(players) == 1 then Accepted
    else Rejected(InvalidBurnerSelection, BurnerMessage)
  }

  // ------------------------------------------------------ remaining passes

  /** The straight line between two consecutive players of a chain. */
  datatype Segment = Segment(key: string, x1: real, y1: real, x2: real, y2: real)

  /** `new Map(players.map(p => [p.id, p])).get(id)`: the LAST player with that id. */
  function PlayerById(players: seq<Player>, id: string): (r: Option<Player>)
    ensures r.None? <==> forall i | 0 <= i < |players| :: players[i].id != id
    ensures r.Some? ==> exists i | 0 <= i < |players| ::
      players[i] == r.value && r.value.id == id && forall j | i < j < |players| :: players[j].id != id
  {
    if players == [] then None
    else
      var last := |players| - 1;
      if players[last].id == id then Some(players[last])
      else
        var r := PlayerById(players[..last], id);
        if r.Some? then
          var i :| 0 <= i < last && players[..last][i] == r.value && r.value.id == id
                   && forall j | i < j < last :: players[..last][j].id != id;
          assert players[i] == r.value;
          r
        else r
  }

  /** The chain's players: ids resolved through the map, unknown ids dropped. */
  function ChainPlayers(ids: seq<string>, players: seq<Player>): (cp: seq<Player>)
    ensures |cp| <= |ids|
    ensures forall k | 0 <= k < |cp| :: cp[k] in players
    ensures |ids| == 1 ==> cp == (if PlayerById(players, ids[0]).Some? then [PlayerById(players, ids[0]).value] else [])
  {
    if ids == [] then []
    else
      var p := PlayerById(players, ids[0]);
      (if p.Some? then [p.value] else []) + ChainPlayers(ids[1..], players)
  }

  /**
   * Resolving distributes over concatenation. With the one-id case this fixes
   * the result: for each id in order, the player the map holds for it, if any.
   */
  lemma {:induction false} ChainPlayersAppend(a: seq<string>, b: seq<string>, players: seq<Player>)
    ensures ChainPlayers(a + b, players) == ChainPlayers(a, players) + ChainPlayers(b, players)
  {
    if a == [] {
      assert a + b == b;
    } else {
      assert (a + b)[0] == a[0];
      assert (a + b)[1..] == a[1..] + b;
      var p := PlayerById(players, a[0]);
      var head := if p.Some? then [p.value] else [];
      calc {
        ChainPlayers(a + b, players);
        head + ChainPlayers(a[1..] + b, players);
        { ChainPlayersAppend(a[1..], b, players); }
        head + (ChainPlayers(a[1..], players) + ChainPlayers(b, players));
        (head + ChainPlayers(a[1..], players)) + ChainPlayers(b, players);
        ChainPlayers(a, players) + ChainPlayers(b, players);
      }
    }
  }

  /** `findIndex` of the first player with id `focus`. */
  function FirstWithId(cp: seq<Player>, focus: string): (r: Option<nat>)
    ensures r.None? <==> forall k | 0 <= k < |cp| :: cp[k].id != focus
    ensures r.Some? ==> r.value < |cp| && cp[r.value].id == focus && forall k | 0 <= k < r.value :: cp[k].id != focus
  {
    if cp == [] then None
    else if cp[0].id == focus then Some(0)
    else
      var r := FirstWithId(cp[1..], focus);
      if r.Some? then Some(r.value + 1) else None
  }

  /** `findIndex` of the first burner at or after `from`. */
  function FirstBurnerFrom(cp: seq<Player>, from: nat): (r: Option<nat>)
    ensures r.None? <==> forall k | from <= k < |cp| :: !cp[k].isBurner
    ensures r.Some? ==> from <= r.value < |cp| && cp[r.value].isBurner
                        && forall k | from <= k < r.value :: !cp[k].isBurner
    decreases |cp| - from
  {
    if from >= |cp| then None
    else if cp[from].isBurner then Some(from)
    else FirstBurnerFrom(cp, from + 1)
  }

  /** The segment from `cp[index]` to `cp[index + 1]`, keyed `chain-from-to-index`. */
  function SegmentAt(chainId: string, cp: seq<Player>, index: nat): (s: Segment)
    requires index + 1 < |cp|
    ensures s.x1 == cp[index].x && s.y1 == cp[index].y && s.x2 == cp[index + 1].x && s.y2 == cp[index + 1].y
  {
    Segment(chainId + "-" + cp[index].id + "-" + cp[index + 1].id + "-" + NatToDecimal(index),
            cp[index].x, cp[index].y, cp[index + 1].x, cp[index + 1].y)
  }

  /** The segments starting at `from`, `from + 1`, …, up to but not including `to`. */
  function Segments(chainId: string, cp: seq<Player>, from: nat, to: nat): (segs: seq<Segment>)
    requires from <= to < |cp|
    ensures |segs| == to - from
    ensures forall k | 0 <= k < to - from :: segs[k] == SegmentAt(chainId, cp, from + k)
  {
    seq(to - from, k requires 0 <= k < to - from => SegmentAt(chainId, cp, from + k))
  }

  /** Where the remaining run of a chain starts and (exclusively) ends, if it has any segment. */
  function RunBounds(cp: seq<Player>, focus: string): (b: Option<(nat, nat)>)
    ensures b.Some? ==> b.value.0 + 2 <= b.value.1 <= |cp|
  {
    if |cp| < 2 then None
    else
      var f := FirstWithId(cp, focus);
      if f.None? then None
      else
        var burner := FirstBurnerFrom(cp, f.value);
        var end := if burner.None? then |cp| else burner.value + 1;
        if end - f.value < 2 then None else Some((f.value, end))
  }

  /** The remaining segments drawn along the players `cp` of a chain. */
  function RunSegments(chainId: string, cp: seq<Player>, focus: string): (segs: seq<Segment>)
  {
    var b := RunBounds(cp, focus);
    if b.None? then [] else Segments(chainId, cp, b.value.0, b.value.1 - 1)
  }

  /** The remaining segments of one chain. */
  function ChainSegments(chain: PassChain, players: seq<Player>, focus: string): (segs: seq<Segment>)
  {
    RunSegments(chain.id, ChainPlayers(chain.playerIds, players), focus)
  }

  /**
   * The run starts at the first occurrence of the focused player, no segment
   * starts at a burner, and the run ends at the first burner after the
   * focus or at the chain's end.
   */
  lemma RunStopsAtFirstBurner(chainId: string, cp: seq<Player>, focus: string)
    ensures var segs := RunSegments(chainId, cp, focus);
      segs != [] ==>
        var f := FirstWithId(cp, focus);
        && f.Some? && f.value + |segs| < |cp|
        && (forall k | 0 <= k < |segs| :: segs[k] == SegmentAt(chainId, cp, f.value + k) && !cp[f.value + k].isBurner)
        && (f.value + |segs| == |cp| - 1 || cp[f.value + |segs|].isBurner)
  {
    var b := RunBounds(cp, focus);
    if b.Some? {
      RunOfBounds(cp, focus);
      var segs := RunSegments(chainId, cp, focus);
      RunSegmentsAt(chainId, cp, focus);
      assert segs == Segments(chainId, cp, b.value.0, b.value.1 - 1);
    }
  }

  /** Segment `k` of the run starts at player `from + k`. */
  lemma RunSegmentsAt(chainId: string, cp: seq<Player>, focus: string)
    ensures var b := RunBounds(cp, focus);
      b.Some? ==>
        var segs := RunSegments(chainId, cp, focus);
        && b.value.0 + |segs| == b.value.1 - 1
        && forall k | 0 <= k < |segs| :: segs[k] == SegmentAt(chainId, cp, b.value.0 + k)
  {
  }

  /** The run starts at the focused player and stops at the first burner from there, or at the end. */
  lemma RunOfBounds(cp: seq<Player>, focus: string)
    ensures var b := RunBounds(cp, focus);
      b.Some? ==>
        && FirstWithId(cp, focus) == Some(b.value.0)
        && (forall k | b.value.0 <= k < b.value.1 - 1 :: !cp[k].isBurner)
        && (b.value.1 == |cp| || cp[b.value.1 - 1].isBurner)
  {
  }

  /**
   * When a run exists: no focus gives no segment, and a focus that is not a
   * burner and not the last player starts a run reaching the first burner
   * after it, or the chain's last player.
   */
  lemma RunLength(chainId: string, cp: seq<Player>, focus: string)
    ensures var segs := RunSegments(chainId, cp, focus); var f := FirstWithId(cp, focus);
      && (f.None? ==> segs == [])
      && (f.Some? && !cp[f.value].isBurner && f.value + 1 < |cp| ==>
            var b := FirstBurnerFrom(cp, f.value);
            segs != [] && |segs| == (if b.None? then |cp| - 1 else b.value) - f.value)
  {
    var f := FirstWithId(cp, focus);
    if f.Some? && !cp[f.value].isBurner && f.value + 1 < |cp| {
      var b := FirstBurnerFrom(cp, f.value);
      assert b.Some? ==> b.value > f.value;
      RunSegmentsAt(chainId, cp, focus);
    }
  }

  /** A focused player who is the burner has no remaining passes. */
  lemma FocusedBurnerHasNoRun(chainId: string, cp: seq<Player>, focus: string)
    requires var f := FirstWithId(cp, focus); f.Some? && cp[f.value].isBurner
    ensures RunSegments(chainId, cp, focus) == []
  {
    var f := FirstWithId(cp, focus);
    assert FirstBurnerFrom(cp, f.value) == Some(f.value);
  }

  /** The segments of the first `n` chains, in chain order. */
  function SegmentsOf(chains: seq<PassChain>, players: seq<Player>, focus: string, n: nat): seq<Segment>
    requires n <= |chains|
  {
    if n == 0 then [] else SegmentsOf(chains, players, focus, n - 1) + ChainSegments(chains[n - 1], players, focus)
  }

  /** The segments of a chain's run `[from, end)`, appended to `segments` (the inner loop). */
  method AppendRun(segments: seq<Segment>, chainId: string, cp: seq<Player>, from: nat, end: nat)
    returns (out: seq<Segment>)
    requires from + 2 <= end <= |cp|
    ensures out == segments + Segments(chainId, cp, from, end - 1)
  {
    out := segments;
    var index := from;
    while index < end - 1
      invariant from <= index <= end - 1
      invariant out == segments + Segments(chainId, cp, from, index)
    {
      assert Segments(chainId, cp, from, index + 1) == Segments(chainId, cp, from, index) + [SegmentAt(chainId, cp, index)];
      out := out + [SegmentAt(chainId, cp, index)];
      index := index + 1;
    }
  }

  /** The body of the outer loop: the run of chain `c`, when it has one, appended. */
  method AppendChain(segments: seq<Segment>, chains: seq<PassChain>, players: seq<Player>, focus: string, c: nat)
    returns (out: seq<Segment>)
    requires c < |chains| && segments == SegmentsOf(chains, players, focus, c)
    ensures out == SegmentsOf(chains, players, focus, c + 1)
  {
    var chain := chains[c];
    var chainPlayers := ChainPlayers(chain.playerIds, players);
    assert SegmentsOf(chains, players, focus, c + 1) == segments + RunSegments(chain.id, chainPlayers, focus);
    var bounds := RunBounds(chainPlayers, focus);
    if bounds.Some? {
      out := AppendRun(segments, chain.id, chainPlayers, bounds.value.0, bounds.value.1);
    } else {
      out := segments;
    }
  }

  /** `resolveRemainingPassSegments`: no focus (absent or empty) draws nothing. */
  method ResolveRemainingPassSegments(chains: seq<PassChain>, players: seq<Player>, focusedPlayerId: Option<string>)
    returns (segments: seq<Segment>)
    ensures focusedPlayerId.None? || focusedPlayerId.value == [] ==> segments == []
    ensures focusedPlayerId.Some? && focusedPlayerId.value != [] ==>
      segments == SegmentsOf(chains, players, focusedPlayerId.value, |chains|)
  {
    if focusedPlayerId.None? || focusedPlayerId.value == [] {
      return [];
    }
    var focus := focusedPlayerId.value;
    segments := [];
    var c := 0;
    while c < |chains|
      invariant 0 <= c <= |chains|
      invariant segments == SegmentsOf(chains, players, focus, c)
    {
      segments := AppendChain(segments, chains, players, focus, c);
      c := c + 1;
    }
  }
}
