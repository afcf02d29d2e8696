/**
 * `GET` and `PUT /api/tactics` (`src/app/api/tactics/route.ts`): the one
 * shared tactics board. GET creates the default board on first use; PUT
 * validates, normalises and stores a whole new board. The board table holds
 * one record whose columns are JSON; a store that throws is the input
 * `storeFails`.
 */
module TacticsRoute {
  import opened Wrappers
  import opened Json
  import opened Store
  import opened Http
  import opened Session
  import opened Guards
  import opened Validation
  import opened Tactics

  const BoardKey := "default"

  /** A row of the board table; `updatedAt` is a timestamp in milliseconds. */
  datatype BoardRecord = BoardRecord(key: string, playersData: Json, passChainsData: Json, conesData: Json, updatedAt: int)

  /** `TacticBoardDto` (`updatedAt` stays a timestamp rather than an ISO string). */
  datatype BoardDto = BoardDto(key: string, players: seq<Player>, passChains: seq<PassChain>, cones: seq<Cone>, updatedAt: int)

  /**
   * `toDto`: whatever is stored, the reply holds normalised players, chains
   * that name only those players, and exactly four cones.
   */
  function ToDto(board: BoardRecord, parse: NumberParser): (dto: BoardDto)
    ensures dto.key == board.key && dto.updatedAt == board.updatedAt
    ensures dto.players == NormalizedPlayers(board.playersData, parse)
    ensures AllChainsValid(dto.passChains, PlayerIds(dto.players))
    ensures |dto.cones| == 4
  {
    var players := NormalizedPlayers(board.playersData, parse);
    BoardDto(board.key, players, NormalizedChains(board.passChainsData, players),
             NormalizeCones(board.conesData, parse), board.updatedAt)
  }

  /** The record PUT stores: the normalised board in its JSON form. */
  function StoredBoard(players: seq<Player>, chains: seq<PassChain>, cones: seq<Cone>, now: int): BoardRecord {
    BoardRecord(BoardKey, PlayersJson(players), ChainsJson(chains), ConesJson(cones), now)
  }

  /** A stored normalised board reads back exactly as it was saved. */
  lemma StoredBoardReadsBack(players: seq<Player>, chains: seq<PassChain>, cones: seq<Cone>, now: int, parse: NumberParser)
    requires forall i | 0 <= i < |players| :: PlayerInNormalForm(players[i])
    requires forall i | 0 <= i < |chains| :: ChainInNormalForm(chains[i], PlayerIds(players))
    requires |cones| == 4 && forall i | 0 <= i < 4 :: ConeInNormalForm(cones[i])
    ensures ToDto(StoredBoard(players, chains, cones, now), parse) == BoardDto(BoardKey, players, chains, cones, now)
  {
    PlayersRoundTrip(players, parse);
    ChainsRoundTrip(chains, PlayerIds(players));
    ConesRoundTrip(cones, parse);
  }

  /** The board `ensureBoard` creates: no players, no chains, the default cones. */
  function NewBoard(now: int): BoardRecord {
    BoardRecord(BoardKey, JArr([]), JArr([]), ConesJson(DefaultCones()), now)
  }

  /** A new board reads as empty with the default cones. */
  lemma NewBoardReadsAsDefault(now: int, parse: NumberParser)
    ensures ToDto(NewBoard(now), parse) == BoardDto(BoardKey, [], [], DefaultCones(), now)
  {
    var cones := DefaultCones();
    assert forall i | 0 <= i < 4 :: ConeInNormalForm(cones[i]);
    ConesRoundTrip(cones, parse);
  }

  /** The board table, keyed by `BoardKey`: absent until first used. */
  class BoardStore {
    var board: Option<BoardRecord>

    constructor()
      ensures board.None?
    {
      board := None;
    }

    /** `ensureBoard`: the stored board, or a new default one created at `now`. */
    method EnsureBoard(now: int) returns (record: BoardRecord)
      modifies this
      ensures old(board).Some? ==> record == old(board).value && board == old(board)
      ensures old(board).None? ==> record == NewBoard(now) && board == Some(record)
    {
      if board.Some? {
        return board.value;
      }
      record := NewBoard(now);
      board := Some(record);
    }
  }

  const StoreUnavailable := ApiError(InternalError, 503, NoDetail)

  /** `GET`: any signed-in user; a board is created on first read. */
  method Get(store: BoardStore, session: Option<SessionUser>, storeFails: bool, now: int, parse: NumberParser)
    returns (response: Response<BoardDto>)
    modifies store
    ensures session.None? ==> response == Fail(ApiError(Unauthorized, 401, NoDetail))
    ensures session.None? || storeFails ==> store.board == old(store.board)
    ensures session.Some? && storeFails ==> response == Fail(StoreUnavailable)
    ensures session.Some? && !storeFails ==>
      && store.board.Some?
      && (old(store.board).Some? ==> store.board == old(store.board))
      && response == Ok(ToDto(store.board.value, parse))
    ensures session.Some? && !storeFails && old(store.board).None? ==>
      response == Ok(BoardDto(BoardKey, [], [], DefaultCones(), now))
  {
    var auth := RequireApiUser(session, None);
    if auth.response.Some? {
      return Fail(auth.response.value);
    }
    if storeFails {
      return Fail(StoreUnavailable);
    }
    var board := store.EnsureBoard(now);
    NewBoardReadsAsDefault(now, parse);
    response := Ok(ToDto(board, parse));
  }

  /** Where the validation of a PUT body ends. */
  datatype BoardCheck =
    | BadPayload
    | BadSchema
    | Refused(code: string, message: string)
    | Save(players: seq<Player>, chains: seq<PassChain>, cones: seq<Cone>)

  /** Every raw id of every submitted chain names a normalised player (checked before chain normalisation). */
  predicate RawChainIdsKnown(chains: seq<Json>, known: set<string>) {
    forall c | 0 <= c < |chains| ::
      var ids := ItemsOrEmpty(Field(chains[c], "playerIds"));
      forall k | 0 <= k < |ids| :: ids[k].JStr? ==> ids[k].s in known
  }

  /** The PUT pipeline on the body: schema, burner rule, raw chain ids, normalised chains, cones. */
  function CheckBoard(body: Option<Json>, parse: NumberParser): (r: BoardCheck)
    ensures body.None? <==> r.BadPayload?
    ensures r.BadSchema? <==> body.Some? && ParseTacticBoard(body.value).None?
    ensures r.Save? ==>
      && ValidateBurnerSelection(r.players).Accepted?
      && AllChainsValid(r.chains, PlayerIds(r.players))
      && (forall i | 0 <= i < |r.players| :: PlayerInNormalForm(r.players[i]))
      && (forall i | 0 <= i < |r.chains| :: ChainInNormalForm(r.chains[i], PlayerIds(r.players)))
      && |r.cones| == 4 && (forall i | 0 <= i < 4 :: ConeInNormalForm(r.cones[i]))
    ensures r.Refused? ==> r.code == InvalidBurnerSelection || r.code == InvalidPassChain
    ensures r.Save? <==>
      && body.Some? && ParseTacticBoard(body.value).Some?
      && var input := ParseTacticBoard(body.value).value;
         var players := NormalizedPlayers(JArr(input.players), parse);
         ValidateBurnerSelection(players).Accepted? && RawChainIdsKnown(input.passChains, PlayerIds(players))
    ensures r.Save? ==>
      var input := ParseTacticBoard(body.value).value;
      && r.players == NormalizedPlayers(JArr(input.players), parse)
      && r.chains == NormalizedChains(JArr(input.passChains), r.players)
      && r.cones == NormalizeCones(JArr(input.cones), parse)
  {
    if body.None? then BadPayload
    else
      var input := ParseTacticBoard(body.value);
      if input.None? then BadSchema
      else
        var players := NormalizedPlayers(JArr(input.value.players), parse);
        var burners := ValidateBurnerSelection(players);
        if burners.Rejected? then Refused(burners.code, burners.message)
        else if !RawChainIdsKnown(input.value.passChains, PlayerIds(players)) then
          Refused(InvalidPassChain, ChainUnknownPlayerMessage)
        else
          var chains := NormalizedChains(JArr(input.value.passChains), players);
          Save(players, chains, NormalizeCones(JArr(input.value.cones), parse))
  }

  /**
   * A board with players but no burner, or with two, is refused with
   * `INVALID_BURNER_SELECTION`, whatever its chains.
   */
  lemma BurnerRuleComesFirst(body: Json, parse: NumberParser)
    requires ParseTacticBoard(body).Some?
    requires var ps := NormalizedPlayers(JArr(ParseTacticBoard(body).value.players), parse);
      |ps| > 0 && !(exists b: nat :: UniqueBurner(ps, b))
    ensures CheckBoard(Some(body), parse) == Refused(InvalidBurnerSelection, BurnerMessage)
  {
  }

  /**
   * A board that passes the burner rule but has a chain naming someone who is
   * not on the board is refused with `INVALID_PASS_CHAIN`, and nothing is saved.
   */
  lemma UnknownChainPlayerRefused(body: Json, parse: NumberParser, c: nat, k: nat)
    requires ParseTacticBoard(body).Some?
    requires var input := ParseTacticBoard(body).value;
      var players := NormalizedPlayers(JArr(input.players), parse);
      && ValidateBurnerSelection(players).Accepted?
      && c < |input.passChains|
      && var ids := ItemsOrEmpty(Field(input.passChains[c], "playerIds"));
         k < |ids| && ids[k].JStr? && ids[k].s !in PlayerIds(players)
    ensures CheckBoard(Some(body), parse) == Refused(InvalidPassChain, ChainUnknownPlayerMessage)
  {
    var input := ParseTacticBoard(body).value;
    var players := NormalizedPlayers(JArr(input.players), parse);
    assert !RawChainIdsKnown(input.passChains, PlayerIds(players));
  }

  /** The error response of a refused or malformed body. */
  function CheckError(r: BoardCheck): (e: ApiError)
    requires !r.Save?
    ensures e.status == 400 && e.code == InvalidInput
  {
    match r
    case BadPayload => ApiError(InvalidInput, 400, NoDetail)
    case BadSchema => ApiError(InvalidInput, 400, SchemaIssues)
    case Refused(code, _) => ApiError(InvalidInput, 400, DetailCode(code))
  }

  /** The loop over the submitted chains: does every raw id name a normalised player? */
  method RawChainsKnown(chains: seq<Json>, playerIds: set<string>) returns (known: bool)
    ensures known == RawChainIdsKnown(chains, playerIds)
  {
    var c := 0;
    while c < |chains|
      invariant 0 <= c <= |chains|
      invariant RawChainIdsKnown(chains[..c], playerIds)
    {
      var ids := ItemsOrEmpty(Field(chains[c], "playerIds"));
      if exists k | 0 <= k < |ids| :: ids[k].JStr? && ids[k].s !in playerIds {
        assert !RawChainIdsKnown(chains, playerIds) by {
          assert 0 <= c < |chains|;
        }
        return false;
      }
      assert forall j | 0 <= j < c + 1 :: chains[..c + 1][j] == chains[j];
      c := c + 1;
    }
    assert chains[..c] == chains;
    return true;
  }

  /**
   * The validation steps of `PUT`, in the order the route takes them. The
   * second chain check, on the normalised chains, can never fail: the raw
   * ids are all known by then and normalisation keeps only chains of two or
   * more known players.
   */
  method CheckBody(body: Option<Json>, parse: NumberParser) returns (check: BoardCheck)
    ensures check == CheckBoard(body, parse)
  {
    if body.None? {
      return BadPayload;
    }
    var parsed := ParseTacticBoard(body.value);
    if parsed.None? {
      return BadSchema;
    }
    var input := parsed.value;

    var players := NormalizeTacticPlayers(JArr(input.players), parse);
    var burnerValidation := ValidateBurnerSelection(players);
    if burnerValidation.Rejected? {
      return Refused(burnerValidation.code, burnerValidation.message);
    }

    var known := RawChainsKnown(input.passChains, PlayerIds(players));
    if !known {
      return Refused(InvalidPassChain, ChainUnknownPlayerMessage);
    }

    var passChains := NormalizePassChains(JArr(input.passChains), players);
    var chainValidation := ValidatePassChains(passChains, players);
    if chainValidation.Rejected? {
      assert false;
    }

    var cones := NormalizeCones(JArr(input.cones), parse);
    return Save(players, passChains, cones);
  }

  /**
   * `PUT`: admins only. A refused board stores nothing; an accepted one
   * replaces the stored board with the normalised one, which is also the reply.
   */
  method Put(store: BoardStore, session: Option<SessionUser>, body: Option<Json>, storeFails: bool, now: int,
             parse: NumberParser)
    returns (response: Response<BoardDto>)
    modifies store
    ensures session.None? ==> response == Fail(ApiError(Unauthorized, 401, NoDetail))
    ensures session.Some? && session.value.role != Admin ==> response == Fail(ApiError(Forbidden, 403, NoDetail))
    ensures response.Fail? ==> store.board == old(store.board)
    ensures session.Some? && session.value.role == Admin ==>
      var check := CheckBoard(body, parse);
      && (!check.Save? ==> response == Fail(CheckError(check)))
      && (check.Save? && storeFails ==> response == Fail(StoreUnavailable))
      && (check.Save? && !storeFails ==>
            && store.board == Some(StoredBoard(check.players, check.chains, check.cones, now))
            && response == Ok(BoardDto(BoardKey, check.players, check.chains, check.cones, now)))
  {
    var auth := RequireApiUser(session, Some([Admin]));
    if auth.response.Some? {
      return Fail(auth.response.value);
    }
    var check := CheckBody(body, parse);
    if !check.Save? {
      return Fail(CheckError(check));
    }
    if storeFails {
      return Fail(StoreUnavailable);
    }
    var record := StoredBoard(check.players, check.chains, check.cones, now);
    store.board := Some(record);
    GetAfterPutReturnsSavedBoard(body, now, parse);
    response := Ok(ToDto(record, parse));
  }

  /** After an accepted PUT, every GET returns the saved board until the next PUT. */
  lemma GetAfterPutReturnsSavedBoard(body: Option<Json>, now: int, parse: NumberParser)
    requires CheckBoard(body, parse).Save?
    ensures var check := CheckBoard(body, parse);
      ToDto(StoredBoard(check.players, check.chains, check.cones, now), parse)
        == BoardDto(BoardKey, check.players, check.chains, check.cones, now)
  {
    var check := CheckBoard(body, parse);
    StoredBoardReadsBack(check.players, check.chains, check.cones, now, parse);
  }
}
