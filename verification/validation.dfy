/**
 * The request schemas of `src/lib/validation.ts` as predicates over a parsed
 * JSON body, with the parse results the routes go on to use. A zod object
 * accepts any JSON object (unknown keys are dropped from the result), an
 * `optional()` key may be missing but not null, and a `nullable()` one may
 * also be null. String bounds count characters.
 */
module Validation {
  import opened Wrappers
  import opened Json
  import opened Text
  import Otp

  /** The zod formats whose grammars are not part of this model. */
  datatype Formats = Formats(
    isEmail: string -> bool,
    isDatetime: string -> bool,
    /** `new Date(s).getTime()` for a string that passed `isDatetime`. */
    datetimeMs: string -> int)

  /** `z.string().min(lo).max(hi)`. */
  predicate IsStr(v: Json, lo: nat, hi: nat) {
    v.JStr? && lo <= |v.s| <= hi
  }

  /** `z.number().min(lo).max(hi)`. */
  predicate IsNum(v: Json, lo: real, hi: real) {
    v.JNum? && lo <= v.n <= hi
  }

  /** A key that `.optional()` lets be missing, and that otherwise satisfies `p`. */
  predicate OptionalKey(j: Json, key: string, p: Json -> bool) {
    Field(j, key).None? || p(Field(j, key).value)
  }

  /** A key that `.optional().nullable()` lets be missing or null. */
  predicate NullableKey(j: Json, key: string, p: Json -> bool) {
    Field(j, key).None? || Field(j, key).value.JNull? || p(Field(j, key).value)
  }

  /** The object `j` with only the listed keys, as zod returns it. */
  function Strip(j: Json, keys: set<string>): (r: Json)
    requires j.JObj?
    ensures r.JObj? && r.fields.Keys == j.fields.Keys * keys
    ensures forall k | k in keys :: Field(r, k) == Field(j, k)
  {
    JObj(map k | k in j.fields.Keys && k in keys :: j.fields[k])
  }

  // ---------------------------------------------------------------------------
  // Login

  /** `requestCodeSchema`. */
  predicate RequestCodeValid(f: Formats, j: Json) {
    j.JObj? && Field(j, "email").Some? && Field(j, "email").value.JStr? && f.isEmail(Field(j, "email").value.s)
  }

  /** `requestCodeSchema.safeParse`: the e-mail as sent, for a body that passes. */
  function ParseRequestCode(f: Formats, j: Json): (email: Option<string>)
    ensures email.Some? <==> RequestCodeValid(f, j)
    ensures email.Some? ==> f.isEmail(email.value) && Field(j, "email") == Some(JStr(email.value))
  {
    if RequestCodeValid(f, j) then Some(Field(j, "email").value.s) else None
  }

  /** `/^\d{6}$/`: exactly six ASCII digits and nothing else. */
  predicate IsSixDigits(s: string) {
    |s| == 6 && AllDigits(s)
  }

  datatype VerifyCodeInput = VerifyCodeInput(email: string, code: string)

  /** `verifyCodeSchema`. */
  predicate VerifyCodeValid(f: Formats, j: Json) {
    && RequestCodeValid(f, j)
    && Field(j, "code").Some? && Field(j, "code").value.JStr?
    && IsSixDigits(Field(j, "code").value.s)
  }

  /** `verifyCodeSchema.safeParse`. */
  function ParseVerifyCode(f: Formats, j: Json): (r: Option<VerifyCodeInput>)
    ensures r.Some? <==> VerifyCodeValid(f, j)
    ensures r.Some? ==> f.isEmail(r.value.email) && IsSixDigits(r.value.code)
    ensures r.Some? ==> ParseRequestCode(f, j) == Some(r.value.email)
    ensures r.Some? ==> Field(j, "code") == Some(JStr(r.value.code))
  {
    if VerifyCodeValid(f, j) then Some(VerifyCodeInput(Field(j, "email").value.s, Field(j, "code").value.s)) else None
  }

  /** Every code the request route can mail passes the verify schema's code rule. */
  lemma GeneratedCodesAreWellFormed(draw: nat)
    requires Otp.OtpMin <= draw <= Otp.OtpMax
    ensures IsSixDigits(Otp.GenerateOtpCode(draw))
  {
  }

  /** A code with a seventh character, or with a non-digit in it, is refused. */
  lemma CodeMustBeSixDigits(s: string, i: nat, c: char)
    requires IsSixDigits(s)
    ensures !IsSixDigits(s + [c])
    ensures i < 6 && !IsDigit(c) ==> !IsSixDigits(s[i := c])
  {
    if i < 6 {
      assert s[i := c][i] == c;
    }
  }

  // ---------------------------------------------------------------------------
  // Tactics board

  const PlayerKeys: set<string> := {"id", "name", "number", "role", "isBurner", "x", "y", "radius"}
  const ChainKeys: set<string> := {"id", "name", "playerIds"}
  const ConeKeys: set<string> := {"id", "x", "y"}

  /** `tacticPlayerSchema`. */
  predicate PlayerValid(p: Json) {
    && p.JObj?
    && Field(p, "id").Some? && Field(p, "id").value.JStr? && |Field(p, "id").value.s| >= 1
    && Field(p, "name").Some? && IsStr(Field(p, "name").value, 1, 120)
    && OptionalKey(p, "number", (v: Json) => v.JStr?)
    && OptionalKey(p, "role", (v: Json) => v.JStr?)
    && OptionalKey(p, "isBurner", (v: Json) => v.JBool?)
    && Field(p, "x").Some? && IsNum(Field(p, "x").value, 0.0, 1.0)
    && Field(p, "y").Some? && IsNum(Field(p, "y").value, 0.0, 1.0)
    && OptionalKey(p, "radius", (v: Json) => IsNum(v, 0.0, 0.5))
  }

  /** `z.array(z.string().min(1)).min(2)`: duplicates are allowed. */
  predicate ChainIdsValid(v: Json) {
    v.JArr? && |v.items| >= 2 && forall i | 0 <= i < |v.items| :: v.items[i].JStr? && |v.items[i].s| >= 1
  }

  /** `tacticPassChainSchema`. */
  predicate ChainValid(c: Json) {
    && c.JObj?
    && Field(c, "id").Some? && Field(c, "id").value.JStr? && |Field(c, "id").value.s| >= 1
    && Field(c, "name").Some? && IsStr(Field(c, "name").value, 1, 120)
    && Field(c, "playerIds").Some? && ChainIdsValid(Field(c, "playerIds").value)
  }

  /** `tacticConeSchema`. */
  predicate ConeValid(c: Json) {
    && c.JObj?
    && Field(c, "id").Some? && Field(c, "id").value.JStr? && |Field(c, "id").value.s| >= 1
    && Field(c, "x").Some? && IsNum(Field(c, "x").value, 0.0, 1.0)
    && Field(c, "y").Some? && IsNum(Field(c, "y").value, 0.0, 1.0)
  }

  /** An array of entries that all satisfy `p`, or a missing key when `.default([])` applies. */
  predicate ArrayOf(v: Option<Json>, p: Json -> bool, defaultsToEmpty: bool) {
    if v.None? then defaultsToEmpty
    else v.value.JArr? && forall i | 0 <= i < |v.value.items| :: p(v.value.items[i])
  }

  /** `tacticBoardSchema`. */
  predicate TacticBoardValid(j: Json) {
    && j.JObj?
    && ArrayOf(Field(j, "players"), PlayerValid, true)
    && ArrayOf(Field(j, "passChains"), ChainValid, true)
    && ArrayOf(Field(j, "cones"), ConeValid, false)
    && |Field(j, "cones").value.items| == 4
  }

  /** The parsed board: each list as a JSON array of stripped objects. */
  datatype TacticBoardInput = TacticBoardInput(players: seq<Json>, passChains: seq<Json>, cones: seq<Json>)

  function StripAll(items: seq<Json>, keys: set<string>): (r: seq<Json>)
    requires forall i | 0 <= i < |items| :: items[i].JObj?
    ensures |r| == |items|
    ensures forall i | 0 <= i < |items| :: r[i] == Strip(items[i], keys)
  {
    seq(|items|, i requires 0 <= i < |items| => Strip(items[i], keys))
  }

  function ItemsOrEmpty(v: Option<Json>): seq<Json> {
    if v.Some? && v.value.JArr? then v.value.items else []
  }

  /** `tacticBoardSchema.safeParse`: defaults applied and unknown keys dropped. */
  function ParseTacticBoard(j: Json): (r: Option<TacticBoardInput>)
    ensures r.Some? <==> TacticBoardValid(j)
    ensures r.Some? ==> |r.value.cones| == 4
    ensures r.Some? && Field(j, "players").None? ==> r.value.players == []
    ensures r.Some? && Field(j, "passChains").None? ==> r.value.passChains == []
    ensures r.Some? ==> forall i | 0 <= i < |r.value.passChains| :: ChainValid(r.value.passChains[i])
    ensures r.Some? ==> forall i | 0 <= i < |r.value.players| :: PlayerValid(r.value.players[i])
    ensures r.Some? ==> r.value.players == StripAll(ItemsOrEmpty(Field(j, "players")), PlayerKeys)
    ensures r.Some? ==> r.value.passChains == StripAll(ItemsOrEmpty(Field(j, "passChains")), ChainKeys)
    ensures r.Some? ==> r.value.cones == StripAll(ItemsOrEmpty(Field(j, "cones")), ConeKeys)
  {
    if TacticBoardValid(j) then
      var players := ItemsOrEmpty(Field(j, "players"));
      var chains := ItemsOrEmpty(Field(j, "passChains"));
      var cones := ItemsOrEmpty(Field(j, "cones"));
      assert forall i | 0 <= i < |players| :: PlayerValid(players[i]);
      assert forall i | 0 <= i < |chains| :: ChainValid(chains[i]);
      assert forall i | 0 <= i < |cones| :: ConeValid(cones[i]);
      Some(TacticBoardInput(StripAll(players, PlayerKeys), StripAll(chains, ChainKeys), StripAll(cones, ConeKeys)))
    else None
  }

  function SampleCones(): seq<Json> {
    [ JObj(map["id" := JStr("cone-1"), "x" := JNum(0.2), "y" := JNum(0.2)]),
      JObj(map["id" := JStr("cone-2"), "x" := JNum(0.8), "y" := JNum(0.2)]),
      JObj(map["id" := JStr("cone-3"), "x" := JNum(0.8), "y" := JNum(0.8)]),
      JObj(map["id" := JStr("cone-4"), "x" := JNum(0.2), "y" := JNum(0.8)]) ]
  }

  function SamplePlayer(): Json {
    JObj(map["id" := JStr("p1"), "name" := JStr("Anna"), "x" := JNum(0.3),
             "y" := JNum(0.4), "radius" := JNum(0.2), "isBurner" := JBool(true)])
  }

  function SampleChain(ids: seq<Json>): Json {
    JObj(map["id" := JStr("c1"), "name" := JStr("Kedja 1"), "playerIds" := JArr(ids)])
  }

  function SampleBoard(players: seq<Json>, chains: seq<Json>, cones: seq<Json>): Json {
    JObj(map["players" := JArr(players), "passChains" := JArr(chains), "cones" := JArr(cones)])
  }

  /** A chain may name the same player twice. */
  lemma RepeatedChainIdsAccepted()
    ensures TacticBoardValid(SampleBoard([SamplePlayer()], [SampleChain([JStr("p1"), JStr("p1")])], SampleCones()))
  {
    var players := [SamplePlayer()];
    var chains := [SampleChain([JStr("p1"), JStr("p1")])];
    assert PlayerValid(players[0]);
    assert ChainValid(chains[0]);
    SampleConesValid();
    BoardOfValidLists(players, chains, SampleCones());
  }

  lemma SampleConesValid()
    ensures forall i | 0 <= i < |SampleCones()| :: ConeValid(SampleCones()[i])
  {
    var cones := SampleCones();
    assert ConeValid(cones[0]);
    assert ConeValid(cones[1]);
    assert ConeValid(cones[2]);
    assert ConeValid(cones[3]);
  }

  /** A board whose three lists hold valid entries, with four cones, passes. */
  lemma BoardOfValidLists(players: seq<Json>, chains: seq<Json>, cones: seq<Json>)
    requires forall i | 0 <= i < |players| :: PlayerValid(players[i])
    requires forall i | 0 <= i < |chains| :: ChainValid(chains[i])
    requires |cones| == 4 && forall i | 0 <= i < |cones| :: ConeValid(cones[i])
    ensures TacticBoardValid(SampleBoard(players, chains, cones))
  {
    var board := SampleBoard(players, chains, cones);
    assert Field(board, "players") == Some(JArr(players));
    assert Field(board, "passChains") == Some(JArr(chains));
    assert Field(board, "cones") == Some(JArr(cones));
  }

  /** A board with one cone is refused. */
  lemma OneConeRefused()
    ensures !TacticBoardValid(SampleBoard([], [], SampleCones()[..1]))
  {
  }

  /** A chain with a single player is refused. */
  lemma OnePlayerChainRefused()
    ensures !TacticBoardValid(SampleBoard([], [SampleChain([JStr("p1")])], SampleCones()))
  {
    var board := SampleBoard([], [SampleChain([JStr("p1")])], SampleCones());
    assert Field(board, "passChains").value.items[0] == SampleChain([JStr("p1")]);
    assert !ChainValid(SampleChain([JStr("p1")]));
  }

  /** Players and chains may be left out, the cones may not. */
  lemma BoardDefaults(cones: seq<Json>)
    requires |cones| == 4 && forall i | 0 <= i < 4 :: ConeValid(cones[i])
    ensures TacticBoardValid(JObj(map["cones" := JArr(cones)]))
    ensures ParseTacticBoard(JObj(map["cones" := JArr(cones)])).value.players == []
    ensures !TacticBoardValid(JObj(map["players" := JArr([])]))
  {
  }

  // ---------------------------------------------------------------------------
  // Calendar events

  /** `calendarEventSchema`, including its refinement that the end comes strictly after the start. */
  predicate CalendarEventValid(f: Formats, j: Json) {
    && j.JObj?
    && Field(j, "title").Some? && IsStr(Field(j, "title").value, 2, 160)
    && NullableKey(j, "description", (v: Json) => IsStr(v, 0, 1000))
    && Field(j, "eventType").Some? && Field(j, "eventType").value in {JStr("training"), JStr("match")}
    && Field(j, "startAt").Some? && Field(j, "startAt").value.JStr? && f.isDatetime(Field(j, "startAt").value.s)
    && Field(j, "endAt").Some? && Field(j, "endAt").value.JStr? && f.isDatetime(Field(j, "endAt").value.s)
    && NullableKey(j, "location", (v: Json) => IsStr(v, 0, 200))
    && f.datetimeMs(Field(j, "endAt").value.s) > f.datetimeMs(Field(j, "startAt").value.s)
  }

  /** An event cannot end when it starts or earlier: whatever else it carries, such a body is refused. */
  lemma EventEndsAfterStart(f: Formats, j: Json)
    requires j.JObj? && Field(j, "startAt").Some? && Field(j, "endAt").Some?
    requires Field(j, "startAt").value.JStr? && Field(j, "endAt").value.JStr?
    requires f.datetimeMs(Field(j, "endAt").value.s) <= f.datetimeMs(Field(j, "startAt").value.s)
    ensures !CalendarEventValid(f, j)
  {
  }

  // ---------------------------------------------------------------------------
  // Archive tabs

  /** `archiveTabCreateSchema`, its fields made optional when `partial`. */
  predicate TabFieldsValid(j: Json, partial: bool) {
    && j.JObj?
    && (if partial then OptionalKey(j, "title", (v: Json) => IsStr(v, 2, 120))
        else Field(j, "title").Some? && IsStr(Field(j, "title").value, 2, 120))
    && OptionalKey(j, "slug", (v: Json) => IsStr(v, 2, 120))
    && NullableKey(j, "description", (v: Json) => IsStr(v, 0, 500))
    && NullableKey(j, "introMarkdown", (v: Json) => IsStr(v, 0, 20000))
    && OptionalKey(j, "isActive", (v: Json) => v.JBool?)
  }

  predicate TabCreateValid(j: Json) {
    TabFieldsValid(j, false)
  }

  /** `z.number().int().min(0)`. */
  predicate IsNonNegativeInt(v: Json) {
    v.JNum? && v.n >= 0.0 && v.n == v.n.Floor as real
  }

  /** `archiveTabUpdateSchema`: the create schema made partial, plus an optional order. */
  predicate TabUpdateValid(j: Json) {
    TabFieldsValid(j, true) && OptionalKey(j, "order", IsNonNegativeInt)
  }

  datatype TabCreateInput = TabCreateInput(
    title: string,
    slug: Option<string>,
    description: Option<string>,
    introMarkdown: Option<string>,
    isActive: bool)

  function NullableString(v: Option<Json>): Option<string> {
    if v.Some? && v.value.JStr? then Some(v.value.s) else None
  }

  /** `archiveTabCreateSchema.safeParse`: a missing or null text is None, a missing isActive is true. */
  function ParseTabCreate(j: Json): (r: Option<TabCreateInput>)
    ensures r.Some? <==> TabCreateValid(j)
    ensures r.Some? ==> 2 <= |r.value.title| <= 120
    ensures r.Some? ==> (r.value.slug.Some? <==> Field(j, "slug").Some?)
    ensures r.Some? ==> (r.value.isActive <==> Field(j, "isActive") != Some(JBool(false)))
    ensures r.Some? ==> Field(j, "title") == Some(JStr(r.value.title))
    ensures r.Some? && r.value.slug.Some? ==> Field(j, "slug") == Some(JStr(r.value.slug.value))
    ensures r.Some? ==> (r.value.description.Some? <==> Field(j, "description").Some? && Field(j, "description").value.JStr?)
    ensures r.Some? && r.value.description.Some? ==> Field(j, "description") == Some(JStr(r.value.description.value))
    ensures r.Some? ==> (r.value.introMarkdown.Some? <==> Field(j, "introMarkdown").Some? && Field(j, "introMarkdown").value.JStr?)
    ensures r.Some? && r.value.introMarkdown.Some? ==> Field(j, "introMarkdown") == Some(JStr(r.value.introMarkdown.value))
  {
    if TabCreateValid(j) then
      Some(TabCreateInput(
        Field(j, "title").value.s,
        NullableString(Field(j, "slug")),
        NullableString(Field(j, "description")),
        NullableString(Field(j, "introMarkdown")),
        Field(j, "isActive") != Some(JBool(false))))
    else None
  }

  /** Every field of an update may be left out, and any creatable tab is a valid update when it names no order. */
  lemma UpdateIsPartialCreate(j: Json)
    ensures TabUpdateValid(JObj(map[]))
    ensures TabCreateValid(j) && Field(j, "order").None? ==> TabUpdateValid(j)
    ensures TabUpdateValid(j) && Field(j, "title").Some? ==> TabCreateValid(j)
  {
  }

  /** A fractional or negative order is refused. */
  lemma OrderIsNaturalNumber(j: Json)
    requires j.JObj? && Field(j, "order").Some?
    requires Field(j, "order") == Some(JNum(0.5)) || Field(j, "order") == Some(JNum(-1.0))
    ensures !TabUpdateValid(j)
  {
  }

  /** `archiveTabsReorderSchema`. */
  predicate ReorderValid(j: Json) {
    && j.JObj?
    && Field(j, "tabIds").Some? && Field(j, "tabIds").value.JArr?
    && |Field(j, "tabIds").value.items| >= 1
    && forall i | 0 <= i < |Field(j, "tabIds").value.items| ::
         Field(j, "tabIds").value.items[i].JStr? && |Field(j, "tabIds").value.items[i].s| >= 1
  }

  /** `archiveTabsReorderSchema.safeParse`: the ids in the order sent. */
  function ParseReorder(j: Json): (ids: Option<seq<string>>)
    ensures ids.Some? <==> ReorderValid(j)
    ensures ids.Some? ==> |ids.value| >= 1 && forall i | 0 <= i < |ids.value| :: ids.value[i] != ""
    ensures ids.Some? ==> |ids.value| == |Field(j, "tabIds").value.items|
    ensures ids.Some? ==> forall i | 0 <= i < |ids.value| :: Field(j, "tabIds").value.items[i] == JStr(ids.value[i])
  {
    if ReorderValid(j) then
      var items := Field(j, "tabIds").value.items;
      Some(seq(|items|, i requires 0 <= i < |items| && items[i].JStr? => items[i].s))
    else None
  }
}
