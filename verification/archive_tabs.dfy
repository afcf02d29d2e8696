/**
 * `GET` and `POST /api/archive-tabs` (`src/app/api/archive-tabs/route.ts`)
 * and `POST /api/archive-tabs/reorder`
 * (`src/app/api/archive-tabs/reorder/route.ts`) over the tab table.
 * Whether the database client has the tab model is the input
 * `runtimeReady`; an error a database call throws is the input `failure`.
 */
module ArchiveTabs {
  import opened Wrappers
  import opened Json
  import opened Store
  import opened Http
  import opened Session
  import opened Guards
  import opened Validation
  import opened UiTypes
  import opened Archive

  /** The 503 of `archiveRuntimeFailResponse`. */
  const NotReadyError := ApiError(ArchiveRuntimeNotReady, 503, NoDetail)

  /** An error a route lets through: the framework answers 500. */
  const Uncaught := ApiError(InternalError, 500, NoDetail)

  function TabIds(tabs: seq<TabRow>): set<string> {
    set t | t in tabs :: t.id
  }

  predicate UniqueIds(tabs: seq<TabRow>) {
    forall i, j | 0 <= i < j < |tabs| :: tabs[i].id != tabs[j].id
  }

  predicate UniqueSlugs(tabs: seq<TabRow>) {
    forall i, j | 0 <= i < j < |tabs| :: tabs[i].slug != tabs[j].slug
  }

  /** The tab table: ids and slugs are unique, as the schema's constraints demand. */
  class TabStore {
    var tabs: seq<TabRow>

    predicate Valid()
      reads this
    {
      UniqueIds(tabs) && UniqueSlugs(tabs)
    }

    constructor()
      ensures tabs == [] && Valid()
    {
      tabs := [];
    }

    /** `archiveTab.create`: refused when the slug is taken, else appended. */
    method Insert(row: TabRow) returns (created: bool)
      requires Valid() && row.id !in TabIds(tabs)
      modifies this
      ensures Valid()
      ensures created <==> forall i | 0 <= i < |old(tabs)| :: old(tabs)[i].slug != row.slug
      ensures created ==> tabs == old(tabs) + [row]
      ensures !created ==> tabs == old(tabs)
    {
      created := true;
      var i := 0;
      while i < |tabs|
        invariant 0 <= i <= |tabs|
        invariant created <==> forall k | 0 <= k < i :: tabs[k].slug != row.slug
      {
        if tabs[i].slug == row.slug {
          created := false;
        }
        i := i + 1;
      }
      if created {
        assert forall k | 0 <= k < |tabs| :: tabs[k] in tabs;
        tabs := tabs + [row];
      }
    }

    /** `archiveTab.update({ where: { id }, data: { order } })`. */
    method SetOrder(id: string, order: int)
      modifies this
      ensures tabs == WithOrder(old(tabs), id, order)
    {
      tabs := WithOrder(tabs, id, order);
    }
  }

  /** The table with the row of the given id moved to `order`. */
  function WithOrder(tabs: seq<TabRow>, id: string, order: int): (r: seq<TabRow>)
    ensures |r| == |tabs|
    ensures forall k | 0 <= k < |tabs| :: r[k] == (if tabs[k].id == id then tabs[k].(order := order) else tabs[k])
  {
    seq(|tabs|, k requires 0 <= k < |tabs| => if tabs[k].id == id then tabs[k].(order := order) else tabs[k])
  }

  // -------------------------------------------------------------------- GET

  /** `GET`: any signed-in user; inactive tabs only for admins. */
  method Get(store: TabStore, session: Option<SessionUser>, runtimeReady: bool, failure: Option<Thrown>)
    returns (response: Response<seq<ArchiveTabDto>>)
    ensures session.None? ==> response == Fail(ApiError(Unauthorized, 401, NoDetail))
    ensures session.Some? ==>
      var listing := SafeListArchiveTabs(store.tabs, session.value.role == Admin, runtimeReady, failure);
      && (listing.Listed? ==> response == Ok(listing.tabs))
      && (listing.NotReady? ==> response == Fail(NotReadyError))
      && (listing.Rethrown? ==> response == Fail(Uncaught))
    ensures session.Some? && session.value.role != Admin && response.Ok? ==>
      forall i | 0 <= i < |response.data| :: response.data[i].isActive
    ensures session.Some? && session.value.role == Admin && response.Ok? ==>
      forall row | row in store.tabs :: MapArchiveTab(row) in response.data
  {
    var auth := RequireApiUser(session, None);
    if auth.response.Some? {
      return Fail(auth.response.value);
    }
    var listing := SafeListArchiveTabs(store.tabs, session.value.role == Admin, runtimeReady, failure);
    match listing
    case Listed(tabs) => response := Ok(tabs);
    case NotReady => response := Fail(NotReadyError);
    case Rethrown(_) => response := Fail(Uncaught);
  }

  // ------------------------------------------------------------------- POST

  /** The row `POST` creates: normalised slug, optional texts as given, the next position. */
  function NewRow(input: TabCreateInput, id: string, order: int, now: int): (row: TabRow)
    ensures row.slug == NormalizeArchiveSlug(input.slug, input.title)
    ensures row.order == order && row.isActive == input.isActive
  {
    TabRow(id, NormalizeArchiveSlug(input.slug, input.title), input.title, input.description,
           input.introMarkdown, order, input.isActive, now)
  }

  /** The answer to a failed creation: 503 for a runtime error, else 400. */
  function CreateError(error: Thrown): (e: ApiError)
    ensures e.status == 503 <==> IsArchiveRuntimeError(error)
    ensures !IsArchiveRuntimeError(error) ==> e == ApiError(InvalidInput, 400, NoDetail)
  {
    if IsArchiveRuntimeError(error) then NotReadyError else ApiError(InvalidInput, 400, NoDetail)
  }

  /**
   * `POST`: admins only; 503 without the tab model; 400 for a body that is
   * not JSON or fails the schema; a new tab at position "number of tabs",
   * or the failure's answer. `newId` is the id the database gives the row,
   * and `conflict` what it throws when the slug is taken, answered like any
   * other failure.
   */
  method Create(store: TabStore, session: Option<SessionUser>, body: Option<Json>, runtimeReady: bool,
                failure: Option<Thrown>, conflict: Thrown, newId: string, now: int)
    returns (response: Response<ArchiveTabDto>)
    requires store.Valid() && newId !in TabIds(store.tabs)
    modifies store
    ensures store.Valid()
    ensures session.None? ==> response == Fail(ApiError(Unauthorized, 401, NoDetail))
    ensures session.Some? && session.value.role != Admin ==> response == Fail(ApiError(Forbidden, 403, NoDetail))
    ensures response.Fail? ==> store.tabs == old(store.tabs)
    ensures session.Some? && session.value.role == Admin ==>
      && (!runtimeReady ==> response == Fail(NotReadyError))
      && (runtimeReady && body.None? ==> response == Fail(ApiError(InvalidInput, 400, NoDetail)))
      && (runtimeReady && body.Some? && ParseTabCreate(body.value).None? ==>
            response == Fail(ApiError(InvalidInput, 400, SchemaIssues)))
      && (runtimeReady && body.Some? && ParseTabCreate(body.value).Some? && failure.Some? ==>
            response == Fail(CreateError(failure.value)))
    ensures session.Some? && session.value.role == Admin && runtimeReady && body.Some? &&
            ParseTabCreate(body.value).Some? && failure.None? ==>
      var row := NewRow(ParseTabCreate(body.value).value, newId, |old(store.tabs)|, now);
      if exists i | 0 <= i < |old(store.tabs)| :: old(store.tabs)[i].slug == row.slug then
        response == Fail(CreateError(conflict))
      else
        store.tabs == old(store.tabs) + [row] && response == Ok(MapArchiveTab(row))
  {
    var auth := RequireApiUser(session, Some([Admin]));
    if auth.response.Some? {
      return Fail(auth.response.value);
    }
    if !runtimeReady {
      return Fail(NotReadyError);
    }
    if body.None? {
      return Fail(ApiError(InvalidInput, 400, NoDetail));
    }
    var input := ParseTabCreate(body.value);
    if input.None? {
      return Fail(ApiError(InvalidInput, 400, SchemaIssues));
    }
    if failure.Some? {
      return Fail(CreateError(failure.value));
    }
    var row := NewRow(input.value, newId, |store.tabs|, now);
    var created := store.Insert(row);
    if !created {
      return Fail(CreateError(conflict));
    }
    response := Ok(MapArchiveTab(row));
  }

  /**
   * Each new tab goes after all the others, provided every existing order
   * lies in 0..n-1 for n tabs: its position is the count of tabs before it.
   * The routes do not keep that numbering (a reorder renumbers only the ids
   * it is sent), and without it two tabs can share an order.
   */
  lemma CreatedTabIsLast(input: TabCreateInput, tabs: seq<TabRow>, id: string, now: int)
    requires forall i | 0 <= i < |tabs| :: 0 <= tabs[i].order < |tabs|
    ensures var row := NewRow(input, id, |tabs|, now);
      forall i | 0 <= i < |tabs| :: Precedes(tabs[i], row) && !Precedes(row, tabs[i])
  {
  }

  // ---------------------------------------------------------------- reorder

  function ToSet(ids: seq<string>): set<string> {
    set id | id in ids
  }

  predicate Distinct(ids: seq<string>) {
    forall i, j | 0 <= i < j < |ids| :: ids[i] != ids[j]
  }

  /** The number of rows `findMany({ where: { id: { in: ids } } })` returns. */
  function FoundCount(tabs: seq<TabRow>, wanted: set<string>): (n: nat)
    ensures n <= |tabs|
  {
    if tabs == [] then 0
    else (if tabs[0].id in wanted then 1 else 0) + FoundCount(tabs[1..], wanted)
  }

  /** With unique row ids, the rows found are the wanted ids that exist. */
  lemma {:induction false} FoundCountIsKnownWanted(tabs: seq<TabRow>, wanted: set<string>)
    requires UniqueIds(tabs)
    ensures FoundCount(tabs, wanted) == |wanted * TabIds(tabs)|
    decreases |tabs|
  {
    if tabs != [] {
      var rest := tabs[1..];
      assert UniqueIds(rest) by {
        forall i, j | 0 <= i < j < |rest| ensures rest[i].id != rest[j].id {
          assert rest[i] == tabs[i + 1] && rest[j] == tabs[j + 1];
        }
      }
      FoundCountIsKnownWanted(rest, wanted);
      HeadIdIsNew(tabs);
      CountWithNewId(tabs[0].id, TabIds(rest), wanted);
    }
  }

  /** With unique ids, the ids of a table are its head's id, which the tail lacks, and the tail's ids. */
  lemma HeadIdIsNew(tabs: seq<TabRow>)
    requires tabs != [] && UniqueIds(tabs)
    ensures TabIds(tabs) == {tabs[0].id} + TabIds(tabs[1..])
    ensures tabs[0].id !in TabIds(tabs[1..])
  {
    var rest := tabs[1..];
    assert tabs == [tabs[0]] + rest;
    forall t | t in rest ensures t.id != tabs[0].id {
      var k :| 0 <= k < |rest| && rest[k] == t;
      assert tabs[k + 1] == t;
    }
  }

  /** Adding an id not yet known adds one wanted id exactly when it is wanted. */
  lemma CountWithNewId(id: string, known: set<string>, wanted: set<string>)
    requires id !in known
    ensures |wanted * ({id} + known)| == (if id in wanted then 1 else 0) + |wanted * known|
  {
    if id in wanted {
      assert wanted * ({id} + known) == {id} + wanted * known;
    } else {
      assert wanted * ({id} + known) == wanted * known;
    }
  }

  /** A list has at most as many different ids as entries, exactly as many when they are distinct. */
  lemma {:induction false} ToSetSize(ids: seq<string>)
    ensures |ToSet(ids)| <= |ids|
    ensures |ToSet(ids)| == |ids| <==> Distinct(ids)
    decreases |ids|
  {
    if ids != [] {
      var rest := ids[1..];
      ToSetSize(rest);
      assert ids == [ids[0]] + rest;
      assert ToSet(ids) == {ids[0]} + ToSet(rest);
      if ids[0] in rest {
        var k :| 0 <= k < |rest| && rest[k] == ids[0];
        assert ids[k + 1] == ids[0];
        assert ToSet(ids) == ToSet(rest);
      } else {
        DistinctCons(ids);
      }
    }
  }

  /** A list whose head is not repeated is distinct exactly when its tail is. */
  lemma DistinctCons(ids: seq<string>)
    requires ids != [] && ids[0] !in ids[1..]
    ensures Distinct(ids) <==> Distinct(ids[1..])
  {
    var rest := ids[1..];
    if Distinct(rest) {
      forall i, j | 0 <= i < j < |ids| ensures ids[i] != ids[j] {
        if i == 0 {
          assert ids[j] == rest[j - 1];
        } else {
          assert ids[i] == rest[i - 1] && ids[j] == rest[j - 1];
        }
      }
    }
    if Distinct(ids) {
      forall i, j | 0 <= i < j < |rest| ensures rest[i] != rest[j] {
        assert rest[i] == ids[i + 1] && rest[j] == ids[j + 1];
      }
    }
  }

  lemma ProperSubsetSmaller(a: set<string>, b: set<string>)
    requires a <= b && a != b
    ensures |a| < |b|
  {
    assert b == a + (b - a);
    var x :| x in b - a;
  }

  /**
   * The count check of the reorder route: with unique row ids, as many rows
   * are found as ids were sent exactly when the ids are distinct and all exist.
   */
  lemma FoundAllIff(tabs: seq<TabRow>, ids: seq<string>)
    requires UniqueIds(tabs)
    ensures FoundCount(tabs, ToSet(ids)) == |ids| <==> Distinct(ids) && ToSet(ids) <= TabIds(tabs)
  {
    FoundCountIsKnownWanted(tabs, ToSet(ids));
    ToSetSize(ids);
    var found := ToSet(ids) * TabIds(tabs);
    if found != ToSet(ids) {
      ProperSubsetSmaller(found, ToSet(ids));
    }
  }

  /** The first index of an id in the list. */
  function Position(ids: seq<string>, id: string): (p: nat)
    requires id in ids
    ensures p < |ids| && ids[p] == id
    ensures forall k | 0 <= k < p :: ids[k] != id
  {
    if ids[0] == id then 0 else 1 + Position(ids[1..], id)
  }

  /** The table after the updates: each listed tab at its index in the list, the others as they were. */
  function Reordered(tabs: seq<TabRow>, ids: seq<string>): (r: seq<TabRow>)
    ensures |r| == |tabs|
    ensures forall k | 0 <= k < |tabs| :: r[k] == tabs[k].(order := r[k].order)
    ensures forall k | 0 <= k < |tabs| && tabs[k].id !in ids :: r[k] == tabs[k]
    ensures forall k | 0 <= k < |tabs| && tabs[k].id in ids :: 0 <= r[k].order < |ids| && ids[r[k].order] == tabs[k].id
  {
    seq(|tabs|, k requires 0 <= k < |tabs| =>
      if tabs[k].id in ids then tabs[k].(order := Position(ids, tabs[k].id)) else tabs[k])
  }

  /** One more update of the loop: the list grows by the next id. */
  lemma ReorderedStep(tabs: seq<TabRow>, ids: seq<string>, i: nat)
    requires Distinct(ids) && i < |ids|
    ensures WithOrder(Reordered(tabs, ids[..i]), ids[i], i) == Reordered(tabs, ids[..i + 1])
  {
    var a := WithOrder(Reordered(tabs, ids[..i]), ids[i], i);
    var b := Reordered(tabs, ids[..i + 1]);
    assert ids[..i + 1] == ids[..i] + [ids[i]];
    forall k | 0 <= k < |tabs| ensures a[k] == b[k] {
      var id := tabs[k].id;
      if id in ids[..i] {
        assert Position(ids[..i + 1], id) == Position(ids[..i], id);
      } else if id == ids[i] {
        assert Position(ids[..i + 1], id) == i;
      }
    }
  }

  /**
   * `POST /api/archive-tabs/reorder`: admins only; 503 without the tab
   * model; 400 for a body that is not JSON or fails the schema; 400 and
   * nothing changed when the ids found differ in number from the ids sent;
   * otherwise each listed tab gets its index as position.
   */
  method Reorder(store: TabStore, session: Option<SessionUser>, body: Option<Json>, runtimeReady: bool,
                 failure: Option<Thrown>)
    returns (response: Response<bool>)
    requires store.Valid()
    modifies store
    ensures store.Valid()
    ensures session.None? ==> response == Fail(ApiError(Unauthorized, 401, NoDetail))
    ensures session.Some? && session.value.role != Admin ==> response == Fail(ApiError(Forbidden, 403, NoDetail))
    ensures response.Fail? ==> store.tabs == old(store.tabs)
    ensures session.Some? && session.value.role == Admin ==>
      && (!runtimeReady ==> response == Fail(NotReadyError))
      && (runtimeReady && body.None? ==> response == Fail(ApiError(InvalidInput, 400, NoDetail)))
      && (runtimeReady && body.Some? && ParseReorder(body.value).None? ==>
            response == Fail(ApiError(InvalidInput, 400, SchemaIssues)))
      && (runtimeReady && body.Some? && ParseReorder(body.value).Some? && failure.Some? ==>
            response == Fail(if IsArchiveRuntimeError(failure.value) then NotReadyError else Uncaught))
    ensures session.Some? && session.value.role == Admin && runtimeReady && body.Some? &&
            ParseReorder(body.value).Some? && failure.None? ==>
      var ids := ParseReorder(body.value).value;
      && (response.Ok? <==> Distinct(ids) && ToSet(ids) <= TabIds(old(store.tabs)))
      && (response.Ok? ==> response == Ok(true) && store.tabs == Reordered(old(store.tabs), ids))
      && (response.Fail? ==> response == Fail(ApiError(InvalidInput, 400, NoDetail)))
  {
    var auth := RequireApiUser(session, Some([Admin]));
    if auth.response.Some? {
      return Fail(auth.response.value);
    }
    if !runtimeReady {
      return Fail(NotReadyError);
    }
    if body.None? {
      return Fail(ApiError(InvalidInput, 400, NoDetail));
    }
    var parsed := ParseReorder(body.value);
    if parsed.None? {
      return Fail(ApiError(InvalidInput, 400, SchemaIssues));
    }
    if failure.Some? {
      return Fail(if IsArchiveRuntimeError(failure.value) then NotReadyError else Uncaught);
    }
    var ids := parsed.value;
    FoundAllIff(store.tabs, ids);
    if FoundCount(store.tabs, ToSet(ids)) != |ids| {
      return Fail(ApiError(InvalidInput, 400, NoDetail));
    }
    ghost var before := store.tabs;
    for i := 0 to |ids|
      invariant store.tabs == Reordered(before, ids[..i])
    {
      ReorderedStep(before, ids, i);
      store.SetOrder(ids[i], i);
    }
    assert ids[..|ids|] == ids;
    ReorderKeepsIdsAndSlugs(before, ids);
    response := Ok(true);
  }

  /** Only positions change, so unique ids and slugs stay unique. */
  lemma ReorderKeepsIdsAndSlugs(tabs: seq<TabRow>, ids: seq<string>)
    requires UniqueIds(tabs) && UniqueSlugs(tabs)
    ensures UniqueIds(Reordered(tabs, ids)) && UniqueSlugs(Reordered(tabs, ids))
  {
  }

  /**
   * After an accepted reorder the listed tabs hold exactly the positions
   * 0 .. n-1, the i-th listed id at position i.
   */
  lemma ListedTabsTakeTheirIndex(tabs: seq<TabRow>, ids: seq<string>, i: nat)
    requires Distinct(ids) && ToSet(ids) <= TabIds(tabs) && i < |ids|
    ensures exists k | 0 <= k < |tabs| :: tabs[k].id == ids[i] && Reordered(tabs, ids)[k].order == i
  {
    assert ids[i] in ToSet(ids);
    var t :| t in tabs && t.id == ids[i];
    var k :| 0 <= k < |tabs| && tabs[k] == t;
    var r := Reordered(tabs, ids);
    assert ids[r[k].order] == ids[i];
  }
}
