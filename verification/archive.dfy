/**
 * `src/lib/archive.ts`: archive tab slugs, the test that tells a missing or
 * outdated archive schema from other database errors, and the listing of
 * tabs. The tab table is a sequence of rows; the query's filter and its
 * ordering by position, then creation time, are written out.
 */
module Archive {
  import opened Wrappers
  import opened Text
  import opened Utils
  import opened UiTypes

  const RuntimeErrorMessage :=
    "Arkivets nya datamodell ar inte redo i denna miljo. Kor prisma:generate, prisma:migrate och archive:backfill-tabs."

  // ------------------------------------------------------------------ slugs

  /** `value?.trim() || fallback`. */
  function SlugSource(value: Option<string>, fallback: string): string {
    if value.Some? && Trim(value.value) != [] then Trim(value.value) else fallback
  }

  /**
   * `normalizeArchiveSlug`: the slug of the trimmed value, or of the
   * fallback when the value is missing or blank, or "flik" when that slug
   * is empty. The result is always a non-empty, well-formed slug.
   */
  function NormalizeArchiveSlug(value: Option<string>, fallback: string): (slug: string)
    ensures slug != [] && IsSlug(slug)
    ensures Slugify(SlugSource(value, fallback)) != [] ==> slug == Slugify(SlugSource(value, fallback))
    ensures Slugify(SlugSource(value, fallback)) == [] ==> slug == "flik"
  {
    var s := Slugify(SlugSource(value, fallback));
    if s != [] then
      SlugifyIsSlug(SlugSource(value, fallback));
      s
    else
      FlikIsSlug();
      "flik"
  }

  lemma FlikIsSlug()
    ensures IsSlug("flik")
  {
    var f := "flik";
    assert forall i | 0 <= i < |f| :: IsSlugChar(f[i]);
  }

  /** A well-formed slug that is sent is kept as it is. */
  lemma ValidSlugIsKept(slug: string, fallback: string)
    requires slug != [] && IsSlug(slug)
    ensures NormalizeArchiveSlug(Some(slug), fallback) == slug
  {
    TrimSlug(slug);
    SlugIsFixedPoint(slug);
  }

  /** A missing or blank slug falls back to the title, as if none were sent. */
  lemma BlankSlugUsesFallback(value: string, fallback: string)
    requires IsBlank(value)
    ensures NormalizeArchiveSlug(Some(value), fallback) == NormalizeArchiveSlug(None, fallback)
  {
    assert SlugSource(Some(value), fallback) == SlugSource(None, fallback);
  }

  /** Normalising a normalised slug changes nothing. */
  lemma NormalizeArchiveSlugIdempotent(value: Option<string>, fallback: string, other: string)
    ensures NormalizeArchiveSlug(Some(NormalizeArchiveSlug(value, fallback)), other) == NormalizeArchiveSlug(value, fallback)
  {
    ValidSlugIsKept(NormalizeArchiveSlug(value, fallback), other);
  }

  // --------------------------------------------------------- runtime errors

  /** What a database call threw: something that is not an object, or an error object. */
  datatype Thrown = NotAnObject | ErrorObject(code: Option<string>, message: Option<string>)

  /** The lower-case fragments of a message that mean the archive schema is missing or outdated. */
  const RuntimeMarkers: seq<string> := ["archivetab", "does not exist", "unknown arg", "cannot read properties of undefined"]

  predicate MentionsRuntimeMarker(lowered: string) {
    exists k | 0 <= k < |RuntimeMarkers| :: Contains(lowered, RuntimeMarkers[k])
  }

  /**
   * `isArchiveRuntimeError`: never for a non-object; always for Prisma's
   * "table does not exist" code P2021; otherwise exactly when the
   * lower-cased message (empty when absent) mentions one of the markers.
   */
  function IsArchiveRuntimeError(error: Thrown): (r: bool)
    ensures error.NotAnObject? ==> !r
    ensures error.ErrorObject? && error.code == Some("P2021") ==> r
    ensures error.ErrorObject? && error.code != Some("P2021") ==>
      (r <==> MentionsRuntimeMarker(ToLower(error.message.GetOr(""))))
  {
    match error
    case NotAnObject => false
    case ErrorObject(code, message) =>
      code == Some("P2021") || MentionsRuntimeMarker(ToLower(message.GetOr("")))
  }

  /** The verdict does not depend on the letter case of the message. */
  lemma RuntimeErrorIgnoresCase(code: Option<string>, a: string, b: string)
    requires ToLower(a) == ToLower(b)
    ensures IsArchiveRuntimeError(ErrorObject(code, Some(a))) == IsArchiveRuntimeError(ErrorObject(code, Some(b)))
  {
  }

  /** Lower-casing keeps an occurrence, lower-cased, at the same place. */
  lemma ToLowerKeepsOccurrence(s: string, p: string, j: nat)
    requires IsAt(s, p, j)
    ensures IsAt(ToLower(s), ToLower(p), j)
  {
    assert ToLower(s)[j..j + |p|] == ToLower(s[j..j + |p|]);
  }

  /** A message that mentions a marker in any letter case makes the error a runtime error. */
  lemma MarkerInAnyCase(code: Option<string>, message: string, p: string, j: nat)
    requires IsAt(message, p, j) && ToLower(p) in RuntimeMarkers
    ensures IsArchiveRuntimeError(ErrorObject(code, Some(message)))
  {
    ToLowerKeepsOccurrence(message, p, j);
    var k :| 0 <= k < |RuntimeMarkers| && RuntimeMarkers[k] == ToLower(p);
    assert Contains(ToLower(message), RuntimeMarkers[k]);
  }

  /** An error object with neither the code nor a message is not a runtime error. */
  lemma NoMessageNoRuntimeError(code: Option<string>)
    requires code != Some("P2021")
    ensures !IsArchiveRuntimeError(ErrorObject(code, None))
  {
    forall k | 0 <= k < |RuntimeMarkers| ensures !Contains(ToLower(""), RuntimeMarkers[k]) {
      assert |RuntimeMarkers[k]| > 0;
      assert forall j :: !IsAt(ToLower(""), RuntimeMarkers[k], j);
    }
  }

  // ------------------------------------------------------------------- rows

  /** A row of the tab table; `createdAt` orders tabs with the same position. */
  datatype TabRow = TabRow(
    id: string,
    slug: string,
    title: string,
    description: Option<string>,
    introMarkdown: Option<string>,
    order: int,
    isActive: bool,
    createdAt: int)

  /** `mapArchiveTab`: every field of the row but its creation time. */
  function MapArchiveTab(row: TabRow): (dto: ArchiveTabDto)
    ensures dto.id == row.id && dto.slug == row.slug && dto.order == row.order && dto.isActive == row.isActive
  {
    ArchiveTabDto(row.id, row.slug, row.title, row.description, row.introMarkdown, row.order, row.isActive)
  }

  /** The row a tab came from, given its creation time. */
  function RowOf(dto: ArchiveTabDto, createdAt: int): TabRow {
    TabRow(dto.id, dto.slug, dto.title, dto.description, dto.introMarkdown, dto.order, dto.isActive, createdAt)
  }

  /** The mapping loses nothing but the creation time: it is undone by `RowOf`. */
  lemma MapArchiveTabRoundTrip(row: TabRow, dto: ArchiveTabDto, createdAt: int)
    ensures RowOf(MapArchiveTab(row), row.createdAt) == row
    ensures MapArchiveTab(RowOf(dto, createdAt)) == dto
  {
  }

  // ---------------------------------------------------------------- listing

  /** `where: includeInactive ? {} : { isActive: true }`. */
  predicate Visible(row: TabRow, includeInactive: bool) {
    includeInactive || row.isActive
  }

  function VisibleRows(rows: seq<TabRow>, includeInactive: bool): (r: seq<TabRow>)
    ensures forall row :: row in r <==> row in rows && Visible(row, includeInactive)
    ensures multiset(r) <= multiset(rows)
    ensures forall row :: multiset(r)[row] == if Visible(row, includeInactive) then multiset(rows)[row] else 0
  {
    if rows == [] then []
    else
      var rest := VisibleRows(rows[1..], includeInactive);
      assert rows == [rows[0]] + rows[1..];
      if Visible(rows[0], includeInactive) then [rows[0]] + rest else rest
  }

  /** `orderBy: [{ order: "asc" }, { createdAt: "asc" }]`. */
  predicate Precedes(a: TabRow, b: TabRow) {
    a.order < b.order || (a.order == b.order && a.createdAt <= b.createdAt)
  }

  predicate SortedByPosition(rows: seq<TabRow>) {
    forall i, j | 0 <= i < j < |rows| :: Precedes(rows[i], rows[j])
  }

  /** Insertion of one row into rows already in position order. */
  function InsertByPosition(row: TabRow, sorted: seq<TabRow>): (r: seq<TabRow>)
    requires SortedByPosition(sorted)
    ensures SortedByPosition(r)
    ensures multiset(r) == multiset(sorted) + multiset{row}
  {
    if sorted == [] then [row]
    else if Precedes(row, sorted[0]) then [row] + sorted
    else
      var rest := InsertByPosition(row, sorted[1..]);
      FirstPrecedesInserted(row, sorted, rest);
      [sorted[0]] + rest
  }

  /** The head of sorted rows precedes every row of the insertion into their tail. */
  lemma FirstPrecedesInserted(row: TabRow, sorted: seq<TabRow>, rest: seq<TabRow>)
    requires sorted != [] && SortedByPosition(sorted) && !Precedes(row, sorted[0])
    requires multiset(rest) == multiset(sorted[1..]) + multiset{row} && SortedByPosition(rest)
    ensures SortedByPosition([sorted[0]] + rest)
    ensures multiset([sorted[0]] + rest) == multiset(sorted) + multiset{row}
  {
    assert sorted == [sorted[0]] + sorted[1..];
    forall x | x in rest ensures Precedes(sorted[0], x) {
      assert x in multiset(rest);
      if x != row {
        assert x in multiset(sorted[1..]);
        var k :| 0 <= k < |sorted[1..]| && sorted[1..][k] == x;
        assert sorted[k + 1] == x;
      }
    }
    var r := [sorted[0]] + rest;
    forall i, j | 0 <= i < j < |r| ensures Precedes(r[i], r[j]) {
      if i == 0 {
        assert r[j] == rest[j - 1] && rest[j - 1] in rest;
      } else {
        assert r[i] == rest[i - 1] && r[j] == rest[j - 1];
      }
    }
  }

  /** The rows in position order. */
  function SortByPosition(rows: seq<TabRow>): (r: seq<TabRow>)
    ensures SortedByPosition(r)
    ensures multiset(r) == multiset(rows)
  {
    if rows == [] then []
    else
      assert rows == [rows[0]] + rows[1..];
      InsertByPosition(rows[0], SortByPosition(rows[1..]))
  }

  /** The `findMany` of `safeListArchiveTabs`. */
  function QueryTabs(rows: seq<TabRow>, includeInactive: bool): seq<TabRow> {
    SortByPosition(VisibleRows(rows, includeInactive))
  }

  function MapTabs(rows: seq<TabRow>): (tabs: seq<ArchiveTabDto>)
    ensures |tabs| == |rows| && forall i | 0 <= i < |rows| :: tabs[i] == MapArchiveTab(rows[i])
  {
    seq(|rows|, i requires 0 <= i < |rows| => MapArchiveTab(rows[i]))
  }

  /** How `safeListArchiveTabs` ends; `Rethrown` is an error it lets through. */
  datatype Listing = Listed(tabs: seq<ArchiveTabDto>) | NotReady | Rethrown(error: Thrown)

  /**
   * `safeListArchiveTabs`: not ready without the tab model; otherwise the
   * visible tabs in position order, or not ready / rethrown when the query
   * throws, as `isArchiveRuntimeError` decides. `modelPresent` and `failure`
   * stand for the database client and the query's failure.
   */
  function SafeListArchiveTabs(rows: seq<TabRow>, includeInactive: bool, modelPresent: bool, failure: Option<Thrown>): (r: Listing)
    ensures !modelPresent ==> r == NotReady
    ensures modelPresent && failure.Some? ==>
      (if IsArchiveRuntimeError(failure.value) then r == NotReady else r == Rethrown(failure.value))
    ensures r.Listed? <==> modelPresent && failure.None?
    ensures r.Listed? ==> ListsVisibleTabs(r.tabs, rows, includeInactive)
  {
    if !modelPresent then NotReady
    else if failure.Some? then
      if IsArchiveRuntimeError(failure.value) then NotReady else Rethrown(failure.value)
    else
      Listed(ListedTabs(rows, includeInactive))
  }

  /**
   * What a successful listing holds: only visible tabs, in `order`, every
   * visible row once per occurrence and nothing else, arranged by position
   * and creation time.
   */
  ghost predicate ListsVisibleTabs(tabs: seq<ArchiveTabDto>, rows: seq<TabRow>, includeInactive: bool) {
    && (forall i | 0 <= i < |tabs| :: includeInactive || tabs[i].isActive)
    && (forall i, j | 0 <= i < j < |tabs| :: tabs[i].order <= tabs[j].order)
    && (forall row | row in rows && Visible(row, includeInactive) :: MapArchiveTab(row) in tabs)
    && (forall i | 0 <= i < |tabs| :: exists row | row in rows :: tabs[i] == MapArchiveTab(row))
    && multiset(tabs) == multiset(MapTabs(VisibleRows(rows, includeInactive)))
    && TabsOfSortedRows(tabs, VisibleRows(rows, includeInactive))
  }

  /** The tabs a successful query lists: the visible rows in position order, mapped. */
  function ListedTabs(rows: seq<TabRow>, includeInactive: bool): (tabs: seq<ArchiveTabDto>)
    ensures ListsVisibleTabs(tabs, rows, includeInactive)
  {
    ListedTabsFacts(rows, includeInactive);
    MapTabsPermutes(QueryTabs(rows, includeInactive), VisibleRows(rows, includeInactive));
    ListedInPositionOrder(rows, includeInactive);
    MapTabs(QueryTabs(rows, includeInactive))
  }

  /**
   * `tabs` are the DTOs of `rows` arranged by position: by `order`, and by
   * `createdAt` among rows of the same order.
   */
  ghost predicate TabsOfSortedRows(tabs: seq<ArchiveTabDto>, rows: seq<TabRow>) {
    exists q :: SortedByPosition(q) && multiset(q) == multiset(rows) && tabs == MapTabs(q)
  }

  /** The listing is the visible rows sorted by position and creation time, then mapped. */
  lemma ListedInPositionOrder(rows: seq<TabRow>, includeInactive: bool)
    ensures TabsOfSortedRows(MapTabs(QueryTabs(rows, includeInactive)), VisibleRows(rows, includeInactive))
  {
    var q := QueryTabs(rows, includeInactive);
    assert q == SortByPosition(VisibleRows(rows, includeInactive));
    assert SortedByPosition(q) && multiset(q) == multiset(VisibleRows(rows, includeInactive));
  }

  /** The listed tabs are exactly the visible rows, mapped, in position order. */
  lemma ListedTabsFacts(rows: seq<TabRow>, includeInactive: bool)
    ensures var tabs := MapTabs(QueryTabs(rows, includeInactive));
      && (forall i | 0 <= i < |tabs| :: includeInactive || tabs[i].isActive)
      && (forall i, j | 0 <= i < j < |tabs| :: tabs[i].order <= tabs[j].order)
      && (forall row | row in rows && Visible(row, includeInactive) :: MapArchiveTab(row) in tabs)
      && (forall i | 0 <= i < |tabs| :: exists row | row in rows :: tabs[i] == MapArchiveTab(row))
  {
    var v := VisibleRows(rows, includeInactive);
    var q := SortByPosition(v);
    assert q == QueryTabs(rows, includeInactive);
    MappedVisible(q, v, rows, includeInactive);
    MappedOrdered(q);
  }

  /** Mapping two orderings of the same rows gives two orderings of the same tabs. */
  lemma MapTabsPermutes(q: seq<TabRow>, v: seq<TabRow>)
    requires multiset(q) == multiset(v)
    ensures multiset(MapTabs(q)) == multiset(MapTabs(v))
  {
    MapAllPermutes(q, v, MapArchiveTab);
    assert MapTabs(q) == MapAll(q, MapArchiveTab);
    assert MapTabs(v) == MapAll(v, MapArchiveTab);
  }

  /** `f` applied to every entry, in order. */
  function MapAll<T, U>(s: seq<T>, f: T -> U): (r: seq<U>)
    ensures |r| == |s| && forall i | 0 <= i < |s| :: r[i] == f(s[i])
  {
    seq(|s|, i requires 0 <= i < |s| => f(s[i]))
  }

  lemma MapAllAppend<T, U>(a: seq<T>, b: seq<T>, f: T -> U)
    ensures MapAll(a + b, f) == MapAll(a, f) + MapAll(b, f)
  {
  }

  lemma MapAllOne<T, U>(x: T, f: T -> U)
    ensures MapAll([x], f) == [f(x)]
  {
  }

  lemma {:induction false} MapAllPermutes<T, U>(q: seq<T>, v: seq<T>, f: T -> U)
    requires multiset(q) == multiset(v)
    ensures multiset(MapAll(q, f)) == multiset(MapAll(v, f))
    decreases |q|
  {
    if q == [] {
      assert |v| == |multiset(v)| == 0;
    } else {
      var x := q[0];
      assert x in multiset(v);
      var j :| 0 <= j < |v| && v[j] == x;
      SameTails(q, v, j);
      MapAllPermutes(q[1..], v[..j] + v[j + 1..], f);
      calc {
        multiset(MapAll(q, f));
      == { assert q == [x] + q[1..]; MapAllAppend([x], q[1..], f); MapAllOne(x, f); }
        multiset([f(x)] + MapAll(q[1..], f));
      ==
        multiset([f(x)]) + multiset(MapAll(q[1..], f));
      == { MapAllAppend(v[..j], v[j + 1..], f); }
        multiset([f(x)]) + multiset(MapAll(v[..j], f)) + multiset(MapAll(v[j + 1..], f));
      == { MapAllAppend(v[..j], [x], f); MapAllAppend(v[..j] + [x], v[j + 1..], f); MapAllOne(x, f); }
        multiset(MapAll(v[..j] + [x] + v[j + 1..], f));
      }
    }
  }

  /**
   * Two orderings of the same entries, less the first entry of one and an
   * equal entry of the other, are still orderings of the same entries.
   */
  lemma SameTails<T>(q: seq<T>, v: seq<T>, j: nat)
    requires multiset(q) == multiset(v) && q != [] && j < |v| && v[j] == q[0]
    ensures v == v[..j] + [v[j]] + v[j + 1..]
    ensures multiset(q[1..]) == multiset(v[..j] + v[j + 1..])
  {
    assert v == v[..j] + [v[j]] + v[j + 1..];
    assert q == [q[0]] + q[1..];
    assert multiset(q[1..]) == multiset(q) - multiset{q[0]};
    assert multiset(v[..j] + v[j + 1..]) == multiset(v) - multiset{q[0]};
  }

  /** Mapping rows that hold the visible rows of a table keeps exactly those rows. */
  lemma MappedVisible(q: seq<TabRow>, v: seq<TabRow>, rows: seq<TabRow>, includeInactive: bool)
    requires multiset(q) == multiset(v)
    requires forall row :: row in v <==> row in rows && Visible(row, includeInactive)
    ensures var tabs := MapTabs(q);
      && (forall i | 0 <= i < |tabs| :: includeInactive || tabs[i].isActive)
      && (forall row | row in rows && Visible(row, includeInactive) :: MapArchiveTab(row) in tabs)
      && (forall i | 0 <= i < |tabs| :: exists row | row in rows :: tabs[i] == MapArchiveTab(row))
  {
    var tabs := MapTabs(q);
    forall i | 0 <= i < |tabs| ensures q[i] in rows && Visible(q[i], includeInactive) {
      assert q[i] in multiset(q);
      assert q[i] in multiset(v);
    }
    forall row | row in rows && Visible(row, includeInactive) ensures MapArchiveTab(row) in tabs {
      assert row in multiset(v);
      assert row in multiset(q);
      var i :| 0 <= i < |q| && q[i] == row;
      assert tabs[i] == MapArchiveTab(row);
    }
  }

  /** Mapping rows in position order gives tabs in `order` order. */
  lemma MappedOrdered(q: seq<TabRow>)
    requires SortedByPosition(q)
    ensures var tabs := MapTabs(q);
      forall i, j | 0 <= i < j < |tabs| :: tabs[i].order <= tabs[j].order
  {
    var tabs := MapTabs(q);
    forall i, j | 0 <= i < j < |tabs| ensures tabs[i].order <= tabs[j].order {
      assert Precedes(q[i], q[j]);
    }
  }
}
