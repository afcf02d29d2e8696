/**
 * `src/lib/ui-types.ts`: the archive tab as the pages and the API see it,
 * and `resolveArchiveTab`, which picks the tab a request for `?tab=slug` shows.
 */
module UiTypes {
  import opened Wrappers

  /** `ArchiveTabDto`; `order` is the tab's position among the tabs. */
  datatype ArchiveTabDto = ArchiveTabDto(
    id: string,
    slug: string,
    title: string,
    description: Option<string>,
    introMarkdown: Option<string>,
    order: int,
    isActive: bool)

  /** The index of the first tab with the slug, if any. */
  function FirstWithSlug(tabs: seq<ArchiveTabDto>, slug: string): (k: Option<nat>)
    ensures k.Some? ==> k.value < |tabs| && tabs[k.value].slug == slug
    ensures k.Some? ==> forall j | 0 <= j < k.value :: tabs[j].slug != slug
    ensures k.None? ==> forall j | 0 <= j < |tabs| :: tabs[j].slug != slug
  {
    if tabs == [] then None
    else if tabs[0].slug == slug then Some(0)
    else
      match FirstWithSlug(tabs[1..], slug)
      case None => None
      case Some(j) => Some(j + 1)
  }

  /**
   * `resolveArchiveTab`: no tab for an empty list; the first tab with the
   * requested (non-empty) slug; otherwise the first tab.
   */
  function ResolveArchiveTab(requestedSlug: Option<string>, tabs: seq<ArchiveTabDto>): (r: Option<ArchiveTabDto>)
    ensures r.None? <==> tabs == []
    ensures r.Some? ==> r.value in tabs
    ensures tabs != [] && requestedSlug.Some? && requestedSlug.value != [] && FirstWithSlug(tabs, requestedSlug.value).Some? ==>
      r == Some(tabs[FirstWithSlug(tabs, requestedSlug.value).value])
    ensures tabs != [] && (requestedSlug.None? || requestedSlug.value == [] || FirstWithSlug(tabs, requestedSlug.value).None?) ==>
      r == Some(tabs[0])
  {
    if tabs == [] then None
    else if requestedSlug.Some? && requestedSlug.value != [] && FirstWithSlug(tabs, requestedSlug.value).Some? then
      Some(tabs[FirstWithSlug(tabs, requestedSlug.value).value])
    else Some(tabs[0])
  }

  /** A tab whose slug was asked for is shown when its slug is unique among the tabs. */
  lemma RequestedTabIsShown(tabs: seq<ArchiveTabDto>, k: nat)
    requires k < |tabs| && tabs[k].slug != []
    requires forall j | 0 <= j < |tabs| && j != k :: tabs[j].slug != tabs[k].slug
    ensures ResolveArchiveTab(Some(tabs[k].slug), tabs) == Some(tabs[k])
  {
    var f := FirstWithSlug(tabs, tabs[k].slug);
    assert f.Some? && f.value == k;
  }

  /** A slug no tab has gives the first tab, as no slug at all does. */
  lemma UnknownSlugGivesFirstTab(tabs: seq<ArchiveTabDto>, slug: string)
    requires tabs != [] && forall j | 0 <= j < |tabs| :: tabs[j].slug != slug
    ensures ResolveArchiveTab(Some(slug), tabs) == ResolveArchiveTab(None, tabs) == Some(tabs[0])
  {
  }
}
