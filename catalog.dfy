/**
  The decoded response of the block-layouts endpoints: an ordered list of
  categories and an ordered list of layouts, each layout naming its
  categories. Nothing here is persisted yet.
*/
module Catalog {
  import opened Wrappers

  type Slug = string

  datatype GutenbergLayoutCategory = GutenbergLayoutCategory(
    slug: Slug,
    title: string,
    description: Option<string>,
    emoji: Option<string>)

  datatype GutenbergLayout = GutenbergLayout(
    slug: Slug,
    title: string,
    preview: string,
    categories: seq<GutenbergLayoutCategory>)

  datatype GutenbergPageLayouts = GutenbergPageLayouts(
    layouts: seq<GutenbergLayout>,
    categories: seq<GutenbergLayoutCategory>)

  /** The slugs named by a list of fetched categories. */
  function CategorySlugs(cs: seq<GutenbergLayoutCategory>): set<Slug> {
    set c | c in cs :: c.slug
  }

  /** The slugs named by a list of fetched layouts. */
  function LayoutSlugs(ls: seq<GutenbergLayout>): set<Slug> {
    set l | l in ls :: l.slug
  }

  lemma CategorySlugsLast(cs: seq<GutenbergLayoutCategory>)
    requires |cs| > 0
    ensures CategorySlugs(cs) == CategorySlugs(cs[..|cs| - 1]) + {cs[|cs| - 1].slug}
  {
    assert cs == cs[..|cs| - 1] + [cs[|cs| - 1]];
  }

  lemma LayoutSlugsLast(ls: seq<GutenbergLayout>)
    requires |ls| > 0
    ensures LayoutSlugs(ls) == LayoutSlugs(ls[..|ls| - 1]) + {ls[|ls| - 1].slug}
  {
    assert ls == ls[..|ls| - 1] + [ls[|ls| - 1]];
  }

  /**
    Where the last fetched category carrying slug `k` sits. A sync applies
    the fetched entries in order, so that entry's fields end up persisted.
  */
  function LastCategoryIndex(cs: seq<GutenbergLayoutCategory>, k: Slug): (i: nat)
    requires k in CategorySlugs(cs)
    ensures i < |cs| && cs[i].slug == k
    ensures forall j :: i < j < |cs| ==> cs[j].slug != k
    decreases |cs|
  {
    CategorySlugsLast(cs);
    if cs[|cs| - 1].slug == k then |cs| - 1 else LastCategoryIndex(cs[..|cs| - 1], k)
  }

  /** The last fetched category carrying slug `k`. */
  function LastCategory(cs: seq<GutenbergLayoutCategory>, k: Slug): GutenbergLayoutCategory
    requires k in CategorySlugs(cs)
  {
    cs[LastCategoryIndex(cs, k)]
  }

  /** Where the last fetched layout carrying slug `k` sits. */
  function LastLayoutIndex(ls: seq<GutenbergLayout>, k: Slug): (i: nat)
    requires k in LayoutSlugs(ls)
    ensures i < |ls| && ls[i].slug == k
    ensures forall j :: i < j < |ls| ==> ls[j].slug != k
    decreases |ls|
  {
    LayoutSlugsLast(ls);
    if ls[|ls| - 1].slug == k then |ls| - 1 else LastLayoutIndex(ls[..|ls| - 1], k)
  }

  /** The last fetched layout carrying slug `k`. */
  function LastLayout(ls: seq<GutenbergLayout>, k: Slug): GutenbergLayout
    requires k in LayoutSlugs(ls)
  {
    ls[LastLayoutIndex(ls, k)]
  }
}
