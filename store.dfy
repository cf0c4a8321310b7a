/**
  The local store as values, and the reconciliation of a fetched catalog
  against it, stated as functions. The methods of `ManagedContext.Context`
  are proved to compute exactly these functions; the lemmas below say what
  the functions guarantee.

  Every persisted entity carries an `id`, the identity of the managed
  object: an entity updated in place keeps its id, a created one takes the
  next unused id.
*/
module Reconciliation {
  import opened Wrappers
  import opened Errors
  import opened Catalog

  /** A persisted `PageTemplateCategory`; its fields are those last fetched. */
  datatype CategoryEntity = CategoryEntity(id: nat, fields: GutenbergLayoutCategory)

  /** The fields a persisted `PageTemplateLayout` takes from the fetched layout. */
  datatype LayoutFields = LayoutFields(slug: Slug, title: string, preview: string)

  /**
    A persisted `PageTemplateLayout`; its fields are those last fetched, and
    `categories` holds the slugs of its associated categories.
  */
  datatype LayoutEntity = LayoutEntity(id: nat, fields: LayoutFields, categories: set<Slug>)

  /** The contents of a managed-object context: both entity types keyed by slug. */
  datatype Snapshot = Snapshot(
    categories: map<Slug, CategoryEntity>,
    layouts: map<Slug, LayoutEntity>,
    nextId: nat)

  /**
    Slugs are the keys (no two entities of one type share a slug), every id
    is below `nextId`, and no two entities of one type share an id.
  */
  ghost predicate Keyed(s: Snapshot) {
    && (forall k :: k in s.categories ==> s.categories[k].fields.slug == k && s.categories[k].id < s.nextId)
    && (forall k :: k in s.layouts ==> s.layouts[k].fields.slug == k && s.layouts[k].id < s.nextId)
    && (forall j, k :: j in s.categories && k in s.categories && j != k ==> s.categories[j].id != s.categories[k].id)
    && (forall j, k :: j in s.layouts && k in s.layouts && j != k ==> s.layouts[j].id != s.layouts[k].id)
  }

  /** A layout is associated only with categories that are persisted. */
  ghost predicate NoDanglingAssociations(s: Snapshot) {
    forall k :: k in s.layouts ==> s.layouts[k].categories <= s.categories.Keys
  }

  /** What a committed store satisfies. */
  ghost predicate WellFormed(s: Snapshot) {
    Keyed(s) && NoDanglingAssociations(s)
  }

  lemma CardinalityOfAddedKey(a: set<Slug>, b: set<Slug>, x: Slug)
    requires x !in a
    ensures |(a + {x}) - b| == |a - b| + (if x in b then 0 else 1)
  {
    if x !in b {
      assert (a + {x}) - b == (a - b) + {x};
    } else {
      assert (a + {x}) - b == a - b;
    }
  }

  // ---------------------------------------------------------------------
  // Category pass
  // ---------------------------------------------------------------------

  /** One fetched category: update the entity with its slug in place, or create one. */
  function UpsertCategory(s: Snapshot, c: GutenbergLayoutCategory): Snapshot {
    if c.slug in s.categories then
      s.(categories := s.categories[c.slug := s.categories[c.slug].(fields := c)])
    else
      s.(categories := s.categories[c.slug := CategoryEntity(s.nextId, c)], nextId := s.nextId + 1)
  }

  /** The fetched categories applied in order. */
  function UpsertCategories(s: Snapshot, cs: seq<GutenbergLayoutCategory>): Snapshot
    decreases |cs|
  {
    if cs == [] then s else UpsertCategory(UpsertCategories(s, cs[..|cs| - 1]), cs[|cs| - 1])
  }

  /**
    The category pass: upsert every fetched category, then delete the
    deletion candidates, the categories persisted before the pass whose slug
    was not fetched.
  */
  function CategoryPass(s: Snapshot, cs: seq<GutenbergLayoutCategory>): Snapshot {
    var u := UpsertCategories(s, cs);
    u.(categories := u.categories - (s.categories.Keys - CategorySlugs(cs)))
  }

  lemma {:induction false} UpsertCategoriesKeys(s: Snapshot, cs: seq<GutenbergLayoutCategory>)
    ensures UpsertCategories(s, cs).layouts == s.layouts
    ensures UpsertCategories(s, cs).categories.Keys == s.categories.Keys + CategorySlugs(cs)
    decreases |cs|
  {
    if cs != [] {
      UpsertCategoriesKeys(s, cs[..|cs| - 1]);
      CategorySlugsLast(cs);
    }
  }

  lemma UpsertCategoryEffect(s: Snapshot, c: GutenbergLayoutCategory)
    ensures c.slug in s.categories ==> UpsertCategory(s, c).categories.Keys == s.categories.Keys && UpsertCategory(s, c).nextId == s.nextId
    ensures c.slug !in s.categories ==>
      UpsertCategory(s, c).categories.Keys == s.categories.Keys + {c.slug} && UpsertCategory(s, c).nextId == s.nextId + 1
  {
  }

  lemma {:induction false} UpsertCategoriesCount(s: Snapshot, cs: seq<GutenbergLayoutCategory>)
    ensures UpsertCategories(s, cs).nextId == s.nextId + |UpsertCategories(s, cs).categories.Keys - s.categories.Keys|
    decreases |cs|
  {
    if cs != [] {
      var init, c := cs[..|cs| - 1], cs[|cs| - 1];
      var u := UpsertCategories(s, init);
      UpsertCategoriesCount(s, init);
      UpsertCategoriesKeys(s, init);
      UpsertCategoryEffect(u, c);
      if c.slug !in u.categories {
        CardinalityOfAddedKey(u.categories.Keys, s.categories.Keys, c.slug);
      }
    }
  }

  /** What applying the fetched entries in order leaves for one slug `k`. */
  lemma {:induction false} UpsertCategoriesAt(s: Snapshot, cs: seq<GutenbergLayoutCategory>, k: Slug)
    ensures var u := UpsertCategories(s, cs);
      && (k in s.categories ==> k in u.categories && u.categories[k].id == s.categories[k].id)
      && (k in s.categories && k !in CategorySlugs(cs) ==> k in u.categories && u.categories[k] == s.categories[k])
      && (k in CategorySlugs(cs) ==> k in u.categories && u.categories[k].fields == LastCategory(cs, k))
      && (k in CategorySlugs(cs) && k !in s.categories ==> k in u.categories && s.nextId <= u.categories[k].id < u.nextId)
    decreases |cs|
  {
    if cs != [] {
      var init, c := cs[..|cs| - 1], cs[|cs| - 1];
      var u := UpsertCategories(s, init);
      UpsertCategoriesAt(s, init, k);
      UpsertCategoriesKeys(s, init);
      UpsertCategoriesCount(s, init);
      assert UpsertCategories(s, cs) == UpsertCategory(u, c);
      CategorySlugsLast(cs);
      if k == c.slug {
        assert LastCategory(cs, k) == c;
      } else if k in CategorySlugs(cs) {
        assert k in CategorySlugs(init);
        assert LastCategory(cs, k) == LastCategory(init, k);
      }
    }
  }

  /**
    Full replace: after the category pass the persisted category slugs are
    exactly the fetched ones, whatever was persisted before; layouts are
    not touched.
  */
  lemma CategoryPassKeys(s: Snapshot, cs: seq<GutenbergLayoutCategory>)
    ensures CategoryPass(s, cs).categories.Keys == CategorySlugs(cs)
    ensures CategoryPass(s, cs).layouts == s.layouts
  {
    UpsertCategoriesKeys(s, cs);
  }

  /**
    Update in place versus create: a fetched slug that was persisted keeps
    its entity (same id); a fetched slug that was not gets a new entity with
    a fresh id, and exactly one entity is created per such slug. Either way
    the entity holds the fields of the last fetched entry with that slug.
  */
  lemma CategoryPassUpserts(s: Snapshot, cs: seq<GutenbergLayoutCategory>)
    ensures var r := CategoryPass(s, cs);
      && r.categories.Keys == CategorySlugs(cs)
      && (forall k :: k in r.categories ==> r.categories[k].fields == LastCategory(cs, k))
      && (forall k :: k in r.categories && k in s.categories ==> r.categories[k].id == s.categories[k].id)
      && (forall k :: k in r.categories && k !in s.categories ==> s.nextId <= r.categories[k].id < r.nextId)
      && r.nextId == s.nextId + |CategorySlugs(cs) - s.categories.Keys|
  {
    UpsertCategoriesKeys(s, cs);
    UpsertCategoriesCount(s, cs);
    assert UpsertCategories(s, cs).categories.Keys - s.categories.Keys == CategorySlugs(cs) - s.categories.Keys;
    var r := CategoryPass(s, cs);
    forall k | k in r.categories
      ensures r.categories[k].fields == LastCategory(cs, k)
      ensures k in s.categories ==> r.categories[k].id == s.categories[k].id
      ensures k !in s.categories ==> s.nextId <= r.categories[k].id < r.nextId
    {
      UpsertCategoriesAt(s, cs, k);
    }
  }

  lemma UpsertCategoryKeyed(s: Snapshot, c: GutenbergLayoutCategory)
    requires Keyed(s)
    ensures Keyed(UpsertCategory(s, c))
  {
  }

  lemma {:induction false} UpsertCategoriesKeyed(s: Snapshot, cs: seq<GutenbergLayoutCategory>)
    requires Keyed(s)
    ensures Keyed(UpsertCategories(s, cs))
    decreases |cs|
  {
    if cs != [] {
      UpsertCategoriesKeyed(s, cs[..|cs| - 1]);
      UpsertCategoryKeyed(UpsertCategories(s, cs[..|cs| - 1]), cs[|cs| - 1]);
    }
  }

  /** The category pass keeps slugs unique and ids distinct. */
  lemma CategoryPassKeyed(s: Snapshot, cs: seq<GutenbergLayoutCategory>)
    requires Keyed(s)
    ensures Keyed(CategoryPass(s, cs))
  {
    UpsertCategoriesKeyed(s, cs);
  }

  // ---------------------------------------------------------------------
  // Layout pass
  // ---------------------------------------------------------------------

  /** The persisted categories whose slug is among a layout's declared categories. */
  function Associated(cats: map<Slug, CategoryEntity>, declared: seq<GutenbergLayoutCategory>): set<Slug> {
    cats.Keys * CategorySlugs(declared)
  }

  /**
    One fetched layout: update the entity with its slug in place, or create
    one, and in both cases replace its association by the persisted
    categories it declares.
  */
  function UpsertLayout(s: Snapshot, l: GutenbergLayout): Snapshot {
    var assoc := Associated(s.categories, l.categories);
    if l.slug in s.layouts then
      s.(layouts := s.layouts[l.slug := LayoutEntity(s.layouts[l.slug].id, LayoutFields(l.slug, l.title, l.preview), assoc)])
    else
      s.(layouts := s.layouts[l.slug := LayoutEntity(s.nextId, LayoutFields(l.slug, l.title, l.preview), assoc)],
         nextId := s.nextId + 1)
  }

  /** The fetched layouts applied in order. */
  function UpsertLayouts(s: Snapshot, ls: seq<GutenbergLayout>): Snapshot
    decreases |ls|
  {
    if ls == [] then s else UpsertLayout(UpsertLayouts(s, ls[..|ls| - 1]), ls[|ls| - 1])
  }

  /** The layout pass: upsert and associate every fetched layout, then delete the stale ones. */
  function LayoutPass(s: Snapshot, ls: seq<GutenbergLayout>): Snapshot {
    var u := UpsertLayouts(s, ls);
    u.(layouts := u.layouts - (s.layouts.Keys - LayoutSlugs(ls)))
  }

  /** The entity the layout pass leaves for fetched slug `k`, given the id it keeps or gets. */
  function SyncedLayout(cats: map<Slug, CategoryEntity>, ls: seq<GutenbergLayout>, k: Slug, id: nat): LayoutEntity
    requires k in LayoutSlugs(ls)
  {
    var l := LastLayout(ls, k);
    LayoutEntity(id, LayoutFields(k, l.title, l.preview), Associated(cats, l.categories))
  }

  lemma {:induction false} UpsertLayoutsKeys(s: Snapshot, ls: seq<GutenbergLayout>)
    ensures UpsertLayouts(s, ls).categories == s.categories
    ensures UpsertLayouts(s, ls).layouts.Keys == s.layouts.Keys + LayoutSlugs(ls)
    decreases |ls|
  {
    if ls != [] {
      UpsertLayoutsKeys(s, ls[..|ls| - 1]);
      LayoutSlugsLast(ls);
    }
  }

  lemma UpsertLayoutEffect(s: Snapshot, l: GutenbergLayout)
    ensures l.slug in s.layouts ==> UpsertLayout(s, l).layouts.Keys == s.layouts.Keys && UpsertLayout(s, l).nextId == s.nextId
    ensures l.slug !in s.layouts ==>
      UpsertLayout(s, l).layouts.Keys == s.layouts.Keys + {l.slug} && UpsertLayout(s, l).nextId == s.nextId + 1
  {
  }

  lemma {:induction false} UpsertLayoutsCount(s: Snapshot, ls: seq<GutenbergLayout>)
    ensures UpsertLayouts(s, ls).nextId == s.nextId + |UpsertLayouts(s, ls).layouts.Keys - s.layouts.Keys|
    decreases |ls|
  {
    if ls != [] {
      var init, l := ls[..|ls| - 1], ls[|ls| - 1];
      var u := UpsertLayouts(s, init);
      UpsertLayoutsCount(s, init);
      UpsertLayoutsKeys(s, init);
      UpsertLayoutEffect(u, l);
      if l.slug !in u.layouts {
        CardinalityOfAddedKey(u.layouts.Keys, s.layouts.Keys, l.slug);
      }
    }
  }

  /** What applying the fetched entries in order leaves for one slug `k`. */
  lemma {:induction false} UpsertLayoutsAt(s: Snapshot, ls: seq<GutenbergLayout>, k: Slug)
    ensures var u := UpsertLayouts(s, ls);
      && (k in s.layouts ==> k in u.layouts && u.layouts[k].id == s.layouts[k].id)
      && (k in s.layouts && k !in LayoutSlugs(ls) ==> k in u.layouts && u.layouts[k] == s.layouts[k])
      && (k in LayoutSlugs(ls) ==> k in u.layouts && u.layouts[k] == SyncedLayout(s.categories, ls, k, u.layouts[k].id))
      && (k in LayoutSlugs(ls) && k !in s.layouts ==> k in u.layouts && s.nextId <= u.layouts[k].id < u.nextId)
    decreases |ls|
  {
    if ls != [] {
      var init, l := ls[..|ls| - 1], ls[|ls| - 1];
      var u := UpsertLayouts(s, init);
      UpsertLayoutsAt(s, init, k);
      UpsertLayoutsKeys(s, init);
      UpsertLayoutsCount(s, init);
      assert UpsertLayouts(s, ls) == UpsertLayout(u, l);
      LayoutSlugsLast(ls);
      if k == l.slug {
        assert LastLayout(ls, k) == l;
      } else if k in LayoutSlugs(ls) {
        assert k in LayoutSlugs(init);
        assert LastLayout(ls, k) == LastLayout(init, k);
      }
    }
  }

  /**
    Full replace for layouts: afterwards the persisted layout slugs are
    exactly the fetched ones; categories are not touched.
  */
  lemma LayoutPassKeys(s: Snapshot, ls: seq<GutenbergLayout>)
    ensures LayoutPass(s, ls).layouts.Keys == LayoutSlugs(ls)
    ensures LayoutPass(s, ls).categories == s.categories
  {
    UpsertLayoutsKeys(s, ls);
  }

  /**
    Update in place versus create for layouts, and the association: each
    persisted layout holds the fields of its last fetched entry and is
    associated with exactly the persisted categories that entry declares.
  */
  lemma LayoutPassUpserts(s: Snapshot, ls: seq<GutenbergLayout>)
    ensures var r := LayoutPass(s, ls);
      && r.layouts.Keys == LayoutSlugs(ls)
      && (forall k :: k in r.layouts ==> r.layouts[k] == SyncedLayout(s.categories, ls, k, r.layouts[k].id))
      && (forall k :: k in r.layouts && k in s.layouts ==> r.layouts[k].id == s.layouts[k].id)
      && (forall k :: k in r.layouts && k !in s.layouts ==> s.nextId <= r.layouts[k].id < r.nextId)
      && r.nextId == s.nextId + |LayoutSlugs(ls) - s.layouts.Keys|
  {
    UpsertLayoutsKeys(s, ls);
    UpsertLayoutsCount(s, ls);
    assert UpsertLayouts(s, ls).layouts.Keys - s.layouts.Keys == LayoutSlugs(ls) - s.layouts.Keys;
    var r := LayoutPass(s, ls);
    forall k | k in r.layouts
      ensures r.layouts[k] == SyncedLayout(s.categories, ls, k, r.layouts[k].id)
      ensures k in s.layouts ==> r.layouts[k].id == s.layouts[k].id
      ensures k !in s.layouts ==> s.nextId <= r.layouts[k].id < r.nextId
    {
      UpsertLayoutsAt(s, ls, k);
    }
  }

  lemma UpsertLayoutKeyed(s: Snapshot, l: GutenbergLayout)
    requires Keyed(s)
    ensures Keyed(UpsertLayout(s, l))
  {
  }

  lemma {:induction false} UpsertLayoutsKeyed(s: Snapshot, ls: seq<GutenbergLayout>)
    requires Keyed(s)
    ensures Keyed(UpsertLayouts(s, ls))
    decreases |ls|
  {
    if ls != [] {
      UpsertLayoutsKeyed(s, ls[..|ls| - 1]);
      UpsertLayoutKeyed(UpsertLayouts(s, ls[..|ls| - 1]), ls[|ls| - 1]);
    }
  }

  // ---------------------------------------------------------------------
  // The whole sync
  // ---------------------------------------------------------------------

  /** Categories first, so that layouts are associated against the updated categories. */
  function Reconcile(s: Snapshot, catalog: GutenbergPageLayouts): Snapshot {
    LayoutPass(CategoryPass(s, catalog.categories), catalog.layouts)
  }

  /**
    After a sync the store holds exactly the fetched slugs of both types,
    and every layout is associated with exactly the fetched categories that
    its last fetched entry declares: the declared slugs that name no fetched
    category are dropped, and no association dangles.
  */
  lemma ReconcileContents(s: Snapshot, catalog: GutenbergPageLayouts)
    ensures var r := Reconcile(s, catalog);
      && r.categories.Keys == CategorySlugs(catalog.categories)
      && r.layouts.Keys == LayoutSlugs(catalog.layouts)
      && NoDanglingAssociations(r)
      && forall k :: k in r.layouts ==>
           r.layouts[k].categories
             == CategorySlugs(catalog.categories) * CategorySlugs(LastLayout(catalog.layouts, k).categories)
  {
    var c := CategoryPass(s, catalog.categories);
    CategoryPassKeys(s, catalog.categories);
    LayoutPassKeys(c, catalog.layouts);
    LayoutPassUpserts(c, catalog.layouts);
  }

  /** A sync leaves a store that satisfies the store invariant, from any keyed store. */
  lemma ReconcileWellFormed(s: Snapshot, catalog: GutenbergPageLayouts)
    requires Keyed(s)
    ensures WellFormed(Reconcile(s, catalog))
  {
    var c := CategoryPass(s, catalog.categories);
    CategoryPassKeyed(s, catalog.categories);
    UpsertLayoutsKeyed(c, catalog.layouts);
    ReconcileContents(s, catalog);
  }

  /** A category pass over a store that already agrees with the fetch changes nothing. */
  lemma CategoryPassStable(s: Snapshot, cs: seq<GutenbergLayoutCategory>)
    requires s.categories.Keys == CategorySlugs(cs)
    requires forall k :: k in s.categories ==> s.categories[k].fields == LastCategory(cs, k)
    ensures CategoryPass(s, cs) == s
  {
    var r := CategoryPass(s, cs);
    assert r.nextId == s.nextId by {
      UpsertCategoriesCount(s, cs);
      UpsertCategoriesKeys(s, cs);
      assert UpsertCategories(s, cs).categories.Keys - s.categories.Keys == {};
    }
    assert r.categories == s.categories by {
      CategoryPassKeys(s, cs);
      forall k | k in r.categories ensures r.categories[k] == s.categories[k] {
        UpsertCategoriesAt(s, cs, k);
      }
    }
    CategoryPassKeys(s, cs);
  }

  /** A layout pass over a store that already agrees with the fetch changes nothing. */
  lemma LayoutPassStable(s: Snapshot, ls: seq<GutenbergLayout>)
    requires s.layouts.Keys == LayoutSlugs(ls)
    requires forall k :: k in s.layouts ==> s.layouts[k] == SyncedLayout(s.categories, ls, k, s.layouts[k].id)
    ensures LayoutPass(s, ls) == s
  {
    var r := LayoutPass(s, ls);
    assert r.nextId == s.nextId by {
      UpsertLayoutsCount(s, ls);
      UpsertLayoutsKeys(s, ls);
      assert UpsertLayouts(s, ls).layouts.Keys - s.layouts.Keys == {};
    }
    assert r.layouts == s.layouts by {
      LayoutPassKeys(s, ls);
      forall k | k in r.layouts ensures r.layouts[k] == s.layouts[k] {
        UpsertLayoutsAt(s, ls, k);
      }
    }
    LayoutPassKeys(s, ls);
  }

  /** Idempotence: syncing the same catalog twice leaves the store as the first sync left it. */
  lemma ReconcileIdempotent(s: Snapshot, catalog: GutenbergPageLayouts)
    ensures Reconcile(Reconcile(s, catalog), catalog) == Reconcile(s, catalog)
  {
    var cs, ls := catalog.categories, catalog.layouts;
    var c1 := CategoryPass(s, cs);
    var r1 := LayoutPass(c1, ls);
    CategoryPassKeys(s, cs);
    CategoryPassUpserts(s, cs);
    LayoutPassKeys(c1, ls);
    LayoutPassUpserts(c1, ls);
    CategoryPassStable(r1, cs);
    LayoutPassStable(r1, ls);
  }

  /**
    Two syncs in a row: a catalog with category "about" and layout "l1"
    into an empty store, then one with only "contact" and "l2". The second
    sync removes "about" and "l1" entirely.
  */
  lemma ReplaceScenario()
    ensures
      var about := GutenbergLayoutCategory("about", "About", None, None);
      var contact := GutenbergLayoutCategory("contact", "Contact", None, None);
      var first := GutenbergPageLayouts([GutenbergLayout("l1", "Layout 1", "l1.png", [about])], [about]);
      var second := GutenbergPageLayouts([GutenbergLayout("l2", "Layout 2", "l2.png", [contact])], [contact]);
      var r1 := Reconcile(Snapshot(map[], map[], 0), first);
      var r2 := Reconcile(r1, second);
      && r1.categories.Keys == {"about"} && r1.layouts.Keys == {"l1"} && r1.layouts["l1"].categories == {"about"}
      && r2.categories.Keys == {"contact"} && r2.layouts.Keys == {"l2"} && r2.layouts["l2"].categories == {"contact"}
  {
    var about := GutenbergLayoutCategory("about", "About", None, None);
    var contact := GutenbergLayoutCategory("contact", "Contact", None, None);
    var l1 := GutenbergLayout("l1", "Layout 1", "l1.png", [about]);
    var l2 := GutenbergLayout("l2", "Layout 2", "l2.png", [contact]);
    var first := GutenbergPageLayouts([l1], [about]);
    var second := GutenbergPageLayouts([l2], [contact]);
    assert CategorySlugs([about]) == {"about"};
    assert CategorySlugs([contact]) == {"contact"};
    assert LayoutSlugs([l1]) == {"l1"};
    assert LayoutSlugs([l2]) == {"l2"};
    var r1 := Reconcile(Snapshot(map[], map[], 0), first);
    ReconcileContents(Snapshot(map[], map[], 0), first);
    ReconcileContents(r1, second);
    assert LastLayout([l1], "l1") == l1;
    assert LastLayout([l2], "l2") == l2;
  }

  // ---------------------------------------------------------------------
  // Failure and commit
  // ---------------------------------------------------------------------

  /** The first of the first `n` fetched layouts whose category lookup throws, if any. */
  function FirstFault(faults: map<nat, Error>, n: nat): (r: Option<nat>)
    ensures r.Some? ==> r.value < n && r.value in faults && forall j :: 0 <= j < r.value ==> j !in faults
    ensures r.None? ==> forall j :: 0 <= j < n ==> j !in faults
  {
    if n == 0 then None
    else match FirstFault(faults, n - 1)
      case Some(i) => Some(i)
      case None => if n - 1 in faults then Some(n - 1) else None
  }

  /**
    What `persistToCoreData` commits: the reconciled store when neither pass
    throws, else the error thrown. `faults[i]` is the error thrown by the
    store when it is asked for the categories of the i-th fetched layout.
  */
  function Persisted(s: Snapshot, catalog: GutenbergPageLayouts, faults: map<nat, Error>): Result<Snapshot, Error> {
    match FirstFault(faults, |catalog.layouts|)
    case Some(i) => Failure(faults[i])
    case None => Success(Reconcile(s, catalog))
  }

  /**
    Atomicity: the sync commits exactly when no lookup throws, and a
    failure reports the error thrown by the first failing lookup.
  */
  lemma PersistedIsAtomic(s: Snapshot, catalog: GutenbergPageLayouts, faults: map<nat, Error>)
    ensures Persisted(s, catalog, faults).Success?
        <==> forall j :: 0 <= j < |catalog.layouts| ==> j !in faults
    ensures Persisted(s, catalog, faults).Success? ==> Persisted(s, catalog, faults).value == Reconcile(s, catalog)
    ensures Persisted(s, catalog, faults).Failure? ==>
      exists i :: 0 <= i < |catalog.layouts| && i in faults && Persisted(s, catalog, faults).error == faults[i]
        && forall j :: 0 <= j < i ==> j !in faults
  {
  }
}
