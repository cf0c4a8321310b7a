/**
  A managed-object context holding the two entity types, and the passes of
  `PageLayoutService` that change it in place. Each pass is proved to leave
  the context in the state the matching function of `Reconciliation`
  describes.
*/
module ManagedContext {
  import opened Wrappers
  import opened Errors
  import opened Catalog
  import opened Reconciliation

  class Context {
    var categories: map<Slug, CategoryEntity>
    var layouts: map<Slug, LayoutEntity>
    var nextId: nat

    /** The context's contents as a value. */
    function State(): Snapshot
      reads this
    {
      Snapshot(categories, layouts, nextId)
    }

    ghost predicate Valid()
      reads this
    {
      WellFormed(State())
    }

    /** `newDerivedContext()`: a scratch context that starts from the parent's contents. */
    constructor Derived(parent: Context)
      ensures State() == parent.State()
    {
      categories, layouts, nextId := parent.categories, parent.layouts, parent.nextId;
    }

    /** Commits this context's contents into `parent`. */
    method Save(parent: Context)
      modifies parent
      ensures parent.State() == old(State())
    {
      parent.categories, parent.layouts, parent.nextId := categories, layouts, nextId;
    }

    /**
      `persistCategoriesToCoreData`: seed the deletion candidates with every
      persisted category, upsert each fetched category (dropping a matched
      one from the candidates), then delete the candidates that remain.
    */
    method PersistCategories(cs: seq<GutenbergLayoutCategory>)
      modifies this
      ensures State() == CategoryPass(old(State()), cs)
    {
      var categoriesToDelete := categories.Keys;
      for i := 0 to |cs|
        invariant State() == UpsertCategories(old(State()), cs[..i])
        invariant categoriesToDelete == old(categories.Keys) - CategorySlugs(cs[..i])
        invariant old(categories.Keys) <= categories.Keys
      {
        var category := cs[i];
        if category.slug in categories {
          categoriesToDelete := categoriesToDelete - {category.slug};
          categories := categories[category.slug := categories[category.slug].(fields := category)];
        } else {
          categories := categories[category.slug := CategoryEntity(nextId, category)];
          nextId := nextId + 1;
        }
        assert cs[..i + 1][..i] == cs[..i];
        CategorySlugsLast(cs[..i + 1]);
      }
      assert cs[..|cs|] == cs;
      UpsertCategoriesKeys(old(State()), cs);
      DeleteCategories(categoriesToDelete);
    }

    /** Deletes every category whose slug is in `stale`; nothing else changes. */
    method DeleteCategories(stale: set<Slug>)
      modifies this
      ensures categories == old(categories) - stale
      ensures layouts == old(layouts) && nextId == old(nextId)
    {
      var rest := stale;
      while rest != {}
        invariant rest <= stale
        invariant categories == old(categories) - (stale - rest)
        invariant layouts == old(layouts) && nextId == old(nextId)
        decreases rest
      {
        var slug :| slug in rest;
        categories := categories - {slug};
        rest := rest - {slug};
      }
    }

    /**
      `associate`: replace the layout's categories by the persisted
      categories whose slug one of `declared` carries. The lookup may throw:
      `fault` is what the store throws, if anything, and then nothing changes.
    */
    method Associate(slug: Slug, declared: seq<GutenbergLayoutCategory>, fault: Option<Error>)
      returns (thrown: Option<Error>)
      requires slug in layouts
      modifies this
      ensures thrown == fault
      ensures categories == old(categories) && nextId == old(nextId)
      ensures fault.Some? ==> layouts == old(layouts)
      ensures fault.None? ==>
        layouts == old(layouts)[slug := old(layouts)[slug].(categories := Associated(old(categories), declared))]
    {
      if fault.Some? {
        return fault;
      }
      var fetchedCategories := Associated(categories, declared);
      layouts := layouts[slug := layouts[slug].(categories := fetchedCategories)];
      thrown := None;
    }

    /**
      One iteration of `persistLayoutsToCoreData`: update the layout with
      this slug in place or create one, then associate it; `fault` is what
      the category lookup in `associate` throws, if anything.
    */
    method PersistLayout(layout: GutenbergLayout, fault: Option<Error>) returns (thrown: Option<Error>)
      modifies this
      ensures thrown == fault
      ensures categories == old(categories)
      ensures old(layouts.Keys) <= layouts.Keys
      ensures fault.None? ==> State() == UpsertLayout(old(State()), layout)
    {
      if layout.slug in layouts {
        var local := layouts[layout.slug];
        layouts := layouts[layout.slug := local.(fields := LayoutFields(layout.slug, layout.title, layout.preview))];
      } else {
        layouts := layouts[layout.slug := LayoutEntity(nextId, LayoutFields(layout.slug, layout.title, layout.preview), {})];
        nextId := nextId + 1;
      }
      thrown := Associate(layout.slug, layout.categories, fault);
    }

    /**
      `persistLayoutsToCoreData`: as for categories, and each upserted layout
      is associated with its declared categories. `faults[i]` is thrown by the
      category lookup for the i-th fetched layout, and the pass stops there.
    */
    method PersistLayouts(ls: seq<GutenbergLayout>, faults: map<nat, Error>) returns (thrown: Option<Error>)
      modifies this
      ensures thrown == (match FirstFault(faults, |ls|) case Some(i) => Some(faults[i]) case None => None)
      ensures thrown.None? ==> State() == LayoutPass(old(State()), ls)
    {
      var layoutsToDelete := layouts.Keys;
      for i := 0 to |ls|
        invariant State() == UpsertLayouts(old(State()), ls[..i])
        invariant layoutsToDelete == old(layouts.Keys) - LayoutSlugs(ls[..i])
        invariant old(layouts.Keys) <= layouts.Keys
        invariant forall j :: 0 <= j < i ==> j !in faults
      {
        var layout := ls[i];
        if layout.slug in layouts {
          layoutsToDelete := layoutsToDelete - {layout.slug};
        }
        thrown := PersistLayout(layout, if i in faults then Some(faults[i]) else None);
        if thrown.Some? {
          assert FirstFault(faults, |ls|) == Some(i);
          return;
        }
        assert ls[..i + 1][..i] == ls[..i];
        LayoutSlugsLast(ls[..i + 1]);
      }
      assert ls[..|ls|] == ls;
      assert FirstFault(faults, |ls|) == None;
      ghost var upserted := UpsertLayouts(old(State()), ls);
      assert layoutsToDelete == old(layouts.Keys) - LayoutSlugs(ls);
      assert State() == upserted;
      DeleteLayouts(layoutsToDelete);
      assert layouts == upserted.layouts - layoutsToDelete;
      thrown := None;
    }

    /** Deletes every layout whose slug is in `stale`; nothing else changes. */
    method DeleteLayouts(stale: set<Slug>)
      modifies this
      ensures layouts == old(layouts) - stale
      ensures categories == old(categories) && nextId == old(nextId)
    {
      var rest := stale;
      while rest != {}
        invariant rest <= stale
        invariant layouts == old(layouts) - (stale - rest)
        invariant categories == old(categories) && nextId == old(nextId)
        decreases rest
      {
        var slug :| slug in rest;
        layouts := layouts - {slug};
        rest := rest - {slug};
      }
    }

    /** What the results controller's `performFetch` obtains: every persisted category, once each. */
    method AllCategories() returns (objects: seq<CategoryEntity>)
      ensures |objects| == |categories|
      ensures forall k :: k in categories ==> categories[k] in objects
      ensures forall i :: 0 <= i < |objects| ==> objects[i] in categories.Values
    {
      objects := [];
      var rest := categories.Keys;
      while rest != {}
        invariant rest <= categories.Keys
        invariant |objects| + |rest| == |categories.Keys|
        invariant forall k :: k in categories && k !in rest ==> categories[k] in objects
        invariant forall i :: 0 <= i < |objects| ==> objects[i] in categories.Values
        decreases rest
      {
        var slug :| slug in rest;
        objects := objects + [categories[slug]];
        rest := rest - {slug};
      }
    }
  }
}
