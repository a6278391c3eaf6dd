/** The search popup: the input handler, the tab and bookmark filters and
    the list of result rows they append to. */
module Popup {
  import opened Text

  datatype Option<T> = None | Some(value: T)

  /** An open tab as the tab provider reports it. */
  datatype Tab = Tab(title: string, url: string)

  /** A bookmark node as the bookmark provider reports it; folders have no
      URL. */
  datatype Bookmark = Bookmark(title: string, url: Option<string>)

  /** One rendered result: the link text and the link target. */
  datatype Row = Row(text: string, href: Option<string>)

  // ---------------------------------------------------------------------
  // Match predicates
  // ---------------------------------------------------------------------

  /** The tab test: the lowercased title or the lowercased URL contains the
      (already lowercased) query. */
  predicate TabMatches(query: string, tab: Tab): (m: bool)
    ensures m <==> Occurs(Lower(tab.title), query) || Occurs(Lower(tab.url), query)
    ensures query == [] ==> m
  {
    var inTitle := Contains(Lower(tab.title), query);
    var inUrl := Contains(Lower(tab.url), query);
    inTitle || inUrl
  }

  /** The guard `bookmark.url && …`: a missing URL and an empty URL are both
      falsy, and then the URL is never lowercased or searched. */
  predicate HasUrl(b: Bookmark): (h: bool)
    ensures h ==> b.url.Some?
    ensures b.url.Some? && !h ==> b.url.value == []
  {
    b.url.Some? && b.url.value != []
  }

  /** The bookmark test: like the tab test, except that the URL is consulted
      only when the guard lets it through. */
  predicate BookmarkMatches(query: string, b: Bookmark): (m: bool)
    ensures b.url.None? ==> (m <==> Occurs(Lower(b.title), query))
    ensures query != [] ==>
            (m <==> Occurs(Lower(b.title), query) || (b.url.Some? && Occurs(Lower(b.url.value), query)))
  {
    var inTitle := Contains(Lower(b.title), query);
    var inUrl := HasUrl(b) && Contains(Lower(b.url.value), query);
    inTitle || inUrl
  }

  function TabRow(tab: Tab): Row {
    Row(tab.title, Some(tab.url))
  }

  function BookmarkRow(b: Bookmark): Row {
    Row(b.title, b.url)
  }

  /** The rows one tab callback appends, in the provider's order. */
  function TabRows(query: string, tabs: seq<Tab>): (rows: seq<Row>)
    ensures |rows| <= |tabs|
  {
    if tabs == [] then []
    else (if TabMatches(query, tabs[0]) then [TabRow(tabs[0])] else []) + TabRows(query, tabs[1..])
  }

  /** The rows one bookmark callback appends, in the provider's order. */
  function BookmarkRows(query: string, bookmarks: seq<Bookmark>): (rows: seq<Row>)
    ensures |rows| <= |bookmarks|
  {
    if bookmarks == [] then []
    else (if BookmarkMatches(query, bookmarks[0]) then [BookmarkRow(bookmarks[0])] else [])
         + BookmarkRows(query, bookmarks[1..])
  }

  /** The whole list after one input event whose two searches both
      complete, in the order `tabsFirst` chooses. */
  function AfterInput(value: string, tabs: seq<Tab>, bookmarks: seq<Bookmark>, tabsFirst: bool): (rows: seq<Row>)
    ensures value == [] ==> rows == []
    ensures value != [] ==>
            multiset(rows) == multiset(TabRows(Lower(value), tabs)) + multiset(BookmarkRows(Lower(value), bookmarks))
  {
    var query := Lower(value);
    if query == [] then []
    else if tabsFirst then TabRows(query, tabs) + BookmarkRows(query, bookmarks)
    else BookmarkRows(query, bookmarks) + TabRows(query, tabs)
  }

  // ---------------------------------------------------------------------
  // The popup's state
  // ---------------------------------------------------------------------

  /** The popup's result container, as the sequence of rows it shows. */
  class Popup {
    var results: seq<Row>

    constructor ()
      ensures results == []
    {
      results := [];
    }

    /** The input handler: lowercases the value, clears the list, and
        returns the query both searches are started with, or None when the
        lowercased value is empty and no search is started. */
    method OnInput(value: string) returns (dispatched: Option<string>)
      modifies this
      ensures results == []
      ensures dispatched == None <==> value == []
      ensures dispatched.Some? ==> dispatched.value == Lower(value) && IsLowerCase(dispatched.value)
    {
      var query := Lower(value);
      results := [];
      if query != [] {
        dispatched := Some(query);
      } else {
        dispatched := None;
      }
    }

    /** Appends exactly one row carrying `title` and `url`; nothing is
        merged or de-duplicated. */
    method AddResult(title: string, url: Option<string>)
      modifies this
      ensures results == old(results) + [Row(title, url)]
    {
      results := results + [Row(title, url)];
    }

    /** The tab callback: appends a row for every matching tab, in order. */
    method SearchTabs(query: string, tabs: seq<Tab>)
      modifies this
      ensures results == old(results) + TabRows(query, tabs)
    {
      var i := 0;
      while i < |tabs|
        invariant 0 <= i <= |tabs|
        invariant results == old(results) + TabRows(query, tabs[..i])
      {
        var tab := tabs[i];
        if TabMatches(query, tab) {
          AddResult(tab.title, Some(tab.url));
        }
        TabRowsConcat(query, tabs[..i], [tab]);
        assert tabs[..i + 1] == tabs[..i] + [tab];
        i := i + 1;
      }
      assert tabs[..i] == tabs;
    }

    /** The bookmark callback: appends a row for every matching bookmark, in
        order; a bookmark without a URL is matched on its title alone. */
    method SearchBookmarks(query: string, bookmarks: seq<Bookmark>)
      modifies this
      ensures results == old(results) + BookmarkRows(query, bookmarks)
    {
      var i := 0;
      while i < |bookmarks|
        invariant 0 <= i <= |bookmarks|
        invariant results == old(results) + BookmarkRows(query, bookmarks[..i])
      {
        var b := bookmarks[i];
        if BookmarkMatches(query, b) {
          AddResult(b.title, b.url);
        }
        BookmarkRowsConcat(query, bookmarks[..i], [b]);
        assert bookmarks[..i + 1] == bookmarks[..i] + [b];
        i := i + 1;
      }
      assert bookmarks[..i] == bookmarks;
    }

    /** One input event followed by both callbacks, each run as one atomic
        step, in the order `tabsFirst` chooses. */
    method InputThenCallbacks(value: string, tabs: seq<Tab>, bookmarks: seq<Bookmark>, tabsFirst: bool)
      modifies this
      ensures results == AfterInput(value, tabs, bookmarks, tabsFirst)
    {
      var dispatched := OnInput(value);
      LowerEmptyIff(value);
      if dispatched.Some? {
        var query := dispatched.value;
        ghost var tabRows, bookmarkRows := TabRows(query, tabs), BookmarkRows(query, bookmarks);
        if tabsFirst {
          SearchTabs(query, tabs);
          assert results == tabRows;
          SearchBookmarks(query, bookmarks);
          assert results == tabRows + bookmarkRows;
        } else {
          SearchBookmarks(query, bookmarks);
          assert results == bookmarkRows;
          SearchTabs(query, tabs);
          assert results == bookmarkRows + tabRows;
        }
      }
    }
  }

  // ---------------------------------------------------------------------
  // Filtering: order, membership, concatenation
  // ---------------------------------------------------------------------

  /** Filtering a concatenation filters each part and keeps their order. */
  lemma {:induction false} TabRowsConcat(query: string, a: seq<Tab>, b: seq<Tab>)
    ensures TabRows(query, a + b) == TabRows(query, a) + TabRows(query, b)
  {
    if a != [] {
      assert (a + b)[1..] == a[1..] + b;
      TabRowsConcat(query, a[1..], b);
    } else {
      assert a + b == b;
    }
  }

  /** Filtering a concatenation filters each part and keeps their order. */
  lemma {:induction false} BookmarkRowsConcat(query: string, a: seq<Bookmark>, b: seq<Bookmark>)
    ensures BookmarkRows(query, a + b) == BookmarkRows(query, a) + BookmarkRows(query, b)
  {
    if a != [] {
      assert (a + b)[1..] == a[1..] + b;
      BookmarkRowsConcat(query, a[1..], b);
    } else {
      assert a + b == b;
    }
  }

  /** A row comes out of the tab filter if and only if some matching tab
      carries it. */
  lemma {:induction false} TabRowsMembership(query: string, tabs: seq<Tab>, r: Row)
    ensures r in TabRows(query, tabs) <==>
            exists j :: 0 <= j < |tabs| && TabMatches(query, tabs[j]) && TabRow(tabs[j]) == r
  {
    if tabs != [] {
      TabRowsMembership(query, tabs[1..], r);
      if exists j :: 0 <= j < |tabs[1..]| && TabMatches(query, tabs[1..][j]) && TabRow(tabs[1..][j]) == r {
        var j :| 0 <= j < |tabs[1..]| && TabMatches(query, tabs[1..][j]) && TabRow(tabs[1..][j]) == r;
        assert tabs[j + 1] == tabs[1..][j];
      }
      if exists j :: 0 <= j < |tabs| && TabMatches(query, tabs[j]) && TabRow(tabs[j]) == r {
        var j :| 0 <= j < |tabs| && TabMatches(query, tabs[j]) && TabRow(tabs[j]) == r;
        if j > 0 {
          assert tabs[1..][j - 1] == tabs[j];
        }
      }
    }
  }

  /** A row comes out of the bookmark filter if and only if some matching
      bookmark carries it. */
  lemma {:induction false} BookmarkRowsMembership(query: string, bookmarks: seq<Bookmark>, r: Row)
    ensures r in BookmarkRows(query, bookmarks) <==>
            exists j :: 0 <= j < |bookmarks| && BookmarkMatches(query, bookmarks[j]) && BookmarkRow(bookmarks[j]) == r
  {
    if bookmarks != [] {
      BookmarkRowsMembership(query, bookmarks[1..], r);
      if exists j :: 0 <= j < |bookmarks[1..]| && BookmarkMatches(query, bookmarks[1..][j]) && BookmarkRow(bookmarks[1..][j]) == r {
        var j :| 0 <= j < |bookmarks[1..]| && BookmarkMatches(query, bookmarks[1..][j]) && BookmarkRow(bookmarks[1..][j]) == r;
        assert bookmarks[j + 1] == bookmarks[1..][j];
      }
      if exists j :: 0 <= j < |bookmarks| && BookmarkMatches(query, bookmarks[j]) && BookmarkRow(bookmarks[j]) == r {
        var j :| 0 <= j < |bookmarks| && BookmarkMatches(query, bookmarks[j]) && BookmarkRow(bookmarks[j]) == r;
        if j > 0 {
          assert bookmarks[1..][j - 1] == bookmarks[j];
        }
      }
    }
  }

  // ---------------------------------------------------------------------
  // Case-insensitivity
  // ---------------------------------------------------------------------

  /** Changing the letter case of the raw query, the title or the URL does
      not change whether a tab matches. */
  lemma TabMatchIgnoresCase(value: string, value': string, tab: Tab, tab': Tab)
    requires CaseVariants(value, value')
    requires CaseVariants(tab.title, tab'.title) && CaseVariants(tab.url, tab'.url)
    ensures TabMatches(Lower(value), tab) <==> TabMatches(Lower(value'), tab')
  {
    CaseVariantsIff(value, value');
    CaseVariantsIff(tab.title, tab'.title);
    CaseVariantsIff(tab.url, tab'.url);
  }

  /** Changing the letter case of the raw query, the title or the URL does
      not change whether a bookmark matches. */
  lemma BookmarkMatchIgnoresCase(value: string, value': string, b: Bookmark, b': Bookmark)
    requires CaseVariants(value, value')
    requires CaseVariants(b.title, b'.title)
    requires b.url.None? <==> b'.url.None?
    requires b.url.Some? ==> CaseVariants(b.url.value, b'.url.value)
    ensures BookmarkMatches(Lower(value), b) <==> BookmarkMatches(Lower(value'), b')
  {
    CaseVariantsIff(value, value');
    CaseVariantsIff(b.title, b'.title);
    if b.url.Some? {
      CaseVariantsIff(b.url.value, b'.url.value);
    }
  }

  /** The letter case of the typed query has no effect on the rows either
      callback appends. */
  lemma RowsIgnoreQueryCase(value: string, value': string, tabs: seq<Tab>, bookmarks: seq<Bookmark>)
    requires CaseVariants(value, value')
    ensures TabRows(Lower(value), tabs) == TabRows(Lower(value'), tabs)
    ensures BookmarkRows(Lower(value), bookmarks) == BookmarkRows(Lower(value'), bookmarks)
  {
    CaseVariantsIff(value, value');
  }

  // ---------------------------------------------------------------------
  // Bookmarks without a URL
  // ---------------------------------------------------------------------

  /** A bookmark without a URL yields a row, with no link target, exactly
      when its lowercased title contains the query. */
  lemma UrlLessBookmark(query: string, title: string)
    ensures BookmarkRows(query, [Bookmark(title, None)]) ==
            if Contains(Lower(title), query) then [Row(title, None)] else []
  {
    assert [Bookmark(title, None)][1..] == [];
  }

  // ---------------------------------------------------------------------
  // One input event
  // ---------------------------------------------------------------------

  /** A blank-only input is not trimmed: it is a non-empty query and both
      providers are searched for it as it is. */
  lemma BlankInputIsSearched(value: string, tabs: seq<Tab>, bookmarks: seq<Bookmark>)
    requires value != [] && forall i :: 0 <= i < |value| ==> value[i] == ' '
    ensures Lower(value) == value
    ensures AfterInput(value, tabs, bookmarks, true) == TabRows(value, tabs) + BookmarkRows(value, bookmarks)
  {
    LowerFixesNonUpper(value);
  }

  /** Nothing is merged: a URL matched by both a tab and a bookmark is
      shown twice, once per source, tab row first when tabs arrive first. */
  lemma NoMergeByUrl(value: string, tab: Tab, b: Bookmark)
    requires b.url == Some(tab.url)
    requires TabMatches(Lower(value), tab) && BookmarkMatches(Lower(value), b)
    requires value != []
    ensures AfterInput(value, [tab], [b], true) == [TabRow(tab), BookmarkRow(b)]
    ensures TabRow(tab).href == BookmarkRow(b).href == Some(tab.url)
  {
    assert [tab][1..] == [];
    assert [b][1..] == [];
  }
}
