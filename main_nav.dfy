/**
 * The category navigation (src/components/main-nav.tsx): one link per category, the
 * link of the page being shown styled as active once the component has mounted, and
 * the shared page-loading flag switched on by a click and off when the path changes.
 */
module MainNav {
  /** A category as the navigation receives it (its banner plays no part here). */
  datatype Category = Category(id: string, name: string)

  /** One rendered link. */
  datatype Route = Route(href: string, text: string, active: bool)

  const CategoryPrefix := "/category/"

  /** `/category/${id}` */
  function Href(id: string): string { CategoryPrefix + id }

  /** Different categories link to different pages. */
  lemma HrefInjective(a: string, b: string)
    ensures Href(a) == Href(b) <==> a == b
  {
    if Href(a) == Href(b) {
      assert a == Href(a)[|CategoryPrefix|..];
      assert b == Href(b)[|CategoryPrefix|..];
    }
  }

  /**
   * `data.map(...)`: one link per category, in the same order, to the category's page,
   * labelled with its name and active exactly when that page is the one shown.
   */
  function Routes(data: seq<Category>, pathname: string): (r: seq<Route>)
    ensures |r| == |data|
    ensures forall i :: 0 <= i < |r| ==> r[i].href == Href(data[i].id) && r[i].text == data[i].name
    ensures forall i :: 0 <= i < |r| ==> (r[i].active <==> pathname == r[i].href)
  {
    seq(|data|, i requires 0 <= i < |data| => Route(Href(data[i].id), data[i].name, pathname == Href(data[i].id)))
  }

  /** Categories with distinct ids never give two active links. */
  lemma AtMostOneActive(data: seq<Category>, pathname: string, i: nat, j: nat)
    requires forall a, b :: 0 <= a < b < |data| ==> data[a].id != data[b].id
    requires i < j < |data|
    ensures !(Routes(data, pathname)[i].active && Routes(data, pathname)[j].active)
  {
    HrefInjective(data[i].id, data[j].id);
  }

  /** Some link is active exactly when the page shown is the page of one of the categories. */
  lemma SomeActiveIffCategoryPage(data: seq<Category>, pathname: string)
    ensures (exists i :: 0 <= i < |data| && Routes(data, pathname)[i].active)
        <==> (exists i :: 0 <= i < |data| && pathname == Href(data[i].id))
  {
    var r := Routes(data, pathname);
    if exists i :: 0 <= i < |data| && pathname == Href(data[i].id) {
      var i :| 0 <= i < |data| && pathname == Href(data[i].id);
      assert r[i].active;
    }
  }

  /** The part of the state the two effects and the click touch: the `prevPath` ref and the shared flag. */
  datatype NavState = NavState(prevPath: string, loading: bool)

  /**
   * The pathname effect: when the path differs from the one recorded, the loading flag
   * goes off and the new path is recorded; otherwise nothing changes.
   */
  function PathEffect(s: NavState, pathname: string): (r: NavState)
    ensures r.prevPath == pathname
    ensures s.prevPath != pathname ==> !r.loading
    ensures s.prevPath == pathname ==> r == s
  {
    if s.prevPath != pathname then NavState(pathname, false) else s
  }

  /** A link click as written: the loading flag goes on whatever the link's target. */
  function ClickAsWritten(s: NavState): (r: NavState)
    ensures r.loading && r.prevPath == s.prevPath
  {
    s.(loading := true)
  }

  /**
   * A click on the link of the page already shown leaves the spinner on until the path
   * next changes: the router stays on the same path, so the effect does not switch the
   * flag off; only a later navigation elsewhere does.
   */
  lemma ActiveLinkClickLeavesSpinnerOn(pathname: string, next: string)
    ensures var before := NavState(pathname, false);
      PathEffect(ClickAsWritten(before), pathname).loading
    ensures var before := NavState(pathname, false);
      next != pathname ==> !PathEffect(PathEffect(ClickAsWritten(before), pathname), next).loading
  {
  }

  /** A link click that switches the flag on only when the link leads to another page. */
  function Click(s: NavState, pathname: string, href: string): (r: NavState)
    ensures r.prevPath == s.prevPath
    ensures href != pathname ==> r.loading
    ensures href == pathname ==> r == s
  {
    if href == pathname then s else s.(loading := true)
  }

  /**
   * With the corrected click, once the router reaches the link's target the flag is
   * exactly what it was before the click: a click never leaves a spinner behind.
   */
  lemma ClickThenArrive(s: NavState, pathname: string, href: string)
    requires s.prevPath == pathname
    ensures PathEffect(Click(s, pathname, href), href).loading == (href == pathname && s.loading)
    ensures !s.loading ==> !PathEffect(Click(s, pathname, href), href).loading
  {
  }

  /** The loading flag shared through the page-loading provider. */
  class LoadingStore {
    var loading: bool

    constructor()
      ensures !loading
    {
      loading := false;
    }
  }

  /** One mounted navigation, with the router's current path. */
  class MainNavView {
    const store: LoadingStore
    var pathname: string
    var prevPath: string
    var mounted: bool

    /** The first render: the ref records the initial path and nothing is styled active yet. */
    constructor(pathname: string, store: LoadingStore)
      ensures this.store == store && this.pathname == pathname && prevPath == pathname && !mounted
    {
      this.store := store;
      this.pathname := pathname;
      prevPath := pathname;
      mounted := false;
    }

    /** The mount effect. */
    method Mount()
      modifies this
      ensures mounted && pathname == old(pathname) && prevPath == old(prevPath)
    {
      mounted := true;
    }

    /** The router reports a path; the pathname effect runs. */
    method OnPathname(p: string)
      modifies this, store
      ensures pathname == p && mounted == old(mounted)
      ensures NavState(prevPath, store.loading) == PathEffect(NavState(old(prevPath), old(store.loading)), p)
    {
      pathname := p;
      if prevPath != p {
        store.loading := false;
        prevPath := p;
      }
    }

    /** A click on the link to `href` (with the corrected rule). */
    method OnRouteClick(href: string)
      modifies store
      ensures NavState(prevPath, store.loading) == Click(NavState(prevPath, old(store.loading)), pathname, href)
    {
      if href != pathname {
        store.loading := true;
      }
    }

    /** Which links are drawn bold: the active one, and only after mount. */
    function Bold(data: seq<Category>): (b: seq<bool>)
      reads this
      ensures |b| == |data|
      ensures forall i :: 0 <= i < |b| ==> (b[i] <==> mounted && pathname == Href(data[i].id))
    {
      var routes := Routes(data, pathname);
      var m := mounted;
      seq(|data|, i requires 0 <= i < |data| => m && routes[i].active)
    }
  }
}
