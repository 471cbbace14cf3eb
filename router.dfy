/** The application's route table and its global `beforeEach` navigation guard
    (src/router/index.js). The table is static data; vue-router's own path
    matcher is not modelled: the guard receives the matched record chain of the
    target location, root first, as vue-router hands it over in `to.matched`. */
module Router {
  import opened Js
  import opened WebStorage

  /** What a record renders: the public layout (imported eagerly), a view
      loaded on first use through `import()`, or nothing (a record that only
      groups children and redirects). */
  datatype Component = PublicLayout | LazyView(file: string) | NoComponent

  /** A route record as declared in the table. `path` is relative to the
      parent's path for a child record; `redirect` names the route to go to;
      `props` forwards path parameters as component props. */
  datatype RouteRecord = Route(
    path: string,
    name: Option<string>,
    component: Component,
    props: bool,
    redirect: Option<string>,
    meta: map<string, JsValue>,
    children: seq<RouteRecord>)

  const RequiresAuthKey: string := "requiresAuth"

  // ---------------------------------------------------------------------------
  // The table

  const Home := Route("", Some("home"), LazyView("../views/public/HomeView.vue"), false, None, map[], [])
  const ArticleDetail := Route("article/:id", Some("articleDetail"), LazyView("../views/public/ArticleDetailView.vue"), true, None, map[], [])
  const PublicRoot := Route("/", None, PublicLayout, false, None, map[], [Home, ArticleDetail])

  const Login := Route("/login", Some("login"), LazyView("../views/admin/LoginView.vue"), false, None, map[], [])

  const AdminArticles := Route("articles", Some("admin-articles"), LazyView("../views/admin/ArticleManageView.vue"), false, None, map[], [])
  const ArticlePublish := Route("article/publish", Some("article-publish"), LazyView("../views/admin/ArticleEditView.vue"), false, None, map[], [])
  const ArticleEdit := Route("article/edit/:id", Some("article-edit"), LazyView("../views/admin/ArticleEditView.vue"), true, None, map[], [])
  const AdminCategories := Route("categories", Some("admin-categories"), LazyView("../views/admin/CategoryManageView.vue"), false, None, map[], [])
  const Admin := Route("/admin", Some("admin-dashboard"), NoComponent, false, Some("admin-articles"),
    map[RequiresAuthKey := Bool(true)], [AdminArticles, ArticlePublish, ArticleEdit, AdminCategories])

  /** The `routes` array passed to `createRouter`, in declaration order. */
  const Routes: seq<RouteRecord> := [PublicRoot, Login, Admin]

  // ---------------------------------------------------------------------------
  // Matched chains

  /** `chain` is a root-to-record path through the forest `routes`: its first
      record is a top-level record and each next one is a child of the previous.
      This is the shape of `to.matched` for a location that resolves in `routes`. */
  ghost predicate IsMatchedChain(routes: seq<RouteRecord>, chain: seq<RouteRecord>) {
    && |chain| > 0
    && chain[0] in routes
    && Linked(chain)
  }

  /** Each record of `chain` after the first is a child of the one before it. */
  ghost predicate Linked(chain: seq<RouteRecord>)
    decreases |chain|
  {
    |chain| <= 1 || (chain[1] in chain[0].children && Linked(chain[1..]))
  }

  function Last(chain: seq<RouteRecord>): RouteRecord
    requires |chain| > 0
  {
    chain[|chain| - 1]
  }

  /** `record.meta.requiresAuth`, read for its truthiness. */
  predicate RecordRequiresAuth(record: RouteRecord) {
    RequiresAuthKey in record.meta && Truthy(record.meta[RequiresAuthKey])
  }

  /** `to.matched.some(record => record.meta.requiresAuth)`, evaluated left to right. */
  function SomeRequiresAuth(matched: seq<RouteRecord>): (r: bool)
    ensures r <==> exists i :: 0 <= i < |matched| && RecordRequiresAuth(matched[i])
  {
    if matched == [] then false
    else if RecordRequiresAuth(matched[0]) then true
    else
      var rest := SomeRequiresAuth(matched[1..]);
      assert forall i :: 1 <= i < |matched| ==> matched[i] == matched[1..][i - 1];
      rest
  }

  // ---------------------------------------------------------------------------
  // The guard

  /** A target or origin location of a navigation: its path and matched chain. */
  datatype RouteLocation = RouteLocation(fullPath: string, matched: seq<RouteRecord>)

  /** The argument given to `next`: no argument (let the navigation proceed),
      or a location named by route name (abort it and navigate there). */
  datatype NextCall = Proceed | RedirectToName(name: string)

  /** The `beforeEach` guard. Each branch calls `next` exactly once, so a
      navigation always gets exactly one decision: the value returned here. The
      login state is read from storage at every call, never cached. */
  function BeforeEach(to: RouteLocation, from: RouteLocation, store: Storage): (d: NextCall)
    ensures d == Proceed || d == RedirectToName("login")
    ensures d == RedirectToName("login") <==>
              (exists i :: 0 <= i < |to.matched| && RecordRequiresAuth(to.matched[i])) && !HasToken(store)
  {
    var isLoggedIn := HasToken(store);
    if SomeRequiresAuth(to.matched) then
      if !isLoggedIn then RedirectToName("login") else Proceed
    else
      Proceed
  }

  /** The three rows of the guard's decision table. */
  lemma GuardDecisionTable(to: RouteLocation, from: RouteLocation, store: Storage)
    ensures SomeRequiresAuth(to.matched) && !HasToken(store) ==> BeforeEach(to, from, store) == RedirectToName("login")
    ensures SomeRequiresAuth(to.matched) && HasToken(store) ==> BeforeEach(to, from, store) == Proceed
    ensures !SomeRequiresAuth(to.matched) ==> BeforeEach(to, from, store) == Proceed
  {
  }

  /** The decision never depends on where the navigation comes from, nor on
      anything in storage but whether a token is present; so repeating a
      navigation in the same login state repeats the decision. */
  lemma GuardIgnoresOrigin(to: RouteLocation, from1: RouteLocation, from2: RouteLocation, s1: Storage, s2: Storage)
    requires HasToken(s1) == HasToken(s2)
    ensures BeforeEach(to, from1, s1) == BeforeEach(to, from2, s2)
  {
  }

  // ---------------------------------------------------------------------------
  // Properties of the table

  /** Every matched chain of the table: a top-level record alone, or `/` or
      `/admin` followed by one of its children (no child has children). */
  lemma {:induction false} MatchedChains(chain: seq<RouteRecord>)
    requires IsMatchedChain(Routes, chain)
    ensures |chain| == 1 || |chain| == 2
    ensures |chain| == 2 ==>
              || (chain[0] == PublicRoot && chain[1] in PublicRoot.children)
              || (chain[0] == Admin && chain[1] in Admin.children)
  {
    if |chain| > 1 {
      assert chain[1] in chain[0].children;
      assert chain[1].children == [];
      assert Linked(chain[1..]) && chain[1..][0] == chain[1];
    }
  }

  /** In this table a location needs a login exactly when it lies under
      `/admin`: the flag is set on the `/admin` record only, and every record
      below it has that record in its matched chain. */
  lemma RequiresAuthExactlyUnderAdmin(chain: seq<RouteRecord>)
    requires IsMatchedChain(Routes, chain)
    ensures SomeRequiresAuth(chain) <==> chain[0] == Admin
  {
    MatchedChains(chain);
    assert RecordRequiresAuth(Admin);
  }

  /** Each child of `/admin` is reached only through `/admin`, so it inherits
      the login requirement through its matched chain. */
  lemma AdminChildrenRequireAuth(chain: seq<RouteRecord>)
    requires IsMatchedChain(Routes, chain)
    requires Last(chain).name in {Some("admin-articles"), Some("article-publish"), Some("article-edit"), Some("admin-categories")}
    ensures SomeRequiresAuth(chain)
    ensures chain == [Admin, Last(chain)]
  {
    MatchedChains(chain);
    RequiresAuthExactlyUnderAdmin(chain);
  }

  /** The guard on a real location of the table: logged out, everything under
      `/admin` goes to `login`; logged in, or outside `/admin` (`/login` and the
      public pages included), the navigation proceeds. */
  lemma GuardOnTable(to: RouteLocation, from: RouteLocation, store: Storage)
    requires IsMatchedChain(Routes, to.matched)
    ensures BeforeEach(to, from, store) == RedirectToName("login") <==> to.matched[0] == Admin && !HasToken(store)
    ensures BeforeEach(to, from, store) == Proceed <==> to.matched[0] != Admin || HasToken(store)
  {
    RequiresAuthExactlyUnderAdmin(to.matched);
  }

  // ---------------------------------------------------------------------------
  // Names and redirects

  /** The names of the records of `routes`, in declaration order (parents
      before their children). */
  function Names(routes: seq<RouteRecord>): (ns: seq<string>)
    decreases routes
  {
    if routes == [] then []
    else
      (if routes[0].name.Some? then [routes[0].name.value] else [])
      + Names(routes[0].children) + Names(routes[1..])
  }

  predicate Distinct(ns: seq<string>) {
    forall i, j :: 0 <= i < j < |ns| ==> ns[i] != ns[j]
  }

  lemma TableNames()
    ensures Names(Routes) == ["home", "articleDetail", "login", "admin-dashboard",
                              "admin-articles", "article-publish", "article-edit", "admin-categories"]
    ensures Distinct(Names(Routes))
  {
    assert Names(PublicRoot.children) == ["home", "articleDetail"] by {
      assert Names([ArticleDetail]) == ["articleDetail"];
    }
    assert Names(Admin.children) == ["admin-articles", "article-publish", "article-edit", "admin-categories"] by {
      assert Names([AdminCategories]) == ["admin-categories"];
      assert Names([ArticleEdit, AdminCategories]) == ["article-edit", "admin-categories"];
      assert Names([ArticlePublish, ArticleEdit, AdminCategories]) == ["article-publish", "article-edit", "admin-categories"];
    }
    assert Names([Admin]) == ["admin-dashboard"] + Names(Admin.children);
    assert Names([Login, Admin]) == ["login"] + Names([Admin]);
  }

  /** Finds the record with the given name, depth first in declaration order,
      and returns its matched chain: how `next({ name })` and `redirect: { name }`
      are resolved. */
  function ChainTo(routes: seq<RouteRecord>, name: string): (r: Option<seq<RouteRecord>>)
    decreases routes
    ensures r.Some? ==> IsMatchedChain(routes, r.value) && Last(r.value).name == Some(name)
    ensures r.Some? <==> name in Names(routes)
  {
    if routes == [] then None
    else if routes[0].name == Some(name) then Some([routes[0]])
    else
      match ChainTo(routes[0].children, name)
      case Some(c) =>
        assert ([routes[0]] + c)[1..] == c;
        Some([routes[0]] + c)
      case None =>
        var r := ChainTo(routes[1..], name);
        assert r.Some? ==> r.value[0] in routes;
        r
  }

  /** The absolute path of a matched chain: each child path is joined to its
      parent's with one `/`, and an empty child path denotes the parent itself. */
  function FullPath(chain: seq<RouteRecord>): string
    decreases |chain|
  {
    if chain == [] then ""
    else JoinPath(chain[0].path, FullPath(chain[1..]))
  }

  function JoinPath(parent: string, child: string): string {
    if child == "" then parent
    else if |parent| > 0 && parent[|parent| - 1] == '/' then parent + child
    else parent + "/" + child
  }

  lemma ChainToAdminArticles()
    ensures ChainTo([Admin], "admin-articles") == Some([Admin, AdminArticles])
  {
    assert ChainTo(Admin.children, "admin-articles") == Some([AdminArticles]);
    assert [Admin] + [AdminArticles] == [Admin, AdminArticles];
  }

  /** `/admin` redirects to the route named `admin-articles`, whose location is
      `/admin/articles`; that location still requires a login. */
  lemma AdminRedirect()
    ensures Admin in Routes && Admin.path == "/admin" && Admin.redirect == Some("admin-articles")
    ensures ChainTo(Routes, "admin-articles") == Some([Admin, AdminArticles])
    ensures FullPath([Admin, AdminArticles]) == "/admin/articles"
    ensures SomeRequiresAuth([Admin, AdminArticles])
  {
    TableNames();
    assert ChainTo(PublicRoot.children, "admin-articles") == None;
    ChainToAdminArticles();
    assert ChainTo([Login, Admin], "admin-articles") == Some([Admin, AdminArticles]) by {
      assert [Login, Admin][1..] == [Admin];
    }
    assert Routes[1..] == [Login, Admin];
    assert FullPath([AdminArticles]) == "articles";
  }

  /** The redirect `next({ name: 'login' })` lands on `/login`, which the guard
      lets through whatever the login state: a redirect never loops. */
  lemma LoginRedirectSettles(from: RouteLocation, store: Storage)
    ensures ChainTo(Routes, "login") == Some([Login])
    ensures FullPath([Login]) == "/login"
    ensures BeforeEach(RouteLocation("/login", [Login]), from, store) == Proceed
  {
    assert ChainTo([Login, Admin], "login") == Some([Login]);
    assert ChainTo(PublicRoot.children, "login") == None by {
      assert ChainTo([ArticleDetail], "login") == None;
    }
  }

  /** Logged out, `/admin/categories` goes to `login`; once a token is stored,
      the same navigation proceeds. */
  lemma LoginScenario(from: RouteLocation, token: string)
    requires token != ""
    ensures BeforeEach(RouteLocation("/admin/categories", [Admin, AdminCategories]), from, map[]) == RedirectToName("login")
    ensures BeforeEach(RouteLocation("/admin/categories", [Admin, AdminCategories]), from,
                       SetItem(map[], AuthorizationKey, token)) == Proceed
  {
    assert RecordRequiresAuth([Admin, AdminCategories][0]);
  }
}
