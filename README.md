# Blog front-end: route guard, HTTP envelope, theme store and public queries

A Dafny model of the decision logic of a single-page blog front-end (a Vue
application with vue-router, axios and Pinia):

- `router.dfy` (module `Router`): the static route table — the public layout
  at `/` with `home` and `articleDetail`, the standalone `/login`, and the
  `/admin` record flagged `meta.requiresAuth` with its four children — as an
  immutable tree of `RouteRecord` values, and the global `beforeEach` guard as
  a function from the target's matched record chain and the stored
  `Authorization` token to the single argument it passes to `next`.
- `request.dfy` (module `Request`): the axios interceptors. The request
  interceptor is a method that updates the header map of a `RequestConfig`
  object in place; the response interceptors are functions classifying the
  backend's `{code, message, data}` envelope into a promise `Settlement`.
- `theme.dfy` (module `ThemeStore`): the theme store as a class whose fields
  are the `theme` ref, the class set of the document root and the contents of
  `localStorage`; the watch effect is an explicit step run by the constructor
  (`immediate: true`) and after every change of the ref.
- `public_api.dfy` (module `PublicApi`): the list query, which merges default
  parameters with the caller's under object-spread override, and the detail
  URL built from an article id.
- `js.dfy` (module `Js`) and `storage.dfy` (module `WebStorage`): the
  JavaScript semantics these rely on — truthiness, `||`, property access that
  throws on `null`/`undefined`, optional chaining — and `localStorage` as a
  string map.

`localStorage` and the DOM are parameters and fields, not ambient state: the
guard and the request interceptor take the storage map as an argument, which
also makes explicit that the login state is read afresh on every call.

The code has none of the following, so neither does the model:

- A guard rule sending a logged-in user away from `/login`; that navigation
  proceeds (`Router.LoginRedirectSettles`).
- A catch-all not-found route, or category, tag, about or search pages; only
  the records declared in `src/router/index.js` are modelled.
- Unwrapping of the envelope: a successful response resolves with the whole
  body `{code, message, data}`, not with its `data` field
  (`Request.ResponseNeverUnwraps`).

## Model

| member | source | states |
|---|---|---|
| `Router.SomeRequiresAuth` | src/router/index.js:96 | `to.matched.some(record => record.meta.requiresAuth)` holds exactly when some record of the chain carries a truthy `requiresAuth` flag |
| `Router.BeforeEach` | src/router/index.js:92-111 | every navigation gets exactly one decision, which is either proceed or a redirect to the route named `login`; it redirects exactly when some matched record requires auth and the stored token is falsy |
| `Router.GuardDecisionTable` | src/router/index.js:96-110 | the three branches: auth required and logged out redirects to `login`; auth required and logged in proceeds; no auth required proceeds whatever the login state |
| `Router.GuardIgnoresOrigin` | src/router/index.js:92-111 | the decision does not depend on the origin location nor on anything in storage but the login state, so a repeated navigation in the same login state gets the same decision |
| `WebStorage.HasToken` | src/router/index.js:93 | logged in means the `Authorization` key is present with a non-empty value; a missing key or an empty string is logged out |
| `Router.MatchedChains` | src/router/index.js:7-83 | every matched chain of the table is a top-level record, or `/` or `/admin` followed by one of its own children |
| `Router.RequiresAuthExactlyUnderAdmin` | src/router/index.js:48-82 | a location of the table requires a login exactly when its chain starts at the `/admin` record |
| `Router.AdminChildrenRequireAuth` | src/router/index.js:55-81 | `admin-articles`, `article-publish`, `article-edit` and `admin-categories` are reached only through `/admin` and so inherit its login requirement |
| `Router.GuardOnTable` | src/router/index.js:92-111 | on any location of the table the guard redirects to `login` exactly when the location is under `/admin` and the token is falsy, and proceeds otherwise, including `/login` and the public pages |
| `Router.TableNames` | src/router/index.js:17-80 | the route names, in declaration order, are the eight declared ones and are pairwise distinct |
| `Router.ChainTo` | src/router/index.js:52 | resolving a route name yields a valid matched chain of the table ending at the record with that name, and succeeds exactly when the name is declared |
| `Router.AdminRedirect` | src/router/index.js:48-55 | `/admin` redirects to the route named `admin-articles`, whose location is `/admin/articles` and which still requires a login |
| `Router.ChainToAdminArticles` | src/router/index.js:55-60 | the name `admin-articles` resolves to the first child of `/admin` |
| `Router.LoginRedirectSettles` | src/router/index.js:42-47 | the name `login` resolves to `/login`, which the guard lets through in every login state, so the redirect does not loop |
| `Router.LoginScenario` | src/router/index.js:96-106 | logged out, `/admin/categories` goes to `login`; after a non-empty token is stored the same navigation proceeds |
| `WebStorage.GetItem` | src/stores/theme.js:7 | `localStorage.getItem` gives the stored string, or `null` exactly when the key is absent |
| `WebStorage.SetItem` | src/stores/theme.js:21 | `localStorage.setItem` stores the value under the key and leaves every other key unchanged |
| `Request.OnRequest` | src/utils/request.js:15-25 | with a truthy stored token the `Authorization` header is set to exactly that token; otherwise the headers are unchanged; the same config object is returned |
| `Request.OnRequestError` | src/utils/request.js:27-30 | a request-setup error is rejected unchanged |
| `Request.OnResponse` | src/utils/request.js:36-50 | a nullish response or body rejects with a TypeError; otherwise the promise fulfils with the body exactly when its `code` is the number 0 and rejects with that same body otherwise |
| `Request.EnvelopeClassification` | src/utils/request.js:41-49 | an envelope fulfils exactly when its `code` is the number 0, with the envelope itself; any other code rejects with the envelope |
| `Request.ResponseNeverUnwraps` | src/utils/request.js:36-50 | whatever the body, the interceptor settles with the body itself (fulfilled or rejected), and only a null or undefined body makes it reject with a TypeError |
| `Request.LooseZerosReject` | src/utils/request.js:41 | the comparison is strict: a code of `"0"`, `false` or no code at all rejects |
| `Request.OnResponseError` | src/utils/request.js:51-60 | a transport or HTTP error is rejected with the original error object, unchanged |
| `Request.ReportedMessage` | src/utils/request.js:54 | evaluating the message throws exactly when the error is null or undefined; otherwise it is a truthy server message or `error.message` |
| `Request.ReportedMessagePreference` | src/utils/request.js:54 | the reported message is `error.response.data.message` when that is truthy, otherwise `error.message` |
| `ThemeStore.InitialTheme` | src/stores/theme.js:7 | the initial theme is the stored `theme` value when it is a non-empty string, otherwise `'light'`; it is never empty |
| `ThemeStore.InitialThemeIsOr` | src/stores/theme.js:7 | that choice is JavaScript's logical or of `getItem('theme')` and `'light'` |
| `ThemeStore.Toggled` | src/stores/theme.js:10-12 | `'light'` becomes `'dark'` and every other value becomes `'light'`; the new value always differs from the old |
| `ThemeStore.ToggleTwice` | src/stores/theme.js:11 | two toggles restore the theme exactly when it was `'light'` or `'dark'`; any other stored value ends as `'dark'` |
| `ThemeStore.Store.constructor` | src/stores/theme.js:5-25 | the store starts from the stored theme and runs the effect at once: storage then holds the theme (`'light'` written when nothing was stored), the root has `dark` exactly when the theme is `'dark'`, and no other class changes |
| `ThemeStore.Store.ApplyTheme` | src/stores/theme.js:15-21 | the effect adds `dark` for the dark theme, removes it otherwise, leaves every other class alone and stores the theme |
| `ThemeStore.Store.ToggleTheme` | src/stores/theme.js:10-12 | the theme becomes its toggle, the effect runs, and the root class and stored value stay in step with it |
| `ThemeStore.Store.SetTheme` | src/stores/theme.js:15-27 | assigning the exposed ref runs the effect only when the value changes, and in both cases root class and storage end in step with the theme |
| `PublicApi.PublishedQuery` | src/api/public.js:11-16 | the query has the default keys and the caller's keys and no others; a caller's value wins over the default; other defaults stay |
| `PublicApi.GetPublishedArticles` | src/api/public.js:18-22 | the list request is a GET of `/article` carrying the merged query |
| `PublicApi.NoParamsGivesDefaults` | src/api/public.js:11-16 | with no parameters (undefined, null or empty) the query is exactly `{status: 0, sortBy: 'create_time', order: 'desc'}` |
| `PublicApi.CallerOverridesDefaults` | src/api/public.js:15 | a caller's `status` replaces the default and a paging key is passed through |
| `PublicApi.GetArticleDetailById` | src/api/public.js:30-35 | the detail request is a GET, without query, of `/article/` followed by the id's text |
| `PublicApi.IdText` | src/api/public.js:33 | the id's text in the template: a string id verbatim; a non-negative number as decimal digits reading back as it; a negative one as `-` followed by the digits of its magnitude |
| `PublicApi.DecimalRoundTrip` | src/api/public.js:33 | a numeric id is written as a non-empty string of decimal digits, without a leading zero, that reads back as the same number |
| `PublicApi.NumericIdRoundTrip` | src/api/public.js:33 | the id segment of the detail URL of a numeric id reads back as that id |
| `PublicApi.DetailUrlExample` | src/api/public.js:33 | id `42` gives `/article/42` and id `"7"` gives `/article/7` |
| `ThemeStore.ThemeScenario` | src/stores/theme.js:5-27 | started with nothing stored and toggled twice, the store ends light, with storage holding only `theme: 'light'` and the root holding its other classes without `dark` |

## Left out

- vue-router itself: path matching, `createWebHistory`, lazy `import()` of
  components and the binding of path parameters to props. The guard takes the
  matched chain as input; `IsMatchedChain` says which chains the table can
  produce, and `ChainTo` resolves route names for `redirect` and `next({ name })`.
- Route resolution order of a redirect: the model states that `/admin`'s
  redirect target still requires a login, not the router's internal order of
  resolving the redirect and running the guard.
- axios transport, the `baseURL` taken from the build environment and the
  10000 ms timeout: I/O and configuration.
- The console output of the interceptors (`console.warn`, `console.error`):
  only the message the error handler computes is modelled (`ReportedMessage`).
- The order of the keys of the list query: a map has none, whereas the spread
  object, and the query string axios writes from it, lists `status`, `sortBy`,
  `order` and then the caller's new keys, an overridden key keeping its
  default's place. Nothing in the modelled code depends on that order.
- Browser `localStorage` and the DOM: replaced by a string map and a set of
  class names; the order of the root's class list is not modelled.
- Vue and Pinia reactivity: the watch is an explicit step after each
  assignment of the ref; that `useThemeStore()` returns one shared store per
  application is not modelled.
- `src/api/admin.js`: one-line calls of the HTTP client with fixed methods and
  paths.
- The built `assets/AboutView-*.js` bundles: markdown and syntax-highlighting
  rendering by third-party libraries.
- JavaScript numbers are reals without `NaN` or infinities; the decimal text of
  an id is modelled for integers only, not for fractions or exponent notation
  of very large numbers; properties inherited from the prototypes of primitive
  values are not modelled, and spreading a string into the list query (which
  would copy its characters under index keys) is taken to copy nothing.
