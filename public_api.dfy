/** The public reading API (src/api/public.js): the article-list query with
    its defaults, and the article-detail URL. A request is described by the
    configuration handed to the HTTP client. */
module PublicApi {
  import opened Js

  /** The configuration given to the HTTP client: `{ url, method, params }`. */
  datatype RequestSpec = RequestSpec(url: string, verb: string, params: Option<map<string, JsValue>>)

  /** The defaults of the list query: published articles (`status` 0), newest first. */
  const DefaultQuery: map<string, JsValue> :=
    map["status" := Num(0.0), "sortBy" := Str("create_time"), "order" := Str("desc")]

  /** The own properties that `...params` copies. Spreading `undefined` or
      `null` copies nothing; primitives are not expected here (see README). */
  function SpreadOf(params: JsValue): map<string, JsValue> {
    if params.Obj? then params.fields else map[]
  }

  /** `{ status: 0, sortBy: 'create_time', order: 'desc', ...params }`: a later
      property overrides an earlier one, so the caller's keys win. */
  function PublishedQuery(params: JsValue): (q: map<string, JsValue>)
    ensures q.Keys == DefaultQuery.Keys + SpreadOf(params).Keys
    ensures forall k :: k in SpreadOf(params) ==> q[k] == SpreadOf(params)[k]
    ensures forall k :: k in DefaultQuery && k !in SpreadOf(params) ==> q[k] == DefaultQuery[k]
  {
    DefaultQuery + SpreadOf(params)
  }

  /** `getPublishedArticles(params)`: a GET of `/article` with the merged query. */
  function GetPublishedArticles(params: JsValue): (r: RequestSpec)
    ensures r.url == "/article" && r.verb == "get"
    ensures r.params == Some(PublishedQuery(params))
  {
    RequestSpec("/article", "get", Some(PublishedQuery(params)))
  }

  lemma NoParamsGivesDefaults()
    ensures GetPublishedArticles(Undefined).params ==
            Some(map["status" := Num(0.0), "sortBy" := Str("create_time"), "order" := Str("desc")])
    ensures PublishedQuery(Null) == DefaultQuery && PublishedQuery(Obj(map[])) == DefaultQuery
  {
    assert DefaultQuery + map[] == DefaultQuery;
  }

  /** Paging keys pass through and a caller's `status` replaces the default one. */
  lemma CallerOverridesDefaults(page: JsValue, status: JsValue)
    ensures PublishedQuery(Obj(map["pageNum" := page, "status" := status])) ==
            map["status" := status, "sortBy" := Str("create_time"), "order" := Str("desc"), "pageNum" := page]
  {
  }

  // ---------------------------------------------------------------------------
  // The detail URL

  /** An article id, a string (as taken from a route parameter) or an integer. */
  datatype ArticleId = TextId(text: string) | NumericId(n: int)

  /** The decimal digits of `n`, as `String(n)` writes a non-negative integer. */
  function Decimal(n: nat): (s: string)
    decreases n
  {
    if n < 10 then [DigitChar(n)] else Decimal(n / 10) + [DigitChar(n % 10)]
  }

  function DigitChar(d: nat): char
    requires d < 10
  {
    "0123456789"[d]
  }

  /** The value of a string of decimal digits. */
  function DecimalValue(s: string): nat
    decreases |s|
  {
    if s == [] then 0
    else DecimalValue(s[..|s| - 1]) * 10 + DigitValue(s[|s| - 1])
  }

  function DigitValue(c: char): nat {
    if '0' <= c <= '9' then (c - '0') as nat else 0
  }

  predicate AllDigits(s: string) {
    forall i :: 0 <= i < |s| ==> '0' <= s[i] <= '9'
  }

  /** `Decimal` writes only digits, with no leading zero, and reading them
      back gives the number. */
  lemma {:induction false} DecimalRoundTrip(n: nat)
    ensures |Decimal(n)| > 0 && AllDigits(Decimal(n))
    ensures n == 0 || Decimal(n)[0] != '0'
    ensures DecimalValue(Decimal(n)) == n
    decreases n
  {
    if n >= 10 {
      DecimalRoundTrip(n / 10);
      var s := Decimal(n);
      assert s[..|s| - 1] == Decimal(n / 10);
      assert DigitValue(s[|s| - 1]) == n % 10;
    }
  }

  /** The template `${id}`: the text of a string id, the decimal form of a number. */
  function IdText(id: ArticleId): (s: string)
    ensures id.TextId? ==> s == id.text
    ensures id.NumericId? && id.n >= 0 ==> |s| > 0 && AllDigits(s) && DecimalValue(s) == id.n
    ensures id.NumericId? && id.n < 0 ==>
              |s| > 1 && s[0] == '-' && AllDigits(s[1..]) && DecimalValue(s[1..]) == -id.n
  {
    match id
    case TextId(t) => t
    case NumericId(n) =>
      if n < 0 then
        DecimalRoundTrip(-n);
        assert ("-" + Decimal(-n))[1..] == Decimal(-n);
        "-" + Decimal(-n)
      else
        DecimalRoundTrip(n);
        Decimal(n)
  }

  const DetailPrefix: string := "/article/"

  /** `getArticleDetailById(id)`: a GET of `/article/` followed by the id, with no query. */
  function GetArticleDetailById(id: ArticleId): (r: RequestSpec)
    ensures r.verb == "get" && r.params == None
    ensures |r.url| >= |DetailPrefix| && r.url[..|DetailPrefix|] == DetailPrefix
    ensures r.url[|DetailPrefix|..] == IdText(id)
  {
    RequestSpec(DetailPrefix + IdText(id), "get", None)
  }

  /** The id segment of a detail URL, as a backend route `/article/{id}` reads it. */
  function DetailPathId(url: string): Option<string> {
    if |url| >= |DetailPrefix| && url[..|DetailPrefix|] == DetailPrefix then Some(url[|DetailPrefix|..]) else None
  }

  /** A numeric id survives the trip through the URL: the backend reads back
      the same number. */
  lemma NumericIdRoundTrip(n: nat)
    ensures DetailPathId(GetArticleDetailById(NumericId(n)).url) == Some(Decimal(n))
    ensures DecimalValue(DetailPathId(GetArticleDetailById(NumericId(n)).url).value) == n
  {
    DecimalRoundTrip(n);
  }

  lemma DetailUrlExample()
    ensures GetArticleDetailById(NumericId(42)).url == "/article/42"
    ensures GetArticleDetailById(TextId("7")).url == "/article/7"
  {
    assert Decimal(42) == Decimal(4) + ['2'];
  }
}
