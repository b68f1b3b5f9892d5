/**
 * The data shaping of src/services/api.js. The HTTP exchange itself
 * (`fetch`, headers, `response.json()`, logging) is outside the model: each
 * fetch function takes the reply it would have received as a parameter.
 */
module Api {
  import opened Wrappers

  // ---------------------------------------------------------------------
  // Replies and the non-ok status rule

  /** What `await fetch(...)` gives: a rejection, or a response with a status and a parsed body. */
  datatype Reply<T> = NetworkFailure(reason: string) | Response(status: nat, body: T)

  /** `response.ok`: the status is in the range 200-299. */
  predicate IsOk<T>(r: Reply<T>)
    requires r.Response?
    ensures IsOk(r) <==> r.status / 100 == 2
  {
    200 <= r.status <= 299
  }

  /** The three endpoints, named as the error messages name them. */
  datatype Resource = Article | IndustryList | ArticleList

  function Noun(res: Resource): string
  {
    match res
    case Article => "article"
    case IndustryList => "industries"
    case ArticleList => "articles"
  }

  /** What a fetch function throws: the rejection of `fetch`, rethrown, or the status error. */
  datatype ApiError = Rejected(reason: string) | StatusError(resource: Resource, status: nat)

  /** The decimal digits of `n`, as a template literal renders a status code. */
  function Decimal(n: nat): (s: string)
    ensures |s| >= 1
    ensures forall i :: 0 <= i < |s| ==> '0' <= s[i] <= '9'
  {
    if n < 10 then [('0' as int + n) as char]
    else Decimal(n / 10) + [('0' as int + n % 10) as char]
  }

  /** Reads a run of decimal digits back as a number. */
  function DecimalValue(s: string): nat
    requires forall i :: 0 <= i < |s| ==> '0' <= s[i] <= '9'
  {
    if s == [] then 0
    else DecimalValue(s[..|s| - 1]) * 10 + (s[|s| - 1] as int - '0' as int)
  }

  lemma {:induction false} DecimalRoundTrip(n: nat)
    ensures DecimalValue(Decimal(n)) == n
  {
    if n >= 10 {
      var s := Decimal(n);
      assert s[..|s| - 1] == Decimal(n / 10);
      DecimalRoundTrip(n / 10);
    }
  }

  function MessagePrefix(res: Resource): string
  {
    "Failed to fetch " + Noun(res) + ": "
  }

  /** The `message` of the thrown `Error`. */
  function Message(e: ApiError): (m: string)
    ensures e.Rejected? ==> m == e.reason
    ensures e.StatusError? ==>
              |MessagePrefix(e.resource)| < |m| && m[..|MessagePrefix(e.resource)|] == MessagePrefix(e.resource)
  {
    match e
    case Rejected(reason) => reason
    case StatusError(res, status) => MessagePrefix(res) + Decimal(status)
  }

  /** A status error's message names the endpoint and carries the status code, which can be read back. */
  lemma MessageCarriesStatus(res: Resource, status: nat)
    ensures var m := Message(StatusError(res, status));
      |m| > |MessagePrefix(res)| &&
      m[..|MessagePrefix(res)|] == MessagePrefix(res) &&
      (forall i :: |MessagePrefix(res)| <= i < |m| ==> '0' <= m[i] <= '9') &&
      DecimalValue(m[|MessagePrefix(res)|..]) == status
  {
    var m := Message(StatusError(res, status));
    assert m[|MessagePrefix(res)|..] == Decimal(status);
    DecimalRoundTrip(status);
  }

  /**
   * The shared `if (!response.ok) throw ...` step of every fetch function:
   * a rejected fetch is rethrown, a non-ok status becomes an error carrying
   * that status, and only an ok response yields its body.
   */
  function CheckReply<T>(res: Resource, reply: Reply<T>): (r: Result<T, ApiError>)
    ensures r.Ok? <==> reply.Response? && IsOk(reply)
    ensures r.Ok? ==> r.value == reply.body
    ensures reply.Response? && !IsOk(reply) ==> r == Err(StatusError(res, reply.status))
    ensures reply.NetworkFailure? ==> r == Err(Rejected(reply.reason))
  {
    match reply
    case NetworkFailure(reason) => Err(Rejected(reason))
    case Response(status, body) =>
      if 200 <= status <= 299 then Ok(body) else Err(StatusError(res, status))
  }

  /** `fetchArticle(articleId)`: the article body of an ok reply, otherwise an error. */
  function FetchArticle<T>(reply: Reply<T>): (r: Result<T, ApiError>)
    ensures r.Ok? <==> reply.Response? && IsOk(reply)
    ensures reply.Response? && !IsOk(reply) ==> r == Err(StatusError(Article, reply.status))
  {
    CheckReply(Article, reply)
  }

  // ---------------------------------------------------------------------
  // fetchIndustries

  /** One industry record as the selection screen consumes it. */
  datatype Industry = Industry(id: int, name: string, subIndustries: seq<string>)

  /** One own property of the `industries` object: a name and its sub-industry labels. */
  datatype Entry = Entry(name: string, subIndustries: seq<string>)

  /**
   * The parsed body of the industries reply. `industries` is `None` when
   * `data.industries` is missing or falsy; otherwise it lists the object's
   * properties in `Object.keys` order.
   */
  datatype IndustriesBody = IndustriesBody(industries: Option<seq<Entry>>)

  /** Property names of a JavaScript object are distinct. */
  predicate DistinctNames(entries: seq<Entry>)
  {
    forall i, j :: 0 <= i < j < |entries| ==> entries[i].name != entries[j].name
  }

  /** `obj[name]` for an object given as its list of properties. */
  function Lookup(entries: seq<Entry>, name: string): Option<seq<string>>
  {
    if entries == [] then None
    else if entries[0].name == name then Some(entries[0].subIndustries)
    else Lookup(entries[1..], name)
  }

  /** The `.map((name, index) => ...)` step, with `index + 1` counted from `first`. */
  function Number(entries: seq<Entry>, first: int): (r: seq<Industry>)
    ensures |r| == |entries|
    ensures forall i :: 0 <= i < |r| ==>
              r[i].id == first + i && r[i].name == entries[i].name &&
              r[i].subIndustries == entries[i].subIndustries
  {
    if entries == [] then []
    else [Industry(first, entries[0].name, entries[0].subIndustries)] + Number(entries[1..], first + 1)
  }

  /** The transform of lines 59-68: number the properties 1..n, or `[]` without industries. */
  function TransformIndustries(industries: Option<seq<Entry>>): (r: seq<Industry>)
    ensures industries.None? ==> r == []
    ensures industries.Some? ==> |r| == |industries.value|
  {
    match industries
    case None => []
    case Some(entries) => Number(entries, 1)
  }

  /** In an object with distinct names, looking up the i-th name yields the i-th value. */
  lemma {:induction false} LookupAt(entries: seq<Entry>, i: int)
    requires DistinctNames(entries)
    requires 0 <= i < |entries|
    ensures Lookup(entries, entries[i].name) == Some(entries[i].subIndustries)
  {
    if i > 0 {
      assert entries[0].name != entries[i].name;
      assert entries[1..][i - 1] == entries[i];
      LookupAt(entries[1..], i - 1);
    }
  }

  /**
   * One record per key, in key order, with ids exactly 1..n, and each
   * record's sub-industries are the object's value under its name.
   */
  lemma TransformIndustriesRecords(entries: seq<Entry>)
    requires DistinctNames(entries)
    ensures var r := TransformIndustries(Some(entries));
      |r| == |entries| &&
      (forall i :: 0 <= i < |r| ==> r[i].id == i + 1 && r[i].name == entries[i].name) &&
      (forall i :: 0 <= i < |r| ==> Lookup(entries, r[i].name) == Some(r[i].subIndustries))
  {
    var r := TransformIndustries(Some(entries));
    forall i | 0 <= i < |r|
      ensures Lookup(entries, r[i].name) == Some(r[i].subIndustries)
    {
      LookupAt(entries, i);
    }
  }

  /** `fetchIndustries()`: the numbered records of an ok reply, otherwise the error. */
  function FetchIndustries(reply: Reply<IndustriesBody>): (r: Result<seq<Industry>, ApiError>)
    ensures r.Ok? <==> reply.Response? && IsOk(reply)
    ensures reply.Response? && !IsOk(reply) ==> r == Err(StatusError(IndustryList, reply.status))
    ensures r.Ok? && reply.body.industries.None? ==> r.value == []
    ensures r.Ok? && reply.body.industries.Some? ==> |r.value| == |reply.body.industries.value|
  {
    match CheckReply(IndustryList, reply)
    case Err(e) => Err(e)
    case Ok(data) => Ok(TransformIndustries(data.industries))
  }

  // ---------------------------------------------------------------------
  // fetchArticles

  /**
   * The `params` argument of `fetchArticles`; each field is `None` when the
   * property is absent (`undefined`). Only string values are modelled.
   */
  datatype SearchParams = SearchParams(
    industry: Option<string>,
    keyword: Option<string>,
    indiaFocus: Option<string>,
    businessOnly: Option<string>)

  /** `v || fallback` for a string-or-absent `v`: absent and `''` are falsy. */
  function OrElse(v: Option<string>, fallback: string): (r: string)
    ensures v.None? || v.value == "" ==> r == fallback
    ensures v.Some? && v.value != "" ==> r == v.value
    ensures r == "" ==> fallback == ""
  {
    if v.Some? && v.value != "" then v.value else fallback
  }

  /** The entries of the `URLSearchParams` object, in insertion order (before percent-encoding). */
  function SearchQuery(p: SearchParams): (q: seq<(string, string)>)
    ensures |q| == |SearchKeys| && forall i :: 0 <= i < |q| ==> q[i].0 == SearchKeys[i]
  {
    [ ("q", ""),
      ("industry", OrElse(p.industry, "")),
      ("keyword", OrElse(p.keyword, "")),
      ("india_focus", OrElse(p.indiaFocus, "true")),
      ("business_only", OrElse(p.businessOnly, "true")),
      ("page", "1"),
      ("limit", "10"),
      ("sort_by", "published_date"),
      ("sort_order", "desc") ]
  }

  /** `URLSearchParams.get(key)`: the first value stored under `key`. */
  function Get(q: seq<(string, string)>, key: string): Option<string>
  {
    if q == [] then None
    else if q[0].0 == key then Some(q[0].1)
    else Get(q[1..], key)
  }

  /** `get` finds the first entry stored under `key`. */
  lemma {:induction false} GetFirst(q: seq<(string, string)>, key: string, i: int)
    requires 0 <= i < |q| && q[i].0 == key
    requires forall j :: 0 <= j < i ==> q[j].0 != key
    ensures Get(q, key) == Some(q[i].1)
  {
    if i > 0 {
      GetFirst(q[1..], key, i - 1);
    }
  }

  /** The query keys in the order the source lists them. */
  const SearchKeys: seq<string> :=
    ["q", "industry", "keyword", "india_focus", "business_only", "page", "limit", "sort_by", "sort_order"]

  /** The nine query keys are distinct, so `get` on each finds its own entry. */
  lemma SearchQueryKeys(p: SearchParams)
    ensures forall i, j :: 0 <= i < j < |SearchKeys| ==> SearchKeys[i] != SearchKeys[j]
    ensures forall i :: 0 <= i < |SearchKeys| ==> Get(SearchQuery(p), SearchKeys[i]).Some?
  {
    var q := SearchQuery(p);
    forall i | 0 <= i < |SearchKeys|
      ensures Get(q, SearchKeys[i]).Some?
    {
      GetFirst(q, SearchKeys[i], i);
    }
  }

  /**
   * The caller's filters are sent when given and non-empty; otherwise
   * `industry` and `keyword` fall back to `''` and the two flags to `'true'`.
   */
  lemma SearchQueryDefaults(p: SearchParams)
    ensures var q := SearchQuery(p);
      Get(q, "industry") == Some(OrElse(p.industry, "")) &&
      Get(q, "keyword") == Some(OrElse(p.keyword, "")) &&
      Get(q, "india_focus") == Some(OrElse(p.indiaFocus, "true")) &&
      Get(q, "business_only") == Some(OrElse(p.businessOnly, "true"))
    ensures p.indiaFocus.None? ==> Get(SearchQuery(p), "india_focus") == Some("true")
    ensures p.indiaFocus.Some? && p.indiaFocus.value != "" ==>
              Get(SearchQuery(p), "india_focus") == Some(p.indiaFocus.value)
    ensures p.businessOnly.None? ==> Get(SearchQuery(p), "business_only") == Some("true")
    ensures p.businessOnly.Some? && p.businessOnly.value != "" ==>
              Get(SearchQuery(p), "business_only") == Some(p.businessOnly.value)
  {
    var q := SearchQuery(p);
    GetFirst(q, "industry", 1);
    GetFirst(q, "keyword", 2);
    GetFirst(q, "india_focus", 3);
    GetFirst(q, "business_only", 4);
  }

  /** Whatever the parameters, the remaining keys carry their fixed values. */
  lemma SearchQueryFixed(p: SearchParams)
    ensures var q := SearchQuery(p);
      Get(q, "q") == Some("") &&
      Get(q, "page") == Some("1") &&
      Get(q, "limit") == Some("10") &&
      Get(q, "sort_by") == Some("published_date") &&
      Get(q, "sort_order") == Some("desc")
  {
    var q := SearchQuery(p);
    GetFirst(q, "q", 0);
    GetFirst(q, "page", 5);
    GetFirst(q, "limit", 6);
    GetFirst(q, "sort_by", 7);
    GetFirst(q, "sort_order", 8);
  }

  /** `fetchArticles(params)`: the query it sends, and the body of an ok reply or the error. */
  function FetchArticles<T>(p: SearchParams, reply: Reply<T>): (r: (seq<(string, string)>, Result<T, ApiError>))
    ensures r.0 == SearchQuery(p)
    ensures r.1.Ok? <==> reply.Response? && IsOk(reply)
    ensures reply.Response? && !IsOk(reply) ==> r.1 == Err(StatusError(ArticleList, reply.status))
  {
    (SearchQuery(p), CheckReply(ArticleList, reply))
  }
}
