/** The client side of the list query: `fetchLeads` turns a filter object into the
    query string of `GET /api/leads`, setting only the filters that are truthy. */
module UseLeads {
  import opened Optional
  import opened SearchParams
  import JsNumbers
  import LeadsQuery

  /** `LeadsFilters`: every key may be left undefined. */
  datatype LeadsFilters = LeadsFilters(
    search: Option<string>, status: Option<string>, campaign: Option<string>,
    page: Option<int>, limit: Option<int>)

  /** The hook's default argument `{}`. */
  const NoFilters := LeadsFilters(None, None, None, None, None)

  /** The query keys, in the order in which `fetchLeads` sets them. */
  const Keys: seq<string> := ["search", "status", "campaign", "page", "limit"]

  /** JavaScript truthiness of an optional string and an optional number
      (`NaN` is not modelled). */
  predicate TruthyString(s: Option<string>) { s.Some? && s.value != "" }
  predicate TruthyNumber(n: Option<int>) { n.Some? && n.value != 0 }

  /** A page or limit that is a safe integer, or undefined. */
  predicate SafeNumber(n: Option<int>) {
    n.None? || -JsNumbers.MaxSafeInteger <= n.value <= JsNumbers.MaxSafeInteger
  }

  /** The value the key `Keys[r]` should carry in the query string, `None` for a key
      that must stay out of it. */
  function Wanted(f: LeadsFilters, r: nat): (v: Option<string>)
    ensures v.Some? ==> r < |Keys| && v.value != ""
  {
    if r == 0 then (if TruthyString(f.search) then f.search else None)
    else if r == 1 then (if TruthyString(f.status) then f.status else None)
    else if r == 2 then (if TruthyString(f.campaign) then f.campaign else None)
    else if r == 3 then (if TruthyNumber(f.page) then Some(JsNumbers.IntToString(f.page.value)) else None)
    else if r == 4 then (if TruthyNumber(f.limit) then Some(JsNumbers.IntToString(f.limit.value)) else None)
    else None
  }

  /** The query keys are pairwise different. */
  lemma KeysDistinct(a: nat, b: nat)
    requires a < |Keys| && b < |Keys| && a != b
    ensures Keys[a] != Keys[b]
  {
    assert Keys[a][0] != Keys[b][0] || Keys[a][1] != Keys[b][1];
  }

  /** The pair a key contributes: none when its wanted value is `None`. */
  function Entry(key: string, v: Option<string>): seq<Param> {
    if v.Some? then [(key, v.value)] else []
  }

  /** The query string the first `n` keys should produce: their wanted values, one
      pair per key, in key order. */
  function QueryFirst(f: LeadsFilters, n: nat): (ps: seq<Param>)
    requires n <= |Keys|
  {
    if n == 0 then []
    else QueryFirst(f, n - 1) + Entry(Keys[n - 1], Wanted(f, n - 1))
  }

  /** The query string for the whole filter object. */
  function Query(f: LeadsFilters): seq<Param> {
    QueryFirst(f, |Keys|)
  }

  /** Looking a key up in the reference query gives its wanted value. */
  lemma {:induction false} GetQueryFirst(f: LeadsFilters, n: nat, r: nat)
    requires n <= |Keys| && r < |Keys|
    ensures Get(QueryFirst(f, n), Keys[r]) == if r < n then Wanted(f, r) else None
  {
    if n > 0 {
      var prior := QueryFirst(f, n - 1);
      GetQueryFirst(f, n - 1, r);
      if r != n - 1 {
        KeysDistinct(r, n - 1);
      }
      if Wanted(f, n - 1).Some? {
        GetAppend(prior, (Keys[n - 1], Wanted(f, n - 1).value), Keys[r]);
      } else {
        assert QueryFirst(f, n) == prior;
      }
    }
  }

  /** One `if (filters.key) params.set(...)` of the hook, applied to the first `n`
      keys' query: since the key is not there yet, `set` appends it. */
  lemma Step(f: LeadsFilters, n: nat, key: string, value: Option<string>)
    requires n < |Keys| && key == Keys[n] && value == Wanted(f, n)
    ensures QueryFirst(f, n + 1) ==
      if value.Some? then Set(QueryFirst(f, n), key, value.value) else QueryFirst(f, n)
  {
    GetQueryFirst(f, n, n);
    if value.None? {
      assert QueryFirst(f, n + 1) == QueryFirst(f, n) + [];
    }
  }

  /** `fetchLeads`' construction of `URLSearchParams`. */
  method FetchLeadsParams(f: LeadsFilters) returns (params: seq<Param>)
    ensures params == Query(f)
  {
    params := [];
    Step(f, 0, "search", if TruthyString(f.search) then f.search else None);
    if TruthyString(f.search) { params := Set(params, "search", f.search.value); }
    assert params == QueryFirst(f, 1);
    Step(f, 1, "status", if TruthyString(f.status) then f.status else None);
    if TruthyString(f.status) { params := Set(params, "status", f.status.value); }
    assert params == QueryFirst(f, 2);
    Step(f, 2, "campaign", if TruthyString(f.campaign) then f.campaign else None);
    if TruthyString(f.campaign) { params := Set(params, "campaign", f.campaign.value); }
    assert params == QueryFirst(f, 3);
    Step(f, 3, "page", if TruthyNumber(f.page) then Some(JsNumbers.IntToString(f.page.value)) else None);
    if TruthyNumber(f.page) { params := Set(params, "page", JsNumbers.IntToString(f.page.value)); }
    assert params == QueryFirst(f, 4);
    Step(f, 4, "limit", if TruthyNumber(f.limit) then Some(JsNumbers.IntToString(f.limit.value)) else None);
    if TruthyNumber(f.limit) { params := Set(params, "limit", JsNumbers.IntToString(f.limit.value)); }
    assert params == QueryFirst(f, 5);
  }

  /** No key of an empty filter object is wanted. */
  lemma {:induction false} NoFiltersNoPairs(n: nat)
    requires n <= |Keys|
    ensures QueryFirst(NoFilters, n) == []
  {
    if n > 0 {
      NoFiltersNoPairs(n - 1);
    }
  }

  /** With no filters the hook requests `/api/leads?` with an empty query string. */
  lemma NoFiltersEmptyQuery()
    ensures Query(NoFilters) == [] && Serialize(Query(NoFilters)) == ""
  {
    NoFiltersNoPairs(|Keys|);
  }

  /** Each key of the query carries its wanted value. */
  lemma QueryLookups(f: LeadsFilters)
    ensures Get(Query(f), "search") == Wanted(f, 0) && Get(Query(f), "status") == Wanted(f, 1)
    ensures Get(Query(f), "campaign") == Wanted(f, 2) && Get(Query(f), "page") == Wanted(f, 3)
    ensures Get(Query(f), "limit") == Wanted(f, 4)
  {
    GetQueryFirst(f, |Keys|, 0);
    GetQueryFirst(f, |Keys|, 1);
    GetQueryFirst(f, |Keys|, 2);
    GetQueryFirst(f, |Keys|, 3);
    GetQueryFirst(f, |Keys|, 4);
  }

  /** A page or limit goes through `toString` and `parseInt` unchanged, and an absent
      one falls back to the handler's default. */
  lemma NumberRoundTrip(v: Option<string>, n: Option<int>, fallback: string, d: int)
    requires JsNumbers.ParseInt(fallback) == Some(d) && SafeNumber(n)
    requires v == if TruthyNumber(n) then Some(JsNumbers.IntToString(n.value)) else None
    ensures JsNumbers.ParseInt(StringOr(v, fallback)) == Some(if TruthyNumber(n) then n.value else d)
  {
    if TruthyNumber(n) {
      JsNumbers.ParseIntOfToString(n.value);
    }
  }

  lemma ParseDefaults()
    ensures JsNumbers.ParseInt("1") == Some(LeadsQuery.DefaultPage)
    ensures JsNumbers.ParseInt("50") == Some(LeadsQuery.DefaultLimit)
  {
    JsNumbers.ParseIntOfToString(LeadsQuery.DefaultPage);
    JsNumbers.ParseIntOfToString(LeadsQuery.DefaultLimit);
    assert JsNumbers.IntToString(LeadsQuery.DefaultPage) == "1";
    assert JsNumbers.IntToString(LeadsQuery.DefaultLimit) == "50";
  }

  /** Any query string whose five keys carry the wanted values reads back as the
      filters. */
  lemma ParseWanted(f: LeadsFilters, ps: seq<Param>)
    requires Get(ps, "search") == Wanted(f, 0) && Get(ps, "status") == Wanted(f, 1)
    requires Get(ps, "campaign") == Wanted(f, 2) && Get(ps, "page") == Wanted(f, 3)
    requires Get(ps, "limit") == Wanted(f, 4)
    requires SafeNumber(f.page) && SafeNumber(f.limit)
    ensures LeadsQuery.ParseListParams(ps) == Some(LeadsQuery.ListFilters(
      StringOr(f.search, ""), StringOr(f.status, ""), StringOr(f.campaign, ""),
      if TruthyNumber(f.page) then f.page.value else LeadsQuery.DefaultPage,
      if TruthyNumber(f.limit) then f.limit.value else LeadsQuery.DefaultLimit))
  {
    ParseDefaults();
    NumberRoundTrip(Get(ps, "page"), f.page, "1", LeadsQuery.DefaultPage);
    NumberRoundTrip(Get(ps, "limit"), f.limit, "50", LeadsQuery.DefaultLimit);
  }

  /** The query string reads back as the filters: the handler sees every string filter
      that was set (and "" for one that was not), the page and limit that were set
      (safe integers), and its defaults 1 and 50 for the ones that were not. */
  lemma FetchParamsRoundTrip(f: LeadsFilters)
    requires SafeNumber(f.page) && SafeNumber(f.limit)
    ensures LeadsQuery.ParseListParams(Query(f)) == Some(LeadsQuery.ListFilters(
      StringOr(f.search, ""), StringOr(f.status, ""), StringOr(f.campaign, ""),
      if TruthyNumber(f.page) then f.page.value else LeadsQuery.DefaultPage,
      if TruthyNumber(f.limit) then f.limit.value else LeadsQuery.DefaultLimit))
  {
    QueryLookups(f);
    ParseWanted(f, Query(f));
  }
}
