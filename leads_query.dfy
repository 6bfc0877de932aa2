/** The GET handler of the leads endpoint: it reads the filters from the query
    string, selects the leads joined with their campaign's name, filters, orders
    by last update (newest first), cuts out one page, and computes the pagination
    figures from a second, count-only pass over the same filter. */
module LeadsQuery {
  import opened Optional
  import opened Schema
  import opened SqlLike
  import opened SearchParams
  import JsNumbers

  /** A selected row: the lead's columns plus `campaigns.name` from the left join
      (null when no campaign has the lead's `campaign_id`). */
  datatype LeadRow = LeadRow(lead: Lead, campaignName: Option<string>)

  /** The filters after parsing; an empty string imposes nothing. */
  datatype ListFilters = ListFilters(search: string, status: string, campaign: string, page: int, limit: int)

  /** The part of the filters that forms the WHERE clause. */
  datatype Condition = Condition(search: string, status: string, campaign: string)

  function ConditionOf(f: ListFilters): Condition {
    Condition(f.search, f.status, f.campaign)
  }

  datatype Pagination = Pagination(
    page: int, limit: int, total: nat, totalPages: nat, hasNextPage: bool, hasPrevPage: bool)

  datatype ListResponse = Listed(data: seq<LeadRow>, pagination: Pagination) | ListFailed(error: string)

  const DefaultPage: int := 1
  const DefaultLimit: int := 50
  const FetchFailed := "Failed to fetch leads"

  function Min(a: int, b: int): int { if a <= b then a else b }
  function Max(a: int, b: int): int { if a >= b then a else b }

  /** How the handler reads its query string. `None` stands for a page or limit that
      `parseInt` turns into NaN, which this model does not follow further. */
  function ParseListParams(ps: seq<Param>): (r: Option<ListFilters>)
    ensures r.Some? ==> r.value.search == StringOr(Get(ps, "search"), "")
    ensures r.Some? ==> r.value.status == StringOr(Get(ps, "status"), "")
    ensures r.Some? ==> r.value.campaign == StringOr(Get(ps, "campaign"), "")
    ensures StringOr(Get(ps, "page"), "") == "" && r.Some? ==> r.value.page == DefaultPage
    ensures StringOr(Get(ps, "limit"), "") == "" && r.Some? ==> r.value.limit == DefaultLimit
    ensures StringOr(Get(ps, "page"), "") == "" && StringOr(Get(ps, "limit"), "") == "" ==> r.Some?
    ensures r.None? <==> JsNumbers.ParseInt(StringOr(Get(ps, "page"), "1")).None? ||
                         JsNumbers.ParseInt(StringOr(Get(ps, "limit"), "50")).None?
  {
    JsNumbers.ParseIntOfToString(DefaultPage);
    JsNumbers.ParseIntOfToString(DefaultLimit);
    assert JsNumbers.IntToString(DefaultPage) == "1";
    assert JsNumbers.IntToString(DefaultLimit) == "50";
    var page := JsNumbers.ParseInt(StringOr(Get(ps, "page"), "1"));
    var limit := JsNumbers.ParseInt(StringOr(Get(ps, "limit"), "50"));
    if page.None? || limit.None? then None
    else Some(ListFilters(
      StringOr(Get(ps, "search"), ""), StringOr(Get(ps, "status"), ""),
      StringOr(Get(ps, "campaign"), ""), page.value, limit.value))
  }

  /** The name the left join pairs with campaign id `id`. */
  function CampaignName(campaigns: seq<Campaign>, id: int): (r: Option<string>)
    ensures r.None? <==> !CampaignExists(campaigns, id)
    ensures r.Some? ==> exists c :: c in campaigns && c.id == id && c.name == r.value
  {
    if campaigns == [] then None
    else if campaigns[0].id == id then Some(campaigns[0].name)
    else CampaignName(campaigns[1..], id)
  }

  /** `leads LEFT JOIN campaigns ON leads.campaign_id = campaigns.id`, campaign ids
      being a primary key: one row per lead, in table order. */
  function Joined(leads: seq<Lead>, campaigns: seq<Campaign>): (rows: seq<LeadRow>)
    ensures |rows| == |leads|
    ensures forall i :: 0 <= i < |leads| ==> rows[i].lead == leads[i]
    ensures forall i :: 0 <= i < |leads| ==> rows[i].campaignName == CampaignName(campaigns, leads[i].campaignId)
  {
    seq(|leads|, i requires 0 <= i < |leads| => LeadRow(leads[i], CampaignName(campaigns, leads[i].campaignId)))
  }

  /** A nullable column `ILIKE pattern`: NULL never matches. */
  predicate NullableILike(v: Option<string>, pattern: string) {
    v.Some? && ILike(v.value, pattern)
  }

  /** The search condition: `%search%` against name, email, company or campaign name. */
  predicate SearchHit(row: LeadRow, search: string) {
    var pattern := "%" + search + "%";
    ILike(row.lead.name, pattern) || NullableILike(row.lead.email, pattern) ||
    NullableILike(row.lead.company, pattern) || NullableILike(row.campaignName, pattern)
  }

  /** The WHERE clause: the non-empty filters, AND-ed. */
  predicate RowMatches(row: LeadRow, f: Condition) {
    (f.search == "" || SearchHit(row, f.search)) &&
    (f.status == "" || LeadStatusName(row.lead.status) == f.status) &&
    (f.campaign == "" || row.campaignName == Some(f.campaign))
  }

  function Matches(f: Condition): LeadRow -> bool {
    (row: LeadRow) => RowMatches(row, f)
  }

  /** The count query: the number of joined rows that pass the same WHERE clause. */
  function CountMatching(rows: seq<LeadRow>, f: Condition): nat {
    if rows == [] then 0 else (if RowMatches(rows[0], f) then 1 else 0) + CountMatching(rows[1..], f)
  }

  lemma {:induction false} CountMatchingIsSize(rows: seq<LeadRow>, f: Condition)
    ensures CountMatching(rows, f) == |Keep(rows, Matches(f))|
    decreases |rows|
  {
    if rows != [] {
      CountMatchingIsSize(rows[1..], f);
    }
  }

  predicate NewestFirst(rows: seq<LeadRow>) {
    forall i, j :: 0 <= i < j < |rows| ==> rows[i].lead.updatedAt >= rows[j].lead.updatedAt
  }

  /** Places `x` before the first row that is not newer than it. */
  function InsertByUpdate(x: LeadRow, rows: seq<LeadRow>): (r: seq<LeadRow>)
    ensures multiset(r) == multiset(rows) + multiset{x}
  {
    if rows == [] then [x]
    else if x.lead.updatedAt >= rows[0].lead.updatedAt then [x] + rows
    else
      assert rows == [rows[0]] + rows[1..];
      [rows[0]] + InsertByUpdate(x, rows[1..])
  }

  lemma {:induction false} InsertKeepsNewestFirst(x: LeadRow, rows: seq<LeadRow>)
    requires NewestFirst(rows)
    ensures NewestFirst(InsertByUpdate(x, rows))
    decreases |rows|
  {
    if rows != [] && x.lead.updatedAt < rows[0].lead.updatedAt {
      var tail := InsertByUpdate(x, rows[1..]);
      InsertKeepsNewestFirst(x, rows[1..]);
      var r := [rows[0]] + tail;
      forall j | 0 < j < |r| ensures rows[0].lead.updatedAt >= r[j].lead.updatedAt {
        assert r[j] == tail[j - 1];
        assert tail[j - 1] in multiset(tail);
        assert tail[j - 1] == x || tail[j - 1] in multiset(rows[1..]);
        if tail[j - 1] != x {
          var k :| 0 <= k < |rows[1..]| && rows[1..][k] == tail[j - 1];
          assert rows[1..][k] == rows[k + 1];
        }
      }
    }
  }

  /** `ORDER BY updated_at DESC`. Postgres leaves the order of equal timestamps open;
      this model keeps table order among them, and nothing proved depends on that. */
  function OrderByUpdateDesc(rows: seq<LeadRow>): (r: seq<LeadRow>)
    ensures NewestFirst(r)
    ensures multiset(r) == multiset(rows)
  {
    if rows == [] then []
    else
      assert rows == [rows[0]] + rows[1..];
      InsertKeepsNewestFirst(rows[0], OrderByUpdateDesc(rows[1..]));
      InsertByUpdate(rows[0], OrderByUpdateDesc(rows[1..]))
  }

  /** All rows the filters select, in result order, before paging. */
  function Results(leads: seq<Lead>, campaigns: seq<Campaign>, f: Condition): (r: seq<LeadRow>)
    ensures NewestFirst(r)
    ensures forall row :: row in r <==> row in Joined(leads, campaigns) && RowMatches(row, f)
    ensures |r| == CountMatching(Joined(leads, campaigns), f)
    ensures forall row ::
      multiset(r)[row] == if RowMatches(row, f) then multiset(Joined(leads, campaigns))[row] else 0
  {
    var rows := Joined(leads, campaigns);
    var kept := Keep(rows, Matches(f));
    CountMatchingIsSize(rows, f);
    var r := OrderByUpdateDesc(kept);
    assert |r| == |multiset(r)| == |multiset(kept)| == |kept|;
    forall row ensures row in r <==> row in kept {
      assert row in r <==> row in multiset(r);
      assert row in kept <==> row in multiset(kept);
    }
    r
  }

  /** `LIMIT limit OFFSET offset`. */
  function Window(rows: seq<LeadRow>, offset: nat, limit: nat): (r: seq<LeadRow>)
    ensures |r| == Min(limit, Max(0, |rows| - offset))
    ensures forall i :: 0 <= i < |r| ==> r[i] == rows[offset + i]
  {
    if offset >= |rows| then [] else rows[offset..Min(offset + limit, |rows|)]
  }

  lemma WindowKeepsNewestFirst(rows: seq<LeadRow>, offset: nat, limit: nat)
    requires NewestFirst(rows)
    ensures NewestFirst(Window(rows, offset, limit))
  {
    var w := Window(rows, offset, limit);
    forall i, j | 0 <= i < j < |w| ensures w[i].lead.updatedAt >= w[j].lead.updatedAt {
      assert w[i] == rows[offset + i] && w[j] == rows[offset + j];
    }
  }

  /** A window of a newest-first result: at most `limit` rows, newest first, those
      that follow the first `offset`. */
  lemma WindowPage(rows: seq<LeadRow>, offset: nat, limit: nat)
    requires NewestFirst(rows)
    ensures var w := Window(rows, offset, limit);
      |w| <= limit && |w| == Min(limit, Max(0, |rows| - offset)) &&
      (forall i :: 0 <= i < |w| ==> w[i] == rows[offset + i]) &&
      NewestFirst(w)
  {
    WindowKeepsNewestFirst(rows, offset, limit);
  }

  /** `Math.ceil(a / b)` for a natural number and a positive integer. */
  function CeilDiv(a: nat, b: int): (q: nat)
    requires b >= 1
    ensures q * b >= a
    ensures q > 0 ==> (q - 1) * b < a
    ensures q == 0 <==> a == 0
  {
    var q := (a + b - 1) / b;
    assert q * b + (a + b - 1) % b == a + b - 1;
    assert (q - 1) * b == q * b - b;
    q
  }

  lemma MulMonotone(x: int, y: int, c: int)
    requires x <= y && c >= 1
    ensures x * c <= y * c
  {
    assert y * c - x * c == (y - x) * c;
  }

  /** The pagination object: `totalPages` is the least page count that covers
      `total` rows, there is a next page exactly when rows remain after this one,
      and a previous page exactly when this is not the first. */
  function Paginate(page: int, limit: int, total: nat): (p: Pagination)
    requires limit >= 1
    ensures p.page == page && p.limit == limit && p.total == total
    ensures p.totalPages * limit >= total
    ensures p.totalPages > 0 ==> (p.totalPages - 1) * limit < total
    ensures p.totalPages == 0 <==> total == 0
    ensures p.hasNextPage <==> page * limit < total
    ensures p.hasPrevPage <==> page > 1
  {
    var pages := CeilDiv(total, limit);
    assert page < pages ==> page * limit < total by {
      if page < pages { MulMonotone(page, pages - 1, limit); }
    }
    assert page >= pages ==> page * limit >= total by {
      if page >= pages { MulMonotone(pages, page, limit); }
    }
    Pagination(page, limit, total, pages, page < pages, page > 1)
  }

  function Offset(f: ListFilters): (n: nat)
    requires f.page >= 1 && f.limit >= 1
    ensures n == (f.page - 1) * f.limit
  {
    MulMonotone(0, f.page - 1, f.limit);
    (f.page - 1) * f.limit
  }

  /** The GET handler on tables `leads` and `campaigns`. A non-empty status that is not
      one of the `lead_status` labels makes Postgres reject the query. */
  function Query(leads: seq<Lead>, campaigns: seq<Campaign>, f: ListFilters): (r: ListResponse)
    requires f.page >= 1 && f.limit >= 1
    ensures r.ListFailed? <==> f.status != "" && ParseLeadStatus(f.status).None?
    ensures r.ListFailed? ==> r.error == FetchFailed
  {
    if f.status != "" && ParseLeadStatus(f.status).None? then ListFailed(FetchFailed)
    else
      var where := ConditionOf(f);
      var total := CountMatching(Joined(leads, campaigns), where);
      Listed(Window(Results(leads, campaigns, where), Offset(f), f.limit), Paginate(f.page, f.limit, total))
  }

  /** Every returned row is a lead of the table, joined with its own campaign's
      name, and satisfies each non-empty filter. */
  lemma QueryRowsMatch(leads: seq<Lead>, campaigns: seq<Campaign>, f: ListFilters, row: LeadRow)
    requires f.page >= 1 && f.limit >= 1
    requires Query(leads, campaigns, f).Listed? && row in Query(leads, campaigns, f).data
    ensures row.lead in leads && row.campaignName == CampaignName(campaigns, row.lead.campaignId)
    ensures f.search != "" ==> SearchHit(row, f.search)
    ensures f.status != "" ==> LeadStatusName(row.lead.status) == f.status
    ensures f.campaign != "" ==> row.campaignName == Some(f.campaign)
  {
    var all := Results(leads, campaigns, ConditionOf(f));
    var data := Query(leads, campaigns, f).data;
    var i :| 0 <= i < |data| && data[i] == row;
    assert row == all[Offset(f) + i];
    assert row in all;
    var rows := Joined(leads, campaigns);
    var j :| 0 <= j < |rows| && rows[j] == row;
    assert rows[j].lead == leads[j];
  }

  lemma QueryData(leads: seq<Lead>, campaigns: seq<Campaign>, f: ListFilters)
    requires f.page >= 1 && f.limit >= 1
    requires Query(leads, campaigns, f).Listed?
    ensures Query(leads, campaigns, f).data == Window(Results(leads, campaigns, ConditionOf(f)), Offset(f), f.limit)
  {
  }

  /** The page holds at most `limit` rows, newest first: those of the full result
      that follow the first `(page-1)*limit`. */
  lemma QueryPage(leads: seq<Lead>, campaigns: seq<Campaign>, f: ListFilters)
    requires f.page >= 1 && f.limit >= 1
    requires Query(leads, campaigns, f).Listed?
    ensures var data := Query(leads, campaigns, f).data;
      var all := Results(leads, campaigns, ConditionOf(f));
      var offset := Offset(f);
      |data| <= f.limit &&
      |data| == Min(f.limit, Max(0, |all| - offset)) &&
      (forall i :: 0 <= i < |data| ==> data[i] == all[offset + i]) &&
      NewestFirst(data)
  {
    QueryData(leads, campaigns, f);
    WindowPage(Results(leads, campaigns, ConditionOf(f)), Offset(f), f.limit);
  }

  /** `total` counts every row the filters select, whatever the page and limit,
      and the pagination figures follow from it. */
  lemma QueryTotal(leads: seq<Lead>, campaigns: seq<Campaign>, f: ListFilters, page: int, limit: int)
    requires f.page >= 1 && f.limit >= 1 && page >= 1 && limit >= 1
    requires Query(leads, campaigns, f).Listed?
    ensures var p := Query(leads, campaigns, f).pagination;
      var g := f.(page := page, limit := limit);
      p.total == |Results(leads, campaigns, ConditionOf(f))| &&
      Query(leads, campaigns, g).Listed? &&
      Query(leads, campaigns, g).pagination.total == p.total &&
      p.totalPages == CeilDiv(p.total, f.limit) &&
      (p.hasNextPage <==> f.page < p.totalPages) &&
      (p.hasPrevPage <==> f.page > 1)
  {
    var p := Query(leads, campaigns, f).pagination;
    var g := f.(page := page, limit := limit);
    assert Results(leads, campaigns, ConditionOf(g)) == Results(leads, campaigns, ConditionOf(f));
  }

  /** The left join: a lead whose campaign row does not exist is still listed, with a
      null campaign name, when no filter excludes it. */
  lemma LeftJoinKeepsOrphans(leads: seq<Lead>, campaigns: seq<Campaign>, f: ListFilters, l: Lead)
    requires l in leads && !CampaignExists(campaigns, l.campaignId)
    requires f.search == "" && f.campaign == "" && (f.status == "" || f.status == LeadStatusName(l.status))
    ensures LeadRow(l, None) in Results(leads, campaigns, ConditionOf(f))
  {
    var rows := Joined(leads, campaigns);
    var i :| 0 <= i < |leads| && leads[i] == l;
    assert rows[i] == LeadRow(l, None);
    assert RowMatches(rows[i], ConditionOf(f));
  }

  /** For a search without LIKE metacharacters, the search condition is ASCII
      case-insensitive substring containment in one of the four text columns. */
  lemma SearchIsSubstring(row: LeadRow, search: string)
    requires WildcardFree(search)
    ensures SearchHit(row, search) <==>
      IsSubstring(Fold(search), Fold(row.lead.name)) ||
      (row.lead.email.Some? && IsSubstring(Fold(search), Fold(row.lead.email.value))) ||
      (row.lead.company.Some? && IsSubstring(Fold(search), Fold(row.lead.company.value))) ||
      (row.campaignName.Some? && IsSubstring(Fold(search), Fold(row.campaignName.value)))
  {
    ContainsPattern(row.lead.name, search);
    if row.lead.email.Some? { ContainsPattern(row.lead.email.value, search); }
    if row.lead.company.Some? { ContainsPattern(row.lead.company.value, search); }
    if row.campaignName.Some? { ContainsPattern(row.campaignName.value, search); }
  }

  /** 120 selected rows, page 2 of 50: rows 51 to 100, three pages, both neighbours. */
  lemma SecondPageOfHundredTwenty(leads: seq<Lead>, campaigns: seq<Campaign>, f: ListFilters)
    requires f.page == 2 && f.limit == 50 && f.status == ""
    requires |Results(leads, campaigns, ConditionOf(f))| == 120
    ensures var r := Query(leads, campaigns, f);
      r.Listed? && r.data == Results(leads, campaigns, ConditionOf(f))[50..100] &&
      r.pagination.totalPages == 3 && r.pagination.hasNextPage && r.pagination.hasPrevPage
  {
    var r := Query(leads, campaigns, f);
    QueryPage(leads, campaigns, f);
    assert |r.data| == 50;
    assert r.data == Results(leads, campaigns, ConditionOf(f))[50..100];
  }
}
