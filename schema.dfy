/** The tables and enumerations of the database, and the effect of its
    `ON DELETE CASCADE` foreign keys on a whole database value. */
module Schema {
  import opened Optional

  datatype CampaignStatus = Draft | Active | Paused | Completed | Inactive

  datatype LeadStatus = Pending | Contacted | Responded | Converted

  /** Column defaults. */
  const DefaultCampaignStatus: CampaignStatus := Draft
  const DefaultLeadStatus: LeadStatus := Pending
  const DefaultLeadCount: int := 0

  /** The enumeration label Postgres stores for a lead status. */
  function LeadStatusName(s: LeadStatus): string {
    match s
    case Pending => "Pending"
    case Contacted => "Contacted"
    case Responded => "Responded"
    case Converted => "Converted"
  }

  /** Reading a text value as a `lead_status`: `None` when it is not one of the labels
      (Postgres then rejects the statement). */
  function ParseLeadStatus(s: string): (r: Option<LeadStatus>)
    ensures forall st :: r == Some(st) <==> LeadStatusName(st) == s
  {
    if s == "Pending" then Some(Pending)
    else if s == "Contacted" then Some(Contacted)
    else if s == "Responded" then Some(Responded)
    else if s == "Converted" then Some(Converted)
    else None
  }

  function CampaignStatusName(s: CampaignStatus): string {
    match s
    case Draft => "Draft"
    case Active => "Active"
    case Paused => "Paused"
    case Completed => "Completed"
    case Inactive => "Inactive"
  }

  function ParseCampaignStatus(s: string): (r: Option<CampaignStatus>)
    ensures forall st :: r == Some(st) <==> CampaignStatusName(st) == s
  {
    if s == "Draft" then Some(Draft)
    else if s == "Active" then Some(Active)
    else if s == "Paused" then Some(Paused)
    else if s == "Completed" then Some(Completed)
    else if s == "Inactive" then Some(Inactive)
    else None
  }

  /** Timestamps are opaque instants; `Option` marks a nullable column. */
  datatype User = User(
    id: string, name: string, email: string, emailVerified: bool,
    image: Option<string>, createdAt: int, updatedAt: int)

  datatype Session = Session(
    id: string, expiresAt: int, token: string, createdAt: int, updatedAt: int,
    ipAddress: Option<string>, userAgent: Option<string>, userId: string)

  datatype Account = Account(
    id: string, accountId: string, providerId: string, userId: string,
    accessToken: Option<string>, refreshToken: Option<string>, idToken: Option<string>,
    accessTokenExpiresAt: Option<int>, refreshTokenExpiresAt: Option<int>,
    scope: Option<string>, password: Option<string>, createdAt: int, updatedAt: int)

  datatype Verification = Verification(
    id: string, identifier: string, value: string, expiresAt: int,
    createdAt: int, updatedAt: int)

  datatype Campaign = Campaign(
    id: int, name: string, userId: string, status: CampaignStatus,
    totalLeads: Option<int>, successfulLeads: Option<int>,
    createdAt: int, updatedAt: int)

  /** One entry of a lead's interaction history (`type` in the stored JSON). */
  datatype Event = Event(date: int, kind: string, description: string)

  /** A row of `leads`. The history column holds a list of events, or is null. */
  datatype Lead = Lead(
    id: int, name: string, email: Option<string>, company: Option<string>,
    campaignId: int, status: LeadStatus, lastContactDate: Option<int>,
    interactionHistory: Option<seq<Event>>, createdAt: int, updatedAt: int)

  datatype Db = Db(
    users: seq<User>, sessions: seq<Session>, accounts: seq<Account>,
    verifications: seq<Verification>, campaigns: seq<Campaign>, leads: seq<Lead>)

  /** `r` is `s` with some elements left out and the others kept in their order:
      some strictly increasing map of positions sends each position of `r` to a
      position of `s` holding the same element. */
  ghost predicate Subsequence<T>(r: seq<T>, s: seq<T>) {
    exists idx: seq<nat> :: IndexMap(idx, r, s)
  }

  /** `idx` sends position `k` of `r` to position `idx[k]` of `s`, increasingly. */
  ghost predicate IndexMap<T>(idx: seq<nat>, r: seq<T>, s: seq<T>) {
    |idx| == |r| &&
    (forall k :: 0 <= k < |r| ==> idx[k] < |s| && r[k] == s[idx[k]]) &&
    (forall k, l :: 0 <= k < l < |r| ==> idx[k] < idx[l])
  }

  /** Every position moved one place on. */
  function Shifted(idx: seq<nat>): (r: seq<nat>)
    ensures |r| == |idx| && forall k :: 0 <= k < |idx| ==> r[k] == idx[k] + 1
  {
    seq(|idx|, k requires 0 <= k < |idx| => idx[k] + 1)
  }

  /** A position map into `s[1..]` moved one place on is a position map into `s`. */
  lemma ShiftedIndexMap<T>(idx: seq<nat>, r: seq<T>, s: seq<T>)
    requires s != [] && IndexMap(idx, r, s[1..])
    ensures IndexMap(Shifted(idx), r, s)
  {
    var moved := Shifted(idx);
    forall k | 0 <= k < |r| ensures moved[k] < |s| && r[k] == s[moved[k]] {
      assert s[1..][idx[k]] == s[idx[k] + 1];
    }
  }

  /** Sending a new first element to position 0 extends a map that starts past it. */
  lemma ConsIndexMap<T>(moved: seq<nat>, rest: seq<T>, s: seq<T>)
    requires s != [] && IndexMap(moved, rest, s)
    requires forall k :: 0 <= k < |moved| ==> moved[k] >= 1
    ensures IndexMap([0] + moved, [s[0]] + rest, s)
  {
    var r, full := [s[0]] + rest, [0] + moved;
    forall k | 1 <= k < |r| ensures r[k] == rest[k - 1] && full[k] == moved[k - 1] {
    }
  }

  lemma SubsequencePrepend<T>(s: seq<T>, rest: seq<T>, keepHead: bool)
    requires s != [] && Subsequence(rest, s[1..])
    ensures Subsequence((if keepHead then [s[0]] else []) + rest, s)
  {
    var idx :| IndexMap(idx, rest, s[1..]);
    ShiftedIndexMap(idx, rest, s);
    if keepHead {
      ConsIndexMap(Shifted(idx), rest, s);
    } else {
      assert [] + rest == rest;
    }
  }

  /** The elements of `s` that satisfy `p`, in order (a `WHERE` or the rows a
      `DELETE` leaves). Each kept element occurs as often as in `s`. */
  function Keep<T(!new)>(s: seq<T>, p: T -> bool): (r: seq<T>)
    ensures |r| <= |s|
    ensures forall x :: x in r <==> x in s && p(x)
    ensures forall x :: multiset(r)[x] == if p(x) then multiset(s)[x] else 0
    ensures Subsequence(r, s)
  {
    if s == [] then
      assert IndexMap([], [], s);
      []
    else
      var rest := Keep(s[1..], p);
      SubsequencePrepend(s, rest, p(s[0]));
      assert s == [s[0]] + s[1..];
      (if p(s[0]) then [s[0]] else []) + rest
  }

  /** No two positions of `s` hold the same key: a primary key or a `unique` column. */
  predicate Distinct<T, K(==)>(s: seq<T>, key: T -> K) {
    forall i, j :: 0 <= i < |s| && 0 <= j < |s| && key(s[i]) == key(s[j]) ==> i == j
  }

  lemma DistinctSubsequence<T, K>(r: seq<T>, s: seq<T>, key: T -> K)
    requires Subsequence(r, s) && Distinct(s, key)
    ensures Distinct(r, key)
  {
    var idx :| IndexMap(idx, r, s);
    forall i, j | 0 <= i < j < |r| ensures key(r[i]) != key(r[j]) {
      assert idx[i] < idx[j] && r[i] == s[idx[i]] && r[j] == s[idx[j]];
    }
  }

  lemma DistinctAppend<T, K>(s: seq<T>, x: T, key: T -> K)
    requires Distinct(s, key) && forall y :: y in s ==> key(y) != key(x)
    ensures Distinct(s + [x], key)
  {
    var r := s + [x];
    forall i | 0 <= i < |s| ensures r[i] == s[i] && key(r[i]) != key(r[|s|]) {
      assert s[i] in s;
    }
  }

  function UserId(u: User): string { u.id }
  function UserEmail(u: User): string { u.email }
  function SessionId(s: Session): string { s.id }
  function SessionToken(s: Session): string { s.token }
  function AccountId(a: Account): string { a.id }
  function VerificationId(v: Verification): string { v.id }
  function CampaignId(c: Campaign): int { c.id }
  function LeadId(l: Lead): int { l.id }

  /** The primary key of `leads`: every value of `id` occurs at most once. */
  predicate UniqueIds(leads: seq<Lead>) {
    forall i, j :: 0 <= i < |leads| && 0 <= j < |leads| && leads[i].id == leads[j].id ==> i == j
  }

  lemma UniqueIdsDistinct(leads: seq<Lead>)
    ensures UniqueIds(leads) <==> Distinct(leads, LeadId)
  {
    assert forall i :: 0 <= i < |leads| ==> LeadId(leads[i]) == leads[i].id;
  }

  predicate UserExists(users: seq<User>, id: string) {
    exists u :: u in users && u.id == id
  }

  predicate CampaignExists(campaigns: seq<Campaign>, id: int) {
    exists c :: c in campaigns && c.id == id
  }

  /** Every foreign key names an existing row. */
  predicate Intact(db: Db) {
    (forall s :: s in db.sessions ==> UserExists(db.users, s.userId)) &&
    (forall a :: a in db.accounts ==> UserExists(db.users, a.userId)) &&
    (forall c :: c in db.campaigns ==> UserExists(db.users, c.userId)) &&
    (forall l :: l in db.leads ==> CampaignExists(db.campaigns, l.campaignId))
  }

  /** Primary keys and the two `unique` columns (user email, session token): no two
      rows of a table share a value. */
  predicate KeysUnique(db: Db) {
    Distinct(db.users, UserId) && Distinct(db.users, UserEmail) &&
    Distinct(db.sessions, SessionId) && Distinct(db.sessions, SessionToken) &&
    Distinct(db.accounts, AccountId) && Distinct(db.verifications, VerificationId) &&
    Distinct(db.campaigns, CampaignId) && UniqueIds(db.leads)
  }

  /** A campaign inserted with only its required columns given. */
  function NewCampaign(id: int, name: string, userId: string, now: int): Campaign {
    Campaign(id, name, userId, DefaultCampaignStatus, Some(DefaultLeadCount), Some(DefaultLeadCount), now, now)
  }

  /** Inserting a campaign that relies on the column defaults keeps every key valid,
      and the new row is a Draft with both lead counters at zero. */
  lemma NewCampaignKeepsIntegrity(db: Db, id: int, name: string, userId: string, now: int)
    requires Intact(db) && KeysUnique(db)
    requires UserExists(db.users, userId) && !CampaignExists(db.campaigns, id)
    ensures var c := NewCampaign(id, name, userId, now);
      var db' := db.(campaigns := db.campaigns + [c]);
      Intact(db') && KeysUnique(db') &&
      c.status == Draft && c.totalLeads == Some(0) && c.successfulLeads == Some(0)
  {
    var c := NewCampaign(id, name, userId, now);
    var db' := db.(campaigns := db.campaigns + [c]);
    DistinctAppend(db.campaigns, c, CampaignId);
    forall l | l in db'.leads ensures CampaignExists(db'.campaigns, l.campaignId) {
      var k :| k in db.campaigns && k.id == l.campaignId;
      assert k in db'.campaigns;
    }
  }

  /** Deleting campaign `id`: its row goes, and the cascade on `leads.campaign_id`
      removes exactly the leads that reference it. */
  function DeleteCampaign(db: Db, id: int): (r: Db)
    ensures forall c :: c in r.campaigns <==> c in db.campaigns && c.id != id
    ensures forall l :: l in r.leads <==> l in db.leads && l.campaignId != id
    ensures r.users == db.users && r.sessions == db.sessions && r.accounts == db.accounts
    ensures r.verifications == db.verifications
    ensures Subsequence(r.campaigns, db.campaigns) && Subsequence(r.leads, db.leads)
  {
    db.(campaigns := Keep(db.campaigns, (c: Campaign) => c.id != id),
        leads := Keep(db.leads, (l: Lead) => l.campaignId != id))
  }

  lemma DeleteCampaignKeepsIntegrity(db: Db, id: int)
    requires Intact(db) && KeysUnique(db)
    ensures Intact(DeleteCampaign(db, id)) && KeysUnique(DeleteCampaign(db, id))
  {
    var r := DeleteCampaign(db, id);
    DistinctSubsequence(r.campaigns, db.campaigns, CampaignId);
    UniqueIdsDistinct(db.leads);
    UniqueIdsDistinct(r.leads);
    DistinctSubsequence(r.leads, db.leads, LeadId);
    forall l | l in r.leads ensures CampaignExists(r.campaigns, l.campaignId) {
      var c :| c in db.campaigns && c.id == l.campaignId;
      assert c in r.campaigns;
    }
  }

  /** Does some campaign with id `campaignId` belong to user `userId`? */
  predicate OwnedBy(campaigns: seq<Campaign>, campaignId: int, userId: string) {
    exists c :: c in campaigns && c.id == campaignId && c.userId == userId
  }

  /** Deleting user `id`: the cascades on `session.userId`, `account.userId` and
      `campaigns.userId` remove that user's sessions, accounts and campaigns, and the
      cascade on `leads.campaign_id` then removes the leads of those campaigns. */
  function DeleteUser(db: Db, id: string): (r: Db)
    ensures forall u :: u in r.users <==> u in db.users && u.id != id
    ensures forall s :: s in r.sessions <==> s in db.sessions && s.userId != id
    ensures forall a :: a in r.accounts <==> a in db.accounts && a.userId != id
    ensures forall c :: c in r.campaigns <==> c in db.campaigns && c.userId != id
    ensures forall l :: l in r.leads <==> l in db.leads && !OwnedBy(db.campaigns, l.campaignId, id)
    ensures r.verifications == db.verifications
    ensures Subsequence(r.users, db.users) && Subsequence(r.sessions, db.sessions)
    ensures Subsequence(r.accounts, db.accounts) && Subsequence(r.campaigns, db.campaigns)
    ensures Subsequence(r.leads, db.leads)
  {
    Db(Keep(db.users, (u: User) => u.id != id),
       Keep(db.sessions, (s: Session) => s.userId != id),
       Keep(db.accounts, (a: Account) => a.userId != id),
       db.verifications,
       Keep(db.campaigns, (c: Campaign) => c.userId != id),
       Keep(db.leads, (l: Lead) => !OwnedBy(db.campaigns, l.campaignId, id)))
  }

  lemma DeleteUserKeepsIntegrity(db: Db, id: string)
    requires Intact(db) && KeysUnique(db)
    ensures Intact(DeleteUser(db, id)) && KeysUnique(DeleteUser(db, id))
  {
    var r := DeleteUser(db, id);
    DistinctSubsequence(r.users, db.users, UserId);
    DistinctSubsequence(r.users, db.users, UserEmail);
    DistinctSubsequence(r.sessions, db.sessions, SessionId);
    DistinctSubsequence(r.sessions, db.sessions, SessionToken);
    DistinctSubsequence(r.accounts, db.accounts, AccountId);
    DistinctSubsequence(r.campaigns, db.campaigns, CampaignId);
    UniqueIdsDistinct(db.leads);
    UniqueIdsDistinct(r.leads);
    DistinctSubsequence(r.leads, db.leads, LeadId);
    forall s | s in r.sessions ensures UserExists(r.users, s.userId) {
      var u :| u in db.users && u.id == s.userId;
      assert u in r.users;
    }
    forall a | a in r.accounts ensures UserExists(r.users, a.userId) {
      var u :| u in db.users && u.id == a.userId;
      assert u in r.users;
    }
    forall c | c in r.campaigns ensures UserExists(r.users, c.userId) {
      var u :| u in db.users && u.id == c.userId;
      assert u in r.users;
    }
    forall l | l in r.leads ensures CampaignExists(r.campaigns, l.campaignId) {
      var c :| c in db.campaigns && c.id == l.campaignId;
      assert c.userId != id;
      assert c in r.campaigns;
    }
  }
}
