/** The POST and PUT handlers of the leads endpoint, over an in-memory `leads`
    table. `now` is the instant the row is stamped with: the database's
    `defaultNow()` for POST, the server's `new Date()` for PUT. */
module LeadsStore {
  import opened Optional
  import opened Schema

  /** `varchar(255)` on name, email and company. */
  const MaxTextLength: nat := 255

  const NameAndCampaignRequired := "Name and campaign ID are required"
  const CreateFailed := "Failed to create lead"
  const IdRequired := "Lead ID is required"
  const LeadNotFound := "Lead not found"
  const UpdateFailed := "Failed to update lead"

  /** The handler's answer: the row, a 400, a 404, or a 500 (the statement failed). */
  datatype Response<T> = Ok(value: T) | BadRequest(message: string) | NotFound(message: string) | ServerError(message: string)

  /** The POST body. A missing or null key is `None`. */
  datatype CreateRequest = CreateRequest(
    name: Option<string>, email: Option<string>, company: Option<string>,
    campaignId: Option<int>, status: Option<string>)

  /** One key of the PUT body: absent (the column is left as it is), JSON null (the
      column is set to NULL), or a value. */
  datatype Field<T> = Omitted | Null | Value(value: T)

  datatype UpdateRequest = UpdateRequest(
    id: Option<int>, name: Field<string>, email: Field<string>, company: Field<string>,
    status: Field<string>, interactionHistory: Option<seq<Event>>)

  predicate Fits(s: string) {
    |s| <= MaxTextLength
  }

  predicate FitsNullable(s: Option<string>) {
    s.None? || Fits(s.value)
  }

  /** `!name`: a missing or empty name. */
  predicate MissingName(req: CreateRequest) {
    req.name.None? || req.name.value == ""
  }

  /** `!campaignId`: a missing or zero campaign id. */
  predicate MissingCampaign(req: CreateRequest) {
    req.campaignId.None? || req.campaignId.value == 0
  }

  /** `status || "Pending"`. */
  function StatusLabel(req: CreateRequest): string {
    StringOr(req.status, LeadStatusName(DefaultLeadStatus))
  }

  /** Can Postgres store the row the POST builds? The status must be a label, the
      campaign must exist (foreign key), and the text must fit its columns. */
  predicate Insertable(campaigns: seq<Campaign>, req: CreateRequest)
    requires !MissingCampaign(req) && !MissingName(req)
  {
    ParseLeadStatus(StatusLabel(req)).Some? && CampaignExists(campaigns, req.campaignId.value) &&
    Fits(req.name.value) && FitsNullable(req.email) && FitsNullable(req.company)
  }

  /** The answer to a POST when the serial column hands out `id`. */
  function CreateResponse(campaigns: seq<Campaign>, req: CreateRequest, id: int, now: int): (r: Response<Lead>)
    ensures r.BadRequest? <==> MissingName(req) || MissingCampaign(req)
    ensures r.BadRequest? ==> r.message == NameAndCampaignRequired
    ensures r.ServerError? ==> r.message == CreateFailed
    ensures !r.NotFound?
    ensures r.Ok? <==> !MissingName(req) && !MissingCampaign(req) && Insertable(campaigns, req)
    ensures r.Ok? ==> (r.value.id == id && r.value.name == req.name.value &&
      r.value.email == req.email && r.value.company == req.company &&
      r.value.campaignId == req.campaignId.value && CampaignExists(campaigns, r.value.campaignId))
    ensures r.Ok? ==> (req.status.None? || req.status == Some("") ==> r.value.status == Pending)
    ensures r.Ok? && req.status.Some? && req.status.value != "" ==> LeadStatusName(r.value.status) == req.status.value
    ensures r.Ok? ==> r.value.interactionHistory == Some([]) && r.value.lastContactDate.None?
    ensures r.Ok? ==> r.value.createdAt == now && r.value.updatedAt == now
  {
    if MissingName(req) || MissingCampaign(req) then BadRequest(NameAndCampaignRequired)
    else if !Insertable(campaigns, req) then ServerError(CreateFailed)
    else Ok(Lead(id, req.name.value, req.email, req.company, req.campaignId.value,
                 ParseLeadStatus(StatusLabel(req)).value, None, Some([]), now, now))
  }

  /** `!id`: a missing or zero id. */
  predicate MissingId(req: UpdateRequest) {
    req.id.None? || req.id.value == 0
  }

  /** A status that is no `lead_status` label: Postgres rejects the statement while
      binding its parameters, before looking at any row. */
  predicate BadStatusLabel(req: UpdateRequest) {
    req.status.Value? && ParseLeadStatus(req.status.value).None?
  }

  /** Constraints checked on the row being written: name and status are NOT NULL,
      and text must fit its column. */
  predicate RowWritable(req: UpdateRequest) {
    !req.name.Null? && !req.status.Null? &&
    (req.name.Value? ==> Fits(req.name.value)) &&
    (req.email.Value? ==> Fits(req.email.value)) &&
    (req.company.Value? ==> Fits(req.company.value))
  }

  predicate Applicable(req: UpdateRequest) {
    !MissingId(req) && !BadStatusLabel(req) && RowWritable(req)
  }

  /** A nullable column after a PUT key. */
  function Assign(f: Field<string>, current: Option<string>): Option<string> {
    match f
    case Omitted => current
    case Null => None
    case Value(v) => Some(v)
  }

  /** The row an applicable PUT leaves: the supplied keys are written, a status of
      "Contacted" also stamps the last-contact date, and the update time is `now`. */
  function PatchRow(l: Lead, req: UpdateRequest, now: int): (r: Lead)
    requires Applicable(req)
    ensures r.id == l.id && r.campaignId == l.campaignId && r.createdAt == l.createdAt
    ensures r.updatedAt == now
    ensures req.status.Omitted? && req.interactionHistory.None? ==>
      r.status == l.status && r.interactionHistory == l.interactionHistory && r.lastContactDate == l.lastContactDate
    ensures req.status.Value? ==> LeadStatusName(r.status) == req.status.value
  {
    l.(name := if req.name.Value? then req.name.value else l.name,
       email := Assign(req.email, l.email),
       company := Assign(req.company, l.company),
       status := if req.status.Value? then ParseLeadStatus(req.status.value).value else l.status,
       interactionHistory := if req.interactionHistory.Some? then req.interactionHistory else l.interactionHistory,
       lastContactDate := if req.status == Value("Contacted") then Some(now) else l.lastContactDate,
       updatedAt := now)
  }

  /** The row with id `id`, if any. */
  function FindLead(leads: seq<Lead>, id: int): (r: Option<Lead>)
    ensures r.None? <==> forall l :: l in leads ==> l.id != id
    ensures r.Some? ==> r.value in leads && r.value.id == id
  {
    if leads == [] then None
    else if leads[0].id == id then Some(leads[0])
    else FindLead(leads[1..], id)
  }

  /** The answer to a PUT. */
  function UpdateResponse(leads: seq<Lead>, req: UpdateRequest, now: int): (r: Response<Lead>)
    ensures r.BadRequest? <==> MissingId(req)
    ensures r.BadRequest? ==> r.message == IdRequired
    ensures r.NotFound? <==> !MissingId(req) && !BadStatusLabel(req) && FindLead(leads, req.id.value).None?
    ensures r.NotFound? ==> r.message == LeadNotFound
    ensures r.ServerError? ==> r.message == UpdateFailed
    ensures r.Ok? <==> Applicable(req) && FindLead(leads, req.id.value).Some?
  {
    if MissingId(req) then BadRequest(IdRequired)
    else if BadStatusLabel(req) then ServerError(UpdateFailed)
    else match FindLead(leads, req.id.value)
      case None => NotFound(LeadNotFound)
      case Some(l) => if RowWritable(req) then Ok(PatchRow(l, req, now)) else ServerError(UpdateFailed)
  }

  /** `UPDATE leads SET ... WHERE id = req.id` applied to every row. */
  function Patched(leads: seq<Lead>, req: UpdateRequest, now: int): (r: seq<Lead>)
    requires Applicable(req)
    ensures |r| == |leads|
    ensures forall i :: 0 <= i < |leads| ==> r[i].id == leads[i].id && r[i].campaignId == leads[i].campaignId
  {
    seq(|leads|, i requires 0 <= i < |leads| =>
      if leads[i].id == req.id.value then PatchRow(leads[i], req, now) else leads[i])
  }

  /** The table after a PUT: patched when it succeeds, untouched otherwise. */
  function AfterUpdate(leads: seq<Lead>, req: UpdateRequest, now: int): (r: seq<Lead>)
    ensures |r| == |leads|
    ensures forall i :: 0 <= i < |leads| ==> r[i].id == leads[i].id && r[i].campaignId == leads[i].campaignId
    ensures !UpdateResponse(leads, req, now).Ok? ==> r == leads
    ensures UniqueIds(leads) ==> UniqueIds(r)
  {
    if UpdateResponse(leads, req, now).Ok? then Patched(leads, req, now) else leads
  }

  /** The update rules of a successful PUT: the answer is the lead's new row; a key
      left out keeps its column; `lastContactDate` becomes `now` exactly when the status
      sent is "Contacted" and is kept otherwise; `updatedAt` becomes `now`; id, campaign
      and creation time never change; every other row is unchanged. */
  lemma UpdateRules(leads: seq<Lead>, req: UpdateRequest, now: int)
    requires UniqueIds(leads)
    requires UpdateResponse(leads, req, now).Ok?
    ensures var prior := FindLead(leads, req.id.value).value;
      var row := UpdateResponse(leads, req, now).value;
      var after := AfterUpdate(leads, req, now);
      |after| == |leads| &&
      (forall i :: 0 <= i < |leads| && leads[i].id != req.id.value ==> after[i] == leads[i]) &&
      (forall i :: 0 <= i < |leads| && leads[i].id == req.id.value ==> after[i] == row) &&
      row.id == prior.id && row.campaignId == prior.campaignId && row.createdAt == prior.createdAt &&
      row.name == (if req.name.Value? then req.name.value else prior.name) &&
      row.email == (if req.email.Omitted? then prior.email else if req.email.Null? then None else Some(req.email.value)) &&
      row.company == (if req.company.Omitted? then prior.company else if req.company.Null? then None else Some(req.company.value)) &&
      (req.status.Omitted? ==> row.status == prior.status) &&
      (req.status.Value? ==> LeadStatusName(row.status) == req.status.value) &&
      row.interactionHistory == (if req.interactionHistory.Some? then req.interactionHistory else prior.interactionHistory) &&
      (req.status == Value("Contacted") ==> row.lastContactDate == Some(now)) &&
      (req.status != Value("Contacted") ==> row.lastContactDate == prior.lastContactDate) &&
      row.updatedAt == now
  {
    var prior := FindLead(leads, req.id.value).value;
    var after := AfterUpdate(leads, req, now);
    forall i | 0 <= i < |leads| && leads[i].id == req.id.value
      ensures after[i] == PatchRow(prior, req, now)
    {
      var k :| 0 <= k < |leads| && leads[k] == prior;
    }
  }

  /** Sending the same PUT twice at the same instant changes nothing the second time. */
  lemma UpdateIdempotent(leads: seq<Lead>, req: UpdateRequest, now: int)
    requires UpdateResponse(leads, req, now).Ok?
    ensures AfterUpdate(AfterUpdate(leads, req, now), req, now) == AfterUpdate(leads, req, now)
  {
    var once := AfterUpdate(leads, req, now);
    var l := FindLead(leads, req.id.value).value;
    var k :| 0 <= k < |leads| && leads[k] == l;
    assert once[k].id == req.id.value;
    assert FindLead(once, req.id.value).Some?;
  }

  /** The `leads` table, with the campaigns its foreign key refers to and the
      next value of its serial `id` column. */
  class LeadTable {
    var leads: seq<Lead>
    var campaigns: seq<Campaign>
    var nextId: int

    ghost predicate Valid()
      reads this
    {
      nextId >= 1 && UniqueIds(leads) &&
      forall l :: l in leads ==> 1 <= l.id < nextId && CampaignExists(campaigns, l.campaignId)
    }

    constructor (campaigns: seq<Campaign>)
      ensures Valid() && leads == [] && this.campaigns == campaigns && nextId == 1
    {
      leads := [];
      this.campaigns := campaigns;
      nextId := 1;
    }

    /** POST: validate, apply defaults, insert. */
    method Create(req: CreateRequest, now: int) returns (res: Response<Lead>)
      requires Valid()
      modifies this`leads, this`nextId
      ensures Valid()
      ensures res == CreateResponse(campaigns, req, old(nextId), now)
      ensures res.Ok? ==> leads == old(leads) + [res.value] && nextId == old(nextId) + 1
      ensures !res.Ok? ==> leads == old(leads) && nextId == old(nextId)
    {
      res := CreateResponse(campaigns, req, nextId, now);
      if res.Ok? {
        leads := leads + [res.value];
        nextId := nextId + 1;
      }
    }

    /** PUT: validate, find the row, check what would be written, then rewrite the
        matching row in place. */
    method Update(req: UpdateRequest, now: int) returns (res: Response<Lead>)
      requires Valid()
      modifies this`leads
      ensures Valid()
      ensures res == UpdateResponse(old(leads), req, now)
      ensures leads == AfterUpdate(old(leads), req, now)
    {
      if MissingId(req) {
        return BadRequest(IdRequired);
      }
      if BadStatusLabel(req) {
        return ServerError(UpdateFailed);
      }
      var id := req.id.value;
      var found := FindLead(leads, id);
      if found.None? {
        return NotFound(LeadNotFound);
      }
      if !RowWritable(req) {
        return ServerError(UpdateFailed);
      }
      ghost var prior := leads;
      var i := 0;
      while i < |leads|
        invariant 0 <= i <= |leads| == |prior|
        invariant forall k :: 0 <= k < i ==>
          leads[k] == if prior[k].id == id then PatchRow(prior[k], req, now) else prior[k]
        invariant forall k :: i <= k < |leads| ==> leads[k] == prior[k]
      {
        if leads[i].id == id {
          leads := leads[i := PatchRow(leads[i], req, now)];
        }
        i := i + 1;
      }
      assert leads == Patched(prior, req, now);
      res := Ok(PatchRow(found.value, req, now));
    }
  }
}
