/** The lead detail sheet: its interaction-history panel, its Update button, and
    the two handlers that write a status change or a contact attempt back through
    the PUT endpoint. The sheet works on the lead it was opened with. */
module LeadDetail {
  import opened Optional
  import opened Schema
  import opened LeadsStore

  const StatusUpdateKind := "Status Update"
  const ContactKind := "Contact Attempt"
  const ContactDescription := "Lead contacted via email"
  const ContactedLabel := "Contacted"
  /** How many history entries the panel shows. */
  const PanelSize: nat := 5

  /** A stored history, or the empty list when the column is null. */
  function StoredHistory(h: Option<seq<Event>>): seq<Event> {
    h.GetOr([])
  }

  function StatusChangeEvent(date: int, from: string, to: string): Event {
    Event(date, StatusUpdateKind, "Status changed from " + from + " to " + to)
  }

  function ContactEvent(date: int): Event {
    Event(date, ContactKind, ContactDescription)
  }

  /** A PUT body that carries only the status. */
  function StatusRequest(id: int, status: string): UpdateRequest {
    UpdateRequest(Some(id), Omitted, Omitted, Omitted, Value(status), None)
  }

  /** A PUT body that carries only the history. */
  function HistoryRequest(id: int, history: seq<Event>): UpdateRequest {
    UpdateRequest(Some(id), Omitted, Omitted, Omitted, Omitted, Some(history))
  }

  /** The PUT body of handleContact: status and history together. */
  function ContactRequest(lead: Lead, date: int): UpdateRequest {
    UpdateRequest(Some(lead.id), Omitted, Omitted, Omitted, Value(ContactedLabel),
                  Some(StoredHistory(lead.interactionHistory) + [ContactEvent(date)]))
  }

  /** The PUTs that handleStatusUpdate sends, in order, when none of them fails: none
      when nothing new is selected, otherwise the status alone and then the history
      alone, the history being the sheet's own copy with the change appended. */
  function StatusUpdatePlan(lead: Lead, selected: string, date: int): (plan: seq<UpdateRequest>)
    ensures plan == [] <==> selected == "" || selected == LeadStatusName(lead.status)
    ensures plan != [] ==> (|plan| == 2 &&
      plan[0] == StatusRequest(lead.id, selected) && plan[1].id == Some(lead.id) &&
      plan[1].name.Omitted? && plan[1].email.Omitted? && plan[1].company.Omitted? &&
      plan[1].status.Omitted? && plan[1].interactionHistory.Some?)
  {
    if selected == "" || selected == LeadStatusName(lead.status) then []
    else
      var history := StoredHistory(lead.interactionHistory) +
        [StatusChangeEvent(date, LeadStatusName(lead.status), selected)];
      [StatusRequest(lead.id, selected), HistoryRequest(lead.id, history)]
  }

  /** The submitted history is the old one with exactly one entry added at the end,
      a "Status Update" that names the old and the new status. */
  lemma StatusChangeAppendsOne(lead: Lead, selected: string, date: int)
    requires StatusUpdatePlan(lead, selected, date) != []
    ensures var sent := StatusUpdatePlan(lead, selected, date)[1].interactionHistory.value;
      var prior := StoredHistory(lead.interactionHistory);
      |sent| == |prior| + 1 && sent[..|prior|] == prior &&
      sent[|prior|].kind == StatusUpdateKind && sent[|prior|].date == date &&
      sent[|prior|].description == "Status changed from " + LeadStatusName(lead.status) + " to " + selected
  {
    var prior := StoredHistory(lead.interactionHistory);
    var sent := StatusUpdatePlan(lead, selected, date)[1].interactionHistory.value;
    assert sent == prior + [StatusChangeEvent(date, LeadStatusName(lead.status), selected)];
    assert sent[..|prior|] == prior;
  }

  /** The Update button's `disabled` expression. */
  predicate UpdateDisabled(selected: string, current: LeadStatus, pending: bool) {
    selected == "" || selected == LeadStatusName(current) || pending
  }

  /** With no request in flight, the button is enabled exactly when the handler
      would send something. */
  lemma UpdateButtonMatchesHandler(lead: Lead, selected: string, date: int)
    ensures !UpdateDisabled(selected, lead.status, false) <==> StatusUpdatePlan(lead, selected, date) != []
    ensures UpdateDisabled(selected, lead.status, true)
  {
  }

  /** The interaction-history card: a placeholder, or the first entries in stored order. */
  datatype HistoryPanel = NoInteractions | Entries(shown: seq<Event>)

  function Panel(history: seq<Event>): (p: HistoryPanel)
    ensures p.NoInteractions? <==> history == []
    ensures p.Entries? ==> |p.shown| == (if |history| < PanelSize then |history| else PanelSize)
    ensures p.Entries? ==> p.shown == history[..|p.shown|]
  {
    if |history| > 0 then Entries(history[..if |history| < PanelSize then |history| else PanelSize])
    else NoInteractions
  }

  /** Entries are appended at the end and the panel shows the first five: a new
      event is shown, as the last entry, exactly when the history held fewer than
      five; once it holds five or more the panel no longer changes. */
  lemma PanelAfterAppend(history: seq<Event>, e: Event)
    ensures |history| < PanelSize ==> Panel(history + [e]) == Entries(history + [e])
    ensures |history| >= PanelSize ==> Panel(history + [e]) == Panel(history)
  {
    if |history| >= PanelSize {
      assert (history + [e])[..PanelSize] == history[..PanelSize];
    } else {
      assert (history + [e])[..|history| + 1] == history + [e];
    }
  }

  /** In a keyed table, the row at index `k` is the one found by its id. */
  lemma FindAt(leads: seq<Lead>, k: int)
    requires UniqueIds(leads) && 0 <= k < |leads|
    ensures FindLead(leads, leads[k].id) == Some(leads[k])
  {
    var l := FindLead(leads, leads[k].id).value;
    var j :| 0 <= j < |leads| && leads[j] == l;
  }

  /** An applicable PUT whose id is that of row `k` answers with the patched row and
      leaves every other row alone. */
  lemma PatchAt(leads: seq<Lead>, req: UpdateRequest, now: int, k: int)
    requires UniqueIds(leads) && 0 <= k < |leads|
    requires Applicable(req) && req.id == Some(leads[k].id)
    ensures UpdateResponse(leads, req, now) == Ok(PatchRow(leads[k], req, now))
    ensures FindLead(AfterUpdate(leads, req, now), leads[k].id) == Some(PatchRow(leads[k], req, now))
    ensures forall i :: 0 <= i < |leads| && leads[i].id != leads[k].id ==> AfterUpdate(leads, req, now)[i] == leads[i]
  {
    FindAt(leads, k);
    var after := AfterUpdate(leads, req, now);
    assert after == Patched(leads, req, now);
    FindAt(after, k);
  }

  /** A status change on a lead that exists, when both PUTs go through: the lead ends
      with the new status, the sheet's history plus the change entry, a last-contact
      date stamped by the first PUT exactly when the new status is "Contacted", and the
      second PUT's update time; its other columns and all other rows are unchanged. */
  lemma StatusUpdateEffect(leads: seq<Lead>, lead: Lead, selected: string, date: int, now1: int, now2: int)
    requires UniqueIds(leads) && lead.id != 0 && FindLead(leads, lead.id).Some?
    requires ParseLeadStatus(selected).Some? && selected != LeadStatusName(lead.status)
    ensures var plan := StatusUpdatePlan(lead, selected, date);
      var mid := AfterUpdate(leads, plan[0], now1);
      var after := AfterUpdate(mid, plan[1], now2);
      var prior := FindLead(leads, lead.id).value;
      UpdateResponse(leads, plan[0], now1).Ok? && UpdateResponse(mid, plan[1], now2).Ok? &&
      |after| == |leads| &&
      (forall i :: 0 <= i < |leads| && leads[i].id != lead.id ==> after[i] == leads[i]) &&
      FindLead(after, lead.id) == Some(prior.(
        status := ParseLeadStatus(selected).value,
        lastContactDate := if selected == ContactedLabel then Some(now1) else prior.lastContactDate,
        interactionHistory := Some(StoredHistory(lead.interactionHistory) +
          [StatusChangeEvent(date, LeadStatusName(lead.status), selected)]),
        updatedAt := now2))
  {
    var plan := StatusUpdatePlan(lead, selected, date);
    var prior := FindLead(leads, lead.id).value;
    var k :| 0 <= k < |leads| && leads[k] == prior;
    UpdateRules(leads, plan[0], now1);
    var mid := AfterUpdate(leads, plan[0], now1);
    FindAt(mid, k);
    UpdateRules(mid, plan[1], now2);
    var after := AfterUpdate(mid, plan[1], now2);
    FindAt(after, k);
  }

  /** A contact attempt on a lead that exists: one PUT that sets the status to
      "Contacted", stamps the last-contact date, and appends a "Contact Attempt"
      entry to the sheet's history. */
  lemma {:induction false} ContactEffect(leads: seq<Lead>, lead: Lead, date: int, now: int)
    requires UniqueIds(leads) && lead.id != 0 && FindLead(leads, lead.id).Some?
    ensures var after := AfterUpdate(leads, ContactRequest(lead, date), now);
      var prior := FindLead(leads, lead.id).value;
      UpdateResponse(leads, ContactRequest(lead, date), now).Ok? &&
      (forall i :: 0 <= i < |leads| && leads[i].id != lead.id ==> after[i] == leads[i]) &&
      FindLead(after, lead.id) == Some(prior.(
        status := Contacted,
        lastContactDate := Some(now),
        interactionHistory := Some(StoredHistory(lead.interactionHistory) + [ContactEvent(date)]),
        updatedAt := now))
  {
    var req := ContactRequest(lead, date);
    var prior := FindLead(leads, lead.id).value;
    var k :| 0 <= k < |leads| && leads[k] == prior;
    assert ParseLeadStatus(ContactedLabel) == Some(Contacted) by {
      assert LeadStatusName(Contacted) == ContactedLabel;
    }
    PatchAt(leads, req, now, k);
  }

  /** The sheet opened on `lead`, with the status selected in its drop-down. */
  class DetailSheet {
    const lead: Lead
    var selected: string

    constructor (lead: Lead)
      ensures this.lead == lead && selected == ""
    {
      this.lead := lead;
      selected := "";
    }

    /** The drop-down offers the four status labels. */
    method Choose(status: LeadStatus)
      modifies this`selected
      ensures selected == LeadStatusName(status)
    {
      selected := LeadStatusName(status);
    }

    /** handleStatusUpdate. `date` is the client clock for the history entry, `now1` and
        `now2` the server clock of the two PUTs. A failed PUT ends the handler. */
    method HandleStatusUpdate(store: LeadTable, date: int, now1: int, now2: int) returns (sent: seq<UpdateRequest>)
      requires store.Valid()
      modifies this`selected, store`leads
      ensures store.Valid()
      ensures var plan := StatusUpdatePlan(lead, old(selected), date);
        |sent| <= |plan| && sent == plan[..|sent|] &&
        (plan != [] ==> |sent| >= 1) &&
        (|sent| == 2 <==> plan != [] && UpdateResponse(old(store.leads), plan[0], now1).Ok?)
      ensures var plan := StatusUpdatePlan(lead, old(selected), date);
        (sent == [] ==> store.leads == old(store.leads) && selected == old(selected)) &&
        (|sent| == 1 ==> store.leads == old(store.leads) && selected == old(selected))
      ensures |sent| == 2 ==>
        var plan := StatusUpdatePlan(lead, old(selected), date);
        var mid := AfterUpdate(old(store.leads), plan[0], now1);
        store.leads == AfterUpdate(mid, plan[1], now2) &&
        selected == (if UpdateResponse(mid, plan[1], now2).Ok? then "" else old(selected))
    {
      var plan := StatusUpdatePlan(lead, selected, date);
      if plan == [] {
        return [];
      }
      var first := store.Update(plan[0], now1);
      sent := [plan[0]];
      if !first.Ok? {
        return;
      }
      var second := store.Update(plan[1], now2);
      sent := plan;
      if second.Ok? {
        selected := "";
      }
    }

    /** handleContact: one PUT with the status and the history together. */
    method HandleContact(store: LeadTable, date: int, now: int) returns (sent: seq<UpdateRequest>)
      requires store.Valid()
      modifies store`leads
      ensures store.Valid()
      ensures sent == [ContactRequest(lead, date)]
      ensures store.leads == AfterUpdate(old(store.leads), ContactRequest(lead, date), now)
    {
      var req := ContactRequest(lead, date);
      var _ := store.Update(req, now);
      sent := [req];
    }
  }
}
