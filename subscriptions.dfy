/**
 * The Subscriptions page: the list fetched from the API, the form overlay
 * and its mode, and the handlers that open, edit, submit and close the form
 * or delete a subscription. The API is an oracle: each handler is given the
 * outcome of the requests it makes, and a ghost log records every request
 * sent, in order.
 */
module SubscriptionsPage {
  import opened Wrappers
  import opened Numbers
  import opened Records

  /** null | "add" | "view" | "edit" */
  datatype Mode = Closed | Adding | Viewing | Editing

  /** The keys of formData. */
  datatype Field = Id | Name | Category | Billing | Price | RenewalDate | Status

  /**
   * A value held in formData: text from an input or select, a number taken
   * over from a fetched record or produced by Number(...), or NaN.
   */
  datatype Value = Text(text: string) | Amount(amount: int) | NotANumber

  type Form = map<Field, Value>

  /** The outcome the API gives a request. */
  datatype Reply<T> = Ok(value: T) | Failed

  /** A request sent to the API; the id is the one interpolated into /subscriptions/${id}. */
  datatype Request =
    | List
    | Create(body: Form)
    | Update(id: string, body: Form)
    | Remove(id: string)

  /** Every field of the form is present. */
  predicate Complete(f: Form)
  {
    Id in f && Name in f && Category in f && Billing in f && Price in f && RenewalDate in f && Status in f
  }

  /** emptyForm: billing "Monthly", status "Active", every other field empty text. */
  function EmptyForm(): (f: Form)
    ensures Complete(f)
    ensures f[Billing] == Text("Monthly") && f[Status] == Text("Active")
    ensures f[Id] == f[Name] == f[Category] == f[Price] == f[RenewalDate] == Text("")
    ensures RecordOf(f).None?
  {
    map[
      Id := Text(""), Name := Text(""), Category := Text(""), Billing := Text("Monthly"),
      Price := Text(""), RenewalDate := Text(""), Status := Text("Active")]
  }

  /**
   * The record a form holds, when every field is text except a numeric
   * price, as after openView or openEdit; None otherwise.
   */
  function RecordOf(f: Form): Option<Sub>
  {
    if Complete(f) && f[Id].Text? && f[Name].Text? && f[Category].Text? && f[Billing].Text? &&
       f[Price].Amount? && f[RenewalDate].Text? && f[Status].Text?
    then Some(Sub(f[Id].text, f[Name].text, f[Category].text, f[Billing].text,
                  f[Price].amount, f[RenewalDate].text, f[Status].text))
    else None
  }

  /** A fetched record as formData holds it after openView or openEdit: every field, and nothing lost. */
  function FormOf(s: Sub): (f: Form)
    ensures Complete(f)
    ensures RecordOf(f) == Some(s)
  {
    map[
      Id := Text(s.id), Name := Text(s.name), Category := Text(s.category), Billing := Text(s.billing),
      Price := Amount(s.price), RenewalDate := Text(s.renewalDate), Status := Text(s.status)]
  }

  /** Number(v): a number stays as it is, text is parsed, and anything unparseable is NaN. */
  function Coerce(v: Value): (r: Value)
    ensures !r.Text?
    ensures v.Amount? || v.NotANumber? ==> r == v
    ensures v.Text? ==> (r == NotANumber <==> ParseNumber(v.text).None?)
    ensures forall n :: v == Text(IntText(n)) ==> r == Amount(n)
  {
    if v.Text? then
      assert forall n :: v == Text(IntText(n)) ==> ParseNumber(v.text) == Some(n) by {
        forall n | v == Text(IntText(n)) ensures ParseNumber(v.text) == Some(n) {
          ParseNumberOfIntText(n);
        }
      }
      match ParseNumber(v.text)
      case Some(n) => Amount(n)
      case None => NotANumber
    else v
  }

  /** ${v}: the text of a value interpolated into a request path. */
  function Interpolate(v: Value): (s: string)
    ensures v.Text? ==> s == v.text
    ensures v.Amount? ==> ParseNumber(s) == Some(v.amount)
  {
    match v
    case Text(t) => t
    case Amount(n) => ParseNumberOfIntText(n); IntText(n)
    case NotANumber => "NaN"
  }

  /** { ...formData, price: Number(formData.price) }: the body of a create or update. */
  function Payload(f: Form): (body: Form)
    requires Price in f
    ensures body.Keys == f.Keys
    ensures body[Price] == Coerce(f[Price])
    ensures forall k :: k in f && k != Price ==> body[k] == f[k]
  {
    f[Price := Coerce(f[Price])]
  }

  /** The submit button: shown, with its label, only in add and edit mode. */
  function SubmitLabel(mode: Mode): (caption: Option<string>)
    ensures caption.Some? <==> mode == Adding || mode == Editing
  {
    match mode
    case Adding => Some("Add")
    case Editing => Some("Update")
    case _ => None
  }

  /** The request submitForm makes in a mode: a create in add mode, an update in edit mode, none otherwise. */
  function SaveRequest(mode: Mode, f: Form): (req: Option<Request>)
    requires Price in f && Id in f
    ensures req.Some? <==> SubmitLabel(mode).Some?
    ensures req.Some? ==> !req.value.List? && !req.value.Remove? && Price in req.value.body && !req.value.body[Price].Text?
    ensures mode == Adding ==> req.value.Create? && req.value.body == Payload(f)
    ensures mode == Editing ==> req.value.Update? && req.value.body == Payload(f) && req.value.id == Interpolate(f[Id])
  {
    if mode == Adding then Some(Create(Payload(f)))
    else if mode == Editing then Some(Update(Interpolate(f[Id]), Payload(f)))
    else None
  }

  /** Opening a record for editing and submitting it untouched sends the record back unchanged. */
  lemma UntouchedEditSendsRecord(s: Sub)
    ensures SaveRequest(Editing, FormOf(s)) == Some(Update(s.id, FormOf(s)))
  {
    var f := FormOf(s);
    assert Payload(f) == f;
  }

  function Sent(req: Option<Request>): seq<Request>
  {
    if req.Some? then [req.value] else []
  }

  class Page {
    var subs: seq<Sub>
    var mode: Mode
    var formData: Form
    /** Every request sent to the API so far. */
    ghost var sent: seq<Request>

    ghost predicate Valid()
      reads this
    {
      Complete(formData)
    }

    /** The page as it mounts: empty list, closed form, then the initial fetch. */
    constructor (initial: Reply<seq<Sub>>)
      ensures Valid()
      ensures mode == Closed && formData == EmptyForm()
      ensures subs == (if initial.Ok? then initial.value else [])
      ensures sent == [List]
    {
      subs, mode, formData := [], Closed, EmptyForm();
      sent := [];
      new;
      FetchSubs(initial);
    }

    /** fetchSubs: replaces the list on success and keeps it on failure. */
    method FetchSubs(reply: Reply<seq<Sub>>)
      modifies this
      ensures sent == old(sent) + [List]
      ensures subs == (if reply.Ok? then reply.value else old(subs))
      ensures mode == old(mode) && formData == old(formData)
    {
      sent := sent + [List];
      if reply.Ok? {
        subs := reply.value;
      }
    }

    /** openAdd */
    method OpenAdd()
      modifies this
      ensures Valid()
      ensures mode == Adding && formData == EmptyForm()
      ensures subs == old(subs) && sent == old(sent)
    {
      formData := EmptyForm();
      mode := Adding;
    }

    /** openView */
    method OpenView(s: Sub)
      modifies this
      ensures Valid()
      ensures mode == Viewing && formData == FormOf(s)
      ensures subs == old(subs) && sent == old(sent)
    {
      formData := FormOf(s);
      mode := Viewing;
    }

    /** openEdit */
    method OpenEdit(s: Sub)
      modifies this
      ensures Valid()
      ensures mode == Editing && formData == FormOf(s)
      ensures subs == old(subs) && sent == old(sent)
    {
      formData := FormOf(s);
      mode := Editing;
    }

    /** closeForm: the resulting state does not depend on the mode or form before, so closing twice is closing once. */
    method CloseForm()
      modifies this
      ensures Valid()
      ensures mode == Closed && formData == EmptyForm()
      ensures subs == old(subs) && sent == old(sent)
    {
      mode := Closed;
      formData := EmptyForm();
    }

    /** handleChange: sets one field of the form to the input's text and keeps every other field. */
    method HandleChange(name: Field, value: string)
      requires Valid()
      modifies this
      ensures Valid()
      ensures formData[name] == Text(value)
      ensures forall k :: k != name ==> formData[k] == old(formData)[k]
      ensures mode == old(mode) && subs == old(subs) && sent == old(sent)
    {
      formData := formData[name := Text(value)];
    }

    /**
     * submitForm. In add mode it sends one create, in edit mode one update of
     * the form's id, each with the price made a number; `saved` says whether
     * the API accepted it. On success (and in the other modes, which send
     * nothing) the form closes and the list is fetched again; on failure
     * nothing else happens.
     */
    method SubmitForm(saved: bool, refreshed: Reply<seq<Sub>>)
      requires Valid()
      modifies this
      ensures Valid()
      ensures var req := old(SaveRequest(mode, formData));
        if req.Some? && !saved then
          sent == old(sent) + [req.value] &&
          mode == old(mode) && formData == old(formData) && subs == old(subs)
        else
          sent == old(sent) + Sent(req) + [List] &&
          mode == Closed && formData == EmptyForm() &&
          subs == (if refreshed.Ok? then refreshed.value else old(subs))
    {
      if mode == Adding {
        sent := sent + [Create(Payload(formData))];
        if !saved { return; }
      }
      if mode == Editing {
        sent := sent + [Update(Interpolate(formData[Id]), Payload(formData))];
        if !saved { return; }
      }
      CloseForm();
      FetchSubs(refreshed);
    }

    /**
     * deleteSub. Without the user's confirmation nothing is sent and nothing
     * changes; otherwise one delete is sent, and only if the API accepts it
     * is the list fetched again.
     */
    method DeleteSub(id: string, confirmed: bool, deleted: bool, refreshed: Reply<seq<Sub>>)
      modifies this
      ensures mode == old(mode) && formData == old(formData)
      ensures !confirmed ==> sent == old(sent) && subs == old(subs)
      ensures confirmed && !deleted ==> sent == old(sent) + [Remove(id)] && subs == old(subs)
      ensures confirmed && deleted ==>
        sent == old(sent) + [Remove(id), List] &&
        subs == (if refreshed.Ok? then refreshed.value else old(subs))
    {
      if !confirmed { return; }
      sent := sent + [Remove(id)];
      if deleted {
        FetchSubs(refreshed);
      }
    }
  }
}
