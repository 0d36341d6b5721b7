/** The order form: field values, per-field validation errors, the submission
    flag, and the orchestration of change, submit and delayed reset. */
module OrderForm {
  import opened Wrappers
  import opened OrderIdExtraction
  import opened Toast

  /** The four named inputs of the form. */
  datatype Field = OrderId | OrderLink | Price | Status

  datatype FormData = FormData(orderId: string, orderLink: string, price: string, status: string)
  {
    function Get(k: Field): string {
      match k
      case OrderId => orderId
      case OrderLink => orderLink
      case Price => price
      case Status => status
    }

    /** `{...formData, [name]: value}`. */
    function Set(k: Field, v: string): (r: FormData)
      ensures r.Get(k) == v
      ensures forall j :: j != k ==> r.Get(j) == Get(j)
    {
      match k
      case OrderId => this.(orderId := v)
      case OrderLink => this.(orderLink := v)
      case Price => this.(price := v)
      case Status => this.(status := v)
    }
  }

  /** The values the form starts with and returns to after a submission. */
  const Defaults := FormData("", "", "", "Pending")

  const FormSubmitted: string := "Form submitted successfully"
  const FormCleared: string := "Form cleared"

  /** The notification text for a found order identifier. */
  function FoundMessage(id: string): string {
    "Order " + id + " has been found"
  }

  /** The fixed message shown under an empty field. */
  function ErrorMessage(k: Field): string {
    match k
    case OrderId => "Order ID cannot be empty"
    case OrderLink => "Order Link cannot be empty"
    case Price => "Price cannot be empty"
    case Status => "Status cannot be empty"
  }

  /** The error map `validateForm` builds: a string is falsy exactly when it is
      empty, so a field has an entry exactly when it is empty. */
  function Validate(f: FormData): (r: map<Field, string>)
    ensures forall k :: k in r <==> f.Get(k) == []
    ensures forall k :: k in r ==> r[k] == ErrorMessage(k)
    ensures r == map[] <==> f.orderId != [] && f.orderLink != [] && f.price != [] && f.status != []
  {
    var e0: map<Field, string> := map[];
    var e1 := if f.orderId == [] then e0[OrderId := ErrorMessage(OrderId)] else e0;
    var e2 := if f.orderLink == [] then e1[OrderLink := ErrorMessage(OrderLink)] else e1;
    var e3 := if f.price == [] then e2[Price := ErrorMessage(Price)] else e2;
    var e4 := if f.status == [] then e3[Status := ErrorMessage(Status)] else e3;
    assert f.orderId == [] ==> OrderId in e4;
    e4
  }

  /** The form data after `handleChange(name, value)`: the named field takes the
      value, and a new order link also re-derives the order identifier. */
  function Changed(f: FormData, name: Field, value: string): (r: FormData)
    ensures r.Get(name) == value
    ensures name != OrderLink ==> forall k :: k != name ==> r.Get(k) == f.Get(k)
    ensures name == OrderLink ==> r.orderLink == value && r.orderId == OrderIdFor(value)
    ensures name == OrderLink ==> r.price == f.price && r.status == f.status
  {
    var updated := f.Set(name, value);
    if name == OrderLink then updated.(orderId := OrderIdFor(value)) else updated
  }

  /** The component: its form state, error map and submission flag, the toast
      notifier it drives, and whether the delayed reset of a submission is
      still scheduled. */
  class App {
    var formData: FormData
    var errors: map<Field, string>
    var isSubmitting: bool
    var resetPending: bool
    const toast: ToastNotifier

    /** The order identifier always agrees with the order link (the identifier
        input is disabled, so only a link change or the reset sets it), and the
        submission flag is set exactly while the reset is scheduled. */
    ghost predicate Valid()
      reads this, toast
    {
      && toast.Valid()
      && formData.orderId == OrderIdFor(formData.orderLink)
      && isSubmitting == resetPending
    }

    /** `disabled={isSubmitting}` on the submit button: in a valid state the
        button is disabled exactly while the reset of a submission is scheduled. */
    function SubmitDisabled(): (disabled: bool)
      reads this, toast
      ensures Valid() ==> (disabled <==> resetPending)
    {
      isSubmitting
    }

    constructor ()
      ensures Valid() && fresh(toast)
      ensures formData == Defaults && errors == map[] && !isSubmitting
      ensures toast.State() == Initial
    {
      formData := Defaults;
      errors := map[];
      isSubmitting, resetPending := false, false;
      toast := new ToastNotifier();
      assert Extract("").None?;
    }

    /** `handleChange` for an input event on field `name`. */
    method HandleChange(name: Field, value: string)
      requires Valid() && name != OrderId
      modifies this, toast
      ensures Valid()
      ensures formData == Changed(old(formData), name, value)
      ensures errors == old(errors) && isSubmitting == old(isSubmitting)
      ensures name == OrderLink && Extract(value).Some? ==>
        toast.State() == AfterNotify(old(toast.State()), FoundMessage(Extract(value).value), true)
      ensures !(name == OrderLink && Extract(value).Some?) ==> toast.State() == old(toast.State())
    {
      formData := formData.Set(name, value);
      if name == OrderLink {
        var m := Extract(value);
        if m.Some? {
          formData := formData.(orderId := m.value);
          toast.Notify(FoundMessage(m.value), true);
        } else {
          formData := formData.(orderId := "");
        }
      }
    }

    /** `validateForm`: store the error map and report whether it is empty. */
    method ValidateForm() returns (ok: bool)
      requires Valid()
      modifies this
      ensures Valid()
      ensures errors == Validate(formData) && ok == (errors == map[])
      ensures formData == old(formData) && isSubmitting == old(isSubmitting)
      ensures resetPending == old(resetPending)
    {
      var tempErrors := Validate(formData);
      errors := tempErrors;
      ok := |tempErrors| == 0;
    }

    /** A submit event. While the button is disabled the event does not reach
        `handleSubmit`; otherwise an invalid form only records its errors, and
        a valid one starts submitting, notifies, and schedules the reset. */
    method Submit()
      requires Valid()
      modifies this, toast
      ensures Valid()
      ensures old(SubmitDisabled()) ==> unchanged(this) && toast.State() == old(toast.State())
      ensures !old(SubmitDisabled()) ==> formData == old(formData) && errors == Validate(old(formData))
      ensures !old(SubmitDisabled()) && errors != map[] ==>
        !SubmitDisabled() && toast.State() == old(toast.State())
      ensures !old(SubmitDisabled()) && errors == map[] ==>
        SubmitDisabled() && toast.State() == AfterNotify(old(toast.State()), FormSubmitted, true)
    {
      if isSubmitting {
        return;
      }
      var ok := ValidateForm();
      if ok {
        isSubmitting := true;
        toast.Notify(FormSubmitted, true);
        resetPending := true;
      }
    }

    /** The reset scheduled by a valid submission runs: defaults, no errors,
        the "Form cleared" notification, and the button enabled again. */
    method ResetDelayElapsed()
      requires Valid() && resetPending
      modifies this, toast
      ensures Valid()
      ensures formData == Defaults && errors == map[] && !SubmitDisabled() && !resetPending
      ensures toast.State() == AfterNotify(old(toast.State()), FormCleared, true)
    {
      resetPending := false;
      formData := Defaults;
      errors := map[];
      toast.Notify(FormCleared, true);
      isSubmitting := false;
      assert Extract("").None?;
    }
  }

  /** A run through the whole form: paste a link that holds an identifier,
      fill in a price, submit, let the timers fire, and observe the identifier,
      the toasts and the reset. */
  method SubmissionScenario(link: string, price: string)
    returns (foundId: string, foundToast: seq<ToastView>, submitting: bool,
             after: FormData, lastToast: seq<ToastView>)
    requires Extract(link).Some? && price != []
    ensures foundId == Extract(link).value && foundToast == [ToastView(FoundMessage(foundId), true)]
    ensures submitting
    ensures after == Defaults && lastToast == [ToastView(FormCleared, true)]
  {
    var app := new App();
    app.HandleChange(OrderLink, link);
    foundId := app.formData.orderId;
    app.toast.ShowDelayElapsed();
    foundToast := Rendered(app.toast.State());
    app.HandleChange(Price, price);
    app.Submit();
    submitting := app.isSubmitting;
    app.toast.ShowDelayElapsed();
    app.ResetDelayElapsed();
    after := app.formData;
    app.toast.ShowDelayElapsed();
    lastToast := Rendered(app.toast.State());
  }
}
