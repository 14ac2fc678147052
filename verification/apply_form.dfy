/**
 The application form on the landing page (app/page.tsx), without its
 markup: the dropdown option tables, the form's initial values, and the
 four-state submit controller.

 The form is validated by the same schema as the endpoint (`zodResolver`),
 so `handleSubmit` only calls `onSubmit` on valid values. The request it
 sends and the way it settles are events of a small state machine; the
 network itself is left to the caller of `Step`.
 */
module ApplyForm {
  import Base
  import opened Application

  // ---------------------------------------------------------------------------
  // Dropdown tables
  // ---------------------------------------------------------------------------

  /** One `<SelectItem>`: the value submitted and the text shown. */
  datatype SelectOption = SelectOption(value: string, caption: string)

  const CapitalRangeOptions: seq<SelectOption> := [
    SelectOption("50k-150k", "$50k\U{2013}$150k"),
    SelectOption("150k-500k", "$150k\U{2013}$500k"),
    SelectOption("500k-1m", "$500k\U{2013}$1m"),
    SelectOption("1m+", "$1m+")
  ]

  const AccommodationOptions: seq<SelectOption> := [
    SelectOption("private-suite", "Private suite"),
    SelectOption("villa", "Villa"),
    SelectOption("private-apartment", "Private apartment"),
    SelectOption("other", "Other")
  ]

  const GoalOptions: seq<SelectOption> := [
    SelectOption("mentorship", "Mentorship"),
    SelectOption("collaboration", "Collaboration"),
    SelectOption("undecided", "Undecided")
  ]

  /** The `marketFocus` dropdown: value and caption are the same text. */
  const Markets: seq<string> :=
    ["FX", "Equities", "Futures", "Indices", "Commodities", "Crypto (if compliant)"]

  /** The submitted values of a table, in display order. */
  function OptionValues(options: seq<SelectOption>): (values: seq<string>)
    ensures |values| == |options|
    ensures forall i :: 0 <= i < |options| ==> values[i] == options[i].value
  {
    if options == [] then [] else [options[0].value] + OptionValues(options[1..])
  }

  /** Each dropdown offers exactly the schema's literals, in the schema's
      order: whatever is picked passes the enum rule, and every literal the
      schema allows can be picked. */
  lemma DropdownsMatchSchema()
    ensures OptionValues(GoalOptions) == GoalNames
    ensures OptionValues(CapitalRangeOptions) == CapitalRangeNames
    ensures OptionValues(AccommodationOptions) == AccommodationNames
  {
  }

  /** Every market offered is at least two code units long, so any choice
      satisfies the `marketFocus` rule. */
  lemma MarketsSatisfyMarketFocusRule(isEmail: EmailRule)
    ensures forall i :: 0 <= i < |Markets| ==> FieldRule(MarketFocusKey, Str(Markets[i]), isEmail)
  {
  }

  // ---------------------------------------------------------------------------
  // Form values
  // ---------------------------------------------------------------------------

  /** `defaultValues` of `useForm`. */
  function Defaults(): Application {
    Application("", "", "", "", Mentorship, From150kTo500k, PrivateSuite, "FX", Base.Some(""))
  }

  /** The preselected dropdown entries are among the offered ones. */
  lemma DefaultsAreOffered()
    ensures GoalName(Defaults().goal) in OptionValues(GoalOptions)
    ensures CapitalRangeName(Defaults().capitalRange) in OptionValues(CapitalRangeOptions)
    ensures AccommodationName(Defaults().accommodation) in OptionValues(AccommodationOptions)
    ensures Defaults().marketFocus in Markets
  {
  }

  /** The blank form cannot be submitted: the four empty text inputs break
      their rules, while every preselected value passes its own. */
  lemma DefaultsAreInvalid(isEmail: EmailRule)
    ensures !Valid(Defaults(), isEmail)
    ensures var raw := Encode(Defaults());
            && !FieldRule(FullNameKey, raw.fullName, isEmail)
            && !FieldRule(LocationKey, raw.location, isEmail)
            && !FieldRule(DatesKey, raw.dates, isEmail)
            && (FieldRule(EmailKey, raw.email, isEmail) <==> isEmail(""))
            && FieldRule(GoalKey, raw.goal, isEmail)
            && FieldRule(CapitalRangeKey, raw.capitalRange, isEmail)
            && FieldRule(AccommodationKey, raw.accommodation, isEmail)
            && FieldRule(MarketFocusKey, raw.marketFocus, isEmail)
            && FieldRule(NotesKey, raw.notes, isEmail)
  {
  }

  // ---------------------------------------------------------------------------
  // The submit controller
  // ---------------------------------------------------------------------------

  /** `"idle" | "sending" | "success" | "error"`. */
  datatype Status = Idle | Sending | Success | Error

  /** How the `fetch` of `/api/apply` ended. */
  datatype Reply = ResponseOk | ResponseNotOk | NetworkFailure

  datatype Event =
    | Edit(values: Application)   // the user changes inputs
    | Submit                      // the submit button, or Enter in a field
    | Settle(reply: Reply)        // the outstanding request finishes

  /** The controller's state: the status shown, the current form values, the
      values submitted so far (each sent as `JSON.stringify` of it), and how
      many of those requests have finished. */
  datatype Controller = Controller(status: Status, values: Application, submitted: seq<Application>, settled: nat)

  /** The page as first rendered. */
  function Initial(): (c: Controller)
    ensures c.status == Idle && c.submitted == [] && c.settled == 0
  {
    Controller(Idle, Defaults(), [], 0)
  }

  /** The button is disabled while a request is outstanding. */
  predicate SubmitDisabled(s: Status) {
    s == Sending
  }

  /** The confirmation and error notes below the button. */
  datatype Notice = NoNotice | SuccessNotice | ErrorNotice

  function NoticeFor(s: Status): (n: Notice)
    ensures n == SuccessNotice <==> s == Success
    ensures n == ErrorNotice <==> s == Error
  {
    match s
    case Success => SuccessNotice
    case Error => ErrorNotice
    case _ => NoNotice
  }

  /** One event. A submit is dropped while sending (the button is disabled)
      and when the resolver refuses the values; otherwise the status becomes
      `sending` and the values go out as JSON. A reply settles the outstanding
      request: an ok response resets the form and shows success, anything
      else shows the error and keeps the values. */
  function Step(c: Controller, e: Event, isEmail: EmailRule): Controller {
    match e
    case Edit(v) => c.(values := v)
    case Submit =>
      if SubmitDisabled(c.status) || !Valid(c.values, isEmail) then c
      else c.(status := Sending, submitted := c.submitted + [c.values])
    case Settle(reply) =>
      if c.status != Sending then c
      else if reply == ResponseOk then c.(status := Success, values := Defaults(), settled := c.settled + 1)
      else c.(status := Error, settled := c.settled + 1)
  }

  /** While a request is outstanding the button is disabled: a second submit
      changes nothing and sends nothing. */
  lemma SubmitIgnoredWhileSending(c: Controller, isEmail: EmailRule)
    requires c.status == Sending
    ensures Step(c, Submit, isEmail) == c
    ensures SubmitDisabled(c.status)
  {
  }

  /** `handleSubmit(onSubmit)`: the resolver blocks invalid values; valid ones
      switch the status to `sending` before the request and go out as
      `JSON.stringify(values)`, with neither note shown. */
  lemma SubmitSendsValidValues(c: Controller, isEmail: EmailRule)
    requires c.status != Sending
    ensures !Valid(c.values, isEmail) ==> Step(c, Submit, isEmail) == c
    ensures Valid(c.values, isEmail) ==>
              var c' := Step(c, Submit, isEmail);
              && c'.status == Sending && c'.values == c.values
              && c'.submitted == c.submitted + [c.values]
              && NoticeFor(c'.status) == NoNotice
  {
  }

  /** How a request settles: success exactly on an ok response, with the form
      reset; otherwise the error status, with the values left as they were. */
  lemma SettleTransitions(c: Controller, reply: Reply, isEmail: EmailRule)
    requires c.status == Sending
    ensures var c' := Step(c, Settle(reply), isEmail);
            && (c'.status == Success <==> reply == ResponseOk)
            && (c'.status == Error <==> reply != ResponseOk)
            && (reply == ResponseOk ==> c'.values == Defaults())
            && (reply != ResponseOk ==> c'.values == c.values)
            && c'.submitted == c.submitted && c'.settled == c.settled + 1
  {
  }

  /** The state after a sequence of events. */
  function Run(c: Controller, events: seq<Event>, isEmail: EmailRule): Controller
    decreases |events|
  {
    if events == [] then c
    else Run(Step(c, events[0], isEmail), events[1..], isEmail)
  }

  /** The controller's invariant: the status is `sending` exactly when one
      request is outstanding, there is never more than one, and every value
      submitted passed the schema. */
  predicate Consistent(c: Controller, isEmail: EmailRule) {
    && |c.submitted| == c.settled + (if c.status == Sending then 1 else 0)
    && forall i :: 0 <= i < |c.submitted| ==> Valid(c.submitted[i], isEmail)
  }

  lemma StepKeepsConsistent(c: Controller, e: Event, isEmail: EmailRule)
    requires Consistent(c, isEmail)
    ensures Consistent(Step(c, e, isEmail), isEmail)
  {
  }

  lemma {:induction false} RunKeepsConsistent(events: seq<Event>, c: Controller, isEmail: EmailRule)
    requires Consistent(c, isEmail)
    ensures Consistent(Run(c, events, isEmail), isEmail)
    decreases |events|
  {
    if events != [] {
      StepKeepsConsistent(c, events[0], isEmail);
      RunKeepsConsistent(events[1..], Step(c, events[0], isEmail), isEmail);
    }
  }

  /** From the first render, whatever the user does and however the network
      answers: never two requests in flight, `sending` exactly while one is,
      and every request body the page sends is accepted by the endpoint's
      validation and read back as the very values submitted. */
  lemma FromFirstRender(events: seq<Event>, isEmail: EmailRule)
    ensures var c := Run(Initial(), events, isEmail);
            && |c.submitted| <= c.settled + 1
            && (c.status == Sending <==> |c.submitted| == c.settled + 1)
            && forall i :: 0 <= i < |c.submitted| ==>
                 Parse(Object(Encode(c.submitted[i])), isEmail) == Base.Success(c.submitted[i])
  {
    var c := Run(Initial(), events, isEmail);
    RunKeepsConsistent(events, Initial(), isEmail);
    forall i | 0 <= i < |c.submitted|
      ensures Parse(Object(Encode(c.submitted[i])), isEmail) == Base.Success(c.submitted[i])
    {
      ParseEncodeRoundTrip(c.submitted[i], isEmail);
    }
  }
}
