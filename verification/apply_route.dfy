/**
 The submission endpoint `POST /api/apply` (app/api/apply/route.ts).

 The handler is modelled as a pure function of what it reads from outside:
 the mail settings of the process environment, the request body (which may
 fail to parse as JSON), and the outcome of handing the message to the mail
 relay. It returns the HTTP status, the JSON body and the list of messages
 the relay accepted.
 */
module ApplyRoute {
  import opened Base
  import opened Application
  import Lines

  // ---------------------------------------------------------------------------
  // Configuration
  // ---------------------------------------------------------------------------

  /** `EMAIL_HOST_USER`, `EMAIL_HOST_PASSWORD` and `APPLY_TO_EMAIL`; `None`
      is an unset variable. */
  datatype Config = Config(hostUser: Option<string>, hostPassword: Option<string>, applyTo: Option<string>)

  const FallbackRecipient := "d.rampinini@gmail.com"
  const NotConfiguredMessage := "Email service is not configured."
  const GenericFailureMessage := "Unable to submit application."

  /** JavaScript truthiness of an environment variable: set and non-empty. */
  predicate Truthy(v: Option<string>) {
    v.Some? && v.value != ""
  }

  /** `process.env.APPLY_TO_EMAIL || "d.rampinini@gmail.com"`. */
  function Recipient(config: Config): (to: string)
    ensures to != ""
    ensures Truthy(config.applyTo) ==> to == config.applyTo.value
    ensures !Truthy(config.applyTo) ==> to == FallbackRecipient
  {
    if Truthy(config.applyTo) then config.applyTo.value else FallbackRecipient
  }

  /** The guard in front of everything else: user, password and recipient
      must all be truthy. */
  predicate Configured(config: Config) {
    Truthy(config.hostUser) && Truthy(config.hostPassword) && Recipient(config) != ""
  }

  /** Because the recipient has a non-empty fallback, its part of the guard
      never fires: only the user and the password decide. */
  lemma ConfiguredIffCredentials(config: Config)
    ensures Configured(config) <==> Truthy(config.hostUser) && Truthy(config.hostPassword)
  {
  }

  // ---------------------------------------------------------------------------
  // The notification message
  // ---------------------------------------------------------------------------

  /** The fields of `transporter.sendMail`. */
  datatype Mail = Mail(from: string, to: string, replyTo: string, subject: string, text: string)

  const SenderName := "Trading Itinerario"
  const SubjectPrefix := "New Residency Application \U{2014} "
  const NotesPlaceholder := "N/A"

  /** The labels of the body lines, in order. */
  const BodyLabels: seq<string> :=
    ["Name", "Email", "Location", "Dates", "Goal", "Capital Range",
     "Accommodation", "Market Focus", "Notes"]

  /** `payload.notes || "N/A"`: an absent or empty note shows the placeholder. */
  function NotesText(notes: Option<string>): string {
    if notes.Some? && notes.value != "" then notes.value else NotesPlaceholder
  }

  /** What each body line reports, in tag order. */
  function BodyValues(app: Application): (values: seq<string>)
    ensures |values| == |BodyLabels|
  {
    [app.fullName, app.email, app.location, app.dates, GoalName(app.goal),
     CapitalRangeName(app.capitalRange), AccommodationName(app.accommodation),
     app.marketFocus, NotesText(app.notes)]
  }

  /** One template line `Label: value`. */
  function FieldLine(tag: string, value: string): string {
    tag + ": " + value
  }

  function LabelledLines(labels: seq<string>, values: seq<string>): (lines: seq<string>)
    requires |labels| == |values|
    ensures |lines| == |labels|
  {
    if labels == [] then []
    else [FieldLine(labels[0], values[0])] + LabelledLines(labels[1..], values[1..])
  }

  /** The plain-text body: the nine labelled lines joined by newlines. */
  function RenderBody(app: Application): string {
    Lines.Join(LabelledLines(BodyLabels, BodyValues(app)), '\n')
  }

  /** The message for one accepted application. */
  function RenderMail(user: string, to: string, app: Application): (m: Mail)
    ensures m.to == to && m.replyTo == app.email
    ensures |m.from| == |SenderName| + |user| + 3 && m.from[..|SenderName| + 2] == SenderName + " <"
    ensures m.from[|SenderName| + 2..|m.from| - 1] == user && m.from[|m.from| - 1] == '>'
    ensures |m.subject| >= |SubjectPrefix| && m.subject[..|SubjectPrefix|] == SubjectPrefix
    ensures m.subject[|SubjectPrefix|..] == app.fullName
  {
    Mail(SenderName + " <" + user + ">", to, app.email, SubjectPrefix + app.fullName, RenderBody(app))
  }

  // ---------------------------------------------------------------------------
  // Reading the body back
  // ---------------------------------------------------------------------------

  /** The value of a line that starts with `tag: `. */
  function StripLabel(tag: string, line: string): (v: Option<string>)
    ensures v.Some? ==> line == FieldLine(tag, v.value)
  {
    var prefix := tag + ": ";
    if |prefix| <= |line| && line[..|prefix|] == prefix then
      assert line == prefix + line[|prefix|..];
      Some(line[|prefix|..])
    else None
  }

  function StripLabels(labels: seq<string>, lines: seq<string>): Option<seq<string>>
    requires |labels| == |lines|
  {
    if labels == [] then Some([])
    else match (StripLabel(labels[0], lines[0]), StripLabels(labels[1..], lines[1..]))
      case (Some(v), Some(vs)) => Some([v] + vs)
      case _ => None
  }

  /** A reader for the notification text: the value of each labelled line,
      provided the text has exactly the nine lines in the expected order. */
  function ReadBody(text: string): Option<seq<string>> {
    var lines := Lines.Split(text, '\n');
    if |lines| == |BodyLabels| then StripLabels(BodyLabels, lines) else None
  }

  lemma {:induction false} StripLabelsOfLabelledLines(labels: seq<string>, values: seq<string>)
    requires |labels| == |values|
    ensures StripLabels(labels, LabelledLines(labels, values)) == Some(values)
  {
    if labels != [] {
      var line := FieldLine(labels[0], values[0]);
      assert line[..|labels[0] + ": "|] == labels[0] + ": ";
      assert line[|labels[0] + ": "|..] == values[0];
      StripLabelsOfLabelledLines(labels[1..], values[1..]);
      assert [values[0]] + values[1..] == values;
    }
  }

  lemma {:induction false} LabelledLinesHaveNoNewline(labels: seq<string>, values: seq<string>)
    requires |labels| == |values|
    requires Lines.NoSeparator(labels, '\n') && Lines.NoSeparator(values, '\n')
    ensures Lines.NoSeparator(LabelledLines(labels, values), '\n')
  {
    if labels != [] {
      assert Lines.NoSeparator(labels[1..], '\n') by {
        forall i | 0 <= i < |labels[1..]| ensures '\n' !in labels[1..][i] { assert labels[1..][i] == labels[i + 1]; }
      }
      assert Lines.NoSeparator(values[1..], '\n') by {
        forall i | 0 <= i < |values[1..]| ensures '\n' !in values[1..][i] { assert values[1..][i] == values[i + 1]; }
      }
      LabelledLinesHaveNoNewline(labels[1..], values[1..]);
      var lines := LabelledLines(labels, values);
      forall i | 0 <= i < |lines| ensures '\n' !in lines[i] {
        if i == 0 {
          assert '\n' !in labels[0] && '\n' !in values[0];
        } else {
          assert lines[i] == LabelledLines(labels[1..], values[1..])[i - 1];
        }
      }
    }
  }

  lemma LabelsHaveNoNewline()
    ensures Lines.NoSeparator(BodyLabels, '\n')
  {
  }

  /** The notification body reads back as the nine reported values, in tag
      order, whenever no reported value spans several lines. */
  lemma BodyReadsBack(user: string, to: string, app: Application)
    requires Lines.NoSeparator(BodyValues(app), '\n')
    ensures ReadBody(RenderMail(user, to, app).text) == Some(BodyValues(app))
  {
    var lines := LabelledLines(BodyLabels, BodyValues(app));
    LabelsHaveNoNewline();
    LabelledLinesHaveNoNewline(BodyLabels, BodyValues(app));
    Lines.SplitJoin(lines, '\n');
    StripLabelsOfLabelledLines(BodyLabels, BodyValues(app));
  }

  /** The body always ends with the notes line, which shows the placeholder
      for an absent or empty note and the note verbatim otherwise. */
  lemma BodyEndsWithNotesLine(app: Application)
    ensures exists head: string ::
      RenderBody(app) == head + "\nNotes: " + (if app.notes.Some? && app.notes.value != "" then app.notes.value else "N/A")
  {
    var values := BodyValues(app);
    var lines := LabelledLines(BodyLabels, values);
    var first := LabelledLines(BodyLabels[..8], values[..8]);
    assert lines == first + [FieldLine("Notes", NotesText(app.notes))] by {
      LabelledLinesSnoc(BodyLabels[..8], values[..8], "Notes", NotesText(app.notes));
      assert BodyLabels[..8] + ["Notes"] == BodyLabels;
      assert values[..8] + [NotesText(app.notes)] == values;
    }
    Lines.JoinLast(first, FieldLine("Notes", NotesText(app.notes)), '\n');
    var head := Lines.Join(first, '\n');
    assert RenderBody(app) == head + "\nNotes: " + NotesText(app.notes);
  }

  lemma {:induction false} LabelledLinesSnoc(labels: seq<string>, values: seq<string>, tag: string, value: string)
    requires |labels| == |values|
    ensures LabelledLines(labels + [tag], values + [value]) == LabelledLines(labels, values) + [FieldLine(tag, value)]
  {
    if labels == [] {
      assert (labels + [tag])[1..] == [];
    } else {
      assert (labels + [tag])[1..] == labels[1..] + [tag];
      assert (values + [value])[1..] == values[1..] + [value];
      LabelledLinesSnoc(labels[1..], values[1..], tag, value);
    }
  }

  /** The notes line cannot tell a missing note, an empty note and the literal
      note "N/A" apart: all three bodies are the same text. */
  lemma NotesPlaceholderIsAmbiguous(app: Application)
    ensures RenderBody(app.(notes := None)) == RenderBody(app.(notes := Some("")))
    ensures RenderBody(app.(notes := None)) == RenderBody(app.(notes := Some("N/A")))
  {
  }

  // ---------------------------------------------------------------------------
  // The handler
  // ---------------------------------------------------------------------------

  /** A value caught by the handler's `catch`. */
  datatype Thrown = ErrorInstance(message: string) | NonErrorValue

  /** What became of `transporter.sendMail`. */
  datatype SendOutcome = Delivered | SendFailed(thrown: Thrown)

  /** `await request.json()`: a parse failure throws a `SyntaxError`. */
  datatype Payload = Unreadable(syntaxMessage: string) | Received(body: JsonBody)

  /** The `error` string of a failure response. The message of a `ZodError` is
      generated by zod from its issues and is kept abstract as those issues. */
  datatype ErrorText = Message(text: string) | ZodMessage(issues: seq<Issue>)

  /** `{ ok: true }` or `{ error: … }`. */
  datatype Body = Acknowledged | ErrorBody(error: ErrorText)

  datatype Response = Response(status: nat, body: Body, sent: seq<Mail>)

  /** The `catch` block: an `Error` contributes its message, anything else the
      generic text. */
  function CaughtMessage(thrown: Thrown): (t: string)
    ensures thrown.ErrorInstance? ==> t == thrown.message
    ensures thrown.NonErrorValue? ==> t == GenericFailureMessage
  {
    match thrown
    case ErrorInstance(m) => m
    case NonErrorValue => GenericFailureMessage
  }

  /** `POST /api/apply`. */
  function Handle(config: Config, payload: Payload, outcome: SendOutcome, isEmail: EmailRule): (r: Response)
    // configuration is checked first, whatever the payload
    ensures !Configured(config) ==> r == Response(500, ErrorBody(Message(NotConfiguredMessage)), [])
    ensures r.status == 500 <==> !Configured(config)
    // every other failure is a 400 with nothing sent
    ensures r.status in {200, 400, 500}
    ensures r.status != 200 ==> r.sent == [] && r.body.ErrorBody?
    ensures Configured(config) && payload.Unreadable? ==>
              r == Response(400, ErrorBody(Message(payload.syntaxMessage)), [])
    ensures Configured(config) && payload.Received? && Parse(payload.body, isEmail).Failure? ==>
              r == Response(400, ErrorBody(ZodMessage(Parse(payload.body, isEmail).error)), [])
    // success: one message, built from the accepted application
    ensures r.status == 200 <==>
              Configured(config) && payload.Received? && Parse(payload.body, isEmail).Success? && outcome.Delivered?
    ensures r.status == 200 ==>
              r.body == Acknowledged &&
              r.sent == [RenderMail(config.hostUser.value, Recipient(config), Parse(payload.body, isEmail).value)]
    // a failed send reports what was thrown
    ensures Configured(config) && payload.Received? && Parse(payload.body, isEmail).Success? && outcome.SendFailed? ==>
              r == Response(400, ErrorBody(Message(CaughtMessage(outcome.thrown))), [])
  {
    if !Configured(config) then
      Response(500, ErrorBody(Message(NotConfiguredMessage)), [])
    else
      match payload
      case Unreadable(m) => Response(400, ErrorBody(Message(m)), [])
      case Received(body) =>
        match Parse(body, isEmail)
        case Failure(issues) => Response(400, ErrorBody(ZodMessage(issues)), [])
        case Success(app) =>
          var mail := RenderMail(config.hostUser.value, Recipient(config), app);
          match outcome
          case Delivered => Response(200, Acknowledged, [mail])
          case SendFailed(thrown) => Response(400, ErrorBody(Message(CaughtMessage(thrown))), [])
  }

  /** The configuration check runs before the body is read: without
      credentials the answer is the same for every payload and send outcome. */
  lemma ConfigurationCheckedFirst(config: Config, p1: Payload, p2: Payload, o1: SendOutcome, o2: SendOutcome, isEmail: EmailRule)
    requires !Truthy(config.hostUser) || !Truthy(config.hostPassword)
    ensures Handle(config, p1, o1, isEmail) == Handle(config, p2, o2, isEmail)
    ensures Handle(config, p1, o1, isEmail).status == 500 && Handle(config, p1, o1, isEmail).sent == []
  {
  }

  /** A rejected submission names what is wrong: when the configuration is in
      place and a key of the object breaks its rule, the answer is a 400 whose
      zod message reports an issue at that key, and nothing is sent. */
  lemma BrokenKeyIsReported(config: Config, raw: Raw, outcome: SendOutcome, isEmail: EmailRule, key: Key)
    requires Configured(config)
    requires !FieldRule(key, FieldAt(raw, key), isEmail)
    ensures var r := Handle(config, Received(Object(raw)), outcome, isEmail);
            && r.status == 400 && r.sent == []
            && r.body.ErrorBody? && r.body.error.ZodMessage?
            && exists x :: x in r.body.error.issues && x.path == [key]
  {
    IssuesReportEveryBrokenKey(raw, isEmail, key);
    NoIssuesIffAccepts(raw, isEmail);
  }

  /** A complete application with an empty note. */
  const ExampleApplication := Application(
    "Luca B.", "luca@example.com", "Milan, Italy", "Oct 5 - Nov 2",
    Mentorship, From150kTo500k, PrivateSuite, "FX", Some(""))

  lemma ExampleIsValid(isEmail: EmailRule)
    requires isEmail("luca@example.com")
    ensures Valid(ExampleApplication, isEmail)
  {
  }

  lemma ExampleIsSingleLine()
    ensures Lines.NoSeparator(BodyValues(ExampleApplication), '\n')
    ensures BodyValues(ExampleApplication)[8] == "N/A"
  {
    var values := BodyValues(ExampleApplication);
    forall i | 0 <= i < |values| ensures '\n' !in values[i] {
      var v := values[i];
      assert forall j :: 0 <= j < |v| ==> v[j] != '\n';
    }
  }

  /** The worked example: the application is acknowledged, and exactly one
      message goes out, replying to the applicant, naming them in the subject,
      and reporting `N/A` on its notes line. */
  lemma ExampleSubmission(config: Config, isEmail: EmailRule)
    requires Truthy(config.hostUser) && Truthy(config.hostPassword)
    requires isEmail("luca@example.com")
    ensures var r := Handle(config, Received(Object(Encode(ExampleApplication))), Delivered, isEmail);
            && r.status == 200 && r.body == Acknowledged && |r.sent| == 1
            && r.sent[0].to == Recipient(config)
            && r.sent[0].replyTo == "luca@example.com"
            && r.sent[0].subject == SubjectPrefix + "Luca B."
            && ReadBody(r.sent[0].text) == Some(BodyValues(ExampleApplication))
            && BodyValues(ExampleApplication)[8] == "N/A"
  {
    ExampleIsValid(isEmail);
    ParseEncodeRoundTrip(ExampleApplication, isEmail);
    ExampleIsSingleLine();
    BodyReadsBack(config.hostUser.value, Recipient(config), ExampleApplication);
  }
}
