/**
 The application schema shared by the intake form and the submission
 endpoint (lib/application.ts).

 The schema is a zod object of nine keys. A payload arrives as JSON, so each
 key is modelled by what JSON can put there: nothing, a string, or some other
 value. `Parse` behaves like `applicationSchema.safeParse`: it checks every
 key in schema order, collects one issue per broken rule without stopping at
 the first, and only when no issue was raised builds the typed record.

 zod's e-mail pattern is not part of this model; the e-mail rule is passed in
 as a total predicate `isEmail`, the same one on both sides of the network.
 */
module Application {
  import opened Base
  import JsString

  // ---------------------------------------------------------------------------
  // The three closed enumerations
  // ---------------------------------------------------------------------------

  datatype Goal = Mentorship | Collaboration | Undecided
  datatype CapitalRange = From50kTo150k | From150kTo500k | From500kTo1m | Above1m
  datatype Accommodation = PrivateSuite | Villa | PrivateApartment | OtherStay

  /** The literals of `z.enum` for `goal`, in declaration order. */
  const GoalNames: seq<string> := ["mentorship", "collaboration", "undecided"]
  /** The literals of `z.enum` for `capitalRange`. */
  const CapitalRangeNames: seq<string> := ["50k-150k", "150k-500k", "500k-1m", "1m+"]
  /** The literals of `z.enum` for `accommodation`. */
  const AccommodationNames: seq<string> := ["private-suite", "villa", "private-apartment", "other"]

  function GoalName(g: Goal): string {
    match g
    case Mentorship => "mentorship"
    case Collaboration => "collaboration"
    case Undecided => "undecided"
  }

  function CapitalRangeName(c: CapitalRange): string {
    match c
    case From50kTo150k => "50k-150k"
    case From150kTo500k => "150k-500k"
    case From500kTo1m => "500k-1m"
    case Above1m => "1m+"
  }

  function AccommodationName(a: Accommodation): string {
    match a
    case PrivateSuite => "private-suite"
    case Villa => "villa"
    case PrivateApartment => "private-apartment"
    case OtherStay => "other"
  }

  /** Reads a `goal` string; exactly the listed literals are accepted. */
  function ParseGoal(s: string): (r: Option<Goal>)
    ensures r.Some? <==> s in GoalNames
    ensures r.Some? ==> GoalName(r.value) == s
  {
    if s == "mentorship" then Some(Mentorship)
    else if s == "collaboration" then Some(Collaboration)
    else if s == "undecided" then Some(Undecided)
    else None
  }

  /** Reads a `capitalRange` string; exactly the listed literals are accepted. */
  function ParseCapitalRange(s: string): (r: Option<CapitalRange>)
    ensures r.Some? <==> s in CapitalRangeNames
    ensures r.Some? ==> CapitalRangeName(r.value) == s
  {
    if s == "50k-150k" then Some(From50kTo150k)
    else if s == "150k-500k" then Some(From150kTo500k)
    else if s == "500k-1m" then Some(From500kTo1m)
    else if s == "1m+" then Some(Above1m)
    else None
  }

  /** Reads an `accommodation` string; exactly the listed literals are accepted. */
  function ParseAccommodation(s: string): (r: Option<Accommodation>)
    ensures r.Some? <==> s in AccommodationNames
    ensures r.Some? ==> AccommodationName(r.value) == s
  {
    if s == "private-suite" then Some(PrivateSuite)
    else if s == "villa" then Some(Villa)
    else if s == "private-apartment" then Some(PrivateApartment)
    else if s == "other" then Some(OtherStay)
    else None
  }

  /** Every enumerator is named by one of the schema's literals and reads back
      as itself. */
  lemma EnumNamesRoundTrip(g: Goal, c: CapitalRange, a: Accommodation)
    ensures GoalName(g) in GoalNames && ParseGoal(GoalName(g)) == Some(g)
    ensures CapitalRangeName(c) in CapitalRangeNames && ParseCapitalRange(CapitalRangeName(c)) == Some(c)
    ensures AccommodationName(a) in AccommodationNames && ParseAccommodation(AccommodationName(a)) == Some(a)
  {
  }

  // ---------------------------------------------------------------------------
  // The typed record and its validity
  // ---------------------------------------------------------------------------

  /** `ApplicationInput`, the type zod infers from the schema. */
  datatype Application = Application(
    fullName: string,
    email: string,
    location: string,
    dates: string,
    goal: Goal,
    capitalRange: CapitalRange,
    accommodation: Accommodation,
    marketFocus: string,
    notes: Option<string>)

  /** The e-mail format check, supplied from outside. */
  type EmailRule = string -> bool

  const MinFullName: nat := 2
  const MinLocation: nat := 2
  const MinDates: nat := 3
  const MinMarketFocus: nat := 2
  const MaxNotes: nat := 1000

  const FullNameMessage := "Please enter a full name."
  const EmailMessage := "Enter a valid email address."
  const LocationMessage := "Add your city and country."
  const DatesMessage := "Share your ideal dates or window."
  const MarketFocusMessage := "Select a market focus."
  const NotesMessage := "Keep notes under 1000 characters."

  /** A typed record the schema accepts: every text rule at once. The enum
      rules hold by typing. */
  predicate Valid(app: Application, isEmail: EmailRule) {
    && JsString.Length(app.fullName) >= MinFullName
    && isEmail(app.email)
    && JsString.Length(app.location) >= MinLocation
    && JsString.Length(app.dates) >= MinDates
    && JsString.Length(app.marketFocus) >= MinMarketFocus
    && (app.notes.Some? ==> JsString.Length(app.notes.value) <= MaxNotes)
  }

  // ---------------------------------------------------------------------------
  // The wire shape
  // ---------------------------------------------------------------------------

  /** What a JSON object holds under one key. */
  datatype JsonField = Absent | Str(s: string) | NonString

  /** The nine schema keys of a JSON object; other keys are stripped by zod
      and so are not represented. */
  datatype Raw = Raw(
    fullName: JsonField,
    email: JsonField,
    location: JsonField,
    dates: JsonField,
    goal: JsonField,
    capitalRange: JsonField,
    accommodation: JsonField,
    marketFocus: JsonField,
    notes: JsonField)

  /** A parsed JSON request body. */
  datatype JsonBody = Object(fields: Raw) | NonObject

  /** `JSON.stringify` of a typed record: every key a string, and `notes`
      dropped when it is undefined. */
  function Encode(app: Application): (raw: Raw)
    ensures raw.notes.Absent? <==> app.notes.None?
  {
    Raw(Str(app.fullName), Str(app.email), Str(app.location), Str(app.dates),
        Str(GoalName(app.goal)), Str(CapitalRangeName(app.capitalRange)),
        Str(AccommodationName(app.accommodation)), Str(app.marketFocus),
        match app.notes case None => Absent case Some(n) => Str(n))
  }

  /** Two records with the same encoding are the same record. */
  lemma EncodeInjective(a: Application, b: Application)
    requires Encode(a) == Encode(b)
    ensures a == b
  {
  }

  // ---------------------------------------------------------------------------
  // Field rules, stated per key
  // ---------------------------------------------------------------------------

  /** The schema's keys. */
  datatype Key =
    | FullNameKey | EmailKey | LocationKey | DatesKey | GoalKey
    | CapitalRangeKey | AccommodationKey | MarketFocusKey | NotesKey

  /** The keys in schema declaration order, which is also zod's checking order. */
  const FieldKeys: seq<Key> :=
    [FullNameKey, EmailKey, LocationKey, DatesKey, GoalKey, CapitalRangeKey,
     AccommodationKey, MarketFocusKey, NotesKey]

  /** The JSON property name of a key. */
  function KeyName(key: Key): string {
    match key
    case FullNameKey => "fullName"
    case EmailKey => "email"
    case LocationKey => "location"
    case DatesKey => "dates"
    case GoalKey => "goal"
    case CapitalRangeKey => "capitalRange"
    case AccommodationKey => "accommodation"
    case MarketFocusKey => "marketFocus"
    case NotesKey => "notes"
  }

  /** What the object holds under a key. */
  function FieldAt(raw: Raw, key: Key): JsonField {
    match key
    case FullNameKey => raw.fullName
    case EmailKey => raw.email
    case LocationKey => raw.location
    case DatesKey => raw.dates
    case GoalKey => raw.goal
    case CapitalRangeKey => raw.capitalRange
    case AccommodationKey => raw.accommodation
    case MarketFocusKey => raw.marketFocus
    case NotesKey => raw.notes
  }

  predicate MinRule(f: JsonField, min: nat) {
    f.Str? && JsString.Length(f.s) >= min
  }

  predicate EmailFieldRule(f: JsonField, isEmail: EmailRule) {
    f.Str? && isEmail(f.s)
  }

  predicate EnumRule(f: JsonField, names: seq<string>) {
    f.Str? && f.s in names
  }

  /** `z.string().max(1000).optional()`: a missing key is fine, `null` is not. */
  predicate NotesRule(f: JsonField) {
    f.Absent? || (f.Str? && JsString.Length(f.s) <= MaxNotes)
  }

  /** The rule the schema attaches to one key, applied to a value. */
  predicate FieldRule(key: Key, f: JsonField, isEmail: EmailRule) {
    match key
    case FullNameKey => MinRule(f, MinFullName)
    case EmailKey => EmailFieldRule(f, isEmail)
    case LocationKey => MinRule(f, MinLocation)
    case DatesKey => MinRule(f, MinDates)
    case GoalKey => EnumRule(f, GoalNames)
    case CapitalRangeKey => EnumRule(f, CapitalRangeNames)
    case AccommodationKey => EnumRule(f, AccommodationNames)
    case MarketFocusKey => MinRule(f, MinMarketFocus)
    case NotesKey => NotesRule(f)
  }

  /** The reference definition of acceptance: every key's rule holds. */
  predicate Accepts(raw: Raw, isEmail: EmailRule) {
    forall key: Key :: FieldRule(key, FieldAt(raw, key), isEmail)
  }

  // ---------------------------------------------------------------------------
  // zod-style checking: collect every issue
  // ---------------------------------------------------------------------------

  datatype IssueCode =
    | InvalidType                                 // key missing, or not a string
    | TooSmall(minimum: nat, message: string)     // `.min(n, message)`
    | TooBig(maximum: nat, message: string)       // `.max(n, message)`
    | InvalidEmail(message: string)               // `.email(message)`
    | InvalidEnumValue(options: seq<string>)      // value outside `z.enum`

  /** One problem, at a path of keys into the payload (`[]` is the payload
      itself). */
  datatype Issue = Issue(path: seq<Key>, code: IssueCode)

  function CheckMin(key: Key, f: JsonField, min: nat, message: string): seq<Issue> {
    match f
    case Str(s) => if JsString.Length(s) >= min then [] else [Issue([key], TooSmall(min, message))]
    case _ => [Issue([key], InvalidType)]
  }

  function CheckEmail(key: Key, f: JsonField, isEmail: EmailRule): seq<Issue> {
    match f
    case Str(s) => if isEmail(s) then [] else [Issue([key], InvalidEmail(EmailMessage))]
    case _ => [Issue([key], InvalidType)]
  }

  function CheckEnum(key: Key, f: JsonField, names: seq<string>): seq<Issue> {
    match f
    case Str(s) => if s in names then [] else [Issue([key], InvalidEnumValue(names))]
    case _ => [Issue([key], InvalidType)]
  }

  function CheckNotes(key: Key, f: JsonField): seq<Issue> {
    match f
    case Absent => []
    case Str(s) => if JsString.Length(s) <= MaxNotes then [] else [Issue([key], TooBig(MaxNotes, NotesMessage))]
    case NonString => [Issue([key], InvalidType)]
  }

  /** The issues zod raises for one key of the object. */
  function CheckKey(key: Key, f: JsonField, isEmail: EmailRule): (issues: seq<Issue>)
    ensures issues == [] <==> FieldRule(key, f, isEmail)
    ensures forall i :: 0 <= i < |issues| ==> issues[i].path == [key]
  {
    match key
    case FullNameKey => CheckMin(key, f, MinFullName, FullNameMessage)
    case EmailKey => CheckEmail(key, f, isEmail)
    case LocationKey => CheckMin(key, f, MinLocation, LocationMessage)
    case DatesKey => CheckMin(key, f, MinDates, DatesMessage)
    case GoalKey => CheckEnum(key, f, GoalNames)
    case CapitalRangeKey => CheckEnum(key, f, CapitalRangeNames)
    case AccommodationKey => CheckEnum(key, f, AccommodationNames)
    case MarketFocusKey => CheckMin(key, f, MinMarketFocus, MarketFocusMessage)
    case NotesKey => CheckNotes(key, f)
  }

  /** The issues of the given keys, in order, without stopping at the first. */
  function CollectFrom(keys: seq<Key>, raw: Raw, isEmail: EmailRule): (issues: seq<Issue>)
    ensures issues == [] <==> forall k :: 0 <= k < |keys| ==> FieldRule(keys[k], FieldAt(raw, keys[k]), isEmail)
    ensures forall x :: x in issues ==> |x.path| == 1 && x.path[0] in keys
  {
    if keys == [] then []
    else
      var rest := CollectFrom(keys[1..], raw, isEmail);
      assert forall k :: 1 <= k < |keys| ==> keys[k] == keys[1..][k - 1];
      CheckKey(keys[0], FieldAt(raw, keys[0]), isEmail) + rest
  }

  /** Every issue zod raises for an object payload. */
  function CollectIssues(raw: Raw, isEmail: EmailRule): seq<Issue> {
    CollectFrom(FieldKeys, raw, isEmail)
  }

  /** A key in the list is reported exactly when its rule fails. */
  lemma {:induction false} CollectFromReports(keys: seq<Key>, raw: Raw, isEmail: EmailRule, key: Key)
    requires key in keys
    ensures (exists x :: x in CollectFrom(keys, raw, isEmail) && x.path == [key])
            <==> !FieldRule(key, FieldAt(raw, key), isEmail)
  {
    var head := CheckKey(keys[0], FieldAt(raw, keys[0]), isEmail);
    var rest := CollectFrom(keys[1..], raw, isEmail);
    var broken := !FieldRule(key, FieldAt(raw, key), isEmail);
    assert CollectFrom(keys, raw, isEmail) == head + rest;
    var inHead := exists x :: x in head && x.path == [key];
    var inRest := exists x :: x in rest && x.path == [key];
    assert inHead <==> keys[0] == key && broken by {
      if keys[0] == key && broken {
        assert head[0] in head;
      }
    }
    assert inRest <==> key in keys[1..] && broken by {
      if key in keys[1..] {
        CollectFromReports(keys[1..], raw, isEmail, key);
      }
    }
    assert (exists x :: x in head + rest && x.path == [key]) <==> inHead || inRest;
  }

  /** Acceptance is all-or-nothing: no issue is collected exactly when every
      one of the nine rules holds. */
  lemma NoIssuesIffAccepts(raw: Raw, isEmail: EmailRule)
    ensures CollectIssues(raw, isEmail) == [] <==> Accepts(raw, isEmail)
  {
    if !Accepts(raw, isEmail) {
      var key: Key :| !FieldRule(key, FieldAt(raw, key), isEmail);
      assert key in FieldKeys by { assert key.FullNameKey? || key.EmailKey? || key.LocationKey?
        || key.DatesKey? || key.GoalKey? || key.CapitalRangeKey? || key.AccommodationKey?
        || key.MarketFocusKey? || key.NotesKey?; }
      var k :| 0 <= k < |FieldKeys| && FieldKeys[k] == key;
    }
  }

  /** No short-circuit: the issue list names a key exactly when that key's rule
      fails, and names nothing else. */
  lemma IssuesReportEveryBrokenKey(raw: Raw, isEmail: EmailRule, key: Key)
    ensures (exists x :: x in CollectIssues(raw, isEmail) && x.path == [key])
            <==> !FieldRule(key, FieldAt(raw, key), isEmail)
    ensures forall x :: x in CollectIssues(raw, isEmail) ==> |x.path| == 1
  {
    assert key in FieldKeys by { assert key.FullNameKey? || key.EmailKey? || key.LocationKey?
      || key.DatesKey? || key.GoalKey? || key.CapitalRangeKey? || key.AccommodationKey?
      || key.MarketFocusKey? || key.NotesKey?; }
    CollectFromReports(FieldKeys, raw, isEmail, key);
  }

  /** Builds the typed record from an accepted object. */
  function Build(raw: Raw, isEmail: EmailRule): (app: Application)
    requires Accepts(raw, isEmail)
    ensures Encode(app) == raw
  {
    assert FieldRule(FullNameKey, FieldAt(raw, FullNameKey), isEmail);
    assert FieldRule(EmailKey, FieldAt(raw, EmailKey), isEmail);
    assert FieldRule(LocationKey, FieldAt(raw, LocationKey), isEmail);
    assert FieldRule(DatesKey, FieldAt(raw, DatesKey), isEmail);
    assert FieldRule(GoalKey, FieldAt(raw, GoalKey), isEmail);
    assert FieldRule(CapitalRangeKey, FieldAt(raw, CapitalRangeKey), isEmail);
    assert FieldRule(AccommodationKey, FieldAt(raw, AccommodationKey), isEmail);
    assert FieldRule(MarketFocusKey, FieldAt(raw, MarketFocusKey), isEmail);
    assert FieldRule(NotesKey, FieldAt(raw, NotesKey), isEmail);
    Application(
      raw.fullName.s, raw.email.s, raw.location.s, raw.dates.s,
      ParseGoal(raw.goal.s).value,
      ParseCapitalRange(raw.capitalRange.s).value,
      ParseAccommodation(raw.accommodation.s).value,
      raw.marketFocus.s,
      if raw.notes.Absent? then None else Some(raw.notes.s))
  }

  /** `applicationSchema.safeParse(body)`. */
  function Parse(body: JsonBody, isEmail: EmailRule): (r: Result<Application, seq<Issue>>)
    ensures r.Success? <==> body.Object? && Accepts(body.fields, isEmail)
    ensures r.Success? ==> Encode(r.value) == body.fields && Valid(r.value, isEmail)
    ensures r.Failure? ==> r.error != []
    ensures body.NonObject? ==> r == Failure([Issue([], InvalidType)])
    ensures body.Object? && r.Failure? ==> r.error == CollectIssues(body.fields, isEmail)
  {
    match body
    case NonObject => Failure([Issue([], InvalidType)])
    case Object(raw) =>
      NoIssuesIffAccepts(raw, isEmail);
      var issues := CollectIssues(raw, isEmail);
      if issues != [] then Failure(issues)
      else
        var app := Build(raw, isEmail);
        ValidIffEncodingAccepted(app, isEmail);
        Success(app)
  }

  /** The typed predicate and the wire-level rules agree. */
  lemma ValidIffEncodingAccepted(app: Application, isEmail: EmailRule)
    ensures Valid(app, isEmail) <==> Accepts(Encode(app), isEmail)
  {
    var raw := Encode(app);
    EnumNamesRoundTrip(app.goal, app.capitalRange, app.accommodation);
    if Accepts(raw, isEmail) {
      assert FieldRule(FullNameKey, FieldAt(raw, FullNameKey), isEmail);
      assert FieldRule(EmailKey, FieldAt(raw, EmailKey), isEmail);
      assert FieldRule(LocationKey, FieldAt(raw, LocationKey), isEmail);
      assert FieldRule(DatesKey, FieldAt(raw, DatesKey), isEmail);
      assert FieldRule(MarketFocusKey, FieldAt(raw, MarketFocusKey), isEmail);
      assert FieldRule(NotesKey, FieldAt(raw, NotesKey), isEmail);
    }
  }

  /** The client sends `JSON.stringify(values)` and the server parses it with
      the same schema: a record is accepted back, unchanged, exactly when it is
      valid, so the two sides never disagree. */
  lemma ParseEncodeRoundTrip(app: Application, isEmail: EmailRule)
    ensures Valid(app, isEmail) ==> Parse(Object(Encode(app)), isEmail) == Success(app)
    ensures !Valid(app, isEmail) ==> Parse(Object(Encode(app)), isEmail).Failure?
  {
  }

  // ---------------------------------------------------------------------------
  // Boundary cases of individual rules
  // ---------------------------------------------------------------------------

  /** Replaces the value under one key. */
  function WithField(raw: Raw, key: Key, f: JsonField): (raw': Raw)
    ensures FieldAt(raw', key) == f
    ensures forall other: Key :: other != key ==> FieldAt(raw', other) == FieldAt(raw, other)
  {
    match key
    case FullNameKey => raw.(fullName := f)
    case EmailKey => raw.(email := f)
    case LocationKey => raw.(location := f)
    case DatesKey => raw.(dates := f)
    case GoalKey => raw.(goal := f)
    case CapitalRangeKey => raw.(capitalRange := f)
    case AccommodationKey => raw.(accommodation := f)
    case MarketFocusKey => raw.(marketFocus := f)
    case NotesKey => raw.(notes := f)
  }

  /** Rules are independent: replacing one key of an accepted object keeps it
      accepted exactly when the new value satisfies that key's own rule. */
  lemma AcceptsAfterReplacing(raw: Raw, isEmail: EmailRule, key: Key, f: JsonField)
    requires Accepts(raw, isEmail)
    ensures Accepts(WithField(raw, key, f), isEmail) <==> FieldRule(key, f, isEmail)
  {
  }

  /** `fullName` and `location` need two code units; `dates` needs three. */
  lemma TextMinimumBoundaries(s1: string, s2: string, s3: string, isEmail: EmailRule)
    requires |s1| == 1 && |s2| == 2 && |s3| == 3
    requires JsString.InBasicPlane(s1) && JsString.InBasicPlane(s2) && JsString.InBasicPlane(s3)
    ensures !FieldRule(FullNameKey, Str(s1), isEmail) && FieldRule(FullNameKey, Str(s2), isEmail)
    ensures !FieldRule(LocationKey, Str(s1), isEmail) && FieldRule(LocationKey, Str(s2), isEmail)
    ensures !FieldRule(DatesKey, Str(s2), isEmail) && FieldRule(DatesKey, Str(s3), isEmail)
  {
    JsString.LengthIsCountIffBasicPlane(s1);
    JsString.LengthIsCountIffBasicPlane(s2);
    JsString.LengthIsCountIffBasicPlane(s3);
  }

  /** Lengths are UTF-16 code units: one character outside the Basic
      Multilingual Plane already satisfies a two-unit minimum. */
  lemma AstralCharacterIsTwoUnits(c: char, isEmail: EmailRule)
    requires c as int >= 0x1_0000
    ensures FieldRule(FullNameKey, Str([c]), isEmail)
  {
  }

  /** `notes` may be missing or empty; 1000 units pass and 1001 do not, and
      `null` or any other non-string is refused. */
  lemma NotesBoundaries(n1000: string, n1001: string, isEmail: EmailRule)
    requires JsString.Length(n1000) == 1000 && JsString.Length(n1001) == 1001
    ensures FieldRule(NotesKey, Absent, isEmail) && FieldRule(NotesKey, Str(""), isEmail)
    ensures FieldRule(NotesKey, Str(n1000), isEmail) && !FieldRule(NotesKey, Str(n1001), isEmail)
    ensures !FieldRule(NotesKey, NonString, isEmail)
  {
  }

  /** The enum keys accept exactly the listed literals; `marketFocus` is open
      text that only needs two units. */
  lemma EnumKeysAcceptExactlyTheirLiterals(s: string, isEmail: EmailRule)
    ensures FieldRule(GoalKey, Str(s), isEmail) <==> ParseGoal(s).Some?
    ensures FieldRule(CapitalRangeKey, Str(s), isEmail) <==> ParseCapitalRange(s).Some?
    ensures FieldRule(AccommodationKey, Str(s), isEmail) <==> ParseAccommodation(s).Some?
    ensures FieldRule(MarketFocusKey, Str(s), isEmail) <==> JsString.Length(s) >= 2
  {
  }

  /** The e-mail value matters only through the e-mail check: an accepted
      object stays accepted under any other address the check admits, and is
      refused under one it does not. */
  lemma EmailOnlyMattersThroughIsEmail(raw: Raw, isEmail: EmailRule, other: string)
    requires Accepts(raw, isEmail)
    ensures Accepts(WithField(raw, EmailKey, Str(other)), isEmail) <==> isEmail(other)
  {
  }
}
