# Residency application intake — a Dafny model

This project models the one part of the Trading Itinerario site with a contract: the
application-intake path. A visitor fills in a nine-field form, and the form checks it
against a shared zod schema. The page then posts it to `POST /api/apply`. That endpoint
checks the mail configuration, validates the payload again against the same schema, and
e-mails a plain-text summary to the operator.

Modules, one per part of the program:

- `JsString` (`js_string.dfy`): JavaScript's `.length`, counted in UTF-16 code units.
- `Application` (`application.dfy`): the schema of `lib/application.ts`. It defines the typed
  record with its three closed enumerations and the JSON wire shape. It also defines a
  zod-style `Parse`, which collects every issue before deciding, and the reference rule per key.
- `Lines` (`lines.dfy`): `Array.prototype.join`, plus a `split` that reads a joined text back.
- `ApplyRoute` (`apply_route.dfy`): the `POST` handler as a pure function of three inputs:
  the configuration, the request body and the mail relay's outcome. It includes the message
  renderer and a reader for the rendered body.
- `ApplyForm` (`apply_form.dfy`): the page's dropdown tables and form defaults, and the
  idle/sending/success/error submit controller.
- `Base` (`base.dfy`): `Option` and `Result`.

The model's inputs stand in for what the program reads from outside:

- Environment variables become a `Config` value.
- `await request.json()` becomes a `Payload`: either unreadable, carrying the `SyntaxError`
  message, or a JSON body.
- `transporter.sendMail` becomes a `SendOutcome`.
- `fetch` becomes the `Reply` of a `Settle` event.
- zod's e-mail pattern is not visible. It is the parameter `isEmail: string -> bool`, and the
  form and the endpoint receive the same one.

The endpoint's configuration guard also tests the recipient. That test can never fail,
because the recipient falls back to a fixed address, so only the mail user and password
decide the 500 response. The model follows the code here and proves that the recipient
test is dead (`ApplyRoute.ConfiguredIffCredentials`).

## Model

| member | source | states |
|---|---|---|
| JsString.Length | lib/application.ts:4-7 | The length the `.min`/`.max` checks compare is JavaScript's UTF-16 length. It lies between the character count and twice that count. |
| JsString.LengthIsCountIffBasicPlane | lib/application.ts:4-7 | The UTF-16 length equals the character count exactly when no character lies above U+FFFF. |
| Application.ParseGoal | lib/application.ts:8 | A `goal` string is accepted iff it is one of the three listed literals. The enumerator read back is named by that same literal. |
| Application.ParseCapitalRange | lib/application.ts:9-14 | A `capitalRange` string is accepted iff it is one of the four listed literals. The enumerator read back is named by that same literal. |
| Application.ParseAccommodation | lib/application.ts:15-20 | An `accommodation` string is accepted iff it is one of the four listed literals. The enumerator read back is named by that same literal. |
| Application.EnumNamesRoundTrip | lib/application.ts:8-20 | Every enumerator's wire name is one of the schema's literals and parses back to that enumerator. |
| Application.Valid | lib/application.ts:3-23 | The nine-field rule on the typed record. `ValidIffEncodingAccepted` proves it equal to the per-key rules on the record's JSON form. `ParseEncodeRoundTrip` proves it decides whether the server accepts the record. |
| Application.Encode | app/page.tsx:401 | `JSON.stringify(values)`: `notes` is dropped exactly when it is undefined. `EncodeInjective` proves nothing is lost, and `Parse` reads the encoding back (`ParseEncodeRoundTrip`). |
| Application.EncodeInjective | app/page.tsx:401 | `JSON.stringify` of the form values loses nothing: two records with the same JSON are equal. |
| Application.CheckKey | lib/application.ts:4-22 | The check for one key raises issues exactly when that key's rule fails, and each of those issues is located at that key. |
| Application.CollectFrom | lib/application.ts:3-23 | Checking a list of keys raises no issue iff every key's rule holds. Every issue is located at one of those keys. |
| Application.CollectFromReports | lib/application.ts:3-23 | Checking does not stop at the first failure. A key is reported iff its own rule fails. |
| Application.CollectIssues | lib/application.ts:3-23 | The issue list `safeParse` reports for an object. `NoIssuesIffAccepts` proves it empty iff all nine rules hold. `IssuesReportEveryBrokenKey` proves it names a key iff that key's rule fails. |
| Application.NoIssuesIffAccepts | lib/application.ts:3-23 | All or nothing: an object raises no issue iff all nine rules hold at once. |
| Application.IssuesReportEveryBrokenKey | lib/application.ts:3-23 | For each of the nine keys, the issue list names that key iff its rule fails. Every issue has a one-key path. |
| Application.Build | lib/application.ts:3-23 | From an accepted object, the typed record is built with every field unchanged: it re-encodes to exactly that object. |
| Application.Parse | lib/application.ts:3-23 | `safeParse` succeeds iff the body is an object whose nine rules all hold, and the result re-encodes to the input and is `Valid`. A non-object fails with one root-level type issue. An object that fails carries exactly the collected issue list, which names every broken key and nothing else. |
| Application.ValidIffEncodingAccepted | lib/application.ts:3-23 | The typed `Valid` predicate holds iff the record's JSON form satisfies every per-key rule. |
| Application.ParseEncodeRoundTrip | app/page.tsx:380-402 | The client validates with the schema and sends `JSON.stringify(values)`. The server accepts that body, giving back the same record, exactly when the record is valid. |
| Application.AcceptsAfterReplacing | lib/application.ts:3-23 | The rules are independent. Replacing one key of an accepted object keeps it accepted iff the new value passes that key's own rule. |
| Application.TextMinimumBoundaries | lib/application.ts:4-7 | A 1-character `fullName`/`location` is refused and a 2-character one accepted. A 2-character `dates` is refused and a 3-character one accepted. |
| Application.AstralCharacterIsTwoUnits | lib/application.ts:4 | A single character above U+FFFF counts as two units, so it already passes `fullName`'s minimum of 2. |
| Application.NotesBoundaries | lib/application.ts:22 | `notes` may be absent or empty. A 1000-unit note passes and a 1001-unit note fails. A non-string value (such as `null`) fails. |
| Application.EnumKeysAcceptExactlyTheirLiterals | lib/application.ts:8-21 | The three enum keys accept exactly their literals. `marketFocus` is open text with only a 2-unit minimum. |
| Application.EmailOnlyMattersThroughIsEmail | lib/application.ts:5 | With every other key fixed, an accepted object stays accepted under a new address iff `isEmail` admits that address. |
| Lines.SplitJoin | app/api/apply/route.ts:34-44 | Splitting a `join("\n")` on newlines gives back the joined lines, as long as no line contains a newline. |
| Lines.Join | app/api/apply/route.ts:44 | `.join("\n")`. Its partner `Split` undoes it on newline-free lines (`SplitJoin`). `JoinLast` shows the last line follows the last separator. |
| ApplyRoute.Recipient | app/api/apply/route.ts:8 | The recipient is never empty. It is `APPLY_TO_EMAIL` when that is set and non-empty, and otherwise the fallback address. |
| ApplyRoute.ConfiguredIffCredentials | app/api/apply/route.ts:7-10 | The configuration guard passes iff user and password are both set and non-empty. The recipient part never fires. |
| ApplyRoute.Configured | app/api/apply/route.ts:10 | Passes when user, password and recipient are all truthy, the negation of the line-10 guard. `ConfiguredIffCredentials` proves its recipient part is always true. `Handle` answers 500 exactly when it fails. |
| ApplyRoute.RenderMail | app/api/apply/route.ts:29-33 | The message goes to the recipient and replies to the applicant. The sender address between the angle brackets is the configured user. The subject is the fixed prefix followed by the full name. |
| ApplyRoute.NotesText | app/api/apply/route.ts:43 | The note when it is truthy, otherwise `"N/A"`. `BodyEndsWithNotesLine` proves the body ends with the placeholder for an absent or empty note and with the note verbatim otherwise. |
| ApplyRoute.RenderBody | app/api/apply/route.ts:34-44 | The nine labelled lines joined by newlines. `BodyReadsBack` proves the independent reader `ReadBody` recovers the nine values in label order. |
| ApplyRoute.BodyReadsBack | app/api/apply/route.ts:34-44 | The body is nine lines, labelled Name … Notes in order, and reading it back recovers the nine reported values. This holds whenever no value contains a newline. |
| ApplyRoute.BodyEndsWithNotesLine | app/api/apply/route.ts:43 | The body ends with `\nNotes: N/A` when notes is absent or empty. Otherwise it ends with `\nNotes: ` followed by the note verbatim. |
| ApplyRoute.NotesPlaceholderIsAmbiguous | app/api/apply/route.ts:43 | A missing note, an empty note and the literal note `N/A` render the same body. |
| ApplyRoute.CaughtMessage | app/api/apply/route.ts:48-51 | A caught `Error` contributes its own message. Any other thrown value gives "Unable to submit application.". |
| ApplyRoute.Handle | app/api/apply/route.ts:5-53 | Missing credentials give 500 with the fixed message and no mail. An unreadable or invalid body gives 400 with its error and no mail. A delivered send gives 200 `{ok: true}`, with exactly the one rendered message sent. A failed send gives 400 with the caught message. |
| ApplyRoute.ConfigurationCheckedFirst | app/api/apply/route.ts:7-17 | Without credentials, the response is the same 500 for every payload and send outcome, including a malformed payload. |
| ApplyRoute.BrokenKeyIsReported | app/api/apply/route.ts:17 | With the configuration in place, a body whose key breaks its rule gets a 400 with nothing sent. Its zod message carries an issue located at that key. |
| ApplyRoute.ExampleSubmission | app/api/apply/route.ts:29-47 | The worked example ("Luca B.", empty notes) gives 200. One message is sent, to the recipient with reply-to the applicant, and its notes line reads `N/A`. |
| ApplyForm.DropdownsMatchSchema | app/page.tsx:345-363 | The values of the goal, capital-range and accommodation dropdowns are exactly the schema's enum literals, in the same order. |
| ApplyForm.MarketsSatisfyMarketFocusRule | app/page.tsx:365-372 | Every market in the dropdown passes the `marketFocus` rule. |
| ApplyForm.Defaults | app/page.tsx:382-392 | `defaultValues`. `DefaultsAreOffered` proves every preselected value is a dropdown entry. `DefaultsAreInvalid` proves the blank form fails on name, location and dates. |
| ApplyForm.DefaultsAreOffered | app/page.tsx:382-392 | The preselected goal, capital range, accommodation and market are all entries of their dropdowns. |
| ApplyForm.DefaultsAreInvalid | app/page.tsx:382-392 | The blank form is invalid because its empty name, location and dates break their rules. Every preselected value passes its own rule. |
| ApplyForm.Initial | app/page.tsx:376-378 | The controller starts `idle`, with no request sent. |
| ApplyForm.NoticeFor | app/page.tsx:951-956 | The success note shows iff the status is `success`, and the error note iff it is `error`. |
| ApplyForm.Step | app/page.tsx:395-411 | One event of the controller: edit, submit (guarded by the disabled button at line 947 and the resolver) or a reply. `SubmitIgnoredWhileSending`, `SubmitSendsValidValues`, `SettleTransitions` and `StepKeepsConsistent` state its behaviour. |
| ApplyForm.SubmitIgnoredWhileSending | app/page.tsx:947 | While `sending`, the button is disabled: a submit changes nothing and sends nothing. |
| ApplyForm.SubmitSendsValidValues | app/page.tsx:395-402 | Invalid values are held back by the resolver. Valid ones move the status to `sending` and are sent as their JSON encoding. |
| ApplyForm.SettleTransitions | app/page.tsx:403-411 | A request ends in `success` iff the response is ok, and the form is then reset to its defaults. A non-ok response or a network failure ends in `error` with the values kept. |
| ApplyForm.StepKeepsConsistent | app/page.tsx:395-411 | Each event preserves the controller invariant: `sending` exactly when one request is outstanding, never more than one, and every submitted value valid. |
| ApplyForm.RunKeepsConsistent | app/page.tsx:395-411 | The invariant survives any sequence of edits, submits and replies. |
| ApplyForm.FromFirstRender | app/page.tsx:395-411 | From the first render, at most one request is ever in flight. The status is `sending` exactly while one is. The endpoint's validation accepts every body the page sends and reads it back as the submitted values. |

## Left out

- Lone UTF-16 surrogates: a JavaScript string may hold one, but a Dafny `char` is a Unicode scalar value. The model cannot represent such strings.
- zod's e-mail regular expression is not part of this model. The e-mail rule is the parameter `isEmail`.
- The text of a `ZodError`'s message: zod generates it from the issues, so the response carries the issue list (`ZodMessage`) instead. zod's default messages for a wrong type or an unknown enum value are likewise not modelled.
- The nodemailer transport and its SMTP settings (app/api/apply/route.ts:19-27), `NextResponse` and async/await: these are foreign calls. A send is an injected `SendOutcome`, and `Response.sent` lists only messages the relay accepted.
- Reading `process.env`: the handler takes an explicit `Config`.
- JSON values inside the nine keys are reduced to absent / string / other, and keys outside the schema are dropped, as zod strips them.
- ApplyRoute.BodyReadsBack: stated only for values without a newline. A free-text field can contain newlines, and then the nine lines cannot be told apart.
- ApplyForm.Step: a submit is one atomic step. The click, the resolver check and `setStatus("sending")` happen together, with the button disabled from then on. In the page, `setStatus` runs only after `handleSubmit` has awaited the resolver, and the button is disabled only after React re-renders. So "at most one request in flight" (`FromFirstRender`) ignores a double submit in that window.
- The submit button's caption (`sending` vs `submit`, app/page.tsx:949), all other JSX, the bilingual copy, animation, navigation and the language toggle: these are presentational.
- No timeouts, retries or duplicate-send suppression exist in the code. A hung `fetch` is simply a `Sending` state with no `Settle` event.
