# Cohort enrolment backend — a verified Dafny model

The backend runs people through the ATLP DevPulse trainee programme. It is a Strapi
application: an administrator invites a person by email, the invited person registers, and a
trainee is enrolled in a *cohort-program*, which pairs a cohort with a programme. This
project models how that backend decides things, over an abstract entity store, and proves
what those decisions guarantee.

- **Store.** Each collection (a model, possibly owned by the `users-permissions` plugin) is a
  sequence of records. `findOne(where, [])` returns the first raw record that matches.
  `find({})` returns every record, with its relation fields populated. `create` appends a
  record under a fresh id. The store is a class (`Store.EntityStore`) whose `tables` and
  `nextId` the write methods update in place. The database service is split by read and
  write side: module `Database` holds the lookups and `normalizeModelName`; module
  `DatabaseWrites` holds `create` and `addRelatedCombinations`.
- **Lifecycle hooks.** `Query.CreateRecord` is the query layer's `create`: it runs the model's
  `beforeCreate`, inserts the record, then runs `afterCreate` on the populated result.
  - The invite hook stores the email in lower case and starts the invitation email.
  - The cohort-program and user-program hooks derive the record's `name` from the records it
    refers to.
  - The programs hooks (after create and after update) and the cohort hook (after create)
    pair the new record with every counterpart record. The combinations are keyed by model
    names with one trailing "s" dropped. Nothing checks for existing pairs, so repeated
    updates add duplicates. The cohort model has no after-update hook.
- **Invitations.** The invite controller rejects, in order:
  1. a missing email;
  2. an email some user already has;
  3. an email an invite was already sent to.

  Both lookups use the lower-case email. Otherwise exactly one invite is created.
- **Registration.** There are two entry points.
  - The user controller's `create` checks email, username and password. It then computes the
    default cohort-program, before it looks at the invite, so an error there comes before
    "not invited". The default is the latest started one of the "Bootcamp" programme; on a
    tie of dates, the first in store order wins. It then checks, in order: an invite exists
    for the email as given; the invite's schedule or else the default; the inviter's Manager
    role; the role; that the username is free; and, only when emails must be unique, that the
    lower-case email is free. It then adds the user, and enrols the user only if the role is
    "Trainee".
  - The auth controller's `register` refuses, in order: registration disabled, no password, no
    email, a password that looks hashed, no invite, no role, a malformed email, an email
    taken. It then stores a local user with the lower-case email, the invite's role, a hashed
    password, and `confirmed` set when no confirmation email is sent.
- **User update.** A change is refused when it holds an empty email or username, or an empty
  password for a local user. It is also refused when another user (one with a different id)
  already holds the username, or, only when emails must be unique, the lower-case email. The email is lowered only when emails must be unique.
  A password equal to the stored one is dropped from the change.
- **Invitation email.** The template uses fallback placeholders in the html greeting. The
  delivery loop retries with exponential backoff while the delay is strictly below a ceiling.
  It is modelled as a state machine over naturals, with the mail sender as an oracle that
  answers each attempt.

In `extensions/users-permissions/controllers/Auth.js`, `generateTemplate` and
`sendEmailInvite` are copies of the ones in `api/email/services/Email.js`, with the same text
throughout. Module `Email` models them once for both.

## Model

| member | source | states |
|---|---|---|
| `Json.Prop` | api/cohort-program/models/cohort-program.js:15 | Reading a property throws a TypeError on null and undefined, and on no other value; on an object it yields that field, or undefined when the field is absent. |
| `Json.ToLowerCase` | api/invite/models/invite.js:12 | Succeeds exactly on strings, with the ASCII lower-case form; on null or undefined it throws the property-read error. |
| `Json.LowerIdempotent` | api/invite/models/invite.js:12 | Lower-casing twice gives the same result as lower-casing once. |
| `Store.FindFirst` | api/database/services/Database.js:20 | None exactly when no row matches; otherwise the row at the first matching position, with every row before it not matching. |
| `Store.Find` | api/database/services/Database.js:13 | Returns one record per stored row, in order, each with its relations populated. |
| `Store.Populate` | api/database/services/Database.js:13 | Populating keeps the record's keys, and every field that is not a relation. |
| `Store.StoredForm` | api/database/services/Database.js:35 | A relation given as an object is stored as its id; every other field is stored as given. |
| `Store.IdsDiffer` | api/database/services/Database.js:35 | Ids handed out at different counts are different. |
| `Store.Patched` | extensions/users-permissions/controllers/user/api.js:221-224 | Overwrites only the first matching row, field by field, and leaves all other rows as they were. |
| `Store.EntityStore.Insert` | api/database/services/Database.js:35 | Appends the stored form of the data, under the next id, to that collection alone, and advances the id. |
| `Store.EntityStore.Update` | extensions/users-permissions/controllers/user/api.js:221-224 | Patches the first matching row and returns it patched; when nothing matches it returns none and changes nothing. |
| `Database.PluginFor` | api/database/services/Database.js:18 | The users-permissions plugin is used exactly for the models "user" and "role". |
| `Database.WhereOf` | api/database/services/Database.js:19 | A string filter becomes `{id: filter}`; any other filter is passed through unchanged. |
| `Database.GetAll` | api/database/services/Database.js:12-14 | Every record of the model's API collection, in store order and as many as are stored, each with its relations populated. |
| `Database.GetOne` | api/database/services/Database.js:16-21 | None exactly when no record of the plugin's or the API's collection matches the filter (a string filter standing for `{id}`); otherwise a stored record that matches it (the first, by `Store.FindFirst`). |
| `Database.GetOneByIdString` | api/database/services/Database.js:16-21 | A lookup by an id string is the lookup by `{id}`, in the plugin's user or role collection or else in the API collection. |
| `Database.GetIdFromName` | api/database/services/Database.js:23-26 | Succeeds exactly when some row has the name, and then yields the id of the first such row; it throws when there is none. |
| `Database.NormalizeModelName` | api/database/services/Database.js:49-51 | A name ending in "s" loses exactly that letter; any other name is returned unchanged. |
| `Database.NormalizeStripsOnlyOne` | api/database/services/Database.js:50 | Only one trailing "s" is removed, however many there are. |
| `Database.NormalizeModelNames` | api/database/services/Database.js:49-51 | "programs" becomes "program"; "cohort" and "cohort-program" stay the same. |
| `DatabaseWrites.Create` | api/database/services/Database.js:28-46 | The store after the call is `Stored`: unchanged if validation or the hook fails, with the error returned. Otherwise there is one new row. Without files the created entry is returned; with files the entry read back by its id. The invite email is started only on success. |
| `DatabaseWrites.RefetchFindsNewRow` | api/database/services/Database.js:43 | Reading back by a fresh id finds exactly the inserted row. |
| `DatabaseWrites.NewRowFindable` | api/database/services/Database.js:35-45 | The returned entry carries the new row's id, and a lookup by that id finds a row. |
| `DatabaseWrites.StoredCombinationIsStored` | api/database/services/Database.js:62-65 | Creating a combination is an ordinary create in the cohort-program collection. |
| `DatabaseWrites.Combination` | api/database/services/Database.js:62-65 | The record has exactly the two normalised keys: the target's key holds the target id, and the current model's key holds the result id when the two keys differ. |
| `DatabaseWrites.Combinations` | api/database/services/Database.js:59-66 | One combination per target record, in the targets' order. |
| `DatabaseWrites.CreateCombination` | api/database/services/Database.js:62-65 | One create of the loop: the store becomes `StoredCombination`, and no email is started. |
| `DatabaseWrites.AddRelatedCombinations` | api/database/services/Database.js:53-67 | Creates the combinations with every target, one after another; the store ends as those creates leave it, and no email is started. |
| `DatabaseWrites.StoredAllElsewhere` | api/database/services/Database.js:61-66 | A run of combination creates changes no collection other than cohort-program, whatever fails. |
| `DatabaseWrites.StoredAllAppends` | api/database/services/Database.js:59-66 | When every create succeeds, the run appends exactly one named cohort-program per combination, in order, under consecutive ids. |
| `DatabaseWrites.AppendsFrom` | api/database/services/Database.js:59-66 | The same, for a resulting world named by the caller; the programs and cohorts are left as they were. |
| `DatabaseWrites.RepeatedRunDuplicates` | api/database/services/Database.js:61-66 | With no existence check, a second run appends the same records again after the first run's. |
| `DatabaseWrites.PlannedDiffersOnlyInIds` | api/database/services/Database.js:61-66 | Two runs over the same combinations store records that are equal except for their ids. |
| `DatabaseWrites.PlannedCopies` | api/database/services/Database.js:61-66 | A run numbered from where the first stopped copies the first run's records one for one, each under a different id. |
| `DatabaseWrites.StoredAllEmpty` | api/database/services/Database.js:60 | A run over no targets changes nothing. |
| `DatabaseWrites.FindUnrelated` | api/database/services/Database.js:59 | A collection without relations reads the same wherever only other collections changed. |
| `Query.Prepared` | api/database/services/Database.js:35 | The data as the model's `beforeCreate` leaves it: unchanged for a model without a hook; for an invite the same keys with the email lowered; for a cohort-program or user-program one `name` more; every other field kept. `InviteModel.Lowercased` and the two `Named` functions state the rest. |
| `Query.Returned` | api/invite/models/invite.js:15-17 | The entry handed back after `afterCreate` keeps every field of the created entry, except that an invite's falsy `inviter` or `role` has become `{}` (`Email.PatchInvite`). |
| `Query.Inserted` | api/database/services/Database.js:35 | The row is appended to its collection, and every other collection is unchanged. |
| `Query.Notified` | api/invite/models/invite.js:15-17 | Creating an invite starts exactly one email; creating anything else starts none. |
| `Query.InviteEmailIsStored` | api/invite/models/invite.js:11-17 | The invitation email goes to the stored address: the lower-case form of the email given. |
| `Query.BeforeCreate` | api/database/services/Database.js:35 | Runs the model's hook: on failure the data is untouched and the error returned; otherwise the data becomes what the hook makes of it. |
| `Query.CreateRecord` | api/database/services/Database.js:35 | A failing hook changes nothing. Otherwise the prepared data is inserted under the next id, the populated entry (patched by the invite hook) is returned, and an invite's email is started. |
| `Email.TemplateOf` | api/email/services/Email.js:19-33 | The message built from a patched invite has the fixed subject and an html body opening with the welcome heading; `Email.GreetingFallbacks` states the whole text and html. |
| `Email.PatchInvite` | api/email/services/Email.js:17-18 | A falsy inviter or role becomes an empty object; truthy ones and every other field are kept. |
| `Email.PatchKeepsFields` | api/email/services/Email.js:17-22 | Replacing a falsy inviter or role by `{}` never changes the first name, last name or role name that destructuring reads. |
| `Email.GreetingFallbacks` | api/email/services/Email.js:16-33 | For every invite: the subject is fixed; in the html each of first name, last name and role name appears itself when truthy and as "ATLP", "Rwanda" or "a contributor" otherwise; the text shows each as it is, `undefined` included. |
| `Email.AnonymousInvite` | api/email/services/Email.js:24-32 | With no inviter and no role, the subject is the constant one, the html falls back entirely, and the text shows "undefined" three times. |
| `Email.GenerateTemplate` | api/email/services/Email.js:16-34 | Patches the invite in place and builds the message from the patched invite. |
| `Email.SendEmailInvite` | api/email/services/Email.js:37-60 | Patches the invite and starts one delivery to its email, with the template from the patched invite; nothing is returned. |
| `Email.Step` | api/email/services/Email.js:41-57 | One run of `sendMail` makes one more attempt. It is delivered exactly when the mail sender succeeds. It gives up exactly when the sender fails and the current delay is not below the ceiling. Otherwise it records a wait of the current delay and multiplies the delay by the multiplier; a stopped run leaves the waits and the delay as they were. |
| `Email.Trace` | api/email/services/Email.js:38-59 | The state after `n` runs from the start (the initial delay, no attempts, no waits): at most `n` attempts; while still trying, exactly `n` attempts and `n` waits; once stopped, at least one attempt and one wait fewer than attempts. `Email.WaitsCharacterized` and `Email.StoppedTrace` state the rest. |
| `Email.DelayNext` | api/email/services/Email.js:52 | Each multiplication moves the delay one power of M further. |
| `Email.PowersAt` | api/email/services/Email.js:50-52 | The i-th of the powers D0, D0·M, … is D0·Mⁱ. |
| `Email.WaitsArePowers` | api/email/services/Email.js:39-52 | Under permanent failure the waits are D0, D0·M, D0·M², … and each is below the ceiling; the first delay that is not waited reaches the ceiling. |
| `Email.WaitsCharacterized` | api/email/services/Email.js:50-53 | Conversely, the waits are exactly the powers before the first one that reaches the ceiling. |
| `Email.TraceWhileTrying` | api/email/services/Email.js:41-53 | While still trying after n runs: n failed attempts, n waits D0·Mⁱ each below the ceiling, a current delay of D0·Mⁿ, and the retry notice. |
| `Email.TraceTryingUpTo` | api/email/services/Email.js:50-52 | Under permanent failure, the loop keeps trying as long as every delay so far was below the ceiling. |
| `Email.NeverGivesUp` | api/email/services/Email.js:50-52 | If D0 is below the ceiling and the delay cannot grow (D0 = 0 or M ≤ 1), permanent failure retries forever. |
| `Email.GivesUpIffConverges` | api/email/services/Email.js:50-56 | Under permanent failure the loop gives up if and only if D0 reaches the ceiling, or D0 > 0 and M > 1. |
| `Email.ExampleSchedule` | api/email/services/Email.js:39-55 | With D0 = 1000, M = 2 and a ceiling of 5000, the waits are 1000, 2000 and 4000, and the fourth attempt gives up. |
| `Email.GivingUpNeedsConvergence` | api/email/services/Email.js:50-56 | Whatever the mail sender answers, a configuration that does not converge never gives up, and its delay never exceeds D0. |
| `Email.StoppedTrace` | api/email/services/Email.js:41-58 | When the loop stops: every attempt but the last failed; it stops delivered exactly when the last attempt succeeded; every wait was a power below the ceiling; giving up happens only under a converging configuration, after exactly the waits in `Waits`. |
| `Email.LoopStep` | api/email/services/Email.js:41-58 | One run of `sendMail` either stops or keeps the loop's invariant, and strictly shrinks what is left: the distance to the ceiling, or the runs up to a known success. |
| `Email.StoppedConcludes` | api/email/services/Email.js:41-58 | A run that has just stopped satisfies everything `Concluded` says, including that `resp` reads "Invitation email sent to …" when delivered and the aborting message with the invite URL otherwise. |
| `Email.StepProgress` | api/email/services/Email.js:50-52 | Each run brings the loop closer to stopping, when the configuration converges. |
| `Email.SendMail` | api/email/services/Email.js:41-59 | Runs the loop to its end whenever the configuration converges or some attempt succeeds. It ends `Concluded`: all attempts but the last failed; success stops it with "Invitation email sent to …"; giving up, only under a converging configuration, comes after the waits D0·Mⁱ below the ceiling, with the aborting message carrying the invite URL. |
| `Email.Deliver` | api/email/services/Email.js:37-59 | A delivery that `sendEmailInvite` started is run by `sendMail`: the message is the template generated from the delivery's patched invite, with the fixed subject, and the loop to its recipient ends `Concluded`, delivered exactly when the last attempt succeeded. |
| `InviteModel.Lowercased` | api/invite/models/invite.js:12 | Succeeds exactly when the email is a string. The email becomes its lower-case form, and no other field changes. Otherwise it throws the error `toLowerCase` throws. |
| `InviteModel.LowercasedIdempotent` | api/invite/models/invite.js:12 | A second `beforeCreate` on the result changes nothing. |
| `InviteModel.CaseVariantsCollide` | api/invite/models/invite.js:12 | Emails that differ only in letter case are stored the same. |
| `InviteModel.BeforeCreate` | api/invite/models/invite.js:11-13 | Rewrites the email in place as `Lowercased` says, or throws and leaves the data untouched. |
| `InviteModel.AfterCreate` | api/invite/models/invite.js:15-17 | Starts exactly one invitation email, for the created record. |
| `InviteController.RequestedEmail` | api/invite/controllers/invite.js:16 | Without a truthy `data` field the email is the body's own; only the parsing of `data` can throw. |
| `InviteController.Refused` | api/invite/controllers/invite.js:18-36 | "No email" exactly when the email read is falsy. No refusal only when the email is a string and neither a user nor an invite holds its lower-case form. |
| `InviteController.Respond` | api/invite/controllers/invite.js:18-36 | A refusal becomes a server error exactly when reading or lowering the email threw, and a missing email gets the bad request "please specify the email". |
| `InviteController.Create` | api/invite/controllers/invite.js:13-45 | A rejected request changes nothing and gets its refusal. Otherwise the invite service makes exactly one create, and the response is the entry: the populated new invite without files, and with files the entry read back by its id. Every successful create, with files or without, starts exactly one email, for the patched new invite. A failed one starts none. |
| `InviteController.EmailSource` | api/invite/controllers/invite.js:16 | Without `data` the email is the body's own; with `data` it comes from parsing `data`, and the body's own email plays no part. |
| `InviteController.MissingEmailBeforeLookups` | api/invite/controllers/invite.js:18-20 | A missing or empty email is refused with "please specify the email", whatever the store holds. |
| `InviteController.ExistingUserTakesPrecedence` | api/invite/controllers/invite.js:22-32 | A user with the lower-case email is reported, even when an invite was sent too. |
| `InviteController.VerdictIgnoresCase` | api/invite/controllers/invite.js:22-28 | Requests whose emails differ only in letter case get the same verdict. |
| `InviteController.AcceptedRequestAddsOneInvite` | api/invite/controllers/invite.js:38-43 | An accepted request adds one invite, holding the lower-case email, and nothing else; a failed create changes nothing. |
| `InviteController.CaseVariantRefused` | api/invite/controllers/invite.js:26-28 | Once an invite is stored, any case variant of its email is refused. |
| `CohortProgramModel.DerivedName` | api/cohort-program/models/cohort-program.js:13-15 | The name is "cohort.name program.name", with the programme looked up by `data.program` and the cohort by `data.cohort`; if either is missing, reading `name` of null throws. |
| `CohortProgramModel.DerivedNameReads` | api/cohort-program/models/cohort-program.js:13-14 | The name depends only on the `program` and `cohort` fields. |
| `CohortProgramModel.Named` | api/cohort-program/models/cohort-program.js:12-16 | Sets `name` to the derived name, keeps every other field, or fails with the lookup's error. |
| `CohortProgramModel.SuppliedNameIgnored` | api/cohort-program/models/cohort-program.js:15 | A name supplied by the caller makes no difference. |
| `CohortProgramModel.NameReadsProgramsAndCohort` | api/cohort-program/models/cohort-program.js:13-14 | Only the programs and cohort collections are consulted. |
| `CohortProgramModel.BeforeCreate` | api/cohort-program/models/cohort-program.js:12-16 | Writes the name in place as `Named` says, or throws and leaves the data untouched. |
| `UserProgramModel.DerivedName` | api/user-program/models/user-program.js:13-15 | The name is "trainee.username - cohortProgram.name". A missing trainee throws on `username`; a missing cohort-program throws on `name`. |
| `UserProgramModel.DerivedNameReads` | api/user-program/models/user-program.js:13-14 | The name depends only on the `trainee` and `cohort_program_id` fields. |
| `UserProgramModel.LookupCollections` | api/user-program/models/user-program.js:12-14 | The trainee is looked up among the plugin's users, and the cohort-program in its own collection. |
| `UserProgramModel.Named` | api/user-program/models/user-program.js:11-16 | Sets `name` to the derived name, keeps every other field, or fails with the lookup's error. |
| `UserProgramModel.SuppliedNameIgnored` | api/user-program/models/user-program.js:15 | A name supplied by the caller makes no difference. |
| `UserProgramModel.BeforeCreate` | api/user-program/models/user-program.js:11-16 | Writes the name in place as `Named` says, or throws and leaves the data untouched. |
| `ProgramsModel.PairingsKeyed` | api/programs/models/programs.js:15 | One pairing per cohort, in the cohorts' order, each exactly `{program: result.id, cohort: cohort.id}`. |
| `ProgramsModel.AfterCreate` | api/programs/models/programs.js:14-16 | Creates the pairings of the new programme with every cohort. |
| `ProgramsModel.AfterUpdate` | api/programs/models/programs.js:17-19 | Creates the same pairings again after an update. |
| `ProgramsModel.OneCohortProgramPerCohort` | api/programs/models/programs.js:14-16 | When every create succeeds, one cohort-program is added per cohort, in order, under consecutive ids. |
| `ProgramsModel.UpdatesAccumulate` | api/programs/models/programs.js:14-19 | An update after a create pairs with the same cohorts again: a second full set is added, copying the first one record for one under new ids. |
| `CohortModel.PairingsKeyed` | api/cohort/models/cohort.js:14-18 | One pairing per programme, in order, each exactly `{cohort: result.id, program: programme.id}`. |
| `CohortModel.AfterCreate` | api/cohort/models/cohort.js:13-19 | Creates the pairings of the new cohort with every programme. |
| `CohortModel.NoProgramsNoPairings` | api/cohort/models/cohort.js:13-19 | With no programmes, nothing is created. |
| `CohortModel.OneCohortProgramPerProgram` | api/cohort/models/cohort.js:13-19 | When every create succeeds, one cohort-program is added per programme, in order, under consecutive ids. |
| `Selector.MissingStartIsNow` | extensions/users-permissions/controllers/user/api.js:15 | A missing start date counts as now: the record has started, and it sorts as starting now. |
| `Selector.Candidates` | extensions/users-permissions/controllers/user/api.js:43-47 | Throws exactly when a started record's programme cannot be read. Otherwise the result holds exactly the started records of the programme (no others), and no more records than there are. |
| `Selector.CandidatesInOrder` | extensions/users-permissions/controllers/user/api.js:43-47 | The filter keeps store order: each candidate sits at its own position in the rows, the positions increase, and every eligible row is among them. |
| `Selector.Insert` | extensions/users-permissions/controllers/user/api.js:49-51 | Adds exactly one element, as a permutation; the head is the new element when the sequence is empty or its date is not earlier than the old head's, and the old head otherwise. |
| `Selector.InsertPosition` | extensions/users-permissions/controllers/user/api.js:49-51 | The new element is placed right before the first element whose date is not later, and every element before it is strictly later. |
| `Selector.PlacedBehindHead` | extensions/users-permissions/controllers/user/api.js:49-51 | Placing behind a strictly later head moves the position one further. |
| `Selector.InsertDescending` | extensions/users-permissions/controllers/user/api.js:49-51 | Inserting into a latest-first sequence keeps it latest-first. |
| `Selector.SortDesc` | extensions/users-permissions/controllers/user/api.js:49-51 | The sort returns a permutation of its input. |
| `Selector.SortDescSorted` | extensions/users-permissions/controllers/user/api.js:49-51 | The sort returns the records latest first. |
| `Selector.FirstLatest` | extensions/users-permissions/controllers/user/api.js:49-51 | The position of a latest record, with every record before it strictly earlier. |
| `Selector.SortedHeadIsFirstLatest` | extensions/users-permissions/controllers/user/api.js:49-51 | The head of the stable sort is the first of the latest records. |
| `Selector.LatestIsFirstLatest` | extensions/users-permissions/controllers/user/api.js:49-51 | `[0]` of the sorted candidates is undefined only when there are none, and is otherwise the first of the latest. |
| `Selector.Latest` | extensions/users-permissions/controllers/user/api.js:49-51 | `[0]` of the sorted candidates: none exactly when there is no candidate, and otherwise one of them (`Selector.LatestIsFirstLatest` says which). |
| `Selector.DefaultCohortProgram` | extensions/users-permissions/controllers/user/api.js:39-51 | Throws exactly when no programme is named "Bootcamp" or a started cohort-program's programme cannot be read. Otherwise, it is none exactly when no cohort-program has started in the Bootcamp programme, and else one of the stored cohort-programs that has. |
| `Selector.LatestStarted` | extensions/users-permissions/controllers/user/api.js:39-51 | The default is none exactly when no record has started in the programme. Otherwise it is a started record of the programme; none starts later, and every candidate listed before it starts earlier. |
| `Selector.TieGoesToStoreOrder` | extensions/users-permissions/controllers/user/api.js:43-51 | The chosen default is a row of the store, and every eligible row before it in store order starts strictly earlier: a tie goes to the first in store. |
| `UserApi.Schedule` | extensions/users-permissions/controllers/user/api.js:64-69 | The invite's schedule, when it names a cohort-program that exists; the default otherwise. |
| `UserApi.InviterRole` | extensions/users-permissions/controllers/user/api.js:71-74 | None exactly when the invite has no inviter. Otherwise the stored user whose id is the inviter and the stored role whose id is that user's role; the reads throw only when there is an inviter. |
| `UserApi.Sponsor` | extensions/users-permissions/controllers/user/api.js:71-76 | `manager` is `[inviter.id]` exactly when the invite has an inviter whose role is named "Manager", and undefined otherwise. A missing inviting user or role throws. |
| `UserApi.RoleFilter` | extensions/users-permissions/controllers/user/api.js:78-81 | The role looked up is one whose id is the invite's role when the invite has one, and otherwise one whose type is the configured default role. |
| `UserApi.UserRecord` | extensions/users-permissions/controllers/user/api.js:114-120 | The body's fields, with provider "local", the role found and the lower-case email. |
| `UserApi.Admit` | extensions/users-permissions/controllers/user/api.js:35-51 | An admitted person sent a truthy email, username and password, and the default cohort-program could be computed. |
| `UserApi.Screened` | extensions/users-permissions/controllers/user/api.js:53-69 | An error computing the default comes first; then no invite for the email as given means "not invited"; an admitted person's invite is the one found for that email. |
| `UserApi.Invited` | extensions/users-permissions/controllers/user/api.js:71-120 | A throwing sponsor lookup and then a taken username refuse. An admitted person keeps the invite and cohort-program, and becomes the user record with provider "local", the role found and the lower-case email. |
| `UserApi.Hashed` | extensions/users-permissions/controllers/user/api.js:123-125 | The users-permissions service stores a truthy password hashed and every other field as given; the same holds for the `edit` of `update` (line 221). |
| `UserApi.MissingFieldsFirst` | extensions/users-permissions/controllers/user/api.js:35-37 | A missing email, then username, then password is refused, in that order, before the store is read. |
| `UserApi.UninvitedRejected` | extensions/users-permissions/controllers/user/api.js:53-62 | Without an invite for the email exactly as given, the person is refused with "email.notFound". |
| `UserApi.AdmittedInvite` | extensions/users-permissions/controllers/user/api.js:53-69 | An admitted person has an invite under the email as given, and gets its schedule or else the default cohort-program. |
| `UserApi.InvitedFacts` | extensions/users-permissions/controllers/user/api.js:71-120 | Once invited, admission needs a free username, and a free lower-case email when emails must be unique. It yields the sponsor and the role chosen by `invite.role` or `default_role`, and the user record. |
| `UserApi.Enrolment` | extensions/users-permissions/controllers/user/api.js:129-133 | Throws when the cohort-program or role is absent. A user-program is made only for the role named "Trainee": `{trainee, cohort_program_id}`, plus `manager` when there is one. |
| `UserApi.Enrol` | extensions/users-permissions/controllers/user/api.js:127-137 | A thrown error gives a bad request with its message. With no enrolment the store is unchanged; otherwise the store gains the user-program `create` makes. |
| `UserApi.AddUser` | extensions/users-permissions/controllers/user/api.js:123-137 | The given record is appended to the users under the next id. Without a user-program it is the only change; an enrolment error gives a bad request, and no enrolment answers `created` with the populated user. |
| `UserApi.Create` | extensions/users-permissions/controllers/user/api.js:22-138 | A refused person changes nothing. An admitted one is added as a user with a hashed password under the next id, and is then enrolled. When no user-program is created (an error, or a role other than Trainee), the user row is the only change to the store and the id counter advances by one. |
| `UserApi.Revision` | extensions/users-permissions/controllers/user/api.js:162-219 | An accepted change has no empty email or username, no username another user holds, and no field the body did not send. |
| `UserApi.EmailRevision` | extensions/users-permissions/controllers/user/api.js:195-211 | Without an email, or when emails need not be unique, the body is kept as sent. Otherwise an accepted email is a string whose lower-case form no other user holds, and it is written back lowered. |
| `UserApi.LooselyDiffer` | extensions/users-permissions/controllers/user/api.js:183-200 | Two strings differ exactly when they are unequal; equal primitive values never differ, and null and undefined do not differ from each other. |
| `UserApi.EmptyFieldsRefused` | extensions/users-permissions/controllers/user/api.js:162-176 | A present but empty email is refused; so is a present but empty username whenever the email is absent or non-empty. A present but empty password is refused exactly when the user's provider is local. |
| `UserApi.OwnValuesNoConflict` | extensions/users-permissions/controllers/user/api.js:178-211 | A username or email conflict is reported only when another user, with a different id, holds the value. |
| `UserApi.ConflictsRefused` | extensions/users-permissions/controllers/user/api.js:178-211 | Once the emptiness checks pass, a username held by another user is refused; so is, when emails must be unique and the username is free, an email whose lower-case form another user holds. |
| `UserApi.RevisionKeepsBody` | extensions/users-permissions/controllers/user/api.js:195-219 | The saved data is the body as sent. The email is lowered only when emails must be unique. The password is dropped exactly when it equals the stored one. |
| `UserApi.Update` | extensions/users-permissions/controllers/user/api.js:145-227 | A refused change leaves the store alone. Otherwise the user's row is patched with the revision, its password hashed, and the populated user is sent; a missing user gives `entry.notFound`. |
| `Auth.Params` | extensions/users-permissions/controllers/Auth.js:68-75 | The body without the protected fields, with provider "local". |
| `Auth.Named` | extensions/users-permissions/controllers/Auth.js:149-160 | The parameters with the lower-case email and the found role's id. |
| `Auth.RoleQuery` | extensions/users-permissions/controllers/Auth.js:130-133 | The role looked up is one whose id is the invite's role when the invite has one, and otherwise one named "Trainee". |
| `Auth.Registration` | extensions/users-permissions/controllers/Auth.js:58-114 | A registration that gets through is open, has a truthy password and email, and a password that does not look hashed. |
| `Auth.Invited` | extensions/users-permissions/controllers/Auth.js:116-158 | A registration that gets through has an invite for the email as sent, a role for that invite, and a well-formed string email. |
| `Auth.Completed` | extensions/users-permissions/controllers/Auth.js:160-192 | The only refusal is "email taken". It is given when a user with the email has the same provider, or has another provider and emails must be unique. An accepted user carries `hashPassword` of the parameters. |
| `Auth.RequestChecksFirst` | extensions/users-permissions/controllers/Auth.js:58-114 | Refuses, in order: registration disabled, no password, no email, a hashed-looking password — before any store read. |
| `Auth.StoreChecksNext` | extensions/users-permissions/controllers/Auth.js:116-158 | Then refuses, in order: no invite, no role, a malformed email. |
| `Auth.InviteLookupUsesEmailAsSent` | extensions/users-permissions/controllers/Auth.js:116-128 | The invite is looked up by the email exactly as sent, so an invite stored under another spelling does not count. |
| `Auth.ExistingUserRule` | extensions/users-permissions/controllers/Auth.js:165-187 | An existing local user with the email always refuses; one of another provider refuses exactly when emails must be unique. Both refusals are "email taken". |
| `Auth.RegisteredUser` | extensions/users-permissions/controllers/Auth.js:146-196 | The added user has the body's fields except the protected ones, the lower-case email, the invite's role id, provider "local", the password `hashPassword` computes from those parameters before hashing, and `confirmed` true exactly when confirmation emails are off. |
| `Auth.CompletedKeeps` | extensions/users-permissions/controllers/Auth.js:161-192 | The last steps add only the hashed password, and `confirmed` when confirmation is off. |
| `Auth.PasswordHashedFromParams` | extensions/users-permissions/controllers/Auth.js:161-163 | The stored password is the hash of the record as it was before hashing, and nothing else differs. |
| `Auth.AdminError` | extensions/users-permissions/controllers/Auth.js:222-230 | A refusal whose message contains "username" is "username taken"; any other is "email taken". |
| `Auth.Register` | extensions/users-permissions/controllers/Auth.js:47-232 | A refusal, or a database refusal, changes nothing. Otherwise one user is inserted under the next id. The response then waits on the confirmation email, or otherwise carries a token for the new id. |

## Left out

- File uploads (`uploadFiles`) are not modelled: the store reads back the entry it just stored.
- `parseMultipartData` and `ctx.is("multipart")` are left out: a request carries its multipart data as an optional input, and a parse failure there is not modelled.
- Concurrency is left out. The un-awaited `forEach(async …)` in `addRelatedCombinations` and the fire-and-forget retry closure are modelled as running one step after another; their interleavings are not modelled.
- Timers are left out: `setTimeout` becomes a recorded wait, a natural number, with no wall-clock time.
- The mail transport is an oracle that answers each attempt with success or failure.
- Started deliveries are recorded in an `Email.Outbox`, and each delivery's message is `Delivery.Message`.
- Environment settings are read as natural numbers, so the `Number(...)` coercion of environment strings is left out.
- Email.SendMail: promises its outcome when the configuration converges or some attempt succeeds (the ghost `success` names one); only permanent failure under a configuration that does not converge keeps the loop from ending, and `Email.NeverGivesUp` and `Email.GivesUpIffConverges` describe that case.
- Dates are an oracle: `new Date(value)` is a `parseDate` oracle (none for an invalid date), and `new Date()` is a single clock reading `now`.
- Only ASCII letters are lower-cased; Unicode case mapping is not modelled.
- `hashPassword`, `isHashed`, `jwt.issue` and `sendConfirmationEmail` are oracles passed as parameters. So are the email regular expression, `JSON.parse`, and the entity validator.
- A database refusal to add a user, in `register`, is an oracle too. In the user controller's `create`, the users-permissions `add` always succeeds in the model, so its unique-constraint failures are not modelled.
- `sanitizeEntity`, `formatError` and the human-readable messages are reduced to the error ids and the returned records. Responses are a small datatype.
- The users-permissions `advanced` settings are an input, not a store read.
- `combinationModel` is fixed at its default "cohort-program", the only value the core passes.
- The hooks that do nothing have no member: programs and cohort `beforeCreate`, and cohort-program and user-program `afterCreate`.
- Ids are decimal strings handed out by a counter.
- UserApi.LooselyDiffer: loose `!=` is modelled for null, undefined, strings and numbers only, and a number equals a string only when the string is the number's exact decimal numeral (`1` and `"1"`). JavaScript's conversion of the string to a number first (so `1 != "01"`, `1 != " 1"` and `0 != ""` are false) is not modelled; the ids the store hands out are decimal numerals, which the model compares as JavaScript does.
- config/plugins.js (provider configuration only) is not part of this model.
- UserApi.Create: states the user row and the response only for the cases without an enrolment; `UserApi.Enrol` states the store and the response when a user-program is created.
