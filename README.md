# Grand Coptic Benevolent Society site — a Dafny model of its decision rules

The site is a bilingual (English/Arabic) charity website with a small admin
panel, both backed by a Firebase document store. Most of its code is markup.
This project models the parts that decide or transform something, and proves
what they promise:

- **Admin access.** The admin-role hook combines the signed-in user and the
  `roles_admin/<uid>` lookup into `isAdmin` and `isLoading`. The `/admin` entry
  page turns that pair into a redirect, and the login page into a redirect and a view.
- **The donation wizard.** A four-step state machine with a clamped step
  counter, preset and digits-only custom amounts, and a monthly toggle.
- **The admin editors.** The page-content, programme, news-post and
  board-member editors. This covers each form's schema, the conversions
  between stored values and form fields, and the create-or-update submit
  against the store:
  - object ↔ entry list;
  - comma-separated text ↔ list;
  - date → `YYYY-MM-DD`.
- **The contact form and the contact server action.** The record the form
  queues, and the validation the action reports.
- **The admin sidebar, the bylaws upload panel and the site map.** The
  sidebar's menu table and active-item rule, the panel's file-selection state
  machine, and the site map's entry builder.

Shared modules:
- `Js` models the JavaScript operations the code leans on:
  - `split` with a one-character separator, and `join`;
  - `trim` over the ECMAScript white-space and line-terminator set;
  - string truthiness;
  - `Number` and `String` of digit strings;
  - object spread over an insertion-ordered object.
- `Firestore` is the store. It is a class holding named collections of
  records and a queue of writes that were issued without waiting. Its
  `addDoc` takes the store-chosen id as a parameter. Its `updateDoc` fails on
  a missing document.
- `Ui` records toasts, navigation and form resets as a sequence of effects.
- `Zod` gives `.min(n)`. Zod's `.email()` and `.url()` are given predicates.

Stateful components are classes with `modifies` clauses:
- the donation wizard;
- the contact form;
- the bylaws panel;
- the store.

Everything else is functions and lemmas.

## Model

| member | source | states |
|---|---|---|
| `AdminAuth.AdminRoleRef` | src/hooks/use-admin-auth.ts:27-34 | a role reference exists exactly when a user is signed in, and it names `roles_admin` and the user's uid |
| `AdminAuth.AdminIffRoleDocument` | src/hooks/use-admin-auth.ts:38-46 | `isAdmin` holds exactly when the role document exists, whatever it contains; user and error are passed through unchanged |
| `AdminAuth.AdminIffUidListed` | src/hooks/use-admin-auth.ts:27-44 | once the lookup has finished, a user is an administrator exactly when their uid is a key of `roles_admin`; nobody is without a user |
| `AdminAuth.LoadingRule` | src/hooks/use-admin-auth.ts:41 | without a user only user loading counts; with one, either lookup loading counts; user loading always means loading |
| `AdminRootPage.Redirects` | src/app/admin/page.tsx:11-19 | no redirect while loading; otherwise exactly one `replace`, to the dashboard for an administrator and to the login page for anyone else |
| `AdminRootPage.AtMostOneRedirect` | src/app/admin/page.tsx:11-19 | at most one redirect in every state, exactly one once loaded |
| `AdminLoginPage.Redirects` | src/app/admin/login/page.tsx:15-19 | redirects to the dashboard exactly when not loading and an administrator |
| `AdminLoginPage.Render` | src/app/admin/login/page.tsx:21-45 | spinner exactly when loading or an administrator, the login form exactly otherwise; the two views are exclusive and cover every state |
| `AdminLoginPage.NoRedirectWhileLoadingOrNotAdmin` | src/app/admin/login/page.tsx:15-45 | never a redirect while loading; a signed-in non-administrator sees the form and is not redirected |
| `AdminLoginPage.NoRedirectLoop` | src/app/admin/login/page.tsx:15-27 | with the entry page: a non-administrator goes from `/admin` to the login page and stays there; an administrator goes to the dashboard from both |
| `DonateForm.StepMoves` | src/components/donate-form.tsx:28-29 | Continue and Back keep the step in 1..4, stand still only at the last and first step respectively, and undo each other away from the ends |
| `DonateForm.ThreePressesReachEnds` | src/components/donate-form.tsx:28-29 | three Continues reach the thank-you step, and three Backs reach the first, from any step |
| `DonateForm.DonateForm.constructor` | src/components/donate-form.tsx:23-26 | step 1, amount 50, empty custom amount, one-time; the 50 preset shows selected |
| `DonateForm.DonateForm.HandleNext` | src/components/donate-form.tsx:28 | the step becomes `min(step + 1, 4)`; nothing else changes; the invariant is kept |
| `DonateForm.DonateForm.HandlePrev` | src/components/donate-form.tsx:29 | the step becomes `max(step - 1, 1)`; nothing else changes; the invariant is kept |
| `DonateForm.DonateForm.HandleAmountSelect` | src/components/donate-form.tsx:30-33 | amount set, custom amount cleared, step and frequency kept; exactly the chosen preset shows selected |
| `DonateForm.DonateForm.HandleCustomAmountChange` | src/components/donate-form.tsx:34-40 | accepted exactly when the input is all ASCII digits (empty included); accepted input becomes the custom amount and its number the amount; rejected input changes nothing |
| `DonateForm.DonateForm.HandleFrequencyChange` | src/components/donate-form.tsx:55 | recurring exactly when "monthly" is picked; nothing else changes |
| `DonateForm.DonateForm.RestartDonation` | src/components/donate-form.tsx:131 | back to step 1; amount, custom amount and frequency are kept |
| `DonateForm.DonateForm.Progress` | src/components/donate-form.tsx:42 | the progress is 25 × step, between 0 and 100, and 100 only on the last step |
| `DonateForm.ProgressBarBelowFull` | src/components/donate-form.tsx:42-49 | the bar is shown exactly when the progress is below 100 |
| `DonateForm.AtMostOneHighlighted` | src/components/donate-form.tsx:64-65 | at most one preset shows selected, and none while a custom amount is typed |
| `DonateForm.ConfirmShowsAmount` | src/components/donate-form.tsx:120 | the confirm button's figure is a numeral without leading zeros that reads back as the amount |
| `PageContentForm.MissingObjectNoEntries` | src/components/admin/page-content-form.tsx:51-52 | a missing content object gives an empty entry list |
| `PageContentForm.ObjectRoundTrip` | src/components/admin/page-content-form.tsx:51-52 | object → entries → object is the identity, keys and order included |
| `PageContentForm.FoldAppends` | src/components/admin/page-content-form.tsx:74-75 | folding entries with fresh keys appends them in order |
| `PageContentForm.EntriesLastWins` | src/components/admin/page-content-form.tsx:74-75 | the rebuilt object has distinct keys, and each key takes the value of its last entry |
| `PageContentForm.LabelInsertsSpaces` | src/components/admin/page-content-form.tsx:109 | the label is the key lengthened by its number of capitals, and taking out the space before each capital gives the key back |
| `PageContentForm.Submit` | src/components/admin/page-content-form.tsx:67-90 | no store: error toast and no write; existing document: both objects and the update time written, then success toast and navigation; missing document: nothing written and an error toast |
| `PageContentForm.SubmitOverwrites` | src/components/admin/page-content-form.tsx:78-83 | the save sets `contentEn`, `contentAr` and `lastUpdated` of the one document, keeps its other fields, and leaves every other document untouched |
| `ProgramForm.DefaultValues` | src/components/admin/program-form.tsx:40-52 | a new form is all empty; an edited one shows every stored text field as stored and its gallery joined with `", "` |
| `ProgramForm.NewFormInvalid` | src/components/admin/program-form.tsx:16-26 | the empty new form does not pass the schema |
| `ProgramForm.GalleryClean` | src/components/admin/program-form.tsx:69 | every saved gallery URL is non-empty, comma-free and trimmed |
| `ProgramForm.GalleryRoundTrip` | src/components/admin/program-form.tsx:41-69 | a gallery of non-empty, trimmed, comma-free URLs is edited and saved back unchanged |
| `ProgramForm.NotArraySavesEmpty` | src/components/admin/program-form.tsx:41-69 | a stored gallery that is not an array is edited as `""` and saved as no URLs |
| `ProgramForm.EditRoundTrip` | src/components/admin/program-form.tsx:41-69 | opening a stored programme and saving it unedited writes back every text field and a clean gallery unchanged; a non-list gallery is saved as `[]` |
| `ProgramForm.Submit` | src/components/admin/program-form.tsx:61-88 | invalid values: nothing happens; no store: error toast; no `docId`: a new `programs` record; existing `docId`: that record updated; missing record: error toast and no write; success navigates to the list |
| `PostForm.DefaultValues` | src/components/admin/post-form.tsx:40-51 | a new form is all empty; an edited one shows every stored text field as stored and its tags joined with `", "` |
| `PostForm.NewFormInvalid` | src/components/admin/post-form.tsx:16-25 | the empty new form does not pass the schema |
| `PostForm.TagCount` | src/components/admin/post-form.tsx:68 | a non-empty tags text gives one tag more than its commas, each trimmed and comma-free |
| `PostForm.EmptyTagsKept` | src/components/admin/post-form.tsx:68 | empty pieces are kept: `"a,,b"` saves `["a", "", "b"]` |
| `PostForm.TagsRoundTrip` | src/components/admin/post-form.tsx:41-68 | trimmed, comma-free tags are edited and saved back unchanged, except a lone empty tag, which is saved as none |
| `PostForm.PublishDateOnlyOnCreate` | src/components/admin/post-form.tsx:66-80 | only a new post gets `publishDate`; an update never carries it, so the stored one stays |
| `PostForm.EditRoundTrip` | src/components/admin/post-form.tsx:41-68 | opening a stored post and saving it unedited writes back every text field and clean tags unchanged; a lone empty tag or non-list tags are saved as `[]` |
| `PostForm.Submit` | src/components/admin/post-form.tsx:60-89 | as for programmes, on `posts`, with `publishDate` added only on create |
| `BoardMemberForm.DigitsValue` | src/components/admin/board-member-form.tsx:72-73 | a zero-padded numeral reads back as its number whenever the number fits |
| `BoardMemberForm.StoredDateIsDatePart` | src/components/admin/board-member-form.tsx:72-73 | the stored date is the text before the first `T` of the ISO string, i.e. the date part; for years 0..9999 it is ten characters `YYYY-MM-DD` whose numerals read back as year, month and day |
| `BoardMemberForm.DefaultValues` | src/components/admin/board-member-form.tsx:44-58 | a new form is all empty with no dates; an edited one copies every text and optional field as stored, and a missing or empty term date becomes `now` |
| `BoardMemberForm.StoredDateOfParsed` | src/components/admin/board-member-form.tsx:48-49 | a stored `YYYY-MM-DD` text read back with `new Date` and stored again is the same text, leading zeros included |
| `BoardMemberForm.ParsedStoredDate` | src/components/admin/board-member-form.tsx:48-49 | the text stored for an instant with a four-digit year reads back as midnight UTC of the same day |
| `BoardMemberForm.EditRoundTrip` | src/components/admin/board-member-form.tsx:44-73 | opening a stored profile and saving it unedited writes back every text field, the optional fields it had, and each term date as the same text; a missing term date is saved as today's date part |
| `BoardMemberForm.NewFormEmpty` | src/components/admin/board-member-form.tsx:50-58 | a new form starts with empty text fields and no dates, and does not pass the schema |
| `BoardMemberForm.PayloadFields` | src/components/admin/board-member-form.tsx:70-73 | names and titles copied as entered, an optional field kept exactly when given, each term date stored as its date part |
| `BoardMemberForm.Submit` | src/components/admin/board-member-form.tsx:63-94 | as for programmes, on `board_members` |
| `ContactForm.SubmissionShape` | src/components/contact-form.tsx:58-62 | the record holds exactly the four fields, the server time and `isRead = false`, and the values read back from it unchanged |
| `ContactForm.EmptyInvalid` | src/components/contact-form.tsx:23-28 | the empty (default and reset) form does not pass the schema |
| `ContactForm.ContactForm.constructor` | src/components/contact-form.tsx:37-42 | the form starts with all four fields empty, the same values a reset restores |
| `ContactForm.ContactForm.Submit` | src/components/contact-form.tsx:47-80 | invalid values: nothing happens; no store: error toast and values kept; otherwise one non-blocking add to `contact_submissions`, the thank-you toast and a reset to empty values, without waiting for the write |
| `ContactAction.SubmitContactForm` | src/lib/actions.ts:23-63 | the result is never idle, and it is a success exactly when it carries no errors |
| `ContactAction.ErrorKeys` | src/lib/actions.ts:5-20 | error keys are only the four fields; a field is listed exactly when its entry fails, and with a message |
| `ContactAction.SuccessIffValid` | src/lib/actions.ts:34-63 | success exactly when all four entries are text passing the contact form's own schema; success carries the thank-you message and no errors; failure carries the validation message and the field errors |
| `ContactAction.PrevStateIgnored` | src/lib/actions.ts:23-32 | the answer does not depend on the previous state |
| `ContactAction.NonTextReported` | src/lib/actions.ts:27-32 | a missing entry and a file entry are reported as string type errors |
| `AdminSidebar.MenuShape` | src/components/admin/admin-sidebar.tsx:27-36 | eight items, all under `/admin/`, none a prefix of another (hence distinct) |
| `AdminSidebar.AtMostOneActive` | src/components/admin/admin-sidebar.tsx:62-66 | for every path at most one item is marked |
| `AdminSidebar.SubPageMarksSection` | src/components/admin/admin-sidebar.tsx:66 | `/admin/programs/new` marks Programs; a path below the dashboard does not mark the dashboard |
| `BylawsClient.MessageTablesAgree` | src/components/bylaws-client.tsx:14-33 | the English and Arabic tables have the same keys, and no message is empty |
| `BylawsClient.BylawsClient.constructor` | src/components/bylaws-client.tsx:36-39 | no file, empty summary, not loading, no error, so the summarise button starts disabled |
| `BylawsClient.BylawsClient.SummarizeEnabled` | src/components/bylaws-client.tsx:111 | the summarise button is enabled only with a file chosen, never while loading, and always when a file is chosen and nothing is loading |
| `BylawsClient.BylawsClient.HandleFileChange` | src/components/bylaws-client.tsx:44-61 | no file: nothing changes; a non-PDF: toast, file dropped, input cleared, summary and error kept; a PDF: kept, summary and error cleared |
| `BylawsClient.BylawsClient.HandleSummarize` | src/components/bylaws-client.tsx:63-96 | no file: only a toast; with a file: summary and error cleared, the read started, and loading already off when it returns |
| `BylawsClient.BylawsClient.ReaderLoaded` | src/components/bylaws-client.tsx:80-84 | the summary becomes the summariser's answer; nothing else changes |
| `BylawsClient.BylawsClient.ReaderFailed` | src/components/bylaws-client.tsx:85-88 | the error becomes the read-error message in the language that was active when Summarize was pressed, since the handler uses the table captured then; nothing else changes |
| `Sitemap.BaseUrl` | src/app/sitemap.ts:3 | `https://` and the host when `VERCEL_URL` is non-empty, else `http://localhost:9002` |
| `Sitemap.BaseUrlShape` | src/app/sitemap.ts:3 | the base is a scheme followed by a non-empty host, with no `/` after the scheme when the host has none |
| `Sitemap.PathsRooted` | src/app/sitemap.ts:6-15 | every page path is empty or starts with `/`, so base + path is one url |
| `Sitemap.Sitemap` | src/app/sitemap.ts:5-23 | one entry per static path, in order, each with url = base + path, the generation time, `monthly`, and priority 1 for the home page and 0.8 otherwise |
| `Sitemap.EntriesDistinct` | src/app/sitemap.ts:6-21 | the entries' urls are pairwise distinct, and only the first entry has priority 1 |
| `Firestore.Store.AddDoc` | src/components/admin/program-form.tsx:78-79 | an add returns the fresh id the store chose, puts the record under that id in the collection, and queues nothing |
| `Firestore.Store.AddDocNonBlocking` | src/components/contact-form.tsx:63-65 | a non-blocking add queues exactly one add of the record to the collection and leaves the stored collections as they were |
| `Firestore.Store.UpdateDoc` | src/components/admin/program-form.tsx:73-75 | an update succeeds exactly on an existing document with a non-empty id, merges the given fields into it, and writes nothing otherwise |
| `Firestore.UpdateTouchesOneDocument` | src/components/admin/page-content-form.tsx:78-83 | an update leaves every other document of every collection as it was |
| `Js.SplitLength` | src/components/admin/post-form.tsx:68 | `split` gives one piece more than there are separators |
| `Js.JoinSplit` | src/components/admin/post-form.tsx:68 | joining the pieces of a split with the separator restores the text |
| `Js.TrimIsTrimmed` | src/components/admin/program-form.tsx:69 | a trimmed string has no white space at either end |
| `Js.SplitTrimJoin` | src/components/admin/program-form.tsx:41-69 | splitting a `", "`-joined list on commas and trimming each piece gives the list back |
| `Js.PutLookup` | src/components/admin/page-content-form.tsx:74-75 | after the spread `{...acc, [k]: v}`, key `k` reads `v` and every other key reads as before |
| `Js.DecimalValueOfNatToString` | src/components/donate-form.tsx:120 | `Number(String(n))` is `n` |

## Left out

- Firebase itself is not part of this model: the store is an abstract table. The store's id choice for `addDoc` is a parameter. `serverTimestamp()` is an opaque token.
- Permission errors, network failures and the error relay are not modelled. The only store failure modelled is an update of a missing document.
- `addDocumentNonBlocking` is not modelled beyond queueing the write. What happens to the queued write later is not modelled.
- The `try`/`catch` around the contact form's record building is not modelled. Nothing in it can throw in the model, so its error toast is unreachable.
- The `catch` in the bylaws summariser is not modelled, for the same reason.
- `useDoc` is not part of this model. `AdminAuth.ResolvedRoleLookup` assumes that a finished lookup returns the stored document, and no data for a null reference.
- The admin panel layout's own guard is not modelled. Nor is the sign-out button in the sidebar, which signs out and then replaces the route with `/admin/login`.
- Navigation on a sidebar click (`router.push(item.href)`) is not modelled.
- The bylaws summary itself is not modelled: the AI flow and `FileReader` are foreign. `ReaderLoaded` and `ReaderFailed` take their outcome as input.
- The bylaws panel's async ordering is not modelled. The `finally` block turns loading off before the read completes, and the model states that order as it stands. It does not model when, or whether, a callback runs.
- Zod's e-mail and URL checks are not modelled; they are parameters of the model. So are the `react-hook-form` mechanics, except that invalid values never reach a submit handler.
- `.min(n)` counts characters. JavaScript counts UTF-16 code units, so text outside the Basic Multilingual Plane counts differently.
- Time zones are not modelled. A board member's term date is an instant already in UTC, and `toISOString` is modelled from it.
- `new Date()` defaults are parameters (`now`), and so is the site map's `lastModified`.
- `Sitemap.Sitemap`: one clock reading `now` stands for the separate `new Date()` read for each entry, so the model gives every entry the same `lastModified` where the source's times may differ.
- `ContactAction.SubmitContactForm`: the `catch` that answers `'error'` with the internal-error message and no field errors is not modelled. Nothing in the `try` can throw in the model.
- `BoardMemberForm.ValidInstant`: the first and last years a JavaScript `Date` reaches, -271821 and 275760, are left out because `Date` holds only part of each.
- `BoardMemberForm.ParseDateOnly`: only the date-only form `YYYY-MM-DD` with a four-digit year is parsed. Every other text `new Date` might accept is treated as an Invalid Date: date-times, six-digit years, and the lenient fallbacks of some engines (such as rolling 30 February over into March).
- Firestore's rejection of `undefined` field values is not modelled. Zod leaves out optional fields that are absent, and the model drops them from the record.
- Object keys that look like array indices are not modelled. JavaScript orders such keys first in an object; the model keeps plain insertion order.
- The CSS `capitalize` applied to page-content labels is presentation and is not modelled.
- `DonateForm.DonateForm.HandleCustomAmountChange`: the amount is an unbounded natural. JavaScript `Number` loses precision above 2^53, and that is not modelled.
- The donation thank-you text, the markup, the translations passed in as props and the rendering-only components are not modelled.
