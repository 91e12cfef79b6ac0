# Prompts Lab frontend: the logic under the pages

Prompts Lab is a single-page application for browsing, filling in and
exporting prompt templates. This project models, in Dafny, the logic under
its pages, takes the results of the browser, the network and the JSON
library as inputs, and proves what that logic promises. It covers:

- **Placeholders** (`placeholders.dfy`, `template_detail.dfy`,
  `admin_templates.dfy`). A template's content is a JSON value. Every
  `{identifier}` token in its string leaves is a variable. Tokens are found
  left to right without overlap, using the same rule as the regular
  expression `\{([a-zA-Z0-9_]+)\}`. The walk covers arrays in index order and
  object members in entry order, and keeps each key once, at its first
  occurrence.
- **Template detail page** (`template_detail.dfy`):
  - infers each variable's type and options from its name;
  - builds the live preview by literal substitution;
  - decides whether the form is valid;
  - decides what an export sends.
- **Admin template editor** (`admin_templates.dfy`): the dialog's form
  state, the JSON check on its content, the variable list shown beside it,
  the save guard and the create-or-update request.
- **HTTP client** (`api.dfy`):
  - converts a page number to an offset and shapes the reply into a page;
  - the request interceptor adds the bearer token;
  - the response interceptor forgets the token on a 401;
  - `getNotionStatus` maps a 404 to "no integration".
- **Template browser** (`templates_page.dfy`): the filter state, the request
  for each page, the chaining of pages and the list shown.
- **Settings page** (`settings.dfy`): add, update and delete on the list of
  global variables, and the decision taken on return from Notion's
  authorisation page.
- **Session** (`auth.dfy`): login, signup, logout and the start-up check.
  Every call goes through the client. A 401 reply to any of them, login
  included, clears the stored token before the provider sees the error.
- **Sign-up page** (`sign_up.dfy`): the form schema and what submitting does
  to the page.

`text.dfy` holds the JavaScript string primitives the code relies on:
`trim` with the full ECMAScript whitespace set, ASCII case mapping and
`length` in UTF-16 code units. `json.dfy` and `types.dfy` hold the data
model.

Where a page stores state and changes it field by field, the model is a
class. The classes are the admin dialog, the filters, the settings page,
the client with its stored token, the auth provider and the sign-up page.
Their methods state every field they may change. Pure computations are
functions with lemmas. The loops of the source are methods with loop
invariants, each proved equal to a specification function:

- the walk collecting placeholder keys;
- the loop building the detail page's variables;
- the preview loop;
- the admin variable list.

Two straight-line computations that update a variable step by step are
methods too, proved equal to a function: type inference, whose three checks
override one another, and the parameter rewrite of `getTemplates`.

## Model

| member | source | states |
|---|---|---|
| Placeholders.MatchesIff | src/pages/TemplateDetail.tsx:166-169 | a key is matched in a string exactly when `{key}` occurs in it with key a non-empty run of letters, digits and `_` |
| Placeholders.MatchesFromSound | src/pages/TemplateDetail.tsx:166 | every key the left-to-right scan reports occurs as a token at or after the scan position |
| Placeholders.MatchAtOccurrence | src/pages/TemplateDetail.tsx:166-169 | a scan that reaches an occurrence of `{k}` matches there and reports k first |
| Placeholders.MatchesFromComplete | src/pages/TemplateDetail.tsx:166 | every token occurrence at or after the scan position is reported, even though matches do not overlap |
| Placeholders.RunLength | src/pages/TemplateDetail.tsx:166 | the identifier run starting at a position is maximal: all its characters are identifier characters and the next one is not |
| Placeholders.MatchesFrom | src/pages/TemplateDetail.tsx:166-169 | every match is a well-formed key |
| Placeholders.AddNewMembers | src/pages/TemplateDetail.tsx:170-171 | keeping a key only when it is not yet seen loses no key and adds none |
| Placeholders.AddNewNoDuplicates | src/pages/TemplateDetail.tsx:170-171 | the kept list never holds a key twice |
| Placeholders.AddNewConcat | src/pages/TemplateDetail.tsx:218-221 | processing two runs of keys one after the other is processing their concatenation |
| Placeholders.DedupCharacterised | src/pages/TemplateDetail.tsx:160-171 | the collected list holds exactly the keys met, once each, ordered by first occurrence |
| Placeholders.IndexOfAppend | src/pages/TemplateDetail.tsx:170-171 | a later key does not move the first occurrence of an earlier one |
| Placeholders.KeysIff | src/pages/TemplateDetail.tsx:164-222 | a key is found in a JSON value exactly when some string leaf mentions it; numbers, booleans and null contribute nothing |
| Placeholders.ItemKeysIff | src/pages/TemplateDetail.tsx:218-219 | an array's keys are those of its items |
| Placeholders.MemberKeysIff | src/pages/TemplateDetail.tsx:220-221 | an object's keys are those of its member values |
| Placeholders.Walk | src/pages/TemplateDetail.tsx:164-222 | the recursive walk, with its list and seen-set, adds to the list exactly the new keys of the value in walk order, and keeps the set equal to the list's members |
| Placeholders.CollectKeys | src/pages/TemplateDetail.tsx:160-226 | the walk from an empty list returns the distinct keys of the value in first-occurrence order, exactly those some string leaf mentions |
| TemplateDetail.InferType | src/pages/TemplateDetail.tsx:174-203 | the sequence of overrides (number names, then select names, then the always-text names) gives the precedence form: text names first, then select, then number, else string |
| TemplateDetail.GenerateOptions | src/pages/TemplateDetail.tsx:122-137 | a name containing `tone` gets the tone list; the generic options exactly when it contains none of tone, style, format and audience; never an empty list |
| TemplateDetail.SelectOptionsFromName | src/pages/TemplateDetail.tsx:122-137 | a select variable always gets the tone, style or format list, never the audience or default list |
| TemplateDetail.Describe | src/pages/TemplateDetail.tsx:206 | each `_` becomes a space; a character that starts a word (a word character after a non-word one, or first) is upper-cased; every other character is kept |
| TemplateDetail.DescribeKey | src/pages/TemplateDetail.tsx:206 | for a placeholder key, exactly the first character and each one after an underscore are upper-cased |
| TemplateDetail.HasContent | src/pages/TemplateDetail.tsx:141 | no template means no content; string content counts exactly when it is non-empty |
| TemplateDetail.Root | src/pages/TemplateDetail.tsx:143-158 | the walk starts from the parsed string, from the string itself when it does not parse, or from the object as received |
| TemplateDetail.ContentKeys | src/pages/TemplateDetail.tsx:160-226 | every collected key is a placeholder key |
| TemplateDetail.TemplateVariables | src/pages/TemplateDetail.tsx:140-231 | the i-th variable is the record of the i-th collected key, so the variables list the keys in order |
| TemplateDetail.ParseVariables | src/pages/TemplateDetail.tsx:140-231 | the page's variable list is the record of each distinct key of the parsed content, or of the raw text when it does not parse, and empty for absent or empty content |
| TemplateDetail.VariablesWellFormed | src/pages/TemplateDetail.tsx:208-214 | every variable is required, has options exactly when it is a select, and keys are pairwise distinct |
| TemplateDetail.VariableIff | src/pages/TemplateDetail.tsx:140-226 | a key has a variable exactly when it is among the content's keys |
| TemplateDetail.PlainTextScanned | src/pages/TemplateDetail.tsx:147-154 | string content that is not JSON is scanned as one string leaf |
| TemplateDetail.ReplaceAllIdentity | src/pages/TemplateDetail.tsx:290-292 | replacing a token by itself leaves the text as it was |
| TemplateDetail.ReplaceAllSkipsPlainPrefix | src/pages/TemplateDetail.tsx:290-292 | text before the first possible token start is copied unchanged |
| TemplateDetail.LivePreview | src/pages/TemplateDetail.tsx:267-301 | no content gives the empty preview; otherwise the content with each variable, in list order, substituted |
| TemplateDetail.ReplaceEach | src/pages/TemplateDetail.tsx:288-292 | the loop replaces, variable after variable, every placeholder by its value or by itself |
| TemplateDetail.ReplaceAllSplit | src/pages/TemplateDetail.tsx:290-292 | a placeholder anywhere in a text is replaced, and the text on each side of it is processed as if on its own |
| TemplateDetail.OtherTokenKept | src/pages/TemplateDetail.tsx:290-292 | replacing one key's placeholder leaves another key's placeholder as it is |
| TemplateDetail.NoTokenAtHead | src/pages/TemplateDetail.tsx:290-292 | no placeholder of a key matches at the start of a stretch whose every `{` is followed by a non-identifier character |
| TemplateDetail.ReplaceAllSkipsText | src/pages/TemplateDetail.tsx:290-292 | such a leading stretch, JSON punctuation included, is copied unchanged by a replacement |
| TemplateDetail.ReplaceAllPieces | src/pages/TemplateDetail.tsx:290-292 | in a text of plain stretches and placeholders, one replacement fills exactly the placeholders of its key |
| TemplateDetail.PreviewFillsPlaceholders | src/pages/TemplateDetail.tsx:288-293 | the preview of such a text replaces each placeholder of a variable with a non-empty value by that value and keeps every other placeholder |
| TemplateDetail.UnfilledPreviewIsContent | src/pages/TemplateDetail.tsx:289-293 | with no non-empty value for any variable, the preview is the content unchanged |
| TemplateDetail.FormChange | src/pages/TemplateDetail.tsx:336-341 | the edited key gets the new value; every other key keeps its presence and value |
| TemplateDetail.InitialFormData | src/pages/TemplateDetail.tsx:234-242 | the initial form has exactly the variables' keys, each mapped to the empty string |
| TemplateDetail.ValueAccepted | src/pages/TemplateDetail.tsx:349-363 | an optional variable always passes; a required one passes only with a non-empty value, and for a non-number one that is not all whitespace |
| TemplateDetail.IsFormValid | src/pages/TemplateDetail.tsx:349-363 | a valid form has a non-empty value for every required variable |
| TemplateDetail.InitialFormInvalid | src/pages/TemplateDetail.tsx:234-242 | the freshly initialised form of a template with variables is not valid |
| TemplateDetail.ValidFormFillsAll | src/pages/TemplateDetail.tsx:349-363 | a valid form gives every variable a non-empty value, which the preview substitutes |
| TemplateDetail.FormChangeDecidesVariable | src/pages/TemplateDetail.tsx:336-363 | after an edit, the edited variable is accepted exactly when the new value is non-empty and numeric (number) or not all whitespace (others) |
| TemplateDetail.FormChangeKeepsOthers | src/pages/TemplateDetail.tsx:336-363 | an edit does not change whether any other variable is accepted |
| TemplateDetail.HandleExport | src/pages/TemplateDetail.tsx:323-334 | nothing is sent exactly when the target id is all whitespace; otherwise the mode, the trimmed id and the form values unchanged are sent |
| TemplateDetail.ExportedIdTrimmed | src/pages/TemplateDetail.tsx:325-329 | the id sent is already trimmed |
| TemplateDetail.ExportDisabled | src/pages/TemplateDetail.tsx:1209 | an enabled button means a target id that is not all whitespace, no pending export and a valid form |
| TemplateDetail.EnabledExportSends | src/pages/TemplateDetail.tsx:323-334 | when the export button is enabled, pressing it sends |
| TemplateDetail.ExportToNotion | src/pages/TemplateDetail.tsx:314-321 | the export dialog opens exactly when the integration is known and connected, otherwise the user goes to settings |
| AdminTemplates.VariableKeys | src/pages/AdminTemplates.tsx:180-210 | keys of unparsable content are none; otherwise they are distinct and exactly those mentioned in a string leaf |
| AdminTemplates.VariableKeysOrdered | src/pages/AdminTemplates.tsx:186-205 | the keys are ordered by first occurrence in the walk over arrays and object values |
| AdminTemplates.ParseVariables | src/pages/AdminTemplates.tsx:180-210 | `parseVariables` returns those keys |
| AdminTemplates.Records | src/pages/AdminTemplates.tsx:157-161 | one required string entry per key, in order |
| AdminTemplates.ParsedVariables | src/pages/AdminTemplates.tsx:141-177 | empty content lists nothing; otherwise the list is one required string entry per key of the content |
| AdminTemplates.ParsedVariablesMatchKeys | src/pages/AdminTemplates.tsx:141-210 | the list beside the editor and the keys sent on save agree in keys and order |
| AdminTemplates.SaveRequestFor | src/pages/AdminTemplates.tsx:262-269 | an update of the edited template exactly when one is being edited, a creation otherwise, carrying the payload |
| AdminTemplates.TemplateForm.ValidateContent | src/pages/AdminTemplates.tsx:213-222 | true, with the error cleared, exactly when the text parses; otherwise the error is `Invalid JSON format` |
| AdminTemplates.TemplateForm.ContentChange | src/pages/AdminTemplates.tsx:278-285 | the text is stored; empty text clears the error unchecked, other text is validated |
| AdminTemplates.TemplateForm.ResetForm | src/pages/AdminTemplates.tsx:224-233 | all four fields empty, no error, no template being edited |
| AdminTemplates.TemplateForm.OpenForm | src/pages/AdminTemplates.tsx:235-248 | with a template: its fields copied, object content pretty-printed, the error left as it was; without: the form reset; the dialog opens |
| AdminTemplates.TemplateForm.SaveSucceeded | src/pages/AdminTemplates.tsx:99-104 | after a successful save the dialog is closed and the form reset |
| AdminTemplates.TemplateForm.Submit | src/pages/AdminTemplates.tsx:250-270 | nothing is sent, and the error set, exactly when the content does not parse; otherwise the fields with content `{prompt, variables}` go to the update or create request |
| AdminTemplates.TemplateForm.SaveDisabled | src/pages/AdminTemplates.tsx:486-494 | a pending save or an empty field disables the button |
| AdminTemplates.SaveEnabledIff | src/pages/AdminTemplates.tsx:486-494 | the save button is enabled exactly when the four fields are filled, no error is shown and no save is pending |
| Api.ParamsFor | src/services/api.ts:67-72 | with a non-zero page, the page is dropped and the offset is (page − 1) × (limit or 20); without one, no offset; other parameters pass through |
| Api.ToRequestParams | src/services/api.ts:67-72 | the in-place copy, offset assignment and page deletion give those parameters |
| Api.OffsetsAbut | src/services/api.ts:69-71 | page 1 starts at offset 0 and each next page exactly one limit further |
| Api.PageOf | src/services/api.ts:76-84 | missing data is empty and a missing total 0; page and limit default to 1 and 20; `hasMore` exactly when total > page × limit |
| Api.HasMoreIffNextOffsetBelowTotal | src/services/api.ts:69-71 | `hasMore` holds exactly when the next page's offset is below the total |
| Api.Authorize | src/services/api.ts:24-34 | with a non-empty stored token the Authorization header is `Bearer ` + token; otherwise the request is unchanged; other headers and the URL are never touched |
| Api.AuthorizedIffToken | src/services/api.ts:24-34 | a request gets an Authorization header exactly when a token is stored |
| Api.NotionStatusOf | src/services/api.ts:123-133 | a 404 becomes "no integration", success passes the status, every other failure is passed on unchanged |
| Api.ApiService.OnResponseError | src/services/api.ts:46-56 | a 401 removes the stored token, other errors leave it; the error is rethrown unchanged |
| Api.ApiService.Send | src/services/api.ts:23-57 | a round trip sends the authorised request and returns the reply unchanged; the token is cleared exactly on a 401 |
| Api.ApiService.GetTemplates | src/services/api.ts:61-85 | the parameters and page above, with failures passed on |
| Api.ApiService.GetNotionStatus | src/services/api.ts:123-133 | the 404 mapping applied to the round trip |
| TemplatesPage.QueryFor | src/pages/Templates.tsx:87-93 | the limit is 12, search is omitted when empty, category is omitted when `All`, and the page is the page asked for |
| TemplatesPage.SortNotSent | src/pages/Templates.tsx:86-93 | two cache keys differing only in sort order send the same requests |
| TemplatesPage.NextPageParam | src/pages/Templates.tsx:94 | a next page exactly when the last page has more, and it is the last page + 1 |
| TemplatesPage.ChainFrom | src/pages/Templates.tsx:94-95 | from any page on, consecutive pages are requested until the first one whose end reaches the total |
| TemplatesPage.PagesRequested | src/pages/Templates.tsx:94-95 | starting at 1, pages 1..k are requested, with k the first page such that k × 12 ≥ total (at least one page) |
| TemplatesPage.LoadMore | src/pages/Templates.tsx:121-125 | a page is fetched exactly when a next page exists and no fetch is under way, and it is the next page |
| TemplatesPage.FlattenConcat | src/pages/Templates.tsx:150 | flattening respects concatenation, so the list keeps page order |
| TemplatesPage.LoadedPageAppends | src/pages/Templates.tsx:150 | loading one more page appends exactly its data to the list shown |
| TemplatesPage.FlattenLength | src/pages/Templates.tsx:150 | the list shown is as long as the pages' data together |
| TemplatesPage.TotalTemplates | src/pages/Templates.tsx:151 | the first page's total, or 0 before any page |
| TemplatesPage.Filters.HasActiveFilters | src/pages/Templates.tsx:133 | no active filter means an empty search box, the `All` category and newest first |
| TemplatesPage.Filters.SetSearch | src/pages/Templates.tsx:70 | typing changes the search box only, not its debounced copy |
| TemplatesPage.Filters.SettleSearch | src/pages/Templates.tsx:74 | when the debounce fires, the copy the requests use takes the box's text |
| TemplatesPage.Filters.ClearFilters | src/pages/Templates.tsx:127-133 | back to `''`, `All`, `newest`, with no filter active; the debounced copy is left until it fires |
| TemplatesPage.InactiveFiltersRequestEverything | src/pages/Templates.tsx:86-93 | once the debounce has settled, no filter is active exactly when every page request is unfiltered and the order is newest first |
| TemplatesPage.ClearedSearchStillSent | src/pages/Templates.tsx:74-93 | before it settles, a cleared page with no active filter still requests the old search |
| Settings.Count | src/pages/Settings.tsx:109 | no entry has the key exactly when the count is 0 |
| Settings.CountConcat | src/pages/Settings.tsx:109 | counts add over concatenation |
| Settings.AddKeepsDuplicates | src/pages/Settings.tsx:109 | adding does not check for the key: appending an entry adds one more entry with its key |
| Settings.Replaced | src/pages/Settings.tsx:126-132 | length kept; entries with the edited key become the new pair, all others unchanged in place |
| Settings.ReplaceAbsentIsNoOp | src/pages/Settings.tsx:126-132 | updating a key that is not in the list changes nothing |
| Settings.ReplaceCounts | src/pages/Settings.tsx:126-132 | after renaming no entry keeps the old key, and the new key counts its old entries plus the renamed ones |
| Settings.Removed | src/pages/Settings.tsx:141-144 | the result holds exactly the entries whose key differs |
| Settings.RemovedConcat | src/pages/Settings.tsx:141-144 | deletion works entry by entry, so the rest keep their relative order |
| Settings.RemovedLength | src/pages/Settings.tsx:141-144 | exactly the entries with the key go |
| Settings.RemoveAbsentIsNoOp | src/pages/Settings.tsx:141-144 | deleting an absent key changes nothing |
| Settings.AddThenDelete | src/pages/Settings.tsx:102-115 | deleting the key of an entry just added gives what deleting it before the addition gives |
| Settings.SubmitDisabled | src/pages/Settings.tsx:363 | the dialog's button is disabled exactly when the key or the value is all whitespace |
| Settings.SettingsPage.AddVariable | src/pages/Settings.tsx:102-115 | with both inputs non-blank, the trimmed pair is appended, the inputs cleared and the dialog closed; otherwise nothing changes |
| Settings.SettingsPage.EditVariable | src/pages/Settings.tsx:117-122 | the dialog opens on the chosen entry |
| Settings.SettingsPage.UpdateVariable | src/pages/Settings.tsx:124-139 | with an entry being edited and both inputs non-blank, every entry with its key becomes the trimmed pair and the dialog is reset and closed; otherwise nothing changes |
| Settings.SettingsPage.Submit | src/pages/Settings.tsx:361-363 | when enabled: not editing appends the trimmed pair, editing replaces the edited key's entries by it, and either way the dialog is reset and closed; when disabled nothing changes |
| Settings.SettingsPage.DeleteVariable | src/pages/Settings.tsx:141-144 | the list loses exactly the entries with the key |
| Settings.OAuthCallback | src/pages/Settings.tsx:83-99 | `connected=notion` is a success; otherwise a non-empty `error` is a failure with `message`, or `OAuth failed` when that is missing or empty; otherwise nothing |
| Auth.AuthProvider.IsAuthenticated | src/contexts/auth/AuthProvider.tsx:16 | authenticated only with a user |
| Auth.AuthProvider.StoreToken | src/contexts/auth/AuthProvider.tsx:69-79 | a missing or empty token leaves storage unchanged, any other is stored |
| Auth.AuthProvider.Logout | src/contexts/auth/AuthProvider.tsx:64-67 | no user, no token, not authenticated, and no later request authorised |
| Auth.AuthProvider.Login | src/contexts/auth/AuthProvider.tsx:35-50 | success sets the returned user and stores the returned token; failure rethrows and leaves the user, and the token unless the reply was a 401 |
| Auth.AuthProvider.Signup | src/contexts/auth/AuthProvider.tsx:52-62 | the same for sign-up |
| Auth.AuthProvider.SignIn | src/contexts/auth/AuthProvider.tsx:35-62 | the common body of login and sign-up |
| Auth.AuthProvider.CheckAuth | src/contexts/auth/AuthProvider.tsx:18-33 | no token: no request and no change; a token and a fetched user: that user; a failed fetch: the token removed; loading is over in every case |
| Auth.SignedInRequestsCarryToken | src/contexts/auth/AuthProvider.tsx:16 | a signed-in session with a token is authenticated and its requests carry that token |
| SignUp.Validate | src/pages/SignUp.tsx:18-26 | a name issue exactly when the name is shorter than 2 UTF-16 units, an e-mail issue exactly when the address is invalid, a password issue exactly when it is shorter than 6, a confirmation issue exactly when the two passwords differ |
| SignUp.AcceptedIff | src/pages/SignUp.tsx:18-26 | a form is accepted exactly when all four rules hold |
| SignUp.MessagesPerField | src/pages/SignUp.tsx:19-25 | each of the four rules reports its own message on its own field, the mismatch on the confirmation field |
| SignUp.OneIssuePerField | src/pages/SignUp.tsx:18-26 | at most one issue per field |
| SignUp.ErrorMessage | src/pages/SignUp.tsx:51 | an `Error`'s message, otherwise `An error occurred during sign up` |
| SignUp.SignUpPage.OnSubmit | src/pages/SignUp.tsx:44-55 | loading is off afterwards and the provider's loading flag untouched; success navigates with no error, the user signed in and the returned token stored; failure shows the error's message, leaves the user, and leaves the token unless the reply was a 401 |
| SignUp.SignUpPage.HandleSubmit | src/pages/SignUp.tsx:36-48 | a rejected form shows its issues and changes nothing else; an accepted one has exactly the effects of `onSubmit` |
| Text.TrimEmptyIff | src/pages/TemplateDetail.tsx:325 | a string trims to empty exactly when it is all whitespace |
| Text.TrimIdempotent | src/pages/TemplateDetail.tsx:329 | trimming twice is trimming once |
| Text.Utf16Length | src/pages/SignUp.tsx:19-21 | a string's JavaScript length is between its code-point count and twice that |

## Left out

- Rendering, styling, toasts, routing and navigation are left out; a
  navigation appears only as a returned decision. So are the pages that
  only display data (home, favourites, layout).
- `JSON.parse` is not modelled. The admin editor takes it as a function
  `parse` that returns nothing when the call would throw. The detail page
  takes its result, stored with the content. `JSON.stringify(value, null, 2)`
  is likewise an input: the printed text stored with object content.
- Object members are walked in the order given in the JSON value. The
  JavaScript rule that integer-like keys come first is not modelled.
- `TemplateDetail.ValueAccepted`: the numeric check `!isNaN(Number(value))`
  is the parameter `isNumeric`, because number parsing is floating point.
- `SignUp.Validate`: the schema library's e-mail check is the parameter
  `validEmail`. The confirmation rule is reported even when a field rule
  fails, as the library's version 3 does.
- `TemplateDetail.LivePreview`: replacement is literal. The `$`-patterns
  that `String.prototype.replace` interprets in a replacement value (`$&`,
  `$1`, …) are not modelled.
- `Text.Lower`, `Text.UpperChar`: case mapping is ASCII only. Every string
  the model lowers or capitalises is a placeholder key, whose characters
  are ASCII.
- `Placeholders.Walk`: the seen set and the list are updated after each
  string's matches. Type, description and options are computed from the
  key when it is added to the list. Only the result of this ordering is
  modelled.
- `AdminTemplates.ParsedVariables`: the records are built after the walk,
  not during it. The resulting list is the same.
- The HTTP transport is left out. Every reply is an input, either a success
  with its value or a failure with an optional status and a message. Every
  failure is taken to be an axios error. Malformed success bodies, which
  would throw when dereferenced, are not modelled.
- `Api.ParamsFor`: page, limit and total are unbounded integers, where
  JavaScript has numbers. NaN, fractions and floating-point rounding are not
  modelled. The `params` argument of `getTemplates` is always given, so the
  crash on a missing argument is not modelled.
- Persistence is modelled only for the token. The session-storage entry
  `auth_token` is the field `ApiService.authToken`. Local-storage
  persistence of global variables and the auto-save of form data are left
  out.
- The request cache (react-query) is left out. Its fetching and pending
  flags are parameters. Invalidation, refetching and the scroll listener
  that calls `loadMore` are left out.
- The debounce timer is not modelled as time. Typing and the timer firing
  are two separate methods of `TemplatesPage.Filters`.
- `TemplatesPage.InactiveFiltersRequestEverything`: stated for the settled
  state, when the debounced search equals the search box. During the 300 ms
  after an edit the two disagree, as `TemplatesPage.ClearedSearchStillSent`
  shows.
- `TemplateDetail.PreviewFillsPlaceholders`: stated for texts in which
  every `{` outside a placeholder is followed, in the same stretch, by a
  character that cannot begin a key, and for values with the same
  property (`TemplateDetail.NoTokenStart`). The braces that printing a JSON
  object adds qualify: each is followed by a line break or by `}`. Excluded is a
  `{` directly before an identifier character or before a placeholder.
  There one replacement can create or break a later placeholder. For
  example, `{{name}}` with the value `name` becomes `{name}`. The source
  does the same; `TemplateDetail.ReplaceAllSplit` and
  `TemplateDetail.LivePreview` still hold there.
- `TemplateDetail.InitialFormData`: the form data is a map, where the
  source uses a plain JavaScript object. For a placeholder named
  `__proto__` the object differs: `initialData['__proto__'] = ''` adds no
  key, and `formData['__proto__']` reads the inherited prototype object,
  which is truthy. The source therefore previews `{__proto__}` as
  `[object Object]`. The model keeps the placeholder, so
  `TemplateDetail.FillValue` and `TemplateDetail.UnfilledPreviewIsContent`
  do not hold for that key in the source. Other inherited names
  (`constructor`, `toString`, …) get their own empty entry from the
  initialisation and behave as modelled.
- `TemplateDetail.LivePreview` requires the variables' keys to be
  placeholder keys, as every parsed key is (`TemplateDetail.ContentKeys`).
  With any other key the source would build a different regular
  expression.
- `TemplatesPage.PagesRequested`: the backend's total is taken to stay the
  same across the pages of one list.
- Also left out: the Notion authorisation redirect, clipboard copying,
  template deletion with its `window.confirm`, favourites, console logging,
  and the `debugToken` and `checkToken` helpers on `window`.
- `SignUp.SignUpPage.OnSubmit`: the client's failures are `Error` objects,
  so the default message is never shown on this path.
  `SignUp.ErrorMessage` models both branches.
