# link-hub: a Dafny model of its client-side logic

link-hub is a React application where users publish a link-in-bio profile
and share invitations. An invitation has a title, a description, a list of
links, a theme and a catalogue, and each one collects view and click
analytics. This project models the parts of the front end that compute
something. It states and proves what they promise.

- **Analytics** (`analytics.dfy`, module `Analytics`): the seven day keys of
  the chart window, built by a loop that pushes keys, and the seven daily
  buckets, filled in place in an array. The same module has the per-invitation
  event lists and the view and click counts of the table. The buckets keep
  every in-window event, count it once, and ignore the others. The table's two
  counts add up to the number of events.
- **Sign-in form** (`auth.dfy`, module `Auth`): the ordered chain of checks in
  `validateForm`, the field updates, the mode switch and tabs, and what a
  submit does to the page.
- **Link lists** (`links.dfy`, module `Links`): the append, update and remove
  edits on the link lists of the dashboard, the landing page and the
  invitation manager. It also has the complete-link filter applied when an
  invitation is created.
- **Invitation manager** (`invites.dfy`, module `Invites`): a `Manager` class
  that holds the invitation list and the draft. Its methods add and remove
  invitations and change their status, and they keep the catalogue at five
  items or fewer. The theme and catalogue editors are reachable only for a
  premium user, so without premium the draft keeps the default theme and an
  empty catalogue. The module also has the CSV export.
- **Dashboard** (`dashboard.dfy`, module `Dashboard`): the profile before and
  after the fetch, the row the save sends, the upload guards, the avatar
  storage path, and the avatar kept after an upload.
- **Landing page** (`index_page.dfy`, module `IndexPage`): the three-view
  machine (landing, create, preview) as a `Page` class and a transition
  function, plus the `getIcon` mapping.
- **Shared modules**: `Seqs` (`Option`, `filter`, `indexOf`, `join` and
  `split`) and `JsText` (`trim` and the `\s` class, `length` in UTF-16 code
  units, decimal rendering, `split('.').pop()`).

The following become parameters of the operations that use them:
- the backend's answers (query rows, insert and delete failures, upload
  success, public URLs);
- the signed-in user;
- the clock: `Date.now()` becomes a natural number, and the current day
  becomes `today` with a calendar `isoDate`.

Where a React state setter replaces a record, the model is a function from
the old value to the new one. Two pieces of component state that handlers
switch step by step are classes: the invitation manager's lists and draft, and
the landing page's view. The chart's buckets are updated in place, so they
live in an array.

## Model

| member | source | states |
|---|---|---|
| Analytics.Window | src/components/InviteAnalyticsDashboard.tsx:40-49 | seven keys, the first six days before today, the last today's, key k the key of day `today - 6 + k` |
| Analytics.GetLast7Days | src/components/InviteAnalyticsDashboard.tsx:40-49 | returns seven keys, oldest first; key k is the key of the day `today - 6 + k`, so the last is today's |
| Analytics.WindowShape | src/components/InviteAnalyticsDashboard.tsx:40-49 | when the calendar gives each day its own key, the seven keys are distinct, the last is today's and the first is six days earlier; a day's key is in the window exactly when the day is in the last week |
| Analytics.DayOf | src/components/InviteAnalyticsDashboard.tsx:60 | an event's day key is the first ten characters of its timestamp, or the whole timestamp when it is shorter |
| Analytics.Chart | src/components/InviteAnalyticsDashboard.tsx:51-58 | one bucket per window key, with that key as its date, in order; undefined or empty analytics give all-zero buckets |
| Analytics.ZeroFilled | src/components/InviteAnalyticsDashboard.tsx:53-57 | one bucket per key, in order, dated with that key and with zero views and clicks |
| Analytics.Bump | src/components/InviteAnalyticsDashboard.tsx:63-64 | a view adds one to the views and a click one to the clicks; the date and the other counter stay |
| Analytics.Record | src/components/InviteAnalyticsDashboard.tsx:60-65 | an event whose day is not a key changes nothing; otherwise the bucket at the first position of its day is bumped and every other bucket stays |
| Analytics.GetChartData | src/components/InviteAnalyticsDashboard.tsx:51-68 | a new array of seven buckets and equals the chart of the window after the in-place `forEach` |
| Analytics.CountEvents | src/components/InviteAnalyticsDashboard.tsx:59-66 | the in-place `forEach` leaves the zero-filled buckets equal to the fold of the events, in order |
| Analytics.Tally | src/components/InviteAnalyticsDashboard.tsx:59-66 | the fold over the events keeps one bucket per key and keeps each bucket's date |
| Analytics.OutOfWindowIgnored | src/components/InviteAnalyticsDashboard.tsx:60-62 | an event whose date prefix is not a window key changes no bucket |
| Analytics.InWindowCountsOnce | src/components/InviteAnalyticsDashboard.tsx:60-65 | an in-window event adds exactly 1 to the counter of its type in the bucket of its day; every other bucket and counter stays; with distinct keys that bucket is the only one dated that day |
| Analytics.TallyConserves | src/components/InviteAnalyticsDashboard.tsx:59-66 | summed over the buckets, views equal the number of view events whose day is in the window, and likewise for clicks |
| Analytics.TallyClosedForm | src/components/InviteAnalyticsDashboard.tsx:59-66 | each bucket holds its date and the number of events of each type whose first matching key is that bucket's |
| Analytics.EventsFor | src/components/InviteAnalyticsDashboard.tsx:106 | an invitation's events are exactly the fetched events with its id, in the original order, each as often as fetched |
| Analytics.ViewCount | src/components/InviteAnalyticsDashboard.tsx:138 | at most the number of events, and zero exactly when no event is a view |
| Analytics.ClickCount | src/components/InviteAnalyticsDashboard.tsx:139 | at most the number of events, and zero exactly when no event is a click |
| Analytics.CountsPartition | src/components/InviteAnalyticsDashboard.tsx:138-139 | the table's view count plus its click count equals the number of the invitation's events |
| Analytics.ChartWithinTable | src/components/InviteAnalyticsDashboard.tsx:59-66 | the chart never sums to more views or clicks than the table row shows |
| Analytics.InviteUrl | src/components/InviteAnalyticsDashboard.tsx:105 | the link is the origin, then `/invite/`, then the id |
| Analytics.Summaries | src/components/InviteAnalyticsDashboard.tsx:78-107 | a failed invitation query gives no rows; otherwise one row per invitation, in query order, each with its id, title and link and exactly its own fetched events; a failed event query gives no events |
| Auth.Validate | src/pages/Auth.tsx:36-92 | the form is accepted exactly when every check passes; a rejection names a failing check, and every earlier check passed |
| Auth.EmptyRequiredFieldRejected | src/pages/Auth.tsx:37 | an empty email, password, phone or country code is reported as missing fields, whatever else is wrong |
| Auth.PasswordBoundary | src/pages/Auth.tsx:55 | a password shorter than 6 code units is never accepted; 6 characters pass that check |
| Auth.PhoneMatchesChars | src/pages/Auth.tsx:64 | the phone pattern accepts exactly the strings other than "" and "+" made of digits, whitespace, `-`, `(` and `)`, with an optional `+` at the front |
| Auth.PhoneMatches | src/pages/Auth.tsx:64 | a matching phone is neither "" nor a lone "+", and every character after the first is a digit, whitespace, `-`, `(` or `)`; `PhoneMatchesChars` gives the exact characterisation |
| Auth.NameOnlyWhenRegistering | src/pages/Auth.tsx:82 | in login mode the name never changes the verdict; in register mode an empty name is refused |
| Auth.InputChange | src/pages/Auth.tsx:32-34 | only the named field takes the new value; the mode is kept |
| Auth.ToggleMode | src/pages/Auth.tsx:374-377 | the mode flips and all five fields become "" |
| Auth.SelectTab | src/pages/Auth.tsx:162 | login mode exactly when the tab is "login"; the fields are kept |
| Auth.Submit | src/pages/Auth.tsx:94-133 | a refused form reports the verdict's reason; a valid login form gives a successful or a failed login exactly as the backend call succeeds or fails; a valid register form gives a registration or a failed registration in the same way; a registration returns the page to its initial state, login mode with every field ""; every other outcome leaves the page unchanged |
| Auth.InitialPageBehaviour | src/pages/Auth.tsx:20-28 | the page as it mounts (login mode, every field "") refuses a submit for missing fields and stays as it is; toggling twice brings it back |
| Links.SetField | src/pages/Dashboard.tsx:111 | only the named field takes the value; id and description are kept |
| Links.AddLink | src/pages/Dashboard.tsx:94-105 | one link with empty title and URL and icon `link` is appended; the earlier links are unchanged |
| Links.AddInviteLink | src/components/InviteLinkManager.tsx:90-101 | as `AddLink`, with an empty description |
| Links.UpdateLink | src/pages/Dashboard.tsx:107-114 | length and ids are kept; only the named field of links with the id changes |
| Links.RemoveLink | src/pages/Dashboard.tsx:116-121 | every link with the id is removed; the others stay in their order; the length drops by the number removed |
| Links.UpdateLinkIdempotent | src/pages/Index.tsx:49-56 | repeating the same update changes nothing more |
| Links.RemoveUndoesAdd | src/pages/Index.tsx:36-63 | removing a freshly added link with an unused id gives the list back |
| Links.RemoveAfterUpdate | src/components/InviteLinkManager.tsx:104-118 | an update to links that are then removed leaves no trace |
| Links.RemoveCommutesWithOtherUpdate | src/pages/Index.tsx:49-63 | removing one id and updating another commute |
| Links.CompleteLinks | src/components/InviteLinkManager.tsx:155 | the saved links are exactly the drafted links with a title and a URL, in order, each kept as often as drafted |
| Links.CompleteLinksIdempotent | src/components/InviteLinkManager.tsx:155 | filtering twice is filtering once |
| Invites.Flip | src/components/InviteLinkManager.tsx:231 | the flag becomes present with the opposite truth value |
| Invites.ToggleStatus | src/components/InviteLinkManager.tsx:229-233 | the length is kept; each invitation with the id gets its flag flipped; nothing else changes |
| Invites.ToggleTwiceStatus | src/components/InviteLinkManager.tsx:229-233 | toggling twice shows every invitation with its original status |
| Invites.ToggleTwice | src/components/InviteLinkManager.tsx:229-233 | when the toggled invitations carry the flag, toggling twice gives the list back |
| Invites.ToggleTwiceSetsAbsentFlag | src/components/InviteLinkManager.tsx:229-233 | a row without the flag comes back from two toggles with the flag set to false |
| Invites.RemoveInvite | src/components/InviteLinkManager.tsx:222 | the deleted id is gone; every other invitation stays, in order and as often as it occurred |
| Invites.CreateRequest | src/components/InviteLinkManager.tsx:140-157 | a row is sent exactly when a user is signed in and the title has a character that is not whitespace; it carries the user's id, the title and description as typed, the complete links and the active flag |
| Invites.AppendBlankItem | src/components/InviteLinkManager.tsx:490-499 | a blank item is appended only below five items; a catalogue of five or fewer stays within five |
| Invites.RemoveItemAt | src/components/InviteLinkManager.tsx:482-485 | removing a valid index shrinks the catalogue by one and shifts the later items down; any other index changes nothing |
| Invites.SetItemField | src/components/InviteLinkManager.tsx:423-474 | only the named field of the item at the index changes |
| Invites.SetThemeField | src/components/InviteLinkManager.tsx:346-381 | only the named theme property takes the value |
| Invites.CsvFields | src/components/InviteLinkManager.tsx:718-724 | five cells, one per header column: the local time, "view" or "click", then the location, device and referral as stored |
| Invites.CsvRows | src/components/InviteLinkManager.tsx:716-725 | a header line `Time,Type,Location,Device,Referral`, then one comma-joined line per event, in order |
| Invites.Csv | src/components/InviteLinkManager.tsx:716-725 | with no events the export is the header line alone; otherwise it starts with the header line and a line feed |
| Invites.CsvRoundTrip | src/components/InviteLinkManager.tsx:716-725 | when no field holds a line feed, the text splits into n+1 lines for n events; when no field holds a comma either, each line splits back into its event's five fields |
| Invites.Manager.constructor | src/components/InviteLinkManager.tsx:63-84 | the `isPremium` prop as given, no invitations, and an empty draft with the default theme |
| Invites.Manager.LoadInvites | src/components/InviteLinkManager.tsx:121-137 | a successful fetch replaces the list; a failed one keeps it |
| Invites.Manager.SetTitle | src/components/InviteLinkManager.tsx:284 | only the draft title changes |
| Invites.Manager.SetDescription | src/components/InviteLinkManager.tsx:292 | only the draft description changes |
| Invites.Manager.SetTheme | src/components/InviteLinkManager.tsx:339-381 | reachable only for a premium user; only the named theme field changes; without premium the draft keeps the default theme |
| Invites.Manager.AddLinkToInvite | src/components/InviteLinkManager.tsx:90-101 | the draft links gain one blank link |
| Invites.Manager.UpdateInviteLink | src/components/InviteLinkManager.tsx:104-111 | the draft links are updated as `Links.UpdateLink` states |
| Invites.Manager.RemoveLinkFromInvite | src/components/InviteLinkManager.tsx:113-118 | the draft links lose the links with the id |
| Invites.Manager.CreateInviteLink | src/components/InviteLinkManager.tsx:140-194 | sends the row `CreateRequest` yields; no row or a failed insert changes nothing; a successful insert puts the first stored row, if any, at the front and resets the draft |
| Invites.Manager.DeleteInviteLink | src/components/InviteLinkManager.tsx:215-227 | the list loses the invitation only after a signed-in delete succeeds |
| Invites.Manager.ToggleInviteStatus | src/components/InviteLinkManager.tsx:229-233 | the list becomes `ToggleStatus` of itself |
| Invites.Manager.AddCatalogueItem | src/components/InviteLinkManager.tsx:412-503 | the button is offered exactly to a premium user below five items and appends a blank item; otherwise nothing changes; the catalogue never exceeds five and stays empty without premium |
| Invites.Manager.SetCatalogueField | src/components/InviteLinkManager.tsx:412-474 | reachable only for a premium user; one field of one rendered item changes |
| Invites.Manager.RemoveCatalogueItem | src/components/InviteLinkManager.tsx:412-485 | reachable only for a premium user; the item at the index is removed |
| Dashboard.InitialProfile | src/pages/Dashboard.tsx:33-39 | the name is the user's name, or "Your Name" when there is none; the other fields are empty |
| Dashboard.OrEmpty | src/pages/Dashboard.tsx:55 | a present value is kept; a missing one reads as "" |
| Dashboard.FromRow | src/pages/Dashboard.tsx:54-60 | each present column is taken as stored; missing text columns become "" and missing links become [] |
| Dashboard.ApplyFetch | src/pages/Dashboard.tsx:41-64 | the profile is replaced only for a signed-in user whose query returns a row; no user, an error or no row keeps it |
| Dashboard.SaveRow | src/pages/Dashboard.tsx:69-82 | the upsert row is keyed by the user's id |
| Dashboard.FetchAfterSave | src/pages/Dashboard.tsx:54-82 | a saved profile fetched back is the profile that was saved |
| Dashboard.StoragePath | src/pages/Dashboard.tsx:154-155 | the path starts with the user's id and a slash and ends with a dot and the file's extension |
| Dashboard.CheckUpload | src/pages/Dashboard.tsx:132-155 | in order: no file or no user stops; a type other than JPEG, PNG or GIF is refused; more than 5 MiB is refused; any other file is stored at the user's storage path |
| Dashboard.SizeBoundary | src/pages/Dashboard.tsx:145 | exactly 5·1024·1024 bytes is accepted; one byte more is refused |
| Dashboard.RefusedUploadKeepsProfile | src/pages/Dashboard.tsx:136-143 | a file of a refused type never changes the profile |
| Dashboard.StoragePathParts | src/pages/Dashboard.tsx:154-155 | the path splits at its one slash into the user's id and a file name made of the timestamp's digits, a dot and the extension; the timestamp and the extension can be read back from it |
| Dashboard.AvatarAfterUpload | src/pages/Dashboard.tsx:166-169 | only the avatar can change, and only to a non-empty public URL of a stored file |
| JsText.IsWhitespace | src/pages/Auth.tsx:64 | the `\s` and `trim` whitespace set; each such character is one UTF-16 code unit and none is a digit, `+`, `-` or `@` |
| JsText.TrimEmptyIffBlank | src/components/InviteLinkManager.tsx:142 | a trimmed string is empty exactly when every character is whitespace |
| JsText.Utf16Length | src/pages/Auth.tsx:55 | `length` counts code units: one per character plus one per character outside the Basic Multilingual Plane, so between one and two per character |
| JsText.TrimStart | src/components/InviteLinkManager.tsx:142 | returns the suffix left after the leading whitespace: everything removed is whitespace, and the result is empty or starts with a character that is not whitespace |
| JsText.TrimEnd | src/components/InviteLinkManager.tsx:142 | returns the prefix left before the trailing whitespace: everything removed is whitespace, and the result is empty or ends with a character that is not whitespace |
| JsText.Trim | src/components/InviteLinkManager.tsx:142 | returns a contiguous part of the input with only whitespace before and after it, empty or beginning and ending with a character that is not whitespace |
| JsText.Prefix | src/components/InviteAnalyticsDashboard.tsx:60 | `slice(0, 10)` returns the first ten characters, or the whole string when it is shorter |
| JsText.Decimal | src/pages/Dashboard.tsx:155 | the rendering is a non-empty string of decimal digits with no leading zero, except "0" itself |
| JsText.DecimalValue | src/pages/Dashboard.tsx:155 | reading back the rendered digits gives the number |
| JsText.LastDotSegment | src/pages/Dashboard.tsx:154 | the extension has no dot; it is the whole name when there is no dot, and otherwise what follows the name's last dot |
| JsText.LastDotSegmentOf | src/pages/Dashboard.tsx:154 | the extension of `stem.ext` is `ext` when `ext` has no dot |
| Seqs.IndexOf | src/components/InviteAnalyticsDashboard.tsx:61 | -1 exactly when the key is absent; otherwise the first position holding it |
| Seqs.Filter | src/components/InviteAnalyticsDashboard.tsx:106 | keeps exactly the elements satisfying the predicate, in order, each as often as it occurs |
| Seqs.Join | src/components/InviteLinkManager.tsx:725 | no parts give ""; one part gives itself; otherwise the first part and the separator come first. `SplitJoin` pins it down further |
| Seqs.Split | src/pages/Dashboard.tsx:154 | at least one part, and no part holds the separator. `JoinSplit` and `SplitJoin` pin it down further |
| Seqs.SplitJoin | src/components/InviteLinkManager.tsx:725 | splitting a join of separator-free parts gives the parts back |
| Seqs.JoinSplit | src/components/InviteLinkManager.tsx:725 | joining the parts of a split gives the string back |
| IndexPage.Offered | src/pages/Index.tsx:75-89 | Create is rendered exactly on the landing view and Edit exactly on the preview; the create view renders Preview and Back |
| IndexPage.ButtonPlacement | src/pages/Index.tsx:254-280 | each button is rendered on one view only; the landing view and the preview render one button each, the create view Preview and Back |
| IndexPage.Next | src/pages/Index.tsx:20-34 | Create goes to the create view; Preview goes to the preview only with a non-empty name; Back goes to the landing view; Edit goes to the create view; a button not rendered changes nothing |
| IndexPage.PreviewNeedsName | src/pages/Index.tsx:24-34 | the preview is entered only from the create view, by Preview, with a non-empty name; an empty name stays on the create view |
| IndexPage.Transitions | src/pages/Index.tsx:20-22 | Create then Back returns to the landing view; Preview then Edit returns to the create view |
| IndexPage.NoPreviewWithoutName | src/pages/Index.tsx:24-34 | no run of presses with empty names reaches the preview |
| IndexPage.IconFor | src/pages/Index.tsx:65-73 | an icon other than the generic link exactly for `instagram`, `twitter`, `facebook` and `youtube` |
| IndexPage.IconRoundTrip | src/pages/Index.tsx:65-73 | each icon is chosen by its own name, and a new link's default icon name shows the generic icon |
| IndexPage.ShownTitle | src/pages/Index.tsx:317 | the preview shows the link's own title when it has one and "Untitled Link" otherwise |
| IndexPage.Page.constructor | src/pages/Index.tsx:11-17 | the landing view and an empty profile |
| IndexPage.Page.CreateProfile | src/pages/Index.tsx:20-22 | the view becomes the create view, as `Next` states |
| IndexPage.Page.ShowPreview | src/pages/Index.tsx:24-34 | goes to the preview exactly when the name is non-empty, as `Next` states; the preview never shows a nameless profile |
| IndexPage.Page.Back | src/pages/Index.tsx:254 | the view becomes the landing view |
| IndexPage.Page.Edit | src/pages/Index.tsx:280 | the view becomes the create view |
| IndexPage.Page.SetName | src/pages/Index.tsx:188 | only the name changes |
| IndexPage.Page.SetBio | src/pages/Index.tsx:197 | only the bio changes |
| IndexPage.Page.AddLink | src/pages/Index.tsx:36-47 | the profile links gain one blank link |
| IndexPage.Page.UpdateLink | src/pages/Index.tsx:49-56 | the profile links are updated as `Links.UpdateLink` states |
| IndexPage.Page.RemoveLink | src/pages/Index.tsx:58-63 | the profile links lose the links with the id |

## Left out

- The backend client (every select, insert, upsert, delete, storage upload, public-URL lookup, sign-in and sign-up): its answers are parameters. `src/contexts/AuthContext.tsx` and `src/lib/supabaseClient.ts` are not part of this model.
- Clock and locale: `Date.now()` is a parameter. `new Date()` and the calendar are the pair `today` and `isoDate`. The mismatch between the local `setDate` and the UTC `toISOString` is not modelled, because `isoDate` is abstract. `toLocaleString` is the parameter `localTime`. `isExpired` is not modelled.
- `generateInviteId`: it uses `Math.random`, and nothing in the modelled core calls it.
- The rendering of each invitation's premium-only analytics panel (`src/components/InviteLinkManager.tsx:685-739`); its CSV export is modelled as `Invites.Csv`.
- The premium gate of the analytics dashboard: it renders the analytics column and the charts only for a premium user (`src/components/InviteAnalyticsDashboard.tsx:133`, `:155`, `:165`). `Analytics.GetChartData` and `Analytics.Summaries` compute the same values for every user.
- Invites.CsvRoundTrip: fields are joined without quoting. Its second clause needs comma-free fields, and `toLocaleString` renders a time with a comma in common locales (en-US gives "6/8/2024, 12:34:56 PM"). Such a time cell then splits into two cells when the export is read back.
- Toasts, dialogs, the recent-invitation modal and its scroll timer, clipboard copies, `window.open`, navigation, the CSV `Blob` download, `FileReader` data URLs for the logo and item images, and all rendering.
- The dashboard's edit gate: `isEditing` disables the name, username, bio, avatar and link inputs and hides Save, Add Link, Remove and the clear-avatar button while it is off (`src/pages/Dashboard.tsx:282-379`). The model keeps no dashboard page state, so its profile and link edits are the plain `Dashboard` and `Links` functions, which may be applied at any time.
- The dashboard's active tab and the `loading` flag of the analytics dashboard: they are presentation state only.
- The share and stats components, the route guard, `server.js`, and the mock-data pages `InviteView.tsx` and `Profile.tsx`.
- Invites.Manager.SetCatalogueField: the source assigns into objects shared with the previous state after a shallow copy of the array. The model updates by value and does not capture that aliasing.
- Invites.ToggleTwice: it is the identity only when the toggled invitations carry an `isActive` flag. Stored rows carry `is_active`, so a fetched row's `isActive` is absent and reads as false, and two toggles leave it `false`. `Invites.ToggleTwiceSetsAbsentFlag` exhibits this. Every invitation still shows its original status after two toggles.
- Invites.Invitation: the list's `inviteUrl` property is not stored. It is `Analytics.InviteUrl` of the id.
- Links.UpdateLink: only the fields the forms pass (title, URL, icon) are modelled. A string key naming any other property is not.
- Invites.CatalogueItem: the optional `price` and `link` of an item are always present, as a new item has them as "".
- Auth.Submit: a successful login navigates away, and that is not modelled. The second name check of the register branch is modelled, and it never decides, because `Validate` already refused the empty name.
- IndexPage.Page: each handler requires the view in which its button or input is rendered. The source holds no such check, because those handlers cannot be reached from the other views.
- Invites.Manager.SetTitle and Invites.Manager.SetDescription: the inputs' `maxLength` of 50 and 200 (`src/components/InviteLinkManager.tsx:286`, `:295`) is enforced by the browser while typing, and the model accepts any value.
- Event handlers run as one atomic step each. The asynchronous handlers (`createInviteLink` at `src/components/InviteLinkManager.tsx:150-194`, the register branch of `handleSubmit` at `src/pages/Auth.tsx:117-124`, `fetchProfile` at `src/pages/Dashboard.tsx:41-64`) read the state before their `await` and update it after. The model applies each update to the state it started from, so an input typed while a request is in flight is not modelled.
- JsText.Prefix: `slice(0, 10)` counts UTF-16 code units and the model counts characters. The two agree on the ISO timestamps the backend stores, which are ASCII.
- Invites.Manager: `isPremium` is fixed when the manager is built, as a prop is for one render. The theme and catalogue editors require it, because their inputs are rendered only for a premium user.
- `createInviteLink` sends no theme and no catalogue with the new invitation. The model's request records the same.
