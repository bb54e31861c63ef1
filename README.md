# Speaker presentation plugin — a Dafny model

This project models the speaker-management core of an event plugin in three parts.

- **The admin screen** (`admin/Page.jsx`):
  - It loads the speaker list from the server and normalises it.
  - It filters the list by a search text and an activity, sorts it by a chosen column and cuts it into pages of eight.
  - It shows a window of five page buttons, accepts a typed page number only when that page exists, and moves a speaker one place up or down.
  - It validates the editor form: name and description are required, and each social URL must match its platform's pattern.
  - It builds the request bodies for creating and updating a speaker.
- **The public widget** (`components/SpeakerComponent.jsx`):
  - It narrows the loaded list by speaker id, then by activity, then by a name filter.
  - It gathers the activities a speaker (by name) takes part in.
  - It lists the speaker's non-empty social links.
- **The server's speaker service** (`services/speaker_service.py`):
  - It lists, reads, creates, batch-creates, updates and deletes speakers, and removes a speaker's image.
  - It registers and unregisters image media along the way.
  - Media aliases are built with `slugify` (`utils/utils.py`).

Modules, one per concern:

- `Wrappers`, `Text`, `Seqs` and `JsValues` are shared vocabulary:
  - Option and Result;
  - ASCII case, substring search, trimming, lexicographic order;
  - order-preserving filter and subsequence;
  - JavaScript values with truthiness, `Number()` and `===`.
- `SocialPatterns` gives each of the four URL regular expressions as a language and as a recogniser, and proves that they agree.
- `AdminForm` covers validation and request bodies.
- `AdminList` covers normalisation, filtering, sorting, pages and the text helpers.
- `AdminPage` holds the `SpeakerManagement` class, whose fields are the screen's state variables and whose methods are its state-changing handlers.
- `SpeakerWidget` covers the public widget.
- `Slugs` is `slugify`.
- `SpeakerStore` holds the class `SpeakerService`:
  - the store is a `map<int, Speaker>` of rows, the set of existing activity ids and the media table (uuid to alias; an alias is kept as the name and uuid4 its text `slugify(name)-uuid4` is built from);
  - every method either fails with an `HttpError` and leaves the rows untouched, or commits its change;
  - every method keeps the invariant `Valid()`, which says that ids are keys below `nextId` and that activity references are truthy only when the activity exists.

Where the service and its declarations disagree, the model follows the service as written.

- The record declaration (`models/speaker.py:4-16`) has no `order` column. The request schema (`schemas/speaker.py:3-9`) declares only `name`, `description` and `image`.
- The service still reads and writes `role`, `activity_id`, `order` and the social fields.
- The model therefore gives the stored row an `order` and gives the request every field the service reads.
- Each request field is either sent or left out (`Field<T>`), because `update` dumps only the fields that were set. The name is always present.

Decisions:

- Calls the model cannot see become parameters or uninterpreted values:
  - the two validity tests `is_valid_uuid` and `is_valid_url` are function-valued constants of the service;
  - each media registration's outcome is a `FreshMedia` parameter, standing for the uuid4 in the alias and the uuid the media service assigns;
  - `parseInt` of the typed page number is an `Option<int>` argument.
- JavaScript's `trim` and `Number()` skip every ECMAScript white-space character and line terminator, not only ASCII ones: `Text.IsJsSpace` includes U+00A0, U+FEFF, U+1680, U+2000 to U+200A, U+2028, U+2029, U+202F, U+205F and U+3000.
- JavaScript's `Array.prototype.sort` is stable since ES2019, so the sorted view is specified as the stable insertion sort of the filtered list by the source's comparator.
- The form's messages are a `Message` value (none, the two required-field messages, one per platform); `AdminForm.MessageText` gives each one's exact text, and the empty text belongs to no message but "none".
- A media alias is stored as the name and uuid4 it is made of; `SpeakerStore.AliasText` renders it as `slugify(name)-uuid4`.

## Model

| member | source | states |
|---|---|---|
| AdminList.NormaliseSpeaker | admin/Page.jsx:180-191 | the id and image are copied; the name is never empty and is "Unnamed Speaker" exactly when the raw name is falsy; role, description and social fields are empty exactly when falsy, and otherwise kept; the activity id is null when falsy and otherwise its `Number()` |
| AdminList.ResponseItems | admin/Page.jsx:179-211 | an array response is taken whole; an object response yields its `results` list, else its `items` list, else nothing; any other response yields nothing |
| AdminList.NormaliseResponse | admin/Page.jsx:179-207 | the loaded list has one normalised speaker per response item, in order, each with a non-empty name |
| AdminList.FilterSpeakers | admin/Page.jsx:632-645 | the filtered list is an order-preserving subsequence of the loaded list; a speaker is in it exactly when it matches the search (name or description, case-insensitively) and the activity filter; each kept speaker occurs as often as in the loaded list |
| AdminList.NoFilterKeepsAll | admin/Page.jsx:634-641 | with an empty search and no activity filter, every speaker is shown in its original order |
| AdminList.ActivityName | admin/Page.jsx:651-654 | the activity sort key is the name of the first activity whose id strictly equals the speaker's activity id (as `find` returns it), and is '' when no activity has that id |
| AdminList.SortKey | admin/Page.jsx:648-654 | the name, role and description columns read that property of the speaker, the activity column reads the activity's name, and the social column has no key because a speaker has no such property |
| AdminList.Compare | admin/Page.jsx:656-658 | the comparator returns -1 exactly when the first key is before the second in the chosen direction (smaller when ascending, larger when descending), 1 exactly when it is after, and 0 otherwise, in particular always on the social column |
| AdminList.CompareZeroIffSameKey | admin/Page.jsx:656-658 | the comparator ties two speakers exactly when their sort keys are equal |
| AdminList.CompareAntisymmetric | admin/Page.jsx:656-658 | swapping the arguments negates the comparator |
| AdminList.CompareTransitive | admin/Page.jsx:656-658 | "not after" is transitive, so the comparator is a consistent order |
| AdminList.Insert | admin/Page.jsx:647-659 | inserting one speaker adds exactly that speaker to the multiset |
| AdminList.InsertSorted | admin/Page.jsx:647-659 | inserting into a sorted list keeps it sorted |
| AdminList.SortSpeakers | admin/Page.jsx:647-659 | the sorted view is a permutation of the filtered list and is ordered by the comparator for the chosen column and direction |
| AdminList.FilterInsert | admin/Page.jsx:647-659 | inserting a speaker puts it in front of every speaker it ties with and leaves the order of the others among themselves unchanged |
| AdminList.SortStable | admin/Page.jsx:647-659 | the sort is stable: any group of speakers the comparator ties keeps its relative order |
| AdminList.SortStableByKey | admin/Page.jsx:647-659 | for every sort key, the speakers with that key appear in the sorted view in the order of the filtered list |
| AdminList.SortKeepsSortedList | admin/Page.jsx:647-659 | sorting an already sorted list leaves it unchanged (stability) |
| AdminList.SortOnMissingKeyIsIdentity | admin/Page.jsx:648-658 | sorting on the social column leaves the filtered order as it is |
| AdminList.ToggleSort | admin/Page.jsx:572-579 | the clicked column becomes the sort column; clicking the current column flips the direction; a new column starts ascending |
| AdminList.ToggleSortTwiceRestores | admin/Page.jsx:572-579 | clicking the current column twice restores the sort state |
| AdminList.ToggleNewFieldTwice | admin/Page.jsx:572-579 | clicking a new column twice sorts it descending |
| AdminList.TotalPages | admin/Page.jsx:661 | the page count is the least number of eight-item pages that holds the list, and is 0 exactly for an empty list |
| AdminList.PageContents | admin/Page.jsx:662-665 | a page is the slice of up to eight items starting at (page-1)*8, and is empty past the end |
| AdminList.AcceptedPageIsNonEmpty | admin/Page.jsx:1317-1320 | every page number from 1 to the page count shows at least one speaker |
| AdminList.PagesUpToIsPrefix | admin/Page.jsx:661-665 | the first k pages concatenated are the first 8k items |
| AdminList.PagesCoverList | admin/Page.jsx:661-665 | the pages 1..total concatenated are the whole sorted list, so no speaker is unreachable |
| AdminList.PageWindow | admin/Page.jsx:1258-1278 | the buttons are consecutive pages between 1 and the page count, at most five; with five or more pages there are exactly five, starting two before the current page but shifted to stay within 1..total, so the current page is among them; with fewer there are pages 1..total; with none there are none |
| AdminList.LastIndexOf | admin/Page.jsx:20 | the result is the position of the last occurrence of the character, or -1 when it does not occur |
| AdminList.TruncateText | admin/Page.jsx:17-24 | empty or short-enough text is returned unchanged; longer text is cut at the last space of its first maxLength characters (or at maxLength when that space is at position 0 or missing) and "..." is appended |
| AdminList.SplitOnSpace | admin/Page.jsx:565 | splitting on ' ' yields at least one word, no word contains ' ', and joining the words with ' ' gives back the name |
| AdminList.HeadsOfSplit | admin/Page.jsx:564-567 | joining the first character of each word of the split equals taking each character that follows a space (or starts the name) |
| AdminList.GetInitials | admin/Page.jsx:563-570 | the initials are at most two characters: the upper-cased word starts of the name, cut to two |
| SocialPatterns.PatternImpliesRecognise | admin/Page.jsx:94-111 | every URL the platform's pattern describes is accepted by the recogniser |
| SocialPatterns.RecogniseImpliesPattern | admin/Page.jsx:94-111 | every URL the recogniser accepts is described by the pattern |
| SocialPatterns.RecogniseIffPattern | admin/Page.jsx:94-111 | the recogniser accepts exactly the language of each platform's anchored regular expression |
| AdminForm.MessageTextEmpty | admin/Page.jsx:94-123 | the texts of the required-field messages and of each platform's pattern message are non-empty; only the absent message is '' |
| AdminForm.ValidateSocialMediaUrl | admin/Page.jsx:113-123 | an empty URL is valid with an empty message; any other URL is valid exactly when it matches the platform's pattern; the message is absent exactly when valid and is the platform's pattern message otherwise |
| AdminForm.PlatformsComplete | admin/Page.jsx:689 | the validation loop visits every platform |
| AdminForm.ValidateStep1 | admin/Page.jsx:667-700 | the name error (under `eventName`) is present exactly when the name is empty, and the description error exactly when the description is empty; a social error is present exactly when that field is non-empty and does not match, and it carries the pattern's message; the step passes exactly when no error is present |
| AdminForm.PrepareImageUpload | admin/Page.jsx:26-31 | the upload is the form's file when it holds one, and null otherwise |
| AdminForm.PrepareSpeakerData | admin/Page.jsx:33-50 | text fields are copied; activity and social fields become null when falsy; `image: null` is added exactly when there is neither a new file nor a stored image |
| AdminForm.AddSpeakerPayload | admin/Page.jsx:232-241 | the create body has role and description '' when falsy, activity and social fields null when falsy (never another falsy value), and no image key |
| AdminForm.UpdateSpeakerPayload | admin/Page.jsx:266-281 | the update body has the same normalised fields; its image key is null when the draft's image is null, is the draft's image when that is truthy and not 'keep', and is absent otherwise |
| AdminForm.SubmitPayload | admin/Page.jsx:467-473 | the upload is the form's file when it holds one, else null; the body sent carries the name, role and description as typed, the activity id or null when falsy, each social URL or null when empty, and never the file; a create has no image key; an update carries `image: null` exactly when no file is attached and no image is stored |
| AdminPage.SwapCells | admin/Page.jsx:615 | the array afterwards is the old array with the two cells exchanged |
| AdminPage.SwappedOrder | admin/Page.jsx:610-620 | the reorder list has one entry per shown speaker with orders 0..n-1; the two positions carry each other's ids; every other position keeps its id |
| AdminPage.SpeakerManagement.constructor | admin/Page.jsx:132-171 | the initial state: no speakers and no error, empty search, no activity filter, sorted by name ascending, page 1, empty page box, no errors, and the form of Page.jsx:136-146 (empty texts, no file, no activity) |
| AdminPage.SpeakerManagement.FetchSpeakers | admin/Page.jsx:173-225 | a response replaces the list with its normalisation and clears the error; a failure keeps the list and sets the fetch error; nothing else changes |
| AdminPage.SpeakerManagement.HandleSort | admin/Page.jsx:572-579 | the sort state becomes the toggle of the old one; the sorted view keeps the same speakers; nothing else changes |
| AdminPage.SpeakerManagement.GoToPage | admin/Page.jsx:1317-1320 | a typed number from 1 to the page count becomes the current page (and that page is non-empty); anything else leaves the page as it was |
| AdminPage.SpeakerManagement.PreviousPage | admin/Page.jsx:1251 | the current page decreases by one but not below 1 |
| AdminPage.SpeakerManagement.NextPage | admin/Page.jsx:1285 | the current page increases by one but not beyond the page count |
| AdminPage.SpeakerManagement.ValidateForm | admin/Page.jsx:667-700 | the stored errors are those of step 1 for the current form: the name error ("Event name is required") exactly when the name is empty, the description error exactly when the description is empty, and each platform's pattern message exactly when that URL is non-empty and does not match; the result says whether there are none; nothing else changes |
| AdminPage.SpeakerManagement.MoveSpeaker | admin/Page.jsx:609-630 | no reorder is sent exactly when the target row is outside the sorted view; otherwise the reorder list numbers the sorted view 0..n-1 with the two rows exchanged |
| SpeakerWidget.FetchedList | components/SpeakerComponent.jsx:240-241 | an array response is the list; anything else is an empty list |
| SpeakerWidget.FetchErrorMessage | components/SpeakerComponent.jsx:242-248 | a 401 asks the visitor to log in; any other failure shows the error's message, or the default message when it has none |
| SpeakerWidget.StagedFilterIsOneFilter | components/SpeakerComponent.jsx:282-302 | the three filter stages applied in turn equal one filter by the conjunction of their conditions |
| SpeakerWidget.WidgetFilterSpec | components/SpeakerComponent.jsx:282-302 | the shown list is an order-preserving subsequence of the loaded one, and a speaker is shown exactly when it passes the id, activity and name conditions that are set |
| SpeakerWidget.NoActivitiesDropped | components/SpeakerComponent.jsx:290-296 | when an activity filter is set, a speaker without an activities list is never shown |
| SpeakerWidget.ActivityIdsOf | components/SpeakerComponent.jsx:44 | one activity id per entry, in order |
| SpeakerWidget.ActivityIdsOfMembership | components/SpeakerComponent.jsx:44 | a value is among the ids exactly when some entry has it as activity id |
| SpeakerWidget.SpeakerActivityIds | components/SpeakerComponent.jsx:43-44 | an id is collected exactly when it is truthy and some entry with the same name has it |
| SpeakerWidget.SpeakerActivities | components/SpeakerComponent.jsx:43-47 | the speaker's activities are an order-preserving subsequence of all activities, and an activity is among them exactly when its id was collected, as often as it occurs in the activity list |
| SpeakerWidget.SocialLinks | components/SpeakerComponent.jsx:66-71 | the links keep the LinkedIn, Facebook, Instagram, YouTube order; a link is shown exactly when its URL is truthy; there are at most four |
| Slugs.KeepAllowedChars | utils/utils.py:20 | only word characters, whitespace and '-' of the input survive |
| Slugs.KeepAllowedIsFilter | utils/utils.py:20 | the first substitution is exactly the filter by the class `[\w\s-]`: every allowed character is kept, in order, and no other |
| Slugs.KeepAllowedExtremes | utils/utils.py:20 | a string made only of allowed characters is unchanged; one with none of them becomes '' |
| Slugs.StripStart | utils/utils.py:20 | the result is the input with its leading whitespace removed: a suffix that does not start with whitespace, and everything removed is whitespace |
| Slugs.StripEnd | utils/utils.py:20 | the result is the input with its trailing whitespace removed: a prefix that does not end with whitespace, and everything removed is whitespace |
| Slugs.StripChars | utils/utils.py:20 | stripping keeps only characters of the input |
| Slugs.CollapseChars | utils/utils.py:21 | the result has no whitespace and only characters of the input or '-' |
| Slugs.CollapseNoDoubleDash | utils/utils.py:21 | no two dashes are adjacent after collapsing |
| Slugs.CollapseKeepsWords | utils/utils.py:21 | collapsing keeps every character that is not '-' or whitespace, in order, and adds no other |
| Slugs.CollapseRun | utils/utils.py:21 | a maximal run of '-' and whitespace becomes exactly one '-' |
| Slugs.CollapseWord | utils/utils.py:21 | a stretch without '-' or whitespace is copied unchanged |
| Slugs.SlugifyShape | utils/utils.py:19-21 | a slug holds only word characters and '-', no upper-case letter and no two adjacent dashes |
| Slugs.SlugifyWords | utils/utils.py:19-21 | leaving its dashes aside, a slug is exactly the word characters of the input, lower-cased, in their original order |
| Slugs.BlankSlug | utils/utils.py:19-21 | a name made only of punctuation and whitespace has the empty slug |
| Slugs.CollapseFixed | utils/utils.py:21 | collapsing a string that is already collapsed changes nothing |
| Slugs.SlugFixed | utils/utils.py:19-21 | each step of slugify leaves a slug unchanged |
| Slugs.SlugifyIdempotent | utils/utils.py:19-21 | slugifying a slug changes nothing |
| SpeakerStore.AliasTextParts | services/speaker_service.py:35 | a media alias is a slug of the name, then '-', then the fresh uuid |
| SpeakerStore.StoredImage | services/speaker_service.py:32-43 | a created row keeps the sent image only when it is a valid URL; otherwise it stores the uuid of freshly registered media |
| SpeakerStore.MediaAfterCreate | services/speaker_service.py:34-42 | new media is registered, under the alias of the speaker's name, exactly when the image is missing or not a URL |
| SpeakerStore.HandleImage | services/speaker_service.py:31-43 | the image step yields the stored image and the media table above |
| SpeakerStore.ListedBeforeTotal | services/speaker_service.py:20 | any two rows are comparable in listing order |
| SpeakerStore.ListedBeforeTransitive | services/speaker_service.py:20 | listing order (order with NULL first, then name) is transitive |
| SpeakerStore.InsertListed | services/speaker_service.py:20 | inserting one row adds exactly that row |
| SpeakerStore.InsertListedSorted | services/speaker_service.py:20 | inserting into a list in listing order keeps it in listing order |
| SpeakerStore.ConsListed | services/speaker_service.py:20 | a row listed before every row of a list in order may be put in front of it |
| SpeakerStore.DecideImage | services/speaker_service.py:131-152 | a falsy new image keeps the stored one; over a stored uuid, a URL replaces it and unregisters the old media, and a non-URL is ignored; over a stored URL, a non-URL registers fresh media; otherwise the new image is stored |
| SpeakerStore.ImageDecisionProperties | services/speaker_service.py:131-152 | the image after an update is the old one, the truthy new one, or fresh media; a falsy new image never changes it; a stored uuid is only ever replaced by a URL; fresh media only replaces a stored URL when the new value is not a URL |
| SpeakerStore.RequestEntry | services/speaker_service.py:128 | a field is dumped exactly when it was sent (the name always is), under its own key, with the value the request gives it |
| SpeakerStore.SetField | services/speaker_service.py:157 | setting one attribute changes that attribute and no other |
| SpeakerStore.LookupAppend | services/speaker_service.py:155-157 | in a sequence of assignments the later one wins |
| SpeakerStore.DumpLookup | services/speaker_service.py:128 | the dumped request holds, for each key, the sent value and nothing for unsent keys |
| SpeakerStore.ApplyFields | services/speaker_service.py:155-157 | after the assignment loop, each attribute other than the image holds its dumped value when present and its old value otherwise; id and image are untouched |
| SpeakerStore.DumpOverlay | services/speaker_service.py:128-157 | reading an attribute after the loop is the same as overlaying the request on the old value |
| SpeakerStore.FieldOrderDistinct | services/speaker_service.py:128 | each attribute appears once in the dump order |
| SpeakerStore.FieldOrderComplete | services/speaker_service.py:128 | every attribute appears in the dump order |
| SpeakerStore.HandleNewImage | services/speaker_service.py:129-152 | the image step of update sets the image chosen by the decision and changes the media table as the decision says |
| SpeakerStore.OverlayAll | services/speaker_service.py:154-157 | every attribute other than the image ends as the request overlaid on the old row |
| SpeakerStore.FailureIn | services/speaker_service.py:89-93 | a reported failure lies among the items looked at, and its truthy activity id names no activity |
| SpeakerStore.FailureInSpec | services/speaker_service.py:74-93 | there is no failure exactly when every item's activity exists, and the reported failure is the first item whose activity is missing |
| SpeakerStore.FailureInStays | services/speaker_service.py:74-93 | once an item fails, looking at later items does not move the failure, so the loop may stop there |
| SpeakerStore.IntToString | services/speaker_service.py:93 | the text of an activity id spells its value in decimal, with a leading '-' when it is negative and no leading zero |
| SpeakerStore.NatToString | services/speaker_service.py:93 | the decimal text of a natural number is non-empty, all digits, without a leading zero, and its decimal value is the number |
| SpeakerStore.BatchRecords | services/speaker_service.py:74-109 | the first n rows of a batch, one per item |
| SpeakerStore.BatchRecordsAt | services/speaker_service.py:74-109 | the i-th row of a batch has id first+i, the i-th request's fields, its stored image and order None |
| SpeakerStore.BatchRecordsFit | services/speaker_service.py:74-109 | when every item's activity exists, the batch rows carry consecutive ids and existing activities |
| SpeakerStore.BuildBatch | services/speaker_service.py:74-109 | the loop stops at the failure FailureIn finds, if any, with media registered for the items before it and for that item; otherwise it yields the batch rows and the media of every item |
| SpeakerStore.CommitBatch | services/speaker_service.py:111-113 | committing adds the pending rows under consecutive new ids and keeps the old rows |
| SpeakerStore.CommitKeepsValid | services/speaker_service.py:70-115 | committing a batch keeps the store invariant |
| SpeakerStore.UpdateKeepsValid | services/speaker_service.py:117-161 | an update that passed the activity check keeps the store invariant |
| SpeakerStore.SpeakerService.constructor | services/speaker_service.py:12-13 | a new service has no rows and no media |
| SpeakerStore.SpeakerService.GetById | services/speaker_service.py:22-27 | the row with that id, or "Speaker not found" (404) exactly when there is none |
| SpeakerStore.SpeakerService.GetAll | services/speaker_service.py:15-20 | each stored row of the activity (all rows when none is given) is listed exactly once, and nothing else is; the list is ordered by order (NULL first), then by name |
| SpeakerStore.SpeakerService.Create | services/speaker_service.py:29-68 | the image step always happens; a truthy activity id that names no activity fails with "Activity not found" and adds no row; otherwise one row is added under a new id, with the request's fields, the stored image, and the sent order or 0 |
| SpeakerStore.SpeakerService.CreateMany | services/speaker_service.py:70-115 | the batch succeeds exactly when FailureIn finds no failure (by FailureInSpec, when every item's activity exists); a failure names that item's activity id and adds no row; success returns the batch rows and stores them under consecutive new ids, keeping the old rows |
| SpeakerStore.SpeakerService.Commit | services/speaker_service.py:111-113 | the pending rows are stored under the next ids in order, the old rows are kept, and the store invariant holds |
| SpeakerStore.SpeakerService.Update | services/speaker_service.py:117-161 | an unknown id fails with "Speaker not found"; a missing activity fails with "Activity not found" and changes nothing; otherwise the row becomes the request overlaid on the old row, with the image chosen by the image decision, and only that row changes |
| SpeakerStore.SpeakerService.Delete | services/speaker_service.py:163-187 | an unknown id fails; otherwise the row is removed, its media is unregistered when its image is a uuid, and the returned copy carries the row's fields but no order |
| SpeakerStore.SpeakerService.RemoveImage | services/speaker_service.py:189-202 | an unknown id fails; a row without an image fails with "Speaker has no image" and changes nothing; otherwise the image is cleared, uuid media is unregistered, and nothing else changes |

## Left out

- Rendering, modals, notifications, translations, the loading flags and the image previews are left out: they are presentation only.
- The network, async ordering, `FileReader`, the export download, the media-upload fallback and the refetch after a reorder are left out. A request's outcome is an argument instead.
- `validateStep` steps 2 and 3 are not modelled. Step 3 compares dates, and the form never calls it.
- JavaScript `Number()` on signed, decimal, hexadecimal or exponent strings is not modelled; `Number()` reads plain decimal digit strings only.
- `parseInt` is an `Option<int>` argument.
- Case mapping, `\w` and `\s` are ASCII only (plus the `\x1c`-`\x1f` separators Python treats as whitespace). On a non-ASCII letter, `Slugs.Slugify` drops it where Python keeps it.
- String comparison is by code point. The database collation and JavaScript's UTF-16 order are not modelled.
- `is_valid_uuid` and `is_valid_url` are uninterpreted tests, and `MediaService` is reduced to a uuid-to-alias table. `utils/media.py`, which the service imports them from, is not part of this model; `utils/utils.py` is used in its place.
- Database sessions, refreshes and transactions are left out. The model chooses that a failing call leaves the rows as they were and that media registered earlier in the same call stays registered. The service passes its own session to `MediaService.register` (services/speaker_service.py:80-86, 108), so whether earlier rows and media commit or roll back together depends on `MediaService`, which is not part of this model.
- `SpeakerStore.SpeakerService.GetAll`: the listing puts rows without an `order` first, as SQLite sorts NULL. The database behind the session is not part of this model, and another database may put them last.
- `AdminList.TruncateText` and `AdminList.GetInitials` count lengths and positions in code points, where JavaScript's `length`, `substring` and `word[0]` count UTF-16 code units. On text with a character outside the Basic Multilingual Plane (an emoji, say), the model cuts the description at a different place, and it takes a whole character as an initial where the source takes half a surrogate pair.
- `AdminPage.SpeakerManagement.MoveSpeaker` requires a valid row index, because its callers pass the index of a displayed row.
- `AdminForm.SubmitPayload` states the body only. The `name.trim()` guard and the media upload after the call are left out.
- A response whose `results` or `items` holds a non-array value is not modelled.
- The endpoint routing (`router/speaker.py`) and the widget's display styles are not part of this model.

Observations, stated as the model states them:

- Clearing an image from the edit form sends `image: null`. The service ignores a falsy image, so the stored image stays (`SpeakerStore.DecideImage`).
- `moveSpeaker` numbers only the rows of the filtered and sorted view.
- `update` registers fresh media under the alias of the row's old name.
- `create_many` stores no order. Under the NULL-first listing the model chooses, its rows list before rows that have one.
