# Portfolio media catalogue and event calendar, modelled in Dafny

The portfolio site has a small back end with two route families over a document database.
- **Media catalogue** (`/media`): uploads a photo or video to an external media host and stores a media document. It also lists active documents with filters, search and pagination, reads one document, updates one, and soft-deletes one.
- **Event calendar** (`/calendar`): stores event documents. It lists public events by date range or by month, reads, creates, updates and deletes events, and lists the upcoming ones.

The two document schemas declare required fields, length limits (checked after the `trim` setter), enumerations and defaults.

On the client, a calendar page keeps its own list of events. It shows a month grid with coloured dots per day, the selected day's events, and the next five events, and it has a form that adds an event to the selected day.

The project models these pieces:

- `Common.dfy`: `Option`, `Result` and document ids.
- `Text.dfy`: JavaScript's `trim`, string length in UTF-16 code units (`.length`), `split`/`join` on one separator, ASCII lower-casing and substring search.
- `Seqs.dfy`:
  - filtering;
  - a stable sort by an integer key;
  - `skip`/`limit` slices and page arithmetic;
  - ordered lookup of documents by id.
- `Store.dfy`: the invariant a collection keeps: every stored id is listed once in insertion order, and every id is below the next fresh id.
- `Dates.dfy`:
  - the Gregorian calendar behind `Date` in one fixed time zone, in whole seconds;
  - the `new Date(year, monthIndex, day, h, m, s)` constructor with month and day overflow and the two-digit-year rule;
  - the month window of the calendar routes, and `setHours(0, 0, 0, 0)`.
- `MediaSchema.dfy` and `EventSchema.dfy`: each schema's validators, as the set of violations of a draft. Saving a draft is a function: setters first, then defaults, then validators.
- `MediaRoutes.dfy`:
  - the upload filter, the kind and tag rules, and the upload outcome;
  - the list query and its pagination;
  - the update and soft delete, with a `MediaStore` class (a map of documents plus their natural order) whose methods are the handlers.
- `CalendarRoutes.dfy`:
  - the list, month, upcoming, create, truthy-field update and delete handlers;
  - an `EventStore` class;
  - the `updateData` builder as a method that assembles the update field by field, proved equal to the update document the route describes.
- `LuxuryCalendar.dfy`:
  - the client page as a `CalendarView` class, with the event list, the form, the selected date and the form's visibility as fields;
  - the derived views (day list, tile dots and classes, upcoming list) as functions of the event list.

The media host, the database driver, the clock and the browser's id source are not modelled as code. They appear as parameters:
- `host`: the host's answer to an upload;
- `dbOk`, `destroyOk`, `saveOk`, `populateOk`: whether each call succeeds;
- `now`, `today`: the current time;
- `id`: the clock reading the client uses as an event id.

Where the code and its documented behaviour differ, the model follows the code:
- **Media delete**: the handler awaits the host's destroy call before marking the document inactive. If that call fails, the answer is 500 and the document is unchanged. It is not marked inactive anyway.
- **Rejected files**: a file the filter refuses, or one over the 50 MiB limit, fails inside the upload middleware. The default error handler answers 500, not 400. The oversized file never reaches the host.
- **Media update**: it always rewrites `tags` and `metadata`. An absent `tags` becomes `[]` and an absent `metadata` becomes `{}`. They are not left unchanged.
- **Upload metadata**: malformed metadata text makes `JSON.parse` throw inside the host's callback, outside any `try`. No response is sent. The exception also escapes the web framework, so it probably ends the server process; that depends on the host library's internals, which are not part of this model.
- **Populate after a write**: creating or updating an event first writes it, then reads its media references back. If that read fails, the answer is 500 but the write stays applied.
- **Null date**: `new Date(null)` is the epoch, not an Invalid Date. An event created with `date: null` is therefore stored, dated 1970-01-01.
- **Double upload**: the upload handler opens two host streams but ends only the second (`backend/routes/media.js:95-130`), so the upload happens once. The model follows that stream.

## Model

| member | source | states |
|---|---|---|
| Text.Trim | backend/models/Media.js:7 | the result is the input with its leading and trailing white space cut off, and neither end of the result is white space |
| Text.TrimIdempotent | backend/routes/media.js:115 | trimming twice is trimming once, so the `trim` setter leaves the already trimmed tags unchanged |
| Text.TrimEmptyIff | backend/models/Media.js:4-9 | a string trims to "" exactly when it is white space only, which is what `required` then refuses |
| Text.TrimOpt | backend/models/Media.js:12 | the `trim` setter on an optional string: absent stays absent, and a given string is trimmed |
| Text.Utf16Length | backend/models/Media.js:8 | `.length`, as `maxlength` compares it: between the number of characters and twice that, and equal to it exactly when no character lies outside the Basic Multilingual Plane |
| Text.Utf16LengthAstral | backend/models/Media.js:8 | a string made only of characters outside the Basic Multilingual Plane has twice as many UTF-16 units as characters |
| Text.SplitJoin | backend/routes/media.js:115 | splitting the `,`-join of comma-free pieces gives the pieces back |
| Text.JoinSplit | backend/routes/media.js:115 | joining the pieces of a split with the separator gives the text back |
| Text.ContainsIff | backend/routes/media.js:22-24 | the regular-expression test "alternative occurs in the text" holds exactly when some index starts an occurrence |
| Seqs.SortBy | backend/routes/media.js:164 | the result is ordered by the key and is a permutation of the input |
| Seqs.SortFilterMembers | backend/routes/calendar.js:37-40 | sorting the filtered documents keeps exactly the documents that pass the filter |
| Seqs.Slice | backend/routes/media.js:165-166 | `skip` then `limit`: at most `take` elements, the elements from `skip` on, and nothing past the end |
| Seqs.SoonestFirst | backend/routes/calendar.js:220-221 | the first n of a sorted list have length min(n, size), are its start, and no left-out element has a smaller key than a kept one |
| Seqs.PagesCoverAll | backend/routes/media.js:163-173 | pages 1 to ceil(n / limit), read in turn, give back the whole sequence |
| Seqs.PagesPastEndEmpty | backend/routes/media.js:173 | a page after `totalPages` is empty, and the last page is not |
| Seqs.CeilDiv | backend/routes/media.js:173 | `Math.ceil(n / d)`: the smallest q with q * d >= n |
| Store.AddFresh | backend/routes/calendar.js:125 | inserting under the next id keeps every id listed once, in order, below the next id |
| Store.Remove | backend/routes/calendar.js:195 | removing a stored document keeps the collection consistent |
| Dates.InstantOrdered | backend/routes/calendar.js:39 | instants follow calendar order: date first, then time of day |
| Dates.MonthWindowBounds | backend/routes/calendar.js:26-27 | the month window starts at 00:00:00 on day 1 and ends at 23:59:59 on the month's last Gregorian day |
| Dates.MonthWindowContains | backend/routes/calendar.js:53-54 | a date is inside the window exactly when its year and month are those that (year, month) normalise to |
| Dates.MonthWindowPlain | backend/routes/calendar.js:25-32 | for month 1 to 12 and a year from 100 on, the window holds exactly the dates of that month |
| Dates.DecemberWindowEdges | backend/routes/calendar.js:26-27 | 2024-12-31 23:59:59 is inside the December 2024 window, and 2025-01-01 00:00:00 is not |
| Dates.AtOrAfterMidnight | backend/routes/calendar.js:211-216 | an instant at or after the start of today is one on today's date or a later one |
| MediaSchema.Validate | backend/models/Media.js:3-68 | a draft is refused exactly when some validator fails, with exactly the first failure of each path. A saved document is valid; its title, description and tags are trimmed; its kind is the given type; category, url, thumbnail, reference id, size, dimensions and metadata are those given; and it defaults to featured false, active true and uploaded now |
| MediaSchema.NoViolationsIff | backend/models/Media.js:3-42 | no validator fails exactly when the title is present and at most 100 UTF-16 units after trim, the description is at most 500, the type and category are in their enumerations, the url, reference id and size are present, and a video has a thumbnail |
| MediaSchema.ValidateValid | backend/models/Media.js:3-68 | validation accepts every valid document unchanged, so the validators and setters admit exactly the valid documents |
| MediaSchema.ThumbnailRequiredIffVideo | backend/models/Media.js:29-34 | dropping the thumbnail of a valid document keeps it valid exactly when it is a photo |
| MediaSchema.BlankTitleRefused | backend/models/Media.js:4-9 | a title of white space only is refused with "title required" |
| MediaSchema.EmojiTitleTooLong | backend/models/Media.js:4-9 | a title of 51 emoji (U+1F600) is refused as too long: `maxlength` counts its 102 UTF-16 units, not its 51 characters |
| MediaSchema.BlankCategoryReportedOnce | backend/models/Media.js:20-24 | an empty category is refused as missing only: the enumeration check of that path does not also report it |
| EventSchema.Validate | backend/models/Event.js:3-76 | a draft is refused exactly when some validator fails, with exactly the first failure of each path (lengths in UTF-16 units). A saved event is valid, its title and description trimmed, with the given date, endDate, time, location, media, reminders and attendees, and type "personal", status "upcoming", priority "medium", colour "#DC2626" and isPublic false when not given |
| EventSchema.ValidateValid | backend/models/Event.js:3-76 | validation accepts every valid event unchanged |
| EventSchema.PrivateByDefault | backend/models/Event.js:57-60 | an event saved without isPublic is private |
| MediaRoutes.AcceptsPngPhoto | backend/routes/media.js:21-27 | "Beach.PNG" as "image/png" passes the filter, because the name is lower-cased first |
| MediaRoutes.RejectsMimeWithoutLowerCase | backend/routes/media.js:21-30 | a MIME type with no lower-case letter is refused whatever the name, because the MIME type is not lower-cased |
| MediaRoutes.KindOfMime | backend/routes/media.js:44-45 | the kind is video exactly when the MIME type starts with "video/" |
| MediaRoutes.KindExamples | backend/routes/media.js:44-45 | "video/mp4" is a video and "image/png" a photo |
| MediaRoutes.FolderNames | backend/routes/media.js:48-50 | photos go to "titu-luxury/photos" as images, and videos to "titu-luxury/videos" as videos |
| MediaRoutes.SplitTags | backend/routes/media.js:115 | absent or empty tags give []; otherwise there is one trimmed, comma-free tag per comma-separated piece, empty pieces kept, so (number of commas + 1) tags |
| MediaRoutes.TagsRoundTrip | backend/routes/media.js:115 | trimmed comma-free tags come back unchanged from their comma-joined text |
| MediaRoutes.Status | backend/routes/media.js:37-39 | a missing file is answered 400, an unknown id 404, malformed upload metadata not at all, and every other failure 500 |
| MediaRoutes.UploadDraft | backend/routes/media.js:101-117 | the document handed to the schema has the form's title, description and category, the inferred kind, the secure url and host id, the file size and the host's dimensions, the split tags and parsed metadata, the host's thumbnail for a video and the secure url for a photo, and no featured, active or date value |
| MediaRoutes.UploadOutcome | backend/routes/media.js:35-130 | errors come in the handler's order: no file, filter, size limit, host failure, malformed metadata. Validation then fails exactly when the schema refuses the draft. The upload succeeds exactly when every step passes, with the validated document, which is valid |
| MediaRoutes.UploadedDocument | backend/routes/media.js:101-117 | an uploaded document is active, not featured and dated now. Its title is the form's title trimmed, its description the form's trimmed, its category and metadata those of the form; it holds the host's url, id and dimensions, the file size and the split tags; a video has the host's non-empty thumbnail and a photo is its own thumbnail |
| MediaRoutes.BuildQuery | backend/routes/media.js:150-161 | the query object built field by field matches exactly the active documents that pass every given filter |
| MediaRoutes.TotalPages | backend/routes/media.js:173 | `Math.ceil(total / limit)` for a positive limit, and no number for a zero limit |
| MediaRoutes.Window | backend/routes/media.js:165-166 | the cursor returns at most `limit` records after `skip`; a zero limit means no limit and a negative one its magnitude |
| MediaRoutes.RankedSelected | backend/routes/media.js:163-164 | the ranking holds exactly the stored documents the query selects |
| MediaRoutes.ListedWindow | backend/routes/media.js:163-176 | an answered page is the window of the ranking at (page - 1) * limit, and `total` counts every match, not only the page |
| MediaRoutes.ListedAreSelected | backend/routes/media.js:150-167 | every listed record is active, passes every filter and is stored |
| MediaRoutes.ListedNewestFirst | backend/routes/media.js:164-165 | a listed page is newest first and holds at most `limit` records |
| MediaRoutes.RankedIgnoresPaging | backend/routes/media.js:150-164 | the page and limit change neither which records are ranked nor their order |
| MediaRoutes.PageAnswered | backend/routes/media.js:163-167 | with a positive limit, page k from 1 on is answered with the slice of the ranking at (k - 1) * limit |
| MediaRoutes.PagesListEverything | backend/routes/media.js:163-176 | reading pages 1 to `totalPages` gives every selected record exactly once, newest first |
| MediaRoutes.ApplyPatch | backend/routes/media.js:198-213 | tags and metadata are always replaced. An absent title, description, category or featured flag is kept (the update drops undefined keys, as Mongoose 6 and later do), a given title or description is trimmed, and no other field changes |
| MediaRoutes.PatchClearsTagsAndMetadata | backend/routes/media.js:208-210 | an update without tags or metadata clears both, to [] and {} |
| MediaRoutes.PatchIdempotent | backend/routes/media.js:198-213 | applying the same update twice is applying it once |
| MediaRoutes.MediaStore.Upload | backend/routes/media.js:35-130 | the upload is stored exactly when its outcome is a document and the write succeeds, under a fresh id at the end of the natural order. Otherwise the outcome's error (or a save failure) is returned and nothing changes |
| MediaRoutes.MediaStore.List | backend/routes/media.js:139-181 | a database failure gives 500; otherwise the answer is the list response over the stored documents in their natural order |
| MediaRoutes.MediaStore.Get | backend/routes/media.js:184-195 | a database failure gives 500, an unknown id 404, and a stored id its document, active or not |
| MediaRoutes.MediaStore.Update | backend/routes/media.js:198-227 | malformed metadata or a database failure gives 500 and an unknown id 404, both changing nothing. Otherwise the patched document replaces the stored one |
| MediaRoutes.MediaStore.Delete | backend/routes/media.js:230-251 | an unknown id gives 404; a failed lookup, destroy or save gives 500, and every failure changes nothing. Otherwise the document stays stored, only marked inactive |
| MediaRoutes.DeletedNeverListed | backend/routes/media.js:150 | an inactive document never appears on a listed page |
| CalendarRoutes.Status | backend/routes/calendar.js:81-89 | not found is answered 404, and any other failure 500 |
| CalendarRoutes.OrElse | backend/routes/calendar.js:117-119 | `s \|\| fallback`: a non-empty string wins, and an absent or empty one gives the fallback |
| CalendarRoutes.BuildQuery | backend/routes/calendar.js:17-35 | the query always requires isPublic. It matches exactly the events in the inclusive range when both ends are given, otherwise those in the month when both month and year are given, with the type and status when given |
| CalendarRoutes.ListedExactly | backend/routes/calendar.js:6-42 | an event is listed exactly when it is stored and selected, and the list runs in order of date and time, so also in calendar order of days |
| CalendarRoutes.MonthIsListOfMonth | backend/routes/calendar.js:50-67 | the month route answers exactly what the list route answers for that month and year alone |
| CalendarRoutes.UpcomingLimit | backend/routes/calendar.js:210 | `parseInt(limit) || 5`: an absent, zero or unparsable limit gives 5, and any other number is kept |
| CalendarRoutes.UpcomingIsBounded | backend/routes/calendar.js:208-222 | at most the limit (5 by default), only stored public events dated from today's midnight that are upcoming or ongoing, earliest first |
| CalendarRoutes.UpcomingFromToday | backend/routes/calendar.js:211-217 | every upcoming event is public, upcoming or ongoing, and falls on today's date or later |
| CalendarRoutes.UpcomingIsPrefix | backend/routes/calendar.js:220-221 | the upcoming list has min(limit, number of events to come) entries and is the start of all events still to come in order, so no event left out is earlier than one listed |
| CalendarRoutes.CreateDate | backend/routes/calendar.js:113 | `new Date(date)`: an unparsable or absent date is an Invalid Date, `null` is the epoch, and a date is itself |
| CalendarRoutes.CreateDraft | backend/routes/calendar.js:110-123 | the date is `new Date(date)`; title, description, endDate, time and location are passed as given; empty or absent type, priority and colour become "personal", "medium" and "#DC2626"; absent media, reminders and attendees become []; neither status nor isPublic is passed |
| CalendarRoutes.CreatedEvent | backend/routes/calendar.js:93-125 | a created event is private, upcoming and of a listed type. An empty type gives "personal", an unknown type is refused, an unparsable or missing date is refused, and a `null` date is stored as the epoch |
| CalendarRoutes.BuildUpdate | backend/routes/calendar.js:157-170 | the update document built field by field is exactly the one the route describes: every truthy field set, every falsy one left out, and `description` set whenever it is not undefined, null and "" included |
| CalendarRoutes.ApplyUpdate | backend/routes/calendar.js:157-176 | a truthy field replaces the stored one (title and description trimmed by the setter) and a falsy or absent one keeps it; `description` is replaced even by "" or null, and isPublic never changes |
| CalendarRoutes.UpdateEdgeCases | backend/routes/calendar.js:157-170 | an update with no field, or with an empty title, type, status, priority or colour, changes nothing, while `description: ""` replaces the description with "" |
| CalendarRoutes.UpdateSkipsValidators | backend/routes/calendar.js:172-176 | with no validator run, a blank title and an unknown status are stored as sent, so the result is not a valid event |
| CalendarRoutes.EventStore.List | backend/routes/calendar.js:6-47 | a database failure gives 500; otherwise the answer is the list response over the stored events |
| CalendarRoutes.EventStore.Month | backend/routes/calendar.js:50-72 | a database failure gives 500; otherwise the answer is the public events of the month window, earliest first |
| CalendarRoutes.EventStore.Get | backend/routes/calendar.js:75-90 | a database failure gives 500, an unknown id 404, and a stored id its event, public or not |
| CalendarRoutes.EventStore.Create | backend/routes/calendar.js:93-136 | the event is stored exactly when the draft validates and the write succeeds, under a fresh id at the end of the order, and answered with that id when the populate read also succeeds. A failed populate answers 500 with the event stored; otherwise a failure answers 500 and changes nothing |
| CalendarRoutes.EventStore.Update | backend/routes/calendar.js:139-190 | a database failure gives 500 and an unknown id 404, both changing nothing. Otherwise the stored event becomes ApplyUpdate of it, and the answer is that event, or 500 when the populate read fails |
| CalendarRoutes.EventStore.Delete | backend/routes/calendar.js:193-205 | an unknown id gives 404 and changes nothing. Otherwise the event is removed from the map and from the order, so a later get answers 404 |
| CalendarRoutes.EventStore.Upcoming | backend/routes/calendar.js:208-229 | a database failure gives 500; otherwise the answer is the upcoming response over the stored events |
| CalendarRoutes.CreatedNeverListed | backend/routes/calendar.js:17 | an event stored by the create route never appears on the list, month or upcoming routes |
| LuxuryCalendar.FromForm | src/components/LuxuryCalendar.js:157-161 | the new event carries the clock reading as id, the selected date, and the form's title, description, time, type and colour |
| LuxuryCalendar.SampleEvents | src/components/LuxuryCalendar.js:20-57 | four sample events with ids 1 to 4, each in an offered colour |
| LuxuryCalendar.SameDayIff | src/components/LuxuryCalendar.js:75-79 | two dates share day, month and year exactly when their days start at the same instant |
| LuxuryCalendar.DayEvents | src/components/LuxuryCalendar.js:101-103 | exactly the page's events on the same day as the date |
| LuxuryCalendar.Tile | src/components/LuxuryCalendar.js:106-127 | nothing outside the month view or on a day without events. Otherwise the colours of the day's first three events, and a grey dot exactly when the day has more than three |
| LuxuryCalendar.TileDotCount | src/components/LuxuryCalendar.js:114-124 | a tile shows one dot per event up to four, the fourth standing for the rest, and with at most three events every colour is shown |
| LuxuryCalendar.ClassNameInjective | src/components/LuxuryCalendar.js:134-144 | different highlight styles give different class names |
| LuxuryCalendar.TileClassName | src/components/LuxuryCalendar.js:130-145 | empty exactly outside the month view. In the month view, the class marks whether the day has events and whether it is today |
| LuxuryCalendar.UpcomingBounded | src/components/LuxuryCalendar.js:306-309 | at most five events, all of the page and strictly after now, soonest first |
| LuxuryCalendar.UpcomingComplete | src/components/LuxuryCalendar.js:306-309 | the upcoming list has min(5, number of events ahead) entries, is the start of the events ahead sorted by time, leaves out no event sooner than one it shows, and holds every event ahead when there are at most five |
| LuxuryCalendar.CalendarView.constructor | src/components/LuxuryCalendar.js:81-93 | the page starts with the saved events, or the samples when nothing is saved, with the current date selected, the form blank and closed |
| LuxuryCalendar.CalendarView.SelectDate | src/components/LuxuryCalendar.js:147-149 | only the selected date changes |
| LuxuryCalendar.CalendarView.ShowForm | src/components/LuxuryCalendar.js:246 | only the form's visibility changes, and what was typed is kept |
| LuxuryCalendar.CalendarView.Edit | src/components/LuxuryCalendar.js:369-395 | typing changes only the edited form field |
| LuxuryCalendar.CalendarView.PickType | src/components/LuxuryCalendar.js:405-415 | choosing a type changes only the form's type, which stays one of those offered |
| LuxuryCalendar.CalendarView.PickColor | src/components/LuxuryCalendar.js:423-430 | choosing a swatch changes only the form's colour, which stays one of those offered |
| LuxuryCalendar.CalendarView.AddEvent | src/components/LuxuryCalendar.js:151-173 | a title of white space only is refused and nothing changes. Otherwise exactly one event with the form's fields (title untrimmed) and the selected date is appended, and the form is reset and closed |
| LuxuryCalendar.CalendarView.DeleteEvent | src/components/LuxuryCalendar.js:175-178 | every event with that id is removed, and the others keep their order |
| LuxuryCalendar.AddedJoinsItsDay | src/components/LuxuryCalendar.js:101-103 | an added event joins the end of its own day's list and no other day's |
| LuxuryCalendar.DeleteUndoesAdd | src/components/LuxuryCalendar.js:163-176 | deleting by an id no other event has undoes adding that event |

## Left out

- The media host (`cloudinary.uploader`): its upload and destroy calls are parameters of the handlers, namely its answer or whether it succeeded. Its configuration, transformations (`quality`, `fetch_format`) and the stream plumbing are not modelled.
- The database driver: every read or write succeeds or fails according to a `dbOk` parameter. For the read routes a failed `populate` is part of `dbOk`; for the create and update routes it is the separate `populateOk`. Id casting of malformed ids (a cast error, answered 500) is not modelled, because ids are natural numbers.
- The content `populate` fills in for an event's media references, the schemas' indexes and the `timestamps` fields: library behaviour with no effect on which documents are returned or in what order.
- MediaRoutes.SearchHit: the search text is compiled as a case-insensitive regular expression in the source. Here it is a literal substring, lower-cased in ASCII only, so regular-expression operators and non-ASCII case folding are not captured.
- MediaRoutes.AcceptsFile: the file name is lower-cased in ASCII only, while `toLowerCase` also folds other letters. For "clip.AV\u0130" (capital I with dot above) the source lower-cases to text containing "avi" and accepts the file, while the model refuses it. The filter's regular expression is modelled as its list of literal alternatives, which is exact for this pattern.
- `JSON.parse` of the metadata field: modelled as a parse result, either absent, a metadata value or malformed text. Casting of its values is not modelled.
- Query and body values are typed: `page` and `limit` are integers or absent. The dates of the list filter and of an update are parsed dates or absent, and the create body's date is a parsed date, `null` or unparsable. The route's string handling is therefore not modelled: non-numeric paging values (NaN), string `currentPage`, and unparsable date strings in the list filter (a cast error answered 500).
- Dates are whole seconds in one fixed time zone, taken as UTC, so the epoch `new Date(0)` is 1970-01-01 00:00:00. Milliseconds, other time zones and daylight saving are not modelled.
- Sort ties: documents with equal sort keys keep their natural order (a stable sort). The database does not promise any order for ties.
- Casting of numbers and nested fields: `size`, `dimensions`, `time`, `location`, reminders and attendees are stored as given. Only the enumerations on reminders and attendees are checked.
- LuxuryCalendar.CalendarView: local storage (loading is the constructor's `saved` argument; saving after each change is not modelled), toasts, date formatting, the JSX and animation. It also does not model the first render before the loading effect runs, when the list is still empty.
- LuxuryCalendar.CalendarView.AddEvent: `Date.now()` for the new id and `new Date()` for today are parameters.
- The client's request layer, the upload component and the presentational components are not part of this model.
