# Event submission, event actions and the upload list of the ticketing web app

This project is a Dafny model of the three pieces of logic in the event-ticketing front end.

- **The submission schema `CreatEventSchema`** (module `ValidateSchema`). Each field's chain of `.min`, `.max` and `.refine` rules is a sequence of `Rule`s, each a condition plus a message. `Failures` evaluates every rule of a chain and reports each broken one in order. `Issues` tags these messages with the field name, field by field in the order of the schema. A draft is accepted when no issue is reported. Times are integer milliseconds; the start of the current day is a parameter. The coerced numbers are `real`s that are only compared. An image is a `File` with a size and a MIME type.
- **The server actions** (module `EventActions`). The database table is the `events: map<string, Event>` field of an `EventStore` object. `GetEventByIdAction` is a lookup whose envelope comes back inside the safe-action result, as every action's does. The other inputs of `CreateEventAction` are modelled this way:
  - the session cookie is an `Option<string>`;
  - the image host is a function `File -> Option<string>`;
  - the id the database assigns is an input;
  - the insert's outcome is an input: no fault, a known request error with its message, or another error.

  `CreateEventAction` runs the schema, then the body (`ActionBody`). The body checks the session, hands every file to the image host (`UploadImages`, in file order), inserts one record and classifies errors (`Catch`). The pure functions `BodyResult` and `BodyStore` state what the body returns and what the table becomes; the lemmas are about them.
- **The file list of `FileUploader`** (module `Uploader`). It is a class whose `files: Option<seq<File>>` field is replaced by `OnDrop` and `HandleRemoveFile`. The list may be absent because the component's state starts as its `value` prop.
  - `OnDrop` also returns the description it shows for each rejected file, and the list it hands to `onUpload` when the automatic upload starts.
  - `HandleRemoveFile` follows `Array.prototype.splice(index, 1)`, including negative and out-of-range indices.

Quirks of the code that the model keeps:
- The wallet accepts any string, the empty one included.
- Only the first image's size and type are checked.
- No rule relates the end time to the start time.
- A name of exactly 100 characters passes, despite the "less than 100" message.
- zod measures the name and the location by JavaScript's `length`, which counts UTF-16 code units, so every character from U+10000 on (an emoji, say) counts twice.
- A failed upload throws inside the join and is reported as "Unknown error", not as "Image upload failed". The `!imageUrls` branch never runs.
- A missing session calls next-safe-action's `returnValidationErrors`, which throws. The caller therefore receives a server validation error carrying "Not authenticated", and the envelope written after that call is never returned.
- Truthiness is modelled: an empty token counts as missing, and an empty URL counts as a failed upload.

## Model

| member | source | states |
|---|---|---|
| `ValidateSchema.Failures` | apps/web/lib/validate-schema.ts:14-61 | a chain reports at most one message per rule |
| `ValidateSchema.Utf16Length` | apps/web/lib/validate-schema.ts:19-27 | a string's JavaScript `length` lies between its number of characters and twice that; it equals the character count when every character is below U+10000, and twice it when every one is at or above U+10000 |
| `ValidateSchema.Issues` | apps/web/lib/validate-schema.ts:14-61 | the schema reports at most ten issues, one per rule |
| `ValidateSchema.Accepts` | apps/web/lib/validate-schema.ts:14-61 | a draft is accepted iff the name, price, location, start, image and ticket-count chains report nothing; the wallet and end chains play no part |
| `ValidateSchema.FailuresEmptyIff` | apps/web/lib/validate-schema.ts:14-61 | a field's chain reports nothing iff every one of its rules holds |
| `ValidateSchema.FailuresAllBroken` | apps/web/lib/validate-schema.ts:43-56 | when every rule of a chain is broken, all their messages are reported, in chain order |
| `ValidateSchema.NameRule` | apps/web/lib/validate-schema.ts:17-20 | the name passes iff its UTF-16 length is 1 to 100 (100 passes); the empty name reports only "Event name is required", a longer one only the length message |
| `ValidateSchema.TicketPriceRule` | apps/web/lib/validate-schema.ts:21-23 | the coerced price passes iff it is at least 0 |
| `ValidateSchema.LocationRule` | apps/web/lib/validate-schema.ts:24-27 | the location passes iff its UTF-16 length is 1 to 200, with the matching single message otherwise |
| `ValidateSchema.FieldMessagesTagged` | apps/web/lib/validate-schema.ts:14-61 | every message a field's chain reports appears in the issue list under that field's name |
| `ValidateSchema.EmptyNameReported` | apps/web/lib/validate-schema.ts:17-19 | an empty name is reported as "Event name is required" under "name", and the draft is rejected |
| `ValidateSchema.AstralNameTooLong` | apps/web/lib/validate-schema.ts:17-20 | a name of 51 to 100 characters, all from U+10000 on, reports only the length message |
| `ValidateSchema.StartAtRule` | apps/web/lib/validate-schema.ts:28-39 | the start passes iff it is strictly after the start of today; at or before it, "Start date must be in the future" is reported |
| `ValidateSchema.ImageRule` | apps/web/lib/validate-schema.ts:5-56 | the image list passes iff it has 1 to 4 entries and its first entry has at most 5,000,000 bytes and one of the five accepted types |
| `ValidateSchema.NoImageRule` | apps/web/lib/validate-schema.ts:43-56 | an empty image list reports all three image messages, in chain order |
| `ValidateSchema.OnlyFirstImageChecked` | apps/web/lib/validate-schema.ts:49-56 | two image lists of equal length with the same first entry get the same messages |
| `ValidateSchema.TicketAvailableRule` | apps/web/lib/validate-schema.ts:57-59 | the coerced ticket count passes iff it is at least 0 |
| `ValidateSchema.AcceptsIff` | apps/web/lib/validate-schema.ts:14-61 | a draft is accepted iff the name and location have UTF-16 lengths 1 to 100 and 1 to 200, the price and ticket count are at least 0, the start is after the start of today, and the image rules hold (wallet and end are free) |
| `ValidateSchema.WalletAndEndUnchecked` | apps/web/lib/validate-schema.ts:14-42 | changing the wallet or the end time changes no message; an accepted draft stays accepted with an empty wallet and an end before its start |
| `ValidateSchema.LaterImagesUnchecked` | apps/web/lib/validate-schema.ts:49-56 | replacing images 2 to 4 of a draft changes none of its issues |
| `EventActions.Truthy` | apps/web/lib/server/db/event.ts:48-67 | exactly a missing value and the empty string are falsy: a missing or empty cookie is no session, a null answer or an empty URL a failed upload |
| `EventActions.UnixTime` | apps/web/lib/server/db/event.ts:84-85 | milliseconds become whole seconds: `ms / 1000` for non-negative times, truncation toward zero for negative ones |
| `EventActions.UploadAll` | apps/web/lib/server/db/event.ts:62-70 | the join yields URLs iff every upload answered with a non-empty URL, and then one URL per file, in file order |
| `EventActions.UploadImages` | apps/web/lib/server/db/event.ts:61-70 | every file is handed to the image host once, in order, and the result is the join of the answers |
| `EventActions.Catch` | apps/web/lib/server/db/event.ts:95-106 | a known request error surfaces its message; an upload error or any other error gives "Unknown error" |
| `EventActions.EventStore.GetEventByIdAction` | apps/web/lib/server/db/event.ts:13-34 | the action body always runs (any string id passes its schema); an absent id gives "Event not found"; a present id gives the stored record, whose own id is the one asked for; nothing is changed |
| `EventActions.EventStore.CreateEventAction` | apps/web/lib/server/db/event.ts:37-107 | a draft the schema rejects gets its issues back with no upload and no insert; otherwise the body runs; a success is readable by its id, adds exactly one key, and changes nothing else |
| `EventActions.EventStore.ActionBody` | apps/web/lib/server/db/event.ts:39-106 | returns `BodyResult`, leaves the table as `BodyStore`, uploads all files iff the session is usable, and keeps every record under its own id |
| `EventActions.NewRecord` | apps/web/lib/server/db/event.ts:79-90 | the inserted record carries the assigned id, the URLs, the draft's name, location, wallet and price, and each time converted as `UnixTime` does: the whole second it falls in at or after the epoch, truncated toward zero before it |
| `EventActions.BodyResult` | apps/web/lib/server/db/event.ts:47-106 | a validation error comes back iff the session is unusable, and then it is "Not authenticated"; every failure envelope carries "Unknown error" or a known database error's message; a success carries the assigned id |
| `EventActions.BodyStore` | apps/web/lib/server/db/event.ts:79-90 | the table gains at most the fresh id; every other record is kept; a record stored under the fresh id carries that id; without a session or with a refused insert nothing changes |
| `EventActions.BodyInsertsAtMostOne` | apps/web/lib/server/db/event.ts:79-94 | a success stores exactly the returned record under the fresh id and nothing else; every other outcome leaves the table unchanged |
| `EventActions.NotAuthenticatedStops` | apps/web/lib/server/db/event.ts:47-58 | with no token or an empty one, the result is the "Not authenticated" validation error and the table is unchanged |
| `EventActions.UploadFailureIsUnknownError` | apps/web/lib/server/db/event.ts:62-77 | one upload without a URL anywhere in the list gives "Unknown error" and no insert |
| `EventActions.CreateSucceedsIff` | apps/web/lib/server/db/event.ts:79-94 | success iff token usable, all uploads answered and the insert went through; the record copies name, location, wallet, price, URLs in file order and the times in seconds |
| `EventActions.FailureClassification` | apps/web/lib/server/db/event.ts:95-106 | a refused insert reports the known error's message or "Unknown error"; the "Image upload failed" envelope only appears as a database message |
| `EventActions.DemoTalkAccepted` | apps/web/lib/validate-schema.ts:14-61 | the end-to-end draft (Demo Talk, Remote, 1.5, 10 tickets, tomorrow 10:00 to 11:00, one 1 MB JPEG) is accepted |
| `EventActions.DemoTalkCreated` | apps/web/lib/server/db/event.ts:79-94 | with a session, one URL and a working insert, that draft yields one record with that one image and price 1.5 |
| `Uploader.WithDefaults` | apps/web/components/FileUploader.tsx:100-104 | unset props default to `maxSize = 2*1024*1024`, `maxFiles = 1`, `multiple = false`; set props are kept |
| `Uploader.DropRefused` | apps/web/components/FileUploader.tsx:125-134 | a drop that is not refused keeps the list within `maxFiles`; a drop of more than `maxFiles` files is always refused |
| `Uploader.AutoUploadGuard` | apps/web/components/FileUploader.tsx:170-176 | no upload starts without a prior list, a handler or an accepted file; when one starts, the list to upload has 1 to `maxFiles` entries |
| `Uploader.ErrorMessage` | apps/web/components/FileUploader.tsx:149-159 | "file-too-large" gives the size message, "file-invalid-type" the type message, any other code the drop zone's own message |
| `Uploader.Join` | apps/web/components/FileUploader.tsx:163 | joining no messages gives the empty string, joining one gives that message |
| `Uploader.RejectionDescription` | apps/web/components/FileUploader.tsx:148-163 | a rejection with no reasons is described by the empty string, one with one reason by that reason's message |
| `Uploader.SpliceStart` | apps/web/components/FileUploader.tsx:210 | the splice position: an in-range index as is, a negative one counted from the end and clamped at 0, one past the end clamped to the length |
| `Uploader.SpliceOne` | apps/web/components/FileUploader.tsx:210 | removing at an in-range index shortens the list by one, keeps earlier entries and shifts later ones down, losing exactly that entry; an index past the end changes nothing |
| `Uploader.FileUploader.constructor` | apps/web/components/FileUploader.tsx:95-114 | the component starts with its `value` prop as the list and its settings as given |
| `Uploader.FileUploader.OnDrop` | apps/web/components/FileUploader.tsx:123-197 | several files in single-file mode or too many in all leave the list unchanged; otherwise the new list is the old one followed by the accepted files in order; one description per rejected file; the auto-upload guard; the `maxFiles` bound is kept |
| `Uploader.FileUploader.HandleRemoveFile` | apps/web/components/FileUploader.tsx:199-215 | with no list nothing happens; otherwise the list becomes its `splice(index, 1)`; the `maxFiles` bound is kept |
| `Uploader.AutoUploadOnAcceptedDrop` | apps/web/components/FileUploader.tsx:170-176 | on a drop that passes both limit checks, the automatic upload starts iff a list existed, a handler exists and at least one file was accepted |
| `Uploader.RemoveUndoesDrop` | apps/web/components/FileUploader.tsx:199-211 | removing the entry that a one-file drop appended gives back the list from before the drop |

## Left out

- The image host itself (apps/web/lib/server/upload-image.ts) is not modelled. Only its interface is: a function from a file to a URL or none, where a non-ok response or an exception gives none.
- The uploads run concurrently in the code (`Promise.all`). The model runs them sequentially and keeps their order. All of them are started even when one fails, as in the code.
- Session cookies, Prisma, the id generator and the clock are not modelled. The token, the insert's outcome, the fresh id and the start of today are inputs. The fresh id is required to be unused, which a real database guarantees.
- next-safe-action is reduced to two behaviours. The schema runs before the action, and `returnValidationErrors` raises the validation error. Its formatting of errors into nested `_errors` objects is not modelled: the `Issue` list stands in for it, with the root error at path "".
- `z.coerce.number` can yield NaN, which zod rejects with the "… is required" message. It is not modelled: prices and counts are `real`s. A missing field or a value of the wrong type is not modelled either, because the draft's fields are typed.
- `UnixTime` follows date-fns 3 and later (`Math.trunc`); date-fns 2 floors. The two agree for times at or after the epoch.
- Calendars and time zones are left out: `startOfDay(new Date())` is an input.
- Toasts are left out, including the limit notices of `onDrop` and the "uploaded" toast whose dismissal clears the list. So are previews (`URL.createObjectURL`/`revokeObjectURL`), the `isUploading` flag and the `onValueChange` calls.
- `addToast` (apps/web/components/FileUploader.tsx:161) is not declared in the file. The model treats it as showing the description, not as throwing.
- `formatBytes` is not part of this model. The size message uses the component's `maxSizeLabel`, that function's rendering of `maxSize`.
- What `onUpload` does, and whether it fails, is not modelled. `OnDrop` returns the list it is given.
- The array copy in `handleRemoveFile` followed by an in-place `splice` is modelled as building the new list as a value. Aliasing of the old array is not captured.
- The event form (apps/web/app/new-event/_components/event-form.tsx) is not part of this model: the wallet transaction, its float price scaling and the navigation.
- The image host is a function of the file, so two equal `File` values (the same file twice, or two files with the same name, size and type) get the same answer; the real host answers each request on its own. No property here depends on that.
- `Uploader.Join`: states only the empty and one-message cases, not the separator placement for longer lists, because the joined text is only the description of a toast and nothing else reads it.
- `Uploader.RejectionDescription`: states only the descriptions of rejections with no reason or with one, because the description is only the text of a toast.
