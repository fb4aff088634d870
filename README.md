# asset-audit core in Dafny

asset-audit is a React Native application for recording condition assessments of building
assets: a photo, a category and element, a condition and priority score, notes and a position.
This project models the parts of it that are logic rather than screens, and proves what they
promise:

- the local record store of the web build (`lib/db.web.ts`): two tables, assessments and
  defects, joined by `assessment_id`, with the date-scoped id allocator (`local_store.dfy`);
- CSV escaping and the CSV reader of the export/import feature (`csv.dfy`);
- the Firestore document-size estimate, the per-user and system storage totals and the unit
  choice of `formatBytes` (`storage_calculation.dfy`);
- the image upload with its retry policy, object path and URI validation (`image_upload.dfy`);
- the two-phase create of `FirestoreService` and its reads and updates over an abstract
  document store and object store (`firestore.dfy`);
- the redirect and access decisions of route protection, the role guard and the start
  screen (`roles.dfy`, `route_protection.dfy`, `role_guard.dfy`, `index_route.dfy`);
- the responsive layout selectors (`responsive.dfy`).

`wrappers.dfy` holds `Option`, `Result` and `Thrown` (a thrown value: an `Error` with a message, or
something else). `text.dfy` models the JavaScript string operations the code relies on
(`String(n)`, `padStart`, `parseInt`, `split`, `startsWith`, `includes`, `trim`, UTF-8 byte
length and the code-unit order used by `sort()`). `ordering.dfy` is a descending sort by an
integer key, standing for `Array.prototype.sort` with a `b - a` comparator and for Firestore's
`orderBy(..., 'desc')`.

Everything the code gets from outside is an input of the model: the clock, the random suffix,
`Number()` on text, the results of `fetch`, `blob()`, `uploadBytes`, `getDownloadURL`,
`FileSystem.getInfoAsync`, the Firestore reads, the errors `getDoc`, `getDocs`, `updateDoc` and
`deleteDoc` may throw, the document ids `addDoc` assigns, the screen width and the pixel ratio.

Some facts of the code worth knowing when reading the model:

- the local id is `DDMMYYYY-NN`, the sequence padded to two digits by `pad2`
  (lib/db.web.ts:51, 67); the model also shows that three-digit sequences are kept whole and
  that string order makes `...-99` beat `...-100`;
- the object path is `assessments/{userId}/{assessmentId}.jpg` (lib/imageUpload.ts:29);
- `deleteAssessment` of `FirestoreService` deletes only the document (lib/firestore.ts:106-110);
  the picture stays in the object store;
- `formatBytes` prints at most two decimals and drops trailing zeros through `parseFloat`
  (lib/storageCalculation.ts:226).

The `AuthContext` of this repository provides `user`, `loading` and `initializing` but neither
`userProfile` nor `isAdmin`/`isStaff` (lib/auth/AuthContext.tsx:12-19, 62-69), although
`RouteProtection.tsx`, `RoleGuard.tsx` and `app/index.tsx` read them. The decisions are modelled
as the code that reads them intends, with the profile's role as an input; with the context as
it stands the profile is always absent, which the lemmas `RouteProtection.NoProfileNoRedirect`,
`IndexRoute.IndexCases` and `RoleGuard.GuardOutcomes` cover as a case.

## Model

| member | source | states |
|---|---|---|
| LocalStore.NextStandardId | lib/db.web.ts:53-68 | the id starts with the date prefix; with no stored id under today's prefix it is the prefix followed by `01` |
| LocalStore.DatePrefixFormat | lib/db.web.ts:51-55 | for a valid date the prefix is 9 characters: day and month as two digits each, the 4-digit year, then `-`, and each part reads back as the date |
| LocalStore.NextIdAfter | lib/db.web.ts:56-67 | the id starts with the prefix; no earlier id under the prefix gives prefix + `01` |
| LocalStore.NextSequenceOfMax | lib/db.web.ts:59-65 | the sequence is one more than `parseInt` of the part after the dash of the string-greatest id of the day |
| LocalStore.NextSequenceOfAnyMax | lib/db.web.ts:59-65 | for any text after the prefix of the string-greatest id, the sequence is one more than what `parseInt` reads from it up to its next dash, and 1 when it reads nothing |
| LocalStore.AllocationCountsUp | lib/db.web.ts:53-68 | when today's ids are exactly the sequences 1..top (top at most 98), the next id is prefix + pad2(top+1) and no stored id equals it |
| LocalStore.CollisionAfterNinetyNine | lib/db.web.ts:59-67 | with `...-99` and `...-100` stored, string order picks `...-99` and the allocator returns `...-100` again |
| LocalStore.Pad2NeverTruncates | lib/db.web.ts:51 | `pad2` pads to two characters and never cuts a longer number: its last characters are `String(n)` |
| LocalStore.Pad2TwoDigits | lib/db.web.ts:51 | below 100 `pad2(n)` is two digits, contains no dash, and `parseInt` reads it back as n |
| LocalStore.Pad2Order | lib/db.web.ts:51-60 | below 100, string order of padded sequences is numeric order |
| LocalStore.WebDatabase.SaveAssessmentWithDefect | lib/db.web.ts:72-103 | appends exactly one assessment with the allocated id and one defect with id `{id}-d1` and `assessment_id` id (notes default to empty), returns the id, leaves the earlier entries unchanged and keeps every defect linked |
| LocalStore.SaveThenDetails | lib/db.web.ts:82-102 | after a save under a fresh id, the details of that id are the new assessment joined with the new defect, and the tables stay linked |
| LocalStore.ListAssessments | lib/db.web.ts:105-125 | one row per assessment that has a defect, joined with its first defect, sorted by `created_at` non-increasing, and a permutation of the unsorted join |
| LocalStore.JoinRowsMembers | lib/db.web.ts:107-123 | a row is in the join exactly when some assessment with a defect yields it; assessments without one are dropped |
| LocalStore.WebDatabase.DeleteAssessment | lib/db.web.ts:127-132 | the new tables are the old ones without that assessment id and without the defects linked to it, in the old order |
| LocalStore.WithoutAssessmentMembers | lib/db.web.ts:129 | an assessment survives the delete exactly when it was there and has another id |
| LocalStore.WithoutDefectsOfMembers | lib/db.web.ts:130 | a defect survives exactly when it was there and links to another id |
| LocalStore.DeleteIdempotent | lib/db.web.ts:127-132 | deleting twice is deleting once |
| LocalStore.DeleteRemovesRecord | lib/db.web.ts:127-151 | after the delete the details of the id are null and no listed row has the id |
| LocalStore.DeletePreservesLinked | lib/db.web.ts:127-132 | the delete keeps every defect linked to an existing assessment |
| LocalStore.GetAssessmentDetails | lib/db.web.ts:134-151 | null unless the id has both an assessment and a linked defect; otherwise the fields of the first of each |
| LocalStore.AssessmentIndex | lib/db.web.ts:166 | `findIndex`: the first position with the id, or -1 when there is none |
| LocalStore.DefectIndex | lib/db.web.ts:169 | `findIndex`: the first defect linked to the id, or -1 |
| LocalStore.WebDatabase.UpsertAssessmentWithDefectFromImport | lib/db.web.ts:153-173 | the new tables are the upserted ones and stay linked |
| LocalStore.UpsertShape | lib/db.web.ts:165-172 | an existing id keeps the table lengths, a new one appends; every other position is unchanged |
| LocalStore.UpsertAssessmentPosition | lib/db.web.ts:166-168 | the record sits where the first match was, or at the end |
| LocalStore.UpsertDefectPosition | lib/db.web.ts:169-171 | the defect sits where the first linked one was, or at the end |
| LocalStore.UpsertThenDetails | lib/db.web.ts:153-173 | a following `getAssessmentDetails(p.id)` returns exactly the imported fields |
| LocalStore.UpsertIdempotent | lib/db.web.ts:153-173 | a second identical upsert changes nothing |
| LocalStore.UpsertPreservesLinked | lib/db.web.ts:153-173 | the upsert keeps every defect linked |
| Csv.CsvEscape | lib/exportImport.ts:11-15 | unchanged without `,`, newline or `"` (a lone carriage return does not quote); otherwise wrapped in quotes |
| Csv.DoubleQuotes | lib/exportImport.ts:13 | a text without quotes is unchanged and the result is never shorter |
| Csv.EscapeThenParse | lib/exportImport.ts:78-98 | reading back one escaped non-empty field without carriage returns gives that field: quotes are doubled and undoubled |
| Csv.ParseCsv | lib/exportImport.ts:78-98 | the loop computes the reader's result, the function `ParseText` |
| Csv.CsvRoundTrip | lib/exportImport.ts:78-98 | reading the rows written as `csvEscape` joined by `,` and lines joined by newline gives back the rows, when no field holds a carriage return and no row is the single empty field |
| Csv.CommaStep | lib/exportImport.ts:89 | a comma outside quotes ends the current field |
| Csv.QuotedCharStep | lib/exportImport.ts:86 | inside quotes every character but `"`, commas and newlines included, is field content |
| Csv.DoubledQuoteStep | lib/exportImport.ts:84-85 | inside quotes `""` adds one literal `"` and stays quoted |
| Csv.CloseQuoteStep | lib/exportImport.ts:84-85 | inside quotes a single `"` closes the quoted section |
| Csv.OpenQuoteStep | lib/exportImport.ts:88 | outside quotes `"` opens a quoted section |
| Csv.PlainCharStep | lib/exportImport.ts:93 | any other character outside quotes is field content |
| Csv.LineFeedStep | lib/exportImport.ts:90-92 | a newline outside quotes ends the record |
| Csv.CrLfCountsOnce | lib/exportImport.ts:90-91 | `\r\n` ends one record, as does a lone `\r` |
| Csv.BlankLinesSkipped | lib/exportImport.ts:92 | any run of line breaks with nothing collected emits no row |
| Csv.LastLine | lib/exportImport.ts:96 | a last record without a trailing newline is still emitted |
| Csv.QuotedBody | lib/exportImport.ts:83-86 | the quoted body of an escaped field reads back as the field and closes the quotes |
| Csv.PlainBody | lib/exportImport.ts:93 | a field that needs no quoting reads back character by character |
| Csv.FieldRoundTrip | lib/exportImport.ts:83-93 | an escaped field followed by anything but `"` reads back as the field |
| Csv.RowRoundTrip | lib/exportImport.ts:39-50 | a written row reads back as its fields |
| Csv.RowsRoundTrip | lib/exportImport.ts:78-98 | written rows read back after any rows already read |
| StorageCalculation.CalculateDocumentSize | lib/storageCalculation.ts:32-73 | the loop computes the document size `DocSize`, recursing into nested objects and into `{temp: item}` for array elements |
| StorageCalculation.DocSize | lib/storageCalculation.ts:36-69 | a document is at least 1 plus one byte per field |
| StorageCalculation.FieldSize | lib/storageCalculation.ts:39-41 | every field costs at least its one byte of overhead |
| StorageCalculation.EmptyObject | lib/storageCalculation.ts:36-62 | an object without fields has size 1, also as a nested value |
| StorageCalculation.AddField | lib/storageCalculation.ts:39-41 | a field adds the UTF-8 length of its name, its value size and 1 |
| StorageCalculation.AddOneLetterField | lib/storageCalculation.ts:39-44 | adding `"x": "y"` adds exactly 3 |
| StorageCalculation.FieldOrderIrrelevant | lib/storageCalculation.ts:39-69 | the size does not depend on the order of the fields |
| StorageCalculation.EntriesSizePermutation | lib/storageCalculation.ts:39-69 | fields in any order sum to the same size |
| StorageCalculation.TempDocument | lib/storageCalculation.ts:57-58 | `{temp: item}` has size 6 plus the item's value size |
| StorageCalculation.ArrayElement | lib/storageCalculation.ts:54-59 | an array adds 1, and each element 6 plus its value size |
| StorageCalculation.CalculateFirestoreUsage | lib/storageCalculation.ts:78-125 | total is profile size plus assessment size; the count is one for a present profile plus the assessments; a failed read adds 0 |
| StorageCalculation.CalculateUserStorageMetrics | lib/storageCalculation.ts:187-213 | total is Firestore size plus storage size, with each part from its input; a failed listing is rethrown as `Failed to calculate storage metrics: <msg>` |
| StorageCalculation.EntryFor | lib/storageCalculation.ts:273-302 | a user's entry holds their metrics, or all zeros when they fail |
| StorageCalculation.CalculateSystemStorageMetrics | lib/storageCalculation.ts:247-317 | one entry per user in order; totals are sums over the entries and system size is Firestore plus storage; a failed user list is rethrown |
| StorageCalculation.FailedUserAddsNothing | lib/storageCalculation.ts:286-302 | a failing user leaves every total unchanged |
| StorageCalculation.UnitIndex | lib/storageCalculation.ts:224 | the unit index i is the one with 1024^i <= bytes < 1024^(i+1) |
| StorageCalculation.UnitIndexUnique | lib/storageCalculation.ts:224 | that index is unique |
| StorageCalculation.FormatBytes | lib/storageCalculation.ts:218-219 | zero bytes is `0 Bytes` |
| StorageCalculation.UnitChoice | lib/storageCalculation.ts:218-227 | for bytes in [1, 1024^5) the unit is the largest of Bytes/KB/MB/GB/TB not above the value |
| StorageCalculation.PastTerabytes | lib/storageCalculation.ts:223-227 | from 1024^5 bytes on there is no unit: the label is `undefined` |
| ImageUpload.UploadImage | lib/imageUpload.ts:13-42 | succeeds exactly when the fetch is ok, the blob is not empty, the upload and the URL succeed, returning the URL; every failure is `Failed to upload image: <msg>`; the object is written at the path exactly when the upload happened |
| ImageUpload.NotOkRejected | lib/imageUpload.ts:17-40 | a non-ok fetch fails with `Failed to fetch image: <status> <statusText>`, wrapped, and writes nothing |
| ImageUpload.EmptyBlobRejected | lib/imageUpload.ts:23-40 | an empty blob fails with `Image file is empty`, wrapped, and writes nothing |
| ImageUpload.UploadPathInjective | lib/imageUpload.ts:29 | when user ids contain no `/`, different (user, assessment) pairs have different paths |
| ImageUpload.SlashInUserIdCollides | lib/imageUpload.ts:29 | a `/` in the user id lets two pairs share a path |
| ImageUpload.UploadImageWithRetry | lib/imageUpload.ts:52-74 | at most maxRetries attempts; the first success is returned with no further attempt; after each failed attempt k before the last it waits 2^k·1000 ms; when all fail the last attempt's error is thrown (a non-error when there was no attempt) |
| ImageUpload.Backoff | lib/imageUpload.ts:66-69 | the k-th wait is 2^(k+1)·1000 ms |
| ImageUpload.DefaultBackoff | lib/imageUpload.ts:55-69 | three attempts wait 2000 then 4000 ms |
| ImageUpload.WrittenBy | lib/imageUpload.ts:52-74 | every object written by the retries is at the one path |
| ImageUpload.ValidateByFetch | lib/imageUpload.ts:127-140 | valid exactly when HEAD says ok, or HEAD throws and GET says ok |
| ImageUpload.BlankUriInvalid | lib/imageUpload.ts:84-86 | an empty or whitespace-only URI is invalid whatever the probes say |
| ImageUpload.DataUriNeedsNoIo | lib/imageUpload.ts:105-107 | a `data:` URI is valid exactly when it contains `data:image/` and `base64,` |
| ImageUpload.FileUriUsesFileSystem | lib/imageUpload.ts:89-98 | a `file://` URI is decided by the file system, falling back to the fetch check when that throws |
| ImageUpload.OtherUriFetches | lib/imageUpload.ts:100-115 | any URI that does not trim to nothing and is neither `file://` nor `data:` (so `blob:`, `http(s)` and every other scheme) is decided by the fetch check |
| ImageUpload.ThrowingProbesInvalid | lib/imageUpload.ts:81-140 | when every check throws the URI is invalid |
| Firestore.Backend.CreateAssessmentWithImageUpload | lib/firestore.ts:30-61 | uploads first: when the upload fails nothing is written and the error is `Failed to create assessment: <msg>`; otherwise the stored document is the input with only `photo_uri` replaced by the URL, under the id the store assigned, and the picture is in the object store |
| Firestore.UploadFirst | lib/firestore.ts:36-41 | the document write is conditional on one of the three attempts having succeeded |
| Firestore.ApplyPatch | lib/firestore.ts:97 | each field the patch names takes the patch's value, every other field keeps its value; the empty patch changes nothing |
| Firestore.Backend.GetAssessment | lib/firestore.ts:81-93 | a failing `getDoc` is rethrown as it is; otherwise the stored document with its id, or `Assessment not found` |
| Firestore.Backend.UpdateAssessment | lib/firestore.ts:95-104 | a failing `updateDoc` (no such document, or another error) is rethrown and nothing changes; otherwise the document is merged with the patch and the result is the id with the patch alone; the object store never changes |
| Firestore.Backend.DeleteAssessment | lib/firestore.ts:106-114 | a failing `deleteDoc` is rethrown and nothing changes; otherwise only the document goes; the object store never changes |
| Firestore.Backend.ListAssessments | lib/firestore.ts:63-79 | a failing `getDocs` is rethrown as it is; otherwise exactly the user's documents with their ids, one entry per document, ordered by `created_at` descending |
| RouteProtection.ProtectRouteIsTable | lib/auth/RouteProtection.tsx:11-79 | the effect equals a plain decision table; the `isAtAppRoot` branch never fires |
| RouteProtection.NoRedirectWhileInitializing | lib/auth/RouteProtection.tsx:11 | no redirect while initializing |
| RouteProtection.SignedOutGoesToSignIn | lib/auth/RouteProtection.tsx:24-27 | signed out and not on an auth screen: sign-in; on one: nothing |
| RouteProtection.AuthScreenSendsHome | lib/auth/RouteProtection.tsx:30-37 | signed in with a profile on an auth screen: admin to the admin tabs, everyone else to the staff tabs |
| RouteProtection.StaffLeaveAdminTabs | lib/auth/RouteProtection.tsx:42-45 | staff in the admin tabs are sent to the staff tabs |
| RouteProtection.AdminLeavesStaffTabs | lib/auth/RouteProtection.tsx:50-54 | an admin in the staff tabs is sent to the admin tabs |
| RouteProtection.OtherAppRoutesStay | lib/auth/RouteProtection.tsx:57-62 | app routes outside both tab groups are never redirected |
| RouteProtection.OwnTabsStay | lib/auth/RouteProtection.tsx:40-79 | a user in the tab group of their role is never redirected |
| RouteProtection.NoProfileNoRedirect | lib/auth/RouteProtection.tsx:30-40 | signed in without a profile: no redirect |
| RouteProtection.OutsideAuthAndAppStays | lib/auth/RouteProtection.tsx:30-40 | signed in outside `(auth)` and `(app)`: no redirect |
| RouteProtection.RedirectSettles | lib/auth/RouteProtection.tsx:24-54 | on the route a redirect leads to, the same user is not redirected again |
| RouteProtection.AccessRules | lib/auth/RouteProtection.tsx:109-127 | auth routes are accessible; without a profile nothing else is; admin tabs admin only; staff tabs staff or admin; other routes everyone with a profile |
| RouteProtection.StayingMeansAllowed | lib/auth/RouteProtection.tsx:109-127 | wherever the effect leaves a user with a profile on an app route, the permission flag allows that route |
| RouteProtection.AdminAllowedInStaffTabsButMoved | lib/auth/RouteProtection.tsx:50-54 | the permission flag admits an admin to the staff tabs, which the effect still leaves |
| RoleGuard.GuardOutcomes | lib/auth/RoleGuard.tsx:15-45 | loading view exactly while loading; children exactly for a profile whose role is allowed; otherwise the fallback when given, else Access Denied |
| RoleGuard.PresetsAdmit | lib/auth/RoleGuard.tsx:52-84 | `AdminOnly` admits only admin, `StaffOnly` only staff, `StaffOrAdmin` both |
| RoleGuard.CapabilitiesMatchGuards | lib/auth/RoleGuard.tsx:87-100 | admin features and viewing all assessments are what `AdminOnly` admits; capture, create and view-own are what `StaffOrAdmin` admits |
| RoleGuard.AdminCapabilitiesImplyStaffOnes | lib/auth/RoleGuard.tsx:95-99 | every admin capability comes with the staff ones; capture holds exactly for users with a profile |
| IndexRoute.IndexCases | app/index.tsx:13-34 | no navigation while loading; signed out to sign-in; admin profile to the admin tabs; any other profile to the staff tabs; no profile yet, nothing |
| IndexRoute.IndexTargetIsStable | app/index.tsx:13-34 | where the start screen sends a user, route protection leaves them |
| IndexRoute.IndexAgreesWithAuthScreen | app/index.tsx:22-29 | the start screen sends a user with a profile where route protection sends them from an auth screen |
| Responsive.DeviceTypeOf | constants/responsive.ts:12-18 | a small phone is a phone and not a large phone |
| Responsive.ExactlyOneClass | constants/responsive.ts:13-15 | every width is exactly one of phone, tablet and desktop |
| Responsive.ClassOf | constants/responsive.ts:13-15 | the single class agrees with each flag |
| Responsive.ResponsiveValuePrecedence | constants/responsive.ts:90-106 | the value for the current class when given, otherwise the default |
| Responsive.ResponsiveValueExamples | constants/responsive.ts:90-106 | at width 375 the phone value is picked, and without one the default |
| Responsive.FontSize | constants/responsive.ts:124-133 | never below 12 nor above 48 on screens with at least one device pixel per layout unit |
| Responsive.FontSizeBelowFloorAtLowDensity | constants/responsive.ts:124-133 | below one device pixel per layout unit the result can be 11 |
| Responsive.GridColumns | constants/responsive.ts:221-225 | between 2 and 4 columns |
| Responsive.LayoutByClass | constants/responsive.ts:214-225 | desktop 1140 wide and 4 columns, tablet 960 and 3, phone width less 32 and 2 |
| Responsive.LayoutMonotone | constants/responsive.ts:214-225 | a wider screen never gets a narrower container or fewer columns |
| Responsive.AccessibleFontSize | constants/responsive.ts:237-239 | at least 16 and at least the size, and one of the two |
| Responsive.AccessibleFontSizeFixed | constants/responsive.ts:237-239 | applying it again changes nothing, and sizes from 16 up are kept |
| Text.PadStart | lib/db.web.ts:51 | `padStart`: the text ends the result, which is only padded in front and never cut |
| Text.NatToString | lib/db.web.ts:51 | `String(n)`: decimal digits without leading zero that read back as n |
| Text.ParseIntOfDigits | lib/db.web.ts:64 | `parseInt` of a digit string is its value |
| Text.AfterFirst | lib/db.web.ts:63 | `split('-')[1]` starts after the first dash |
| Text.TrimEmpty | lib/imageUpload.ts:84 | `trim()` is empty exactly for a whitespace-only text |
| Text.Utf8Length | lib/storageCalculation.ts:40-45 | a text of n characters is n to 4n bytes |
| Text.Utf8LengthOfAscii | lib/storageCalculation.ts:40-45 | an ASCII text has one byte per character |
| Text.MaxString | lib/db.web.ts:59-60 | `sort().reverse()[0]`: an element no smaller in code-unit order than any other |
| Text.LexLeTotal | lib/db.web.ts:59 | code-unit order compares any two texts |
| Text.LexLeTransitive | lib/db.web.ts:59 | code-unit order is transitive |
| Text.LexLeAntisymmetric | lib/db.web.ts:59 | code-unit order is antisymmetric, so the greatest id is unique |
| Ordering.SortDesc | lib/db.web.ts:124 | a permutation of its input sorted by the key non-increasing |
| Ordering.SortDescMembers | lib/firestore.ts:68 | the sorted sequence holds exactly the elements of the input |

## Left out

- The persistence of the local store in `localStorage` (lib/db.web.ts:39-49): the tables are the fields of `WebDatabase`, and `Load` starts from stored tables.
- `lib/db.ts`, the SQLite version, is not part of this model; its id allocator applies the same string-greatest rule.
- `migrate` does nothing and has no model.
- `Number()` on latitude and longitude text is an input function; JavaScript numbers are modelled as unbounded integers or exact reals, so `NaN`, infinities and rounding are not modelled.
- `LocalStore.NextSequenceOfMax`: `parseInt` is exact on integers; the loss of precision above 2^53 is not modelled.
- String lengths, `includes` and code-unit order count Dafny characters; the UTF-16 surrogate pairs JavaScript counts separately are not distinguished.
- The ZIP export and import bodies (lib/exportImport.ts:17-76, 100-146) cannot run past their unconditional `throw`, and the file-system and ZIP calls are I/O; only the CSV writer and reader are modelled.
- `calculateStorageUsage` (lib/storageCalculation.ts:130-182) is `listAll` and `getMetadata` with `Promise.all`; its result is an input of `CalculateUserStorageMetrics`. `getFormattedUserStorageMetrics` only adds formatted strings.
- The timestamp test at lib/storageCalculation.ts:49-50 is never reached, because numbers match the earlier number case; Dates are a value of their own.
- `StorageCalculation.FormatBytes`: the rendered amount (`Math.log`, `toFixed`, `parseFloat`) is floating point and is an input; only the unit choice and the zero case are modelled, and the unit index is the exact one, without `Math.log` rounding.
- `StorageCalculation.CalculateUserStorageMetrics`: only the failure of the user's assessment listing is modelled as throwing; the other steps already absorb their errors.
- The order of Firestore's `Promise.all` and the clock read once per failed user are not modelled; every entry takes the same `now`.
- Waiting through `setTimeout` is not modelled; the retry records the waits it would make.
- `Firestore.Backend.ListAssessments`: the order among documents with the same `created_at` is left open.
- `LocalStore.ListAssessments`: `Array.prototype.sort` is stable, so rows with the same `created_at` keep their join order; the model states the sorted order and the permutation, not the order of such ties.
- `Firestore.Backend.CreateAssessmentWithImageUpload`: the temporary id (`Date.now()` and a random suffix) and the id Firestore assigns are inputs; that the two differ is not proved, since nothing in the code ties them. The id `addDoc` assigns is required to be one no document has, as Firestore's automatic ids are.
- `createAssessment` without upload (lib/firestore.ts:20-28) is a single `addDoc`; it is not modelled separately.
- The Firebase SDK, `fetch` and `FileSystem` are not modelled; their results are inputs.
- `Responsive.FontSize`: the 12..48 bound is proved for a pixel ratio of at least 1; below that it fails, as `FontSizeBelowFloorAtLowDensity` shows. `PixelRatio.roundToNearestPixel` is modelled as rounding to the nearest device pixel in exact arithmetic.
- The constant tables of `constants/responsive.ts` (breakpoints, touch targets, spacing, typography, radii, shadows, safe-area padding) and the `scale`, `widthPercentage` and `heightPercentage` helpers hold no decision beyond a device or platform flag and are not modelled.
- The screen width is read once when the module loads; the model takes it as a parameter of every selector.
- Rendering, theming and navigation itself are not modelled; the decisions return the route or the view to show.
