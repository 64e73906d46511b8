# unspoken_web — a Dafny model of its core

unspoken_web is a small social web application. Signed-in users form **groups**. With other members of a group they exchange anonymous **letters**: one letter per sender per calendar day. Once a month each user can also name a **crush**, and a crush is revealed as mutual when it is returned. The system has an Express/Mongoose server and a React client.

This project models the server's route handlers for groups, crushes, letters and users. It also models the client helpers and forms that prepare and check the requests those handlers receive. It proves properties of that model.

## Structure

Server side:
- `Models` holds the stored documents: `User`, `Group`, `Crush` and `Letter`.
  - The HTTP outcome is a `Status` whose `Code()` is 200/201/400/403/404/429/500 and which carries the handler's message.
  - A body field is an `Option<string>` (present or `undefined`). A field that should be an array is a `ListField` (`Undefined`, `NotAnArray` or `List`).
  - The document store is the class `Store`, which has one `seq` field per collection. `Store.Valid()` says that group ids, letter ids and user addresses are unique, and that every stored group has a non-empty name (the schema's `required` validator).
- `GroupRoutes`, `CrushRoutes`, `LetterRoutes` and `UserRoutes` each follow one route file:
  - A `GET` handler is a function over the stored sequences.
  - A handler that writes is a `method` on the `Store`. It modifies only the collection it writes. Its `ensures` ties the response to a status function (`CreateStatus`, `UpdateStatus`, …) and the new collection to an effect function (`AfterCreate`, `AfterUpdate`, …).
  - The lemmas are about those functions: the invariants each write keeps, and what a later read then returns.
- `ServerTime` and `ServerGeneral` model `Server/src/utils`. The in-place shuffle of `getRandomSubarray` stays an `array` algorithm with its loop.

Client side:
- `Validation`, `WebTime`, `WebGeneral`, `GroupMembers`, `UserNamesCache`, `UserSlice` and `LetterList` model the client utilities and the Redux slices.
- The three forms are covered by `GroupFormPage` (create/edit a group), `NewLetterForm` (write a letter) and `CrushUpdateForm` (set or clear this month's crush).
  - Each form is a class whose fields are the component's state.
  - Each handler is a method.
  - The request the form sends is also given as a function, so lemmas can relate it to the server's checks.

Shared modules: `Text` (trimming, ASCII lower-casing, decimal rendering, JavaScript string length in UTF-16 code units), `Seqs` (`filter`/`map`), `Clock` (calendar fields, start of today), `ServerConfig`/`WebConfig` (the limits) and `Wrappers`.

### Behaviour worth knowing

The model follows the code in each of these cases:

- A crush is stored under the key `(fromEmail, toEmail, month)` (Server/src/routes/crush.ts:39). Naming a different person the same month adds a second crush instead of retargeting the first. The handlers do not gate crushes on the day of the month. The client's `canSubmitCrush` has such a gate, but it is only a predicate in `Validation`.
- The letter quota is one letter per sender per day (letter.ts:106). The letter listing returns a letter to both its sender and its recipient only from the day after it was sent (letter.ts:22-25). `LetterRoutes.SentLetterVisibility` proves this.
- There is no route for replying to a letter, leaving a group, deleting a group or deleting a crush. The crush form still issues a delete request when switched off. That request is modelled as the `DeleteCrush` action, with no server counterpart.
- `MAX_GROUPS_PER_USER` and `MAX_TOTAL_MEMBERS` are imported by the server's handlers (group.ts:5-10, user.ts:7-12) from Server/src/config.ts, which does not define them (config.ts:1-15). Only the client defines them, as 10 and 250 (Web/src/config.ts:8-9). The model gives the server these values; see "## Left out".
- The create handler rejects more than `MAX_TOTAL_MEMBERS - 1` invitees (group.ts:76-85). The update handler checks members plus invitees against `MAX_TOTAL_MEMBERS` (group.ts:167-173).
- The group listing does not return `creatorEmail` (group.ts:25-31). The edit form therefore loads the creator as unknown (`GroupForm.LoadGroup` sets `creatorEmail := None`), so the form's "cannot remove the creator" guard never applies in edit mode. The server still refuses any PATCH by a non-creator.
- Every length limit counts UTF-16 code units, as JavaScript's `.length` does (`Text.JsLength`): a character outside the Basic Multilingual Plane, such as an emoji, counts twice.
- PATCH /group with `name: ""` passes the handler's checks, but `group.save()` then fails the schema's `required` validator on the name (Server/src/models/group.model.ts:13). The handler answers 500 "Internal server error" and nothing is written.
- `get-names` returns only the addresses that have an account (user.ts:146-153). Unknown addresses are simply absent from its result.

## Model

| member | source | states |
|---|---|---|
| Models.ArrayOrEmpty | Server/src/routes/group.ts:76-78 | an array field yields its items; an absent or non-array field yields the empty list |
| Models.FindFirst | Server/src/routes/group.ts:118 | returns the first index whose key is the one looked up; returns None exactly when no element has that key |
| Models.FindGroup | Server/src/routes/group.ts:118 | returns the first index holding the id; returns None exactly when no group has the id |
| Models.FindUser | Server/src/routes/user.ts:74 | returns the first index holding the address; returns None exactly when no user has it |
| Models.FindGroupUnique | Server/src/models/group.model.ts:11-18 | when ids are unique, the lookup finds the one group carrying the id |
| GroupRoutes.ListGroups | Server/src/routes/group.ts:21-31 | lists exactly the groups where the caller is a member or an invitee, projected to the listed fields, at most one entry per group |
| GroupRoutes.ListGroupsAppend | Server/src/routes/group.ts:21-31 | the listing keeps store order: the listing of a concatenation is the concatenation of the listings |
| GroupRoutes.CountCreatedByAppend | Server/src/routes/group.ts:64-66 | appending a group raises the creator's count by one and leaves every other address's count unchanged |
| GroupRoutes.SameCreatorsCount | Server/src/routes/group.ts:64-66 | stores with the same creators position by position have the same per-creator counts |
| GroupRoutes.CreateStatus | Server/src/routes/group.ts:48-85 | 201 exactly when the name is present and within its limit, any description is within its limit (both in UTF-16 code units), the caller has created fewer than 10 groups and there are at most 249 invitees; otherwise 400, with "Group name is required" for a missing name |
| GroupRoutes.CreatedGroupShape | Server/src/routes/group.ts:88-94 | the created group has the creator as its creator and only member, a non-empty name and a description within their limits, and a total size within the cap |
| GroupRoutes.CreateCounts | Server/src/routes/group.ts:64-94 | a successful create adds exactly one group to the caller's count and none to anyone else's; a rejected one changes nothing |
| GroupRoutes.CreatePreservesInvariants | Server/src/routes/group.ts:64-94 | POST /group keeps every creator at 10 groups or fewer, every group within 250 people and every stored name non-empty |
| GroupRoutes.CreateGroup | Server/src/routes/group.ts:43-106 | the handler answers CreateStatus, stores AfterCreate, returns the new id exactly on 201 and keeps the store invariant |
| GroupRoutes.UpdateStatus | Server/src/routes/group.ts:118-183 | 404 exactly when the id is unknown; 403 exactly when the caller is not the creator; 200 exactly when the supplied name and description are within their limits in UTF-16 code units, the patched group totals at most 250 and its name is non-empty; 500 "Internal server error" exactly when the caller is the creator, the supplied fields are within their limits, the patched group totals at most 250 and its resulting name is empty |
| GroupRoutes.UpdateEffect | Server/src/routes/group.ts:133-177 | PATCH rewrites only the addressed group, which becomes the stored group with the supplied fields replaced (Patched), keeping id and creator and a non-empty name; a refused PATCH leaves the store unchanged |
| GroupRoutes.UpdatePreservesInvariants | Server/src/routes/group.ts:126-177 | PATCH keeps the per-creator quota, the 250-person cap, unique ids and non-empty names |
| GroupRoutes.UpdateGroup | Server/src/routes/group.ts:109-186 | the handler answers UpdateStatus, stores AfterUpdate (nothing on the 500 path) and keeps the store invariant |
| GroupRoutes.PatchFields | Server/src/routes/group.ts:133-164 | refuses the name first, then the description, when over its limit in UTF-16 code units; otherwise returns the stored group with the supplied fields replaced |
| GroupRoutes.InvitationStatus | Server/src/routes/group.ts:197-249 | 400 exactly when the id or the decision is missing: "Group ID is required" first, then "isAccept is required"; 404 exactly when the group is unknown; 403 exactly when a known group has not invited the caller; 200 exactly when it has and the group is saveable, with "Invitation accepted" or "Invitation declined"; never 500 in a store whose groups all have names |
| GroupRoutes.AcceptMovesCaller | Server/src/routes/group.ts:222-233 | accepting moves the caller from invitees to members, leaves every other address where it was, keeps id and creator, and does not grow the group |
| GroupRoutes.AcceptKeepsMembersDistinct | Server/src/routes/group.ts:228-230 | accepting does not duplicate a member, even one already listed |
| GroupRoutes.DeclineRemovesCaller | Server/src/routes/group.ts:234-242 | declining removes only the caller from the invitees, keeps the members and shrinks the group |
| GroupRoutes.InvitationPreservesInvariants | Server/src/routes/group.ts:214-242 | an invitation response keeps the per-creator quota, the cap, unique ids and non-empty names |
| GroupRoutes.RespondToInvitation | Server/src/routes/group.ts:189-251 | the handler answers InvitationStatus, stores AfterInvitation and keeps the store invariant |
| CrushRoutes.SaveStatus | Server/src/routes/crush.ts:16-29 | 200 exactly when a recipient is given and the message has a visible character and trims to at most MESSAGE_LENGTH_LIMIT UTF-16 code units; otherwise 400, "toEmail is required" first |
| CrushRoutes.FindCrush | Server/src/routes/crush.ts:39 | returns the first crush with the (from, to, month) key; returns None exactly when there is none |
| CrushRoutes.UpsertEffect | Server/src/routes/crush.ts:39-54 | after saving, the key holds exactly the new crush, every other crush is untouched, and the collection grows by one exactly when the key was new |
| CrushRoutes.UpsertKeepsKeysUnique | Server/src/routes/crush.ts:39-54 | saving keeps at most one crush per (from, to, month) key |
| CrushRoutes.UpsertLastWins | Server/src/routes/crush.ts:41-45 | two saves under one key equal the second alone: the later message replaces the earlier |
| CrushRoutes.SaveCrush | Server/src/routes/crush.ts:11-63 | the handler answers SaveStatus and stores the trimmed message under the current month's key, or nothing when refused |
| CrushRoutes.SavedMessageShape | Server/src/routes/crush.ts:44-52 | a stored message is non-blank, already trimmed and within the limit |
| CrushRoutes.ResponseMessage | Server/src/routes/crush.ts:77-87 | the response is the reciprocal crush's message for the same month, or "" when there is none |
| CrushRoutes.ListCrushes | Server/src/routes/crush.ts:71-90 | lists exactly the caller's own crushes, each with its response message; it is EntriesOf the whole collection, so by ListCrushesAppend one entry per crush of the caller, in store order |
| CrushRoutes.EntriesOf | Server/src/routes/crush.ts:71-90 | for a single crush: one entry when the caller sent it, none otherwise |
| CrushRoutes.ListCrushesAppend | Server/src/routes/crush.ts:71-90 | with the lookup collection fixed, the entries of a concatenation are the concatenated entries |
| CrushRoutes.MutualReveal | Server/src/routes/crush.ts:77-87 | when two users name each other in the same month, each sees the other's message |
| CrushRoutes.NoReciprocalNoResponse | Server/src/routes/crush.ts:77-87 | without a reciprocal crush the response message is empty |
| LetterRoutes.ListLetters | Server/src/routes/letter.ts:17-33 | lists exactly the letters the caller sent or received that were sent before the start of today, projected to the listed fields |
| LetterRoutes.ListLettersAppend | Server/src/routes/letter.ts:22-33 | a new letter adds at most its own entry, at the end of the listing |
| LetterRoutes.SendStatus | Server/src/routes/letter.ts:51-111 | 400 exactly when a field check fails, with FieldError's message; 404 exactly when the fields pass and the group is unknown; 403 exactly when the sender is not a member of it; 429 exactly when a member has sent a letter today; 201 exactly when a member has sent none |
| LetterRoutes.FieldError | Server/src/routes/letter.ts:51-75 | no error exactly when group and recipient are given and the content is non-blank and trims within LETTER_LENGTH_LIMIT code units; otherwise the first failing check's 400: "fromGroupId is required", "toEmail is required", "content is required", "Content is too long", "Content cannot be empty" |
| LetterRoutes.SentLetterShape | Server/src/routes/letter.ts:114-121 | a stored letter's content is non-blank, trimmed and within LETTER_LENGTH_LIMIT code units |
| LetterRoutes.SendCounts | Server/src/routes/letter.ts:98-121 | a successful send raises the sender's count for today by one and nobody else's |
| LetterRoutes.SendPreservesDailyQuota | Server/src/routes/letter.ts:93-121 | sending keeps every sender at one letter or fewer for the day |
| LetterRoutes.SentLetterVisibility | Server/src/routes/letter.ts:17-25 | a letter sent today is listed for nobody today; from a later day on it is listed, last, for both sender and recipient |
| LetterRoutes.SendLetter | Server/src/routes/letter.ts:45-133 | the handler answers SendStatus, stores AfterSend, returns the new id exactly on 201 and keeps the store invariant |
| UserRoutes.GetProfile | Server/src/routes/user.ts:71-92 | 404 "User not found" exactly when no user has the address; otherwise returns the stored profile of that address |
| UserRoutes.UpdateStatus | Server/src/routes/user.ts:100-104 | 404 exactly when no user has the address, 200 otherwise |
| UserRoutes.UpdateThenGet | Server/src/routes/user.ts:95-121 | after PATCH /user, GET /user returns the supplied language and the supplied name when it is within NAME_LENGTH_LIMIT UTF-16 code units; a too-long or missing name and a missing language leave the old values |
| UserRoutes.UpdateIsLocal | Server/src/routes/user.ts:100-113 | PATCH /user changes only the caller's record and keeps addresses unique |
| UserRoutes.UpdateProfile | Server/src/routes/user.ts:95-121 | the handler answers UpdateStatus, stores AfterUpdate and keeps the store invariant |
| UserRoutes.DisplayName | Server/src/routes/user.ts:150-153 | the name, or the address when the name is empty |
| UserRoutes.NameMap | Server/src/routes/user.ts:146-153 | maps exactly the requested addresses that have an account, each to a display name of that account |
| UserRoutes.NameMapLookup | Server/src/routes/user.ts:146-153 | with unique addresses, each requested account maps to its own display name |
| UserRoutes.GetNames | Server/src/routes/user.ts:124-164 | 400 exactly for a non-array or more than 250 addresses, "Invalid emails array" for a non-array; otherwise the name map |
| Seqs.RemoveEmail | Server/src/routes/group.ts:224-226 | removes every occurrence of the address and keeps every other occurrence: the multiset loses exactly that address; shortens the list exactly when the address was present |
| Seqs.RemoveEmailAppend | Server/src/routes/group.ts:224-226 | removal distributes over concatenation, so the remaining addresses keep their order |
| Seqs.FilterMultiset | Server/src/routes/group.ts:224-226 | filtering keeps every occurrence of a passing element and none of a failing one |
| ServerGeneral.SwapAtPermutes | Server/src/utils/general.ts:14 | a swap keeps the multiset |
| ServerGeneral.ShuffleDownPermutes | Server/src/utils/general.ts:12-15 | the swap loop permutes the copy |
| ServerGeneral.SuffixSubMultiset | Server/src/utils/general.ts:17-18 | the slice taken from the end holds a sub-multiset of the copy |
| ServerGeneral.RandomSubarray | Server/src/utils/general.ts:1-19 | fails exactly when size is negative or larger than the array; otherwise returns size elements drawn from the array without repetition beyond its own |
| ServerGeneral.RandomSubarrayExtremes | Server/src/utils/general.ts:1-19 | size equal to the length gives a permutation of the array; size 0 gives the empty array |
| ServerGeneral.Swap | Server/src/utils/general.ts:14 | the array afterwards is the old one with the two positions exchanged |
| ServerGeneral.ShuffleInPlace | Server/src/utils/general.ts:12-15 | the loop leaves the copy equal to the shuffle specification from the end down to min |
| ServerGeneral.GetRandomSubarray | Server/src/utils/general.ts:1-19 | the method returns RandomSubarray of the input's contents and leaves the input unchanged |
| ServerTime.AddMinutes | Server/src/utils/time.ts:1-5 | the result is m minutes after the date |
| ServerTime.AddMinutesCompose | Server/src/utils/time.ts:1-5 | adding a then b minutes is adding a + b minutes |
| ServerTime.GetDaysDiff | Server/src/utils/time.ts:7-13 | agrees with the client's getDaysDifference, is 0 exactly for equal instants and is the distance rounded up to whole days |
| ServerTime.DisplayDate | Server/src/utils/time.ts:15-21 | gives the same text as the client's displayDate |
| ServerTime.GetCurrentMonth | Server/src/utils/time.ts:23-28 | gives the same key as the client's getCurrentMonth |
| Text.Trim | Web/src/utils/validation.ts:31 | returns the contiguous slice of the input left after removing the whitespace at both ends; it neither starts nor ends with whitespace |
| Text.TrimEmptyIff | Web/src/utils/validation.ts:31 | trims to "" exactly when the string has no visible character |
| Text.TrimIdempotent | Server/src/routes/crush.ts:44 | trimming twice is trimming once |
| Text.ToLower | Web/src/pages/group/form/Index.tsx:139 | lower-cases exactly the ASCII capitals, position by position |
| Text.NatToString | Server/src/utils/time.ts:17-20 | a non-empty string of digits; one digit below 10, two below 100 |
| Text.NatToStringRoundTrip | Server/src/utils/time.ts:17-20 | reading the rendered digits back gives the number |
| Text.IntToStringRoundTrip | Server/src/routes/group.ts:68-71 | reading the rendered integer back gives the integer |
| Text.IntToStringInjective | Server/src/routes/group.ts:68-71 | distinct integers render differently |
| Text.Pad2 | Server/src/utils/time.ts:17-20 | numbers below 100 become exactly two digits that read back to the number |
| Text.CodeUnits | Web/src/utils/validation.ts:24 | a character takes two UTF-16 code units exactly when it lies outside the Basic Multilingual Plane, one otherwise |
| Text.JsLength | Web/src/utils/validation.ts:24 | `.length`: between the number of characters and twice that |
| Text.JsLengthAppend | Web/src/utils/validation.ts:24 | the length of a concatenation is the sum of the lengths |
| Text.JsLengthSlice | Web/src/utils/validation.ts:24 | a slice is never longer than its string |
| Text.TrimJsLength | Server/src/routes/crush.ts:21 | trimming never lengthens a string |
| Text.JsLengthBmp | Web/src/utils/validation.ts:24 | inside the Basic Multilingual Plane the length is the number of characters |
| Text.JsLengthAstral | Server/src/routes/group.ts:53 | an emoji counts two, so "a" followed by one emoji has length 3 |
| Text.JsPrefix | Web/src/pages/letter/Content.tsx:29 | `substring(0, n)` in whole characters: the longest prefix within n code units |
| Validation.ValidateEmailIff | Web/src/utils/validation.ts:12-15 | the address pattern accepts exactly: no whitespace, exactly one '@' with text before it, and a '.' after it with text on both sides |
| Validation.NonEmptyStringIff | Web/src/utils/validation.ts:30-32 | passes exactly when the string has a visible character |
| Validation.InvalidEmails | Web/src/utils/validation.ts:45-49 | collects exactly the addresses the pattern rejects |
| Validation.ValidateEmailArray | Web/src/utils/validation.ts:37-51 | valid exactly when within the count and every address matches; an over-long list reports the maximum |
| Validation.ValidateName | Web/src/utils/validation.ts:56-66 | valid exactly within NAME_LENGTH_LIMIT UTF-16 code units |
| Validation.ValidateDescription | Web/src/utils/validation.ts:71-81 | valid exactly within DESCRIPTION_LENGTH_LIMIT UTF-16 code units |
| Validation.ValidateMessage | Web/src/utils/validation.ts:86-99 | valid exactly when non-blank and, untrimmed, within MESSAGE_LENGTH_LIMIT UTF-16 code units; blank reports "Message cannot be empty" |
| Validation.ValidateLetterContent | Web/src/utils/validation.ts:104-117 | valid exactly when non-blank and, untrimmed, within LETTER_LENGTH_LIMIT UTF-16 code units; blank reports "Content cannot be empty" |
| Validation.ValidateInvitedEmails | Web/src/utils/validation.ts:137-141 | valid exactly for fewer than 250 addresses that all match |
| Validation.ValidateTotalGroupSize | Web/src/utils/validation.ts:146-158 | valid exactly when members plus invitees are at most 250 |
| WebTime.AddDays | Web/src/utils/time.ts:1-15 | moves the date by whole days; at day start when isNoon is set, otherwise keeping the time of day |
| WebTime.GetCurrentMonth | Web/src/utils/time.ts:17-22 | "YYYY-MM": the year, a dash and the month counted from 1 in two digits |
| WebTime.GetCurrentMonthInjective | Web/src/utils/time.ts:17-22 | two dates share a key exactly when they share year and month |
| WebTime.SortByDate | Web/src/utils/time.ts:24-33 | the result is a permutation of the input sorted by time, ascending or descending |
| WebTime.Insert | Web/src/utils/time.ts:26-32 | one insertion step extends the sorted prefix and keeps the multiset |
| WebTime.Swap | Web/src/utils/time.ts:26-32 | exchanges two positions and keeps the multiset |
| WebTime.GetDaysDifference | Web/src/utils/time.ts:35-41 | the distance rounded up to whole days; 0 exactly for equal instants |
| WebTime.GetDaysDifferenceSymmetric | Web/src/utils/time.ts:35-41 | the order of the arguments does not matter |
| WebTime.DisplayDate | Web/src/utils/time.ts:43-49 | "DD/MM/YYYY" whose parts read back to day, month and year |
| WebTime.FormatRelativeTime | Web/src/utils/time.ts:51-69 | "just now" under a minute, then whole minutes, hours and days ago, then the full date from a week on |
| WebTime.FloorSteps | Web/src/utils/time.ts:53-56 | flooring unit by unit equals flooring by the whole unit, and the thresholds agree |
| WebTime.IsSameDayEquivalence | Web/src/utils/time.ts:71-77 | isSameDay is reflexive, symmetric and transitive |
| WebTime.FormatUTCTime | Web/src/utils/time.ts:84-93 | "YYYY/MM/DD HH:MM UTC" whose two-digit parts read back to month, day, hours and minutes |
| WebGeneral.AnyIn | Web/src/utils/general.ts:15 | true exactly when some item is in the set |
| WebGeneral.HasIntersection | Web/src/utils/general.ts:13-16 | true exactly when some element is in both arrays |
| WebGeneral.HasIntersectionEmpty | Web/src/utils/general.ts:13-16 | an empty array intersects nothing |
| WebGeneral.HasIntersectionSymmetric | Web/src/utils/general.ts:13-16 | the order of the arrays does not matter |
| WebGeneral.HasIntersectionBySets | Web/src/utils/general.ts:13-16 | only the sets of elements matter |
| GroupMembers.GroupMembers | Web/src/pages/group/utils/groupMembers.ts:9-24 | one entry per member then per invitee, in order; a member is tagged creator exactly when it is the creator's address; every invitee is tagged invited |
| GroupMembers.EmailsInOrder | Web/src/pages/group/utils/groupMembers.ts:14-23 | the entries' addresses are the members followed by the invitees |
| GroupMembers.CreatorTag | Web/src/pages/group/utils/groupMembers.ts:15-22 | only the creator's address is ever tagged creator |
| UserNamesCache.NamesCache.constructor | Web/src/slices/userNamesCacheSlice.ts:7-9 | the cache starts empty |
| UserNamesCache.NamesCache.AddUserNames | Web/src/slices/userNamesCacheSlice.ts:15-20 | the cache becomes the old one merged with the payload |
| UserNamesCache.NamesCache.Clear | Web/src/slices/userNamesCacheSlice.ts:21-23 | the cache becomes empty |
| UserNamesCache.Merge | Web/src/slices/userNamesCacheSlice.ts:19 | keys of both; the payload wins on shared keys and old entries survive elsewhere |
| UserNamesCache.MergeIdempotent | Web/src/slices/userNamesCacheSlice.ts:19 | adding the same payload twice is adding it once |
| UserNamesCache.MergeAssociative | Web/src/slices/userNamesCacheSlice.ts:19 | two additions equal one addition of the merged payloads |
| UserSlice.TransformProfile | Web/src/slices/userSlice.ts:22-33 | keeps id, address and name; keeps a filled-in language, otherwise takes the current interface language if supported, else the fallback |
| UserSlice.TransformedLangNonEmpty | Web/src/slices/userSlice.ts:22-33 | the language is never empty afterwards and is supported whenever it was filled in |
| UserSlice.TransformIdempotent | Web/src/slices/userSlice.ts:22-33 | a transformed profile passes through a later transform unchanged |
| LetterList.GetPreviewContent | Web/src/pages/letter/Content.tsx:27-30 | content within the limit in UTF-16 code units is unchanged; longer content becomes its longest prefix within the limit followed by "..." |
| LetterList.PreviewBounds | Web/src/pages/letter/Content.tsx:27-30 | a preview is at most three code units over the limit and starts with a prefix of the content that is either all of it or cannot take one more character |
| GroupFormPage.AddOutcomeFor | Web/src/pages/group/form/Index.tsx:138-204 | a blank address gives "email required"; an address is added only when the name lookup succeeded |
| GroupFormPage.AddedIff | Web/src/pages/group/form/Index.tsx:139-189 | added exactly when the normalised address is non-blank, matches the pattern, is not the user, is not yet listed, the group is below 250 and the lookup succeeded |
| GroupFormPage.AddKeepsDistinct | Web/src/pages/group/form/Index.tsx:167-191 | adding keeps the member and invitee lists free of duplicates |
| GroupFormPage.AddKeepsCap | Web/src/pages/group/form/Index.tsx:177-191 | adding never takes the group past 250 and never adds the user or a blank address |
| GroupFormPage.RemoveFrom | Web/src/pages/group/form/Index.tsx:206-217 | the known creator is never removed; otherwise the address leaves the members if it is one, else the invitees |
| GroupFormPage.RemoveShrinks | Web/src/pages/group/form/Index.tsx:206-217 | removing never adds anybody and never grows either list |
| GroupFormPage.SubmitFor | Web/src/pages/group/form/Index.tsx:219-261 | a request goes out exactly when the trimmed name is non-empty and the limits hold in UTF-16 code units; a create without an edit id, an update with it, carrying the trimmed fields |
| GroupFormPage.SubmittedCreateChecks | Web/src/pages/group/form/Index.tsx:254-260 | a create the form sends passes the server's name and description checks; POST /group then succeeds exactly when the caller has fewer than 10 groups and there are fewer than 250 invitees |
| GroupFormPage.SubmittedUpdateChecks | Web/src/pages/group/form/Index.tsx:246-253 | an update the form sends for a group the caller created passes the field checks; PATCH then succeeds exactly when members plus invitees are at most 250 |
| GroupFormPage.FullPatchStatus | Server/src/routes/group.ts:133-183 | a creator's PATCH that supplies every field within its limit is accepted exactly when the name is non-empty and the total is within the cap |
| GroupFormPage.GroupForm.constructor | Web/src/pages/group/form/Index.tsx:66-74 | the form starts empty |
| GroupFormPage.GroupForm.LoadGroup | Web/src/pages/group/form/Index.tsx:98-106 | edit mode copies the listed group's fields; the creator stays unknown |
| GroupFormPage.GroupForm.HandleAddEmail | Web/src/pages/group/form/Index.tsx:138-204 | the outcome is AddOutcomeFor; on success the normalised address is appended to the invitees, its name is cached and the input clears; otherwise the state is unchanged |
| GroupFormPage.GroupForm.HandleRemoveMember | Web/src/pages/group/form/Index.tsx:206-217 | the lists become RemoveFrom of the old lists |
| GroupFormPage.GroupForm.HandleSubmit | Web/src/pages/group/form/Index.tsx:219-261 | the submission is SubmitFor of the current state |
| NewLetterForm.LastWrittenLetters | Web/src/pages/letter/new/Content.tsx:36-38 | keeps exactly the listed letters not addressed to the user, all of them with no profile |
| NewLetterForm.LastWrittenLettersAppend | Web/src/pages/letter/new/Content.tsx:36-38 | the order of the listing is kept |
| NewLetterForm.CanSendToday | Web/src/pages/letter/new/Content.tsx:54-62 | true with fewer than two written letters; otherwise true exactly when the second-to-last was not written today |
| NewLetterForm.AvailableUsers | Web/src/pages/letter/new/Content.tsx:65-72 | the selected group's members with the user's address removed (RemoveEmail), so in order and with the multiset losing only that address; all members with no profile; none without a group |
| NewLetterForm.GroupOptions | Web/src/pages/letter/new/Content.tsx:74-79 | exactly the groups with more than one member, each captioned by its name |
| NewLetterForm.IsFormValidAsWritten | Web/src/pages/letter/new/Content.tsx:81-91 | as written: group, recipient, non-blank alias and content, acknowledgement, with no daily check |
| NewLetterForm.IsFormValid | Web/src/pages/letter/new/Content.tsx:81-91 | as intended: the written checks, and the second-to-last written letter not on the browser's current day |
| NewLetterForm.ListedLettersNeverBlock | Web/src/pages/letter/new/Content.tsx:54-62 | over the server's listing, canSendToday() holds whenever every instant on the browser's current day is at or after the server's start of today |
| NewLetterForm.DailyLimitIgnored | Web/src/pages/letter/new/Content.tsx:81-91 | a concrete state where the form as written is valid although canSendToday() is false and the intended check fails |
| NewLetterForm.PayloadShape | Web/src/pages/letter/new/Content.tsx:93-102 | a payload the form as written sends passes the server's required and non-blank checks |
| NewLetterForm.NewLetterForm.constructor | Web/src/pages/letter/new/Content.tsx:30-34 | the form starts empty and unacknowledged |
| NewLetterForm.NewLetterForm.PrefillAlias | Web/src/pages/letter/new/Content.tsx:41-46 | takes the alias of the last written letter, if any, and changes nothing else |
| NewLetterForm.NewLetterForm.SelectGroup | Web/src/pages/letter/new/Content.tsx:49-51 | choosing a group clears the recipient and keeps the rest |
| NewLetterForm.NewLetterForm.HandleSubmit | Web/src/pages/letter/new/Content.tsx:93-102 | as written: sends a payload exactly when the form is valid without the daily check, carrying the form's group, recipient and trimmed alias and content |
| NewLetterForm.NewLetterForm.HandleSubmitChecked | Web/src/pages/letter/new/Content.tsx:81-102 | with canSendToday() called: sends exactly when IsFormValid holds, never on a day the user already wrote, carrying the same payload |
| CrushUpdateForm.CurrentCrush | Web/src/pages/crush/update/Content.tsx:30-32 | the first listed crush of the current month; None exactly when there is none |
| CrushUpdateForm.FormValid | Web/src/pages/crush/update/Content.tsx:46-49 | switched off: valid exactly when there is a crush to delete; switched on: valid exactly for a non-blank matching address and a non-blank message |
| CrushUpdateForm.SubmitFor | Web/src/pages/crush/update/Content.tsx:51-84 | off with no crush leaves; off with a crush deletes; on and valid saves the trimmed address and message |
| CrushUpdateForm.SubmittedCrushAccepted | Web/src/pages/crush/update/Content.tsx:78-84 | a save the form issues is accepted by POST /crush exactly when its message is within MESSAGE_LENGTH_LIMIT (5000) UTF-16 code units; the form does not check the length |
| CrushUpdateForm.ToggleOffThenSubmit | Web/src/pages/crush/update/Content.tsx:51-76 | after switching off, submit deletes when there is a crush this month and otherwise leaves |
| CrushUpdateForm.CrushForm.constructor | Web/src/pages/crush/update/Content.tsx:30-36 | switched on and filled in exactly when this month already has a crush |
| CrushUpdateForm.CrushForm.Sync | Web/src/pages/crush/update/Content.tsx:38-44 | refills the form from an existing crush and otherwise changes nothing |
| CrushUpdateForm.CrushForm.Toggle | Web/src/pages/crush/update/Content.tsx:128-133 | switching off clears both fields; switching on keeps them |
| CrushUpdateForm.CrushForm.HandleSubmit | Web/src/pages/crush/update/Content.tsx:51-103 | the action is SubmitFor of the current state |

`Validation.ValidateEmail`, `ValidateStringLength`, `ValidateNonEmptyString`, `CanSubmitCrush` and `ValidateObjectId` are predicates whose bodies are the definitions (Web/src/utils/validation.ts:12-32, 122-132). The lemmas above are what is proved about them.

## Left out

- The undefined imports of `MAX_GROUPS_PER_USER` and `MAX_TOTAL_MEMBERS` (group.ts:5-10, user.ts:7-12; Server/src/config.ts:1-15 defines neither): as written, the build fails or both are `undefined` at run time, every comparison against them is false, and the server enforces neither the group quota, nor the invitee and member caps, nor the get-names limit. The model uses the client's 10 and 250 instead, as the handlers evidently intend.
- Routing: Server/src/server.ts:5,31 mounts only the `/user` router, so in this snapshot the group, crush and letter handlers are unreachable and their paths fall to the 404 catch-all at server.ts:33-39. The model states each handler as if its router were mounted under its path.
- Login (Server/src/routes/user.ts:32-68), Google token verification, JWT issuing and the auth middleware: the caller's address is a parameter of every handler.
- The other 500 paths (store failures, Mongoose CastError for malformed ids, validators other than the group name's `required`): the store never fails and ids are plain keys. The create handlers never reach a validator: each requires the fields the schema requires, and the caller's address is never empty.
- Database and HTTP plumbing. The `Promise.all` in the crush listing (crush.ts:74) is modelled as one pass over the crushes. Races between concurrent requests are not modelled.
- Local-time calendar fields (`getFullYear`, `getMonth`, `getDate`, hours, minutes, DST): they are inputs (`Clock.DateFields`, `Clock.Today`). Tomorrow is taken as today plus one day.
- `Math.random` in getRandomSubarray: replaced by a sequence of picks, one per position.
- `toLowerCase` is modelled on ASCII letters only.
- GetPreviewContent: when the cut falls inside a character outside the Basic Multilingual Plane, JavaScript's `substring` keeps its lone high surrogate, which a Dafny string cannot hold; the model drops the whole character.
- `sortByDate` stability: the model proves sortedness and permutation, not stability.
- JSON `null`, non-string strings and non-boolean `isAccept` values: body fields are absent or strings, and `isAccept` is absent or a boolean.
- The client's i18next language switch, toasts, navigation and the `{label, value}` shape of the recipient options.
- The send handler reads the clock once (`Clock.Today`), where the code builds `today` and the timestamp from separate `new Date()` calls.
- CrushRoutes.SaveCrush: the month key built inline (crush.ts:32-36) is modelled by `ServerTime.GetCurrentMonth`, which builds the same text.
- The crush form's delete request: the server has no delete route, so `DeleteCrush` is an outcome only.
- `isParsableJSON` (Web/src/utils/general.ts:1-11) and the date formatting done in components: not used by the modelled core.

## Findings

| source | as written | input that shows it | evidently intended | confidence | as-written member | corrected member |
|---|---|---|---|---|---|---|
| Web/src/pages/letter/new/Content.tsx:81-91 | `isFormValid` tests `canSendToday` without calling it, so the always-truthy function value passes the daily check | a browser whose calendar day began before the server's: GET /letter lists two letters the user wrote, the second-to-last sent before the server's start of today yet on the browser's today; with every field filled in the form is valid and the submit button is enabled. When browser and server share the calendar, the listing never holds such a letter (ListedLettersNeverBlock), and POST /letter's 429 enforces the quota either way | call `canSendToday()` | medium that the call was intended, low impact; not executed | NewLetterForm.DailyLimitIgnored | NewLetterForm.IsFormValid |
