# Contact manager: avatar URLs, validation errors and contact-image replacement

This project is a Dafny model of three small pieces of logic in a contact-management web
application. The Dafny verifier proves the stated properties of the model.

- **Avatar helpers (front end).**
  - `getAvatarUrl` turns the avatar value stored for a contact into `null` or into a URL the
    browser can load. It is `AvatarUtils.AvatarUrl`, with the path choice in `AvatarUtils.UploadPath`.
  - The helper that finds the backend's origin is `AvatarUtils.BackendBaseUrl`. Whether the code
    runs in a browser, and whether `NEXT_PUBLIC_API_URL` is set, are given by a `Runtime` value.
  - `getContactInitials` gives the one or two letters shown when there is no picture. It is
    `AvatarUtils.Initials`.
- **Validation middleware (back end).**
  - `extractValidationErrors` reshapes the validator's errors into one-key records
    (`Validate.ExtractValidationErrors`, a loop).
  - `createValidationError` builds the 400 error (`Validate.CreateValidationError`).
  - `validate` either throws that error or calls `next()` (`Validate.Validate`). The method
    returns how many times `next()` was called and what was thrown.
- **Contact-image replacement (back end).**
  - `updateContactImage` is `UpdateImage.ContactStore.UpdateContactImage`. It works on a store
    that holds the contacts table (id → owner and avatar) and the set of file names in
    `uploads/contact_images`.
  - It checks the inputs, looks up the caller's own contact and removes the contact's old file.
    It then stores `contact_images/<upload>` and replies with the qualified avatar.
  - On any failure the catch block removes the uploaded file. It then re-throws an `ApiError`
    as it is and wraps anything else as a 500.
  - The method is proved equal to the specification function `UpdateImage.Handle`. The
    properties of the handler are lemmas about `Handle`.
  - The steps that talk to the database or the disk can throw. Which of them throw is given by a
    `Faults` value: looking the contact up, removing the old file, saving the new avatar, and
    fetching the contact back.

The JavaScript built-ins this code depends on are modelled in `JsStrings` and `JsParseInt`:
`trim`, `split`, `charAt`, `toUpperCase`, `startsWith`, `replace` with a string pattern,
`replace` with a global one-character pattern, `split('/').pop()`, and `parseInt` without a
radix. Each comes with the facts the proofs need.

The handler's 400 and 404 errors might be expected to end it at once, with only other errors
triggering the clean-up. The model follows the code instead. Those errors are thrown inside
the `try`, so the `catch` removes the upload for them as well. `UpdateImage.InputChecks` and
`UpdateImage.NotOwnedIsNotFound` state this.

## Model

| member | source | states |
|---|---|---|
| JsStrings.TrimStart | frontend/src/utils/avatarUtils.ts:59 | leading whitespace removal gives a string no longer than the input whose first character is not ECMAScript whitespace |
| JsStrings.TrimStartDrops | frontend/src/utils/avatarUtils.ts:59 | what remains after leading whitespace is removed is a suffix of the input, and every character dropped is whitespace |
| JsStrings.TrimEnd | frontend/src/utils/avatarUtils.ts:59 | trailing whitespace removal gives a string no longer than the input whose last character is not whitespace |
| JsStrings.TrimEndDrops | frontend/src/utils/avatarUtils.ts:59 | what remains after trailing whitespace is removed is a prefix of the input, and every character dropped is whitespace |
| JsStrings.Trim | frontend/src/utils/avatarUtils.ts:59 | `trim()` is no longer than its input and neither starts nor ends with whitespace |
| JsStrings.TrimIdempotent | frontend/src/utils/avatarUtils.ts:59 | trimming a trimmed name changes nothing |
| JsStrings.Split | frontend/src/utils/avatarUtils.ts:59 | `split(' ')` gives at least one part; exactly one part iff the separator does not occur; no part contains the separator |
| JsStrings.JoinSplit | frontend/src/utils/avatarUtils.ts:59 | joining the parts of a split with the separator gives the string back |
| JsStrings.SplitJoin | frontend/src/utils/avatarUtils.ts:59 | splitting a join of separator-free parts gives the parts back |
| JsStrings.SplitWhole | frontend/src/utils/avatarUtils.ts:59 | a string without the separator splits into itself alone |
| JsStrings.SplitPiece | frontend/src/utils/avatarUtils.ts:59 | a separator-free piece followed by the separator becomes the first part, and the rest splits as before |
| JsStrings.AfterLast | backend/src/controllers/contacts/updateImage.controller.ts:44-46 | the position after the last '/' lies within the string, is preceded by '/', and no '/' follows it |
| JsStrings.SplitLast | backend/src/controllers/contacts/updateImage.controller.ts:44-46 | the last part of `split('/')` (what `pop()` returns) is exactly the text after the last '/' |
| JsStrings.SplitEnds | frontend/src/utils/avatarUtils.ts:59-61 | a trimmed name with a space has at least two parts; the first part starts with the name's first character and the last part with the character after its last space |
| JsStrings.FirstChar | frontend/src/utils/avatarUtils.ts:61 | `charAt(0)` is empty for an empty string and the first character otherwise |
| JsStrings.UpperChar | frontend/src/utils/avatarUtils.ts:61-63 | an ASCII lower-case letter becomes its upper-case letter; any other character is unchanged |
| JsStrings.ToUpper | frontend/src/utils/avatarUtils.ts:61-63 | `toUpperCase()` keeps the length and upper-cases every character in place |
| JsStrings.ToUpperIdempotent | frontend/src/utils/avatarUtils.ts:61-63 | upper-casing twice is upper-casing once |
| JsStrings.ReplaceAllChar | frontend/src/utils/avatarUtils.ts:38 | `replace(/\\/g, '/')` keeps the length and replaces every backslash and nothing else |
| JsStrings.ReplaceAllCharAppend | frontend/src/utils/avatarUtils.ts:38 | the global replacement distributes over concatenation |
| JsStrings.IndexOf | frontend/src/utils/avatarUtils.ts:10 | `indexOf` finds an occurrence with no earlier occurrence, and reports none only when there is none |
| JsStrings.ReplaceFirst | frontend/src/utils/avatarUtils.ts:10 | `replace('/api', '')` leaves a string without the pattern unchanged; when the pattern occurs, the length changes by exactly that of one replacement (four characters shorter for "/api" → "") |
| JsStrings.ReplaceFirstAt | frontend/src/utils/avatarUtils.ts:10 | when the pattern first occurs at i, the result is the text before i, the replacement, and everything after that occurrence |
| JsStrings.TrimStartWhitespacePrefix | backend/src/controllers/contacts/updateImage.controller.ts:29 | all whitespace put in front of a string is removed, and nothing of the string itself |
| JsParseInt.DigitValue | backend/src/controllers/contacts/updateImage.controller.ts:29 | a digit's value is below 36, and '0'..'9' have their decimal values |
| JsParseInt.DigitRun | backend/src/controllers/contacts/updateImage.controller.ts:29 | `parseInt` reads the longest prefix of digits: all characters before the position are digits, the one at it is not |
| JsParseInt.ParseInt | backend/src/controllers/contacts/updateImage.controller.ts:29 | `parseInt(id)` gives a negative number only when the parameter contains '-' |
| JsParseInt.ParseSigned | backend/src/controllers/contacts/updateImage.controller.ts:29 | after the whitespace, a number needs some text, and a negative one a leading '-' |
| JsParseInt.ParseMagnitude | backend/src/controllers/contacts/updateImage.controller.ts:29 | there is a magnitude only when the text starts with a decimal digit, and always when that digit is 1-9 |
| JsParseInt.LeadingWhitespaceIgnored | backend/src/controllers/contacts/updateImage.controller.ts:29 | whitespace before the number does not change what `parseInt` reads |
| JsParseInt.Decimal | backend/src/controllers/contacts/updateImage.controller.ts:29 | the decimal writing of a number is non-empty and made of '0'..'9' |
| JsParseInt.DecimalValue | backend/src/controllers/contacts/updateImage.controller.ts:29 | the decimal digits of n denote n |
| JsParseInt.MagnitudeOfDigits | backend/src/controllers/contacts/updateImage.controller.ts:29 | a run of decimal digits is read whole in base 10 |
| JsParseInt.MagnitudeOfDecimal | backend/src/controllers/contacts/updateImage.controller.ts:29 | the decimal digits of n are read back as n |
| JsParseInt.UnsignedDigits | backend/src/controllers/contacts/updateImage.controller.ts:29 | a string starting with a digit parses to its magnitude |
| JsParseInt.NegatedDigits | backend/src/controllers/contacts/updateImage.controller.ts:29 | a '-' in front of such a string negates the value |
| JsParseInt.NoLeadingWhitespace | backend/src/controllers/contacts/updateImage.controller.ts:29 | nothing is skipped before a string that does not start with whitespace |
| JsParseInt.ParseIntString | backend/src/controllers/contacts/updateImage.controller.ts:29 | `parseInt(String(n)) == n` for every integer n: an id written into the route reads back as that id |
| AvatarUtils.ApiUrl | frontend/src/utils/avatarUtils.ts:8 | the API URL the browser uses is never empty, since `||` replaces an empty setting with the default |
| AvatarUtils.BackendBaseUrl | frontend/src/utils/avatarUtils.ts:4-14 | on the server the origin is http://localhost:8080; in the browser it is the API URL itself or that URL four characters shorter (one "/api" removed) |
| AvatarUtils.ApiFreeUrlKept | frontend/src/utils/avatarUtils.ts:8-10 | a configured URL in which "/api" does not occur is used as it is |
| AvatarUtils.FirstApiRemoved | frontend/src/utils/avatarUtils.ts:8-10 | in the browser only the first "/api" of the configured URL is removed; the text around it is kept |
| AvatarUtils.NoEarlierApi | frontend/src/utils/avatarUtils.ts:10 | "/api" cannot start inside a prefix that does not contain it |
| AvatarUtils.DefaultBaseUrl | frontend/src/utils/avatarUtils.ts:4-14 | with no configured URL, or an empty one, the browser gets http://localhost:8080, the same as the server |
| AvatarUtils.NoApiInServerBaseUrl | frontend/src/utils/avatarUtils.ts:13 | "/api" does not occur in http://localhost:8080 |
| AvatarUtils.Normalize | frontend/src/utils/avatarUtils.ts:38 | the normalized value has the same length and no backslash |
| AvatarUtils.AvatarUrl | frontend/src/utils/avatarUtils.ts:20-53 | null iff the avatar is absent or empty; a value starting with "http" is returned unchanged; any other value gives a URL that starts with the base URL and has no backslash after it |
| AvatarUtils.UploadPath | frontend/src/utils/avatarUtils.ts:40-52 | the path chosen for a backslash-free value is backslash-free |
| AvatarUtils.NormalizePrefixed | frontend/src/utils/avatarUtils.ts:38 | normalizing leaves a backslash-free prefix in place |
| AvatarUtils.NotHttp | frontend/src/utils/avatarUtils.ts:29 | a value whose first character is not 'h' is not an absolute URL |
| AvatarUtils.RelativeAvatarUrl | frontend/src/utils/avatarUtils.ts:29-52 | a non-empty value that does not start with "http" yields the base URL followed by the path of its normalized form |
| AvatarUtils.UploadsPathsAgree | frontend/src/utils/avatarUtils.ts:41-46 | "uploads/x" and "/uploads/x" both yield exactly base + "/uploads/" + normalized x |
| AvatarUtils.UploadPathOfUploads | frontend/src/utils/avatarUtils.ts:41-46 | both spellings of a path under uploads/ come out as "/uploads/..." |
| AvatarUtils.OtherPathsUnderProfilePictures | frontend/src/utils/avatarUtils.ts:48-52 | any other relative value v yields base + "/uploads/profile_pictures/" + normalized v |
| AvatarUtils.UploadPathOfOther | frontend/src/utils/avatarUtils.ts:48-52 | a value starting with neither 'u' nor '/' goes under /uploads/profile_pictures/ |
| AvatarUtils.ContactImagePathUnderProfilePictures | frontend/src/utils/avatarUtils.ts:50-52 | the backend's stored form "contact_images/f" is sent under /uploads/profile_pictures/ as well |
| AvatarUtils.BackslashesDoNotMatter | frontend/src/utils/avatarUtils.ts:37-52 | a relative value and its normalized form yield the same URL |
| AvatarUtils.NormalizeKeepsHttp | frontend/src/utils/avatarUtils.ts:29-38 | normalizing neither creates nor removes an "http" start |
| AvatarUtils.Initials | frontend/src/utils/avatarUtils.ts:58-64 | the initials have at most two characters |
| AvatarUtils.InitialsOfSeveralWords | frontend/src/utils/avatarUtils.ts:58-62 | when the trimmed name contains a space, the initials are exactly two characters: its first character and the first character after its last space, upper-cased |
| AvatarUtils.TwoInitials | frontend/src/utils/avatarUtils.ts:59-61 | the first characters of the first and last parts are the name's first character and the character after its last space |
| AvatarUtils.InitialsOfOneWord | frontend/src/utils/avatarUtils.ts:63 | otherwise the initials are the first min(2, length) characters of the untrimmed name, upper-cased |
| Validate.ExtractValidationErrors | backend/src/validators/validate.ts:6-22 | one record per error, in order; a "field" error becomes {path: msg}, any other {type: msg} |
| Validate.CreateValidationError | backend/src/validators/validate.ts:25-31 | the error has status 400, the first error's message, and the extracted records |
| Validate.Validate | backend/src/validators/validate.ts:33-54 | it throws iff there are errors; with none, next() is called exactly once; with some, never, and the thrown 400 carries the first message and every error reshaped in order |
| UpdateImage.Rethrown | backend/src/controllers/contacts/updateImage.controller.ts:87-99 | an ApiError is re-thrown unchanged; anything else becomes a 500 "Failed to update contact image" carrying the thrown message, or "Unknown error" |
| UpdateImage.OldFileName | backend/src/controllers/contacts/updateImage.controller.ts:44-46 | the old file name has no '/'; it is the whole avatar when that has no '/', and otherwise the suffix after the avatar's last '/' |
| UpdateImage.StaleFile | backend/src/controllers/contacts/updateImage.controller.ts:42-46 | there is an old file to remove iff the avatar is present and non-empty |
| UpdateImage.FindOwned | backend/src/controllers/contacts/updateImage.controller.ts:27-39 | the lookup finds a contact iff one has the parsed id and belongs to the caller |
| UpdateImage.TryBlock | backend/src/controllers/contacts/updateImage.controller.ts:9-77 | the try block keeps every row and only removes files; it replies only when both inputs are given; the only errors it raises itself are the two input checks and "not found" |
| UpdateImage.ReplaceImage | backend/src/controllers/contacts/updateImage.controller.ts:41-77 | replacing the image keeps every row and only removes files; what it throws comes from a step; a reply is a 200 after the avatar has become "contact_images/<upload>" |
| UpdateImage.Handle | backend/src/controllers/contacts/updateImage.controller.ts:8-101 | a success is a 200 "Contact image updated successfully"; an error has status 400, 404 or 500 |
| UpdateImage.ReplaceImageEffect | backend/src/controllers/contacts/updateImage.controller.ts:42-55 | replacing the image changes at most the contact's avatar and removes at most its old file |
| UpdateImage.OwnedRequestSucceeds | backend/src/controllers/contacts/updateImage.controller.ts:8-77 | with no failing step, the caller's own contact gets the new path, its old file is removed, and the reply is 200 with the qualified path |
| UpdateImage.SameNameUploadRemoved | backend/src/controllers/contacts/updateImage.controller.ts:42-55 | an upload with the same name as the old file is removed as the old file although the new avatar names it |
| UpdateImage.InputChecks | backend/src/controllers/contacts/updateImage.controller.ts:12-24 | a missing id is a 400 "Contact ID is required", reported before a missing file ("Image file is required"); the table is untouched and the upload is removed |
| UpdateImage.NotOwnedIsNotFound | backend/src/controllers/contacts/updateImage.controller.ts:27-39 | a contact that does not exist or is not the caller's gives 404 "Contact not found" (a 500 if the lookup itself throws); the table is unchanged and only the upload is removed |
| UpdateImage.TableEffect | backend/src/controllers/contacts/updateImage.controller.ts:53-55 | after any request the table is unchanged, or only the caller's contact has its avatar replaced |
| UpdateImage.OnlyOwnedTargetChanges | backend/src/controllers/contacts/updateImage.controller.ts:27-55 | no contact is added or removed, and no contact changes unless it is the target and the caller owns it |
| UpdateImage.SucceedsExactly | backend/src/controllers/contacts/updateImage.controller.ts:8-101 | a request succeeds iff both inputs are given, the lookup does not throw, the caller owns the contact and no later step it reaches throws |
| UpdateImage.SuccessReplacesImage | backend/src/controllers/contacts/updateImage.controller.ts:54-77 | on success the avatar is "contact_images/<upload>", the old file is gone, every other contact is unchanged, and the reply is 200 with the qualified avatar |
| UpdateImage.FailureRemovesUpload | backend/src/controllers/contacts/updateImage.controller.ts:78-85 | files are only ever removed, and after any error the uploaded file is gone |
| UpdateImage.ErrorStatuses | backend/src/controllers/contacts/updateImage.controller.ts:87-99 | every error is one of the three the handler raises itself or the 500 wrapping of a failing step |
| UpdateImage.RefetchFailureLeavesDanglingAvatar | backend/src/controllers/contacts/updateImage.controller.ts:54-85 | when fetching the contact back fails, the new path is already saved but its file has been removed |
| UpdateImage.StaleOfStoredPath | backend/src/controllers/contacts/updateImage.controller.ts:44-54 | a stored path "contact_images/f" is read back as old file f |
| UpdateImage.ReplaceTwiceKeepsOneFile | backend/src/controllers/contacts/updateImage.controller.ts:42-55 | two uploads in a row for one contact leave only the second file, and the avatar names it |
| UpdateImage.ContactStore.UpdateContactImage | backend/src/controllers/contacts/updateImage.controller.ts:8-101 | the new table, the new file set and the outcome are those of the handler specification Handle |
| UpdateImage.ContactStore.ReplaceStoredImage | backend/src/controllers/contacts/updateImage.controller.ts:41-77 | removing the old file, saving the path and fetching the contact back update the store as ReplaceImage specifies |

## Left out

- Console logging in all three files is left out: it has no effect on results.
- `BackendBaseUrl`: the `typeof window` test and `process.env.NEXT_PUBLIC_API_URL` are inputs, given as a `Runtime` value.
- `AvatarUrl`: the `isUserProfile` argument is only logged, so it is not modelled.
- Strings are sequences of Unicode code points, while JavaScript strings are sequences of UTF-16 code units. For text outside the Basic Multilingual Plane (an emoji in a name, say) `charAt`, `substring` and lengths differ: `AvatarUtils.Initials` would take a whole character where the code takes half a surrogate pair. Names and paths are taken to be made of Basic Multilingual Plane characters.
- `UpperChar`: only ASCII letters are upper-cased. Unicode case mapping, including mappings that change the length (such as 'ß' to "SS"), is not modelled.
- `Validate.Validate`: express-validator's `validationResult` is not modelled. The method receives the list of errors it would report.
- Validator errors are reduced to their `type`, `path` and `msg`. Their other fields (`value`, `location`, nested errors) are not modelled.
- `ApiErrors.ApiError`: the ApiError and ApiResponse classes are not part of this model. An error is its status, message and list of records.
- Sequelize's `findOne`, `update` and `findByPk` are modelled as reads and writes of a map. Whether each of them throws (and whether removing the old file does) is an input, the `Faults` value; why it would throw is not modelled.
- The Category association in the reply is not modelled. Only the id, the owner and the qualified avatar are kept.
- multer's choice of file name is not modelled: the name is an input. `ContactStore.ReceiveUpload` stands for the middleware writing the file.
- `getQualifiedImageUrl` is not part of this model. It is the function parameter `qualify`.
- `fs.existsSync`, `fs.unlinkSync`, `path.join` and `process.cwd()` are modelled as a set of file names in one directory. Names that `path.join` would resolve elsewhere (".." or an empty name) are not modelled.
- `Handle`: the catch block's own `unlinkSync` is assumed not to fail. In the code, a failure there would replace the error being handled.
- `FindOwned`: a NaN id (`parseInt` finds no digits) is assumed to match no contact. What Sequelize does with NaN in a query is not modelled.
- `ParseInt`: JavaScript numbers are doubles, so ids beyond 2^53 lose precision. Integers here are unbounded.
- Two requests for the same contact running at the same time, and the check-then-unlink race, are not modelled: every request runs to completion before the next.
