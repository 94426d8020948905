# Postify request handling, modelled in Dafny

Postify is a small Express backend for posts and tags. A post has a title, a
description, a list of tag ids and an optional image stored in S3. This project
models the decision logic in its handlers and proves properties about it:

- **`getPosts`** (`GET /api/posts`): the query-parameter whitelist, the
  `parseInt` pagination checks, the sort whitelist, the filter, and the page of
  results with its `pagination` block.
- **`createPost`** (`POST /api/posts`): the title and description checks, and
  the tags block. The tags block parses a JSON string, bounds the array,
  removes repeats and checks every id against the stored tags. Any failure in
  it becomes the single 400 "Invalid tags format".
- **`createTag`** (`POST /api/tags`): a state transition on the tag
  collection. A name is validated, refused with a 409 when a tag of the same
  name exists ignoring case, and otherwise appended.
- **`getTags`** (`GET /api/tags`): the same whitelist and pagination as posts,
  with a limit bound of 100 and an optional name search.
- **The upload middleware**: the MIME filter, the 5 MiB size limit, the S3 key
  built from a sanitised file name, and `handleMulterError`, which turns every
  upload failure into a 400.
- **The `POST /api/posts` route**, which composes the upload, its error
  handler and `createPost`.

Modules follow the program's structure:

| file | module | models |
|---|---|---|
| `outcomes.dfy` | `Outcomes` | `Option` and `Result` |
| `js_text.dfy` | `JsText` | JavaScript strings as UTF-16 code units, `trim()`, ASCII case folding, `join` |
| `js_number.dfy` | `JsNumber` | `parseInt` with no radix, and decimal rendering of integers |
| `json_value.dfy` | `JsonValue` | request-body values and JavaScript truthiness |
| `http.dfy` | `Http` | `createError` objects, caught errors, the `catch` forwarding rule and the final error middleware |
| `query_params.dfy` | `QueryParams` | `req.query` lookup, the whitelist check, `page` and `limit` |
| `pagination.dfy` | `Pagination` | skip/limit windows and `Math.ceil(total / limit)` |
| `sequences.dfy` | `Sequences` | `[...new Set(items)]` |
| `post_controller.dfy` | `PostController` | `getPosts` and `createPost` |
| `tag_controller.dfy` | `TagController` | `createTag` and `getTags` |
| `upload.dfy` | `Upload` | the multer configuration and `handleMulterError` |
| `post_route.dfy` | `PostRoute` | `upload.single('image')`, then `handleMulterError`, then `createPost` |

Collaborators are parameters:

- The database's matching documents come from a `find` function: the ordered
  matches, or the error it threw. `total` is the number of matches.
- `save` is a function returning the stored document or the error it threw.
- The stored tag ids are a set.
- The tag collection is a sequence of `(id, name)` pairs. The database's new
  `_id` is a parameter, and so are any error the duplicate lookup `findOne`
  throws and any error `save` throws.
- `JSON.parse` is a function returning `None` on a syntax error.
- `Date.now()`, `Math.round(Math.random() * 1E9)` and the S3 URL of a key are
  parameters.

A caught error is `Thrown(status, code, message)`, where status 0 means "no
status".

Behaviour worth noting:

- `parseInt` honours a `0x`/`0X` prefix, so `page=0x2` is page 2.
- `keyword` and `search` are regular expressions, not plain substrings.
- `keyword` is compiled inside the handler, after the `limit` check and before
  the `sort` check. So `?keyword=(&sort=x` is a 500 for the broken pattern,
  not a 400 for the sort.
- `getTags` asks the database for no order. Which tags land on which page
  depends on the database's natural order.
- The `tag` filter matches posts whose tags include that one id. The API
  description generated by `file.py` (line 93) calls it comma-separated for
  several ids, but the handler passes the string as one id.

## Model

| member | source | states |
|---|---|---|
| QueryParams.CheckParams | controller/postController.js:10-19 | Accepted exactly when every key is whitelisted; otherwise a 400 whose text is "Invalid query parameter(s): " followed by the offending names joined by ", " |
| QueryParams.InvalidKeys | controller/postController.js:13-15 | A name is listed exactly when it is a key of the query and not whitelisted, and there are never more names than keys |
| QueryParams.InvalidKeysOfConcat | controller/postController.js:13-15 | Filtering distributes over concatenation, so offending names are listed in the query's key order (the `Object.keys` order, which puts integer-like names first) |
| QueryParams.Lookup | controller/postController.js:21-27 | A value is found exactly when the key is present, and the found pair is in the query |
| QueryParams.LookupOfConcat | controller/postController.js:21-27 | A lookup in a concatenation looks in the first part, then the second |
| QueryParams.ParsePage | controller/postController.js:30-35 | Absent means 1; otherwise accepted exactly when `parseInt` gives an integer of at least 1; the error is 400 "Page must be a positive number" |
| QueryParams.ParseLimit | controller/postController.js:31-38 | Absent means 10; otherwise accepted exactly when `parseInt` gives an integer in [1, max]; the error is a 400 with the handler's message |
| QueryParams.ParsePageOfDecimal | controller/postController.js:30-35 | Any page number of at least 1, written in decimal, is read back as itself |
| QueryParams.ParseLimitOfDecimal | controller/postController.js:31-38 | Any limit in bounds, written in decimal, is read back as itself |
| JsNumber.ParseInt | controller/postController.js:30-31 | Empty text, or text whose first non-space unit is not a sign or digit, is NaN; text starting with a decimal digit, other than a "0x" prefix, is a non-negative number; a negative result needs a leading minus sign |
| JsNumber.Decimal | middleware/multer.js:46-49 | The rendering of a number in a template string: at least one digit, no leading zero, and its digits read back as the number |
| JsNumber.ParseIntOfDecimal | controller/postController.js:30-31 | `parseInt` inverts decimal rendering |
| JsNumber.ParseIntOfNegative | controller/postController.js:30-31 | A minus sign before a rendered number gives the negated number, which the page and limit checks then refuse |
| JsNumber.ParseIntStopsAtNonDigit | controller/postController.js:30-31 | Digits followed by a non-digit read as the digits alone, unless they form a "0x" prefix |
| JsNumber.ParseIntSkipsSpace | controller/postController.js:30-31 | Leading white space never changes the result |
| JsNumber.ParseIntTrailingText | controller/postController.js:30-31 | "10abc" reads as 10 |
| JsNumber.ParseIntFraction | controller/postController.js:30-31 | "1.5" reads as 1 |
| JsNumber.ParseIntOfHex | controller/postController.js:30-31 | "0x" followed by hexadecimal digits reads in radix 16 |
| JsNumber.ParseIntHexExample | controller/postController.js:30-31 | "0x1A" reads as 26 |
| JsNumber.ParseIntOfNonNumeric | controller/postController.js:33-37 | Empty text, or text starting with something other than white space, a sign or a digit, is NaN and so refused |
| JsNumber.ParseIntNoDigits | controller/postController.js:33-37 | "" and "abc" are NaN |
| PostController.FilterOf | controller/postController.js:41-54 | The keyword condition is present exactly when the keyword is truthy, and the same for the tag; with neither the filter is empty |
| PostController.CompileKeyword | controller/postController.js:45-50 | Fails exactly when the keyword is truthy and does not compile as a pattern; the failure is a 500 carrying the syntax error's message |
| PostController.KeywordFaultBeforeSort | controller/postController.js:45-61 | A bad keyword pattern together with a bad sort gives the pattern's 500, not the sort's 400 |
| JsText.Join | controller/postController.js:18 | Joining no parts gives the empty text and joining one part gives that part |
| JsText.JoinOfConcat | controller/postController.js:18 | Joining two non-empty lists is joining each with one separator between them, so every part appears in order with exactly one separator between neighbours |
| JsText.JoinEnds | controller/postController.js:18 | The joined text starts with the first part, has the separator right after it when there is a second part, and ends with the last part |
| PostController.SortMessageText | controller/postController.js:58-61 | The sort error reads "Invalid sort parameter. Allowed values: createdAt, title, desc" |
| PostController.SortOf | controller/postController.js:56-65 | Accepted exactly when `sort` is absent, empty or one of createdAt/title/desc; the sort names exactly that field, descending; createdAt exactly for absent, empty or "createdAt"; otherwise 400 listing the allowed values |
| PostController.BuildPostQuery | controller/postController.js:10-65 | The whitelist is checked first, then page, then limit, then the keyword pattern, then sort, each error returned as it is; an accepted query has page at least 1, limit in [1, 50], one allowed sort field descending and only non-empty filter values |
| PostController.PostQueryDefaults | controller/postController.js:21-27 | With no sort, page or limit, and a keyword that compiles, the query is newest first, page 1, ten per page |
| PostController.RenderedLookups | controller/postController.js:21-27 | Every value of an accepted query is found where the rendered query string put it |
| PostController.BuildPostQueryOfRendered | controller/postController.js:10-65 | Every accepted query whose keyword compiles is rebuilt exactly from the query string that spells it out |
| PostController.ListPosts | controller/postController.js:67-91 | The page is the window of `limit` matches from `(page - 1) * limit`; the pagination reports the match count, page, limit and `ceil(total / limit)`; a database error becomes a 500 unless it carries a status |
| PostController.GetPosts | controller/postController.js:7-92 | A rejected query is answered without reading the database; an accepted one is listed as above |
| PostController.GetPostsWithNoMatches | controller/postController.js:67-87 | With no matching post the data is empty and `pages` is 0 |
| Pagination.Paginate | controller/postController.js:71-86 | Reports the match count, page and limit; a page count whose pages hold every match with none empty; at most `limit` items, each the match at `(page - 1) * limit` plus its position; fewer only when the matches run out |
| Pagination.CeilDiv | controller/postController.js:85 | `pages * limit >= total`, `(pages - 1) * limit < total` when pages is positive, and pages is 0 exactly when total is 0 |
| Pagination.Window | controller/postController.js:73-74 | At most `limit` consecutive matches from position `skip`, fewer only when the matches run out |
| Pagination.PageNonEmptyIffWithinPages | controller/postController.js:71-86 | A page holds data exactly when its number is at most the reported page count |
| Pagination.PagesCoverAllMatches | controller/postController.js:71-86 | Pages 1 to `pages`, concatenated, are all the matches in order, none skipped or repeated |
| Pagination.LastPageEndsWithLastMatch | controller/tagController.js:101-114 | The last reported page is not empty and ends with the last match |
| PostController.CheckFields | controller/postController.js:99-115 | Accepted exactly when both fields are present and not blank and the trimmed title has 3 to 100 and the trimmed description 10 to 5000 code units; the errors come in the order title required, description required, title length, description length, each with its own 400 message; the accepted pair is the trimmed text |
| PostController.CountKnownIsAll | controller/postController.js:138-141 | The count comparison holds exactly when every entry is a stored tag id |
| PostController.ResolveTags | controller/postController.js:118-141 | Text `JSON.parse` rejects fails as not JSON; a value that is not an array, directly or once parsed, fails as not an array; an array of more than ten fails as too many; an accepted list has at most ten distinct ids, all of stored tags |
| PostController.TagsTextNotJsonRefused | controller/postController.js:120-122 | Tags text that `JSON.parse` rejects is refused with "Invalid tags format" |
| PostController.TagsNotArrayRefused | controller/postController.js:125-127 | Truthy tags that are not an array, directly or once parsed, are refused with "Invalid tags format" |
| PostController.ParseTags | controller/postController.js:117-146 | Every failure in the tags block is the one 400 "Invalid tags format"; an accepted list has at most ten distinct stored ids |
| PostController.NoTagsMeansEmpty | controller/postController.js:97 | Missing or falsy tags store an empty list |
| PostController.TagsArrayAcceptedIff | controller/postController.js:124-141 | An array is accepted exactly when it has at most ten entries, counted before repeats are dropped, and every entry is a stored id; the stored list is the array without repeats |
| PostController.ElevenCopiesRefused | controller/postController.js:129-135 | Eleven copies of one stored id are refused, because the bound is checked before repeats are dropped |
| PostController.TagsTextIsParsed | controller/postController.js:120-122 | A JSON string is parsed and then treated like the array it holds |
| Sequences.Dedupe | controller/postController.js:135 | The result has no repeats and exactly the items of the input |
| Sequences.DedupeKeepsFirstOccurrenceOrder | controller/postController.js:135 | The kept items appear in the order of their first occurrence |
| Sequences.DedupeOfDistinct | controller/postController.js:135 | A list without repeats is unchanged |
| PostController.ValidatePost | controller/postController.js:96-155 | Field errors come before tag errors, and a tags failure after valid fields is the tags block's "Invalid tags format"; an accepted record is a valid post holding the trimmed title and description, the parsed tags and the image location or null |
| PostController.ValidatePostOfStored | controller/postController.js:96-155 | Submitting a stored post again yields the same record, so validation is the identity on what it accepts |
| PostController.StorePost | controller/postController.js:157-169 | The response is what `save` stored; an error from storing keeps its message and its status, or gets 400 |
| PostController.CreatePost | controller/postController.js:94-170 | A rejected post is answered without touching the database; only a valid post is handed to `save` |
| JsText.Trim | controller/postController.js:100-115 | The result is empty exactly when the input is all white space, and otherwise starts and ends with a non-space unit |
| JsText.TrimOfSplit | controller/postController.js:100-115 | Any split into blank prefix, core and blank suffix is the one `trim()` makes |
| JsText.TrimAbsorbsPadding | controller/tagController.js:20 | White space added around a name does not change its trimmed form |
| JsText.TrimIdempotent | controller/tagController.js:20-36 | Trimming a trimmed name changes nothing |
| JsText.TrimStartSkipsSpace | controller/postController.js:30-31 | Leading white space is skipped before the digits are read |
| JsText.SameIgnoringCaseIsPointwise | controller/tagController.js:29-31 | Two names are equal ignoring case exactly when they have the same length and agree unit by unit after ASCII lower-casing |
| Http.ForwardOr | controller/postController.js:88-91 | An error with a status passes on unchanged; any other error gets the handler's fallback status and keeps its message |
| Http.ForwardOrKeepsRaised | controller/tagController.js:51 | Every error a handler raises itself reaches the client exactly as raised |
| Http.ErrorResponse | app.js:27-33 | The envelope always reports failure and keeps the error's status and message when present; a missing status becomes 500 and a missing message "Internal Server Error" |
| TagController.ValidateTagName | controller/tagController.js:8-26 | Falsy is "Tag name is required" and non-string is "must be a string", both before trimming; a trimmed string shorter than 2 is "must be at least 2 characters long" and one longer than 30 is "cannot exceed 30 characters"; accepted exactly for a string whose trimmed length is 2 to 30, and the accepted name is the trimmed one |
| TagController.FindByName | controller/tagController.js:29-31 | Finds the first stored tag whose name equals the given one ignoring case, and finds none exactly when there is none |
| TagController.CatchCreateTag | controller/tagController.js:46-53 | A duplicate-key error (code 11000) is 409 "Tag with this name already exists"; any other error keeps its message and status, or gets 500 |
| TagController.CreateTag | controller/tagController.js:6-53 | Validation errors are returned as they are; a failing duplicate lookup goes through the `catch`; otherwise a case-insensitive duplicate is a 409 naming the trimmed name, and a failing save goes through the `catch`; success, exactly when none of these happen, appends one tag with the new id and the trimmed name; any failure leaves the store unchanged |
| TagController.LookupFaultHidesDuplicate | controller/tagController.js:29-53 | When `findOne` throws an error without status or code, the answer is a 500 with its message even though the name is already stored |
| TagController.CreateTagPreservesValidStore | controller/tagController.js:11-37 | With a fresh id, creating a tag keeps ids distinct, names trimmed and 2 to 30 long, and names pairwise different ignoring case |
| TagController.CreatedNameBlocksCaseVariants | controller/tagController.js:29-34 | Once a name is stored, every later request for it in any letter case, padded with any white space, whose duplicate lookup answers, is a 409 that stores nothing |
| TagController.GoThenLowerGoConflicts | controller/tagController.js:29-34 | "Go" is created, then "go" is refused |
| TagController.TrimOfPlainName | controller/tagController.js:20 | A name with no white space at either end is its own trimmed form |
| TagController.BuildTagQuery | controller/tagController.js:60-94 | The whitelist {page, limit, search} is checked first, then page, then limit in [1, 100]; the search filter is present exactly when `search` is non-empty |
| TagController.RenderedTagLookups | controller/tagController.js:71-75 | Every value of an accepted tag query is found where the rendered query string put it |
| TagController.BuildTagQueryOfRendered | controller/tagController.js:60-94 | Every accepted tag query is rebuilt exactly from the query string that spells it out |
| TagController.TagQueryDefaults | controller/tagController.js:71-75 | An empty query is page 1, ten per page, unfiltered |
| TagController.TagLimitBound | controller/tagController.js:84-86 | A positive limit is accepted exactly when it is at most 100 |
| TagController.ListTags | controller/tagController.js:97-120 | The page and its pagination, as for posts; a database error becomes a 500 unless it carries a status |
| TagController.GetTags | controller/tagController.js:57-121 | A rejected query is answered without reading the database; an accepted one is listed as above |
| TagController.CreatedTagIsListed | controller/tagController.js:98-114 | When the database lists the unfiltered collection in insertion order, a newly created tag is the last entry of the last page |
| TagController.ListedTagIsOnSomePage | controller/tagController.js:98-114 | Whatever the database's order, a tag it lists without a search is on one of the pages 1 to `pages` |
| TagController.CreatedTagIsOnSomePage | controller/tagController.js:11-37 | When the unfiltered listing includes every stored tag, in any order, a newly created tag is on one of the pages 1 to `pages` |
| JsonValue.Truthy | controller/tagController.js:11-13 | Falsy exactly for null, false, 0 and the empty string; every array and object is truthy |
| Upload.FileFilter | middleware/multer.js:24-30 | Accepted exactly for image/jpeg, image/png, image/jpg and image/webp; otherwise the filter's "Invalid file type" error |
| Upload.SizeLimit | middleware/multer.js:31-33 | Accepted exactly up to 5 * 1024 * 1024 bytes inclusive; otherwise the LIMIT_FILE_SIZE error |
| Upload.CleanUnit | middleware/multer.js:48 | A letter, digit or '.' becomes its ASCII lower case; every other unit becomes '-'; the result is always a lower-case letter, digit, '.' or '-' |
| Upload.CleanFileName | middleware/multer.js:48 | Same length as the input and made only of [a-z0-9.-]; each unit of [a-zA-Z0-9.] is kept, lower-cased; each other unit becomes '-' |
| Upload.CleanFileNameFixedIff | middleware/multer.js:48 | A name is left unchanged exactly when it is already made of [a-z0-9.-] |
| Upload.CleanFileNameIdempotent | middleware/multer.js:48 | Cleaning twice is cleaning once |
| Upload.CleanFileNameIgnoresCase | middleware/multer.js:48 | Names that differ only in letter case clean to the same text |
| Upload.ObjectKey | middleware/multer.js:45-50 | The key starts with "uploads/" and ends with the cleaned file name |
| Upload.ObjectKeyHasOneSlash | middleware/multer.js:45-50 | The key's only '/' is the one after "uploads", whatever the file was called |
| Upload.ObjectKeyTimestamp | middleware/multer.js:46-49 | `parseInt` of the key after "uploads/" gives back the clock value |
| Upload.ReceiveFile | middleware/multer.js:23-52 | No file passes as no file; the type is checked before the size; a file is accepted exactly when both pass, and is then stored under its key at that key's URL |
| Upload.HandleMulterError | middleware/multer.js:55-66 | No error passes through; every error is a 400, never a 500; the size error reads "File too large. Max size is 5MB"; any other error keeps its message |
| Upload.SizeMessageSaysFive | middleware/multer.js:57-58 | The size message names 5 MB |
| Upload.WrongTypeWinsOverSize | middleware/multer.js:24-33 | A file of the wrong type is refused with the type message even when it is also too large |
| PostRoute.SubmitPost | routes/posts.js:6 | A failed upload is answered by the upload error handler with a 400; otherwise `createPost` runs with the stored file's URL, or with no image when there is no file |
| PostRoute.RefusedFileSavesNothing | routes/posts.js:6 | A refused file fails the request whatever the database would do, so nothing is stored |
| PostRoute.SavedPostPointsAtUpload | controller/postController.js:148-155 | A post saved through the route holds the URL of its file's key, and the key lies in the uploads folder |

## Left out

- TagController.CreatedTagIsListed: holds only under the stated premise that the database lists tags in insertion order. `getTags` asks for no order, so in general the new tag is only known to be on some page (`CreatedTagIsOnSomePage`).
- Database execution is not modelled: `countDocuments`, `find`, `findOne`, `sort`, `skip`, `limit`, `populate`, `save` and `findById`. The matches are a parameter in sort order, and the count is their length, as if count and find saw one snapshot.
- The response to `createPost` is whatever `save` yields. The follow-up `findById(...).populate('tags')` is part of that collaborator.
- PostController.FilterOf: `keyword` and `search` are regular expressions. The model keeps only the filter's shape, not pattern matching. Whether a keyword compiles is the `badPattern` parameter of `BuildPostQuery`. A `search` pattern is handed to the database, which throws for an invalid one; that is the `find` error path, a 500.
- TagController.FindByName: the duplicate check is ASCII case-insensitive equality. The code builds the pattern `^name$` with the `i` flag. A name with regular-expression metacharacters behaves differently there: "c++" throws and becomes a 500, and "a.b" matches "axb". The `i` flag also folds non-ASCII letters, which the model does not.
- TagController.CreateTag: same limit as FindByName. Both database calls can fail (`lookupFault`, `saveFault`); the database's own behaviour is not modelled.
- Query values are strings. Repeated parameters, which Express turns into arrays, are not modelled. The query's keys are given in `Object.keys` order.
- PostController.CheckFields: title and description are strings or absent. A non-string title makes `trim` throw a TypeError, which becomes a 400 with that error's message; this is not modelled.
- Numbers are unbounded integers. `parseInt` results beyond 2^53 lose precision as doubles, and so would `skip` for huge page numbers; this is not modelled.
- Upload.ObjectKey: the clock and random values are rendered as plain decimals. JavaScript switches to exponent notation from 10^21, far beyond any clock value.
- Tag ids are compared as strings, exactly as spelled. Casting to ObjectId is not modelled. A string that is not a valid ObjectId makes `Tag.find` throw, and that is absorbed into "Invalid tags format" in both the code and the model. The cast also accepts hexadecimal case variants, so `["507F1F77BCF86CD799439011"]` names the stored id `507f1f77bcf86cd799439011` in the code but is refused by the model. Lower-casing in the model would not fix this: `["507f…", "507F…"]` survives `Set` as two strings but finds one document, so the code refuses it.
- PostController.ResolveTags: `Tag.find` in the tags block is taken to answer. When it throws, the code's `catch` answers 400 "Invalid tags format" even for stored ids, while the model accepts them.
- PostController.ResolveTags: only string entries can name a stored tag, and repeated entries are dropped by structural equality. The code casts each entry to an ObjectId, and that cast also accepts an object carrying `_id`, so `tags: [{"_id": "<a stored id>"}]` is accepted by the code but refused by the model with "Invalid tags format". `Set` keeps such objects apart by identity, so two of them naming the same tag are counted as two and refused by both. Object entries are not modelled.
- Upload.ReceiveFile: streaming to S3, its failures, the ACL and metadata, multer's other limits and its unexpected-field error are not modelled. All of those would reach `handleMulterError` and become a 400 with their own message, which `HandleMulterError` covers.
- Upload.HandleMulterError: Express calls an error handler only when there is an error. The "no error" branch is modelled as written, though the route never reaches it.
- Logging, dotenv, the S3 client set-up, the database connection, the health route and the 404 fallback are not modelled.
- `file.py` is a documentation generator and is not part of this model.
