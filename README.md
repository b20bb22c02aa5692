# Local library catalog: book form intake and schema rules

This project models the parts of the local library catalog (an Express and
Mongoose web application) that hold logic rather than database calls or
template rendering:

- **The book form intake** in `controllers/bookController.js`.
  - `book_create_post` and `book_update_post` check the four required fields
    on the raw request body and collect every failure.
  - They escape and trim the text fields, turn the genre field into a list of
    ids and build a candidate book.
  - With errors, they re-render the form with the genre checkboxes marked.
    Without errors, they save (create) or update by id (update) and redirect
    to the book's url.
  - `book_update_get` marks the checkboxes of the stored book's genres.
- **The Author schema** in `models/author.js`: the two required names, the
  optional dates, and the virtuals `name`, `url`, `date_of_birth_formatted`
  and `date_of_death_formatted`.
- **The BookInstance schema** in `models/bookinstance.js`:
  - the required `book` and `imprint`;
  - the four-value `status` enum with its `Maintenance` default;
  - the `due_back` default of the creation time;
  - the `url` virtual.

Modules:

- `JsCore` (`js_core.dfy`) holds the JavaScript semantics the core relies on:
  - absent values;
  - the `\s` whitespace class, and `trim` as "strip leading, then trailing
    whitespace";
  - `split` on one character, and `join`.
- `CatalogUrl` (`catalog_url.dfy`) holds the reference paths and their inverse.
- `AuthorModel` (`author.dfy`) and `BookInstanceModel` (`bookinstance.dfy`)
  model the two schemas as values and functions. Both sources are declarative.
- `GenreMarking` (`genre_marking.dfy`) models the `forEach` loops that set
  `checked` on fetched genre documents.
  - `Genre` is a class with a mutable `checked` field.
  - `MarkSelected` is a method with a loop. It is proved against the function
    `Marked` over a snapshot of the genres.
- `BookForm` (`book_form.dfy`) models the request as a `Request` class whose
  `body` map and `errors` list the check and sanitiser methods update in place.
  - The handlers are methods that call them in the source's order.
  - Each handler is proved against a pure function of the raw body
    (`CreateResponse`, `UpdateResponse`).
  - Each handler's observable result is a trace of effects: save, update,
    render, `next(err)`, redirect, and the errors the handlers throw.

What the handlers receive as parameters, in place of I/O:

- `escape`: express-validator's escaping function, whose table is not part of
  this model.
- The new document's id (`newId`).
- The fetched genre documents.
- The outcomes of fetching and of writing: `fetchError`, `saveError` and
  `updateError`.

The date formatter of the Author virtuals and the clock used for `due_back`
are parameters too.

Where the code's behaviour is easy to misread, the model follows the code:

- **`next` is unbound in the create handler.** `book_create_post` is declared
  with only `(req, res)`, so `next` is unbound in it.
  - A fetch failure on re-render (line 122) throws a ReferenceError instead of
    passing the error on.
  - So does a save failure (line 137). The redirect on line 139 is then not
    reached either.
  - The model records both as `UnboundNextCalled`. A failed save therefore
    does not end in a redirect.
- **The create path never marks a genre.** It looks the genre *document* up in
  a list of ids (line 126). An object never equals an id, so no checkbox is
  marked on a create re-render.
- **The update path marks by id.** It looks up `genre._id` (lines 176 and
  227), so a genre is marked exactly when its id is in the list.
- **The checks run on the raw values.** They are registered before the
  sanitisers, so each check sees the value as submitted.
  - `notEmpty` rejects a value made of whitespace only, so a title of spaces
    fails its check with its raw value recorded.
  - A value that passes is not blank, and it stays non-empty through escaping
    and trimming as long as escaping keeps non-blank text non-blank.
- **The update path mixes two ids.** It writes to `req.body.id` (line 234).
  The candidate, and so the redirect, carries the route's id (line 205).
- **The update form may be opened for a missing book.** `Book.findById` in
  `book_update_get` gives `null` when no record has the route's id. The
  marking loop then reads `results.book.genre` on its first genre and throws a
  TypeError. With no genres at all, the form renders with a null book.
- **The update re-render title is "Create Book".** The update path re-renders
  with that view title (line 231).
- **`max: 100` is not checked.** On the Author name paths it is not a length
  validator, so the model has no length bound.

## Model

| member | source | states |
|---|---|---|
| JsCore.Trim | controllers/bookController.js:92-95 | the trimmed string has no whitespace at either end |
| JsCore.TrimIsSlice | controllers/bookController.js:92-95 | trimming removes only whitespace, and only from the two ends: the result is a slice of the input with whitespace before and after it |
| JsCore.TrimIdempotent | controllers/bookController.js:92-95 | trimming twice is trimming once |
| JsCore.TrimAllSpace | controllers/bookController.js:92-95 | a whitespace-only value trims to the empty string |
| JsCore.TrimEmptyIffAllSpace | controllers/bookController.js:83-95 | a string trims to the empty string exactly when it is whitespace only |
| JsCore.Split | controllers/bookController.js:103 | `split(",")` gives at least one piece and no piece holds the separator |
| JsCore.JoinSplit | controllers/bookController.js:103 | joining the pieces of a split with the separator gives back the string |
| JsCore.SplitJoin | controllers/bookController.js:103 | splitting the join of separator-free pieces gives back the pieces |
| JsCore.Join | controllers/bookController.js:103 | the join starts with the first piece, followed by the separator when there is a second piece |
| CatalogUrl.StripPrefix | models/author.js:21-25 | a path yields an id exactly when it starts with the prefix, and prefix plus id is the path |
| CatalogUrl.PathFor | models/bookinstance.js:14-18 | the id can be read back from the reference path, so distinct ids give distinct paths |
| AuthorModel.ValidationErrors | models/author.js:7-10 | first and family name each fail exactly when absent or empty; the two dates never fail; no error exactly when both names are present |
| AuthorModel.Name | models/author.js:14-18 | `name` is the family name, then ", ", then the first name (`undefined` when absent) |
| AuthorModel.NameRoundTrip | models/author.js:14-18 | when the family name holds no comma, both parts can be read back from `name` |
| AuthorModel.Url | models/author.js:21-25 | `url` is "/catalog/author/" followed by the id, and the id can be read back |
| AuthorModel.FormattedOrEmpty | models/author.js:28-38 | a formatted date is empty when the date is absent and the formatter's output otherwise |
| AuthorModel.DateOfBirthFormatted | models/author.js:28-32 | empty when `date_of_birth` is absent, the formatted date otherwise |
| AuthorModel.DateOfDeathFormatted | models/author.js:34-38 | empty when `date_of_death` is absent, the formatted date otherwise |
| AuthorModel.FormattedEmptyIffAbsent | models/author.js:28-38 | with a formatter that never returns "", a formatted date is empty exactly when the date is absent |
| BookInstanceModel.StatusName | models/bookinstance.js:9 | every status is one of the four enum strings |
| BookInstanceModel.ParseStatus | models/bookinstance.js:9 | a string is accepted as a status exactly when it is one of the enum's values |
| BookInstanceModel.StatusRoundTrip | models/bookinstance.js:9 | status names and enum strings correspond one to one |
| BookInstanceModel.StatusOrDefault | models/bookinstance.js:9 | an unsupplied status defaults to "Maintenance"; a supplied one is kept |
| BookInstanceModel.DueBackOrDefault | models/bookinstance.js:10 | an unsupplied `due_back` defaults to the clock's reading; a supplied one is kept |
| BookInstanceModel.ValidationErrors | models/bookinstance.js:7-9 | `book` and `imprint` each fail exactly when absent or empty; `status` fails exactly when its value after the default is outside the enum; no path is reported twice |
| BookInstanceModel.Create | models/bookinstance.js:6-11 | a record is valid exactly when book and imprint are present and any supplied status is in the enum; a valid record keeps its fields, has status Maintenance and due-back "now" when unsupplied; an invalid one reports its failing paths |
| BookInstanceModel.Url | models/bookinstance.js:14-18 | `url` is "/catalog/bookinstance/" followed by the id, and the id can be read back |
| GenreMarking.IndexOf | controllers/bookController.js:176 | `indexOf` is -1 exactly when no entry matches, otherwise the first matching position |
| GenreMarking.SelectedById | controllers/bookController.js:175-179 | looked up by id, a genre is selected exactly when its id is in the book's genre list |
| GenreMarking.NeverSelectedByDocument | controllers/bookController.js:125-130 | looked up as a document, no genre is ever selected |
| GenreMarking.Marked | controllers/bookController.js:175-179 | marking keeps the list's length and order, and changes each genre only by setting `checked` when it is selected |
| GenreMarking.MarkedIdempotent | controllers/bookController.js:175-179 | marking a second time changes nothing |
| GenreMarking.MarkedByIdIffSelected | controllers/bookController.js:226-230 | on unmarked genres marked by id, a genre ends up checked exactly when its id is in the book's genre list |
| GenreMarking.MarkedByDocumentUnchanged | controllers/bookController.js:125-130 | the create path's marking leaves every genre as it was |
| GenreMarking.MarkSelected | controllers/bookController.js:175-179 | the loop sets `checked` in place on exactly the selected genre objects, keeps the others as they were, and the resulting genres are `Marked` of the old ones |
| BookForm.RequiredErrors | controllers/bookController.js:83-86 | every reported error names a blank field and carries that field's raw value; there is at most one per check |
| BookForm.NoErrorsIffNoneBlank | controllers/bookController.js:108 | no error is reported exactly when no checked field is blank (whitespace only or absent) |
| BookForm.CheckErrors | controllers/bookController.js:83-86 | one `notEmpty` check fails exactly when its field is blank, recording one error with its message and the raw value |
| BookForm.CreateNoErrorsIffNoneBlank | controllers/bookController.js:83-86 | the four create checks report nothing exactly when none of the four fields is blank |
| BookForm.UpdateNoErrorsIffNoneBlank | controllers/bookController.js:189-192 | the four update checks report nothing exactly when none of the four fields is blank |
| BookForm.CreateReportsEachEmptyField | controllers/bookController.js:83-86 | on create, each blank field among title, author, summary and isbn yields one error with its fixed message, and all are reported together in that order |
| BookForm.UpdateReportsEachEmptyField | controllers/bookController.js:189-192 | the same on update, with the update path's messages |
| BookForm.Sanitized | controllers/bookController.js:88-96 | the escaped-and-trimmed fields hold the trim of the escape of their raw value and have no outer whitespace; escaped-only fields hold the escape; no other field changes |
| BookForm.EscapeStep | controllers/bookController.js:88-91 | escaping a field no sanitiser has touched moves it into the escaped set of `Sanitized` |
| BookForm.TrimStep | controllers/bookController.js:92-95 | trimming an escaped field moves it from the escaped set to the trimmed set of `Sanitized` |
| BookForm.CreateSanitizerOrder | controllers/bookController.js:88-96 | the create path's nine sanitiser calls, in their order, give `Sanitized` with title, author, summary and isbn trimmed and genre escaped |
| BookForm.UpdateSanitizerOrder | controllers/bookController.js:195-200 | the update path's six sanitiser calls give `Sanitized` with title, summary and isbn trimmed and author left raw |
| BookForm.BookUrl | controllers/bookController.js:139 | the book's url is its reference path, and the id can be read back |
| BookForm.CreateGenreList | controllers/bookController.js:103 | an empty genre text gives no genres; otherwise comma-free pieces whose join is the text |
| BookForm.AbsentGenreIsEmpty | controllers/bookController.js:103 | on create, an absent genre field becomes the empty list |
| BookForm.TickedGenresRoundTrip | controllers/bookController.js:103 | on create, several ticked genre ids without commas reach the candidate as the same ids in order |
| BookForm.CreateCandidate | controllers/bookController.js:98-104 | the created candidate takes the id the store assigns |
| BookForm.CreateCandidateReadsBody | controllers/bookController.js:98-104 | the candidate's title, author, summary and isbn are the body's values, and its genre list is empty for an empty genre text and otherwise joins back to that text |
| BookForm.UpdateCandidate | controllers/bookController.js:204-211 | the update candidate takes the route's id, whatever the body holds |
| BookForm.UpdateGenreList | controllers/bookController.js:210 | an absent or empty genre field gives no genres, one non-empty string gives a one-element list, an array gives its items |
| BookForm.UpdateKeepsTickedGenres | controllers/bookController.js:210 | on update the genre field is not sanitised, so the candidate's genres are the ticked ids exactly as sent |
| BookForm.TickedGenresAgree | controllers/bookController.js:103 | several comma-free ticked ids give the same genre list on create (split of the join) and on update (the array itself) |
| BookForm.CreateEffects | controllers/bookController.js:108-141 | something is written exactly when there is no error; with errors the form is re-rendered with the candidate and errors, or, when fetching the lists fails, the handler stops at the unbound `next`; a valid book is saved first and ends with a redirect exactly when the save succeeds |
| BookForm.UpdateEffects | controllers/bookController.js:213-239 | the same for update: with errors and a failed fetch the error is passed to `next`; the write goes to the body's `id` |
| BookForm.CreateResponse | controllers/bookController.js:81-143 | a create submission writes exactly when none of the four raw fields is blank |
| BookForm.UpdateResponse | controllers/bookController.js:187-240 | an update submission writes exactly when none of the four raw fields is blank |
| BookForm.CreateOutcome | controllers/bookController.js:81-143 | a create submission writes exactly when none of the four raw fields is blank; otherwise it re-renders the candidate with the errors, or stops at the unbound `next` when the fetch fails; a valid one saves, then redirects on success or stops at the unbound `next` on failure |
| BookForm.UpdateOutcome | controllers/bookController.js:187-240 | an update writes exactly when none of the four raw fields is blank; otherwise it re-renders, or passes a fetch error to `next`; the candidate's id is the route id whatever the body holds; the write targets the body's `id` and the redirect goes to the route's book |
| BookForm.BlankTitleFailsCheck | controllers/bookController.js:83-110 | a title of whitespace only fails its check: the first error is the title's, with its raw value, and nothing is written |
| BookForm.CheckedFieldsStayNonEmpty | controllers/bookController.js:83-104 | when escaping keeps non-blank text non-blank, a submission that passes the checks gives a candidate whose title, author, summary and isbn are all non-empty |
| BookForm.UpdateWithoutBodyId | controllers/bookController.js:234-238 | a valid update whose body has no `id` issues the update with no target id, yet redirects to the route's book |
| BookForm.CreateRun | controllers/bookController.js:108-141 | a create submission's phases form a run that ends invalid exactly when a required field is blank, and persisted exactly when none is and the save succeeds |
| BookForm.UpdateRun | controllers/bookController.js:213-239 | an update submission's phases form a run that ends invalid exactly when a required field is blank, and persisted exactly when none is and the update succeeds |
| BookForm.Request.CheckNotEmpty | controllers/bookController.js:83-86 | a `notEmpty` check appends one error to the request's errors when the field is blank and leaves the body alone |
| BookForm.Request.SanitizeEscape | controllers/bookController.js:88-91 | `escape` rewrites one field of the body in place, and the errors are kept |
| BookForm.Request.SanitizeTrim | controllers/bookController.js:92-95 | `trim` rewrites one field of the body in place, and the errors are kept |
| BookForm.CreateIntake | controllers/bookController.js:83-108 | after the checks and sanitisers, the errors are those of the raw body and the body is `Sanitized`; the candidate is built from the sanitised body |
| BookForm.CreateRespond | controllers/bookController.js:110-141 | the branch produces `CreateEffects` and leaves every genre's `checked` as it was |
| BookForm.BookCreatePost | controllers/bookController.js:81-143 | the handler's effects are `CreateResponse` of the raw body, the request ends with the raw body's errors and the sanitised body, and no genre is marked |
| BookForm.UpdateIntake | controllers/bookController.js:189-211 | after the checks and sanitisers, the errors are those of the raw body, the body is `Sanitized` with its `id` untouched, and the candidate carries the route id |
| BookForm.UpdateRespond | controllers/bookController.js:213-239 | the branch produces `UpdateEffects`; on re-render the genres are `Marked` by id, otherwise unchanged |
| BookForm.BookUpdatePost | controllers/bookController.js:187-240 | the handler's effects are `UpdateResponse` of the raw body; on re-render the genres are marked by the candidate's genre ids, otherwise unchanged |
| BookForm.BookUpdateGet | controllers/bookController.js:156-184 | a fetch error is passed on; a found book's genres are marked by id and the "Update Book" form is rendered; a missing book throws a TypeError on the first genre, leaving every genre unmarked, and renders without a book when there are no genres |

## Left out

- The `async.parallel` joins that fetch authors, genres and the book run
  concurrently. Their results come in as parameters: the genre documents and
  a fetch error.
- The Mongoose queries, `save` and `findByIdAndUpdate` are foreign database
  calls. Their outcomes come in as parameters, and the calls are effects in
  the trace.
- `res.render`, `res.redirect`, `res.send` and `console.log` are I/O.
  - Render and redirect are effects in the trace.
  - The log lines are dropped.
- The authors list passed to the form view is a plain pass-through of a query
  result, so it is not in the view.
- express-validator's `escape` character table belongs to a library that is
  not part of this model, so `escape` is a parameter.
- `moment` date formatting has calendar arithmetic in a foreign library, so
  the formatter is a parameter.
- `due_back_formatted` (models/bookinstance.js:20-24) is only that formatter
  applied to `due_back`, so it is not modelled.
- `models/book.js` is not part of this model. The book's url is taken to be
  "/catalog/book/" followed by its id, like the other models' urls.
- Mongoose casting is not modelled. Ids are strings, and ObjectId validity is
  not checked.
- The request body fields other than title, author, summary, isbn, genre and
  id are never read by the handlers.
- The `index`, `book_list`, `book_detail` and `book_create_get` handlers are
  queries and rendering only. So are the `NOT IMPLEMENTED` delete handlers and
  `controllers/authorController.js`.
- The `index` handler passes its fetch error into the view. That is only a
  callback argument.
- BookForm.CheckErrors: `notEmpty` is taken from the legacy express-validator
  API, which fails a value matching `/^[\s\t\r\n]*$/`, so a whitespace-only
  value is blank. A validator version that rejects only the empty string
  would let such a value through.
- BookForm.ToText: how the validator library reads a body value is assumed,
  not taken from its code. An absent field is taken to read as the empty
  string, and an array (several ticked genre boxes) as its comma-join.
- BookForm.Sanitized: a sanitiser is assumed to write its string result back
  into the body, even for a field that was absent or an array. A library
  version that skips absent fields or maps over an array's items would differ.
- BookForm.TickedGenresRoundTrip: it rests on the two assumptions above: the
  array of ticked ids is read as its comma-join and escaped as one string.
- BookForm.UpdateWithoutBodyId: which record, if any, Mongoose's
  `findByIdAndUpdate` writes when given no id is not modelled. The model only
  records that the update is issued without a target id.
- `BookForm.BookCreatePost` does not model what happens after the
  ReferenceError that the unbound `next` raises, such as the process's
  uncaught-exception handling. The effect trace simply ends there. The same
  holds for the TypeError in `BookForm.BookUpdateGet` on a missing book.
