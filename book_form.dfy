/** The book form intake of the book controller: the required-field checks run
    on the submitted values, the text fields are escaped and trimmed, the genre
    field becomes a list of ids, a candidate book is built, and the submission
    either re-renders the form with its errors or writes the book and
    redirects to it. */
module BookForm {
  import opened JsCore
  import opened CatalogUrl
  import opened GenreMarking

  /** A value of the parsed request body: one string, or several strings when
      the field was sent more than once (several ticked genre boxes). */
  datatype BodyValue = Scalar(s: string) | Array(items: seq<string>)

  /** The body fields the handlers read; other fields are never looked at. */
  datatype Field = Title | Author | Summary | Isbn | Genre | Id

  type Body = map<Field, BodyValue>

  function Get(body: Body, param: Field): (v: Option<BodyValue>)
  {
    if param in body then Some(body[param]) else None
  }

  /** The string a validator or sanitiser works on: an absent field reads as
      the empty string, an array as its comma-join. */
  function ToText(v: Option<BodyValue>): (t: string)
  {
    match v
    case None => ""
    case Some(Scalar(s)) => s
    case Some(Array(items)) => Join(items, ',')
  }

  // ---------------------------------------------------------------------------
  // Validation

  /** One entry of the list the validation reports. */
  datatype ValidationError = ValidationError(param: Field, msg: string, value: Option<BodyValue>)

  /** A `checkBody(param, msg).notEmpty()` registration. */
  datatype Check = Check(param: Field, msg: string)

  const CreateChecks: seq<Check> := [
    Check(Title, "Title must not be empty."),
    Check(Author, "Author must not be empty"),
    Check(Summary, "Summary must not be empty"),
    Check(Isbn, "ISBN must not be empty")
  ]

  const UpdateChecks: seq<Check> := [
    Check(Title, "Title cannot be empty"),
    Check(Author, "Author cannot be empty"),
    Check(Summary, "Summary cannot be empty"),
    Check(Isbn, "Isbn cannot be empty")
  ]

  /** What `notEmpty` rejects: in the legacy validator API it fails a value
      matching `/^[\s\t\r\n]*$/`, that is, one made of whitespace only
      (the empty string included). */
  predicate IsBlankField(body: Body, param: Field)
  {
    AllSpace(ToText(Get(body, param)))
  }

  /** The error one check records against `body`: one entry, carrying the
      field's raw value, when the field is blank; none otherwise. */
  function CheckErrors(body: Body, c: Check): (r: seq<ValidationError>)
    ensures r == [] <==> !IsBlankField(body, c.param)
    ensures r != [] ==> r == [ValidationError(c.param, c.msg, Get(body, c.param))]
  {
    if IsBlankField(body, c.param) then [ValidationError(c.param, c.msg, Get(body, c.param))] else []
  }

  /** The errors of a series of checks, all of them collected, in the order the
      checks were registered. */
  function RequiredErrors(body: Body, checks: seq<Check>): (r: seq<ValidationError>)
    ensures |r| <= |checks|
    ensures forall i :: 0 <= i < |r| ==> IsBlankField(body, r[i].param) && r[i].value == Get(body, r[i].param)
  {
    if checks == [] then []
    else CheckErrors(body, checks[0]) + RequiredErrors(body, checks[1..])
  }

  /** No error is reported exactly when no checked field is blank. */
  lemma {:induction false} NoErrorsIffNoneBlank(body: Body, checks: seq<Check>)
    ensures RequiredErrors(body, checks) == [] <==> forall c :: c in checks ==> !IsBlankField(body, c.param)
  {
    if checks != [] {
      NoErrorsIffNoneBlank(body, checks[1..]);
      assert forall c :: c in checks <==> c == checks[0] || c in checks[1..];
    }
  }

  /** Four checks report their errors one after the other. */
  lemma {:induction false} RequiredErrorsOfFour(body: Body, checks: seq<Check>)
    requires |checks| == 4
    ensures RequiredErrors(body, checks)
            == CheckErrors(body, checks[0]) + CheckErrors(body, checks[1])
               + CheckErrors(body, checks[2]) + CheckErrors(body, checks[3])
  {
    var c1 := checks[1..];
    var c2 := c1[1..];
    var c3 := c2[1..];
    assert c1[0] == checks[1] && c2[0] == checks[2] && c3[0] == checks[3];
    assert c3[1..] == [];
    assert RequiredErrors(body, c3) == CheckErrors(body, checks[3]) + RequiredErrors(body, []);
    assert RequiredErrors(body, c2) == CheckErrors(body, checks[2]) + RequiredErrors(body, c3);
    assert RequiredErrors(body, c1) == CheckErrors(body, checks[1]) + RequiredErrors(body, c2);
  }

  /** On create, each empty field among title, author, summary and isbn yields
      exactly one error with its fixed message, and all of them are reported
      together, in that order. */
  lemma CreateReportsEachEmptyField(body: Body)
    ensures RequiredErrors(body, CreateChecks)
            == CheckErrors(body, Check(Title, "Title must not be empty."))
               + CheckErrors(body, Check(Author, "Author must not be empty"))
               + CheckErrors(body, Check(Summary, "Summary must not be empty"))
               + CheckErrors(body, Check(Isbn, "ISBN must not be empty"))
  {
    RequiredErrorsOfFour(body, CreateChecks);
  }

  /** The same on update, with the update path's messages. */
  lemma UpdateReportsEachEmptyField(body: Body)
    ensures RequiredErrors(body, UpdateChecks)
            == CheckErrors(body, Check(Title, "Title cannot be empty"))
               + CheckErrors(body, Check(Author, "Author cannot be empty"))
               + CheckErrors(body, Check(Summary, "Summary cannot be empty"))
               + CheckErrors(body, Check(Isbn, "Isbn cannot be empty"))
  {
    RequiredErrorsOfFour(body, UpdateChecks);
  }

  // ---------------------------------------------------------------------------
  // Sanitisation

  /** The fields escaped and then trimmed on create, and the one only escaped. */
  const CreateTrimmed: set<Field> := {Title, Author, Summary, Isbn}
  const CreateEscapedOnly: set<Field> := {Genre}

  /** The fields escaped and then trimmed on update (author is left raw). */
  const UpdateTrimmed: set<Field> := {Title, Summary, Isbn}

  /** `req.sanitize(param).escape()`; the escaping table is the parameter. */
  function EscapeField(body: Body, param: Field, escape: string -> string): (r: Body)
  {
    body[param := Scalar(escape(ToText(Get(body, param))))]
  }

  /** `req.sanitize(param).trim()`. */
  function TrimField(body: Body, param: Field): (r: Body)
  {
    body[param := Scalar(Trim(ToText(Get(body, param))))]
  }

  /** The body once every field in `trimmed` has been escaped and then trimmed
      and every field in `escapedOnly` escaped: the trimmed fields have no
      whitespace at either end, and no other field changes. */
  function Sanitized(body: Body, trimmed: set<Field>, escapedOnly: set<Field>, escape: string -> string): (r: Body)
    requires trimmed !! escapedOnly
    ensures r.Keys == body.Keys + trimmed + escapedOnly
    ensures forall p :: p in trimmed ==>
              r[p] == Scalar(Trim(escape(ToText(Get(body, p))))) && NoOuterSpace(r[p].s)
    ensures forall p :: p in escapedOnly ==> r[p] == Scalar(escape(ToText(Get(body, p))))
    ensures forall p :: p in body && p !in trimmed && p !in escapedOnly ==> r[p] == body[p]
  {
    map p | p in body.Keys + trimmed + escapedOnly ::
      if p in trimmed then Scalar(Trim(escape(ToText(Get(body, p)))))
      else if p in escapedOnly then Scalar(escape(ToText(Get(body, p))))
      else body[p]
  }

  /** A field no sanitiser names reads the same before and after. */
  lemma SanitizedKeepsOthers(b: Body, trimmed: set<Field>, escapedOnly: set<Field>, p: Field, escape: string -> string)
    requires trimmed !! escapedOnly && p !in trimmed && p !in escapedOnly
    ensures Get(Sanitized(b, trimmed, escapedOnly, escape), p) == Get(b, p)
  {
  }

  /** Before any sanitiser runs, the body is itself. */
  lemma SanitizedNothing(b: Body, escape: string -> string)
    ensures Sanitized(b, {}, {}, escape) == b
  {
    var r := Sanitized(b, {}, {}, escape);
    assert r.Keys == b.Keys;
  }

  /** Escaping a field no sanitiser has touched yet adds it to the escaped ones. */
  lemma EscapeStep(b: Body, trimmed: set<Field>, escapedOnly: set<Field>, p: Field, escaped': set<Field>,
                   escape: string -> string)
    requires trimmed !! escapedOnly && p !in trimmed && p !in escapedOnly
    requires escaped' == escapedOnly + {p}
    ensures EscapeField(Sanitized(b, trimmed, escapedOnly, escape), p, escape)
            == Sanitized(b, trimmed, escaped', escape)
  {
    var s := Sanitized(b, trimmed, escapedOnly, escape);
    var l := EscapeField(s, p, escape);
    var r := Sanitized(b, trimmed, escaped', escape);
    assert Get(s, p) == Get(b, p);
    assert l.Keys == r.Keys;
  }

  /** Trimming an escaped field moves it from the escaped to the trimmed ones. */
  lemma TrimStep(b: Body, trimmed: set<Field>, escapedOnly: set<Field>, p: Field,
                 trimmed': set<Field>, escaped': set<Field>, escape: string -> string)
    requires trimmed !! escapedOnly && p in escapedOnly
    requires trimmed' == trimmed + {p} && escaped' == escapedOnly - {p}
    ensures TrimField(Sanitized(b, trimmed, escapedOnly, escape), p)
            == Sanitized(b, trimmed', escaped', escape)
  {
    var s := Sanitized(b, trimmed, escapedOnly, escape);
    var l := TrimField(s, p);
    var r := Sanitized(b, trimmed', escaped', escape);
    assert l.Keys == r.Keys;
  }

  /** The create path's nine sanitiser calls, in their order, amount to
      `Sanitized` over its field sets. */
  lemma CreateSanitizerOrder(b: Body, escape: string -> string)
    ensures EscapeField(
              TrimField(TrimField(TrimField(TrimField(
                EscapeField(EscapeField(EscapeField(EscapeField(b,
                  Title, escape), Author, escape), Summary, escape), Isbn, escape),
                Title), Author), Summary), Isbn),
              Genre, escape)
            == Sanitized(b, CreateTrimmed, CreateEscapedOnly, escape)
  {
    CreateEscapes(b, escape);
    CreateTrims(b, escape);
    EscapeStep(b, CreateTrimmed, {}, Genre, CreateEscapedOnly, escape);
  }

  /** The first four create sanitisers escape the four required fields. */
  lemma CreateEscapes(b: Body, escape: string -> string)
    ensures EscapeField(EscapeField(EscapeField(EscapeField(b,
              Title, escape), Author, escape), Summary, escape), Isbn, escape)
            == Sanitized(b, {}, CreateTrimmed, escape)
  {
    SanitizedNothing(b, escape);
    EscapeStep(b, {}, {}, Title, {Title}, escape);
    EscapeStep(b, {}, {Title}, Author, {Title, Author}, escape);
    EscapeStep(b, {}, {Title, Author}, Summary, {Title, Author, Summary}, escape);
    EscapeStep(b, {}, {Title, Author, Summary}, Isbn, CreateTrimmed, escape);
  }

  /** The next four create sanitisers trim those same fields. */
  lemma CreateTrims(b: Body, escape: string -> string)
    ensures TrimField(TrimField(TrimField(TrimField(Sanitized(b, {}, CreateTrimmed, escape),
              Title), Author), Summary), Isbn)
            == Sanitized(b, CreateTrimmed, {}, escape)
  {
    var s1 := TrimField(Sanitized(b, {}, CreateTrimmed, escape), Title);
    assert s1 == Sanitized(b, {Title}, {Author, Summary, Isbn}, escape) by {
      TrimStep(b, {}, CreateTrimmed, Title, {Title}, {Author, Summary, Isbn}, escape);
    }
    var s2 := TrimField(s1, Author);
    assert s2 == Sanitized(b, {Title, Author}, {Summary, Isbn}, escape) by {
      TrimStep(b, {Title}, {Author, Summary, Isbn}, Author, {Title, Author}, {Summary, Isbn}, escape);
    }
    var s3 := TrimField(s2, Summary);
    assert s3 == Sanitized(b, {Title, Author, Summary}, {Isbn}, escape) by {
      TrimStep(b, {Title, Author}, {Summary, Isbn}, Summary, {Title, Author, Summary}, {Isbn}, escape);
    }
    TrimStep(b, {Title, Author, Summary}, {Isbn}, Isbn, CreateTrimmed, {}, escape);
  }

  /** The update path's six sanitiser calls amount to `Sanitized`. */
  lemma UpdateSanitizerOrder(b: Body, escape: string -> string)
    ensures TrimField(TrimField(TrimField(
              EscapeField(EscapeField(EscapeField(b, Title, escape), Summary, escape), Isbn, escape),
              Title), Summary), Isbn)
            == Sanitized(b, UpdateTrimmed, {}, escape)
  {
    SanitizedNothing(b, escape);
    EscapeStep(b, {}, {}, Title, {Title}, escape);
    EscapeStep(b, {}, {Title}, Summary, {Title, Summary}, escape);
    EscapeStep(b, {}, {Title, Summary}, Isbn, {Title, Summary, Isbn}, escape);
    TrimStep(b, {}, {Title, Summary, Isbn}, Title, {Title}, {Summary, Isbn}, escape);
    TrimStep(b, {Title}, {Summary, Isbn}, Summary, {Title, Summary}, {Isbn}, escape);
    TrimStep(b, {Title, Summary}, {Isbn}, Isbn, UpdateTrimmed, {}, escape);
  }

  // ---------------------------------------------------------------------------
  // The candidate book

  datatype Book = Book(id: string, title: string, author: string, summary: string, isbn: string, genre: seq<string>)

  /** The book's `url`: its reference path; the id can be read back. */
  function BookUrl(b: Book): (u: string)
    ensures StripPrefix(BookPrefix, u) == Some(b.id)
  {
    PathFor(BookPrefix, b.id)
  }

  /** The create path's genre list from the sanitised genre text: none when
      the text is empty (falsy), otherwise its comma-separated pieces in order. */
  function CreateGenreList(t: string): (r: seq<string>)
    ensures t == "" ==> r == []
    ensures t != "" ==> |r| >= 1 && Join(r, ',') == t
    ensures forall k :: 0 <= k < |r| ==> ',' !in r[k]
  {
    if t == "" then []
    else
      JoinSplit(t, ',');
      Split(t, ',')
  }

  /** The update path's genre list: the raw field as given. A single string is
      stored as a one-element list; an absent or empty field gives none. */
  function UpdateGenreList(v: Option<BodyValue>): (r: seq<string>)
    ensures v.None? || v == Some(Scalar("")) ==> r == []
    ensures v.Some? && v.value.Scalar? && v.value.s != "" ==> r == [v.value.s]
    ensures v.Some? && v.value.Array? ==> r == v.value.items
  {
    match v
    case None => []
    case Some(Scalar(s)) => if s == "" then [] else [s]
    case Some(Array(items)) => items
  }

  /** `new Book({...})` on create: the store assigns the new id `newId`. */
  function CreateCandidate(body: Body, newId: string): (b: Book)
    ensures b.id == newId
  {
    Book(newId, ToText(Get(body, Title)), ToText(Get(body, Author)),
         ToText(Get(body, Summary)), ToText(Get(body, Isbn)),
         CreateGenreList(ToText(Get(body, Genre))))
  }

  /** The created book takes each text field's value as read from the body,
      and its genre list joins back to the genre text. */
  lemma CreateCandidateReadsBody(body: Body, newId: string)
    ensures var b := CreateCandidate(body, newId);
            && b.title == ToText(Get(body, Title)) && b.author == ToText(Get(body, Author))
            && b.summary == ToText(Get(body, Summary)) && b.isbn == ToText(Get(body, Isbn))
            && (ToText(Get(body, Genre)) == "" ==> b.genre == [])
            && (ToText(Get(body, Genre)) != "" ==> Join(b.genre, ',') == ToText(Get(body, Genre)))
  {
  }

  /** `new Book({...})` on update: the id is the route's id. */
  function UpdateCandidate(body: Body, routeId: string): (b: Book)
    ensures b.id == routeId
  {
    Book(routeId, ToText(Get(body, Title)), ToText(Get(body, Author)),
         ToText(Get(body, Summary)), ToText(Get(body, Isbn)),
         UpdateGenreList(Get(body, Genre)))
  }

  // ---------------------------------------------------------------------------
  // What a submission does

  /** What the form view is given (the author list is left out). */
  datatype BookFormView = BookFormView(title: string, book: Book, errors: seq<ValidationError>, genres: seq<Genre>)

  /** The observable steps of handling a submission, in order. */
  datatype Effect =
    | Save(book: Book)                                 // book.save(...)
    | UpdateById(target: Option<BodyValue>, book: Book) // Book.findByIdAndUpdate(target, book, ...)
    | Render(view: BookFormView)                       // res.render('book_form', ...)
    | RenderWithoutBook(title: string, genres: seq<Genre>) // res.render('book_form', ...) with `book: null`
    | NullBookRead                                     // `results.book.genre` on a null book: a TypeError
    | PassToNext(err: string)                          // next(err)
    | UnboundNextCalled                                // next(err) where no `next` is in scope: a ReferenceError
    | Redirect(url: string)                            // res.redirect(url)

  predicate IsWrite(e: Effect)
  {
    e.Save? || e.UpdateById?
  }

  predicate Writes(effects: seq<Effect>)
  {
    exists i :: 0 <= i < |effects| && IsWrite(effects[i])
  }

  predicate EndsWithRedirect(effects: seq<Effect>, url: string)
  {
    |effects| > 0 && effects[|effects| - 1] == Redirect(url)
  }

  /** The create path's branch. `fetchError` is the outcome of fetching the
      form's lists, `saveError` the outcome of the save. */
  function CreateEffects(book: Book, errors: seq<ValidationError>, genres: seq<Genre>,
                         fetchError: Option<string>, saveError: Option<string>): (r: seq<Effect>)
    ensures Writes(r) <==> errors == []
    ensures errors != [] && fetchError.None? ==>
              r == [Render(BookFormView("Create Book", book, errors, genres))]
    ensures errors != [] && fetchError.Some? ==> r == [UnboundNextCalled]
    ensures errors == [] ==> r[0] == Save(book)
    ensures errors == [] ==> (EndsWithRedirect(r, BookUrl(book)) <==> saveError.None?)
  {
    if errors != [] then
      if fetchError.Some? then [UnboundNextCalled]
      else [Render(BookFormView("Create Book", book, errors, genres))]
    else if saveError.Some? then
      var r := [Save(book), UnboundNextCalled];
      assert IsWrite(r[0]);
      r
    else
      var r := [Save(book), Redirect(BookUrl(book))];
      assert IsWrite(r[0]);
      r
  }

  /** The update path's branch; the write goes to `target`, the body's `id`. */
  function UpdateEffects(book: Book, target: Option<BodyValue>, errors: seq<ValidationError>, genres: seq<Genre>,
                         fetchError: Option<string>, updateError: Option<string>): (r: seq<Effect>)
    ensures Writes(r) <==> errors == []
    ensures errors != [] && fetchError.None? ==>
              r == [Render(BookFormView("Create Book", book, errors, genres))]
    ensures errors != [] && fetchError.Some? ==> r == [PassToNext(fetchError.value)]
    ensures errors == [] ==> r[0] == UpdateById(target, book)
    ensures errors == [] ==> (EndsWithRedirect(r, BookUrl(book)) <==> updateError.None?)
  {
    if errors != [] then
      if fetchError.Some? then [PassToNext(fetchError.value)]
      else [Render(BookFormView("Create Book", book, errors, genres))]
    else if updateError.Some? then
      var r := [UpdateById(target, book), PassToNext(updateError.value)];
      assert IsWrite(r[0]);
      r
    else
      var r := [UpdateById(target, book), Redirect(BookUrl(book))];
      assert IsWrite(r[0]);
      r
  }

  /** The create response is the branch taken on the sanitised candidate and
      the raw body's errors. */
  lemma CreateResponseUnfolds(body: Body, escape: string -> string, newId: string, genres: seq<Genre>,
                               fetchError: Option<string>, saveError: Option<string>)
    ensures CreateResponse(body, escape, newId, genres, fetchError, saveError)
            == CreateEffects(CreateCandidate(Sanitized(body, CreateTrimmed, CreateEscapedOnly, escape), newId),
                             RequiredErrors(body, CreateChecks), genres, fetchError, saveError)
  {
  }

  /** The whole create submission on the raw body `body`. */
  function CreateResponse(body: Body, escape: string -> string, newId: string, genres: seq<Genre>,
                          fetchError: Option<string>, saveError: Option<string>): (r: seq<Effect>)
    ensures Writes(r) <==> NoneBlank(body)
  {
    CreateNoErrorsIffNoneBlank(body);
    CreateEffects(CreateCandidate(Sanitized(body, CreateTrimmed, CreateEscapedOnly, escape), newId),
                  RequiredErrors(body, CreateChecks), genres, fetchError, saveError)
  }

  /** The update response is the branch taken on the sanitised candidate, the
      body's `id` and the raw body's errors. */
  lemma UpdateResponseUnfolds(body: Body, escape: string -> string, routeId: string, genres: seq<Genre>,
                               fetchError: Option<string>, updateError: Option<string>)
    ensures UpdateResponse(body, escape, routeId, genres, fetchError, updateError)
            == UpdateEffects(UpdateCandidate(Sanitized(body, UpdateTrimmed, {}, escape), routeId), Get(body, Id),
                             RequiredErrors(body, UpdateChecks), genres, fetchError, updateError)
  {
  }

  /** The whole update submission on the raw body `body`. */
  function UpdateResponse(body: Body, escape: string -> string, routeId: string, genres: seq<Genre>,
                          fetchError: Option<string>, updateError: Option<string>): (r: seq<Effect>)
    ensures Writes(r) <==> NoneBlank(body)
  {
    UpdateNoErrorsIffNoneBlank(body);
    UpdateEffects(UpdateCandidate(Sanitized(body, UpdateTrimmed, {}, escape), routeId), Get(body, Id),
                  RequiredErrors(body, UpdateChecks), genres, fetchError, updateError)
  }

  /** Every required field holds something other than whitespace. */
  predicate NoneBlank(body: Body)
  {
    && !IsBlankField(body, Title) && !IsBlankField(body, Author)
    && !IsBlankField(body, Summary) && !IsBlankField(body, Isbn)
  }

  /** The create checks report nothing exactly when no required field is blank. */
  lemma CreateNoErrorsIffNoneBlank(body: Body)
    ensures RequiredErrors(body, CreateChecks) == [] <==> NoneBlank(body)
  {
    CreateReportsEachEmptyField(body);
  }

  /** The same for the update checks. */
  lemma UpdateNoErrorsIffNoneBlank(body: Body)
    ensures RequiredErrors(body, UpdateChecks) == [] <==> NoneBlank(body)
  {
    UpdateReportsEachEmptyField(body);
  }

  /** A create submission writes exactly when none of the four raw fields is
      blank; otherwise it re-renders the candidate with the errors, or, when
      fetching the form's lists fails, stops at the unbound `next`. A valid
      one saves and then redirects to the candidate's url unless the save
      fails. */
  lemma CreateOutcome(body: Body, escape: string -> string, newId: string, genres: seq<Genre>,
                      fetchError: Option<string>, saveError: Option<string>)
    ensures var r := CreateResponse(body, escape, newId, genres, fetchError, saveError);
            var book := CreateCandidate(Sanitized(body, CreateTrimmed, CreateEscapedOnly, escape), newId);
            && (Writes(r) <==> NoneBlank(body))
            && (!NoneBlank(body) && fetchError.None? ==>
                  r == [Render(BookFormView("Create Book", book, RequiredErrors(body, CreateChecks), genres))])
            && (!NoneBlank(body) && fetchError.Some? ==> r == [UnboundNextCalled])
            && (NoneBlank(body) && saveError.None? ==> r == [Save(book), Redirect(BookUrl(book))])
            && (NoneBlank(body) && saveError.Some? ==> r == [Save(book), UnboundNextCalled])
  {
    var book := CreateCandidate(Sanitized(body, CreateTrimmed, CreateEscapedOnly, escape), newId);
    var errors := RequiredErrors(body, CreateChecks);
    CreateNoErrorsIffNoneBlank(body);
    assert CreateResponse(body, escape, newId, genres, fetchError, saveError)
           == CreateEffects(book, errors, genres, fetchError, saveError);
  }

  /** An update submission writes exactly when none of the four raw fields is
      blank; a failed fetch on re-render is passed on. The write targets the body's `id`, while the candidate (and
      so the redirect) carries the route's id whatever the body holds. */
  lemma UpdateOutcome(body: Body, escape: string -> string, routeId: string, genres: seq<Genre>,
                      fetchError: Option<string>, updateError: Option<string>)
    ensures var r := UpdateResponse(body, escape, routeId, genres, fetchError, updateError);
            var book := UpdateCandidate(Sanitized(body, UpdateTrimmed, {}, escape), routeId);
            && book.id == routeId
            && (Writes(r) <==> NoneBlank(body))
            && (!NoneBlank(body) && fetchError.None? ==>
                  r == [Render(BookFormView("Create Book", book, RequiredErrors(body, UpdateChecks), genres))])
            && (!NoneBlank(body) && fetchError.Some? ==> r == [PassToNext(fetchError.value)])
            && (NoneBlank(body) && updateError.None? ==>
                  r == [UpdateById(Get(body, Id), book), Redirect(PathFor(BookPrefix, routeId))])
            && (NoneBlank(body) && updateError.Some? ==>
                  r == [UpdateById(Get(body, Id), book), PassToNext(updateError.value)])
  {
    var book := UpdateCandidate(Sanitized(body, UpdateTrimmed, {}, escape), routeId);
    var errors := RequiredErrors(body, UpdateChecks);
    UpdateNoErrorsIffNoneBlank(body);
    assert UpdateResponse(body, escape, routeId, genres, fetchError, updateError)
           == UpdateEffects(book, Get(body, Id), errors, genres, fetchError, updateError);
  }

  /** A title of whitespace only fails its check, even though it would trim
      to the empty string: the check reports it with the raw value, and the
      submission writes nothing. */
  lemma BlankTitleFailsCheck(body: Body, escape: string -> string, newId: string, genres: seq<Genre>,
                             fetchError: Option<string>, saveError: Option<string>)
    requires AllSpace(ToText(Get(body, Title)))
    ensures RequiredErrors(body, CreateChecks) != []
    ensures RequiredErrors(body, CreateChecks)[0] == ValidationError(Title, "Title must not be empty.", Get(body, Title))
    ensures !Writes(CreateResponse(body, escape, newId, genres, fetchError, saveError))
  {
    CreateReportsEachEmptyField(body);
    CreateOutcome(body, escape, newId, genres, fetchError, saveError);
  }

  /** The checks run on the raw values, the candidate takes the escaped and
      trimmed ones; as long as escaping keeps text that is not all whitespace
      so, every field that passed its check is non-empty in the candidate. */
  lemma CheckedFieldsStayNonEmpty(body: Body, escape: string -> string, newId: string)
    requires NoneBlank(body)
    requires forall t :: !AllSpace(t) ==> !AllSpace(escape(t))
    ensures var book := CreateCandidate(Sanitized(body, CreateTrimmed, CreateEscapedOnly, escape), newId);
            book.title != "" && book.author != "" && book.summary != "" && book.isbn != ""
  {
    TrimEmptyIffAllSpace(escape(ToText(Get(body, Title))));
    TrimEmptyIffAllSpace(escape(ToText(Get(body, Author))));
    TrimEmptyIffAllSpace(escape(ToText(Get(body, Summary))));
    TrimEmptyIffAllSpace(escape(ToText(Get(body, Isbn))));
  }

  /** A valid body without `id` issues the update with no target id at all,
      yet the response still redirects to the route's book. */
  lemma UpdateWithoutBodyId(body: Body, escape: string -> string, routeId: string, genres: seq<Genre>)
    requires NoneBlank(body) && Id !in body
    ensures var r := UpdateResponse(body, escape, routeId, genres, None, None);
            r[0].UpdateById? && r[0].target == None && r[1] == Redirect(PathFor(BookPrefix, routeId))
  {
    UpdateOutcome(body, escape, routeId, genres, None, None);
  }

  /** On create, a genre field that is absent becomes no genres, as long as
      escaping leaves the empty string alone. */
  lemma AbsentGenreIsEmpty(body: Body, escape: string -> string, newId: string)
    requires Genre !in body
    requires escape("") == ""
    ensures CreateCandidate(Sanitized(body, CreateTrimmed, CreateEscapedOnly, escape), newId).genre == []
  {
  }

  /** On create, several ticked genre boxes reach the candidate as the same
      ids, in order, when the ids hold no comma and escaping leaves them alone:
      the array is joined with commas and split again. */
  lemma TickedGenresRoundTrip(body: Body, ids: seq<string>, escape: string -> string, newId: string)
    requires Get(body, Genre) == Some(Array(ids))
    requires Join(ids, ',') != ""
    requires forall k :: 0 <= k < |ids| ==> ',' !in ids[k]
    requires escape(Join(ids, ',')) == Join(ids, ',')
    ensures CreateCandidate(Sanitized(body, CreateTrimmed, CreateEscapedOnly, escape), newId).genre == ids
  {
    assert |ids| >= 1;
    SplitJoin(ids, ',');
  }

  /** On update the genre field is not sanitised, so the ticked ids reach the
      candidate exactly as sent: an array as its items, one box as a
      one-element list, and no box as none. */
  lemma UpdateKeepsTickedGenres(body: Body, escape: string -> string, routeId: string)
    ensures var g := UpdateCandidate(Sanitized(body, UpdateTrimmed, {}, escape), routeId).genre;
            && (Genre !in body ==> g == [])
            && (forall ids :: Get(body, Genre) == Some(Array(ids)) ==> g == ids)
            && (forall id :: Get(body, Genre) == Some(Scalar(id)) && id != "" ==> g == [id])
  {
    SanitizedKeepsOthers(body, UpdateTrimmed, {}, Genre, escape);
  }

  /** Several ticked boxes without commas, and an escape that leaves their
      join alone, give the same genre list on create and on update. */
  lemma TickedGenresAgree(body: Body, ids: seq<string>, escape: string -> string, newId: string, routeId: string)
    requires Get(body, Genre) == Some(Array(ids))
    requires Join(ids, ',') != ""
    requires forall k :: 0 <= k < |ids| ==> ',' !in ids[k]
    requires escape(Join(ids, ',')) == Join(ids, ',')
    ensures CreateCandidate(Sanitized(body, CreateTrimmed, CreateEscapedOnly, escape), newId).genre
            == UpdateCandidate(Sanitized(body, UpdateTrimmed, {}, escape), routeId).genre
  {
    TickedGenresRoundTrip(body, ids, escape, newId);
    UpdateKeepsTickedGenres(body, escape, routeId);
  }

  // ---------------------------------------------------------------------------
  // The submission as a state machine

  datatype Phase = Received | Invalid | Valid | Persisted | Failed

  predicate Transition(p: Phase, q: Phase)
  {
    || (p == Received && (q == Invalid || q == Valid))
    || (p == Valid && (q == Persisted || q == Failed))
  }

  predicate Terminal(p: Phase)
  {
    p == Invalid || p == Persisted || p == Failed
  }

  /** The phases a response went through, read off its effects. */
  function Phases(effects: seq<Effect>, url: string): (ps: seq<Phase>)
  {
    if !Writes(effects) then [Received, Invalid]
    else if EndsWithRedirect(effects, url) then [Received, Valid, Persisted]
    else [Received, Valid, Failed]
  }

  predicate IsRun(ps: seq<Phase>)
  {
    && |ps| >= 2 && ps[0] == Received && Terminal(ps[|ps| - 1])
    && forall i :: 0 <= i < |ps| - 1 ==> Transition(ps[i], ps[i + 1])
  }

  /** Every response reads as a run of the state machine, ending invalid
      exactly when nothing is written and persisted exactly when a write is
      followed by the redirect. */
  lemma PhasesAreRun(effects: seq<Effect>, url: string)
    ensures var ps := Phases(effects, url);
            && IsRun(ps)
            && (ps[|ps| - 1] == Invalid <==> !Writes(effects))
            && (ps[|ps| - 1] == Persisted <==> Writes(effects) && EndsWithRedirect(effects, url))
  {
  }

  /** The response's phases form a run that ends invalid exactly when not
      `valid`, and persisted exactly when `valid` and `ok`. */
  predicate RunEndsAs(effects: seq<Effect>, url: string, valid: bool, ok: bool)
  {
    var ps := Phases(effects, url);
    && IsRun(ps)
    && (ps[|ps| - 1] == Invalid <==> !valid)
    && (ps[|ps| - 1] == Persisted <==> valid && ok)
  }

  /** A response that writes exactly when `valid` holds, and writes and then
      redirects exactly when `valid` and `ok` hold, is a run ending invalid
      exactly when not `valid` and persisted exactly when `valid` and `ok`. */
  lemma RunEndsAsDecided(effects: seq<Effect>, url: string, valid: bool, ok: bool)
    requires Writes(effects) <==> valid
    requires Writes(effects) && EndsWithRedirect(effects, url) <==> valid && ok
    ensures RunEndsAs(effects, url, valid, ok)
  {
    PhasesAreRun(effects, url);
  }

  /** A create submission runs received -> invalid, or received -> valid ->
      persisted (redirect) or failed; it ends invalid exactly when a field is
      missing and persisted exactly when it is complete and the save succeeds. */
  lemma CreateRun(body: Body, escape: string -> string, newId: string, genres: seq<Genre>,
                  fetchError: Option<string>, saveError: Option<string>)
    ensures var book := CreateCandidate(Sanitized(body, CreateTrimmed, CreateEscapedOnly, escape), newId);
            RunEndsAs(CreateResponse(body, escape, newId, genres, fetchError, saveError), BookUrl(book), NoneBlank(body), saveError.None?)
  {
    var book := CreateCandidate(Sanitized(body, CreateTrimmed, CreateEscapedOnly, escape), newId);
    var r := CreateResponse(body, escape, newId, genres, fetchError, saveError);
    CreateNoErrorsIffNoneBlank(body);
    CreateResponseUnfolds(body, escape, newId, genres, fetchError, saveError);
    RunEndsAsDecided(r, BookUrl(book), NoneBlank(body), saveError.None?);
  }

  /** The same for an update submission. */
  lemma UpdateRun(body: Body, escape: string -> string, routeId: string, genres: seq<Genre>,
                  fetchError: Option<string>, updateError: Option<string>)
    ensures var book := UpdateCandidate(Sanitized(body, UpdateTrimmed, {}, escape), routeId);
            RunEndsAs(UpdateResponse(body, escape, routeId, genres, fetchError, updateError), BookUrl(book), NoneBlank(body), updateError.None?)
  {
    var book := UpdateCandidate(Sanitized(body, UpdateTrimmed, {}, escape), routeId);
    var r := UpdateResponse(body, escape, routeId, genres, fetchError, updateError);
    UpdateNoErrorsIffNoneBlank(body);
    UpdateResponseUnfolds(body, escape, routeId, genres, fetchError, updateError);
    RunEndsAsDecided(r, BookUrl(book), NoneBlank(body), updateError.None?);
  }

  // ---------------------------------------------------------------------------
  // The request and the handlers

  /** The incoming request: the parsed body the checks and sanitisers read and
      rewrite, the validation errors recorded so far, and the route's id. */
  class Request {
    var body: Body
    var errors: seq<ValidationError>
    const routeId: string

    constructor (body: Body, routeId: string)
      ensures this.body == body && this.routeId == routeId && errors == []
    {
      this.body := body;
      this.routeId := routeId;
      errors := [];
    }

    /** `req.checkBody(param, msg).notEmpty()`: the check runs at once on the
        current value and records its error. */
    method CheckNotEmpty(param: Field, msg: string)
      modifies this
      ensures body == old(body)
      ensures errors == old(errors) + CheckErrors(old(body), Check(param, msg))
    {
      if AllSpace(ToText(Get(body, param))) {
        errors := errors + [ValidationError(param, msg, Get(body, param))];
      }
    }

    /** `req.sanitize(param).escape()`. */
    method SanitizeEscape(param: Field, escape: string -> string)
      modifies this
      ensures errors == old(errors)
      ensures body == EscapeField(old(body), param, escape)
    {
      body := body[param := Scalar(escape(ToText(Get(body, param))))];
    }

    /** `req.sanitize(param).trim()`. */
    method SanitizeTrim(param: Field)
      modifies this
      ensures errors == old(errors)
      ensures body == TrimField(old(body), param)
    {
      body := body[param := Scalar(Trim(ToText(Get(body, param))))];
    }
  }

  /** The first part of `book_create_post`: the four checks on the raw body,
      the nine sanitiser calls in the source's order, and the candidate book
      built from the sanitised body. */
  method CreateIntake(req: Request, escape: string -> string, newId: string)
    returns (book: Book, errors: seq<ValidationError>)
    requires req.errors == []
    modifies req
    ensures errors == req.errors == RequiredErrors(old(req.body), CreateChecks)
    ensures req.body == Sanitized(old(req.body), CreateTrimmed, CreateEscapedOnly, escape)
    ensures book == CreateCandidate(req.body, newId)
  {
    ghost var raw := req.body;
    req.CheckNotEmpty(Title, "Title must not be empty.");
    assert req.errors == CheckErrors(raw, Check(Title, "Title must not be empty."));
    req.CheckNotEmpty(Author, "Author must not be empty");
    req.CheckNotEmpty(Summary, "Summary must not be empty");
    req.CheckNotEmpty(Isbn, "ISBN must not be empty");
    CreateReportsEachEmptyField(raw);
    assert req.errors == RequiredErrors(raw, CreateChecks);

    req.SanitizeEscape(Title, escape);
    req.SanitizeEscape(Author, escape);
    req.SanitizeEscape(Summary, escape);
    req.SanitizeEscape(Isbn, escape);
    req.SanitizeTrim(Title);
    req.SanitizeTrim(Author);
    req.SanitizeTrim(Summary);
    req.SanitizeTrim(Isbn);
    req.SanitizeEscape(Genre, escape);
    CreateSanitizerOrder(raw, escape);

    book := Book(newId, ToText(Get(req.body, Title)), ToText(Get(req.body, Author)),
                 ToText(Get(req.body, Summary)), ToText(Get(req.body, Isbn)),
                 CreateGenreList(ToText(Get(req.body, Genre))));
    errors := req.errors;
  }

  /** `book_create_post`. `escape` is the escaping sanitiser, `newId` the id
      the new document receives, `genres` the fetched genre documents,
      `fetchError` and `saveError` what fetching the lists and saving report.
      The create path looks genre documents up in the id list, so no genre is
      marked. */
  method BookCreatePost(req: Request, escape: string -> string, newId: string, genres: seq<Genre>,
                        fetchError: Option<string>, saveError: Option<string>) returns (effects: seq<Effect>)
    requires req.errors == []
    modifies req, genres
    ensures req.errors == RequiredErrors(old(req.body), CreateChecks)
    ensures req.body == Sanitized(old(req.body), CreateTrimmed, CreateEscapedOnly, escape)
    ensures effects == CreateResponse(old(req.body), escape, newId, genres, fetchError, saveError)
    ensures Snapshot(genres) == old(Snapshot(genres))
  {
    ghost var raw := req.body;
    ghost var before := Snapshot(genres);
    var book, errors := CreateIntake(req, escape, newId);
    assert Snapshot(genres) == before;
    ghost var sanitized := req.body;
    effects := CreateRespond(book, errors, genres, fetchError, saveError);
    assert req.body == sanitized && req.errors == errors;
    assert effects == CreateResponse(raw, escape, newId, genres, fetchError, saveError) by {
      CreateResponseUnfolds(raw, escape, newId, genres, fetchError, saveError);
    }
  }

  /** The create handler's branch on the validation errors: re-render with the
      genres (none of which the document lookup marks) or save and redirect. */
  method CreateRespond(book: Book, errors: seq<ValidationError>, genres: seq<Genre>,
                       fetchError: Option<string>, saveError: Option<string>) returns (effects: seq<Effect>)
    modifies genres
    ensures effects == CreateEffects(book, errors, genres, fetchError, saveError)
    ensures Snapshot(genres) == old(Snapshot(genres))
  {
    if errors != [] {
      if fetchError.Some? {
        effects := [UnboundNextCalled];
      } else {
        MarkSelected(genres, book.genre, ByDocument);
        MarkedByDocumentUnchanged(old(Snapshot(genres)), book.genre);
        effects := [Render(BookFormView("Create Book", book, errors, genres))];
      }
    } else {
      effects := [Save(book)];
      if saveError.Some? {
        // `next` is not a parameter of this handler: the call throws before the redirect
        effects := effects + [UnboundNextCalled];
      } else {
        effects := effects + [Redirect(BookUrl(book))];
      }
    }
  }

  /** The first part of `book_update_post`: the four checks, the six
      sanitiser calls, and the candidate carrying the route's id. */
  method UpdateIntake(req: Request, escape: string -> string)
    returns (book: Book, errors: seq<ValidationError>)
    requires req.errors == []
    modifies req
    ensures errors == req.errors == RequiredErrors(old(req.body), UpdateChecks)
    ensures req.body == Sanitized(old(req.body), UpdateTrimmed, {}, escape)
    ensures Get(req.body, Id) == Get(old(req.body), Id)
    ensures book == UpdateCandidate(req.body, req.routeId)
  {
    ghost var raw := req.body;
    req.CheckNotEmpty(Title, "Title cannot be empty");
    assert req.errors == CheckErrors(raw, Check(Title, "Title cannot be empty"));
    req.CheckNotEmpty(Author, "Author cannot be empty");
    req.CheckNotEmpty(Summary, "Summary cannot be empty");
    req.CheckNotEmpty(Isbn, "Isbn cannot be empty");
    UpdateReportsEachEmptyField(raw);
    assert req.errors == RequiredErrors(raw, UpdateChecks);

    req.SanitizeEscape(Title, escape);
    req.SanitizeEscape(Summary, escape);
    req.SanitizeEscape(Isbn, escape);
    req.SanitizeTrim(Title);
    req.SanitizeTrim(Summary);
    req.SanitizeTrim(Isbn);
    UpdateSanitizerOrder(raw, escape);
    SanitizedKeepsOthers(raw, UpdateTrimmed, {}, Id, escape);

    errors := req.errors;
    book := Book(req.routeId, ToText(Get(req.body, Title)), ToText(Get(req.body, Author)),
                 ToText(Get(req.body, Summary)), ToText(Get(req.body, Isbn)),
                 UpdateGenreList(Get(req.body, Genre)));
  }

  /** `book_update_post`. The candidate takes the route's id; the write goes to
      the body's `id`. On re-render the genres are marked by id. */
  method BookUpdatePost(req: Request, escape: string -> string, genres: seq<Genre>,
                        fetchError: Option<string>, updateError: Option<string>) returns (effects: seq<Effect>)
    requires req.errors == []
    modifies req, genres
    ensures req.errors == RequiredErrors(old(req.body), UpdateChecks)
    ensures req.body == Sanitized(old(req.body), UpdateTrimmed, {}, escape)
    ensures effects == UpdateResponse(old(req.body), escape, req.routeId, genres, fetchError, updateError)
    ensures req.errors != [] && fetchError.None? ==>
              Snapshot(genres) == Marked(old(Snapshot(genres)), UpdateCandidate(req.body, req.routeId).genre, ById)
    ensures req.errors == [] || fetchError.Some? ==> Snapshot(genres) == old(Snapshot(genres))
  {
    ghost var raw := req.body;
    ghost var before := Snapshot(genres);
    var book, errors := UpdateIntake(req, escape);
    assert Snapshot(genres) == before;
    var target := Get(req.body, Id);
    ghost var sanitized := req.body;
    effects := UpdateRespond(book, target, errors, genres, fetchError, updateError);
    assert req.body == sanitized && req.errors == errors;
    assert effects == UpdateResponse(raw, escape, req.routeId, genres, fetchError, updateError) by {
      UpdateResponseUnfolds(raw, escape, req.routeId, genres, fetchError, updateError);
    }
  }

  /** The update handler's branch on the validation errors: re-render with the
      candidate's genres marked by id, or write to `target` and redirect. */
  method UpdateRespond(book: Book, target: Option<BodyValue>, errors: seq<ValidationError>, genres: seq<Genre>,
                       fetchError: Option<string>, updateError: Option<string>) returns (effects: seq<Effect>)
    modifies genres
    ensures effects == UpdateEffects(book, target, errors, genres, fetchError, updateError)
    ensures errors != [] && fetchError.None? ==> Snapshot(genres) == Marked(old(Snapshot(genres)), book.genre, ById)
    ensures errors == [] || fetchError.Some? ==> Snapshot(genres) == old(Snapshot(genres))
  {
    if errors != [] {
      if fetchError.Some? {
        effects := [PassToNext(fetchError.value)];
      } else {
        MarkSelected(genres, book.genre, ById);
        effects := [Render(BookFormView("Create Book", book, errors, genres))];
      }
    } else {
      effects := [UpdateById(target, book)];
      if updateError.Some? {
        effects := effects + [PassToNext(updateError.value)];
      } else {
        effects := effects + [Redirect(BookUrl(book))];
      }
    }
  }

  /** The part of `book_update_get` after the fetch: the stored book's genres
      are marked by id on the fetched genre documents and the form is shown.
      `book` is what the lookup by the route's id found, `None` when no record
      has that id; the loop then reads the genre list of null on its first
      genre and throws, and with no genres at all the form is shown without
      a book. */
  method BookUpdateGet(book: Option<Book>, genres: seq<Genre>, fetchError: Option<string>) returns (effects: seq<Effect>)
    modifies genres
    ensures fetchError.Some? ==> effects == [PassToNext(fetchError.value)] && Snapshot(genres) == old(Snapshot(genres))
    ensures fetchError.None? && book.Some? ==>
              && effects == [Render(BookFormView("Update Book", book.value, [], genres))]
              && Snapshot(genres) == Marked(old(Snapshot(genres)), book.value.genre, ById)
    ensures fetchError.None? && book.None? ==>
              && effects == (if |genres| == 0 then [RenderWithoutBook("Update Book", genres)] else [NullBookRead])
              && Snapshot(genres) == old(Snapshot(genres))
  {
    if fetchError.Some? {
      return [PassToNext(fetchError.value)];
    }
    if book.None? {
      if |genres| == 0 {
        return [RenderWithoutBook("Update Book", genres)];
      }
      return [NullBookRead];
    }
    MarkSelected(genres, book.value.genre, ById);
    effects := [Render(BookFormView("Update Book", book.value, [], genres))];
  }
}
