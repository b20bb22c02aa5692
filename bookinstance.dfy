/** The BookInstance schema: a required reference to its book, a required
    imprint, a status restricted to four values (default Maintenance), a
    due-back date that defaults to the time of creation, and the `url`
    virtual. */
module BookInstanceModel {
  import opened JsCore
  import opened CatalogUrl

  datatype Status = Available | Maintenance | Loaned | Reserved

  /** The `enum` of the status path, in schema order. */
  const StatusValues: seq<string> := ["Available", "Maintenance", "Loaned", "Reserved"]

  function StatusName(s: Status): (name: string)
    ensures name in StatusValues
  {
    match s
    case Available => "Available"
    case Maintenance => "Maintenance"
    case Loaned => "Loaned"
    case Reserved => "Reserved"
  }

  /** The status a stored string stands for, if it is one of the enum's values. */
  function ParseStatus(v: string): (r: Option<Status>)
    ensures r.Some? <==> v in StatusValues
  {
    if v == "Available" then Some(Available)
    else if v == "Maintenance" then Some(Maintenance)
    else if v == "Loaned" then Some(Loaned)
    else if v == "Reserved" then Some(Reserved)
    else None
  }

  /** Status names and enum strings correspond one to one. */
  lemma StatusRoundTrip(s: Status, v: string)
    ensures ParseStatus(StatusName(s)) == Some(s)
    ensures ParseStatus(v) == Some(s) ==> StatusName(s) == v
  {
  }

  /** The fields given to the constructor; a field not supplied is `None`. */
  datatype BookInstanceInput = BookInstanceInput(
    id: string,
    book: Option<string>,
    imprint: Option<string>,
    status: Option<string>,
    dueBack: Option<Date>)

  /** A book instance that passed validation. */
  datatype BookInstance = BookInstance(
    id: string,
    book: string,
    imprint: string,
    status: Status,
    dueBack: Date)

  datatype InstancePath = BookPath | ImprintPath | StatusPath

  /** A required path is satisfied by a present, non-empty value. */
  predicate RequiredPresent(v: Option<string>)
  {
    v.Some? && v.value != ""
  }

  /** The status after the default: the supplied string, else "Maintenance". */
  function StatusOrDefault(v: Option<string>): (s: string)
    ensures v.None? ==> s == StatusName(Maintenance)
    ensures v.Some? ==> s == v.value
  {
    if v.Some? then v.value else "Maintenance"
  }

  /** The due-back date after the default: the supplied date, else the clock's
      reading at creation. */
  function DueBackOrDefault(v: Option<Date>, now: Date): (d: Date)
    ensures v.None? ==> d == now
    ensures v.Some? ==> d == v.value
  {
    if v.Some? then v.value else now
  }

  /** The paths that fail validation once defaults are applied, in schema
      order; each failing path is reported once. */
  function ValidationErrors(input: BookInstanceInput): (errs: seq<InstancePath>)
    ensures BookPath in errs <==> !RequiredPresent(input.book)
    ensures ImprintPath in errs <==> !RequiredPresent(input.imprint)
    ensures StatusPath in errs <==> StatusOrDefault(input.status) !in StatusValues
    ensures forall i, j :: 0 <= i < j < |errs| ==> errs[i] != errs[j]
  {
    (if RequiredPresent(input.book) then [] else [BookPath])
    + (if RequiredPresent(input.imprint) then [] else [ImprintPath])
    + (if StatusOrDefault(input.status) in StatusValues then [] else [StatusPath])
  }

  /** Constructing and validating a book instance: defaults first, then the
      required and enum checks. `now` is the clock's reading. */
  function Create(input: BookInstanceInput, now: Date): (r: Result<BookInstance, seq<InstancePath>>)
    ensures r.Ok? <==> RequiredPresent(input.book) && RequiredPresent(input.imprint)
                       && (input.status.None? || input.status.value in StatusValues)
    ensures r.Ok? ==> r.value.id == input.id
                      && Some(r.value.book) == input.book
                      && Some(r.value.imprint) == input.imprint
    ensures r.Ok? ==> StatusName(r.value.status) in StatusValues
    ensures r.Ok? && input.status.None? ==> r.value.status == Maintenance
    ensures r.Ok? && input.status.Some? ==> StatusName(r.value.status) == input.status.value
    ensures r.Ok? && input.dueBack.None? ==> r.value.dueBack == now
    ensures r.Ok? && input.dueBack.Some? ==> r.value.dueBack == input.dueBack.value
    ensures r.Err? ==> r.error != [] && r.error == ValidationErrors(input)
  {
    var errs := ValidationErrors(input);
    if errs != [] then Err(errs)
    else
      var status := ParseStatus(StatusOrDefault(input.status));
      StatusRoundTrip(status.value, StatusOrDefault(input.status));
      Ok(BookInstance(input.id, input.book.value, input.imprint.value, status.value,
                      DueBackOrDefault(input.dueBack, now)))
  }

  /** The `url` virtual: the instance's reference path; the id can be read
      back from it. */
  function Url(b: BookInstance): (u: string)
    ensures StripPrefix(BookInstancePrefix, u) == Some(b.id)
  {
    PathFor(BookInstancePrefix, b.id)
  }
}
