/** The Author schema: two required names, two optional dates, and the
    derived fields `name`, `url`, `date_of_birth_formatted` and
    `date_of_death_formatted`. */
module AuthorModel {
  import opened JsCore
  import opened CatalogUrl

  /** An author document as stored; a field the document lacks is `None`. */
  datatype Author = Author(
    id: string,
    firstName: Option<string>,
    familyName: Option<string>,
    dateOfBirth: Option<Date>,
    dateOfDeath: Option<Date>)

  /** The schema's paths, named in validation errors. */
  datatype AuthorPath = FirstName | FamilyName | DateOfBirth | DateOfDeath

  /** A `required` string path is satisfied by a present, non-empty string.
      The `max: 100` option is not a length validator on a string path, so no
      length is checked. */
  predicate RequiredStringPresent(v: Option<string>)
  {
    v.Some? && v.value != ""
  }

  /** The paths that fail validation, in schema order. */
  function ValidationErrors(a: Author): (errs: seq<AuthorPath>)
    ensures FirstName in errs <==> !RequiredStringPresent(a.firstName)
    ensures FamilyName in errs <==> !RequiredStringPresent(a.familyName)
    ensures DateOfBirth !in errs && DateOfDeath !in errs
    ensures errs == [] <==> RequiredStringPresent(a.firstName) && RequiredStringPresent(a.familyName)
  {
    (if RequiredStringPresent(a.firstName) then [] else [FirstName])
    + (if RequiredStringPresent(a.familyName) then [] else [FamilyName])
  }

  /** The `name` virtual: family name, a comma and a space, first name. */
  function Name(a: Author): (n: string)
    ensures Display(a.familyName) <= n
    ensures |n| == |Display(a.familyName)| + 2 + |Display(a.firstName)|
    ensures n[|Display(a.familyName)|..] == ", " + Display(a.firstName)
  {
    var n := Display(a.familyName) + ", " + Display(a.firstName);
    assert n[|Display(a.familyName)|..] == ", " + Display(a.firstName);
    n
  }

  /** Reads a `name` back into its family and first parts at the first comma. */
  function SplitName(n: string): (parts: Option<(string, string)>)
  {
    var k := FirstIndexOf(n, ',');
    if 0 <= k && k + 1 < |n| && n[k + 1] == ' ' then Some((n[..k], n[k + 2..])) else None
  }

  /** When the family name has no comma, `name` determines both parts. */
  lemma NameRoundTrip(a: Author)
    requires ',' !in Display(a.familyName)
    ensures SplitName(Name(a)) == Some((Display(a.familyName), Display(a.firstName)))
  {
    var f, g := Display(a.familyName), Display(a.firstName);
    var n := Name(a);
    assert n == f + ", " + g;
    assert n[|f|] == ',';
    var k := FirstIndexOf(n, ',');
    assert k == |f|;
    assert n[..k] == f;
    assert n[k + 2..] == g;
  }

  /** The `url` virtual: the author's reference path; the id can be read back
      from it, so distinct authors have distinct urls. */
  function Url(a: Author): (u: string)
    ensures StripPrefix(AuthorPrefix, u) == Some(a.id)
  {
    PathFor(AuthorPrefix, a.id)
  }

  /** A date formatted for display, or the empty string when there is none.
      The formatter (`MMM Do YYYY`) is a parameter. */
  function FormattedOrEmpty(d: Option<Date>, format: Date -> string): (r: string)
    ensures d.None? ==> r == ""
    ensures d.Some? ==> r == format(d.value)
  {
    if d.Some? then format(d.value) else ""
  }

  /** The `date_of_birth_formatted` virtual. */
  function DateOfBirthFormatted(a: Author, format: Date -> string): (r: string)
    ensures a.dateOfBirth.None? ==> r == ""
    ensures a.dateOfBirth.Some? ==> r == format(a.dateOfBirth.value)
  {
    FormattedOrEmpty(a.dateOfBirth, format)
  }

  /** The `date_of_death_formatted` virtual. */
  function DateOfDeathFormatted(a: Author, format: Date -> string): (r: string)
    ensures a.dateOfDeath.None? ==> r == ""
    ensures a.dateOfDeath.Some? ==> r == format(a.dateOfDeath.value)
  {
    FormattedOrEmpty(a.dateOfDeath, format)
  }

  /** With a formatter that never yields the empty string, a formatted date is
      empty exactly when the date is absent. */
  lemma FormattedEmptyIffAbsent(a: Author, format: Date -> string)
    requires forall d :: format(d) != ""
    ensures DateOfBirthFormatted(a, format) == "" <==> a.dateOfBirth.None?
    ensures DateOfDeathFormatted(a, format) == "" <==> a.dateOfDeath.None?
  {
  }
}
