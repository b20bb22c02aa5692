/** Marking the genres of a book form: the fetched genre documents are walked
    in order and each one whose reference appears in the book's genre list gets
    its transient `checked` marker set, in place. */
module GenreMarking {

  /** A genre document as fetched for a form. `checked` is the transient
      marker the form's checkboxes read; it is not persisted. */
  class Genre {
    const id: string
    const name: string
    var checked: bool

    constructor (id: string, name: string)
      ensures this.id == id && this.name == name && !checked
    {
      this.id := id;
      this.name := name;
      checked := false;
    }
  }

  /** What the loop looks up in the book's genre list: the genre's id (the
      update paths) or the genre document itself (the create path). */
  datatype Probe = ById | ByDocument

  /** The argument handed to the genre list's `indexOf`. */
  datatype Operand = IdOperand(id: string) | DocumentOperand

  /** Whether an entry of the book's genre list (an id) equals the operand, as
      the MongooseArray `indexOf` decides it: it compares with `==` and turns
      only an ObjectId operand into its string first. An id operand thus
      matches an entry with the same value; a genre document stays an object,
      which is none of the list's entries, so it never matches. */
  predicate Matches(entry: string, x: Operand)
  {
    match x
    case IdOperand(id) => entry == id
    case DocumentOperand => false
  }

  function OperandFor(id: string, probe: Probe): (x: Operand)
  {
    match probe
    case ById => IdOperand(id)
    case ByDocument => DocumentOperand
  }

  /** `list.indexOf(x)`: the first position whose entry matches, or -1. */
  function IndexOf(list: seq<string>, x: Operand): (k: int)
    ensures -1 <= k < |list|
    ensures k == -1 <==> forall i :: 0 <= i < |list| ==> !Matches(list[i], x)
    ensures k >= 0 ==> Matches(list[k], x) && forall i :: 0 <= i < k ==> !Matches(list[i], x)
  {
    if list == [] then -1
    else if Matches(list[0], x) then 0
    else
      var k := IndexOf(list[1..], x);
      if k == -1 then -1 else k + 1
  }

  /** The loop's test for one genre. */
  predicate Selected(id: string, selected: seq<string>, probe: Probe)
  {
    IndexOf(selected, OperandFor(id, probe)) != -1
  }

  /** Looked up by id, a genre is selected exactly when its id is in the list. */
  lemma SelectedById(id: string, selected: seq<string>)
    ensures Selected(id, selected, ById) <==> id in selected
  {
    if id in selected {
      var i :| 0 <= i < |selected| && selected[i] == id;
      assert Matches(selected[i], IdOperand(id));
    }
  }

  /** Looked up as a document, no genre is ever selected. */
  lemma NeverSelectedByDocument(id: string, selected: seq<string>)
    ensures !Selected(id, selected, ByDocument)
  {
  }

  /** The part of a genre the marking reads and writes. */
  datatype GenreMark = GenreMark(id: string, checked: bool)

  ghost function Snapshot(genres: seq<Genre>): seq<GenreMark>
    reads genres
  {
    seq(|genres|, k requires 0 <= k < |genres| reads genres => GenreMark(genres[k].id, genres[k].checked))
  }

  /** One genre after the loop body: marked when selected, otherwise as it was
      (the loop only ever sets the marker). */
  function Mark(m: GenreMark, selected: seq<string>, probe: Probe): (r: GenreMark)
  {
    m.(checked := m.checked || Selected(m.id, selected, probe))
  }

  /** The genre list after the loop: each entry marked on its own, the list's
      length, order and ids unchanged. */
  function Marked(marks: seq<GenreMark>, selected: seq<string>, probe: Probe): (r: seq<GenreMark>)
    ensures |r| == |marks|
    ensures forall k :: 0 <= k < |marks| ==> r[k] == Mark(marks[k], selected, probe)
  {
    if marks == [] then []
    else [Mark(marks[0], selected, probe)] + Marked(marks[1..], selected, probe)
  }

  /** Marking a second time changes nothing. */
  lemma MarkedIdempotent(marks: seq<GenreMark>, selected: seq<string>, probe: Probe)
    ensures Marked(Marked(marks, selected, probe), selected, probe) == Marked(marks, selected, probe)
  {
  }

  /** On freshly fetched genres, marked by id, a genre ends up checked exactly
      when its id is in the book's genre list. */
  lemma MarkedByIdIffSelected(marks: seq<GenreMark>, selected: seq<string>)
    requires forall k :: 0 <= k < |marks| ==> !marks[k].checked
    ensures forall k :: 0 <= k < |marks| ==>
              (Marked(marks, selected, ById)[k].checked <==> marks[k].id in selected)
  {
    forall k | 0 <= k < |marks|
      ensures Marked(marks, selected, ById)[k].checked <==> marks[k].id in selected
    {
      SelectedById(marks[k].id, selected);
    }
  }

  /** Marked as documents (the create path), the genres come out as they went in. */
  lemma MarkedByDocumentUnchanged(marks: seq<GenreMark>, selected: seq<string>)
    ensures Marked(marks, selected, ByDocument) == marks
  {
  }

  /** The `forEach` loop: sets `checked` on each genre the lookup finds in
      `selected`; genre objects are changed in place and nothing else is. */
  method MarkSelected(genres: seq<Genre>, selected: seq<string>, probe: Probe)
    modifies genres
    ensures forall g :: g in genres ==> g.checked == (old(g.checked) || Selected(g.id, selected, probe))
    ensures Snapshot(genres) == Marked(old(Snapshot(genres)), selected, probe)
  {
    for i := 0 to |genres|
      invariant forall g :: g in genres ==>
                  g.checked == (old(g.checked) || (g in genres[..i] && Selected(g.id, selected, probe)))
    {
      if IndexOf(selected, OperandFor(genres[i].id, probe)) != -1 {
        genres[i].checked := true;
      }
      assert genres[..i + 1] == genres[..i] + [genres[i]];
    }
    assert genres[..|genres|] == genres;
    ghost var before := old(Snapshot(genres));
    forall k | 0 <= k < |genres|
      ensures Snapshot(genres)[k] == Mark(before[k], selected, probe)
    {
      assert genres[k] in genres;
      assert before[k] == GenreMark(genres[k].id, old(genres[k].checked));
    }
  }
}
