/**
 * The Notes page: a list of notes, a search box that filters them, a
 * creation form whose tags field is comma-separated, and a star per note.
 */
module NotesSection {
  import opened Wrappers
  import opened Collections
  import opened Text

  datatype Note = Note(
    id: string,
    title: string,
    content: string,
    tags: seq<string>,
    createdAt: string,
    isStarred: bool,
    aiGenerated: bool)

  /** The creation form; `tags` is the raw comma-separated text. */
  datatype Draft = Draft(title: string, content: string, tags: string)

  const EmptyDraft: Draft := Draft("", "", "")

  /** Case-insensitive `includes` of the search term. */
  predicate MatchesTerm(field: string, term: string) {
    Includes(Lower(field), Lower(term))
  }

  /** The search keeps a note whose title, content or some tag contains the term, ignoring case. */
  predicate NoteMatches(note: Note, term: string) {
    || MatchesTerm(note.title, term)
    || MatchesTerm(note.content, term)
    || exists i :: 0 <= i < |note.tags| && MatchesTerm(note.tags[i], term)
  }

  /** `filteredNotes`. */
  function FilteredNotes(notes: seq<Note>, term: string): seq<Note>
  {
    Filter(notes, (n: Note) => NoteMatches(n, term))
  }

  /** The search keeps exactly the matching notes, in their original order. */
  lemma SearchSpec(notes: seq<Note>, term: string)
    ensures forall n | n in FilteredNotes(notes, term) :: n in notes && NoteMatches(n, term)
    ensures forall n | n in notes && NoteMatches(n, term) :: n in FilteredNotes(notes, term)
    ensures IsSubsequence(FilteredNotes(notes, term), notes)
  {
    FilterIsSubsequence(notes, (n: Note) => NoteMatches(n, term));
  }

  /** The empty search term keeps every note. */
  lemma EmptySearchKeepsAll(notes: seq<Note>)
    ensures FilteredNotes(notes, "") == notes
  {
    forall n | n in notes ensures NoteMatches(n, "") {
      IncludesEmpty(Lower(n.title));
    }
    FilterAll(notes, (n: Note) => NoteMatches(n, ""));
  }

  /** Searching the search result again with the same term changes nothing. */
  lemma SearchIdempotent(notes: seq<Note>, term: string)
    ensures FilteredNotes(FilteredNotes(notes, term), term) == FilteredNotes(notes, term)
  {
    FilterAll(FilteredNotes(notes, term), (n: Note) => NoteMatches(n, term));
  }

  /** `raw.split(",").map(tag => tag.trim()).filter(Boolean)`. */
  function ParseTags(raw: string): seq<string>
  {
    Filter(Map(Split(raw, ','), Trim), (t: string) => t != "")
  }

  /** No parsed tag is empty, has surrounding whitespace or contains a comma. */
  lemma ParsedTagsWellFormed(raw: string)
    ensures forall t | t in ParseTags(raw) ::
      t != "" && !IsSpace(t[0]) && !IsSpace(t[|t| - 1]) && ',' !in t
  {
    var pieces := Split(raw, ',');
    var trimmed := Map(pieces, Trim);
    forall t | t in ParseTags(raw) ensures t != "" && !IsSpace(t[0]) && !IsSpace(t[|t| - 1]) && ',' !in t {
      var i :| 0 <= i < |trimmed| && trimmed[i] == t;
      TrimIsInfix(pieces[i]);
      var p, q :| pieces[i] == p + t + q && IsBlank(p) && IsBlank(q);
      assert forall c | c in t :: c in pieces[i];
    }
  }

  /** The tags are exactly the trimmed comma-separated pieces that are not blank, in order, a repeated tag as often as it is written. */
  lemma ParsedTagsComplete(raw: string)
    ensures forall k | 0 <= k < |Split(raw, ',')| && !IsBlank(Split(raw, ',')[k]) :: Trim(Split(raw, ',')[k]) in ParseTags(raw)
    ensures forall t | t in ParseTags(raw) :: exists k :: 0 <= k < |Split(raw, ',')| && !IsBlank(Split(raw, ',')[k]) && Trim(Split(raw, ',')[k]) == t
    ensures IsSubsequence(ParseTags(raw), Map(Split(raw, ','), Trim))
    ensures forall t | t != "" :: multiset(ParseTags(raw))[t] == multiset(Map(Split(raw, ','), Trim))[t]
  {
    var pieces := Split(raw, ',');
    var trimmed := Map(pieces, Trim);
    forall t | t != "" ensures multiset(ParseTags(raw))[t] == multiset(trimmed)[t] {
      FilterCount(trimmed, (t: string) => t != "", t);
    }
    forall k | 0 <= k < |pieces| && !IsBlank(pieces[k]) ensures Trim(pieces[k]) in ParseTags(raw) {
      assert trimmed[k] in trimmed;
    }
    FilterIsSubsequence(trimmed, (t: string) => t != "");
  }

  /** `toggleStar`: flip `isStarred` on every note with this id. */
  function ToggledStar(notes: seq<Note>, id: string): (r: seq<Note>)
    ensures |r| == |notes|
    ensures forall i :: 0 <= i < |notes| && notes[i].id != id ==> r[i] == notes[i]
    ensures forall i :: 0 <= i < |notes| && notes[i].id == id ==> r[i] == notes[i].(isStarred := !notes[i].isStarred)
  {
    Map(notes, (n: Note) => if n.id == id then n.(isStarred := !n.isStarred) else n)
  }

  /** Toggling the same note's star twice restores the list. */
  lemma ToggleStarInvolution(notes: seq<Note>, id: string)
    ensures ToggledStar(ToggledStar(notes, id), id) == notes
  {
    var once := ToggledStar(notes, id);
    var twice := ToggledStar(once, id);
    forall i | 0 <= i < |notes| ensures twice[i] == notes[i] {
      if notes[i].id == id {
        assert once[i].id == id;
      }
    }
  }

  /** The note `createNote` builds from the draft. */
  function NewNote(draft: Draft, freshId: string, today: string): Note
  {
    Note(freshId, draft.title, draft.content, ParseTags(draft.tags), today, false, false)
  }

  /**
   * What `createNote` adds for this form: nothing when the title or the
   * content trims to the empty string, otherwise `NewNote`.
   */
  function Created(draft: Draft, freshId: string, today: string): Option<Note>
  {
    if Trim(draft.title) == "" || Trim(draft.content) == "" then None
    else Some(NewNote(draft, freshId, today))
  }

  /**
   * A note is created exactly when neither the title nor the content is
   * blank; it carries the new id, today's date, the form's title and content
   * and its parsed tags, and is neither starred nor AI-generated.
   */
  lemma CreatedSpec(draft: Draft, freshId: string, today: string)
    ensures Created(draft, freshId, today) == None <==> IsBlank(draft.title) || IsBlank(draft.content)
    ensures Created(draft, freshId, today) != None ==>
      var n := Created(draft, freshId, today).value;
      && n.id == freshId && n.createdAt == today
      && n.title == draft.title && n.content == draft.content
      && n.tags == ParseTags(draft.tags)
      && !n.isStarred && !n.aiGenerated
  {
  }

  /** The Notes page's state. */
  class NotesBoard {
    var notes: seq<Note>
    var searchTerm: string
    var draft: Draft
    var isCreating: bool
    var selectedNote: Option<Note>

    constructor (notes: seq<Note>)
      ensures this.notes == notes && searchTerm == "" && draft == EmptyDraft
      ensures !isCreating && selectedNote == None
    {
      this.notes := notes;
      searchTerm := "";
      draft := EmptyDraft;
      isCreating := false;
      selectedNote := None;
    }

    /** The notes the page lists for the current search term. */
    function Visible(): seq<Note>
      reads this
    {
      FilteredNotes(notes, searchTerm)
    }

    /**
     * `createNote`: the note `Created` builds from the form, if any, goes in
     * front of the others, the form is cleared and closed, and the new note is
     * selected; otherwise nothing changes.
     */
    method CreateNote(freshId: string, today: string)
      modifies this`notes, this`draft, this`isCreating, this`selectedNote
      ensures Created(old(draft), freshId, today) == None ==>
        notes == old(notes) && draft == old(draft) && isCreating == old(isCreating) && selectedNote == old(selectedNote)
      ensures Created(old(draft), freshId, today) != None ==>
        && notes == [Created(old(draft), freshId, today).value] + old(notes)
        && draft == EmptyDraft && !isCreating && selectedNote == Created(old(draft), freshId, today)
    {
      var created := Created(draft, freshId, today);
      if created != None {
        notes := [created.value] + notes;
        draft := EmptyDraft;
        isCreating := false;
        selectedNote := created;
      }
    }

    /** `toggleStar`. */
    method ToggleStar(id: string)
      modifies this`notes
      ensures notes == ToggledStar(old(notes), id)
    {
      notes := ToggledStar(notes, id);
    }

    /** Typing in the search box: only the term changes. */
    method SetSearchTerm(term: string)
      modifies this`searchTerm
      ensures searchTerm == term
    {
      searchTerm := term;
    }

    /** New Note opens the form, Cancel closes it; the draft is kept either way. */
    method SetCreating(open: bool)
      modifies this`isCreating
      ensures isCreating == open
    {
      isCreating := open;
    }

    /** Typing in the title, tags and content fields of the form. */
    method EditDraft(title: string, content: string, tags: string)
      modifies this`draft
      ensures draft == Draft(title, content, tags)
    {
      draft := Draft(title, content, tags);
    }

    /** Clicking a note in the list selects it. */
    method SelectNote(note: Note)
      modifies this`selectedNote
      ensures selectedNote == Some(note)
    {
      selectedNote := Some(note);
    }
  }
}
