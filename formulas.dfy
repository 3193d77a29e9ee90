/**
 * The formula sheet: formulas filtered by a search term, a subject and a
 * difficulty; the list of subjects offered by the subject filter; starring;
 * and the Add Formula form.
 */
module Formulas {
  import opened Wrappers
  import opened Collections
  import opened Text

  datatype Difficulty = Basic | Intermediate | Advanced

  /** The difficulty as the string the filter compares against. */
  function DifficultyName(d: Difficulty): string
  {
    match d
    case Basic => "basic"
    case Intermediate => "intermediate"
    case Advanced => "advanced"
  }

  datatype Variable = Variable(symbol: string, meaning: string, unit: Option<string>)

  datatype Formula = Formula(
    id: string,
    name: string,
    formula: string,
    description: string,
    category: string,
    subject: string,
    difficulty: Difficulty,
    variables: seq<Variable>,
    examples: Option<seq<string>>,
    isStarred: bool,
    lastUsed: string)

  /** The Add Formula form. */
  datatype FormulaDraft = FormulaDraft(
    name: string,
    formula: string,
    description: string,
    category: string,
    subject: string,
    difficulty: Difficulty)

  const EmptyFormulaDraft: FormulaDraft := FormulaDraft("", "", "", "", "", Basic)

  /** The value of the subject and difficulty filters that lets everything through. */
  const All: string := "all"

  /** Category and subject given to a formula saved with those fields left empty. */
  const DefaultGroup: string := "General"

  /** Case-insensitive substring match on name, formula or description. */
  predicate MatchesSearch(f: Formula, term: string) {
    || Includes(Lower(f.name), Lower(term))
    || Includes(Lower(f.formula), Lower(term))
    || Includes(Lower(f.description), Lower(term))
  }

  /** The three tests of `filteredFormulas`, all of which must pass. */
  predicate FormulaMatches(f: Formula, term: string, subject: string, difficulty: string) {
    && MatchesSearch(f, term)
    && (subject == All || f.subject == subject)
    && (difficulty == All || DifficultyName(f.difficulty) == difficulty)
  }

  /** `filteredFormulas`. */
  function FilteredFormulas(formulas: seq<Formula>, term: string, subject: string, difficulty: string): seq<Formula>
  {
    Filter(formulas, (f: Formula) => FormulaMatches(f, term, subject, difficulty))
  }

  /** The filter keeps exactly the formulas that pass all three tests, in order. */
  lemma FilterSpec(formulas: seq<Formula>, term: string, subject: string, difficulty: string)
    ensures forall f | f in FilteredFormulas(formulas, term, subject, difficulty) ::
      f in formulas && MatchesSearch(f, term)
      && (subject == All || f.subject == subject)
      && (difficulty == All || DifficultyName(f.difficulty) == difficulty)
    ensures forall f | f in formulas && FormulaMatches(f, term, subject, difficulty) ::
      f in FilteredFormulas(formulas, term, subject, difficulty)
    ensures IsSubsequence(FilteredFormulas(formulas, term, subject, difficulty), formulas)
  {
    FilterIsSubsequence(formulas, (f: Formula) => FormulaMatches(f, term, subject, difficulty));
  }

  /** No search term, all subjects and all difficulties: every formula, in order. */
  lemma DefaultFilterKeepsAll(formulas: seq<Formula>)
    ensures FilteredFormulas(formulas, "", All, All) == formulas
  {
    forall f | f in formulas ensures FormulaMatches(f, "", All, All) {
      IncludesEmpty(Lower(f.name));
    }
    FilterAll(formulas, (f: Formula) => FormulaMatches(f, "", All, All));
  }

  /** `Array.from(new Set(formulas.map(f => f.subject)))`. */
  function Subjects(formulas: seq<Formula>): seq<string>
  {
    Distinct(Map(formulas, (f: Formula) => f.subject))
  }

  /** Every subject of some formula is listed exactly once, in order of first occurrence. */
  lemma SubjectsSpec(formulas: seq<Formula>)
    ensures forall s | s in Subjects(formulas) :: exists i :: 0 <= i < |formulas| && formulas[i].subject == s
    ensures forall i | 0 <= i < |formulas| :: formulas[i].subject in Subjects(formulas)
    ensures NoDuplicates(Subjects(formulas))
    ensures var names := Map(formulas, (f: Formula) => f.subject);
      forall i, j | 0 <= i < j < |Subjects(formulas)| ::
        FirstIndex(names, Subjects(formulas)[i]) < FirstIndex(names, Subjects(formulas)[j])
  {
    var names := Map(formulas, (f: Formula) => f.subject);
    DistinctFirstOccurrenceOrder(names);
    forall i | 0 <= i < |formulas| ensures formulas[i].subject in Subjects(formulas) {
      assert names[i] in names;
    }
  }

  /** `toggleStar`: flip `isStarred` on the formulas with this id. */
  function ToggledStar(formulas: seq<Formula>, id: string): (r: seq<Formula>)
    ensures |r| == |formulas|
    ensures forall i :: 0 <= i < |formulas| && formulas[i].id != id ==> r[i] == formulas[i]
    ensures forall i :: 0 <= i < |formulas| && formulas[i].id == id ==> r[i] == formulas[i].(isStarred := !formulas[i].isStarred)
  {
    Map(formulas, (f: Formula) => if f.id == id then f.(isStarred := !f.isStarred) else f)
  }

  /** Toggling the same formula's star twice restores the list. */
  lemma ToggleStarInvolution(formulas: seq<Formula>, id: string)
    ensures ToggledStar(ToggledStar(formulas, id), id) == formulas
  {
    var once := ToggledStar(formulas, id);
    var twice := ToggledStar(once, id);
    forall i | 0 <= i < |formulas| ensures twice[i] == formulas[i] {
      if formulas[i].id == id {
        assert once[i].id == id;
      }
    }
  }

  /** JavaScript `value || "General"` on a string. */
  function OrDefault(value: string): (r: string)
    ensures r != ""
    ensures value != "" ==> r == value
    ensures value == "" ==> r == DefaultGroup
  {
    if value == "" then DefaultGroup else value
  }

  /** The formula the Save Formula button builds from the form. */
  function NewFormula(draft: FormulaDraft, freshId: string, today: string): Formula
  {
    Formula(freshId, draft.name, draft.formula, draft.description,
            OrDefault(draft.category), OrDefault(draft.subject), draft.difficulty,
            [], Some([]), false, today)
  }

  /** The formula page's state. */
  class FormulaBook {
    var formulas: seq<Formula>
    var searchTerm: string
    var selectedSubject: string
    var selectedDifficulty: string
    var selectedFormula: Option<Formula>
    var isAdding: bool
    var draft: FormulaDraft

    constructor (formulas: seq<Formula>)
      ensures this.formulas == formulas && searchTerm == ""
      ensures selectedSubject == All && selectedDifficulty == All
      ensures selectedFormula == None && !isAdding && draft == EmptyFormulaDraft
    {
      this.formulas := formulas;
      searchTerm := "";
      selectedSubject := All;
      selectedDifficulty := All;
      selectedFormula := None;
      isAdding := false;
      draft := EmptyFormulaDraft;
    }

    /** The formulas the page lists under the current filters. */
    function Visible(): seq<Formula>
      reads this
    {
      FilteredFormulas(formulas, searchTerm, selectedSubject, selectedDifficulty)
    }

    /** Typing in the search box: only the term changes. */
    method SetSearchTerm(term: string)
      modifies this`searchTerm
      ensures searchTerm == term
    {
      searchTerm := term;
    }

    /** The subject select: `All` or one subject. */
    method SelectSubject(subject: string)
      modifies this`selectedSubject
      ensures selectedSubject == subject
    {
      selectedSubject := subject;
    }

    /** The difficulty select: `All` or one difficulty's name. */
    method SelectDifficulty(difficulty: string)
      modifies this`selectedDifficulty
      ensures selectedDifficulty == difficulty
    {
      selectedDifficulty := difficulty;
    }

    /** Add Formula / Cancel: the form opens or closes; the draft is kept. */
    method ToggleAdding()
      modifies this`isAdding
      ensures isAdding == !old(isAdding)
    {
      isAdding := !isAdding;
    }

    /** Typing in the form's fields and choosing its difficulty. */
    method EditDraft(d: FormulaDraft)
      modifies this`draft
      ensures draft == d
    {
      draft := d;
    }

    /** Clicking a formula in the list selects it. */
    method SelectFormula(f: Formula)
      modifies this`selectedFormula
      ensures selectedFormula == Some(f)
    {
      selectedFormula := Some(f);
    }

    /** `toggleStar`. */
    method ToggleStar(id: string)
      modifies this`formulas
      ensures formulas == ToggledStar(old(formulas), id)
    {
      formulas := ToggledStar(formulas, id);
    }

    /**
     * The Save Formula handler. An empty name or formula (not trimmed) does
     * nothing. Otherwise the new formula goes in front: category and subject
     * default to "General", no variables, no examples, unstarred; the form is
     * cleared and closed and the new formula selected.
     */
    method SaveFormula(freshId: string, today: string)
      modifies this
      ensures searchTerm == old(searchTerm) && selectedSubject == old(selectedSubject)
      ensures selectedDifficulty == old(selectedDifficulty)
      ensures old(draft).name == "" || old(draft).formula == "" ==>
        formulas == old(formulas) && draft == old(draft) && isAdding == old(isAdding)
        && selectedFormula == old(selectedFormula)
      ensures old(draft).name != "" && old(draft).formula != "" ==>
        var f := NewFormula(old(draft), freshId, today);
        && formulas == [f] + old(formulas)
        && f.category == (if old(draft).category == "" then DefaultGroup else old(draft).category)
        && f.subject == (if old(draft).subject == "" then DefaultGroup else old(draft).subject)
        && !f.isStarred && f.variables == [] && f.examples == Some([])
        && !isAdding && draft == EmptyFormulaDraft && selectedFormula == Some(f)
    {
      if draft.name == "" || draft.formula == "" {
        return;
      }
      var f := NewFormula(draft, freshId, today);
      formulas := [f] + formulas;
      isAdding := false;
      draft := EmptyFormulaDraft;
      selectedFormula := Some(f);
    }
  }
}
