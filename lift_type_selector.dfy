/**
 * The searchable lift-type dropdown: a case-insensitive substring filter over the catalogue,
 * the name shown for the selected id, and the open/search state the dropdown keeps.
 */
module LiftTypeSelector {
  import opened Wrappers
  import opened Strings
  import opened Seqs

  datatype LiftType = LiftType(id: string, name: string)

  /** The lower-cased name contains the lower-cased search term. */
  predicate MatchesSearch(liftType: LiftType, searchTerm: string) {
    Includes(ToLower(liftType.name), ToLower(searchTerm))
  }

  /**
   * `filteredLiftTypes`: exactly the lift types whose lower-cased name contains the lower-cased
   * term, in catalogue order and with their multiplicities.
   */
  function FilteredLiftTypes(liftTypes: seq<LiftType>, searchTerm: string): (r: seq<LiftType>)
    ensures IsSubsequence(r, liftTypes)
    ensures forall lt :: lt in r <==> lt in liftTypes && MatchesSearch(lt, searchTerm)
    ensures forall lt :: multiset(r)[lt] == if MatchesSearch(lt, searchTerm) then multiset(liftTypes)[lt] else 0
  {
    Filter(liftTypes, (lt: LiftType) => MatchesSearch(lt, searchTerm))
  }

  /** The filter ignores ASCII case on both sides. */
  lemma {:induction false} SearchIgnoresCase(liftTypes: seq<LiftType>, searchTerm: string)
    ensures FilteredLiftTypes(liftTypes, ToLower(searchTerm)) == FilteredLiftTypes(liftTypes, searchTerm)
  {
    ToLowerIdempotent(searchTerm);
    if liftTypes != [] {
      SearchIgnoresCase(liftTypes[1..], searchTerm);
    }
  }

  /** An empty search term keeps every lift type. */
  lemma EmptySearchKeepsAll(liftTypes: seq<LiftType>)
    ensures FilteredLiftTypes(liftTypes, "") == liftTypes
  {
    forall i | 0 <= i < |liftTypes| ensures MatchesSearch(liftTypes[i], "") {
      IncludesEmpty(ToLower(liftTypes[i].name));
    }
    FilterKeepsAll(liftTypes, (lt: LiftType) => MatchesSearch(lt, ""));
  }

  /**
   * `selectedLiftTypeName`: the name of the first lift type whose id is the selected id, or
   * the empty string when none has it.
   */
  function SelectedLiftTypeName(liftTypes: seq<LiftType>, selectedId: string): (r: string)
    ensures (forall i :: 0 <= i < |liftTypes| ==> liftTypes[i].id != selectedId) ==> r == ""
    ensures (exists i :: 0 <= i < |liftTypes| && liftTypes[i].id == selectedId) ==>
              exists i :: 0 <= i < |liftTypes| && liftTypes[i].id == selectedId && r == liftTypes[i].name
                          && forall j :: 0 <= j < i ==> liftTypes[j].id != selectedId
  {
    match FindIndex(liftTypes, (lt: LiftType) => lt.id == selectedId)
    case Some(i) => liftTypes[i].name
    case None => ""
  }

  /** The dropdown's own state; `reported` is every id it has passed to `onSelect`, oldest first. */
  class Dropdown {
    const liftTypes: seq<LiftType>
    const selectedLiftType: string
    var isOpen: bool
    var searchTerm: string
    var reported: seq<string>

    constructor (liftTypes: seq<LiftType>, selectedLiftType: string)
      ensures this.liftTypes == liftTypes && this.selectedLiftType == selectedLiftType
      ensures !isOpen && searchTerm == "" && reported == []
    {
      this.liftTypes := liftTypes;
      this.selectedLiftType := selectedLiftType;
      isOpen := false;
      searchTerm := "";
      reported := [];
    }

    /** The list the open dropdown shows. */
    function Shown(): seq<LiftType>
      reads this
    {
      FilteredLiftTypes(liftTypes, searchTerm)
    }

    /** The search box's `onChange`. */
    method Search(term: string)
      modifies this`searchTerm
      ensures searchTerm == term
    {
      searchTerm := term;
    }

    /** `handleSelect`: reports the chosen id, closes the dropdown and clears the search. */
    method HandleSelect(liftTypeId: string)
      modifies this`isOpen, this`searchTerm, this`reported
      ensures reported == old(reported) + [liftTypeId]
      ensures !isOpen && searchTerm == ""
    {
      reported := reported + [liftTypeId];
      isOpen := false;
      searchTerm := "";
    }

    /**
     * `toggleDropdown`: flips `isOpen`; opening clears the search, so an opened dropdown shows
     * the whole catalogue, while closing keeps the term.
     */
    method ToggleDropdown()
      modifies this`isOpen, this`searchTerm
      ensures isOpen == !old(isOpen)
      ensures searchTerm == if old(isOpen) then old(searchTerm) else ""
      ensures isOpen ==> Shown() == liftTypes
    {
      var wasOpen := isOpen;
      isOpen := !wasOpen;
      if !wasOpen {
        searchTerm := "";
        EmptySearchKeepsAll(liftTypes);
      }
    }

    /** `clearSelection`: reports the empty id and clears the search; the dropdown stays as it was. */
    method ClearSelection()
      modifies this`searchTerm, this`reported
      ensures reported == old(reported) + [""]
      ensures searchTerm == ""
    {
      reported := reported + [""];
      searchTerm := "";
    }
  }
}
