/** An institution's detail view (components/InstitutionModal.tsx): its
    program list filtered by type, the comparison list (at most three
    programs, distinct by name), and per program the selection state, the
    cost shown, the cost and scholarship edits (only possible on a
    selected program) and the details panel that opens when a program with
    scholarships is newly selected. */
module InstitutionModal {
  import opened Wrappers
  import opened Catalog
  import Sequences
  import App

  /** The institution's programs admitted by the type filter, in catalog
      order. */
  function FilteredPrograms(programs: seq<Program>, filter: ProgramTypeFilter): (r: seq<Program>)
    ensures |r| <= |programs|
    ensures forall i :: 0 <= i < |r| ==> TypeFilterAdmits(filter, r[i])
  {
    if programs == [] then []
    else
      var rest := FilteredPrograms(programs[1..], filter);
      if TypeFilterAdmits(filter, programs[0]) then [programs[0]] + rest else rest
  }

  /** The filter shows exactly the programs it admits. */
  lemma {:induction false} FilteredProgramsMembers(programs: seq<Program>, filter: ProgramTypeFilter)
    ensures forall p :: p in FilteredPrograms(programs, filter) <==> p in programs && TypeFilterAdmits(filter, p)
  {
    if programs != [] {
      FilteredProgramsMembers(programs[1..], filter);
      assert programs == [programs[0]] + programs[1..];
    }
  }

  /** With `'All'` every program shows, in order. */
  lemma {:induction false} FilteredProgramsAll(programs: seq<Program>)
    ensures FilteredPrograms(programs, AllTypes) == programs
  {
    if programs != [] {
      FilteredProgramsAll(programs[1..]);
      assert programs == [programs[0]] + programs[1..];
    }
  }

  /** The filter keeps the catalog order: filtering a concatenation filters
      each part. */
  lemma {:induction false} FilteredProgramsAppend(a: seq<Program>, b: seq<Program>, filter: ProgramTypeFilter)
    ensures FilteredPrograms(a + b, filter) == FilteredPrograms(a, filter) + FilteredPrograms(b, filter)
  {
    if a != [] {
      Sequences.ConsConcat(a, b);
      FilteredProgramsAppend(a[1..], b, filter);
    } else {
      assert a + b == b;
    }
  }

  /** The selected entry for a program of this institution, if any (the
      first with its name and the institution's name). */
  function FindSelected(selected: seq<SelectedProgram>, k: App.ProgramKey): (r: Option<SelectedProgram>)
    ensures r.None? <==> !App.IsSelected(selected, k)
    ensures r.Some? ==> exists i :: 0 <= i < |selected| && selected[i] == r.value && App.KeyOf(selected[i]) == k
  {
    if selected == [] then None
    else if App.KeyOf(selected[0]) == k then Some(selected[0])
    else
      var r := FindSelected(selected[1..], k);
      assert forall i :: 1 <= i < |selected| ==> selected[i] == selected[1..][i - 1];
      assert App.IsSelected(selected, k) ==> App.IsSelected(selected[1..], k) by {
        if App.IsSelected(selected, k) {
          var i :| 0 <= i < |selected| && App.KeyOf(selected[i]) == k;
          assert App.KeyOf(selected[1..][i - 1]) == k;
        }
      }
      r
  }

  /** The tuition shown for a program: the selected entry's edited tuition
      if there is one, the catalog tuition otherwise. */
  function DisplayedTuition(current: Option<SelectedProgram>, p: Program): string {
    if current.Some? && current.value.editedCost.Some? then current.value.editedCost.value.tuition
    else p.cost.tuition
  }

  function DisplayedLivingExpenses(current: Option<SelectedProgram>, p: Program): string {
    if current.Some? && current.value.editedCost.Some? then current.value.editedCost.value.livingExpenses
    else p.cost.livingExpenses
  }

  /** The values shown are the effective cost of the selected entry, and the
      catalog cost of a program that is not selected. */
  lemma DisplayedIsEffectiveCost(selected: seq<SelectedProgram>, k: App.ProgramKey, p: Program)
    requires forall i :: 0 <= i < |selected| && App.KeyOf(selected[i]) == k ==> selected[i].program == p
    ensures var current := FindSelected(selected, k);
      var shown := Catalog.ProgramCost(DisplayedTuition(current, p), DisplayedLivingExpenses(current, p));
      (current.Some? ==> shown == App.EffectiveCost(current.value))
      && (current.None? ==> shown == p.cost)
  {
  }

  /** After a cost edit, the edited program shows the new value. */
  lemma DisplayedAfterCostChange(selected: seq<SelectedProgram>, k: App.ProgramKey, field: App.CostField,
                                 value: string, p: Program)
    requires App.IsSelected(selected, k)
    ensures var current := FindSelected(App.ChangeCost(selected, k, field, value), k);
      (field.Tuition? ==> DisplayedTuition(current, p) == value)
      && (field.LivingExpenses? ==> DisplayedLivingExpenses(current, p) == value)
  {
    var r := App.ChangeCost(selected, k, field, value);
    assert App.IsSelected(r, k) by {
      var i :| 0 <= i < |selected| && App.KeyOf(selected[i]) == k;
      assert App.KeyOf(r[i]) == k;
    }
    var current := FindSelected(r, k);
    var j :| 0 <= j < |r| && r[j] == current.value && App.KeyOf(r[j]) == k;
    assert App.KeyOf(selected[j]) == k;
    var edited := App.WithCostField(App.EffectiveCost(selected[j]), field, value);
    assert current.value.editedCost == Some(edited);
  }

  /** Some program in the comparison list has the name. */
  predicate InCompareList(list: seq<Program>, name: string) {
    exists i :: 0 <= i < |list| && list[i].name == name
  }

  /** No two programs in the list share a name. */
  predicate UniqueNames(list: seq<Program>) {
    forall i, j :: 0 <= i < j < |list| ==> list[i].name != list[j].name
  }

  /** The comparison list is full for a program not already in it. */
  predicate CompareDisabled(list: seq<Program>, name: string) {
    !InCompareList(list, name) && |list| >= 3
  }

  /** The comparison view opens with at least two programs. */
  predicate CanOpenComparison(list: seq<Program>) {
    |list| >= 2
  }

  /** The list without the programs that have the name, the others in
      their order. */
  function RemoveProgramName(list: seq<Program>, name: string): (r: seq<Program>)
    ensures |r| <= |list|
    ensures !InCompareList(r, name)
    ensures forall i :: 0 <= i < |r| ==> r[i] in list
    ensures forall i :: 0 <= i < |list| && list[i].name != name ==> list[i] in r
  {
    if list == [] then []
    else
      var rest := RemoveProgramName(list[1..], name);
      assert forall i :: 1 <= i < |list| ==> list[i] == list[1..][i - 1];
      if list[0].name == name then rest else [list[0]] + rest
  }

  /** Removing a name that is listed makes the list strictly shorter. */
  lemma {:induction false} RemoveProgramNameShrinks(list: seq<Program>, name: string)
    requires InCompareList(list, name)
    ensures |RemoveProgramName(list, name)| < |list|
  {
    if list[0].name != name {
      assert InCompareList(list[1..], name) by {
        var i :| 0 <= i < |list| && list[i].name == name;
        assert list[1..][i - 1].name == name;
      }
      RemoveProgramNameShrinks(list[1..], name);
    }
  }

  /** Removing a name keeps the names in the list distinct. */
  lemma {:induction false} RemoveProgramNameKeepsUnique(list: seq<Program>, name: string)
    ensures UniqueNames(list) ==> UniqueNames(RemoveProgramName(list, name))
  {
    if list != [] && UniqueNames(list) {
      assert UniqueNames(list[1..]) by {
        forall i, j | 0 <= i < j < |list| - 1 ensures list[1..][i].name != list[1..][j].name {
          assert list[1..][i] == list[i + 1] && list[1..][j] == list[j + 1];
        }
      }
      RemoveProgramNameKeepsUnique(list[1..], name);
      var rest := RemoveProgramName(list[1..], name);
      if list[0].name != name {
        var r := [list[0]] + rest;
        assert RemoveProgramName(list, name) == r;
        forall j | 0 < j < |r| ensures r[0].name != r[j].name {
          assert r[j] == rest[j - 1];
          var m :| 0 <= m < |list[1..]| && list[1..][m] == r[j];
          assert list[m + 1] == r[j];
        }
      }
    }
  }

  /** The compare button of a program: a program in the list leaves it,
      one that is not joins it if the list has room. */
  function ToggleCompare(list: seq<Program>, p: Program): (r: seq<Program>)
    ensures InCompareList(list, p.name) ==> !InCompareList(r, p.name) && |r| < |list|
    ensures InCompareList(list, p.name) ==> r == RemoveProgramName(list, p.name)
    ensures !InCompareList(list, p.name) && |list| < 3 ==> r == list + [p]
    ensures CompareDisabled(list, p.name) ==> r == list
    ensures |list| <= 3 ==> |r| <= 3
    ensures UniqueNames(list) ==> UniqueNames(r)
  {
    if InCompareList(list, p.name) then
      RemoveProgramNameShrinks(list, p.name);
      RemoveProgramNameKeepsUnique(list, p.name);
      RemoveProgramName(list, p.name)
    else if |list| < 3 then
      var r := list + [p];
      assert UniqueNames(list) ==> UniqueNames(r) by {
        if UniqueNames(list) {
          forall i, j | 0 <= i < j < |r| ensures r[i].name != r[j].name {
            if j == |list| { assert r[i] == list[i]; }
          }
        }
      }
      r
    else list
  }

  /** A compare click changes the list exactly when the button is enabled. */
  lemma ToggleCompareChangesIffEnabled(list: seq<Program>, p: Program)
    ensures ToggleCompare(list, p) == list <==> CompareDisabled(list, p.name)
  {
    if !CompareDisabled(list, p.name) && !InCompareList(list, p.name) {
      assert |list + [p]| != |list|;
    }
  }

  /** Adding a program to the comparison and removing it again restores
      the list. */
  lemma ToggleCompareTwice(list: seq<Program>, p: Program)
    requires !InCompareList(list, p.name) && |list| < 3
    ensures ToggleCompare(ToggleCompare(list, p), p) == list
  {
    var r := list + [p];
    assert r[|list|].name == p.name;
    RemoveProgramNameAppended(list, p);
  }

  lemma {:induction false} RemoveProgramNameAppended(list: seq<Program>, p: Program)
    requires !InCompareList(list, p.name)
    ensures RemoveProgramName(list + [p], p.name) == list
  {
    RemoveProgramNameConcat(list, [p], p.name);
    RemoveProgramNameAbsent(list, p.name);
    assert RemoveProgramName([p], p.name) == RemoveProgramName([], p.name);
  }

  /** The filter keeps order: filtering a concatenation filters each part. */
  lemma {:induction false} RemoveProgramNameConcat(a: seq<Program>, b: seq<Program>, name: string)
    ensures RemoveProgramName(a + b, name) == RemoveProgramName(a, name) + RemoveProgramName(b, name)
  {
    if a == [] {
      assert a + b == b;
    } else {
      Sequences.ConsConcat(a, b);
      RemoveProgramNameConcat(a[1..], b, name);
    }
  }

  /** Removing a name no listed program has changes nothing. */
  lemma {:induction false} RemoveProgramNameAbsent(list: seq<Program>, name: string)
    requires !InCompareList(list, name)
    ensures RemoveProgramName(list, name) == list
  {
    if list != [] {
      assert !InCompareList(list[1..], name) by {
        forall i | 0 <= i < |list| - 1 ensures list[1..][i].name != name {
          assert list[1..][i] == list[i + 1];
        }
      }
      RemoveProgramNameAbsent(list[1..], name);
      assert list == [list[0]] + list[1..];
    }
  }

  /** One program's row in the list: its details panel and the selection
      state it last saw. */
  class ProgramListItem {
    const program: Program
    const institutionName: string
    var isExpanded: bool
    var prevIsSelected: bool

    constructor(program: Program, institutionName: string, isSelected: bool)
      ensures this.program == program && this.institutionName == institutionName
      ensures !isExpanded && prevIsSelected == isSelected
    {
      this.program := program;
      this.institutionName := institutionName;
      isExpanded := false;
      prevIsSelected := isSelected;
    }

    function Key(): App.ProgramKey
      reads this
    {
      App.ProgramKey(program.name, institutionName)
    }

    /** The effect run after a render with the program's selection state:
        the panel opens when the program has just become selected and has
        scholarships; the state seen is recorded every time. */
    method SelectionEffect(isSelected: bool)
      modifies this
      ensures isExpanded == (old(isExpanded) || (isSelected && !old(prevIsSelected) && OffersScholarships(program)))
      ensures prevIsSelected == isSelected
    {
      if isSelected && !prevIsSelected && OffersScholarships(program) {
        isExpanded := true;
      }
      prevIsSelected := isSelected;
    }

    method ToggleExpanded()
      modifies this
      ensures isExpanded == !old(isExpanded) && prevIsSelected == old(prevIsSelected)
    {
      isExpanded := !isExpanded;
    }

    /** The Add / Added button. */
    method ToggleProgramOf(app: App.AppState)
      modifies app
      requires app.Valid()
      ensures app.Valid()
      ensures app.selectedPrograms == App.ToggleProgram(old(app.selectedPrograms), app.institutionsData,
        SelectedProgram(program, institutionName, None, None, None))
      ensures app.institutionsData == old(app.institutionsData) && app.isLoading == old(app.isLoading)
      ensures app.error == old(app.error) && app.applicationId == old(app.applicationId)
      ensures app.careerGoalFilters == old(app.careerGoalFilters)
    {
      app.ToggleProgramSelection(SelectedProgram(program, institutionName, None, None, None));
    }

    /** A cost input; the inputs are disabled unless the program is
        selected. */
    method EditCost(app: App.AppState, field: App.CostField, value: string)
      modifies app
      requires app.Valid() && App.IsSelected(app.selectedPrograms, Key())
      ensures app.Valid()
      ensures app.selectedPrograms == App.ChangeCost(old(app.selectedPrograms), Key(), field, value)
      ensures app.institutionsData == old(app.institutionsData) && app.isLoading == old(app.isLoading)
      ensures app.error == old(app.error) && app.applicationId == old(app.applicationId)
      ensures app.careerGoalFilters == old(app.careerGoalFilters)
    {
      app.HandleCostChange(Key(), field, value);
    }

    /** A scholarship checkbox; disabled unless the program is selected. */
    method ToggleScholarshipOf(app: App.AppState, s: Scholarship)
      modifies app
      requires app.Valid() && App.IsSelected(app.selectedPrograms, Key())
      ensures app.Valid()
      ensures app.selectedPrograms == App.ToggleScholarship(old(app.selectedPrograms), Key(), s)
      ensures app.institutionsData == old(app.institutionsData) && app.isLoading == old(app.isLoading)
      ensures app.error == old(app.error) && app.applicationId == old(app.applicationId)
      ensures app.careerGoalFilters == old(app.careerGoalFilters)
    {
      app.ToggleScholarshipSelection(Key(), s);
    }
  }

  /** The state of the institution's view. */
  class InstitutionModalState {
    const institution: Institution
    var filter: ProgramTypeFilter
    var comparisonList: seq<Program>
    var isComparisonModalOpen: bool

    /** At most three programs are compared, distinct by name. */
    ghost predicate Valid()
      reads this
    {
      |comparisonList| <= 3 && UniqueNames(comparisonList)
    }

    constructor(institution: Institution)
      ensures Valid() && this.institution == institution
      ensures filter == AllTypes && comparisonList == [] && !isComparisonModalOpen
    {
      this.institution := institution;
      filter := AllTypes;
      comparisonList := [];
      isComparisonModalOpen := false;
    }

    method SetFilter(f: ProgramTypeFilter)
      modifies this
      requires Valid()
      ensures Valid() && filter == f
      ensures comparisonList == old(comparisonList) && isComparisonModalOpen == old(isComparisonModalOpen)
    {
      filter := f;
    }

    method HandleToggleCompare(p: Program)
      modifies this
      requires Valid()
      ensures Valid()
      ensures comparisonList == ToggleCompare(old(comparisonList), p)
      ensures filter == old(filter) && isComparisonModalOpen == old(isComparisonModalOpen)
    {
      comparisonList := ToggleCompare(comparisonList, p);
    }

    method HandleClearCompare()
      modifies this
      requires Valid()
      ensures Valid() && comparisonList == []
      ensures filter == old(filter) && isComparisonModalOpen == old(isComparisonModalOpen)
    {
      comparisonList := [];
    }

    /** The comparison button is disabled with fewer than two programs. */
    method OpenComparison()
      modifies this
      requires Valid() && CanOpenComparison(comparisonList)
      ensures Valid() && isComparisonModalOpen
      ensures filter == old(filter) && comparisonList == old(comparisonList)
    {
      isComparisonModalOpen := true;
    }
  }
}
