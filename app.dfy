/** The application shell (App.tsx): the list of selected programs and the
    operations that update it, and the top-level state around it (catalog
    loading, the error banner, the submitted application's id, the chosen
    career goal). Each list update is a function from the old list to the
    new one; the class `AppState` holds the state and applies them. */
module App {
  import opened Wrappers
  import opened Catalog
  import Sequences

  /** How the source identifies a selected program: its name together with
      its institution's name. */
  datatype ProgramKey = ProgramKey(name: string, institutionName: string)

  function KeyOf(p: SelectedProgram): ProgramKey {
    ProgramKey(p.program.name, p.institutionName)
  }

  /** Some entry of `list` has key `k`. */
  predicate IsSelected(list: seq<SelectedProgram>, k: ProgramKey) {
    exists i :: 0 <= i < |list| && KeyOf(list[i]) == k
  }

  /** No two entries share a key. */
  predicate UniqueKeys(list: seq<SelectedProgram>) {
    forall i, j :: 0 <= i < j < |list| ==> KeyOf(list[i]) != KeyOf(list[j])
  }

  /** `list` without the entries whose key is `k`, the others in their order. */
  function RemoveKey(list: seq<SelectedProgram>, k: ProgramKey): (r: seq<SelectedProgram>)
    ensures |r| <= |list|
    ensures !IsSelected(r, k)
    ensures forall i :: 0 <= i < |r| ==> r[i] in list
    ensures forall i :: 0 <= i < |list| && KeyOf(list[i]) != k ==> list[i] in r
  {
    if list == [] then []
    else
      var rest := RemoveKey(list[1..], k);
      assert forall i :: 1 <= i < |list| ==> list[i] == list[1..][i - 1];
      if KeyOf(list[0]) == k then rest else [list[0]] + rest
  }

  /** Removing a key no entry has changes nothing. */
  lemma {:induction false} RemoveKeyAbsent(list: seq<SelectedProgram>, k: ProgramKey)
    requires !IsSelected(list, k)
    ensures RemoveKey(list, k) == list
  {
    if list != [] {
      assert KeyOf(list[0]) != k;
      assert !IsSelected(list[1..], k) by {
        forall i | 0 <= i < |list| - 1 ensures KeyOf(list[1..][i]) != k {
          assert list[1..][i] == list[i + 1];
        }
      }
      RemoveKeyAbsent(list[1..], k);
      assert list == [list[0]] + list[1..];
    }
  }

  /** Removing the key of an entry that was just appended undoes the append. */
  lemma {:induction false} RemoveKeyAppended(list: seq<SelectedProgram>, e: SelectedProgram)
    requires !IsSelected(list, KeyOf(e))
    ensures RemoveKey(list + [e], KeyOf(e)) == list
  {
    var k := KeyOf(e);
    RemoveKeyConcat(list, [e], k);
    RemoveKeyAbsent(list, k);
    assert RemoveKey([e], k) == RemoveKey([], k);
  }

  /** The filter keeps order: filtering a concatenation filters each part. */
  lemma {:induction false} RemoveKeyConcat(a: seq<SelectedProgram>, b: seq<SelectedProgram>, k: ProgramKey)
    ensures RemoveKey(a + b, k) == RemoveKey(a, k) + RemoveKey(b, k)
  {
    if a == [] {
      assert a + b == b;
    } else {
      Sequences.ConsConcat(a, b);
      RemoveKeyConcat(a[1..], b, k);
    }
  }

  /** Removing entries keeps the keys distinct. */
  lemma {:induction false} RemoveKeyUnique(list: seq<SelectedProgram>, k: ProgramKey)
    requires UniqueKeys(list)
    ensures UniqueKeys(RemoveKey(list, k))
  {
    if list != [] {
      assert UniqueKeys(list[1..]) by {
        forall i, j | 0 <= i < j < |list| - 1 ensures KeyOf(list[1..][i]) != KeyOf(list[1..][j]) {
          assert list[1..][i] == list[i + 1] && list[1..][j] == list[j + 1];
        }
      }
      RemoveKeyUnique(list[1..], k);
      var rest := RemoveKey(list[1..], k);
      if KeyOf(list[0]) != k {
        var r := [list[0]] + rest;
        forall j | 0 < j < |r| ensures KeyOf(r[0]) != KeyOf(r[j]) {
          assert r[j] == rest[j - 1] && rest[j - 1] in list[1..];
          var m :| 0 <= m < |list| - 1 && list[1..][m] == rest[j - 1];
          assert list[m + 1] == r[j];
        }
      }
    }
  }

  /** The first institution named `name`, as `Array.prototype.find` returns it. */
  function FindInstitution(institutions: seq<Institution>, name: string): (r: Option<Institution>)
    ensures r.None? <==> forall i :: 0 <= i < |institutions| ==> institutions[i].name != name
    ensures r.Some? ==>
      exists i :: 0 <= i < |institutions| && institutions[i] == r.value
        && institutions[i].name == name
        && forall j :: 0 <= j < i ==> institutions[j].name != name
  {
    if institutions == [] then None
    else if institutions[0].name == name then Some(institutions[0])
    else
      var r := FindInstitution(institutions[1..], name);
      assert forall i :: 1 <= i < |institutions| ==> institutions[i] == institutions[1..][i - 1];
      assert r.Some? ==>
        exists i :: 0 <= i < |institutions| - 1 && institutions[1..][i] == r.value
          && institutions[1..][i].name == name
          && forall j :: 0 <= j < i ==> institutions[1..][j].name != name;
      if r.Some? then
        var i :| 0 <= i < |institutions| - 1 && institutions[1..][i] == r.value
          && institutions[1..][i].name == name
          && forall j :: 0 <= j < i ==> institutions[1..][j].name != name;
        assert institutions[i + 1] == r.value;
        assert forall j :: 1 <= j < i + 1 ==> institutions[j] == institutions[1..][j - 1];
        r
      else r
  }

  /** The catalog application fee of the institution named `name`
      (`institution?.applicationFee || 0`): 0 when there is no such
      institution or it lists no fee. */
  function CatalogFee(institutions: seq<Institution>, name: string): (fee: int)
    ensures (forall i :: 0 <= i < |institutions| ==> institutions[i].name != name) ==> fee == 0
    ensures FindInstitution(institutions, name).Some? ==>
      fee == FindInstitution(institutions, name).value.applicationFee.GetOr(0)
  {
    match FindInstitution(institutions, name)
    case None => 0
    case Some(inst) => inst.applicationFee.GetOr(0)
  }

  /** The scholarships a newly added program starts with: the first one the
      program offers, if it offers any. */
  function DefaultScholarships(p: Program): (r: seq<Scholarship>)
    ensures |r| <= 1
    ensures r == [] <==> (p.scholarships.None? || p.scholarships.value == [])
    ensures r != [] ==> r[0] == p.scholarships.value[0]
  {
    if p.scholarships.Some? && |p.scholarships.value| > 0 then [p.scholarships.value[0]] else []
  }

  /** The entry a program enters the list as. */
  function NewEntry(institutions: seq<Institution>, p: SelectedProgram): (e: SelectedProgram)
    ensures KeyOf(e) == KeyOf(p) && e.program == p.program && e.editedCost == p.editedCost
    ensures e.universityApplicationFee == Some(CatalogFee(institutions, p.institutionName))
    ensures e.selectedScholarships == Some(DefaultScholarships(p.program))
  {
    p.(universityApplicationFee := Some(CatalogFee(institutions, p.institutionName)),
       selectedScholarships := Some(DefaultScholarships(p.program)))
  }

  /** Adds a program that is not selected, removes one that is. */
  function ToggleProgram(list: seq<SelectedProgram>, institutions: seq<Institution>, p: SelectedProgram)
    : (r: seq<SelectedProgram>)
    ensures IsSelected(r, KeyOf(p)) <==> !IsSelected(list, KeyOf(p))
    ensures forall k :: k != KeyOf(p) ==> (IsSelected(r, k) <==> IsSelected(list, k))
    ensures UniqueKeys(list) ==> UniqueKeys(r)
    ensures !IsSelected(list, KeyOf(p)) ==> r == list + [NewEntry(institutions, p)]
    ensures IsSelected(list, KeyOf(p)) ==> |r| < |list| && forall i :: 0 <= i < |r| ==> r[i] in list
    ensures IsSelected(list, KeyOf(p)) ==> r == RemoveKey(list, KeyOf(p))
  {
    var key := KeyOf(p);
    if IsSelected(list, key) then
      var r := RemoveKey(list, key);
      assert forall k :: k != key && IsSelected(list, k) ==> IsSelected(r, k) by {
        forall k | k != key && IsSelected(list, k) ensures IsSelected(r, k) {
          var i :| 0 <= i < |list| && KeyOf(list[i]) == k;
          assert list[i] in r;
          var j :| 0 <= j < |r| && r[j] == list[i];
        }
      }
      assert forall k :: IsSelected(r, k) ==> IsSelected(list, k) by {
        forall k | IsSelected(r, k) ensures IsSelected(list, k) {
          var j :| 0 <= j < |r| && KeyOf(r[j]) == k;
          assert r[j] in list;
          var i :| 0 <= i < |list| && list[i] == r[j];
        }
      }
      assert UniqueKeys(list) ==> UniqueKeys(r) by {
        if UniqueKeys(list) { RemoveKeyUnique(list, key); }
      }
      RemoveKeyShrinks(list, key);
      r
    else
      var r := list + [NewEntry(institutions, p)];
      assert r[|list|] == NewEntry(institutions, p);
      assert forall i :: 0 <= i < |list| ==> r[i] == list[i];
      r
  }

  /** Removing a key that is present drops at least one entry. */
  lemma {:induction false} RemoveKeyShrinks(list: seq<SelectedProgram>, k: ProgramKey)
    requires IsSelected(list, k)
    ensures |RemoveKey(list, k)| < |list|
  {
    if KeyOf(list[0]) != k {
      var i :| 0 <= i < |list| && KeyOf(list[i]) == k;
      assert list[1..][i - 1] == list[i];
      RemoveKeyShrinks(list[1..], k);
    }
  }

  /** Adding a program and then toggling it again restores the list. */
  lemma ToggleProgramTwice(list: seq<SelectedProgram>, institutions: seq<Institution>,
                           p: SelectedProgram, q: SelectedProgram)
    requires !IsSelected(list, KeyOf(p)) && KeyOf(q) == KeyOf(p)
    ensures ToggleProgram(ToggleProgram(list, institutions, p), institutions, q) == list
  {
    RemoveKeyAppended(list, NewEntry(institutions, p));
  }

  /** All entries of one institution carry the same university fee. */
  predicate FeesShared(list: seq<SelectedProgram>) {
    forall i, j :: 0 <= i < |list| && 0 <= j < |list| && list[i].institutionName == list[j].institutionName
      ==> list[i].universityApplicationFee == list[j].universityApplicationFee
  }

  /** A newly added program takes the catalog fee even when programs of the
      same institution are already selected with an edited fee: adding the
      Mechanical Engineering program of NUST next to its Information
      Technology program whose fee was edited to 7000 leaves the two with
      different fees. */
  lemma ToggleProgramMayBreakFeeSharing()
    ensures var list := [SelectedProgram(InformationTechnology, "NUST", Some([]), Some(7000), None)];
      var r := ToggleProgram(list, [Nust], SelectedProgram(MechanicalEngineering, "NUST", None, None, None));
      FeesShared(list) && !FeesShared(r)
  {
    var list := [SelectedProgram(InformationTechnology, "NUST", Some([]), Some(7000), None)];
    var p := SelectedProgram(MechanicalEngineering, "NUST", None, None, None);
    assert KeyOf(list[0]) != KeyOf(p);
    assert FindInstitution([Nust], "NUST") == Some(Nust);
    var r := ToggleProgram(list, [Nust], p);
    assert r == list + [NewEntry([Nust], p)];
    assert r[1].universityApplicationFee == Some(5000);
    assert r[0].institutionName == r[1].institutionName;
  }

  /** When every selected program of the institution carries its catalog
      fee, adding or removing one of its programs keeps the fees shared. */
  lemma ToggleProgramKeepsCatalogFees(list: seq<SelectedProgram>, institutions: seq<Institution>,
                                      p: SelectedProgram)
    requires FeesShared(list)
    requires forall i :: 0 <= i < |list| && list[i].institutionName == p.institutionName ==>
      list[i].universityApplicationFee == Some(CatalogFee(institutions, p.institutionName))
    ensures FeesShared(ToggleProgram(list, institutions, p))
  {
  }

  /** A scholarship list with `s` toggled by name: every scholarship named
      like `s` is removed if there is one, otherwise `s` is appended. */
  function ToggleByName(list: seq<Scholarship>, s: Scholarship): (r: seq<Scholarship>)
    ensures (exists i :: 0 <= i < |r| && r[i].name == s.name)
      <==> !(exists i :: 0 <= i < |list| && list[i].name == s.name)
    ensures forall t: Scholarship :: t.name != s.name ==> (t in r <==> t in list)
    ensures !(exists i :: 0 <= i < |list| && list[i].name == s.name) ==> r == list + [s]
    ensures (exists i :: 0 <= i < |list| && list[i].name == s.name) ==> r == RemoveName(list, s.name)
  {
    if exists i :: 0 <= i < |list| && list[i].name == s.name then
      var r := RemoveName(list, s.name);
      assert forall i :: 0 <= i < |r| ==> r[i].name != s.name;
      r
    else
      var r := list + [s];
      assert r[|list|] == s;
      r
  }

  /** The scholarships without those named `name`, the rest in order. */
  function RemoveName(list: seq<Scholarship>, name: string): (r: seq<Scholarship>)
    ensures forall i :: 0 <= i < |r| ==> r[i].name != name
    ensures forall t: Scholarship :: t in r <==> t in list && t.name != name
  {
    if list == [] then []
    else if list[0].name == name then RemoveName(list[1..], name)
    else [list[0]] + RemoveName(list[1..], name)
  }

  /** On a list without the name, the filter changes nothing. */
  lemma {:induction false} RemoveNameAbsent(list: seq<Scholarship>, name: string)
    requires forall i :: 0 <= i < |list| ==> list[i].name != name
    ensures RemoveName(list, name) == list
  {
    if list != [] {
      assert forall i :: 0 <= i < |list| - 1 ==> list[1..][i] == list[i + 1];
      RemoveNameAbsent(list[1..], name);
      assert list == [list[0]] + list[1..];
    }
  }

  /** Selecting a scholarship and then unselecting it restores the list. */
  lemma ToggleByNameTwice(list: seq<Scholarship>, s: Scholarship)
    requires forall i :: 0 <= i < |list| ==> list[i].name != s.name
    ensures ToggleByName(ToggleByName(list, s), s) == list
  {
    var r := list + [s];
    assert r[|list|].name == s.name;
    RemoveNameAppended(list, s);
  }

  lemma {:induction false} RemoveNameAppended(list: seq<Scholarship>, s: Scholarship)
    requires forall i :: 0 <= i < |list| ==> list[i].name != s.name
    ensures RemoveName(list + [s], s.name) == list
  {
    RemoveNameConcat(list, [s], s.name);
    RemoveNameAbsent(list, s.name);
    assert RemoveName([s], s.name) == RemoveName([], s.name);
  }

  /** The filter keeps order: filtering a concatenation filters each part. */
  lemma {:induction false} RemoveNameConcat(a: seq<Scholarship>, b: seq<Scholarship>, name: string)
    ensures RemoveName(a + b, name) == RemoveName(a, name) + RemoveName(b, name)
  {
    if a == [] {
      assert a + b == b;
    } else {
      Sequences.ConsConcat(a, b);
      RemoveNameConcat(a[1..], b, name);
    }
  }

  /** The list with the scholarship toggled on the entry keyed `k`
      (an entry without a scholarship list is treated as having none). */
  function ToggleScholarship(list: seq<SelectedProgram>, k: ProgramKey, s: Scholarship)
    : (r: seq<SelectedProgram>)
    ensures |r| == |list|
    ensures forall i :: 0 <= i < |list| ==> KeyOf(r[i]) == KeyOf(list[i])
    ensures forall i :: 0 <= i < |list| && KeyOf(list[i]) != k ==> r[i] == list[i]
    ensures forall i :: 0 <= i < |list| && KeyOf(list[i]) == k ==>
      r[i] == list[i].(selectedScholarships := Some(ToggleByName(list[i].selectedScholarships.GetOr([]), s)))
  {
    seq(|list|, i requires 0 <= i < |list| =>
      if KeyOf(list[i]) == k
      then list[i].(selectedScholarships := Some(ToggleByName(list[i].selectedScholarships.GetOr([]), s)))
      else list[i])
  }

  /** Toggling a scholarship twice on a program that does not have it
      selected restores the list (up to a missing list becoming empty). */
  lemma ToggleScholarshipTwice(list: seq<SelectedProgram>, k: ProgramKey, s: Scholarship)
    requires forall i :: 0 <= i < |list| && KeyOf(list[i]) == k ==> list[i].selectedScholarships.Some?
    requires forall i, j ::
      0 <= i < |list| && KeyOf(list[i]) == k && 0 <= j < |list[i].selectedScholarships.value| ==>
      list[i].selectedScholarships.value[j].name != s.name
    ensures ToggleScholarship(ToggleScholarship(list, k, s), k, s) == list
  {
    var r := ToggleScholarship(ToggleScholarship(list, k, s), k, s);
    forall i | 0 <= i < |list| ensures r[i] == list[i] {
      if KeyOf(list[i]) == k {
        ToggleByNameTwice(list[i].selectedScholarships.value, s);
      }
    }
  }

  /** Which fee an edit in the cost summary changes: the university fee, or
      the fee of the named scholarship (`scholarshipName` is optional in
      the source's signature). */
  datatype FeeTarget = UniversityFee | ScholarshipFee(scholarshipName: Option<string>)

  /** The university fee set to `fee` on every entry of the institution. */
  function BroadcastUniversityFee(list: seq<SelectedProgram>, institutionName: string, fee: int)
    : (r: seq<SelectedProgram>)
    ensures |r| == |list|
    ensures forall i :: 0 <= i < |list| && list[i].institutionName == institutionName ==>
      r[i] == list[i].(universityApplicationFee := Some(fee))
    ensures forall i :: 0 <= i < |list| && list[i].institutionName != institutionName ==> r[i] == list[i]
  {
    seq(|list|, i requires 0 <= i < |list| =>
      if list[i].institutionName == institutionName
      then list[i].(universityApplicationFee := Some(fee))
      else list[i])
  }

  /** A broadcast keeps the entries of each institution on one shared fee. */
  lemma BroadcastKeepsFeesShared(list: seq<SelectedProgram>, institutionName: string, fee: int)
    requires FeesShared(list)
    ensures FeesShared(BroadcastUniversityFee(list, institutionName, fee))
  {
  }

  /** The fee of every scholarship named `name` set to `fee`; a missing
      name matches nothing. */
  function SetFeeByName(list: seq<Scholarship>, name: Option<string>, fee: int): (r: seq<Scholarship>)
    ensures |r| == |list|
    ensures forall i :: 0 <= i < |list| ==> r[i].name == list[i].name
    ensures forall i :: 0 <= i < |list| && name == Some(list[i].name) ==> r[i].applicationFee == Some(fee)
    ensures forall i :: 0 <= i < |list| && name != Some(list[i].name) ==> r[i] == list[i]
  {
    seq(|list|, i requires 0 <= i < |list| =>
      if name == Some(list[i].name) then list[i].(applicationFee := Some(fee)) else list[i])
  }

  /** The scholarship fee changed on the entry keyed `k` only; an entry
      without a scholarship list keeps none. */
  function SetScholarshipFee(list: seq<SelectedProgram>, k: ProgramKey, name: Option<string>, fee: int)
    : (r: seq<SelectedProgram>)
    ensures |r| == |list|
    ensures forall i :: 0 <= i < |list| && KeyOf(list[i]) != k ==> r[i] == list[i]
    ensures forall i :: 0 <= i < |list| && KeyOf(list[i]) == k ==>
      r[i] == list[i].(selectedScholarships :=
        match list[i].selectedScholarships
        case None => None
        case Some(ss) => Some(SetFeeByName(ss, name, fee)))
  {
    seq(|list|, i requires 0 <= i < |list| =>
      if KeyOf(list[i]) == k
      then list[i].(selectedScholarships :=
        match list[i].selectedScholarships
        case None => None
        case Some(ss) => Some(SetFeeByName(ss, name, fee)))
      else list[i])
  }

  /** A fee edit: the university fee goes to every program of the
      identified program's institution, a scholarship fee only to the
      identified program. */
  function ChangeFee(list: seq<SelectedProgram>, k: ProgramKey, target: FeeTarget, fee: int)
    : (r: seq<SelectedProgram>)
    ensures |r| == |list|
    ensures forall i :: 0 <= i < |list| ==> KeyOf(r[i]) == KeyOf(list[i]) && r[i].program == list[i].program
    ensures forall i :: 0 <= i < |list| ==> r[i].editedCost == list[i].editedCost
    ensures target.UniversityFee? ==> forall i :: 0 <= i < |list| ==>
      r[i].selectedScholarships == list[i].selectedScholarships
    ensures target.ScholarshipFee? ==> forall i :: 0 <= i < |list| ==>
      r[i].universityApplicationFee == list[i].universityApplicationFee
    ensures FeesShared(list) ==> FeesShared(r)
  {
    match target
    case UniversityFee => BroadcastUniversityFee(list, k.institutionName, fee)
    case ScholarshipFee(name) => SetScholarshipFee(list, k, name, fee)
  }

  /** The editable cost fields of a selected program. */
  datatype CostField = Tuition | LivingExpenses

  /** The cost shown and summarised for a selected program: its edited cost
      if it has one, its catalog cost otherwise. */
  function EffectiveCost(p: SelectedProgram): ProgramCost {
    p.editedCost.GetOr(p.program.cost)
  }

  function WithCostField(c: ProgramCost, field: CostField, value: string): (r: ProgramCost)
    ensures field.Tuition? ==> r.tuition == value && r.livingExpenses == c.livingExpenses
    ensures field.LivingExpenses? ==> r.livingExpenses == value && r.tuition == c.tuition
  {
    match field
    case Tuition => c.(tuition := value)
    case LivingExpenses => c.(livingExpenses := value)
  }

  /** One cost field of the entry keyed `k` edited: the entry's edited cost
      starts from its current effective cost. */
  function ChangeCost(list: seq<SelectedProgram>, k: ProgramKey, field: CostField, value: string)
    : (r: seq<SelectedProgram>)
    ensures |r| == |list|
    ensures forall i :: 0 <= i < |list| && KeyOf(list[i]) != k ==> r[i] == list[i]
    ensures forall i :: 0 <= i < |list| && KeyOf(list[i]) == k ==>
      r[i] == list[i].(editedCost := Some(WithCostField(EffectiveCost(list[i]), field, value)))
  {
    seq(|list|, i requires 0 <= i < |list| =>
      if KeyOf(list[i]) == k
      then list[i].(editedCost := Some(WithCostField(EffectiveCost(list[i]), field, value)))
      else list[i])
  }

  /** Editing the tuition and then the living expenses of a program gives
      it exactly those two values, while its catalog cost stays as it was. */
  lemma ChangeCostBothFields(list: seq<SelectedProgram>, k: ProgramKey, tuition: string, living: string)
    ensures var r := ChangeCost(ChangeCost(list, k, Tuition, tuition), k, LivingExpenses, living);
      forall i :: 0 <= i < |list| ==>
        r[i].program == list[i].program &&
        (KeyOf(list[i]) == k ==> EffectiveCost(r[i]) == ProgramCost(tuition, living)) &&
        (KeyOf(list[i]) != k ==> EffectiveCost(r[i]) == EffectiveCost(list[i]))
  {
  }

  /** `message || fallback`: a rejection's message, or the fallback when it
      has none. */
  function MessageOr(message: string, fallback: string): (r: string)
    ensures message != [] ==> r == message
    ensures message == [] ==> r == fallback
  {
    if message == [] then fallback else message
  }

  const FetchErrorFallback := "Failed to fetch university data. Please try again later."
  const SubmitErrorFallback := "Failed to submit application."

  /** The state of the application shell. */
  class AppState {
    var selectedPrograms: seq<SelectedProgram>
    var institutionsData: seq<Institution>
    var isLoading: bool
    var error: Option<string>
    var applicationId: Option<string>
    var careerGoalFilters: Option<CareerGoalFilters>

    /** The selection never holds a program twice. */
    ghost predicate Valid()
      reads this
    {
      UniqueKeys(selectedPrograms)
    }

    constructor()
      ensures Valid()
      ensures selectedPrograms == [] && institutionsData == [] && isLoading
      ensures error == None && applicationId == None && careerGoalFilters == None
    {
      selectedPrograms := [];
      institutionsData := [];
      isLoading := true;
      error := None;
      applicationId := None;
      careerGoalFilters := None;
    }

    /** The error banner replaces the programs section. */
    predicate ShowsProgramsSection()
      reads this
    {
      error.None?
    }

    /** The catalog load, given what `getInstitutions` settled to (a
        rejection carries its message, empty when it has none). */
    method FetchInstitutions(outcome: Result<seq<Institution>, string>)
      modifies this
      requires Valid()
      ensures Valid()
      ensures !isLoading
      ensures outcome.Ok? ==> institutionsData == outcome.value && error == None
      ensures ShowsProgramsSection() <==> outcome.Ok?
      ensures outcome.Err? ==>
        institutionsData == old(institutionsData) && error == Some(MessageOr(outcome.error, FetchErrorFallback))
      ensures selectedPrograms == old(selectedPrograms) && applicationId == old(applicationId)
      ensures careerGoalFilters == old(careerGoalFilters)
    {
      isLoading := true;
      error := None;
      match outcome {
        case Ok(data) => institutionsData := data;
        case Err(message) => error := Some(MessageOr(message, FetchErrorFallback));
      }
      isLoading := false;
    }

    method ToggleProgramSelection(p: SelectedProgram)
      modifies this
      requires Valid()
      ensures Valid()
      ensures selectedPrograms == ToggleProgram(old(selectedPrograms), institutionsData, p)
      ensures institutionsData == old(institutionsData) && isLoading == old(isLoading)
      ensures error == old(error) && applicationId == old(applicationId)
      ensures careerGoalFilters == old(careerGoalFilters)
    {
      selectedPrograms := ToggleProgram(selectedPrograms, institutionsData, p);
    }

    method ToggleScholarshipSelection(k: ProgramKey, s: Scholarship)
      modifies this
      requires Valid()
      ensures Valid()
      ensures selectedPrograms == ToggleScholarship(old(selectedPrograms), k, s)
      ensures institutionsData == old(institutionsData) && isLoading == old(isLoading)
      ensures error == old(error) && applicationId == old(applicationId)
      ensures careerGoalFilters == old(careerGoalFilters)
    {
      selectedPrograms := ToggleScholarship(selectedPrograms, k, s);
    }

    method HandleFeeChange(k: ProgramKey, target: FeeTarget, fee: int)
      modifies this
      requires Valid()
      ensures Valid()
      ensures selectedPrograms == ChangeFee(old(selectedPrograms), k, target, fee)
      ensures institutionsData == old(institutionsData) && isLoading == old(isLoading)
      ensures error == old(error) && applicationId == old(applicationId)
      ensures careerGoalFilters == old(careerGoalFilters)
    {
      selectedPrograms := ChangeFee(selectedPrograms, k, target, fee);
    }

    method HandleCostChange(k: ProgramKey, field: CostField, value: string)
      modifies this
      requires Valid()
      ensures Valid()
      ensures selectedPrograms == ChangeCost(old(selectedPrograms), k, field, value)
      ensures institutionsData == old(institutionsData) && isLoading == old(isLoading)
      ensures error == old(error) && applicationId == old(applicationId)
      ensures careerGoalFilters == old(careerGoalFilters)
    {
      selectedPrograms := ChangeCost(selectedPrograms, k, field, value);
      assert forall i :: 0 <= i < |selectedPrograms| ==> KeyOf(selectedPrograms[i]) == KeyOf(old(selectedPrograms)[i]);
    }

    /** The submission, given what `postApplication` settled to: the new
        application's id, or a rejection's message. */
    method HandleApplicationSubmit(outcome: Result<string, string>)
      modifies this
      requires Valid()
      ensures Valid()
      ensures outcome.Ok? ==> applicationId == Some(outcome.value) && error == old(error)
      ensures outcome.Err? ==>
        applicationId == old(applicationId) && error == Some(MessageOr(outcome.error, SubmitErrorFallback))
      ensures outcome.Err? ==> !ShowsProgramsSection()
      ensures outcome.Ok? ==> ShowsProgramsSection() == old(ShowsProgramsSection())
      ensures selectedPrograms == old(selectedPrograms) && institutionsData == old(institutionsData)
      ensures isLoading == old(isLoading) && careerGoalFilters == old(careerGoalFilters)
    {
      match outcome {
        case Ok(id) => applicationId := Some(id);
        case Err(message) => error := Some(MessageOr(message, SubmitErrorFallback));
      }
    }

    /** Starting a new application forgets the submitted id and nothing
        else: the selected programs stay. */
    method StartNew()
      modifies this
      requires Valid()
      ensures Valid()
      ensures applicationId == None
      ensures selectedPrograms == old(selectedPrograms) && institutionsData == old(institutionsData)
      ensures isLoading == old(isLoading) && error == old(error)
      ensures careerGoalFilters == old(careerGoalFilters)
    {
      applicationId := None;
    }

    method SetCareerGoal(goal: string, location: string)
      modifies this
      requires Valid()
      ensures Valid()
      ensures careerGoalFilters == Some(CareerGoalFilters(goal, location))
      ensures selectedPrograms == old(selectedPrograms) && institutionsData == old(institutionsData)
      ensures isLoading == old(isLoading) && error == old(error) && applicationId == old(applicationId)
    {
      careerGoalFilters := Some(CareerGoalFilters(goal, location));
    }
  }
}
