/** The catalog of partner institutions (components/Programs.tsx): the
    filters over it, the option lists the filters offer, and the way a
    chosen career goal sets the filters. */
module Programs {
  import opened Wrappers
  import opened Sequences
  import opened Strings
  import opened Catalog

  const All := "All"

  datatype ScholarshipFilter = AnyScholarship | WithScholarships

  /** The catalog filters; the string filters use `"All"` for no
      restriction. */
  datatype Filters = Filters(
    region: string, country: string, programType: ProgramTypeFilter,
    scholarship: ScholarshipFilter, tag: string)

  const InitialFilters := Filters(All, All, AllTypes, AnyScholarship, All)

  predicate RegionMatch(f: Filters, inst: Institution) {
    f.region == All || inst.region == f.region
  }

  /** The country filter matches any location that contains the country's
      name. */
  predicate CountryMatch(f: Filters, inst: Institution) {
    f.country == All || Contains(inst.location, f.country)
  }

  predicate TypeMatch(f: Filters, inst: Institution) {
    f.programType.AllTypes?
    || exists i :: 0 <= i < |inst.programs| && inst.programs[i].programType == f.programType.programType
  }

  predicate ScholarshipMatch(f: Filters, inst: Institution) {
    f.scholarship.AnyScholarship?
    || exists i :: 0 <= i < |inst.programs| && OffersScholarships(inst.programs[i])
  }

  /** Whether a program lists the tag. */
  predicate HasTag(p: Program, tag: string) {
    p.tags.Some? && tag in p.tags.value
  }

  predicate TagMatch(f: Filters, inst: Institution) {
    f.tag == All || exists i :: 0 <= i < |inst.programs| && HasTag(inst.programs[i], f.tag)
  }

  /** With an "Abroad" career goal and no region or country chosen, the
      institutions located in Pakistan are left out. */
  predicate AbroadExcluded(goal: Option<CareerGoalFilters>, f: Filters, inst: Institution) {
    goal.Some? && goal.value.location == "Abroad" && f.region == All && f.country == All
    && Contains(inst.location, "Pakistan")
  }

  /** Whether an institution is listed. */
  predicate Keep(goal: Option<CareerGoalFilters>, f: Filters, inst: Institution) {
    !AbroadExcluded(goal, f, inst)
    && RegionMatch(f, inst) && CountryMatch(f, inst) && TypeMatch(f, inst)
    && ScholarshipMatch(f, inst) && TagMatch(f, inst)
  }

  /** The institutions listed, in catalog order. */
  function FilteredInstitutions(insts: seq<Institution>, f: Filters, goal: Option<CareerGoalFilters>)
    : (r: seq<Institution>)
    ensures |r| <= |insts|
    ensures forall i :: 0 <= i < |r| ==> r[i] in insts && Keep(goal, f, r[i])
    ensures forall i :: 0 <= i < |insts| && Keep(goal, f, insts[i]) ==> insts[i] in r
  {
    if insts == [] then []
    else
      var rest := FilteredInstitutions(insts[1..], f, goal);
      assert forall i :: 1 <= i < |insts| ==> insts[i] == insts[1..][i - 1];
      if Keep(goal, f, insts[0]) then [insts[0]] + rest else rest
  }

  /** The filter keeps the catalog order: filtering a concatenation filters
      each part. */
  lemma {:induction false} FilteredInstitutionsAppend(a: seq<Institution>, b: seq<Institution>, f: Filters,
                                                      goal: Option<CareerGoalFilters>)
    ensures FilteredInstitutions(a + b, f, goal) == FilteredInstitutions(a, f, goal) + FilteredInstitutions(b, f, goal)
  {
    if a != [] {
      ConsConcat(a, b);
      FilteredInstitutionsAppend(a[1..], b, f, goal);
    } else {
      assert a + b == b;
    }
  }

  /** With no filter and no career goal, the whole catalog is listed. */
  lemma {:induction false} NoFiltersListsAll(insts: seq<Institution>)
    ensures FilteredInstitutions(insts, InitialFilters, None) == insts
  {
    if insts != [] {
      NoFiltersListsAll(insts[1..]);
      assert insts == [insts[0]] + insts[1..];
    }
  }

  /** With an "Abroad" goal and open region and country filters, no
      institution located in Pakistan is listed. */
  lemma AbroadListsNoPakistan(insts: seq<Institution>, f: Filters, goal: Option<CareerGoalFilters>)
    requires goal.Some? && goal.value.location == "Abroad" && f.region == All && f.country == All
    ensures forall i :: 0 <= i < |FilteredInstitutions(insts, f, goal)| ==>
      !Contains(FilteredInstitutions(insts, f, goal)[i].location, "Pakistan")
  {
  }

  /** An option list: `"All"` and then the distinct values, sorted. */
  function OptionList(values: seq<string>): (r: seq<string>)
    ensures |r| >= 1 && r[0] == All
    ensures Sorted(r[1..]) && NoDups(r[1..])
    ensures forall i :: 0 <= i < |values| ==> values[i] in r[1..]
    ensures forall i :: 1 <= i < |r| ==> r[i] in values
  {
    var d := Dedupe(values);
    var s := SortStrings(d);
    SortStringsSorted(d);
    SortStringsDistinct(d);
    SameMembers(d, s);
    assert ([All] + s)[1..] == s;
    [All] + s
  }

  /** Two sequences with the same multiset have the same members. */
  lemma SameMembers(a: seq<string>, b: seq<string>)
    requires multiset(a) == multiset(b)
    ensures forall i :: 0 <= i < |a| ==> a[i] in b
    ensures forall i :: 0 <= i < |b| ==> b[i] in a
  {
    forall i | 0 <= i < |a| ensures a[i] in b {
      assert a[i] in multiset(a);
    }
    forall i | 0 <= i < |b| ensures b[i] in a {
      assert b[i] in multiset(b);
    }
  }

  function RegionValues(insts: seq<Institution>): (r: seq<string>)
    ensures |r| == |insts| && forall i :: 0 <= i < |insts| ==> r[i] == insts[i].region
  {
    seq(|insts|, i requires 0 <= i < |insts| => insts[i].region)
  }

  /** The country of an institution: the text after the last `", "` of its
      location. */
  function Country(inst: Institution): string {
    LastSegment(inst.location)
  }

  function CountryValues(insts: seq<Institution>): (r: seq<string>)
    ensures |r| == |insts| && forall i :: 0 <= i < |insts| ==> r[i] == Country(insts[i])
  {
    seq(|insts|, i requires 0 <= i < |insts| => Country(insts[i]))
  }

  /** The tags of a program list, in order (a program without tags has
      none). */
  function ProgramTags(programs: seq<Program>): (r: seq<string>)
    ensures forall i, j :: (0 <= i < |programs| && programs[i].tags.Some? && 0 <= j < |programs[i].tags.value|
      ==> programs[i].tags.value[j] in r)
    ensures forall t :: t in r ==> exists i :: 0 <= i < |programs| && HasTag(programs[i], t)
  {
    if programs == [] then []
    else
      var rest := ProgramTags(programs[1..]);
      assert forall i :: 1 <= i < |programs| ==> programs[i] == programs[1..][i - 1];
      assert forall t :: t in rest ==> exists i :: 0 <= i < |programs| && HasTag(programs[i], t) by {
        forall t | t in rest ensures exists i :: 0 <= i < |programs| && HasTag(programs[i], t) {
          var i :| 0 <= i < |programs| - 1 && HasTag(programs[1..][i], t);
          assert HasTag(programs[i + 1], t);
        }
      }
      programs[0].tags.GetOr([]) + rest
  }

  /** Every tag of every program of every institution, in order. */
  function TagValues(insts: seq<Institution>): (r: seq<string>)
    ensures forall i :: 0 <= i < |insts| ==> forall t :: t in ProgramTags(insts[i].programs) ==> t in r
    ensures forall t :: t in r ==> exists i :: 0 <= i < |insts| && t in ProgramTags(insts[i].programs)
  {
    if insts == [] then []
    else
      var rest := TagValues(insts[1..]);
      assert forall i :: 1 <= i < |insts| ==> insts[i] == insts[1..][i - 1];
      assert forall t :: t in rest ==> exists i :: 0 <= i < |insts| && t in ProgramTags(insts[i].programs) by {
        forall t | t in rest ensures exists i :: 0 <= i < |insts| && t in ProgramTags(insts[i].programs) {
          var i :| 0 <= i < |insts| - 1 && t in ProgramTags(insts[1..][i].programs);
          assert insts[1..][i] == insts[i + 1];
        }
      }
      ProgramTags(insts[0].programs) + rest
  }

  function Regions(insts: seq<Institution>): seq<string> {
    OptionList(RegionValues(insts))
  }

  function Countries(insts: seq<Institution>): seq<string> {
    OptionList(CountryValues(insts))
  }

  function AllTags(insts: seq<Institution>): seq<string> {
    OptionList(TagValues(insts))
  }

  /** The region options are exactly the regions of the catalog. */
  lemma RegionsCoverCatalog(insts: seq<Institution>)
    ensures forall i :: 0 <= i < |insts| ==> insts[i].region in Regions(insts)[1..]
    ensures forall i :: 1 <= i < |Regions(insts)| ==>
      exists j :: 0 <= j < |insts| && insts[j].region == Regions(insts)[i]
  {
    var rv, r := RegionValues(insts), Regions(insts);
    forall i | 1 <= i < |r| ensures exists j :: 0 <= j < |insts| && insts[j].region == r[i] {
      var j :| 0 <= j < |rv| && rv[j] == r[i];
    }
  }

  /** The country options are exactly the countries of the catalog. */
  lemma CountriesCoverCatalog(insts: seq<Institution>)
    ensures forall i :: 0 <= i < |insts| ==> Country(insts[i]) in Countries(insts)[1..]
    ensures forall i :: 1 <= i < |Countries(insts)| ==>
      exists j :: 0 <= j < |insts| && Country(insts[j]) == Countries(insts)[i]
  {
    var cv := CountryValues(insts);
    var r := OptionList(cv);
    assert Countries(insts) == r;
    forall i | 1 <= i < |r| ensures exists j :: 0 <= j < |insts| && Country(insts[j]) == r[i] {
      assert r[i] in cv;
      var j :| 0 <= j < |cv| && cv[j] == r[i];
      assert Country(insts[j]) == r[i];
    }
  }

  /** Every tag of every program is offered, and every tag option is a tag
      of some program. */
  lemma TagsCoverCatalog(insts: seq<Institution>)
    ensures forall i, p, t :: (0 <= i < |insts| && 0 <= p < |insts[i].programs| && HasTag(insts[i].programs[p], t)
      ==> t in AllTags(insts)[1..])
    ensures forall i :: 1 <= i < |AllTags(insts)| ==>
      exists j, p :: 0 <= j < |insts| && 0 <= p < |insts[j].programs| && HasTag(insts[j].programs[p], AllTags(insts)[i])
  {
    var tv, r := TagValues(insts), AllTags(insts);
    forall i, p, t | 0 <= i < |insts| && 0 <= p < |insts[i].programs| && HasTag(insts[i].programs[p], t)
      ensures t in r[1..]
    {
      var tags := insts[i].programs[p].tags.value;
      var j :| 0 <= j < |tags| && tags[j] == t;
      assert t in ProgramTags(insts[i].programs);
      var k :| 0 <= k < |tv| && tv[k] == t;
    }
    forall i | 1 <= i < |r|
      ensures exists j, p :: 0 <= j < |insts| && 0 <= p < |insts[j].programs| && HasTag(insts[j].programs[p], r[i])
    {
      assert r[i] in tv;
      var j :| 0 <= j < |insts| && r[i] in ProgramTags(insts[j].programs);
      var p :| 0 <= p < |insts[j].programs| && HasTag(insts[j].programs[p], r[i]);
    }
  }

  /** The tag a career goal selects: the goal itself for the four goals
      that are tags, `"All"` otherwise. */
  function GoalTag(goal: string): (tag: string)
    ensures goal in ["Business", "STEM", "Sports", "Arts"] ==> tag == goal
    ensures goal !in ["Business", "STEM", "Sports", "Arts"] ==> tag == All
  {
    if goal in ["Business", "STEM", "Sports", "Arts"] then goal else All
  }

  /** The filters after a career goal is chosen: its tag, and Asia and
      Pakistan for "In Pakistan" or no region and country otherwise. */
  function ApplyGoal(f: Filters, g: CareerGoalFilters): (r: Filters)
    ensures r.tag == GoalTag(g.goal)
    ensures g.location == "In Pakistan" ==> r.region == "Asia" && r.country == "Pakistan"
    ensures g.location != "In Pakistan" ==> r.region == All && r.country == All
    ensures r.programType == f.programType && r.scholarship == f.scholarship
  {
    if g.location == "In Pakistan" then f.(tag := GoalTag(g.goal), region := "Asia", country := "Pakistan")
    else f.(tag := GoalTag(g.goal), region := All, country := All)
  }

  /** Choosing "In Pakistan" never lists an institution outside Asia or one
      whose location does not mention Pakistan. */
  lemma InPakistanListsOnlyPakistan(insts: seq<Institution>, f: Filters, g: CareerGoalFilters)
    requires g.location == "In Pakistan"
    ensures var r := FilteredInstitutions(insts, ApplyGoal(f, g), Some(g));
      forall i :: 0 <= i < |r| ==> r[i].region == "Asia" && Contains(r[i].location, "Pakistan")
  {
  }

  /** The state of the catalog section. */
  class ProgramsFilterState {
    var filters: Filters
    var selectedInstitution: Option<Institution>

    constructor()
      ensures filters == InitialFilters && selectedInstitution == None
    {
      filters := InitialFilters;
      selectedInstitution := None;
    }

    /** The career-goal effect; no goal changes nothing. */
    method ApplyCareerGoal(goal: Option<CareerGoalFilters>)
      modifies this
      ensures goal.None? ==> filters == old(filters)
      ensures goal.Some? ==> filters == ApplyGoal(old(filters), goal.value)
      ensures selectedInstitution == old(selectedInstitution)
    {
      if goal.Some? {
        filters := ApplyGoal(filters, goal.value);
      }
    }

    method SetRegion(region: string)
      modifies this
      ensures filters == old(filters).(region := region) && selectedInstitution == old(selectedInstitution)
    {
      filters := filters.(region := region);
    }

    method SetCountry(country: string)
      modifies this
      ensures filters == old(filters).(country := country) && selectedInstitution == old(selectedInstitution)
    {
      filters := filters.(country := country);
    }

    method SetType(t: ProgramTypeFilter)
      modifies this
      ensures filters == old(filters).(programType := t) && selectedInstitution == old(selectedInstitution)
    {
      filters := filters.(programType := t);
    }

    method SetScholarshipFilter(s: ScholarshipFilter)
      modifies this
      ensures filters == old(filters).(scholarship := s) && selectedInstitution == old(selectedInstitution)
    {
      filters := filters.(scholarship := s);
    }

    method SetTag(tag: string)
      modifies this
      ensures filters == old(filters).(tag := tag) && selectedInstitution == old(selectedInstitution)
    {
      filters := filters.(tag := tag);
    }

    method ViewDetails(inst: Institution)
      modifies this
      ensures selectedInstitution == Some(inst) && filters == old(filters)
    {
      selectedInstitution := Some(inst);
    }

    method CloseDetails()
      modifies this
      ensures selectedInstitution == None && filters == old(filters)
    {
      selectedInstitution := None;
    }
  }
}
