/** The application form (components/ApplicationForm.tsx): the completion
    progress, the cost summary, the support-service choice and its coupling
    to the visa choice, the document list with its simulated uploads, and
    the payload sent on confirmation. The derived values are functions; the
    form's own fields live in the class `ApplicationFormState`, whose
    methods are the form's handlers. Timer ticks, the settling of an upload
    and the browser's validity check are inputs of those methods. */
module ApplicationForm {
  import opened Wrappers
  import opened Sequences
  import opened Strings
  import opened Catalog
  import App

  const DocumentTypes: seq<string> :=
    ["Passport", "Visa", "CV", "Transcript", "Personal Statement", "Reference Letter(s)", "Other"]

  /** The support services on offer, with their costs in PKR. */
  const AvailableServices: seq<SupportService> := [
    SupportService("visa", "Visa Service",
      "Comprehensive guidance and support through your entire visa application process.", 50000),
    SupportService("testPrep", "Test Preparation", "Assistance for tests like IELTS, TOEFL, etc.", 35000),
    SupportService("airportPickup", "Airport Pickup",
      "Reliable pickup service from the airport to your accommodation.", 10000),
    SupportService("preDeparture", "Pre-departure Briefing",
      "A complete guide on what to expect and how to prepare for your new journey.", 7500)
  ]

  const VisaServiceId := "visa"
  const UploadFailedMessage := "Upload failed. Please try again."

  // ---------------------------------------------------------------------
  // Progress

  /** The email pattern `^\S+@\S+\.\S+$`: no white space anywhere, and some
      `@` and a later `.` with at least one character before the `@`,
      between the two, and after the `.`. Nothing stops a second `@`. */
  predicate EmailShape(e: string) {
    (forall i :: 0 <= i < |e| ==> !IsWhitespace(e[i]))
    && exists a, d :: 0 < a && a + 1 < d && d + 1 < |e| && e[a] == '@' && e[d] == '.'
  }

  lemma EmailShapeAccepts()
    ensures EmailShape("a@b.c")
  {
    var e := "a@b.c";
    assert e[1] == '@' && e[3] == '.';
  }

  /** The pattern lets through an address with two `@`. */
  lemma EmailShapeAcceptsTwoAts()
    ensures EmailShape("a@b@c.d")
  {
    var e := "a@b@c.d";
    assert e[1] == '@' && e[5] == '.';
  }

  lemma EmailShapeRejects()
    ensures !EmailShape("ab.c") && !EmailShape("a@b.") && !EmailShape("a b@c.d")
  {
    var e := "a b@c.d";
    assert IsWhitespace(e[1]);
  }

  /** The applicant section is complete: a name that is not blank and an
      email of the expected shape. */
  predicate ApplicantInfoComplete(fullName: string, email: string) {
    Trim(fullName) != [] && EmailShape(email)
  }

  function Count(b: bool): nat { if b then 1 else 0 }

  /** How many of the five sections are complete: applicant, programs,
      documents (some upload succeeded), accommodation, support services. */
  function CompletedSections(fullName: string, email: string, programs: seq<SelectedProgram>,
                             documents: seq<DocumentUpload>, accommodation: AccommodationPreference,
                             services: seq<string>): (k: nat)
    ensures k <= 5
  {
    Count(ApplicantInfoComplete(fullName, email))
    + Count(|programs| > 0)
    + Count(exists i :: 0 <= i < |documents| && documents[i].uploadState.status == UploadSuccess)
    + Count(accommodation != NoAccommodation)
    + Count(|services| > 0)
  }

  /** `Math.round(n / d)`: the nearest integer, halves rounded up. */
  function RoundDiv(n: int, d: int): int
    requires d > 0
  {
    (2 * n + d) / (2 * d)
  }

  /** `Math.round(k / 5 * 100)`: 20 percent per completed section. */
  function Progress(k: nat): (p: int)
    requires k <= 5
    ensures p == 20 * k
    ensures 0 <= p <= 100 && p % 20 == 0
  {
    RoundDiv(100 * k, 5)
  }

  /** Full marks exactly when every section is complete. */
  lemma ProgressFullIffAllSections(fullName: string, email: string, programs: seq<SelectedProgram>,
                                   documents: seq<DocumentUpload>, accommodation: AccommodationPreference,
                                   services: seq<string>)
    ensures Progress(CompletedSections(fullName, email, programs, documents, accommodation, services)) == 100
      <==> (ApplicantInfoComplete(fullName, email) && |programs| > 0
        && (exists i :: 0 <= i < |documents| && documents[i].uploadState.status == UploadSuccess)
        && accommodation != NoAccommodation && |services| > 0)
  {
  }

  // ---------------------------------------------------------------------
  // Cost summary

  /** `universityApplicationFee || 0`. */
  function UniversityFeeOf(p: SelectedProgram): int {
    p.universityApplicationFee.GetOr(0)
  }

  /** The institutions of the entries, in order and with repetitions. */
  function InstitutionNames(programs: seq<SelectedProgram>): (r: seq<string>)
    ensures |r| == |programs|
    ensures forall i :: 0 <= i < |programs| ==> r[i] == programs[i].institutionName
  {
    seq(|programs|, i requires 0 <= i < |programs| => programs[i].institutionName)
  }

  /** The fee of the last entry of the institution, or 0 if it has none. */
  function LastFee(programs: seq<SelectedProgram>, name: string): int {
    if programs == [] then 0
    else if programs[|programs| - 1].institutionName == name then UniversityFeeOf(programs[|programs| - 1])
    else LastFee(programs[..|programs| - 1], name)
  }

  /** Under fee sharing, the last entry's fee is the fee of any entry of the
      institution. */
  lemma {:induction false} LastFeeShared(programs: seq<SelectedProgram>, i: int)
    requires App.FeesShared(programs) && 0 <= i < |programs|
    ensures LastFee(programs, programs[i].institutionName) == UniversityFeeOf(programs[i])
  {
    var n := |programs| - 1;
    if programs[n].institutionName != programs[i].institutionName {
      var init := programs[..n];
      assert App.FeesShared(init);
      assert init[i] == programs[i];
      LastFeeShared(init, i);
    }
  }

  /** A JavaScript `Map` from institution to fee, as its entries in
      insertion order. */
  type FeeMap = seq<(string, int)>

  function Keys(m: FeeMap): (r: seq<string>)
    ensures |r| == |m| && forall i :: 0 <= i < |m| ==> r[i] == m[i].0
  {
    seq(|m|, i requires 0 <= i < |m| => m[i].0)
  }

  /** `map.set(k, v)`: an existing key keeps its place and takes the new
      value; a new key goes last. */
  function MapSet(m: FeeMap, k: string, v: int): (r: FeeMap)
    ensures k in Keys(m) ==> |r| == |m| && forall i :: 0 <= i < |m| ==>
      r[i] == if m[i].0 == k then (k, v) else m[i]
    ensures k !in Keys(m) ==> r == m + [(k, v)]
  {
    if k in Keys(m)
    then seq(|m|, i requires 0 <= i < |m| => if m[i].0 == k then (k, v) else m[i])
    else m + [(k, v)]
  }

  /** The property of the fee map after the entries `programs`: one pair
      per institution, in order of first appearance, holding the fee of
      the institution's last entry. */
  predicate FeeMapOf(m: FeeMap, programs: seq<SelectedProgram>) {
    var names := Dedupe(InstitutionNames(programs));
    |m| == |names| && forall i :: 0 <= i < |m| ==> m[i] == (names[i], LastFee(programs, names[i]))
  }

  /** Setting the last entry's institution to its fee extends the property
      from the earlier entries to all of them. */
  lemma FeeMapStep(programs: seq<SelectedProgram>, m0: FeeMap)
    requires programs != [] && FeeMapOf(m0, programs[..|programs| - 1])
    ensures FeeMapOf(MapSet(m0, programs[|programs| - 1].institutionName,
                            UniversityFeeOf(programs[|programs| - 1])), programs)
  {
    var n := |programs| - 1;
    var init, last := programs[..n], programs[n];
    var k := last.institutionName;
    var s := InstitutionNames(programs);
    assert s[..n] == InstitutionNames(init);
    var names0 := Dedupe(InstitutionNames(init));
    assert Keys(m0) == names0;
    assert Dedupe(s) == if k in names0 then names0 else names0 + [k];
    forall x ensures LastFee(programs, x) == if x == k then UniversityFeeOf(last) else LastFee(init, x) {
    }
  }

  /** The fee map built by setting each entry's institution to its fee, in
      list order. */
  function BuildFeeMap(programs: seq<SelectedProgram>): (m: FeeMap)
    ensures FeeMapOf(m, programs)
  {
    if programs == [] then []
    else
      var n := |programs| - 1;
      var m0 := BuildFeeMap(programs[..n]);
      FeeMapStep(programs, m0);
      MapSet(m0, programs[n].institutionName, UniversityFeeOf(programs[n]))
  }

  function SumValues(m: FeeMap): int {
    if m == [] then 0 else SumValues(m[..|m| - 1]) + m[|m| - 1].1
  }

  /** Sum of `f(x)` over the names. */
  function SumFees(programs: seq<SelectedProgram>, names: seq<string>): int {
    if names == [] then 0 else SumFees(programs, names[..|names| - 1]) + LastFee(programs, names[|names| - 1])
  }

  lemma {:induction false} SumValuesOfFeeMap(programs: seq<SelectedProgram>, m: FeeMap, names: seq<string>)
    requires |m| == |names| && forall i :: 0 <= i < |m| ==> m[i] == (names[i], LastFee(programs, names[i]))
    ensures SumValues(m) == SumFees(programs, names)
  {
    if m != [] {
      var n := |m| - 1;
      assert forall i :: 0 <= i < n ==> m[..n][i] == m[i] && names[..n][i] == names[i];
      SumValuesOfFeeMap(programs, m[..n], names[..n]);
    }
  }

  /** The university fees: each institution counted once, with the fee of
      its last entry. */
  function UniversityFees(programs: seq<SelectedProgram>): (total: int)
    ensures total == SumFees(programs, Dedupe(InstitutionNames(programs)))
  {
    var m := BuildFeeMap(programs);
    SumValuesOfFeeMap(programs, m, Dedupe(InstitutionNames(programs)));
    SumValues(m)
  }

  /** Sum of the fees of a scholarship list, a missing fee counting 0. */
  function ScholarshipListFees(ss: seq<Scholarship>): int {
    if ss == [] then 0 else ScholarshipListFees(ss[..|ss| - 1]) + ss[|ss| - 1].applicationFee.GetOr(0)
  }

  /** The scholarship fees of every selected scholarship of every program. */
  function ScholarshipFees(programs: seq<SelectedProgram>): int {
    if programs == [] then 0
    else
      ScholarshipFees(programs[..|programs| - 1])
      + ScholarshipListFees(programs[|programs| - 1].selectedScholarships.GetOr([]))
  }

  /** The first catalog service with the id, as `find` returns it. */
  function FindService(catalog: seq<SupportService>, id: string): (r: Option<SupportService>)
    ensures r.None? <==> forall i :: 0 <= i < |catalog| ==> catalog[i].id != id
    ensures r.Some? ==> r.value in catalog && r.value.id == id
  {
    if catalog == [] then None
    else if catalog[0].id == id then Some(catalog[0])
    else FindService(catalog[1..], id)
  }

  /** The catalog cost of a service id; an unknown id costs 0. */
  function ServiceCost(id: string): int {
    match FindService(AvailableServices, id)
    case None => 0
    case Some(s) => s.cost
  }

  function ServiceFees(ids: seq<string>): int {
    if ids == [] then 0 else ServiceFees(ids[..|ids| - 1]) + ServiceCost(ids[|ids| - 1])
  }

  datatype CostSummary = CostSummary(universityFees: int, scholarshipFees: int, serviceFees: int, total: int)

  /** The summary the form shows, or nothing when the total is 0. */
  function Summary(programs: seq<SelectedProgram>, services: seq<string>): (r: Option<CostSummary>)
    ensures r.None? <==>
      UniversityFees(programs) + ScholarshipFees(programs) + ServiceFees(services) == 0
    ensures r.Some? ==> r.value.total == r.value.universityFees + r.value.scholarshipFees + r.value.serviceFees
    ensures r.Some? ==>
      r.value.universityFees == UniversityFees(programs)
      && r.value.scholarshipFees == ScholarshipFees(programs)
      && r.value.serviceFees == ServiceFees(services)
  {
    SummaryOf(UniversityFees(programs), ScholarshipFees(programs), ServiceFees(services))
  }

  /** The summary of three computed parts. */
  function SummaryOf(u: int, s: int, v: int): Option<CostSummary> {
    if u + s + v == 0 then None else Some(CostSummary(u, s, v, u + s + v))
  }

  lemma BuildFeeMapExtend(programs: seq<SelectedProgram>, i: int)
    requires 0 <= i < |programs|
    ensures BuildFeeMap(programs[..i + 1])
      == MapSet(BuildFeeMap(programs[..i]), programs[i].institutionName, UniversityFeeOf(programs[i]))
  {
    assert programs[..i + 1][..i] == programs[..i];
  }

  lemma SumValuesExtend(m: FeeMap, j: int)
    requires 0 <= j < |m|
    ensures SumValues(m[..j + 1]) == SumValues(m[..j]) + m[j].1
  {
    assert m[..j + 1][..j] == m[..j];
  }

  /** The university fees as the component computes them: a pass setting
      the fee map, then a sum of its values. */
  method ComputeUniversityFees(programs: seq<SelectedProgram>) returns (total: int)
    ensures total == UniversityFees(programs)
  {
    var m: FeeMap := [];
    var i := 0;
    while i < |programs|
      invariant 0 <= i <= |programs|
      invariant m == BuildFeeMap(programs[..i])
    {
      BuildFeeMapExtend(programs, i);
      m := MapSet(m, programs[i].institutionName, UniversityFeeOf(programs[i]));
      i := i + 1;
    }
    assert programs[..|programs|] == programs;
    total := 0;
    var j := 0;
    while j < |m|
      invariant 0 <= j <= |m|
      invariant total == SumValues(m[..j])
    {
      SumValuesExtend(m, j);
      total := total + m[j].1;
      j := j + 1;
    }
    assert m[..|m|] == m;
  }

  lemma ScholarshipFeesExtend(programs: seq<SelectedProgram>, i: int)
    requires 0 <= i < |programs|
    ensures ScholarshipFees(programs[..i + 1])
      == ScholarshipFees(programs[..i]) + ScholarshipListFees(programs[i].selectedScholarships.GetOr([]))
  {
    assert programs[..i + 1][..i] == programs[..i];
  }

  lemma ServiceFeesExtend(services: seq<string>, j: int)
    requires 0 <= j < |services|
    ensures ServiceFees(services[..j + 1]) == ServiceFees(services[..j]) + ServiceCost(services[j])
  {
    assert services[..j + 1][..j] == services[..j];
  }

  /** The scholarship fees as the component computes them. */
  method ComputeScholarshipFees(programs: seq<SelectedProgram>) returns (total: int)
    ensures total == ScholarshipFees(programs)
  {
    total := 0;
    var i := 0;
    while i < |programs|
      invariant 0 <= i <= |programs|
      invariant total == ScholarshipFees(programs[..i])
    {
      ScholarshipFeesExtend(programs, i);
      total := total + ScholarshipListFees(programs[i].selectedScholarships.GetOr([]));
      i := i + 1;
    }
    assert programs[..|programs|] == programs;
  }

  /** The service fees as the component computes them. */
  method ComputeServiceFees(services: seq<string>) returns (total: int)
    ensures total == ServiceFees(services)
  {
    total := 0;
    var j := 0;
    while j < |services|
      invariant 0 <= j <= |services|
      invariant total == ServiceFees(services[..j])
    {
      ServiceFeesExtend(services, j);
      total := total + ServiceCost(services[j]);
      j := j + 1;
    }
    assert services[..|services|] == services;
  }

  /** The whole summary as the component computes it. */
  method ComputeCostSummary(programs: seq<SelectedProgram>, services: seq<string>)
    returns (r: Option<CostSummary>)
    ensures r == Summary(programs, services)
  {
    var universityFees := ComputeUniversityFees(programs);
    var scholarshipFees := ComputeScholarshipFees(programs);
    var serviceFees := ComputeServiceFees(services);
    r := SummaryOf(universityFees, scholarshipFees, serviceFees);
  }

  /** A selection for the example below: Cambridge's Mathematics (fee
      15000) and two NUST programs sharing NUST's fee 5000, one with the
      Dawood scholarship (fee 1500). */
  const ExampleSelection := [
    SelectedProgram(Mathematics, "University of Cambridge", Some([]), Some(15000), None),
    SelectedProgram(MechanicalEngineering, "NUST", Some([DawoodScholarship]), Some(5000), None),
    SelectedProgram(InformationTechnology, "NUST", Some([]), Some(5000), None)]

  /** NUST's fee is counted once although two of its programs are chosen. */
  lemma ExampleUniversityFees()
    ensures UniversityFees(ExampleSelection) == 20000
  {
    var p := ExampleSelection;
    var cam, nust := "University of Cambridge", "NUST";
    var n1, n2, n3 := [cam], [cam, nust], [cam, nust, nust];
    assert InstitutionNames(p) == n3;
    assert n3[..2] == n2 && n2[..1] == n1 && n1[..0] == [];
    assert Dedupe(n1) == n1;
    assert Dedupe(n2) == n2;
    assert Dedupe(n3) == n2;
    assert p[..2][..1] == p[..1];
    assert LastFee(p, nust) == 5000;
    assert LastFee(p[..1], cam) == 15000;
    assert LastFee(p[..2], cam) == 15000;
    assert SumFees(p, n1) == 15000;
  }

  lemma ExampleScholarshipFees()
    ensures ScholarshipFees(ExampleSelection) == 1500
  {
    var p := ExampleSelection;
    assert p[..2][..1] == p[..1] && p[..1][..0] == [];
    assert [DawoodScholarship][..0] == [];
    assert ScholarshipListFees([DawoodScholarship]) == 1500;
    assert ScholarshipFees(p[..1]) == 0;
    assert ScholarshipFees(p[..2]) == 1500;
  }

  lemma ExampleSummary()
    ensures Summary(ExampleSelection, [VisaServiceId]) == Some(CostSummary(20000, 1500, 50000, 71500))
  {
    ExampleUniversityFees();
    ExampleScholarshipFees();
    assert [VisaServiceId][..0] == [];
    assert ServiceCost(VisaServiceId) == 50000;
    assert ServiceFees([VisaServiceId]) == 50000;
  }

  // ---------------------------------------------------------------------
  // Support services and the visa choice

  /** A study or tourist visa requires the visa service. */
  predicate VisaRequired(v: VisaType) {
    v == StudyVisa || v == TouristVisa
  }

  /** The visa service's checkbox is disabled while a visa is required. */
  predicate ServiceToggleDisabled(id: string, v: VisaType) {
    id == VisaServiceId && VisaRequired(v)
  }

  /** A service id removed if chosen, appended if not. */
  function ToggleService(ids: seq<string>, id: string): (r: seq<string>)
    ensures id in r <==> id !in ids
    ensures forall x :: x != id ==> (x in r <==> x in ids)
    ensures NoDups(ids) ==> NoDups(r)
    ensures id !in ids ==> r == ids + [id]
  {
    if id in ids then Without(ids, id)
    else
      var r := ids + [id];
      assert NoDups(ids) ==> NoDups(r) by {
        if NoDups(ids) {
          forall i, j | 0 <= i < j < |r| ensures r[i] != r[j] {
            if j == |ids| { assert r[i] in ids; }
          }
        }
      }
      r
  }

  /** Toggling a service twice restores the choice when it was not chosen. */
  lemma ToggleServiceTwice(ids: seq<string>, id: string)
    requires id !in ids
    ensures ToggleService(ToggleService(ids, id), id) == ids
  {
    var r := ids + [id];
    assert r[|ids|] == id;
    WithoutAppended(ids, id);
  }

  lemma {:induction false} WithoutAppended(s: seq<string>, x: string)
    requires x !in s
    ensures Without(s + [x], x) == s
  {
    WithoutConcat(s, [x], x);
    WithoutAbsent(s, x);
    assert Without([x], x) == Without([], x);
  }

  /** The chosen services after a visa choice: a required visa adds the
      visa service through a `Set` (so it is there once), no visa removes
      it. Other ids are kept. */
  function VisaTypeChange(ids: seq<string>, v: VisaType): (r: seq<string>)
    ensures VisaRequired(v) ==> VisaServiceId in r
    ensures !VisaRequired(v) ==> VisaServiceId !in r
    ensures forall x :: x != VisaServiceId ==> (x in r <==> x in ids)
    ensures NoDups(ids) ==> NoDups(r)
  {
    if VisaRequired(v) then
      var r := Dedupe(ids + [VisaServiceId]);
      assert (ids + [VisaServiceId])[|ids|] == VisaServiceId;
      assert forall x :: x in ids + [VisaServiceId] ==> x in r by {
        forall x | x in ids + [VisaServiceId] ensures x in r {
          var k :| 0 <= k < |ids| + 1 && (ids + [VisaServiceId])[k] == x;
        }
      }
      r
    else Without(ids, VisaServiceId)
  }

  /** On a choice without repetitions, requiring a visa leaves every id in
      its place and appends the visa service if it was not there. */
  lemma VisaTypeChangeAppends(ids: seq<string>, v: VisaType)
    requires NoDups(ids) && VisaRequired(v)
    ensures VisaTypeChange(ids, v) == if VisaServiceId in ids then ids else ids + [VisaServiceId]
  {
    var s := ids + [VisaServiceId];
    assert s[..|s| - 1] == ids;
    DedupeOfDistinct(ids);
  }

  // ---------------------------------------------------------------------
  // Documents and uploads

  /** The upload state of a document that has no files. */
  const EmptyUpload := FileUploadState(None, Idle, 0, None)

  /** Every document's upload progress is a percentage. */
  predicate ProgressInRange(docs: seq<DocumentUpload>) {
    forall i :: 0 <= i < |docs| ==> 0 <= docs[i].uploadState.progress <= 100
  }

  /** Every document with the id replaced by `f` of it. */
  function UpdateDocs(docs: seq<DocumentUpload>, id: int, f: DocumentUpload -> DocumentUpload)
    : (r: seq<DocumentUpload>)
    ensures |r| == |docs|
    ensures forall i :: 0 <= i < |docs| && docs[i].id != id ==> r[i] == docs[i]
    ensures forall i :: 0 <= i < |docs| && docs[i].id == id ==> r[i] == f(docs[i])
  {
    seq(|docs|, i requires 0 <= i < |docs| => if docs[i].id == id then f(docs[i]) else docs[i])
  }

  /** A new document at the end, with no type and no files. */
  function AddDocument(docs: seq<DocumentUpload>, id: int): (r: seq<DocumentUpload>)
    ensures |r| == |docs| + 1 && r[..|docs|] == docs
    ensures r[|docs|].id == id && r[|docs|].docType == [] && r[|docs|].otherType == []
    ensures r[|docs|].uploadState.status == Idle && r[|docs|].uploadState.progress == 0
    ensures r[|docs|].uploadState.files.None?
    ensures ProgressInRange(docs) ==> ProgressInRange(r)
  {
    docs + [DocumentUpload(id, "", "", EmptyUpload)]
  }

  /** The documents without those with the id, the rest in order. */
  function RemoveDocument(docs: seq<DocumentUpload>, id: int): (r: seq<DocumentUpload>)
    ensures |r| <= |docs|
    ensures forall i :: 0 <= i < |r| ==> r[i].id != id && r[i] in docs
    ensures forall i :: 0 <= i < |docs| && docs[i].id != id ==> docs[i] in r
    ensures ProgressInRange(docs) ==> ProgressInRange(r)
  {
    if docs == [] then []
    else
      var rest := RemoveDocument(docs[1..], id);
      assert forall i :: 1 <= i < |docs| ==> docs[i] == docs[1..][i - 1];
      if docs[0].id == id then rest else [docs[0]] + rest
  }

  /** The filter keeps the documents' order: removing from a concatenation
      removes from each part. */
  lemma {:induction false} RemoveDocumentConcat(a: seq<DocumentUpload>, b: seq<DocumentUpload>, id: int)
    ensures RemoveDocument(a + b, id) == RemoveDocument(a, id) + RemoveDocument(b, id)
  {
    if a == [] {
      assert a + b == b;
    } else {
      ConsConcat(a, b);
      RemoveDocumentConcat(a[1..], b, id);
    }
  }

  function SetDocumentType(docs: seq<DocumentUpload>, id: int, t: string): (r: seq<DocumentUpload>)
    ensures |r| == |docs|
    ensures forall i :: 0 <= i < |docs| ==>
      r[i].id == docs[i].id && r[i].otherType == docs[i].otherType && r[i].uploadState == docs[i].uploadState
    ensures forall i :: 0 <= i < |docs| ==> r[i].docType == if docs[i].id == id then t else docs[i].docType
  {
    UpdateDocs(docs, id, (d: DocumentUpload) => d.(docType := t))
  }

  function SetOtherType(docs: seq<DocumentUpload>, id: int, t: string): (r: seq<DocumentUpload>)
    ensures |r| == |docs|
    ensures forall i :: 0 <= i < |docs| ==>
      r[i].id == docs[i].id && r[i].docType == docs[i].docType && r[i].uploadState == docs[i].uploadState
    ensures forall i :: 0 <= i < |docs| ==> r[i].otherType == if docs[i].id == id then t else docs[i].otherType
  {
    UpdateDocs(docs, id, (d: DocumentUpload) => d.(otherType := t))
  }

  /** A file selection: an empty one clears the document's files and puts
      it back to idle; otherwise its upload starts at 0 with the files. */
  function FileChange(docs: seq<DocumentUpload>, id: int, files: seq<string>): (r: seq<DocumentUpload>)
    ensures |r| == |docs|
    ensures forall i :: 0 <= i < |docs| ==>
      r[i].id == docs[i].id && r[i].docType == docs[i].docType && r[i].otherType == docs[i].otherType
    ensures forall i :: 0 <= i < |docs| && docs[i].id != id ==> r[i] == docs[i]
    ensures forall i :: 0 <= i < |docs| && docs[i].id == id ==>
      r[i].uploadState.progress == 0 && r[i].uploadState.error.None?
      && (files == [] ==> r[i].uploadState.status == Idle && r[i].uploadState.files.None?)
      && (files != [] ==> r[i].uploadState.status == Uploading && r[i].uploadState.files == Some(files))
    ensures ProgressInRange(docs) ==> ProgressInRange(r)
  {
    if files == [] then UpdateDocs(docs, id, (d: DocumentUpload) => d.(uploadState := EmptyUpload))
    else UpdateDocs(docs, id, (d: DocumentUpload) => d.(uploadState := FileUploadState(Some(files), Uploading, 0, None)))
  }

  /** The first document with the id, as `find` returns it. */
  function FindDocument(docs: seq<DocumentUpload>, id: int): (r: Option<DocumentUpload>)
    ensures r.None? <==> forall i :: 0 <= i < |docs| ==> docs[i].id != id
    ensures r.Some? ==> r.value in docs && r.value.id == id
  {
    if docs == [] then None
    else if docs[0].id == id then Some(docs[0])
    else FindDocument(docs[1..], id)
  }

  /** One timer tick's advance: 10 points, capped at 100. */
  function Advance(progress: int): (p: int)
    ensures p == if progress + 10 >= 100 then 100 else progress + 10
    ensures 0 <= progress ==> 0 <= p <= 100
  {
    if progress + 10 >= 100 then 100 else progress + 10
  }

  /** What a tick decided: go on, stop without a result (the document is
      gone or has no files), or stop because the upload reached 100 and
      its result is now due. */
  datatype TickOutcome = KeepTicking | Stopped | Completed

  /** One tick of the upload timer of the document with the id. */
  function Tick(docs: seq<DocumentUpload>, id: int): (r: (seq<DocumentUpload>, TickOutcome))
    ensures r.1 == Stopped <==> FindDocument(docs, id).None? || FindDocument(docs, id).value.uploadState.files.None?
    ensures r.1 == Stopped ==> r.0 == docs
    ensures r.1 != Stopped ==> |r.0| == |docs| && forall i :: 0 <= i < |docs| ==>
      r.0[i] == if docs[i].id == id
        then docs[i].(uploadState := docs[i].uploadState.(
          progress := Advance(FindDocument(docs, id).value.uploadState.progress)))
        else docs[i]
    ensures r.1 == Completed <==> r.1 != Stopped && FindDocument(docs, id).value.uploadState.progress + 10 >= 100
    ensures ProgressInRange(docs) ==> ProgressInRange(r.0)
  {
    match FindDocument(docs, id)
    case None => (docs, Stopped)
    case Some(target) =>
      if target.uploadState.files.None? then (docs, Stopped)
      else
        var p := Advance(target.uploadState.progress);
        assert ProgressInRange(docs) ==> 0 <= target.uploadState.progress;
        var r := UpdateDocs(docs, id, (d: DocumentUpload) => d.(uploadState := d.uploadState.(progress := p)));
        (r, if target.uploadState.progress + 10 >= 100 then Completed else KeepTicking)
  }

  /** The progress after `n` ticks. */
  function AdvanceTimes(progress: int, n: nat): int
    decreases n
  {
    if n == 0 then progress else AdvanceTimes(Advance(progress), n - 1)
  }

  /** Below 100, each tick adds exactly 10. */
  lemma {:induction false} AdvanceTimesAdds(progress: int, n: nat)
    requires progress + 10 * n < 100
    decreases n
    ensures AdvanceTimes(progress, n) == progress + 10 * n
  {
    if n > 0 {
      AdvanceTimesAdds(progress + 10, n - 1);
    }
  }

  /** An upload started at 0 is at 90 after nine ticks and completes at the
      tenth. */
  lemma UploadCompletesOnTenthTick()
    ensures AdvanceTimes(0, 9) == 90 && 90 + 10 >= 100 && Advance(90) == 100
  {
    AdvanceTimesAdds(0, 9);
  }

  /** The upload's result: success, or error with its message; either way
      at 100 percent. */
  function Settle(docs: seq<DocumentUpload>, id: int, success: bool): (r: seq<DocumentUpload>)
    ensures |r| == |docs|
    ensures forall i :: 0 <= i < |docs| && docs[i].id != id ==> r[i] == docs[i]
    ensures forall i :: 0 <= i < |docs| && docs[i].id == id ==>
      r[i].id == id && r[i].docType == docs[i].docType && r[i].otherType == docs[i].otherType
      && r[i].uploadState.files == docs[i].uploadState.files
      && r[i].uploadState.progress == 100
      && r[i].uploadState.status == (if success then UploadSuccess else UploadError)
      && r[i].uploadState.error == (if success then None else Some(UploadFailedMessage))
    ensures ProgressInRange(docs) ==> ProgressInRange(r)
  {
    UpdateDocs(docs, id, (d: DocumentUpload) => d.(uploadState := d.uploadState.(
      status := if success then UploadSuccess else UploadError,
      progress := 100,
      error := if success then None else Some(UploadFailedMessage))))
  }

  // ---------------------------------------------------------------------
  // Submission payload

  /** A document as submitted: `Other` documents carry their own type, and
      the first file's name if there is one. */
  function SummarizeDocument(d: DocumentUpload): (s: DocumentSummary)
    ensures d.docType == "Other" ==> s.docType == "Other: " + d.otherType
    ensures d.docType != "Other" ==> s.docType == d.docType
    ensures s.fileName.Some? <==> d.uploadState.files.Some? && |d.uploadState.files.value| > 0
    ensures s.fileName.Some? ==> s.fileName.value == d.uploadState.files.value[0]
  {
    DocumentSummary(
      if d.docType == "Other" then "Other: " + d.otherType else d.docType,
      match d.uploadState.files
      case Some(fs) => if |fs| > 0 then Some(fs[0]) else None
      case None => None)
  }

  /** The catalog services whose id is chosen, in catalog order. */
  function ChosenServices(catalog: seq<SupportService>, ids: seq<string>): (r: seq<SupportService>)
    ensures |r| <= |catalog|
    ensures forall i :: 0 <= i < |r| ==> r[i] in catalog && r[i].id in ids
    ensures forall i :: 0 <= i < |catalog| && catalog[i].id in ids ==> catalog[i] in r
  {
    if catalog == [] then []
    else
      var rest := ChosenServices(catalog[1..], ids);
      assert forall i :: 1 <= i < |catalog| ==> catalog[i] == catalog[1..][i - 1];
      if catalog[0].id in ids then [catalog[0]] + rest else rest
  }

  /** Choosing every catalog service gives the whole catalog, in order. */
  lemma {:induction false} ChosenServicesAll(catalog: seq<SupportService>, ids: seq<string>)
    requires forall i :: 0 <= i < |catalog| ==> catalog[i].id in ids
    ensures ChosenServices(catalog, ids) == catalog
  {
    if catalog != [] {
      ChosenServicesAll(catalog[1..], ids);
      assert catalog == [catalog[0]] + catalog[1..];
    }
  }

  /** The filter keeps catalog order: choosing from a concatenation chooses
      from each part. */
  lemma {:induction false} ChosenServicesAppend(a: seq<SupportService>, b: seq<SupportService>, ids: seq<string>)
    ensures ChosenServices(a + b, ids) == ChosenServices(a, ids) + ChosenServices(b, ids)
  {
    if a == [] {
      assert a + b == b;
    } else {
      ConsConcat(a, b);
      ChosenServicesAppend(a[1..], b, ids);
    }
  }

  /** Services are submitted in catalog order, not in the order they were
      ticked: airport pickup ticked before the visa service still comes
      after it. */
  lemma ChosenServicesCatalogOrder()
    ensures ChosenServices(AvailableServices, ["airportPickup", VisaServiceId])
      == [AvailableServices[0], AvailableServices[2]]
  {
    var c := AvailableServices;
    var ids := ["airportPickup", VisaServiceId];
    assert c[1..][1..][1..][1..] == [];
    assert ChosenServices(c[1..][1..][1..], ids) == [];
    assert ChosenServices(c[1..][1..], ids) == [c[2]];
    assert ChosenServices(c[1..], ids) == [c[2]];
  }

  function SummarizeDocuments(docs: seq<DocumentUpload>): (r: seq<DocumentSummary>)
    ensures |r| == |docs| && forall i :: 0 <= i < |docs| ==> r[i] == SummarizeDocument(docs[i])
  {
    seq(|docs|, i requires 0 <= i < |docs| => SummarizeDocument(docs[i]))
  }

  /** The form fields of the class below, as one value. */
  datatype Fields = Fields(
    fullName: string, email: string, visaType: VisaType, accommodation: AccommodationPreference,
    documents: seq<DocumentUpload>, services: seq<string>,
    contactName: string, contactEmail: string, contactPhone: string, contactMessage: string)

  const InitialFields := Fields("", "", NoVisa, NoAccommodation, [], [], "", "", "", "")

  /** The application data the form submits. */
  function BuildPayload(f: Fields, programs: seq<SelectedProgram>): (d: ApplicationFormData)
    ensures d.fullName == f.fullName && d.email == f.email && d.selectedPrograms == programs
    ensures d.visaType == f.visaType && d.accommodationPreference == f.accommodation
    ensures d.contactName == f.contactName && d.contactEmail == f.contactEmail
    ensures d.contactPhone == f.contactPhone && d.contactMessage == f.contactMessage
    ensures |d.documents| == |f.documents|
    ensures forall i :: 0 <= i < |f.documents| ==> d.documents[i] == SummarizeDocument(f.documents[i])
    ensures forall i :: 0 <= i < |d.selectedServices| ==>
      d.selectedServices[i] in AvailableServices && d.selectedServices[i].id in f.services
    ensures forall i :: 0 <= i < |AvailableServices| && AvailableServices[i].id in f.services ==>
      AvailableServices[i] in d.selectedServices
    ensures d.selectedServices == ChosenServices(AvailableServices, f.services)
  {
    ApplicationFormData(f.fullName, f.email, programs, f.visaType, f.accommodation,
      ChosenServices(AvailableServices, f.services),
      f.contactName, f.contactEmail, f.contactPhone, f.contactMessage,
      SummarizeDocuments(f.documents))
  }

  /** The form's own state. */
  class ApplicationFormState {
    var fields: Fields
    var progress: int
    var isConfirmModalOpen: bool

    /** Chosen services are distinct, a required visa keeps the visa
        service chosen, and every percentage is in range. */
    ghost predicate Valid()
      reads this
    {
      NoDups(fields.services)
      && (VisaRequired(fields.visaType) ==> VisaServiceId in fields.services)
      && ProgressInRange(fields.documents)
      && 0 <= progress <= 100
    }

    constructor()
      ensures Valid() && fields == InitialFields && progress == 0 && !isConfirmModalOpen
    {
      fields := InitialFields;
      progress := 0;
      isConfirmModalOpen := false;
    }

    /** The progress effect, run after a change of the fields or of the
        selected programs. */
    method RefreshProgress(programs: seq<SelectedProgram>)
      modifies this
      requires Valid()
      ensures Valid()
      ensures progress == 20 * CompletedSections(fields.fullName, fields.email, programs,
        fields.documents, fields.accommodation, fields.services)
      ensures fields == old(fields) && isConfirmModalOpen == old(isConfirmModalOpen)
    {
      progress := Progress(CompletedSections(fields.fullName, fields.email, programs,
        fields.documents, fields.accommodation, fields.services));
    }

    method SetApplicant(fullName: string, email: string)
      modifies this
      requires Valid()
      ensures Valid()
      ensures fields == old(fields).(fullName := fullName, email := email)
      ensures progress == old(progress) && isConfirmModalOpen == old(isConfirmModalOpen)
    {
      fields := fields.(fullName := fullName, email := email);
    }

    method SetAccommodation(a: AccommodationPreference)
      modifies this
      requires Valid()
      ensures Valid()
      ensures fields == old(fields).(accommodation := a)
      ensures progress == old(progress) && isConfirmModalOpen == old(isConfirmModalOpen)
    {
      fields := fields.(accommodation := a);
    }

    method SetContact(name: string, email: string, phone: string, message: string)
      modifies this
      requires Valid()
      ensures Valid()
      ensures fields == old(fields).(contactName := name, contactEmail := email,
        contactPhone := phone, contactMessage := message)
      ensures progress == old(progress) && isConfirmModalOpen == old(isConfirmModalOpen)
    {
      fields := fields.(contactName := name, contactEmail := email,
        contactPhone := phone, contactMessage := message);
    }

    /** A service checkbox; the visa service's box cannot be used while a
        visa is required. */
    method HandleToggleService(id: string)
      modifies this
      requires Valid() && !ServiceToggleDisabled(id, fields.visaType)
      ensures Valid()
      ensures fields == old(fields).(services := ToggleService(old(fields.services), id))
      ensures progress == old(progress) && isConfirmModalOpen == old(isConfirmModalOpen)
    {
      fields := fields.(services := ToggleService(fields.services, id));
    }

    method HandleVisaTypeChange(v: VisaType)
      modifies this
      requires Valid()
      ensures Valid()
      ensures fields == old(fields).(visaType := v, services := VisaTypeChange(old(fields.services), v))
      ensures progress == old(progress) && isConfirmModalOpen == old(isConfirmModalOpen)
    {
      fields := fields.(visaType := v, services := VisaTypeChange(fields.services, v));
    }

    /** Adds an empty document whose id is the current time. */
    method HandleAddDocument(now: int)
      modifies this
      requires Valid()
      ensures Valid()
      ensures fields == old(fields).(documents := AddDocument(old(fields.documents), now))
      ensures progress == old(progress) && isConfirmModalOpen == old(isConfirmModalOpen)
    {
      fields := fields.(documents := AddDocument(fields.documents, now));
    }

    method HandleRemoveDocument(id: int)
      modifies this
      requires Valid()
      ensures Valid()
      ensures fields == old(fields).(documents := RemoveDocument(old(fields.documents), id))
      ensures progress == old(progress) && isConfirmModalOpen == old(isConfirmModalOpen)
    {
      fields := fields.(documents := RemoveDocument(fields.documents, id));
    }

    method HandleDocumentTypeChange(id: int, t: string)
      modifies this
      requires Valid()
      ensures Valid()
      ensures fields == old(fields).(documents := SetDocumentType(old(fields.documents), id, t))
      ensures progress == old(progress) && isConfirmModalOpen == old(isConfirmModalOpen)
    {
      fields := fields.(documents := SetDocumentType(fields.documents, id, t));
    }

    method HandleDocumentOtherTypeChange(id: int, t: string)
      modifies this
      requires Valid()
      ensures Valid()
      ensures fields == old(fields).(documents := SetOtherType(old(fields.documents), id, t))
      ensures progress == old(progress) && isConfirmModalOpen == old(isConfirmModalOpen)
    {
      fields := fields.(documents := SetOtherType(fields.documents, id, t));
    }

    /** A file selection (an empty list standing for none); a non-empty one
        starts the simulated upload. */
    method HandleFileChange(id: int, files: seq<string>)
      modifies this
      requires Valid()
      ensures Valid()
      ensures fields == old(fields).(documents := FileChange(old(fields.documents), id, files))
      ensures progress == old(progress) && isConfirmModalOpen == old(isConfirmModalOpen)
    {
      fields := fields.(documents := FileChange(fields.documents, id, files));
    }

    /** One firing of the upload interval of the document; the outcome says
        whether the interval goes on. */
    method UploadTick(id: int) returns (outcome: TickOutcome)
      modifies this
      requires Valid()
      ensures Valid()
      ensures (fields.documents, outcome) == Tick(old(fields.documents), id)
      ensures fields == old(fields).(documents := fields.documents)
      ensures progress == old(progress) && isConfirmModalOpen == old(isConfirmModalOpen)
    {
      var r := Tick(fields.documents, id);
      fields := fields.(documents := r.0);
      outcome := r.1;
    }

    /** The delayed result of a completed upload. */
    method UploadSettle(id: int, success: bool)
      modifies this
      requires Valid()
      ensures Valid()
      ensures fields == old(fields).(documents := Settle(old(fields.documents), id, success))
      ensures progress == old(progress) && isConfirmModalOpen == old(isConfirmModalOpen)
    {
      fields := fields.(documents := Settle(fields.documents, id, success));
    }

    /** Submitting the form opens the confirmation when the browser finds
        its inputs valid. */
    method HandleFormSubmit(valid: bool)
      modifies this
      requires Valid()
      ensures Valid()
      ensures isConfirmModalOpen == (valid || old(isConfirmModalOpen))
      ensures fields == old(fields) && progress == old(progress)
    {
      if valid {
        isConfirmModalOpen := true;
      }
    }

    /** Confirming sends the payload to the shell (with what its
        submission settled to) and closes the confirmation. */
    method HandleConfirmSubmit(app: App.AppState, outcome: Result<string, string>)
      returns (payload: ApplicationFormData)
      modifies this, app
      requires Valid() && app.Valid()
      ensures Valid() && app.Valid()
      ensures payload == BuildPayload(fields, app.selectedPrograms)
      ensures !isConfirmModalOpen && fields == old(fields) && progress == old(progress)
      ensures outcome.Ok? ==> app.applicationId == Some(outcome.value) && app.error == old(app.error)
      ensures outcome.Err? ==>
        app.applicationId == old(app.applicationId)
        && app.error == Some(App.MessageOr(outcome.error, App.SubmitErrorFallback))
      ensures app.selectedPrograms == old(app.selectedPrograms) && app.institutionsData == old(app.institutionsData)
      ensures app.isLoading == old(app.isLoading) && app.careerGoalFilters == old(app.careerGoalFilters)
    {
      payload := BuildPayload(fields, app.selectedPrograms);
      app.HandleApplicationSubmit(outcome);
      isConfirmModalOpen := false;
    }

    method ResetFormFields()
      modifies this
      requires Valid()
      ensures Valid()
      ensures fields == InitialFields
      ensures progress == old(progress) && isConfirmModalOpen == old(isConfirmModalOpen)
    {
      fields := InitialFields;
    }

    /** "Submit another application": the form is cleared and the shell
        forgets the submitted id; the selected programs remain. */
    method HandleStartNewApplication(app: App.AppState)
      modifies this, app
      requires Valid() && app.Valid()
      ensures Valid() && app.Valid()
      ensures fields == InitialFields && app.applicationId == None
      ensures app.selectedPrograms == old(app.selectedPrograms) && app.institutionsData == old(app.institutionsData)
      ensures app.isLoading == old(app.isLoading) && app.error == old(app.error)
      ensures app.careerGoalFilters == old(app.careerGoalFilters)
      ensures progress == old(progress) && isConfirmModalOpen == old(isConfirmModalOpen)
    {
      ResetFormFields();
      app.StartNew();
    }
  }
}
