/** The portal's entities (components/types.ts) and a few catalog entries
    used as fixtures (server/data.js). Optional TypeScript fields (`x?: T`)
    are `Option<T>`; numbers are integers; a file is represented by its
    name. */
module Catalog {
  import opened Wrappers

  datatype SupportService = SupportService(id: string, name: string, description: string, cost: int)

  datatype Scholarship = Scholarship(
    name: string,
    description: string,
    amount: string,
    eligibility: string,
    applicationDeadline: Option<string>,
    applicationFee: Option<int>)

  datatype ProgramCost = ProgramCost(tuition: string, livingExpenses: string)

  datatype ProgramType = Masters | Bachelors | Course

  datatype Program = Program(
    name: string,
    programType: ProgramType,
    duration: string,
    prerequisites: string,
    applicationDeadline: string,
    cost: ProgramCost,
    scholarships: Option<seq<Scholarship>>,
    tags: Option<seq<string>>)

  datatype Institution = Institution(
    name: string,
    location: string,
    region: string,
    programs: seq<Program>,
    applicationFee: Option<int>)

  /** A program chosen for the application, owned by the selection store.
      In the source it extends `Program` with the fields below. */
  datatype SelectedProgram = SelectedProgram(
    program: Program,
    institutionName: string,
    selectedScholarships: Option<seq<Scholarship>>,
    universityApplicationFee: Option<int>,
    editedCost: Option<ProgramCost>)

  datatype VisaType = NoVisa | StudyVisa | TouristVisa

  datatype AccommodationPreference = OnCampus | OffCampus | NoAccommodation

  datatype UploadStatus = Idle | Uploading | UploadSuccess | UploadError

  datatype FileUploadState = FileUploadState(
    files: Option<seq<string>>,
    status: UploadStatus,
    progress: int,
    error: Option<string>)

  /** `otherType` is optional in the source's type, but every document the
      form creates starts with `''` and is only ever given strings. */
  datatype DocumentUpload = DocumentUpload(
    id: int,
    docType: string,
    otherType: string,
    uploadState: FileUploadState)

  datatype ApplicationStatus = Submitted | UnderReview | ActionRequired | Accepted | Rejected

  datatype ApplicationUpdate = ApplicationUpdate(timestamp: string, status: ApplicationStatus, notes: string)

  /** One document of a submitted application: its resolved type and the
      name of its first file, if any. */
  datatype DocumentSummary = DocumentSummary(docType: string, fileName: Option<string>)

  /** What the form sends: a submitted application without its id, date
      and status history. */
  datatype ApplicationFormData = ApplicationFormData(
    fullName: string,
    email: string,
    selectedPrograms: seq<SelectedProgram>,
    visaType: VisaType,
    accommodationPreference: AccommodationPreference,
    selectedServices: seq<SupportService>,
    contactName: string,
    contactEmail: string,
    contactPhone: string,
    contactMessage: string,
    documents: seq<DocumentSummary>)

  datatype SubmittedApplication = SubmittedApplication(
    applicationId: string,
    submissionDate: string,
    statusHistory: seq<ApplicationUpdate>,
    form: ApplicationFormData)

  /** The program-type filter of the catalog and of an institution's
      program list: `'All'` or one type. */
  datatype ProgramTypeFilter = AllTypes | OnlyType(programType: ProgramType)

  /** The program offers at least one scholarship. */
  predicate OffersScholarships(p: Program) {
    p.scholarships.Some? && |p.scholarships.value| > 0
  }

  /** The career goal and location picked in the career-goal panel. */
  datatype CareerGoalFilters = CareerGoalFilters(goal: string, location: string)

  predicate TypeFilterAdmits(filter: ProgramTypeFilter, p: Program) {
    filter.AllTypes? || p.programType == filter.programType
  }

  // Fixtures: a few catalog entries, abridged to the fields the model uses.

  const DawoodScholarship := Scholarship(
    "Dawood Foundation Scholarship", "Merit-based scholarship for engineering students.",
    "50% tuition waiver", "Top 5% of students in the engineering faculty are eligible.",
    Some("June 30, 2025"), Some(1500))

  const NeedBasedScholarship := Scholarship(
    "NUST Need-Based Scholarship",
    "Financial assistance for students who cannot afford the full tuition fees.",
    "Varies", "Based on demonstrated financial need.", None, None)

  const MechanicalEngineering := Program(
    "Bachelors in Mechanical Engineering", Bachelors, "4 Years",
    "FSc (Pre-Engineering)/A-Levels, NET exam", "July 15, 2025",
    ProgramCost("PKR 450,000 / year", "PKR 250,000 / year"),
    Some([DawoodScholarship, NeedBasedScholarship]), Some(["STEM", "Engineering"]))

  const InformationTechnology := Program(
    "Masters in Information Technology", Masters, "2 Years",
    "Relevant Bachelors Degree, GAT exam", "June 30, 2025",
    ProgramCost("PKR 500,000 / year", "PKR 250,000 / year"),
    None, Some(["STEM", "Technology"]))

  const Nust := Institution(
    "NUST", "Islamabad, Pakistan", "Asia",
    [MechanicalEngineering, InformationTechnology], Some(5000))

  const Mathematics := Program(
    "Bachelors in Mathematics", Bachelors, "3 Years",
    "A-Levels in Mathematics and Further Mathematics", "October 15, 2024",
    ProgramCost("£25,734 / year", "£12,000 / year"),
    None, Some(["STEM", "Mathematics"]))

  const Cambridge := Institution(
    "University of Cambridge", "Cambridge, UK", "Europe", [Mathematics], Some(15000))
}
