/** The application tracker (components/ApplicationTracker.tsx): looking an
    application up by id, its current status, its timeline and the way each
    status is displayed. */
module ApplicationTracker {
  import opened Wrappers
  import opened Strings
  import opened Catalog
  import opened MockApi

  const EmptyIdMessage := "Please enter an Application ID."

  datatype StatusIcon = CheckCircleIcon | ClockIcon | ExclamationCircleIcon | AcademicCapIcon | XCircleIcon

  datatype StatusDisplay = StatusDisplay(icon: StatusIcon, color: string)

  /** The display of each status; every status has one. */
  function StatusConfig(s: ApplicationStatus): (d: StatusDisplay)
    ensures d.color in {"text-green-400", "text-blue-400", "text-yellow-400", "text-red-400"}
    ensures d.color == "text-green-400" <==> s in {Submitted, Accepted}
  {
    match s
    case Submitted => StatusDisplay(CheckCircleIcon, "text-green-400")
    case UnderReview => StatusDisplay(ClockIcon, "text-blue-400")
    case ActionRequired => StatusDisplay(ExclamationCircleIcon, "text-yellow-400")
    case Accepted => StatusDisplay(AcademicCapIcon, "text-green-400")
    case Rejected => StatusDisplay(XCircleIcon, "text-red-400")
  }

  /** Each status has its own icon, so the icon alone tells the status. */
  lemma StatusIconsDistinct(s: ApplicationStatus, t: ApplicationStatus)
    requires StatusConfig(s).icon == StatusConfig(t).icon
    ensures s == t
  {
  }

  /** The text shown for a status. */
  function StatusLabel(s: ApplicationStatus): (text: string)
    ensures |text| > 0
  {
    match s
    case Submitted => "Submitted"
    case UnderReview => "Under Review"
    case ActionRequired => "Action Required"
    case Accepted => "Accepted"
    case Rejected => "Rejected"
  }

  /** Different statuses read differently. */
  lemma StatusLabelsDistinct(s: ApplicationStatus, t: ApplicationStatus)
    requires StatusLabel(s) == StatusLabel(t)
    ensures s == t
  {
  }

  /** The current status: that of the latest entry. */
  function CurrentStatus(h: seq<ApplicationUpdate>): (s: ApplicationStatus)
    requires |h| > 0
  {
    h[|h| - 1].status
  }

  /** The latest update decides the current status. */
  lemma CurrentStatusAfterUpdate(h: seq<ApplicationUpdate>, u: ApplicationUpdate)
    ensures CurrentStatus(h + [u]) == u.status
  {
  }

  /** The timeline: the history, newest entry first. */
  function Timeline(h: seq<ApplicationUpdate>): (r: seq<ApplicationUpdate>)
    ensures |r| == |h|
    ensures forall i :: 0 <= i < |h| ==> r[i] == h[|h| - 1 - i]
  {
    if h == [] then []
    else [h[|h| - 1]] + Timeline(h[..|h| - 1])
  }

  /** The first timeline item is the current status. */
  lemma TimelineStartsWithCurrent(h: seq<ApplicationUpdate>)
    requires |h| > 0
    ensures Timeline(h)[0].status == CurrentStatus(h)
  {
  }

  /** Reading the timeline backwards gives the history again. */
  lemma TimelineTwice(h: seq<ApplicationUpdate>)
    ensures Timeline(Timeline(h)) == h
  {
  }

  /** A new entry goes to the top of the timeline. */
  lemma TimelineAfterUpdate(h: seq<ApplicationUpdate>, u: ApplicationUpdate)
    ensures Timeline(h + [u]) == [u] + Timeline(h)
  {
    assert (h + [u])[..|h|] == h;
  }

  /** A fresh application is shown as submitted; after the review and the
      decision it is shown with the decision. */
  lemma StatusThroughProgression(store: Store, form: ApplicationFormData, clock: nat, date: string,
                                 t1: string, t2: string, pick: nat)
    requires pick < 3
    ensures var id := ApplicationIdFor(clock);
      var s1 := Posted(store, form, clock, date);
      var s3 := AppendUpdate(AppendUpdate(s1, id, ApplicationUpdate(t1, UnderReview, UnderReviewNote)),
                             id, FinalUpdate(pick, t2));
      CurrentStatus(s1[id].statusHistory) == Submitted
      && CurrentStatus(s3[id].statusHistory) == FinalUpdate(pick, t2).status
      && StatusLabel(Timeline(s3[id].statusHistory)[2].status) == "Submitted"
  {
    Progression(store, form, clock, date, t1, t2, pick);
  }

  /** An id made only of white space passes the emptiness check but, once
      trimmed, is not found in the store. */
  lemma BlankIdNotFound(store: Store, appId: string)
    requires StoreValid(store)
    requires forall i :: 0 <= i < |appId| ==> IsWhitespace(appId[i])
    ensures Lookup(store, Trim(appId)) == Err(NotFoundMessage)
  {
    TrimEmptyIffBlank(appId);
    assert !IsApplicationId([]);
  }

  /** The tracker's state. */
  class Tracker {
    var appId: string
    var application: Option<SubmittedApplication>
    var error: string
    var isLoading: bool

    constructor()
      ensures appId == "" && application == None && error == "" && !isLoading
    {
      appId := "";
      application := None;
      error := "";
      isLoading := false;
    }

    method SetAppId(id: string)
      modifies this
      ensures appId == id && application == old(application) && error == old(error) && isLoading == old(isLoading)
    {
      appId := id;
    }

    /** The synchronous part of a track request. An empty id (before
        trimming) only sets the error; otherwise the error and the shown
        application are cleared, loading starts and the trimmed id is
        returned for the lookup. */
    method StartTracking() returns (lookupId: Option<string>)
      modifies this
      ensures appId == old(appId)
      ensures old(appId) == "" ==>
        lookupId == None && error == EmptyIdMessage && application == old(application) && isLoading == old(isLoading)
      ensures old(appId) != "" ==>
        lookupId == Some(Trim(appId)) && error == "" && application == None && isLoading
    {
      if appId == "" {
        error := EmptyIdMessage;
        lookupId := None;
      } else {
        var id := appId;
        isLoading, error, application := true, "", None;
        lookupId := Some(Trim(id));
      }
    }

    /** The lookup's outcome: the record is shown, or its error message;
        loading ends either way. */
    method FinishTracking(outcome: Result<SubmittedApplication, string>)
      modifies this
      ensures outcome.Ok? ==> application == Some(outcome.value) && error == old(error)
      ensures outcome.Err? ==> application == old(application) && error == outcome.error
      ensures !isLoading && appId == old(appId)
    {
      match outcome {
        case Ok(data) => application := Some(data);
        case Err(message) => error := message;
      }
      isLoading := false;
    }

    /** A whole track request against the store. */
    method HandleTrackApplication(store: ApplicationStore)
      modifies this
      ensures appId == old(appId)
      ensures old(appId) == "" ==>
        error == EmptyIdMessage && application == old(application) && isLoading == old(isLoading)
      ensures old(appId) != "" ==>
        !isLoading && (Trim(appId) in store.applications ==> application == Some(store.applications[Trim(appId)]) && error == "")
      ensures old(appId) != "" && Trim(appId) !in store.applications ==> application == None && error == NotFoundMessage
    {
      var lookupId := StartTracking();
      if lookupId.Some? {
        var outcome := store.GetApplicationById(lookupId.value);
        FinishTracking(outcome);
      }
    }

    /** "Track Another Application". */
    method TrackAnother()
      modifies this
      ensures application == None && appId == "" && error == old(error) && isLoading == old(isLoading)
    {
      application := None;
      appId := "";
    }
  }
}
