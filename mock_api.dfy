/** The in-memory application store that stands in for a backend
    (api/mockApi.ts): posting an application, looking one up, and the
    status updates that follow a submission. The clock, the timestamps and
    the random pick of a final status are parameters. */
module MockApi {
  import opened Wrappers
  import opened Strings
  import opened Catalog

  const SubmittedNote := "Your application has been successfully received. An advisor will be assigned to your case shortly."
  const UnderReviewNote := "Your application is now under review by our admissions team. This process typically takes 3-5 business days."
  const AcceptedNote := "Congratulations! Your application has been accepted. Please check your email for the official offer letter and next steps."
  const RejectedNote := "We regret to inform you that after careful consideration, we are unable to offer you a place at this time. We wish you the best in your future endeavors."
  const ActionRequiredNote := "We require additional information. Please upload a certified copy of your academic transcripts to the portal."
  const NotFoundMessage := "Application ID not found. Please check the ID and try again."

  const IdPrefix := "GEV-"

  /** The catalog the store serves (abridged to two entries, in catalog
      order). */
  const InitialInstitutionsData := [Cambridge, Nust]

  type Store = map<string, SubmittedApplication>

  /** The id of an application posted when the clock reads `clock`. */
  function ApplicationIdFor(clock: nat): (id: string)
    ensures IsApplicationId(id)
  {
    IdPrefix + NatToString(clock)
  }

  /** The shape of every id the store hands out. */
  predicate IsApplicationId(id: string) {
    |id| > |IdPrefix| && id[..|IdPrefix|] == IdPrefix
  }

  /** Posts at different clock values get different ids. */
  lemma ApplicationIdInjective(a: nat, b: nat)
    requires ApplicationIdFor(a) == ApplicationIdFor(b)
    ensures a == b
  {
    assert NatToString(a) == ApplicationIdFor(a)[|IdPrefix|..];
    assert NatToString(b) == ApplicationIdFor(b)[|IdPrefix|..];
    NatToStringInjective(a, b);
  }

  /** The three final statuses and their notes, indexed by the random pick. */
  function FinalUpdate(pick: nat, timestamp: string): (u: ApplicationUpdate)
    requires pick < 3
    ensures u.status in {Accepted, Rejected, ActionRequired} && u.timestamp == timestamp
    ensures pick == 0 <==> u.status == Accepted
    ensures pick == 1 <==> u.status == Rejected
  {
    if pick == 0 then ApplicationUpdate(timestamp, Accepted, AcceptedNote)
    else if pick == 1 then ApplicationUpdate(timestamp, Rejected, RejectedNote)
    else ApplicationUpdate(timestamp, ActionRequired, ActionRequiredNote)
  }

  /** A history opens with the submission entry. */
  predicate HistoryStartsSubmitted(h: seq<ApplicationUpdate>) {
    |h| >= 1 && h[0].status == Submitted
  }

  /** Every record is filed under its own id, which has the store's shape,
      and its history starts with the submission. */
  predicate StoreValid(store: Store) {
    forall id :: id in store ==>
      store[id].applicationId == id && IsApplicationId(id) && HistoryStartsSubmitted(store[id].statusHistory)
  }

  /** The record a post creates. */
  function NewRecord(form: ApplicationFormData, id: string, date: string): (r: SubmittedApplication)
    ensures r.form == form && r.applicationId == id && r.submissionDate == date
    ensures |r.statusHistory| == 1 && HistoryStartsSubmitted(r.statusHistory)
    ensures r.statusHistory[0].timestamp == date
  {
    SubmittedApplication(id, date, [ApplicationUpdate(date, Submitted, SubmittedNote)], form)
  }

  /** The store after a post at `clock`: the new record under its id,
      replacing any record that had the same id. */
  function Posted(store: Store, form: ApplicationFormData, clock: nat, date: string): (r: Store)
    ensures r.Keys == store.Keys + {ApplicationIdFor(clock)}
    ensures r[ApplicationIdFor(clock)] == NewRecord(form, ApplicationIdFor(clock), date)
    ensures forall id :: id in store && id != ApplicationIdFor(clock) ==> r[id] == store[id]
    ensures StoreValid(store) ==> StoreValid(r)
  {
    var id := ApplicationIdFor(clock);
    store[id := NewRecord(form, id, date)]
  }

  /** A lookup: the stored record, or the not-found error. */
  function Lookup(store: Store, id: string): (r: Result<SubmittedApplication, string>)
    ensures r.Ok? <==> id in store
    ensures r.Ok? ==> r.value == store[id]
    ensures r.Err? ==> r.error == NotFoundMessage
  {
    if id in store then Ok(store[id]) else Err(NotFoundMessage)
  }

  /** The store after a status update: the entry is appended to the end of
      that record's history; an unknown id changes nothing. */
  function AppendUpdate(store: Store, id: string, u: ApplicationUpdate): (r: Store)
    ensures r.Keys == store.Keys
    ensures forall k :: k in store && k != id ==> r[k] == store[k]
    ensures id in store ==> r[id] == store[id].(statusHistory := store[id].statusHistory + [u])
    ensures id !in store ==> r == store
    ensures StoreValid(store) ==> StoreValid(r)
  {
    if id in store then
      var app := store[id];
      var r := store[id := app.(statusHistory := app.statusHistory + [u])];
      assert StoreValid(store) ==> StoreValid(r) by {
        if StoreValid(store) {
          assert r[id].statusHistory[0] == app.statusHistory[0];
        }
      }
      r
    else store
  }

  /** A post followed by a lookup of the returned id gives the record back. */
  lemma PostThenLookup(store: Store, form: ApplicationFormData, clock: nat, date: string)
    ensures Lookup(Posted(store, form, clock, date), ApplicationIdFor(clock))
      == Ok(NewRecord(form, ApplicationIdFor(clock), date))
  {
  }

  /** A second post at the same clock value replaces the first. */
  lemma SameClockOverwrites(store: Store, f1: ApplicationFormData, f2: ApplicationFormData, clock: nat,
                            d1: string, d2: string)
    ensures Posted(Posted(store, f1, clock, d1), f2, clock, d2) == Posted(store, f2, clock, d2)
  {
  }

  /** A post at another clock value leaves an earlier post's record alone. */
  lemma OtherClockKeepsRecord(store: Store, f1: ApplicationFormData, f2: ApplicationFormData,
                              c1: nat, c2: nat, d1: string, d2: string)
    requires c1 != c2
    ensures Lookup(Posted(Posted(store, f1, c1, d1), f2, c2, d2), ApplicationIdFor(c1))
      == Ok(NewRecord(f1, ApplicationIdFor(c1), d1))
  {
    if ApplicationIdFor(c1) == ApplicationIdFor(c2) {
      ApplicationIdInjective(c1, c2);
    }
  }

  /** A sequence of status updates to one record, in order. */
  function ApplyUpdates(store: Store, id: string, updates: seq<ApplicationUpdate>): (r: Store)
    ensures r.Keys == store.Keys
    ensures forall k :: k in store && k != id ==> r[k] == store[k]
  {
    if updates == [] then store
    else AppendUpdate(ApplyUpdates(store, id, updates[..|updates| - 1]), id, updates[|updates| - 1])
  }

  /** Updates only ever extend a history: the old history is a prefix of
      the new one, so the submission entry stays first. */
  lemma {:induction false} UpdatesExtendHistory(store: Store, id: string, updates: seq<ApplicationUpdate>)
    requires id in store
    ensures var r := ApplyUpdates(store, id, updates);
      id in r && r[id].statusHistory == store[id].statusHistory + updates
      && r[id].statusHistory[..|store[id].statusHistory|] == store[id].statusHistory
  {
    if updates != [] {
      var prev := updates[..|updates| - 1];
      UpdatesExtendHistory(store, id, prev);
      assert updates == prev + [updates[|updates| - 1]];
    }
  }

  /** The whole progression of one application: posted, then under review,
      then one final status, so its history has three entries. */
  lemma Progression(store: Store, form: ApplicationFormData, clock: nat, date: string, t1: string, t2: string,
                    pick: nat)
    requires pick < 3
    ensures var id := ApplicationIdFor(clock);
      var s := AppendUpdate(AppendUpdate(Posted(store, form, clock, date), id,
                                         ApplicationUpdate(t1, UnderReview, UnderReviewNote)),
                            id, FinalUpdate(pick, t2));
      id in s && |s[id].statusHistory| == 3
      && s[id].statusHistory[0].status == Submitted
      && s[id].statusHistory[1].status == UnderReview
      && s[id].statusHistory[2] == FinalUpdate(pick, t2)
  {
    var id := ApplicationIdFor(clock);
    var s1 := Posted(store, form, clock, date);
    assert s1[id].statusHistory == [ApplicationUpdate(date, Submitted, SubmittedNote)];
    TwoUpdates(s1, id, ApplicationUpdate(t1, UnderReview, UnderReviewNote), FinalUpdate(pick, t2));
  }

  lemma TwoUpdates(s: Store, id: string, u1: ApplicationUpdate, u2: ApplicationUpdate)
    requires id in s
    ensures var r := AppendUpdate(AppendUpdate(s, id, u1), id, u2);
      id in r && r[id].statusHistory == s[id].statusHistory + [u1, u2]
  {
    var s2 := AppendUpdate(s, id, u1);
    assert s2[id].statusHistory == s[id].statusHistory + [u1];
  }

  /** The store, written in place. */
  class ApplicationStore {
    var applications: Store

    ghost predicate Valid()
      reads this
    {
      StoreValid(applications)
    }

    constructor()
      ensures applications == map[] && Valid()
    {
      applications := map[];
    }

    /** The catalog, unchanged. */
    method GetInstitutions() returns (r: seq<Institution>)
      ensures r == InitialInstitutionsData
    {
      r := InitialInstitutionsData;
    }

    /** Files a new application under `GEV-<clock>` and returns that id. */
    method PostApplication(form: ApplicationFormData, clock: nat, date: string) returns (id: string)
      requires Valid()
      modifies this
      ensures Valid()
      ensures id == ApplicationIdFor(clock)
      ensures applications == Posted(old(applications), form, clock, date)
      ensures Lookup(applications, id) == Ok(NewRecord(form, id, date))
    {
      id := ApplicationIdFor(clock);
      applications := applications[id := NewRecord(form, id, date)];
    }

    /** Looks up a record; the store is not changed. */
    method GetApplicationById(id: string) returns (r: Result<SubmittedApplication, string>)
      ensures r == Lookup(applications, id)
      ensures r.Ok? <==> id in applications
      ensures r.Err? ==> r.error == NotFoundMessage
    {
      if id in applications {
        r := Ok(applications[id]);
      } else {
        r := Err(NotFoundMessage);
      }
    }

    /** Appends one entry to the history of the record with this id, if any. */
    method UpdateStatus(id: string, timestamp: string, status: ApplicationStatus, notes: string)
      requires Valid()
      modifies this
      ensures Valid()
      ensures applications == AppendUpdate(old(applications), id, ApplicationUpdate(timestamp, status, notes))
    {
      if id in applications {
        var app := applications[id];
        applications := applications[id := app.(statusHistory := app.statusHistory + [ApplicationUpdate(timestamp, status, notes)])];
      }
    }

    /** The first timer of a submission: the application goes under review. */
    method ReviewTimerFires(id: string, timestamp: string)
      requires Valid()
      modifies this
      ensures Valid()
      ensures applications == AppendUpdate(old(applications), id, ApplicationUpdate(timestamp, UnderReview, UnderReviewNote))
    {
      UpdateStatus(id, timestamp, UnderReview, UnderReviewNote);
    }

    /** The second timer of a submission: one final status, chosen by `pick`. */
    method DecisionTimerFires(id: string, timestamp: string, pick: nat)
      requires Valid() && pick < 3
      modifies this
      ensures Valid()
      ensures applications == AppendUpdate(old(applications), id, FinalUpdate(pick, timestamp))
    {
      var u := FinalUpdate(pick, timestamp);
      UpdateStatus(id, timestamp, u.status, u.notes);
    }
  }
}
