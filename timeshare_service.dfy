/**
 * The in-memory venue and slot-application repository. Every operation is one atomic step;
 * an operation that throws in the service returns `Fail`/`Failure` here and changes nothing.
 */
module TimeshareServices {
  import opened Common
  import opened Seqs
  import opened Ids
  import opened Types

  /** A thrown `Error`, carrying its message. */
  datatype ServiceError = Error(message: string)

  const NotAdminError := Error("Only admins can perform this action")

  /** The venue the service starts with. */
  const SeedVenue := Venue("venue1", "Beach House", "Cape Town", ["2025-08-10", "2025-08-11"])

  /** A venue without its id: what a caller hands to `addVenue`. */
  datatype VenueDraft = VenueDraft(name: string, location: string, availableDates: seq<string>)

  /** The role check guarding every administrative operation. */
  function RestrictToAdmin(user: User): (r: Outcome<ServiceError>)
    ensures r.Pass? <==> user.role == Admin
    ensures r.Fail? ==> r.error == NotAdminError
  {
    if user.role != Admin then Fail(NotAdminError) else Pass
  }

  /** An admin always passes the check, a viewer never does. */
  lemma RestrictToAdminByType(a: AdminUser, v: ViewerUser)
    ensures RestrictToAdmin(a) == Pass
    ensures RestrictToAdmin(v) == Fail(NotAdminError)
  {
  }

  /** The venue list without any venue carrying `id`, in the original order. */
  function RemoveVenue(venues: seq<Venue>, id: string): (r: seq<Venue>)
    ensures forall v :: v in r <==> v in venues && v.id != id
    ensures (forall j :: 0 <= j < |venues| ==> venues[j].id != id) ==> r == venues
  {
    Filter(venues, (v: Venue) => v.id != id)
  }

  /** Deleting a venue id twice leaves the same list as deleting it once. */
  lemma RemoveVenueIdempotent(venues: seq<Venue>, id: string)
    ensures RemoveVenue(RemoveVenue(venues, id), id) == RemoveVenue(venues, id)
  {
  }

  /** Deleting distributes over concatenation: the venues kept stay in their order. */
  lemma RemoveVenueKeepsOrder(a: seq<Venue>, b: seq<Venue>, id: string)
    ensures RemoveVenue(a + b, id) == RemoveVenue(a, id) + RemoveVenue(b, id)
  {
    FilterAppend(a, b, (v: Venue) => v.id != id);
  }

  /** The applications whose status is pending, in list order. */
  function PendingOf(apps: seq<Application>): (r: seq<Application>)
    ensures forall a :: a in r <==> a in apps && a.status == Pending
  {
    Filter(apps, (a: Application) => a.status == Pending)
  }

  /** A pending application appended to the list is appended to the pending ones. */
  lemma PendingOfAppend(apps: seq<Application>, a: Application)
    ensures PendingOf(apps + [a]) == PendingOf(apps) + (if a.status == Pending then [a] else [])
  {
    var p := (x: Application) => x.status == Pending;
    FilterAppend(apps, [a], p);
    assert [a][1..] == [];
  }

  /** Application `i` of the list carries the id `app-(i+1)`. */
  ghost predicate IdsSequential(apps: seq<Application>)
  {
    forall i :: 0 <= i < |apps| ==> apps[i].id == AppId(i + 1)
  }

  /** Sequential ids are pairwise distinct. */
  lemma SequentialIdsDistinct(apps: seq<Application>)
    requires IdsSequential(apps)
    ensures forall i, j :: 0 <= i < j < |apps| ==> apps[i].id != apps[j].id
  {
    forall i, j | 0 <= i < j < |apps| ensures apps[i].id != apps[j].id {
      AppIdInjective(i + 1, j + 1);
    }
  }

  /** Changing a status keeps every id, so the ids stay sequential. */
  lemma SetStatusKeepsIds(apps: seq<Application>, k: nat, s: Status)
    requires IdsSequential(apps) && k < |apps|
    ensures IdsSequential(apps[k := apps[k].(status := s)])
  {
    var updated := apps[k := apps[k].(status := s)];
    forall i | 0 <= i < |updated| ensures updated[i].id == AppId(i + 1) {
      assert updated[i].id == apps[i].id;
    }
  }

  /**
   * Setting the status of application `k`, whose id is `id`, sets it on every application
   * carrying `id`, since the ids are distinct, and leaves no pending application with that id.
   */
  lemma SetStatusById(apps: seq<Application>, id: string, k: nat, s: Decision)
    requires IdsSequential(apps) && k < |apps| && apps[k].id == id
    ensures IdsSequential(apps[k := apps[k].(status := s)])
    ensures forall j :: 0 <= j < |apps| ==>
      apps[k := apps[k].(status := s)][j] == if apps[j].id == id then apps[j].(status := s) else apps[j]
    ensures forall a :: a in PendingOf(apps[k := apps[k].(status := s)]) ==> a.id != id
  {
    SetStatusKeepsIds(apps, k, s);
    SequentialIdsDistinct(apps);
    DecidedNotPending(apps, k, s);
  }

  /** Once application `k` is decided, no pending application carries its id. */
  lemma DecidedNotPending(apps: seq<Application>, k: nat, s: Decision)
    requires IdsSequential(apps) && k < |apps|
    ensures forall a :: a in PendingOf(apps[k := apps[k].(status := s)]) ==> a.id != apps[k].id
  {
    var updated := apps[k := apps[k].(status := s)];
    SequentialIdsDistinct(apps);
    forall a | a in PendingOf(updated) ensures a.id != apps[k].id {
      var j :| 0 <= j < |updated| && updated[j] == a;
      if j < k {
        assert apps[j].id != apps[k].id;
      } else if j > k {
        assert apps[k].id != apps[j].id;
      }
    }
  }

  class TimeshareService {
    var venues: seq<Venue>
    var applications: seq<Application>

    /** The application list only grows, so each application keeps the id it was given. */
    ghost predicate Valid()
      reads this
    {
      IdsSequential(applications)
    }

    constructor ()
      ensures Valid()
      ensures venues == [SeedVenue] && applications == []
    {
      venues := [SeedVenue];
      applications := [];
    }

    method AddVenue(user: User, draft: VenueDraft) returns (r: Result<Venue, ServiceError>)
      requires Valid()
      modifies this
      ensures Valid() && applications == old(applications)
      ensures user.role != Admin ==> r == Failure(NotAdminError) && venues == old(venues)
      ensures user.role == Admin ==>
        && r == Success(Venue(VenueId(|old(venues)| + 1), draft.name, draft.location, draft.availableDates))
        && venues == old(venues) + [r.value]
    {
      var check := RestrictToAdmin(user);
      if check.Fail? {
        return Failure(check.error);
      }
      var v := Venue(VenueId(|venues| + 1), draft.name, draft.location, draft.availableDates);
      venues := venues + [v];
      r := Success(v);
    }

    method DeleteVenue(user: User, venueId: string) returns (r: Outcome<ServiceError>)
      requires Valid()
      modifies this
      ensures Valid() && applications == old(applications)
      ensures user.role != Admin ==> r == Fail(NotAdminError) && venues == old(venues)
      ensures user.role == Admin ==> r == Pass && venues == RemoveVenue(old(venues), venueId)
    {
      r := RestrictToAdmin(user);
      if r.Fail? {
        return;
      }
      venues := RemoveVenue(venues, venueId);
    }

    method AddAvailableDates(user: User, venueId: string, dates: seq<string>) returns (r: Outcome<ServiceError>)
      requires Valid()
      modifies this
      ensures Valid() && applications == old(applications)
      ensures user.role != Admin ==> r == Fail(NotAdminError) && venues == old(venues)
      ensures user.role == Admin ==> r == Pass
      ensures user.role == Admin ==>
        match FindVenue(old(venues), venueId)
        case None => venues == old(venues)
        case Some(k) =>
          venues == old(venues)[k := old(venues)[k].(availableDates := old(venues)[k].availableDates + dates)]
    {
      r := RestrictToAdmin(user);
      if r.Fail? {
        return;
      }
      var found := FindVenue(venues, venueId);
      if found.Some? {
        var k := found.value;
        venues := venues[k := venues[k].(availableDates := venues[k].availableDates + dates)];
      }
    }

    method UpdateAvailableDates(user: User, venueId: string, dates: seq<string>) returns (r: Outcome<ServiceError>)
      requires Valid()
      modifies this
      ensures Valid() && applications == old(applications)
      ensures user.role != Admin ==> r == Fail(NotAdminError) && venues == old(venues)
      ensures user.role == Admin ==> r == Pass
      ensures user.role == Admin ==>
        match FindVenue(old(venues), venueId)
        case None => venues == old(venues)
        case Some(k) => venues == old(venues)[k := old(venues)[k].(availableDates := dates)]
    {
      r := RestrictToAdmin(user);
      if r.Fail? {
        return;
      }
      var found := FindVenue(venues, venueId);
      if found.Some? {
        var k := found.value;
        venues := venues[k := venues[k].(availableDates := dates)];
      }
    }

    method GetVenues() returns (r: seq<Venue>)
      ensures r == venues
    {
      r := venues;
    }

    /** Open to every user: no role check. */
    method ApplyForSlot(user: User, venueId: string, date: string) returns (a: Application)
      requires Valid()
      modifies this
      ensures Valid() && venues == old(venues)
      ensures a == Application(AppId(|old(applications)| + 1), user.id, venueId, date, Pending)
      ensures applications == old(applications) + [a]
    {
      a := Application(AppId(|applications| + 1), user.id, venueId, date, Pending);
      applications := applications + [a];
    }

    method UpdateApplicationStatus(user: User, applicationId: string, status: Decision)
      returns (r: Outcome<ServiceError>)
      requires Valid()
      modifies this
      ensures Valid() && venues == old(venues) && |applications| == |old(applications)|
      ensures user.role != Admin ==> r == Fail(NotAdminError) && applications == old(applications)
      ensures user.role == Admin ==> r == Pass
      ensures user.role == Admin ==>
        if exists k :: 0 <= k < |old(applications)| && old(applications)[k].id == applicationId then
          forall k :: 0 <= k < |applications| ==>
            applications[k] == if old(applications)[k].id == applicationId
                               then old(applications)[k].(status := status)
                               else old(applications)[k]
        else applications == old(applications)
      ensures user.role == Admin ==>
        forall a :: a in PendingOf(applications) ==> a.id != applicationId
    {
      r := RestrictToAdmin(user);
      if r.Fail? {
        return;
      }
      var found := FindIndex(applications, (a: Application) => a.id == applicationId);
      if found.Some? {
        var k := found.value;
        SetStatusById(applications, applicationId, k, status);
        applications := applications[k := applications[k].(status := status)];
      } else {
        forall a | a in PendingOf(applications) ensures a.id != applicationId {
          var j :| 0 <= j < |applications| && applications[j] == a;
        }
      }
    }

    method GetPendingApplications() returns (r: seq<Application>)
      ensures r == PendingOf(applications)
    {
      r := PendingOf(applications);
    }
  }

  /**
   * A client run: an admin adds a venue, a viewer applies for one of its dates, the admin
   * approves, and nothing is pending any more.
   */
  method ApprovalScenario()
  {
    var admin := User("admin1", "John", "Doe", "admin@example.com", Admin);
    var viewer := User("user-1", "Ann", "Lee", "ann@example.com", Viewer);
    var service := new TimeshareService();
    var added := service.AddVenue(admin, VenueDraft("Beach House", "Cape Town", ["2025-08-10", "2025-08-11"]));
    assert added.value.id == VenueId(2);
    var app := service.ApplyForSlot(viewer, added.value.id, "2025-08-10");
    var pending := service.GetPendingApplications();
    assert pending == [app] by { PendingOfAppend([], app); }
    var denied := service.UpdateApplicationStatus(viewer, app.id, Approved);
    assert denied == Fail(NotAdminError);
    var approved := service.UpdateApplicationStatus(admin, app.id, Approved);
    assert approved == Pass;
    pending := service.GetPendingApplications();
    assert service.applications == [app.(status := Approved)];
    assert pending == [] by { PendingOfAppend([], app.(status := Approved)); }
  }

  /** `venue-(length+1)` can hand out an id that is still in use after a deletion. */
  method VenueIdReuseScenario() returns (venues: seq<Venue>)
    ensures |venues| == 2 && venues[0].id == venues[1].id == VenueId(2)
    ensures venues[0] != venues[1]
  {
    var admin := User("admin1", "John", "Doe", "admin@example.com", Admin);
    var service := new TimeshareService();
    var first := service.AddVenue(admin, VenueDraft("Beach House", "Cape Town", []));
    var _ := service.DeleteVenue(admin, "venue1");
    assert service.venues == [first.value];
    var second := service.AddVenue(admin, VenueDraft("Lake Cabin", "Knysna", []));
    assert first.value.id == second.value.id == VenueId(2);
    venues := service.venues;
  }
}
