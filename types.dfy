/** The records of the system and the `find` callbacks the pages and the service share. */
module Types {
  import opened Common
  import opened Seqs

  datatype Role = Admin | Viewer

  datatype User = User(id: string, name: string, surname: string, email: string, role: Role)

  /** A user whose role is narrowed to `admin`. */
  type AdminUser = u: User | u.role == Admin witness User("", "", "", "", Admin)

  /** A user whose role is narrowed to `viewer`. */
  type ViewerUser = u: User | u.role == Viewer witness User("", "", "", "", Viewer)

  /** A venue; its dates are kept in order and may repeat. */
  datatype Venue = Venue(id: string, name: string, location: string, availableDates: seq<string>)

  datatype Status = Pending | Approved | Denied

  /** The statuses an administrator may set: `'approved' | 'denied'`. */
  type Decision = s: Status | s != Pending witness Approved

  /** One user's request for one date at one venue. */
  datatype Application = Application(id: string, userId: string, venueId: string, date: string, status: Status)

  /** A user is an admin or a viewer, never both. */
  lemma RoleIsAdminXorViewer(u: User)
    ensures (u.role == Admin) != (u.role == Viewer)
  {
  }

  /** The narrowed user types never share a value. */
  lemma AdminAndViewerDisjoint(a: AdminUser, v: ViewerUser)
    ensures a.role == Admin && v.role == Viewer && a != v
  {
  }

  /** Some user in the list has exactly this email (case-sensitive, as `===` compares). */
  predicate HasEmail(users: seq<User>, email: string)
  {
    exists i :: 0 <= i < |users| && users[i].email == email
  }

  /** A `find` by email is truthy exactly when some user has the email. */
  lemma FoundIffHasEmail(users: seq<User>, email: string)
    ensures FindUserByEmail(users, email).Some? <==> HasEmail(users, email)
  {
  }

  /** `users.find(u => u.email === email)`, as the index of the first match. */
  function FindUserByEmail(users: seq<User>, email: string): (r: Option<nat>)
    ensures r.Some? ==> r.value < |users| && users[r.value].email == email
    ensures r.Some? ==> forall j :: 0 <= j < r.value ==> users[j].email != email
    ensures r.None? <==> !HasEmail(users, email)
  {
    FindIndex(users, (u: User) => u.email == email)
  }

  /** `venues.find(v => v.id === id)`, as the index of the first match. */
  function FindVenue(venues: seq<Venue>, id: string): (r: Option<nat>)
    ensures r.Some? ==> r.value < |venues| && venues[r.value].id == id
    ensures r.Some? ==> forall j :: 0 <= j < r.value ==> venues[j].id != id
    ensures r.None? <==> forall j :: 0 <= j < |venues| ==> venues[j].id != id
  {
    FindIndex(venues, (v: Venue) => v.id == id)
  }

  /** Pairwise distinct emails. */
  ghost predicate EmailsDistinct(users: seq<User>)
  {
    forall i, j :: 0 <= i < j < |users| ==> users[i].email != users[j].email
  }
}
