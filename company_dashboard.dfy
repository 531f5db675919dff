/** The company administrator's dashboard: the staff list, the
    suspend/activate toggle and the attendance-history calendar. */
module CompanyDashboard {
  import opened Wrappers
  import opened Seqs
  import opened Calendar

  /** An employee record as the API lists it. `status` and `deletedAt` may be
      missing; a truthy `deletedAt` marks a soft-deleted employee. */
  datatype Employee = Employee(id: int, employeeId: string, name: string,
                               status: Option<string>, deletedAt: Option<string>)

  /** `!e.deleted_at`. */
  predicate NotDeleted(e: Employee) {
    !Truthy(e.deletedAt)
  }

  /** The list `loadEmployees` keeps: the entries that are not soft-deleted. */
  function LoadedEmployees(all: seq<Employee>): (r: seq<Employee>)
    ensures |r| <= |all|
    ensures forall i :: 0 <= i < |r| ==> r[i] in all && !Truthy(r[i].deletedAt)
    ensures forall i :: 0 <= i < |all| && !Truthy(all[i].deletedAt) ==> all[i] in r
  {
    Filter(all, NotDeleted)
  }

  /** The staff list keeps the input order: loading two pages one after the
      other gives the two loaded lists one after the other, a kept entry
      stays, a deleted one goes. */
  lemma LoadedEmployeesInOrder(a: seq<Employee>, b: seq<Employee>, e: Employee)
    ensures LoadedEmployees(a + b) == LoadedEmployees(a) + LoadedEmployees(b)
    ensures LoadedEmployees([e]) == if Truthy(e.deletedAt) then [] else [e]
  {
    FilterConcat(a, b, NotDeleted);
  }

  /** A list without soft-deleted entries is loaded unchanged. */
  lemma {:induction false} LoadedEmployeesUnchanged(all: seq<Employee>)
    requires forall i :: 0 <= i < |all| ==> !Truthy(all[i].deletedAt)
    ensures LoadedEmployees(all) == all
  {
    if all != [] {
      LoadedEmployeesUnchanged(all[1..]);
    }
  }

  /** The status `handleToggleStatus` sends: `'active'` for a suspended
      employee, `'suspended'` for any other status, a missing one included. */
  function ToggledStatus(e: Employee): (s: string)
    ensures s == "active" <==> e.status == Some("suspended")
    ensures s == "suspended" <==> e.status != Some("suspended")
  {
    if e.status == Some("suspended") then "active" else "suspended"
  }

  /** The status badge of the staff table: `emp.status || 'active'`. */
  function StatusBadge(e: Employee): (s: string)
    ensures s != ""
    ensures Truthy(e.status) ==> s == e.status.value
    ensures !Truthy(e.status) ==> s == "active"
    ensures s == "active" <==> !Truthy(e.status) || e.status == Some("active")
  {
    OrDefault(e.status, "active")
  }

  /** Toggling twice gives back an `'active'` or `'suspended'` status. */
  lemma ToggleTwice(e: Employee)
    requires e.status == Some("active") || e.status == Some("suspended")
    ensures ToggledStatus(e.(status := Some(ToggledStatus(e)))) == e.status.value
  {
  }

  /** The toggle always moves an employee away from the status the badge
      shows, and once the stored status is the one sent (the list is
      reloaded from the server after the update), the badge shows it. */
  lemma ToggleChangesBadge(e: Employee)
    ensures ToggledStatus(e) != StatusBadge(e)
    ensures StatusBadge(e.(status := Some(ToggledStatus(e)))) == ToggledStatus(e)
  {
  }

  /** The tile colours of the company calendar. */
  const LateClass := "bg-orange-100 text-orange-600 font-bold"
  const PresentClass := "bg-green-100 text-green-600 font-bold"

  /** `getTileClassName` over the selected employee's history. */
  function TileClassName(history: seq<Log>, d: Date, view: View): (c: Option<string>)
    ensures c == None <==> view != Month || !HasLogOn(history, d)
    ensures c == Some(LateClass) <==> view == Month && HasLateOn(history, d)
    ensures c == Some(PresentClass) <==> view == Month && HasLogOn(history, d) && !HasLateOn(history, d)
  {
    match DayStatus(history, d, view)
    case NoMark => None
    case Late => Some(LateClass)
    case Present => Some(PresentClass)
  }
}
