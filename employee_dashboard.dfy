/** The employee's own dashboard: the attendance calendar, the summary
    statistics and the recent-activity table. */
module EmployeeDashboard {
  import opened Wrappers
  import opened Seqs
  import opened Calendar
  import CompanyDashboard

  /** The tile colours of the employee calendar. */
  const LateClass := "bg-orange-100 text-orange-600 font-bold border-2 border-orange-300"
  const PresentClass := "bg-green-100 text-green-600 font-bold border-2 border-green-300"

  /** `getTileClassName` over the employee's attendance. */
  function TileClassName(attendance: seq<Log>, d: Date, view: View): (c: Option<string>)
    ensures c == None <==> view != Month || !HasLogOn(attendance, d)
    ensures c == Some(LateClass) <==> view == Month && HasLateOn(attendance, d)
    ensures c == Some(PresentClass) <==> view == Month && HasLogOn(attendance, d) && !HasLateOn(attendance, d)
  {
    match DayStatus(attendance, d, view)
    case NoMark => None
    case Late => Some(LateClass)
    case Present => Some(PresentClass)
  }

  /** Both dashboards classify every tile alike; only the colour strings differ. */
  lemma SameClassification(logs: seq<Log>, d: Date, view: View)
    ensures TileClassName(logs, d, view) == None
        <==> CompanyDashboard.TileClassName(logs, d, view) == None
    ensures TileClassName(logs, d, view) == Some(LateClass)
        <==> CompanyDashboard.TileClassName(logs, d, view) == Some(CompanyDashboard.LateClass)
    ensures TileClassName(logs, d, view) == Some(PresentClass)
        <==> CompanyDashboard.TileClassName(logs, d, view) == Some(CompanyDashboard.PresentClass)
  {
  }

  predicate IsCheckIn(l: Log) {
    l.kind == CheckIn
  }

  predicate IsCheckOut(l: Log) {
    l.kind == CheckOut
  }

  /** `totalPresent`: the number of check-in entries. */
  function TotalPresent(attendance: seq<Log>): (n: nat)
    ensures n <= |attendance|
    ensures n == 0 <==> forall i :: 0 <= i < |attendance| ==> attendance[i].kind == CheckOut
    ensures n == |attendance| <==> forall i :: 0 <= i < |attendance| ==> attendance[i].kind == CheckIn
  {
    |Filter(attendance, IsCheckIn)|
  }

  /** `totalLate`: the number of entries marked Late, whatever their type. */
  function TotalLate(attendance: seq<Log>): (n: nat)
    ensures n <= |attendance|
    ensures n == 0 <==> forall i :: 0 <= i < |attendance| ==> attendance[i].status != Some("Late")
  {
    |Filter(attendance, IsLate)|
  }

  /** Both counts add up over concatenated lists; a single entry adds one to
      `totalPresent` exactly when it is a check-in and one to `totalLate`
      exactly when it is marked Late. */
  lemma CountsAdditive(a: seq<Log>, b: seq<Log>, l: Log)
    ensures TotalPresent(a + b) == TotalPresent(a) + TotalPresent(b)
    ensures TotalLate(a + b) == TotalLate(a) + TotalLate(b)
    ensures TotalPresent([l]) == if l.kind == CheckIn then 1 else 0
    ensures TotalLate([l]) == if l.status == Some("Late") then 1 else 0
  {
    FilterConcat(a, b, IsCheckIn);
    FilterConcat(a, b, IsLate);
  }

  /** Every entry is either counted by `totalPresent` or is a check-out. */
  lemma {:induction false} PresentAndCheckOutsPartition(attendance: seq<Log>)
    ensures TotalPresent(attendance) + |Filter(attendance, IsCheckOut)| == |attendance|
  {
    if attendance != [] {
      PresentAndCheckOutsPartition(attendance[1..]);
    }
  }

  /** `Math.round(p / 30 * 100)`: `p` as a percentage of 30 days, rounded
      to the nearest integer, halves upwards. */
  function PercentOf30(p: nat): (r: nat)
    ensures r as real == (100.0 * (p as real) / 30.0 + 0.5).Floor as real
    ensures 6 * r <= 20 * p + 3 < 6 * r + 6
    ensures -1 <= 3 * r - 10 * p <= 1
  {
    var r := (20 * p + 3) / 6;
    RealRounding(p, r);
    r
  }

  /** The integer division agrees with `Math.round` taken over the reals. */
  lemma RealRounding(p: nat, r: int)
    requires 6 * r <= 20 * p + 3 < 6 * r + 6
    ensures r as real == (100.0 * (p as real) / 30.0 + 0.5).Floor as real
  {
    var x := 100.0 * (p as real) / 30.0 + 0.5;
    assert x == ((20 * p + 3) as real) / 6.0;
    assert r as real <= x < r as real + 1.0;
    var f := x.Floor;
    assert f as real <= x < f as real + 1.0;
    assert (f - r) as real < 1.0 && (r - f) as real < 1.0;
    assert f == r;
  }

  /** `attendanceRate`: 0 for an empty list, otherwise the rounded percentage
      of check-ins over 30 days. */
  function AttendanceRate(attendance: seq<Log>): (r: nat)
    ensures |attendance| == 0 ==> r == 0
    ensures |attendance| > 0 ==> 6 * r <= 20 * TotalPresent(attendance) + 3 < 6 * r + 6
    ensures |attendance| > 0 ==> r == PercentOf30(TotalPresent(attendance))
    ensures |attendance| > 0 ==> r as real == (100.0 * (TotalPresent(attendance) as real) / 30.0 + 0.5).Floor as real
  {
    if |attendance| > 0 then PercentOf30(TotalPresent(attendance)) else 0
  }

  /** The rounding never meets a tie: `10p/3` is never an integer plus a half,
      so the rounded value is the unique integer within a third of it. */
  lemma PercentOf30Nearest(p: nat, q: int)
    requires -1 <= 3 * q - 10 * p <= 1
    ensures q == PercentOf30(p)
  {
  }

  /** More check-ins never lower the rate. */
  lemma PercentOf30Monotone(p: nat, q: nat)
    requires p <= q
    ensures PercentOf30(p) <= PercentOf30(q)
  {
  }

  /** The rate is 0 exactly when there is no check-in (all check-outs, or no
      entries at all). */
  lemma RateZeroIffNoCheckIn(attendance: seq<Log>)
    ensures AttendanceRate(attendance) == 0 <==> TotalPresent(attendance) == 0
  {
  }

  /** The rate is not capped: 30 check-ins give exactly 100, more give more. */
  lemma RateNotCapped(attendance: seq<Log>)
    ensures TotalPresent(attendance) == 30 ==> AttendanceRate(attendance) == 100
    ensures TotalPresent(attendance) > 30 ==> AttendanceRate(attendance) > 100
  {
  }

  /** A Late tile on the calendar implies a Late entry in `totalLate`; with no
      Late entry, no tile is Late. */
  lemma LateTileCounted(attendance: seq<Log>, d: Date, view: View)
    ensures DayStatus(attendance, d, view) == Late ==> TotalLate(attendance) > 0
    ensures TotalLate(attendance) == 0 ==> DayStatus(attendance, d, view) != Late
  {
  }

  /** The entries of the recent-activity table: `attendance.slice(0, 10)`. */
  function RecentActivity(attendance: seq<Log>): (r: seq<Log>)
    ensures |r| == if |attendance| < 10 then |attendance| else 10
    ensures forall i :: 0 <= i < |r| ==> r[i] == attendance[i]
  {
    Take(attendance, 10)
  }

  /** The status column of the activity table: `log.status || 'On Time'`. */
  function StatusLabel(l: Log): (s: string)
    ensures s != ""
    ensures Truthy(l.status) ==> s == l.status.value
    ensures !Truthy(l.status) ==> s == "On Time"
  {
    OrDefault(l.status, "On Time")
  }

  /** The status badge is orange (`log.status === 'Late'`) exactly when its
      label reads Late. */
  lemma LateBadgeIffLateLabel(l: Log)
    ensures IsLate(l) <==> StatusLabel(l) == "Late"
  {
  }
}
