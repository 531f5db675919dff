/** Attendance logs as the API returns them, and the calendar day-status rule
    that both dashboards apply to colour the tiles of their month view. */
module Calendar {
  import opened Wrappers
  import opened Seqs

  /** A local calendar day: what `getFullYear`, `getMonth` and `getDate`
      return for a date in the browser's time zone. */
  datatype Date = Date(year: int, month: int, day: int)

  /** A log's timestamp read in local time: its calendar day and the second
      of that day. */
  datatype Stamp = Stamp(date: Date, secondOfDay: nat)

  /** The `type` field of a log: `'check_in'` or `'check_out'`. */
  datatype Kind = CheckIn | CheckOut

  /** One attendance log. `stamp` is `None` when the timestamp does not parse
      (every date getter of an invalid date is `NaN`, which equals nothing);
      `status` is the label the server attached, if any. */
  datatype Log = Log(kind: Kind, stamp: Option<Stamp>, status: Option<string>)

  /** The views of the calendar widget; only the month view shows day tiles. */
  datatype View = Month | Year | Decade | Century

  /** The three outcomes of the tile rule: no class, the Late colour, the
      Present (on-time) colour. */
  datatype Tile = NoMark | Present | Late

  /** The filter of the tile rule: the log's local year, month and day all
      equal the tile's. The time of day takes no part. */
  predicate OnDate(l: Log, d: Date) {
    l.stamp.Some? && l.stamp.value.date == d
  }

  /** `log.status === 'Late'`. */
  predicate IsLate(l: Log) {
    l.status == Some("Late")
  }

  /** Some log is dated on `d`. */
  ghost predicate HasLogOn(logs: seq<Log>, d: Date) {
    exists i :: 0 <= i < |logs| && OnDate(logs[i], d)
  }

  /** Some log dated on `d` is marked Late. */
  ghost predicate HasLateOn(logs: seq<Log>, d: Date) {
    exists i :: 0 <= i < |logs| && OnDate(logs[i], d) && IsLate(logs[i])
  }

  /** `dayLogs`: the logs dated on `d`, in their original order. */
  function DayLogs(logs: seq<Log>, d: Date): (r: seq<Log>) {
    Filter(logs, (l: Log) => OnDate(l, d))
  }

  /** The day-status rule of `getTileClassName`: outside the month view, or
      on a day without logs, no mark; otherwise Late when any of the day's
      logs is Late, Present when none is. */
  function DayStatus(logs: seq<Log>, d: Date, view: View): (t: Tile)
    ensures t == NoMark <==> view != Month || !HasLogOn(logs, d)
    ensures t == Late <==> view == Month && HasLateOn(logs, d)
    ensures t == Present <==> view == Month && HasLogOn(logs, d) && !HasLateOn(logs, d)
  {
    if view == Month then
      var dayLogs := DayLogs(logs, d);
      if |dayLogs| > 0 then
        if Any(dayLogs, IsLate) then Late else Present
      else NoMark
    else NoMark
  }

  /** `DayLogs` of a concatenation is the concatenation of the `DayLogs`. */
  lemma DayLogsConcat(a: seq<Log>, b: seq<Log>, d: Date)
    ensures DayLogs(a + b, d) == DayLogs(a, d) + DayLogs(b, d)
  {
    FilterConcat(a, b, (l: Log) => OnDate(l, d));
  }

  /** Logs dated on other days never change a tile: inserting a block of
      them anywhere in the history, or removing one, leaves it as it was. */
  lemma {:induction false} OtherDaysIrrelevant(a: seq<Log>, b: seq<Log>, c: seq<Log>, d: Date, view: View)
    requires forall i :: 0 <= i < |b| ==> !OnDate(b[i], d)
    ensures DayStatus(a + b + c, d, view) == DayStatus(a + c, d, view)
  {
    NoDayLogs(b, d);
    DayLogsSkip(a, b, c, d);
    SameDayLogsSameStatus(a + b + c, a + c, d, view);
  }

  /** A block without logs on `d` contributes nothing to the day's logs. */
  lemma DayLogsSkip(a: seq<Log>, b: seq<Log>, c: seq<Log>, d: Date)
    requires DayLogs(b, d) == []
    ensures DayLogs(a + b + c, d) == DayLogs(a + c, d)
  {
    FilterSkip(a, b, c, (l: Log) => OnDate(l, d));
  }

  /** A history without a log on `d` has no day logs for `d`. */
  lemma NoDayLogs(b: seq<Log>, d: Date)
    requires forall i :: 0 <= i < |b| ==> !OnDate(b[i], d)
    ensures DayLogs(b, d) == []
  {
  }

  /** The tile depends on the history only through the day's logs. */
  lemma SameDayLogsSameStatus(x: seq<Log>, y: seq<Log>, d: Date, view: View)
    requires DayLogs(x, d) == DayLogs(y, d)
    ensures DayStatus(x, d, view) == DayStatus(y, d, view)
  {
  }

  /** Only the calendar day of a log matters, not its time: moving one log to
      another time of the same day changes no tile. */
  lemma {:induction false} TimeOfDayIrrelevant(logs: seq<Log>, k: nat, second: nat, d: Date, view: View)
    requires k < |logs| && logs[k].stamp.Some?
    ensures DayStatus(logs[k := logs[k].(stamp := Some(logs[k].stamp.value.(secondOfDay := second)))], d, view)
         == DayStatus(logs, d, view)
  {
    var moved := logs[k := logs[k].(stamp := Some(logs[k].stamp.value.(secondOfDay := second)))];
    assert forall i :: 0 <= i < |logs| ==> (OnDate(moved[i], d) <==> OnDate(logs[i], d));
    assert forall i :: 0 <= i < |logs| ==> (IsLate(moved[i]) <==> IsLate(logs[i]));
    assert HasLogOn(moved, d) <==> HasLogOn(logs, d);
    assert HasLateOn(moved, d) <==> HasLateOn(logs, d);
  }
}
