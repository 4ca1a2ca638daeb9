/** The work-hours calculator page: a list of shifts, each with a start and an end clock
    time, a break; the hours of every shift and their total. A `NaN` of the page is `None`. */
module HoursCalculator {
  import opened Wrappers
  import opened Seqs
  import opened Text
  import TimeUtils

  datatype TimeEntry = TimeEntry(id: string, startTime: string, endTime: string, breakMinutes: int, description: string)

  const MinutesPerDay: int := 24 * 60

  /** The entry the page starts with. */
  const InitialEntries: seq<TimeEntry> := [TimeEntry("1", "09:00", "17:00", 60, "工作日")]

  /** `addEntry`, with the random id as a parameter: a 09:00 to 17:00 shift without break or
      description goes at the end. */
  function AddEntry(entries: seq<TimeEntry>, id: string): (r: seq<TimeEntry>)
    ensures |r| == |entries| + 1 && r[..|entries|] == entries
    ensures r[|entries|] == TimeEntry(id, "09:00", "17:00", 0, "")
  {
    entries + [TimeEntry(id, "09:00", "17:00", 0, "")]
  }

  function NotId(id: string): TimeEntry -> bool {
    (e: TimeEntry) => e.id != id
  }

  /** `removeEntry(id)` */
  function RemoveEntry(entries: seq<TimeEntry>, id: string): seq<TimeEntry> {
    Filter(entries, NotId(id))
  }

  /** Removing keeps exactly the entries with another id, in their order. */
  lemma RemoveEntrySpec(entries: seq<TimeEntry>, id: string, e: TimeEntry)
    ensures e in RemoveEntry(entries, id) <==> e in entries && e.id != id
    ensures forall i :: 0 <= i < |RemoveEntry(entries, id)| ==> RemoveEntry(entries, id)[i].id != id
    ensures (forall i :: 0 <= i < |entries| ==> entries[i].id != id) ==> RemoveEntry(entries, id) == entries
  {
    FilterMember(entries, NotId(id), e);
    if forall i :: 0 <= i < |entries| ==> entries[i].id != id {
      FilterAll(entries, NotId(id));
    }
  }

  /** The four fields a form control writes, each with the type its control gives. */
  datatype FieldUpdate =
    | StartTime(startTime: string)
    | EndTime(endTime: string)
    | BreakMinutes(breakMinutes: int)
    | Description(description: string)

  function Apply(e: TimeEntry, u: FieldUpdate): TimeEntry {
    match u
    case StartTime(s) => e.(startTime := s)
    case EndTime(s) => e.(endTime := s)
    case BreakMinutes(b) => e.(breakMinutes := b)
    case Description(d) => e.(description := d)
  }

  /** `updateEntry(id, field, value)`: the field changes in the entries with that id only. */
  function UpdateEntry(entries: seq<TimeEntry>, id: string, u: FieldUpdate): (r: seq<TimeEntry>)
    ensures |r| == |entries|
    ensures forall i :: 0 <= i < |entries| && entries[i].id != id ==> r[i] == entries[i]
    ensures forall i :: 0 <= i < |entries| && entries[i].id == id ==> r[i] == Apply(entries[i], u)
  {
    seq(|entries|, i requires 0 <= i < |entries| => if entries[i].id == id then Apply(entries[i], u) else entries[i])
  }

  /** An update replaces its own field and leaves the id and the three other fields alone. */
  lemma ApplyTouchesOneField(e: TimeEntry, u: FieldUpdate)
    ensures Apply(e, u).id == e.id
    ensures Apply(e, u).startTime == (if u.StartTime? then u.startTime else e.startTime)
    ensures Apply(e, u).endTime == (if u.EndTime? then u.endTime else e.endTime)
    ensures Apply(e, u).breakMinutes == (if u.BreakMinutes? then u.breakMinutes else e.breakMinutes)
    ensures Apply(e, u).description == (if u.Description? then u.description else e.description)
  {
  }

  /** The break field's input: `parseInt(text) || 0`. */
  function BreakFromInput(text: string): (r: int)
    ensures ParseInt(text).None? ==> r == 0
    ensures ParseInt(text).Some? ==> r == ParseInt(text).value
  {
    match ParseInt(text)
    case Some(n) => n
    case None => 0
  }

  /** `const [h, m] = s.split(':').map(Number)` then `h * 60 + m`; a missing minute or a part
      that is not a number gives `NaN`. */
  function ClockMinutes(s: string): Option<int> {
    var parts := SplitOn(s, ':');
    if |parts| < 2 then None
    else
      match (NumberOf(parts[0]), NumberOf(parts[1]))
      case (Some(h), Some(m)) => Some(h * 60 + m)
      case _ => None
  }

  /** A valid clock text reads as its minutes since midnight. */
  lemma ClockMinutesOfValid(s: string)
    requires TimeUtils.IsAlarmTimeValid(s)
    ensures TimeUtils.ParseTimeString(s).Some?
    ensures ClockMinutes(s) == Some(TimeUtils.ParseTimeString(s).value.hour * 60 + TimeUtils.ParseTimeString(s).value.minute)
    ensures 0 <= ClockMinutes(s).value < MinutesPerDay
  {
    TimeUtils.ParseAcceptsExactlyValid(s);
    var hd, md := TimeUtils.HourDigits(s), TimeUtils.MinuteDigits(s);
    assert ':' !in hd;
    assert ':' !in md;
    assert s == hd + [':'] + md;
    SplitOnPrefix(hd, ':', md);
    SplitOnNone(md, ':');
  }

  /** The overnight rule: an end not after the start is on the next day. */
  function Span(startMinutes: int, endMinutes: int): int {
    if endMinutes <= startMinutes then endMinutes + MinutesPerDay - startMinutes else endMinutes - startMinutes
  }

  /** Between two times of day the span is the one length from 1 minute to 24 hours that goes
      from the start round to the end; equal times are a whole day. */
  lemma SpanSpec(startMinutes: int, endMinutes: int)
    requires 0 <= startMinutes < MinutesPerDay && 0 <= endMinutes < MinutesPerDay
    ensures 1 <= Span(startMinutes, endMinutes) <= MinutesPerDay
    ensures (startMinutes + Span(startMinutes, endMinutes)) % MinutesPerDay == endMinutes
    ensures Span(startMinutes, endMinutes) == MinutesPerDay <==> startMinutes == endMinutes
  {
  }

  /** `calculateHoursForEntry`: 0 when a time is empty; otherwise the span less the break, in
      hours, and never below 0. */
  function HoursForEntry(e: TimeEntry): (r: Option<real>)
    ensures r.Some? ==> r.value >= 0.0
    ensures e.startTime == "" || e.endTime == "" ==> r == Some(0.0)
  {
    if e.startTime == "" || e.endTime == "" then Some(0.0)
    else
      match (ClockMinutes(e.startTime), ClockMinutes(e.endTime))
      case (Some(s), Some(t)) =>
        var workMinutes := Span(s, t) - e.breakMinutes;
        Some(if workMinutes < 0 then 0.0 else workMinutes as real / 60.0)
      case _ => None
  }

  /** For valid texts the hours are `max(0, span - break) / 60`: always a number, and at most
      24 for a non-negative break. */
  lemma HoursForValidEntry(e: TimeEntry)
    requires TimeUtils.IsAlarmTimeValid(e.startTime) && TimeUtils.IsAlarmTimeValid(e.endTime)
    ensures HoursForEntry(e).Some?
    ensures var span := Span(ClockMinutes(e.startTime).value, ClockMinutes(e.endTime).value);
      HoursForEntry(e).value == (if span - e.breakMinutes < 0 then 0 else span - e.breakMinutes) as real / 60.0
    ensures e.breakMinutes >= 0 ==> HoursForEntry(e).value <= 24.0
  {
    ClockMinutesOfValid(e.startTime);
    ClockMinutesOfValid(e.endTime);
    SpanSpec(ClockMinutes(e.startTime).value, ClockMinutes(e.endTime).value);
  }

  /** A clock text `hh:mm` of two-digit parts reads as its minutes since midnight. */
  lemma ClockMinutesOfDigits(hh: string, mm: string)
    requires |hh| == 2 && |mm| == 2 && AllDigits(hh) && AllDigits(mm)
    ensures ClockMinutes(hh + ":" + mm) == Some(DigitsValue(hh) * 60 + DigitsValue(mm))
  {
    assert hh + ":" + mm == hh + [':'] + mm;
    assert ':' !in hh && ':' !in mm;
    SplitOnPrefix(hh, ':', mm);
    SplitOnNone(mm, ':');
  }

  /** Two two-digit parts: the minutes of `hh:mm`. */
  lemma ClockMinutesOfTwoDigits(hh: string, mm: string, h: nat, m: nat)
    requires |hh| == 2 && |mm| == 2 && AllDigits(hh) && AllDigits(mm)
    requires DigitValue(hh[0]) * 10 + DigitValue(hh[1]) == h && DigitValue(mm[0]) * 10 + DigitValue(mm[1]) == m
    ensures ClockMinutes(hh + ":" + mm) == Some(h * 60 + m)
  {
    TimeUtils.TwoDigitValue(hh);
    TimeUtils.TwoDigitValue(mm);
    ClockMinutesOfDigits(hh, mm);
  }

  /** The default shift of `addEntry` is eight hours. */
  lemma NewEntryIsEightHours(id: string)
    ensures HoursForEntry(TimeEntry(id, "09:00", "17:00", 0, "")) == Some(8.0)
  {
    ClockMinutesOfTwoDigits("09", "00", 9, 0);
    ClockMinutesOfTwoDigits("17", "00", 17, 0);
    assert "09" + ":" + "00" == "09:00" && "17" + ":" + "00" == "17:00";
  }

  /** `entries.reduce((sum, e) => sum + hours(e), 0)`: `NaN` as soon as one entry is. */
  function TotalHours(entries: seq<TimeEntry>): Option<real>
    decreases |entries|
  {
    if entries == [] then Some(0.0)
    else
      match (TotalHours(entries[..|entries| - 1]), HoursForEntry(entries[|entries| - 1]))
      case (Some(sum), Some(h)) => Some(sum + h)
      case _ => None
  }

  /** The total is never negative, and it is a number exactly when every entry's hours are. */
  lemma {:induction false} TotalHoursSpec(entries: seq<TimeEntry>)
    ensures TotalHours(entries).Some? ==> TotalHours(entries).value >= 0.0
    ensures TotalHours(entries).Some? <==> forall i :: 0 <= i < |entries| ==> HoursForEntry(entries[i]).Some?
    decreases |entries|
  {
    if entries != [] {
      var init := entries[..|entries| - 1];
      TotalHoursSpec(init);
      assert forall i :: 0 <= i < |init| ==> init[i] == entries[i];
    }
  }

  /** Adding a shift adds its hours to the total. */
  lemma TotalHoursAppend(entries: seq<TimeEntry>, e: TimeEntry)
    requires TotalHours(entries).Some? && HoursForEntry(e).Some?
    ensures TotalHours(entries + [e]) == Some(TotalHours(entries).value + HoursForEntry(e).value)
  {
    assert (entries + [e])[..|entries|] == entries;
  }

  /** `addEntry` raises a well-defined total by eight hours. */
  lemma AddEntryAddsEight(entries: seq<TimeEntry>, id: string)
    requires TotalHours(entries).Some?
    ensures TotalHours(AddEntry(entries, id)) == Some(TotalHours(entries).value + 8.0)
  {
    NewEntryIsEightHours(id);
    TotalHoursAppend(entries, TimeEntry(id, "09:00", "17:00", 0, ""));
  }
}
