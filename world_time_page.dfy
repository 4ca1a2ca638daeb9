/** The world clock page: a list of chosen time zones, the picker of popular zones not yet
    chosen, and the `UTC±hh:mm` label of an offset. The offset, in minutes as
    `Date.getTimezoneOffset` gives it, is a parameter. */
module WorldTimePage {
  import opened Seqs
  import opened Text

  datatype TimeZoneInfo = TimeZoneInfo(id: string, name: string, timezone: string, country: string)

  const PopularTimezones: seq<TimeZoneInfo> := [
    TimeZoneInfo("1", "北京", "Asia/Shanghai", "中国"),
    TimeZoneInfo("2", "东京", "Asia/Tokyo", "日本"),
    TimeZoneInfo("3", "纽约", "America/New_York", "美国"),
    TimeZoneInfo("4", "伦敦", "Europe/London", "英国"),
    TimeZoneInfo("5", "巴黎", "Europe/Paris", "法国"),
    TimeZoneInfo("6", "悉尼", "Australia/Sydney", "澳大利亚"),
    TimeZoneInfo("7", "洛杉矶", "America/Los_Angeles", "美国"),
    TimeZoneInfo("8", "迪拜", "Asia/Dubai", "阿联酋"),
    TimeZoneInfo("9", "新加坡", "Asia/Singapore", "新加坡"),
    TimeZoneInfo("10", "莫斯科", "Europe/Moscow", "俄罗斯"),
    TimeZoneInfo("11", "孟买", "Asia/Kolkata", "印度"),
    TimeZoneInfo("12", "开罗", "Africa/Cairo", "埃及")
  ]

  /** Beijing, New York, London and Tokyo. */
  const InitialSelection: seq<TimeZoneInfo> :=
    [PopularTimezones[0], PopularTimezones[2], PopularTimezones[3], PopularTimezones[1]]

  // ---------------------------------------------------------------------------------------
  // The offset label

  function Abs(x: int): nat {
    if x < 0 then -x else x
  }

  /** `getTimezoneOffset`'s text for an offset of `offset` minutes behind UTC. */
  function OffsetLabel(offset: int): string {
    var hours := Abs(offset) / 60;
    var minutes := Abs(offset) % 60;
    var sign := if offset <= 0 then "+" else "-";
    "UTC" + sign + Pad2(hours) + ":" + Pad2(minutes)
  }

  /** Under 100 hours the label is `UTC±hh:mm`, '+' exactly for offsets not behind UTC, and
      reading the sign and digits back gives the offset turned around (ahead of UTC). */
  lemma OffsetLabelSpec(offset: int)
    requires Abs(offset) < 6000
    ensures var l := OffsetLabel(offset);
      |l| == 9 && l[..3] == "UTC" && l[6] == ':' && AllDigits(l[4..6]) && AllDigits(l[7..])
      && (l[3] == '+' <==> offset <= 0) && (l[3] == '-' <==> offset > 0)
      && (if l[3] == '+' then 1 else -1) * (DigitsValue(l[4..6]) * 60 + DigitsValue(l[7..])) == -offset
  {
    var hours, minutes := Abs(offset) / 60, Abs(offset) % 60;
    Pad2Spec(hours);
    Pad2Spec(minutes);
    var l := OffsetLabel(offset);
    var sign := if offset <= 0 then "+" else "-";
    assert l == "UTC" + sign + Pad2(hours) + ":" + Pad2(minutes);
    assert l[4..6] == Pad2(hours) && l[7..] == Pad2(minutes);
  }

  /** No offset reads `UTC+00:00`. */
  lemma OffsetLabelZero()
    ensures OffsetLabel(0) == "UTC+00:00"
  {
    assert Pad2(0) == "00" by { Pad2OneDigit(0); }
  }

  // ---------------------------------------------------------------------------------------
  // The chosen zones

  /** `list.find(tz => tz.timezone === timezone)` finds something. */
  predicate HasTimezone(list: seq<TimeZoneInfo>, timezone: string) {
    exists i :: 0 <= i < |list| && list[i].timezone == timezone
  }

  /** No zone name appears twice. */
  predicate DistinctTimezones(list: seq<TimeZoneInfo>) {
    forall i, j :: 0 <= i < j < |list| ==> list[i].timezone != list[j].timezone
  }

  datatype Page = Page(selectedTimezones: seq<TimeZoneInfo>, showAddModal: bool)

  /** `addTimezone(z)`: appended unless a zone with the same name is already there; the
      picker closes either way. */
  function AddTimezone(page: Page, z: TimeZoneInfo): (r: Page)
    ensures !r.showAddModal
    ensures HasTimezone(page.selectedTimezones, z.timezone) ==> r.selectedTimezones == page.selectedTimezones
    ensures !HasTimezone(page.selectedTimezones, z.timezone) ==> r.selectedTimezones == page.selectedTimezones + [z]
    ensures HasTimezone(r.selectedTimezones, z.timezone)
  {
    var selected := page.selectedTimezones;
    if HasTimezone(selected, z.timezone) then Page(selected, false)
    else
      assert (selected + [z])[|selected|] == z;
      Page(selected + [z], false)
  }

  /** Adding never creates a second zone of the same name. */
  lemma AddKeepsDistinct(page: Page, z: TimeZoneInfo)
    requires DistinctTimezones(page.selectedTimezones)
    ensures DistinctTimezones(AddTimezone(page, z).selectedTimezones)
  {
    var s := page.selectedTimezones;
    if !HasTimezone(s, z.timezone) {
      var t := s + [z];
      forall i, j | 0 <= i < j < |t| ensures t[i].timezone != t[j].timezone {
        if j == |s| {
          assert t[i] == s[i];
        }
      }
    }
  }

  function NotIdOf(id: string): TimeZoneInfo -> bool {
    (tz: TimeZoneInfo) => tz.id != id
  }

  /** `removeTimezone(id)` */
  function RemoveTimezone(page: Page, id: string): Page {
    page.(selectedTimezones := Filter(page.selectedTimezones, NotIdOf(id)))
  }

  /** Removing keeps exactly the zones with another id, in their order, and keeps the names distinct. */
  lemma RemoveTimezoneSpec(page: Page, id: string, z: TimeZoneInfo)
    ensures z in RemoveTimezone(page, id).selectedTimezones <==> z in page.selectedTimezones && z.id != id
    ensures RemoveTimezone(page, id).showAddModal == page.showAddModal
    ensures DistinctTimezones(page.selectedTimezones) ==> DistinctTimezones(RemoveTimezone(page, id).selectedTimezones)
  {
    FilterMember(page.selectedTimezones, NotIdOf(id), z);
    if DistinctTimezones(page.selectedTimezones) {
      FilterDistinctTimezones(page.selectedTimezones, NotIdOf(id));
    }
  }

  lemma {:induction false} FilterDistinctTimezones(s: seq<TimeZoneInfo>, f: TimeZoneInfo -> bool)
    requires DistinctTimezones(s)
    ensures DistinctTimezones(Filter(s, f))
    decreases |s|
  {
    if s != [] {
      FilterDistinctTimezones(s[1..], f);
      var rest := Filter(s[1..], f);
      forall k | 0 <= k < |rest| ensures rest[k].timezone != s[0].timezone {
        FilterMember(s[1..], f, rest[k]);
        var m :| 0 <= m < |s[1..]| && s[1..][m] == rest[k];
        assert s[m + 1] == rest[k];
      }
    }
  }

  function NotChosen(selected: seq<TimeZoneInfo>): TimeZoneInfo -> bool {
    (tz: TimeZoneInfo) => !HasTimezone(selected, tz.timezone)
  }

  /** The picker: the popular zones whose name is not chosen yet, in catalog order. */
  function Picker(selected: seq<TimeZoneInfo>): seq<TimeZoneInfo> {
    Filter(PopularTimezones, NotChosen(selected))
  }

  /** A zone is offered exactly when it is popular and not chosen. */
  lemma PickerSpec(selected: seq<TimeZoneInfo>, z: TimeZoneInfo)
    ensures z in Picker(selected) <==> z in PopularTimezones && !HasTimezone(selected, z.timezone)
  {
    var catalog := PopularTimezones;
    FilterMember(catalog, NotChosen(selected), z);
  }

  /** Once picked, a zone is no longer offered. */
  lemma PickedNotOffered(page: Page, z: TimeZoneInfo)
    ensures z !in Picker(AddTimezone(page, z).selectedTimezones)
  {
    PickerSpec(AddTimezone(page, z).selectedTimezones, z);
  }

  /** The page starts with four different zones. */
  lemma InitialSelectionDistinct()
    ensures DistinctTimezones(InitialSelection)
  {
    var s := InitialSelection;
    assert s[0].timezone == "Asia/Shanghai" && s[1].timezone == "America/New_York";
    assert s[2].timezone == "Europe/London" && s[3].timezone == "Asia/Tokyo";
    assert s[0].timezone[..5] == "Asia/" && s[1].timezone[..5] == "Ameri" && s[2].timezone[..5] == "Europ";
    assert s[3].timezone[5] != s[0].timezone[5];
  }

  // ---------------------------------------------------------------------------------------
  // The label as the page computes it, and the label of the zone itself

  /** As written: `getTimezoneOffset` is called on a `Date` rebuilt from the zone's wall-clock
      text, so it reports the browser's own offset, whatever the zone. */
  function ShownOffsetLabel(timezone: string, browserOffset: int): string {
    OffsetLabel(browserOffset)
  }

  /** Every zone is shown with the same label. */
  lemma ShownLabelIgnoresZone(timezone: string, other: string, browserOffset: int)
    ensures ShownOffsetLabel(timezone, browserOffset) == ShownOffsetLabel(other, browserOffset)
  {
  }

  /** A browser in Beijing (480 minutes ahead of UTC) labels Tokyo, 540 minutes ahead, as
      `UTC+08:00`, while the zone's own label is `UTC+09:00`. */
  lemma ShownLabelIsTheBrowsers()
    ensures ShownOffsetLabel("Asia/Tokyo", -480) == "UTC+08:00"
    ensures ZoneOffsetLabel(540) == "UTC+09:00"
    ensures ShownOffsetLabel("Asia/Tokyo", -480) != ZoneOffsetLabel(540)
  {
    assert Pad2(8) == "08" by { Pad2OneDigit(8); }
    assert Pad2(9) == "09" by { Pad2OneDigit(9); }
    assert Pad2(0) == "00" by { Pad2OneDigit(0); }
  }

  /** The intended label of a zone `utcOffset` minutes ahead of UTC. */
  function ZoneOffsetLabel(utcOffset: int): string {
    OffsetLabel(-utcOffset)
  }

  /** The zone's label reads back as the zone's own offset. */
  lemma ZoneOffsetLabelSpec(utcOffset: int)
    requires Abs(utcOffset) < 6000
    ensures var l := ZoneOffsetLabel(utcOffset);
      |l| == 9 && AllDigits(l[4..6]) && AllDigits(l[7..])
      && (l[3] == '+' <==> utcOffset >= 0)
      && ReadOffset(l) == utcOffset
  {
    var hours, minutes := Abs(utcOffset) / 60, Abs(utcOffset) % 60;
    Pad2Spec(hours);
    Pad2Spec(minutes);
    var l := ZoneOffsetLabel(utcOffset);
    var sign := if utcOffset >= 0 then "+" else "-";
    assert l == "UTC" + sign + Pad2(hours) + ":" + Pad2(minutes);
    assert l[4..6] == Pad2(hours) && l[7..] == Pad2(minutes);
  }

  /** The offset ahead of UTC that a `UTC±hh:mm` label spells. */
  function ReadOffset(l: string): int
    requires |l| == 9 && AllDigits(l[4..6]) && AllDigits(l[7..])
  {
    (if l[3] == '+' then 1 else -1) * (DigitsValue(l[4..6]) * 60 + DigitsValue(l[7..]))
  }

  /** Zones with different offsets get different labels. */
  lemma ZoneOffsetLabelInjective(utcOffset: int, otherOffset: int)
    requires Abs(utcOffset) < 6000 && Abs(otherOffset) < 6000
    ensures ZoneOffsetLabel(utcOffset) == ZoneOffsetLabel(otherOffset) <==> utcOffset == otherOffset
  {
    var l, m := ZoneOffsetLabel(utcOffset), ZoneOffsetLabel(otherOffset);
    if l == m {
      ZoneOffsetLabelSpec(utcOffset);
      ZoneOffsetLabelSpec(otherOffset);
      assert l[3] == m[3] && l[4..6] == m[4..6] && l[7..] == m[7..];
    }
  }
}
