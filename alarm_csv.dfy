/** The alarm list's CSV export: a header row and one row of five quoted fields per alarm,
    preceded by a byte order mark. The locale formatters for the alarm time and the creation
    date are parameters; the download itself is not part of this model. */
module AlarmCsv {
  import opened Text
  import opened AlarmModel

  const Bom: char := '\U{FEFF}'

  const Headers: seq<string> := ["时间", "标签", "声音", "状态", "创建日期"]

  const Enabled: string := "已启用"
  const Disabled: string := "已禁用"

  datatype Export =
    | NoData   // the "nothing to export" alert
    | Content(text: string)

  /** The five fields of an alarm's row. */
  function Fields(a: Alarm, formatTime: int -> string, formatDate: int -> string): (r: seq<string>)
    ensures |r| == 5
    ensures r[1] == (if a.labelText == "" then "-" else a.labelText)
    ensures r[3] == (if a.isActive then Enabled else Disabled)
  {
    [formatTime(a.time), if a.labelText == "" then "-" else a.labelText, a.sound,
     if a.isActive then Enabled else Disabled, formatDate(a.createdAt)]
  }

  function Quote(field: string): string {
    "\"" + field + "\""
  }

  /** `row.map(field => '"' + field + '"').join(',')` */
  function Row(fields: seq<string>): string {
    Join(seq(|fields|, i requires 0 <= i < |fields| => Quote(fields[i])), ",")
  }

  /** The header line followed by one line per alarm, in list order. */
  function Lines(alarms: seq<Alarm>, formatTime: int -> string, formatDate: int -> string): (r: seq<string>)
    ensures |r| == |alarms| + 1 && r[0] == Row(Headers)
    ensures forall i :: 0 <= i < |alarms| ==> r[i + 1] == Row(Fields(alarms[i], formatTime, formatDate))
  {
    [Row(Headers)] + seq(|alarms|, i requires 0 <= i < |alarms| => Row(Fields(alarms[i], formatTime, formatDate)))
  }

  /** `exportToCSV`: no file for an empty list; otherwise the mark and the lines joined by '\n'. */
  function ExportToCsv(alarms: seq<Alarm>, formatTime: int -> string, formatDate: int -> string): (r: Export)
    ensures r.NoData? <==> alarms == []
    ensures r.Content? ==> |r.text| >= 1 && r.text[0] == Bom
  {
    if |alarms| == 0 then NoData
    else Content([Bom] + Join(Lines(alarms, formatTime, formatDate), "\n"))
  }

  /** A separator and parts that avoid a character give a join that avoids it. */
  lemma {:induction false} JoinAvoids(parts: seq<string>, sep: string, c: char)
    requires c !in sep && forall i :: 0 <= i < |parts| ==> c !in parts[i]
    ensures c !in Join(parts, sep)
    decreases |parts|
  {
    if |parts| > 1 {
      JoinAvoids(parts[1..], sep, c);
    }
  }

  /** A row of fields that avoid a character other than the quote and the comma avoids it too. */
  lemma RowAvoids(fields: seq<string>, c: char)
    requires c != '"' && c != ',' && forall i :: 0 <= i < |fields| ==> c !in fields[i]
    ensures c !in Row(fields)
  {
    var quoted := seq(|fields|, i requires 0 <= i < |fields| => Quote(fields[i]));
    forall i | 0 <= i < |quoted| ensures c !in quoted[i] {
      assert quoted[i] == "\"" + fields[i] + "\"";
    }
    JoinAvoids(quoted, ",", c);
  }

  /** No label, sound or formatted text of the list holds a line break. */
  predicate NoLineBreaks(alarms: seq<Alarm>, formatTime: int -> string, formatDate: int -> string) {
    forall i, j :: 0 <= i < |alarms| && 0 <= j < 5 ==> '\n' !in Fields(alarms[i], formatTime, formatDate)[j]
  }

  /** Reading the exported text line by line gives back the header and one row per alarm, in
      order, as long as no field holds a line break. */
  lemma ExportLines(alarms: seq<Alarm>, formatTime: int -> string, formatDate: int -> string)
    requires alarms != [] && NoLineBreaks(alarms, formatTime, formatDate)
    ensures var e := ExportToCsv(alarms, formatTime, formatDate);
      e.Content? && SplitOn(e.text[1..], '\n') == Lines(alarms, formatTime, formatDate)
  {
    var lines := Lines(alarms, formatTime, formatDate);
    forall k | 0 <= k < |lines| ensures '\n' !in lines[k] {
      if k == 0 {
        forall j | 0 <= j < |Headers| ensures '\n' !in Headers[j] {
        }
        RowAvoids(Headers, '\n');
      } else {
        var f := Fields(alarms[k - 1], formatTime, formatDate);
        forall j | 0 <= j < |f| ensures '\n' !in f[j] {
        }
        RowAvoids(f, '\n');
      }
    }
    SplitJoin(lines, '\n');
    var text := ExportToCsv(alarms, formatTime, formatDate).text;
    assert text[1..] == Join(lines, "\n");
  }

  /** A row of fields without commas splits back on ',' into the quoted fields. */
  lemma RowFields(fields: seq<string>)
    requires |fields| >= 1 && forall i :: 0 <= i < |fields| ==> ',' !in fields[i]
    ensures SplitOn(Row(fields), ',') == seq(|fields|, i requires 0 <= i < |fields| => Quote(fields[i]))
  {
    var quoted := seq(|fields|, i requires 0 <= i < |fields| => Quote(fields[i]));
    forall i | 0 <= i < |quoted| ensures ',' !in quoted[i] {
      assert quoted[i] == "\"" + fields[i] + "\"";
    }
    SplitJoin(quoted, ',');
  }
}
