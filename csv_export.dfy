/**
 The CSV export of `SelicController::exportar`: a guard that refuses a
 payload with nothing to export, then a header line and one `date;value` line
 per record, in series order. The value cell is produced by `number_format`
 with six decimals and a comma separator, applied to the record's raw rate
 text; that formatter is a parameter.
 */
module CsvExport {
  import opened SelicData
  import opened Text

  /** The header line, without its newline. */
  const HeaderLine: string := "Data;Valor"

  /** Headers of a successful export. */
  const CsvHeaders: map<string, string> :=
    map["Content-Type" := "text/csv", "Content-Disposition" := "attachment; filename=selic.csv"]

  /** The guard: the payload is not an array, is empty, or its first record
      has no date. Later records are not looked at. */
  predicate ExportRejected(dados: Payload)
  {
    dados.NotArray? || |dados.items| == 0 || dados.items[0].data.None?
  }

  /** The text of the 400 response, naming the requested range. */
  function NoDataMessage(startDate: string, endDate: string): (m: string)
    ensures Contains(m, startDate) && Contains(m, endDate)
  {
    var prefix := "Nenhum dado disponível para exportar entre ";
    var m := prefix + startDate + " e " + endDate + ".";
    assert OccursAt(m, startDate, |prefix|);
    assert OccursAt(m, endDate, |prefix| + |startDate| + 3);
    m
  }

  /** A record's date as string interpolation renders it: a null date
      becomes the empty string. For a record after the first, None stands for
      a `data` key whose value is null; a missing key makes the framework
      raise instead, which is not modelled. */
  function DateText(r: Record): string
  {
    match r.data
    case Some(d) => d
    case None => ""
  }

  /** A record's line, without its newline. */
  function RowText(r: Record, format: string -> string): string
  {
    DateText(r) + ";" + format(r.valor)
  }

  /** The lines of the records, one per record, in series order. */
  function RowTexts(items: seq<Record>, format: string -> string): seq<string>
  {
    seq(|items|, i requires 0 <= i < |items| => RowText(items[i], format))
  }

  /** The lines of two consecutive stretches of records are the lines of the
      first followed by the lines of the second. */
  lemma RowTextsAppend(a: seq<Record>, b: seq<Record>, format: string -> string)
    ensures RowTexts(a + b, format) == RowTexts(a, format) + RowTexts(b, format)
  {
  }

  /** The whole CSV document: header, then one line per record. */
  function Csv(items: seq<Record>, format: string -> string): (csv: string)
    ensures |csv| > |HeaderLine| && csv[..|HeaderLine| + 1] == "Data;Valor\n"
  {
    Unlines([HeaderLine] + RowTexts(items, format))
  }

  /** The response the controller builds for a payload. */
  function ExportResponse(startDate: string, endDate: string, dados: Payload, format: string -> string): (r: Response)
    ensures r.status == 400 <==> ExportRejected(dados)
    ensures r.status == 400 ==> Contains(r.body, startDate) && Contains(r.body, endDate)
    ensures r.status != 400 ==> r.status == 200 && r.body == Csv(dados.items, format)
    ensures r.status != 400 ==> "Content-Type" in r.headers && r.headers["Content-Type"] == "text/csv"
    ensures r.status != 400 ==>
      "Content-Disposition" in r.headers && r.headers["Content-Disposition"] == "attachment; filename=selic.csv"
  {
    if ExportRejected(dados) then Response(400, NoDataMessage(startDate, endDate), map[])
    else Response(200, Csv(dados.items, format), CsvHeaders)
  }

  /** Cells that cannot break the line structure: no date holds `;` or a
      newline, no formatted value holds a newline. */
  predicate PlainCells(items: seq<Record>, format: string -> string)
  {
    forall i :: 0 <= i < |items| ==>
      ';' !in DateText(items[i]) && '\n' !in DateText(items[i]) && '\n' !in format(items[i].valor)
  }

  /** Reading a successful export back: it splits into the header followed
      by one line per record, in series order, so it has exactly one line more
      than the series. */
  lemma CsvLines(items: seq<Record>, format: string -> string)
    requires PlainCells(items, format)
    ensures SplitLines(Csv(items, format)) == [HeaderLine] + RowTexts(items, format)
  {
    var lines := [HeaderLine] + RowTexts(items, format);
    forall i | 0 <= i < |lines| ensures '\n' !in lines[i] {
      if i > 0 {
        assert lines[i] == RowText(items[i - 1], format);
        assert '\n' !in ";";
      }
    }
    SplitLinesUnlines(lines);
  }

  /** A record's line splits at its first `;` into the record's date and its
      formatted value, when the date holds no `;`. */
  lemma RowFields(r: Record, format: string -> string)
    requires ';' !in DateText(r)
    ensures SplitField(RowText(r, format)) == (DateText(r), format(r.valor))
  {
    SplitFieldJoin(DateText(r), format(r.valor));
  }

  /** Only the first record's date is checked: once it is present, the export
      succeeds whatever the later records hold, and a later record whose date
      is null is rendered with an empty date field. */
  lemma OnlyFirstDateChecked(startDate: string, endDate: string, first: Record, rest: seq<Record>, format: string -> string)
    requires first.data.Some?
    ensures ExportResponse(startDate, endDate, Records([first] + rest), format)
         == Response(200, Csv([first] + rest, format), CsvHeaders)
    ensures forall i :: 0 <= i < |rest| && rest[i].data.None? ==>
      RowTexts([first] + rest, format)[i + 1] == ";" + format(rest[i].valor)
  {
    var items := [first] + rest;
    assert !ExportRejected(Records(items));
    forall i | 0 <= i < |rest| && rest[i].data.None?
      ensures RowTexts(items, format)[i + 1] == ";" + format(rest[i].valor)
    {
      assert items[i + 1] == rest[i];
    }
  }

  /** A one-record series whose value the formatter renders as `0,035000`
      exports as exactly the header and that record's line. */
  lemma OneRecordExport(startDate: string, endDate: string, format: string -> string)
    requires format("0.035") == "0,035000"
    ensures ExportResponse(startDate, endDate, Records([Record(Some("01/01/2024"), "0.035")]), format).body
         == "Data;Valor\n01/01/2024;0,035000\n"
  {
    var items := [Record(Some("01/01/2024"), "0.035")];
    var row := "01/01/2024;0,035000";
    assert ExportResponse(startDate, endDate, Records(items), format).body == Csv(items, format);
    assert RowText(items[0], format) == row by {
      assert "01/01/2024" + ";" + "0,035000" == row;
    }
    assert [HeaderLine] + RowTexts(items, format) == [HeaderLine, row];
    assert Unlines([HeaderLine, row]) == HeaderLine + "\n" + (row + "\n" + Unlines([])) by {
      assert [HeaderLine, row][1..] == [row];
      assert [row][1..] == [];
    }
  }

  /** `exportar`: checks the fetched payload, then appends the header and one
      line per record to the CSV text. */
  method Export(startDate: string, endDate: string, dados: Payload, format: string -> string)
    returns (resp: Response)
    ensures resp == ExportResponse(startDate, endDate, dados, format)
  {
    if ExportRejected(dados) {
      return Response(400, NoDataMessage(startDate, endDate), map[]);
    }
    var items := dados.items;
    var csv := HeaderLine + "\n";
    assert csv == Unlines([HeaderLine] + RowTexts(items[..0], format));
    for i := 0 to |items|
      invariant csv == Unlines([HeaderLine] + RowTexts(items[..i], format))
    {
      var item := items[i];
      var valor := format(item.valor);
      csv := csv + DateText(item) + ";" + valor + "\n";
      UnlinesSnoc([HeaderLine] + RowTexts(items[..i], format), RowText(item, format));
      assert items[..i + 1] == items[..i] + [item];
      RowTextsAppend(items[..i], [item], format);
      assert RowTexts([item], format) == [RowText(item, format)];
      assert [HeaderLine] + RowTexts(items[..i + 1], format)
          == [HeaderLine] + RowTexts(items[..i], format) + [RowText(item, format)];
    }
    assert items[..|items|] == items;
    resp := Response(200, csv, CsvHeaders);
  }
}
