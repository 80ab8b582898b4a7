/** The export button: the listed records become rows of text fields, each
    field is put in double quotes with its own quotes doubled, fields are
    joined by `;` and rows by a newline (drafts 8.1 and 8.5). Draft 8.0
    joins the raw fields, which loses the field boundaries. */
module Export {
  import opened Text
  import opened Records

  /** The header row of the export. */
  const Headers: seq<string> := ["ID", "Tipologia", "Preço Inicial", "Preço Atual", "Primeira Detecção",
                                 "Última Atualização", "Status", "Área", "Garagem", "Localidade", "Sub-localidade", "URL"]

  /** The twelve fields of a record, each `toString()`-ed: an undefined
      price has no `toString`, so a record without one cannot be exported. */
  function Row(r: Record): (row: Option<seq<string>>)
    ensures row.Some? <==> r.price.Some? && r.initialPrice.Some?
    ensures row.Some? ==> |row.value| == |Headers| && row.value[0] == r.id && row.value[11] == r.url
  {
    if r.price.None? || r.initialPrice.None? then None
    else
      Some([r.id, r.typology, IntToDecimal(r.initialPrice.value), IntToDecimal(r.price.value), r.firstSeen, r.lastSeen,
            if r.isActive == Active then "Ativo" else "Inativo", r.area, if r.hasGarage then "Sim" else "Não",
            r.location, r.subLocation, r.url])
  }

  /** `"${field.replace(/"/g, '""')}"`. */
  function Quote(field: string): string {
    "\"" + DoubleQuotes(field) + "\""
  }

  function QuoteAll(row: seq<string>): seq<string> {
    seq(|row|, i requires 0 <= i < |row| => Quote(row[i]))
  }

  /** `row.map(quote).join(';')`. */
  function Line(row: seq<string>): string {
    Join(QuoteAll(row), ";")
  }

  function Lines(rows: seq<seq<string>>): seq<string> {
    seq(|rows|, i requires 0 <= i < |rows| => Line(rows[i]))
  }

  /** `[headers, ...rows].map(line).join('\n')`. */
  function Csv(rows: seq<seq<string>>): string {
    Join(Lines(rows), "\n")
  }

  /** The rows of the listed records, or `None` when one of them throws. */
  function Rows(display: seq<Record>): (rows: Option<seq<seq<string>>>)
    ensures rows.Some? ==> |rows.value| == |display|
    ensures rows.Some? ==> forall i :: 0 <= i < |display| ==> Row(display[i]) == Some(rows.value[i])
    decreases |display|
  {
    if display == [] then Some([])
    else
      match Row(display[0])
      case None => None
      case Some(row) =>
        match Rows(display[1..])
        case None => None
        case Some(rest) =>
          RowsCons(display, row, rest);
          Some([row] + rest)
  }

  lemma RowsCons(display: seq<Record>, row: seq<string>, rest: seq<seq<string>>)
    requires display != [] && Row(display[0]) == Some(row) && |rest| == |display| - 1
    requires forall i :: 0 <= i < |display[1..]| ==> Row(display[1..][i]) == Some(rest[i])
    ensures forall i :: 0 <= i < |display| ==> Row(display[i]) == Some(([row] + rest)[i])
  {
    forall i | 1 <= i < |display| ensures Row(display[i]) == Some(([row] + rest)[i]) {
      assert display[i] == display[1..][i - 1];
    }
  }

  /** The text copied to the clipboard, under the header row `headers`
      (the export passes `Headers`). */
  function ExportText(headers: seq<string>, display: seq<Record>): Option<string> {
    match Rows(display)
    case None => None
    case Some(rows) => Some(Csv([headers] + rows))
  }

  /** Reading a quoted field back: `s` follows the opening quote; the result
      is the field and what follows its closing quote. */
  function Unquote(s: string): (r: Option<(string, string)>)
    ensures r.Some? ==> |r.value.1| < |s|
    decreases |s|
  {
    if s == [] then None
    else if s[0] == '"' then
      if |s| >= 2 && s[1] == '"' then
        match Unquote(s[2..])
        case None => None
        case Some(ft) => Some(("\"" + ft.0, ft.1))
      else Some(("", s[1..]))
    else
      match Unquote(s[1..])
      case None => None
      case Some(ft) => Some(([s[0]] + ft.0, ft.1))
  }

  /** A row of quoted fields separated by `;`, and what follows it. */
  function ParseFields(s: string): (r: Option<(seq<string>, string)>)
    ensures r.Some? ==> |r.value.1| < |s|
    decreases |s|
  {
    if s == [] || s[0] != '"' then None
    else
      match Unquote(s[1..])
      case None => None
      case Some(ft) =>
        if ft.1 != [] && ft.1[0] == ';' then
          match ParseFields(ft.1[1..])
          case None => None
          case Some(rest) => Some(([ft.0] + rest.0, rest.1))
        else Some(([ft.0], ft.1))
  }

  /** Rows separated by newlines. */
  function ParseCsv(s: string): Option<seq<seq<string>>>
    decreases |s|
  {
    match ParseFields(s)
    case None => None
    case Some(rt) =>
      if rt.1 == [] then Some([rt.0])
      else if rt.1[0] == '\n' then
        match ParseCsv(rt.1[1..])
        case None => None
        case Some(rest) => Some([rt.0] + rest)
      else None
  }

  lemma {:induction false} UnquoteQuoted(f: string, t: string)
    requires t == [] || t[0] != '"'
    ensures Unquote(DoubleQuotes(f) + "\"" + t) == Some((f, t))
    decreases |f|
  {
    if f == [] {
      assert DoubleQuotes(f) + "\"" + t == "\"" + t;
      UnquoteClose(t);
    } else {
      UnquoteQuoted(f[1..], t);
      var tail := DoubleQuotes(f[1..]) + "\"" + t;
      var head := if f[0] == '"' then "\"\"" else [f[0]];
      assert DoubleQuotes(f) == head + DoubleQuotes(f[1..]);
      Regroup(head, DoubleQuotes(f[1..]), "\"", t);
      if f[0] == '"' {
        UnquoteEscaped(tail, f[1..], t);
        assert "\"" + f[1..] == f;
      } else {
        UnquotePlain(f[0], tail, f[1..], t);
        assert [f[0]] + f[1..] == f;
      }
    }
  }

  lemma UnquoteClose(t: string)
    requires t == [] || t[0] != '"'
    ensures Unquote("\"" + t) == Some(("", t))
  {
    assert ("\"" + t)[1..] == t;
  }

  /** A doubled quote is one quote of the field. */
  lemma UnquoteEscaped(tail: string, g: string, t: string)
    requires Unquote(tail) == Some((g, t))
    ensures Unquote("\"\"" + tail) == Some(("\"" + g, t))
  {
    var s := "\"\"" + tail;
    assert s[0] == '"' && s[1] == '"' && s[2..] == tail;
  }

  lemma UnquotePlain(c: char, tail: string, g: string, t: string)
    requires c != '"' && Unquote(tail) == Some((g, t))
    ensures Unquote([c] + tail) == Some(([c] + g, t))
  {
    assert ([c] + tail)[1..] == tail;
  }

  lemma Regroup(a: string, b: string, c: string, d: string)
    ensures (a + b) + c + d == a + (b + c + d)
  {
  }

  /** A quoted field followed by anything but a quote or a `;` is a row
      of one field. */
  lemma FieldThenEnd(f: string, t: string)
    requires t == [] || (t[0] != '"' && t[0] != ';')
    ensures ParseFields(Quote(f) + t) == Some(([f], t))
  {
    var s := Quote(f) + t;
    assert s[0] == '"';
    assert s[1..] == DoubleQuotes(f) + "\"" + t;
    UnquoteQuoted(f, t);
  }

  /** A quoted field followed by `;` heads the row that follows. */
  lemma FieldThenMore(f: string, rest: string)
    requires ParseFields(rest).Some?
    ensures ParseFields(Quote(f) + ";" + rest) ==
      Some(([f] + ParseFields(rest).value.0, ParseFields(rest).value.1))
  {
    var s := Quote(f) + ";" + rest;
    assert s[0] == '"';
    assert s[1..] == DoubleQuotes(f) + "\"" + (";" + rest);
    UnquoteQuoted(f, ";" + rest);
    assert (";" + rest)[1..] == rest;
  }

  /** A quoted row reads back as its fields, whatever they contain, as long
      as what follows is neither a quote nor a `;`. */
  lemma {:induction false} FieldsOfLine(row: seq<string>, t: string)
    requires row != [] && (t == [] || (t[0] != '"' && t[0] != ';'))
    ensures ParseFields(Line(row) + t) == Some((row, t))
    decreases |row|
  {
    if |row| == 1 {
      LineSingle(row);
      FieldThenEnd(row[0], t);
      assert [row[0]] == row;
    } else {
      LineCons(row);
      var rest := Line(row[1..]) + t;
      FieldsOfLine(row[1..], t);
      FieldThenMore(row[0], rest);
      assert Line(row) + t == Quote(row[0]) + ";" + rest;
      assert [row[0]] + row[1..] == row;
    }
  }

  lemma LineSingle(row: seq<string>)
    requires |row| == 1
    ensures Line(row) == Quote(row[0])
  {
    assert QuoteAll(row) == [Quote(row[0])];
  }

  lemma LineCons(row: seq<string>)
    requires |row| >= 2
    ensures Line(row) == Quote(row[0]) + ";" + Line(row[1..])
  {
    assert QuoteAll(row) == [Quote(row[0])] + QuoteAll(row[1..]);
    JoinCons(Quote(row[0]), QuoteAll(row[1..]), ";");
  }

  /** The clipboard text reads back as the rows it was made from: quoting
      keeps `;`, quotes and newlines inside a field from being taken for
      separators. */
  lemma {:induction false} CsvRoundTrip(rows: seq<seq<string>>)
    requires rows != [] && forall i :: 0 <= i < |rows| ==> rows[i] != []
    ensures ParseCsv(Csv(rows)) == Some(rows)
    decreases |rows|
  {
    if |rows| == 1 {
      CsvSingle(rows);
      FieldsOfLine(rows[0], "");
      assert Line(rows[0]) + "" == Line(rows[0]);
      assert [rows[0]] == rows;
    } else {
      CsvCons(rows);
      var rest := Csv(rows[1..]);
      FieldsOfLine(rows[0], "\n" + rest);
      assert rows[1..][0] == rows[1];
      CsvRoundTrip(rows[1..]);
      NextLine(Line(rows[0]) + ("\n" + rest), rest, rows[0], rows[1..]);
      assert [rows[0]] + rows[1..] == rows;
    }
  }

  lemma CsvSingle(rows: seq<seq<string>>)
    requires |rows| == 1
    ensures Csv(rows) == Line(rows[0])
  {
    assert Lines(rows) == [Line(rows[0])];
  }

  lemma CsvCons(rows: seq<seq<string>>)
    requires |rows| >= 2
    ensures Csv(rows) == Line(rows[0]) + ("\n" + Csv(rows[1..]))
  {
    assert Lines(rows) == [Line(rows[0])] + Lines(rows[1..]);
    JoinCons(Line(rows[0]), Lines(rows[1..]), "\n");
  }

  /** A row, a newline and the text of the next rows. */
  lemma NextLine(s: string, rest: string, row: seq<string>, more: seq<seq<string>>)
    requires ParseFields(s) == Some((row, "\n" + rest))
    requires ParseCsv(rest) == Some(more)
    ensures ParseCsv(s) == Some([row] + more)
  {
    assert ("\n" + rest)[1..] == rest;
  }

  /** Two different exports never give the same text. */
  lemma CsvInjective(a: seq<seq<string>>, b: seq<seq<string>>)
    requires a != [] && forall i :: 0 <= i < |a| ==> a[i] != []
    requires b != [] && forall i :: 0 <= i < |b| ==> b[i] != []
    requires Csv(a) == Csv(b)
    ensures a == b
  {
    CsvRoundTrip(a);
    CsvRoundTrip(b);
  }

  lemma {:induction false} RowsDefined(display: seq<Record>)
    requires forall i :: 0 <= i < |display| ==> display[i].price.Some? && display[i].initialPrice.Some?
    ensures Rows(display).Some?
    decreases |display|
  {
    if display != [] {
      RowsDefined(display[1..]);
    }
  }

  /** The export of listed records reads back as the header row and one row
      per record, in the panel's order, each starting with its id. */
  lemma ExportRoundTrip(headers: seq<string>, display: seq<Record>)
    requires headers != []
    requires forall i :: 0 <= i < |display| ==> display[i].price.Some? && display[i].initialPrice.Some?
    ensures ExportText(headers, display).Some?
    ensures var parsed := ParseCsv(ExportText(headers, display).value);
      parsed.Some? && |parsed.value| == |display| + 1 && parsed.value[0] == headers &&
      forall i :: 0 <= i < |display| ==> parsed.value[i + 1] != [] && parsed.value[i + 1][0] == display[i].id
  {
    RowsDefined(display);
    var rows := Rows(display).value;
    forall i | 0 <= i < |display| ensures rows[i] != [] && rows[i][0] == display[i].id {
      RowHead(display[i], rows[i]);
    }
    ParseExport(headers, rows);
  }

  lemma RowHead(r: Record, row: seq<string>)
    requires Row(r) == Some(row)
    ensures row != [] && row[0] == r.id
  {
  }

  lemma ParseExport(headers: seq<string>, rows: seq<seq<string>>)
    requires headers != [] && forall i :: 0 <= i < |rows| ==> rows[i] != []
    ensures ParseCsv(Csv([headers] + rows)) == Some([headers] + rows)
  {
    var all := [headers] + rows;
    forall i | 0 <= i < |all| ensures all[i] != [] {
      if i > 0 { assert all[i] == rows[i - 1]; }
    }
    CsvRoundTrip(all);
  }

  /** Draft 8.0: `row.join(';')`, an undefined price giving an empty
      field. */
  function PlainRow(r: Record): seq<string> {
    [r.id, r.typology, match r.initialPrice case Some(n) => IntToDecimal(n) case None => "",
     match r.price case Some(n) => IntToDecimal(n) case None => "", r.firstSeen, r.lastSeen,
     if r.isActive == Active then "Ativo" else "Inativo", r.area, if r.hasGarage then "Sim" else "Não",
     r.location, r.subLocation, r.url]
  }

  /** A record without a price stops the quoted export but not 8.0's: the
      join writes an empty field. */
  lemma UndefinedPrice(r: Record)
    requires r.price.None?
    ensures Row(r).None? && PlainRow(r)[3] == ""
  {
  }

  function PlainCsv(rows: seq<seq<string>>): string {
    Join(seq(|rows|, i requires 0 <= i < |rows| => Join(rows[i], ";")), "\n")
  }

  /** Without quoting, a `;` inside a field is a separator: two different
      rows give the same text, and a quoted export tells them apart. */
  lemma PlainCsvAmbiguous()
    ensures PlainCsv([["a;b", "c"]]) == PlainCsv([["a", "b;c"]])
    ensures Csv([["a;b", "c"]]) != Csv([["a", "b;c"]])
  {
    assert Join(["a;b", "c"], ";") == "a;b;c" by { JoinCons("a;b", ["c"], ";"); }
    assert Join(["a", "b;c"], ";") == "a;b;c" by { JoinCons("a", ["b;c"], ";"); }
    if Csv([["a;b", "c"]]) == Csv([["a", "b;c"]]) {
      CsvInjective([["a;b", "c"]], [["a", "b;c"]]);
    }
  }
}
