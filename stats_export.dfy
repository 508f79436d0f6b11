/**
 * The CSV export of the statistics endpoint: three lists of selected records become a
 * fixed sequence of rows (a summary block, then a users, a companies and an events
 * section, each a title row, a header row and one row per record, separated by empty
 * rows); fields are joined by `,` and rows by a line break, with no quoting or escaping.
 */
module StatsExport {
  import opened Wrappers
  import opened Models
  import opened Text

  /** The fields of a user the export selects. */
  datatype UserRecord = UserRecord(name: string, email: string, role: string, status: string, createdAt: Date)

  /** The fields of a company the export selects. */
  datatype CompanyRecord = CompanyRecord(name: string, sector: string, city: string, createdAt: Date)

  /** The fields of an event the export selects; `company` is the related company's name, if it has one. */
  datatype EventRecord = EventRecord(title: string, date: Date, location: string, company: Option<string>)

  /** The body of the JSON error answer when building the export fails. */
  const ExportError := "Erreur lors de l'exportation des statistiques"

  const UsersHeader: seq<string> := ["Nom", "Email", "Rôle", "Statut", "Date de création"]
  const CompaniesHeader: seq<string> := ["Nom", "Secteur", "Ville", "Date de création"]
  const EventsHeader: seq<string> := ["Titre", "Date", "Lieu", "Entreprise"]

  /** A user's row; `dateLabel` stands for the locale's short date format. */
  function UserCells(u: UserRecord, dateLabel: Date -> string): seq<string>
  {
    [u.name, u.email, u.role, u.status, dateLabel(u.createdAt)]
  }

  function CompanyCells(c: CompanyRecord, dateLabel: Date -> string): seq<string>
  {
    [c.name, c.sector, c.city, dateLabel(c.createdAt)]
  }

  function EventCells(e: EventRecord, dateLabel: Date -> string): seq<string>
    requires e.company.Some?
  {
    [e.title, dateLabel(e.date), e.location, e.company.value]
  }

  /** Reading `event.company.name` throws for an event without a company. */
  predicate AllHaveCompany(events: seq<EventRecord>)
  {
    forall i :: 0 <= i < |events| ==> events[i].company.Some?
  }

  /** A section: its title row, its header row, then its data rows. */
  function Section(title: string, header: seq<string>, body: seq<seq<string>>): seq<seq<string>>
  {
    [[title], header] + body
  }

  /** The summary block: a title row, the three totals, then an empty row. */
  function SummaryRows(userCount: nat, companyCount: nat, eventCount: nat): seq<seq<string>>
  {
    [ ["Statistiques Générales"],
      ["Utilisateurs totaux", NatToDecimal(userCount)],
      ["Entreprises totales", NatToDecimal(companyCount)],
      ["Événements totaux", NatToDecimal(eventCount)],
      [] ]
  }

  function UserRows(users: seq<UserRecord>, dateLabel: Date -> string): seq<seq<string>>
  {
    seq(|users|, i requires 0 <= i < |users| => UserCells(users[i], dateLabel))
  }

  function CompanyRows(companies: seq<CompanyRecord>, dateLabel: Date -> string): seq<seq<string>>
  {
    seq(|companies|, i requires 0 <= i < |companies| => CompanyCells(companies[i], dateLabel))
  }

  function EventRows(events: seq<EventRecord>, dateLabel: Date -> string): seq<seq<string>>
    requires AllHaveCompany(events)
  {
    seq(|events|, i requires 0 <= i < |events| => EventCells(events[i], dateLabel))
  }

  /** The rows of the report, before serialisation. */
  function CsvRows(users: seq<UserRecord>, companies: seq<CompanyRecord>, events: seq<EventRecord>,
                   dateLabel: Date -> string): seq<seq<string>>
    requires AllHaveCompany(events)
  {
    SummaryRows(|users|, |companies|, |events|)
    + Section("Utilisateurs", UsersHeader, UserRows(users, dateLabel))
    + [[]]
    + Section("Entreprises", CompaniesHeader, CompanyRows(companies, dateLabel))
    + [[]]
    + Section("Événements", EventsHeader, EventRows(events, dateLabel))
  }

  /** The serialised rows, one string per row: `rows.map(row => row.join(','))`. */
  function JoinedRows(rows: seq<seq<string>>): (lines: seq<string>)
    ensures |lines| == |rows|
  {
    seq(|rows|, i requires 0 <= i < |rows| => Join(rows[i], ','))
  }

  /** The rows joined by line breaks: `rows.map(row => row.join(',')).join('\n')`. */
  function Serialise(rows: seq<seq<string>>): string
  {
    Join(JoinedRows(rows), '\n')
  }

  /** The exported text. */
  function CsvText(users: seq<UserRecord>, companies: seq<CompanyRecord>, events: seq<EventRecord>,
                   dateLabel: Date -> string): string
    requires AllHaveCompany(events)
  {
    Serialise(CsvRows(users, companies, events, dateLabel))
  }

  /** The whole export: the CSV text, or the error answer when an event has no company. */
  function Export(users: seq<UserRecord>, companies: seq<CompanyRecord>, events: seq<EventRecord>,
                  dateLabel: Date -> string): (r: Result<string, string>)
    ensures r.Failure? <==> exists i :: 0 <= i < |events| && events[i].company.None?
    ensures r.Failure? ==> r.error == ExportError
    ensures r.Success? ==> r.value == CsvText(users, companies, events, dateLabel)
  {
    if AllHaveCompany(events) then Success(CsvText(users, companies, events, dateLabel))
    else Failure(ExportError)
  }

  // ---- the shape of the rows ----

  /** The report has 13 rows of structure plus one per record. */
  lemma RowCount(users: seq<UserRecord>, companies: seq<CompanyRecord>, events: seq<EventRecord>,
                 dateLabel: Date -> string)
    requires AllHaveCompany(events)
    ensures |CsvRows(users, companies, events, dateLabel)| == 13 + |users| + |companies| + |events|
  {
  }

  /** The summary block comes first: the title, the three totals, an empty row. */
  lemma SummaryFirst(users: seq<UserRecord>, companies: seq<CompanyRecord>, events: seq<EventRecord>,
                     dateLabel: Date -> string)
    requires AllHaveCompany(events)
    ensures var rows := CsvRows(users, companies, events, dateLabel);
      && |rows| > 4
      && rows[0] == ["Statistiques Générales"]
      && rows[1] == ["Utilisateurs totaux", NatToDecimal(|users|)]
      && rows[2] == ["Entreprises totales", NatToDecimal(|companies|)]
      && rows[3] == ["Événements totaux", NatToDecimal(|events|)]
      && rows[4] == []
  {
    var rows := CsvRows(users, companies, events, dateLabel);
    var head := SummaryRows(|users|, |companies|, |events|);
    assert rows == head + rows[5..];
  }

  /** Then the users section: title, header, one row per user in order, an empty row. */
  lemma UsersSectionSecond(users: seq<UserRecord>, companies: seq<CompanyRecord>, events: seq<EventRecord>,
                           dateLabel: Date -> string)
    requires AllHaveCompany(events)
    ensures var rows := CsvRows(users, companies, events, dateLabel);
      var u := |users|;
      && |rows| > 7 + u
      && rows[5] == ["Utilisateurs"] && rows[6] == UsersHeader
      && rows[7..7 + u] == UserRows(users, dateLabel)
      && rows[7 + u] == []
  {
    var rows := CsvRows(users, companies, events, dateLabel);
    var before := SummaryRows(|users|, |companies|, |events|) + [["Utilisateurs"], UsersHeader];
    var block := UserRows(users, dateLabel);
    assert rows == before + block + [[]] + rows[8 + |users|..];
  }

  /** Then the companies section, after the users section, built the same way. */
  lemma CompaniesSectionThird(users: seq<UserRecord>, companies: seq<CompanyRecord>, events: seq<EventRecord>,
                              dateLabel: Date -> string)
    requires AllHaveCompany(events)
    ensures var rows := CsvRows(users, companies, events, dateLabel);
      var u, c := |users|, |companies|;
      && |rows| > 10 + u + c
      && rows[8 + u] == ["Entreprises"] && rows[9 + u] == CompaniesHeader
      && rows[10 + u..10 + u + c] == CompanyRows(companies, dateLabel)
      && rows[10 + u + c] == []
  {
    var rows := CsvRows(users, companies, events, dateLabel);
    var before := SummaryRows(|users|, |companies|, |events|)
      + Section("Utilisateurs", UsersHeader, UserRows(users, dateLabel)) + [[]]
      + [["Entreprises"], CompaniesHeader];
    var block := CompanyRows(companies, dateLabel);
    assert |before| == 10 + |users|;
    assert rows == before + block + [[]] + rows[11 + |users| + |companies|..];
  }

  /** The events section comes last: title, header, one row per event in order. */
  lemma EventsSectionLast(users: seq<UserRecord>, companies: seq<CompanyRecord>, events: seq<EventRecord>,
                          dateLabel: Date -> string)
    requires AllHaveCompany(events)
    ensures var rows := CsvRows(users, companies, events, dateLabel);
      var u, c := |users|, |companies|;
      && |rows| == 13 + u + c + |events|
      && rows[11 + u + c] == ["Événements"] && rows[12 + u + c] == EventsHeader
      && rows[13 + u + c..] == EventRows(events, dateLabel)
  {
    var rows := CsvRows(users, companies, events, dateLabel);
    var block := EventRows(events, dateLabel);
    var before := rows[..|rows| - |block|];
    assert rows == before + block;
  }

  // ---- the serialised text ----

  /** Every field of every record, date labels included, avoids the character `c`. */
  predicate FieldsAvoid(users: seq<UserRecord>, companies: seq<CompanyRecord>, events: seq<EventRecord>,
                        dateLabel: Date -> string, c: char)
  {
    && (forall i :: 0 <= i < |users| ==> NoneContains(UserCells(users[i], dateLabel), c))
    && (forall i :: 0 <= i < |companies| ==> NoneContains(CompanyCells(companies[i], dateLabel), c))
    && (forall i :: 0 <= i < |events| ==> events[i].company.Some? ==> NoneContains(EventCells(events[i], dateLabel), c))
  }

  /** No cell of any row holds `c`. */
  predicate RowsAvoid(rows: seq<seq<string>>, c: char)
  {
    forall k :: 0 <= k < |rows| ==> NoneContains(rows[k], c)
  }

  lemma RowsAvoidConcat(a: seq<seq<string>>, b: seq<seq<string>>, c: char)
    requires RowsAvoid(a, c) && RowsAvoid(b, c)
    ensures RowsAvoid(a + b, c)
  {
    forall k | 0 <= k < |a + b|
      ensures NoneContains((a + b)[k], c)
    {
      if k >= |a| {
        assert (a + b)[k] == b[k - |a|];
      }
    }
  }

  lemma SectionAvoids(title: string, header: seq<string>, body: seq<seq<string>>, c: char)
    requires c !in title && NoneContains(header, c) && RowsAvoid(body, c)
    ensures RowsAvoid(Section(title, header, body), c)
  {
    RowsAvoidConcat([[title], header], body, c);
  }

  lemma SummaryAvoidsLineBreak(userCount: nat, companyCount: nat, eventCount: nat)
    ensures RowsAvoid(SummaryRows(userCount, companyCount, eventCount), '\n')
  {
    DigitsAvoidSeparators(NatToDecimal(userCount));
    DigitsAvoidSeparators(NatToDecimal(companyCount));
    DigitsAvoidSeparators(NatToDecimal(eventCount));
  }

  lemma FixedCellsAvoidLineBreak()
    ensures '\n' !in "Utilisateurs" && '\n' !in "Entreprises" && '\n' !in "Événements"
    ensures NoneContains(UsersHeader, '\n') && NoneContains(CompaniesHeader, '\n') && NoneContains(EventsHeader, '\n')
  {
  }

  /** No cell of the report holds a line break when no field does. */
  lemma RowsAvoidLineBreak(users: seq<UserRecord>, companies: seq<CompanyRecord>, events: seq<EventRecord>,
                           dateLabel: Date -> string)
    requires AllHaveCompany(events)
    requires FieldsAvoid(users, companies, events, dateLabel, '\n')
    ensures RowsAvoid(CsvRows(users, companies, events, dateLabel), '\n')
  {
    var summary := SummaryRows(|users|, |companies|, |events|);
    var us := Section("Utilisateurs", UsersHeader, UserRows(users, dateLabel));
    var cs := Section("Entreprises", CompaniesHeader, CompanyRows(companies, dateLabel));
    var es := Section("Événements", EventsHeader, EventRows(events, dateLabel));
    SummaryAvoidsLineBreak(|users|, |companies|, |events|);
    FixedCellsAvoidLineBreak();
    SectionAvoids("Utilisateurs", UsersHeader, UserRows(users, dateLabel), '\n');
    SectionAvoids("Entreprises", CompaniesHeader, CompanyRows(companies, dateLabel), '\n');
    SectionAvoids("Événements", EventsHeader, EventRows(events, dateLabel), '\n');
    RowsAvoidConcat(summary, us, '\n');
    RowsAvoidConcat(summary + us, [[]], '\n');
    RowsAvoidConcat(summary + us + [[]], cs, '\n');
    RowsAvoidConcat(summary + us + [[]] + cs, [[]], '\n');
    RowsAvoidConcat(summary + us + [[]] + cs + [[]], es, '\n');
  }

  /** When no cell holds a line break, splitting serialised rows on line breaks gives back the joined rows. */
  lemma SerialisedLines(rows: seq<seq<string>>)
    requires |rows| >= 1 && RowsAvoid(rows, '\n')
    ensures Split(Serialise(rows), '\n') == JoinedRows(rows)
  {
    var lines := JoinedRows(rows);
    forall k | 0 <= k < |lines|
      ensures '\n' !in lines[k]
    {
      JoinAvoids(rows[k], ',', '\n');
    }
    SplitJoin(lines, '\n');
  }

  /** A block of consecutive rows reappears, joined, as the same block of lines. */
  lemma BlockLines(rows: seq<seq<string>>, start: nat, block: seq<seq<string>>)
    requires |rows| >= 1 && RowsAvoid(rows, '\n')
    requires start + |block| <= |rows| && rows[start..start + |block|] == block
    ensures var lines := Split(Serialise(rows), '\n');
      && |lines| == |rows|
      && forall i :: 0 <= i < |block| ==> lines[start + i] == Join(block[i], ',')
  {
    SerialisedLines(rows);
    forall i | 0 <= i < |block|
      ensures JoinedRows(rows)[start + i] == Join(block[i], ',')
    {
      assert rows[start + i] == block[i];
    }
  }

  /**
   * When no field holds a line break, the lines of the exported text are exactly the
   * rows, each joined by commas: splitting on line breaks undoes the serialisation.
   */
  lemma ExportLines(users: seq<UserRecord>, companies: seq<CompanyRecord>, events: seq<EventRecord>,
                    dateLabel: Date -> string)
    requires AllHaveCompany(events)
    requires FieldsAvoid(users, companies, events, dateLabel, '\n')
    ensures Split(CsvText(users, companies, events, dateLabel), '\n') == JoinedRows(CsvRows(users, companies, events, dateLabel))
  {
    RowCount(users, companies, events, dateLabel);
    RowsAvoidLineBreak(users, companies, events, dateLabel);
    SerialisedLines(CsvRows(users, companies, events, dateLabel));
  }

  /** The export has exactly 13 + |users| + |companies| + |events| lines. */
  lemma LineCount(users: seq<UserRecord>, companies: seq<CompanyRecord>, events: seq<EventRecord>,
                  dateLabel: Date -> string)
    requires AllHaveCompany(events)
    requires FieldsAvoid(users, companies, events, dateLabel, '\n')
    ensures |Split(CsvText(users, companies, events, dateLabel), '\n')| == 13 + |users| + |companies| + |events|
  {
    ExportLines(users, companies, events, dateLabel);
    RowCount(users, companies, events, dateLabel);
  }

  /**
   * Lines 2 to 4 are a label, a comma and the decimal length of the users, companies and
   * events lists; the digits read back as those lengths.
   */
  lemma SummaryLines(users: seq<UserRecord>, companies: seq<CompanyRecord>, events: seq<EventRecord>,
                     dateLabel: Date -> string)
    requires AllHaveCompany(events)
    requires FieldsAvoid(users, companies, events, dateLabel, '\n')
    ensures var lines := Split(CsvText(users, companies, events, dateLabel), '\n');
      && |lines| > 4
      && lines[0] == "Statistiques Générales"
      && lines[1] == "Utilisateurs totaux" + "," + NatToDecimal(|users|)
      && lines[2] == "Entreprises totales" + "," + NatToDecimal(|companies|)
      && lines[3] == "Événements totaux" + "," + NatToDecimal(|events|)
      && DecimalValue(NatToDecimal(|users|)) == |users|
      && DecimalValue(NatToDecimal(|companies|)) == |companies|
      && DecimalValue(NatToDecimal(|events|)) == |events|
      && lines[4] == ""
  {
    ExportLines(users, companies, events, dateLabel);
    SummaryFirst(users, companies, events, dateLabel);
    JoinPair("Utilisateurs totaux", NatToDecimal(|users|), ',');
    JoinPair("Entreprises totales", NatToDecimal(|companies|), ',');
    JoinPair("Événements totaux", NatToDecimal(|events|), ',');
    DecimalRoundTrip(|users|);
    DecimalRoundTrip(|companies|);
    DecimalRoundTrip(|events|);
  }

  /**
   * The sections follow in the fixed order users, companies, events; each starts with its
   * title line and its header line, and an empty line closes each but the last.
   */
  lemma SectionFramingLines(users: seq<UserRecord>, companies: seq<CompanyRecord>, events: seq<EventRecord>,
                            dateLabel: Date -> string)
    requires AllHaveCompany(events)
    requires FieldsAvoid(users, companies, events, dateLabel, '\n')
    ensures var lines := Split(CsvText(users, companies, events, dateLabel), '\n');
      var u, c := |users|, |companies|;
      && |lines| == 13 + u + c + |events|
      && lines[5] == "Utilisateurs" && lines[6] == Join(UsersHeader, ',')
      && lines[7 + u] == ""
      && lines[8 + u] == "Entreprises" && lines[9 + u] == Join(CompaniesHeader, ',')
      && lines[10 + u + c] == ""
      && lines[11 + u + c] == "Événements" && lines[12 + u + c] == Join(EventsHeader, ',')
  {
    RowsAvoidLineBreak(users, companies, events, dateLabel);
    SerialisedLines(CsvRows(users, companies, events, dateLabel));
    UsersSectionSecond(users, companies, events, dateLabel);
    CompaniesSectionThird(users, companies, events, dateLabel);
    EventsSectionLast(users, companies, events, dateLabel);
  }

  /** The user lines keep the input order: line 8 + i (index 7 + i) comes from `users[i]`. */
  lemma UserLines(users: seq<UserRecord>, companies: seq<CompanyRecord>, events: seq<EventRecord>,
                  dateLabel: Date -> string)
    requires AllHaveCompany(events)
    requires FieldsAvoid(users, companies, events, dateLabel, '\n')
    ensures var lines := Split(CsvText(users, companies, events, dateLabel), '\n');
      && |lines| > 7 + |users|
      && forall i :: 0 <= i < |users| ==> lines[7 + i] == Join(UserCells(users[i], dateLabel), ',')
  {
    var lines := Split(CsvText(users, companies, events, dateLabel), '\n');
    var block := UserRows(users, dateLabel);
    assert |lines| == 13 + |users| + |companies| + |events|
        && forall i :: 0 <= i < |block| ==> lines[7 + i] == Join(block[i], ',') by {
      RowsAvoidLineBreak(users, companies, events, dateLabel);
      UsersSectionSecond(users, companies, events, dateLabel);
      RowCount(users, companies, events, dateLabel);
      BlockLines(CsvRows(users, companies, events, dateLabel), 7, block);
    }
    assert forall i :: 0 <= i < |users| ==> block[i] == UserCells(users[i], dateLabel);
  }

  /** The company lines keep the input order, after the users section. */
  lemma CompanyLines(users: seq<UserRecord>, companies: seq<CompanyRecord>, events: seq<EventRecord>,
                     dateLabel: Date -> string)
    requires AllHaveCompany(events)
    requires FieldsAvoid(users, companies, events, dateLabel, '\n')
    ensures var lines := Split(CsvText(users, companies, events, dateLabel), '\n');
      var u := |users|;
      && |lines| > 10 + u + |companies|
      && forall i :: 0 <= i < |companies| ==> lines[10 + u + i] == Join(CompanyCells(companies[i], dateLabel), ',')
  {
    var lines := Split(CsvText(users, companies, events, dateLabel), '\n');
    var block := CompanyRows(companies, dateLabel);
    assert |lines| == 13 + |users| + |companies| + |events|
        && forall i :: 0 <= i < |block| ==> lines[10 + |users| + i] == Join(block[i], ',') by {
      RowsAvoidLineBreak(users, companies, events, dateLabel);
      CompaniesSectionThird(users, companies, events, dateLabel);
      RowCount(users, companies, events, dateLabel);
      BlockLines(CsvRows(users, companies, events, dateLabel), 10 + |users|, block);
    }
    assert forall i :: 0 <= i < |companies| ==> block[i] == CompanyCells(companies[i], dateLabel);
  }

  /** The event lines keep the input order and end the text. */
  lemma EventLines(users: seq<UserRecord>, companies: seq<CompanyRecord>, events: seq<EventRecord>,
                   dateLabel: Date -> string)
    requires AllHaveCompany(events)
    requires FieldsAvoid(users, companies, events, dateLabel, '\n')
    ensures var lines := Split(CsvText(users, companies, events, dateLabel), '\n');
      var u, c := |users|, |companies|;
      && |lines| == 13 + u + c + |events|
      && forall i :: 0 <= i < |events| ==> lines[13 + u + c + i] == Join(EventCells(events[i], dateLabel), ',')
  {
    var lines := Split(CsvText(users, companies, events, dateLabel), '\n');
    var block := EventRows(events, dateLabel);
    assert |lines| == 13 + |users| + |companies| + |events|
        && forall i :: 0 <= i < |block| ==> lines[13 + |users| + |companies| + i] == Join(block[i], ',') by {
      RowsAvoidLineBreak(users, companies, events, dateLabel);
      EventsSectionLast(users, companies, events, dateLabel);
      RowCount(users, companies, events, dateLabel);
      BlockLines(CsvRows(users, companies, events, dateLabel), 13 + |users| + |companies|, block);
    }
    assert forall i :: 0 <= i < |events| ==> block[i] == EventCells(events[i], dateLabel);
  }

  // ---- fields within a line ----

  /** With no comma in its fields, a user line splits back into exactly its 5 fields. */
  lemma UserLineFields(users: seq<UserRecord>, companies: seq<CompanyRecord>, events: seq<EventRecord>,
                       dateLabel: Date -> string, i: nat)
    requires AllHaveCompany(events)
    requires FieldsAvoid(users, companies, events, dateLabel, '\n')
    requires i < |users| && NoneContains(UserCells(users[i], dateLabel), ',')
    ensures var lines := Split(CsvText(users, companies, events, dateLabel), '\n');
      && 7 + i < |lines|
      && Split(lines[7 + i], ',') == UserCells(users[i], dateLabel)
      && |Split(lines[7 + i], ',')| == 5
  {
    UserLines(users, companies, events, dateLabel);
    SplitJoin(UserCells(users[i], dateLabel), ',');
  }

  /** With no comma in its fields, a company line splits back into exactly its 4 fields. */
  lemma CompanyLineFields(users: seq<UserRecord>, companies: seq<CompanyRecord>, events: seq<EventRecord>,
                          dateLabel: Date -> string, i: nat)
    requires AllHaveCompany(events)
    requires FieldsAvoid(users, companies, events, dateLabel, '\n')
    requires i < |companies| && NoneContains(CompanyCells(companies[i], dateLabel), ',')
    ensures var lines := Split(CsvText(users, companies, events, dateLabel), '\n');
      && 10 + |users| + i < |lines|
      && Split(lines[10 + |users| + i], ',') == CompanyCells(companies[i], dateLabel)
  {
    CompanyLines(users, companies, events, dateLabel);
    SplitJoin(CompanyCells(companies[i], dateLabel), ',');
  }

  /** With no comma in its fields, the fourth field of an event line is its company's name. */
  lemma EventCompanyField(users: seq<UserRecord>, companies: seq<CompanyRecord>, events: seq<EventRecord>,
                          dateLabel: Date -> string, i: nat)
    requires AllHaveCompany(events)
    requires FieldsAvoid(users, companies, events, dateLabel, '\n')
    requires i < |events| && NoneContains(EventCells(events[i], dateLabel), ',')
    ensures var lines := Split(CsvText(users, companies, events, dateLabel), '\n');
      var k := 13 + |users| + |companies| + i;
      && k < |lines|
      && |Split(lines[k], ',')| == 4
      && Split(lines[k], ',')[3] == events[i].company.value
  {
    EventLines(users, companies, events, dateLabel);
    SplitJoin(EventCells(events[i], dateLabel), ',');
  }

  /** Serialised rows end without a line break when the last row has two fields or more. */
  lemma SerialisedEnd(rows: seq<seq<string>>)
    requires |rows| >= 1 && RowsAvoid(rows, '\n') && |rows[|rows| - 1]| >= 2
    ensures var text := Serialise(rows);
      |text| > 0 && text[|text| - 1] != '\n'
  {
    var text := Serialise(rows);
    var lines := JoinedRows(rows);
    SerialisedLines(rows);
    JoinHasSeparator(rows[|rows| - 1], ',');
    assert lines[|lines| - 1] != "";
    if |text| > 0 && text[|text| - 1] == '\n' {
      SplitTrailingSeparator(text, '\n');
    }
  }

  /** The text does not end with a line break: rows are separated, not terminated. */
  lemma NoTrailingLineBreak(users: seq<UserRecord>, companies: seq<CompanyRecord>, events: seq<EventRecord>,
                            dateLabel: Date -> string)
    requires AllHaveCompany(events)
    requires FieldsAvoid(users, companies, events, dateLabel, '\n')
    ensures var text := CsvText(users, companies, events, dateLabel);
      |text| > 0 && text[|text| - 1] != '\n'
  {
    var rows := CsvRows(users, companies, events, dateLabel);
    RowsAvoidLineBreak(users, companies, events, dateLabel);
    assert |rows| >= 1 && |rows[|rows| - 1]| == 4 by {
      EventsSectionLast(users, companies, events, dateLabel);
      if |events| > 0 {
        assert rows[|rows| - 1] == EventCells(events[|events| - 1], dateLabel);
      }
    }
    SerialisedEnd(rows);
  }
}
