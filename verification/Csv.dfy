/**
 The CSV export of an audit report, against an independent reader of section 2 of RFC 4180.

 Main results: `ReportReadsBack` (the reader gets exactly the header and one row per session, every
 cell equal to its neutralised text, whatever the cells contain), `CellUnderName`, `NoFormulaCells` and
 `KindsReadBack`.
 */
module Csv {
  import opened Options
  import opened Json

  // ---------------------------------------------------------------------------------------------
  // Writing.
  // ---------------------------------------------------------------------------------------------

  /** A leading character that a spreadsheet may take for a formula. */
  predicate IsFormulaChar(c: char) {
    c == '=' || c == '+' || c == '-' || c == '@' || c == '\t' || c == '\r' || c == '\n' || c == '|'
  }

  predicate IsSpecial(c: char) {
    c == '"' || c == ',' || c == '\r' || c == '\n'
  }

  predicate HasSpecial(s: string) {
    exists k :: 0 <= k < |s| && IsSpecial(s[k])
  }

  /** A text made harmless: one that starts like a formula gets an apostrophe in front. */
  function Neutral(s: string): (r: string)
    ensures r != "" ==> !IsFormulaChar(r[0])
  {
    if s != "" && IsFormulaChar(s[0]) then "'" + s else s
  }

  function DoubleQuotes(s: string): string {
    if s == "" then "" else (if s[0] == '"' then "\"\"" else [s[0]]) + DoubleQuotes(s[1..])
  }

  function Printed(s: string): string {
    if HasSpecial(s) then "\"" + DoubleQuotes(s) + "\"" else s
  }

  /** One exported cell. */
  method CsvCell(value: Option<string>) returns (r: string)
    ensures r == Printed(Neutral(if value.Some? then value.value else ""))
    ensures ReadField(r) == Some(Read(Neutral(if value.Some? then value.value else ""), ""))
  {
    if value.None? {
      r := "";
    } else {
      var s := value.value;
      if s != "" && IsFormulaChar(s[0]) {
        s := "'" + s;
      }
      r := Printed(s);
    }
    FieldReadsBack(Neutral(if value.Some? then value.value else ""), "");
    assert r + "" == r;
  }

  function RowText(cells: seq<string>): string {
    if cells == [] then ""
    else if |cells| == 1 then Printed(cells[0]) else Printed(cells[0]) + "," + RowText(cells[1..])
  }

  function TableText(rows: seq<seq<string>>): string {
    if rows == [] then ""
    else if |rows| == 1 then RowText(rows[0]) else RowText(rows[0]) + "\r\n" + TableText(rows[1..])
  }

  // ---------------------------------------------------------------------------------------------
  // Reading: fields, records and a file of section 2 of RFC 4180.
  // ---------------------------------------------------------------------------------------------

  datatype Read<T> = Read(value: T, rest: string)

  /** The rest of a quoted field, after its opening quote: two quotes stand for one, a single one ends it. */
  function ReadQuoted(s: string): (r: Option<Read<string>>)
    ensures r.Some? ==> |r.value.rest| <= |s|
  {
    if s == "" then None
    else if s[0] != '"' then
      (match ReadQuoted(s[1..])
       case None => None
       case Some(q) => Some(Read([s[0]] + q.value, q.rest)))
    else if |s| > 1 && s[1] == '"' then
      (match ReadQuoted(s[2..])
       case None => None
       case Some(q) => Some(Read("\"" + q.value, q.rest)))
    else Some(Read("", s[1..]))
  }

  /** A plain field runs to the next special character. */
  function ReadPlain(s: string): (r: Read<string>)
    ensures |r.rest| <= |s|
  {
    if s == "" || IsSpecial(s[0]) then Read("", s)
    else
      var q := ReadPlain(s[1..]);
      Read([s[0]] + q.value, q.rest)
  }

  function ReadField(s: string): (r: Option<Read<string>>)
    ensures r.Some? ==> |r.value.rest| <= |s|
  {
    if s != "" && s[0] == '"' then ReadQuoted(s[1..]) else Some(ReadPlain(s))
  }

  function ReadRecord(s: string): (r: Option<Read<seq<string>>>)
    ensures r.Some? ==> |r.value.rest| <= |s|
    decreases |s|
  {
    match ReadField(s)
    case None => None
    case Some(f) =>
      if f.rest != "" && f.rest[0] == ',' then
        (match ReadRecord(f.rest[1..])
         case None => None
         case Some(more) => Some(Read([f.value] + more.value, more.rest)))
      else Some(Read([f.value], f.rest))
  }

  /** Records separated by CRLF; a line break after the last record is optional. */
  function ReadFile(s: string): Option<seq<seq<string>>>
    decreases |s|
  {
    match ReadRecord(s)
    case None => None
    case Some(r) =>
      if r.rest == "" || r.rest == "\r\n" then Some([r.value])
      else if |r.rest| >= 2 && r.rest[0] == '\r' && r.rest[1] == '\n' then
        (match ReadFile(r.rest[2..])
         case None => None
         case Some(more) => Some([r.value] + more))
      else None
  }

  // ---------------------------------------------------------------------------------------------
  // Reading back what was written.
  // ---------------------------------------------------------------------------------------------

  /** What may follow a field. */
  predicate Stops(x: string) {
    x == "" || x[0] == ',' || x[0] == '\r'
  }

  function QuotedTail(s: string, x: string): string {
    DoubleQuotes(s) + "\"" + x
  }

  lemma QuotedTailStep(s: string, x: string)
    requires s != ""
    ensures QuotedTail(s, x) == (if s[0] == '"' then "\"\"" else [s[0]]) + QuotedTail(s[1..], x)
  {
    var head := if s[0] == '"' then "\"\"" else [s[0]];
    assert DoubleQuotes(s) == head + DoubleQuotes(s[1..]);
    assert head + DoubleQuotes(s[1..]) + "\"" + x == head + (DoubleQuotes(s[1..]) + "\"" + x);
  }

  lemma {:induction false} QuotedReadsBack(s: string, x: string)
    requires x == "" || x[0] != '"'
    ensures ReadQuoted(QuotedTail(s, x)) == Some(Read(s, x))
  {
    var t := QuotedTail(s, x);
    if s == "" {
      assert t == "\"" + x;
      assert t[1..] == x;
    } else {
      QuotedReadsBack(s[1..], x);
      QuotedTailStep(s, x);
      assert s == [s[0]] + s[1..];
      if s[0] == '"' {
        assert t[2..] == QuotedTail(s[1..], x);
      } else {
        assert t[1..] == QuotedTail(s[1..], x);
      }
    }
  }

  lemma {:induction false} PlainReadsBack(s: string, x: string)
    requires !HasSpecial(s) && Stops(x)
    ensures ReadPlain(s + x) == Read(s, x)
  {
    if s == "" {
      assert s + x == x;
    } else {
      assert (s + x)[1..] == s[1..] + x;
      assert !IsSpecial(s[0]);
      assert !HasSpecial(s[1..]) by { assert forall k :: 0 <= k < |s[1..]| ==> s[1..][k] == s[k + 1]; }
      PlainReadsBack(s[1..], x);
      assert s == [s[0]] + s[1..];
    }
  }

  lemma FieldReadsBack(s: string, x: string)
    requires Stops(x)
    ensures ReadField(Printed(s) + x) == Some(Read(s, x))
  {
    if HasSpecial(s) {
      QuotedReadsBack(s, x);
      QuotedText(s, x);
    } else {
      PlainReadsBack(s, x);
      PlainStart(s, x);
    }
  }

  lemma QuotedText(s: string, x: string)
    requires HasSpecial(s)
    ensures var t := Printed(s) + x;
      t != "" && t[0] == '"' && t[1..] == QuotedTail(s, x)
  {
    var t := Printed(s) + x;
    Assoc("\"", DoubleQuotes(s), "\"", x);
    JoinThree(DoubleQuotes(s), "\"", x);
    assert t == "\"" + QuotedTail(s, x);
  }

  lemma JoinThree(a: string, b: string, c: string)
    ensures a + b + c == a + (b + c)
  {
  }

  lemma PlainStart(s: string, x: string)
    requires !HasSpecial(s) && Stops(x)
    ensures s + x != "" ==> (s + x)[0] != '"'
  {
    assert s != "" ==> !IsSpecial(s[0]);
  }

  predicate EndsRecord(x: string) {
    x == "" || (|x| >= 2 && x[0] == '\r' && x[1] == '\n')
  }

  lemma RowTextStep(cells: seq<string>, x: string)
    requires |cells| > 1
    ensures RowText(cells) + x == Printed(cells[0]) + ("," + (RowText(cells[1..]) + x))
  {
    Assoc(Printed(cells[0]), ",", RowText(cells[1..]), x);
  }

  lemma RecordStep(s: string, cell: string, more: string, cells: seq<string>, x: string)
    requires ReadField(s) == Some(Read(cell, "," + more))
    requires ReadRecord(more) == Some(Read(cells, x))
    ensures ReadRecord(s) == Some(Read([cell] + cells, x))
  {
    assert ("," + more)[1..] == more;
  }

  lemma {:induction false} RecordReadsBack(cells: seq<string>, x: string)
    requires cells != [] && EndsRecord(x)
    ensures ReadRecord(RowText(cells) + x) == Some(Read(cells, x))
  {
    if |cells| == 1 {
      FieldReadsBack(cells[0], x);
      assert cells == [cells[0]];
    } else {
      var more := RowText(cells[1..]) + x;
      RecordReadsBack(cells[1..], x);
      FieldReadsBack(cells[0], "," + more);
      RowTextStep(cells, x);
      RecordStep(RowText(cells) + x, cells[0], more, cells[1..], x);
      assert cells == [cells[0]] + cells[1..];
    }
  }

  /** A row that shows up in the text: not a single empty cell. */
  predicate Visible(cells: seq<string>) {
    cells != [] && cells != [""]
  }

  lemma VisibleText(cells: seq<string>)
    requires Visible(cells)
    ensures RowText(cells) != ""
  {
    if |cells| == 1 {
      assert cells == [cells[0]];
    }
  }

  lemma FileStep(s: string, row: seq<string>, more: string, rows: seq<seq<string>>)
    requires ReadRecord(s) == Some(Read(row, "\r\n" + more)) && more != ""
    requires ReadFile(more) == Some(rows)
    ensures ReadFile(s) == Some([row] + rows)
  {
    var rest := "\r\n" + more;
    assert rest[2..] == more && |rest| > 2 && rest[0] == '\r' && rest[1] == '\n';
  }

  lemma TableTextStep(rows: seq<seq<string>>)
    requires |rows| > 1
    ensures TableText(rows) == RowText(rows[0]) + ("\r\n" + TableText(rows[1..]))
  {
  }

  /** Any table of visible rows, whatever its cells contain, is read back exactly. */
  lemma {:induction false} TableReadsBack(rows: seq<seq<string>>)
    requires rows != [] && forall k :: 0 <= k < |rows| ==> Visible(rows[k])
    ensures ReadFile(TableText(rows)) == Some(rows)
  {
    if |rows| == 1 {
      RecordReadsBack(rows[0], "");
      assert RowText(rows[0]) + "" == RowText(rows[0]);
      assert rows == [rows[0]];
    } else {
      var more := TableText(rows[1..]);
      TableReadsBack(rows[1..]);
      RecordReadsBack(rows[0], "\r\n" + more);
      TableTextStep(rows);
      TableTextNonempty(rows[1..]);
      FileStep(TableText(rows), rows[0], more, rows[1..]);
      assert rows == [rows[0]] + rows[1..];
    }
  }

  lemma TableTextNonempty(rows: seq<seq<string>>)
    requires rows != [] && forall k :: 0 <= k < |rows| ==> Visible(rows[k])
    ensures TableText(rows) != ""
  {
    VisibleText(rows[0]);
  }

  // ---------------------------------------------------------------------------------------------
  // The report.
  // ---------------------------------------------------------------------------------------------

  datatype KindCount = KindCount(kind: string, count: nat)

  datatype SessionRow = SessionRow(
    sessionId: Option<string>, provider: Option<string>, agentId: Option<string>, repo: Option<string>,
    branch: Option<string>, state: Option<string>, startedAt: Option<string>, endedAt: Option<string>,
    secretDetected: bool, redactions: nat, byKind: seq<KindCount>,
    approvals: nat, allow: nat, allowForSession: nat, deny: nat, cancel: nat,
    retired: nat, pending: nat, highRisk: nat, autoAllowed: nat)

  function FoldByKind(ks: seq<KindCount>): string {
    if ks == [] then ""
    else if |ks| == 1 then EntryText(ks[0])
    else EntryText(ks[0]) + (";" + FoldByKind(ks[1..]))
  }

  function EntryText(e: KindCount): string {
    e.kind + ":" + NatText(e.count)
  }

  const HEADER: seq<string> :=
    ["session_id", "provider", "agent_id", "repo", "branch", "state", "started_at", "ended_at",
     "secret_detected", "secret_redaction_count", "redaction_by_kind", "approvals_total", "approve",
     "allow_for_session", "deny", "cancel", "synthetic_retired", "approvals_pending",
     "high_risk_op_count", "auto_allowed_count"]

  function Text(o: Option<string>): string {
    if o.Some? then o.value else ""
  }

  /** A session's values as texts, column by column. */
  function Values(s: SessionRow): seq<string> {
    [Text(s.sessionId), Text(s.provider), Text(s.agentId), Text(s.repo), Text(s.branch), Text(s.state),
     Text(s.startedAt), Text(s.endedAt), if s.secretDetected then "true" else "false", NatText(s.redactions),
     FoldByKind(s.byKind), NatText(s.approvals), NatText(s.allow), NatText(s.allowForSession), NatText(s.deny),
     NatText(s.cancel), NatText(s.retired), NatText(s.pending), NatText(s.highRisk), NatText(s.autoAllowed)]
  }

  function NeutralAll(cells: seq<string>): (r: seq<string>)
    ensures |r| == |cells| && forall k :: 0 <= k < |r| ==> r[k] == Neutral(cells[k])
  {
    seq(|cells|, k requires 0 <= k < |cells| => Neutral(cells[k]))
  }

  function SessionCells(s: SessionRow): (r: seq<string>)
    ensures |r| == 20
  {
    NeutralAll(Values(s))
  }

  /** One row of neutralised cells per session. */
  function SessionRows(sessions: seq<SessionRow>): (r: seq<seq<string>>)
    ensures |r| == |sessions| && forall k :: 0 <= k < |r| ==> r[k] == SessionCells(sessions[k])
  {
    seq(|sessions|, k requires 0 <= k < |sessions| => SessionCells(sessions[k]))
  }

  function RowsUnder(header: seq<string>, sessions: seq<SessionRow>): seq<seq<string>> {
    [header] + SessionRows(sessions)
  }

  /** The header and one row per session. */
  function ReportRows(sessions: seq<SessionRow>): seq<seq<string>> {
    RowsUnder(HEADER, sessions)
  }

  lemma RowsVisible(header: seq<string>, sessions: seq<SessionRow>)
    requires |header| == 20
    ensures forall k :: 0 <= k < |RowsUnder(header, sessions)| ==> Visible(RowsUnder(header, sessions)[k])
  {
    var rows := RowsUnder(header, sessions);
    forall k | 0 <= k < |rows| ensures Visible(rows[k]) {
      if k > 0 { assert rows[k] == SessionRows(sessions)[k - 1]; }
      assert |rows[k]| == 20;
    }
  }

  lemma HeaderSize()
    ensures |HEADER| == 20
  {
  }

  lemma TableTextAppend(rows: seq<seq<string>>, row: seq<string>)
    requires rows != []
    ensures TableText(rows + [row]) == TableText(rows) + "\r\n" + RowText(row)
  {
    var all := rows + [row];
    if |rows| == 1 {
      assert all[1..] == [row];
    } else {
      assert all[1..] == rows[1..] + [row];
      TableTextAppend(rows[1..], row);
      Regroup(RowText(rows[0]), TableText(rows[1..]), RowText(row));
    }
  }

  lemma Regroup(a: string, b: string, c: string)
    ensures a + "\r\n" + (b + "\r\n" + c) == a + "\r\n" + b + "\r\n" + c
  {
    assert b + "\r\n" + c == b + ("\r\n" + c);
    assert a + "\r\n" + (b + ("\r\n" + c)) == a + "\r\n" + b + ("\r\n" + c);
  }

  lemma RowsAppend(header: seq<string>, sessions: seq<SessionRow>, n: nat)
    requires n < |sessions|
    ensures RowsUnder(header, sessions[..n + 1]) == RowsUnder(header, sessions[..n]) + [SessionCells(sessions[n])]
  {
    assert SessionRows(sessions[..n + 1]) == SessionRows(sessions[..n]) + [SessionCells(sessions[n])];
  }

  method TextUnder(header: seq<string>, sessions: seq<SessionRow>) returns (text: string)
    ensures text == TableText(RowsUnder(header, sessions))
  {
    text := RowText(header);
    assert RowsUnder(header, sessions[..0]) == [header];
    for n := 0 to |sessions|
      invariant text == TableText(RowsUnder(header, sessions[..n]))
    {
      var row := SessionCells(sessions[n]);
      RowsAppend(header, sessions, n);
      TableTextAppend(RowsUnder(header, sessions[..n]), row);
      text := text + "\r\n" + RowText(row);
    }
    assert sessions[..|sessions|] == sessions;
  }

  /** What the columns are about. */
  datatype Column =
    | SessionId | Provider | AgentId | Repo | Branch | RunState | StartedAt | EndedAt | SecretDetected | Redactions
    | ByKind | Approvals | Approve | ForSession | Deny | Cancel | Retired | Waiting | HighRisk | AutoAllowed

  /** A column's name in the file. */
  function NameOf(c: Column): string {
    match c
    case SessionId => "session_id"
    case Provider => "provider"
    case AgentId => "agent_id"
    case Repo => "repo"
    case Branch => "branch"
    case RunState => "state"
    case StartedAt => "started_at"
    case EndedAt => "ended_at"
    case SecretDetected => "secret_detected"
    case Redactions => "secret_redaction_count"
    case ByKind => "redaction_by_kind"
    case Approvals => "approvals_total"
    case Approve => "approve"
    case ForSession => "allow_for_session"
    case Deny => "deny"
    case Cancel => "cancel"
    case Retired => "synthetic_retired"
    case Waiting => "approvals_pending"
    case HighRisk => "high_risk_op_count"
    case AutoAllowed => "auto_allowed_count"
  }

  /** The text of the field a column is about. */
  function TextOf(s: SessionRow, c: Column): string {
    match c
    case SessionId => Text(s.sessionId)
    case Provider => Text(s.provider)
    case AgentId => Text(s.agentId)
    case Repo => Text(s.repo)
    case Branch => Text(s.branch)
    case RunState => Text(s.state)
    case StartedAt => Text(s.startedAt)
    case EndedAt => Text(s.endedAt)
    case SecretDetected => if s.secretDetected then "true" else "false"
    case Redactions => NatText(s.redactions)
    case ByKind => FoldByKind(s.byKind)
    case Approvals => NatText(s.approvals)
    case Approve => NatText(s.allow)
    case ForSession => NatText(s.allowForSession)
    case Deny => NatText(s.deny)
    case Cancel => NatText(s.cancel)
    case Retired => NatText(s.retired)
    case Waiting => NatText(s.pending)
    case HighRisk => NatText(s.highRisk)
    case AutoAllowed => NatText(s.autoAllowed)
  }

  /** What a cell may show for a text: the text itself, or, exactly if it starts like a formula, the text after an apostrophe. */
  predicate Shows(cell: string, text: string) {
    if text != "" && text[0] in {'=', '+', '-', '@', '\t', '\r', '\n', '|'} then cell == "'" + text else cell == text
  }

  /** Column k has this name, and shows the field it is about. */
  predicate ColumnShows(header: seq<string>, row: seq<string>, k: nat, s: SessionRow, c: Column) {
    k < |header| && k < |row| && header[k] == NameOf(c) && Shows(row[k], TextOf(s, c))
  }

  ghost predicate HasColumn(header: seq<string>, row: seq<string>, s: SessionRow, c: Column) {
    exists k: nat :: ColumnShows(header, row, k, s, c)
  }

  /** In the file as read back, each session's row shows every field in the column of that name, and has no other columns. */
  lemma CellUnderName(sessions: seq<SessionRow>, r: nat, c: Column)
    requires r < |sessions|
    ensures var rows := ReadFile(TableText(ReportRows(sessions)));
      && rows.Some? && |rows.value| == |sessions| + 1 && |rows.value[0]| == 20 && |rows.value[r + 1]| == 20
      && HasColumn(rows.value[0], rows.value[r + 1], sessions[r], c)
  {
    ReportReadsBack(sessions);
    HeaderSize();
    RowUnder(HEADER, sessions, r);
    ColumnName(c);
    ColumnText(sessions[r], c);
    RowShows(HEADER, SessionCells(sessions[r]), sessions[r], c);
  }

  lemma RowUnder(header: seq<string>, sessions: seq<SessionRow>, r: nat)
    requires r < |sessions|
    ensures var rows := RowsUnder(header, sessions);
      |rows| == |sessions| + 1 && rows[0] == header && rows[r + 1] == SessionCells(sessions[r])
  {
  }

  lemma RowShows(header: seq<string>, row: seq<string>, s: SessionRow, c: Column)
    requires |header| == 20 && header[Position(c)] == NameOf(c)
    requires |row| == 20 && row[Position(c)] == Neutral(TextOf(s, c))
    ensures HasColumn(header, row, s, c)
  {
    assert ColumnShows(header, row, Position(c), s, c);
  }

  function Position(c: Column): (k: nat)
    ensures k < 20
  {
    match c
    case SessionId => 0
    case Provider => 1
    case AgentId => 2
    case Repo => 3
    case Branch => 4
    case RunState => 5
    case StartedAt => 6
    case EndedAt => 7
    case SecretDetected => 8
    case Redactions => 9
    case ByKind => 10
    case Approvals => 11
    case Approve => 12
    case ForSession => 13
    case Deny => 14
    case Cancel => 15
    case Retired => 16
    case Waiting => 17
    case HighRisk => 18
    case AutoAllowed => 19
  }

  lemma ColumnName(c: Column)
    ensures |HEADER| == 20 && HEADER[Position(c)] == NameOf(c)
  {
  }

  lemma ColumnText(s: SessionRow, c: Column)
    ensures SessionCells(s)[Position(c)] == Neutral(TextOf(s, c))
  {
    if Position(c) < 10 { FirstColumns(s, c); } else { LastColumns(s, c); }
    NeutralColumn(Values(s), Position(c));
  }

  lemma NeutralColumn(cells: seq<string>, k: nat)
    requires k < |cells|
    ensures NeutralAll(cells)[k] == Neutral(cells[k])
  {
  }

  lemma FirstColumns(s: SessionRow, c: Column)
    requires Position(c) < 10
    ensures Values(s)[Position(c)] == TextOf(s, c)
  {
  }

  lemma LastColumns(s: SessionRow, c: Column)
    requires Position(c) >= 10
    ensures Values(s)[Position(c)] == TextOf(s, c)
  {
  }

  /** Exporting a report: the header, then line by line. */
  method AuditReportToCsv(sessions: seq<SessionRow>) returns (text: string)
    ensures text == TableText(ReportRows(sessions))
    ensures ReadFile(text) == Some(ReportRows(sessions))
  {
    text := TextUnder(HEADER, sessions);
    ReportReadsBack(sessions);
  }

  /** An RFC 4180 reader gets exactly the header and one row per session, each cell equal to its neutralised value. */
  lemma ReportReadsBack(sessions: seq<SessionRow>)
    ensures ReadFile(TableText(ReportRows(sessions))) == Some(ReportRows(sessions))
  {
    HeaderSize();
    RowsVisible(HEADER, sessions);
    TableReadsBack(ReportRows(sessions));
  }

  lemma HeaderHarmless(k: nat)
    requires k < |HEADER|
    ensures HEADER[k] != "" && !IsFormulaChar(HEADER[k][0])
  {
  }

  predicate Harmless(cell: string) {
    cell != "" ==> !IsFormulaChar(cell[0])
  }

  predicate AllHarmless(cells: seq<string>) {
    forall k :: 0 <= k < |cells| ==> Harmless(cells[k])
  }

  lemma RowsHarmless(header: seq<string>, sessions: seq<SessionRow>)
    requires AllHarmless(header)
    ensures forall r :: 0 <= r < |RowsUnder(header, sessions)| ==> AllHarmless(RowsUnder(header, sessions)[r])
  {
    var rows := RowsUnder(header, sessions);
    forall r | 0 <= r < |rows| ensures AllHarmless(rows[r]) {
      if r > 0 { SessionHarmless(sessions[r - 1]); }
    }
  }

  lemma SessionHarmless(s: SessionRow)
    ensures AllHarmless(SessionCells(s))
  {
    var cells := Values(s);
    assert forall k :: 0 <= k < |cells| ==> Harmless(Neutral(cells[k]));
  }

  /** No cell read from an export starts like a formula. */
  lemma NoFormulaCells(sessions: seq<SessionRow>)
    ensures var rows := ReadFile(TableText(ReportRows(sessions)));
      rows.Some? && forall r :: 0 <= r < |rows.value| ==> AllHarmless(rows.value[r])
  {
    ReportReadsBack(sessions);
    forall k | 0 <= k < |HEADER| ensures Harmless(HEADER[k]) { HeaderHarmless(k); }
    RowsHarmless(HEADER, sessions);
  }

  // ---------------------------------------------------------------------------------------------
  // The folded counts.
  // ---------------------------------------------------------------------------------------------

  predicate CleanKind(k: string) {
    forall n :: 0 <= n < |k| ==> k[n] != ':' && k[n] != ';'
  }

  predicate CleanKinds(ks: seq<KindCount>) {
    forall n :: 0 <= n < |ks| ==> CleanKind(ks[n].kind)
  }

  function UntilChar(s: string, c: char): (r: string)
    ensures |r| <= |s|
  {
    if s == "" || s[0] == c then "" else [s[0]] + UntilChar(s[1..], c)
  }

  lemma {:induction false} UntilFinds(a: string, c: char, b: string)
    requires forall n :: 0 <= n < |a| ==> a[n] != c
    requires b == "" || b[0] == c
    ensures UntilChar(a + b, c) == a
  {
    if a == "" {
      assert a + b == b;
    } else {
      assert (a + b)[1..] == a[1..] + b;
      UntilFinds(a[1..], c, b);
    }
  }

  function KindPart(s: string): (r: string)
    ensures |r| <= |s|
  {
    UntilChar(s, ':')
  }

  function NumberPart(s: string): (r: string)
    ensures |KindPart(s)| < |s| ==> |KindPart(s)| + 1 + |r| <= |s|
  {
    if |KindPart(s)| < |s| then UntilChar(s[|KindPart(s)| + 1..], ';') else ""
  }

  /** What follows the first entry, with its semicolon. */
  function RestPart(s: string): (r: string)
    ensures s != "" ==> |r| < |s|
  {
    if |KindPart(s)| < |s| then s[|KindPart(s)| + 1 + |NumberPart(s)|..] else ""
  }

  function NumberOf(s: string): nat {
    if DigitsValue(s) >= 0 then DigitsValue(s) else 0
  }

  /** Reading the folded counts back: entries end at semicolons, a kind at its colon. */
  function Unfold(s: string): seq<KindCount>
    decreases |s|
  {
    if s == "" then []
    else if RestPart(s) == "" then [KindCount(KindPart(s), NumberOf(NumberPart(s)))]
    else [KindCount(KindPart(s), NumberOf(NumberPart(s)))] + Unfold(RestPart(s)[1..])
  }

  function KindTail(ks: seq<KindCount>): string {
    if |ks| <= 1 then "" else ";" + FoldByKind(ks[1..])
  }

  lemma FoldStep(ks: seq<KindCount>)
    requires ks != []
    ensures FoldByKind(ks) == ks[0].kind + (":" + (NatText(ks[0].count) + KindTail(ks)))
  {
    Assoc(ks[0].kind, ":", NatText(ks[0].count), KindTail(ks));
    if |ks| == 1 { assert EntryText(ks[0]) + "" == EntryText(ks[0]); }
  }

  /** The first entry read back, and where it ends. */
  lemma FirstKind(ks: seq<KindCount>)
    requires ks != [] && CleanKinds(ks)
    ensures var s := FoldByKind(ks);
      && s != "" && KindPart(s) == ks[0].kind && NumberPart(s) == NatText(ks[0].count) && RestPart(s) == KindTail(ks)
  {
    var s, kind, number, tail := FoldByKind(ks), ks[0].kind, NatText(ks[0].count), KindTail(ks);
    FoldStep(ks);
    assert CleanKind(ks[0].kind);
    UntilFinds(kind, ':', ":" + (number + tail));
    AfterFirst(kind, number + tail);
    DigitsAreNotSeparators(ks[0].count);
    UntilFinds(number, ';', tail);
    AfterSecond(kind, number, tail);
  }

  lemma AfterFirst(kind: string, more: string)
    ensures var s := kind + (":" + more);
      |kind| < |s| && s[|kind| + 1..] == more
  {
  }

  lemma AfterSecond(kind: string, number: string, tail: string)
    ensures var s := kind + (":" + (number + tail));
      |s| == |kind| + 1 + |number| + |tail| && s[|kind| + 1 + |number|..] == tail
  {
  }

  lemma UnfoldOne(s: string, e: KindCount, rest: string)
    requires s != "" && KindPart(s) == e.kind && NumberOf(NumberPart(s)) == e.count && RestPart(s) == rest
    ensures Unfold(s) == if rest == "" then [e] else [e] + Unfold(rest[1..])
  {
  }

  lemma UnfoldFirst(ks: seq<KindCount>)
    requires ks != [] && CleanKinds(ks)
    ensures Unfold(FoldByKind(ks)) == if |ks| == 1 then [ks[0]] else [ks[0]] + Unfold(FoldByKind(ks[1..]))
  {
    FirstKind(ks);
    NatTextValue(ks[0].count);
    UnfoldOne(FoldByKind(ks), ks[0], KindTail(ks));
    if |ks| > 1 { assert (";" + FoldByKind(ks[1..]))[1..] == FoldByKind(ks[1..]); }
  }

  /** Reading the folded counts gives the counts back, kinds being free of the two separators. */
  lemma {:induction false} KindsReadBack(ks: seq<KindCount>)
    requires CleanKinds(ks)
    ensures Unfold(FoldByKind(ks)) == ks
  {
    if ks != [] {
      UnfoldFirst(ks);
      if |ks| > 1 { KindsReadBack(ks[1..]); }
      assert ks == [ks[0]] + ks[1..];
    }
  }

  lemma DigitsAreNotSeparators(n: nat)
    ensures forall k :: 0 <= k < |NatText(n)| ==> NatText(n)[k] != ';'
  {
    assert forall k :: 0 <= k < |NatText(n)| ==> IsDigit(NatText(n)[k]);
  }
}
