/**
 * The CSV export of GET /admin/export/csv (src/routes/bookingRoutes.js):
 * one unquoted header line, then one line per booking in date order whose
 * 22 cells are each wrapped in double quotes with embedded quotes doubled
 * (the escaping of section 2 of RFC 4180, rules 5 to 7), lines joined with
 * LF.  A reader for that format is defined beside it, and reading the
 * document back yields the header line and every cell unchanged.
 */
module CsvExport {
  import opened Common
  import opened Schema
  import opened Records
  import opened Queries

  // ---------------------------------------------------------------------------
  // Array.prototype.join and the cell quoting

  /** `parts.join(sep)` for a one-character separator. */
  function JoinWith(sep: char, parts: seq<string>): string
    decreases |parts|
  {
    if parts == [] then ""
    else if |parts| == 1 then parts[0]
    else parts[0] + [sep] + JoinWith(sep, parts[1..])
  }

  /** `replace(/"/g, '""')`: every double quote doubled. */
  function Escape(s: string): string
    decreases |s|
  {
    if s == [] then ""
    else (if s[0] == '"' then "\"\"" else [s[0]]) + Escape(s[1..])
  }

  function Quote(cell: string): string
  {
    "\"" + Escape(cell) + "\""
  }

  function QuoteAll(cells: seq<string>): (q: seq<string>)
    ensures |q| == |cells|
    ensures forall k :: 0 <= k < |cells| ==> q[k] == Quote(cells[k])
  {
    seq(|cells|, k requires 0 <= k < |cells| => Quote(cells[k]))
  }

  /** One data line: the quoted cells joined with commas. */
  function DataLine(cells: seq<string>): string
  {
    JoinWith(',', QuoteAll(cells))
  }

  function DataLines(table: seq<seq<string>>): (ls: seq<string>)
    ensures |ls| == |table|
    ensures forall k :: 0 <= k < |table| ==> ls[k] == DataLine(table[k])
  {
    seq(|table|, k requires 0 <= k < |table| => DataLine(table[k]))
  }

  /** `[headers.join(','), ...rows].join('\n')`. */
  function Document(header: seq<string>, table: seq<seq<string>>): string
  {
    JoinWith('\n', [JoinWith(',', header)] + DataLines(table))
  }

  // ---------------------------------------------------------------------------
  // The cells of one booking

  const Headers: seq<string> := [
    "Calendar Date", "Ramadan Date", "Day of Week", "Sponsor Names",
    "Contact Number", "Contact Email", "Organization", "Food Amount",
    "Cleaning Amount", "Total Cost", "Paid (Y/N/P)", "Amount Paid",
    "Balance", "Food Vendor Name", "Food Vendor Contact Name",
    "Food Vendor Number", "Method of Payment", "Check Number", "Reference",
    "Comment", "Booking Status", "Approval Status"]

  const PaymentStatusMap: map<string, string> := map[
    "completed" := "Y", "pending" := "N", "partial" := "P",
    "cancelled" := "N", "refunded" := "N"]

  const PaymentMethodMap: map<string, string> := map[
    "check" := "Ch", "credit_card" := "CC", "cash" := "Cash",
    "zelle" := "Zelle", "paypal" := "PayPal"]

  /** `x || ''` on a nullable text column. */
  function TextCell(x: Option<string>): string
  {
    if x.Some? then x.value else ""
  }

  /** `x || ''` on an amount: zero is falsy and renders as the empty cell. */
  function AmountCell(n: int): (c: string)
    ensures c == "" <==> n == 0
  {
    if n == 0 then "" else IntToString(n)
  }

  /** `paymentStatusMap[status] || 'N'`. */
  function PaidCell(p: PaymentStatus): string
  {
    var name := PaymentStatusName(p);
    if name in PaymentStatusMap && PaymentStatusMap[name] != "" then PaymentStatusMap[name] else "N"
  }

  /** `paymentMethodMap[method] || ''`; a NULL method looks up nothing. */
  function MethodCell(m: Option<PaymentMethod>): string
  {
    if m.Some? && PaymentMethodName(m.value) in PaymentMethodMap then PaymentMethodMap[PaymentMethodName(m.value)] else ""
  }

  /** `admin_comment || special_notes || ''`: an empty admin comment falls through. */
  function CommentCell(r: DateRecord): string
  {
    if Truthy(r.adminComment) then r.adminComment.value else TextCell(r.specialNotes)
  }

  function ExportCells(b: DateRecord): (cells: seq<string>)
    ensures |cells| == 22
  {
    [ b.date, b.hijriDate, b.dayOfWeek,
      TextCell(b.sponsorName), TextCell(b.sponsorPhone), TextCell(b.sponsorEmail),
      TextCell(b.sponsorOrganization),
      AmountCell(b.foodAmount), AmountCell(b.cleaningAmount), AmountCell(b.totalAmount),
      PaidCell(b.paymentStatus),
      IntToString(b.amountPaid),
      AmountCell(b.balance),
      TextCell(b.foodVendorName), TextCell(b.foodVendorContactName), TextCell(b.foodVendorPhone),
      MethodCell(b.paymentMethod),
      TextCell(b.checkNumber), TextCell(b.mohidReference),
      CommentCell(b),
      BookingStatusName(b.bookingStatus),
      if b.approvalStatus.Some? then ApprovalStatusName(b.approvalStatus.value) else "" ]
  }

  /** The table behind the export: one row of cells per booking of getAllBookingsForExport. */
  function ExportTable(rows: seq<DateRecord>): (t: seq<seq<string>>)
    ensures |t| == |rows|
    ensures forall k :: 0 <= k < |t| ==> t[k] == ExportCells(ExportRows(rows)[k])
    ensures forall k :: 0 <= k < |t| ==> |t[k]| == |Headers|
  {
    var e := ExportRows(rows);
    assert |multiset(e)| == |multiset(rows)|;
    seq(|e|, k requires 0 <= k < |e| => ExportCells(e[k]))
  }

  /**
   * The exported document. Reading it back yields the joined header line and,
   * for each booking in date order, its 22 cells unchanged.
   */
  function ExportCsv(rows: seq<DateRecord>): (csv: string)
    ensures ReadDocument(csv) == Some((JoinWith(',', Headers), ExportTable(rows)))
  {
    HeadersHaveNoLineBreak(Headers);
    ExportLinesNonEmpty(rows);
    DocumentRoundTrip(Headers, ExportTable(rows));
    Document(Headers, ExportTable(rows))
  }

  // ---------------------------------------------------------------------------
  // What the cells say

  /** The paid column is Y for completed, P for partial and N otherwise. */
  lemma PaidCellValues(p: PaymentStatus)
    ensures PaidCell(p) == "Y" <==> p == Completed
    ensures PaidCell(p) == "P" <==> p == Partial
    ensures PaidCell(p) == "N" <==> p != Completed && p != Partial
  {
  }

  /** The method column carries the map's code for each of the five methods and is empty for NULL. */
  lemma MethodCellValues(m: Option<PaymentMethod>)
    ensures m == Some(Check) <==> MethodCell(m) == "Ch"
    ensures m == Some(CreditCard) <==> MethodCell(m) == "CC"
    ensures m == Some(Cash) <==> MethodCell(m) == "Cash"
    ensures m == Some(Zelle) <==> MethodCell(m) == "Zelle"
    ensures m == Some(PayPal) <==> MethodCell(m) == "PayPal"
    ensures m.None? <==> MethodCell(m) == ""
  {
  }

  /** An amount cell is empty exactly for a zero amount; the paid column renders zero as "0". */
  lemma AmountCells(b: DateRecord)
    ensures ExportCells(b)[7] == "" <==> b.foodAmount == 0
    ensures ExportCells(b)[9] == "" <==> b.totalAmount == 0
    ensures ExportCells(b)[12] == "" <==> b.balance == 0
    ensures b.amountPaid == 0 ==> ExportCells(b)[11] == "0"
  {
    var food, total, paid, balance := AmountCell(b.foodAmount), AmountCell(b.totalAmount), IntToString(b.amountPaid), AmountCell(b.balance);
    var cells := ExportCells(b);
    assert cells[7] == food && cells[9] == total && cells[11] == paid && cells[12] == balance;
  }

  /** The comment column prefers a non-empty admin comment, then the special notes. */
  lemma CommentCellRule(b: DateRecord)
    ensures Truthy(b.adminComment) ==> ExportCells(b)[19] == b.adminComment.value
    ensures !Truthy(b.adminComment) && b.specialNotes.Some? ==> ExportCells(b)[19] == b.specialNotes.value
    ensures !Truthy(b.adminComment) && b.specialNotes.None? ==> ExportCells(b)[19] == ""
  {
  }

  // ---------------------------------------------------------------------------
  // Reading the document back

  /** Reads a quoted cell's body, just past its opening quote, up to the lone closing quote. */
  function ReadQuoted(s: string): (r: Option<(string, string)>)
    ensures r.Some? ==> |r.value.1| < |s|
    decreases |s|
  {
    if s == [] then None
    else if s[0] == '"' then
      if |s| > 1 && s[1] == '"' then
        match ReadQuoted(s[2..])
        case None => None
        case Some(p) => Some(("\"" + p.0, p.1))
      else Some(("", s[1..]))
    else
      match ReadQuoted(s[1..])
      case None => None
      case Some(p) => Some(([s[0]] + p.0, p.1))
  }

  /** Reads one line of quoted cells separated by commas; returns the cells and what follows. */
  function ReadLine(s: string): (r: Option<(seq<string>, string)>)
    ensures r.Some? ==> |r.value.1| < |s|
    decreases |s|
  {
    if s == [] || s[0] != '"' then None
    else
      match ReadQuoted(s[1..])
      case None => None
      case Some(p) =>
        if p.1 != [] && p.1[0] == ',' then
          match ReadLine(p.1[1..])
          case None => None
          case Some(q) => Some(([p.0] + q.0, q.1))
        else Some(([p.0], p.1))
  }

  /** Reads data lines separated by LF up to the end of the text. */
  function ReadLines(s: string): (r: Option<seq<seq<string>>>)
    decreases |s|
  {
    match ReadLine(s)
    case None => None
    case Some(p) =>
      if p.1 == [] then Some([p.0])
      else if p.1[0] == '\n' then
        match ReadLines(p.1[1..])
        case None => None
        case Some(more) => Some([p.0] + more)
      else None
  }

  /** Splits off the text before the first LF, and what follows it if there is one. */
  function SplitLine(s: string): (r: (string, Option<string>))
    decreases |s|
  {
    if s == [] then ("", None)
    else if s[0] == '\n' then ("", Some(s[1..]))
    else
      var p := SplitLine(s[1..]);
      ([s[0]] + p.0, p.1)
  }

  /** Reads a whole export: the header line and the cells of each data line. */
  function ReadDocument(doc: string): Option<(string, seq<seq<string>>)>
  {
    var p := SplitLine(doc);
    if p.1.None? then Some((p.0, []))
    else
      match ReadLines(p.1.value)
      case None => None
      case Some(t) => Some((p.0, t))
  }

  lemma {:induction false} ReadEscaped(c: string, rest: string)
    requires rest == [] || rest[0] != '"'
    ensures ReadQuoted(Escape(c) + "\"" + rest) == Some((c, rest))
    decreases |c|
  {
    var s := Escape(c) + "\"" + rest;
    if c == [] {
      assert s == "\"" + rest;
      assert s[1..] == rest;
    } else if c[0] == '"' {
      ReadEscaped(c[1..], rest);
      assert s == "\"\"" + (Escape(c[1..]) + "\"" + rest);
      assert s[2..] == Escape(c[1..]) + "\"" + rest;
      assert "\"" + c[1..] == c;
    } else {
      ReadEscaped(c[1..], rest);
      assert s == [c[0]] + (Escape(c[1..]) + "\"" + rest);
      assert s[1..] == Escape(c[1..]) + "\"" + rest;
      assert [c[0]] + c[1..] == c;
    }
  }

  lemma {:induction false} ReadDataLine(cells: seq<string>, rest: string)
    requires cells != [] && (rest == [] || rest[0] == '\n')
    ensures ReadLine(DataLine(cells) + rest) == Some((cells, rest))
    decreases |cells|
  {
    var s := DataLine(cells) + rest;
    if |cells| == 1 {
      assert s == "\"" + (Escape(cells[0]) + "\"" + rest);
      assert s[1..] == Escape(cells[0]) + "\"" + rest;
      ReadEscaped(cells[0], rest);
      assert [cells[0]] == cells;
    } else {
      var tail := DataLine(cells[1..]) + rest;
      DataLineCons(cells, rest);
      assert s[1..] == Escape(cells[0]) + "\"" + ([','] + tail);
      ReadEscaped(cells[0], [','] + tail);
      assert ([','] + tail)[1..] == tail;
      ReadDataLine(cells[1..], rest);
      assert [cells[0]] + cells[1..] == cells;
    }
  }

  lemma DataLineCons(cells: seq<string>, rest: string)
    requires |cells| > 1
    ensures DataLine(cells) + rest == "\"" + (Escape(cells[0]) + "\"" + ([','] + (DataLine(cells[1..]) + rest)))
  {
    var q := QuoteAll(cells);
    assert q[1..] == QuoteAll(cells[1..]);
    assert DataLine(cells) == q[0] + [','] + DataLine(cells[1..]);
  }

  lemma {:induction false} ReadDataLines(table: seq<seq<string>>)
    requires table != [] && forall k :: 0 <= k < |table| ==> table[k] != []
    ensures ReadLines(JoinWith('\n', DataLines(table))) == Some(table)
    decreases |table|
  {
    var ls := DataLines(table);
    if |table| == 1 {
      ReadDataLine(table[0], "");
      assert DataLine(table[0]) + "" == DataLine(table[0]);
      assert [table[0]] == table;
    } else {
      var tail := JoinWith('\n', DataLines(table[1..]));
      assert ls[1..] == DataLines(table[1..]);
      assert JoinWith('\n', ls) == DataLine(table[0]) + (['\n'] + tail);
      ReadDataLine(table[0], ['\n'] + tail);
      assert (['\n'] + tail)[1..] == tail;
      ReadDataLines(table[1..]);
      assert [table[0]] + table[1..] == table;
    }
  }

  lemma {:induction false} SplitAtFirstLf(h: string, rest: Option<string>)
    requires Absent(h, '\n')
    ensures SplitLine(if rest.Some? then h + "\n" + rest.value else h) == (h, rest)
    decreases |h|
  {
    var s := if rest.Some? then h + "\n" + rest.value else h;
    if h == [] {
      if rest.Some? {
        assert s == "\n" + rest.value;
        assert s[1..] == rest.value;
      }
    } else {
      SplitAtFirstLf(h[1..], rest);
      assert s[1..] == if rest.Some? then h[1..] + "\n" + rest.value else h[1..];
      assert [h[0]] + h[1..] == h;
    }
  }

  lemma {:induction false} JoinAbsent(sep: char, parts: seq<string>, c: char)
    requires sep != c && forall k :: 0 <= k < |parts| ==> Absent(parts[k], c)
    ensures Absent(JoinWith(sep, parts), c)
    decreases |parts|
  {
    if |parts| > 1 {
      JoinAbsent(sep, parts[1..], c);
      var j := JoinWith(sep, parts);
      assert j == parts[0] + [sep] + JoinWith(sep, parts[1..]);
      forall k | 0 <= k < |j| ensures j[k] != c {
        if k > |parts[0]| {
          assert j[k] == JoinWith(sep, parts[1..])[k - |parts[0]| - 1];
        }
      }
    }
  }

  /**
   * Reading a document back gives its header line and every cell of every
   * data line, whatever the cells contain (quotes, commas, line breaks),
   * provided the header has no line break and no data line is empty.
   */
  lemma DocumentRoundTrip(header: seq<string>, table: seq<seq<string>>)
    requires forall k :: 0 <= k < |header| ==> Absent(header[k], '\n')
    requires forall k :: 0 <= k < |table| ==> table[k] != []
    ensures ReadDocument(Document(header, table)) == Some((JoinWith(',', header), table))
  {
    var h := JoinWith(',', header);
    var parts := [h] + DataLines(table);
    JoinAbsent(',', header, '\n');
    if table == [] {
      assert parts == [h];
      SplitAtFirstLf(h, None);
    } else {
      var body := JoinWith('\n', DataLines(table));
      assert parts[1..] == DataLines(table);
      assert Document(header, table) == h + "\n" + body;
      SplitAtFirstLf(h, Some(body));
      ReadDataLines(table);
    }
  }

  lemma HeadersHaveNoLineBreak(h: seq<string>)
    requires h == Headers
    ensures forall k :: 0 <= k < |h| ==> Absent(h[k], '\n')
  {
    FirstHeadersHaveNoLineBreak(h);
    LastHeadersHaveNoLineBreak(h);
  }

  lemma FirstHeadersHaveNoLineBreak(h: seq<string>)
    requires h == Headers
    ensures forall k :: 0 <= k < 11 ==> Absent(h[k], '\n')
  {
    assert Absent(h[0], '\n');
    assert Absent(h[1], '\n');
    assert Absent(h[2], '\n');
    assert Absent(h[3], '\n');
    assert Absent(h[4], '\n');
    assert Absent(h[5], '\n');
    assert Absent(h[6], '\n');
    assert Absent(h[7], '\n');
    assert Absent(h[8], '\n');
    assert Absent(h[9], '\n');
    assert Absent(h[10], '\n');
  }

  lemma LastHeadersHaveNoLineBreak(h: seq<string>)
    requires h == Headers
    ensures forall k :: 11 <= k < 22 ==> Absent(h[k], '\n')
  {
    assert Absent(h[11], '\n');
    assert Absent(h[12], '\n');
    assert Absent(h[13], '\n');
    assert Absent(h[14], '\n');
    assert Absent(h[15], '\n');
    assert Absent(h[16], '\n');
    assert Absent(h[17], '\n');
    assert Absent(h[18], '\n');
    assert Absent(h[19], '\n');
    assert Absent(h[20], '\n');
    assert Absent(h[21], '\n');
  }

  /**
   * The export reads back as the header line and, for each booking in date
   * order, its 22 cells.
   */
  lemma ExportLinesNonEmpty(rows: seq<DateRecord>)
    ensures forall k :: 0 <= k < |ExportTable(rows)| ==> ExportTable(rows)[k] != []
  {
    var t := ExportTable(rows);
    forall k | 0 <= k < |t| ensures t[k] != [] {
      assert |t[k]| == 22;
    }
  }
}
