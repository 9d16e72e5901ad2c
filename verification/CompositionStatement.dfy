/** The quarterly statement (CMP-08): the documents of a quarter and the tax on them. */
module CompositionStatement {
  import opened Basics

  // ------------------------------------------------------------------ the documents of a quarter

  datatype DocumentKind = BillOfSupply | CreditNote | DebitNote
  datatype Document = Document(id: string, date: Day, kind: DocumentKind, value: int, taxable: bool)

  datatype InvoiceLine = InvoiceLine(taxable: bool, value: int)
  datatype Invoice = Invoice(id: string, date: Day, composition: bool, lines: seq<InvoiceLine>)
  datatype NoteKind = SalesReturn | SalesDebitNote | AnyOtherNote
  datatype Note = Note(id: string, date: Day, kind: NoteKind, original: string, value: int)

  function LineSum(lines: seq<InvoiceLine>, taxableOnly: bool): int {
    if lines == [] then 0
    else
      var last := lines[|lines| - 1];
      LineSum(lines[..|lines| - 1], taxableOnly) + if last.taxable || !taxableOnly then last.value else 0
  }

  /** One invoice's documents: what is taxed, and what is on the form but is not. */
  function DocumentsOfInvoice(invoice: Invoice): seq<Document> {
    if !invoice.composition then []
    else
      var taxable := LineSum(invoice.lines, true);
      var other := LineSum(invoice.lines, false) - taxable;
      (if taxable != 0 || other == 0 then [Document(invoice.id, invoice.date, BillOfSupply, taxable, true)] else []) +
      (if other != 0 then [Document(invoice.id + ":exempt", invoice.date, BillOfSupply, other, false)] else [])
  }

  function DocumentsOfInvoices(invoices: seq<Invoice>): seq<Document> {
    if invoices == [] then []
    else DocumentsOfInvoices(invoices[..|invoices| - 1]) + DocumentsOfInvoice(invoices[|invoices| - 1])
  }

  function CompositionIds(invoices: seq<Invoice>): set<string> {
    set i | 0 <= i < |invoices| && invoices[i].composition :: invoices[i].id
  }

  function DocumentsOfNotes(notes: seq<Note>, ids: set<string>): seq<Document> {
    if notes == [] then []
    else
      var last := notes[|notes| - 1];
      DocumentsOfNotes(notes[..|notes| - 1], ids) +
      if last.kind == AnyOtherNote || last.original !in ids then []
      else [Document(last.id, last.date, if last.kind == SalesReturn then CreditNote else DebitNote, last.value, true)]
  }

  function Signed(doc: Document): int { if doc.kind == CreditNote then -doc.value else doc.value }

  function Outward(docs: seq<Document>, taxableOnly: bool): int {
    if docs == [] then 0
    else
      var last := docs[|docs| - 1];
      Outward(docs[..|docs| - 1], taxableOnly) + if last.taxable || !taxableOnly then Signed(last) else 0
  }

  /** Sales of composition invoices, less returns and plus debit notes against them. */
  function SalesOf(invoices: seq<Invoice>, taxableOnly: bool): int {
    if invoices == [] then 0
    else
      var last := invoices[|invoices| - 1];
      SalesOf(invoices[..|invoices| - 1], taxableOnly) +
        if last.composition then LineSum(last.lines, taxableOnly) else 0
  }

  /** The note is against a bill of the composition scheme. */
  predicate IsAgainstBill(note: Note, invoices: seq<Invoice>) {
    exists bill <- invoices :: bill.composition && bill.id == note.original
  }

  function NotesOf(notes: seq<Note>, invoices: seq<Invoice>): int {
    if notes == [] then 0
    else
      var last := notes[|notes| - 1];
      NotesOf(notes[..|notes| - 1], invoices) +
      if !IsAgainstBill(last, invoices) then 0
      else if last.kind == SalesReturn then -last.value else if last.kind == SalesDebitNote then last.value else 0
  }

  lemma {:induction false} OutwardOfConcat(a: seq<Document>, b: seq<Document>, taxableOnly: bool)
    ensures Outward(a + b, taxableOnly) == Outward(a, taxableOnly) + Outward(b, taxableOnly)
  {
    if b == [] {
      assert a + b == a;
    } else {
      OutwardOfConcat(a, b[..|b| - 1], taxableOnly);
      assert (a + b)[..|a + b| - 1] == a + b[..|b| - 1];
    }
  }

  lemma OneOutward(doc: Document, taxableOnly: bool)
    ensures Outward([doc], taxableOnly) == if doc.taxable || !taxableOnly then Signed(doc) else 0
  {
    assert [doc][..0] == [];
  }

  lemma {:induction false} InvoicesAreSales(invoices: seq<Invoice>, taxableOnly: bool)
    ensures Outward(DocumentsOfInvoices(invoices), taxableOnly) == SalesOf(invoices, taxableOnly)
  {
    if invoices != [] {
      var (front, last) := (invoices[..|invoices| - 1], invoices[|invoices| - 1]);
      InvoicesAreSales(front, taxableOnly);
      OutwardOfConcat(DocumentsOfInvoices(front), DocumentsOfInvoice(last), taxableOnly);
      OneInvoice(last, taxableOnly);
    }
  }

  lemma OneInvoice(invoice: Invoice, taxableOnly: bool)
    ensures Outward(DocumentsOfInvoice(invoice), taxableOnly) ==
      if invoice.composition then LineSum(invoice.lines, taxableOnly) else 0
  {
    if invoice.composition {
      var taxable := LineSum(invoice.lines, true);
      var other := LineSum(invoice.lines, false) - taxable;
      var taxed :=
        if taxable != 0 || other == 0 then [Document(invoice.id, invoice.date, BillOfSupply, taxable, true)] else [];
      var exempt := if other != 0 then [Document(invoice.id + ":exempt", invoice.date, BillOfSupply, other, false)]
        else [];
      OutwardOfConcat(taxed, exempt, taxableOnly);
      if taxed != [] { OneOutward(taxed[0], taxableOnly); }
      if exempt != [] { OneOutward(exempt[0], taxableOnly); }
    }
  }

  lemma AgainstBillIff(note: Note, invoices: seq<Invoice>)
    ensures note.original in CompositionIds(invoices) <==> IsAgainstBill(note, invoices)
  {
    if IsAgainstBill(note, invoices) {
      var bill :| bill in invoices && bill.composition && bill.id == note.original;
      var i :| 0 <= i < |invoices| && invoices[i] == bill;
    }
  }

  lemma {:induction false} NotesAreNotes(notes: seq<Note>, invoices: seq<Invoice>, taxableOnly: bool)
    ensures Outward(DocumentsOfNotes(notes, CompositionIds(invoices)), taxableOnly) == NotesOf(notes, invoices)
  {
    if notes != [] {
      var ids := CompositionIds(invoices);
      var (front, last) := (notes[..|notes| - 1], notes[|notes| - 1]);
      NotesAreNotes(front, invoices, taxableOnly);
      AgainstBillIff(last, invoices);
      if last.kind != AnyOtherNote && last.original in ids {
        var doc := Document(last.id, last.date,
          if last.kind == SalesReturn then CreditNote else DebitNote, last.value, true);
        OutwardOfConcat(DocumentsOfNotes(front, ids), [doc], taxableOnly);
        OneOutward(doc, taxableOnly);
      } else {
        assert DocumentsOfNotes(notes, ids) == DocumentsOfNotes(front, ids);
      }
    }
  }

  function DocumentsOf(invoices: seq<Invoice>, notes: seq<Note>): seq<Document> {
    DocumentsOfInvoices(invoices) + DocumentsOfNotes(notes, CompositionIds(invoices))
  }

  /** No rupee is lost or counted twice on the way from bills and notes to the statement's rows. */
  lemma DocumentsConserveSales(invoices: seq<Invoice>, notes: seq<Note>, taxableOnly: bool)
    ensures Outward(DocumentsOf(invoices, notes), taxableOnly) ==
      SalesOf(invoices, taxableOnly) + NotesOf(notes, invoices)
  {
    OutwardOfConcat(DocumentsOfInvoices(invoices), DocumentsOfNotes(notes, CompositionIds(invoices)), taxableOnly);
    InvoicesAreSales(invoices, taxableOnly);
    NotesAreNotes(notes, invoices, taxableOnly);
  }

  /** `documents`: bills first, then the notes against them. */
  method Documents(invoices: seq<Invoice>, notes: seq<Note>) returns (documents: seq<Document>)
    ensures documents == DocumentsOf(invoices, notes)
  {
    documents := BillDocuments(invoices);
    var ids := CompositionIds(invoices);
    ghost var bills := documents;
    for i := 0 to |notes|
      invariant documents == bills + DocumentsOfNotes(notes[..i], ids)
    {
      assert notes[..i + 1][..i] == notes[..i];
      var note := notes[i];
      if note.kind != AnyOtherNote && note.original in ids {
        documents := documents +
          [Document(note.id, note.date, if note.kind == SalesReturn then CreditNote else DebitNote, note.value, true)];
      }
    }
    assert notes[..|notes|] == notes;
  }

  method BillDocuments(invoices: seq<Invoice>) returns (documents: seq<Document>)
    ensures documents == DocumentsOfInvoices(invoices)
  {
    documents := [];
    for i := 0 to |invoices|
      invariant documents == DocumentsOfInvoices(invoices[..i])
    {
      assert invoices[..i + 1][..i] == invoices[..i];
      ghost var before := documents;
      var invoice := invoices[i];
      if invoice.composition {
        var taxable := LineSum(invoice.lines, true);
        var other := LineSum(invoice.lines, false) - taxable;
        if taxable != 0 || other == 0 {
          documents := documents + [Document(invoice.id, invoice.date, BillOfSupply, taxable, true)];
        }
        if other != 0 {
          documents := documents + [Document(invoice.id + ":exempt", invoice.date, BillOfSupply, other, false)];
        }
      }
      assert documents == before + DocumentsOfInvoice(invoice);
    }
    assert invoices[..|invoices|] == invoices;
  }


  datatype Quarter = Quarter(key: string, from: Day, to: Day)
  datatype Cmp08 = Cmp08(quarter: Quarter, rate: nat, outward: int, payable: nat, documents: seq<string>)

  /** Half of the levy, to the nearest paisa, half up. */
  function HalfLevy(turnover: nat, rate: nat): nat { (turnover * rate + 10_000) / 20_000 }

  lemma HalfLevyIsNearest(turnover: nat, rate: nat)
    ensures -10_000 < turnover * rate - 20_000 * HalfLevy(turnover, rate) + 1 <= 10_000
  {}

  function InQuarter(docs: seq<Document>, quarter: Quarter): seq<Document> {
    if docs == [] then []
    else
      var front := InQuarter(docs[..|docs| - 1], quarter);
      if IsIn(quarter, docs[|docs| - 1].date) then front + [docs[|docs| - 1]] else front
  }

  /** `buildCmp08`: rate 0 means the business was not on the scheme, so nothing is due. */
  function BuildCmp08(docs: seq<Document>, quarter: Quarter, rate: nat): Cmp08 {
    var mine := InQuarter(docs, quarter);
    var taxable := Outward(mine, true);
    var base := if taxable < 0 then 0 else taxable;
    Cmp08(quarter, rate, Outward(mine, false), if rate == 0 then 0 else 2 * HalfLevy(base, rate),
          seq(|mine|, i requires 0 <= i < |mine| => mine[i].id))
  }

  // ------------------------------------------------------------------ sums of lines

  /**
   * A sum of lines is that of its parts, and of one line its value, or nothing when it is not taxed and only taxed
   * count.
   */
  lemma {:induction false} LineSumOfConcat(a: seq<InvoiceLine>, b: seq<InvoiceLine>, taxableOnly: bool)
    ensures LineSum(a + b, taxableOnly) == LineSum(a, taxableOnly) + LineSum(b, taxableOnly)
    ensures forall line: InvoiceLine ::
      LineSum([line], taxableOnly) == if taxableOnly && !line.taxable then 0 else line.value
    ensures LineSum([], taxableOnly) == 0
  {
    forall line: InvoiceLine
      ensures LineSum([line], taxableOnly) == if taxableOnly && !line.taxable then 0 else line.value
    {
      assert [line][..0] == [];
    }
    if b == [] {
      assert a + b == a;
    } else {
      LineSumOfConcat(a, b[..|b| - 1], taxableOnly);
      assert (a + b)[..|a + b| - 1] == a + b[..|b| - 1];
    }
  }

  // ------------------------------------------------------------------ which rows there are

  /** A row of a composition bill: what of it is taxed, even if that is nothing of nothing; or what is not. */
  predicate IsRowOfBill(doc: Document, bill: Invoice) {
    var (taxed, all) := (LineSum(bill.lines, true), LineSum(bill.lines, false));
    && bill.composition && doc.date == bill.date && doc.kind == BillOfSupply
    && (doc.taxable ==> doc.id == bill.id && doc.value == taxed && (taxed != 0 || all == 0))
    && (!doc.taxable ==> doc.id == bill.id + ":exempt" && doc.value == all - taxed != 0)
  }

  predicate IsRowOfNote(doc: Document, note: Note, invoices: seq<Invoice>) {
    && IsAgainstBill(note, invoices) && note.kind != AnyOtherNote
    && doc == Document(note.id, note.date, if note.kind == SalesReturn then CreditNote else DebitNote, note.value, true)
  }

  lemma BillRow(bill: Invoice, doc: Document)
    ensures doc in DocumentsOfInvoice(bill) <==> IsRowOfBill(doc, bill)
  {}

  lemma {:induction false} RowsOfBills(invoices: seq<Invoice>, doc: Document)
    ensures doc in DocumentsOfInvoices(invoices) <==> exists bill <- invoices :: IsRowOfBill(doc, bill)
  {
    if invoices != [] {
      var (front, last) := (invoices[..|invoices| - 1], invoices[|invoices| - 1]);
      RowsOfBills(front, doc);
      BillRow(last, doc);
      assert invoices == front + [last];
    }
  }

  lemma NoteRow(note: Note, invoices: seq<Invoice>, doc: Document)
    ensures doc in DocumentsOfNotes([note], CompositionIds(invoices)) <==> IsRowOfNote(doc, note, invoices)
  {
    AgainstBillIff(note, invoices);
    assert [note][..0] == [];
  }

  lemma {:induction false} RowsOfNotes(notes: seq<Note>, invoices: seq<Invoice>, doc: Document)
    ensures doc in DocumentsOfNotes(notes, CompositionIds(invoices)) <==>
            exists note <- notes :: IsRowOfNote(doc, note, invoices)
  {
    if notes != [] {
      var (front, last) := (notes[..|notes| - 1], notes[|notes| - 1]);
      RowsOfNotes(front, invoices, doc);
      assert notes == front + [last];
      NotesAppended(front, last, CompositionIds(invoices));
      NoteRow(last, invoices, doc);
      assert (exists note <- notes :: IsRowOfNote(doc, note, invoices)) <==>
             (exists note <- front :: IsRowOfNote(doc, note, invoices)) || IsRowOfNote(doc, last, invoices);
    }
  }

  /** The statement's documents are the rows of the composition bills and of the notes against them, and no others. */
  lemma RowsAre(invoices: seq<Invoice>, notes: seq<Note>, doc: Document)
    ensures doc in DocumentsOf(invoices, notes) <==>
            || (exists bill <- invoices :: IsRowOfBill(doc, bill))
            || (exists note <- notes :: IsRowOfNote(doc, note, invoices))
  {
    RowsOfBills(invoices, doc);
    RowsOfNotes(notes, invoices, doc);
  }

  /** And every composition bill has one. */
  lemma EveryBillHasARow(invoices: seq<Invoice>, notes: seq<Note>, i: nat) returns (doc: Document)
    requires i < |invoices| && invoices[i].composition
    ensures doc in DocumentsOf(invoices, notes) && IsRowOfBill(doc, invoices[i])
  {
    var bill := invoices[i];
    var (taxed, all) := (LineSum(bill.lines, true), LineSum(bill.lines, false));
    doc :=
      if taxed != 0 || all == 0 then Document(bill.id, bill.date, BillOfSupply, taxed, true)
      else Document(bill.id + ":exempt", bill.date, BillOfSupply, all - taxed, false);
    assert bill in invoices && IsRowOfBill(doc, bill);
    RowsAre(invoices, notes, doc);
  }

  // ------------------------------------------------------------------ the levy is on the quarter's sales

  predicate IsIn(quarter: Quarter, date: Day) { quarter.from <= date <= quarter.to }

  function InvoicesIn(invoices: seq<Invoice>, quarter: Quarter): seq<Invoice> {
    if invoices == [] then []
    else
      var front := InvoicesIn(invoices[..|invoices| - 1], quarter);
      if IsIn(quarter, invoices[|invoices| - 1].date) then front + [invoices[|invoices| - 1]] else front
  }

  function NotesIn(notes: seq<Note>, quarter: Quarter): seq<Note> {
    if notes == [] then []
    else
      var front := NotesIn(notes[..|notes| - 1], quarter);
      if IsIn(quarter, notes[|notes| - 1].date) then front + [notes[|notes| - 1]] else front
  }

  /** The quarter's sales on composition bills, less returns and plus debit notes dated in it against any such bill. */
  function QuarterSales(invoices: seq<Invoice>, notes: seq<Note>, quarter: Quarter, taxableOnly: bool): int {
    SalesOf(InvoicesIn(invoices, quarter), taxableOnly) + NotesOf(NotesIn(notes, quarter), invoices)
  }

  lemma {:induction false} InQuarterOfConcat(a: seq<Document>, b: seq<Document>, quarter: Quarter)
    ensures InQuarter(a + b, quarter) == InQuarter(a, quarter) + InQuarter(b, quarter)
  {
    if b == [] {
      assert a + b == a;
    } else {
      var (front, last) := (b[..|b| - 1], b[|b| - 1]);
      InQuarterOfConcat(a, front, quarter);
      assert (a + b)[..|a + b| - 1] == a + front && (a + b)[|a + b| - 1] == last;
    }
  }

  /** Documents of one date are all in the quarter or all out of it. */
  lemma {:induction false} OneDateInQuarter(docs: seq<Document>, quarter: Quarter, date: Day)
    requires forall i :: 0 <= i < |docs| ==> docs[i].date == date
    ensures InQuarter(docs, quarter) == if IsIn(quarter, date) then docs else []
  {
    if docs != [] {
      OneDateInQuarter(docs[..|docs| - 1], quarter, date);
      assert docs == docs[..|docs| - 1] + [docs[|docs| - 1]];
    }
  }

  lemma {:induction false} InvoicesInQuarter(invoices: seq<Invoice>, quarter: Quarter)
    ensures InQuarter(DocumentsOfInvoices(invoices), quarter) == DocumentsOfInvoices(InvoicesIn(invoices, quarter))
  {
    if invoices != [] {
      var (front, last) := (invoices[..|invoices| - 1], invoices[|invoices| - 1]);
      InvoicesInQuarter(front, quarter);
      InQuarterOfConcat(DocumentsOfInvoices(front), DocumentsOfInvoice(last), quarter);
      OneDateInQuarter(DocumentsOfInvoice(last), quarter, last.date);
      var kept := InvoicesIn(front, quarter);
      assert (kept + [last])[..|kept|] == kept;
    }
  }

  lemma {:induction false} NotesInQuarter(notes: seq<Note>, quarter: Quarter, ids: set<string>)
    ensures InQuarter(DocumentsOfNotes(notes, ids), quarter) == DocumentsOfNotes(NotesIn(notes, quarter), ids)
  {
    if notes != [] {
      var (front, last) := (notes[..|notes| - 1], notes[|notes| - 1]);
      NotesInQuarter(front, quarter, ids);
      var doc := DocumentsOfNotes([last], ids);
      NotesAppended(front, last, ids);
      InQuarterOfConcat(DocumentsOfNotes(front, ids), doc, quarter);
      NotesAppended([], last, ids);
      OneDateInQuarter(doc, quarter, last.date);
      NotesAppended(NotesIn(front, quarter), last, ids);
    }
  }

  lemma NotesAppended(notes: seq<Note>, note: Note, ids: set<string>)
    ensures DocumentsOfNotes(notes + [note], ids) == DocumentsOfNotes(notes, ids) + DocumentsOfNotes([note], ids)
    ensures forall i :: 0 <= i < |DocumentsOfNotes([note], ids)| ==> DocumentsOfNotes([note], ids)[i].date == note.date
  {
    assert (notes + [note])[..|notes|] == notes && [note][..0] == [];
  }

  /** The statement shows the quarter's sales, and asks for twice half of the levy on those that are taxable. */
  lemma LevyIsOnSales(invoices: seq<Invoice>, notes: seq<Note>, quarter: Quarter, rate: nat)
    ensures var cmp := BuildCmp08(DocumentsOf(invoices, notes), quarter, rate);
      var sales := QuarterSales(invoices, notes, quarter, true);
      && cmp.outward == QuarterSales(invoices, notes, quarter, false)
      && cmp.payable == if rate == 0 then 0 else 2 * HalfLevy(if sales < 0 then 0 else sales, rate)
  {
    var ids := CompositionIds(invoices);
    InQuarterOfConcat(DocumentsOfInvoices(invoices), DocumentsOfNotes(notes, ids), quarter);
    InvoicesInQuarter(invoices, quarter);
    NotesInQuarter(notes, quarter, ids);
    forall taxableOnly: bool
      ensures Outward(InQuarter(DocumentsOf(invoices, notes), quarter), taxableOnly) ==
        QuarterSales(invoices, notes, quarter, taxableOnly)
    {
      OutwardOfConcat(DocumentsOfInvoices(InvoicesIn(invoices, quarter)),
        DocumentsOfNotes(NotesIn(notes, quarter), ids), taxableOnly);
      InvoicesAreSales(InvoicesIn(invoices, quarter), taxableOnly);
      NotesAreNotes(NotesIn(notes, quarter), invoices, taxableOnly);
    }
  }

  /** What `fingerprintOf` digests; document ids are sorted, so only which they are matters. */
  datatype Content = Content(quarterKey: string, rate: nat, payable: nat, outward: int, documents: multiset<string>)

  /** A statement's content tells its quarter, rate, amounts and which documents it counts, and nothing else. */
  lemma ContentTells(a: Cmp08, b: Cmp08)
    ensures ContentOf(a) == ContentOf(b) <==>
      && a.quarter.key == b.quarter.key && a.rate == b.rate && a.payable == b.payable && a.outward == b.outward
      && multiset(a.documents) == multiset(b.documents)
  {}

  function ContentOf(cmp: Cmp08): Content
  {
    Content(cmp.quarter.key, cmp.rate, cmp.payable, cmp.outward, multiset(cmp.documents))
  }
}
