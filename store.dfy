/** The SQL Server database the articles are written to: the header table
    `WikipediaPassages(WikiId, Title)`, the paragraph table
    `WikipediaPassagesParagraphs(WikiId, ParagraphId, Paragraph)`, and one
    transaction at a time on the paragraph table. */
module SqlStore {

  /** A row of `WikipediaPassages`. */
  datatype Header = Header(wikiId: string, title: string)

  /** A row of `WikipediaPassagesParagraphs`. */
  datatype ParagraphRow = ParagraphRow(wikiId: string, paragraphId: int, paragraph: string)

  /** The database as the ingestion sees it. Each `INSERT` is numbered by
      `writes`, and the server's reply to insert number `n` (its affected-row
      count) is `affected(n)`: which replies the server gives is not known to
      the program, so it is a parameter of the store. An insert is recorded
      whatever the reply; the program itself decides what a reply other
      than 1 means. */
  class Store {
    /** Committed header rows, in insertion order. */
    var headers: seq<Header>
    /** Committed paragraph rows, in insertion order. */
    var rows: seq<ParagraphRow>
    /** Paragraph rows written inside the open transaction, not yet committed. */
    var pending: seq<ParagraphRow>
    var inTransaction: bool
    /** How many inserts have been executed so far. */
    var writes: nat
    /** The affected-row count the server reports for each insert. */
    const affected: nat -> int

    /** The tables before the first article: taken to be empty. The setup
        script that creates them is not part of this model. */
    constructor (affected: nat -> int)
      ensures headers == [] && rows == [] && pending == []
      ensures !inTransaction && writes == 0 && this.affected == affected
    {
      headers, rows, pending := [], [], [];
      inTransaction := false;
      writes := 0;
      this.affected := affected;
    }

    /** An insert into the header table outside any transaction: it is
        committed at once. Returns the server's affected-row count. */
    method InsertHeader(h: Header) returns (count: int)
      requires !inTransaction
      modifies this`headers, this`writes
      ensures headers == old(headers) + [h]
      ensures count == affected(old(writes)) && writes == old(writes) + 1
    {
      headers := headers + [h];
      count := affected(writes);
      writes := writes + 1;
    }

    /** `BeginTransaction`: opens an empty transaction. */
    method BeginTransaction()
      requires !inTransaction
      modifies this`inTransaction, this`pending
      ensures inTransaction && pending == []
    {
      inTransaction := true;
      pending := [];
    }

    /** An insert into the paragraph table inside the open transaction.
        Returns the server's affected-row count. */
    method InsertParagraph(r: ParagraphRow) returns (count: int)
      requires inTransaction
      modifies this`pending, this`writes
      ensures pending == old(pending) + [r]
      ensures count == affected(old(writes)) && writes == old(writes) + 1
    {
      pending := pending + [r];
      count := affected(writes);
      writes := writes + 1;
    }

    /** `Commit`: the transaction's rows become committed, in order. */
    method Commit()
      requires inTransaction
      modifies this`rows, this`pending, this`inTransaction
      ensures rows == old(rows) + old(pending)
      ensures pending == [] && !inTransaction
    {
      rows := rows + pending;
      pending := [];
      inTransaction := false;
    }

    /** `Rollback`: the transaction's rows are discarded; committed rows,
        headers included, stay as they are. */
    method Rollback()
      requires inTransaction
      modifies this`pending, this`inTransaction
      ensures pending == [] && !inTransaction
    {
      pending := [];
      inTransaction := false;
    }
  }
}
