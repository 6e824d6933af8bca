# Ingesting Simple English Wikipedia into SQL Server, modelled in Dafny

The program reads the Simple English Wikipedia corpus one JSON line at a
time. For every article it joins the paragraphs with single spaces and
counts the tokens of that combined text under the cl100k_base vocabulary.
When the count is over 500 it asks Semantic Kernel's text chunker for
token-bounded chunks, with limits of 220 and 500 tokens and no overlap. It
inserts a header row `(WikiId, Title)` into `WikipediaPassages` and then,
inside one transaction, inserts the paragraph rows
`(WikiId, ParagraphId, Paragraph)` into `WikipediaPassagesParagraphs`. It
commits when every paragraph insert reports one affected row. At the first
paragraph insert that does not, it rolls back and rethrows, which ends the
run. The header insert's reply is never looked at. Along the way it keeps
four run-wide counters: `totalTokenLength`, `totalCharactersLength`,
`maxTokensInSingleParagraph` and the `passages` bag.

The model has four modules:

- `Wiki` (`wiki.dfy`): the article record `Document(id, title, paragraphs)`,
  and `Option` for a line that deserialises to `null`.
- `Combine` (`combine.dfy`): `Join`, the single-space join of the paragraphs,
  with lemmas that characterise it completely.
- `SqlStore` (`store.dfy`): a `Store` class holding the committed header
  rows, the committed paragraph rows, the open transaction's pending rows
  and an insert counter. The server's replies are a fixed function
  `affected` from insert number to affected-row count, so any pattern of
  failed writes can be expressed.
- `Ingest` (`ingest.dfy`): the foreign calls, passed in as a datatype of
  plain functions (`Externals`), and the counters as a class,
  `RunCounters`. Per article, it has the specification functions
  `PlannedRows`, `Accepted` and `AttemptedRows`, the method
  `IngestDocument`, and its transaction block `WriteParagraphs` and
  `WriteChunks`. Per run, it has a reference definition: `AfterArticle`
  gives the observable state (`RunState`: tables, counters, inserts
  executed) after one article, and `AfterArticles` applies it to the
  articles in order. `Acked` says that the server acknowledges every
  paragraph insert of a sequence of articles. `RefusedAfter` says that it
  acknowledges them and then refuses one insert of the next article. The
  read loop `IngestRun` is proved against these definitions. The lemmas
  `CompletedRun` and `AbortedRun` turn them into closed forms over the
  run summaries `Headers`, `AllPlanned`, `TokenTotal` and
  `MaxCombinedLength`.

Three behaviours of the code are stated and proved as they are written:

- **An article of exactly 500 tokens gets a header and no paragraph rows.**
  The chunker runs when the count is `> 500` (Program.cs:97). The
  single-row branch runs when it is `< 500` (Program.cs:133). At 500 the
  chunk list stays empty, the loop writes nothing, and the empty
  transaction commits (`PlannedRows`, `IngestDocument`).
- **The header survives a rollback.** The header insert (Program.cs:108-115)
  is executed before the transaction begins (Program.cs:119). A
  rolled-back article therefore keeps its header row and loses all of its
  paragraph rows (`IngestDocument`, `CommittedThenRolledBack`).
- **`maxTokensInSingleParagraph` holds a character count.** It is assigned
  the length of the combined text, not its token count (Program.cs:93). The
  model keeps that (`IngestDocument`, `MaxCombinedLengthIsMaximum`).

## Model

| member | source | states |
|---|---|---|
| `Combine.Join` | Program.cs:90 | The joined text is as long as all paragraphs plus one separator per neighbouring pair. An empty paragraph list joins to "". |
| `Combine.JoinAt` | Program.cs:90 | Paragraph i appears verbatim at its offset. It is followed by exactly one space if another paragraph follows, and by the end of the text if it is the last. Nothing is added before the first paragraph. |
| `Combine.TotalLengthConcat` | Program.cs:135-136 | The total character length of a concatenation of passage lists is the sum of their totals. |
| `SqlStore.Store.constructor` | Program.cs:33-55 | The tables are taken to be empty before the first article, with no open transaction and no inserts executed. The setup script that creates them is not part of this model. |
| `SqlStore.Store.InsertHeader` | Program.cs:108-115 | The header row is appended to the committed header table at once, outside any transaction. The server's reply for that insert number is returned. |
| `SqlStore.Store.BeginTransaction` | Program.cs:119 | Opens a transaction with no pending rows. |
| `SqlStore.Store.InsertParagraph` | Program.cs:137-140 | Appends the row to the transaction's pending rows and returns the server's reply for that insert number. |
| `SqlStore.Store.Commit` | Program.cs:168 | The pending rows are appended, in order, to the committed rows, and the transaction closes. |
| `SqlStore.Store.Rollback` | Program.cs:170-173 | The pending rows are discarded. Committed rows and headers are unchanged. |
| `Ingest.RunCounters.constructor` | Program.cs:76-77 | All counters start at 0 and the passage bag starts empty. |
| `Ingest.Chunks` | Program.cs:96-101 | The chunk list is empty unless the token count is above 500. Otherwise it is whatever the chunker returns for lines of 220 tokens, chunks of 500 tokens and no overlap. |
| `Ingest.Numbered` | Program.cs:149-158 | One row per chunk, same length, row i has paragraph number first + i and the text of chunk i. |
| `Ingest.PlannedRows` | Program.cs:132-166 | Under 500 tokens: exactly one row, numbered 1, with the full combined text. At exactly 500: no rows. Over 500: one row per chunk in the chunker's order, numbered 1..N. Every row carries the article's id. |
| `Ingest.Accepted` | Program.cs:140-164 | The number of leading inserts the server acknowledges with exactly one row. All of them replied 1, and the next one, if any, did not. |
| `Ingest.FirstRefusal` | Program.cs:159-164 | If the first refusal is insert k, then k inserts are acknowledged and k + 1 are executed. |
| `Ingest.AllAcknowledged` | Program.cs:149-168 | If every reply is 1, every insert is acknowledged and executed. |
| `Ingest.Attempted` | Program.cs:135-164 | The inserts executed are at most those planned. Every one but the last was acknowledged. When fewer than planned are executed, the last one was refused, because a refusal throws and ends the loop. |
| `Ingest.AttemptedRows` | Program.cs:135-164 | The rows attempted are a prefix of the planned rows, as long as the number of executed inserts: up to and including the refused one. |
| `Ingest.AttemptedRowsPrefix` | Program.cs:137-166 | The attempted rows are all the planned rows when every insert is acknowledged, and at least one row when an insert is refused. |
| `Ingest.IngestDocument` | Program.cs:87-179 | The header is always appended. The outcome is Committed exactly when every planned paragraph insert is acknowledged. On commit the committed rows grow by exactly the planned rows. On rollback they are unchanged and the outcome names the article. At exactly 500 tokens the outcome is Committed and no row is added. `totalTokenLength` grows by the token count, and `maxTokensInSingleParagraph` becomes the maximum with the text's character length. The passages and `totalCharactersLength` grow by the texts of the attempted rows, up to and including the refused one. One insert is counted for the header and one per attempted row. |
| `Ingest.WriteParagraphs` | Program.cs:119-176 | The transaction block: the planned rows are committed when every insert is acknowledged, and nothing is committed otherwise. The transaction is closed in both cases, and every attempted passage is counted. |
| `Ingest.WriteChunks` | Program.cs:147-166 | The chunk loop inside the open transaction. `refused` holds exactly when one of the chunk inserts is not acknowledged. With n the number of attempted inserts (up to and including the first refused one, or all of them), the pending rows become the first n chunks numbered 1..n with the article's id. The insert count grows by n, and the passages and `totalCharactersLength` grow by exactly those n chunks. Commit and rollback are left to `WriteParagraphs`. |
| `Ingest.PrefixStep` | Program.cs:149-158 | Writing chunk k+1 extends the numbered rows by the row (id, k+1, chunk) and the character total by that chunk's length. |
| `Ingest.NumberedPrefix` | Program.cs:153-154 | Numbering the first n chunks gives the first n numbered rows, and the passages counted for those rows are exactly the first n chunks. |
| `Ingest.Present` | Program.cs:83-87 | The articles read are the non-null deserialised lines: an article is among them exactly when a line deserialised to it, and there are no more of them than lines. |
| `Ingest.PresentStep` | Program.cs:85-87 | Reading one more line adds its article, or nothing when the line deserialises to null. |
| `Ingest.MaxCombinedLengthIsMaximum` | Program.cs:93 | The running maximum is at least every article's combined character length. It is reached by some article, and it is 0 when there are none. |
| `Ingest.AllPlannedKeys` | Program.cs:137-138 | Every paragraph row a run writes carries the id of one of the articles read, and a paragraph number of at least 1. |
| `Ingest.SummariesStep` | Program.cs:83-93 | One more article extends the header list, the planned rows, the token total and the maximum length by that article. |
| `Ingest.AfterArticlesStep` | Program.cs:83-179 | Ingesting one more article moves the run state on by exactly that article. The articles so far and that one are all acknowledged exactly when the earlier ones are and the new one's inserts are too. |
| `Ingest.CompletedRun` | Program.cs:83-179 | When every paragraph insert of the articles is acknowledged, ingesting them adds exactly their headers, their planned rows, their token total and their planned passages with those passages' total length. The maximum becomes the maximum with their combined lengths, and one insert is executed per header and per row. |
| `Ingest.CommittedStep` | Program.cs:87-168 | After committed articles, one more acknowledged article extends every table and counter by exactly that article. |
| `Ingest.AbortedRun` | Program.cs:83-174 | When the earlier articles are acknowledged and one insert of the next is refused, the earlier articles are committed in full. The refused article keeps its header and its token and length counts but adds no paragraph row. Its passages and character total grow by a non-empty prefix of its planned rows, up to and including the refused one. |
| `Ingest.RolledBackStep` | Program.cs:108-174 | From the state after committed articles, a refused article gives the rolled-back closed form. |
| `Ingest.RolledBackTablesStep` | Program.cs:87-173 | A refused article adds its header, its token count and its length to the maximum, and no paragraph row. |
| `Ingest.RolledBackPassagesStep` | Program.cs:133-173 | A refused article adds to the passages and to `totalCharactersLength` exactly the texts and lengths of its attempted rows: a non-empty prefix of its planned rows, up to and including the refused row. When the last planned insert is the refused one, that prefix is all of the planned rows. |
| `Ingest.AckedByFaultlessServer` | Program.cs:140-168 | A server that replies 1 to every insert acknowledges every paragraph insert of any sequence of articles. |
| `Ingest.FaultlessServerNeverRefuses` | Program.cs:140-173 | Against a server that replies 1 to every insert, no article is refused, so the run cannot abort. |
| `Ingest.LoopStep` | Program.cs:83-179 | One pass of the read loop moves the run state on by the line's article, or leaves it when the line is null. It keeps "all acknowledged so far" unless the article rolls back, and in that case the earlier articles are acknowledged and this one is refused. |
| `Ingest.IngestArticle` | Program.cs:85-180 | A null line changes nothing. An article's outcome is Committed exactly when all its paragraph inserts are acknowledged, and the run state moves on by exactly that article. |
| `Ingest.IngestLine` | Program.cs:83-181 | Line i moves the run state from that of the lines before it to that of the lines up to it. Its pass ends without an exception exactly when the articles up to it are all acknowledged. A rollback names the article and shows it refused after acknowledged predecessors. |
| `Ingest.RunSummary` | Program.cs:76-182 | A run that read every line, all acknowledged, is in the all-committed closed form. A run that stopped at a refused article is in the committed-then-rolled-back closed form. |
| `Ingest.IngestRun` | Program.cs:76-182 | Lines are read in order and null ones are skipped. The final state is that of ingesting every article read, one after another. A completed run has read every line, and the server acknowledged every paragraph insert of every article. An aborted run stops at the article with the refused insert and reports its id. The server acknowledged every insert of the earlier articles and refused one of that article's. On completion the tables and counters are exactly the summaries of all articles. After an abort, every earlier article is committed in full, and the failing article has its header, its counts and its attempted passages but no paragraph rows. |

## Left out

- Reading the connection string from user secrets, running the SQL setup
  script split on "GO", downloading the corpus over HTTP, GZip
  decompression, the line reader and JSON deserialisation are I/O. The
  input is a sequence of already deserialised lines (`Option<Document>`).
- The cl100k_base tokenizer and Semantic Kernel's `SplitPlainTextLines` and
  `SplitPlainTextParagraphs` are library code that is not part of this
  model. They are uninterpreted function parameters, and nothing is assumed
  about them, not even that the chunker returns a chunk.
- The model does not capture any behaviour of the SQL client beyond the
  affected-row count and commit or rollback. It leaves out exceptions thrown
  by an insert itself (timeouts, key violations), and what `VarChar(3000)`
  does to a longer paragraph.
- The paragraph insert declares `@wikiId` as `SqlDbType.Int`
  (Program.cs:126) and assigns it the string `id` (Program.cs:137 and 156).
  The paragraph table therefore stores the id converted to an integer, and
  a non-numeric id makes the insert throw. `ParagraphRow.wikiId` keeps the
  string, and that conversion and its exception are not modelled.
- SqlStore.Store.InsertHeader: the header row is recorded whatever the
  server replies, because the code never looks at that reply.
- SqlStore.Store.InsertParagraph: a refused row is still kept in the
  pending rows, because the rollback that always follows discards it.
- The console report and the cost estimate `totalTokenLength * 0.0001/1000`
  are output and floating point.
- async/await, connection opening and closing per article, and the
  thread safety of `ConcurrentBag` are left out. `passages` is a growing
  sequence, and only its length is ever read by the code.
- Ingest.RunCounters: the counters are unbounded integers, so 32-bit
  overflow of the C# `int` counters is not modelled.
- String lengths are counts of Dafny characters. UTF-16 code units, which
  C#'s `Length` counts, are not modelled.
- A `null` paragraph list, and `null` entries within it, are not modelled.
  Every deserialised article here has a list of strings.
- An explicit JSON `null` for `id` or `title` is not modelled. Such a line
  would give a null property rather than the empty default, and `Document`
  has no null strings.
- The rethrown exception leaves the program at its first rolled-back
  article. `IngestRun` models this as the read loop stopping with
  `Aborted(id)`. What the unhandled exception does after that is output and
  is not modelled.
