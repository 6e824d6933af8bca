/** The per-article ingestion loop: combine, measure, chunk, write inside a
    transaction, and keep the run's counters. */
module Ingest {
  import opened Wiki
  import opened Combine
  import opened SqlStore

  /** Token budget per line handed to the line splitter. */
  const MaxTokensPerLine: int := 220
  /** Token budget per paragraph record. */
  const MaxTokensPerParagraph: int := 500

  /** The libraries whose code is not part of this model, as plain functions:
      the cl100k_base token count, and the text chunker's
      `SplitPlainTextLines(text, maxTokensPerLine)` and
      `SplitPlainTextParagraphs(lines, maxTokensPerParagraph, overlapTokens)`.
      Nothing is assumed about what they return. */
  datatype Externals = Externals(
    tokenCount: string -> nat,
    splitPlainTextLines: (string, int) -> seq<string>,
    splitPlainTextParagraphs: (seq<string>, int, int) -> seq<string>)

  /** How one article's paragraph transaction ended. `RolledBack` stands for
      the exception thrown after the rollback. */
  datatype DocumentOutcome = Committed | RolledBack(wikiId: string)

  /** How the run ended: every line read, or stopped by the exception
      rethrown for the named article. */
  datatype RunOutcome = Completed | Aborted(wikiId: string)

  /** The run-wide counters and the bag of passages. */
  class RunCounters {
    var totalTokenLength: int
    var totalCharactersLength: int
    /** Despite its name, the largest combined text length in characters. */
    var maxTokensInSingleParagraph: int
    /** Every passage handed to an insert; only its count is ever read. */
    var passages: seq<string>

    constructor ()
      ensures totalTokenLength == 0 && totalCharactersLength == 0
      ensures maxTokensInSingleParagraph == 0 && passages == []
    {
      totalTokenLength, totalCharactersLength, maxTokensInSingleParagraph := 0, 0, 0;
      passages := [];
    }
  }

  function Max(a: int, b: int): int
  {
    if b > a then b else a
  }

  /** The article's combined text. */
  function Combined(d: Document): string
  {
    Join(d.paragraphs)
  }

  /** The token count of the article's combined text. */
  function Tokens(ext: Externals, d: Document): nat
  {
    ext.tokenCount(Combined(d))
  }

  /** The chunks of a combined text: the chunker runs only when the text is
      over the paragraph budget, with no overlap; otherwise the list stays
      empty. */
  function Chunks(ext: Externals, text: string): (cs: seq<string>)
    ensures ext.tokenCount(text) <= MaxTokensPerParagraph ==> cs == []
  {
    if ext.tokenCount(text) > MaxTokensPerParagraph then
      ext.splitPlainTextParagraphs(ext.splitPlainTextLines(text, MaxTokensPerLine), MaxTokensPerParagraph, 0)
    else []
  }

  /** Paragraph rows for `chunks`, in order, numbered from `first` on. */
  function Numbered(wikiId: string, chunks: seq<string>, first: int): (rs: seq<ParagraphRow>)
    ensures |rs| == |chunks|
    ensures forall i :: 0 <= i < |rs| ==> rs[i] == ParagraphRow(wikiId, first + i, chunks[i])
  {
    if chunks == [] then []
    else [ParagraphRow(wikiId, first, chunks[0])] + Numbered(wikiId, chunks[1..], first + 1)
  }

  /** The paragraph rows an article's transaction writes when every insert
      succeeds. Under the budget: one row numbered 1 holding the whole
      combined text. Over it: one row per chunk, in the chunker's order,
      numbered 1..N. At exactly the budget: none, because the chunker was
      skipped and the single-row branch was not taken. */
  function PlannedRows(ext: Externals, d: Document): (rs: seq<ParagraphRow>)
    ensures Tokens(ext, d) < MaxTokensPerParagraph ==> rs == [ParagraphRow(d.id, 1, Combined(d))]
    ensures Tokens(ext, d) == MaxTokensPerParagraph ==> rs == []
    ensures Tokens(ext, d) > MaxTokensPerParagraph ==>
      var cs := Chunks(ext, Combined(d));
      |rs| == |cs| && forall i :: 0 <= i < |rs| ==> rs[i] == ParagraphRow(d.id, i + 1, cs[i])
    ensures forall r :: r in rs ==> r.wikiId == d.id && r.paragraphId >= 1
  {
    if Tokens(ext, d) < MaxTokensPerParagraph then [ParagraphRow(d.id, 1, Combined(d))]
    else Numbered(d.id, Chunks(ext, Combined(d)), 1)
  }

  /** The passage texts of some rows. */
  function Texts(rows: seq<ParagraphRow>): seq<string>
  {
    seq(|rows|, i requires 0 <= i < |rows| => rows[i].paragraph)
  }

  /** How many of `n` consecutive inserts, the first numbered `start`, the
      server acknowledges with exactly one affected row before the first
      that it does not. */
  function Accepted(affected: nat -> int, start: nat, n: nat): (k: nat)
    ensures k <= n
    ensures forall j :: start <= j < start + k ==> affected(j) == 1
    ensures k < n ==> affected(start + k) != 1
    decreases n
  {
    if n == 0 || affected(start) != 1 then 0
    else 1 + Accepted(affected, start + 1, n - 1)
  }

  /** When the first `k` replies are 1 and reply `k` is not, exactly `k`
      inserts are acknowledged and `k + 1` are executed. */
  lemma FirstRefusal(affected: nat -> int, start: nat, n: nat, k: nat)
    requires k < n
    requires forall j :: start <= j < start + k ==> affected(j) == 1
    requires affected(start + k) != 1
    ensures Accepted(affected, start, n) == k && Attempted(affected, start, n) == k + 1
  {
  }

  /** When all `n` replies are 1, all `n` inserts are acknowledged and executed. */
  lemma AllAcknowledged(affected: nat -> int, start: nat, n: nat)
    requires forall j :: start <= j < start + n ==> affected(j) == 1
    ensures Accepted(affected, start, n) == n && Attempted(affected, start, n) == n
  {
  }

  /** How many of the `n` inserts are executed: up to and including the
      first one that is not acknowledged, or all of them. */
  function Attempted(affected: nat -> int, start: nat, n: nat): (t: nat)
    ensures t <= n
    ensures forall j :: start <= j < start + t - 1 ==> affected(j) == 1
    ensures t < n ==> 0 < t && affected(start + t - 1) != 1
  {
    var k := Accepted(affected, start, n);
    if k < n then k + 1 else n
  }

  /** The rows an article's transaction actually attempts, given that its
      first paragraph insert has number `start`. */
  function AttemptedRows(ext: Externals, d: Document, affected: nat -> int, start: nat): (tried: seq<ParagraphRow>)
    ensures tried <= PlannedRows(ext, d)
    ensures |tried| == Attempted(affected, start, |PlannedRows(ext, d)|)
  {
    var planned := PlannedRows(ext, d);
    planned[..Attempted(affected, start, |planned|)]
  }

  /** The attempted rows are a prefix of the planned ones: all of them when
      every insert is acknowledged, and at least one otherwise. */
  lemma AttemptedRowsPrefix(ext: Externals, d: Document, affected: nat -> int, start: nat)
    ensures var planned := PlannedRows(ext, d);
      var tried := AttemptedRows(ext, d, affected, start);
      && tried <= planned
      && (Accepted(affected, start, |planned|) == |planned| ==> tried == planned)
      && (Accepted(affected, start, |planned|) < |planned| ==> tried != [])
  {
  }

  /** One article: combine and measure it, update the token and length
      counters, chunk it if it is over budget, insert its header outside any
      transaction, then write its paragraph rows in one transaction. The
      header stays whatever happens to the transaction. */
  method IngestDocument(doc: Document, ext: Externals, store: Store, counters: RunCounters)
    returns (outcome: DocumentOutcome)
    requires !store.inTransaction
    modifies store, counters
    ensures store.headers == old(store.headers) + [Header(doc.id, doc.title)]
    ensures outcome == if ArticleAcked(ext, store.affected, old(store.writes) + 1, doc) then Committed else RolledBack(doc.id)
    ensures outcome.Committed? ==> store.rows == old(store.rows) + PlannedRows(ext, doc)
    ensures outcome.RolledBack? ==> store.rows == old(store.rows)
    ensures Tokens(ext, doc) == MaxTokensPerParagraph ==> outcome == Committed && store.rows == old(store.rows)
    ensures !store.inTransaction && store.pending == []
    ensures store.writes == old(store.writes) + 1 + |AttemptedRows(ext, doc, store.affected, old(store.writes) + 1)|
    ensures counters.totalTokenLength == old(counters.totalTokenLength) + Tokens(ext, doc)
    ensures counters.maxTokensInSingleParagraph == Max(old(counters.maxTokensInSingleParagraph), |Combined(doc)|)
    ensures counters.passages == old(counters.passages) + Texts(AttemptedRows(ext, doc, store.affected, old(store.writes) + 1))
    ensures counters.totalCharactersLength == old(counters.totalCharactersLength)
      + TotalLength(Texts(AttemptedRows(ext, doc, store.affected, old(store.writes) + 1)))
  {
    var text := Join(doc.paragraphs);
    var tokens := ext.tokenCount(text);
    counters.totalTokenLength := counters.totalTokenLength + tokens;
    counters.maxTokensInSingleParagraph :=
      if |text| > counters.maxTokensInSingleParagraph then |text| else counters.maxTokensInSingleParagraph;
    assert counters.maxTokensInSingleParagraph == Max(old(counters.maxTokensInSingleParagraph), |Combined(doc)|);

    var chunks: seq<string> := [];
    if tokens > MaxTokensPerParagraph {
      var lines := ext.splitPlainTextLines(text, MaxTokensPerLine);
      chunks := ext.splitPlainTextParagraphs(lines, MaxTokensPerParagraph, 0);
    }

    // The header's affected-row count is not looked at.
    var _ := store.InsertHeader(Header(doc.id, doc.title));
    store.BeginTransaction();
    assert store.writes == old(store.writes) + 1;
    outcome := WriteParagraphs(doc, ext, text, tokens, chunks, store, counters);
  }

  /** The paragraph transaction of one article, already begun: one row with
      the whole combined text when it is under budget, otherwise one row per
      chunk numbered 1..N. Each passage is counted before its insert. The
      first insert that does not report one affected row stops the writes
      and the transaction is rolled back; otherwise it is committed. */
  method WriteParagraphs(doc: Document, ext: Externals, text: string, tokens: nat, chunks: seq<string>,
                         store: Store, counters: RunCounters)
    returns (outcome: DocumentOutcome)
    requires text == Combined(doc) && tokens == Tokens(ext, doc) && chunks == Chunks(ext, text)
    requires store.inTransaction && store.pending == []
    modifies store`rows, store`pending, store`inTransaction, store`writes
    modifies counters`passages, counters`totalCharactersLength
    ensures var n := |PlannedRows(ext, doc)|;
      outcome == if Accepted(store.affected, old(store.writes), n) == n then Committed else RolledBack(doc.id)
    ensures outcome.Committed? ==> store.rows == old(store.rows) + PlannedRows(ext, doc)
    ensures outcome.RolledBack? ==> store.rows == old(store.rows)
    ensures !store.inTransaction && store.pending == []
    ensures store.writes == old(store.writes) + |AttemptedRows(ext, doc, store.affected, old(store.writes))|
    ensures counters.passages == old(counters.passages) + Texts(AttemptedRows(ext, doc, store.affected, old(store.writes)))
    ensures counters.totalCharactersLength == old(counters.totalCharactersLength)
      + TotalLength(Texts(AttemptedRows(ext, doc, store.affected, old(store.writes))))
  {
    ghost var start := store.writes;
    ghost var planned := PlannedRows(ext, doc);
    var refused: bool;
    if tokens < MaxTokensPerParagraph {
      counters.totalCharactersLength := counters.totalCharactersLength + |text|;
      counters.passages := counters.passages + [text];
      var count := store.InsertParagraph(ParagraphRow(doc.id, 1, text));
      refused := count != 1;
      assert planned[..1] == planned;
      assert Texts(planned) == [text];
      assert TotalLength([text]) == |text| by { assert [text][1..] == []; }
    } else {
      refused := WriteChunks(doc.id, chunks, store, counters);
      NumberedPrefix(doc.id, chunks, 1, Attempted(store.affected, start, |chunks|));
    }
    // What the catch block does: roll back, and let the exception propagate.
    if refused {
      store.Rollback();
      outcome := RolledBack(doc.id);
    } else {
      store.Commit();
      outcome := Committed;
    }
  }

  /** The over-budget branch: one insert per chunk, in order, numbered
      1..N, each passage counted before its insert. The first insert that
      does not report one affected row stops the loop (the exception thrown
      there); `refused` says whether that happened. */
  method WriteChunks(wikiId: string, chunks: seq<string>, store: Store, counters: RunCounters)
    returns (refused: bool)
    requires store.inTransaction && store.pending == []
    modifies store`pending, store`writes
    modifies counters`passages, counters`totalCharactersLength
    ensures refused == (Accepted(store.affected, old(store.writes), |chunks|) < |chunks|)
    ensures var n := Attempted(store.affected, old(store.writes), |chunks|);
      && store.pending == Numbered(wikiId, chunks[..n], 1)
      && store.writes == old(store.writes) + n
      && counters.passages == old(counters.passages) + chunks[..n]
      && counters.totalCharactersLength == old(counters.totalCharactersLength) + TotalLength(chunks[..n])
  {
    ghost var start := store.writes;
    var paragraphCount := 0;
    while paragraphCount < |chunks|
      invariant 0 <= paragraphCount <= |chunks|
      invariant store.pending == Numbered(wikiId, chunks[..paragraphCount], 1)
      invariant store.writes == start + paragraphCount
      invariant forall j :: start <= j < start + paragraphCount ==> store.affected(j) == 1
      invariant counters.passages == old(counters.passages) + chunks[..paragraphCount]
      invariant counters.totalCharactersLength ==
        old(counters.totalCharactersLength) + TotalLength(chunks[..paragraphCount])
    {
      var paragraph := chunks[paragraphCount];
      PrefixStep(wikiId, chunks, paragraphCount);
      paragraphCount := paragraphCount + 1;
      counters.totalCharactersLength := counters.totalCharactersLength + |paragraph|;
      counters.passages := counters.passages + [paragraph];
      var count := store.InsertParagraph(ParagraphRow(wikiId, paragraphCount, paragraph));
      if count != 1 {
        FirstRefusal(store.affected, start, |chunks|, paragraphCount - 1);
        return true;
      }
    }
    AllAcknowledged(store.affected, start, |chunks|);
    refused := false;
  }

  /** One more chunk extends the numbered rows, the chunk texts and their total length. */
  lemma PrefixStep(wikiId: string, chunks: seq<string>, k: nat)
    requires k < |chunks|
    ensures chunks[..k + 1] == chunks[..k] + [chunks[k]]
    ensures Numbered(wikiId, chunks[..k + 1], 1) == Numbered(wikiId, chunks[..k], 1) + [ParagraphRow(wikiId, k + 1, chunks[k])]
    ensures TotalLength(chunks[..k + 1]) == TotalLength(chunks[..k]) + |chunks[k]|
  {
    assert chunks[..k + 1] == chunks[..k] + [chunks[k]];
    TotalLengthConcat(chunks[..k], [chunks[k]]);
    assert [chunks[k]][1..] == [];
  }

  /** Numbering a prefix of the chunks gives the same prefix of the numbered
      rows, and the texts of those rows are that prefix of the chunks. */
  lemma NumberedPrefix(wikiId: string, chunks: seq<string>, first: int, n: nat)
    requires n <= |chunks|
    ensures Numbered(wikiId, chunks[..n], first) == Numbered(wikiId, chunks, first)[..n]
    ensures Texts(Numbered(wikiId, chunks, first)[..n]) == chunks[..n]
  {
  }

  /** The articles among the deserialised lines, in order; `null` lines are skipped. */
  function Present(lines: seq<Option<Document>>): (ds: seq<Document>)
    ensures |ds| <= |lines|
    ensures forall d :: d in ds <==> Some(d) in lines
  {
    if lines == [] then []
    else
      var last := lines[|lines| - 1];
      Present(lines[..|lines| - 1]) + (if last.Some? then [last.value] else [])
  }

  /** The header rows of some articles, in order. */
  function Headers(ds: seq<Document>): seq<Header>
  {
    if ds == [] then [] else Headers(ds[..|ds| - 1]) + [Header(ds[|ds| - 1].id, ds[|ds| - 1].title)]
  }

  /** The paragraph rows of some articles when all their transactions commit. */
  function AllPlanned(ext: Externals, ds: seq<Document>): seq<ParagraphRow>
  {
    if ds == [] then [] else AllPlanned(ext, ds[..|ds| - 1]) + PlannedRows(ext, ds[|ds| - 1])
  }

  /** The sum of the articles' token counts. */
  function TokenTotal(ext: Externals, ds: seq<Document>): int
  {
    if ds == [] then 0 else TokenTotal(ext, ds[..|ds| - 1]) + Tokens(ext, ds[|ds| - 1])
  }

  /** The largest combined text length among the articles, 0 for none. */
  function MaxCombinedLength(ds: seq<Document>): int
  {
    if ds == [] then 0 else Max(MaxCombinedLength(ds[..|ds| - 1]), |Combined(ds[|ds| - 1])|)
  }

  /** `MaxCombinedLength` is the maximum: no article is longer, and some
      article reaches it when there is one. */
  lemma {:induction false} MaxCombinedLengthIsMaximum(ds: seq<Document>)
    ensures forall d :: d in ds ==> |Combined(d)| <= MaxCombinedLength(ds)
    ensures ds != [] ==> exists d :: d in ds && |Combined(d)| == MaxCombinedLength(ds)
    ensures ds == [] ==> MaxCombinedLength(ds) == 0
  {
    if ds != [] {
      var init := ds[..|ds| - 1];
      MaxCombinedLengthIsMaximum(init);
      assert ds == init + [ds[|ds| - 1]];
    }
  }

  /** Every row the articles' transactions write belongs to one of those
      articles and has a paragraph number of at least 1. */
  lemma {:induction false} AllPlannedKeys(ext: Externals, ds: seq<Document>)
    ensures forall r :: r in AllPlanned(ext, ds) ==>
      r.paragraphId >= 1 && exists d :: d in ds && d.id == r.wikiId
  {
    if ds != [] {
      var init := ds[..|ds| - 1];
      var last := ds[|ds| - 1];
      AllPlannedKeys(ext, init);
      forall r | r in AllPlanned(ext, ds)
        ensures r.paragraphId >= 1 && exists d :: d in ds && d.id == r.wikiId
      {
        if r in AllPlanned(ext, init) {
          var d :| d in init && d.id == r.wikiId;
          assert d in ds;
        } else {
          assert r in PlannedRows(ext, last);
          assert last in ds;
        }
      }
    }
  }

  /** Texts distribute over concatenation. */
  lemma TextsConcat(a: seq<ParagraphRow>, b: seq<ParagraphRow>)
    ensures Texts(a + b) == Texts(a) + Texts(b)
  {
  }

  /** Reading one more line adds that line's article, if any. */
  lemma PresentStep(lines: seq<Option<Document>>, i: nat)
    requires i < |lines|
    ensures lines[i].None? ==> Present(lines[..i + 1]) == Present(lines[..i])
    ensures lines[i].Some? ==> Present(lines[..i + 1]) == Present(lines[..i]) + [lines[i].value]
  {
    assert lines[..i + 1][..i] == lines[..i];
    assert Present(lines[..i]) + [] == Present(lines[..i]);
  }

  /** One more article extends the header list, the planned rows, the
      token total and the maximum length by that article. */
  lemma SummariesStep(ext: Externals, ds: seq<Document>, d: Document)
    ensures Headers(ds + [d]) == Headers(ds) + [Header(d.id, d.title)]
    ensures AllPlanned(ext, ds + [d]) == AllPlanned(ext, ds) + PlannedRows(ext, d)
    ensures TokenTotal(ext, ds + [d]) == TokenTotal(ext, ds) + Tokens(ext, d)
    ensures MaxCombinedLength(ds + [d]) == Max(MaxCombinedLength(ds), |Combined(d)|)
  {
    assert (ds + [d])[..|ds|] == ds;
  }

  /** The inserts the articles `ds` execute when all their transactions
      commit: per article, the header insert and one insert per planned row. */
  function Writes(ext: Externals, ds: seq<Document>): nat
  {
    if ds == [] then 0 else Writes(ext, ds[..|ds| - 1]) + 1 + |PlannedRows(ext, ds[|ds| - 1])|
  }

  /** What a run can observe: the committed tables, the counters, and the
      number of inserts executed. */
  datatype RunState = RunState(
    headers: seq<Header>, rows: seq<ParagraphRow>,
    totalTokenLength: int, totalCharactersLength: int, maxTokensInSingleParagraph: int,
    passages: seq<string>, writes: nat)

  function StateOf(store: Store, counters: RunCounters): RunState
    reads store, counters
  {
    RunState(store.headers, store.rows, counters.totalTokenLength, counters.totalCharactersLength,
             counters.maxTokensInSingleParagraph, counters.passages, store.writes)
  }

  /** The server acknowledges every paragraph insert of `d`, the first of
      them numbered `first`. */
  predicate ArticleAcked(ext: Externals, affected: nat -> int, first: nat, d: Document)
  {
    var n := |PlannedRows(ext, d)|;
    Accepted(affected, first, n) == n
  }

  /** The state after ingesting `d` from `s`: its header is added, its
      rows are added when every paragraph insert is acknowledged, its token
      count and length go into the counters, and its attempted rows are
      counted as passages and as inserts. */
  function AfterArticle(ext: Externals, affected: nat -> int, s: RunState, d: Document): RunState
  {
    var tried := AttemptedRows(ext, d, affected, s.writes + 1);
    RunState(
      s.headers + [Header(d.id, d.title)],
      s.rows + (if ArticleAcked(ext, affected, s.writes + 1, d) then PlannedRows(ext, d) else []),
      s.totalTokenLength + Tokens(ext, d),
      s.totalCharactersLength + TotalLength(Texts(tried)),
      Max(s.maxTokensInSingleParagraph, |Combined(d)|),
      s.passages + Texts(tried),
      s.writes + 1 + |tried|)
  }

  /** The state after ingesting the articles `ds` from `s`, one after another. */
  function AfterArticles(ext: Externals, affected: nat -> int, s: RunState, ds: seq<Document>): RunState
  {
    if ds == [] then s
    else AfterArticle(ext, affected, AfterArticles(ext, affected, s, ds[..|ds| - 1]), ds[|ds| - 1])
  }

  /** Starting from `s`, the server acknowledges every paragraph insert of
      the articles `ds`, ingested one after another. */
  predicate Acked(ext: Externals, affected: nat -> int, s: RunState, ds: seq<Document>)
  {
    ds != [] ==>
      var init := ds[..|ds| - 1];
      Acked(ext, affected, s, init)
      && ArticleAcked(ext, affected, AfterArticles(ext, affected, s, init).writes + 1, ds[|ds| - 1])
  }

  /** Starting from `s`, the articles `ds` are all acknowledged and the
      server then refuses one of the paragraph inserts of `d`. */
  predicate RefusedAfter(ext: Externals, affected: nat -> int, s: RunState, ds: seq<Document>, d: Document)
  {
    Acked(ext, affected, s, ds)
    && !ArticleAcked(ext, affected, AfterArticles(ext, affected, s, ds).writes + 1, d)
  }

  /** One more article: the run state and the acknowledgement both extend by it. */
  lemma AfterArticlesStep(ext: Externals, affected: nat -> int, s: RunState, ds: seq<Document>, d: Document)
    ensures AfterArticles(ext, affected, s, ds + [d]) == AfterArticle(ext, affected, AfterArticles(ext, affected, s, ds), d)
    ensures Acked(ext, affected, s, ds + [d]) <==>
      Acked(ext, affected, s, ds) && ArticleAcked(ext, affected, AfterArticles(ext, affected, s, ds).writes + 1, d)
  {
    assert (ds + [d])[..|ds|] == ds;
  }

  /** `now` is `start` after the articles `ds` have all been ingested and
      committed, in order: the tables and counters grew by exactly those
      articles, and each of their inserts was executed. */
  ghost predicate AllCommitted(ext: Externals, start: RunState, ds: seq<Document>, now: RunState)
  {
    var rows := AllPlanned(ext, ds);
    && now.writes == start.writes + Writes(ext, ds)
    && now.headers == start.headers + Headers(ds)
    && now.rows == start.rows + rows
    && now.totalTokenLength == start.totalTokenLength + TokenTotal(ext, ds)
    && now.maxTokensInSingleParagraph == Max(start.maxTokensInSingleParagraph, MaxCombinedLength(ds))
    && now.passages == start.passages + Texts(rows)
    && now.totalCharactersLength == start.totalCharactersLength + TotalLength(Texts(rows))
  }

  /** A run whose every paragraph insert is acknowledged commits every
      article: the state is the closed form `AllCommitted` describes. */
  lemma {:induction false} CompletedRun(ext: Externals, affected: nat -> int, s: RunState, ds: seq<Document>)
    requires Acked(ext, affected, s, ds)
    requires s.maxTokensInSingleParagraph >= 0
    ensures AllCommitted(ext, s, ds, AfterArticles(ext, affected, s, ds))
  {
    if ds != [] {
      var init := ds[..|ds| - 1];
      var d := ds[|ds| - 1];
      SplitLast(ds);
      CompletedRun(ext, affected, s, init);
      AfterArticlesStep(ext, affected, s, init, d);
      CommittedStep(ext, affected, s, init, AfterArticles(ext, affected, s, init), d);
    }
  }

  /** The closed form after one more committed article. */
  lemma CommittedStep(ext: Externals, affected: nat -> int, start: RunState, ds: seq<Document>, mid: RunState, d: Document)
    requires AllCommitted(ext, start, ds, mid)
    requires start.maxTokensInSingleParagraph >= 0
    requires ArticleAcked(ext, affected, mid.writes + 1, d)
    ensures AllCommitted(ext, start, ds + [d], AfterArticle(ext, affected, mid, d))
  {
    AttemptedRowsPrefix(ext, d, affected, mid.writes + 1);
    var now := AfterArticle(ext, affected, mid, d);
    assert AttemptedRows(ext, d, affected, mid.writes + 1) == PlannedRows(ext, d);
    CommittedFields(ext, start, ds, d, mid, now);
  }

  /** The field-by-field arithmetic of `CommittedStep`: each field of `now`
      is that of `mid` grown by the article `d` as it commits. */
  lemma CommittedFields(ext: Externals, start: RunState, ds: seq<Document>, d: Document, mid: RunState, now: RunState)
    requires AllCommitted(ext, start, ds, mid)
    requires start.maxTokensInSingleParagraph >= 0
    requires now.writes == mid.writes + 1 + |PlannedRows(ext, d)|
    requires now.headers == mid.headers + [Header(d.id, d.title)]
    requires now.rows == mid.rows + PlannedRows(ext, d)
    requires now.totalTokenLength == mid.totalTokenLength + Tokens(ext, d)
    requires now.maxTokensInSingleParagraph == Max(mid.maxTokensInSingleParagraph, |Combined(d)|)
    requires now.passages == mid.passages + Texts(PlannedRows(ext, d))
    requires now.totalCharactersLength == mid.totalCharactersLength + TotalLength(Texts(PlannedRows(ext, d)))
    ensures AllCommitted(ext, start, ds + [d], now)
  {
    SummariesStep(ext, ds, d);
    assert (ds + [d])[..|ds|] == ds;
    var before := AllPlanned(ext, ds);
    var planned := PlannedRows(ext, d);
    TextsConcat(before, planned);
    TotalLengthConcat(Texts(before), Texts(planned));
    Regroup(start.headers, Headers(ds), [Header(d.id, d.title)]);
    Regroup(start.rows, before, planned);
    Regroup(start.passages, Texts(before), Texts(planned));
  }


  lemma SplitLast<T>(s: seq<T>)
    requires s != []
    ensures s == s[..|s| - 1] + [s[|s| - 1]]
  {
  }

  lemma Regroup<T>(a: seq<T>, b: seq<T>, c: seq<T>)
    ensures a + b + c == a + (b + c)
  {
  }

  /** `now` is `start` after the articles `ds` were committed and `d` was
      then rolled back: the header table and the token and length counters
      cover `d` as well, the paragraph table does not, and the passages, the
      character total and the insert count cover `d`'s attempted rows, a
      non-empty prefix of its planned rows up to and including the refused
      one. */
  ghost predicate CommittedThenRolledBack(ext: Externals, affected: nat -> int, start: RunState, ds: seq<Document>,
                                          d: Document, now: RunState)
  {
    var tried := AttemptedRows(ext, d, affected, start.writes + Writes(ext, ds) + 1);
    RolledBackTables(ext, affected, start, ds, d, now) && RolledBackPassages(ext, start, ds, d, tried, now)
  }

  /** The tables, the token counters and the insert count of `CommittedThenRolledBack`. */
  ghost predicate RolledBackTables(ext: Externals, affected: nat -> int, start: RunState, ds: seq<Document>,
                                   d: Document, now: RunState)
  {
    var first := start.writes + Writes(ext, ds) + 1;
    && now.writes == first + |AttemptedRows(ext, d, affected, first)|
    && now.headers == start.headers + Headers(ds + [d])
    && now.rows == start.rows + AllPlanned(ext, ds)
    && now.totalTokenLength == start.totalTokenLength + TokenTotal(ext, ds + [d])
    && now.maxTokensInSingleParagraph == Max(start.maxTokensInSingleParagraph, MaxCombinedLength(ds + [d]))
  }

  /** The passages and the character total of `CommittedThenRolledBack`. */
  ghost predicate RolledBackPassages(ext: Externals, start: RunState, ds: seq<Document>, d: Document,
                                     tried: seq<ParagraphRow>, now: RunState)
  {
    var before := AllPlanned(ext, ds);
    && now.passages == start.passages + Texts(before) + Texts(tried)
    && start.passages + Texts(before) < now.passages
    && now.passages <= start.passages + Texts(AllPlanned(ext, ds + [d]))
    && now.totalCharactersLength == start.totalCharactersLength + TotalLength(Texts(before)) + TotalLength(Texts(tried))
  }

  /** A run that stops at a refused insert of `d` has committed every
      earlier article and rolled back `d`: the state is the closed form
      `CommittedThenRolledBack` describes. */
  lemma AbortedRun(ext: Externals, affected: nat -> int, s: RunState, ds: seq<Document>, d: Document)
    requires RefusedAfter(ext, affected, s, ds, d)
    requires s.maxTokensInSingleParagraph >= 0
    ensures CommittedThenRolledBack(ext, affected, s, ds, d, AfterArticles(ext, affected, s, ds + [d]))
  {
    CompletedRun(ext, affected, s, ds);
    AfterArticlesStep(ext, affected, s, ds, d);
    RolledBackStep(ext, affected, s, ds, AfterArticles(ext, affected, s, ds), d);
  }

  /** The closed form after one more article, rolled back. */
  lemma RolledBackStep(ext: Externals, affected: nat -> int, start: RunState, ds: seq<Document>, mid: RunState, d: Document)
    requires AllCommitted(ext, start, ds, mid)
    requires start.maxTokensInSingleParagraph >= 0
    requires !ArticleAcked(ext, affected, mid.writes + 1, d)
    ensures CommittedThenRolledBack(ext, affected, start, ds, d, AfterArticle(ext, affected, mid, d))
  {
    var first := mid.writes + 1;
    assert first == start.writes + Writes(ext, ds) + 1;
    AttemptedRowsPrefix(ext, d, affected, first);
    var tried := AttemptedRows(ext, d, affected, first);
    var now := AfterArticle(ext, affected, mid, d);
    assert tried <= PlannedRows(ext, d) && tried != [];
    assert now.passages == mid.passages + Texts(tried);
    assert now.totalCharactersLength == mid.totalCharactersLength + TotalLength(Texts(tried));
    RolledBackTablesStep(ext, affected, start, ds, mid, d);
    RolledBackPassagesStep(ext, start, ds, d, tried, mid, now);
  }

  lemma RolledBackTablesStep(ext: Externals, affected: nat -> int, start: RunState, ds: seq<Document>, mid: RunState, d: Document)
    requires AllCommitted(ext, start, ds, mid)
    requires start.maxTokensInSingleParagraph >= 0
    requires !ArticleAcked(ext, affected, mid.writes + 1, d)
    ensures RolledBackTables(ext, affected, start, ds, d, AfterArticle(ext, affected, mid, d))
  {
    var first := mid.writes + 1;
    assert first == start.writes + Writes(ext, ds) + 1;
    var now := AfterArticle(ext, affected, mid, d);
    assert now.writes == first + |AttemptedRows(ext, d, affected, first)|;
    assert now.rows == mid.rows;
    SummariesStep(ext, ds, d);
    Regroup(start.headers, Headers(ds), [Header(d.id, d.title)]);
  }

  lemma RolledBackPassagesStep(ext: Externals, start: RunState, ds: seq<Document>, d: Document,
                               tried: seq<ParagraphRow>, mid: RunState, now: RunState)
    requires mid.passages == start.passages + Texts(AllPlanned(ext, ds))
    requires mid.totalCharactersLength == start.totalCharactersLength + TotalLength(Texts(AllPlanned(ext, ds)))
    requires tried <= PlannedRows(ext, d) && tried != []
    requires now.passages == mid.passages + Texts(tried)
    requires now.totalCharactersLength == mid.totalCharactersLength + TotalLength(Texts(tried))
    ensures RolledBackPassages(ext, start, ds, d, tried, now)
  {
    SummariesStep(ext, ds, d);
    PrefixPassages(start.passages, AllPlanned(ext, ds), PlannedRows(ext, d), tried);
  }

  /** The passages after a rollback lie strictly past the committed
      articles' texts and within the texts all their rows would have had. */
  lemma PrefixPassages(p: seq<string>, before: seq<ParagraphRow>, planned: seq<ParagraphRow>, tried: seq<ParagraphRow>)
    requires tried <= planned && tried != []
    ensures p + Texts(before) + Texts(tried) == p + (Texts(before) + Texts(tried))
    ensures p + Texts(before) < p + Texts(before) + Texts(tried)
    ensures p + Texts(before) + Texts(tried) <= p + Texts(before + planned)
  {
    TextsConcat(before, planned);
    assert Texts(tried) <= Texts(planned);
    Regroup(p, Texts(before), Texts(tried));
  }

  /** A server that reports one affected row for every insert acknowledges
      the paragraphs of every article. */
  lemma {:induction false} AckedByFaultlessServer(ext: Externals, affected: nat -> int, s: RunState, ds: seq<Document>)
    requires forall j :: affected(j) == 1
    ensures Acked(ext, affected, s, ds)
  {
    if ds != [] {
      var init := ds[..|ds| - 1];
      AckedByFaultlessServer(ext, affected, s, init);
      AllAcknowledged(affected, AfterArticles(ext, affected, s, init).writes + 1, |PlannedRows(ext, ds[|ds| - 1])|);
    }
  }

  /** A server that reports one affected row for every insert never
      refuses an article's paragraphs, so a run against it cannot abort. */
  lemma FaultlessServerNeverRefuses(ext: Externals, affected: nat -> int, s: RunState, ds: seq<Document>, d: Document)
    requires forall j :: affected(j) == 1
    ensures !RefusedAfter(ext, affected, s, ds, d)
  {
    AllAcknowledged(affected, AfterArticles(ext, affected, s, ds).writes + 1, |PlannedRows(ext, d)|);
  }

  /** One pass of the read loop, from the state `mid` reached after the
      lines before `i` to the state `now`: it keeps the loop's invariant
      when the line is skipped or its article committed, and establishes the
      abort's promise when the article's transaction rolled back. */
  lemma {:induction false} LoopStep(ext: Externals, affected: nat -> int, start: RunState, lines: seq<Option<Document>>, i: nat,
                 mid: RunState, now: RunState, result: Option<DocumentOutcome>)
    requires i < |lines|
    requires Acked(ext, affected, start, Present(lines[..i]))
    requires mid == AfterArticles(ext, affected, start, Present(lines[..i]))
    requires lines[i].None? ==> result == None && now == mid
    requires lines[i].Some? ==>
      && result == Some(if ArticleAcked(ext, affected, mid.writes + 1, lines[i].value)
                        then Committed else RolledBack(lines[i].value.id))
      && now == AfterArticle(ext, affected, mid, lines[i].value)
    ensures now == AfterArticles(ext, affected, start, Present(lines[..i + 1]))
    ensures result.None? || result.value.Committed? ==> Acked(ext, affected, start, Present(lines[..i + 1]))
    ensures result.Some? && result.value.RolledBack? ==>
      lines[i].Some? && RefusedAfter(ext, affected, start, Present(lines[..i]), lines[i].value)
  {
    PresentStep(lines, i);
    if lines[i].Some? {
      AfterArticlesStep(ext, affected, start, Present(lines[..i]), lines[i].value);
    }
  }

  /** A state whose every field has grown from `s` as `AfterArticle` says is
      the state `AfterArticle` gives. */
  lemma AfterArticleFields(ext: Externals, affected: nat -> int, s: RunState, d: Document, now: RunState)
    requires now.headers == s.headers + [Header(d.id, d.title)]
    requires ArticleAcked(ext, affected, s.writes + 1, d) ==> now.rows == s.rows + PlannedRows(ext, d)
    requires !ArticleAcked(ext, affected, s.writes + 1, d) ==> now.rows == s.rows
    requires now.totalTokenLength == s.totalTokenLength + Tokens(ext, d)
    requires now.maxTokensInSingleParagraph == Max(s.maxTokensInSingleParagraph, |Combined(d)|)
    requires now.passages == s.passages + Texts(AttemptedRows(ext, d, affected, s.writes + 1))
    requires now.totalCharactersLength ==
      s.totalCharactersLength + TotalLength(Texts(AttemptedRows(ext, d, affected, s.writes + 1)))
    requires now.writes == s.writes + 1 + |AttemptedRows(ext, d, affected, s.writes + 1)|
    ensures now == AfterArticle(ext, affected, s, d)
  {
    if !ArticleAcked(ext, affected, s.writes + 1, d) {
      assert s.rows + [] == s.rows;
    }
  }

  /** The article of one line: a line that deserialised to `null` is
      skipped and changes nothing; an article is ingested, and the run state
      moves on by exactly that article. */
  method IngestArticle(line: Option<Document>, ext: Externals, store: Store, counters: RunCounters)
    returns (outcome: Option<DocumentOutcome>)
    requires !store.inTransaction && store.pending == []
    modifies store, counters
    ensures !store.inTransaction && store.pending == []
    ensures line.None? ==> outcome == None && StateOf(store, counters) == old(StateOf(store, counters))
    ensures line.Some? ==>
      && outcome == Some(if ArticleAcked(ext, store.affected, old(store.writes) + 1, line.value)
                         then Committed else RolledBack(line.value.id))
      && StateOf(store, counters) == AfterArticle(ext, store.affected, old(StateOf(store, counters)), line.value)
  {
    if line.Some? {
      ghost var before := StateOf(store, counters);
      var result := IngestDocument(line.value, ext, store, counters);
      outcome := Some(result);
      AfterArticleFields(ext, store.affected, before, line.value, StateOf(store, counters));
    } else {
      outcome := None;
    }
  }

  /** One pass of the read loop over line `i`, after the lines before it
      were ingested from `start` and every one of their inserts was
      acknowledged: the run state becomes that of ingesting the lines up to
      and including `i`, and the pass ends without an exception exactly when
      this line's inserts are acknowledged too. */
  method IngestLine(lines: seq<Option<Document>>, i: nat, ext: Externals, store: Store, counters: RunCounters,
                    ghost start: RunState)
    returns (outcome: Option<DocumentOutcome>)
    requires i < |lines|
    requires !store.inTransaction && store.pending == []
    requires Acked(ext, store.affected, start, Present(lines[..i]))
    requires StateOf(store, counters) == AfterArticles(ext, store.affected, start, Present(lines[..i]))
    modifies store, counters
    ensures !store.inTransaction && store.pending == []
    ensures StateOf(store, counters) == AfterArticles(ext, store.affected, start, Present(lines[..i + 1]))
    ensures outcome.None? || outcome.value.Committed? ==> Acked(ext, store.affected, start, Present(lines[..i + 1]))
    ensures outcome.Some? && outcome.value.RolledBack? ==>
      && lines[i].Some? && outcome.value.wikiId == lines[i].value.id
      && RefusedAfter(ext, store.affected, start, Present(lines[..i]), lines[i].value)
  {
    ghost var mid := StateOf(store, counters);
    outcome := IngestArticle(lines[i], ext, store, counters);
    LoopStep(ext, store.affected, start, lines, i, mid, StateOf(store, counters), outcome);
  }

  /** The closed forms of a run that stopped after `consumed` lines: every
      article committed, or all but the last committed and the last rolled back. */
  lemma RunSummary(ext: Externals, affected: nat -> int, start: RunState, lines: seq<Option<Document>>,
                   consumed: nat, aborted: bool, now: RunState)
    requires start.maxTokensInSingleParagraph >= 0 && consumed <= |lines|
    requires now == AfterArticles(ext, affected, start, Present(lines[..consumed]))
    requires !aborted ==> consumed == |lines| && Acked(ext, affected, start, Present(lines))
    requires aborted ==>
      && 0 < consumed && lines[consumed - 1].Some?
      && RefusedAfter(ext, affected, start, Present(lines[..consumed - 1]), lines[consumed - 1].value)
    ensures !aborted ==> AllCommitted(ext, start, Present(lines), now)
    ensures aborted ==>
      CommittedThenRolledBack(ext, affected, start, Present(lines[..consumed - 1]), lines[consumed - 1].value, now)
  {
    if !aborted {
      assert lines[..consumed] == lines;
      CompletedRun(ext, affected, start, Present(lines));
    } else {
      var i := consumed - 1;
      var ds, d := Present(lines[..i]), lines[i].value;
      PresentStep(lines, i);
      assert lines[..i + 1] == lines[..consumed];
      assert Present(lines[..consumed]) == ds + [d];
      AbortedRun(ext, affected, start, ds, d);
    }
  }

  /** The whole run: read the lines in order, skip `null` ones, ingest each
      article, and stop at the first article whose transaction rolls back,
      since the rethrown exception ends the run. The run completes exactly
      when the server acknowledges every paragraph insert; otherwise it stops
      at the first article with a refused insert. Either way the final state
      is that of ingesting, one after another, every article read. */
  method IngestRun(lines: seq<Option<Document>>, ext: Externals, store: Store, counters: RunCounters)
    returns (outcome: RunOutcome, consumed: nat)
    requires !store.inTransaction && store.pending == []
    requires counters.maxTokensInSingleParagraph >= 0
    modifies store, counters
    ensures consumed <= |lines|
    ensures outcome.Completed? ==> consumed == |lines|
    ensures outcome.Aborted? ==>
      0 < consumed && lines[consumed - 1].Some? && outcome.wikiId == lines[consumed - 1].value.id
    ensures !store.inTransaction && store.pending == []
    ensures outcome.Completed? ==> Acked(ext, store.affected, old(StateOf(store, counters)), Present(lines))
    ensures outcome.Aborted? ==>
      RefusedAfter(ext, store.affected, old(StateOf(store, counters)), Present(lines[..consumed - 1]),
                   lines[consumed - 1].value)
    ensures StateOf(store, counters) ==
      AfterArticles(ext, store.affected, old(StateOf(store, counters)), Present(lines[..consumed]))
    ensures outcome.Completed? ==>
      AllCommitted(ext, old(StateOf(store, counters)), Present(lines), StateOf(store, counters))
    ensures outcome.Aborted? ==>
      CommittedThenRolledBack(ext, store.affected, old(StateOf(store, counters)), Present(lines[..consumed - 1]),
                              lines[consumed - 1].value, StateOf(store, counters))
  {
    ghost var start := StateOf(store, counters);
    consumed := 0;
    outcome := Completed;
    while consumed < |lines| && outcome.Completed?
      invariant consumed <= |lines|
      invariant !store.inTransaction && store.pending == []
      invariant StateOf(store, counters) == AfterArticles(ext, store.affected, start, Present(lines[..consumed]))
      invariant outcome.Completed? ==> Acked(ext, store.affected, start, Present(lines[..consumed]))
      invariant outcome.Aborted? ==>
        && 0 < consumed && lines[consumed - 1].Some? && outcome.wikiId == lines[consumed - 1].value.id
        && RefusedAfter(ext, store.affected, start, Present(lines[..consumed - 1]), lines[consumed - 1].value)
    {
      ghost var i := consumed;
      var result := IngestLine(lines, consumed, ext, store, counters, start);
      consumed := consumed + 1;
      assert consumed - 1 == i;
      if result.Some? && result.value.RolledBack? {
        outcome := Aborted(result.value.wikiId);
      } else {
        assert result.None? || result.value.Committed?;
      }
    }
    if outcome.Completed? {
      assert lines[..consumed] == lines;
    }
    RunSummary(ext, store.affected, start, lines, consumed, outcome.Aborted?, StateOf(store, counters));
  }
}
