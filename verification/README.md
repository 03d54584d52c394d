# Verified model of the RAG service's decision logic

This project models, in Dafny, the parts of the service that decide something: what is embedded and cached, which
rows a search selects, how text is cut into chunks, how results are fused and packed into a prompt, how the agent
loop and the message formats keep tool calls paired with their results, how the WebSocket hub delivers, how requests
are limited, and how retrieval quality is measured. The database, Redis, HTTP, the language model, the tokenizer and
the pattern engine are parameters: functions, scripted replies, or steps the environment may take at any time.

Code that changes state step by step is a class or a method with loops, proved against a specification function;
what the service promises is then proved of those functions, over all inputs, all runs or all interleavings.

| file | component |
|---|---|
| `VectorMath.dfy`, `RealArithmetic.dfy` | Newton square root, cosine similarity, normalisation |
| `Embedder.dfy` | embedding cache; batched, cached, retried embedding |
| `SearchQuery.dfy` | SQL filter compilation and its meaning, NULL columns included |
| `Llm.dfy`, `AgentLoop.dfy`, `Fallback.dfy` | message formats, the tool loop, tool calls written as text |
| `Sections.dfy`, `Abbreviations.dfy`, `Splitters.dfy`, `Chunker.dfy`, `ChunkedText.dfy`, `SolidText.dfy`, `Strings.dfy`, `Trimming.dfy` | chunking |
| `Metrics.dfy`, `Percentiles.dfy`, `Evaluation.dfy` | retrieval metrics |
| `Hub.dfy`, `HubDelivery.dfy`, `RateLimit.dfy`, `Memory.dfy` | WebSocket hub, rate limits, conversation memory |
| `Fusion.dfy`, `ContextBuilder.dfy`, `Common.dfy` | rank fusion, prompt context, shared vocabulary |

`dafny verify dfyconfig.toml` checks everything.

## Where the code is weaker than its comments

Each point is a theorem below; where a promise holds only sometimes, the theorem says exactly when.

- The embedding cache is described as LRU (`internal/embedder/embedder.go:83`) but evicts first in, first out. Every
  eviction of every run takes the least recently used key exactly when the cache holds at most one entry or is
  unbounded (`Embedder.LruExactlyWhen`); with room for two or more, filling it, looking the first key up and writing
  another evicts the key just used (`Embedder.FirstKeyIsEvicted`).
- Normalisation is described as giving unit length. With ten Newton steps it does so for a squared norm of exactly 4,
  and otherwise falls short by a bounded amount (`VectorMath.NormalizedNorm`).
- Cutting into sentences keeps the text exactly when no part before the last is blank and the text does not itself
  contain the marker `<DOT>` used to hide the full stops of abbreviations (`Splitters.SentencesKeepText`). A leading
  run of punctuation shifts every later mark and loses the last one (`Splitters.LeadingPunctuationShifts`). So a
  chunked document keeps its text exactly when every paragraph too long for a chunk is cut that cleanly
  (`ChunkedText.ChunksKeepText`); `ChunkedText.LeadingDotsLoseText` is a document that is not.
- The prompt budget is tested before the separator is counted, so a build exceeds it exactly when the last chunk fits
  without its separator but not with it (`ContextBuilder.OvershootExactlyWhen`), by at most that separator. A builder
  exceeds no budget exactly when it deduplicates below a negative threshold, which makes everything a duplicate:
  with the documented thresholds, from 0 to 1, no builder that can be constructed meets the promise for all inputs
  (`ContextBuilder.NoBuilderKeepsEveryBudget`).
- A chunk repeated without any words is never recognised as a duplicate (`ContextBuilder.RepeatsAreSimilar`).
- `Stop` empties the client map without lowering the connection gauge, and a ping answered afterwards sends on a
  closed channel; nothing else ever does (`Hub.GaugeAfterStop`, `Hub.OnlyPingAfterStopPanics`).
- The limiter's two counters disagree at exactly one instant, the expiry itself (`RateLimit.CountsAgree`). The limit
  bounds every interval as long as the window exactly when it is at most 1 or the window has no length
  (`RateLimit.LimitKeptExactlyWhen`); otherwise twice the limit less one is the sharp bound
  (`RateLimit.AtMostThePeak`, `RateLimit.PeakIsReached`).
- The WebSocket reader handles at most twice its limit in a second exactly for limits of at least one; a limit of zero
  still lets one message through each window (`RateLimit.ReaderBoundExactlyWhen`).
- A message the database rejects stays in the in-memory list, which is then no suffix of the stored log
  (`Memory.ConversationMemory.SaveMessage`).
- NDCG stays within 1, whatever the discount, exactly when the results counted hold no more hits than the ideal allows
  for (`Metrics.NdcgWithinOneExactlyWhen`). Distinct ids ensure that (`Metrics.DistinctHitsFit`); repeated relevant
  results at the head break it under every discount (`Metrics.RepeatedHeadExceedsOne`).
- Flattening to the OpenAI format drops the error flag of tool results; only the text of the answer tells
  (`Llm.FlagsAreLost`).
- Calls read from text are numbered from zero in every response, so two responses of a run share an identifier exactly
  when both hold a call in a block of the same position (`Fallback.IdsSharedExactlyWhen`).

## Model

| member | source | states |
|---|---|---|
| VectorMath.NewtonResidual | internal/embedder/embedder.go:504-514 | from the first step on Newton's iterate is never below the root, and the excess of its square shrinks at least fourfold a step, for every positive input |
| VectorMath.NewtonExact | internal/embedder/embedder.go:504-514 | the iteration is exact for one input alone, 4 |
| VectorMath.RootBounds | internal/embedder/embedder.go:504-514 | ten steps overshoot the square by at most (x/4 - 1)^2 / 4^9 and never undershoot |
| VectorMath.Sqrt | internal/embedder/embedder.go:504-514 | the loop delivers the tenth iterate, and 0 for non-positive input |
| VectorMath.CauchySchwarz | internal/embedder/embedder.go:489-493 | the squared dot product is at most the product of the squared norms, for vectors of any length |
| VectorMath.NormsDominateDot | internal/embedder/embedder.go:489-500 | the product of the two computed (overshooting) norms still dominates the dot product |
| VectorMath.CosineBounded | internal/embedder/embedder.go:484-501 | similarity lies in [-1, 1] for all pairs of vectors, including mismatched lengths and zero vectors |
| VectorMath.CosineSymmetric | internal/embedder/embedder.go:484-501 | similarity does not depend on the order of its arguments |
| VectorMath.CosineWithItself | internal/embedder/embedder.go:484-501 | a vector scores 1 against itself exactly when its squared norm is 4; otherwise the shortfall is bounded |
| VectorMath.CosineSimilarity | internal/embedder/embedder.go:484-501 | the loop computes the reference similarity, which is in [-1, 1] |
| VectorMath.NormalizedNorm | internal/embedder/embedder.go:517-533 | after division by the computed norm the squared norm is at most 1, how far below at worst, and when exactly 1 |
| VectorMath.NormalizeEmbedding | internal/embedder/embedder.go:516-533 | direction kept component by component, norm at most 1, unit length exactly for squared norm 4, zero vectors returned unchanged |
| Embedder.EmbeddingCache.constructor | internal/embedder/embedder.go:84-125 | a new cache is empty and in its invariant |
| Embedder.EmbeddingCache.Get | internal/embedder/embedder.go:351-366 | a hit exactly when the key is stored |
| Embedder.EmbeddingCache.Set | internal/embedder/embedder.go:368-398 | keeps the invariant: order has no duplicates, its elements are exactly the stored keys, and it is the last maxSize effective insertions; present keys are untouched and a full cache loses its oldest; one write is one step of the run model below |
| Embedder.EmbeddingCache.Clear | internal/embedder/embedder.go:410-419 | forgets every insertion |
| Embedder.EvictedAfterMaxSize | internal/embedder/embedder.go:383-397 | a key is still stored exactly when fewer than maxSize insertions followed its own: first in, first out |
| Embedder.StoredInOrder | internal/embedder/embedder.go:368-398 | in every run the stored keys stand in the order they went in, each used no earlier than that |
| Embedder.UntouchedIsLeastRecent | internal/embedder/embedder.go:383-397 | while the oldest key has not been used since it went in, evicting it is evicting the least recently used one |
| Embedder.FirstKeyIsEvicted | internal/embedder/embedder.go:383-397 | for every size from two on, a run whose eviction takes a key used after another stored one |
| Embedder.LruExactlyWhen | internal/embedder/embedder.go:83-88 | every eviction of every run is least-recently-used exactly for a size of at most 1, or no limit |
| Embedder.EmbeddingApi.DoEmbedBatch | internal/embedder/embedder.go:252-278 | succeeds exactly when the reply has one embedding a text, and then gives the model's answers in order |
| Embedder.FirstAnswerExactlyWhen | internal/embedder/embedder.go:219-249 | a batch is answered exactly when some attempt within the budget answers and every attempt before it failed without ending the context |
| Embedder.OpenAIEmbedder.EmbedBatchWithRetry | internal/embedder/embedder.go:219-249 | succeeds exactly when an attempt within the retry budget answers before the context ends, stopping right after it; never more than maxRetries + 1 attempts |
| Embedder.OpenAIEmbedder.LookUp | internal/embedder/embedder.go:148-169 | hits hold the model's answers, misses are queued with their positions, and the two counters grow by the number of texts |
| Embedder.OpenAIEmbedder.StoreBatch | internal/embedder/embedder.go:193-202 | writes the queued slots and no others, and stores only correct entries |
| Embedder.OpenAIEmbedder.EmbedOneBatch | internal/embedder/embedder.go:177-206 | a batch that is answered fills its slots and leaves the others; one that is not leaves the cache correct |
| Embedder.OpenAIEmbedder.EmbedMissing | internal/embedder/embedder.go:177-206 | succeeds exactly when every batch, in order, meets an answer within its own retry budget before the context ends; then every slot is filled with as many requests as the batch size needs; a failure part-way leaves the cache correct |
| Embedder.OpenAIEmbedder.EmbedBatch | internal/embedder/embedder.go:140-216 | succeeds exactly when every batch of the texts not cached is answered, and then gives the pointwise map of the model over any texts, duplicates included; hits plus misses grow by the number of texts; failure leaves only correct cache entries |
| SearchQuery.EvaluateStable | internal/storage/vector_store.go:293-352 | arguments appended later do not change what a condition means |
| SearchQuery.EvaluateAllStable | internal/storage/vector_store.go:293-352 | the same for a whole conjunction |
| SearchQuery.AppendInStep | internal/storage/vector_store.go:307-349 | after each added filter the placeholders, read left to right, are still 1, 2, ... up to the number of arguments |
| SearchQuery.AppendMeans | internal/storage/vector_store.go:307-349 | adding a conjunct with fresh arguments means "what it meant before, and the new filter" on every row of every database |
| SearchQuery.FreshIn | internal/storage/vector_store.go:313-321 | an IN list over freshly numbered arguments is membership; a NULL column never passes |
| SearchQuery.NumberTexts | internal/storage/vector_store.go:313-321 | the list takes consecutive placeholders in step with its arguments |
| SearchQuery.AddSourceFilter | internal/storage/vector_store.go:307-311 | narrows the meaning by the source type; an empty filter narrows nothing |
| SearchQuery.AddCategoryFilter | internal/storage/vector_store.go:313-321 | narrows the meaning to the listed categories |
| SearchQuery.AddNumberFilter | internal/storage/vector_store.go:323-327 | narrows the meaning by the standard number |
| SearchQuery.AddStartFilter | internal/storage/vector_store.go:329-333 | narrows the meaning to dates not before the start; rows without a date do not pass |
| SearchQuery.AddEndFilter | internal/storage/vector_store.go:335-339 | narrows the meaning to dates not after the end; rows without a date do not pass |
| SearchQuery.AddDocumentFilter | internal/storage/vector_store.go:341-349 | narrows the meaning to the listed documents |
| SearchQuery.ClosingArgument | internal/storage/vector_store.go:352 | the LIMIT argument appended last leaves the clause's meaning alone |
| SearchQuery.Search | internal/storage/vector_store.go:272-383 | for every filter combination, row and database the conjunction is true exactly of rows satisfying the filters (three-valued, NULLs included); every argument is referenced once, and LIMIT names the top-K argument |
| SearchQuery.SearchBySource | internal/storage/vector_store.go:396-399 | selects by the given source whatever source the query asked for |
| SearchQuery.KeywordSearch | internal/storage/vector_store.go:402-478 | the same guarantees for full-text search |
| Llm.GetText | internal/llm/provider.go:184-192 | exactly the text blocks, in order |
| Llm.GetToolCalls | internal/llm/provider.go:195-207 | exactly the tool-use blocks, in order |
| Llm.BuildToolResultMessages | internal/llm/anthropic.go:251-265 | one user message with one result block a result, in order, same ids |
| Llm.ConvertMessage | internal/llm/openai_compat.go:178-226 | one message's translation, including tool results becoming separate tool messages and unknown roles dropped |
| Llm.ConvertMessages | internal/llm/openai_compat.go:167-229 | system prompt first, then every message's translation in order |
| Llm.SingleFlattens | internal/llm/openai_compat.go:178-226 | a plain turn survives flattening |
| Llm.ExchangeFlattens | internal/llm/openai_compat.go:185-225 | an assistant's calls and the message answering them become an assistant message followed by one tool message a call, same ids, order and texts, without the error flags |
| Llm.FlatteningPreservesTurns | internal/llm/openai_compat.go:167-229 | every readable transcript, flattened and read back in the other format, says the same turns with the error flags cleared |
| Llm.FlagsAreLost | internal/llm/openai_compat.go:188-196 | clearing the error flags of a message changes nothing in its translation |
| Llm.TurnsConcat | internal/agent/orchestrator.go:363-367 | appending readable messages to a readable transcript appends their turns |
| AgentLoop.RunToolsReportsTruly | internal/agent/orchestrator.go:328-352 | for each call, by the registry alone: its own id; unflagged with the tool's output exactly when the tool succeeds; flagged with "Error: " and the reason when it fails; every call flagged without a registry |
| AgentLoop.ExecuteTools | internal/agent/orchestrator.go:319-361 | one result a call, in order, carrying its id and reporting what the registry did with it; every call is tracked, numbered on from those before |
| AgentLoop.ExecuteAgenticLoop | internal/agent/orchestrator.go:296-371 | at most MaxToolCalls provider calls; each request is the transcript so far; the tracked calls are all replies' calls in order; success, call failure and exhaustion are characterised by the replies |
| AgentLoop.RoundReads | internal/agent/orchestrator.go:319-367 | each round reads as one exchange binding every call to what the registry answered it |
| AgentLoop.TranscriptReads | internal/agent/orchestrator.go:296-371 | after any number of rounds the transcript reads as the opening conversation followed by the rounds, every call with the registry's answer to it |
| AgentLoop.FlatTranscriptReads | internal/llm/openai_compat.go:167-229 | what an OpenAI-style server receives reads the same, error flags apart: each call followed by its own tool message |
| AgentLoop.BuildMessages | internal/agent/orchestrator.go:374-401 | the opening conversation reads as the user and assistant turns of the history and then the question, with context in front when there is any |
| Fallback.ParseToolCallsFromText | internal/llm/fallback.go:92-133 | the loop's calls and remaining text are those of the block-by-block reading |
| Fallback.BlockMatches | internal/llm/fallback.go:98 | a printed block, wherever it stands, matches the pattern as a whole with the encoding as its body |
| Fallback.MatchIsPreferred | internal/llm/fallback.go:98 | a match is reported exactly when the text can be read as one, and it is the reading a backtracking matcher prefers: as many leading spaces as possible, then the shortest body |
| Fallback.ScanIsLeftmost | internal/llm/fallback.go:99 | the scan finds exactly the leftmost matches, none beginning inside another, over any text |
| Fallback.FindsPrinted | internal/llm/fallback.go:98-99 | the scanner meets one match a printed block, in order, and nothing else |
| Fallback.RemovesBlock | internal/llm/fallback.go:126 | removing the first occurrence of a block removes that block and not an earlier or overlapping one |
| Fallback.AcceptsPrinted | internal/llm/fallback.go:101-127 | after k matches the first k calls are read and only the later blocks remain in the text |
| Fallback.ParseUndoesPrint | internal/llm/fallback.go:41-133 | printing any calls as fenced blocks between backtick-free texts and parsing gives back the same names and inputs in order and exactly the surrounding text, trimmed |
| Fallback.ReadsHoldingBlocks | internal/llm/fallback.go:101-127 | reading any text gives one call for each block that holds one, in order, with its name, input and position, and the text without these blocks; a block that does not decode or names no tool stays and gives none |
| Fallback.HoldingIs | internal/llm/fallback.go:101-117 | the blocks read, in ascending order, are exactly those that decode and name a tool |
| Fallback.NothingToRead | internal/llm/fallback.go:92-133 | a text with no such block gives no calls and is only trimmed |
| Fallback.DecimalReads | internal/llm/fallback.go:119 | the decimal digits of a number read back as the number |
| Fallback.DecimalInjective | internal/llm/fallback.go:119 | so different numbers print differently |
| Fallback.IdentifiersDiffer | internal/llm/fallback.go:118-122 | whatever the text, the calls read from it carry pairwise different identifiers |
| Fallback.IdsArePositions | internal/llm/fallback.go:101-122 | a text's calls carry exactly the positions of the blocks that hold one |
| Fallback.IdsSharedExactlyWhen | internal/llm/fallback.go:118-122 | two responses share an identifier exactly when both hold a call in a block of the same position |
| Fallback.ProcessFallbackResponse | internal/llm/fallback.go:182-221 | a response with written calls is rebuilt to hold exactly those calls and the remaining text; any other is returned unchanged |
| Sections.SortBoundaries | internal/chunker/chunker.go:640-653 | the in-place sort orders by position and keeps the order of equal positions |
| Sections.SwapIsStable | internal/chunker/chunker.go:646-650 | swapping neighbours at different positions keeps, at every position, the same boundaries in the same order |
| Sections.DeduplicateBoundaries | internal/chunker/chunker.go:656-685 | strictly increasing positions, keeping at each position the first boundary that stood there |
| Sections.MergeMatches | internal/chunker/chunker.go:169-209 | boundaries are strictly increasing and at every position the first match, in table order, survives |
| Sections.MergeIsUnique | internal/chunker/chunker.go:206-209 | the pattern matches leave no choice of boundaries |
| Sections.MergedPositions | internal/chunker/chunker.go:206-212 | there are boundaries exactly when some pattern matched, all inside the text |
| Sections.EarliestPatternWins | internal/chunker/chunker.go:155-209 | where several patterns match, the earliest in the table decides |
| Sections.BuildSections | internal/chunker/chunker.go:239-256 | one section a boundary, up to the next boundary or the end |
| Sections.SplitBySection | internal/chunker/chunker.go:149-259 | the sections are the text cut at the merged boundaries, with a preamble when the text before the first is not blank, or the whole text |
| Sections.SectioningIsUnique | internal/chunker/chunker.go:149-259 | text and matches determine the sections |
| Sections.CutsTile | internal/chunker/chunker.go:239-256 | the spans, joined, are the text from the first boundary to the end |
| Splitters.SplitParagraphs | internal/chunker/chunker.go:553-567 | the trimmed, non-blank parts in order |
| Splitters.ParagraphsKeepText | internal/chunker/chunker.go:553-567 | cutting at blank lines loses spaces only |
| Abbreviations.ProtectAbbreviations | internal/chunker/chunker.go:603-617 | the listed abbreviations are replaced one after the other, every occurrence, left to right |
| Abbreviations.ReplacingStillHides | internal/chunker/chunker.go:612-615 | replacing an abbreviation only ever hides full stops of the text, also after earlier replacements |
| Abbreviations.NoAbbreviationLeft | internal/chunker/chunker.go:603-617 | once a text is protected, no listed abbreviation stands anywhere in it |
| Abbreviations.RestoreForgetsHiding | internal/chunker/chunker.go:620-622 | restoring undoes any such hiding |
| Abbreviations.RestoreProtected | internal/chunker/chunker.go:603-622 | restoring the protected text and restoring the text itself come to the same |
| Abbreviations.RestoreKeepsText | internal/chunker/chunker.go:620-622 | restoring keeps a text exactly when it does not contain the marker; otherwise text is lost |
| Splitters.SplitSentences | internal/chunker/chunker.go:570-600 | over the protected text, marks are handed out in order to the parts that are not blank, except the last part, and every sentence is restored |
| Splitters.RestoreInterleaved | internal/chunker/chunker.go:570-600 | restoring the protected text restores its parts one by one: no marker straddles a cut |
| Splitters.RestoreCut | internal/chunker/chunker.go:582-597 | restoring the sentences and cutting the restored parts come to the same |
| Splitters.CutKeepsText | internal/chunker/chunker.go:582-592 | the parts with the marks handed to them hold the text exactly when no part before the last is blank; otherwise strictly less |
| Splitters.MarksUsed | internal/chunker/chunker.go:588-592 | as many marks are handed out as were found exactly when no part before the last is blank |
| Splitters.SentencesKeepText | internal/chunker/chunker.go:570-622 | the sentences hold all non-space text in order exactly when no part before the last is blank and the text does not contain the marker; otherwise they hold strictly less |
| Splitters.LeadingPunctuationShifts | internal/chunker/chunker.go:582-592 | a concrete text whose leading dots move behind the first sentence while its full stop is lost |
| Splitters.FieldsKeepText | internal/chunker/chunker.go:403 | cutting into words loses spaces only, and leaves none |
| Splitters.FieldsOfWord | internal/chunker/chunker.go:403 | a run without spaces is one word |
| Splitters.FieldsAtSpace | internal/chunker/chunker.go:403 | at any space the words are those before it and then those after it |
| Chunker.ReferenceConserves | internal/chunker/chunker.go:283-434 | the greedy packing's groups, read in order, are the pieces with oversized ones replaced by what they split into: nothing lost, repeated or moved |
| Chunker.ReferenceFits | internal/chunker/chunker.go:283-434 | every group is within the token limit unless it is one unsplittable word |
| Chunker.RunIsLongest | internal/chunker/chunker.go:313-323 | each group is as long as it can be: a longer one meets an oversized piece or breaks the limit |
| Chunker.FlushAgrees | internal/chunker/chunker.go:301-323 | flushing a full buffer continues with the greedy packing of the rest |
| Chunker.SplitByWords | internal/chunker/chunker.go:402-434 | the incremental loop emits exactly the greedy packing, numbered on from the shared index |
| Chunker.SplitBySentences | internal/chunker/chunker.go:343-399 | the same with oversized sentences handed to the word packer in place |
| Chunker.SplitByParagraphs | internal/chunker/chunker.go:283-340 | the same with oversized paragraphs handed to the sentence packer in place |
| Chunker.ChunkSection | internal/chunker/chunker.go:262-280 | one chunk for a section that fits, else the packing of its paragraphs; indices continue |
| Chunker.AddOverlap | internal/chunker/chunker.go:437-476 | rewrites contents and token counts only, each count matching its content; the first content stays, and every later one has in front of it, unless it already begins so, the text of the last overlapTokens tokens of the final content before it, trimmed and started after its first space when that is in its front half |
| Chunker.OverlapInPlace | internal/chunker/chunker.go:442-452 | the overlap of each chunk is taken from its predecessor as already extended |
| Chunker.OverlapKeepsContent | internal/chunker/chunker.go:437-476 | every chunk still ends with its own content and begins with the text it shares |
| Chunker.FinalContentsOverlap | internal/chunker/chunker.go:437-476 | so it is of all the final contents of a document: each overlaps the final content before it |
| Chunker.SharedTextIsSuffix | internal/chunker/chunker.go:458-476 | for a tokenizer whose last tokens decode to the end of the text, the shared text ends the trimmed previous content and comes out of its last overlapTokens tokens; it is empty exactly when there are no more tokens than that, or they are blank |
| Chunker.ChunkText | internal/chunker/chunker.go:94-114 | blank text gives nothing; otherwise the chunks render the packing of the text's sections, numbered 0 to n-1, token counts matching, each with its section's title and hierarchy |
| Chunker.ChunkPages | internal/chunker/chunker.go:117-140 | the same across pages with one running index, every chunk carrying its own page's number and its own section's title and hierarchy |
| Chunker.SectionConserves | internal/chunker/chunker.go:262-280 | a section's chunks hold its pieces in order and fit |
| Chunker.DocumentConserves | internal/chunker/chunker.go:94-140 | a document's chunks hold all sections' pieces in order and fit |
| ChunkedText.SectionsKeepText | internal/chunker/chunker.go:149-259 | sectioning loses spaces only |
| ChunkedText.SplitterAt | internal/chunker/chunker.go:553-600 | cutting into words or paragraphs always keeps the text; cutting into sentences does so exactly when it is cut clean |
| ChunkedText.DocumentSplitsAreClean | internal/chunker/chunker.go:262-399 | every split made while packing keeps its text exactly when every paragraph too long for a chunk is cut clean |
| ChunkedText.RenderedText | internal/chunker/chunker.go:330-333 | joining pieces into chunk contents adds spaces only |
| ChunkedText.ChunksKeepText | internal/chunker/chunker.go:94-114 | before overlap, the chunks hold every non-space character of the text, once and in place, exactly when every paragraph too long for a chunk has no blank part before its last and no marker in it; otherwise characters are lost |
| ChunkedText.PagedChunksKeepText | internal/chunker/chunker.go:117-140 | the same for a paged text |
| ChunkedText.SplittersBehave | internal/chunker/chunker.go:553-600 | the three splitters meet what packing assumes of them: no empty pieces and no text gained |
| ChunkedText.LeadingDotsLoseText | internal/chunker/chunker.go:582-592 | a document, one oversized paragraph beginning with dots, whose chunks hold less than its text |
| Metrics.CountHits | internal/rag/evaluation/metrics.go:185-196 | the relevant results among the first min(k, length) |
| Metrics.PrecisionAtK | internal/rag/evaluation/metrics.go:180-198 | hits over k, even when fewer than k results exist |
| Metrics.RecallAtK | internal/rag/evaluation/metrics.go:201-219 | hits over the number of relevant ids, 0 when there are none |
| Metrics.HitAtK | internal/rag/evaluation/metrics.go:222-235 | 1 exactly when the top k holds a relevant result |
| Metrics.ReciprocalRank | internal/rag/evaluation/metrics.go:238-245 | the reciprocal of the first relevant position |
| Metrics.HitMeansRank | internal/rag/evaluation/metrics.go:222-245 | a hit in the top k is exactly a reciprocal rank of at least 1/k |
| Metrics.HitsBounded | internal/rag/evaluation/metrics.go:185-196 | distinct results cannot hit more often than there are relevant documents |
| Metrics.TopKBounds | internal/rag/evaluation/metrics.go:180-235 | precision, recall and hit rate are fractions; recall and hit rate do not fall as k grows |
| Metrics.DcgAtK | internal/rag/evaluation/metrics.go:260-275 | the discounted sum over the first min(k, length) results |
| Metrics.IdealDcgAtK | internal/rag/evaluation/metrics.go:278-290 | the discounted sum of a perfect head |
| Metrics.NdcgAtK | internal/rag/evaluation/metrics.go:248-257 | their quotient, 0 when nothing can be gained |
| Metrics.DcgAgainstIdeal | internal/rag/evaluation/metrics.go:260-290 | gain is greatest when the hits come first, with equality only then, for any decreasing discount |
| Metrics.DistinctHitsFit | internal/rag/evaluation/metrics.go:260-290 | distinct results never hold more hits than the ideal allows for |
| Metrics.NdcgBounds | internal/rag/evaluation/metrics.go:248-290 | while the hits are no more than the ideal allows for, NDCG is in [0, 1], and 1 exactly when the first min(k, number relevant) results are all relevant |
| Metrics.NdcgWithinOneExactlyWhen | internal/rag/evaluation/metrics.go:248-290 | NDCG is at most 1 for every discount exactly when the hits are no more than the ideal allows for |
| Metrics.RepeatedHeadExceedsOne | internal/rag/evaluation/metrics.go:248-275 | a head of more relevant results than there are relevant documents takes NDCG above 1 under every discount |
| Metrics.AveragePrecision | internal/rag/evaluation/metrics.go:293-310 | the precisions at the hits over the number of relevant documents |
| Metrics.PrecisionSumBounds | internal/rag/evaluation/metrics.go:299-307 | the sum is at most the number of hits, with equality exactly when the hits come first |
| Metrics.AverageBounds | internal/rag/evaluation/metrics.go:293-310 | for distinct results average precision is in [0, 1], and 1 exactly when every relevant document heads the list |
| Percentiles.Percentile | internal/rag/evaluation/metrics.go:327-347 | the interpolated value at the fractional position of the sorted list |
| Percentiles.SortIsUnique | internal/rag/evaluation/metrics.go:332-334 | any two ascending rearrangements of the same values are equal |
| Percentiles.PercentileIgnoresOrder | internal/rag/evaluation/metrics.go:327-347 | input order and sorting routine do not matter |
| Percentiles.InterpolateBetween | internal/rag/evaluation/metrics.go:336-346 | the interpolated value lies between its neighbours |
| Percentiles.InterpolateMonotone | internal/rag/evaluation/metrics.go:336-346 | interpolation does not fall along a sorted list |
| Percentiles.PercentileMonotone | internal/rag/evaluation/metrics.go:327-347 | a percentile does not fall as p grows |
| Percentiles.PercentileWithin | internal/rag/evaluation/metrics.go:327-347 | a percentile lies between the smallest and the largest value |
| Percentiles.PercentileEnds | internal/rag/evaluation/metrics.go:336-346 | p = 0 gives the smallest and p = 100 the largest value |
| Percentiles.PercentileOnLine | internal/rag/evaluation/metrics.go:336-346 | for 100i <= p(n - 1) <= 100(i + 1) the percentile lies on the line from the i-th to the next sorted value, (p(n - 1) - 100i) / 100 of the way |
| Evaluation.Mean | internal/rag/evaluation/metrics.go:313-324 | the arithmetic mean, 0 of nothing |
| Evaluation.ScoreQuery | internal/rag/evaluation/metrics.go:95-139 | one query's score by the metric's definition; recall only when something is relevant |
| Evaluation.AddQuery | internal/rag/evaluation/metrics.go:95-139 | every reported sum grows by that query's score and no other changes |
| Evaluation.HitsNest | internal/rag/evaluation/metrics.go:116-129 | a hit at any reported cut-off is a hit in the top ten |
| Evaluation.HasHit | internal/rag/evaluation/metrics.go:116-129 | the hit flag is the hit in the top ten |
| Evaluation.Calculate | internal/rag/evaluation/metrics.go:76-177 | each reported average is the mean of that metric over all queries, each under its own name, the latencies are the stated percentiles, and the counts are exact |
| Evaluation.MeanInUnit | internal/rag/evaluation/metrics.go:145-166 | every averaged metric is in [0, 1] when each query's results are distinct |
| Evaluation.SumsNest | internal/rag/evaluation/metrics.go:145-166 | averaged recall and hit rate do not fall from one cut-off to a larger one |
| Evaluation.LatencyOrder | internal/rag/evaluation/metrics.go:168-174 | median, 95th and 99th percentile are ordered |
| Hub.IsSubscribedToAny | internal/realtime/websocket.go:426-441 | true exactly for a client with no topics or one shared topic |
| Hub.NextKeepsInv | internal/realtime/websocket.go:237-283 | every atomic step of every goroutine keeps the hub's invariant: mapped clients have open channels, closed channels are unmapped, queues are within capacity and first in, first out |
| Hub.RunsKeepInv | internal/realtime/websocket.go:209-283 | so it holds after every interleaving of register, unregister, broadcast, topic send, ping, writing and stop |
| Hub.OnlyPingAfterStopPanics | internal/realtime/websocket.go:209-360 | no broadcast sends on a closed channel and no channel is closed twice; a step panics exactly when a ping is answered for a client Stop has closed |
| Hub.BeforeStop | internal/realtime/websocket.go:237-262 | until Stop closes the clients nothing panics and the gauge equals the size of the client map, bar the registration just being counted |
| Hub.GaugeAfterStop | internal/realtime/websocket.go:224-229 | in every run the gauge is the map's size plus the clients Stop closed |
| Hub.PingAfterStopPanics | internal/realtime/websocket.go:580-590 | a run of seven steps in which the send on a closed channel happens |
| Hub.DrainOneOk | internal/realtime/websocket.go:529-534 | a receive of the drain loop keeps the client's channel history consistent; it never waits, since no one else receives |
| HubDelivery.SendToAll | internal/realtime/websocket.go:267-280 | the loop over the client map gives each wanting client one offer and others none, in whatever order the map is walked, and then releases the lock |
| HubDelivery.BroadcastReachesAll | internal/realtime/websocket.go:267-280 | from any invariant state with the hub waiting and a message published, the begin step, the sends in any order and the end step offer the oldest published message once to every client mapped at the start and to no other; a full queue drops it; nothing else changes |
| HubDelivery.TopicsReachSubscribers | internal/realtime/websocket.go:340-360 | the same for a topic send: exactly the mapped clients with no topics or a shared one |
| HubDelivery.VisitsOnce | internal/realtime/websocket.go:268-280 | with the steps of all other goroutines in between, a sender visits nobody twice, those left to visit are those it began with less those visited, and the client map stands still |
| HubDelivery.BroadcastVisitsAll | internal/realtime/websocket.go:267-280 | so among any other steps a broadcast can end exactly when it has visited every client mapped when it began, each once, and no other |
| HubDelivery.VisitOffers | internal/realtime/websocket.go:269-279 | a visit offers the message to its client, if it wants it at that moment, and changes nobody else |
| HubDelivery.BroadcastsInOrder | internal/realtime/websocket.go:267-344 | in every run the published messages are those whose broadcast has begun, in order, and then those still waiting: none lost, repeated or overtaken |
| HubDelivery.JoinEffect | internal/realtime/websocket.go:243-252 | a client that connects is mapped and counted once, with its initial topics and an empty open channel, and nobody else notices |
| HubDelivery.LeaveEffect | internal/realtime/websocket.go:254-261 | a client whose reader ends is unmapped, its channel closed and the gauge lowered, exactly when it was still mapped |
| HubDelivery.StopEffect | internal/realtime/websocket.go:223-230 | Stop closes exactly the mapped clients and empties the map |
| HubDelivery.FinishedIsFinal | internal/realtime/websocket.go:237-241 | once the cancelled hub goroutine has ended, in every continuation nobody joins the map and nothing published is taken |
| HubDelivery.SubscriptionDecides | internal/realtime/websocket.go:443-455 | what a client takes after subscribing and after unsubscribing: without its last topic it takes everything again |
| HubDelivery.PingEffect | internal/realtime/websocket.go:579-589 | a ping on an open channel is answered to its own client, once, and to nobody else |
| HubDelivery.TurnWritesEverything | internal/realtime/websocket.go:516-538 | one turn of the writer writes the message in hand and the whole queue, in order |
| Hub.DeliveryIsFifo | internal/realtime/websocket.go:505-547 | in every run, for every client, written, lost, in hand and queued messages are, in this order, those enqueued, a subsequence of those offered; the drain loop never finds the queue empty |
| Hub.DropsOnlyWhenFull | internal/realtime/websocket.go:350-359 | an offered message is dropped only when the queue is at capacity |
| RateLimit.MemoryRateLimitStore.Increment | internal/api/middleware/ratelimit.go:90-109 | counts up in a live window and opens a new one after expiry |
| RateLimit.MemoryRateLimitStore.GetCount | internal/api/middleware/ratelimit.go:112-120 | the count of an unexpired window, else 0 |
| RateLimit.MemoryRateLimitStore.Cleanup | internal/api/middleware/ratelimit.go:128-142 | deletes exactly the expired entries, visiting keys in any order |
| RateLimit.Admit | internal/api/middleware/ratelimit.go:282-318 | admits exactly while the window's count is within the limit, and reports what remains |
| RateLimit.CountsAgree | internal/api/middleware/ratelimit.go:97-120 | the two counters agree except at exactly the expiry instant |
| RateLimit.CleaningIsInvisible | internal/api/middleware/ratelimit.go:128-142 | cleanup steps inserted anywhere in a run change no answer of either counter |
| RateLimit.AdmittedWithinAllowance | internal/api/middleware/ratelimit.go:282-318 | what an interval can still admit is bounded by its state at any moment, over every run |
| RateLimit.AtMostThePeak | internal/api/middleware/ratelimit.go:282-318 | in any closed interval of window length a key is admitted at most 2 * limit - 1 times, and at most the limit when the window has no length |
| RateLimit.PeakIsReached | internal/api/middleware/ratelimit.go:90-109 | for every limit and window some run reaches that bound |
| RateLimit.LimitKeptExactlyWhen | internal/api/middleware/ratelimit.go:282-318 | every run keeps every window-length interval within the limit exactly for limits of at most 1 or a window of no length |
| RateLimit.MessageLimiter.OnMessage | internal/realtime/websocket.go:484-497 | counts within a second, resets after it, and handles while the count is within the limit |
| RateLimit.ReaderBounded | internal/realtime/websocket.go:484-497 | at most 2 * MaxMessagesPerSecond messages handled in any half-open second, for limits of at least 1 |
| RateLimit.ReaderBoundExactlyWhen | internal/realtime/websocket.go:484-497 | every run keeps every second within twice the limit exactly for limits of at least 1, or seconds of no length |
| Memory.ReverseMessages | internal/agent/memory.go:296-299 | the rows are turned round in place |
| Memory.ConversationMemory.constructor | internal/agent/memory.go:104-116 | a new process starts consistent with whatever is stored |
| Memory.ConversationMemory.FetchStored | internal/agent/memory.go:247-299 | the newest n messages, oldest first |
| Memory.ConversationMemory.GetHistory | internal/agent/memory.go:210-315 | the last messages of the first layer that has any; keeps both caches suffixes of the log |
| Memory.ConversationMemory.HistoryIsSuffix | internal/agent/memory.go:210-315 | whichever layer answers, the history is a suffix of the log within the limit and ends with the latest message; it is the whole recent window exactly when that layer holds enough |
| Memory.ConversationMemory.SaveMessage | internal/agent/memory.go:318-386 | an accepted message extends the log and keeps both caches suffixes of it; a rejected one stays in memory and breaks that |
| Memory.RejectedIsForeign | internal/agent/memory.go:326-332 | a list with a message the log lacks at its end is no suffix of the log |
| Memory.ConversationMemory.ForgetCaches | internal/agent/memory.go:487-496 | both caches lose the conversation |
| Memory.ConversationMemory.Clear | internal/agent/memory.go:486-510 | the conversation is forgotten by both caches even when the database refuses, and the caches stay suffixes either way |
| Memory.ConversationMemory.ArchiveConversation | internal/agent/memory.go:513-529 | only the in-memory list is dropped |
| Memory.TokensOfSuffix | internal/agent/memory.go:425-440 | a longer suffix never has fewer tokens |
| Memory.FitToBudget | internal/agent/memory.go:428-442 | the backward loop returns the longest suffix whose tokens fit the budget |
| Memory.ConversationMemory.GetContextMessages | internal/agent/memory.go:414-443 | the longest suffix of the history that fits the budget |
| Fusion.Score | internal/rag/retriever.go:322-360 | one entry an id, holding the weighted sum of reciprocal ranks of all its occurrences in both lists and the content first seen |
| Fusion.Items | internal/rag/retriever.go:362-366 | the table's entries, each once, in any order |
| Fusion.SortedStaysDistinct | internal/rag/retriever.go:368-370 | rearranging keeps the ids distinct and loses none |
| Fusion.ReciprocalRankFusion | internal/rag/retriever.go:322-381 | min(topK, size of the union) chunks with distinct ids, each with its fused score, best first, and nothing left out scores more |
| Fusion.TopOfSorted | internal/rag/retriever.go:368-380 | a prefix of the sorted table has that property |
| Fusion.SingleScore | internal/rag/retriever.go:327-358 | in a duplicate-free list a chunk scores by its one rank |
| Fusion.ScoreTimesRank | internal/rag/retriever.go:334-347 | in a duplicate-free list the score times k + rank + 1 is the weight |
| Fusion.NoWorseInOneList | internal/rag/retriever.go:327-358 | within a list, standing no later means scoring no less |
| Fusion.FusionRespectsRanks | internal/rag/retriever.go:322-360 | a chunk ranked at least as well as another in both lists never gets a lower fused score |
| Fusion.FusionPrefersBetterRanks | internal/rag/retriever.go:322-360 | for positive weights, one ranked no worse in both lists and better in one where it stands gets a strictly higher fused score |
| ContextBuilder.CountShared | internal/rag/context_builder.go:355-360 | the size of the intersection, whichever order a set is walked in |
| ContextBuilder.JaccardSimilarity | internal/rag/context_builder.go:340-370 | shared over united words, 0 for two texts without words |
| ContextBuilder.JaccardSymmetric | internal/rag/context_builder.go:340-370 | similarity does not depend on the order of the texts |
| ContextBuilder.JaccardBounds | internal/rag/context_builder.go:340-370 | similarity is in [0, 1], and 1 exactly for equal, non-empty word sets |
| ContextBuilder.RepeatsAreSimilar | internal/rag/context_builder.go:333-337 | an exact repeat counts as a duplicate exactly when it has words |
| ContextBuilder.HasDuplicate | internal/rag/context_builder.go:294-305 | true exactly when some kept content is similar enough, in any order of comparison |
| ContextBuilder.DeduplicateChunks | internal/rag/context_builder.go:282-322 | the kept chunks are a subsequence, pairwise below the threshold, and every dropped chunk is similar to an earlier kept one |
| ContextBuilder.DeduplicationIsUnique | internal/rag/context_builder.go:282-322 | the outcome is the same whatever order the contents seen are compared in |
| ContextBuilder.Pack | internal/rag/context_builder.go:143-189 | includes chunks up to the first that fails its test, with text, count, truncation and citations to match |
| ContextBuilder.CountCoversText | internal/rag/context_builder.go:146-171 | the running count never understates the tokens of the text built |
| ContextBuilder.IncludedTests | internal/rag/context_builder.go:148-157 | every included chunk passed its test and the first left out failed it |
| ContextBuilder.OvershootBounded | internal/rag/context_builder.go:146-171 | text tokens are at most the count, which is at most the budget plus one separator |
| ContextBuilder.OvershootExactlyWhen | internal/rag/context_builder.go:148-163 | a build's count exceeds its budget exactly when the last chunk included fits without the separator before it but not with it |
| ContextBuilder.SomeBuildOvershoots | internal/rag/context_builder.go:108-189 | the failing family: a chunk with text and a less similar blank one, which share no word and so are both kept |
| ContextBuilder.BudgetKeptExactlyWhen | internal/rag/context_builder.go:108-189 | no build exceeds its budget, whatever its chunks and options, exactly when there is no separator or deduplication takes everything for a duplicate |
| ContextBuilder.NoBuilderKeepsEveryBudget | internal/rag/context_builder.go:84-189 | a constructed builder keeps every budget exactly when it deduplicates below a negative threshold |
| ContextBuilder.Build | internal/rag/context_builder.go:108-206 | the included chunks are a prefix of the sorted, deduplicated ones; included plus truncated is what was kept; citations are parallel and numbered from 1; the count is within the budget plus one separator |

## Assumptions

- Numbers are mathematical: floats are reals, integers unbounded, times integers; within a run times do not decrease.
- Strings are sequences of characters, where the service counts bytes for text lengths and positions.
- The cache key function is injective; library sorts return a descending (or ascending) rearrangement; the base-2
  logarithm is positive and increasing from 2 on.
- What the patterns match, what the tokenizer encodes, what JSON decodes to, how a chunk is laid out in a prompt and
  how content is normalised are function or list parameters; only the properties named in a `requires` are used.
- Replies of the embedding service, the language model and the tools are scripted by functions of the attempt number;
  an embedding is never nil. Whether a database call succeeds is a parameter of the operation; Redis always works.
- Messages of a conversation are stored in the order they are saved.
- `MaxBatchSize` is at least 1 (0 would loop for ever), `OverlapTokens`, the cache's maximum size, the history limit,
  the fusion constant and top K are not negative, and percentiles are asked for p in [0, 100].
- Each operation of the conversation memory is one step. In the service a `SaveMessage` may fall between the query of
  `GetHistory` and its write to the in-memory list (`internal/agent/memory.go:256-312`); the list then misses that
  message and is no suffix of the log.
- Only where a property says so, the tokenizer decodes the last tokens of a text to the end of that text.
- Every prompt layout shows a chunk's content, and blank content has no words.
- Steps of the hub's goroutines are atomic where the code holds the lock or performs one channel operation.

## Left out

- Embedder.OpenAIEmbedder.EmbedBatch: concurrent callers sharing one cache are not modelled, each call runs alone.
- SearchQuery.Search: the statement is an abstract syntax tree, not SQL text; ORDER BY direction and row scanning are not modelled.
- Splitters.SplitSentences: what the pattern engine matches is a parameter; that it matches every end of sentence is not claimed.
- Chunker.ChunkText: chunk ids, copied metadata and the start and end character offsets are carried but nothing is claimed about them; the code's own offsets are approximate.
- Hub.NextKeepsInv: the capacity of the broadcast channel and a send queue of capacity 0 are not modelled; JSON framing, deadlines and pings from the server appear only as a writer that may exit at any time.
- RateLimit.Admit: client identification, headers other than the remaining count, and the Redis store are not modelled.
- Memory.ConversationMemory.GetHistory: JSON encoding in Redis and its errors are not modelled.
- Fusion.ReciprocalRankFusion: chunk fields other than id, content and similarity are not modelled.
- Anthropic message conversion, prompt injection of tool descriptions, titles, citation and context formatting: string building over library types.
- `Save`, `Summarize`, `ListConversations`, `GetConversation`, the query embedding cache and the mock embedder: thin wrappers.
- Upsert, delete and scanning of vectors, object storage, Postgres, Redis and NATS clients: library plumbing.
- Crawlers, PDF processing, HTML capture, image handling, real-time change detection and its worker, HTTP handlers, configuration, logging, the search tools and the web front end.
