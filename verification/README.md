# A verified model of pep-oracle

pep-oracle answers questions about a podcast from a versioned corpus of transcript chunks. It
serves that corpus behind an OAuth provider, ranks chunks by a fusion of embeddings and BM25, and
grows the corpus by transcribing, diarizing and chunking new episodes. This project models that
logic in Dafny and proves what each part is there for. `dafny verify dfyconfig.toml` checks all of it.

The parts, each with a simple specification and a form that follows the program:

* **OAuth tokens.** `TokenStore` is the abstract store. `OAuthBackends` holds the SQLite and the
  DynamoDB store as classes over their own tables, and proves both against it. `OAuthProtocol` is a
  step machine: one program counter per request, any number of requests in any number of containers,
  one atomic store operation per step, and a record of what happened. `OAuthSafety`,
  `OAuthInvariant` and `OAuthTheorems` prove the invariant and what follows from it for every run,
  `OAuthLives` what one request can do over its whole life. `OAuthHandlers` proves the sequential
  exchange, refresh and revocation handlers over both stores and shows that all three are runs of the
  machine. `OAuthReuse` is about reuse detection, `OAuthAccepts` about which presented tokens resolve
  to which rows, and `OAuthSequences` shows that both stores give the same answers to every sequence
  of operations.
* **The corpus artifact.** `Frames` proves the two binary sidecar frames down to the byte,
  `Artifact` what a reader accepts, `Publishing` the write-then-flip protocol with crashes and lost
  sidecar writes between the gets of any number of readers, `RoundTrip` that a load gives back what
  was published, and `Overlap` exactly when overlapping publishers can make a reader raise.
  `Freshness` and `Serving` prove the serving cache with its time to live, `Visits` places its calls
  anywhere in a run of the publishing machine, and `Liveness` shows that every one of them answers.
* **Ranking.** `Tokens` and `Bm25` prove text normalisation and the index, `Bm25Laws` what scores are
  in numbers and which document scores more, `Fusion` reciprocal rank fusion, `Retrieval` the search
  and its cache, `SearchOrder` the order of its hits, `Temporal` the selection by intent. `Dates`
  shows that the text order of days is their order.
* **Ingest.** `TimeChunks`, `WordChunks`, `WordSplit`, `Speech` and `Chunking` are the chunker, `Diarize` and
  `SpeakerNames` speaker assignment, `Ingest` the incremental run. `Transcripts` holds their data.
* `Ordering`, `Vectors`, `Decimal` and `Options` are shared helpers: stable sorting as Python's
  `sorted` does it, the cosine of two vectors, decimal numerals, and values that may be absent.

Assumptions, all stated as preconditions or by the choice of types:

* Random tokens, codes and family ids never collide with each other or with older values. The digest
  of a token is a symbolic constructor, so it is injective. A run may start from rows written before
  digests were introduced, at most one of them live in a named family. The empty family is excluded
  from family claims, because legacy rows share it.
* `Artifact.Good`: on the corpora and index states that occur, compression and JSON give back what
  was put in and the parquet digest does not collide. A parquet object is its rows.
* Times, scores and vectors are reals. The logarithm, the recency power, the square root and the
  value of a float32 pattern are parameters with just the facts used (`Bm25.LogLike`, `Temporal.Decays`,
  `Temporal.Powers`, `Vectors.SquareRoot`).
* The clock of one process does not run backwards; calls within one process follow each other.

Where the code and its documentation differ, the model follows the code: `_find_pause_boundary` takes
the largest positive pause, although its comment and `PAUSE_THRESHOLD_SECONDS` speak of pauses over
two seconds, and it returns the first segment after the cut, not the last before it; the comment on
reuse detection names section 4.13.2 of RFC 9700, while refresh rotation is in section 4.14.2.

Properties that the code does not meet on all inputs are stated with the exact condition, and an
input or a run that breaks them:

* Detected reuse ends a family for good if and only if no rotation of it is between revoking the old
  token and storing the new one (`OAuthReuse.ReuseEndsTheFamilyExactlyWhen`). Otherwise a live
  token appears after the family was revoked (`OAuthReuse.EscapingRun`, from a lawful start). With
  other requests between its row updates, see `OAuthReuse.SweptFamilyHasEndedExactlyWhen`.
* Only the token that was handed out is accepted for a row if and only if the row was written before
  digests were (`OAuthAccepts.OnlyIssuedTextExactlyWhen`). For the others the fallback for such rows
  also takes the stored digest (`OAuthAccepts.StoredDigestIsAccepted`, from a lawful start).
* Runs and readers under way can make a reader raise the digest mismatch if and only if a digest
  wanted under some version meets another one there (`Overlap.RaisesExactlyWhenClash`). A starting
  run brings that about exactly when another run, a reader or the pointer has its version with
  another digest (`Overlap.StartClashesExactlyWhen`). From a lawful start with one publisher, two
  overlapping runs can leave every later load raising (`Overlap.OverlapCanBreak`, `Overlap.BrokenForever`).
* Normalising and tokenising commute if and only if no number token that the table changes touches
  an underscore (`Tokens.NormalizeIsTokenMapExactlyWhen`; `Tokens.UnderscoreHidesNumbers`).
* The single SQLite UPDATE agrees with the two-key conditional update if and only if not both keys are
  live (`OAuthBackends.SqliteRevokeAgrees`), and no sequence of operations makes both live
  (`OAuthSequences.NeverAmbiguous`).
* A reloaded corpus is checked against its own manifest if and only if the rows current at its two
  pointer reads are the same (`Serving.ValidatedAgainstItsManifest`).
* A rerun is a no-op if and only if every new number was reached (`Ingest.RerunIsANoOpExactlyWhen`).
* Labelled clusters are a prefix if and only if there is a name or one substantive cluster
  (`SpeakerNames.LabelledArePrefixExactlyWhen`), and two clusters share a name if and only if the
  roster is ambiguous (`SpeakerNames.NamesDifferExactlyWhen`).
* A candidate can pass the semantic winner if and only if there are enough candidates for its rank
  (`Fusion.CanPassExactlyWhen`).

## Model

| member | source | states |
|---|---|---|
| OAuthBackends.SqliteRevokeAgrees | src/pep_oracle/oauth_store.py:240-250 | One UPDATE over the digest and the plain key does what the two-key conditional update does, exactly when not both keys are live |
| OAuthBackends.SqliteStore.PutAuthCode | src/pep_oracle/oauth_store.py:176-187 | A code is inserted once; a second insert of the same code fails and changes nothing |
| OAuthBackends.SqliteStore.PopAuthCode | src/pep_oracle/oauth_store.py:189-204 | Delete-and-return takes the code out of the store whatever it returns, and returns it only before it expires |
| OAuthBackends.SqliteStore.GetRefresh | src/pep_oracle/oauth_store.py:219-238 | Lookup by digest, then by plain token |
| OAuthBackends.SqliteStore.RevokeRefresh | src/pep_oracle/oauth_store.py:240-250 | Only the call that flips the one active row reports success |
| OAuthBackends.SqliteStore.RevokeFamily | src/pep_oracle/oauth_store.py:252-260 | All rows of a named family, none for the empty family |
| OAuthBackends.HoldsUnique | src/pep_oracle/oauth_store.py:309-404 | The single-table layout stands for at most one abstract store |
| OAuthBackends.MarkedFamily | src/pep_oracle/oauth_store.py:426-446 | Marking every member of the family index, in any order, is the abstract family revocation |
| OAuthBackends.DynamoDbStore.PopAuthCode | src/pep_oracle/oauth_store.py:349-369 | The delete with its old value refines the same abstract pop |
| OAuthBackends.DynamoDbStore.PutRefresh | src/pep_oracle/oauth_store.py:372-387 | The row goes under the digest, and an empty family is left out of the item |
| OAuthBackends.DynamoDbStore.RevokeRefresh | src/pep_oracle/oauth_store.py:406-424 | The conditional update over two keys refines the abstract revocation |
| OAuthBackends.DynamoDbStore.RevokeFamily | src/pep_oracle/oauth_store.py:426-446 | The paged loop reaches every member for any split into pages, and does nothing for the empty family |
| OAuthSafety.NeverAmbiguous | src/pep_oracle/oauth_store.py:25-35 | In a state with lawful keys no presented token names both a digest row and a plain row |
| OAuthSafety.NextGrows | src/pep_oracle/oauth.py:374-449 | No step of any request takes back a row, a revocation, a code record or an approval |
| OAuthInvariant.NextKeepsInv | src/pep_oracle/oauth.py:318-497 | Every step of every interleaving keeps the protocol invariant |
| OAuthInvariant.RunKeepsInv | src/pep_oracle/oauth.py:318-497 | Every run from a lawful state keeps it |
| OAuthInvariant.WonRow | src/pep_oracle/oauth.py:426-434 | The row a rotation wins is the live end of its chain, carries the client and family that were checked, and belongs to no other request |
| OAuthTheorems.OneLiveTokenPerFamily | src/pep_oracle/oauth.py:403-434 | In every reachable state, live tokens of a named family plus rotations between revoking and storing are at most one |
| OAuthTheorems.FamiliesAreLinear | src/pep_oracle/oauth.py:183-203 | The tokens of a family form one line, each issued by rotating the one before; none is rotated twice |
| OAuthTheorems.NothingComesBack | src/pep_oracle/oauth_store.py:240-260 | Over any run a revoked row stays revoked and keeps client, family and expiry; a taken code stays taken by its one taker |
| OAuthTheorems.NextStaysDead | src/pep_oracle/oauth.py:403-434 | No step revives a family without a live token and without a rotation under way |
| OAuthTheorems.DeadFamiliesStayDead | src/pep_oracle/oauth.py:403-434 | A dead family stays dead in every continuation |
| OAuthTheorems.WhoRevokes | src/pep_oracle/oauth.py:410-449 | A row becomes revoked only by its own rotation, by a revocation request for it, or by a family revocation of its family |
| OAuthLives.OnlyReuseRevokesAFamily | src/pep_oracle/oauth.py:410-419 | Over any run, a request whose family revocation changes a row had presented a token of that family and had read it as revoked |
| OAuthLives.RaceLosersChangeNothing | src/pep_oracle/oauth.py:426-430 | Over any run, a refresh request that passes its checks and ends refused changes nothing in its whole life |
| OAuthTheorems.TokensComeFromCodes | src/pep_oracle/oauth.py:383-401 | Every token traces back to one code, taken once, unexpired, whose client, redirect URI and challenge matched; families never share a code and keep its client |
| OAuthTheorems.GatedCodesWereSigned | src/pep_oracle/oauth.py:453-497 | In every run of a gated deployment every code ever issued comes from an identity-verified, unexpired login state that the deployment signed for that very client, redirect URI and challenge |
| OAuthTheorems.CodesAreForRegisteredClients | src/pep_oracle/oauth.py:345-371 | In every run of any deployment codes are only issued to registered clients, for a redirect URI of theirs that was asked for |
| OAuthTheorems.LoginsExpireInTenMinutes | src/pep_oracle/oauth.py:128-174 | In every run, ten minutes after a login state was signed a callback with it is refused and changes nothing else, whoever presents it |
| OAuthTheorems.CodeStepIssues | src/pep_oracle/oauth.py:223-233 | A code is issued for the client, redirect URI and challenge approved, for sixty seconds, and nothing else is added |
| OAuthTheorems.CodesExpireWithinAMinute | src/pep_oracle/oauth.py:223-233 | In every run a code issued before is unusable a minute later |
| OAuthHandlers.ExchangeGrant | src/pep_oracle/oauth.py:383-401 | The exchange handler over the DynamoDB store is its specification, refusal by refusal, with a clock reading of its own for the check and for the new token |
| OAuthHandlers.SqliteExchangeGrant | src/pep_oracle/oauth.py:383-401 | The same over the SQLite store |
| OAuthHandlers.RefreshGrant | src/pep_oracle/oauth.py:403-434 | The refresh handler over the DynamoDB store is its specification, refusal by refusal, with two clock readings |
| OAuthHandlers.SqliteRefreshGrant | src/pep_oracle/oauth.py:403-434 | The same over the SQLite store, where the presented token is not ambiguous |
| OAuthHandlers.RevokeToken | src/pep_oracle/oauth.py:438-449 | The revocation handler over the DynamoDB store is its specification |
| OAuthHandlers.SqliteRevokeToken | src/pep_oracle/oauth.py:438-449 | The same over the SQLite store |
| OAuthSequences.SqlitePerform | src/pep_oracle/oauth_store.py:147-260 | Each SQLite operation does what its statements allow: a failing second insert, either row of a SELECT over two keys, one UPDATE over both |
| OAuthSequences.DynamoDbPerform | src/pep_oracle/oauth_store.py:309-446 | Each DynamoDB operation does what the abstract store does |
| OAuthSequences.BackendsAgree | src/pep_oracle/oauth_store.py:147-446 | From a lawful store and with fresh values, every sequence of operations, reads included, ends in the same state and gives the same answers on both backends |
| OAuthSequences.NeverAmbiguous | src/pep_oracle/oauth_store.py:219-250 | Along every such sequence no presented token ever names two rows |
| TokenStore.PutThenGet | src/pep_oracle/oauth_store.py:147-238 | In the abstract store that both backends refine, what was put is what is read, under its key and no other, a code only before it expires |
| OAuthHandlers.ExchangeIsARun | src/pep_oracle/oauth.py:383-401 | The sequential exchange handler is a run of the step machine with no other request in between and time passing before the token is stored; it ends well exactly when a token is issued, and then has founded the family, whose chain starts with the token handed out |
| OAuthHandlers.ExchangeIssuesExactlyWhen | src/pep_oracle/oauth.py:383-401 | A token is issued exactly when the code is there, unexpired, and was issued for the client, redirect URI and verifier presented, and each refusal has its exact condition; the code is gone in any case, and the token handed out is found as the only new row, live, for thirty days |
| OAuthHandlers.CodesAreExchangedOnce | src/pep_oracle/oauth.py:388-391 | In every continuation a taken code is refused to anyone |
| OAuthHandlers.ExchangeFoundsAFamily | src/pep_oracle/oauth.py:383-401 | In every reachable state what the exchange issues is the one live token of a family that goes back to the code presented, with its client and approval, and its client gets a successor for it for thirty days |
| OAuthHandlers.RefreshIsARun | src/pep_oracle/oauth.py:403-434 | The sequential refresh handler is a run of the step machine with no other request in between and time passing before its last steps; it ends well exactly when a token is issued, and then the token handed out is recorded as the successor of the row presented |
| OAuthHandlers.RefreshIssuesExactlyWhen | src/pep_oracle/oauth.py:403-434 | A token is issued exactly when the one presented resolves to a row that is unrevoked, unexpired and of the presented client; each refusal has its exact condition, and only detected reuse changes the store, revoking exactly the rows of a named family |
| OAuthHandlers.RefreshHandsOutTheSuccessor | src/pep_oracle/oauth.py:403-434 | The token handed out is the new one: it resolves to the only row added, live, of the same client and family, for thirty days; the row presented is revoked and no other changes |
| OAuthHandlers.RefreshContinuesTheFamily | src/pep_oracle/oauth.py:403-434 | In every reachable state the token handed out is the one live token of its family; its client gets a successor for it until it expires, and the token it replaced is detected as reused |
| OAuthHandlers.RevokeIsARun | src/pep_oracle/oauth.py:438-449 | The sequential revocation handler is a run of the step machine and always ends well |
| OAuthReuse.ReuseEndsTheFamilyExactlyWhen | src/pep_oracle/oauth.py:410-434 | Presenting a rotated token leaves its family dead in every continuation, and no token of it live ever again, if and only if no rotation of it is under way; other families are untouched, and other requests do not matter |
| OAuthReuse.SweptFamilyHasEndedExactlyWhen | src/pep_oracle/oauth.py:410-434 | Revoking the family row by row, interleaved with any other requests, revokes every row it had; it has then ended for good if and only if no rotation of it is under way and no successor stored meanwhile is live |
| OAuthReuse.SweepEndsTheFamily | src/pep_oracle/oauth.py:410-434 | Once every row is revoked, with no rotation of the family under way at any moment in between, it is dead in every continuation |
| OAuthReuse.EscapingRun | src/pep_oracle/oauth.py:410-434 | From a lawful start there is a run in which a live token appears in a family after it was revoked for reuse |
| OAuthAccepts.ResolvesExactlyWhen | src/pep_oracle/oauth_store.py:219-238 | In every reachable state a presented token resolves to a row if and only if it is the token handed out for it or its stored key |
| OAuthAccepts.OnlyIssuedTextExactlyWhen | src/pep_oracle/oauth_store.py:25-35 | A row accepts only the token handed out for it if and only if it was written under its text |
| OAuthAccepts.StoredKeyActsAsToken | src/pep_oracle/oauth_store.py:219-250 | To the refresh and the revocation the stored key is as good as the token, in every reachable state |
| OAuthAccepts.StoredDigestIsAccepted | src/pep_oracle/oauth_store.py:219-238 | After one rotation from a lawful start the new row is found under its stored digest |
| OAuthHandlers.RevokeTouchesOneRow | src/pep_oracle/oauth.py:438-449 | Revocation revokes the presented token's row and changes no other row, code or client |
| Frames.LittleEndianRoundTrip | src/pep_oracle/corpus.py:90-99 | A number that fits its field is read back from its bytes |
| Frames.EmbeddingsRoundTrip | src/pep_oracle/corpus.py:117-146 | A serialised matrix is read back exactly under the same digest and rejected under any other |
| Frames.EmbeddingsAcceptance | src/pep_oracle/corpus.py:130-146 | An accepted frame has the header length, the magic, the digest, and a payload of rows times dims times four bytes |
| Frames.TextRoundTrip | src/pep_oracle/corpus.py:90-114 | The index frame gives back its JSON text |
| Artifact.IndexRoundTrip | src/pep_oracle/corpus.py:90-114 | A saved index state is restored exactly under the same digest and chunk count and rejected otherwise |
| Artifact.AcceptedIndexIsRebuilt | src/pep_oracle/corpus.py:102-114 | An accepted index belongs to the served rows and equals a rebuild over them |
| Artifact.AcceptedMatrixIsDecoded | src/pep_oracle/corpus.py:130-174 | An accepted matrix equals what the served parquet's own column decodes to |
| Artifact.UniformReshape | src/pep_oracle/corpus.py:336-352 | Rows of one width survive flattening and reshaping |
| Publishing.ReadersNeverMixRows | src/pep_oracle/corpus.py:360-383 | With any number of overlapping publishers a successful load serves only the rows whose digest it read |
| Publishing.SoloRuns | src/pep_oracle/corpus.py:204-259 | With one publisher that may crash or lose sidecars at any point, the store invariant holds over every run |
| Publishing.ReadersGetTheCurrentVersion | src/pep_oracle/corpus.py:360-383 | With one publisher a load interleaved get by get returns the rows of the version current when it read the pointer, and never sees a missing object or another digest; it has loaded exactly after its fourth get if the vectors form a matrix, and failed exactly after its third if not |
| Publishing.VersionsOnlyGrow | src/pep_oracle/corpus.py:229-259 | Published versions are never withdrawn or rewritten and the current version never goes down |
| RoundTrip.PublishLeaves | src/pep_oracle/corpus.py:204-259 | An undisturbed run leaves rows, manifest, pointer and each sidecar that is not lost or unserialisable, and touches no other object |
| RoundTrip.PublishThenLoad | src/pep_oracle/corpus.py:204-383 | A load after it gives the published rows back under the new version, with the index built over them and the matrix from its sidecar, whichever sidecars are lost and whatever earlier runs left in the store |
| Overlap.RaisesExactlyWhenClash | src/pep_oracle/corpus.py:204-259 | What is under way can make a reader raise the digest mismatch if and only if a digest wanted under some version meets another one there |
| Overlap.TwoRunsBreak | src/pep_oracle/corpus.py:204-259 | Two runs at one version with different digests break the pointer from every pair of stages |
| Overlap.StartClashesExactlyWhen | src/pep_oracle/ingest_artifact.py:118-130 | A starting run brings a clash about exactly when a run, a reader or the pointer has its version with another digest |
| Overlap.IncompatibleStartCanRaise | src/pep_oracle/ingest_artifact.py:118-130 | So after a start some reader can raise if and only if the run was incompatible |
| Overlap.CompatibleRunsNeverRaise | src/pep_oracle/corpus.py:360-383 | With any number of publishers whose runs are compatible at their starts no reader ever raises the mismatch |
| Overlap.SoloNeverClashes | src/pep_oracle/corpus.py:204-259 | One publisher never clashes |
| Overlap.BrokenForever | src/pep_oracle/corpus.py:360-383 | Once the pointer is broken and the publishers are gone, every later load raises |
| Overlap.OverlapCanBreak | src/pep_oracle/ingest_artifact.py:118-130 | From a lawful deployment two overlapping runs lead there |
| Overlap.AssumptionsCanHold | src/pep_oracle/corpus.py:204-259 | The assumptions can be met together by an environment with two corpora and a deployment whose one publisher publishes the second |
| Freshness.AnswersAreFresh | src/pep_oracle/corpus.py:430-459 | Every cached answer was loaded by a call and seen as current by this call or one less than the time to live ago |
| Freshness.AnswersExactlyWhen | src/pep_oracle/corpus.py:430-459 | A call answers if and only if it comes within its time to live after the last asking, or its pointer get succeeds and names the held version, or its pointer get and its reload succeed; in the first two cases with the last answer, in the third with the loaded corpus |
| Freshness.AnswersWithoutAsking | src/pep_oracle/corpus.py:433-443 | After a call that asked and answered, every call less than its time to live later answers with the held corpus, whatever its gets would give |
| Liveness.EveryCallAnswers | src/pep_oracle/corpus.py:395-459 | In every run with one publisher whose corpora have the expected model and width, every call of a process answers, wherever its gets fall and whatever crashes |
| Serving.ServingCache.CurrentCorpus | src/pep_oracle/corpus.py:430-459 | The cache method is its specification; a call that raises leaves the cache unchanged |
| Serving.AnswersAreFresh | src/pep_oracle/corpus.py:421-459 | Interleaved with one publisher, every answer holds, whole, the rows published under its version, and that version was current at a get of this call or one less than the time to live ago |
| Serving.VersionsNeverGoDown | src/pep_oracle/corpus.py:430-459 | Versions returned by later calls are never lower |
| Serving.ValidatedAgainstItsManifest | src/pep_oracle/corpus.py:395-412 | A reloaded corpus has the width of the manifest it was checked against and the expected model, and that manifest is its own if and only if the rows current at the two pointer reads are the same |
| Visits.RunsAreSequential | src/pep_oracle/corpus.py:430-459 | Wherever the gets of a process fall among the steps of one publisher's run, its calls are in order as soon as its clock does not run backwards |
| Visits.RunsAnswerFresh | src/pep_oracle/corpus.py:430-459 | Bounded staleness, whole rows included, in every run of the publishing machine |
| Tokens.NormalizeIsTokenMapExactlyWhen | src/pep_oracle/lexical.py:59-71 | On ASCII text normalise-then-tokenise is tokenise-then-map if and only if no token that the number table changes touches an underscore |
| Tokens.NormalizeByIsTokenMap | src/pep_oracle/lexical.py:59-71 | So it always is on ASCII text without underscores, for any table of number words |
| Tokens.TokenWordsIdempotent | src/pep_oracle/lexical.py:63-71 | The token map is idempotent |
| Tokens.NormalizeIsTokenMap | src/pep_oracle/lexical.py:63-71 | Two texts without hidden numerals normalise to the same tokens exactly when their tokens agree up to the digit or word form of 0 to 20 |
| Tokens.NumeralsBecomeWords | src/pep_oracle/lexical.py:28-71 | The numerals from 0 to 20 become their words; those words and all larger numerals stay as they are |
| Tokens.UnderscoreHidesNumbers | src/pep_oracle/lexical.py:59-71 | The text a_2 keeps its numeral under normalisation and has it as a token |
| Bm25.BM25.constructor | src/pep_oracle/lexical.py:78-91 | The object built by the counting loops is the index of the specification |
| Bm25.BM25.ScoreAll | src/pep_oracle/lexical.py:93-112 | The nested scoring loops compute the score of every document |
| Bm25.CountTerms | src/pep_oracle/lexical.py:82-86 | The loop counts the total length and, for each term, the documents that hold it |
| Bm25.CountsSumToLength | src/pep_oracle/lexical.py:87-91 | The term counts of a document sum to its length |
| Bm25.LengthsSum | src/pep_oracle/lexical.py:79-82 | Document lengths sum to N times the average |
| Bm25.DocFreqCounts | src/pep_oracle/lexical.py:83-86 | Document frequency is the number of documents that hold the term |
| Bm25.IdfCountsHolders | src/pep_oracle/lexical.py:83-86 | The index has an idf exactly for held terms, taken at the number of holders |
| Bm25.ScoresAreTheFormula | src/pep_oracle/lexical.py:93-112 | Scores equal the formula by scanning tokens; zero exactly when no query token occurs, otherwise positive and below (k1 + 1) times the summed idf |
| Bm25Laws.TermWeight | src/pep_oracle/lexical.py:83-86 | A term held by h of n documents weighs ln((n + 1) / (h + 0.5)), with the values for one and for all holders written out |
| Bm25Laws.RarerTermWeighsMore | src/pep_oracle/lexical.py:83-86 | Of two terms of the vocabulary the one held by fewer documents weighs strictly more |
| Bm25Laws.OneTokenScore | src/pep_oracle/lexical.py:93-112 | The score for one token in numbers, from its holders, its occurrences and the document lengths, and 0 for a document without it |
| Bm25Laws.ScoresAdd | src/pep_oracle/lexical.py:101-111 | Scores add up over the tokens of a query |
| Bm25Laws.RarerScoresMore | src/pep_oracle/lexical.py:93-112 | Of two documents of one length, each holding its own query term equally often and no other, the one with the rarer term scores strictly more when the query does not repeat the other term more |
| Bm25Laws.MoreOccurrencesScoreMore | src/pep_oracle/lexical.py:93-112 | Of two documents of one length the one that holds the token more often scores strictly more |
| Bm25Laws.ShorterScoresMore | src/pep_oracle/lexical.py:93-112 | Of two documents that hold the token equally often the shorter one scores strictly more |
| Bm25.NumberFormsIndexAlike | src/pep_oracle/lexical.py:159-163 | Corpora that differ only in digit or word form of small numbers build the same index |
| Bm25.NumberFormsScoreAlike | src/pep_oracle/hybrid.py:159 | Queries that differ only in that way get the same scores over such corpora |
| Fusion.Rrf | src/pep_oracle/hybrid.py:96-103 | The nested accumulation loops give the keys, in first-met order, stably sorted by total score |
| Fusion.FusedPermutes | src/pep_oracle/hybrid.py:96-103 | Fusing two orders of the same candidates is a permutation of them |
| Fusion.FusedOrder | src/pep_oracle/hybrid.py:96-103 | One candidate precedes another exactly when its score is larger, or equal and it precedes semantically |
| Fusion.AheadInBothStaysAhead | src/pep_oracle/hybrid.py:96-103 | A candidate ahead in both orders stays ahead, for any weight from 0 to 1 |
| Fusion.FusedRankAtMostSum | src/pep_oracle/hybrid.py:96-103 | A fused rank is at most the semantic rank plus the BM25 rank |
| Fusion.WinnerBeatsTheTail | src/pep_oracle/hybrid.py:21-28 | With K = 60 and weights 0.8 and 0.2 nothing at semantic rank 21 or worse precedes the semantic winner |
| Fusion.WinnerInTop21 | src/pep_oracle/hybrid.py:21-28 | So the semantic winner keeps a fused rank of at most 20 |
| Fusion.CanPassExactlyWhen | src/pep_oracle/hybrid.py:21-28 | Some lexical order puts semantic rank r before the winner among n if and only if 241 r + 61 < n (61 - 3 r): from six candidates on for rank 1, from 4882 on for rank 20 |
| Retrieval.DateFilterKeepsTheDays | src/pep_oracle/hybrid.py:81-88 | The text comparison keeps exactly the chunks from the first day to the last |
| Retrieval.FlagsFold | src/pep_oracle/hybrid.py:89-92 | Two names share a speaker flag exactly when they agree up to case and space or underscore |
| Retrieval.FiltersCombine | src/pep_oracle/hybrid.py:81-93 | The filters narrow each other, and the episode filter keeps exactly its episodes, all if it names none |
| Retrieval.HybridCache.LoadCorpus | src/pep_oracle/hybrid.py:36-78 | The answer is what the cache then holds under its key, nothing else changes, and a cache of rebuilt entries stays one and answers with the rebuilt entry of the published rows |
| Retrieval.RankingsFollowScores | src/pep_oracle/hybrid.py:152-160 | The semantic order is by cosine and the lexical order by BM25 score of the normalised query, ties in corpus order |
| Retrieval.HitsAreCandidates | src/pep_oracle/hybrid.py:144-167 | Hits are different rows that pass the filter, at most top_k and as many as there are, at distance rank over number of candidates |
| Retrieval.BestMatchIsAHit | src/pep_oracle/hybrid.py:152-167 | With the shipped weights the most similar candidate is among the first 21 hits |
| SearchOrder.HitsWeighBothRankings | src/pep_oracle/hybrid.py:144-167 | With s and b the numbers of candidates ahead by similarity and by BM25 score, the hits are different candidates in order of w / (61 + s) + (1 - w) / (61 + b), ties by similarity, and all of them come before every candidate that is cut |
| SearchOrder.WeightZeroIsLexical | src/pep_oracle/hybrid.py:144-167 | At weight 0 the hits are in the order of their BM25 scores |
| SearchOrder.WeightOneIsSemantic | src/pep_oracle/hybrid.py:144-167 | At weight 1 they are in the order of their similarities |
| SearchOrder.SimilarityIsCosine | src/pep_oracle/hybrid.py:150-156 | The similarity of a row is the cosine of its vector and the query's, between -1 and 1, and 0 for a zero vector |
| SearchOrder.OwnVectorIsMostSimilar | src/pep_oracle/hybrid.py:150-156 | No row is more similar to a query than one with the query's own vector, whose similarity is 1 |
| SearchOrder.RebuiltFromRows | src/pep_oracle/hybrid.py:36-78 | A loaded entry holds the published rows whole and in order, the lengths of their vectors, and the index of their texts |
| Retrieval.LoadIsRebuilt | src/pep_oracle/hybrid.py:60-78 | A load through a lawful cache gives the entry that decoding and rebuilding gives, and keeps the cache lawful |
| Retrieval.SearchesAnswerFromTheRows | src/pep_oracle/hybrid.py:121-167 | For every sequence of calls with one publisher, through both caches and any stale sidecars, a search answers what a search answers that decodes the column of the rows published under the served version, rebuilds their index and caches nothing |
| Retrieval.RunsAnswerFromTheRows | src/pep_oracle/hybrid.py:121-167 | The same in every run of the publishing machine, wherever the calls of the process fall |
| Temporal.RecencyRange | src/pep_oracle/temporal.py:25-34 | Recency is in (0, 1], 1 exactly from today on, a half at one half-life |
| Temporal.RecencyDecays | src/pep_oracle/temporal.py:25-34 | An older date never scores more and, among past dates, scores strictly less |
| Temporal.RecencyHalves | src/pep_oracle/temporal.py:25-34 | What is no date counts nothing, and what is one half-life older counts half, over all past dates |
| Temporal.Evolution | src/pep_oracle/temporal.py:70-81 | The dictionary loop and the two sorts compute the capped selection |
| Temporal.SelectForIntent | src/pep_oracle/temporal.py:45-89 | `evolution` gives a best choice of at most two per episode, `current` the best by recency less distance, the rest the closest; as many as asked for, chronological exactly for evolution and prediction and then by date |
| Temporal.EvolutionIsOptimal | src/pep_oracle/temporal.py:70-81 | Against any choice with at most two per episode and at most top_k, the picked set is at least as large and its j-th closest at least as close, for every j |
| Temporal.EvolutionIsFeasible | src/pep_oracle/temporal.py:70-81 | The picked set is such a choice itself |
| Temporal.CappedMeans | src/pep_oracle/temporal.py:70-81 | The cap in the fields of a chunk: at most two with the same number other than 0, and at most two with the same date among those without one |
| Temporal.SelectionAnswers | src/pep_oracle/temporal.py:56-89 | The branch chain meets that promise for every intent, candidate list and top_k |
| Temporal.CurrentWeighsRecencyAgainstDistance | src/pep_oracle/temporal.py:60-68 | For `current`, whenever a chunk is selected, every candidate whose recency less its distance is larger is selected too and stands before it, and on equality the closer one |
| Temporal.CurrentPrefersNewer | src/pep_oracle/temporal.py:60-68 | At equal distance the newer of two chunks comes first, when the older is of the past |
| Temporal.FurtherPassesExactlyWhen | src/pep_oracle/temporal.py:60-68 | Of two selected chunks the further one comes first if and only if its gain in recency exceeds its loss in closeness |
| Temporal.CurrentPrefersCloserAndNewer | src/pep_oracle/temporal.py:60-68 | For `current` a chunk that is closer and no older comes before the other whenever that one is selected |
| Temporal.PredictionKeepsOldChunks | src/pep_oracle/temporal.py:83-89 | `prediction` keeps the same chunks as plain relevance |
| Dates.TextOrderIsDayOrder | src/pep_oracle/hybrid.py:84-88 | The text order of YYYY-MM-DD is the order of days |
| TimeChunks.FindPauseBoundary | src/pep_oracle/chunking.py:16-47 | The search loop finds the boundary of the specification |
| TimeChunks.BoundaryIsFirstLargestPause | src/pep_oracle/chunking.py:16-47 | The boundary is the first of the largest positive pauses in the window, or the target when there is none, and all indexing is in range |
| TimeChunks.ChunkByTime | src/pep_oracle/chunking.py:118-162 | The loops terminate and build one chunk per index range of the specification |
| TimeChunks.SpansChain | src/pep_oracle/chunking.py:125-160 | For any times, present or missing: chunks are not empty, starts strictly increase, each next start lies in (previous start, previous end], the first is 0 and the last end is the length |
| TimeChunks.ChunksEndWell | src/pep_oracle/chunking.py:118-150 | Every chunk ends in the quarter window, or within one segment, around the first segment 240 seconds on, at a cut whose pause no other there exceeds, or at the end of the transcript when there is no such segment |
| TimeChunks.EverySegmentIsInAChunk | src/pep_oracle/chunking.py:125-160 | Every segment is in some chunk |
| TimeChunks.EverySegmentIsTold | src/pep_oracle/chunking.py:98-160 | The words of every segment stand together in the text of some chunk |
| TimeChunks.EndsCanMoveBack | src/pep_oracle/chunking.py:125-160 | A chunk can lie wholly inside the one before it |
| TimeChunks.OverlapIsMaximal | src/pep_oracle/chunking.py:152-160 | A chunk repeats exactly the maximal run before the cut that starts within 30 seconds of it, never reaching the previous start |
| Speech.BuildSpeakerText | src/pep_oracle/chunking.py:50-63 | The loop labels exactly the segments whose named speaker differs from the one in force |
| Speech.LabelledText | src/pep_oracle/chunking.py:50-63 | The labelled text is the texts joined with the name in brackets before exactly those whose speaker changes, and absent when nobody is named |
| Speech.LabelsAttribute | src/pep_oracle/chunking.py:50-63 | The last label at or before a named segment names its speaker |
| Speech.BuildSpeakerTurns | src/pep_oracle/chunking.py:66-95 | The loop gives one turn per run of equal speakers with a speaker and a start time |
| Speech.TurnsAreTheRuns | src/pep_oracle/chunking.py:66-95 | For any segments, timed or not, there is exactly one turn, in order, for each run of equal speakers with a speaker and a start time; it ends where the next run starts, the last with the last segment, and where it started when that time is missing or 0 |
| Speech.TurnsTile | src/pep_oracle/chunking.py:66-95 | With speakers and nonzero start times throughout, turns abut, change speaker, and tile the chunk |
| Speech.MakeChunk | src/pep_oracle/chunking.py:98-115 | The words of a chunk's text are the words of its segments in order; it begins and ends with them, is labelled exactly when one names a speaker, and its turns tile it when all are timed |
| Speech.ChunkTells | src/pep_oracle/chunking.py:98-115 | The chunk of any segments keeps that promise |
| WordChunks.ChunkByWords | src/pep_oracle/chunking.py:165-197 | The loop terminates and builds one chunk per word range of the specification |
| WordSplit.WordsOfJoin | src/pep_oracle/chunking.py:169-181 | Splitting joined words gives the words |
| WordSplit.WordsOfTexts | src/pep_oracle/chunking.py:98-104 | The joined text of any segments has exactly their words, in order |
| WordChunks.ChunksRejoin | src/pep_oracle/chunking.py:165-197 | For every transcript, dropping the first 100 words of every later chunk text and concatenating gives the words of the transcript |
| WordChunks.ChunkSizes | src/pep_oracle/chunking.py:165-197 | For every transcript of n words: none, one, or 1 + ceil((n - 800) / 700) chunks; all but the last have 800 words, a later last one more than 100 |
| Transcripts.ChunkIdInjective | src/pep_oracle/chunking.py:105 | A chunk id determines its guid and index |
| Chunking.ChunkTranscript | src/pep_oracle/chunking.py:200-208 | Timed transcripts are chunked by time, others by words |
| Chunking.UntimedChunksRejoin | src/pep_oracle/chunking.py:200-208 | Whatever a transcript without times is chunked into, the chunk texts give its words back |
| Chunking.NoChunkExactlyWhenEmpty | src/pep_oracle/chunking.py:200-208 | No chunk comes out exactly when there is neither a start time nor a word |
| Chunking.ChunkIdsAreUnique | src/pep_oracle/chunking.py:105 | Chunk ids coincide exactly for the same guid and position |
| Ingest.NextVersionFollows | src/pep_oracle/ingest_artifact.py:36-38 | The version after v(n) is v(n + 1), past four digits as well |
| Ingest.LoadedRowsSurvive | src/pep_oracle/ingest_artifact.py:55-61 | Loading a corpus and taking its rows apart gives back the published rows |
| Ingest.SpeakerFilterFindsTurns | src/pep_oracle/store.py:49-66 | The speaker filter finds a chunk exactly when one of its turns is by that speaker, up to case |
| Ingest.IngestIncremental | src/pep_oracle/ingest_artifact.py:78-118 | The selection and the append loop give the old rows followed by the new episodes' rows, by number |
| Ingest.TakesExactlyTheNew | src/pep_oracle/ingest_artifact.py:79-96 | A run takes from the feed exactly the episodes whose guid no row has and, going newest-forward, only those numbered above every row |
| Ingest.NewRowsGoByNumber | src/pep_oracle/ingest_artifact.py:105 | The rows of one run go by episode number, whatever the order of the feed |
| Ingest.RowsCarryTheChunks | src/pep_oracle/ingest_artifact.py:105-116 | A row carries the id, text, number, day and guid of its chunk and the vector in its place, as many as there are of both |
| Ingest.IngestKeepsIds | src/pep_oracle/ingest_artifact.py:78-118 | A publish keeps the old rows as a prefix, raises the version by one, and keeps chunk ids unique |
| Ingest.RunsOnlyAppend | src/pep_oracle/ingest_artifact.py:64-137 | Over any sequence of runs of either mode, with failures, versions' rows are prefixes, ids stay unique, versions rise by one per publish |
| Ingest.RerunIsANoOpExactlyWhen | src/pep_oracle/ingest_artifact.py:82-98 | Rerunning newest-forward is a no-op exactly when every new episode's number was reached by one that produced a chunk |
| Diarize.AlignSpeakers | src/pep_oracle/transcripts/diarize.py:87-124 | The overlap loop labels each segment as specified and changes nothing else |
| Diarize.OverlapIsLongestShared | src/pep_oracle/transcripts/diarize.py:105-110 | An overlap is the length of the longest stretch that lies in both the segment and the turn, and 0 when there is none |
| Diarize.AlignedToFirstLargest | src/pep_oracle/transcripts/diarize.py:105-114 | A timed segment gets the label of the first turn of largest overlap, and none exactly when all overlaps are zero |
| Diarize.SpeakingTimes | src/pep_oracle/transcripts/diarize.py:275-279 | The loop gives the speaking time of every label |
| Diarize.SpeakingTimeIsConserved | src/pep_oracle/transcripts/diarize.py:275-279 | Label times sum to the durations of the turns |
| SpeakerNames.AssignSubstantiveSpeakers | src/pep_oracle/transcripts/diarize.py:165-197 | The naming loop gives each cluster its specified name |
| SpeakerNames.SubstantiveMeans | src/pep_oracle/transcripts/diarize.py:181-195 | A label is substantive exactly when it has 15 percent of the time of all, none when nobody speaks |
| SpeakerNames.AtMostSix | src/pep_oracle/transcripts/diarize.py:181-195 | At most six clusters hold 15 percent |
| SpeakerNames.NamesInOrder | src/pep_oracle/transcripts/diarize.py:185-196 | Closed form: the given names in time order, then Guest, Guest 2 and so on without gaps, then none |
| SpeakerNames.LabelledArePrefixExactlyWhen | src/pep_oracle/transcripts/diarize.py:185-196 | The labelled clusters are a prefix of the time order exactly when there is a name or no other substantive cluster |
| SpeakerNames.NamesDifferExactlyWhen | src/pep_oracle/transcripts/diarize.py:185-196 | Labelled clusters get different names if and only if the given names that are used differ and none of them is a guest label that is used |
| SpeakerNames.RosterNamesTurns | src/pep_oracle/transcripts/diarize.py:165-197 | Of any turns that do not end before they start: at most six substantive clusters, the closed form of the names, and no two alike for an unambiguous roster |
| SpeakerNames.AssignByVoice | src/pep_oracle/transcripts/diarize.py:200-233 | The voice loop gives each cluster its specified name |
| SpeakerNames.VoiceDistance | src/pep_oracle/transcripts/diarize.py:51-57 | The distance of two voices is between 0 and 2, the same both ways and for any scale, 0 for the same voice and 1 for a zero vector |
| SpeakerNames.GuestsAreSubstantive | src/pep_oracle/transcripts/diarize.py:224-232 | A guest is a cluster that matches no reference and has at least 15 percent of the time, and there is none without any time |
| SpeakerNames.MatchedWhenNear | src/pep_oracle/transcripts/diarize.py:217-227 | A cluster bears the first of its nearest references exactly when one is within 0.5 |
| SpeakerNames.VoiceGuestsHaveNoGaps | src/pep_oracle/transcripts/diarize.py:228-232 | Guest numbers run from 1 without gaps or repeats |
| SpeakerNames.MapSpeakerNames | src/pep_oracle/transcripts/diarize.py:236-272 | Voice references, then the roster, then generic labels; text and times are kept |
| SpeakerNames.NamedAfterLargestOverlap | src/pep_oracle/transcripts/diarize.py:320-335 | From turns to names by roster, whenever voice references or clusters are missing: a segment bears the name of the cluster whose turn overlaps it most |
| SpeakerNames.NamedByVoiceOfLargestOverlap | src/pep_oracle/transcripts/diarize.py:320-335 | By voice: it bears the voice name of that cluster, and none when its label is not among the clusters |
| SpeakerNames.SameNameSameCluster | src/pep_oracle/transcripts/diarize.py:320-335 | On that path, with an unambiguous roster, two segments bear the same name exactly when the same cluster overlaps both of them most |

## Left out

- OAuthBackends.SqliteStore.RevokeRefresh: a statement is atomic; connections and locks below a statement are not modelled.
- OAuthBackends.DynamoDbStore.RevokeFamily: the family index is complete when it is queried; index lag and items removed by their time to live are not modelled.
- Tokens.NormalizeIsTokenMapExactlyWhen: covers ASCII text; lower-casing and digits outside ASCII are not modelled.
- Retrieval.HitsAreCandidates: the display fields of a result that are copied from the metadata are carried as one value.
- Temporal.Evolution: a candidate may lack a field, but a date that is present and null is not modelled.
- Temporal.RecencyRange: only a positive half-life is covered; zero raises in the source for past dates, and a negative one would make older dates score more.
- Ingest.NextVersionFollows: numerals that `int` accepts beyond plain digits (signs, spaces, underscores) are not modelled.
- Publishing.ReadersGetTheCurrentVersion: a corpus whose vectors have different widths fails to load in both source and model; nothing is claimed about its contents.
- Access tokens, the signature of the login state, PKCE hashing, SHA-256, zstd and parquet are parameters or symbolic constructors, not implementations.
- Discovery, registration field checks, format checks of challenge and verifier and field lengths: single conditions with no state.
- Floating-point rounding: scores, distances and times are reals, so ties are exact ties.
- Threads racing inside `current_corpus`: calls within one process follow each other.
- The episode title pattern behind `host_roster_from_title` is a parameter (the roster), and so are transcription, diarization and embedding of an episode.
- Python's argsort-then-index in `hybrid_search` is written as one stable sort of the candidates.
- Evaluation metrics, timing logs, the command line, the MCP server, feed parsing and deployment configuration.
