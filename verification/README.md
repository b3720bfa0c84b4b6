# Verified model of compliary

A Dafny model of five parts of compliary whose guarantees rest on state, loops or
arithmetic, with proofs of those guarantees.

**OAuth grants** (`Grants`, `MemoryStore`, `TokenVerifier`, `GrantRuns`, `GrantSafety`,
`Eviction`, `PostgresGrants`, `PostgresStore`, `Recovered`, `RowInvariant`,
`Simulation`, `Divergence`, `RowRuns`, `RowOrigins`, `RowVerifier`, `RowProfiles`,
`SignIns`, `SplitRuns`, `Admission`, `Expiry`, `Interleaving`, `Serializability`,
`RowLocks`, `Commuting`, `LockOrder`, `ClientActivity`). Authorization codes, access
tokens and rotating refresh tokens in families, once as an in-memory store and once as
PostgreSQL transactions.
Whole-run safety is proved of the first: replay ends a family for good (section 4.14.2 of
RFC 9700), a code is used once (section 4.1.2 of RFC 6749), grants keep their origin, and
eviction cannot be observed. `RowRuns` proves of the rows, over every run of their own,
their invariant, the end of replayed families, the single use of codes and the cap on
clients; `RowOrigins` where their tokens come from; `RowProfiles` whom, with which e-mail,
lookups, renewals and rotation policies speak of; and `RowVerifier` what the bearer-token
check may rely on when other transactions run between its two calls. `Admission` and
`Expiry` write out who gets into both stores and what leaves them when. `Recovered` reads
the rows back as an in-memory store; `Simulation` proves that both stores answer every
comparable run alike, and `Divergence` characterises, one call at a time, when two stores
that match answer differently or stop matching; `SplitRuns` has a run from empty stores
for each cause. `Interleaving` and `Serializability` let the transactions' statements
interleave under row locks and prove every run serial in commit order and free of
deadlock; `RowLocks` says which rows a transaction holds; `LockOrder` and `ClientActivity` say how far the order of the first locks gives
the same rows.

**Parameter inserts** (`Searching`, `Rewriting`, `Inserts`, `Cycles`, `Malformed`). The
loop that rewrites the leftmost insert of the whole text ends exactly when no cycle of
parameter references is reachable, and then with the recursive substitution. At a
malformed insert it panics, or stops early, or takes all text up to the next closing
marker, further open markers included, as one id and goes on with what that leaves;
`Malformed` says which and where.

**Lexical retrieval** (`Tokens`, `Sums`, `Lexical`, `LexicalIndex`, `Bm25Laws`). The
tokenizer, BM25 training and the hashed sparse vectors, whose inner product is compared
with BM25, and the formula's own laws: how weights move with occurrences, length and
document frequency.

**Control trees and edges** (`Oscal`, `OscalTree`, `OscalLinks`, `OscalSources`, `Silver`,
`Stages`, `Freshness`, `Ancestors`, `Tcvn`). The OSCAL walk, the TCVN line partition, writing a
tree, rebuilding mapping edges, and what a document's freshness marker means over all runs
in which any statement may fail.

**Embedding batches and rank fusion** (`Packing`, `Shards`, `VectorStream`, `Fusion`,
`FusionLaws`, `FusionRanks`, `Assembly`). Packing under budgets, threads that fill result slots, the
permutation check on returned vectors, reciprocal rank fusion and the final hit list.

Objects that the program updates in place are classes whose methods are proved against
specification functions; the main results are lemmas about those functions.
`Collections` and `Reals` hold shared facts. `dafny verify dfyconfig.toml` checks everything.

## Reading the model

- Random strings and clock readings are arguments. Runs require ordered readings and
  strings that never repeat. PKCE and policies are arbitrary predicates. A credential
  stands for its own SHA-256 hash, taken to be injective.
- Where stores are compared, each operation takes one reading, and principals are
  compared by provider and subject.
- `Comparable` runs leave out the cases in which the stores really differ: a reading
  equal to an expiry; a live family's spent token presented by another client; a code for
  an unregistered client, without a challenge or for a blank provider or subject; and a
  rotation whose policy judges the principal of the sign-in, which the in-memory store
  keeps, unlike the identity's current profile, which the database joins. `Divergence`
  proves each an if-and-only-if.
- Interleaved transactions are serial in commit order. In the order of their first code
  or family locks they give the same replies and the same rows but for `oauth_client`: a
  client's last activity is written in the order of the client row's lock, which comes
  last. `ClientActivity` has the exact condition, and runs that fail it.
- Scores and weights are reals; the logarithm is any function positive above 1, the term
  hash any function.

Findings that the code's own comments do not mention:

- An insert whose two markers share one space, `{{ insert: param, }}`, makes
  `renderInserts` slice with crossed bounds; a label that inserts its own parameter makes
  it loop for ever.
- The comments on `MarkMapEdgesFresh` and its statement take a completed mapedges run to
  make every document's edges current. With ISO 27002 but no Annex A control in the
  corpus, the run is complete and ISO 27002 is stamped fresh without structural edges.
- A hyphenated word before a full stop is one token ("foo-bar." gives "foo-bar"), while
  the same word elsewhere is two.
- `TokenVerifier` asks the policy about the principal it looked up. Over the database the
  renewal that follows reads the identity's profile again, and the policy is not asked
  again: after a sign-in between the two calls, a session can be renewed whose profile the
  policy refuses.
- The per-framework cap only ever reorders hits, because the list is cut to its slots
  before the cap sees it; the length test beside it never fires.

## Model

| member | source | states |
|---|---|---|
| MemoryStores.MemoryStore.ExchangeCode | pkg/oauth/store.go:169-231 | an exchange burns the code whatever happens, and mints a family and a token pair only for an unexpired code presented by its client with its redirect and PKCE verifier; the five maps change exactly as the specification function says |
| MemoryStores.MemoryStore.LookupToken | pkg/oauth/store.go:264-280 | a lookup honours a token up to and including its expiry and drops an expired one |
| MemoryStores.MemoryStore.RenewToken | pkg/oauth/store.go:282-320 | a renewal slides the access token, every unexpired refresh entry of its family and the client's activity, and drops the family's expired refresh entries |
| MemoryStores.MemoryStore.RotateRefresh | pkg/oauth/store.go:329-383 | a rotation spends the refresh token and mints a pair in its family; a spent token presented again deletes the whole family |
| MemoryStores.MemoryStore.RevokeFamily | pkg/oauth/store.go:387-403 | every access and refresh entry of the family and every record of its spent tokens goes; codes, clients and other families stay as they are |
| MemoryStores.MemoryStore.CreateCode | pkg/oauth/store.go:130-151 | a code is stored with its client, redirect, challenge, scope, principal and ten-minute expiry |
| MemoryStores.MemoryStore.RegisterClient | pkg/oauth/store.go:65-92 | registration is refused at 50 clients |
| MemoryStores.MemoryStore.RegisterCimdClient | pkg/oauth/store.go:109-128 | a metadata-document client is refused at the cap only when it is new |
| MemoryStores.MemoryStore.Evict | pkg/oauth/store.go:406-467 | eviction drops expired entries, then consumed records of families without tokens, then idle clients without grants |
| TokenVerifiers.Verify | pkg/oauth/oauth.go:144-174 | over the in-memory store, a bearer token is renewed only after it was found and its principal allowed, and accepted exactly when that renewal succeeds |
| TokenVerifiers.VerifyOnRows | pkg/oauth/oauth.go:144-174 | the same over the database |
| GrantRuns.StepKeepsInv | pkg/oauth/store.go:130-467 | every operation, with every outcome, keeps the family, history, origin and replay invariants |
| GrantRuns.RunKeepsInv | pkg/oauth/store.go:130-467 | so does every run with ordered clock readings and never-repeated random strings |
| GrantSafety.ReachableFamilies | pkg/oauth/store.go:201-383 | in every reachable store a family has at most one refresh entry, no refresh token is also consumed, and access tokens end no later than their family's refresh entry, or have ended if there is none |
| GrantSafety.ReplayKillsFamily | pkg/oauth/store.go:329-436 | a rotated refresh token presented again, after any operations, is refused, and no token of its family is honoured in any continuation |
| GrantSafety.ExtinctIsForever | pkg/oauth/store.go:201-403 | a family with no token left never gets one again |
| GrantSafety.TokensKeepTheirOrigin | pkg/oauth/store.go:169-231 | every outstanding token carries the client, scope and principal of the code whose exchange started its family |
| GrantSafety.ClientsStayConsistent | pkg/oauth/store.go:65-151 | if codes are created for registered clients only, no outstanding grant refers to an evicted client, throughout the run |
| GrantSafety.ClientsStayCapped | pkg/oauth/store.go:65-128 | from at most 50 clients, no run of any operations reaches more |
| GrantSafety.VerifierAcceptsOnlyAllowed | pkg/oauth/oauth.go:144-174 | over the in-memory store, whatever runs between the verifier's two store calls, the session it accepts is for the principal the policy allowed |
| Eviction.TwinStores | pkg/oauth/store.go:264-436 | two stores that differ by evictions answer a grant operation alike and still differ only so |
| Eviction.EvictionIsUnobservable | pkg/oauth/store.go:406-467 | from any reachable state, a run and the same run with its evictions erased give the same answers to every exchange, lookup, renewal and rotation |
| PostgresStores.PostgresStore.ExchangeCode | pkg/oauth/postgres_store.go:212-285 | the exchange transaction, statement by statement, has the row-level effect of its specification |
| PostgresStores.PostgresStore.LookupToken | pkg/oauth/postgres_store.go:287-324 | the lookup query answers from the joined, unrevoked, unexpired rows |
| PostgresStores.PostgresStore.RenewToken | pkg/oauth/postgres_store.go:326-437 | the renewal transaction moves the access row, the family row, its live refresh rows and the client row |
| PostgresStores.PostgresStore.RotateRefresh | pkg/oauth/postgres_store.go:439-578 | the rotation transaction consumes, inserts and renews, or revokes the family on replay by its own client |
| PostgresStores.PostgresStore.CreateCode | pkg/oauth/postgres_store.go:166-210 | the identity is upserted, the code row inserted and the client touched, unless the client is not registered, the challenge is empty, its method is not S256, or the provider or the subject is blank; then nothing stays |
| PostgresStores.PostgresStore.EvictExpired | pkg/oauth/postgres_store.go:667-692 | the four deletes with their cascades |
| PostgresStores.PostgresStore.RegisterClient | pkg/oauth/postgres_store.go:39-83 | eviction, the cap and the insert, all rolled back when the cap is reached or a constraint refuses the row |
| PostgresStores.PostgresStore.RegisterCimdClient | pkg/oauth/postgres_store.go:111-164 | the same for a metadata-document client, which may already be there |
| RowInvariant.RotateConsistent | pkg/oauth/postgres_store.go:462-574 | a rotation keeps the row invariant: linked rows, one current refresh row per family, access rows no later than their family |
| RowInvariant.EvictConsistent | pkg/oauth/postgres_store.go:667-692 | so does eviction with its cascades |
| Simulation.StepsAlike | pkg/oauth/postgres_store.go:166-692 | matched stores stay matched by every comparable operation and answer it alike; a rotation is comparable under any policy that judges the stored principal as it judges the current profile |
| Simulation.StoresAnswerAlike | pkg/oauth/postgres_store.go:212-578 | started empty, the two stores give the same answers to every grant operation of every comparable run |
| Divergence.RepliesAgreeExactly | pkg/oauth/postgres_store.go:267-550 | matched stores answer a grant operation alike if and only if the credential does not expire exactly at the clock reading and, where the database asks a rotation's policy, the stored principal and the current profile are judged alike |
| Divergence.CodesNeedRegisteredClient | pkg/oauth/postgres_store.go:166-210 | code creation is answered alike if and only if the client is registered, the challenge is not empty and neither provider nor subject is blank |
| Divergence.RotationSplitsStores | pkg/oauth/postgres_store.go:499-550 | off the boundary, a rotation leaves the stores matched if and only if it is not a live family's spent token presented by another client and the policy judges both principals alike where it is asked |
| SplitRuns.ProfilePolicySplitsStores | pkg/oauth/postgres_store.go:476-550 | after one identity signs in twice, in a run of both stores from empty, a policy that accepts the first principal and refuses the second profile gets a rotation issued by the in-memory store and refused by the database |
| SplitRuns.BoundarySplitsStores | pkg/oauth/postgres_store.go:287-324 | after a sign-in in both stores, a lookup at the very expiry of its token is honoured in memory and refused by the database |
| SplitRuns.UnregisteredCodeSplitsStores | pkg/oauth/postgres_store.go:166-210 | from empty stores, a code for a client that is not registered is granted in memory and refused by the database |
| SplitRuns.ForeignReplaySplitsStores | pkg/oauth/postgres_store.go:499-527 | after a sign-in and a rotation in both stores, the spent token presented by another client is refused by both, and then only the database still honours the new access token |
| RowRuns.RunKeepsRows | pkg/oauth/postgres_store.go:39-692 | the row invariant holds throughout every run of the database, with any clients, policies and readings |
| RowRuns.ReachableRows | pkg/oauth/postgres_store.go:39-692 | so it holds of all rows reachable from the empty tables |
| RowRuns.StepLasts | pkg/oauth/postgres_store.go:212-692 | no transaction brings back or alters a code, moves a family to another client, scope or person, moves an access or refresh row to another family, lifts a revocation or a consumption, or drops a refresh row while its family stays |
| RowRuns.OverIsForever | pkg/oauth/postgres_store.go:287-578 | no token of a revoked or deleted family is honoured in any continuation |
| RowRuns.ReplayEndsFamily | pkg/oauth/postgres_store.go:499-527 | a rotated refresh token presented again after any run is refused to whoever presents it; presented by its own client it ends the family for good, by another it changes no row |
| RowRuns.CodeIsTriedOnce | pkg/oauth/postgres_store.go:231-265 | after one attempt on a stored code, whatever its outcome, every later exchange of it is rejected |
| RowRuns.ClientRowsStayCapped | pkg/oauth/postgres_store.go:39-164 | from at most 50 clients, no run of any transactions reaches more |
| Admission.AdmittedInMemory | pkg/oauth/store.go:65-128 | in memory a registration is refused exactly at fifty clients, a metadata document only for a new client |
| Admission.AdmittedToRows | pkg/oauth/postgres_store.go:39-164 | in the database the cap counts what an eviction leaves; the id must not be blank, there must be a redirect and, for a registration, the id must be new; a refused registration changes no row |
| Admission.CodeAdmittedToRows | pkg/oauth/postgres_store.go:166-210 | a code is created exactly for a registered client, a challenge of method S256, a provider and a subject that are not blank, and a new hash; then it lasts ten minutes, its client is touched and no other person's profile changes; refused, nothing changes |
| Expiry.EvictedRowsExactly | pkg/oauth/postgres_store.go:667-692 | an eviction leaves exactly the clients that are static, active within a day, or hold an unexpired code or an unexpired, unrevoked family; the unexpired codes and families of those; and those families' unexpired access rows and all their refresh rows, each unchanged |
| Expiry.EvictedEntriesExactly | pkg/oauth/store.go:406-467 | in memory it leaves exactly the entries that have not passed their expiry, the consumed records of families with such a refresh entry, and the clients that are authorized, active within a day or hold such an entry |
| Expiry.IssuedPairLasts | pkg/oauth/store.go:201-231 | an issued pair expires exactly the seconds named in the reply, 2592000, after its reading |
| Expiry.IssuedRowsLast | pkg/oauth/postgres_store.go:624-665 | so do the rows, with their family |
| RowOrigins.RowsKeepTheirOrigin | pkg/oauth/postgres_store.go:231-283 | every stored access or refresh row belongs to a stored family that carries the client, scope and person of the code whose exchange in the run, before its expiry and by its client with its redirect and verifier, started it |
| RowOrigins.FamilyComesFrom | pkg/oauth/postgres_store.go:39-692 | a family after a transaction was there before with the same grant, or is the one this exchange started |
| RowProfiles.ProfileIsLastSaid | pkg/oauth/postgres_store.go:595-622 | over every run, a person is stored if and only if they signed in with success, with the e-mail of their last sign-in that gave one and its word on verification; a later sign-in without an e-mail keeps both, and with no e-mail ever there is none and nothing is verified |
| RowProfiles.CodeIsASignIn | pkg/oauth/postgres_store.go:166-210 | a stored code is that of a successful sign-in in the run, with its client, redirect, challenge, scope and person, for ten minutes from it |
| RowProfiles.VerifiedSaysLastSignIn | pkg/oauth/postgres_store.go:287-437 | whoever a lookup or a renewal answers with is the person who signed in for the code whose exchange, in time and with its redirect and verifier, started the token's family, with its client and scope; their principal has the e-mail and the verification of their last sign-in that gave an e-mail, or an empty e-mail, unverified |
| RowProfiles.RotationAsksAboutLastSignIn | pkg/oauth/postgres_store.go:457-550 | a rotation depends on its policy only through the verdict on exactly that principal of the token's family, and a live token of the client is rotated if and only if the verdict is yes |
| RowVerifier.RunKeepsSession | pkg/oauth/postgres_store.go:326-437 | over any run an access token still stored keeps its family, and that its client, scope and person |
| RowVerifier.AcceptedExactlyIfProfileAllowed | pkg/oauth/oauth.go:144-174 | over the database, whatever runs between the verifier's two calls, both answer for one client, scope, provider and subject; the renewed principal passes the policy if and only if the policy accepts the person's profile at the renewal, as an identity-only policy does, and as any does when the profile is unchanged or the person has not signed in between |
| RowVerifier.VerifierAcceptsRefusedProfile | pkg/oauth/oauth.go:144-174 | in a run from the empty tables, a second sign-in of the same person between the two calls gets a session renewed whose principal the policy refuses |
| Interleaving.CommitIsSerial | pkg/oauth/postgres_store.go:231-574 | when a transaction commits, its writes and reply are those of the same request run alone on the rows of that moment |
| Interleaving.EarlyEndIsSerial | pkg/oauth/postgres_store.go:231-574 | a transaction that ends early would have been rejected when run alone, too |
| Interleaving.KnowledgeSurvives | pkg/oauth/postgres_store.go:342-426 | what a transaction has read under its locks stays true across other commits |
| Serializability.EveryRunIsSerial | pkg/oauth/postgres_store.go:231-574 | every interleaving of exchanges, lookups, renewals and rotations equals the serial run of the ended transactions in commit order, with the same rows and replies, each transaction once |
| Serializability.OneGrantPerCode | pkg/oauth/postgres_store.go:231-283 | at most one exchange per code is granted, in any interleaving |
| Serializability.SomeoneCanMove | pkg/oauth/postgres_store.go:350-426 | following who waits for whom always ends at a transaction that can move, because locks are taken in one order |
| Serializability.NoDeadlock | pkg/oauth/postgres_store.go:350-426 | from every state a schedule can reach, some further schedule ends every transaction |
| RowLocks.WritersHoldTheirRows | pkg/oauth/postgres_store.go:231-574 | in every state a schedule can reach, a transaction holds the locks of the code or family and of the token it has read, and of every stored row it will change, no others than its request gives rise to, and none that another one holds |
| Commuting.ApartCommute | pkg/oauth/postgres_store.go:231-574 | two requests on different codes and families give the same replies in either order and, but for the clients, the same rows |
| LockOrder.EveryRunIsSerialInLockOrder | pkg/oauth/postgres_store.go:231-574 | replaying the ended transactions in the order in which they took their code or family lock gives the same replies and the same rows in every table but the clients; those that took none wrote nothing |
| ClientActivity.ClientsAgreeExactly | pkg/oauth/postgres_store.go:420-426 | that replay gives the same clients, too, if and only if for each client the transaction that wrote its row last has the reading of the one that took its first lock last |
| ClientActivity.SameReadingIsSameToucher | pkg/oauth/postgres_store.go:420-426 | where readings differ, that is: if and only if they are the same transaction |
| ClientActivity.OneTouchAtATime | pkg/oauth/postgres_store.go:420-426 | at most one transaction at a time holds the row of a client it is about to touch |
| ClientActivity.CrossingLosesActivity | pkg/oauth/postgres_store.go:326-437 | two renewals in two families of one client, first locks in one order and commits in the other, leave the client the reading of the first, and the replay that of the second |
| ClientActivity.LockOrderIsNotEnough | pkg/oauth/postgres_store.go:326-437 | for instance last activity 1 where the replay has 2 |
| Inserts.RenderInserts | pkg/normalize/oscal.go:371-395 | on well-formed, acyclic inserts the loop ends with the recursive substitution, which holds no insert |
| Inserts.Body | pkg/normalize/oscal.go:399-417 | a parameter renders to a bracketed text |
| Inserts.JoinSplits | pkg/normalize/oscal.go:405-409 | the choices of a selection stand in order with the separator between any two |
| Inserts.TrimKeepsMiddle | pkg/normalize/oscal.go:387 | trimming an id takes the space around it and nothing else |
| Inserts.SettlesExactlyWhenAcyclic | pkg/normalize/oscal.go:371-395 | on well-formed inserts the loop ends if and only if no chain of references is longer than the parameters allow without repeating one |
| Cycles.SettlesExactlyWithoutCycle | pkg/normalize/oscal.go:371-395 | on well-formed inserts the loop ends if and only if no cycle of parameters can be reached from the prose |
| Cycles.DeepExactlyWithCycle | pkg/normalize/oscal.go:371-395 | references nest deeper than there are parameters if and only if a cycle is reachable |
| Inserts.CycleLoopsForever | pkg/normalize/oscal.go:371-395 | a cycle of parameters reachable from the prose keeps the loop running for ever |
| Inserts.SelfInsertLoopsForever | pkg/normalize/oscal.go:371-395 | for instance a label that inserts its own parameter |
| Inserts.PanicsExactlyOnEmptyInsert | pkg/normalize/oscal.go:377-388 | the id's slice bounds cross exactly when the leftmost insert's markers share their space |
| Inserts.EmptyInsertPanics | pkg/normalize/oscal.go:377-388 | `{{ insert: param, }}` panics, with any text before it that holds no brace and any text after it |
| Malformed.WalkedProseSettles | pkg/normalize/oscal.go:371-395 | whatever the inserts, a prose whose recursive walk meets no malformed one makes the loop end with the walk, which holds no marker |
| Malformed.LoopAtFirstMalformed | pkg/normalize/oscal.go:374-388 | a prose whose walk meets a malformed insert brings the loop to that insert, as the leftmost marker; there it panics if and only if its markers share their space, and stops early if and only if it is not closed |
| Malformed.LoopPastMalformed | pkg/normalize/oscal.go:374-391 | otherwise the pass takes all up to the next closing marker, further open markers included, as one id, and the loop ends on the prose if and only if it ends on the text that leaves; an unknown id that holds a marker is written out with it |
| Inserts.WrittenInsertIsFound | pkg/normalize/oscal.go:377-389 | an insert written around a plain id is the one the search finds, with that id |
| Rewriting.StopsExactlyWhenAcyclic | pkg/normalize/oscal.go:374-394 | leftmost rewriting stops exactly on acyclic references, for any way of cutting and filling that keeps to the bracket law |
| Tokens.Tokenize | pkg/rag/lexical/bm25.go:88-137 | the scanning loops yield the tokens of the maximal runs of citation characters |
| Tokens.IsCitationToken | pkg/rag/lexical/bm25.go:59-82 | a letter with a digit or a dot, or a digit with a dot |
| Tokens.TokensSplit | pkg/rag/lexical/bm25.go:88-137 | tokenizing is a homomorphism across any separator |
| Tokens.RunsConserve | pkg/rag/lexical/bm25.go:97-132 | maximal runs lose no character of their class and gain none |
| Tokens.NoTokenIsEmpty | pkg/rag/lexical/bm25.go:109-134 | no token is empty and each keeps a letter or digit, so trimming dots never empties one |
| Tokens.TrimmedTokenIsStable | pkg/rag/lexical/bm25.go:109-115 | a citation token searched for on its own is found again if and only if it is still a citation without its trailing dots, or purely alphanumeric |
| Tokens.RunStaysWholeExactly | pkg/rag/lexical/bm25.go:57-137 | a run of citation characters, in lower case, stays one token but for trailing dots if and only if it has a letter and a digit, a letter and a dot, or a digit and a dot, so "8.3.6" does; otherwise it falls into its words |
| Tokens.HyphenatedWordIsLost | pkg/rag/lexical/bm25.go:57-137 | for any two lower-case words, "foo-bar." is the one token "foo-bar", and "foo-bar" is the two tokens "foo" and "bar" |
| Lexical.TrainingCoversTheCorpus | pkg/rag/lexical/bm25.go:155-181 | for each corpus term 1 <= df <= N and its idf is positive; the average length is positive |
| Lexical.InnerIsSumOfMatched | pkg/rag/lexical/bm25.go:185-203 | query times document vector is the sum of weights over the distinct indexed document terms whose hash is queried |
| Lexical.InnerAgainstBm25 | pkg/rag/lexical/bm25.go:185-260 | the inner product is at least the BM25 score, and equal to it if and only if no document term collides with a query term |
| Lexical.PositiveIffMatched | pkg/rag/retrieve/retrieve.go:513-522 | a score is positive if and only if some queried dimension is present |
| LexicalIndex.Train | pkg/rag/lexical/bm25.go:155-181 | document frequencies, idf and average length as defined over the corpus |
| LexicalIndex.DocVector | pkg/rag/lexical/bm25.go:185-203 | each dimension holds the summed weights of the indexed terms hashed to it |
| LexicalIndex.QueryVector | pkg/rag/lexical/bm25.go:252-260 | weight 1 for exactly the dimensions of the terms that are no stopwords |
| LexicalIndex.IndexCorpus | pkg/rag/lexical/index.go:27-82 | one vector per chunk under the statistics of all chunks, up to the first update that fails |
| LexicalIndex.PrefixAddsItsTokens | pkg/rag/lexical/index.go:50-57 | a chunk's tokens are those of its prefix followed by those of its content |
| LexicalIndex.IndexedChunkKeepsAllTokens | pkg/rag/lexical/index.go:62-67 | no token of an indexed chunk is skipped |
| Bm25Laws.TrainedNumbers | pkg/rag/lexical/bm25.go:155-181 | exactly the terms of some document have an idf, which is log(1 + (N - d + 0.5)/(d + 0.5)) with d the number of documents that have the term; the average length is the corpus length over N, or 1 for an empty corpus |
| Bm25Laws.RarerTermsCountMore | pkg/rag/lexical/bm25.go:171-175 | for an increasing logarithm a term of fewer documents has the larger idf |
| Bm25Laws.DimensionsAreResidues | pkg/rag/lexical/bm25.go:139-144 | two terms share a dimension if and only if their hashes agree modulo 2^20, and dimensions run from 1 to 2^20 |
| Bm25Laws.QueryVectorIsPresence | pkg/rag/lexical/bm25.go:252-260 | the query vector is 1 on exactly the dimensions of the query's terms that are no stopwords |
| Bm25Laws.InnerIsLiteralBm25 | pkg/rag/lexical/bm25.go:185-260 | the inner product sums idf * f * 2.2 / (f + 1.2 * (0.25 + 0.75 * length / average)), with f the term's multiplicity, over the indexed document terms that share a dimension with a query term |
| Bm25Laws.AloneCarriesWeight | pkg/rag/lexical/bm25.go:185-203 | a dimension held by one term has exactly that term's weight |
| Bm25Laws.WeightGrowsWithOccurrences | pkg/rag/lexical/bm25.go:198-200 | of two documents of one length, the one with more occurrences of such a term has strictly more of it |
| Bm25Laws.WeightFallsWithLength | pkg/rag/lexical/bm25.go:198-200 | with as many occurrences in a longer document it has strictly less |
| Bm25Laws.WeightAgainstIdf | pkg/rag/lexical/bm25.go:198-200 | its weight lies strictly between 0 and 2.2 times the idf, and is the idf for one occurrence at average length |
| Oscal.Walker.Walk | pkg/normalize/oscal.go:155-213 | the recursive walk appends exactly the preorder rows, edges and unresolved links of one control |
| Oscal.Walker.Build | pkg/normalize/oscal.go:106-147 | the whole catalog, groups as families, with labels indexed before |
| OscalTree.TreeIsForest | pkg/normalize/oscal.go:116-213 | one row per group and per control at any depth; ordinals count the rows; parents come first |
| OscalTree.PathsAreCatalogPaths | pkg/normalize/oscal.go:116-213 | parent indices lead through exactly the groups and controls that enclose a control |
| OscalLinks.EveryMoveIsAccountedFor | pkg/normalize/oscal.go:182-206 | the edges' provenances and the unresolved records' links are together, as a bag, exactly the links of rel "incorporated-into" or "moved-to" of controls with a property "status" of value "withdrawn" |
| OscalLinks.EachRowKeepsItsLinks | pkg/normalize/oscal.go:182-206 | so it is row by row: the edges from a row and its unresolved records are, as a bag, its own such links |
| OscalLinks.EdgesLeadToRows | pkg/normalize/oscal.go:182-206 | every edge starts at a withdrawn row and names the citation norm of a row of the tree |
| OscalSources.EachRowSaysItsSource | pkg/normalize/oscal.go:116-291 | each row, in preorder, has its group's or control's title, kind and label, which is the value of its first property "label" or else the id in upper case, its norm is the label in upper case without spaces, and its status is "withdrawn" if and only if a control has a property "status" of value "withdrawn" |
| OscalSources.SpacesGo | pkg/normalize/oscal.go:172 | spaces go wherever they are and no other character does |
| OscalSources.HrefNamesItsRow | pkg/normalize/oscal.go:294-326 | an href, less a hash sign and what follows an underscore that is not its first character, resolves to the norm of the last row with that id, and to nothing if there is none |
| OscalSources.EdgesAreMovingLinks | pkg/normalize/oscal.go:182-206 | an edge occurs as often as its row's withdrawn control has a link of rel "incorporated-into" or "moved-to" with its provenance as href and its relationship as rel, whose href names a row of its non-empty norm |
| OscalSources.RecordsAreLostLinks | pkg/normalize/oscal.go:182-192 | an unresolved record occurs as often as withdrawn controls of its citation have such a link with its href that names no row, or a row of empty norm |
| Stages.WriteTree | pkg/normalize/normalize.go:773-927 | it succeeds if and only if no citation and no norm repeats and no statement fails; then the document's controls are the rows in order, with their fields, curated titles and their parents' ids, its edges are those of the parse, each with the relationship and provenance of the last mapping of its key, every edge that names a stored control has a target, and the document's edges have only targets they name; failing anywhere, other documents keep controls and edges with what they say, an edge loses its target only with the control it names, and the marker is gone unless nothing changed |
| Stages.RunMapEdges | cmd/pipeline/main.go:245-313 | edges only grow, by what the sources emit; an edge that is not emitted says what it said and a new target is a control its edge names; on success the other sources' edges say what their last emission of that key says, every other structural edge is stored as an equivalence with its provenance text, and every edge that names a stored control has a target; all markers are set to the reading exactly when every stage succeeded and no source was skipped |
| Stages.IsoKeysExactly | pkg/normalize/mapedges.go:86-143 | with any Annex A control of ISO 27001:2022 stored, the structural edges are exactly those from such a control A.x.y to ISO 27002:2022 x.y and from each ISO 27002:2022 control back; without one there are none |
| Stages.EmitIsoStructural | pkg/normalize/mapedges.go:76-152 | both directions of the structural edges, as equivalences with their provenance, other edges saying what they said; without Annex A controls it succeeds and changes nothing |
| Silver.Database.DeleteControlsForDocument | pkg/store/silver/queries.sql.go:50-70 | the delete, its cascades and the cleared marker happen together or not at all |
| Silver.Database.ResolveControlMappings | pkg/store/silver/queries.sql.go:432-460 | every edge without a target gets one it names, in the pinned or current version, if there is one; nothing else changes |
| Freshness.FreshDocumentKeepsItsEdges | pkg/store/silver/queries.sql.go:50-56 | over all runs with failures, a document with its marker set has the controls of the last complete mapedges run and every edge that run left or emitted |
| Freshness.FreshAnnexControlsAreMapped | pkg/normalize/mapedges.go:99-121 | a fresh document's Annex A controls have their ISO 27002 edge |
| Freshness.FreshCatalogueMapped | pkg/normalize/mapedges.go:91-143 | over all runs, those that fail part-way included, an ISO 27002 control of a fresh document has its reverse edge if it had it before the run that set the marker, or some mapping run from then on went through with Annex A controls; where from then on only the structural source emits structural edges, it has it only if it had it or some such run at least saw one |
| Freshness.FreshCatalogueControlsAreMapped | pkg/normalize/mapedges.go:91-143 | so whenever the run that set the marker saw an Annex A control, every ISO 27002 control of the fresh document has its structural edge, whatever failed since and whatever other sources emit |
| Freshness.FreshCatalogueMappedExactly | pkg/normalize/mapedges.go:91-143 | where only the structural source emits structural edges and no run from the one that set the marker on failed part-way, such a control has its edge if and only if it had it before or some such run saw an Annex A control |
| Freshness.FreshCatalogueNeedsAnnex | pkg/normalize/mapedges.go:91-143 | all ISO 27002 controls of a fresh document are mapped if all were mapped before or some run since went through with Annex A controls; where only the structural source emits structural edges, only if all were or some run since saw one; and if none of them failed, if and only if |
| Freshness.FreshEdgeKeepsTarget | pkg/store/silver/queries.sql.go:50-56 | an edge of a fresh document keeps the target the last complete run left it if and only if that control is still stored, which it is while its own document is fresh |
| Freshness.ReverseEdgesNeedAnnex | pkg/normalize/mapedges.go:91-94 | whatever other sources emit, a run that sets the markers leaves every ISO 27002 control mapped if and only if there is an Annex A control or nothing was missing before |
| Freshness.FreshWithoutStructuralEdge | pkg/normalize/mapedges.go:91-94 | ISO 27002 alone is stamped fresh without any structural edge |
| Ancestors.AncestorCitations | pkg/rag/index/index.go:266-282 | the walk up parent pointers, reversed in place, ends and yields the root-first path |
| Ancestors.AncestorsAreCatalogPath | pkg/rag/index/index.go:266-282 | for a stored catalog that path is the labels enclosing the control in the catalog |
| Ancestors.StoreCatalog | pkg/normalize/normalize.go:856-908 | building and storing a catalog succeeds only with exactly these ancestors for every control, and with every edge of the tree stored under the document's framework and version with relationship and provenance of the tree's edges of that key; where that is the stored document's own version, each has a target at once |
| Tcvn.ParseLines | pkg/normalize/tcvn.go:76-140 | the two passes yield the first occurrence of each citation with the lines up to the next one |
| Tcvn.NothingIsLost | pkg/normalize/tcvn.go:97-139 | heading lines and bodies in order are the lines from the first heading on, less exact repeats of heading lines |
| Tcvn.CitationsAreUnique | pkg/normalize/tcvn.go:104-115 | no citation repeats and none is empty |
| Tcvn.BuildTree | pkg/normalize/tcvn.go:154-217 | kind, parent and ordinal of each heading's row |
| Tcvn.RowHangsUnderPrefix | pkg/normalize/tcvn.go:154-217 | a row is a clause if and only if another heading's citation goes on after its own with a dot; it hangs under the latest earlier row whose citation is its own without the last dotted segment, and is a root if and only if there is none |
| Tcvn.ParentsAreEarlierClauses | pkg/normalize/tcvn.go:201-213 | a parent is the earlier heading one segment shorter, and never of kind control |
| Tcvn.ParsedTreeCanBeWritten | pkg/normalize/normalize.go:843-854 | every parsed document passes writeTree's duplicate check, with parents first |
| Packing.RoundPad | pkg/rag/embed/kagglebatch/kernel_embed.py:54-56 | the least multiple of the step that fits the length, at most the maximum |
| Packing.CountKeepsBudgets | pkg/rag/embed/kagglebatch/kernel_embed.py:59-65 | more than one row is allowed only within both budgets |
| Packing.CountIsLargest | pkg/rag/embed/kagglebatch/kernel_embed.py:59-65 | and no larger count is within both |
| Packing.Pack | pkg/rag/embed/kagglebatch/kernel_embed.py:210-221 | the batches in order are the texts in order of length, no batch exceeds the count for its own pad, and each is closed only because the next text would have made it exceed the count for that text's pad |
| Packing.SoundBatchRuns | pkg/rag/embed/kagglebatch/kernel_embed.py:237-247 | no row is cut off, every text fits the pad, and batches of several texts are within both budgets |
| Shards.PackedTextsArePlaced | pkg/rag/embed/kagglebatch/kernel_embed.py:209-223 | every text is in exactly one row of exactly one batch |
| Shards.CellIsInShard | pkg/rag/embed/kagglebatch/kernel_embed.py:234 | every row is dealt to the one thread of its batch's ordinal |
| Shards.ShardHasCells | pkg/rag/embed/kagglebatch/kernel_embed.py:234 | a thread is dealt only rows of batches whose ordinal is its own modulo the number of GPUs |
| Shards.ShardAscends | pkg/rag/embed/kagglebatch/kernel_embed.py:234-247 | it takes them in the order of batches and rows, each once |
| Shards.EverySlotIsFilled | pkg/rag/embed/kagglebatch/kernel_embed.py:230-284 | in every interleaving, once all threads are through, each slot holds the vector computed from its own text's row |
| Shards.ThroughExactlyWithTurns | pkg/rag/embed/kagglebatch/kernel_embed.py:230-284 | all threads are through if and only if each had a turn for every row dealt to it |
| VectorStream.StreamParseVectors | pkg/rag/embed/kagglebatch/kagglebatch.go:551-610 | accepted if and only if every line parses, indices are in range and distinct, dimensions right, handlers succeed and all are there; then the indices are a permutation; a refusal names the first wrong line and what is wrong with it, or the failed scan, or the least index that is missing, and exactly the rows before were handed on; the fallback error at line 607 never occurs |
| VectorStream.FullCountIsPermutation | pkg/rag/embed/kagglebatch/kagglebatch.go:600-608 | as many distinct tags as indices leave no index out |
| VectorStream.InputWriter.Write | pkg/rag/embed/kagglebatch/kagglebatch.go:169-176 | rows get sequential indices in call order; a failed write uses none up |
| VectorStream.EmbedMissing | pkg/rag/index/index.go:203-225 | with encoding failing at any rows, a vector is only ever stored under the id of the chunk whose index it carries; it succeeds if and only if every row was written and the returned stream is accepted, and then every chunk has its vector; after a failed write nothing is stored |
| Fusion.FuseRRF | pkg/rag/retrieve/rrf.go:29-89 | exactly the chunks of positive rank, each with its weighted reciprocal-rank sum, by score descending then id ascending; k is 20 and the lexical weight 0.5 where they are not positive |
| Fusion.FusionIsUnique | pkg/rag/retrieve/rrf.go:78-88 | there is only one such list, so map iteration order does not show |
| FusionRanks.FusedHitIsReciprocalSum | pkg/rag/retrieve/rrf.go:48-73 | a hit's score is the sum of 1/(k + rank) over its chunk's vector rows and w/(k + rank) over its lexical rows of positive rank; it shows the least rank and the greatest similarity and lexical score of those rows |
| FusionRanks.FusedOnceInOrder | pkg/rag/retrieve/rrf.go:75-88 | exactly the chunks with a row of positive rank are there, and one stands before another if and only if its score is higher, or equal with the lower id |
| FusionRanks.OneRowInEachArm | pkg/rag/retrieve/rrf.go:48-73 | a chunk of one counting row in an arm gets exactly weight over k plus rank from it |
| FusionRanks.BetterVectorRankScoresMore | pkg/rag/retrieve/rrf.go:53 | changing one row's rank in the vector arm changes its chunk's score by the difference of the two reciprocals, so a better rank strictly raises it |
| FusionRanks.BetterBm25RankScoresMore | pkg/rag/retrieve/rrf.go:66 | in the lexical arm, by that times the weight |
| FusionRanks.ArmAloneKeepsItsOrder | pkg/rag/retrieve/rrf.go:48-88 | one arm that repeats no chunk, fused with an empty one, comes out by rank, equal ranks by id |
| FusionLaws.FusionIgnoresRowOrder | pkg/rag/retrieve/rrf.go:48-73 | permuting either input list changes nothing |
| FusionLaws.BetterVectorRankNeverHurts | pkg/rag/retrieve/rrf.go:48-60 | improving one row's rank in the vector arm never moves its chunk down |
| FusionLaws.BetterBm25RankNeverHurts | pkg/rag/retrieve/rrf.go:61-73 | nor in the lexical arm |
| FusionLaws.ScoreCeiling | pkg/rag/retrieve/retrieve.go:308-315 | with arms that repeat no chunk a score is at most (1+w)/(k+1), so 2.5/21 by default |
| Assembly.CapPerFramework | pkg/rag/retrieve/retrieve.go:832-857 | the first topK of the hits within the cap followed by those over it |
| Assembly.CapPrefersWithin | pkg/rag/retrieve/retrieve.go:832-857 | min(topK, n) hits, and one over the cap only after every one within it |
| Assembly.CapOnlyReorders | pkg/rag/retrieve/retrieve.go:317-343 | with as many slots as hits, which is how the search calls it, the cap drops nothing |
| Assembly.WithinCount | pkg/rag/retrieve/retrieve.go:837-849 | the hits within the cap hold the smaller of the cap and the framework's number |
| Assembly.MergePinned | pkg/rag/retrieve/retrieve.go:873-890 | pinned hits, then the others that are not pinned, up to topK |
| Assembly.AppendNonCurrent | pkg/rag/retrieve/retrieve.go:892-907 | the list grows at its end by the chunks it does not have yet |
| Assembly.BestHitPerFramework | pkg/rag/retrieve/retrieve.go:859-871 | in order, the first hit of every framework and version, none twice |
| Assembly.Assemble | pkg/rag/retrieve/retrieve.go:336-365 | the hits are the appended, deduplicated and capped lists as specified: pinned hits are a prefix, no chunk comes twice, and the length is at most max(topK, pinned) + 3 |
| Assembly.AnswerComesFrom | pkg/rag/retrieve/retrieve.go:336-365 | the answer starts with the pinned hits, and every further hit is one of the hydrated or the non-current ones |
| Assembly.TopScore | pkg/rag/retrieve/retrieve.go:211-215 | the largest score below 1, or 0 when there is none |
| Assembly.FirstInBothArms | pkg/rag/retrieve/retrieve.go:207-215 | a chunk first in both arms stays below a pinned hit's score if and only if the lexical weight is below k |
| Assembly.FusedScoresAreBelowPinned | pkg/rag/retrieve/retrieve.go:207-215 | with arms that repeat no chunk and the weight below k, every fused score lies in [0, 1) |
| Assembly.ReportedScoreIsLargestUnpinned | pkg/rag/retrieve/retrieve.go:207-215 | in the answer assembled from fused lists behind hits pinned at 1, the reported score bounds the hits behind the pinned ones and is reached by one of them, or is 0 when there are none |

## Left out

- HTTP handlers, login pages, MCP wiring, fetchers, configuration, rate limiters, reports and static payloads: plumbing without guarantees of this kind.
- The other framework parsers (PCI, ISO, COBIT, TSC, CIS, CCM, CSF): they repeat the first-occurrence and parent-lookup shapes of OSCAL and TCVN.
- How OLIR, CIS and curated edges are computed: `RunMapEdges` takes the edges they upsert, and whether a source was absent, as inputs. The annex-prefix and supersession passes only fill in targets, as `ResolveControlMappings` does.
- Client secrets, names and metadata timestamps, families' last activity, and scope strings as text: a scope is its sequence of words.
- The test helpers of the in-memory store (consumeCode, createTokenPair, createTokenPairWithTTL) and lookupClient: not part of the grant protocol, or a plain read.
- CHECK constraints on hash lengths, which SHA-256 meets, on normalised e-mail addresses and on blank family ids, which the store itself forms; and errors of the database connection inside OAuth transactions: a transaction that fails leaves no trace.
- Simulation.PgApply: creates codes with the method S256, to which `pkg/oauth/handlers.go:173` and `pkg/oauth/handlers.go:236` hold every request.
- Serializability.EveryRunIsSerial: like the lemmas of `LockOrder` and `ClientActivity`, does not cover evictExpired, code creation and registration, which lock in other orders; an UPDATE of several refresh rows takes its row locks in one step; key-share locks of foreign keys are not modelled.
- Simulation.StoresAnswerAlike: does not compare registration replies, because the database evicts before it counts; e-mail normalisation is an argument.
- Inserts.RenderInserts: requires well-formed, acyclic inserts, because a method must end; what the loop does on others is proved of its passes in `Malformed` and `Cycles`. Building a control's body from its parts and the order in which parameters become known are not modelled.
- LexicalIndex.DocVector: leaves out printing weights as text, and floating-point rounding; the stopword list is an argument.
- Oscal.Walker.Build: takes the decoded groups; JSON decoding, the title and the missing-title and missing-groups errors are left out, and so are control bodies.
- Oscal.Walker.WalkAll: is the loop over nested controls as a method of its own.
- Stages.WriteTree: reads that only count or load curated titles, and marking the manifest row, are left out; title_original, body and amendment columns are not stored.
- Failing reads of the silver tables: only statements that write fail in the model; a stage whose read fails ends with the tables as its earlier statements left them.
- Silver.Database.DeleteControlsForDocument: the cascade through parents is not modelled as such, because parents always lie in the same document, which the tables' invariant says.
- Tcvn.ParseLines: takes classified lines; skipping, classifying and trimming them, and joining body lines to one string, are left out.
- Packing.Pack: takes the indices sorted by length; the sort itself is the library's.
- Shards.EverySlotIsFilled: a slot records the batch and row its vector came from in place of the vector; pooling and the model are opaque, and the shared progress counter is left out.
- VectorStream.StreamParseVectors: takes lines as parsed or garbled; gzip, JSON and the scanner's buffer are left out.
- Fusion.FuseRRF: sorts by insertion where the library sorts; the result is unique, so it is the same.
- Assembly.Assemble: hydration, both search arms and the abstain floor are inputs or left out.
