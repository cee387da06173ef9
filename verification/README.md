# AlphaFoundry in Dafny

A model of the parts of AlphaFoundry whose correctness is an argument rather than a glance, with proofs that Dafny 4.11 checks: `dafny verify dfyconfig.toml`.

**AF-CANON** (`Digits`, `IntegerText`, `DecimalText`, `Octets`, `Canonical`, `CanonicalIdentity`, `CanonicalFormat`). The binary encoding behind every digest. A decoder is defined beside the encoder and proved to undo it for every nested value; from that follow prefix-freedom, independence of field order and injectivity of digest preimages. The layout of the bytes themselves is stated apart from the encoder. The integer guard and both decimal renderers are treated exactly, limits included.

**PBO certification** (`Subsets`, `Cscv`, `TrialEvidence`, `PboMatrix`, `PboCertificate`, `PboEvidence`, `PboCertification`, `Pbo`, `PboMeaning`, `PboAverages`, `PboSymmetry`). Three completeness checks written three ways (certifier, certificate constructor, matrix builder) are shown to mean the same thing, the partition enumeration is shown complete and mirrored, and the calculated probability is characterised by weighted means, ranks, ties, dominance and negation. Certifier and calculator run as loops and are proved against functions.

**Finite search** (`SearchRanking`, `SearchAlternatives`, `SearchSteps`, `SearchLineage`, `SearchProgress`, `SearchOutcome`, `SearchMeaning`, `SearchRunner`). The runner is a class updated in place. Each of its methods is proved against a function of the state before it; invariants over ledger, pools, best candidate and plateau counter carry through whole runs; what schedule, order, quantization and ledger mean is stated without the functions that compute them. Operators and evaluators are arbitrary total functions.

**Jobs and publication** (`PublicationTables`, `PublicationSteps`, `PublicationInvariants`, `PublicationRuns`, `PublicationLeases`, `PublicationEffects`, `PublicationTriggers`, `PublicationStatements`, `PublicationExceptions`, `PublicationJustification`, `PublicationRepository`). Each repository operation is one atomic step from tables to tables; `MetadataStore` performs the steps row by row and rolls back. The invariant, fencing and staging results hold for every interleaving of steps; when a step succeeds and which columns it writes, who may take a lease and what can end it are stated column by column. The freeze triggers are modelled statement by statement.

**Ledgers** (`EquityPaths`, `CrossVenueBooks`, `CrossVenueLaws`, `CrossVenueTrades`, `CrossVenueSchedule`, `CrossVenueTrace`, `CrossVenueHistory`, `CrossVenueMeaning`, `CrossVenueKnowledge`, `CrossVenueFailure`, `CrossVenue`, `DerivativesLedger`, `Derivatives`, `DerivativesMeaning`, `MarketMaking`, `MarketMakingMeaning`). Accounts as classes with the source's fields, over exact reals. Conservation laws, reservations, margins and the unreachability of internal errors are proved per step and for whole runs; what is filled, submitted, hedged, settled and quoted is the largest or the only amount the rules and balances allow, in their own numbers. A cross-venue run is specified as a history of timestamps, which is proved unique; the event loop is proved to produce it, and to fail exactly when there is none with positive marks throughout.

`Ordering` holds Python's stable sort, `Outcomes` optional values and results, `RealArithmetic` the few real operations several modules share.

## What the proofs found

- `SQLiteJobRepository.transition_job` lists QUEUED to RUNNING as legal, but the row it writes has no start time and always violates the table's CHECK (`PublicationInvariants.TransitionsExactly`). Claiming is the only way a job starts.
- The freeze triggers look at an updated row as it was, and OR REPLACE removes a colliding row without firing a delete trigger, because the connection leaves SQLite's recursive triggers off (`src/alpha_foundry/infrastructure/db.py:902-907`). So an `UPDATE OR REPLACE` that moves another row onto a validation, certificate, lineage, holdout slot or publication is let through, and so are an `UPDATE OR REPLACE` and an `INSERT OR REPLACE` that take a published registry entry's place. No table is declared WITHOUT ROWID (`src/alpha_foundry/infrastructure/db.py:335-489`), so a statement can also claim another row's number; OR REPLACE then removes that row. Foreign keys prevent this for the other justifying rows; for a consumed holdout slot and a published registry entry nothing does. `PublicationTriggers.JustificationHoldsExactly` shows that among statements on one row these alone undo a justification, and says which of them do; `PublicationExceptions.EachExceptionHappens` shows that each kind exists. No repository step issues such a statement, and without them everything published stays justified (`PublicationJustification.PublishedStayJustified`).
- The integer guard refuses some integers whose text would fit; `IntegerText.GuardRefusesThoughFitting` says exactly which.
- An all-tied score matrix means certain overfitting only with two or more trials; with one trial the probability is zero.
- The search's post-loop return, SLOT_EXHAUSTED and FAILED_INVARIANT are unreachable, as are the internal accounting errors of the cross-venue engine other than residual risk, the margin-range assertion of the derivatives engine and the inventory error of market making. Negative cash in market making is reachable (`MarketMaking.CashNegativeHappens`), exactly as `MarketMaking.CashNegativeExactly` says.

## Model

| member | source | states |
|---|---|---|
| Canonical.EncodeObjectPayload | src/alpha_foundry/domain/canonical.py:97-128 | the loop that collects, checks, sorts and re-frames fields returns the recursively defined payload, or the first field error in iteration order |
| Canonical.EncodedIsFramed | src/alpha_foundry/domain/canonical.py:64-66 | every encoding is a type byte, an eight-byte length and exactly that many payload bytes |
| CanonicalIdentity.DecodeUndoesEncode | src/alpha_foundry/domain/canonical.py:64-128 | a decoder recovers the normal form of any encodable nested value from its encoding followed by anything, and returns that remainder untouched |
| CanonicalIdentity.MappingDecodes | src/alpha_foundry/domain/canonical.py:97-128 | an object payload decodes to its fields in name order, each with the meaning of its value |
| CanonicalIdentity.UniquelyDecodable | src/alpha_foundry/domain/canonical.py:30-38 | AF-CANON is prefix-free: equal byte streams split into the same value encoding and the same remainder |
| CanonicalIdentity.IdentityIsMeaning | src/alpha_foundry/domain/canonical.py:64-94 | two encodable values share their bytes exactly when they have the same normal form |
| CanonicalIdentity.MappingIdentity | src/alpha_foundry/domain/canonical.py:97-128 | two objects share their payload exactly when they are the same finite map from names to meanings |
| CanonicalIdentity.AcceptedExactly | src/alpha_foundry/domain/canonical.py:97-128 | the field loop accepts exactly the lists whose names are distinct bounded ASCII strings and whose values encode |
| CanonicalIdentity.FieldOrderIrrelevant | src/alpha_foundry/domain/canonical.py:30-38 | rearranging the entries of an object changes neither its acceptance nor a byte of its encoding |
| CanonicalIdentity.DigestInputIdentity | src/alpha_foundry/domain/canonical.py:41-61 | the digest preimage is injective in both parts: equal preimages mean the same domain and the same object meaning, and conversely |
| Octets.BigEndianReadsBack | src/alpha_foundry/domain/canonical.py:204-213 | fixed-width big-endian integers read back |
| Octets.PointReadsBack | src/alpha_foundry/domain/canonical.py:131-137 | each code point is recovered from its UTF-8 bytes, and the lead byte tells their number |
| Octets.Utf8ReadsBack | src/alpha_foundry/domain/canonical.py:131-137 | UTF-8 text decodes to the code points it encodes |
| Octets.Utf8KeepsNulOut | src/alpha_foundry/domain/canonical.py:49-61 | a domain without NUL has no NUL byte, so the separator of the preimage is the first one |
| Octets.TimestampReadsBack | src/alpha_foundry/domain/canonical.py:193-201 | timestamp text reads back to the UTC fields it renders |
| IntegerText.IntegerReadsBack | src/alpha_foundry/domain/canonical.py:140-144 | integer text reads back to the integer |
| IntegerText.BitsBelowDigits | src/alpha_foundry/domain/canonical.py:147-149 | 2^b < 10^c whenever 30103 b <= 100000 c, resting on 2^100000 <= 10^30103 |
| IntegerText.NeverUnderCounts | src/alpha_foundry/domain/canonical.py:147-149 | the estimate is at least the decimal digit count of every integer |
| IntegerText.AcceptedIntegerFits | src/alpha_foundry/domain/canonical.py:140-144 | every accepted integer is written in at most 4096 bytes |
| IntegerText.GuardAcceptsExactly | src/alpha_foundry/domain/canonical.py:140-149 | the guard accepts exactly the integers strictly between -2^13603 and 2^13606 |
| IntegerText.GuardRefusesThoughFitting | src/alpha_foundry/domain/canonical.py:140-149 | the guard is conservative: exactly two ranges, both inhabited, hold integers whose text would fit and that are refused |
| DecimalText.FixedOfIsTheNumber | src/alpha_foundry/domain/canonical.py:152-190 | the reduced form of finite decimals is equal exactly when the numbers are |
| DecimalText.ReadsBack | src/alpha_foundry/domain/canonical.py:152-190 | canonical decimal text reads back to the number it renders |
| DecimalText.CanonicalTextIsNormalForm | src/alpha_foundry/domain/canonical.py:152-190 | two finite decimals get the same text exactly when numerically equal, and the text denotes the number |
| DecimalText.PositionalIsCanonical | src/alpha_foundry/domain/canonical.py:165-190 | stripping trailing zeros and placing the point renders the same text as the reduced form |
| DecimalText.PositionalSize | src/alpha_foundry/domain/canonical.py:165-183 | the length the guard computes before building anything is the length of the text |
| DecimalText.NormalizedDecimal | src/alpha_foundry/domain/canonical.py:152-190 | the renderer returns the canonical text, and refuses exactly non-finite values and values whose text exceeds 4096 bytes |
| DecimalText.ReportDecimal | src/alpha_foundry/reporting.py:121-141 | the report renderer produces the same canonical text for every finite value |
| CanonicalFormat.TypeAndLength | src/alpha_foundry/domain/canonical.py:64-94 | the first byte is the type tag of the value, the next eight the payload length |
| CanonicalFormat.Payloads | src/alpha_foundry/domain/canonical.py:69-94 | what the payload of each type holds: nothing, UTF-8, integer or decimal text, the bytes, the timestamp text, the items or the fields |
| CanonicalFormat.ItemsFollow | src/alpha_foundry/domain/canonical.py:87-90 | a list payload is its items' encodings one after another |
| CanonicalFormat.FieldsInNameOrder | src/alpha_foundry/domain/canonical.py:97-128 | fields are written in ascending order of their names, no name twice |
| CanonicalFormat.DigestLayout | src/alpha_foundry/domain/canonical.py:41-61 | a digest preimage exists exactly for a non-empty valid domain without NUL and an encodable object, and is domain, zero byte, payload |
| CanonicalFormat.RefusedExactly | src/alpha_foundry/domain/canonical.py:69-94 | which values have a payload, and with what error each of the others is refused |
| CanonicalFormat.FramedIfCountable | src/alpha_foundry/domain/canonical.py:64-66 | a payload is framed exactly when eight bytes can count it |
| CanonicalFormat.NamesExactly | src/alpha_foundry/domain/canonical.py:97-112 | a field name must be a string of one to 65535 ASCII characters that no field before it has; each failure has its own error, in the source's order |
| CanonicalFormat.FirstRefusalDecides | src/alpha_foundry/domain/canonical.py:97-115 | the first field that is refused, by name or by value, decides what is reported |
| CanonicalFormat.ObjectRefusedExactly | src/alpha_foundry/domain/canonical.py:117-119 | otherwise an object is refused only when four bytes cannot count its fields |
| CanonicalFormat.BigEndianOrders | src/alpha_foundry/domain/canonical.py:204-213 | big-endian bytes of one width compare as their numbers, so the most significant byte comes first |
| CanonicalFormat.PointsInOrder | src/alpha_foundry/domain/canonical.py:131-137 | ASCII encodes as itself, and a smaller code point has the smaller bytes at the first difference |
| CanonicalFormat.Utf8Orders | src/alpha_foundry/domain/canonical.py:131-137 | UTF-8 texts compare as their code points do |
| CanonicalFormat.IntegerTextGrows | src/alpha_foundry/domain/canonical.py:140-144 | integer text grows digit by digit, with a minus in front of negatives |
| CanonicalFormat.FixedTextParts | src/alpha_foundry/domain/canonical.py:152-190 | decimal text is a minus for negatives, whole digits without a leading zero, and for a positive scale a point and exactly that many digits |
| CanonicalFormat.TimestampLayout | src/alpha_foundry/domain/canonical.py:193-201 | timestamp text is YYYY-MM-DDTHH:MM:SS.ffffffZ with each field in its place |
| Subsets.CombinationsAre | src/alpha_foundry/validation/pbo.py:642-668 | exactly the ascending k-element position tuples are enumerated |
| Subsets.CombinationsCount | src/alpha_foundry/validation/pbo.py:642-668 | there are n! / (k! (n-k)!) of them |
| Subsets.ComplementReverses | src/alpha_foundry/validation/pbo.py:642-668 | complementing turns the list of k-subsets into the list of (n-k)-subsets read backwards |
| Subsets.CombinationsAscend | src/alpha_foundry/validation/pbo.py:642-668 | the tuples come in lexicographic order |
| Cscv.ConstructCscvPartitions | src/alpha_foundry/validation/pbo.py:642-668 | partitions in order for every usable fold list, otherwise the first failing check: repeated, blank, odd or too few |
| Cscv.SidesSplitFolds | src/alpha_foundry/validation/pbo.py:311-328 | each partition puts every fold on exactly one of two equally long sides |
| Cscv.EveryHalfAppears | src/alpha_foundry/validation/pbo.py:642-668 | every half-size set of folds is the training side of some partition |
| Cscv.HalvesAppearOnce | src/alpha_foundry/validation/pbo.py:642-668 | no two partitions share a training side |
| Cscv.PartitionCount | src/alpha_foundry/validation/pbo.py:642-668 | there are S! / ((S/2)!)^2 partitions of S folds |
| Cscv.MirrorSwapsSides | src/alpha_foundry/validation/pbo.py:642-668 | partition i is the train/test swap of partition N-1-i |
| Cscv.PartitionNamesDistinct | src/alpha_foundry/validation/pbo.py:655-668 | partition identifiers have one width and differ pairwise |
| Cscv.PartitionsInOrder | src/alpha_foundry/validation/pbo.py:642-668 | partitions come in lexicographic order of their training positions under names that count them, and both sides keep the folds' order |
| PboMatrix.RowOrderIrrelevant | src/alpha_foundry/validation/pbo.py:918-947 | rearranging rows with distinct pairs leaves the matrix digest input alone |
| PboMatrix.DigestInputIsRows | src/alpha_foundry/validation/pbo.py:918-947 | matrix digest inputs agree exactly when the sorted rows carry the same pairs and numerically the same scores |
| PboMatrix.DigestedValues | src/alpha_foundry/validation/pbo.py:918-947 | the matrix digest covers folds and trials as listed, the profile hash in 32 bytes, "ASC" or "DESC", and the rows in their order by trial and fold |
| PboMatrix.DigestedRow | src/alpha_foundry/validation/pbo.py:937-944 | each row with its fold, its score and its trial |
| PboCertificate.PermittedMeetsGates | src/alpha_foundry/validation/pbo.py:87-104 | a permitted trial is complete and passes every frozen gate on its own metrics, or its gate results pass every gate before an excepted one and fail there |
| TrialEvidence.ComparisonsFit | src/alpha_foundry/validation/pbo.py:827-839 | the comparisons are those of a linear order: weak ones add equality, above is below reversed, and being below is kept on the way down |
| PboEvidence.EvidenceExactly | src/alpha_foundry/validation/pbo.py:753-824 | evidence matches exactly when each result copies its gate, decides as the observed value does, carries a reason exactly on failure, and passes on the trial's own metric, or passes up to a last reported gate that fails |
| PboEvidence.EligibleExactly | src/alpha_foundry/validation/pbo.py:75-104 | a trial is eligible exactly when policy and profile agree, it is complete with matching evidence, and it was evaluated or failed at an excepted gate |
| PboEvidence.UnknownGateExactly | src/alpha_foundry/validation/pbo.py:530-534 | a policy names no unknown gate exactly when each gate it names is one of the profile's |
| PboEvidence.TerminalsListed | src/alpha_foundry/validation/pbo.py:504-511 | the terminal trials are those with a terminal and an evaluation, in ledger order |
| PboEvidence.EligiblesListed | src/alpha_foundry/validation/pbo.py:504-519 | the derived eligible trials are the eligible ones, in ledger order |
| PboCertificate.RepeatsExactly | src/alpha_foundry/validation/pbo.py:842-865 | the scan reports a repeat exactly when a trial/fold pair occurs twice |
| PboCertificate.MatrixCoverage | src/alpha_foundry/validation/pbo.py:842-865 | the dictionary scan yields the observed trials, each one's observed folds, and the repeats |
| PboCertificate.ScanTrials | src/alpha_foundry/validation/pbo.py:504-519 | the ledger scan yields the terminal trials, the derived eligible ones and the violations in order |
| PboCertificate.CheckScores | src/alpha_foundry/validation/pbo.py:540-563 | the score checks yield the violations of coverage, rows and repeats in order |
| PboCertificate.CertifyPboInput | src/alpha_foundry/validation/pbo.py:472-594 | certification returns the assembled certificate exactly when its constructor accepts it, after the identity and direction checks |
| PboCertification.TrialViolationsExactly | src/alpha_foundry/validation/pbo.py:504-517 | no trial violation exactly when every trial is terminal and its gate evidence matches the profile |
| PboCertification.ScoresExactly | src/alpha_foundry/validation/pbo.py:540-563 | no score violation exactly when pairs are distinct, scores usable and each eligible trial covers each fold and nothing else |
| PboCertification.CoveredIsProduct | src/alpha_foundry/validation/pbo.py:842-865 | per-row coverage without repeats is the full trial-by-fold product |
| PboCertification.NoViolationExactly | src/alpha_foundry/validation/pbo.py:472-594 | the certifier records no violation exactly when ledger, evidence, stop reason, minimum and score product are all complete |
| PboCertification.CompleteInputIsAccepted | src/alpha_foundry/validation/pbo.py:155-207 | for a complete input the certificate constructor accepts exactly when the matrix has an encodable digest |
| PboEvidence.CertificateLists | src/alpha_foundry/validation/pbo.py:868-915 | the certificate lists started, terminal and eligible trials in identifier order whether it passed or not, names run, profile and stop, and passed exactly when the input was complete |
| PboEvidence.CertificateCovers | src/alpha_foundry/validation/pbo.py:842-865 | it lists each scored trial once, in order, with exactly the folds it was scored on |
| PboEvidence.ConstructorAcceptsExactly | src/alpha_foundry/validation/pbo.py:155-207 | the constructor accepts a failed certificate by its identity alone and a passed one exactly when its lists are distinct, non-blank and equal pairwise, each row covers the expected folds, the stop is normal and the digest present |
| PboCertification.BuilderPairsExactly | src/alpha_foundry/validation/pbo.py:597-639 | the builder's set-and-count comparison means exactly the certified product without repeats |
| PboCertification.BuilderAcceptsExactly | src/alpha_foundry/validation/pbo.py:597-639 | what the builder accepts: right direction, exact product, usable scores and the certified digest; the matrix is then accepted and bound |
| PboEvidence.BuilderRefusesExactly | src/alpha_foundry/validation/pbo.py:597-619 | why the builder refuses, in its order: certificate, direction, certified pairs, usable scores |
| PboCertification.CertifiedScoresBuild | src/alpha_foundry/validation/pbo.py:597-639 | certified scores, offered in any order, build the one sorted matrix, which the calculator finds bound to the certificate |
| PboCertification.OnlyCertifiedScoresBuild | src/alpha_foundry/validation/pbo.py:597-639 | anything else that builds carries the same pairs and numerically equal scores, or exhibits a hash collision |
| Pbo.CalculatePbo | src/alpha_foundry/validation/pbo.py:671-750 | succeeds exactly for an admissible precision and a bound, passed certificate; then every partition has its outcome in order, as `PboAverages.OutcomeByNumbers` reads it, and the probability is the overfit share; otherwise the first failing check: precision, certificate, binding field by field, blank folds |
| PboAverages.MeanWeighsFolds | src/alpha_foundry/validation/pbo.py:978-982 | the mean over one fold is its score, and over two groups of folds it weighs each group's mean by its size |
| PboAverages.MeanIgnoresOrder | src/alpha_foundry/validation/pbo.py:978-982 | the mean depends on which folds are averaged, not on their order |
| PboAverages.CellIsTheScore | src/alpha_foundry/validation/pbo.py:304-309 | a trial's score on a fold is the number its row carries |
| PboAverages.RealOfScales | src/alpha_foundry/validation/pbo.py:978-982 | a decimal denotes its signed digits, ten times as much for each step of its exponent |
| PboAverages.SelectedByNumbers | src/alpha_foundry/validation/pbo.py:985-988 | the selected trial has the highest or lowest mean as the direction says, and the first identifier among equals |
| PboAverages.OutcomeByNumbers | src/alpha_foundry/validation/pbo.py:696-734 | everything an outcome records: both means of the selected trial, a rank one above the trials with a worse mean or an equal one and an earlier identifier, and overfit exactly below one half |
| PboAverages.OverfitCountIs | src/alpha_foundry/validation/pbo.py:735-737 | the overfit count is the number of overfit partitions |
| PboMeaning.SelectedIsBest | src/alpha_foundry/validation/pbo.py:985-988 | the selected trial is best in sample under the direction and first by identifier among equals; the mean it compares is pinned by `PboAverages.MeanWeighsFolds` |
| PboMeaning.RankCounts | src/alpha_foundry/validation/pbo.py:991-994 | a rank is one more than the number of trials standing below |
| PboMeaning.OverfitExactly | src/alpha_foundry/validation/pbo.py:716-734 | an outcome is overfit exactly when 2 * rank < trials + 1 |
| PboMeaning.OverfitMeansMoreAbove | src/alpha_foundry/validation/pbo.py:706-734 | equivalently, strictly more trials stand above the selected one out of sample than below it |
| PboSymmetry.OutcomesAgree | src/alpha_foundry/validation/pbo.py:671-750 | one partition's selection, rank and verdict survive negating all scores and flipping the direction; the means change sign |
| PboSymmetry.CellsDecide | src/alpha_foundry/validation/pbo.py:671-750 | negating every score and flipping the direction leaves every selection, rank, verdict and the probability unchanged; so does rewriting equal numbers |
| PboSymmetry.TiesMeanCertainOverfit | src/alpha_foundry/validation/pbo.py:671-750 | an all-tied matrix has probability one with two or more trials, zero with a single one |
| PboSymmetry.DominanceMeansNoOverfit | src/alpha_foundry/validation/pbo.py:671-750 | a trial strictly best on every fold is always selected and the probability is zero |
| PboSymmetry.SameNumberSameReal | src/alpha_foundry/validation/pbo.py:978-982 | decimals compare equal exactly when they denote the same real |
| PboSymmetry.CellsPresent | src/alpha_foundry/validation/pbo.py:262-309 | an accepted matrix has a usable score for every trial and fold |
| PboSymmetry.CertificateFixesResult | src/alpha_foundry/validation/pbo.py:671-694 | all score lists that build against one certificate give the same result, or exhibit a hash collision |
| SearchRanking.QuantizeSettles | src/alpha_foundry/search/ranking.py:45-63 | a quantized score is within half a unit and quantizes to itself, so the comparison's re-check cannot fail |
| SearchRanking.QuantizedScoreVector | src/alpha_foundry/search/ranking.py:114-134 | the loop returns the quantized score of every ranking field, or nothing for an unrankable trial |
| SearchRanking.RankableMeetsGates | src/alpha_foundry/search/ranking.py:89-134 | a rankable trial passes every frozen gate on its own metrics |
| SearchRanking.RankableCompares | src/alpha_foundry/search/ranking.py:137-161 | comparing the vectors of two rankable trials never raises and gives the lexicographic lead |
| SearchRanking.RankTrials | src/alpha_foundry/search/ranking.py:175-188 | the loop returns the sorted ranking of the rankable trials |
| SearchRanking.RankingMeans | src/alpha_foundry/search/ranking.py:164-188 | a ranking lists exactly the rankable trials, best first, ties by raw hash |
| SearchRanking.HeadIsBest | src/alpha_foundry/search/ranking.py:175-188 | its head is the best trial; it is empty exactly when nothing is rankable |
| SearchRanking.BestOfBoth | src/alpha_foundry/search/runner.py:576-601 | the better of two batches' best trials is the best of both batches |
| SearchMeaning.QuantizedToNearest | src/alpha_foundry/search/ranking.py:45-63 | quantization takes the nearest multiple of the unit, ties as the rounding mode says |
| SearchMeaning.ScoresAreMetrics | src/alpha_foundry/search/ranking.py:114-134 | a score vector exists exactly when every ranking metric does, and holds them quantized |
| SearchMeaning.RankableExactly | src/alpha_foundry/search/ranking.py:89-134 | a trial is rankable exactly when it was evaluated completely without repeated metrics, passes every frozen gate and has every ranking metric |
| SearchMeaning.LeadByFirstDifference | src/alpha_foundry/search/ranking.py:137-161 | one vector leads another by the first field they differ in, towards its direction |
| SearchAlternatives.RotationVisitsEach | src/alpha_foundry/search/runner.py:216-224 | a slot's offsets visit each schedule position exactly once |
| SearchAlternatives.ParentTuplesAre | src/alpha_foundry/search/runner.py:383-421 | the parent tuples tried are exactly the legal ones: ascending combinations or repetition-free permutations |
| SearchAlternatives.ParentTuplesDistinct | src/alpha_foundry/search/runner.py:383-421 | no parent tuple is tried twice |
| SearchAlternatives.VectorsAre | src/alpha_foundry/search/runner.py:423-451 | the parameter vectors are exactly the index vectors within the grid |
| SearchAlternatives.VectorsDistinct | src/alpha_foundry/search/runner.py:423-451 | no parameter vector is tried twice |
| SearchAlternatives.AlternativesAre | src/alpha_foundry/search/runner.py:216-232 | a slot enumerates exactly the legal (offset, parents, parameters) alternatives; which operator an offset means is `SearchMeaning.ScheduledOperator` |
| SearchAlternatives.AlternativesDistinct | src/alpha_foundry/search/runner.py:216-232 | each of them once |
| SearchMeaning.ScheduledOperator | src/alpha_foundry/search/runner.py:216-226 | an alternative at offset k of slot s in generation g uses the operator schedule[(g * offspring + s + k) mod length] |
| SearchMeaning.ScheduleMovesOn | src/alpha_foundry/search/runner.py:216-226 | from each slot to the next, across the end of a generation too, the operator tried at one offset moves on by one place of the schedule |
| SearchMeaning.AlternativesInOrder | src/alpha_foundry/search/runner.py:383-451 | within an offset alternatives go by parent hash and tuple, then by parameter hash and index vector |
| SearchMeaning.JudgedByAnswer | src/alpha_foundry/search/runner.py:233-343 | an alternative is taken exactly when its operator, shown the named parents, proposes an unseen candidate of the universe; otherwise its rejection says why |
| SearchSteps.FirstUnseen | src/alpha_foundry/search/universe.py:28-39 | returns a candidate that was neither proposed nor visited, and nothing only when there is none |
| SearchMeaning.TraversalInOrder | src/alpha_foundry/search/universe.py:15-25 | the traversal goes by the seeded hash, then by the candidate's own |
| SearchLineage.AcceptKeepsLedger | src/alpha_foundry/search/runner.py:453-495 | accepting an unseen universe candidate keeps trials, visits, events and proposals in step |
| SearchLineage.SomethingUnseen | src/alpha_foundry/search/runner.py:345-381 | while anything is unvisited the direct fallback finds a candidate, so SLOT_EXHAUSTED is unreachable |
| SearchLineage.RejectionsAre | src/alpha_foundry/search/runner.py:233-343 | the k-th rejection event names the k-th alternative of the slot and says why the answer its operator gave then was not taken |
| SearchLineage.PoolKnown | src/alpha_foundry/search/runner.py:202-210 | a frozen pool holds distinct candidates of the universe |
| SearchMeaning.PoolIsTheTop | src/alpha_foundry/search/runner.py:202-210 | a pool holds rankable trials, as many as there are up to its size, and no trial left out leads one in it |
| SearchProgress.UpdatedBest | src/alpha_foundry/search/runner.py:576-601 | the incremental best becomes the best of all trials so far and the counter resets exactly on a strict score improvement |
| SearchProgress.HeadsAgree | src/alpha_foundry/search/runner.py:576-601 | the kept best has the scores and hash of the head of a full re-ranking |
| SearchProgress.SlotKeeps | src/alpha_foundry/search/runner.py:212-381 | every slot appends exactly one placed, descended trial, or fails on its operator |
| SearchProgress.FallingBackKeeps | src/alpha_foundry/search/runner.py:345-381 | a direct fallback is preceded by one rejection per alternative of its slot |
| SearchOutcome.SlotAdvances | src/alpha_foundry/search/runner.py:138-155 | a slot that does not break leads to the next one with one more trial |
| SearchOutcome.InitialAdvances | src/alpha_foundry/search/runner.py:96-131 | the initial population is the prefix of the traversal order |
| SearchOutcome.GenerationCompletes | src/alpha_foundry/search/runner.py:558-574 | a complete generation continues or stops soundly; FAILED_INVARIANT is unreachable |
| SearchOutcome.CompletionTracks | src/alpha_foundry/search/runner.py:558-601 | after a generation best and plateau counter describe all trials so far, the counter growing by at most one |
| SearchOutcome.FreezingKeeps | src/alpha_foundry/search/runner.py:202-210 | the pool frozen for a generation is the ranked prefix of all earlier trials and stays so |
| SearchOutcome.LineageValid | src/alpha_foundry/search/models.py:582-639 | every result satisfies the result model's own terminal-lineage validator |
| SearchOutcome.GenerationBound | src/alpha_foundry/search/runner.py:133-169 | at most ceil((universe - initial) / offspring) generations follow generation zero |
| SearchOutcome.PlaceDecides | src/alpha_foundry/search/runner.py:497-520 | a ledger position belongs to one generation and slot |
| SearchOutcome.FallbackTriedEverything | src/alpha_foundry/search/runner.py:345-381 | before a direct fallback each legal alternative of the slot has exactly one rejection, in enumeration order, for the answer its operator gave |
| SearchRunner.SearchRunner.AppendProposalEvent | src/alpha_foundry/search/runner.py:603-628 | appends one numbered proposal event and changes nothing else |
| SearchRunner.SearchRunner.AppendTrialEvent | src/alpha_foundry/search/runner.py:630-647 | appends one numbered trial event and changes nothing else |
| SearchRunner.SearchRunner.StartAndEvaluate | src/alpha_foundry/search/runner.py:497-556 | appends the evaluated trial with its start and end events and notes interruption or engine failure |
| SearchRunner.SearchRunner.AcceptCandidate | src/alpha_foundry/search/runner.py:453-495 | proposes, visits and evaluates an unseen candidate; refuses a seen one and changes nothing |
| SearchRunner.SearchRunner.TryAlternative | src/alpha_foundry/search/runner.py:233-343 | records one operator answer: accepted, rejected with its kind, or an operator failure |
| SearchRunner.SearchRunner.TryOperator | src/alpha_foundry/search/runner.py:226-343 | tries all alternatives of one offset, those of its scheduled operator, in order until one decides |
| SearchRunner.SearchRunner.FallBackDirectly | src/alpha_foundry/search/runner.py:345-381 | takes the first unseen candidate of the traversal once every alternative was rejected |
| SearchRunner.SearchRunner.RunSlot | src/alpha_foundry/search/runner.py:212-381 | the whole slot as a function of the state before it, offset by offset through the schedule as `SearchMeaning.ScheduledOperator` says |
| SearchRunner.SearchRunner.UpdatePlateau | src/alpha_foundry/search/runner.py:576-601 | updates best and counter from a generation's ranking |
| SearchRunner.SearchRunner.CompleteGeneration | src/alpha_foundry/search/runner.py:558-574 | failure, exhaustion, plateau or continuation, in the source's order |
| SearchRunner.SearchRunner.FreezeParentPool | src/alpha_foundry/search/runner.py:202-210 | the top-ranked trials so far, up to the pool size |
| SearchRunner.SearchRunner.RunInitialGeneration | src/alpha_foundry/search/runner.py:96-131 | generation zero ends complete or with a sound result |
| SearchRunner.SearchRunner.RunGeneration | src/alpha_foundry/search/runner.py:133-169 | each further generation visits at least one more candidate or ends with a sound result |
| SearchRunner.SearchRunner.Search | src/alpha_foundry/search/runner.py:90-169 | every run terminates with a sound result: valid lineage, placed trials, frozen pools, earned fallbacks, no FAILED_INVARIANT or SLOT_EXHAUSTED, exact plateau and global best; a second run is refused |
| SearchMeaning.LedgerRecords | src/alpha_foundry/search/runner.py:453-556 | each trial of a result records the evaluation its candidate was given, and its proposal the same place, candidate and operator under the source that fits |
| SearchMeaning.EndsWithFirstFailure | src/alpha_foundry/search/runner.py:536-601 | a run ends with its first failed or interrupted evaluation and names it; a run that names no failure had none |
| SearchMeaning.OperatorProposedIt | src/alpha_foundry/search/runner.py:212-343 | behind each operator trial stands an alternative of its slot over the frozen pool whose operator, shown the trial's parents, proposed its candidate |
| SearchMeaning.WellFormedExactly | src/alpha_foundry/search/models.py:393-428 | which evaluations the ledger takes as they are; any other answer is recorded as an engine failure |
| SearchMeaning.LedgerFollowsSchedule | src/alpha_foundry/search/runner.py:212-343 | the operator behind the trial at a ledger position is one the schedule names for that position, counted on across generations |
| PublicationInvariants.EmptyIsSound | src/alpha_foundry/infrastructure/db.py:19-41 | a freshly initialised store satisfies the invariant |
| PublicationInvariants.ClaimNeverLoses | src/alpha_foundry/application/jobs.py:105-143 | the oldest queued job is claimed and never loses its compare-and-swap |
| PublicationEffects.CreatesExactly | src/alpha_foundry/application/jobs.py:47-98 | an equal request finds the job there is, one for another resource conflicts, and only a new one adds a queued row |
| PublicationEffects.CreatingAgainFinds | src/alpha_foundry/application/jobs.py:47-98 | asked again, in whatever state the job is by then, a creation finds the job it made |
| PublicationEffects.ClaimsExactly | src/alpha_foundry/application/jobs.py:105-143 | a claim starts the queued job that is first by creation time and identifier, and writes exactly its status, start, worker and version |
| PublicationInvariants.TransitionsExactly | src/alpha_foundry/application/jobs.py:145-227 | which transitions succeed; QUEUED to RUNNING is listed but always violates the table's CHECK |
| PublicationEffects.MovesExactly | src/alpha_foundry/application/jobs.py:145-227 | when a transition succeeds, by status, error and result, and which columns of which rows it writes |
| PublicationInvariants.MoveKeeps | src/alpha_foundry/application/jobs.py:145-227 | transitions, with their revocation of owned publications, keep the invariant |
| PublicationInvariants.RevokeKeeps | src/alpha_foundry/application/jobs.py:372-418 | releasing what some jobs were preparing keeps the invariant even if those jobs no longer qualify as owners |
| PublicationInvariants.RecoveryClears | src/alpha_foundry/application/jobs.py:229-275 | after recovery no job is RUNNING and every remaining PREPARING owner is SUCCEEDED |
| PublicationEffects.RecoversExactly | src/alpha_foundry/application/jobs.py:229-275 | recovery fails every running job, and exactly the publications they were preparing lose their owner, each with its two events |
| PublicationInvariants.RecoverKeeps | src/alpha_foundry/application/jobs.py:229-275 | recovery keeps the invariant |
| PublicationInvariants.OpenKeeps | src/alpha_foundry/application/publication.py:532-628 | opening or pinning a publication keeps the invariant |
| PublicationEffects.OpensNew | src/alpha_foundry/application/publication.py:532-628 | opening for a validation without a publication adds one available row under the command's identities, or fails on a taken key or a missing reference |
| PublicationEffects.OpensExisting | src/alpha_foundry/application/publication.py:532-628 | opening for one that has a row returns it when every identity agrees, pinning what is unpinned, and conflicts otherwise |
| PublicationInvariants.LeaseKeeps | src/alpha_foundry/application/publication.py:636-767 | acquisition, reclaiming an expired lease included, keeps epoch, attempts and events in step |
| PublicationLeases.LiveLeaseHolds | src/alpha_foundry/application/publication.py:655-663 | acquiring a row whose lease expires later than now answers nothing and changes no table |
| PublicationLeases.ExpiredLeaseIsTaken | src/alpha_foundry/application/publication.py:655-700 | a lease that has run out is always given to a running worker with a fresh token |
| PublicationLeases.AcquiresExactly | src/alpha_foundry/application/publication.py:636-767 | an acquisition takes a row exactly when its arguments are well formed, the row waits in the version seen or its lease has run out under another token, and the job works on it; otherwise it changes nothing and says why |
| PublicationLeases.AcquisitionTakes | src/alpha_foundry/application/publication.py:664-767 | what it changes then: that row, column by column, and its events |
| PublicationLeases.EpochStep | src/alpha_foundry/application/publication.py:636-1051 | while an epoch goes on its lease and owner stay; it ends only by its own failure or commit, the end of its job, recovery, or an acquisition after the lease has run out |
| PublicationLeases.EpochEndedBy | src/alpha_foundry/application/publication.py:636-1051 | the same along runs: an epoch that is over by a later state was ended at some action that may end it |
| PublicationInvariants.StageKeeps | src/alpha_foundry/application/publication.py:769-834 | staging keeps the invariant |
| PublicationEffects.StagesExactly | src/alpha_foundry/application/publication.py:769-834 | staging succeeds exactly for the holder of a live lease who adds to what is staged |
| PublicationInvariants.FailKeeps | src/alpha_foundry/application/publication.py:836-906 | failing an attempt keeps the invariant |
| PublicationEffects.FailsExactly | src/alpha_foundry/application/publication.py:836-906 | failing succeeds exactly for the holder, keeps every staged or orphaned hash once, and does nothing to a published row |
| PublicationInvariants.PublishKeeps | src/alpha_foundry/application/publication.py:908-1051 | the atomic publication keeps the invariant |
| PublicationEffects.PublishesExactly | src/alpha_foundry/application/publication.py:908-1051 | publishing succeeds exactly for the holder of a live lease whose job still works, with the two staged reports, the pinned registry identity, standing prerequisites and nothing taken |
| PublicationEffects.PublishingWrites | src/alpha_foundry/application/publication.py:945-1051 | what a commit writes: row, event, artifacts, links, registry entry and finished job, column by column |
| PublicationInvariants.StepKeeps | src/alpha_foundry/application/publication.py:532-1051 | every step of every repository keeps the invariant, whether it commits or rolls back |
| PublicationRuns.RunKeeps | src/alpha_foundry/application/publication.py:532-1051 | the invariant holds after every action of every interleaving |
| PublicationRuns.RunAdvances | src/alpha_foundry/application/jobs.py:105-275 | along any run published rows and terminal jobs are final and a row never returns to an old version |
| PublicationRuns.SupersededNeverWrites | src/alpha_foundry/application/publication.py:769-1051 | a stage, fail or publish call holding a superseded snapshot changes no table |
| PublicationRuns.StagedInEpoch | src/alpha_foundry/application/publication.py:769-834 | hashes staged for a PREPARING publication were staged in its present epoch |
| PublicationRuns.PublishesWhatItStaged | src/alpha_foundry/application/publication.py:908-1051 | what is published was staged, both hashes together, in the very epoch that publishes it, and the links are those hashes |
| PublicationRuns.EpochsAccounted | src/alpha_foundry/application/publication.py:1226-1252 | in every reachable state epoch = attempts = ACQUIRED events, ended epochs have one end event each, at most one is PUBLISHED, and the owner of a PREPARING row is its own running or succeeded PUBLISH job |
| PublicationSteps.OldestQueued | src/alpha_foundry/application/jobs.py:105-120 | the queued job that is first by creation time and identifier |
| PublicationSteps.FirstOf | src/alpha_foundry/application/publication.py:866-868 | first occurrences only, nothing lost |
| PublicationTriggers.PublishingJustifies | src/alpha_foundry/application/publication.py:1114-1162 | a commit makes the publication justified: validation, certificate, lineage, holdout, four equal profile hashes and one registry entry |
| PublicationStatements.EditedExactly | src/alpha_foundry/infrastructure/db.py:335-489 | a statement fails exactly when it is plain and some row is in its way by key, unique column or row number; otherwise it leaves the row it writes and every row it neither names nor finds in its way |
| PublicationStatements.ReferencesExactly | src/alpha_foundry/infrastructure/db.py:374-489 | the foreign keys the store enforces on every statement, column by column |
| PublicationStatements.UniqueColumnsStay | src/alpha_foundry/infrastructure/db.py:374-489 | whatever goes through leaves no two rows that share a unique column |
| PublicationStatements.FreshRowsGoIn | src/alpha_foundry/infrastructure/db.py:374-489 | a plain insert under a free key that shares no unique column adds its row |
| PublicationStatements.ValidationsFreezeExactly | src/alpha_foundry/infrastructure/db.py:680-714 | the triggers on validations abort exactly updates and deletes of one a published publication rests on, and inserts repeating its key or content hash |
| PublicationStatements.CertificatesFreezeExactly | src/alpha_foundry/infrastructure/db.py:715-754 | those on certificates the same for the certificate of such a validation, by key or search run |
| PublicationStatements.PublicationsFreezeExactly | src/alpha_foundry/infrastructure/db.py:595-679 | those on publications exactly writes to a published row or in its place, changes to a set registry identity or profile, and publishing without provenance |
| PublicationStatements.OthersFreezeExactly | src/alpha_foundry/infrastructure/db.py:562-783 | those on lineages, holdout slots and the registry exactly writes to closed or consumed rows or in their place, and to or beside the entry of a published publication |
| PublicationStatements.NothingPublishedNothingFrozen | src/alpha_foundry/infrastructure/db.py:555-783 | while nothing is published a statement on validations, certificates or the registry goes through exactly when its constraints hold |
| PublicationTriggers.ValidationsDecide | src/alpha_foundry/infrastructure/db.py:680-714 | a statement on validations undoes a justification exactly when an OR REPLACE update moves another row onto the published validation and that row does not support the publication |
| PublicationTriggers.CertificatesDecide | src/alpha_foundry/infrastructure/db.py:715-754 | on certificates: exactly when another row is moved onto the certificate and is not a passing one of the same profile |
| PublicationTriggers.LineagesDecide | src/alpha_foundry/infrastructure/db.py:574-594 | on lineages: exactly when an open one is moved onto the closed lineage |
| PublicationTriggers.HoldoutsDecide | src/alpha_foundry/infrastructure/db.py:562-625 | on holdout slots: exactly when a different slot is moved onto the consumed one, or an OR REPLACE write of another slot claims the row number of the consumed one |
| PublicationTriggers.PublicationsDecide | src/alpha_foundry/infrastructure/db.py:595-679 | on publications: exactly when an unjustified row is moved onto the published one; evicting it by a unique column breaks a foreign key |
| PublicationTriggers.RegistryDecides | src/alpha_foundry/infrastructure/db.py:755-783 | on the registry: exactly when an OR REPLACE insert or update takes the entry's identifier or one of its unique columns and does not leave the same entry, or claims its row number for another entry |
| PublicationTriggers.JustificationHoldsExactly | src/alpha_foundry/infrastructure/db.py:555-783 | a justified publication stays justified under every statement the triggers, unique columns and foreign keys let through, except exactly those |
| PublicationExceptions.EachExceptionHappens | src/alpha_foundry/infrastructure/db.py:555-783 | a store that meets the invariant and every foreign key, and nine statements, at least one on each table, that are let through and undo a justification |
| PublicationJustification.StepsKeepJustification | src/alpha_foundry/application/publication.py:532-1051 | no repository step undoes a justification |
| PublicationJustification.StepsJustify | src/alpha_foundry/application/publication.py:945-1051 | a step leaves nothing published that is not justified |
| PublicationJustification.StepsKeepReferences | src/alpha_foundry/infrastructure/db.py:374-489 | every repository step keeps the foreign keys |
| PublicationJustification.PublishedStayJustified | src/alpha_foundry/application/publication.py:532-1051 | from the empty store on, along any interleaving of repository steps with statements on the validation tables and the registry that replace no justifying row, everything published is justified |
| PublicationRepository.MetadataStore.CreateJob | src/alpha_foundry/application/jobs.py:47-98 | performs in place the step CreateKeeps is about |
| PublicationRepository.MetadataStore.ClaimNextQueuedJob | src/alpha_foundry/application/jobs.py:105-143 | claims the oldest queued job; never fails |
| PublicationRepository.MetadataStore.TransitionJob | src/alpha_foundry/application/jobs.py:145-227 | performs in place the step TransitionsExactly and MoveKeeps are about |
| PublicationRepository.MetadataStore.RevokeOwnedChildren | src/alpha_foundry/application/jobs.py:372-418 | the row-by-row loop releases every publication the job was preparing, each with its event |
| PublicationRepository.MetadataStore.RecoverInterruptedJobs | src/alpha_foundry/application/jobs.py:229-275 | the loop fails every running job and releases its publications |
| PublicationRepository.MetadataStore.GetOrCreateAvailable | src/alpha_foundry/application/publication.py:532-628 | returns the publication of a validation, created or with its missing pins filled |
| PublicationRepository.MetadataStore.Acquire | src/alpha_foundry/application/publication.py:636-767 | performs in place the step LeaseKeeps, AcquiresExactly, AcquisitionTakes and EpochStep are about, or rolls back |
| PublicationRepository.MetadataStore.RecordStagedArtifacts | src/alpha_foundry/application/publication.py:769-834 | performs in place the step StageKeeps, StagedInEpoch and SupersededNeverWrites are about |
| PublicationRepository.MetadataStore.FailAttempt | src/alpha_foundry/application/publication.py:836-906 | performs in place the step FailKeeps, EpochsAccounted and SupersededNeverWrites are about |
| PublicationRepository.MetadataStore.EnsureArtifact | src/alpha_foundry/application/publication.py:1164-1206 | finds or records an artifact; refuses a conflicting one |
| PublicationRepository.MetadataStore.PublishAtomically | src/alpha_foundry/application/publication.py:908-1051 | artifacts, links, registry entry, row, event and job success together, or nothing |
| CrossVenueLaws.BuyFits | src/alpha_foundry/engines/cross_venue.py:269-297 | a positive buy fill never costs more than the unreserved cash |
| CrossVenueMeaning.BuyIsLargest | src/alpha_foundry/engines/cross_venue.py:269-297 | a buy leg fills the largest positive quantity within its request and the participated ask size at the fill ratio and paid with fees by unreserved cash, and nothing when none is |
| CrossVenueMeaning.SellIsLargest | src/alpha_foundry/engines/cross_venue.py:298-320 | a sell leg the largest within its request, the participated bid size and, without short sales, the unreserved position, unless it cannot pay its fees |
| CrossVenueMeaning.LegByNumbers | src/alpha_foundry/engines/cross_venue.py:253-320 | an arriving leg gives back its own reservation, fills something only at a quote neither early nor stale, and moves cash, position and totals by that fill, its notional and its fees |
| CrossVenueLaws.BuyFillKeeps | src/alpha_foundry/engines/cross_venue.py:269-297 | a buy fill cannot fail and keeps reservations and conservation |
| CrossVenueLaws.SellFillKeeps | src/alpha_foundry/engines/cross_venue.py:298-320 | a sell fill cannot fail and keeps reservations and conservation |
| CrossVenueLaws.ReleaseKeeps | src/alpha_foundry/engines/cross_venue.py:253-258 | releasing a live leg leaves exactly the other legs' reservations, all non-negative |
| CrossVenueLaws.CompletionErrors | src/alpha_foundry/engines/cross_venue.py:431-453 | completing a live leg can only fail on legs that filled differently |
| CrossVenueLaws.ExecuteKeeps | src/alpha_foundry/engines/cross_venue.py:253-267 | executing a leg keeps every law; its only possible error is residual risk |
| CrossVenueTrades.AffordableCosts | src/alpha_foundry/engines/cross_venue.py:340-365 | the submitted quantity costs at most the unreserved cash |
| CrossVenueMeaning.AffordableIsLargest | src/alpha_foundry/engines/cross_venue.py:340-365 | the affordable quantity is the largest both legs may carry: maximum, participated sizes on both sides, cash with fees, position |
| CrossVenueMeaning.EdgeExactly | src/alpha_foundry/engines/cross_venue.py:455-473 | a quantity has its edge exactly when net proceeds less net cost reach the minimum share of the bought notional |
| CrossVenueMeaning.SubmitsLargest | src/alpha_foundry/engines/cross_venue.py:322-404 | a decision submits the largest such quantity exactly when the account was marked, the route has room, both quotes are known and neither early nor stale, and the edge is there; otherwise nothing |
| CrossVenueMeaning.LegsOfTrade | src/alpha_foundry/engines/cross_venue.py:366-429 | the two legs arrive their own latencies later, ask for what the fill ratio turns into the quantity, and reserve the whole cost and the position sold |
| CrossVenueMeaning.ReservedBuyFillsWhole | src/alpha_foundry/engines/cross_venue.py:253-297 | a buy whose reserved cash still pays for its quantity and whose quote shows enough fills whole, whatever happened in between |
| CrossVenueTrades.SubmitKeeps | src/alpha_foundry/engines/cross_venue.py:322-404 | submitting an eligible trade keeps every law; its reservations cannot be refused |
| CrossVenueTrades.CashTotal | src/alpha_foundry/engines/cross_venue.py:269-320 | total cash moves by sells less buys less fees, total position by fills |
| CrossVenueTrades.DrainedBooks | src/alpha_foundry/engines/cross_venue.py:431-453 | with no live leg nothing is reserved, no route is open, buys equal sells and totals are conserved |
| CrossVenueTrades.ZeroLatencyTrade | src/alpha_foundry/engines/cross_venue.py:322-482 | with zero latencies a submitted trade fills both legs at exactly the matched quantity and gains at least the minimum edge on its notional |
| CrossVenueSchedule.ZeroLatencyChain | src/alpha_foundry/engines/cross_venue.py:189-194 | the two immediate legs of such a trade run along a known path that keeps the accumulated edge |
| CrossVenueTrace.TickedSchedule | src/alpha_foundry/engines/cross_venue.py:160-204 | after a timestamp its own legs are gone and new ones wait strictly later |
| CrossVenueKnowledge.KnowsTheFreshest | src/alpha_foundry/engines/cross_venue.py:160-247 | at every timestamp exactly the quotes observable by then are known, each venue by its freshest |
| CrossVenueKnowledge.DueLegsKnow | src/alpha_foundry/engines/cross_venue.py:160-251 | due legs execute in the order submitted, before or after the timestamp's own quotes as the priority says |
| CrossVenueKnowledge.DecidesOnNews | src/alpha_foundry/engines/cross_venue.py:160-196 | a decision is made only when quotes came in and the account has been marked; then the eligible trade is submitted and its immediate legs executed, otherwise nothing changes |
| CrossVenueKnowledge.MarksRecorded | src/alpha_foundry/engines/cross_venue.py:160-204 | which values a timestamp records: the very first before the decision, one after it whenever all holdings are freshly quoted, as they must be after an execution |
| CrossVenueKnowledge.LegsWaitTheirLatency | src/alpha_foundry/engines/cross_venue.py:366-429 | a submitted trade's legs wait under their own latency after the decision, or arrive at once when it is zero, the buy first |
| CrossVenueHistory.SameMoment | src/alpha_foundry/engines/cross_venue.py:160-203 | the quotes of a timestamp and the account before it fix everything that happens at it |
| CrossVenueHistory.NotSkipped | src/alpha_foundry/engines/cross_venue.py:160-204 | nothing that is awaited is ever skipped |
| CrossVenueHistory.HistoryIsUnique | src/alpha_foundry/engines/cross_venue.py:152-204 | a run's history is unique: account, marks and times depend on the input alone |
| CrossVenueFailure.StuckAtLeg | src/alpha_foundry/engines/cross_venue.py:249-267 | legs one of which cannot be executed cannot be executed one after another in any way |
| CrossVenueFailure.FailsResponding | src/alpha_foundry/engines/cross_venue.py:189-203 | a timestamp whose decision or closing mark fails cannot happen with positive marks |
| CrossVenueFailure.BeginsEveryHistory | src/alpha_foundry/engines/cross_venue.py:158-204 | the moments a run has processed so far begin every history its input has |
| CrossVenueFailure.NoFurther | src/alpha_foundry/engines/cross_venue.py:158-204 | where the earliest awaited timestamp cannot happen, no history completes with positive marks |
| CrossVenue.CrossVenueState.FillBuy | src/alpha_foundry/engines/cross_venue.py:269-297 | performs in place the fill BuyIsLargest is about, or raises the overdraft check |
| CrossVenue.CrossVenueState.FillSell | src/alpha_foundry/engines/cross_venue.py:298-320 | performs in place the fill SellIsLargest is about |
| CrossVenue.CrossVenueState.CompleteLeg | src/alpha_foundry/engines/cross_venue.py:431-453 | closes a leg and, with the second, its trade |
| CrossVenue.CrossVenueState.ExecuteOrder | src/alpha_foundry/engines/cross_venue.py:253-267 | one leg arriving; of all errors checked only residual risk can happen |
| CrossVenue.CrossVenueState.ExecuteOrders | src/alpha_foundry/engines/cross_venue.py:249-251 | legs in order, stopping at the first error, and then they cannot all be executed |
| CrossVenue.CrossVenueState.ApplyQuotes | src/alpha_foundry/engines/cross_venue.py:245-247 | the latest quote of each venue |
| CrossVenue.CrossVenueState.SubmitRouteIfEligible | src/alpha_foundry/engines/cross_venue.py:322-404 | submits the trade SubmitsLargest is about and returns the legs that arrive at once |
| CrossVenueMeaning.MarkIsWorst | src/alpha_foundry/engines/cross_venue.py:521-531 | the account is marked exactly when everything held is freshly quoted, at what closing every position at bid or ask would leave before fees, the lowest value any prices inside the quotes give |
| CrossVenue.CrossVenueState.RecordEquity | src/alpha_foundry/engines/cross_venue.py:499-519 | records a positive mark with its return; the overdraft check cannot fail |
| CrossVenue.CrossVenueState.QuoteArrivals | src/alpha_foundry/engines/cross_venue.py:232-243 | quotes grouped by the time their venue's clock makes them observable |
| CrossVenue.CrossVenueState.Advance | src/alpha_foundry/engines/cross_venue.py:160-203 | one timestamp as specified: priority of quotes and legs, first mark, decision, closing mark; it fails only where nothing can happen that leaves all marks positive |
| CrossVenue.CrossVenueState.ProcessAll | src/alpha_foundry/engines/cross_venue.py:158-204 | the loop ends by (quote times left, pending times) and produces a complete history, or an error where no history has only positive marks |
| CrossVenue.CrossVenueState.Execute | src/alpha_foundry/engines/cross_venue.py:152-230 | a result exactly when the input has a history with positive marks and one at its last moment; then a drained account: reservations zero, no open route, buys equal sells, positions and cash conserved, cash non-negative; with zero latencies no residual risk and at least the minimum edge earned |
| DerivativesLedger.ChargedMeans | src/alpha_foundry/engines/derivatives.py:211-224 | settlement moves free cash plus margin by the cashflow; margin is touched only once free cash is gone, and free cash turns negative only once margin is |
| DerivativesLedger.MarginCallExactly | src/alpha_foundry/engines/derivatives.py:226-241 | a margin call happens exactly when free cash and margin together miss the maintenance margin; the range assertion cannot fail |
| DerivativesLedger.MovedKeeps | src/alpha_foundry/engines/derivatives.py:243-284 | a trade costs exactly its fee in equity and posts exactly the initial margin |
| DerivativesMeaning.OrderHedges | src/alpha_foundry/engines/derivatives.py:243-284 | an executed order takes value * scale contracts, leaves units + hedge * contracts at zero, posts their initial margin in full and costs its fees in equity and nothing else |
| DerivativesMeaning.OrderByNumbers | src/alpha_foundry/engines/derivatives.py:243-296 | when an order executes, is rejected or liquidates, by signal, account, prices and rates alone |
| DerivativesMeaning.BuyingSignalsRejected | src/alpha_foundry/engines/derivatives.py:243-254 | without permission to short and with positive scale and hedge exactly the buying signals are turned away |
| DerivativesMeaning.HedgedGain | src/alpha_foundry/engines/derivatives.py:243-246 | what a hedged position gains on two price moves; a one-to-one hedge of equal moves gains nothing |
| DerivativesMeaning.AlwaysHedged | src/alpha_foundry/engines/derivatives.py:112-145 | in every run the position is hedged from the first execution or liquidation on, and before it is the one the run opened with |
| DerivativesLedger.RebalanceDecides | src/alpha_foundry/engines/derivatives.py:243-296 | an order executes exactly when its hedge is allowed and equity after fees covers hedge and initial margin; liquidation exactly when only the money is missing and the policy says so; `DerivativesMeaning.OrderByNumbers` says the same without the target functions |
| DerivativesLedger.LiquidatedKeeps | src/alpha_foundry/engines/derivatives.py:304-321 | liquidation costs exactly its fee and leaves free cash only |
| DerivativesMeaning.LiquidationByNumbers | src/alpha_foundry/engines/derivatives.py:304-321 | what a liquidation pays and leaves, by prices and rates |
| DerivativesLedger.LiquidatedRejectsRest | src/alpha_foundry/engines/derivatives.py:131-136 | after a liquidation the rest of the period's signals is only rejected |
| DerivativesLedger.SettledKeeps | src/alpha_foundry/engines/derivatives.py:186-209 | cash moves by variation less funding less borrow, exactly what the totals record |
| DerivativesMeaning.SettlementByNumbers | src/alpha_foundry/engines/derivatives.py:186-209 | a settlement pays the contracts' price move less funding on their exposure and borrow on short units |
| DerivativesMeaning.MarginCallByNumbers | src/alpha_foundry/engines/derivatives.py:226-241 | a margin call happens exactly when free cash and margin miss the maintenance share of the exposure; margin is topped up as far as cash allows |
| DerivativesMeaning.InTimeOrder | src/alpha_foundry/engines/derivatives.py:112-119 | a run takes observations by availability and observation time, and signals by availability, those of one time as they come |
| DerivativesMeaning.OpensClean | src/alpha_foundry/engines/derivatives.py:82-110 | it opens with the given cash, units and contracts, nothing posted, earned or counted |
| DerivativesMeaning.PeriodEarnings | src/alpha_foundry/engines/derivatives.py:118-139 | a period earns the settlement of the position held since the previous observation at the prices of the two |
| DerivativesLedger.BorrowOnlyShort | src/alpha_foundry/engines/derivatives.py:198-209 | only short underlying positions pay borrow |
| DerivativesLedger.PeriodKeeps | src/alpha_foundry/engines/derivatives.py:118-139 | a period keeps equity less earnings plus fees, ends between maintenance and initial margin, and handles each signal and margin call once |
| Derivatives.ActsExactlyAfterLag | src/alpha_foundry/engines/derivatives.py:168-184 | a signal acts in a period exactly when it was first visible the execution lag before |
| Derivatives.AlwaysCovered | src/alpha_foundry/engines/derivatives.py:226-241 | after every period maintenance <= margin <= initial margin, margin is non-negative and no forbidden short is open |
| Derivatives.FreeNeverNegative | src/alpha_foundry/engines/derivatives.py:211-372 | in a run whose recorded equities are all positive, free cash is never negative after a period, although a settlement can overdraw it within one |
| Derivatives.EquityExplained | src/alpha_foundry/engines/derivatives.py:353-372 | final less initial equity is variation less funding, borrow and fees plus the underlying's price gains |
| Derivatives.SignalsAccounted | src/alpha_foundry/engines/derivatives.py:130-142 | orders, rejections and shortfall liquidations count each due signal exactly once |
| Derivatives.BorrowNeedsShorts | src/alpha_foundry/engines/derivatives.py:186-209 | without permission to short no borrow is ever charged |
| Derivatives.PathEnds | src/alpha_foundry/engines/derivatives.py:118-145 | one equity per period plus the initial one when the first period is liquidated; the last is the account's |
| Derivatives.DerivativesState.ScheduleVisibleSignals | src/alpha_foundry/engines/derivatives.py:168-184 | files every newly visible signal under the period its lag leads to, or counts it as unexecuted |
| Derivatives.DerivativesState.ApplySettlement | src/alpha_foundry/engines/derivatives.py:211-224 | debits free cash, then margin, then leaves free cash negative |
| Derivatives.DerivativesState.SettlePriorExposure | src/alpha_foundry/engines/derivatives.py:186-209 | settles the exposure held since the prior price |
| Derivatives.DerivativesState.SynchronizeMargin | src/alpha_foundry/engines/derivatives.py:226-241 | posts the required margin as far as cash allows; reports a margin call, never a range error |
| Derivatives.DerivativesState.Rebalance | src/alpha_foundry/engines/derivatives.py:243-296 | performs in place the order OrderHedges and OrderByNumbers are about |
| Derivatives.DerivativesState.Liquidate | src/alpha_foundry/engines/derivatives.py:304-321 | turns everything into free cash less fees |
| Derivatives.DerivativesState.RecordEquity | src/alpha_foundry/engines/derivatives.py:353-372 | records a positive equity with its return, or refuses it |
| Derivatives.DerivativesState.RunPeriod | src/alpha_foundry/engines/derivatives.py:118-139 | one period in the source's order |
| Derivatives.DerivativesState.Execute | src/alpha_foundry/engines/derivatives.py:112-165 | fails exactly when some recorded equity is not positive; otherwise reports the explained equity, the full signal count and compounding returns |
| EquityPaths.ReturnsCompound | src/alpha_foundry/engines/market_making.py:291-315 | period returns compound to the whole growth of the path |
| EquityPaths.MaxDrawdown | src/alpha_foundry/engines/base.py:518-537 | the loop returns the largest decline from any equity to a later one, in [0, 1), and refuses exactly empty or non-positive paths |
| EquityPaths.NoDrawdownMeansRising | src/alpha_foundry/engines/base.py:518-537 | the drawdown is zero exactly when the path never falls |
| MarketMaking.TurnoverIsAffordable | src/alpha_foundry/engines/market_making.py:389-415 | for any admissible root estimate the returned turnover T satisfies L*T + I*T^2 <= budget |
| MarketMaking.ExactRootIsOptimal | src/alpha_foundry/engines/market_making.py:389-415 | with the exact root the whole budget is used and no larger turnover is affordable |
| MarketMaking.SurvivingBidIsPaid | src/alpha_foundry/engines/market_making.py:255-270 | a bid that survives the cap leaves at least the ask proceeds in cash |
| MarketMaking.CashNegativeExactly | src/alpha_foundry/engines/market_making.py:265-284 | cash turns negative exactly when the ask's own costs exceed cash and ask proceeds |
| MarketMaking.CashNegativeHappens | src/alpha_foundry/engines/market_making.py:278-284 | an accepted input whose run stops with negative cash |
| MarketMaking.CheapCostsNeverOverdraw | src/alpha_foundry/engines/market_making.py:278-284 | linear cost rates plus impact on the largest ask within one rule the cash error out |
| MarketMaking.InventoryStaysInside | src/alpha_foundry/engines/market_making.py:241-277 | inventory stays within its limit; the inventory error is unreachable |
| MarketMaking.FillsInsideTheBook | src/alpha_foundry/engines/market_making.py:228-254 | filled quotes lie inside the current book, the spread apart, and only after the latency |
| MarketMakingMeaning.QuotesLookBack | src/alpha_foundry/engines/market_making.py:223-240 | quotes stand half a spread either side of the midpoint of the event the latency ago, each withdrawn where it would cross the present book |
| MarketMakingMeaning.FillsAreLargest | src/alpha_foundry/engines/market_making.py:241-254 | a quote the book reaches fills the largest quantity within quote size, inventory limit and the traded and shown volume at the fill ratio; another fills nothing |
| MarketMakingMeaning.BidIsLargestCovered | src/alpha_foundry/engines/market_making.py:255-264 | without permission to overdraw a bid is cut to what cash and ask proceeds cover, and with an exact root no larger bid is covered |
| MarketMakingMeaning.TradeByNumbers | src/alpha_foundry/engines/market_making.py:255-303 | what an event trades, costs and leaves, each cost at its own rate |
| MarketMakingMeaning.StopsExactly | src/alpha_foundry/engines/market_making.py:228-303 | an event stops the run exactly on a bid that is not positive, then cash negative against the policy, then a worth that is not positive |
| MarketMakingMeaning.TotalsByField | src/alpha_foundry/engines/market_making.py:265-303 | the reported totals add up the fills field by field |
| MarketMakingMeaning.NoLookAhead | src/alpha_foundry/engines/market_making.py:206-303 | runs that agree on their first events agree on those events' fills |
| MarketMaking.NothingBeforeLatency | src/alpha_foundry/engines/market_making.py:223-228 | nothing trades before the latency has passed |
| MarketMaking.CostsAre | src/alpha_foundry/engines/base.py:501-509 | the four cost components are the quadratic cost function the capacity solves |
| MarketMaking.RunExplained | src/alpha_foundry/engines/market_making.py:265-331 | final less opening equity is inventory carry plus quoting edge less total cost; inventory moves by the fills |
| MarketMaking.CashConstrainedBidCapacity | src/alpha_foundry/engines/market_making.py:389-417 | the capacity as computed; using all of it stays within the budget |
| MarketMaking.QuoteAndFill | src/alpha_foundry/engines/market_making.py:223-264 | computes in place the quotes and fills that FillsInsideTheBook and InventoryStaysInside are about |
| MarketMaking.TradeEvent | src/alpha_foundry/engines/market_making.py:223-303 | performs in place the event that SurvivingBidIsPaid, CashNegativeExactly and RunExplained are about |
| MarketMaking.Simulate | src/alpha_foundry/engines/market_making.py:206-343 | a finished run reports totals, compounding returns, drawdown and an explained equity; a failed one stops at the event whose check fails, never on inventory |

## Left out

- Decimal128: contexts, rounding, overflow and quantisation errors; ledgers and means use exact reals, and metrics are taken to be in range.
- The PBO logit: only its sign is modelled, as relative rank below its complement to one; requested precision is checked but has no effect.
- SHA-256: a function parameter; results that need injectivity name the collision instead.
- Unicode NFC and datetime parsing: text is already normalised and times are integers; a certificate or matrix whose own hash cannot be encoded is covered only by the condition `PboCertification.CompleteInputIsAccepted` states.
- Pydantic field checks, lab compilers and the registry of labs: their accepted inputs are the `Valid` predicates.
- PboCertificate.PermittedMeetsGates: for a trial rejected at an excepted gate it speaks of the observed values in the gate results, because the evidence check compares only an evaluated trial's with its metrics.
- Pinned-resource checks of the search runner's constructor (`src/alpha_foundry/search/runner.py:171-200`): taken as preconditions.
- SearchRunner.SearchRunner.Search: states what every result satisfies, while the slot-by-slot function is stated by `RunSlot`; callbacks that do not return are outside the model.
- PublicationRepository.MetadataStore.RevokeOwnedChildren: releases publications only; generation requests and attempts are not part of this model.
- Jobs: the updated-at column, the error text and the progress format; progress is an opaque value.
- PublicationRepository.MetadataStore.Rollback: transactions commit whole or not at all; savepoints, locking and store quarantine are SQLite's.
- PublicationTriggers.JustificationHoldsExactly: one statement writes one row of the six tables modelled; updates of several rows at once, upserts, schema changes, pragmas, raw statements on artifacts, links, jobs and events, and foreign keys of tables outside this model are not covered.
- PublicationService: preflight, rejections, report rendering and the order of its calls; every order is covered by the runs.
- Cross-venue: one compiled route; venue names are numbers in byte order; the reported return and drawdown metrics, which `EquityPaths` treats.
- Derivatives.DerivativesState.Execute: the reported drawdown and the single-valued margin-call action are not modelled.
- MarketMaking.TurnoverIsAffordable: the square root is any function that does not fall below the linear multiplier on its squares, as a correctly rounded root does not; the timestamps of book events play no part after validation.
- Factor, statistical-arbitrage, time-series, event and structural-flow engines, holdout service, disclosure projection, CLI, REST, wiki ingestion: they would add easier members.
