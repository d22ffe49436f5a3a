# argot3_sif pipeline core in Dafny

This project models the four scripts at the centre of the argot3_sif
post-processing pipeline and proves what each one computes.

- **`src/propagate.py`, `parse_prediction`: propagation of prediction scores
  over the Gene Ontology.** Modules `Propagate`, `PropagateClosure` and
  `PropagateRows`.
  - It reads a tab-separated table of (protein, term, namespace, score)
    rows and skips lines starting with `Query`.
  - It stores the rows in a per-protein dict.
  - For every protein it walks the directly predicted terms in insertion
    order. Each term puts its own entry back (line 42), then raises each of
    its ancestors to the max of what the ancestor held and the term's own
    score (lines 44-52).
  - It writes every (protein, term) entry with `:` turned into `_`, except
    the three namespace roots.
- **`src/check_fasta.py`: FASTA header normaliser.** Module `CheckFasta`.
  - `>sp|ID|rest` and `>tr|ID|rest` become `>ID rest`.
  - A header that is already `>ID rest` and has no `|` is kept.
  - Any other header raises `ValueError`.
  - The file loop rewrites header lines and copies the others.
- **`src/join.py`: merge of the per-namespace prediction files.** Module
  `Join`.
  - `update_preds` folds one file of (protein, term, score) lines into a
    nested dict protein → namespace → term → score, in place. It keeps only
    scores strictly above the threshold.
  - The driver folds the C, F and P files in that order. It then writes a
    header row and one row per stored score.
- **`src/get_fastas_uniprot.py`: UniProt record filter.** Module
  `GetFastasUniprot`.
  - A `write` flag is reset at every header line. It becomes true when the
    header's second `|`-separated field is in the set of wanted accessions.
  - Each line is copied while the flag is set.

Two support modules carry the rest.
- `Dicts` models Python's insertion-ordered `dict` as a key sequence beside
  a map. Assigning to an existing key keeps the key where it was; a new key
  goes at the end.
- `Text` models the few `str` operations the scripts use: `strip`,
  `rstrip`, `split`, `startswith` and `replace`.

## How the model is built

Where the scripts mutate dicts inside loops, the model does the same, with
methods and loops:
- `Propagate.Load`, `ProcessTerm`, `PropagateProtein`, `PropagateAll` and
  `Write`;
- the class `Join.Predictions`, whose `table` field is the caller's dict
  that `update_preds` fills;
- `CheckFasta.RewriteFasta`;
- `GetFastasUniprot.FilterRecords`.

Each method is proved equal to a specification function, such as
`Loaded`, `Propagated`, `Updated`, `Kept`, `Written` or `LinesUpTo`. The
lemmas then state what those functions mean in the scripts' terms:
- the closure's key set;
- maxima over descendants;
- last-write-wins on repeated rows;
- "every stored score is above the threshold";
- each entry written exactly once;
- the copied lines forming an order-preserving subsequence.

The script's inputs are modelled as parameters:
- **Ontology.** The ontology object is a function `owl: string -> set<string>`, giving the
  ancestor set for the underscored form of a term.
- **Scores.** Text-to-float conversion is a function
  `parseScore: string -> Option<real>`, and scores are `real`.
- **Files.** Each file is a sequence of lines. A file that is not given on
  the command line is `None`.
- **Output.** Output rows are datatypes, not formatted text.

Exceptions become `Result` or `Option` values:
- `ValueError` from a short line or a bad float;
- `KeyError` from the ancestor table;
- `IndexError` from a header without `|`;
- the `ValueError` of an unsupported header.

Where a script writes as it goes and then dies, the model returns the lines
written before the failure together with the error.

## Behaviour worth knowing

The model follows the code as written. These consequences of the code are
proved and may surprise a reader of the scripts.

- **Order dependence (`src/propagate.py:42`).** Lines 45-50 raise an
  ancestor with `max`. Line 42, however, assigns a directly predicted term
  its own entry unconditionally when its turn comes. That discards whatever
  descendants processed earlier had raised it to.
  - `PropagateClosure.DirectTermScore` states the score the code actually
    gives.
  - `DirectTermOrderMatters` exhibits two orders of the same predictions
    that give different scores.
  - Terms that are only ancestors are order-independent:
    `AncestorTermOrderFree`.
- **Obsolete terms are kept.** `obs` is a parameter of `parse_prediction`
  (`src/propagate.py:18`, passed at line 74) that nothing reads. No term is
  ever removed for being obsolete, and the model has no such parameter.
- **Key mismatch (`src/propagate.py:37` vs `43`).** Line 37 keys the
  ancestor table by the term as read. Line 43 looks it up by the
  underscored form.
  - Every lookup succeeds when no term contains `:`
    (`PropagateRows.ColonFreeResolvable`).
  - A `GO:...` term whose underscored form is not itself predicted raises
    `KeyError` (`PropagateRows.ColonTermFails`).
- **Errors abort.** A malformed row raises at lines 27-28 and ends the run.
  No score range is checked.
- **Namespace.** The namespace kept for a term is the one of the last
  direct term that wrote it (lines 42, 47, 50, 52;
  `PropagateClosure.ClosureNamespace`).
- **Header normalisation is not idempotent.** An ID that starts with
  whitespace, or a rest that contains `|`, is rewritten into a header the
  normaliser itself refuses (`CheckFasta.NotIdempotentSpacedId`,
  `NotIdempotentPipedRest`).
- **Unstripped accession field.** Line 23 of `src/get_fastas_uniprot.py`
  strips the wanted accessions, but line 29 does not strip the header's
  field.
  - A header whose accession is its last field keeps its newline in the
    field, so it is never selected
    (`GetFastasUniprot.TwoFieldHeaderDropped`).
  - Line 29 raises `IndexError` on a header without `|`.

## Model

| member | source | states |
|---|---|---|
| Propagate.ParseRow | src/propagate.py:26-28 | a row that cannot be read fails with the wrong-field-count or bad-score error of its own line number |
| Propagate.LoadRow | src/propagate.py:30-32 | no contract of its own: `preds[prot][go] = [score, ont]`, creating `preds[prot]` when absent; characterised by `PropagateRows.LoadedEntries` and `LoadedKeysGrow` |
| Propagate.Loaded | src/propagate.py:21-32 | no contract of its own: the load loop as a fold, stopping at the first bad line; characterised by `LoadedNext`, `LoadedErrSticks`, `LoadedValid`, `PropagateRows.LoadedOk`, `LoadedEntries` and `LoadedKeysGrow` |
| PropagateRows.ParseRowFields | src/propagate.py:26-28 | an accepted row is four tab-free fields that, joined with tabs, are the stripped line, and its score is the conversion of the fourth field |
| PropagateRows.ParseRowAccepts | src/propagate.py:26-28 | conversely, a stripped line of four tab-free fields with a convertible last field is accepted as exactly that row |
| Propagate.AddRow | src/propagate.py:30-32 | creates the protein's dict when missing and stores (score, namespace) under the term, as the loading step `LoadRow` defines it |
| Propagate.Load | src/propagate.py:19-32 | the loading loop returns the table, or the first error, of the specification fold over all lines |
| Propagate.LoadedValid | src/propagate.py:19-32 | loading only builds well-formed ordered dicts at both levels |
| Propagate.LoadedErrSticks | src/propagate.py:26-28 | once a line has failed, later lines do not change the outcome |
| Propagate.LoadedNext | src/propagate.py:21-32 | one more line is skipped if it starts with `Query`, otherwise parsed and stored, or its error ends the run |
| PropagateRows.LoadedOk | src/propagate.py:22-28 | loading succeeds exactly when every line is a `Query` line or a readable row; otherwise it fails with the error of the first line that is neither |
| PropagateRows.LoadedEntries | src/propagate.py:30-32 | `preds[prot][go]` exists exactly when some data row names (prot, go), and holds the score and namespace of the last such row |
| PropagateRows.LoadedKeysGrow | src/propagate.py:30-32 | keys are only appended, so a repeated row keeps the position its term got from the first row naming it |
| Propagate.AncestorTable | src/propagate.py:35-37 | no contract of its own: `go2anc`, keyed by every predicted term as read; characterised by `PropagateRows.AncestorLookup`, `ColonFreeResolvable` and `ColonTermFails` |
| PropagateRows.AncestorLookup | src/propagate.py:37-43 | the lookup `go2anc[go.replace(':', '_')]` succeeds exactly when the underscored form is itself a predicted term, and then gives the ontology's ancestors of that form |
| PropagateRows.ColonFreeResolvable | src/propagate.py:37-43 | when no predicted term contains `:`, every lookup succeeds and gives the ontology's ancestors of the term itself |
| PropagateRows.ColonTermFails | src/propagate.py:37-43 | a single prediction of `GO:1` makes propagation fail with the KeyError for `GO_1` |
| Propagate.Raise | src/propagate.py:45-52 | no contract of its own: the three branches giving an ancestor's new entry; characterised by `PropagateClosure.StepAncestorEntry` and `BestIsMax` |
| Propagate.Step | src/propagate.py:42-52 | no contract of its own: one iteration of the loop at line 41; characterised by `PropagateClosure.StepAgreesAt`, `StepSelf`, `StepAncestor` and `StepOther` |
| Propagate.Propagated | src/propagate.py:41-52 | no contract of its own: a protein's closure after its first n direct terms, or the first KeyError; characterised by `PropagatedNext`, `PropagatedErrSticks`, `PropagateClosure.PropagatedAgrees` and `PropagatedOk` |
| Propagate.Propagation | src/propagate.py:40-52 | no contract of its own: a protein's complete closure; characterised by `PropagateClosure.ClosureKeys`, `DirectTermScore`, `AncestorTermScore`, `ClosureNamespace` and `ClosureScoreIsDirect` |
| Propagate.PropagatedNext | src/propagate.py:41-52 | the closure after one more direct term is the KeyError of that term, or one propagation step on the closure so far |
| Propagate.PropagatedErrSticks | src/propagate.py:43 | once a term's lookup has failed, later terms do not change the outcome |
| Propagate.RaiseAncestor | src/propagate.py:45-52 | raising one ancestor changes only that entry, to the max of what it held (or its own direct score) and the term's score, with the term's namespace |
| Propagate.ProcessTerm | src/propagate.py:42-52 | processing one direct term puts its own entry back and raises every ancestor, whatever order the ancestor set is walked in, as one propagation step |
| Propagate.PropagateProtein | src/propagate.py:40-52 | one protein's loop succeeds exactly when its closure function does, with the same entries or the same KeyError |
| Propagate.PropagateAll | src/propagate.py:38-52 | succeeds exactly when every protein's propagation does; then the result holds every protein, in the same order, with the closure of its own predictions only; otherwise it fails with some protein's KeyError |
| Propagate.TermsWritten | src/propagate.py:56-59 | each pair written for a protein is one of its terms whose underscored form is not a root |
| Propagate.WrittenUpTo | src/propagate.py:55-59 | each written pair is an entry of the closure table whose underscored term is not a root |
| Propagate.Write | src/propagate.py:54-60 | the rows are, in order, the written pairs with the term underscored and the entry's namespace and score |
| Propagate.ParsePrediction | src/propagate.py:18-60 | the whole function: the first loading error, or else the ancestor table is built and the run fails with some protein's KeyError exactly when some propagation fails; otherwise the rows are those of a table holding each protein's closure |
| PropagateClosure.BestIsMax | src/propagate.py:45-50 | the best score over a range of direct terms is the maximum of the scores of those that have the term as an ancestor, and absent exactly when none does |
| PropagateClosure.LastWriter | src/propagate.py:42-52 | the last direct term, among the first n, that wrote the term's entry: the term itself or a term having it as an ancestor |
| PropagateClosure.StepAgreesAt | src/propagate.py:41-52 | one propagation step keeps the loop invariant: which terms have an entry, their score, and the namespace of their last writer |
| PropagateClosure.StepSelf | src/propagate.py:42 | the term being processed gets its own entry back, and including itself among its ancestors changes nothing |
| PropagateClosure.StepAncestor | src/propagate.py:45-52 | an ancestor of the term being processed keeps the invariant |
| PropagateClosure.StepAncestorEntry | src/propagate.py:45-50 | the raised ancestor's score is the expected max and its namespace is the processed term's |
| PropagateClosure.StepOther | src/propagate.py:41-52 | every other entry is left alone |
| PropagateClosure.PropagatedAgrees | src/propagate.py:39-52 | the invariant holds after every prefix of the direct terms |
| PropagateClosure.PropagatedOk | src/propagate.py:43 | propagation fails exactly when some direct term's underscored form is missing from the table, and then with the KeyError of the first such term |
| PropagateClosure.PropagationOkOrderFree | src/propagate.py:41-43 | whether propagation succeeds does not depend on the order of the direct predictions |
| PropagateClosure.ClosureKeys | src/propagate.py:38-52 | the closure's terms are exactly the direct terms and the ancestors of each, so no direct term is lost |
| PropagateClosure.DirectTermScore | src/propagate.py:42-50 | a direct term ends with the max of its own score and the scores of the direct terms processed after it that have it as an ancestor, so never below its own score |
| PropagateClosure.DirectTermBest | src/propagate.py:42-50 | the same score stated with the best-score function over the terms after it |
| PropagateClosure.AncestorTermScore | src/propagate.py:44-52 | a term that is only an ancestor ends with the max of the scores of all direct terms having it as an ancestor |
| PropagateClosure.AncestorTermOrderFree | src/propagate.py:44-52 | reordering the direct predictions changes neither the closure's key set nor the score of any term that is only an ancestor |
| PropagateClosure.ExampleResolvable | src/propagate.py:43 | the two-term example table resolves both terms |
| PropagateClosure.ExampleAncestorFirst | src/propagate.py:45-47 | with the ancestor processed first, it is raised to its descendant's higher score |
| PropagateClosure.ExampleAncestorLast | src/propagate.py:42 | with the ancestor processed last, line 42 puts its own lower score back |
| PropagateClosure.DirectTermOrderMatters | src/propagate.py:42 | there are two orders of the same direct predictions that give a direct term different entries |
| PropagateClosure.ClosureNamespace | src/propagate.py:42-52 | the namespace kept for a term is that of the last direct term that wrote its entry |
| PropagateClosure.ClosureScoreIsDirect | src/propagate.py:40-52 | every closure score is the direct score of one of the protein's own predictions |
| PropagateRows.TermsWrittenOnce | src/propagate.py:56-59 | within one protein the written pairs are distinct and are exactly its non-root terms |
| PropagateRows.WrittenUpToOnce | src/propagate.py:55-59 | the pairs written for the first i proteins are distinct and are exactly their non-root entries |
| PropagateRows.WrittenExactlyOnce | src/propagate.py:55-60 | every non-root entry of the closure table is written exactly once and nothing else is written |
| PropagateRows.WrittenRow | src/propagate.py:57-60 | a written row's term has no `:`, is not a root, and the row carries an entry's namespace and score |
| PropagateRows.RowsUnderscoredNoRoots | src/propagate.py:57-60 | every output row has an underscored, non-root term and comes from an entry of the closure table |
| Dicts.PutValid | src/propagate.py:32 | assignment keeps the keys distinct and in step with the mapping |
| Dicts.PutTwice | src/propagate.py:31-32 | assigning the same key twice equals the second assignment alone |
| Dicts.Empty | src/propagate.py:19 | `{}` is a well-formed dict with no keys |
| Text.StripPiece | src/propagate.py:26 | `strip()` returns the piece of the line between leading and trailing whitespace, neither end of which is whitespace |
| Text.SplitJoin | src/propagate.py:26 | the parts of `split(sep)`, joined with `sep`, give back the string |
| Text.SplitPartsLackSep | src/propagate.py:26 | no part of `split(sep)` contains `sep` |
| Text.JoinSplit | src/propagate.py:26 | parts without `sep`, joined with `sep`, split back into the same parts |
| Text.SplitCount | src/get_fastas_uniprot.py:29 | `split(sep)` has more than one part exactly when `sep` occurs |
| Text.Replace | src/propagate.py:43 | after `replace(':', '_')` no `:` is left; every other character stays in place |
| Text.ReplaceAbsent | src/propagate.py:43 | replacing an absent character changes nothing |
| Text.ReplaceIdempotent | src/propagate.py:57 | after the replacement the character is gone, and replacing again changes nothing |
| Text.RStrip | src/check_fasta.py:25 | `rstrip(chars)` is a prefix of the string, everything removed is in `chars`, and it does not end in one of them |
| CheckFasta.Normalize | src/check_fasta.py:18-39 | no contract of its own: `normalize_fasta_header`; characterised by `NormalizeUniProt`, `NormalizeUniversal`, `NormalizeRefuses`, `NormalizeShape` and the `Refuses…` examples |
| CheckFasta.UniProtGroups | src/check_fasta.py:10 | the UniProt pattern matches exactly when its groups exist, and then they are the ID and the rest around the second `|` |
| CheckFasta.UniversalMatches | src/check_fasta.py:15 | the universal pattern's decision procedure agrees with the pattern |
| CheckFasta.UniversalEnd | src/check_fasta.py:15 | the `\S+` group always ends at the first whitespace after `>` |
| CheckFasta.NormalizeUniProt | src/check_fasta.py:28-31 | a UniProt header becomes `>` + ID + space + rest |
| CheckFasta.NormalizeUniversal | src/check_fasta.py:34-36 | a universal header without `|` comes back unchanged after `rstrip`, and is then a fixed point |
| CheckFasta.NormalizeRefuses | src/check_fasta.py:38-39 | a header is refused exactly when it is neither UniProt nor `|`-free universal, and the error carries the stripped header |
| CheckFasta.NormalizeShape | src/check_fasta.py:25-36 | every accepted header starts with `>`, has text after it, and does not end in `\n` or `\r` |
| CheckFasta.RStripClean | src/check_fasta.py:25 | a header not ending in a line terminator is its own `rstrip('\n\r')` |
| CheckFasta.RefusesBareMarker | src/check_fasta.py:38-39 | `>` is refused |
| CheckFasta.RefusesLeadingSpace | src/check_fasta.py:38-39 | `> x` is refused |
| CheckFasta.RefusesTruncatedUniProt | src/check_fasta.py:38-39 | `>sp|ID` is refused |
| CheckFasta.RefusesOtherDatabase | src/check_fasta.py:38-39 | `>gi|1|x` is refused |
| CheckFasta.NormalizeUniProtParts | src/check_fasta.py:28-31 | `>db|ID|rest` with db `sp` or `tr`, a non-empty `|`-free ID and a non-empty rest becomes `>ID rest` |
| CheckFasta.RewriteNotUniProt | src/check_fasta.py:31 | a rewritten header never starts like a UniProt header |
| CheckFasta.NotIdempotentSpacedId | src/check_fasta.py:31-39 | an ID starting with whitespace is rewritten into a header that is then refused |
| CheckFasta.NotIdempotentPipedRest | src/check_fasta.py:31-39 | a rest containing `|` is rewritten into a header that is then refused |
| CheckFasta.RewriteLine | src/check_fasta.py:57-61 | no contract of its own: what the loop writes for one line; characterised by `RewriteLineCases` |
| CheckFasta.RewriteFasta | src/check_fasta.py:55-61 | every written line is the rewrite of the input line at the same position; the run ends early exactly when a header is refused, with that header's error |
| CheckFasta.RewriteLineCases | src/check_fasta.py:57-61 | a non-header line is copied unchanged; a header is written as a `>` line ending in exactly one newline |
| Join.Ensure | src/join.py:23-26 | afterwards the protein's dict and, in it, the namespace's dict exist |
| Join.Store | src/join.py:27-28 | the protein and namespace dicts still exist after storing a score |
| Join.EnsureStoreValid | src/join.py:23-28 | creating the sub-dicts and storing a score keep every level well formed |
| Join.EnsureScores | src/join.py:23-26 | creating the sub-dicts changes no score |
| Join.StoreScores | src/join.py:27-28 | storing changes exactly the one (protein, namespace, term) score |
| Join.EnsureStoreOnts | src/join.py:23-28 | the namespace keys afterwards are the old ones and `ont` |
| Join.SplitAll | src/join.py:21-22 | one field list per line |
| Join.SplitAllAt | src/join.py:22 | the k-th field list is the split of the k-th line |
| Join.ApplyLine | src/join.py:22-28 | no contract of its own: one pass of the loop body; characterised by `ApplyLineShape`, `ApplyLineScores` and `ApplyLineKeeps` |
| Join.Updated | src/join.py:21-28 | no contract of its own: the loop of `update_preds` as a fold, stopping at the first bad line; characterised by `UpdatedNext`, `UpdatedErrSticks`, `UpdatedKeeps` and `UpdatedLastWins` |
| Join.Predictions.constructor | src/join.py:39 | `preds = {}` |
| Join.Predictions.UpdatePreds | src/join.py:19-28 | the caller's dict and the error afterwards are those of the specification fold over the file's lines |
| Join.Predictions.AddLine | src/join.py:22-28 | one loop body updates the dict and reports an error exactly as `ApplyLine` says |
| Join.UpdatedErrSticks | src/join.py:22-27 | once a line has failed, later lines change nothing |
| Join.UpdatedNext | src/join.py:21-28 | the fold takes one more line as one loop body |
| Join.ApplyLineShape | src/join.py:22-27 | a line not of three fields fails and leaves the dict alone; otherwise the sub-dicts exist whatever the score, and the line fails exactly when its score does not convert |
| Join.ApplyLineScores | src/join.py:23-28 | a line changes at most its own (protein, namespace, term) score, which becomes the line's score when above the threshold and is unchanged otherwise |
| Join.ApplyLineKeeps | src/join.py:23-28 | one line keeps the dict well formed and every score above the threshold, and adds only its own namespace |
| Join.UpdatedPreserves | src/join.py:21-28 | a property that every line keeps holds after the whole file |
| Join.UpdatedKeeps | src/join.py:19-28 | folding a file keeps every stored score strictly above the threshold, adds only its namespace, and keeps the dict well formed |
| Join.LastStore | src/join.py:27-28 | the last line, among the first n, that is well formed, names (protein, term) and has a score above the threshold |
| Join.UpdatedInvariant | src/join.py:21-28 | a property of the dict and the line count that every line keeps holds after a file that folds without error |
| Join.UpdatedLastWins | src/join.py:27-28 | after a file, a score is that of the last line storing it, or the earlier one when no line does: above-threshold lines overwrite, others leave it |
| Join.WriteTerms | src/join.py:57-58 | the rows of one (protein, namespace) are its terms in insertion order |
| Join.WriteOnts | src/join.py:56-58 | the rows of one protein are its namespaces' rows in insertion order |
| Join.Dump | src/join.py:52-58 | the header row, then the proteins' rows in insertion order |
| Join.Fold | src/join.py:40-42 | no contract of its own: one `if file: update_preds(...)` step; characterised by `LoadFile` and `FoldKeeps` |
| Join.Merge | src/join.py:39-50 | no contract of its own: the C, F, P files folded in that order; characterised by `JoinFiles` and `MergeKeeps` |
| Join.LoadFile | src/join.py:40-42 | a file not given leaves the dict alone; a given file updates it in place as the driver step says, or reports its error |
| Join.JoinFiles | src/join.py:39-58 | the files C, F, P are folded in that order; an error in any file ends the run, otherwise the output is the header row and the merged dict's rows |
| Join.FoldKeeps | src/join.py:40-42 | one driver step keeps the dict well formed, every score above the threshold and every namespace within the given set |
| Join.MergeKeeps | src/join.py:39-50 | the merged dict holds only scores above the threshold and only the namespaces C, F and P |
| Join.TermLinesMembers | src/join.py:57-58 | the rows of one (protein, namespace) are exactly its terms with their scores |
| Join.TermLinesDistinct | src/join.py:57-58 | one row per term |
| Join.OntLinesMembers | src/join.py:56-58 | the rows of one protein are exactly its stored (namespace, term, score) entries |
| Join.OntLinesDistinct | src/join.py:56-58 | one row per entry |
| Join.LinesUpToMembers | src/join.py:54-58 | the rows of the first i proteins are exactly their stored entries |
| Join.LinesUpToDistinct | src/join.py:54-58 | one row per entry |
| Join.DumpedRows | src/join.py:52-58 | after the header every stored (protein, namespace, term, score) is written exactly once and nothing else, so every written score is above the threshold and every namespace in the set |
| GetFastasUniprot.IdSet | src/get_fastas_uniprot.py:23 | every stripped list line is wanted, and no wanted accession begins or ends with whitespace |
| GetFastasUniprot.HeaderField | src/get_fastas_uniprot.py:29 | `split('|')[1]` exists exactly when the line has a `|`, and is the `|`-free text after the first `|` up to the next one or the end |
| GetFastasUniprot.LastHeader | src/get_fastas_uniprot.py:27-30 | the most recent header at or before a line, with no header between |
| GetFastasUniprot.Kept | src/get_fastas_uniprot.py:25-32 | no contract of its own: the copied lines among the first n; characterised by `FilterRecords`, `KeptAt`, `KeptIndicesIncrease` and `KeptIndicesComplete` |
| GetFastasUniprot.FilterRecords | src/get_fastas_uniprot.py:25-32 | it fails exactly when some header has no `|`, at the first such header; the output is the written lines before that point, or of the whole file |
| GetFastasUniprot.KeptIndices | src/get_fastas_uniprot.py:25-32 | one input position per copied line, each before the end of the prefix |
| GetFastasUniprot.KeptAt | src/get_fastas_uniprot.py:31-32 | each copied line is the unmodified input line at its position, and that line is written |
| GetFastasUniprot.KeptIndicesIncrease | src/get_fastas_uniprot.py:27-32 | the copied lines keep input order |
| GetFastasUniprot.KeptIndicesComplete | src/get_fastas_uniprot.py:31-32 | every written line is copied |
| GetFastasUniprot.HeaderWritten | src/get_fastas_uniprot.py:28-32 | a header is copied exactly when its own accession is wanted |
| GetFastasUniprot.PreambleDropped | src/get_fastas_uniprot.py:26 | lines before the first header are never copied |
| GetFastasUniprot.BodyWritten | src/get_fastas_uniprot.py:30-32 | a non-header line is copied exactly when an earlier header selects with no header between |
| GetFastasUniprot.UnstrippedNeverSelected | src/get_fastas_uniprot.py:23-30 | an accession field ending in whitespace is never wanted |
| GetFastasUniprot.TwoFieldHeaderDropped | src/get_fastas_uniprot.py:29-30 | `>db|ACC` plus its newline has the field `ACC\n` and is never selected, even when ACC is listed |

## Left out

- The ontology library (`owlLibrary3.GoOwl`). It is the parameter `owl`, so ancestor computation, edge validity and the obsolete/deprecated lists are not modelled.
- The unused `obs` argument of `parse_prediction`. Nothing reads it, so the model has no such parameter.
- Text-to-float conversion. It is the parameter `parseScore`, and output score formatting is not modelled: rows are datatypes.
- File I/O, `argparse`, `tqdm` progress bars and `print`. Files are sequences of lines, each carrying its own line terminator. A file not given on the command line is `None`.
- The order in which `for anc in ancestors` walks a Python set. It is left unspecified (chosen with `:|`). The closure's mapping is proved independent of it, but the insertion position of newly added ancestor keys is not specified.
- Propagate.ParseRow: its own contract only names the error cases. What an accepted row is, in both directions, is stated by `PropagateRows.ParseRowFields` and `ParseRowAccepts`.
- Unicode whitespace. `strip()` and the regex class `\s` use the ASCII characters that `str.isspace()` accepts. Regex matching is hand-written as predicates for the two fixed patterns.
- Join.LoadFile: the lines are split with `strip()` followed by `split('\t')`. Other splitters are accepted by `UpdatePreds` as a parameter, but only this one is used.
- Concurrency and output sorting. The scripts have neither: they compute the ancestor table once in one comprehension (`src/propagate.py:37`) and write in dict order.
- `src/predict_batch.py` and `src/format_out.py` are not part of this model. They are neural-network inference and reformatting through the ontology library.
