# Models and proofs of the YDB tools

Dafny models of the six parts of this repository whose correctness is hard to see by
reading, and proofs of what they promise. `dafny verify dfyconfig.toml` checks everything.

Code that works step by step is a method with loops (over a class where the original
changes an object, a store or a row), proved equal to a specification function on values;
the theorems are then about the specification. Errors are values of `Result` or `Option`.

**Scheme rewriter** (`admin/backup/fix_document_schemes.py`).
`SchemeLexer` and `SchemeScan` are the lexer, the literal decoder, the key extraction, the
brace matcher, the deletion spans and the recursive block finder over a text as a sequence
of characters. `SchemeSpans` proves the span theorems for every text the finder accepts, and
`SchemeRewrite` that the rewrite is exactly the erasure of the removable spans. `SchemeShift`,
`SchemeGap`, `SchemeGapKey` and `SchemeCut` compare the scanners on a text and on the text
with one block cut out; `SchemeResult` concludes, for every text, when the rewrite succeeds
and which blocks its result has, and `SchemeJoined` has texts on which it fails. `SchemePrint`
defines message trees (comments, fields, string literals with every escape form, nested
messages, any number of them on a line, blank lines) and prints them; `SchemeLines`,
`SchemeTree`, `SchemeKeys` and `SchemeBlocks` prove that scanning a printed tree finds the
tree, `SchemePrune` is the tree without its document attributes and what that keeps, and
`SchemeErase` and `SchemeTheorem` prove that rewriting a tree prints the pruned tree.
`Checksum` is the checksum file, `SchemeStore` the protocol of backup, scheme, checksum
backup and checksum on an object store, and `SchemeRun` the run over many schemes. Every
write has a fate: made, refused, or made although an exception is raised; when the fates run
out the process was killed. SHA-256 is any function with 64 lower-case hex digits.

**Legacy table repair** (`admin/repair-legacy-tables`). `TableRepair` is the copy, rename,
rename, drop protocol on a map from path to table (rows and partition configuration). The
environment decides for each call whether it takes effect and whether it reports success; a
list of decisions that ends early is a process that was killed. `RepairBatch` is the list of
tables and the run over it.

**DNS reconciler** (`admin/baremetal-dns/register_private_dns.py`). `DnsNames` (absolute and
managed names), `DnsSlots` and `DnsSlotOrder` (interfaces in their natural order),
`DnsInventory` and `DnsNaming` (the desired names and why they are stable), `DnsPlan` (the
planned changes), `DnsZone` (index, record sets, batches, and a service that accepts,
refuses, or applies a request and loses the reply) and `DnsResume` (runs and sequences of
interrupted runs). `PythonText` has the string methods these need.

**Row lock** (`apps/lockrecord-java`). `LockRecord` is the interleaving of the clients'
queries on the one row: a transaction commits only if the row was not written since its
read, and any commit may be reported as failed. A client goes through the phases of `work`.

**Scheme walk and in-flight tablets** (`admin/viewer/manage_tablets.py`). `SchemePath` and
`SchemeWalk` are the paths, the breadth-first walk with pruning and the choice of its start,
`SchemeHidden` says exactly when pruning and filtering differ;
`InflightTablets` attributes the tablets of in-flight operations to paths. `Order` is
Python's stable sort and `sorted(set(...))`.

**Sharded keys** (`bench/uuid-sharded/sharded_keygen.py`). `BitOps` defines Python's bitwise
operators on unbounded integers, `ShardedKey` the bit fields, `KeyBytes` the byte buffers and
the order of the keys. Version and variant are those of sections 4.1 and 5.8 of RFC 9562, in
YDB's layout: the version in byte 7, the variant in byte 8. The random fill is a parameter.

## What does not hold without a condition

- Two clients can be inside the lock when an unlock that was applied is applied again; the
  exact condition is the one in MutualExclusionFromStart, and ResendLetsTwoIn is such a run.
- A lock commit that succeeds but is reported as failed leaves the row locked for good, and
  nobody gets in again, exactly when no client is then about to send an applied unlock again
  (LostCommitOrphans, EnteringNeedsNoOrphan; FirstCommitLost is such a run). If one is, that
  unlock frees the row (ResendFreesLostCommit). Mutual exclusion is another matter.
- A repair never completes when `TempPrefix + name` equals `name + BackupSuffix`
  (CompletesWhenHelpersDiffer, HelpersCoincide; HelpersMayCoincide is an example); nothing is
  lost then.
- Of two keys of one prefix, the one of the later second is greater for all random fills if
  and only if it comes later modulo 2^30 seconds (GreaterForEveryFill, LaterIsGreater).
- The pruned walk and the filtered full walk differ exactly when the walk starts behind a
  hidden component and something selected lies there, apart from the start itself where the
  full walk lists it (WalksAgreeExactly; HiddenTreeDiffers is an example).
- Normalizing a prefix twice is normalizing it once if and only if, after stripping, no white
  space follows the slashes it begins with (NormalizeTwice; SpacedPrefix is a prefix for which
  it does).
- The final self-check of the rewrite can fail on a text where a cut joins what was apart.
  RewriteSucceeds gives a condition under which it passes: at no cut does a slash meet a slash
  (JoinedSlashesFail fails), the word `attributes` a colon or an opening brace
  (JoinedBlockFails), or the end of a string the beginning of another (JoinedKeyFails); a `}`
  does not meet a semicolon either, which could not make the check fail but would change the
  extent of a block that stays. This is one way only: whether such a meeting does harm depends
  on the rest of the text, on what a comment hides or which key a joined string gives.

## Assumptions

- One writer at a time on a backup prefix and on a table; the scheme's own objects have no
  backups before the first run (`Fresh`).
- An object's body is its text, or bytes that are not UTF-8. Lower-casing and digits are
  those of ASCII; white space is exactly the characters Python strips.
- A printed tree's `attributes` message has at most one `key`, a string field, and no other
  field or unquoted value in it spells `key`.
- Scheme paths are already normalized and the database is not `/`. In the theorems about the
  two walks the listing is complete and consistent: what is listed as a directory can be
  listed and says the same type of itself, nothing else can be listed, and every directory
  below the database is listed in its parent.
- Zone names are as `normalize_zone` returns them, prefixes as `parse_prefixes` does.

## Model

| member | source | states |
|---|---|---|
| SchemeLexer.SkipString | admin/backup/fix_document_schemes.py:93-103 | the position after the closing quote of the string that begins here, a backslash taking the next character with it, or the error for an unclosed string |
| SchemeLexer.SkipWs | admin/backup/fix_document_schemes.py:172-175 | the first position at or after this one that is not white space |
| SchemeScan.DecodeProtoString | admin/backup/fix_document_schemes.py:113-169 | the code points of a literal with all its escapes, or the first error in it |
| SchemePrint.DecodePrinted | admin/backup/fix_document_schemes.py:113-169 | round trip: decoding any printed literal, in whatever mix of plain characters, named, octal, hex and Unicode escapes, with any number of digits and any case the decoder takes, gives its meaning |
| SchemeScan.ReadStrings | admin/backup/fix_document_schemes.py:178-190 | the joined value of adjacent literals after an optional colon, none when there is no literal, and where they stop |
| SchemeScan.ExtractKey | admin/backup/fix_document_schemes.py:193-231 | the value of the first non-empty key field at depth one of a block, or the error the source raises |
| SchemeScan.ScanMessage | admin/backup/fix_document_schemes.py:234-258 | the position after the brace that matches the one at the start, strings and comments stepped over, or the error |
| SchemeScan.ComputeDeletionSpan | admin/backup/fix_document_schemes.py:261-274 | the span of a block as the line rules give it; SpanShape says what that span is |
| SchemeScan.FindAttributeBlocks | admin/backup/fix_document_schemes.py:277-327 | the recursive finder returns the same blocks, in the same order, or the same error, as the specification FindBlocks |
| SchemeSpans.CloseBalances | admin/backup/fix_document_schemes.py:234-258 | the interior of a matched block is balanced, with and without its closing brace |
| SchemeSpans.BalanceCloses | admin/backup/fix_document_schemes.py:234-258 | conversely, in a balanced range every open block is closed and what follows it is balanced |
| SchemeSpans.InteriorNeverFails | admin/backup/fix_document_schemes.py:277-327 | once a block is matched, neither its key extraction nor the recursive scan of its interior can raise a brace, string or keyword error; only errors of the key field itself remain |
| SchemeSpans.SpanShape | admin/backup/fix_document_schemes.py:261-274 | a span reaches past its block over white space only: back to a line start, forward through the first newline |
| SchemeSpans.SpansAreLaminar | admin/backup/fix_document_schemes.py:277-362 | for every accepted text, any two deletion spans are disjoint in order or strictly nested |
| SchemeSpans.SpansRespectLexemes | admin/backup/fix_document_schemes.py:93-327 | for every accepted text, no span starts or ends inside a string or comment, and outside keyword-to-close it covers white space only |
| SchemeRewrite.ChooseSpans | admin/backup/fix_document_schemes.py:347-354 | the spans kept by the loop over the sorted removable spans, or the overlap error |
| SchemeRewrite.JoinPieces | admin/backup/fix_document_schemes.py:355-363 | the text put together from the pieces between the chosen spans, or the overlap error |
| SchemeRewrite.RewriteDocumentScheme | admin/backup/fix_document_schemes.py:334-367 | the whole rewrite returns what the specification Rewrite says, errors included |
| SchemeRewrite.LaminarErases | admin/backup/fix_document_schemes.py:347-363 | for laminar spans the two loops never fail, choose exactly the outermost spans, and leave exactly the characters no span covers |
| SchemeRewrite.RewriteErases | admin/backup/fix_document_schemes.py:334-367 | for every accepted text: what goes to the final self-check is, for a document table, the text without exactly the characters inside removable spans, and the names of the outermost ones in order; other texts are left alone, and neither overlap error can happen |
| SchemeGap.CloseAcross | admin/backup/fix_document_schemes.py:234-258 | cutting a found block out of a text leaves every enclosing block closing where it did |
| SchemeGapKey.KeyAcross | admin/backup/fix_document_schemes.py:193-231 | and leaves the key of every enclosing block as it was |
| SchemeCut.CutKeepsOthers | admin/backup/fix_document_schemes.py:277-327 | cutting one found block, with the white space around it, where nothing joins: what is left is accepted, and exactly the other blocks are found in it, at their new places with their keys |
| SchemeResult.ErasedBlocks | admin/backup/fix_document_schemes.py:334-367 | for every accepted text where no slash meets a slash, no dangling attributes a colon or brace, no string a string and no block a semicolon across the outermost cuts: the erased text is accepted, and its blocks have exactly the keys of the blocks that no removable span covers, in order |
| SchemeResult.RewriteSucceeds | admin/backup/fix_document_schemes.py:334-367 | under the same condition, which looks only at what stands before each outermost span and at what is left after it, the final self-check passes and the rewrite of a document table succeeds |
| SchemeJoined.JoinedSlashesFail | admin/backup/fix_document_schemes.py:364-367 | a text of a document table whose rewrite fails, because the cut joins two slashes to a comment |
| SchemeJoined.JoinedBlockFails | admin/backup/fix_document_schemes.py:364-367 | another, where a word attributes before the removed block takes the braces after it and becomes a document attribute |
| SchemeJoined.JoinedKeyFails | admin/backup/fix_document_schemes.py:364-367 | another, where two strings around the removed block become one key, of a document attribute |
| SchemeRewrite.RewriteSettles | admin/backup/fix_document_schemes.py:364-367 | a text the rewrite produced is not rewritten again |
| SchemeRewrite.RewriteShortens | admin/backup/fix_document_schemes.py:480-484 | a rewritten text is shorter than the original |
| SchemeBlocks.PrintedBlocks | admin/backup/fix_document_schemes.py:277-327 | scanning the print of any message tree succeeds and finds exactly the blocks of the tree, with their positions and keys; white space is free wherever the source skips it, and so are lines, comments, colons before braces and marks after fields |
| SchemeKeys.KeyOfPrinted | admin/backup/fix_document_schemes.py:193-231 | the key read from a printed attributes block is the key of its tree, with any white space, with or without the colon, and however many literals it is split into |
| SchemeTheorem.RewritePrintsPruned | admin/backup/fix_document_schemes.py:334-367 | meaning preserved: rewriting the print of a message tree, in the same free layout, always succeeds and gives the print of the same tree with exactly the document attributes removed, and their names in file order; without a document version attribute nothing is done |
| SchemeTheorem.PrunedIsSettled | admin/backup/fix_document_schemes.py:364-367 | the pruned tree prints to a text that needs no further rewriting and has no document attribute |
| SchemePrune.PruneGood | admin/backup/fix_document_schemes.py:334-367 | pruning keeps a tree well formed, but for the blanks it leaves in the places of removed blocks |
| SchemePrune.PruneKeepsMeaning | admin/backup/fix_document_schemes.py:334-367 | the pruned tree has every other field, string, comment and message of the original, at every depth, in order and with the decoded values it had |
| Checksum.ReplaceChecksum | admin/backup/fix_document_schemes.py:388-404 | the replaced file; none exactly when the digest is not 64 lower-case hex digits |
| Checksum.ParseReplaced | admin/backup/fix_document_schemes.py:374-404 | for every original body, decodable or not, and every digest, parsing the replaced file gives that digest |
| Checksum.ReplacedKeepsTail | admin/backup/fix_document_schemes.py:388-404 | a file with a hex head keeps everything after it, and a second replacement leaves no trace of the first |
| SchemeStore.FamiliesAreDisjoint | admin/backup/fix_document_schemes.py:71-79 | two different scheme files never share an object, backups and checksums included |
| SchemeStore.ResumeWrites | admin/backup/fix_document_schemes.py:450-549 | at every stage of the write plan the next run writes exactly the rest of the plan, unless everything already agrees |
| SchemeStore.RunsReachStage | admin/backup/fix_document_schemes.py:450-549 | any number of runs, each cut off after any write, leave the store at some stage of the first run's one plan, and never at an earlier stage than before |
| SchemeStore.NothingToDo | admin/backup/fix_document_schemes.py:450-518 | a scheme the first run does not rewrite is never touched by any run |
| SchemeStore.OriginalsAreSafe | admin/backup/fix_document_schemes.py:450-549 | after any interrupted runs: whenever the scheme or checksum differs from its first bytes, its backup holds exactly those; a backup never holds anything else; no other object changes |
| SchemeStore.FullRunHeals | admin/backup/fix_document_schemes.py:450-549 | from whatever interrupted runs left, one full run ends with the rewritten scheme, its original in the backup, and a checksum that agrees; a further run writes nothing |
| SchemeRun.ObjectStore.Put | admin/backup/fix_document_schemes.py:450-518 | one write is made, refused, or made with an exception all the same; it uses up one fate, and a later write has its own |
| SchemeRun.ObjectStore.Copy | admin/backup/fix_document_schemes.py:450-518 | one copy: the same, with the body of the source |
| SchemeRun.PerformCuts | admin/backup/fix_document_schemes.py:450-549 | whatever the fates of the writes, those that were made are the first k: a failed write cuts the run of one scheme |
| SchemeRun.WriteChecksum | admin/backup/fix_document_schemes.py:521-549 | backup of the checksum, then checksum, up to the first write that raises |
| SchemeRun.UpdateScheme | admin/backup/fix_document_schemes.py:480-518 | backup, scheme and checksum are written in the specification's order, up to the first write that raises; a dry run writes nothing |
| SchemeRun.ProcessScheme | admin/backup/fix_document_schemes.py:450-518 | one scheme: exactly the specification's writes up to the first that raises, and the counters record the verdict only when none did |
| SchemeRun.ProcessPrefix | admin/backup/fix_document_schemes.py:418-447 | exactly the scheme files under the normalized prefix, in ascending order, one after another and going on after each that raises; every file is counted once as updated, skipped, repaired or failed |
| SchemeRun.ListSchemes | admin/backup/fix_document_schemes.py:422-424 | the keys of exactly the scheme files under the prefix, in ascending order |
| SchemeRun.ProcessSchemes | admin/backup/fix_document_schemes.py:424-435 | the loop over the keys: for any fates of the writes the store is what RunAll says, a file that fails does not stop the loop, and every file is counted once |
| SchemeRun.NormalizeTwice | admin/backup/fix_document_schemes.py:82-90 | exact condition: normalizing a prefix twice is normalizing it once if and only if no white space follows the slashes at the head of the stripped prefix |
| SchemeRun.SpacedPrefix | admin/backup/fix_document_schemes.py:82-90 | a concrete prefix whose normal form is not its own normal form |
| SchemeRun.PrefixHoldsFamilies | admin/backup/fix_document_schemes.py:71-90 | under a directory prefix lie all four objects of a scheme file or none, so nothing outside the prefix is written |
| SchemeRun.WritesAreLocal | admin/backup/fix_document_schemes.py:450-549 | what a run judges and writes for a scheme depends only on, and touches only, that scheme's own objects |
| SchemeRun.EachSchemeOnItsOwn | admin/backup/fix_document_schemes.py:418-447 | in a run over many schemes, whichever writes fail, each one ends as if it had been run alone and cut off somewhere; not cut off when no write fails |
| TableRepair.Server.Modify | admin/repair-legacy-tables/internal/client/client.go:235-287 | a scheme change that may be rejected, fail, take effect, or take effect and report failure |
| TableRepair.AssertNeedsRepair | admin/repair-legacy-tables/internal/repair/repair.go:198-216 | nothing changes; the answer is skip, go on or fail by the classification of what is described |
| TableRepair.CopyWithStorage | admin/repair-legacy-tables/internal/client/client.go:289-311 | the copy has the source's rows and the configuration the server gave it; it exists if the change took effect, whatever was reported |
| TableRepair.RepairOne | admin/repair-legacy-tables/internal/repair/repair.go:131-196 | the method with its early returns ends where the step protocol ends, for every sequence of server answers and every stop |
| TableRepair.SwapTables | admin/repair-legacy-tables/internal/repair/repair.go:165-196 | from the copy on, the same: every stop leaves the protocol's scheme |
| TableRepair.RepairShape | admin/repair-legacy-tables/internal/repair/repair.go:131-196 | invariant over all runs: the scheme is always in one of five shapes, and each point of the protocol allows only its own shape |
| TableRepair.RowsAreNeverLost | admin/repair-legacy-tables/internal/repair/repair.go:131-196 | in every reachable state the full original rows are at the original, temporary or backup path, no other table changes, and the backup is dropped only over a repaired copy with all the rows |
| TableRepair.SuccessMeansRepaired | admin/repair-legacy-tables/internal/repair/repair.go:131-232 | a success report means the path holds a repaired table with the original rows and no path came or went but the kept backup; a skip means nothing changed |
| TableRepair.RerunIsSafe | admin/repair-legacy-tables/internal/repair/repair.go:131-232 | after a repair stopped anywhere, either nothing had changed, or the rerun changes nothing: it skips the table as repaired or stops with an error |
| TableRepair.CompletesWhenHelpersDiffer | admin/repair-legacy-tables/internal/repair/repair.go:131-196 | exact condition: with a working server a repair of a legacy table completes if and only if the temporary and backup names differ |
| TableRepair.HelpersCoincide | admin/repair-legacy-tables/internal/repair/repair.go:136-154 | the two helper names coincide exactly when prefix plus name equals name plus suffix |
| TableRepair.HelpersMayCoincide | admin/repair-legacy-tables/internal/repair/repair.go:136-154 | a concrete table and options whose helper names coincide, and whose repair always stops with an error |
| RepairBatch.LoadTablePaths | admin/repair-legacy-tables/internal/repair/repair.go:40-74 | the listed absolute paths in order, or the error for a relative one |
| RepairBatch.LoadedPaths | admin/repair-legacy-tables/internal/repair/repair.go:40-74 | the list holds exactly the named paths, each once |
| RepairBatch.RunRepairs | admin/repair-legacy-tables/internal/repair/repair.go:77-128 | the batch loop ends with the scheme, the totals, the written output and the kind of end that the specification gives; a failed repair or a failed write to the output ends it |
| RepairBatch.OutputListsPaths | admin/repair-legacy-tables/internal/repair/repair.go:77-128 | however a batch ends, each path it writes to the output is a listed one, written once, and unless it is a dry run repaired with its original rows; in a dry run the tables written are legacy and stay so |
| RepairBatch.BatchKeepsOthers | admin/repair-legacy-tables/internal/repair/repair.go:77-128 | however a batch ends, a table that is not listed is exactly as before, and every new path is a helper name of a listed one; a dry run changes nothing |
| RepairBatch.FinishedBatchRepairsAll | admin/repair-legacy-tables/internal/repair/repair.go:77-128 | after an error-free batch every listed path is repaired with its original rows, and repaired plus skipped is the total |
| RepairBatch.SecondBatchSkipsAll | admin/repair-legacy-tables/internal/repair/repair.go:77-128 | the same batch again skips every path and changes nothing |
| DnsNames.ManagedRecovers | admin/baremetal-dns/register_private_dns.py:151-171 | every name the script forms is its own absolute name and is recognised with the label it was formed from |
| DnsNames.ManagedIsFqdn | admin/baremetal-dns/register_private_dns.py:159-171 | and only such names are recognised: label, one of the prefixes, the zone |
| DnsNames.FqdnIsInjective | admin/baremetal-dns/register_private_dns.py:260-300 | different pairs of label and prefix form different names |
| DnsNames.AbsoluteIsStable | admin/baremetal-dns/register_private_dns.py:151-156 | an absolute name is its own absolute name, for any input name |
| DnsSlots.CanonicalPrivateIp | admin/baremetal-dns/register_private_dns.py:190-202 | the stripped address when it is empty or a private IPv4 address in dotted decimal, else the error |
| DnsSlots.PrivateSlots | admin/baremetal-dns/register_private_dns.py:205-243 | the slots in order, or the address error exactly when some slot has a bad address |
| DnsSlotOrder.SlotsInOrder | admin/baremetal-dns/register_private_dns.py:13-24 | with distinct identifiers the slots are exactly the native and VLAN addresses of the private interfaces, strictly in the promised order |
| DnsSlots.SlotsIgnoreOrder | admin/baremetal-dns/register_private_dns.py:205-243 | with distinct identifiers the slots do not depend on the order in which interfaces and VLANs are listed |
| DnsSlots.FillingMovesNothing | admin/baremetal-dns/register_private_dns.py:205-243 | an address for an empty slot fills that slot and changes nothing about any other |
| DnsInventory.BuildInventory | admin/baremetal-dns/register_private_dns.py:260-300 | the loop returns the inventory of the specification, or the first error it would raise |
| DnsInventory.BuiltIs | admin/baremetal-dns/register_private_dns.py:260-300 | the inventory exists if and only if every active server is sound and labels are distinct, and then holds exactly one record for every slot with an address |
| DnsNaming.InventoryIsReady | admin/baremetal-dns/register_private_dns.py:159-300 | every wanted name is managed, with its own server's label, and is absolute: what the planner's theorems need |
| DnsNaming.NamesAreApart | admin/baremetal-dns/register_private_dns.py:260-300 | two slots that get the same name are the same slot of the same server |
| DnsNaming.InventoryIgnoresOrder | admin/baremetal-dns/register_private_dns.py:260-300 | the outcome does not depend on the order of servers, interfaces or VLANs |
| DnsNaming.FillingAddsOneName | admin/baremetal-dns/register_private_dns.py:205-300 | when an empty slot gets its address, the inventory gains exactly one name, free before, and every other entry stays |
| DnsZone.IndexARecords | admin/baremetal-dns/register_private_dns.py:303-318 | the index of exactly the A records by absolute name; the error exactly when two A records share a name |
| DnsPlan.PlanChanges | admin/baremetal-dns/register_private_dns.py:321-385 | the planned changes are those of the names concerned, each once, in ascending order |
| DnsPlan.PlanConverges | admin/baremetal-dns/register_private_dns.py:321-385 | applying a plan gives every desired name the one address and the TTL, removes what may be pruned, and leaves everything else as it was |
| DnsPlan.PlanSettles | admin/baremetal-dns/register_private_dns.py:321-385 | planning again after that gives no changes |
| DnsPlan.PruneScopeDecides | admin/baremetal-dns/register_private_dns.py:517-527 | a stale record is deleted exactly when deleting is on, its name is managed, and its server is selected if servers are filtered |
| DnsPlan.PlanResumes | admin/baremetal-dns/register_private_dns.py:321-385 | after any number of changes the next plan is exactly the changes that are left, for any pruning scope |
| DnsZone.RecordSetsForBatch | admin/baremetal-dns/register_private_dns.py:397-420 | the deletions and additions of a batch, in order |
| DnsZone.Chunks | admin/baremetal-dns/register_private_dns.py:423-427 | the batches in order, or the error for a size below one |
| DnsZone.Service.ApplyChanges | admin/baremetal-dns/register_private_dns.py:530-542 | the sending loop leaves the records, and returns or raises, as the specification says for any fate of the requests |
| DnsResume.BatchIsSteps | admin/baremetal-dns/register_private_dns.py:397-420 | a batch sent at once does what its changes do one by one |
| DnsResume.BatchIsAccepted | admin/baremetal-dns/register_private_dns.py:397-420 | every record a batch deletes is there as written, and every name it adds is free by then |
| DnsResume.SendAppliesPrefix | admin/baremetal-dns/register_private_dns.py:530-542 | however requests fare, some number of whole batches is applied; all of them when the call returns, and it returns when none fails |
| DnsResume.RunConverges | admin/baremetal-dns/register_private_dns.py:321-542 | a run without failed requests returns, every desired name has the one address and the TTL, and the managed A records that are not desired are exactly of names that may not be pruned |
| DnsResume.RunKeepsUnprunable | admin/baremetal-dns/register_private_dns.py:321-542 | stale records outside the pruning scope are untouched, however the run ends |
| DnsResume.RunPrunesByOptions | admin/baremetal-dns/register_private_dns.py:517-542 | after a run without failures a stale A record is gone if and only if deleting is on, its name is managed, and its server is selected when servers are filtered |
| DnsResume.RunLeavesForeign | admin/baremetal-dns/register_private_dns.py:321-542 | records of other types and A records with unmanaged names are untouched, however the run ends |
| DnsResume.RunStaysOnPlan | admin/baremetal-dns/register_private_dns.py:321-542 | a run that starts partway through a plan goes on along that same plan |
| DnsResume.InterruptedRunsAgree | admin/baremetal-dns/register_private_dns.py:321-542 | any number of stopped runs followed by one good run leaves the very zone one undisturbed run would have left |
| LockRecord.StepKeepsInv | apps/lockrecord-java/src/main/java/ru/zinal/lockrecord/YdbLockRecord.java:40-100 | every step of every client keeps the invariant, unless it applies an unlock a second time while another client is inside |
| LockRecord.BadResendBreaks | apps/lockrecord-java/src/main/java/ru/zinal/lockrecord/YdbLockRecord.java:91-100 | that step always breaks mutual exclusion or the locked row |
| LockRecord.MutualExclusionFromStart | apps/lockrecord-java/src/main/java/ru/zinal/lockrecord/YdbLockRecord.java:40-100 | for any number of clients and any interleaving: at most one is inside and the row is locked in its name in all states, if and only if no applied unlock is applied again while another holds the lock |
| LockRecord.AlwaysExclusiveWhenSentOnce | apps/lockrecord-java/src/main/java/ru/zinal/lockrecord/YdbLockRecord.java:40-100 | mutual exclusion without exception when each unlock takes effect once, even if lock commits succeed and are reported as failed |
| LockRecord.LockSucceeds | apps/lockrecord-java/src/main/java/ru/zinal/lockrecord/YdbLockRecord.java:40-76 | a client alone with an unlocked row gets the lock at once |
| LockRecord.ResendLetsTwoIn | apps/lockrecord-java/src/main/java/ru/zinal/lockrecord/YdbLockRecord.java:91-100 | the condition is needed: a run that lets two clients in |
| LockRecord.LostCommitOrphans | apps/lockrecord-java/src/main/java/ru/zinal/lockrecord/YdbLockRecord.java:70-75 | exact condition: a lock commit that succeeds and is reported as failed orphans the lock if and only if no client is about to send an applied unlock again |
| LockRecord.OrphanedForever | apps/lockrecord-java/src/main/java/ru/zinal/lockrecord/YdbLockRecord.java:40-100 | an orphaned lock stays orphaned, whatever the clients do |
| LockRecord.EnteringNeedsNoOrphan | apps/lockrecord-java/src/main/java/ru/zinal/lockrecord/YdbLockRecord.java:40-100 | some client can still get the lock, or has it, if and only if the lock is not orphaned |
| LockRecord.FirstCommitLost | apps/lockrecord-java/src/main/java/ru/zinal/lockrecord/YdbLockRecord.java:40-76 | a concrete run from the start after which nobody ever gets in |
| LockRecord.ResendFreesLostCommit | apps/lockrecord-java/src/main/java/ru/zinal/lockrecord/YdbLockRecord.java:70-100 | the other case: a state in which an unlock sent again frees the row after a lost commit |
| LockRecord.LockTable.Select | apps/lockrecord-java/src/main/java/ru/zinal/lockrecord/YdbLockRecord.java:54-69 | the read: a missing row counts as unlocked, a locked one leaves the client waiting |
| LockRecord.LockTable.Upsert | apps/lockrecord-java/src/main/java/ru/zinal/lockrecord/YdbLockRecord.java:70-75 | the commit: the row is overwritten only if it was not written since the read |
| LockRecord.LockTable.Update | apps/lockrecord-java/src/main/java/ru/zinal/lockrecord/YdbLockRecord.java:91-100 | the unlock clears the row without looking at its owner |
| LockRecord.LockTable.Schedule | apps/lockrecord-java/src/main/java/ru/zinal/lockrecord/Main.java:56-87 | a whole schedule on the shared row does what the step relation says and keeps the invariant when it is harmless |
| SchemePath.UnderComparable | admin/viewer/manage_tablets.py:241-257 | two paths above the same path lie above each other |
| SchemePath.UnderParent | admin/viewer/manage_tablets.py:246-257 | what is strictly under a directory is under it through its parent |
| SchemeWalk.ListChildren | admin/viewer/manage_tablets.py:923-947 | the objects, nested tables and directories one listing contributes |
| SchemeWalk.Walk | admin/viewer/manage_tablets.py:884-947 | terminates, and finds exactly the objects, nested tables and listing errors of the directories that are visited |
| SchemeWalk.SortAndUnique | admin/viewer/manage_tablets.py:949-956 | sorted by path and type, the first of each path kept |
| SchemeWalk.CollectObjects | admin/viewer/manage_tablets.py:884-958 | the result is sorted, has each object path once with its least type, and nothing else; nested tables ascending, each once |
| SchemeWalk.PrunedWalkIsFilteredWalk | admin/viewer/manage_tablets.py:884-958 | the walk pruned to a prefix returns exactly the list that filtering the full walk by the prefix returns |
| SchemeWalk.PrunedNestedIsFiltered | admin/viewer/manage_tablets.py:898-958 | and notes exactly the nested tables of the full walk that lie under or above the prefix |
| SchemeWalk.ResolveStartPath | admin/viewer/manage_tablets.py:855-872 | the deepest listed directory at or above the prefix, or the database |
| SchemeWalk.ResolvedStartsAbove | admin/viewer/manage_tablets.py:855-958 | that start satisfies the condition of the theorem when no component of the prefix is hidden |
| SchemeWalk.FullWalkReaches | admin/viewer/manage_tablets.py:884-947 | a directory without hidden components is reached by the full walk |
| SchemeHidden.VisitedExactly | admin/viewer/manage_tablets.py:884-947 | the full walk visits a directory if and only if no component on the way to it is hidden, or system objects are included |
| SchemeHidden.StartsAboveExactly | admin/viewer/manage_tablets.py:855-947 | the condition of the filtering theorem holds for a start if and only if nothing on the way to it is hidden |
| SchemeHidden.WalkShows | admin/viewer/manage_tablets.py:884-947 | the walk from a start finds exactly what directories below it, with nothing hidden in between, contribute |
| SchemeHidden.WalksAgreeExactly | admin/viewer/manage_tablets.py:855-958 | exact condition: the pruned walk gives the filtered full walk if and only if nothing on the way to the start is hidden, or nothing selected lies there but the start itself, listed in a parent that is not hidden |
| SchemeHidden.NestedAgreeExactly | admin/viewer/manage_tablets.py:898-958 | the nested tables agree under the same condition, or when there are none behind the hidden component |
| SchemeHidden.HiddenStartFindsMore | admin/viewer/manage_tablets.py:884-947 | whatever the walk from a hidden start finds beyond the start's own listing, the full walk finds under no type |
| SchemeHidden.HiddenTreeDiffers | admin/viewer/manage_tablets.py:855-958 | a concrete database with a hidden directory for which the two results differ |
| InflightTablets.CollectPending | admin/viewer/manage_tablets.py:1398-1437 | the slots count, for every path id, the pages that name it and the in-progress lists of those that name only it |
| InflightTablets.FetchInflightTablets | admin/viewer/manage_tablets.py:1379-1464 | a path is in the map exactly if a named path id has it, and holds exactly the tablets that belong to its path ids |
| InflightTablets.AttributionIsSound | admin/viewer/manage_tablets.py:1379-1464 | no tablet is on a path unless a page of one of its path ids lists it, or a transaction naming that id and nothing else has it in progress |
| InflightTablets.SharedTransactionsAreNotSplit | admin/viewer/manage_tablets.py:1379-1464 | a transaction over several paths lends its tablets to none of them |
| BitOps.AndField | bench/uuid-sharded/sharded_keygen.py:18-21 | a mask of ones above zeros takes one field of any integer, negative ones included, and leaves it in its place |
| BitOps.OrSplit | bench/uuid-sharded/sharded_keygen.py:57-64 | the low bits and the rest do not mix in an or |
| ShardedKey.DigitsOfNumber | bench/uuid-sharded/sharded_keygen.py:27-32 | writing the number that was read gives the same bytes |
| ShardedKey.NumberOfDigits | bench/uuid-sharded/sharded_keygen.py:27-32 | reading what was written gives the value modulo the width |
| ShardedKey.SharpFields | bench/uuid-sharded/sharded_keygen.py:53-64 | the masks and shifts write exactly the time field, the prefix field if wanted, and nothing else |
| ShardedKey.ReplacePrefixOnly | bench/uuid-sharded/sharded_keygen.py:67-70 | the chronological update replaces the top ten bits and nothing else |
| ShardedKey.ExtractIsTop | bench/uuid-sharded/sharded_keygen.py:48-50 | the extracted prefix is the top ten bits |
| KeyBytes.WriteBe64 | bench/uuid-sharded/sharded_keygen.py:31-32 | eight bytes in place hold the value modulo 2^64; all other bytes stay |
| KeyBytes.SetUuidVersionAndVariant | bench/uuid-sharded/sharded_keygen.py:39-41 | version 8 in byte 7 and variant bits 10 in byte 8; all other bits stay |
| KeyBytes.UpdateMsbChrono | bench/uuid-sharded/sharded_keygen.py:67-70 | the first eight bytes get the prefix; the others stay |
| KeyBytes.MakeShardedUuidBytes | bench/uuid-sharded/sharded_keygen.py:73-86 | the bytes of a sharded key for any random fill |
| KeyBytes.MakeChronoUuidBytes | bench/uuid-sharded/sharded_keygen.py:89-107 | the bytes of a chronological key for any random fill |
| KeyBytes.ShardedKeyReadsBack | bench/uuid-sharded/sharded_keygen.py:39-86 | for any fill: the prefix modulo 1024 and the time read back, version and variant stand, and every other bit is the random one |
| KeyBytes.ChronoKeyReadsBack | bench/uuid-sharded/sharded_keygen.py:39-107 | for any fill: the prefix reads back, version and variant stand, the rest is the random fill |
| KeyBytes.CompareUuidBytes | bench/uuid-sharded/sharded_keygen.py:114-120 | the sign of the first difference, zero if there is none |
| KeyBytes.CompareIsNumeric | bench/uuid-sharded/sharded_keygen.py:114-120 | for equal lengths, comparing bytes is comparing the big-endian numbers |
| KeyBytes.ShardedKeysInOrder | bench/uuid-sharded/sharded_keygen.py:57-120 | keys with prefixes go by prefix, then by second modulo 2^30, whatever the fill |
| KeyBytes.LaterIsGreater | bench/uuid-sharded/sharded_keygen.py:57-120 | less than 2^30 seconds apart, the later key of a prefix is greater if and only if both lie in one window |
| KeyBytes.GreaterForEveryFill | bench/uuid-sharded/sharded_keygen.py:57-120 | however far apart: the key of the second moment is greater for all fills if and only if it comes later modulo 2^30 |
| KeyBytes.ChronoKeysInOrder | bench/uuid-sharded/sharded_keygen.py:67-120 | chronological keys go by milliseconds modulo 2^48, with a prefix modulo 2^38; below that in plain time order |

## Left out

- SchemeTheorem.RewritePrintsPruned: states trees whose unquoted values are words, numbers and signs after a colon; lists in brackets, a comma after a '}', white space before a comma or semicolon, and a comment at the end of the file without its newline are not printed, and are covered by RewriteErases and RewriteSucceeds.
- SchemeBlocks.PrintedBlocks: states the same trees.
- SchemeKeys.KeyOfPrinted: states the same trees.
- SchemeRun.ProcessPrefix: a read or a listing that raises is not modelled; the order of log lines is not modelled.
- TableRepair.Server.Modify: a scheme operation reported as failed takes effect at once or never; one that takes effect only after the next run has begun is not modelled.
- TableRepair.RerunIsSafe: states reruns with the same options; a rerun with other helper names is a new repair of whatever is there.
- InflightTablets.CollectPending: the shard types in a slot are not modelled, which only the roles depend on.
- InflightTablets.FetchInflightTablets: the roles of tablets, which come from the shard types, are not modelled; only which tablets a path gets.
- SchemeWalk.SortAndUnique: `nested_tables` is sorted in CollectObjects; the later search for indexes and changefeeds in them is not modelled.
- DnsSlots.CanonicalPrivateIp: the address is read as dotted decimal with the three private ranges; the text of its error is not modelled.
- DnsInventory.BuildInventory: the notes for the log are not modelled.
- KeyBytes.CompareUuidBytes: hex output, prefix statistics and the Gini coefficient beside it are not modelled.
- Network and SDK code, tokens, paging, argument parsing, logging and output.
- The parsing of HTML pages in the viewer; its results are the inputs of InflightTablets.
- Message texts of errors; only their kind is kept.
- SHA-256 itself, and Unicode beyond ASCII for lower-casing and digits.
