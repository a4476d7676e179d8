# A verified model of Suliko Office's algorithms and protocols

Suliko Office is the back end of translation bureaux: it takes orders, imports a bureau's old
records, numbers its orders and clients, stores files, hands them to a translating worker and
turns the result into a Word document. This project models the parts of it that hold a real
algorithm, a protocol or arithmetic, in Dafny, and proves what those parts are for. Nothing here
runs the program, and nothing was executed: every statement below is a theorem about the model.

`dafny verify dfyconfig.toml` checks everything.

## How it is laid out

Code that changes state is modelled as classes and loops, each method proved against a
specification function; what the code is for is then proved about those functions. Code that only
computes is modelled as functions. A run of several transactions, workers or failures is a
sequence of steps, and its theorems hold after any sequence.

| files | what they model |
|---|---|
| `Whitespace`, `Document`, `DocumentText`, `HtmlWalk`, `ContentKept`, `Segmentation`, `PlainTree`, `ListNumbering`, `Writer` | the writer of Word documents from HTML: the cursor's whitespace machine against a declarative rendering of a paragraph, the tree walk, lists, and the class that does the writing |
| `TableGrid`, `ColumnWidths` | the grid of spans and the division of the page among columns |
| `Matching`, `Judging`, `ImportIntegrity`, `ImportRun` | the judging of an imported workbook, row by row and sheet by sheet |
| `Numbering` | per-bureau numbers under concurrent transactions, and their backfill |
| `Grouping`, `LegacyPayments`, `LegacyNotaries`, `LegacySync`, `LegacyOffice` | the import of the old PHP system's payments and history, and syncing a newer dump |
| `JobQueue` | the queue of files waiting for translation |
| `FileStore`, `FileSafety`, `FileAccounts` | files in object storage with rows in the database, and what survives failures |
| `RateLimit` | login throttling |
| `SulikoAccounts` | the import of suliko.ge's people |
| `Pricing`, `Billing` | prices and billed months |

## What the proofs found

Where a property one would expect is false of the code, the model keeps the code as it is, a lemma
shows the failure, and another says exactly when the property holds.

- A document's text depends on its plain tree only: the HTML without inline tags, formats, comments
  and the cuts they make in text (`PlainTreeDecides`, `RecutKeepsDocument`). A cut in preformatted
  text is such a cut only where no line break stands at it, or a side is nothing but line breaks;
  elsewhere line breaks are lost (`PreformattedCutExactly`, `PreformattedCutMatters`, `TagInPreformatted`).
- Straight inside a list an inline tag keeps text that is lost without it (`UnwrapInListLoses`).
  Straight inside a table, a row group or a row it hides the rows, captions and cells in it, whose
  content is there without it; what else it holds is lost either way, unless the table has no rows
  (`UnwrapInTable`, `UnwrapInGroup`, `UnwrapInRow`).
- A table at the start of a cell changes places with the first paragraph after it
  (`TableFirstInCell`). The document's content, in its order, is `Shown` of the tree for every tree
  (`ContentIsShown`), and that is the tree's order exactly when no cell the walk reaches has content
  both in its first paragraph and in tables ahead of it, or where one does, the two are the same
  characters either way round (`OrderIsKept`, `CellOrderExactly`, `MoveIsSeen`).
- Column widths can come out negative when many minimums overflow a narrow page
  (`NegativeWidthExample`); `PositiveExactlyWhen` has the condition.
- A session that goes on after its flush failed can skip a number (`KeptSessionLeavesAGap`): it does
  exactly when it draws while the number it remembers drawing last is not in use (`GapsExactly`),
  and the gap is committed exactly when that transaction is (`CommittedGapsExactly`).
- A refund that is a row of its own is dropped on import, and the order stays paid by its other
  rows (`RefundIsDropped`). The payments come to the rows exactly when no group of rows comes to
  less than nothing, and to more otherwise (`MoneyIsConservedExactly`).
- A sync misses a payment that repeats an earlier one in everything but its method
  (`SyncedMoneyIsImported`), and shows an old status when the events it adds are older than the one
  the first import put at its own moment (`SyncShowsTheStatus`). An order whose first import did not
  show the earlier dump's status is taken for changed in Office, and its history is left as it is
  (`SyncedStatusExactly`).
- The result of a removed document writes its failure by the job's id alone, so it can overwrite a
  job that was translated or cancelled meanwhile, though the module promises that every move names
  the state it moves from (`DoneIsFinal`, `StaleFailIsSafeExactly`). A worker that lost its lease
  can still report on the job of the next one (`LateReportTakesBack`); a report ends the worker's
  own claim exactly when the job was not put back since (`ReportEndsOwnClaim`).
- A purge run through ordinary storage deletes the rows of vault files and leaves their bytes
  (`SwitchedBackendOrphans`, `PurgeLeavesNothing`); over any run, bytes are left behind exactly when
  a purge commits whose rows still have something stored by then (`OrphansExactly`).
- Two first uploads of one order at once are put in two orders of the vault
  (`ConcurrentUploadsSplit`), and exactly such uploads are (`OneVaultOrder`). Files whose document
  was deleted are not looked at when the vault order for the next file is chosen, so an order that
  has no others is split by its next upload (`UploadAfterRemoval`, `AllInOneVaultOrder`).
- The limiter's own description speaks of fixed windows. In process it is a sliding window, and in
  Redis every hit restarts the window; the model follows the code.
- A dry run of the account import misses a conflict exactly when two people are after one sign-in
  (`DryRunPredicts`). Two people with an empty sign-in would be given the same number
  (`EmptySignInsCollide`), and nothing else meets the constraints of the table
  (`UpsertKeepsOneEach`, `RunKeepsOneEach`).
- A month is also accepted with its year in the decimal digits of other scripts and with a newline
  after it, and the year 0000 parses (`ParsesExactly`, `FullwidthYear`, `YearZeroParses`); what
  parses prints back, but for the newline, exactly when its year is in ASCII digits
  (`PrintUndoesParse`).
- A form feed is listed among the characters that collapse, but is removed first as one XML cannot
  carry (`Whitespace`).

## Model

| member | source | states |
|---|---|---|
| Whitespace.TextIsChars | worker/translation_docx.py:676-698 | writing a text node in one step (collapse, lead, core, trail) leaves the line exactly as its characters one by one would |
| Whitespace.RunSettled | worker/translation_docx.py:433-463 | over every run of texts and breaks: a line that has text owes no line breaks, and owes a space only then |
| Whitespace.RunIsRender | worker/translation_docx.py:592-704 | the text a paragraph ends up with equals the declarative rendering: each line's words joined by single spaces, lines joined by breaks, trailing breaks dropped |
| Whitespace.RunInk | worker/translation_docx.py:626-698 | every character that is not whitespace, preformatted or not, is written once and in order, and nothing else |
| Document.Cursor.Text | worker/translation_docx.py:676-698 | the method's whole effect on paragraph, pending space and breaks, equal to the step function the theorems are about |
| Document.Cursor.Open | worker/translation_docx.py:592-624 | opening a paragraph uses the cell's spare one first, else adds one |
| Document.Cursor.Write | worker/translation_docx.py:626-643 | pending breaks are drawn before the text, and the line has text after |
| Document.Cursor.LineBreak | worker/translation_docx.py:700-704 | one more break is pending and the line is empty |
| Document.Cursor.Close | worker/translation_docx.py:459-463 | the paragraph is closed and nothing is pending |
| DocumentText.PageText | worker/translation_docx.py:433-463 | a page's blocks are, in order, the paragraphs gathered between boundaries, each with its rendered text and list mark, and the rules and tables between them |
| DocumentText.CellText | worker/translation_docx.py:1006-1037 | a cell's blocks are the same, with its first paragraph in first place and an empty one after each table in it |
| TableGrid.Allocate | worker/translation_docx.py:858-889 | the allocator's loops give exactly the specified placements, its occupied set is exactly their union, and the column search ends |
| TableGrid.AllocationIsATable | worker/translation_docx.py:858-889 | for all rows of spans: each cell placed once in row-major order, placements pairwise disjoint and within rows and width, each cell at the first free square of its row with as many free columns as it asks for, each row span honoured to the table's end |
| TableGrid.RowSpanHonoured | worker/translation_docx.py:870-889 | the truncation of a row span never fires: what is taken below is taken here |
| TableGrid.PlaceCellFits | worker/translation_docx.py:858-889 | the square chosen is free and every one before it in the row is taken |
| ColumnWidths.ComputeWeights | worker/translation_docx.py:905-912 | a column weighs the most any single-column cell of it asks for, and at least one |
| ColumnWidths.FitColumns | worker/translation_docx.py:905-929 | the array written is the proportional division with minimums, shaved at its widest column |
| ColumnWidths.WidthsFillThePage | worker/translation_docx.py:905-929 | the widths sum to exactly the page when the minimums overflow it, else to more than the page less one twip a column |
| ColumnWidths.HeavierIsWider | worker/translation_docx.py:913-922 | before shaving a heavier column is never narrower |
| ColumnWidths.PositiveExactlyWhen | worker/translation_docx.py:923-929 | only the widest column can end below the minimum, and all widths are positive exactly when the overflow is less than that column |
| ColumnWidths.NegativeWidthExample | worker/translation_docx.py:905-929 | 38 light and two heavy columns on an A4 page get a negative width |
| ContentKept.ContentIsShown | worker/translation_docx.py:732-1037 | for every tree: the document's characters are, in order, those of the tree read with each cell's first paragraph ahead of the tables before it |
| ContentKept.OrderIsKept | worker/translation_docx.py:1006-1037 | for every tree: the characters the walk reaches are in document order exactly when each cell reached has none in its first paragraph, or none in tables ahead of it, or the same either way round |
| ContentKept.CellOrderExactly | worker/translation_docx.py:1006-1037 | of any cell: its content is in the order it was written exactly when it has no paragraph or rule, or its first one and the tables ahead of it can change places unseen |
| ContentKept.MoveIsSeen | worker/translation_docx.py:1006-1037 | they cannot where they begin with different characters |
| ContentKept.ContentIsKeptExactlyWhen | worker/translation_docx.py:732-1037 | for every tree: the document's characters are the tree's, in document order, exactly when no content stands where the walk does not look and every cell reached keeps its order |
| ContentKept.EveryCharacterOnce | worker/translation_docx.py:732-903 | for every tree: the document's characters are those the walk reaches, each once, and they and the lost ones are the tree's |
| ContentKept.TableFirstInCell | worker/translation_docx.py:1006-1037 | a table at the start of a cell ends up after the text that followed it |
| Segmentation.SameAtomsSameText | worker/translation_docx.py:592-704 | two walks that send the same characters, breaks and boundaries give the same text, whatever the formats and cuts |
| Segmentation.UnwrapInline | worker/translation_docx.py:732-772 | among children that are walked one by one, in any context, an inline tag taken away leaves the same characters, breaks, boundaries and list definitions |
| Segmentation.CutText | worker/translation_docx.py:676-698 | running text cut in two, in any formats, sends the characters of the whole |
| Segmentation.CutPreformatted | worker/translation_docx.py:676-698 | so does preformatted text, where the cut loses no line break |
| Segmentation.PreformattedText | worker/translation_docx.py:676-698 | two preformatted texts in a row write their bodies, each without the line breaks at its ends, and no paragraph if both are empty |
| Segmentation.PreformattedCutExactly | worker/translation_docx.py:676-698 | preformatted text cut in two writes what the whole does exactly when a side is only line breaks, or no line break is at the cut |
| Segmentation.PreformattedCutMatters | worker/translation_docx.py:676-698 | so a cut at a line's end between any two texts that are not only line breaks changes what is written |
| PlainTree.PlainKidsWalk | worker/translation_docx.py:732-903 | at every depth, through lists, items, blocks and tables, the plain form of a tree is walked with the same characters, breaks, boundaries, grids and list definitions |
| PlainTree.PlainTreeDecides | worker/translation_docx.py:592-903 | two trees that differ in inline tags, formats, comments and cuts of text only make the same document |
| PlainTree.RecutKeepsDocument | worker/translation_docx.py:732-772 | at any depth, among the children of an element that is not a list, table, row group or row: taking an inline tag away, dropping a comment, or joining two texts, preformatted ones where no line break is lost between them, keeps the document |
| PlainTree.TagInPreformatted | worker/translation_docx.py:676-698 | a document of preformatted text stays the same with a tag begun in it exactly when no line break is lost at the cut |
| PlainTree.UnwrapInListLoses | worker/translation_docx.py:815-833 | an inline tag straight inside a list, taken away, costs exactly the text straight inside it |
| PlainTree.UnwrapInTable | worker/translation_docx.py:849-903 | straight inside a table with cells, exactly the content of the rows and captions in it is gained; and what happens to a table that has no rows or no cells without them |
| PlainTree.UnwrapInGroup | worker/translation_docx.py:849-903 | straight inside a row group of such a table, the content of the rows in it |
| PlainTree.UnwrapInRow | worker/translation_docx.py:849-903 | straight inside a row of such a table, the content of the cells in it |
| ListNumbering.KidsCheck | worker/translation_docx.py:815-847 | every item carries the numbering of its nearest list at its depth, capped at the ninth level, and every list opened is closed |
| ListNumbering.OrderedListsAreApart | worker/translation_docx.py:575-590 | no two ordered lists share a definition, and every ordered definition belongs to a list |
| ListNumbering.NewListDefines | worker/translation_docx.py:575-590 | a new ordered list adds one definition with its start; bullets share one |
| ListNumbering.ItemsAreMarked | worker/translation_docx.py:592-624 | outside table cells: the first paragraph to begin after an item does, before the item ends or another begins, carries its mark, and no other paragraph carries any |
| ListNumbering.AllItemsAreMarked | worker/translation_docx.py:592-624 | in the whole document, cells of any depth included: the marks paragraphs carry are those of the items that have a paragraph of their own, each once |
| ListNumbering.ItemParagraph | worker/translation_docx.py:835-847 | a text right after an item begins makes the paragraph with the item's mark |
| Writer.Writer.Kids | worker/translation_docx.py:732-736 | the method plays exactly the walk's events on the cursor, or stops having found what makes the document too large |
| Writer.Writer.Enter | worker/translation_docx.py:738-772 | one element: counted, dispatched and written as the walk says |
| Writer.Writer.List | worker/translation_docx.py:815-833 | a list numbers, opens and closes as the walk says |
| Writer.Writer.ListItem | worker/translation_docx.py:835-847 | an item marks its first paragraph and starts a list of its own where it has none |
| Writer.Writer.Table | worker/translation_docx.py:849-903 | captions before the grid, cells at their placements, each cell's blocks its own walk's |
| Writer.HtmlToDocx | worker/translation_docx.py:1040-1075 | a document is made exactly when the tree is within the limits; its text is its characters, breaks and boundaries'; its content is what is shown of the tree, and the tree's own exactly when nothing stands where the walk does not look and every cell keeps its order |
| Matching.Seen.MatchRef | src/suliko/domain/imports.py:902-914 | the four dictionaries answer what the specified match answers |
| Matching.Seen.Add | src/suliko/domain/imports.py:891-900 | the first record under a key stays |
| Matching.RefCounter.Next | src/suliko/domain/imports.py:820-841 | refs are handed out 0, 1, 2 |
| Matching.IndexIsScan | src/suliko/domain/imports.py:879-919 | after any additions the index answers what scanning the people in order would: by phone, else email, else personal number, else name when asked |
| Matching.MatchesAreStable | src/suliko/domain/imports.py:902-914 | adding people never changes a match by phone, and changes another only by one on a field asked before it |
| ImportIntegrity.ImportIsSound | src/suliko/domain/imports_combined.py:336-391 | over any rows of any sheets: every reference of an accepted order is the bureau's or created at or before its row, created records are numbered without gap or repeat, and the counters count them |
| ImportIntegrity.StartIsSound | src/suliko/domain/imports_combined.py:336-352 | an import begins sound from the bureau's own records |
| ImportIntegrity.NoOrderIsTwice | src/suliko/domain/imports_orders.py:171-188 | accepted orders have pairwise different keys, none of an order already there |
| ImportIntegrity.NewClientIsNoDuplicate | src/suliko/domain/imports_orders.py:300-388 | a row that brings a new client is never judged a duplicate |
| ImportIntegrity.AgainIsDuplicate | src/suliko/domain/imports_orders.py:300-388 | judged again from the state it leaves, an accepted row is a duplicate and changes nothing |
| ImportIntegrity.NobodyIsOverwritten | src/suliko/domain/imports_orders.py:115-157 | whatever a row does, every name, phone and key keeps its first owner |
| ImportIntegrity.PairsAreThoseOfTheOrders | src/suliko/domain/imports_orders.py:360-388 | a translator the orders create is saved with exactly the language pairs of the orders naming them, each once |
| ImportRun.PeopleBook.Create | src/suliko/domain/imports_orders.py:142-157 | creating a person numbers, records and indexes them as specified |
| ImportRun.Import.constructor | src/suliko/api/v1/imports.py:289-301 | an import begins from the bureau's people, those orders can name remembered in their order |
| ImportRun.Import.JudgeClientRow | src/suliko/domain/imports.py:949-1038 | a client row's outcome and the new index |
| ImportRun.Import.JudgePersonRow | src/suliko/domain/imports_combined.py:310-333 | a translator's or notary's row, and what orders may later find of them |
| ImportRun.Import.JudgeOrderRow | src/suliko/domain/imports_orders.py:191-407 | an order row's outcome; an error or duplicate leaves index, counters, books and known orders untouched, and only an accepted row changes them, all at once |
| ImportRun.Import.JudgeWorkbook | src/suliko/domain/imports_combined.py:336-391 | notaries, translators, clients, then orders, over one shared state: the results returned, sheet by sheet, are those of judging all rows in that order, a result for each row of each sheet that has a kind; a sheet that cannot be judged refuses the workbook |
| ImportRun.WorkbookIsSound | src/suliko/domain/imports_combined.py:336-391 | of the results returned: references of accepted orders resolve by their row, what was created is numbered without a gap, and no two accepted orders are the same, nor one the bureau has |
| Numbering.SessionInfo.Assign | src/suliko/db/numbering.py:50-62 | the number is above the highest seen and all drawn in the flush; a given number is kept |
| Numbering.SessionInfo.Forget | src/suliko/db/numbering.py:65-68 | what was drawn is forgotten after the flush |
| Numbering.NumbersAreApart | src/suliko/db/numbering.py:33-62 | over every interleaving of draws, inserts, trigger inserts, deletes, commits and rollbacks: no two rows of a bureau share a number, committed or in any session's view |
| Numbering.NumbersHaveNoGaps | src/suliko/db/numbering.py:33-68 | over every run without deletes in which no session goes on after a failed flush, the committed numbers of each bureau are exactly 1 to n |
| Numbering.DrawsIgnoreInserts | src/suliko/db/numbering.py:50-62 | within a flush a draw does not depend on whether earlier inserts have run |
| Numbering.DrawIsNext | src/suliko/db/numbering.py:50-62 | a draw gives the next number exactly when nothing drawn is beyond those in use |
| Numbering.GapsExactly | src/suliko/db/numbering.py:50-68 | over every run without deletes, kept sessions included: the numbers count 1, 2, 3 throughout, in what is committed and what any session sees and has drawn, exactly when no session draws while the number it remembers drawing last is not in use |
| Numbering.CommittedGapsExactly | src/suliko/db/numbering.py:50-68 | over every such run: the committed numbers count 1, 2, 3 throughout exactly when no transaction commits in which a session drew while the number it remembered drawing last was not in use |
| Numbering.KeptSessionLeavesAGap | src/suliko/db/numbering.py:65-68 | a session kept after a failed flush makes a bureau's first order its second |
| Numbering.Backfill | alembic/versions/0016_per_tenant_numbers.py:86-111 | the loop over the tenants numbers each one's rows by their rank |
| Numbering.RanksAreAllTaken | alembic/versions/0016_per_tenant_numbers.py:98-104 | every rank up to a row's own is some row's |
| Numbering.BackfillBegins | alembic/versions/0016_per_tenant_numbers.py:86-111 | the backfill leaves a state from which the two theorems on runs hold |
| Numbering.BackfillKeepsOrder | alembic/versions/0016_per_tenant_numbers.py:86-111 | numbers follow the order of ids |
| Grouping.Groups.Add | src/suliko/domain/tarjimnebi_import.py:688-698 | the dictionary of lists holds, for every key, exactly what was added under it, keys in first-come order |
| Grouping.GroupsAddUp | src/suliko/domain/tarjimnebi_import.py:688-702 | gathering loses nothing and counts nothing twice, for any weight |
| Grouping.Merge | src/suliko/domain/tarjimnebi_import.py:714-723 | one sum for a key, in first-come order |
| Grouping.MergedAddsUp | src/suliko/domain/tarjimnebi_import.py:714-723 | the merged sums come to what was merged, each key once |
| LegacyPayments.MoneyIn | src/suliko/domain/tarjimnebi_import.py:686-725 | the loops give exactly the specified payments and allocations |
| LegacyPayments.MoneyIsConservedExactly | src/suliko/domain/tarjimnebi_import.py:686-725 | for any rows, refunds included: all payments are never less than all rows, and equal them exactly when no group of rows comes to less than nothing; an order is paid its rows less what the groups without a payment hold for it |
| LegacyPayments.OrderIsPaidItsRows | src/suliko/domain/tarjimnebi_import.py:700-723 | an order is paid its rows where each group that holds anything for it makes a payment |
| LegacyPayments.MoneyIsConserved | src/suliko/domain/tarjimnebi_import.py:686-725 | so, with no negative amounts, each order is paid exactly its rows, and all payments are all rows |
| LegacyPayments.PaymentIsItsShares | src/suliko/domain/tarjimnebi_import.py:700-723 | a payment's amount is the sum of its allocations, one an order |
| LegacyPayments.PaymentsStayWithClients | src/suliko/domain/tarjimnebi_import.py:693-698 | a payment pays only orders of its own client, though one old payment id may cover several |
| LegacyPayments.RefundIsDropped | src/suliko/domain/tarjimnebi_import.py:702-704 | a refund row of its own is dropped and the order stays paid by the rest |
| LegacyNotaries.AllocateRow | src/suliko/domain/tarjimnebi_import.py:807-814 | running `left` down over the documents gives the specified shares |
| LegacyNotaries.RowIsAllocated | src/suliko/domain/tarjimnebi_import.py:807-814 | a row with an owing document is allocated in full exactly when it is not negative |
| LegacyNotaries.FeesAreMetInOrder | src/suliko/domain/tarjimnebi_import.py:807-814 | each document gets what is left after those before it, up to its fee; only the first gets more |
| LegacyNotaries.MoneyOut | src/suliko/domain/tarjimnebi_import.py:780-836 | from the dump's orders, the loops gather the rows by payment and give the specified payments |
| LegacyNotaries.MoneyOutNotaries | src/suliko/domain/tarjimnebi_import.py:793-836 | the same from the groups |
| LegacyNotaries.NotaryMoneyIsConserved | src/suliko/domain/tarjimnebi_import.py:793-836 | of the rows gathered: all payments together are the rows some document accounts for, each the sum of its allocations, one a document |
| LegacyNotaries.DumpMoneyIsConserved | src/suliko/domain/tarjimnebi_import.py:780-836 | and the same of the rows in the dump, however they share payment ids |
| LegacySync.FindAdded | src/suliko/domain/tarjimnebi_import.py:175-177 | the rows whose identity was not there before |
| LegacySync.AddedCompletes | src/suliko/domain/tarjimnebi_import.py:168-177 | what was there and what is found added are all rows exactly when no added row repeats an earlier identity |
| LegacySync.DistinctRepeatNone | src/suliko/domain/tarjimnebi_import.py:168-177 | rows of distinct identities repeat none |
| LegacySync.SyncedRowsAddUp | src/suliko/domain/tarjimnebi_import.py:179-191 | an order's money after a sync is complete exactly then, and less otherwise |
| LegacySync.ImportShowsTheStatus | src/suliko/domain/tarjimnebi_import.py:623-667 | an imported order shows the dump's status exactly when no event without a time overtakes the end of its history |
| LegacySync.SyncShowsTheStatus | src/suliko/domain/tarjimnebi_import.py:584-622 | a synced order shows the newer status exactly when nothing already held overtakes what is added |
| LegacySync.TimedIsSorted | src/suliko/domain/tarjimnebi_import.py:586-586 | the history is put oldest first and keeps its events |
| LegacyOffice.Office.Import | src/suliko/domain/tarjimnebi_import.py:220-232 | refused where an earlier import left orders, else the specified tables |
| LegacyOffice.Office.Sync | src/suliko/domain/tarjimnebi_import.py:244-298 | refused where nothing was imported; else rows are only appended, as specified |
| LegacyOffice.SyncedMoneyIsImported | src/suliko/domain/tarjimnebi_import.py:168-194 | for an order in both dumps: paid after the sync what importing the newer dump would have it paid, exactly when no added payment repeats an earlier one, and less otherwise |
| LegacyOffice.SyncedNotesAreImported | src/suliko/domain/tarjimnebi_import.py:668-683 | the same of its comments |
| LegacyOffice.SyncedStatusExactly | src/suliko/domain/tarjimnebi_import.py:584-667 | of any order in both dumps: where the first import did not show the earlier dump's status, and exactly when it did not, the sync leaves its history as it is; where it did, the newer status is shown exactly when what is added is not overtaken |
| LegacyOffice.SyncedStatusIsImported | src/suliko/domain/tarjimnebi_import.py:584-667 | so, where both imports show their dump's status, the sync shows what the import would exactly then |
| LegacyOffice.NewOrderIsImported | src/suliko/domain/tarjimnebi_import.py:256-257 | an order only the newer dump has is synced as it would be imported |
| LegacyOffice.GoneOrderIsLeft | src/suliko/domain/tarjimnebi_import.py:261-262 | an order the newer dump lacks is left as it is |
| JobQueue.AttemptsAreBounded | src/suliko/domain/claude_translate.py:11-21 | over every run of moves of workers and staff attempts stay within the maximum, and a waiting job has one left |
| JobQueue.AttemptsCountClaims | src/suliko/domain/claude_translate.py:169-174 | the attempts field is the claims since the last retry less those given back |
| JobQueue.ClaimsAreSeparated | src/suliko/domain/claude_translate.py:152-180 | two claims of one job are always separated by its return to the queue |
| JobQueue.DoneIsFinal | src/suliko/domain/claude_translate.py:11-21 | a translated or cancelled job stays so exactly when the run holds no unchecked failure |
| JobQueue.StaleFailIsSafeExactly | src/suliko/api/v1/claude_worker.py:247-259 | the unchecked write is a checked one exactly while the job is still translating, or failed |
| JobQueue.FailsAfterTheMaximum | src/suliko/domain/claude_translate.py:91-123 | a job that only times out is failed exactly after the maximum of claims and time-outs, each move bringing it one nearer |
| JobQueue.ReportEndsOwnClaim | src/suliko/api/v1/claude_worker.py:321-362 | whatever moves follow a claim: a report does something exactly while the job is translating, and then ends that same claim exactly when no claim was taken since, which is when the job was never put back |
| JobQueue.LateReportTakesBack | src/suliko/api/v1/claude_worker.py:321-362 | a report of a lost lease puts the next holder's job back |
| JobQueue.Queue.RequeueStuck | src/suliko/domain/claude_translate.py:91-123 | one pass moves each stuck job exactly once, as a time-out does, no other, leaves none stuck and counts them |
| JobQueue.Queue.ClaimInTenant | src/suliko/domain/claude_translate.py:152-180 | claims the oldest waiting job whose file is there, fails the older ones whose file is gone, and answers none only when none waits |
| JobQueue.Queue.Update | src/suliko/api/v1/claude_translate.py:432-497 | a compare-and-set move: done exactly when the job is in the state it names |
| FileStore.Files.UploadDocumentFile | src/suliko/domain/order_files.py:228-313 | what an upload leaves in storage and rows, whichever call fails and however |
| FileStore.Files.PurgeRemovedFiles | src/suliko/domain/order_files.py:375-422 | the due rows whose objects are gone are deleted, the others kept and counted failed |
| FileStore.Files.PurgeWorkingCopies | src/suliko/domain/order_files.py:425-473 | the due copies that could be deleted are, and their keys cleared |
| FileStore.Files.RemoveDocumentFile | src/suliko/domain/order_files.py:327-331 | exactly the row's removal time is set |
| FileStore.Files.OpenDownload | src/suliko/domain/order_files.py:190-222 | served from the working copy or storage, or a declared error |
| FileStore.Files.VaultSibling | src/suliko/domain/order_files.py:301-313 | the vault order of the newest file of the order whose document is there |
| FileStore.ErasedMore | src/suliko/domain/order_files.py:407-416 | deleting row by row is deleting all |
| FileSafety.SiblingIsFound | src/suliko/domain/order_files.py:301-313 | the sibling looked up is a vault file of the order, and none is found only when there is none |
| FileSafety.CommittedFilesSurvive | src/suliko/domain/order_files.py:228-473 | over every run, whatever storage call or commit fails: a committed row not removed has its object with the uploaded bytes, and a download never answers other bytes |
| FileSafety.ServedExactly | src/suliko/domain/order_files.py:190-222 | a live file is served always from ordinary storage, and from the vault exactly while its copy is there |
| FileAccounts.OrphansExactly | src/suliko/domain/order_files.py:375-422 | over every run, whatever backends, faults and rollbacks: every stored object is some row's or of an upload that failed, throughout, exactly when no purge commits whose rows still have something stored by then |
| FileAccounts.StepKnown | src/suliko/domain/order_files.py:228-473 | the same of each single step |
| FileAccounts.NothingIsOrphaned | src/suliko/domain/order_files.py:375-422 | so over every run whose purges reach the vault: a row goes only once nothing of it is stored, and every object is some row's or of an upload that failed |
| FileAccounts.PurgeLeavesNothing | src/suliko/domain/order_files.py:407-416 | a purge leaves nothing of a row exactly when the row is not in the vault or the backend is |
| FileAccounts.SwitchedBackendOrphans | src/suliko/integrations/object_storage.py:307-317 | a purge through ordinary storage deletes a vault file's row and not its bytes |
| FileAccounts.UploadTogether | src/suliko/domain/order_files.py:301-313 | an upload keeps the order's vault files together exactly when it finds a committed one, or takes the vault order every upload under way for the order has taken |
| FileAccounts.OneVaultOrder | src/suliko/domain/order_files.py:301-313 | over every run: the vault files of each order whose documents remain share one vault order throughout exactly when every upload does so |
| FileAccounts.AllInOneVaultOrder | src/suliko/domain/order_files.py:301-313 | the same of all vault files of an order, those with a deleted document too: exactly when each upload that finds no committed file with a document finds none without one either |
| FileAccounts.UploadAfterRemoval | src/suliko/domain/order_files.py:301-313 | after a document is deleted, the next upload for its order stays with the order's files exactly when another document has one in the vault, or the new vault order is theirs |
| FileAccounts.ConcurrentUploadsSplit | src/suliko/domain/order_files.py:301-313 | two first uploads at once start two vault orders |
| RateLimit.PruningForgetsNothing | src/suliko/core/ratelimit.py:43-47 | a pruned list answers as the full one at any later cutoff |
| RateLimit.RateLimiter.HitCount | src/suliko/core/ratelimit.py:35-47 | counts as the full history would in process, and no less in Redis |
| RateLimit.RateLimiter.Current | src/suliko/core/ratelimit.py:50-59 | the same, without a hit |
| RateLimit.RateLimiter.Clear | src/suliko/core/ratelimit.py:61-65 | the key's hits are forgotten, no other's |
| RateLimit.RateLimiter.CheckLogin | src/suliko/core/ratelimit.py:69-78 | lets an attempt proceed only below both limits, and in process always then |
| RateLimit.RateLimiter.RecordLoginFailure | src/suliko/core/ratelimit.py:80-83 | one hit for each of the two keys |
| RateLimit.CounterDominates | src/suliko/core/ratelimit.py:35-41 | the Redis counter is never below the sliding count, zero with it, and equal exactly when all hits since the last quiet window are in this one |
| RateLimit.AnyWindowHolds | src/suliko/core/ratelimit.py:69-83 | with at most k attempts between check and record, any window holds at most limit + k - 1 failures |
| RateLimit.BoundIsReached | src/suliko/core/ratelimit.py:69-83 | and that bound cannot be lowered |
| SulikoAccounts.SpellingsMeet | src/suliko/domain/accounts.py:71-98 | each spelling of a nine-digit number is looked up under all four; the one with the trunk zero exactly when the number begins with 5 |
| SulikoAccounts.Directory.UpsertFromSuliko | src/suliko/domain/accounts.py:168-208 | linked, made or refused as decided by the accounts there are |
| SulikoAccounts.Directory.ImportUsers | src/suliko/domain/suliko_import.py:60-87 | both modes' reports, and which changes accounts |
| SulikoAccounts.UpsertKeepsOneEach | src/suliko/domain/accounts.py:168-208 | no address, number or suliko.ge id comes to have two accounts, exactly unless a new person has an empty sign-in and an account with an empty number is there |
| SulikoAccounts.RunKeepsOneEach | src/suliko/domain/suliko_import.py:60-87 | over a whole list of people the same, exactly when in all at most one account has, or is given, an empty number |
| SulikoAccounts.EmptySignInsCollide | src/suliko/domain/accounts.py:197-208 | two people with an empty sign-in are given one number |
| SulikoAccounts.LinksAreKept | src/suliko/domain/accounts.py:149-165 | a linked account is never rebound |
| SulikoAccounts.UpsertTwice | src/suliko/domain/accounts.py:168-208 | coming again, a person is given the same account and nothing changes |
| SulikoAccounts.DryRunPredicts | src/suliko/domain/suliko_import.py:60-87 | the dry run's report is the real run's exactly when no two people are after one sign-in |
| SulikoAccounts.SecondRunChangesNothing | src/suliko/domain/suliko_import.py:60-87 | a second run makes no account, links nobody and changes nothing |
| Pricing.NotaryFeesAreWhole | src/suliko/domain/pricing.py:36-54 | notary and certification fees are whole tetri for every number of pages |
| Pricing.RoundingShifts | src/suliko/domain/pricing.py:69-78 | whole tetri pass through rounding |
| Pricing.PriceIsClose | src/suliko/domain/pricing.py:183-248 | a price is the sum of the parts shown and within half a tetri of the exact price |
| Pricing.LineProfit | src/suliko/domain/pricing.py:160-162 | a line's profit is the translation less the translator's part, never negative for a share of at most one |
| Pricing.QuoteAddsUp | src/suliko/domain/pricing.py:290-326 | total is the lines and the delivery shown, gross profit the lines' profits and the delivery, and the total within half a tetri a line and half for delivery of the exact one |
| Billing.MonthsAbut | src/suliko/domain/billing.py:185-195 | a month's window ends where the next begins, across leap years |
| Billing.MonthsTileTime | src/suliko/domain/billing.py:180-195 | every instant is in exactly one month's window, that of the current period |
| Billing.NumberHasItsDate | src/suliko/domain/billing.py:198-212 | dates and day numbers determine each other |
| Billing.PreviousUndoesNext | src/suliko/domain/billing.py:202-212 | the month before and the month after undo each other |
| Billing.ParsesExactly | src/suliko/domain/billing.py:170-200 | a text parses as a month exactly when, up to one newline, its year digits are worth the year's, in any script, and the rest is how the month prints |
| Billing.ParseUndoesPrint | src/suliko/domain/billing.py:170-200 | a printed month parses as itself |
| Billing.PrintUndoesParse | src/suliko/domain/billing.py:170-200 | what parses prints back, up to its newline, exactly when its year is in ASCII digits |
| Billing.FullwidthYear | src/suliko/domain/billing.py:170-200 | a year in full-width digits parses and is not how the month prints |
| Billing.YearZeroParses | src/suliko/domain/billing.py:170-200 | the year 0000 parses, which is no year of a date |
| Billing.MonthsCountEachOnce | src/suliko/domain/billing.py:231-257 | over any run of months each countable order is counted once |

## Left out

- Word writer: images, page breaks, CSS parsing, colours, sizes and spacing of runs, borders, the package's XML and fonts. A format is what the writing of text asks about it; an element's tag is given as its class (block, inline, list, table and so on); text is a node of its own, where the parser keeps it beside elements.
- Column widths are computed over reals, not floats.
- Import of workbooks: reading files, guessing headers and columns; cells arrive as text, dates, amounts and language pairs as parsed; case folding is a parameter; digits of phone keys are ASCII.
- Numbering: savepoints, and numbers given by the caller; two sessions' ids are never the same.
- LegacyPayments.MoneyIsConserved: amounts are whole tetri, where the source rounds each row to them first.
- LegacyPayments: payouts to translators, which need to know whom the sync selected; matching of people, documents, expenses and languages.
- LegacyOffice: a client is resolved before, so an order whose client is missing from the dump is not there.
- LegacySync.TimedIsSorted: times are instants; the source sorts the dump's strings, which have one form.
- JobQueue: which organisation's queue is served first, heartbeats, the worker's own program, file checks of a result.
- FileStore: names, content types and headers; chunks of a download are one piece; the vault files under the order it is asked for; an upload's document is not deleted before it commits.
- PlainTree.RecutKeepsDocument: that a cut which loses a line break changes the document is proved for a text alone in its block (`TagInPreformatted`).
- Numbering.GapsExactly, Numbering.CommittedGapsExactly: deletes, which leave gaps by themselves.
- RateLimit.AnyWindowHolds: for a key that is never cleared; a successful login clears its account's key.
- Rate limits on other actions, which count in the same way.
- SulikoAccounts: digits of phone numbers are ASCII; the list of accounts left without a suliko.ge person, which a dry run can spell otherwise; linking by hand; passwords, names and verification times; a lookup that matches several accounts takes the first.
- Pricing: exact reals in place of 28-digit decimals; a character count's standard pages are not rounded.
- Billing: time zones with daylight saving; years after 9999, where the source raises; packages and invoices.
- Permissions, tenancy and row-level security, mail, Google Drive, the Word editor, notifications, deletion requests and reference data: single-branch code or other systems' semantics.
