# CloudBank: a verified model

CloudBank is a personal finance server. This project models the parts of it that compute or keep something that can go
wrong, and proves what they promise:

- **Backup and restore.** `Tables` (rows under increasing ids, copies of a wallet's rows), `WalletBackup` (the rows, the
  document, `Export` and `Restore`), `WalletCopy`, `WalletKept` and `WalletRestore` (restoring a backup
  gives the same wallet under fresh ids, which can be backed up again). A table is a map from ids to rows and the next id; a
  wallet is well formed when its references stay inside it, its categories have at most two levels, and the database's
  unique indexes hold. `CategoriesInBackup` ties this to what the category service keeps, `ForeignDocuments` is
  about documents no export wrote.
- **Categories.** `Categories`: the two-level tree, its four operations, and what they keep over any run; where references end up. `CategoryEffects`:
  each answer, and each row it leaves.
- **Rules.** `RuleEngine` and `AssignmentService`: first match, live counts, the dry run, application to what is there;
  `RuleEffects` says what that does to each row.
- **Texts.** `PayeeCleanup` (the longest run two names share, rule texts, the proposals, over `StableSort`), `NumberHiding`
  (numbers blanked before a text leaves the server).
- **Amounts.** `Money`, `MoneyTexts`, `MoneyRoundTrip` (the page's printer and its two parsers), `HomeBankAmount` (the export's printer),
  over `Decimal` and `Division`.
- **Limiters.** `LoginLimiter` (fixed window with garbage collection), `DemoWindow` and `DemoStarts` (sliding window filtered
  in place), over `Intervals`.
- **The AI gateway.** `AiGateway`: calls that count, stamp, purge, log and send in separate steps.
- **Budgets.** `BudgetPlan` (set, list, look up, HomeBank fields) and `BudgetReport` (lines, totals, lines paid once a month, the
  sort); `BudgetEffects` says what these come to, row by row.
- **Responses.** `EmptyLists`: no `null` where a list or an object is promised; what is copied for it and what is shared.
- **Bank sync.** `BankSync` (slots, windows, weekday masks) and `ScheduleZones` (local time to UTC and back).
- **Goals and the demo.** `GoalPace` and `DemoSeed`.

Services that change rows are classes whose methods assign the tables; each method is proved against a function or a relation
of the old state, and the properties are lemmas about that. SQL statements stand for their evident effect, with the foreign
keys and unique indexes of the migrations. Letters' cases, spaces, regular expressions, the calendar and the conversion to the
base currency are parameters. Times and amounts are unbounded integers.

Where the code does not do all it is meant to, the exact condition is proved: `MoneyRoundTrip` (marks that print alike),
`InputReadsBack`, `DryRunOfAnEdit` (a stored rule that no longer compiles), `MergeKeepsNamesApart`, `MergeKeepsTypes`,
`DeleteTakesOnlyOne`, `DeleteKeepsReferencesOwn`, `FieldsGiveTheSameMonths`, `OneSyncPerSlot` (an import that fails),
`NoGapIfStampedInTime`, `AccountHasNoGap`, `ComesBackInWholeHours`, `ParentIsKeptIfInsertedBefore`.

## Model

| member | source | states |
|---|---|---|
| `WalletBackup.Store.Export` | server/internal/backup/backup.go:283-536 | each row of the wallet becomes one entry under its id, table by table, the rules in match order; transactions are those on the wallet's accounts; nothing when there is no such wallet |
| `WalletBackup.SelectRules` | server/internal/store/queries/assignments.sql:12-13 | each of the wallet's rules once, by position and then by id |
| `WalletBackup.Store.Restore` | server/internal/backup/backup.go:540-911 | succeeds exactly when the version is known and the database refuses no row (missing currency or account, unique index); then the state is the old one with the new wallet appended, otherwise nothing has changed; either way the database is ready for the next restore |
| `ForeignDocuments.AcceptedExactly` | server/internal/backup/backup.go:540-897 | which documents are taken: version 1, no code or name twice, every account's currency and transaction's account in it, no clash among categories, transfers or budgets |
| `ForeignDocuments.PassedOver` | server/internal/backup/backup.go:741-884 | entries passed over are exactly those whose row cannot be made |
| `ForeignDocuments.KnownTags` | server/internal/backup/backup.go:730-738 | of a list of tag names those the document has, each once |
| `ForeignDocuments.LastRateOfADate` | server/internal/backup/backup.go:578-584 | of several rates on one date the last counts |
| `WalletBackup.RestoredIsReady` | server/internal/backup/backup.go:540-911 | whatever document is restored, ids and wallets in use stay below the next ones, and every transaction is of its account's wallet |
| `WalletBackup.InsertCategories` | server/internal/backup/backup.go:616-648 | the two passes insert top-level categories, then the others, each with its parent looked up among those inserted so far, and fail exactly on a clash of names under one parent |
| `WalletBackup.InsertTags` | server/internal/backup/backup.go:681-688 | the tags are appended and found again by name, the last of two by one name |
| `WalletBackup.InsertTemplates` | server/internal/backup/backup.go:793-826 | templates are appended with every reference looked up, and under each its schedules, without the date they last posted |
| `WalletBackup.InsertSchedules` | server/internal/backup/backup.go:814-825 | exactly the schedules of one template are appended, in the document's order, under its new id |
| `WalletBackup.LinkTemplates` | server/internal/backup/backup.go:828-844 | after the templates are in, each transaction that names a known one points at it |
| `WalletBackup.RestoreBasics` | server/internal/backup/backup.go:564-706 | currencies, accounts, categories, payees, tags and vehicles with their id maps; fails exactly when one of their rows is refused |
| `WalletBackup.RestoreLedger` | server/internal/backup/backup.go:708-750 | transactions with splits and tags, then the transfers whose two legs are known; fails exactly when an account is missing or a leg is used twice |
| `WalletBackup.RestorePlans` | server/internal/backup/backup.go:793-897 | templates and schedules, the late links, rules, budgets of known categories, and goals |
| `Tables.InsertAll` | server/internal/backup/backup.go:564-897 | entries inserted one by one get increasing ids, and the map takes each entry's old id to its new one; it stops exactly when a row is refused |
| `Tables.AppendedIsCopy` | server/internal/backup/backup.go:564-897 | appending the renamed rows of a wallet gives rows one to one with the originals under an injective map, and changes no other row |
| `WalletCopy.ParentIsKeptIfInsertedBefore` | server/internal/backup/backup.go:616-648 | a restored category keeps its parent exactly when it has none or its parent was inserted before it |
| `WalletRestore.AThirdLevelLosesItsParent` | server/internal/backup/backup.go:616-648 | with three levels, a category listed before its parent comes back without it |
| `WalletCopy.CategoriesCopied` | server/internal/backup/backup.go:616-648 | with at most two levels every parent is carried over and no name clashes |
| `WalletCopy.TagsAreCarried` | server/internal/backup/backup.go:730-738 | going by name, a transaction's or a rule's tags come back as the copies of its tags, each once, in order |
| `WalletCopy.RatesStay` | server/internal/backup/backup.go:578-584 | upserting a currency's rates, one a date, gives the same rates |
| `WalletRestore.TxnsCopied` | server/internal/backup/backup.go:708-844 | every transaction has one copy, with account, payee, category, vehicle, splits, tags and late template link carried over |
| `WalletRestore.LinkedIsAppended` | server/internal/backup/backup.go:828-844 | the late links change only the new rows, each by its own entry |
| `WalletRestore.TransfersCopied` | server/internal/backup/backup.go:741-750 | no transfer is passed over or refused: each pair of legs has one copy, between their copies |
| `WalletRestore.SchedulesCopied` | server/internal/backup/backup.go:814-825 | template by template, every schedule has exactly one copy, under its template's copy |
| `WalletRestore.BaseIsCarried` | server/internal/backup/backup.go:564-592 | the new wallet's base currency is the copy of the old one's |
| `WalletRestore.RestoreGivesTheSameWallet` | server/internal/backup/backup.go:283-911 | restoring any backup of a well-formed wallet succeeds and gives the same wallet under injective id maps that carry every reference, with its rules tried in the same order; no row of another wallet changes; the copy is well formed, every other well-formed wallet stays so, and the database is ready again |
| `WalletRestore.RestoreAgain` | server/internal/backup/backup.go:283-911 | a backup of the copy restores as well and gives the same wallet once more |
| `WalletKept.CopyIsWellFormed` | server/internal/backup/backup.go:540-911 | renaming keeps references inside the wallet, two levels of categories, the unique indexes and the base currency |
| `WalletKept.RulesKeepTheirOrder` | server/internal/backup/backup.go:846-862 | of two rules the one tried first has the copy that is tried first, also when their positions are equal |
| `CategoriesInBackup.ServiceKeepsCategoriesOk` | server/internal/category/service.go:141-338 | after any run of the category service whose deletes give to their own wallet, the categories and what names them are as a backup needs them |
| `Categories.SameName` | server/internal/category/service.go:38-58 | another category at the level has the name, case and surrounding spaces aside, exactly when one is reported, and the reported name is such a one |
| `CategoryEffects.OneName` | server/internal/category/service.go:38-58 | names are one when, spaces around aside, they fold alike letter by letter |
| `Categories.Service.Create` | server/internal/category/service.go:141-173 | which error each refusal gives; otherwise the new row, with its parent's type and the trimmed name; keeps the tree sound |
| `CategoryEffects.CreatedRow` | server/internal/category/service.go:141-173 | one new row: the trimmed name, both marks as asked; its type is the parent's, at the top level the one asked for |
| `CategoryEffects.CreateRefusals` | server/internal/category/service.go:141-160 | each error, said of the rows, and when there is none |
| `Categories.Service.Update` | server/internal/category/service.go:175-239 | which error each refusal gives; otherwise the changed row, under its new parent if it moves, with its type given on to its children |
| `CategoryEffects.UpdatedRow` | server/internal/category/service.go:175-239 | the row as asked, its type the parent's or at the top level the one asked for, which its children then have too; no other row changes |
| `CategoryEffects.UpdateRefusals` | server/internal/category/service.go:175-222 | each error, said of the rows, and when there is none |
| `Categories.Service.Merge` | server/internal/category/service.go:258-283 | which error each refusal gives; otherwise everything on the source moves to the target and the source goes |
| `CategoryEffects.MergeRefusals` | server/internal/category/service.go:258-282 | each error, said of the rows |
| `Categories.Service.Delete` | server/internal/category/service.go:285-309 | which error each refusal gives; otherwise references go to the target or to none, and the category goes |
| `CategoryEffects.DeleteRefusals` | server/internal/category/service.go:285-308 | each error, said of the rows |
| `CategoryEffects.DeletedHandsOver` | server/internal/category/service.go:285-338 | what named the category names the target or nothing, its children are the target's; templates, rules and budgets lose it; nothing else changes |
| `Categories.Service.ReassignAndDelete` | server/internal/category/service.go:311-338 | all four moves and the delete, or, when the database refuses one, nothing |
| `Categories.RunIsSound` | server/internal/category/service.go:141-338 | over any run of calls no category sits deeper than two levels, parents exist and are of the same wallet, and no reference goes nowhere |
| `Categories.EditsStayTidy` | server/internal/category/service.go:141-239 | over any run of creates and updates every child has its parent's type and siblings differ in more than case |
| `Categories.MergeMovesChildren` | server/internal/category/service.go:258-338 | a merge removes the source alone, and exactly the source's children become the target's as well |
| `Categories.MergeMovesReferences` | server/internal/category/service.go:313-338 | no payee, transaction or split is left on the source; the target has exactly both categories' rows; every other row keeps its category |
| `Categories.MergeKeepsNamesApart` | server/internal/category/service.go:258-283 | a merge keeps siblings apart up to case exactly when no child of the source shares its name with a child of the target |
| `Categories.MergeKeepsTypes` | server/internal/category/service.go:258-283 | a merge keeps every child of its parent's type exactly when the source has no children or has the target's type |
| `Categories.DeleteTakesOnlyOne` | server/internal/category/service.go:285-338 | a delete takes other categories along exactly when the category has children and is given as its own target |
| `Categories.DeleteKeepsReferencesOwn` | server/internal/category/service.go:285-338 | a delete keeps every reference on a category of its row's wallet exactly when nothing named the category or the target is none or of the wallet; without subcategories the service does not look |
| `Categories.RunKeepsReferencesOwn` | server/internal/category/service.go:141-338 | over any run in which deletes meet that, every reference stays in its wallet |
| `RuleEngine.FirstMatch` | server/internal/assignment/engine.go:144-159 | the first rule in order that matches, or none when no rule does |
| `RuleEngine.TextMatched` | server/internal/assignment/engine.go:118-133 | an exact rule matches a text as long as its pattern that agrees letter by letter, a containing one any text the pattern stands in; cases count when asked to |
| `RuleEngine.FieldMatched` | server/internal/assignment/engine.go:94-116 | a rule looks at its field alone, and on its account alone if it has one |
| `RuleEngine.Saved` | server/internal/assignment/engine.go:53-84 | which rules can be saved: a known field and kind, a pattern of more than spaces, an expression that is one |
| `RuleEngine.AddTags` | server/internal/assignment/engine.go:161-175 | the given tags stay in front; exactly the missing names follow, each once, in the order they are first given |
| `AssignmentService.CleanTags` | server/internal/assignment/service.go:112-125 | exactly the trimmed names that are not blank, each once, in the order they first come |
| `AssignmentService.Service.List` | server/internal/assignment/service.go:315-363 | for each rule, how many transactions it is the first usable rule to match, and how many it matches at all |
| `RuleEffects.ListedNumbers` | server/internal/assignment/service.go:315-363 | a rule's matches are the rows it is the first usable rule to match, its reach all it would match alone |
| `AssignmentService.Service.Create` | server/internal/assignment/service.go:245-281 | a rule that does not compile or names foreign rows is refused; otherwise it goes last |
| `AssignmentService.Service.Update` | server/internal/assignment/service.go:374-405 | as for a new rule; the rule keeps its id and its place |
| `AssignmentService.Service.Test` | server/internal/assignment/service.go:480-537 | counts the matches of a candidate, those a usable rule above takes first, and those it would decide that have no category; and the latest matches, newest first |
| `AssignmentService.NoneNewerIsLeftOut` | server/internal/assignment/service.go:526-536 | a match that is not shown is no newer than one that is, and as many are shown as asked for |
| `AssignmentService.LatestFirst` | server/internal/assignment/service.go:526-531 | the later date first, of one date the higher id |
| `RuleEffects.TestedNumbers` | server/internal/assignment/service.go:505-516 | the candidate's numbers are the rows it matches, those a rule above takes, and of the rest those without a category |
| `AssignmentService.AllAreDecidedOnce` | server/internal/assignment/service.go:341-358 | the matches of all rules and the unmatched transactions add up to all transactions |
| `AssignmentService.DryRunOfANewRule` | server/internal/assignment/service.go:480-537 | for a new rule the dry run's count is the reach the list shows once it is saved, and count less taken its matches |
| `AssignmentService.DryRunOfAnEdit` | server/internal/assignment/service.go:432-537 | for an edited rule the reach agrees always, and the matches exactly when the stored rule compiled or no transaction it would decide is matched by a rule below it |
| `AssignmentService.Service.ApplyToExisting` | server/internal/assignment/service.go:539-629 | each transaction becomes what `RuleEffects.AppliedFieldByField` says of it; how many were touched; which tags the wallet gains |
| `RuleEffects.AppliedFieldByField` | server/internal/assignment/service.go:566-611 | with the first usable rule that matches, in scope: payee, category, mode and info are each the rule's if it sets one and the row had none or filling is not limited to empty fields, else what they were; the rule's tags are there beside the old ones |
| `RuleEffects.OthersStay` | server/internal/assignment/service.go:566-576 | a row no rule takes, or out of scope, stays as it is and gets no tag |
| `RuleEffects.TouchedWhenSet` | server/internal/assignment/service.go:577-621 | a row counts as changed exactly when a field is set or a tag is missing, and these tags are added |
| `AssignmentService.ApplyRule` | server/internal/assignment/service.go:577-621 | the fields filled one by one, then the tags that are missing |
| `AssignmentService.NothingIsOverwritten` | server/internal/assignment/service.go:577-621 | filling only what is empty replaces no field and takes no tag away |
| `AssignmentService.FillingComesToRest` | server/internal/assignment/service.go:539-629 | after four calls and one for each distinct rule tag a further call changes nothing, although filled fields may let other rules match |
| `AssignmentService.Unruled` | server/internal/assignment/unruled.go:22-51 | one tally, under its name, for each payee with unsplit transactions since the day that no rule decides: how many, how many without a category, how many on each category; their totals add up to those transactions |
| `RuleEffects.TalliedNumbers` | server/internal/assignment/unruled.go:22-51 | a tally's numbers are the payee's unsplit rows since the day that no rule takes: all, without a category, on each category |
| `AssignmentService.TalliesAreTheUndecided` | server/internal/assignment/unruled.go:22-51 | the tallies count each undecided transaction once and no other |
| `PayeeCleanup.ComputeCommonText` | server/internal/ai/payees.go:236-263 | two swapped rows find the same run as the whole table |
| `PayeeCleanup.CommonTextIsLongest` | server/internal/ai/payees.go:236-263 | the run stands in both names up to case, and no shared run is longer |
| `PayeeCleanup.RuleTextOfMany` | server/internal/ai/payees.go:204-222 | a proposed text stands in at least two names, and no pair's trimmed common text that is long enough stands in more |
| `PayeeCleanup.RuleTextOfOne` | server/internal/ai/payees.go:193-203 | of one name, its leading words up to the first with a digit or a star, trimmed, if long enough; no such character is in it |
| `PayeeCleanup.RuleText` | server/internal/ai/payees.go:187-222 | long enough or empty; for several names the shared text no pair betters, for one its leading words |
| `PayeeCleanup.ProposedCoversMost` | server/internal/ai/payees.go:204-222 | if any two names' common text, trimmed, has four characters there is a rule text, and none such stands in more of the names |
| `PayeeCleanup.TrimmedIsTheMiddle` | server/internal/ai/payees.go:231-234 | trimming cuts all that is no letter or digit at both ends, and nothing else |
| `PayeeCleanup.WordsAroundSpace` | server/internal/ai/payees.go:193-200 | the words of a text are those on either side of any space in it |
| `PayeeCleanup.ProposedRuleMatches` | server/internal/assignment/engine.go:118-133 | the engine's case-insensitive "contains" rule made of the proposed text matches at least two of the names |
| `PayeeCleanup.Groups` | server/internal/ai/payees.go:69-95 | line by line over the replies, a group under the line's name with the payees it numbers that no line before it does, in its order; no group only where there is none, or a single one that has the name already |
| `PayeeCleanup.NumberedIsGrouped` | server/internal/ai/payees.go:84-93 | a payee that a line is the first to number is in that line's group, unless it is the only one and has the name already |
| `PayeeCleanup.GroupsAreApart` | server/internal/ai/payees.go:84-88 | no payee is in two groups or twice in one, whatever the model answered |
| `PayeeCleanup.Propose` | server/internal/ai/payees.go:107-138 | the payee outside the group that has the name already, the first one; the group's payees, those spelled like the name first and then by use; a rule text no pair betters |
| `PayeeCleanup.ProposePayeeCleanup` | server/internal/ai/payees.go:50-98 | one proposal for each group, and no other; those with more transactions first |
| `PayeeCleanup.PayeesInOrder` | server/internal/ai/payees.go:124-130 | a payee spelled like the name comes before one that is not, and among either the one with more transactions |
| `StableSort.Sort` | server/internal/ai/payees.go:97-97 | the same elements, none in front of one that stands before it |
| `NumberHiding.HideNumbers` | server/internal/ai/mail.go:52-72 | finding leftmost, longest digit runs one after the other gives the text hidden run by run |
| `NumberHiding.HiddenIsSafe` | server/internal/ai/mail.go:39-72 | any maximal run of digits, masks, spaces and dashes that leaves is, from its first digit or mask to its last digit, a date, or has fewer than eight digits, and fewer than four if masked |
| `NumberHiding.HidingIsIdempotent` | server/internal/ai/mail.go:52-72 | hiding twice hides no more |
| `NumberHiding.EverythingElseStays` | server/internal/ai/mail.go:52-72 | the text is kept pieces and blanked runs in order; the output is the same kept pieces with the marker for each blanked run |
| `NumberHiding.OnlyLongNumbersAreBlanked` | server/internal/ai/mail.go:54-71 | every blanked run is no date and has eight digits, or four beside a mask |
| `NumberHiding.RunHiddenInPlace` | server/internal/ai/mail.go:52-72 | any maximal run is cut at its ends, and its middle, if it is a long number and no date, gives way to the marker; else the run stays; what is around it is hidden on its own |
| `NumberHiding.DateStays` | server/internal/ai/mail.go:55-57 | a date on its own stands unchanged in what leaves |
| `Money.FormatMinor` | web/src/money.ts:32-50 | printing by dividing gives sign, grouped whole part, padded decimals and symbol in their places |
| `MoneyTexts.PrintedPieces` | web/src/money.ts:20-50 | minus, leading symbol, whole units in threes from the right, mark and every decimal, space and trailing symbol, in that order; the digits are the amount's |
| `Money.Group` | web/src/money.ts:20-30 | threes from the right, joined by the mark |
| `MoneyRoundTrip.MinorToInput` | web/src/money.ts:89-97 | a minus if negative, the whole units without needless zeros, and exactly the currency's decimals behind its mark, together the amount; and it parses back to the amount unless the mark holds a minus |
| `MoneyRoundTrip.InputTextIsPrinted` | web/src/money.ts:89-97 | an amount has only one such text |
| `MoneyRoundTrip.InputReadsBack` | web/src/money.ts:89-181 | every amount's text parses back exactly when the mark does not begin with a minus and, with decimals, holds none; with the lenient parser exactly when, with decimals, the mark holds a point or comma and no minus |
| `Money.ParseMinor` | web/src/money.ts:104-134 | the digits before and after the first decimal mark, rounded to the minor unit, negative when a minus is anywhere or parentheses are around; nothing without digits |
| `MoneyTexts.ParsedAtTheMark` | web/src/money.ts:104-134 | the digits before the first mark are whole units, those behind it decimals, rounded to the nearest minor unit; negative with a minus or in parentheses; nothing else of the text counts |
| `Money.ParseAmountSmart` | web/src/money.ts:136-181 | the same of the digits before and after the last separator, a point or a comma |
| `MoneyTexts.SmartAtTheLast` | web/src/money.ts:136-181 | the same at the last point or comma |
| `MoneyTexts.SmartWithoutLast` | web/src/money.ts:136-181 | without one, or in a currency without decimals, all digits are whole units |
| `Money.KeptIsRounded` | web/src/money.ts:111-133 | cutting or padding the decimals and carrying is rounding the number read to the minor unit |
| `Money.RoundedIsNearest` | web/src/money.ts:111-133 | the rounded amount is within half a minor unit of what was read, a half going away from zero |
| `MoneyRoundTrip.ParseMinorUndoesFormatMinor` | web/src/money.ts:20-134 | parsing undoes printing for every amount exactly when no mark or symbol holds a minus and the decimal mark stands neither in the printed group mark nor in a leading symbol |
| `MoneyRoundTrip.ParseAmountSmartUndoesFormatMinor` | web/src/money.ts:20-181 | the lenient parser undoes printing for every amount exactly when there is no minus and, with decimals, the printed mark has a point or comma and a trailing symbol has none |
| `MoneyRoundTrip.DifferentMarksAreNotEnough` | web/src/money.ts:20-50 | a decimal mark and a group character that differ can still print as the same mark |
| `HomeBankAmount.FormatAmount` | server/internal/exporter/xhb.go:49-70 | padding a digit string gives the text that dividing by a power of ten gives, with a point |
| `HomeBankAmount.WrittenReadsBack` | server/internal/exporter/xhb.go:49-70 | both parsers read the written amount back |
| `LoginLimiter.RateLimiter.Allow` | server/internal/auth/ratelimit.go:35-49 | yes unless the key's window holds the maximum; an expired window is forgotten |
| `LoginLimiter.RateLimiter.Record` | server/internal/auth/ratelimit.go:51-64 | one more failure, in the running window or in a new one |
| `LoginLimiter.RateLimiter.GcLocked` | server/internal/auth/ratelimit.go:72-85 | at most once an interval, exactly the expired windows go |
| `LoginLimiter.GCAnswersTheSame` | server/internal/auth/ratelimit.go:38-85 | with garbage collection every sequence of calls is answered as without |
| `LoginLimiter.AnsweredExactly` | server/internal/auth/ratelimit.go:35-49 | after any run, no exactly when the key's last window still holds and has had the maximum of failures |
| `LoginLimiter.AtMostTwiceMinusOne` | server/internal/auth/ratelimit.go:38-85 | with at most k attempts of a key let in and not yet ended, no interval as long as the window holds more than 2 (max + k - 1) - 1 of its failures; for k = 1, twice the maximum less one |
| `LoginLimiter.BoundIsReached` | server/internal/auth/ratelimit.go:38-85 | and that many can happen, for every k |
| `DemoWindow.FilterInPlace` | server/internal/demo/service.go:428-442 | the recent times move to the front of the same array, in order |
| `DemoWindow.Window.Allow` | server/internal/demo/service.go:452-456 | whether the key has fewer recent times than the limit; only what is past is forgotten |
| `DemoWindow.Window.Record` | server/internal/demo/service.go:458-462 | the recent times and this one, without touching another key's array |
| `DemoWindow.Window.Prune` | server/internal/demo/service.go:444-450 | every key is filtered, and goes if nothing is left |
| `DemoStarts.AtMostTheLimit` | server/internal/demo/service.go:155-186 | with a positive limit no interval as long as the period holds more starts of one address than the limit |
| `DemoStarts.LetInExactly` | server/internal/demo/service.go:155-186 | after any run, a start is let in exactly when fewer than the limit were made in the period just past |
| `DemoStarts.PrunedExactly` | server/internal/demo/service.go:444-450 | a prune keeps exactly the addresses with a start in the period just past |
| `DemoStarts.ZeroIsNoLimit` | server/internal/demo/service.go:161-163 | without one every start is let in |
| `AiGateway.Gateway.Ask` | server/internal/ai/gateway.go:119-170 | refused when the month is full and not confirmed; otherwise the row is stamped, old rows purged, the row written and then the question sent, also when the provider fails; a count, purge or write that fails ends it there |
| `AiGateway.RefusedExactly` | server/internal/ai/gateway.go:128-135 | a call is refused exactly when it is not confirmed and the rows written in the month the clock is in number the limit or more |
| `AiGateway.MonthsBeforeRefuseNothing` | server/internal/ai/service.go:148-153 | what was sent in months before never refuses a call |
| `AiGateway.AskedOnce` | server/internal/ai/gateway.go:136-155 | a call let in leaves one more row, stamped and marked, and one more request; of the others only those of ninety days before stay in the log |
| `AiGateway.NeverMuchOverTheLimit` | server/internal/ai/gateway.go:124-170 | however calls interleave, with at most k between count and row, no month gets more than limit plus k less one unconfirmed sends, and each request has its row |
| `AiGateway.PurgeKeepsTheCount` | server/internal/ai/gateway.go:143-148 | the purge never lowers the current month's count |
| `AiGateway.PurgedExactly` | server/internal/ai/gateway.go:143-148 | the purge leaves exactly the rows of the ninety days before the stamp |
| `AiGateway.SentAreCounted` | server/internal/ai/service.go:148-153 | the month's unconfirmed sends are among those the limit is compared with |
| `BudgetPlan.Service.SetCategoryBudget` | server/internal/budget/service.go:157-200 | an unknown mode or foreign category is refused; otherwise the category's rows of the year are replaced by the input's amounts but zeros |
| `BudgetEffects.StoredUnderItsYear` | server/internal/budget/service.go:157-200 | an input is stored under its own year, a negative one under 0: on month 0 or month by month, but for zeros; no row of another category or year changes |
| `BudgetEffects.Refusals` | server/internal/budget/service.go:159-171 | refused for the mode first, then for a category that is not there or another wallet's; then nothing changes |
| `BudgetPlan.Service.List` | server/internal/budget/service.go:124-155 | one entry, in order, for each category with a row of the year, with its mode and amounts |
| `BudgetEffects.ListedFromRows` | server/internal/budget/service.go:124-155 | a listed category's mode and amounts are those of its rows of the year |
| `BudgetPlan.LastInputIsStored` | server/internal/budget/service.go:157-200 | after any run of calls the rows of a category and year are those of the last accepted input |
| `BudgetPlan.NeverBoth` | server/internal/budget/service.go:157-200 | no category has for one year both an amount for every month and one for a single month |
| `BudgetPlan.ListGivesBackTheLastInput` | server/internal/budget/service.go:124-200 | the list gives back the last accepted input but for amounts of zero |
| `BudgetPlan.BudgetForPeriodYear` | server/internal/budget/service.go:464-481 | the sum, over the months, of the most specific entry |
| `BudgetEffects.FallbackByCases` | server/internal/budget/service.go:464-481 | for a month the first there is of the month's entry, the year's, the month's of every year and the one of every year; else 0 |
| `BudgetPlan.CoveredCells` | server/internal/budget/service.go:483-502 | the months from the first to the last; none when they are the wrong way round |
| `BudgetEffects.CoveredMonths` | server/internal/budget/service.go:483-502 | a month is among them exactly when it is neither before the first nor after the last; each once, in order |
| `BudgetPlan.RangesAddUp` | server/internal/budget/service.go:464-502 | a budget over adjoining months adds up to the budget over all of them |
| `BudgetPlan.ApplyBudget` | server/internal/exporter/xhb.go:297-323 | b1 to b12 and the custom flag when a month has an amount of its own, otherwise b0; untouched without budgets |
| `BudgetPlan.FieldsGiveTheSameMonths` | server/internal/exporter/xhb.go:297-323 | the fields give the report's twelve amounts exactly when no month falls back on the amount for every month while another has its own |
| `BudgetPlan.SetRowsAreOneKind` | server/internal/budget/service.go:157-200 | which rows set by the service always meet |
| `BudgetReport.MakeReport` | server/internal/budget/service.go:202-294 | the rows are exactly the lines with a budget or something spent, each once, sorted, with what was spent, what is to come and whether the line is paid once a month; the totals are over the budgeted spending rows, whatever order the maps are walked in |
| `BudgetEffects.RowSumsUp` | server/internal/budget/service.go:220-276 | a budgeted line takes the converted rows of its category and of its subcategories that count and have no budget, another line its own; what is dated after today is to come |
| `BudgetEffects.RowsAreTheLines` | server/internal/budget/service.go:220-276 | which categories have a row; a subcategory without a budget has none when its parent has a budget |
| `BudgetEffects.TotalsOfSpending` | server/internal/budget/service.go:276-294 | the totals are over the spending rows that have a budget |
| `BudgetEffects.RowsInOrder` | server/internal/budget/service.go:512-526 | income before spending, then by name letter by letter |
| `BudgetEffects.PaidOnceAMonth` | server/internal/budget/service.go:296-336 | a row is marked exactly when its line has a payment in the three months before today's and no two in one of them |
| `BudgetReport.OncePerMonth` | server/internal/budget/service.go:296-336 | exactly the lines with a payment in the three months before and in no month two, whatever order the counts are walked in |
| `BudgetReport.LineIsItsOwnLine` | server/internal/budget/service.go:220-236 | the line of a line is itself |
| `BudgetReport.LinesAddUp` | server/internal/budget/service.go:238-294 | the lines' actuals add up to the converted amounts of all counted rows |
| `BudgetReport.ReportIsOne` | server/internal/budget/service.go:262-294 | any two reports of the same data have the same rows and totals |
| `BudgetReport.SortRows` | server/internal/budget/service.go:512-526 | in place, income first and then by name, the same rows |
| `EmptyLists.FillLists` | server/internal/httpapi/emptylists.go:43-164 | the result stands for the filled response, and true exactly when a nil list or map was at a walked position; what the input refers to is not written to; an unchanged result is the input itself, an unchanged part is shared, and only pointers, lists and maps on the way to something filled are new |
| `EmptyLists.CopyStands` | server/internal/httpapi/emptylists.go:14-17 | a value copied only along the paths that change, sharing the rest, stands for the filled response |
| `EmptyLists.FilledIsTheFilling` | server/internal/httpapi/emptylists.go:43-164 | the filled value is the only one that leaves no nil list or map at a walked position and equals the input everywhere else |
| `EmptyLists.NilAtSomePosition` | server/internal/httpapi/emptylists.go:43-164 | there is something to fill exactly when a nil list or map is at a position the walk comes to |
| `EmptyLists.FilledAtPosition` | server/internal/httpapi/emptylists.go:43-164 | position by position: an empty list or map for a nil one, all else as it was |
| `EmptyLists.FilledIfNil` | server/internal/httpapi/emptylists.go:19-28 | filling changes nothing exactly when there is nothing to fill |
| `EmptyLists.FillingTwice` | server/internal/httpapi/emptylists.go:43-164 | a second walk changes nothing |
| `BankSync.MaskFromDays` | server/internal/banksync/service.go:619-629 | the mask holds exactly the listed days in range; it is empty exactly when there are none |
| `BankSync.DaysFromMask` | server/internal/banksync/service.go:631-640 | exactly the mask's days, in order |
| `BankSync.Connection.SetSchedule` | server/internal/banksync/service.go:593-617 | the hour is cut to 0 to 23; no valid day means every day |
| `BankSync.Connection.SyncOnce` | server/internal/banksync/service.go:437-531 | fetches from 90 days back at first and from 3 days before the last stamp after; stamps only when an account was fetched and everything was imported and saved |
| `BankSync.SyncDue` | server/internal/banksync/service.go:661-699 | syncs exactly the connections that are due when it starts |
| `BankSync.DueMeans` | server/internal/banksync/service.go:642-659 | due when the day's weekday is chosen, its hour has come, and the anchor is from before that hour |
| `BankSync.WeekdaysGoOn` | server/internal/banksync/service.go:646-648 | 1 January 1970 was a Thursday, and each day has the weekday after the day before's |
| `BankSync.FetchedFrom` | server/internal/banksync/service.go:458-463 | ninety days back at first, later three days before the anchor |
| `BankSync.OneSyncPerSlot` | server/internal/banksync/service.go:642-699 | over any run, with manual syncs in between, no daily slot has a background sync after one that was saved; and no slot has two that fetched something exactly when none that fetched fails and is made again |
| `BankSync.TwiceIfMadeAgain` | server/internal/banksync/service.go:489-530 | two background syncs of a slot both fetch something exactly when the first was not saved, nor any other until the second |
| `BankSync.DueAgain` | server/internal/banksync/service.go:642-660 | after a look at which it was due, a connection is due at another look of that day exactly when no sync was saved in between |
| `BankSync.AFailedImportIsMadeAgain` | server/internal/banksync/service.go:489-498 | an import that fails leaves no stamp, so that five minutes later the same slot is fetched again |
| `BankSync.UnsavedStaysDue` | server/internal/banksync/service.go:642-660 | a background sync leaves the connection due for the rest of the day exactly when nothing was fetched or it was not saved |
| `BankSync.NoGapIfStampedInTime` | server/internal/banksync/service.go:437-531 | the windows of the saved runs leave no gap from 90 days before the first exactly when each but the last takes at most three days from fetch to stamp |
| `BankSync.AccountHasNoGap` | server/internal/banksync/service.go:437-531 | one account's windows leave no gap exactly when, from each run that imported it to the next, the anchor moves at most three days past the earlier one's fetch, failures of the account in between included |
| `BankSync.RanInTurn` | server/internal/banksync/service.go:661-699 | the syncs of any course of events come one after the other, as the two above ask |
| `ScheduleZones.SaveAndShow` | web/src/schedule.ts:14-37 | a choice saved as a mask and read back is what the two conversions give |
| `ScheduleZones.MomentsAreSent` | web/src/schedule.ts:14-37 | the schedule in UTC is at exactly the moments of the week chosen, moved by the offset and cut to the hour; the other way by the offset's opposite |
| `ScheduleZones.ComesBackInWholeHours` | web/src/schedule.ts:14-37 | a choice comes back the same, its days sorted, exactly when the offset is a whole number of hours |
| `ScheduleZones.OneHourEarlierOtherwise` | web/src/schedule.ts:14-37 | with any other offset every chosen moment of the week comes back exactly one hour earlier, over midnight and the week's end too |
| `ScheduleZones.NoDayComesBackAsEveryDay` | server/internal/banksync/service.go:603-606 | a choice of no day comes back as every day |
| `GoalPace.Pace` | server/internal/goal/pace.go:23-39 | nothing for a sum that is not positive; otherwise the multiple of the unit nearest to a third of the three months' sum, ties up |
| `GoalPace.ThreeMonthsBefore` | server/internal/goal/pace.go:25-33 | what counts is of one of the three months before today's |
| `GoalPace.NearestIsUnique` | server/internal/goal/pace.go:37-38 | there is only one such multiple |
| `GoalPace.ShareAndPace` | server/internal/goal/pace.go:41-53 | all that is left after the date, else the share of the months that remain |
| `GoalPace.ShareIsLeast` | server/internal/goal/pace.go:51-52 | the share is the least multiple of the unit that, paid in each remaining month, covers what is left |
| `GoalPace.ShareNeverRises` | server/internal/goal/pace.go:51-52 | paying the share never makes the next one larger |
| `GoalPace.SharesReachTheTarget` | server/internal/goal/pace.go:41-53 | paying the recomputed share every month reaches the target by its month |
| `DemoSeed.Seeder.Unique` | server/internal/demo/seed.go:577-594 | the first amount, going down by sevens, that has no look-alike; it ends |
| `DemoSeed.Seeder.Add` | server/internal/demo/seed.go:675-690 | one operation, up to today, its amount the first going down by sevens at which no operation of that amount on the account is within fourteen days; on the card it counts in its month |
| `DemoSeed.Seeder.Transfer` | server/internal/demo/seed.go:692-712 | two legs of opposite amounts under one key, the first amount going up by sevens at which neither has a look-alike; it ends |
| `DemoSeed.Seeder.Split` | server/internal/demo/seed.go:714-728 | one receipt whose two parts add up to its amount |
| `DemoSeed.EqualAmountsAreApart` | server/internal/demo/seed.go:571-601 | equal amounts on one account are at least fifteen days apart |
| `DemoSeed.SeededAddsUp` | server/internal/demo/seed.go:675-712 | all transfers come to zero, and what the card is said to have spent in a month is what its purchases come to |

## Left out

- WalletBackup.Store.Restore: what a row holds besides its references (amounts, texts, flags) is copied as one value, so that two such fields of one row are not told apart; child rows (rates, valuations, splits, tags, contributions) are kept as lists in their parent's row, without ids of their own.
- WalletRestore.RestoreGivesTheSameWallet: but for the rules, the order of ids is not part of it; the export lists an account's transactions latest first, so two of one day get their new ids the other way round.
- WalletBackup.Store.Export: attachments and the time of the export are left out; the account's default payment mode, a schedule's last posting, a transaction's origin and creator, the wallet's settings and the currencies' update times are not restored by the source either.
- Categories.Service.Delete: a target that is not there, given for a category without subcategories, is refused by the database only when a row would refer to it; budgets of a category that goes are dropped with it.
- AssignmentService.Service.List: a wallet's rules are kept in match order, so that positions and `Reorder` are not modelled.
- NumberHiding.HideNumbers: models the digit pass; the pass for IBANs, which runs before it, is left out.
- PayeeCleanup.Groups: the model's answer is a list of numbers and names; the prompt and the parsing of the answer are left out.
- AiGateway.Gateway.Ask: the settings that switch features off are one answer; the limit is fixed over a run, and times are whole milliseconds, as the log keeps them.
- BudgetReport.MakeReport: `History` is left out, dates are day numbers and months are numbered; the conversion to the base currency is any function of amount and currency.
- BudgetPlan.CoveredCells: takes dates that were parsed.
- BudgetPlan.FieldsGiveTheSameMonths: reads the written fields with the page's parser, taking an empty field for no budget; the importer package is not part of this model.
- EmptyLists.FillLists: a list is the whole of its array; types that encode themselves are marked as such; values that lead back to themselves, on which the walk would not end, are left out.
- BankSync.NoGapIfStampedInTime: syncs of one connection do not overlap; days are 24 hours, as in UTC.
- BankSync.SyncDue: the pause between connections, cancelling, the history of runs and the alerts are left out.
- ScheduleZones.SaveAndShow: the offset is a number of minutes, the same on both ways; days do not repeat.
- Money.FormatMinor: amounts beyond 2^53, where numbers in the page lose digits, and the printers for axes and plain numbers are left out; in HomeBankAmount, so is the range of int64.
- GoalPace.Pace: amounts stay within int64.
- DemoSeed.Seeder.Add: the calendar of the made-up year, its words, tags and fuel memos are left out; the month of a day is any function.
- HTTP handlers, pages, providers of bank data, rates and models, sign-in, push and mail: plumbing or network.
- importer, importio, transfer, schedule and report packages: their source is not part of this model.
