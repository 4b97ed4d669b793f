# Personal finance visualizer: transaction store and monthly roll-up

This project models the two pieces of the finance tracker that hold logic:

- **The transaction store** (`db` in `finance-visualizer/src/lib/db.ts`), in
  `store.dfy`, module `Store`. The whole collection of transactions is one
  JSON document. `findTransactions`, `createTransaction` and
  `deleteTransaction` each read the whole document, change the collection in
  memory and write the whole collection back. The class
  `TransactionStore` has one field, `document`: what a read of the data file
  yields. That is either a stored array of records, or a failure (an
  unreadable file, or text that is not JSON). A record is a JSON object
  (`map<string, Json>`). The store does not check a record's shape, so the
  caller's fields are kept whatever they are.
  - `findTransactions` never fails. A failed read or parse gives an empty
    collection.
  - `createTransaction` builds `{_id: fresh, ...fields, createdAt,
    updatedAt}`. Later keys win, so a caller's `_id` replaces the generated
    one and the store's timestamps replace the caller's. It appends that
    record, writes the collection back and returns the record. Because the
    read swallows failures, creating over an unreadable or malformed file
    replaces the file with the new record alone.
  - `deleteTransaction` keeps exactly the records whose `_id` is not the
    given string (`!==`). It removes every duplicate and keeps the others in
    order. It answers `true` even when nothing matched. Deleting over an
    unreadable or malformed file, followed by a successful write, leaves an
    empty collection on disk.
  - Create and delete rethrow write errors unchanged.
- **The monthly roll-up** (`getMonthlyData` in
  `finance-visualizer/src/app/page.tsx`), in `monthly.dfy`, module
  `Monthly`. Transactions are grouped by a month-year label of their date,
  and the amounts are summed per label. One `{name, amount}` entry comes out
  per label, in the order the labels are first met. The method
  `MonthlyData` is the `reduce` loop. It fills a dictionary and the
  dictionary's insertion-ordered keys. Then it projects them to entries
  (`Project`). Its postcondition ties the result to the specification
  `Rollup`, and the lemmas prove the properties of `Rollup`.

Outside inputs are parameters:
- What a write does is the argument `write: WriteOutcome`: it either succeeds,
  or it fails with an error and leaves some document behind.
- The generated `_id` is a `freshId` argument. It is not assumed to be
  unique, because nothing in the code makes it so.
- The two timestamps are separate arguments, since the source calls
  `new Date()` twice.
- The month label is the argument `monthLabel: string -> string`, so every
  property holds for any labelling.

Amounts in the roll-up are exact integers, for instance cents.

Three facts about the code shape the model:
- Nothing in the code makes ids unique: a caller's `_id` overrides the
  generated one, and the generator is not checked against stored ids.
- `db` defines no update operation, although the PUT route calls
  `db.updateTransaction`.
- Chart entries are `{name, amount}`.

## Model

| member | source | states |
|---|---|---|
| `Store.TransactionStore.FindTransactions` | finance-visualizer/src/lib/db.ts:24-32 | returns the stored records when read and parse succeed, and the empty sequence (never an error) when either fails |
| `Store.NewRecord` | finance-visualizer/src/lib/db.ts:37-42 | the new record has the caller's fields plus `_id`, `createdAt`, `updatedAt`; `_id` is the caller's when present, else the generated one; `createdAt`/`updatedAt` are always the store's; every other field is the caller's value |
| `Store.NewRecordIdentity` | finance-visualizer/src/lib/db.ts:38-39 | the new record answers to an id exactly when the caller's `_id` is that string, or, without a caller `_id`, when it is the generated one |
| `Store.TransactionStore.CreateTransaction` | finance-visualizer/src/lib/db.ts:34-50 | on a successful write the collection becomes the old listing plus the new record at the end (prior records unchanged and in place) and exactly that record is returned; after a failed read and a successful write the file holds only the new record; a write error is returned unchanged, never swallowed |
| `Store.Without` | finance-visualizer/src/lib/db.ts:55 | the filter result is no longer than its input, and a record is in it iff it is in the input and its `_id` is not the deleted id |
| `Store.WithoutAppend` | finance-visualizer/src/lib/db.ts:55 | filtering distributes over concatenation, so surviving records keep their relative order |
| `Store.WithoutCount` | finance-visualizer/src/lib/db.ts:55 | every copy of a record with the id is removed, including duplicates, and every other record keeps its multiplicity |
| `Store.WithoutAbsent` | finance-visualizer/src/lib/db.ts:55-57 | deleting an id no record carries leaves the collection identical |
| `Store.WithoutIdempotent` | finance-visualizer/src/lib/db.ts:52-57 | deleting the same id twice is the same as deleting it once |
| `Store.DeleteUndoesCreate` | finance-visualizer/src/lib/db.ts:36-56 | deleting the id of a just-appended record gives the same collection as deleting it before the append |
| `Store.TransactionStore.DeleteTransaction` | finance-visualizer/src/lib/db.ts:52-62 | on a successful write the collection becomes the filtered old listing and the answer is `true` (also when nothing matched); after a failed read and a successful write the file holds an empty collection; a write error is returned unchanged |
| `Monthly.Months` | finance-visualizer/src/app/page.tsx:73-78 | the accumulated labels are pairwise distinct and no more numerous than the transactions |
| `Monthly.MonthsAreTheLabels` | finance-visualizer/src/app/page.tsx:74-76 | every transaction's label is accumulated, and every accumulated label is some transaction's label |
| `Monthly.FirstSeen` | finance-visualizer/src/app/page.tsx:73-76 | gives the index of the first transaction carrying a label: it carries the label and no earlier one does |
| `Monthly.Project` | finance-visualizer/src/app/page.tsx:80-83 | one entry per accumulated key, in key order, whose name is the key and whose amount is the key's value |
| `Monthly.MonthlyData` | finance-visualizer/src/app/page.tsx:72-84 | the reduce loop followed by the projection returns exactly the roll-up specified by `Rollup` |
| `Monthly.RollupNames` | finance-visualizer/src/app/page.tsx:73-83 | the entry names are pairwise distinct and are exactly the labels of the input transactions, in both directions; there are at most as many entries as transactions |
| `Monthly.RollupAmounts` | finance-visualizer/src/app/page.tsx:76-83 | each entry's amount is the sum of the amounts of exactly the input transactions carrying its name |
| `Monthly.TotalIsSumOfItsMonth` | finance-visualizer/src/app/page.tsx:76 | a label's accumulated total is the plain sum of the amounts of the transactions with that label |
| `Monthly.RollupInFirstSeenOrder` | finance-visualizer/src/app/page.tsx:76-80 | an earlier entry's label first occurs in the input before a later entry's label does |
| `Monthly.RollupConservesTotal` | finance-visualizer/src/app/page.tsx:73-83 | the entry amounts add up to the sum of all transaction amounts |
| `Monthly.TotalUnderPermutation` | finance-visualizer/src/app/page.tsx:74-76 | reordering the input transactions, including those sharing a label, leaves every label's total unchanged |
| `Monthly.TotalOfUnseen` | finance-visualizer/src/app/page.tsx:76-78 | a label no transaction carries has total zero |
| `Monthly.RollupOfNone` | finance-visualizer/src/app/page.tsx:73-80 | no transactions give no entries |
| `Monthly.RollupOfOne` | finance-visualizer/src/app/page.tsx:73-83 | a single transaction gives a single entry carrying its label and amount |
| `Monthly.RollupTwoMonths` | finance-visualizer/src/app/page.tsx:72-84 | two transactions of one month followed by one of another (Jan 5 +10, Jan 20 -3, Feb 1 +5) give the first month's entry first, carrying the net of its two amounts, then the second month's |

## Left out

- `db.connect` (finance-visualizer/src/lib/db.ts:20-22) always answers `true` and has no effect, so it is not modelled.
- Creating the data directory and the empty `transactions.json` when the module loads (finance-visualizer/src/lib/db.ts:9-16) is file-system work. The store starts from whatever document the constructor is given.
- `readFileSync`, `writeFileSync`, `JSON.parse` and `JSON.stringify` are not modelled. A read is the `document` field. A write is the `WriteOutcome` argument, and a successful write is read back as the same records. JSON key order inside a record is not kept, because a record is a map.
- A data file whose JSON is not an array is not modelled; there `push` (create) and `filter` (delete) throw.
- A stored record is a `Record = map<string, Json>`, which cannot represent an array element that is not an object. In the source such elements survive: create pushes after them and writes them back, and delete keeps numbers, strings, booleans and arrays (their `_id` is `undefined`, which is never `id`). Only a `null` element makes delete throw, when it reads `t._id`.
- A request body that is not a JSON object is not modelled. The source would spread it, for example a string into index-numbered keys.
- The `console.error` logging in the three catch blocks (finance-visualizer/src/lib/db.ts:29, 47, 59) is output only and is not modelled. The `db` methods are `async` and return Promises; the model runs each to completion and returns its value or error directly.
- `mongoose.Types.ObjectId` and `new Date().toISOString()` are foreign calls, so their results are arguments.
- What a failed write leaves on disk is up to the file system. The model takes that document as part of the argument.
- The lost-update race between concurrent read-modify-write cycles is concurrency, not sequential logic.
- The PUT route calls `db.updateTransaction`, which the store does not define. There is no update operation to model, and the HTTP routes (`finance-visualizer/src/app/api/transactions/route.ts`, `finance-visualizer/src/app/api/transactions/[id]/route.ts`) are not part of this model.
- The React page outside `getMonthlyData` is not part of this model: rendering, `fetch` calls, state, and `formatCurrency`/`formatDate`. Neither are the dialog and the form. The form's amount and description bounds are checked only in the browser.
- Date parsing, the local time zone and locale month names are hidden behind `monthLabel`. An "Invalid Date" label is just another label. So is the month shift a bare ISO date can take in time zones west of UTC.
- The roll-up relies on three facts of JavaScript objects that hold for `"Mon YYYY"` labels, because such labels contain a space:
  - `Object.entries` lists keys in insertion order, because the labels are never integer-like keys.
  - No label names an `Object.prototype` member.
  - `(acc[k] || 0)` equals the stored total, because with exact amounts a stored zero is replaced by the zero it already is.
- Monthly.MonthlyData: amounts are exact integers, so IEEE double rounding in the summation is not modelled.
