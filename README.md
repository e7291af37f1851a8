# dtbrowse core, modelled in Dafny

dtbrowse is a GTK browser for devicetree blobs (DTB). Its core logic lives in
`make_model` and `signal_filter_func` in `src/main.rs`:

- `make_model` clears a two-column `gtk::TreeStore`. It then reads structure
  items (`BeginNode`, `Property`, `EndNode`) from the `dtb` crate until the
  first error. It keeps a stack of open parents that starts with the
  top-level sentinel `None`. A `BeginNode` appends a named row under the top
  of the stack and pushes it. A `Property` appends a row with its name and a
  value text. An `EndNode` pops the stack.
- A property's value text comes from the first of three sources that
  succeeds: `value_str`, then the debug list of `value_u32_list`, then the
  debug list of the raw bytes.
- `signal_filter_func` decides whether one row passes the search filter. A
  row without a name is shown. A named row is shown when the query is empty
  or the name contains the query (case-sensitive).

The Dafny files:

- `options.dfy`: the `Option` type.
- `dtb.dfy`: the structure items, the result of one `next_item` call
  (`Ok(item)` or `Err`), the two classifiers as function parameters, and
  `Consumed`, the items the `while let` loop receives.
- `tree_store.dfy`: the tree store as a class over an arena of rows. Each row
  holds its parent's index and its two cells. The class has `Clear`,
  `Append` and `Set`.
- `value_text.dfy`: the three-way fallback for the value column, and
  Rust's `{:?}` rendering of an integer slice ("[1, 2, 3]").
- `make_model.dfy`: the loader. `Load` is the imperative loop with the
  parents stack. It is proved against `Expected`, a reference definition
  that uses no stack: `OpenRow(s, m)` scans the items backwards to find the
  m-th innermost node still open. The lemmas state the source's promises
  about `Expected`.
- `filter.dfy`: `signal_filter_func` and `str::contains`.

The source panics when `parents.last().unwrap()` finds an empty stack. The
model turns this into an outcome: `Load` returns `Panicked(at)` and stops.
`NoPanic` says exactly when that cannot happen. Popping an empty `Vec` is not
an error in Rust (`pop` returns `None`), and the model keeps that.

Three things the code does not do:

- It raises no error for an unmatched `EndNode` or for nodes left open. An
  extra `EndNode` pops silently, possibly popping the sentinel. Nodes still
  open when the items run out stay open.
- A `next_item` error discards nothing. The loop stops and the rows already
  appended stay in the store.
- Its filter does not look beyond one row. Showing the ancestors of matching
  rows, and hiding the children of hidden rows, is decided by
  `gtk::TreeModelFilter`, not by this code.

## Model

| member | source | states |
|---|---|---|
| Dtb.Consumed | src/main.rs:44 | the loop receives exactly the items before the first `Err` (or before the end of the stream): each comes from an `Ok` in order, and the next element, if there is one, is an `Err` |
| Dtb.ConsumedExtends | src/main.rs:44 | any run of `Ok` items at the start of the stream is a prefix of what the loop consumes |
| Dtb.ConsumedExactly | src/main.rs:44 | a run of `Ok` items followed by an `Err` or by the end of the stream is exactly what the loop consumes |
| Dtb.NothingAfterErr | src/main.rs:44 | whatever follows the first `Err`, the loop receives the same items, so nothing after it is ever loaded |
| ValueText.Decimal | src/main.rs:58-60 | Rust's decimal rendering of an unsigned integer: at least one digit, only digits, no leading zero |
| ValueText.DecimalRoundTrip | src/main.rs:58-60 | reading the decimal rendering back gives the number, so the rendering loses nothing |
| ValueText.DebugList | src/main.rs:58-60 | `{:?}` of an integer slice is bracketed, has no inner brackets, and is "[]" exactly for the empty slice |
| ValueText.PropertyText | src/main.rs:55-61 | the value text is the decoded string when `value_str` succeeds; otherwise the debug list of `value_u32_list`'s words when that succeeds; otherwise the debug list of the raw bytes; exactly one case applies |
| ValueText.LaterClassifiersIgnored | src/main.rs:55-61 | a later classifier matters only when the earlier ones fail: with `value_str` succeeding, the `value_u32_list` answer has no effect |
| ValueText.UnbracketedMeansString | src/main.rs:55-61 | a value text that does not start with '[' can only come from `value_str` |
| Store.ChildrenOf | src/main.rs:47-52 | the children of a parent are exactly the rows whose parent it is, listed in increasing row order |
| Store.AppendIsLastChild | src/main.rs:47-52 | `append` makes the new row the last child of its parent and leaves every other row's children unchanged |
| Store.TreeStore.constructor | src/main.rs:98 | a new store is empty |
| Store.TreeStore.Clear | src/main.rs:41 | `clear` empties the store |
| Store.TreeStore.Append | src/main.rs:47 | `append` adds one row with unset cells at the end, under the given parent, and returns its index |
| Store.TreeStore.Set | src/main.rs:63 | `set` writes one cell of one row and changes nothing else |
| MakeModel.OpenRow | src/main.rs:47-52 | the row a new row would be appended under (the top of the stack) is either the top level or an existing row |
| MakeModel.NewRows | src/main.rs:46-67 | a `BeginNode` or `Property` adds exactly one row, under the top of the stack and named after the item, with a value cell exactly for a property; an `EndNode` adds none |
| MakeModel.NoPanic | src/main.rs:47-52 | `parents.last().unwrap()` never panics iff every `BeginNode` and `Property` finds a non-empty stack |
| MakeModel.Expected | src/main.rs:41-69 | the loaded items create one row each for `BeginNode` and `Property` and none for `EndNode` |
| MakeModel.BeginNodeStep | src/main.rs:46-50 | a `BeginNode` appends one row with its name under the row on top of the stack; the stack grows by exactly one, with the new row on top |
| MakeModel.PropertyStep | src/main.rs:51-64 | a `Property` appends exactly one row under the row on top of the stack, labelled (name, value text); the stack is unchanged |
| MakeModel.EndNodeStep | src/main.rs:65-67 | an `EndNode` adds no row and pops the stack, which shrinks by exactly one; an empty stack stays empty |
| MakeModel.ExpectedPrefix | src/main.rs:44-69 | rows are never removed: loading a prefix of the items gives a prefix of the rows |
| MakeModel.NoPanicPrefix | src/main.rs:47-52 | an item stream that never panics has no prefix that panics |
| MakeModel.OpenRowIsNodeRow | src/main.rs:47-52 | every entry on the stack other than the sentinel is an existing node row (no value cell) earlier than any row still to come |
| MakeModel.ExpectedIsForest | src/main.rs:46-63 | every loaded row's parent comes before it and is a node row, and every loaded row has a name |
| MakeModel.RowOfItem | src/main.rs:44-64 | the row of the k-th item is row number Rows(s[..k]), with that item's parent, name and value text: rows follow the stream order |
| MakeModel.RowsInStreamOrder | src/main.rs:47-52 | of two row-creating items, the earlier one's row comes first, so each parent's children appear in stream order |
| MakeModel.FirstRowIsTopLevel | src/main.rs:43-47 | the first row loaded is a top-level row |
| MakeModel.FirstNodeIsTopLevel | src/main.rs:43-52 | the row of the first `BeginNode`, and of every `Property` before it, is a top-level row |
| MakeModel.NoNodeNoParent | src/main.rs:43-52 | while no `BeginNode` has been seen, every stack entry is the top level |
| MakeModel.SentinelAtBottom | src/main.rs:43-67 | while nothing has panicked, the bottom of the stack is the sentinel `None` and every entry above it is a real row |
| MakeModel.Stack | src/main.rs:43-67 | the parents stack after some items: its height is one plus the number of `BeginNode` items minus the number of `EndNode` items (never below zero), and each entry is an open node |
| MakeModel.BalancedLeavesSentinel | src/main.rs:43-67 | after balanced items the stack is back to the lone sentinel |
| MakeModel.ExampleTree | src/main.rs:41-69 | a root with one property and a `cpus` node holding `cpu@0` loads as four rows in document order, each under its node |
| MakeModel.ExampleStrayProperty | src/main.rs:47-66 | a property after the sentinel has been popped (one more `EndNode` than `BeginNode`s) makes `unwrap` panic |
| MakeModel.ExamplePropertyAfterRoot | src/main.rs:47-66 | a property right after the root node has been closed does not panic; it becomes a second top-level row |
| MakeModel.LoadItem | src/main.rs:45-68 | one pass of the loop body: it panics exactly when a `BeginNode` or `Property` meets an empty stack; otherwise the store and the stack advance as the reference definition says |
| MakeModel.Load | src/main.rs:41-69 | the store is cleared first; the load completes iff no consumed item meets an empty stack, and then the store holds exactly the expected rows; on a panic it names the item and the store holds the rows of the items before it |
| Filter.Contains | src/main.rs:145 | `contains` holds iff the query occurs in the name as a contiguous, case-sensitive run |
| Filter.SignalFilter | src/main.rs:142-149 | a row without a name is visible; with an empty query every row is visible; otherwise a named row is visible iff the query occurs in its name |
| Filter.EmptyQueryAlwaysContained | src/main.rs:145 | every name contains the empty query, so the `is_empty` test never changes the result |
| Filter.FilterSeesOnlyTheName | src/main.rs:142-149 | the filter depends only on the row's own name, not on its store, place or value |
| Filter.NarrowerQueryShowsLess | src/main.rs:145 | a row visible under a query stays visible under every substring of that query |
| Filter.FilterOnLoadedStore | src/main.rs:142-149 | every loaded row has a name, so a loaded row (node or property) is visible iff the query is empty or occurs in its name |

## Left out

- File I/O (`File::open`, `read_to_end`) and command-line parsing: plumbing. The model starts from the item stream.
- `dtb::Reader::read` and the `unwrap` on its result: the header parsing and its panic come before the store is cleared. The DTB decoder is the external `dtb` crate and is not part of this model.
- `value_str` and `value_u32_list`: their decoding rules belong to the `dtb` crate. They are parameters, so every answer they might give is covered.
- Next-item errors: the error value is never inspected, so `Err` carries no payload. The stream is a finite sequence, and its end stops the loop like an `Err`.
- The panic: in the program it unwinds and ends the application. The model returns `Panicked(at)` and leaves the rows appended so far in the store.
- GTK widgets, signal wiring, `TreeModelFilter` and `expand_all`: display toolkit, not logic. The hierarchical filtering decided by `TreeModelFilter` is not modelled; `SignalFilter` is the per-row predicate the code supplies.
- `TreeIter` values are modelled by row indices in an arena. GTK's other iterator rules are not modelled.
- Names are `&str` in the source and `string` here. UTF-8 validity and `format!("{}", name)` are identity here.
