# Math Minion calculation engine — a Dafny model

Math Minion is a JavaScript calculator in which a model holds tools (expressions, matrices, data tables, graphs, equation solvers, ODE solvers, iterators, HTML pages, menus, buttons, reports) that compute values from formulas. A value is a matrix of numbers, strings, tools or JSON with the unit dimensions of its numbers. Everything is driven by text commands read by a command interpreter.

This project models, in Dafny, the sequential core of that engine:

- **Values.** The matrix values (number, string, tool, table and JSON values) with their row-major storage, 1-based `(row, column)` access, index selection, broadcasting, reshaping, quickselect median and unit-dimension bookkeeping. Element values are integers; unit dimensions are sequences of seven integer exponents.
- **Units.** The unit system: unit descriptions, the compound-unit grammar, the units container and the three dictionaries of a unit set.
- **Formulas.** The operator-precedence formula parser, working on a given token list.
- **Commands.** Both command interpreters: the worker's `MMCommandProcessor` and the earlier `mmcmd/CommandProcessor`. This covers term reading, script splitting, path resolution, the tree of named children and the verbs every object answers.
- **Tools.** The bookkeeping of the tools: matrix cell inputs, data-table columns and rows, graph axes, solver functions, recorded values of ODE solvers and iterators, `<mm>` tags and actions of HTML pages, text reports, and tool, model, menu, button and session state.

Pure code is modelled as functions and lemmas. Code that updates objects in place is modelled as classes whose methods are proved against specification functions; those functions carry the proved properties. Where a source line behaves differently from what its authors evidently intended, both behaviours are modelled and listed under Findings below. The rest of the model follows the corrected one.

## Model

| member | source | states |
|---|---|---|
| `Strs.Lower` | mmworker/mmunits/MMUnitSystem.js:480 | `toLowerCase` on the ASCII letters the dictionaries key on: same length, every upper-case letter lowered and every other character kept |
| `Strs.LowerIdempotent` | mmworker/mmunits/MMUnitSystem.js:480 | lower-casing a key that is already lower case changes nothing, so a stored key finds itself |
| `Strs.JoinSplit` | mmworker/mmunits/MMUnitSystem.js:230 | `split` and then `join` with the same separator gives the text back |
| `Strs.SplitJoin` | mmworker/mmunits/MMUnitSystem.js:186-188 | parts without the separator, joined and split again, come back as the same parts |
| `Strs.IntToStringRoundTrip` | mmworker/mmunits/MMUnitSystem.js:231 | `parseInt` reads the decimal rendering of any integer back as that integer |
| `Strs.NatToStringInjective` | mmworker/mmunits/MMUnitSystem.js:187 | different natural numbers render as different decimal text |
| `Matrices.OffsetFor` | mmworker/MMValue.js:33-35 | for 1-based row and column the offset is the row-major flat index (row−1)·columnCount + (column−1) |
| `Matrices.OffsetForLayout` | mmworker/MMValue.js:33-35 | the offsets of the cells of a rows × columns value lie in 0..valueCount−1, step by one along a row and continue from the end of one row to the start of the next |
| `Matrices.OffsetForInjective` | mmworker/MMValue.js:33-35 | two in-range cells with the same offset are the same cell |
| `Matrices.CheckBounds` | mmworker/MMValue.js:43-52 | refuses with `valueMatrixBoundsError` exactly when row or column is 0 or exceeds its count |
| `Matrices.CheckBoundsNonNegative` | mmworker/MMValue.js:43-52 | for non-negative indices the check accepts exactly the cells 1..rowCount × 1..columnCount |
| `Matrices.ValueAtRowColumn` | mmworker/MMNumberValue.js:183-186 | errs exactly when the bounds check errs; an in-range index reads the cell at that row and column; an offset outside the storage reads JavaScript's undefined |
| `Matrices.DyadicShape` | mmworker/MMValue.js:171-191 | the result shape is the larger row count and the larger column count of the two operands |
| `Matrices.Filled` | mmworker/MMStringValue.js:18-22 | a new value of the given shape has every cell set to the initial value |
| `Matrices.Build` | mmworker/MMValue.js:12-16 | a value built from a cell function has the requested shape, valueCount = rowCount × columnCount, and cell (i, j) equal to the function at (i, j) |
| `Matrices.Extensional` | mmworker/MMValue.js:12-16 | two values of the same shape and cells are equal |
| `Matrices.FlatDivMod` | mmworker/MMValue.js:33-35 | dividing a flat index by the column count recovers its row and column |
| `Matrices.DivInRange` | mmworker/MMValue.js:33-35 | every flat index below valueCount is the flat index of an in-range cell |
| `Matrices.SlotsDistinct` | mmworker/MMNumberValue.js:393-408 | writing slot (i, j) of a row-major result never overwrites another slot of the same shape |
| `Reshape.Transpose` | mmworker/MMNumberValue.js:695-707 | the result is columnCount × rowCount with cell (j, i) equal to cell (i, j) of the input, and equals the specification `Transposed` |
| `Reshape.TransposedAt` | mmworker/MMNumberValue.js:701-705 | cell (j, i) of the transpose is cell (i, j) of the value |
| `Reshape.TransposeTwice` | mmworker/MMNumberValue.js:695-707 | transposing twice restores shape and values |
| `Reshape.TransposeSlotsDistinct` | mmworker/MMNumberValue.js:701-705 | the transposed write positions `j*rowCount+i` are pairwise distinct |
| `Reshape.Concat` | mmworker/MMNumberValue.js:717-731 | one column of length a.valueCount + b.valueCount holding this value's cells and then the other's |
| `Reshape.Append` | mmworker/MMNumberValue.js:315-354 | the result keeps this value's row count, has the column counts added, and cell (i, j) comes from this value's columns first and then from the addition's, whose rows wrap modulo its row count |
| `Reshape.AppendSideBySide` | mmworker/MMStringValue.js:203-227 | with equal row counts append places the two values side by side without wrapping |
| `Reshape.Redimension` | mmworker/MMNumberValue.js:737-749 | refuses with `formulaRedimCountError` unless the column count divides valueCount; otherwise the shape is (valueCount / c) × c and the flat cells are unchanged |
| `Reshape.RedimensionRoundTrip` | mmworker/MMNumberValue.js:737-749 | redimensioning back to the original column count restores the value |
| `Reshape.ColumnNumber` | mmworker/MMNumberValue.js:296-308 | a one-column value is returned unchanged; otherwise a rowCount × 1 value whose row r is the flat cell r·columnCount + number − 1 |
| `Reshape.ColumnNumberInRange` | mmworker/MMStringValue.js:185-196 | for a column number inside the value, `columnNumber` copies exactly that column |
| `Broadcast.DyadicOf` | mmworker/MMNumberValue.js:363-408 | the elementwise result has the larger shape of the two operands, and cell (i, j) combines cell (i mod rows, j mod columns) of each operand |
| `Broadcast.Dyadic` | mmworker/MMNumberValue.js:393-408 | the nested fill loop produces exactly `DyadicOf`: (max rows × max columns), each cell combining the wrapped operand cells |
| `Broadcast.SameShapeIsCellwise` | mmworker/MMNumberValue.js:393-408 | operands of equal shape combine cell by cell |
| `Broadcast.ScalarIsRepeated` | mmworker/MMNumberValue.js:393-408 | a scalar operand is combined with every cell of the other, whose shape the result keeps |
| `Broadcast.ColumnIsRepeated` | mmworker/MMNumberValue.js:393-408 | a single-column operand with the same row count is repeated across every column |
| `IndexSelect.Mapped` | mmworker/MMValue.js:97-102 | a non-negative index is kept; a negative index k becomes count + k + 1 |
| `IndexSelect.MappedFromEnd` | mmworker/MMValue.js:97-102 | −1 maps to the last row or column and −count to the first |
| `IndexSelect.SelectedRowCount` | mmworker/MMValue.js:77-78 | a scalar 0 row index selects rowCount rows; otherwise one row per index |
| `IndexSelect.SelectGrid` | mmworker/MMValue.js:73-107 | succeeds exactly when every selected cell passes the bounds check (else `valueMatrixBoundsError`); the result is (selected rows) × (column indices) and each cell is the read at the mapped row and column |
| `IndexSelect.FillGridRow` | mmworker/MMValue.js:94-104 | the inner loop for result row i: true exactly when every cell of that row passes the bounds check, and then the result so far equals the specified selection up to the end of row i |
| `IndexSelect.SelectRows` | mmworker/MMValue.js:108-123 | the intended behaviour (see Findings, MMValue.js:117): with no column index, fails with `valueRowBoundError` exactly when some mapped row is outside 1..rowCount; otherwise one row per index with every column copied |
| `IndexSelect.CopyRow` | mmworker/MMValue.js:119-121 | copies every column of the (valid) source row into result row i and leaves the rows before it as they were |
| `IndexSelect.SelectRowsAsWritten` | mmworker/MMValue.js:108-123 | as written: the same rows are accepted and copied, but a row out of bounds throws a `ReferenceError`, since the message arguments read the undeclared `nCols` |
| `IndexSelect.RowBoundCounterexample` | mmworker/MMValue.js:117 | selecting row 2 of a one-row value throws a `ReferenceError` as written, where `valueRowBoundError` was meant |
| `IndexSelect.ZeroRowSelectsColumn` | mmworker/MMValue.js:77-90 | a scalar 0 row index with column index [c] selects the whole column c |
| `UnitDims.AddUnitDimensions` | mmworker/MMNumberValue.js:114-118 | the dimension array becomes the elementwise sum with the added dimensions |
| `UnitDims.SubtractUnitDimensions` | mmworker/MMNumberValue.js:123-127 | the dimension array becomes the elementwise difference |
| `UnitDims.MultiplyUnitDimensions` | mmworker/MMNumberValue.js:132-136 | every exponent is multiplied by the factor |
| `UnitDims.DiffUndoesSum` | mmworker/MMNumberValue.js:114-127 | subtracting the dimensions just added restores the original |
| `UnitDims.SumCommutes` | mmworker/MMNumberValue.js:114-118 | adding dimensions is commutative |
| `UnitDims.DiffUnitlessIffEqual` | mmworker/MMNumberValue.js:141-158 | the difference of two dimension vectors has no units exactly when they are equal |
| `UnitDims.ScaleHasUnits` | mmworker/MMNumberValue.js:132-148 | scaled dimensions have units exactly when the factor is non-zero and the original had units |
| `UnitDims.ZeroIsUnitless` | mmworker/MMNumberValue.js:141-148 | the zero dimension vector has no units |
| `NumberValues.NewNumberValue` | mmworker/MMNumberValue.js:39-49 | a new number value has the requested shape, every cell 0, and the given dimensions or all-zero ones |
| `NumberValues.CheckUnitDimensionsAreEqualTo` | mmworker/MMNumberValue.js:153-158 | succeeds exactly when the two dimension vectors are equal, else `valueUnequalUnitDimensions` |
| `NumberValues.ProcessDyadic` | mmworker/MMNumberValue.js:362-408 | per unit action: `none` fails unless both operands are unitless, `equal` fails unless the dimensions match, `multiply` adds and `divide` subtracts the dimensions, `power` scales them by the exponent's first value; a successful result is the broadcast `DyadicOf` |
| `NumberValues.Add` | mmworker/MMNumberValue.js:418-420 | succeeds exactly when the dimensions are equal; the result keeps them, has the broadcast shape, and for equal shapes is the cellwise sum |
| `NumberValues.Multiply` | mmworker/MMNumberValue.js:438-441 | always succeeds with the dimensions added and the broadcast shape |
| `NumberValues.DivideBy` | mmworker/MMNumberValue.js:449-452 | always succeeds with the dimensions subtracted and the broadcast shape |
| `NumberValues.ProductQuotientDims` | mmworker/MMNumberValue.js:438-452 | dividing a product by the same operand restores the original dimensions |
| `NumberValues.Power` | mmworker/MMNumberValue.js:486-495 | fails with `valuePowerHasUnits` if the exponent has units, with `valuePowerOfArrayWithUnits` if the exponent has several values and the base has units, and otherwise scales the base dimensions by the exponent's first value |
| `NumberValues.Mod` | mmworker/MMNumberValue.js:460-469 | the remainder of ⌊\|a\|⌋ by ⌊\|b\|⌋ for every broadcast cell, with the dimensions subtracted |
| `NumberValues.ModOrMissing` | mmworker/MMNumberValue.js:466 | for a non-zero divisor the remainder lies in 0..\|divisor\|−1 |
| `NumberValues.OlderModOf` | mmworker/MMValue.js:630-655 | the older `mod` computes each broadcast cell as the remainder of the floored absolute values |
| `NumberValues.OlderMod` | mmworker/MMValue.js:630-658 | returns null exactly when some divisor cell is zero; otherwise the remainders, with the dimensions subtracted |
| `NumberValues.OlderModIsRemainder` | mmworker/MMValue.js:644-651 | with no zero divisor every cell of the older `mod` lies in 0..\|divisor\|−1 |
| `NumberValues.Transpose` | mmworker/MMNumberValue.js:695-707 | the transpose of the cells, dimensions kept |
| `NumberValues.Concat` | mmworker/MMNumberValue.js:717-731 | a non-number argument gives undefined; otherwise fails unless the dimensions are equal, and gives one column of this value's cells followed by the other's |
| `NumberValues.Append` | mmworker/MMNumberValue.js:315-354 | no addition returns the value itself; otherwise fails unless the dimensions are equal, and gives the side-by-side `AppendedAt` cells with the column counts added |
| `NumberValues.Redimension` | mmworker/MMNumberValue.js:737-749 | undefined without a column count; fails unless the count divides valueCount; otherwise the same flat cells in the requested number of columns |
| `NumberValues.ColumnNumber` | mmworker/MMNumberValue.js:296-308 | a one-column value is returned unchanged; otherwise a rowCount × 1 copy of the requested column, dimensions kept |
| `NumberValues.MatrixMultiply` | mmworker/MMNumberValue.js:801-826 | fails with `matrixMultiplyeColsNeRows` unless columns match rows; otherwise a rows × columns value of row-by-column dot products, dimensions added |
| `NumberValues.ProductRow` | mmworker/MMNumberValue.js:815-821 | fills result row i with the row-by-column dot products and leaves the rows before it as they were |
| `NumberValues.Dot` | mmworker/MMNumberValue.js:816-819 | the inner sum is the dot product of row i of the first matrix with column j of the second |
| `NumberValues.DotWithIdentity` | mmworker/MMNumberValue.js:815-820 | multiplying by an identity matrix gives back the cell of the left operand |
| `NumberValues.MedianOfAll` | mmworker/MMNumberValue.js:1590-1596 | an empty value has no median; otherwise a scalar, dimensions kept, holding the element at index ⌊(n−1)/2⌋ of any sorted permutation of the cells |
| `QuickSelect.Select` | mmworker/MMNumberValue.js:1527-1582 | the array is permuted, an empty array gives nothing, and otherwise the returned value sits at index ⌊(n−1)/2⌋ with nothing larger before it and nothing smaller after it |
| `QuickSelect.SelectedIsSortedElement` | mmworker/MMNumberValue.js:1527-1582 | a selected element equals the element at the same index of the sorted permutation |
| `QuickSelect.Swap` | mmworker/MMNumberValue.js:1531-1535 | exchanges two cells, leaves the others alone, and keeps the multiset of cells |
| `QuickSelect.MedianOfThree` | mmworker/MMNumberValue.js:1549-1553 | after the three conditional swaps a[low+1] ≤ a[low] ≤ a[high], cells permuted |
| `QuickSelect.OrderThree` | mmworker/MMNumberValue.js:1550-1552 | orders the middle, low and high cells so that middle ≤ low ≤ high |
| `QuickSelect.OrderTwo` | mmworker/MMNumberValue.js:1542-1547 | a two-element active range is put in order, which places the median |
| `QuickSelect.Partition` | mmworker/MMNumberValue.js:1555-1572 | nibbling from both ends and swapping the pivot back partitions the active range around it, cells permuted |
| `QuickSelect.Nibble` | mmworker/MMNumberValue.js:1561-1569 | one pass of the inner loop advances both scans and either crosses, leaving the range partitioned, or swaps a stuck pair |
| `QuickSelect.ScanUp` | mmworker/MMNumberValue.js:1562 | `do ll++ while (a[low] > a[ll])` stops at the first cell not below the pivot |
| `QuickSelect.ScanDown` | mmworker/MMNumberValue.js:1563 | `do hh-- while (a[hh] > a[low])` stops at the first cell not above the pivot |
| `QuickSelect.PivotSwapPartitions` | mmworker/MMNumberValue.js:1572 | swapping the pivot into position hh partitions the range |
| `QuickSelect.Narrow` | mmworker/MMNumberValue.js:1575-1580 | re-setting low and high around the median keeps the median inside the active range or already placed |
| `QuickSelect.Round` | mmworker/MMNumberValue.js:1549-1580 | one round keeps the loop state, permutes the cells and strictly shrinks the active range |
| `QuickSelect.FencedSelects` | mmworker/MMNumberValue.js:1538-1540 | a one-element active range holds the selected element |
| `QuickSelect.TwoSelects` | mmworker/MMNumberValue.js:1542-1547 | an ordered two-element active range holds the selected element |
| `QuickSelect.CountPermutation` | mmworker/MMNumberValue.js:1527-1582 | counts of cells below a value are the same for permutations |
| `StringValues.StringValue.constructor` | mmworker/MMStringValue.js:18-22 | a new string value has the requested shape and every cell `''` |
| `StringValues.StringValue.StringArrayValue` | mmworker/MMStringValue.js:53-57 | an n × 1 value holding the strings in order |
| `StringValues.StringValue.SetAllValuesTo` | mmworker/MMStringValue.js:78-80 | every cell holds the given string |
| `StringValues.StringValue.SetValue` | mmworker/MMStringValue.js:88-91 | fails with `valueMatrixBoundsError` exactly when the bounds check fails, leaving the cells alone; otherwise only the cell at `offsetFor(row, column)` changes |
| `StringValues.StringValue.SetValueAtCount` | mmworker/MMStringValue.js:98-100 | stores the value, or `''` for a missing one, at an index inside the storage and changes nothing else |
| `StringValues.StringValue.ValueAtCount` | mmworker/MMStringValue.js:107-109 | returns the cell for an index inside the storage and `''` for count ≥ valueCount |
| `StringValues.StringWithUnitCases` | mmworker/MMStringValue.js:140-151 | `stringWithUnit` is `'---'` when empty, the single value when there is one, and otherwise starts with the first value and ends with `]` |
| `StringValues.StringValue.ColumnNumber` | mmworker/MMStringValue.js:185-196 | a one-column value is returned itself; otherwise a rowCount × 1 copy read through `valueAtRowColumn`, which fails for column 0 or past the end when there is a row |
| `StringValues.StringValue.Append` | mmworker/MMStringValue.js:203-227 | null unless the addition is a string value with the same row count; otherwise this value's columns followed by the addition's |
| `StringValues.StringValue.Transpose` | mmworker/MMStringValue.js:232-244 | counts swapped and cell (j, i) of the result is cell (i, j) |
| `StringValues.StringValue.Add` | mmworker/MMStringValue.js:257-276 | elementwise string concatenation on the (max rows × max columns) broadcast shape with modulo wrap |
| `StringValues.StringValue.Concat` | mmworker/MMStringValue.js:304-318 | one column holding this value's strings and then the other's; nothing for a non-string argument |
| `StringValues.StringValue.NumberValueAsWritten` | mmworker/MMStringValue.js:283-296 | the number value returned as written has the right shape but every cell 0, and each of the string value's own cells is overwritten by its parsed number, or 0 |
| `StringValues.StringValue.NumberValue` | mmworker/MMStringValue.js:283-296 | each cell is the parsed number of the corresponding string, or 0 when it does not parse |
| `StringValues.NumberValueCounterexample` | mmworker/MMStringValue.js:283-296 | for the single string `"5"` the corrected conversion gives 5 while the as-written one gives 0 |
| `ToolValues.ToolValue.ToolArrayValue` | mmworker/MMToolValue.js:46-51 | an n × 1 value holding the tools in order |
| `ToolValues.ToolValue.constructor` | mmworker/MMToolValue.js:37-41 | a new tool value has the requested shape and every cell empty |
| `ToolValues.ToolValue.SetValueAtCount` | mmworker/MMToolValue.js:139-141 | stores the tool at an index inside the storage and changes nothing else |
| `ToolValues.ToolValue.ValueAtCount` | mmworker/MMToolValue.js:147-149 | returns the cell for an index inside the storage and `''` (an empty cell) past the end |
| `ToolValues.ToolValue.StringWithUnit` | mmworker/MMToolValue.js:157-165 | `'---'` unless there is exactly one cell; for one cell holding a tool, that tool's name; for one empty cell, reading the name throws (nothing) |
| `ToolValues.ToolValue.Concat` | mmworker/MMToolValue.js:206-220 | with another tool value, a column of length a + b holding both cell lists in order |
| `ToolValues.ToolValue.Append` | mmworker/MMToolValue.js:227-251 | null unless the argument is a tool value with equal row count; otherwise the columns side by side, column count summed |
| `ToolValues.ToolValue.Redimension` | mmworker/MMToolValue.js:257-269 | undefined without a count; fails with `formulaRedimCountError` unless the count divides valueCount; otherwise the same cells in valueCount / c rows |
| `ToolValues.ToolValue.Transpose` | mmworker/MMToolValue.js:274-286 | counts swapped and cell (j, i) of the result is cell (i, j) |
| `ToolValues.ConcatDescribed` | mmworker/MMToolValue.js:316-318 | concatenating two described values of one kind keeps the kind; number values fail unless their dimensions are equal and otherwise join their cells |
| `ToolValues.ValueDescribedBy` | mmworker/MMToolValue.js:293-331 | no tools gives null, one tool gives its own answer, several tools give null unless the first answers with a number, string or tool value, and otherwise the answers of the same kind are gathered in order |
| `ToolValues.NoneStaysNone` | mmworker/MMToolValue.js:307-313 | once the gathering has returned null (or failed) the later tools change nothing |
| `ToolValues.GatheredNumbers` | mmworker/MMToolValue.js:316-326 | when every tool answers with a number value of the first one's dimensions the result is one column of all their cells in order |
| `TableValues.InsertedRows` | mmworker/MMTableValue.js:240-289 | the inserted row sits at rowNumber, earlier rows are unchanged and later rows shift down by one |
| `TableValues.RemovedRows` | mmworker/MMTableValue.js:464-491 | removing row r keeps the rows before it and shifts the later rows up by one |
| `TableValues.RemoveUndoesInsert` | mmworker/MMTableValue.js:224-289 | removing the row just inserted restores the column |
| `TableValues.InsertUndoesRemove` | mmworker/MMTableValue.js:464-491 | re-inserting a removed row at its place restores the column |
| `TableValues.InsertRow` | mmworker/MMTableValue.js:276-287 | the two copy loops plus the store of the inserted cell give exactly `Inserted` |
| `TableValues.RemoveRow` | mmworker/MMTableValue.js:479-488 | the two copy loops give exactly `Removed` |
| `TableValues.Picked` | mmworker/MMTableValue.js:103-133 | one cell per row number, each cell the one that row number picks |
| `TableValues.PickedCellCases` | mmworker/MMTableValue.js:107-116 | a row inside the column picks that row, a negative number counts back from the end, and row 0 or a row past the end keeps the default cell |
| `TableValues.PickingEveryRow` | mmworker/MMTableValue.js:103-133 | picking the row numbers 1..n gives the column back |
| `TableValues.PickRows` | mmworker/MMTableValue.js:107-116 | the copy loop computes exactly `Picked` |
| `TableValues.PickedValue` | mmworker/MMTableValue.js:101-133 | a scalar 0 reuses the whole column; otherwise one cell per row number, of the column's kind and dimensions |
| `TableValues.Kept` | mmworker/MMTableValue.js:497-517 | one cell per listed 0-based position, taken from that position when it lies inside the column |
| `TableValues.KeepRows` | mmworker/MMTableValue.js:511-514 | the copy loop computes exactly `Kept` |
| `TableValues.KeepingEveryRow` | mmworker/MMTableValue.js:497-517 | keeping the positions 0..n−1 gives the column back |
| `TableValues.Repeated` | mmworker/MMTableValue.js:296-316 | n cells where cell i is the source's cell i mod (its row count) |
| `TableValues.RepeatedIsPeriodic` | mmworker/MMTableValue.js:296-316 | the updated rows repeat with the source's row count as period |
| `TableValues.RepeatedOwnLength` | mmworker/MMTableValue.js:296-316 | updating n rows from an n-row source copies it |
| `TableValues.FirstColumn` | mmworker/MMTableValue.js:301-304 | the strings read from the source's first column, one per row |
| `TableValues.RepeatRows` | mmworker/MMTableValue.js:308-313 | the copy loop computes exactly `Repeated` |
| `TableValues.RemoveRowResult` | mmworker/MMTableValue.js:464-491 | removing a row from an existing column leaves a column |
| `TableValues.AddRowGrowsByOne` | mmworker/MMTableValue.js:224-289 | a successful `addRow` leaves n + 1 rows |
| `TableValues.AddRowKeepsUnits` | mmworker/MMTableValue.js:262-272 | on a non-empty numeric column `addRow` fails with `tableAddRowUnitMismatch` exactly when the inserted dimensions differ, and otherwise keeps the column's dimensions |
| `TableValues.RemoveUndoesAddRow` | mmworker/MMTableValue.js:224-289 | removing the row `addRow` placed (row 0 and rows past the end go to the end) restores the column; for a row before the start, removing it again restores a numeric column, while a string column refuses the removal with `valueMatrixBoundsError` |
| `TableValues.RemoveRowShrinksByOne` | mmworker/MMTableValue.js:464-491 | `removeRowNumber(r)` with r ≤ rowCount leaves rowCount − 1 rows of the same kind and dimensions |
| `TableValues.UpdateAllRowsCount` | mmworker/MMTableValue.js:296-316 | a number or string source gives n rows of its kind; any other source changes nothing |
| `TableValues.AddRowResult` | mmworker/MMTableValue.js:224-289 | `addRow` fails with `tableAddRowUnitMismatch` exactly when a non-empty number column is given a number of other dimensions; otherwise the column has one more row and holds strings exactly when a string is inserted |
| `TableValues.KeepResult` | mmworker/MMTableValue.js:497-517 | the corrected `keepRowNumbers`: a column without a value stays without one; otherwise the column keeps its kind and unit and has one row per kept position |
| `TableValues.KeepResultAsWritten` | mmworker/MMTableValue.js:497-517 | as written, a string column with rows to keep throws; every other column comes out as in the corrected `KeepResult` |
| `TableValues.KeepRowNumbersCounterexample` | mmworker/MMTableValue.js:500-506 | keeping position 0 of a string column fails as written (the row 0 passed to `setValue` is out of bounds) while the corrected version keeps the row |
| `TableValues.KeepResultEveryRow` | mmworker/MMTableValue.js:497-517 | the corrected `keepRowNumbers` with every position gives the column back |
| `TableValues.AddRowTo` | mmworker/MMTableValue.js:224-289 | the copy loops compute exactly the specification `AddRowResult`, including a row before the start, which passes the bounds check and leaves an empty first cell (`''` or the missing number) in front of the old rows, the inserted value going nowhere |
| `TableValues.RemoveRowFrom` | mmworker/MMTableValue.js:464-491 | the copy loops compute exactly `RemoveRowResult` |
| `TableValues.KeepRowsOf` | mmworker/MMTableValue.js:497-517 | the copy loop computes exactly the corrected `KeepResult` |
| `TableValues.UpdateRowsOf` | mmworker/MMTableValue.js:296-316 | the copy loop computes exactly `UpdateAllRowsResult` |
| `TableValues.PickRowsOf` | mmworker/MMTableValue.js:101-133 | the copy loop computes exactly `PickedValue` |
| `TableValues.TableValueColumn.constructor` | mmworker/MMTableValue.js:58-62 | a column made from a name and a value holds them |
| `TableValues.TableValueColumn.FromRowNumbers` | mmworker/MMTableValue.js:92-133 | a column built from row numbers keeps the name and display unit and holds `PickedValue` of the source column |
| `TableValues.TableValueColumn.RowCount` | mmworker/MMTableValue.js:162-164 | a column without a value has no rows |
| `TableValues.TableValueColumn.AddRow` | mmworker/MMTableValue.js:224-289 | on success the value becomes `AddRowResult`'s column; on failure the error is returned and nothing changes |
| `TableValues.TableValueColumn.RemoveRowNumber` | mmworker/MMTableValue.js:464-491 | the value becomes `RemoveRowResult`; the display unit is unchanged |
| `TableValues.TableValueColumn.KeepRowNumbersAsWritten` | mmworker/MMTableValue.js:497-517 | the value becomes the as-written `KeepResultAsWritten`, which fails on a string column |
| `TableValues.TableValueColumn.KeepRowNumbers` | mmworker/MMTableValue.js:497-517 | the value becomes the corrected `KeepResult` |
| `TableValues.TableValueColumn.UpdateAllRows` | mmworker/MMTableValue.js:296-316 | the value becomes `UpdateAllRowsResult` |
| `TableValues.NameDictionary` | mmworker/MMTableValue.js:559-565 | every column is filed under its lower-cased name and every entry is a column filed under its own lower-cased name |
| `TableValues.MakeNameDictionary` | mmworker/MMTableValue.js:559-565 | the loop over the columns builds exactly `NameDictionary` |
| `TableValues.ValuesOf` | mmworker/MMTableValue.js:713-714 | the values of the columns, in order |
| `TableValues.Numeric` | mmworker/MMTableValue.js:716-727 | only the numeric column values, in order |
| `TableValues.NumericPrefix` | mmworker/MMTableValue.js:716-727 | the numeric columns of a prefix are a prefix of the numeric columns |
| `TableValues.CheckNumericColumns` | mmworker/MMTableValue.js:711-729 | fails with `tableNumberValueUnits` exactly when two numeric columns differ in dimensions, and otherwise counts the numeric columns |
| `TableValues.FillNumericRows` | mmworker/MMTableValue.js:731-741 | fails with a bounds error exactly when a numeric column is shorter than rowCount; otherwise rowCount × (numeric columns) with the numeric columns side by side |
| `TableValues.NumberValueOf` | mmworker/MMTableValue.js:709-744 | no numeric column gives undefined, differing dimensions give `tableNumberValueUnits`, and otherwise one column per numeric column with string columns skipped |
| `TableValues.SelectFromColumn` | mmworker/MMTableValue.js:664-666 | a single selected column answers with its own selection of the row index at column 1 |
| `TableValues.SelectionOf` | mmworker/MMTableValue.js:664-672 | no columns select nothing, one column answers with its own selection, several give a new table built from the row numbers |
| `TableValues.TableValue.constructor` | mmworker/MMTableValue.js:557-596 | the table holds the columns, and rowCount is the first column's row count (0 without columns) |
| `TableValues.TableValue.WithRowNumbers` | mmworker/MMTableValue.js:567-582 | rowCount is the first column's row count for a leading 0 and the number of row numbers otherwise; each column is the source column's `PickedValue` |
| `TableValues.TableValue.ColumnNamed` | mmworker/MMTableValue.js:611-613 | finds a column exactly when some column's name matches case-insensitively, and that column is the one returned |
| `TableValues.TableValue.StringWithUnit` | mmworker/MMTableValue.js:700-702 | the text `Table [ rows, columns ]` |
| `TableValues.TableValue.ColumnsByNumber` | mmworker/MMTableValue.js:631-645 | succeeds exactly when every mapped column number lies in 1..columnCount, and picks those columns in order (negative numbers count from the end) |
| `TableValues.TableValue.ColumnsByName` | mmworker/MMTableValue.js:647-657 | succeeds exactly when every name finds a column case-insensitively, else `tableValueIndexError` |
| `TableValues.TableValue.SelectedColumns` | mmworker/MMTableValue.js:624-658 | no column index or a scalar 0 selects every column; a non-number, non-string index selects none |
| `TableValues.TableValue.SelectColumns` | mmworker/MMTableValue.js:624-658 | the loops compute exactly `SelectedColumns` |
| `TableValues.TableValue.ErrorPersists` | mmworker/MMTableValue.js:636-643 | an index error at one column number stops the selection with that error |
| `TableValues.TableValue.NameErrorPersists` | mmworker/MMTableValue.js:650-655 | an unknown name stops the selection with the error |
| `TableValues.TableValue.ValueForIndexRowColumn` | mmworker/MMTableValue.js:622-671 | no row index selects nothing; a column error is passed on; otherwise the selected columns are answered by `SelectionOf` |
| `TableValues.TableValue.NumberValue` | mmworker/MMTableValue.js:709-744 | `NumberValueOf` applied to the table's columns and rowCount |
| `Units.IntStrings` | mmworker/mmunits/MMUnitSystem.js:186-188 | each exponent becomes its decimal text, one per dimension |
| `Units.DimensionString` | mmworker/mmunits/MMUnitSystem.js:186-188 | the space-joined exponents are empty exactly for an empty vector |
| `Units.ParseIntStrings` | mmworker/mmunits/MMUnitSystem.js:244-247 | parsing the decimal texts of the exponents gives them back |
| `Units.DimensionStringRoundTrip` | mmworker/mmunits/MMUnitSystem.js:186-188 | splitting `stringFromDimensions` on single spaces and parsing gives the dimensions back |
| `Units.DimensionStringInjective` | mmworker/mmunits/MMUnitSystem.js:186-188 | two dimension vectors have the same string exactly when they are equal, so the string is a sound dictionary key |
| `Units.ExponentRoundTrip` | mmworker/mmunits/MMUnitSystem.js:83-85 | the exponent after `^` reads back any integer written in decimal |
| `Units.TokenPart` | mmworker/mmunits/MMUnitSystem.js:76-99 | a token that yields a part yields a COMPOUND or SCALE unit of the table |
| `Units.TokenResults` | mmworker/mmunits/MMUnitSystem.js:75-76 | one token result per `-`-separated token, in order |
| `Units.NameParts` | mmworker/mmunits/MMUnitSystem.js:70-102 | every part found names an accepted (COMPOUND or SCALE) unit |
| `Units.FindNamePartsInString` | mmworker/mmunits/MMUnitSystem.js:70-102 | the token loop computes exactly `NameParts`: parts in order, the first failing token deciding the error |
| `Units.CollectAccepted` | mmworker/mmunits/MMUnitSystem.js:87-93 | collecting token results that are all accepted gives accepted parts |
| `Units.CollectConcat` | mmworker/mmunits/MMUnitSystem.js:75-100 | collecting the results of two token lists is collecting each and joining them, the first error winning |
| `Units.CollectStep` | mmworker/mmunits/MMUnitSystem.js:76-99 | one loop step: an error stops the loop with that error, `1` adds nothing, and a unit adds its part |
| `Units.SingleTokenParts` | mmworker/mmunits/MMUnitSystem.js:75-76 | a term without `-` is one token |
| `Units.TokenExponentError` | mmworker/mmunits/MMUnitSystem.js:80-82 | a token with more than one `^` fails with `unitExponentError` |
| `Units.TokenDefaultExponent` | mmworker/mmunits/MMUnitSystem.js:77-91 | a token without `^` naming a COMPOUND or SCALE unit gives that unit with exponent 1 |
| `Units.TokenPower` | mmworker/mmunits/MMUnitSystem.js:83-91 | `name^e` gives the unit with exponent e |
| `Units.TokenOne` | mmworker/mmunits/MMUnitSystem.js:87-98 | a bare `1` (or `1^e`) that is no unit contributes no part |
| `Units.TokenRejectsOtherTypes` | mmworker/mmunits/MMUnitSystem.js:88-95 | a unit of another calculation type fails with `unitPartInvalid` |
| `Units.NamePartsProduct` | mmworker/mmunits/MMUnitSystem.js:75 | the parts of `a-b` are the parts of a followed by those of b |
| `Units.PartsDims` | mmworker/mmunits/MMUnitSystem.js:391-396 | the summed dimensions of the parts, each scaled by its exponent, form a dimension vector |
| `Units.AcceptedWellFormed` | mmworker/mmunits/MMUnitSystem.js:87-93 | accepted parts of a well-formed table have dimension vectors |
| `Units.DefinitionOf` | mmworker/mmunits/MMUnitSystem.js:352-409 | a parsed definition has a dimension vector, and the only errors are the slash error, an invalid (empty) definition and a zero exponent |
| `Units.DefinitionFromParts` | mmworker/mmunits/MMUnitSystem.js:379-408 | from numerator and denominator parts: a failed part list means unparsed, no parts at all is invalid, a zero exponent is an error, otherwise dimensions |
| `Units.AddScaledDims` | mmworker/mmunits/MMUnitSystem.js:394-396 | the dimensions accumulate ± the unit's dimensions times the exponent |
| `Units.AccumulateParts` | mmworker/mmunits/MMUnitSystem.js:387-407 | succeeds exactly when no part has exponent 0, and then adds (or subtracts) the parts' summed dimensions |
| `Units.ParseDefinition` | mmworker/mmunits/MMUnitSystem.js:352-409 | the imperative parse computes exactly `DefinitionOf` |
| `Units.DimensionsFromParts` | mmworker/mmunits/MMUnitSystem.js:383-408 | the two accumulation loops compute exactly `DefinitionFromParts` |
| `Units.SlashErrorIff` | mmworker/mmunits/MMUnitSystem.js:359-362 | a compound definition fails with `unitSlashError` exactly when it has more than one `/` |
| `Units.DefinitionOfNumerator` | mmworker/mmunits/MMUnitSystem.js:367-369 | without `/` the whole definition is the numerator and the denominator is empty |
| `Units.DefinitionOfQuotient` | mmworker/mmunits/MMUnitSystem.js:363-366 | with one `/` the parts before and after it are numerator and denominator |
| `Units.DefinitionOfPower` | mmworker/mmunits/MMUnitSystem.js:387-396 | `name^0` fails with `unitExponentZero`; `name^e` has the unit's dimensions times e |
| `Units.SinglePartDefinition` | mmworker/mmunits/MMUnitSystem.js:387-396 | a single part with exponent 0 is an error; otherwise the unit's dimensions scaled by the exponent |
| `Units.DefinitionReciprocal` | mmworker/mmunits/MMUnitSystem.js:352-409 | the dimensions of `b/a` are the negation of those of `a/b` |
| `Units.FromPartsSwap` | mmworker/mmunits/MMUnitSystem.js:387-407 | swapping numerator and denominator parts negates the dimensions |
| `Units.PartsDimsConcat` | mmworker/mmunits/MMUnitSystem.js:387-396 | the dimensions of joined part lists add |
| `Units.DefinitionProduct` | mmworker/mmunits/MMUnitSystem.js:352-409 | the dimensions of `a-b` are the sum of those of a and of b |
| `Units.ProductFromParts` | mmworker/mmunits/MMUnitSystem.js:387-396 | the dimensions of joined numerator part lists are the sums of each list's dimensions |
| `Units.ExponentFields` | mmworker/mmunits/MMUnitSystem.js:243-247 | one parsed exponent per dimension, taken from description fields 1..7 |
| `Units.CompoundUnit` | mmworker/mmunits/MMUnitSystem.js:333-341 | a compound unit is named by its own definition, needs an operator in its name (`noOpInCompoundUnit`), and fails with `unitParseError` when the parts do not parse |
| `Units.UnitFromDescription` | mmworker/mmunits/MMUnitSystem.js:225-270 | a unit built from a description keeps its name and master flag and has a dimension vector |
| `Units.BaseUnit` | mmworker/mmunits/MMUnitSystem.js:241-256 | a base unit reads its calculation type and seven exponents; anything unreadable is `badUnitDescription` |
| `Units.InitCompound` | mmworker/mmunits/MMUnitSystem.js:333-341 | computes exactly `CompoundUnit` |
| `Units.InitWithDescription` | mmworker/mmunits/MMUnitSystem.js:225-270 | computes exactly `UnitFromDescription` |
| `Units.InitBase` | mmworker/mmunits/MMUnitSystem.js:241-256 | the exponent loop computes exactly `BaseUnit` |
| `Units.BaseUnitOfFields` | mmworker/mmunits/MMUnitSystem.js:243-256 | fields 1..7 give the dimensions, and the optional fields 8 and 9 the scale and offset |
| `Units.DescriptionFields` | mmworker/mmunits/MMUnitSystem.js:229 | splitting `type dims…` on spaces gives the type text and the exponent texts |
| `Units.BaseFields` | mmworker/mmunits/MMUnitSystem.js:241-256 | a description that starts with the type and the exponents gives a base unit with those dimensions |
| `Units.BaseDescription` | mmworker/mmunits/MMUnitSystem.js:225-256 | a base description without scale and offset gives scale 1 and offset 0 |
| `Units.ScaledDescription` | mmworker/mmunits/MMUnitSystem.js:249-255 | a description with scale and offset fields keeps them |
| `Units.OperatorInBaseIff` | mmworker/mmunits/MMUnitSystem.js:236-238 | a non-compound unit fails with `operatorInBase` exactly when its name contains `/`, `-` or `^` |
| `Units.CompoundPowerUnit` | mmworker/mmunits/MMUnitSystem.js:225-235 | the compound unit `name^e` has the named unit's dimensions times e |
| `UnitRegistry.Register` | mmworker/mmunits/MMUnitSystem.js:705-713 | `registerDimensionsOfUnit` appends the unit to the list under its dimension string, creating the list when it is missing, and leaves every other list alone |
| `UnitRegistry.Lookup` | mmworker/mmunits/MMUnitSystem.js:725-726 | a unit is found exactly when its lower-cased name is a key, and then it is the unit filed there |
| `UnitRegistry.UnitsAfterAdd` | mmworker/mmunits/MMUnitSystem.js:722-732 | the unit table after a successful or refused `addUnit` is still well formed |
| `UnitRegistry.AddResult` | mmworker/mmunits/MMUnitSystem.js:722-732 | `addUnit` throws `duplicateUnit` exactly when the lower-cased name is taken; a new unit has the given name and flag and well-formed dimensions |
| `UnitRegistry.UnitsAfterAddAsWritten` | mmworker/mmunits/MMUnitSystem.js:195-198 | as the engine has it, the name is taken after `addUnit` even when initialisation throws, because the `MMUnit` constructor files the unit first |
| `UnitRegistry.Stub` | mmworker/mmunits/MMUnitSystem.js:195-198 | the half-built unit the constructor has filed keeps the requested name and flag and has no dimensions yet |
| `UnitRegistry.DuplicateIff` | mmworker/mmunits/MMUnitSystem.js:724-727 | `addUnit` throws `duplicateUnit` exactly when a unit of that name, in any case, exists |
| `UnitRegistry.AddThenLookup` | mmworker/mmunits/MMUnitSystem.js:722-732 | after a successful add the name finds the new unit, every other name finds what it found before, and a failed add changes nothing |
| `UnitRegistry.AddKeepsConsistent` | mmworker/mmunits/MMUnitSystem.js:722-732 | adding a unit keeps the name table and the dimension index describing the same units |
| `UnitRegistry.InsertKeepsConsistent` | mmworker/mmunits/MMUnitSystem.js:728-729 | filing a new unit by name and registering its dimensions keeps the two tables consistent |
| `UnitRegistry.UnknownFactorFails` | mmworker/mmunits/MMUnitSystem.js:352-409 | a compound name whose denominator is not a known unit cannot be defined and `addUnit` reports `unitParseError` |
| `UnitRegistry.FailedAddCounterexample` | mmworker/mmunits/MMUnitSystem.js:722-732 | with only `m` known, adding `m/xyz` fails; the corrected table is unchanged while the as-written one keeps an uninitialised `m/xyz` and is no longer well formed |
| `UnitRegistry.FailedAddLeavesStub` | mmworker/mmunits/MMUnitSystem.js:722-732 | for any new name whose description fails, `addUnit` as intended throws that error and leaves the table unchanged, while as written the stub is filed under the name and the table is no longer well formed (see Findings) |
| `UnitRegistry.UnitsContainer.constructor` | mmworker/mmunits/MMUnitSystem.js:664-668 | a new container has no units and an empty dimension index, which is consistent; the master units the engine loads here are not part of the model (see Left out) |
| `UnitRegistry.UnitsContainer.ChildNamed` | mmworker/mmunits/MMUnitSystem.js:725-726 | `childNamed` is the case-insensitive lookup of the unit table |
| `UnitRegistry.UnitsContainer.AddUnit` | mmworker/mmunits/MMUnitSystem.js:722-732 | returns the new unit or the error, files it under its lower-cased name, registers its dimensions, keeps the container consistent, and leaves everything unchanged on error |
| `UnitRegistry.UnitsContainer.AddUnitAsWritten` | mmworker/mmunits/MMUnitSystem.js:722-732 | the same call as the engine runs it: a failed initialisation leaves a stub unit filed under the name |
| `UnitRegistry.UnitsContainer.UnitNamed` | mmworker/mmunits/MMUnitSystem.js:108-129 | an empty name gives nothing and a known name gives its unit, both leaving the units and the dimension dictionary unchanged; an unknown name is added as a master unit with calc type 0, the units and dimension dictionary are those that add leaves (the unit registered on success, the dictionary kept on failure), and the result or error of that add is returned |
| `UnitSets.Present` | mmworker/mmunits/MMUnitSystem.js:566-567 | a dictionary entry counts as present exactly when the key exists with a non-empty value, as a JavaScript truthiness test has it |
| `UnitSets.UnitForDimensions` | mmworker/mmunits/MMUnitSystem.js:600-611 | a unit is returned only when the dimension string is a key of the units dictionary, and it is the unit filed there |
| `UnitSets.TypeNameForDimensions` | mmworker/mmunits/MMUnitSystem.js:612-626 | the result is either `Unknown type` or the type name filed under the dimension string |
| `UnitSets.DimensionStringForTypeName` | mmworker/mmunits/MMUnitSystem.js:627-634 | a dimension string is found exactly when the lower-cased type name is a key |
| `UnitSets.UnitNameForType` | mmworker/mmunits/MMUnitSystem.js:585-599 | an unknown type name throws `unitUnknownTypeName`; a name is returned only for a type whose dimensions have a unit |
| `UnitSets.UnitNameForKnownType` | mmworker/mmunits/MMUnitSystem.js:585-599 | on consistent tables `unitNameForType` fails exactly when the type is unknown |
| `UnitSets.AllTypeNames` | mmworker/mmunits/MMUnitSystem.js:635-641 | every listed type name resolves to a dimension string |
| `UnitSets.SetErrorIff` | mmworker/mmunits/MMUnitSystem.js:478-507 | `setUnitForTypeNamed` throws exactly when the unit's dimensions already belong to a differently named type |
| `UnitSets.SetThenLookup` | mmworker/mmunits/MMUnitSystem.js:478-507 | after a successful set, the type name gives the unit's dimension string, those dimensions give the unit and the type name, and nothing else is added |
| `UnitSets.SetKeepsValid` | mmworker/mmunits/MMUnitSystem.js:478-507 | setting a unit for a type keeps the three dictionaries indexing each other |
| `UnitSets.SetThenRemoveRestores` | mmworker/mmunits/MMUnitSystem.js:478-507 | adding a new type with fresh dimensions and then removing it, as the `addtype` undo does, restores the dictionaries and hands back the unit |
| `UnitSets.RenameErrors` | mmworker/mmunits/MMUnitSystem.js:529-556 | `renameType` throws `duplicateUnitTypeName` exactly when the new name is taken and differs, and `unitUnknownTypeName` exactly when the old name is missing |
| `UnitSets.RenameKeepsValid` | mmworker/mmunits/MMUnitSystem.js:529-556 | renaming keeps the dictionaries consistent and reports a change exactly when the names differ |
| `UnitSets.RenameUndo` | mmworker/mmunits/MMUnitSystem.js:529-556 | renaming a type and renaming it back, as the recorded undo does, restores the dictionaries |
| `UnitSets.RemoveKeepsValid` | mmworker/mmunits/MMUnitSystem.js:562-584 | `removeType` fails exactly for an unknown type name and otherwise keeps the dictionaries consistent |
| `UnitSets.RemoveThenUnknown` | mmworker/mmunits/MMUnitSystem.js:562-584 | after removing a type, its dimensions have neither a type name nor a unit |
| `UnitSets.UnitSet.constructor` | mmworker/mmunits/MMUnitSystem.js:428-436 | a new set has its name and flag and three empty dictionaries |
| `UnitSets.UnitSet.SetUnitForTypeNamed` | mmworker/mmunits/MMUnitSystem.js:478-507 | throws `unitSetDuplicateDimensions` without change exactly when the specification does, and otherwise leaves the dictionaries as the specification computes them |
| `UnitSets.UnitSet.RenameType` | mmworker/mmunits/MMUnitSystem.js:529-556 | the error, or the renamed dictionaries and whether anything changed, as the specification gives them |
| `UnitSets.UnitSet.RemoveType` | mmworker/mmunits/MMUnitSystem.js:562-584 | unknown names throw without change; otherwise the type's three entries are removed and the unit it had is returned for the undo |
| `UnitSets.CloneName` | mmworker/mmunits/MMUnitSystem.js:1041-1045 | a clone name is the original name followed by `_` and the counter, so it is longer than the original |
| `UnitSets.CloneNameInjective` | mmworker/mmunits/MMUnitSystem.js:1041-1045 | different counters give clone names that differ even ignoring case, so the naming loop always moves to a new name |
| `UnitSets.FirstFreeName` | mmworker/mmunits/MMUnitSystem.js:1040-1045 | the loop ends with the clone name of the least counter from 2 whose name is not taken |
| `UnitSets.SetsAfterRemove` | mmworker/mmunits/MMUnitSystem.js:1056-1070 | removing a set never adds a set |
| `UnitSets.RemoveKeepsDefault` | mmworker/mmunits/MMUnitSystem.js:1056-1070 | while the master `SI` set exists, the corrected removal leaves a default set that is still in the container |
| `UnitSets.DefaultAfterRemove` | mmworker/mmunits/MMUnitSystem.js:1064-1066 | the default set after a removal, as evidently intended (see Findings, mmworker/mmunits/MMUnitSystem.js:1064-1066): it changes only when the removed non-master set was the default, and then only to `si` when that set exists |
| `UnitSets.DefaultAfterRemoveAsWritten` | mmworker/mmunits/MMUnitSystem.js:1064-1066 | as written a removed default set leaves no default at all; any other removal keeps the default |
| `UnitSets.RemoveDefaultCounterexample` | mmworker/mmunits/MMUnitSystem.js:1064-1066 | removing a default set cloned from `SI` leaves no default as the engine has it, and `SI` as the default after correction |
| `UnitSets.UnitSetsContainer.constructor` | mmworker/mmunits/MMUnitSystem.js:961-965 | a new container has no sets and no default; the `PureSI`, `SI` and `US` sets the engine loads here are not part of the model (see Left out) |
| `UnitSets.UnitSetsContainer.AddSet` | mmworker/mmunits/MMUnitSystem.js:1020-1033 | a taken name, in any case, throws `duplicateUnitSet` without change; otherwise a fresh empty set is filed under the lower-cased name |
| `UnitSets.UnitSetsContainer.SetDefault` | mmworker/mmunits/MMUnitSystem.js:985-1000 | setting the default to a known set selects it; an unknown name throws `unitSetNotFound` and keeps the old default |
| `UnitSets.UnitSetsContainer.CloneSet` | mmworker/mmunits/MMUnitSystem.js:1034-1055 | an unknown set throws; otherwise a fresh non-master set under the first free clone name holds copies of the original's dictionaries and nothing else changes |
| `UnitSets.UnitSetsContainer.RemoveSetNamed` | mmworker/mmunits/MMUnitSystem.js:1056-1070 | only non-master sets are removed, a removed default falls back to `SI`, and with a master `SI` the default stays in the container |
| `UnitSets.UnitSetsContainer.RemoveSetNamedAsWritten` | mmworker/mmunits/MMUnitSystem.js:1056-1070 | the removal as the engine runs it: a removed default leaves no default at all |
| `Formulas.Precedence` | mmworker/MMFormula.js:505-507 | dyadic operators rank 20 to 50, functions 100 and unary minus 150, so unary minus binds tightest |
| `Formulas.Factory` | mmworker/MMFormula.js:32-175 | the factory gives a dyadic operator for each of `+ - * / % ^ :`, a fresh function with no arguments for a known function name, and nothing otherwise |
| `Formulas.Collected` | mmworker/MMFormula.js:1183-1190 | popping to the operand marker fails exactly when there is no marker; otherwise the stack is the rest, the marker and the arguments last-first, and no argument is a marker |
| `Formulas.Arguments` | mmworker/MMFormula.js:1173-1193 | a function that accepts its arguments always pops at least one entry off the operand stack |
| `Formulas.IndexArguments` | mmworker/MMFormula.js:702-721 | an accepted index has a row argument and pops at least one entry |
| `Formulas.AddParen` | mmworker/MMFormula.js:2888-2891 | `addParenOp` pushes a parenthesis marker and counts it |
| `Formulas.ProcessTopOperator` | mmworker/MMFormula.js:2897-2927 | fails with a syntax error exactly when the operator stack is empty or the top operator lacks operands; otherwise the top operator takes its one or two operands, in order, and becomes an operand |
| `Formulas.ClosedParenthesis` | mmworker/MMFormula.js:2932-2955 | reduces down to the topmost parenthesis marker and removes it, uncounting it; with no marker it fails with a mismatch or syntax error |
| `Formulas.ClosedFunction` | mmworker/MMFormula.js:2960-2988 | on success the topmost function has taken its arguments and is the top operand; failures are brace mismatch, argument count or syntax errors |
| `Formulas.ClosedIndex` | mmworker/MMFormula.js:2993-3023 | on success the topmost index operator has taken its arguments and is the top operand; failures are index mismatch, argument count or syntax errors |
| `Formulas.Reduced` | mmworker/MMFormula.js:3157-3169 | before an operator is pushed, every stacked operator of higher or equal precedence above the nearest parenthesis or function is reduced, and the one left on top stops the loop |
| `Formulas.ReducedAsWritten` | mmworker/MMFormula.js:3157-3169 | the loop as written reads past an empty operator stack and throws a type error there; otherwise it agrees with the corrected loop |
| `Formulas.EigenVectorArgumentsAsWritten` | mmworker/MMFormula.js:2095-2098 | `eigvect` discards its minimum through the comma operator and so always accepts, agreeing with the plain collection whenever a marker exists |
| `Formulas.NumberStep` | mmworker/MMFormula.js:3176-3226 | a numeric token either becomes an operand, consuming a following unit name and folding a preceding unary minus, or fails with an invalid number, bad unit or syntax error |
| `Formulas.Step` | mmworker/MMFormula.js:3068-3232 | each token moves forward, the comment token `'` stops the parse, and after `(`, `,`, `[` or `{` a minus is unary |
| `Formulas.OperandStep` | mmworker/MMFormula.js:3142-3232 | a reference, operator or number token always moves forward and never stops the parse |
| `Formulas.Finish` | mmworker/MMFormula.js:3237-3248 | the parse has a root exactly when closing the outer parenthesis leaves one operand and no open parenthesis, and otherwise reports errors |
| `Formulas.Run` | mmworker/MMFormula.js:3067-3248 | a parse of a token list has a root exactly when it reports no errors |
| `Formulas.ParsedTokens` | mmworker/MMFormula.js:3061-3248 | the same for a parse from the initial state |
| `Formulas.QuotedUnit` | mmworker/MMFormula.js:3049-3050 | a quoted unit token loses its two quote marks |
| `Formulas.QuotedUnitAsWritten` | mmworker/MMFormula.js:3049-3050 | as written the quick path drops the opening quote and the last two characters |
| `Formulas.QuickUnit` | mmworker/MMFormula.js:3041-3057 | text that is a number and a known unit becomes that number with that unit |
| `Formulas.QuickUnitAsWritten` | mmworker/MMFormula.js:3041-3057 | as written the quick path gives a number with some known unit |
| `Formulas.ParsedText` | mmworker/MMFormula.js:3027-3248 | empty text parses to nothing without error; otherwise there is a root exactly when there are no errors |
| `Formulas.TruncatedFormula` | mmworker/MMFormula.js:2802-2804 | the result is the formula's prefix of at most 249 characters, the whole formula when it is that short |
| `Formulas.CollectArguments` | mmworker/MMFormula.js:1173-1193 | the popping loop computes exactly the collected arguments and remaining stack |
| `Formulas.ProcessArguments` | mmworker/MMFormula.js:1173-1193 | the arguments each rule accepts, as the specification gives them |
| `Formulas.ProcessParenthesis` | mmworker/MMFormula.js:2932-2955 | the loop computes exactly `ClosedParenthesis` |
| `Formulas.ProcessFunction` | mmworker/MMFormula.js:2960-2988 | the loop computes exactly `ClosedFunction` |
| `Formulas.ProcessIndex` | mmworker/MMFormula.js:2993-3023 | the loop computes exactly `ClosedIndex` |
| `Formulas.ReduceBefore` | mmworker/MMFormula.js:3157-3169 | the loop computes exactly `Reduced` |
| `Formulas.ParseToken` | mmworker/MMFormula.js:3068-3232 | one pass of the token loop computes exactly `Step` |
| `Formulas.FinishParse` | mmworker/MMFormula.js:3237-3248 | the closing code computes exactly `Finish` |
| `Formulas.ParseTokens` | mmworker/MMFormula.js:3061-3248 | the token loop computes exactly `ParsedTokens` |
| `Formulas.Formula.constructor` | mmworker/MMFormula.js:2608-2614 | a new formula has empty text, no operator tree, no error and no messages |
| `Formulas.Formula.ParseFormula` | mmworker/MMFormula.js:2869-3252 | the intended behaviour (see Findings, mmworker/MMFormula.js:3049-3050): a formula already in error is not parsed again; otherwise the text's parse becomes the result operator, its errors are reported and the error flag says whether there were any |
| `Formulas.RangeColumn` | mmworker/MMFormula.js:943-959 | the range has abs(end - start) + 1 cells counting up from start when start < end and down otherwise |
| `Formulas.RangeValue` | mmworker/MMFormula.js:926-964 | no value without two number operands, an error when either has units, and otherwise a unitless column counting from the first value to the second |
| `FormulaProperties.DigitNotFunction` | mmworker/MMFormula.js:3142-3147 | a token starting with a digit is neither a function nor an operator, so the token loop treats it as a number |
| `FormulaProperties.NumeralOfInt` | mmworker/MMFormula.js:2874-2885 | `filterFloat` reads the decimal text of any integer back as that integer |
| `FormulaProperties.NumberAndUnitOf` | mmworker/MMFormula.js:3038-3041 | text made of a number, one space and a unit name splits into exactly those two tokens |
| `FormulaProperties.NumberWithUnit` | mmworker/MMFormula.js:3041-3057 | text that is a number and a known unit parses, without error, to that number carrying that unit |
| `FormulaProperties.QuotedUnitCounterexample` | mmworker/MMFormula.js:3049-3050 | with units m and mm, `3 "mm"` becomes 3 m as written and 3 mm after correction |
| `FormulaProperties.ReducedAtParen` | mmworker/MMFormula.js:3157-3159 | the reducing loop never crosses a parenthesis marker |
| `FormulaProperties.ClosedAtParen` | mmworker/MMFormula.js:2936-2941 | closing a parenthesis whose marker is on top only removes and uncounts the marker |
| `FormulaProperties.ApplyTop` | mmworker/MMFormula.js:2915-2925 | a dyadic operator on top takes the two top operands as its first and second input, in order |
| `FormulaProperties.TighterOperatorApplied` | mmworker/MMFormula.js:3157-3169 | a stacked operator of higher or equal precedence is applied before the incoming one is pushed |
| `FormulaProperties.LooserOperatorWaits` | mmworker/MMFormula.js:3157-3169 | a stacked operator of lower precedence stays on the stack under the incoming one |
| `FormulaProperties.LeftAssociative` | mmworker/MMFormula.js:3157-3169 | `x o1 y o2 z` parses as `(x o1 y) o2 z` whenever `o1` binds at least as tightly as `o2`, so equal operators group to the left |
| `FormulaProperties.TighterOperatorFirst` | mmworker/MMFormula.js:3157-3169 | `x o1 y o2 z` parses as `x o1 (y o2 z)` whenever `o2` binds more tightly |
| `FormulaProperties.UnaryMinusFolds` | mmworker/MMFormula.js:3151-3195 | a leading minus is unary and folds with the number after it into a negative constant |
| `FormulaProperties.UnknownFunctionFails` | mmworker/MMFormula.js:3127-3131 | `{name` with a name the factory does not know is an unknown-function error with no result |
| `FormulaProperties.CollectedPushed` | mmworker/MMFormula.js:1183-1190 | arguments pushed above a marker are collected back exactly, last first, leaving the stack below the marker |
| `FormulaProperties.MultipleArguments` | mmworker/MMFormula.js:1173-1193 | a multiple-argument function accepts exactly when it finds at least its minimum number of arguments above the marker |
| `FormulaProperties.EigenVectorCounterexample` | mmworker/MMFormula.js:2095-2098 | `{eigvect}` with no arguments is accepted as written although its minimum is one, which the corrected rule refuses |
| `FormulaProperties.EmptyOperatorStackCounterexample` | mmworker/MMFormula.js:3157-3169 | in `1)+2` the operator stack is empty when `+` arrives; as written the loop throws a type error, while the corrected loop stops and the parse reports the parenthesis mismatch |
| `CommandText.Term` | mmworker/MMCommandProcessor.js:198 | a term is trimmed, no longer than its text, equal to text that is already trimmed, and free of spaces when the text was |
| `CommandText.NextTerm` | mmworker/MMCommandProcessor.js:196-227 | `getNextTerm` gives one or two trimmed terms; one exactly when an opening quote is never closed; an unquoted first term has no space |
| `CommandText.QuotedTerm` | mmworker/MMCommandProcessor.js:202-214 | a quoted expression gives two trimmed terms when the quote is closed and one otherwise |
| `CommandText.SpacedTerm` | mmworker/MMCommandProcessor.js:217-226 | an unquoted expression splits at its first space into two terms, the first without a space, and into the expression and `''` when there is no space |
| `CommandText.NextTermOfWord` | mmworker/MMCommandProcessor.js:217-222 | a word, a space and trimmed text split into exactly the word and the text |
| `CommandText.NextTermOfLoneWord` | mmworker/MMCommandProcessor.js:224-226 | a single word gives the word and an empty rest |
| `CommandText.NextTermQuoted` | mmworker/MMCommandProcessor.js:203-209 | a quoted term that contains spaces comes back whole, without its quotes, with the rest after it |
| `CommandText.NextTermUnterminated` | mmworker/MMCommandProcessor.js:210-213 | a quote that is never closed gives one term, the text after the quote |
| `CommandText.SplitArgsAsWritten` | mmworker/MMCommandProcessor.js:577-581 | `splitArgsString` as written always gives at least one argument |
| `CommandText.SplitArgs` | mmworker/MMCommandProcessor.js:577-581 | the arguments with white space reduced to single separators: at least one, none containing a space |
| `CommandText.CollapseSpaceShape` | mmworker/MMCommandProcessor.js:579 | the intended `/\s+/g` rewrite: empty exactly for empty text, never longer, starts with a space exactly when the text starts with white space, and leaves only single plain spaces as white space |
| `CommandText.SplitArgsGap` | mmworker/MMCommandProcessor.js:577-581 | two words separated by any run of white space are exactly two arguments |
| `CommandText.SplitArgsJoin` | mmworker/MMCommandProcessor.js:577-581 | non-empty words joined with single spaces split back into the same words |
| `CommandText.DoubleSpaceCounterexample` | mmworker/MMCommandProcessor.js:579 | `_x  y` gives the three arguments `_x`, `''` and `y` as written and the two arguments `_x` and `y` after correction |
| `CommandText.DoubleSpaceAsWritten` | mmworker/MMCommandProcessor.js:579 | as written the pattern `%s+` does not match white space, so two spaces leave an empty argument |
| `CommandText.SeparateJoin` | mmworker/MMCommandProcessor.js:145-148 | commands joined with `;` have every separator turned into a line break |
| `CommandText.SeparatedLines` | mmworker/MMCommandProcessor.js:145-149 | commands separated by `;` become one line each |
| `CommandText.SemicolonCounterexample` | mmworker/MMCommandProcessor.js:147-148 | `a;b;c` becomes the lines `a` and `b;c` as written and `a`, `b` and `c` after correction |
| `CommandText.SemicolonAsWritten` | mmworker/MMCommandProcessor.js:147 | as written only the first lone `;` becomes a line break |
| `CommandText.SeparateAsWritten` | mmworker/MMCommandProcessor.js:147-148 | the two first-match replacements never lengthen the text and leave text without `;` unchanged |
| `CommandText.ScriptLines` | mmworker/MMCommandProcessor.js:145-149 | blank script text gives no lines, no line holds a line break, and trimmed text with neither `;` nor a line break is a single line |
| `CommandText.Extend` | mmworker/MMCommandProcessor.js:151-175 | one pass over a line never adds a blank command, never removes an earlier one, and leaves nothing continued without line continuation |
| `CommandText.Assemble` | mmworker/MMCommandProcessor.js:149-175 | the commands a script's lines make contain no blank command, and nothing is left continued without line continuation |
| `CommandText.AssembleWithoutContinuation` | mmworker/MMCommandProcessor.js:149-175 | without line continuation every non-blank trimmed line is one command, in order |
| `CommandText.AssembleWithoutUnderscores` | mmworker/MMCommandProcessor.js:153-163 | when no line ends in `_`, line continuation changes nothing |
| `CommandText.ContinuedLine` | mmworker/MMCommandProcessor.js:159-162 | a line ending in `_` is joined to the next line with a line break |
| `CommandText.TrailingContinuation` | mmworker/MMCommandProcessor.js:159-162 | a last line ending in `_` leaves a continued command behind |
| `CommandText.EscapedUnderscore` | mmworker/MMCommandProcessor.js:155-157 | a line ending in `__` is a complete command ending in one `_` |
| `CommandText.BlankLine` | mmworker/MMCommandProcessor.js:166 | a blank line adds no command |
| `CommandText.BelowTotal` | mmworker/MMCommandProcessor.js:718 | the order `sort()` uses on names is total |
| `CommandText.BelowAntisymmetric` | mmworker/MMCommandProcessor.js:718 | two names that each sort no later than the other are equal |
| `CommandText.BelowTransitive` | mmworker/MMCommandProcessor.js:718 | the sort order is transitive |
| `CommandText.LeastExists` | mmworker/MMCommandProcessor.js:718 | every non-empty set of names has one that sorts first |
| `CommandText.Least` | mmworker/MMCommandProcessor.js:718 | the first name is in the set and sorts no later than any other |
| `CommandText.SortedSet` | mmworker/MMCommandProcessor.js:718 | `names.sort()` lists every name exactly once, in ascending order |
| `CommandText.AscendingUnique` | mmworker/MMCommandProcessor.js:718 | any ascending listing of the same names is the sorted one, so the sorted list is determined by the names |
| `CommandTrees.Key` | mmworker/MMCommandProcessor.js:748-758 | children are filed under the lower-cased name in the worker and under the exact name in the older processor |
| `CommandTrees.NewTree` | mmworker/MMCommandProcessor.js:55-58 | a new tree has only its root, with no children, and the root is the default object |
| `CommandTrees.ChildNamed` | mmworker/MMCommandProcessor.js:756-758 | a child is found exactly when one is filed under the name's key, and it is a child of that parent whose name has the same key |
| `CommandTrees.ChildNamedIgnoresCase` | mmworker/MMCommandProcessor.js:756-758 | in the worker, looking up a name and its lower-cased form find the same child |
| `CommandTrees.FollowStep` | mmworker/MMCommandProcessor.js:238-243 | one step of `followPath` lands on an object of the tree, or on nothing |
| `CommandTrees.Follow` | mmworker/MMCommandProcessor.js:234-246 | `followPath` only ever reaches objects of the tree |
| `CommandTrees.FollowStopsAtMissingChild` | mmworker/MMCommandProcessor.js:238-243 | a path whose next part names no child of a parent reaches nothing, whatever follows |
| `CommandTrees.FollowAtLeaf` | mmworker/MMCommandProcessor.js:238 | parts applied to an object that has no children leave it where it is |
| `CommandTrees.FollowAppend` | mmworker/MMCommandProcessor.js:234-246 | following `a` then `b` is following `a` and continuing from where it ended |
| `CommandTrees.ObjectFromPath` | mmworker/MMCommandProcessor.js:252-264 | a path resolves only to objects of the tree, and only when it starts with `.`, `/` or `^` |
| `CommandTrees.RootChildPath` | mmworker/MMCommandProcessor.js:252-264 | `/name` finds the root's child of that name |
| `CommandTrees.PathOf` | mmworker/MMCommandProcessor.js:440-447 | `getPath` of any object starts with `/` |
| `CommandTrees.PathParts` | mmworker/MMCommandProcessor.js:440-447 | the parts of an object's path, followed from the root, lead back to the object |
| `CommandTrees.PathSplit` | mmworker/MMCommandProcessor.js:440-447 | a child's path splits into its parent's parts followed by the child's name |
| `CommandTrees.FollowChild` | mmworker/MMCommandProcessor.js:238-240 | a child's own name leads from its parent to the child |
| `CommandTrees.PathRoundTrip` | mmworker/MMCommandProcessor.js:252-264 | `getObjectFromPath(getPath())` gives the object back for every reachable object |
| `CommandTrees.FileUnder` | mmworker/MMCommandProcessor.js:748-750 | filing a child adds its key and keeps every other entry |
| `CommandTrees.AddChild` | mmworker/MMCommandProcessor.js:303-313 | a new command object is a fresh object with its name, class and parent, filed in the parent under its key, found by `childNamed`, and the tree stays well formed |
| `CommandTrees.Adopt` | mmworker/MMCommandProcessor.js:303-310 | the object itself before it is filed: fresh, with its name, class and parent, and nothing else changed |
| `CommandTrees.FileChild` | mmworker/MMCommandProcessor.js:748-750 | `addChild` files an existing child under its key and keeps the tree well formed |
| `CommandTrees.RenameChild` | mmworker/MMCommandProcessor.js:725-742 | renaming succeeds exactly when the old name is filed and the new one is not, with `childNotFound` or `nameAlreadyUsed` otherwise; on success only the child's name and key change |
| `CommandTrees.RenameBack` | mmworker/MMCommandProcessor.js:725-742 | renaming a child and renaming it back restores the tree |
| `CommandTrees.RemoveChild` | mmworker/MMCommandProcessor.js:690-700 | removal succeeds exactly when the name is filed, with `childNotFound` otherwise, and only unfiles that child |
| `CommandTrees.RemovedUnreachable` | mmworker/MMCommandProcessor.js:690-700 | a removed child can no longer be reached by a path through its parent |
| `CommandReading.VerbOf` | mmworker/MMCommandProcessor.js:118-124 | the verb is the lower-cased term, and `list` when the term is empty |
| `CommandReading.Targeted` | mmworker/MMCommandProcessor.js:118-126 | a command on a subject takes its verb from the first term and its arguments from the second, when there is one |
| `CommandReading.Address` | mmworker/MMCommandProcessor.js:97-126 | a read command names an object of the tree and a lower-case verb; the only failure is the internal error of an unclosed quote after a path |
| `CommandReading.DefaultSubject` | mmworker/MMCommandProcessor.js:108-117 | a first term that is no path makes the default object the subject and the term, lower-cased, the verb |
| `CommandReading.PathAloneLists` | mmworker/MMCommandProcessor.js:119-122 | a path with nothing after it gives the verb `list` |
| `CommandReading.AssemblePrefix` | mmworker/MMCommandProcessor.js:151-175 | the commands of the first lines of a script come first among the commands of the whole script |
| `CommandReading.AssembleNext` | mmworker/MMCommandProcessor.js:151-175 | the script's commands grow one line at a time |
| `CommandReading.ReadLine` | mmworker/MMCommandProcessor.js:152-166 | one pass of the line loop yields exactly the command and the continued text that assembling that line specifies |
| `Commands.Builtins` | mmworker/MMCommandProcessor.js:343-350 | every command object has exactly the two read-only properties `name` and `className` |
| `Commands.Verbs` | mmworker/MMCommandProcessor.js:625-631 | the verbs of an object are `help`, `cd`, `info`, `renameto`, `get` and `set`, and for a parent also `list`, `createchild` and `removechild` |
| `Commands.UsageKeyOfVerbs` | mmworker/MMCommandProcessor.js:638-650 | a usage key exists exactly for the object's verbs and is `cmd:?` followed by the verb |
| `Commands.Help` | mmworker/MMCommandProcessor.js:557-571 | `help` changes nothing; with no argument it lists the verbs in sorted order, otherwise it gives the verb's usage or `unknownCommand` |
| `Commands.ChangeDefault` | mmworker/MMCommandProcessor.js:547-552 | `cd` changes only the default object, to the object the path names, with the old default's `cd` as undo; an unknown path throws `cannotChangeDefault` |
| `Commands.Info` | mmworker/MMCommandProcessor.js:522-541 | `info` changes nothing and reports the class name and path |
| `Commands.RenameTo` | mmworker/MMCommandProcessor.js:366-378 | the root is not renamed; otherwise the parent renames the child, with an undo that renames it back under the new path |
| `Commands.GetValue` | mmworker/MMCommandProcessor.js:502-515 | an underscore name gives the property after the `_` when it holds non-empty text; any other name gives a built-in property when one exists |
| `Commands.GetProperty` | mmworker/MMCommandProcessor.js:384-395 | `get` changes nothing and succeeds exactly when the value exists |
| `Commands.SetValue` | mmworker/MMCommandProcessor.js:457-495 | only underscore names can be set: a value is stored under the name after the `_`, an empty value removes it, and nothing else changes |
| `Commands.OldValue` | mmworker/MMCommandProcessor.js:428-431 | the value the undo of `set` should restore: the stored underscore property, or `''` when there is none |
| `Commands.OldValueAsWritten` | mmworker/MMCommandProcessor.js:428-431 | as written the undo reads the property under the full name with its `_`, which is never where the value is stored |
| `Commands.SetUndoRestores` | mmworker/MMCommandProcessor.js:401-437 | setting an underscore property and then running the corrected undo restores the tree |
| `Commands.SetUndoAsWrittenCounterexample` | mmworker/MMCommandProcessor.js:428-433 | with `_x` set to 1, `set _x 2` followed by the undo as written removes `_x` instead of restoring 1 |
| `Commands.SetArgs` | mmworker/MMCommandProcessor.js:406-416 | `set` arguments split at the first space into a name without a space and the rest, and a lone name has an empty value |
| `Commands.SetProperty` | mmworker/MMCommandProcessor.js:401-437 | the intended behaviour (see Findings, mmworker/MMCommandProcessor.js:428-431): no arguments throw the usage message; otherwise the named property is set, with an undo that sets it back, or `propertyNotFound` is thrown |
| `Commands.Listed` | mmworker/MMCommandProcessor.js:705-719 | every child whose key matches the pattern, or every child for an empty pattern, is listed by name |
| `Commands.ListChildNames` | mmworker/MMCommandProcessor.js:705-719 | `list` changes nothing and gives the listed names, each once, in sorted order |
| `Commands.CreateChildFromArgs` | mmworker/MMCommandProcessor.js:659-684 | the intended behaviour (see Findings, mmworker/MMCommandProcessor.js:579): fewer than two arguments throw the usage message; a known class creates the child under the given name with an undo that removes it |
| `Commands.RemoveChildNamed` | mmworker/MMCommandProcessor.js:690-700 | `removechild` unfiles the named child, or throws `childNotFound` |
| `Commands.RenameToUndo` | mmworker/MMCommandProcessor.js:366-378 | renaming an object and renaming it back restores the tree |
| `Commands.GetAfterSet` | mmworker/MMCommandProcessor.js:457-515 | `get` reads back the value `set` stored in an underscore property, and nothing after an empty value |
| `Commands.CreateUndo` | mmworker/MMCommandProcessor.js:675-684 | after `createchild` the child is found, and its undo removes it |
| `Commands.NotFound` | mmworker/MMCommandProcessor.js:589-593 | an unknown verb throws `commandNotFound` |
| `Commands.Perform` | mmworker/MMCommandProcessor.js:589-596 | performing a verb keeps the tree well formed, given that underscore and JSON properties are kept apart from the object's own fields (see Left out), and a verb the object lacks throws `commandNotFound` |
| `Commands.Process` | mmworker/MMCommandProcessor.js:94-125 | `processCommand` keeps the tree well formed, changes nothing for a blank command and records the expression of a command it performs |
| `Commands.BlankCommand` | mmworker/MMCommandProcessor.js:99-101 | a blank first term does nothing and reports no command |
| `Commands.CdUndo` | mmworker/MMCommandProcessor.js:547-552 | running the undo of `cd` makes the old default object the default again |
| `Commands.Step` | mmworker/MMCommandProcessor.js:166-173 | once a command has thrown, later commands do nothing; otherwise each command adds at most one result |
| `Commands.RunAll` | mmworker/MMCommandProcessor.js:150-183 | running a script's commands keeps the tree well formed |
| `Commands.RunStopsAtError` | mmworker/MMCommandProcessor.js:184-187 | after the first command throws, the rest of the script changes nothing |
| `Commands.RunKeepsResults` | mmworker/MMCommandProcessor.js:166-173 | running commands keeps the earlier results and adds at most one per command |
| `Commands.ScriptCommands` | mmworker/MMCommandProcessor.js:143-182 | the commands a script text makes contain no blank command |
| `Commands.RunAllSnoc` | mmworker/MMCommandProcessor.js:150-183 | running one more command is one more step |
| `Commands.Processor.constructor` | mmworker/MMCommandProcessor.js:47-58 | a new processor has a new tree whose root is the default object, and line continuation on |
| `Commands.Processor.ProcessCommand` | mmworker/MMCommandProcessor.js:94-125 | records the expression and updates the tree as `processCommand` specifies, returning the command or what it threw |
| `Commands.Processor.RunCommand` | mmworker/MMCommandProcessor.js:166-173 | running one more command gives the run the specification gives |
| `Commands.Processor.RunLine` | mmworker/MMCommandProcessor.js:151-175 | one line of the loop reads the line and runs its command, as the script specification gives |
| `Commands.Processor.RunLines` | mmworker/MMCommandProcessor.js:149-175 | the line loop runs exactly the assembled commands, stopping at the first that throws, and leaves the continued text |
| `Commands.Processor.ProcessCommandString` | mmworker/MMCommandProcessor.js:140-191 | the intended behaviour (see Findings, mmworker/MMCommandProcessor.js:147-148): the results, the recorded error and the final tree are exactly those of running the script's commands in order up to the first that throws |
| `LegacyCommands.Verbs` | mmcmd/CommandProcessor.js:336-392 | an object answers exactly `?`, `cd`, `info`, `read`, `renameto`, `get` and `set`, and a parent also `list`, `createchild` and `removechild` |
| `LegacyCommands.HelpLines` | mmcmd/CommandProcessor.js:519-524 | help without an argument lists one usage line per verb of the object, every line belonging to a verb, in ascending order |
| `LegacyCommands.Help` | mmcmd/CommandProcessor.js:519-524 | `?` leaves the tree alone; with a verb it answers that verb's lower-cased usage key, without one the sorted usage lines joined by newlines |
| `LegacyCommands.ChangeDefault` | mmcmd/CommandProcessor.js:68-78 | `cd` succeeds exactly when the path names an object, which becomes the default object and nothing else in the tree changes; otherwise it raises `cmd:cannotChangeDefault` with the path |
| `LegacyCommands.ChangeDefaultAsWritten` | mmcmd/CommandProcessor.js:68-78 | as written, `cd` to a path that names nothing fails with an internal error instead of the translated message, and agrees with `ChangeDefault` otherwise |
| `LegacyCommands.ChangeDefaultCounterexample` | mmcmd/CommandProcessor.js:68-78 | on a fresh tree `cd /x` raises the internal error as written but `cmd:cannotChangeDefault` with `/x` as intended |
| `LegacyCommands.Properties` | mmcmd/CommandProcessor.js:351-358 | `get properties` reports the object's extra fields together with its name and class name |
| `LegacyCommands.Info` | mmcmd/CommandProcessor.js:487-504 | `info` leaves the tree alone; `info properties`, or a dotted path under it, describes every property; any other argument answers `cmd:classAndPath` with the class name and path; no argument is an internal error |
| `LegacyCommands.RenameTo` | mmcmd/CommandProcessor.js:341-350 | the root cannot be renamed and answers `cmd:cannotRenameTo`; any other object is renamed by its parent, succeeding exactly when the parent's rename does |
| `LegacyCommands.RenameToBack` | mmcmd/CommandProcessor.js:646-660 | renaming an object and then renaming it back under its old name restores the original tree |
| `LegacyCommands.GetValue` | mmcmd/CommandProcessor.js:467-480 | an underscore name reads the stored non-empty extra value; any other name reads only the built-in `name` and `className` |
| `LegacyCommands.GetProperty` | mmcmd/CommandProcessor.js:351-360 | `get properties` answers every property; `get x` succeeds exactly when the value of `x` exists and answers it; the tree is unchanged |
| `LegacyCommands.SetValue` | mmcmd/CommandProcessor.js:423-460 | only an underscore name can be set; it stores the value on that object and leaves every other object and field alone |
| `LegacyCommands.GetAfterSet` | mmcmd/CommandProcessor.js:423-480 | reading an underscore property just set answers the value set, and nothing when the value was empty |
| `LegacyCommands.SetWords` | mmcmd/CommandProcessor.js:361-377 | the intended behaviour (see Findings, mmcmd/CommandProcessor.js:532): `set` takes the property name from the first word and the value from the second, an empty value when there is only one |
| `LegacyCommands.SetProperty` | mmcmd/CommandProcessor.js:361-392 | the intended behaviour (see Findings, mmcmd/CommandProcessor.js:532): `set name value` succeeds exactly when the property can be set and answers `name = value`; a missing argument is an internal error |
| `LegacyCommands.Listed` | mmcmd/CommandProcessor.js:628-640 | the listed names are the children whose names match the pattern, every child when the pattern is empty |
| `LegacyCommands.ListChildNames` | mmcmd/CommandProcessor.js:628-640 | `list` leaves the tree alone and answers the matching child names in ascending order |
| `LegacyCommands.ListAll` | mmcmd/CommandProcessor.js:628-640 | `list` with an empty pattern answers exactly the children's names |
| `LegacyCommands.CreateChild` | mmcmd/CommandProcessor.js:576-583 | the intended behaviour (see Findings, mmcmd/CommandProcessor.js:532): `createchild` needs a class name and a child name, raising `usage:?createChild` otherwise; it adds the child under the parent and answers `cmd:createdChild` |
| `LegacyCommands.RemoveChildNamed` | mmcmd/CommandProcessor.js:615-622 | `removechild` succeeds exactly when the child exists, removing it; otherwise it raises `cmd:childNotFound` with the parent's path and the name |
| `LegacyCommands.CreateThenRemove` | mmcmd/CommandProcessor.js:576-622 | a child just created is found under its name, and removing it leaves no child of that name |
| `LegacyCommands.CreateOneChild` | mmcmd/CommandProcessor.js:576-610 | `createchild CommandObject A` on a fresh root adds child A and answers the created message |
| `LegacyCommands.CreatedChild` | mmcmd/CommandProcessor.js:579-586 | for any parent and any class `CommandObject` or `CommandParent` followed by a space and a name, `createchild` adds that child (a parent exactly for `CommandParent`) and answers the created message |
| `LegacyCommands.ExactNames` | mmcmd/CommandProcessor.js:675-677 | child names are case-sensitive: `/A` finds child A and `/a` finds nothing |
| `LegacyCommands.NotFound` | mmcmd/CommandProcessor.js:543-550 | an unknown verb raises `cmd:commandNotFound` |
| `LegacyCommands.Perform` | mmcmd/CommandProcessor.js:543-550 | the intended behaviour (see Findings, mmcmd/CommandProcessor.js:68-78): a verb the object does not have raises `cmd:commandNotFound`, and `read`, whose file access is outside the model, is an internal error |
| `LegacyCommands.Process` | mmcmd/CommandProcessor.js:98-143 | a processed command keeps its expression; a command without results leaves the tree alone; a thrown error is reported exactly when the command fails after reaching a subject |
| `LegacyCommands.BlankCommandFails` | mmcmd/CommandProcessor.js:98-106 | a command whose first term is empty fails without touching the tree or reporting anything |
| `LegacyCommands.Reports` | mmcmd/CommandProcessor.js:134-142 | a failure sends exactly one report to the error callback, a success none |
| `LegacyCommands.Step` | mmcmd/CommandProcessor.js:175-183 | after a failure further commands change nothing; otherwise one command adds at most one result and keeps the earlier ones |
| `LegacyCommands.RunAll` | mmcmd/CommandProcessor.js:162-185 | running the commands in turn keeps the tree well formed |
| `LegacyCommands.Finish` | mmcmd/CommandProcessor.js:187-191 | a trailing continued command is appended to the results when the script is still going, whether or not it succeeds |
| `LegacyCommands.RunScript` | mmcmd/CommandProcessor.js:151-195 | the intended behaviour (see Findings, mmcmd/CommandProcessor.js:155-156): running a whole script keeps the tree well formed |
| `LegacyCommands.ScriptResult` | mmcmd/CommandProcessor.js:176-183 | the script answers its results exactly when no command failed, and null otherwise |
| `LegacyCommands.RunStopsAtFailure` | mmcmd/CommandProcessor.js:176-183 | once a command fails, the commands after it change nothing |
| `LegacyCommands.FailureIsFinal` | mmcmd/CommandProcessor.js:176-183 | a script in which any command fails answers null |
| `LegacyCommands.RunAllSnoc` | mmcmd/CommandProcessor.js:162-185 | running one more command is one more step after the earlier ones |
| `LegacyCommands.Processor.constructor` | mmcmd/CommandProcessor.js:49-63 | a new processor has line continuation on, a fresh root as its default object and no reports |
| `LegacyCommands.Processor.ProcessCommand` | mmcmd/CommandProcessor.js:98-143 | the processor's tree, reports and last expression become those of processing the command |
| `LegacyCommands.Processor.RunCommand` | mmcmd/CommandProcessor.js:175-183 | the loop's step processes one line and keeps the run equal to running the commands so far |
| `LegacyCommands.Processor.RunLine` | mmcmd/CommandProcessor.js:162-185 | one script line either extends the continued command or runs the assembled command, matching the specification of the script |
| `LegacyCommands.Processor.RunLines` | mmcmd/CommandProcessor.js:162-185 | the loop over the lines ends in the state of running every assembled command in turn |
| `LegacyCommands.Processor.ProcessCommandString` | mmcmd/CommandProcessor.js:151-195 | the intended behaviour (see Findings, mmcmd/CommandProcessor.js:155-156): the processor ends in the state of running the script and answers its results, or null when a command failed |
| `JsonValues.ArrayIndex` | mmworker/MMJsonValue.js:162-164 | a path part selects an array element exactly when it is a canonical decimal numeral |
| `JsonValues.IndexRoundTrip` | mmworker/MMJsonValue.js:162-164 | the numeral written for an element position selects that position again |
| `JsonValues.IndexCanonical` | mmworker/MMJsonValue.js:162-164 | a part that selects an element is the numeral of that position, so no two parts select the same element |
| `JsonValues.Lookup` | mmworker/MMJsonValue.js:162-164 | a member lookup never fails outright and reaches a value exactly when some member has that key |
| `JsonValues.FirstMember` | mmworker/MMJsonValue.js:162-164 | in an object whose keys are distinct, looking up a member's key reaches that member's value |
| `JsonValues.ElementByIndex` | mmworker/MMJsonValue.js:162-164 | the numeral of a position selects that element of an array |
| `JsonValues.IndexNames` | mmworker/MMJsonValue.js:125-127 | the keys of an array are the numerals of its positions, in order |
| `JsonValues.Keys` | mmworker/MMJsonValue.js:125-127 | `*` gives a key list for every value except null |
| `JsonValues.Values` | mmworker/MMJsonValue.js:128-130 | `:*` gives a value list for every value except null |
| `JsonValues.KeysMatchValues` | mmworker/MMJsonValue.js:125-130 | `*` and `:*` give lists of the same length, and the i-th key looks up the i-th value |
| `JsonValues.Picked` | mmworker/MMJsonValue.js:148-158 | a truthy member is kept; a missing or falsy one becomes 0 when the default type is number and the empty string otherwise |
| `JsonValues.Plucked` | mmworker/MMJsonValue.js:131-161 | `:key` fails exactly when some element is null, and otherwise gives one entry per element |
| `JsonValues.Pluck` | mmworker/MMJsonValue.js:131-161 | the loops over the elements compute `Plucked` |
| `JsonValues.DefaultTypeFound` | mmworker/MMJsonValue.js:136-146 | the default type is the type of the first element whose member is defined, and `undefined` when there is none |
| `JsonValues.WalkAppend` | mmworker/MMJsonValue.js:120-167 | walking a path made of two parts is walking the first and then the second from where it ended; a missing value ends the walk |
| `JsonValues.Converted` | mmworker/MMJsonValue.js:169-193 | a number or string becomes a scalar value, a non-empty array all of numbers or all of strings a column of those cells, anything else stays JSON |
| `JsonValues.ToValue` | mmworker/MMJsonValue.js:169-193 | the loop over the array's elements computes `Converted` |
| `JsonValues.Apply` | mmworker/MMJsonValue.js:124-164 | applying one path part computes the part's meaning over the current value |
| `JsonValues.ValueForDescription` | mmworker/MMJsonValue.js:119-194 | the loop over the dot-separated parts ends with the description's value, null once a part reaches nothing |
| `JsonValues.ValueForIndexRowColumn` | mmworker/MMJsonValue.js:202-217 | an index uses the row's first string when there is one, else the column's, and otherwise answers null; a null value answers null |
| `JsonValues.Concat` | mmworker/MMJsonValue.js:276-282 | concatenation gives a two-element array exactly when both values are present and truthy |
| `JsonValues.ConcatParts` | mmworker/MMJsonValue.js:276-282 | elements `0` and `1` of a concatenation are the two values concatenated |
| `Tools.Description` | mmworker/MMTool.js:97-107 | notes of at most 50 characters are their own description; longer notes are cut to a prefix of 49 characters |
| `Tools.ToolNameIsSegment` | mmworker/MMTool.js:367-371 | an accepted tool name holds no dot, slash, caret, quote or white space, so it is a single path segment |
| `Tools.BoolText` | mmworker/MMTool.js:131-140 | text sets a flag to true exactly when it starts with `t` or `T` |
| `Tools.SavedOf` | mmworker/MMTool.js:349-365 | the saved form keeps the name, notes and position, and records `isOutput` only when it is set |
| `Tools.SavedFlagsRoundTrip` | mmworker/MMTool.js:349-387 | restoring a tool from its saved form gives back every display flag |
| `Tools.MissingFlagIsFalse` | mmworker/MMTool.js:380-387 | a flag absent from the saved form is restored as false |
| `Tools.Described` | mmworker/MMTool.js:304-325 | an empty description or `self` answers the tool, `notes` its notes, `myname` its name, anything else nothing |
| `Tools.DescriptionKey` | mmworker/MMTool.js:304-306 | a description is compared in lower case |
| `Tools.DescribedIgnoresCase` | mmworker/MMTool.js:304-325 | descriptions that differ only in case answer the same |
| `Tools.Tool.constructor` | mmworker/MMTool.js:53-66 | a new tool has empty notes, every flag off, no requestors and no properties of its own |
| `Tools.Tool.SetIsOutput` | mmworker/MMTool.js:88-95 | setting `isOutput` stores the flag, and the tool and its parent forget their values exactly when the flag changes |
| `Tools.Tool.SetHtmlNotes` | mmworker/MMTool.js:113-119 | setting `htmlNotes` stores the flag, and the tool forgets its values exactly when the flag changes |
| `Tools.Tool.ForgetCalculated` | mmworker/MMTool.js:251-255 | forgetting changes nothing but the count of forgets |
| `Tools.Tool.ForgetAllCalculations` | mmworker/MMTool.js:260-262 | forgetting everything is forgetting the tool's own values |
| `Tools.Tool.SetValue` | mmworker/MMTool.js:131-140 | only the notes, the display flags and underscore names can be set; any other name raises `cmd:propertyNotFound` and changes nothing |
| `Tools.Tool.ValueDescribedBy` | mmworker/MMTool.js:291-325 | the answer is that of the lower-cased description, and a requestor is recorded exactly when there is an answer |
| `Tools.Tool.RenameTo` | mmworker/MMTool.js:367-374 | a name with a non-word character or a leading digit records `toolBadName` and changes nothing else; an accepted one makes the tool forget before it is renamed |
| `Tools.Tool.InitFromSaved` | mmworker/MMTool.js:380-387 | restoring sets the notes, position and flags from the saved form, forgetting once for each flag setter that changes its flag |
| `Tools.SaveThenLoad` | mmworker/MMTool.js:349-387 | a tool restored from another's saved form has that tool's notes, position and flags |
| `Models.AutoName` | mmworker/MMModel.js:56-60 | an automatic name is `x` followed by the counter's numeral, and is already lower case |
| `Models.AutoNameInjective` | mmworker/MMModel.js:56-60 | different counter values give different automatic names |
| `Models.IssuedGrows` | mmworker/MMModel.js:56-60 | each advance of the counter issues a name not issued before |
| `Models.FreeNumber` | mmworker/MMModel.js:56-60 | the counter stops at the first number from its current value whose name no child has, and every number it passes is taken |
| `Models.AllForgotten` | mmworker/MMModel.js:75-80 | every tool the model holds forgets once, and no tool is added or removed |
| `Models.Model.constructor` | mmworker/MMModel.js:14-18 | a new model holds no tools and starts its counter at 1 |
| `Models.Model.AddTool` | mmworker/MMModel.js:49-70 | a known type files the tool under the given or the first free automatic name and answers the undo `path removechild name`; an unknown type raises `modelInvalidToolType` and adds nothing |
| `Models.Model.NextFreeName` | mmworker/MMModel.js:56-60 | the counter loop answers the first free automatic name and leaves the counter one past it |
| `Models.Model.ForgetAllCalculations` | mmworker/MMModel.js:75-80 | the model forgets its own values and passes the call on to every tool it holds |
| `Models.AutoNamedIsNew` | mmworker/MMModel.js:56-60 | a tool added without a name never replaces one the model holds |
| `Menus.Clamped` | mmworker/MMMenu.js:155-157 | a selection inside the options is kept; one past the last row becomes 0, or -1 when there are no options |
| `Menus.ClampedIdempotent` | mmworker/MMMenu.js:155-157 | clamping an already clamped selection changes nothing |
| `Menus.ValueColumn` | mmworker/MMMenu.js:160 | the value is read from column 2 exactly when the options have more than one column, otherwise from column 1 |
| `Menus.OptionAt` | mmworker/MMMenu.js:161-164 | a one-based column of the selected row gives a cell exactly when the row and the column lie inside the options |
| `Menus.MenuKey` | mmworker/MMMenu.js:146-150 | the description is compared in lower case, and an empty one means `selected` |
| `Menus.MenuAnswer` | mmworker/MMMenu.js:158-190 | `selected` answers the selected row's value column and `label` its first column, nothing for a negative selection; other descriptions fall back to the tool's own |
| `Menus.Menu.constructor` | mmworker/MMMenu.js:38-44 | a new menu is an output tool with an empty options formula and selection 0 |
| `Menus.Menu.SetSelected` | mmworker/MMMenu.js:87-92 | setting the selection stores it, and the menu forgets its values exactly when the selection changes |
| `Menus.Menu.Clamp` | mmworker/MMMenu.js:155-157 | the selection becomes its clamped value, forgetting exactly when that changes it |
| `Menus.Menu.ValueDescribedBy` | mmworker/MMMenu.js:146-191 | without options the answer is nothing; otherwise the selection is clamped first and the answer is that of the description, recording the requestor when there is one |
| `Menus.Menu.InitFromSaved` | mmworker/MMMenu.js:64-75 | restoring sets the options formula, the selection, the notes, the position and the flags from the saved form |
| `Menus.SelectedRoundTrip` | mmworker/MMMenu.js:51-69 | a saved selection is restored as it was, and a missing one as 0 |
| `Buttons.ButtonAnswer` | mmworker/MMButton.js:170-199 | `action`, `target` and `html` answer their text exactly when it is not empty; any other description answers nothing |
| `Buttons.ButtonHasNoNotes` | mmworker/MMButton.js:170-199 | a button does not answer `notes`, `myname` or `self` |
| `Buttons.InputSources` | mmworker/MMButton.js:116-126 | the label's sources are kept, and the target tool is added exactly when the action is not `load` and a sibling has that name |
| `Buttons.Button.constructor` | mmworker/MMButton.js:39-46 | a new button is an output tool whose action is `addrow`, with no target and an empty label formula |
| `Buttons.Button.ForgetCalculated` | mmworker/MMButton.js:266-279 | forgetting notifies every requestor once and then clears them, leaving the action, target and label alone |
| `Buttons.Button.SetTarget` | mmworker/MMButton.js:92-97 | the target is stored, and the button forgets exactly when it changes |
| `Buttons.Button.SetAction` | mmworker/MMButton.js:103-109 | a different action is stored, clears the target and makes the button forget; the same action changes nothing |
| `Buttons.Button.ValueDescribedBy` | mmworker/MMButton.js:170-199 | an empty description answers the tool itself; any other answers its lower-cased button text, recording the requestor when it answers and always for `html` |
| `Buttons.Button.SetNotes` | mmworker/MMTool.js:127-131 | notes that change make the button forget, telling every requestor and dropping them; the same notes change nothing but the text; the action, target and label formula are unchanged |
| `Buttons.Button.SetHtmlNotes` | mmworker/MMTool.js:113-119 | the flag is stored, and only a change makes the button forget through its own `forgetCalculated`; the action, target and label formula are unchanged |
| `Buttons.Button.SetIsOutput` | mmworker/MMTool.js:88-95 | the flag is stored, and only a change makes the button (through its own `forgetCalculated`) and its parent forget; the action, target and label formula are unchanged |
| `Buttons.Button.SetValue` | mmworker/MMButton.js:81-109 | the label formula never changes; `action` and `target` go through their setters: the same value changes nothing else, a new action clears the target, and a change makes the button forget, notifying and dropping the requestors; `notes`, `htmlNotes` and `isOutput` go through the tool's setters, whose forgetting is the button's own; any other name is the tool's: it fails with `cmd:propertyNotFound` and the button's name leaving the tool state unchanged, or sets `diagramNotes` or an underscore value in the tool state, and leaves the requestors alone |
| `Buttons.Button.InitFromSaved` | mmworker/MMButton.js:67-79 | restoring sets the action, target and label formula directly, without clearing the target, and the tool's notes and flags |
| `Sessions.AfterPush` | mmworker/MMSession.js:531-536 | pushing makes the model current and stacks the previous current model when there was one |
| `Sessions.AfterPop` | mmworker/MMSession.js:542-546 | popping removes as many models as asked, but never more than the stack holds, and the last one removed becomes current |
| `Sessions.PopUndoesPush` | mmworker/MMSession.js:531-546 | popping once after a push restores the stack and the current model |
| `Sessions.PopPastBottom` | mmworker/MMSession.js:542-546 | popping at least as often as the stack is deep empties it and makes its bottom model current |
| `Sessions.CaseName` | mmworker/MMSession.js:292-293 | the case name is the part of the store path after its last slash |
| `Sessions.CaseNameOfPlainPath` | mmworker/MMSession.js:292-293 | a store path without a slash is its own case name |
| `Sessions.JoinEndsWithLast` | mmworker/MMSession.js:292-293 | a path joined from parts ends with its last part, preceded by the separator when there are several |
| `Sessions.Session.constructor` | mmworker/MMSession.js:209-215 | a new session has no root model, no current model and an empty stack |
| `Sessions.Session.NewSession` | mmworker/MMSession.js:222-233 | a new session gets a fresh empty root model that is current and alone on the stack, stored under the given path or `(unnamed)` |
| `Sessions.Session.PushModel` | mmworker/MMSession.js:531-536 | pushing changes the stack and the current model as `AfterPush` says; the root model, store path, next tool location and default and selected objects are unchanged |
| `Sessions.Session.PopModel` | mmworker/MMSession.js:542-546 | the popping loop changes the stack and the current model as `AfterPop` says; the root model, store path, next tool location and default and selected objects are unchanged |
| `Sessions.Session.SessionCaseName` | mmworker/MMSession.js:286-293 | a given path becomes the store path, and the case name is that of the store path; the root model, next tool location and default and selected objects are unchanged |
| `MatrixCells.CellKey` | mmworker/MMMatrix.js:507 | a cell's key is its row and column numerals joined by `_` |
| `MatrixCells.CellKeyInjective` | mmworker/MMMatrix.js:507 | different cells have different keys |
| `MatrixCells.InputOf` | mmworker/MMMatrix.js:105-120 | a cell input has text exactly when it has been set |
| `MatrixCells.Tokens` | mmworker/MMMatrix.js:52 | splitting an input at runs of white space gives at least one token, with no empty token between the first and the last |
| `MatrixCells.NumberOf` | mmworker/MMMatrix.js:81-83 | blank text reads as 0 and a run of digits as its decimal value |
| `MatrixCells.NumberOfIntToString` | mmworker/MMMatrix.js:81-83 | the numeral of any integer reads back as that integer |
| `MatrixCells.NumberOfDigits` | mmworker/MMMatrix.js:81-83 | a run of digits reads as its value |
| `MatrixCells.NumberOfSigned` | mmworker/MMMatrix.js:81-83 | a minus sign before a run of digits reads as the negated value |
| `MatrixCells.NameIsNotNumber` | mmworker/MMMatrix.js:81-99 | text that starts with a letter is not a number, so it becomes a formula |
| `MatrixCells.Reset` | mmworker/MMMatrix.js:49-103 | a number with a unit keeps its text, a unit of other dimensions setting the display unit in cell `0_0` and an error elsewhere; a plain number gets the display unit's name appended; anything else is a formula |
| `MatrixCells.DisplayUnitRule` | mmworker/MMMatrix.js:66-79 | a quantity in a unit of other dimensions than the display unit becomes the display unit in cell `0_0` and is an error in any other cell |
| `MatrixCells.ErrorRetryBlocked` | mmworker/MMMatrix.js:43-47 | as written, a cell in error typed again with the same text is not read again, although the caller asks for it |
| `MatrixCells.RetryOnlyForErrors` | mmworker/MMMatrix.js:513-514 | for a cell not in error the written test and the intended one agree |
| `MatrixCells.Find` | mmworker/MMMatrix.js:508 | a lookup finds the first entry with the key, and nothing exactly when no entry has it |
| `MatrixCells.FirstFound` | mmworker/MMMatrix.js:600-611 | the input found is that of the first key in the list that has an entry, and nothing when none has |
| `MatrixCells.Resolve` | mmworker/MMMatrix.js:600-611 | resolving a cell finds an entry of the inputs or nothing |
| `MatrixCells.OwnInputFirst` | mmworker/MMMatrix.js:600-601 | a cell with its own input uses it |
| `MatrixCells.RowBeforeColumn` | mmworker/MMMatrix.js:600-604 | a cell without its own input uses its row's input before its column's |
| `MatrixCells.DefaultCoversAll` | mmworker/MMMatrix.js:600-613 | with a `0_0` input every cell resolves, and a cell resolves to nothing exactly when it, its row, its column and `0_0` have no input |
| `MatrixCells.CellNumber` | mmworker/MMMatrix.js:125-159 | a formula that is not a scalar puts the cell in error and gives nothing; one in other dimensions than the display unit puts it in error but is given; any other input gives its number |
| `MatrixCells.CellFloat` | mmworker/MMMatrix.js:165-179 | a typed number gives its value, a formula its number, and an unset or errored input nothing |
| `MatrixCells.FloatAt` | mmworker/MMMatrix.js:589-613 | while calculating, a cell's number is that of the input it resolves to, and only that input's state may change |
| `MatrixCells.SweepFrom` | mmworker/MMMatrix.js:551-576 | the sweep keeps the inputs' keys; it gives one value per remaining cell unless it stops early, and never stops when every input is typed and `0_0` has one |
| `MatrixCells.SweepCellStep` | mmworker/MMMatrix.js:553-573 | one step of the sweep computes the cell's number and moves to the next column |
| `MatrixCells.SweepNextRow` | mmworker/MMMatrix.js:551-552 | past the last column the sweep goes on at the first column of the next row |
| `MatrixCells.TypedFloat` | mmworker/MMMatrix.js:165-179 | when every input is typed and `0_0` has one, every cell has a number and nothing changes |
| `MatrixCells.ResetFrom` | mmworker/MMMatrix.js:516-521 | after `0_0` changes every input is read again in turn, keeping the keys and leaving every input set unless one throws |
| `MatrixCells.RemovedKeys` | mmworker/MMMatrix.js:525-528 | deleting an input removes its key and no other |
| `MatrixCells.WithEntry` | mmworker/MMMatrix.js:508-512 | a missing entry is created for the cell and an existing one reused |
| `MatrixCells.Placed` | mmworker/MMMatrix.js:510-523 | the intended behaviour (see Findings, mmworker/MMMatrix.js:43-47): setting a non-empty input keeps the keys of the inputs with the cell's entry; when it makes the matrix forget, nothing was thrown |
| `MatrixCells.AfterSetCell` | mmworker/MMMatrix.js:506-530 | the intended behaviour (see Findings, mmworker/MMMatrix.js:43-47): an empty input deletes the cell's entry, forgetting when there was one; a non-empty one is placed |
| `MatrixCells.SetCellKeepsKeysDistinct` | mmworker/MMMatrix.js:506-530 | setting a cell keeps every key unique |
| `MatrixCells.InputHasEntry` | mmworker/MMMatrix.js:506-530 | after a non-empty input the cell has an entry |
| `MatrixCells.InputIsPlaced` | mmworker/MMMatrix.js:506-530 | the intended behaviour (see Findings, mmworker/MMMatrix.js:43-47): a non-empty input in a cell other than `0_0` that throws nothing is held by the cell, a plain number with the display unit's name appended |
| `MatrixCells.RetypedErrorIsReread` | mmworker/MMMatrix.js:513-514 | as intended, a cell in error typed again with the same text is read again |
| `MatrixCells.ResetToZero` | mmworker/MMMatrix.js:81-94 | the input `0` without a display unit is the typed number 0 |
| `MatrixCells.DefaultInput` | mmworker/MMMatrix.js:207 | a new matrix's default input is `0` in cell `0_0` |
| `MatrixCells.FirstCellPlaced` | mmworker/MMMatrix.js:207 | in an empty matrix, a text that sets cell `0_0` without error (and sets it the same again) leaves exactly that one cell, with no error and the change reported |
| `MatrixTools.Recounted` | mmworker/MMMatrix.js:397-421 | a cached count is kept; otherwise the count is cached only when the formula gives a positive number without a unit |
| `MatrixTools.RecountedIsStable` | mmworker/MMMatrix.js:397-421 | once a count is cached, later formula values do not change it |
| `MatrixTools.RecountedIsPositive` | mmworker/MMMatrix.js:414-416 | a cached count is always positive |
| `MatrixTools.CountWarnings` | mmworker/MMMatrix.js:404-410 | a count is warned about exactly when it is recomputed and its value has a unit, and at most once |
| `MatrixTools.MatrixTool.constructor` | mmworker/MMMatrix.js:190-208 | a new matrix has count formulas `1`, no display unit, no value and the single input `0` in cell `0_0` |
| `MatrixTools.MatrixTool.ForgetCalculated` | mmworker/MMMatrix.js:323-340 | forgetting drops the value and both cached counts and clears the requestors |
| `MatrixTools.MatrixTool.ResetAll` | mmworker/MMMatrix.js:516-521 | the loop over the inputs reads each again as `ResetFrom` says |
| `MatrixTools.MatrixTool.Place` | mmworker/MMMatrix.js:510-523 | the intended behaviour (see Findings, mmworker/MMMatrix.js:43-47): placing a non-empty input changes the inputs and the display unit as `Placed` says, and forgets the value when that says so |
| `MatrixTools.MatrixTool.SetCellInput` | mmworker/MMMatrix.js:506-530 | the intended behaviour (see Findings, mmworker/MMMatrix.js:43-47): setting a cell's input changes the inputs, the display unit and the value as `AfterSetCell` says, and keeps the keys unique |
| `MatrixTools.MatrixTool.RowCount` | mmworker/MMMatrix.js:397-421 | the row count is the recounted one, with a warning when the formula's value has a unit; nothing but the errors changes |
| `MatrixTools.MatrixTool.ColumnCount` | mmworker/MMMatrix.js:426-449 | the column count is the recounted one, with a warning when the formula's value has a unit; nothing but the errors changes |
| `MatrixTools.MatrixTool.SweepCells` | mmworker/MMMatrix.js:547-576 | the nested loops over the grid end in the state of the row-major sweep |
| `MatrixTools.MatrixTool.Finish` | mmworker/MMMatrix.js:561-576 | a completed sweep becomes the value; a sweep stopped at a cell without a number forgets the whole value |
| `MatrixTools.MatrixTool.CalculateValue` | mmworker/MMMatrix.js:535-583 | the count warnings are appended to the errors and the knowns are cleared on every path; without a row count both cached counts stay, with a row count but no column count the row count is cached and the column count stays, and in both cases the inputs, the value, the nesting count and the rest of the tool are unchanged; with both counts the nesting count is 0 and the cells are filled row by row, their messages follow the warnings, and the value is the swept grid with both counts cached unless a cell has no number, which forgets the matrix and its counts |
| `MatrixTools.MatrixTool.SweepWhenCounted` | mmworker/MMMatrix.js:546-582 | the knowns are cleared either way; without both counts nothing else changes; with both counts the nesting count is 0 and the inputs, value, cached counts and tool state are those the row-major sweep gives, a cell without a number making the matrix forget |
| `MatrixTools.MatrixTool.Counts` | mmworker/MMMatrix.js:537-544 | the column count is asked for only when there is a row count; the row count asked for is the one cached, and the cached column count changes only when a column count is found; the errors gain exactly the `matrixRowCountHasUnit` and (when it is asked for) `matrixColumnCountHasUnit` warnings, the rest of the tool unchanged |
| `MatrixTools.MatrixTool.EvaluateCell` | mmworker/MMMatrix.js:648-667 | a cell's number is that of the input it resolves to, whose state may change and whose messages are recorded; the cell becomes the current one |
| `MatrixTools.MatrixTool.NumberValueWhileCalculating` | mmworker/MMMatrix.js:620-667 | a cell outside the grid gives nothing; past the nesting limit it gives nothing with `matrixNestingError`; a known cell gives its value; in these cases the inputs, the current cell and the nesting count are unchanged; a cell not yet known becomes the current cell; when no input resolves it throws with the inputs and errors unchanged and the nesting count one more; otherwise it gives the number of the input it resolves to, only that input's cell and the errors change, and the nesting count is back to its old value |
| `MatrixTools.SweepRow` | mmworker/MMMatrix.js:552-574 | the loop over one row's columns ends where the sweep does, or at the start of the next row |
| `MatrixTools.SweepGrid` | mmworker/MMMatrix.js:551-576 | the nested loops compute the row-major sweep from the first cell |
| `MatrixTools.SweepKeepsKeys` | mmworker/MMMatrix.js:551-576 | calculating keeps the input keys unique |
| `ColumnNames.Underscored` | mmworker/MMOde.js:596 | every white-space character of the comment becomes `_` and every other character is kept |
| `ColumnNames.QuoteCounted` | mmworker/MMOde.js:593-594 | splitting at `'` gives more than one part exactly when the formula holds a quote |
| `ColumnNames.CommentName` | mmworker/MMOde.js:593-597 | a formula has a comment name exactly when it holds a quote, and the name holds no white space and no quote |
| `ColumnNames.ColumnName` | mmworker/MMOde.js:590-602 | a formula with a quote is named by its comment; one without is named by its own text, or by nothing when only comments are asked for |
| `ColumnNames.CommentBetweenQuotes` | mmworker/MMOde.js:593-597 | the comment is the trimmed text between the first quote and the next one or the end, with white space turned into `_` |
| `ColumnNames.CommentWordsJoined` | mmworker/MMOde.js:593-597 | a two-word comment is named by its words joined with `_` |
| `ColumnNames.UnderscoredPlain` | mmworker/MMOde.js:596 | a comment without white space is its own name |
| `ColumnNames.UnderscoredConcat` | mmworker/MMOde.js:596 | underscoring works character by character, so it distributes over concatenation |
| `Splices.StartIndex` | mmworker/MMOde.js:406 | a splice position inside the array is used as it is, and a negative one counts back from the end |
| `Splices.Inserted` | mmworker/MMOde.js:404-406 | inserting puts the element at the position and shifts the later ones up by one |
| `Splices.Removed` | mmworker/MMOde.js:483-486 | removing drops the element at the position and shifts the later ones down; past the end nothing changes |
| `Splices.RemovedInserted` | mmworker/MMOde.js:399-406 | removing an element just inserted gives back the array |
| `Splices.InsertedRemoved` | mmworker/MMOde.js:481-487 | inserting a removed element back at its position gives back the array |
| `Recording.FlattenLength` | mmworker/MMOde.js:564-576 | recorded values of equal length fill the row-major grid exactly |
| `Recording.FlattenSnoc` | mmworker/MMOde.js:571-575 | recording one more value appends its cells to the grid |
| `Recording.FlattenAt` | mmworker/MMOde.js:573-575 | cell (row, column) of the grid is cell `column` of the value recorded at step `row` |
| `Recording.RecordedMatrix` | mmworker/MMOde.js:560-581 | nothing recorded gives no value, values of different lengths give `recordLengthError`, and otherwise a steps × length matrix in the first value's unit |
| `Recording.RecordedRowMajor` | mmworker/MMOde.js:560-581 | each row of the recorded matrix is one recorded step |
| `Recording.RecordedValue` | mmworker/MMOde.js:560-581 | the loops over the steps and their cells compute `RecordedMatrix` |
| `Recording.FirstMissing` | mmworker/MMOde.js:538-553 | recording stops at the first formula without a value, every one before it having one |
| `Recording.AppendedUpTo` | mmworker/MMOde.js:538-553 | each formula before the stop gets its value appended and the others keep their records |
| `Recording.RecordValues` | mmworker/MMOde.js:538-553 | the loop over the formulas records up to the first missing value and reports where it stopped |
| `Recording.Emptied` | mmworker/MMOde.js:512-518 | resetting keeps one empty record per formula |
| `Recording.ColumnNameFor` | mmworker/MMOde.js:590-602 | a number outside the list has no column name; a recorded formula has none exactly when only a comment will do and it has no comment, and one without a quote is otherwise named by its own text |
| `Recording.ColumnNameForComment` | mmworker/MMOde.js:590-602 | a recorded formula with a comment is named by the underscored comment |
| `Recording.Recorder.constructor` | mmworker/MMOde.js:61-62 | a new recorder has no formulas, no records and its counter at 1 |
| `Recording.Recorder.Add` | mmworker/MMOde.js:466-475 | a new recorded formula is named `r` and the counter, which advances, and gets an empty record |
| `Recording.Recorder.Remove` | mmworker/MMOde.js:481-488 | a number inside the list removes that formula and its record; any other changes nothing |
| `Recording.Recorder.Restore` | mmworker/MMOde.js:399-406 | restoring puts the formula `r{n}` and an empty record back at position n |
| `Recording.Recorder.ResetRecordedValues` | mmworker/MMOde.js:512-518 | the loop leaves one empty record per formula |
| `Recording.Recorder.Record` | mmworker/MMOde.js:538-553 | the records become those of recording up to the first missing value |
| `Recording.Recorder.ValueFor` | mmworker/MMOde.js:560-581 | a number outside the list, or a list with nothing recorded, gives no value; a recorded value has one row per record, as many columns as the first record has cells, and the first record's units |
| `Iterators.RunOf` | mmworker/MMIterator.js:344-358 | the loop runs while the test holds; every pass records the values, stopping with the pass that finds one missing; a run that ends normally has recorded on every pass and ends with a failing test |
| `Iterators.RunRecordsOnePerPass` | mmworker/MMIterator.js:348-353 | a run in which every value was available adds exactly one value to each list per pass, as many as `i` went up by |
| `Iterators.RunStopsAtOnce` | mmworker/MMIterator.js:344 | when the first test fails nothing is recorded and `i` stays |
| `Iterators.RunLoop` | mmworker/MMIterator.js:344-358 | the while loop computes `RunOf` |
| `Iterators.RecordError` | mmworker/MMIterator.js:126-141 | a failed recording reports exactly one error, and a complete one none |
| `Iterators.Iterator.constructor` | mmworker/MMIterator.js:24-45 | a new iterator starts with `i` at 1, no `x`, no recorded formulas, not solved and auto-run off |
| `Iterators.Iterator.ForgetStep` | mmworker/MMIterator.js:158-175 | forgetting a step clears the requestors and forgets once |
| `Iterators.Iterator.Reset` | mmworker/MMIterator.js:114-120 | reset empties every list keeping their number, sets `i` to 0, drops `x` and unsolves |
| `Iterators.Iterator.AddRecordedValue` | mmworker/MMIterator.js:100-109 | a new recorded formula `r{k}` with text `$.i` gets an empty list; unless a case is loading the iterator resets (records emptied, i 0, no x, not solved, requestors dropped, one forget), and while loading the records gain only the empty list and i, x, the solved flag and the tool state stay |
| `Iterators.Iterator.RecordCurrentValues` | mmworker/MMIterator.js:126-141 | the values are recorded up to the first missing one; the answer is true exactly when none is missing, and otherwise `recordValueError` is reported |
| `Iterators.Iterator.ValueForRecorded` | mmworker/MMIterator.js:200-222 | a recorded value is the row-major matrix of its list; lists of unequal lengths give nothing and `recordLengthError` |
| `Iterators.Iterator.ColumnNameForRecorded` | mmworker/MMIterator.js:181-193 | a column name exists exactly for the numbers of recorded formulas |
| `Iterators.Iterator.Solve` | mmworker/MMIterator.js:329-364 | solving ends with the lists, `x` and `i` of the run, `i` up by one per complete pass; a failed recording turns auto-run off and reports one error; solved means the last test had a value and auto-run is on |
| `Odes.NoRecordedText` | mmworker/MMOde.js:391-393 | an unknown recorded number answers `No recorded value` with the number, or `NaN` when it is not a number |
| `Odes.RestoreAfterRemove` | mmworker/MMOde.js:382-406 | restoring a removed recorded formula puts it back in its place, named after its number |
| `Odes.RestoreAfterRemoveKeepsTexts` | mmworker/MMOde.js:382-406 | after removing and restoring, every recorded formula has its old text |
| `Odes.RestoreAfterRemoveRecords` | mmworker/MMOde.js:382-406 | after removing and restoring, the lists are as many as before and empty |
| `Odes.SavedYsOf` | mmworker/MMOde.js:161-165 | the saved cached y values keep every number and write a missing one as 0 |
| `Odes.SavedYs` | mmworker/MMOde.js:161-165 | the loop over the cached values computes `SavedYsOf` |
| `Odes.Ode.constructor` | mmworker/MMOde.js:47-70 | a new solver has no recorded formulas, no cached y, is not solved and starts recording at 0 |
| `Odes.Ode.ForgetStep` | mmworker/MMOde.js:444-458 | forgetting a step clears the requestors and forgets once |
| `Odes.Ode.Reset` | mmworker/MMOde.js:493-507 | reset empties every list keeping their number, drops the cached y and unsolves |
| `Odes.Ode.AddRecordedValue` | mmworker/MMOde.js:466-475 | a new recorded formula `r{k}` with text `$.t` gets an empty list; unless a case is loading the solver resets (not solved, no cached y, record number 0, one forget), and while loading those stay as they were |
| `Odes.Ode.RemoveRecordedValue` | mmworker/MMOde.js:481-488 | a number inside the list removes that formula and its list and resets (not solved, no cached y, record number 0); any other changes nothing |
| `Odes.Ode.RemoveRecordedCommand` | mmworker/MMOde.js:382-394 | a number naming a formula removes it, resets the solver (not solved, no cached y, record number 0, one forget) and keeps its number and text for the undo; any other answers `No recorded value` and changes nothing |
| `Odes.Ode.RestoreRecordedCommand` | mmworker/MMOde.js:399-408 | restoring splices formula `r{n}` with the saved text and an empty list in at n - 1, then resets, leaving record number 0 |
| `Odes.Ode.ValueForRecorded` | mmworker/MMOde.js:560-582 | a recorded value is the row-major matrix of its list; lists of unequal lengths give nothing and `recordLengthError` |
| `Odes.Ode.ColumnNameForRecorded` | mmworker/MMOde.js:590-603 | a column name exists only for the number of a recorded formula, and always for one when comments are not required |
| `Odes.Ode.SavedCachedYs` | mmworker/MMOde.js:155-165 | the cached y values are saved only when there are some, with missing numbers written as 0 |
| `Solvers.Renumbered` | mmworker/MMSolver.js:153-157 | every function from the given position on is numbered by its row plus the shift, and the ones before it are unchanged |
| `Solvers.AddedRow` | mmworker/MMSolver.js:153 | a row inside the list is used as it is; a missing, zero or too large row appends at the end |
| `Solvers.Added` | mmworker/MMSolver.js:151-167 | adding a function answers its 1-based row and lengthens the list by one; a negative row throws once the renaming loop has renumbered every function and runs past the first |
| `Solvers.AddedPlacesFunction` | mmworker/MMSolver.js:151-167 | the new function sits at its row, the ones before it are unchanged and the ones after it move down one and are renumbered |
| `Solvers.AddedKeepsNames` | mmworker/MMSolver.js:151-167 | after an add, every function is numbered by its row |
| `Solvers.ShiftNumbersUp` | mmworker/MMSolver.js:154-158 | the renaming loop numbers every function from the insertion point on one higher, and throws exactly for a row below 1 |
| `Solvers.RemovedAsWritten` | mmworker/MMSolver.js:173-187 | as written, removing a function in the list shortens it by one and then throws; a row past the end changes nothing |
| `Solvers.RemovedAsWrittenBreaksNames` | mmworker/MMSolver.js:173-187 | as written, removing the first of two functions throws and leaves the remaining one misnumbered |
| `Solvers.FunctionRemoved` | mmworker/MMSolver.js:173-187 | as intended, a row inside the list removes one function and any other changes nothing |
| `Solvers.RemovedKeepsNames` | mmworker/MMSolver.js:173-187 | as intended, after a removal the later functions move up and every function is numbered by its row |
| `Solvers.RemoveUndoesAdd` | mmworker/MMSolver.js:151-187 | removing a function just added at a row gives back the list |
| `Solvers.Restored` | mmworker/MMSolver.js:258-270 | restoring adds a function at the saved number, as `addFunction` answers |
| `Solvers.RestoreUndoesRemove` | mmworker/MMSolver.js:239-270 | restoring a removed function puts it back in its row with its formulas, its outputs reset to `[1]` |
| `Solvers.AddUndoRowParses` | mmworker/MMSolver.js:230 | the add's undo row, written with a stray `}`, still reads back as the row |
| `Solvers.LeadingDigitsThenOther` | mmworker/MMSolver.js:223 | a number is read from the leading digits and stops at the first other character |
| `Solvers.Zeros` | mmworker/MMSolver.js:312 | resized outputs are filled with zeros |
| `Solvers.OutputsFor` | mmworker/MMSolver.js:307-320 | a count that is not a number gives `[0]`; a count that differs from the outputs' length gives that many zeros, and a negative one throws |
| `Solvers.FirstBadCount` | mmworker/MMSolver.js:326-335 | resetting stops at the first function whose count throws, every one before it succeeding |
| `Solvers.ResetLoop` | mmworker/MMSolver.js:326-335 | the loop over the functions resets each one's outputs up to the first bad count |
| `Solvers.ResetZeroesOutputs` | mmworker/MMSolver.js:326-335 | after a reset every output is zero and nothing else in a function changes |
| `Solvers.DescribedBy` | mmworker/MMSolver.js:452-500 | an empty description, or a solver without functions, answers the tool; a count, error or output description answers a function number inside the list |
| `Solvers.DescribedByCount` | mmworker/MMSolver.js:464-473 | `c{n}` names function n's count exactly when n is inside the list, and nothing otherwise |
| `Solvers.DescribedByError` | mmworker/MMSolver.js:479-488 | `f{n}` names function n's error exactly when n is inside the list, and nothing otherwise |
| `Solvers.DescribedByOutputs` | mmworker/MMSolver.js:489-500 | `{n}` names function n's outputs exactly when n is inside the list, and nothing otherwise |
| `Solvers.Solver.constructor` | mmworker/MMSolver.js:22-35 | a new solver has exactly one function, is disabled, not converged and not in error |
| `Solvers.Solver.SetEnabled` | mmworker/MMSolver.js:207-215 | the state is stored, and an enabling that is a change clears the error unless the solver has converged |
| `Solvers.Solver.ForgetWhileDisabled` | mmworker/MMSolver.js:351-391 | a disabled solver that forgets drops its requestors and is neither converged nor in error |
| `Solvers.Solver.AddFunction` | mmworker/MMSolver.js:151-167 | the solver is disabled and the function added as `Added` says |
| `Solvers.Solver.RemoveFunctionAsWritten` | mmworker/MMSolver.js:173-187 | the solver is disabled with its error flag unchanged, and the list changed as `RemovedAsWritten` says |
| `Solvers.Solver.RemoveFunction` | mmworker/MMSolver.js:173-187 | the solver is disabled; a row inside the list removes that function and makes the solver forget, any other changes nothing else |
| `Solvers.Solver.AddFunctionCommand` | mmworker/MMSolver.js:222-233 | the command adds at the row read from its argument and answers the row with the undo `path removefunction row}`; the solver ends disabled |
| `Solvers.Solver.RemoveFunctionCommand` | mmworker/MMSolver.js:239-251 | the intended behaviour (see Findings, mmworker/MMSolver.js:173-187): the last function is never removed; a row outside the list reports `solverRemoveRowError`; in both cases the solver's flags are unchanged; otherwise the function is removed and saved for the undo, and the solver is disabled, not converged and forgotten |
| `Solvers.Solver.RestoreFunctionCommand` | mmworker/MMSolver.js:258-270 | restoring adds the function back, reporting `solverRestoreError` when that throws; the solver ends disabled |
| `Solvers.Solver.GetOutputs` | mmworker/MMSolver.js:307-320 | function n's outputs become those its count gives, and stay when that throws |
| `Solvers.Solver.ResetOutputs` | mmworker/MMSolver.js:326-335 | the solver is disabled and every function's outputs are reset up to the first bad count; with no bad count the reset succeeds, the solver forgets and is neither converged nor in error; a bad count makes the reset fail with a RangeError, the tool state and the converged and error flags unchanged |
| `Solvers.RenumberFrom` | mmworker/MMSolver.js:180-184 | the intended renaming loop numbers every function from the given position on by its row |
| `Reports.Separator` | mmworker/MMReport.js:33-43 | the separator is the one given, else a comma for CSV or a table copy, else a space |
| `Reports.Replaced` | mmworker/MMReport.js:83-86 | replacing a character changes exactly its occurrences and keeps the length |
| `Reports.PadStart` | mmworker/MMReport.js:103 | padding adds spaces in front up to the width and leaves longer text alone |
| `Reports.ReportStringQuoted` | mmworker/MMReport.js:80-94 | outside CSV text is unchanged and empty text stays empty; in CSV it is wrapped in double quotes, with inner double quotes turned into single ones and, outside a table copy, newlines into spaces |
| `Reports.HeaderString` | mmworker/MMReport.js:96-107 | in CSV a header is quoted as any string |
| `Reports.HeaderStringWidth` | mmworker/MMReport.js:96-107 | outside CSV a header is its first 14 characters padded in front to width 14 and wrapped in quotes |
| `Reports.HeaderIntegerReadsBack` | mmworker/MMReport.js:69-78 | a header integer ends with the number's numeral, unpadded in CSV and padded in front with spaces to width 14 otherwise |
| `Reports.NameFields` | mmworker/MMReport.js:214-219 | the first header line has one field per column, its name |
| `Reports.UnitFields` | mmworker/MMReport.js:221-238 | the second header line has one field per column, `string` for a string column and its unit's name otherwise |
| `Reports.CellFields` | mmworker/MMReport.js:231-253 | a row has one field per column, that column's cell |
| `Reports.RowLabel` | mmworker/MMReport.js:227-229 | a row starts with its padded number exactly when the report is not a table copy |
| `Reports.RowLines` | mmworker/MMReport.js:226-256 | the report has one line per row of the table |
| `Reports.HeadLines` | mmworker/MMReport.js:210-239 | a table copy starts with `table,en`; then come the names line and the units line |
| `Reports.TableLinesLayout` | mmworker/MMReport.js:210-258 | a table's report is its header lines followed by one line per row, each the fields joined by the separator |
| `Reports.RowFieldsOf` | mmworker/MMReport.js:227-254 | the loop over the columns builds the row's label and cells |
| `Reports.RowLinesOf` | mmworker/MMReport.js:226-256 | the loop over the rows builds every row line |
| `Reports.HeadLinesOf` | mmworker/MMReport.js:210-239 | the loops over the columns build the header lines |
| `Reports.TableReport` | mmworker/MMReport.js:210-258 | a table's report is its lines joined by newlines |
| `Reports.NumberCellIndexPastEnd` | mmworker/MMReport.js:181 | as written, the only cell of a 1 × 1 number value is read at index 2, past the end of its cells |
| `Reports.NumberCellIndexInRange` | mmworker/MMReport.js:181 | as intended, cell (i, j) is read at index `(i - 1) * columns + (j - 1)`, inside the cells, in row i - 1 and column j - 1 |
| `Reports.StringRowLabelThrows` | mmworker/MMReport.js:132 | as written, a string value's row label is formatted without the options, which throws |
| `Reports.StringRowLabel` | mmworker/MMReport.js:132 | as intended, a string value's row label is its padded number, quoted in CSV |
| `HtmlTags.CloseFrom` | mmworker/MMHtmlPage.js:453-455 | a found position closes a tag at or after the given point, and no earlier position does (the lazy `.*?` match ends at the first `</mm>`) |
| `HtmlTags.CloseFromFindsFirst` | mmworker/MMHtmlPage.js:453-455 | whenever some `</mm>` closes after the point, the search finds one no later than it |
| `HtmlTags.TagAt` | mmworker/MMHtmlPage.js:453-455 | a tag found at a position opens with `<mm>` there, ends just after a `</mm>`, spans at least nine characters and crosses no line terminator (`.` does not match one) |
| `HtmlTags.NextTag` | mmworker/MMHtmlPage.js:455-458 | the next match lies at or after the start point and is a whole tag |
| `HtmlTags.NextTagIsFirst` | mmworker/MMHtmlPage.js:455-458 | the match is the leftmost: no position between the start point and it starts a tag, and no result means no tag starts anywhere after the point |
| `HtmlTags.TagTextsOnOneLine` | mmworker/MMHtmlPage.js:453-465 | no formula text taken from a tag contains a line terminator |
| `HtmlTags.NoTagsUnchanged` | mmworker/MMHtmlPage.js:458-474 | HTML without `<mm>` is passed through unchanged and sets no tag formula |
| `HtmlTags.TagIsWhole` | mmworker/MMHtmlPage.js:465 | the formula text is exactly the tag without its `<mm>` and `</mm>` markers |
| `HtmlTags.ExpandedStep` | mmworker/MMHtmlPage.js:458-471 | the output is the text before the next tag, then that tag's shown value, then the expansion of the rest; the tag's text is the next formula |
| `HtmlTags.ExpandedEnd` | mmworker/MMHtmlPage.js:472-474 | with no tag left, the rest of the HTML is copied as it stands |
| `HtmlTags.ExpandedAsItself` | mmworker/MMHtmlPage.js:458-474 | if every tag showed its own text, expansion would give back the raw HTML |
| `HtmlTags.ExpandedUsesOnlyTags` | mmworker/MMHtmlPage.js:464-469 | the output depends on the formula values only through the texts of the tags that occur |
| `HtmlTags.TagFormulasAfter` | mmworker/MMHtmlPage.js:461-466 | the tag formula list grows to the number of tags; the first ones hold the tag texts in order and any surplus old formulas are kept |
| `HtmlTags.WrittenFromIsAfter` | mmworker/MMHtmlPage.js:458-471 | writing tags one at a time from any point gives the same list as writing them all at once |
| `HtmlTags.AllWritten` | mmworker/MMHtmlPage.js:458-471 | the loop that writes tag texts into the formula list ends with the list the whole pass defines |
| `HtmlTags.ReadTag` | mmworker/MMHtmlPage.js:459-470 | one pass of the match loop emits a chunk and a formula text that, followed by the rest, make up the whole expansion |
| `HtmlTags.ExpandTags` | mmworker/MMHtmlPage.js:451-475 | the processed HTML is the raw HTML with each tag replaced by its value, and the tag formula list ends holding the tag texts |
| `HtmlInputs.NumberText` | mmworker/MMHtmlPage.js:242 | a posted text reads as a number only if it is not blank |
| `HtmlInputs.NumberTextRoundTrip` | mmworker/MMHtmlPage.js:242 | the decimal text of any integer reads back as that integer |
| `HtmlInputs.NumberTextOfWord` | mmworker/MMHtmlPage.js:242 | a text holding a letter is not a number and stays a string |
| `HtmlInputs.TrimKeepsLetter` | mmworker/MMHtmlPage.js:242 | trimming the spaces around a text keeps any letter in it |
| `HtmlInputs.Converted` | mmworker/MMHtmlPage.js:242 | a numeric text input becomes its number; every other input is kept as posted |
| `HtmlInputs.Differs` | mmworker/MMHtmlPage.js:246 | an input is new when nothing is stored under its name or when it is an array (compared by identity); an equal scalar is not new |
| `HtmlInputs.InputStep` | mmworker/MMHtmlPage.js:239-250 | one posted input creates the input map if needed and, exactly when it differs, stores the converted value under the lower-cased name; otherwise nothing changes |
| `HtmlInputs.InputsAfter` | mmworker/MMHtmlPage.js:237-250 | posting no inputs changes nothing and finds nothing new |
| `HtmlInputs.ApplyInputs` | mmworker/MMHtmlPage.js:237-250 | the input loop ends with the input map and the found-new flag that the posted inputs define |
| `HtmlInputs.UnchangedInputsKept` | mmworker/MMHtmlPage.js:246-253 | when no posted input was new, the stored inputs are exactly as before (so nothing is forgotten) |
| `HtmlInputs.UnpostedInputsKept` | mmworker/MMHtmlPage.js:239-250 | a name no posted input lower-cases to keeps its stored value |
| `HtmlInputs.InputStepKeeps` | mmworker/MMHtmlPage.js:240-249 | after one input, its lower-cased name holds the converted value or one equal to it, and every other name is untouched |
| `HtmlInputs.LastPostedKept` | mmworker/MMHtmlPage.js:239-250 | the last input posted under a name decides what is stored under that name |
| `HtmlInputs.RowCells` | mmworker/MMHtmlPage.js:206-209 | one table row becomes exactly the column count of cells, column by column |
| `HtmlInputs.TableCells` | mmworker/MMHtmlPage.js:204-211 | a posted table fills rows times columns cells |
| `HtmlInputs.TableCellsAt` | mmworker/MMHtmlPage.js:208 | cell (r, c) of the posted table lands at index `r*columnCount + c` |
| `HtmlInputs.FlattenTable` | mmworker/MMHtmlPage.js:204-211 | the nested copy loop produces the row-major cells of the posted table |
| `HtmlInputs.ArrayAnswer` | mmworker/MMHtmlPage.js:178-213 | a list input answers as a one-column matrix of its items, a table input as a matrix as wide as its first row; every answer has at least one row and column |
| `HtmlInputs.ZeroInputUnanswered` | mmworker/MMHtmlPage.js:170 | a posted "0" is stored as the number 0, which the source then fails to answer although the intended lookup answers 0 |
| `HtmlInputs.AnswerOf` | mmworker/MMHtmlPage.js:168-217 | a stored string or number answers as a scalar of that value and an array as its matrix; wherever the source answers, this answers the same |
| `HtmlInputs.AnswerOfAsWritten` | mmworker/MMHtmlPage.js:168-173 | as written the truthiness test leaves an empty string and the number 0 unanswered, and only those among scalars |
| `HtmlInputs.AnswerFor` | mmworker/MMHtmlPage.js:168-217 | the intended behaviour (see Findings, mmworker/MMHtmlPage.js:170): the lookup of a stored input returns the answer defined for it |
| `HtmlInputs.RowsOf` | mmworker/MMHtmlPage.js:280-286 | the first n rows of a row-major cell list, each cut at the column count |
| `HtmlInputs.RowsAt` | mmworker/MMHtmlPage.js:284 | cell (r, c) of the reply rows is cell `r*columnCount + c` of the result |
| `HtmlInputs.RowVectorReplyLosesCells` | mmworker/MMHtmlPage.js:288-293 | for a one-row, three-column result the source replies with the first cell only, while the intended reply holds all three |
| `HtmlInputs.RequestReply` | mmworker/MMHtmlPage.js:267-296 | a formula without a value replies blank; a non-matrix or empty result replies undefined, and only those do |
| `HtmlInputs.RequestReplyAsWritten` | mmworker/MMHtmlPage.js:273-293 | as written a one-row result of several columns replies with its first cell only; every other result replies as `RequestReply` does |
| `HtmlInputs.RowsReplyOf` | mmworker/MMHtmlPage.js:278-286 | the row-building loop yields the rows of the result matrix |
| `HtmlInputs.TableRoundTrip` | mmworker/MMHtmlPage.js:194-211 | a rectangular table posted as an input and sent back as a reply comes back as the same rows |
| `HtmlInputs.ReplyKeepsCells` | mmworker/MMHtmlPage.js:273-293 | the reply to a matrix result holds all of its cells in row-major order |
| `HtmlInputs.PutThenLookup` | mmworker/MMHtmlPage.js:261 | storing under a key makes the key look up to that value and leaves other keys alone |
| `HtmlInputs.SortRequests` | mmworker/MMHtmlPage.js:256-299 | the intended behaviour (see Findings, mmworker/MMHtmlPage.js:288-293): the request loop ends with the replies and actions the requests define |
| `HtmlInputs.RequestAnswered` | mmworker/MMHtmlPage.js:264-296 | the intended behaviour (see Findings, mmworker/MMHtmlPage.js:288-293): each formula request, if not repeated later, is answered with the reply to its evaluated formula under its own name |
| `HtmlInputs.ActionCollected` | mmworker/MMHtmlPage.js:260-262 | each `mm_` request, if not repeated later, is recorded as an action under its lower-cased name |
| `HtmlInputs.FormulaNotAction` | mmworker/MMHtmlPage.js:260-262 | a name not starting with `mm_` is never recorded as an action |
| `HtmlPages.BadActions` | mmworker/MMHtmlPage.js:370-372 | one `mmcmd:htmlBadAction` per unknown action at most, each naming that action and the page's path |
| `HtmlPages.Clears` | mmworker/MMHtmlPage.js:355-360 | `mm_clear` with an argument counts at most once per action |
| `HtmlPages.UpdateAsked` | mmworker/MMHtmlPage.js:351-353 | a rebuilt page is asked for exactly when some action is `mm_update` |
| `HtmlPages.KnownActionsNoError` | mmworker/MMHtmlPage.js:305-373 | a run of known actions records no error |
| `HtmlPages.OneErrorPerUnknownAction` | mmworker/MMHtmlPage.js:370-372 | appending an unknown action appends exactly one `mmcmd:htmlBadAction` naming it |
| `HtmlPages.ActionStep` | mmworker/MMHtmlPage.js:305-374 | errors, clears and the update request of a prefix grow by exactly what the next action contributes |
| `HtmlPages.ActionsEffectStep` | mmworker/MMHtmlPage.js:305-374 | running actions one more step applies that action's effect to the state so far |
| `HtmlPages.ActionsEffectSums` | mmworker/MMHtmlPage.js:305-374 | running all the actions appends their bad-action errors, forgets once per clear, and empties the requestors if any clear ran; nothing else in the tool changes |
| `HtmlPages.Processed` | mmworker/MMHtmlPage.js:451-475 | a page with source is the posting script followed by the source with tags expanded; without source there is no page |
| `HtmlPages.ProcessedAsItself` | mmworker/MMHtmlPage.js:451-475 | if tags showed their own text, the page would be the script followed by the unchanged source |
| `HtmlPages.InputValue` | mmworker/MMHtmlPage.js:168-217 | the intended behaviour (see Findings, mmworker/MMHtmlPage.js:170): a name with no kept input has no value; a kept input answers with its value |
| `HtmlPages.PostedNumberAnswered` | mmworker/MMHtmlPage.js:237-250 | the intended behaviour (see Findings, mmworker/MMHtmlPage.js:170): after a number is posted under a name, asking for that name answers the number (unless an equal text was already kept) |
| `HtmlPages.HtmlPage.constructor` | mmworker/MMHtmlPage.js:22-29 | a new page has an empty formula, no tag formulas, no inputs and no HTML, over a fresh tool |
| `HtmlPages.HtmlPage.ForgetCalculated` | mmworker/MMHtmlPage.js:125-140 | forgetting clears the requestors, forgets the tool's values and drops both the raw and the processed HTML |
| `HtmlPages.HtmlPage.HtmlForRequestor` | mmworker/MMHtmlPage.js:444-480 | a cached page is kept as it is; otherwise the source (kept, or the formula's value) is processed and the tag formulas take the tag texts; the requestor is remembered whenever there is a page, and the page is returned |
| `HtmlPages.HtmlPage.ValueDescribedBy` | mmworker/MMHtmlPage.js:148-222 | the intended behaviour (see Findings, mmworker/MMHtmlPage.js:170): `''` answers the tool, `html` the processed page (building it if needed), `myformula` the formula text, any other name the input kept under it; only `html` may change the HTML, and the requestor is remembered exactly when there is an answer |
| `HtmlPages.HtmlPage.TakeInputs` | mmworker/MMHtmlPage.js:237-254 | the inputs become those the posted ones define, and the page forgets its values exactly when one of them was new |
| `HtmlPages.HtmlPage.RunAction` | mmworker/MMHtmlPage.js:306-372 | `mm_update` asks for a rebuild; `mm_clear` with an argument drops the inputs and forgets; other known actions change nothing here; an unknown action records its error |
| `HtmlPages.HtmlPage.RunActions` | mmworker/MMHtmlPage.js:305-374 | the action loop asks for a rebuild exactly when some action is `mm_update`, leaves the tool in the summed effect of the actions, and drops inputs and HTML exactly when a clear ran |
| `HtmlPages.HtmlPage.Action` | mmworker/MMHtmlPage.js:230-382 | the intended behaviour (see Findings, mmworker/MMHtmlPage.js:288-293): a message that is not JSON records `mmcmd:htmlBadActionJson`, answers nothing and keeps the page's html and the rest of the tool state; otherwise it answers as `Respond` does |
| `HtmlPages.HtmlPage.Respond` | mmworker/MMHtmlPage.js:230-382 | the intended behaviour (see Findings, mmworker/MMHtmlPage.js:288-293) for a parsed message: the inputs are taken, the requests answered, the actions run, the update flag is set when there is neither callback nor action or when `mm_update` asks; the tool state is the old one with the bad actions' messages added, and, exactly when an input was taken or an action clears, the requestors dropped, the forgets counted and the html cleared |
| `DataTables.ColumnName` | mmworker/MMDataTable.js:230-233 | a given name is kept; an empty one becomes `Field_n` with n one more than the column count |
| `DataTables.FabricatedNamesDiffer` | mmworker/MMDataTable.js:230-233 | names fabricated at different column counts differ |
| `DataTables.EmptyValue` | mmworker/MMTableValue.js:58-147 | a new column holds no rows, and holds strings exactly when its unit is `string` |
| `DataTables.ZeroSource` | mmworker/MMDataTable.js:238-241 | the fill value is a number column as long as the table |
| `DataTables.NewColumnAsWritten` | mmworker/MMDataTable.js:234-243 | the appended column, as written, has the given name and as many rows as the table |
| `DataTables.NewColumn` | mmworker/MMDataTable.js:234-243 | the intended new column has the table's row count, holds strings exactly for the `string` unit, and is filled with zeros of the unit's dimensions or with empty strings |
| `DataTables.StringColumnCounterexample` | mmworker/MMDataTable.js:237-243 | a string column added to a one-row table comes out, as written, holding the number 0, where the intended column holds an empty string |
| `DataTables.Moved` | mmworker/MMDataTable.js:364-370 | moving a column keeps the column count |
| `DataTables.MovedPermutes` | mmworker/MMDataTable.js:366-368 | a move keeps exactly the same columns |
| `DataTables.MovedLands` | mmworker/MMDataTable.js:366-368 | the moved column lands at the target position, or last when the target is past the end |
| `DataTables.MoveBackRestores` | mmworker/MMDataTable.js:364-370 | moving the column back from where it landed restores the order |
| `DataTables.MoveUndo` | mmworker/MMDataTable.js:385 | the intended undo starts from a valid position exactly when the move itself was valid |
| `DataTables.MoveUndoRestores` | mmworker/MMDataTable.js:384-385 | replaying the intended undo after a move gives back the original columns |
| `DataTables.MoveUndoCounterexample` | mmworker/MMDataTable.js:385 | with columns `abc`, moving 1 to 3 and replaying the recorded undo gives `cab` instead of `abc` |
| `DataTables.AddRowPass` | mmworker/MMDataTable.js:394-401 | the column loop keeps the column count, and a break happens before the last column has been counted a success |
| `DataTables.AddRowPassConsistent` | mmworker/MMDataTable.js:395-401 | in a table whose columns all have its row count the loop never breaks, and when it completes every column has one row more |
| `DataTables.AddRowToColumns` | mmworker/MMDataTable.js:394-401 | the loop over the columns ends with the columns and stop reason the pass defines |
| `DataTables.AddRowTypeErrorCounterexample` | mmworker/MMDataTable.js:393-417 | a unit mismatch in the second column leaves the first with an extra row; after a move, the next `addRow` breaks with one success, the case that reaches the missing `RowNumber` method |
| `DataTables.AddedRowNumber` | mmworker/MMDataTable.js:403-409 | row 0 and rows past the new count mean the last row; any other row number is reported as given |
| `DataTables.InsertDescending` | mmworker/MMDataTable.js:442 | inserting keeps the list descending and adds exactly the one number |
| `DataTables.SortDescending` | mmworker/MMDataTable.js:442 | the row numbers are sorted largest first and none is lost or added |
| `DataTables.RemovePass` | mmworker/MMDataTable.js:446-450 | removing a row visits the columns and keeps their count |
| `DataTables.RemoveRowsPass` | mmworker/MMDataTable.js:443-455 | the row loop keeps the column count |
| `DataTables.RemovePassConsistent` | mmworker/MMDataTable.js:446-450 | in a consistent table, an in-range row leaves every column without error, each one row shorter |
| `DataTables.RemoveRowsConsistent` | mmworker/MMDataTable.js:443-456 | in a consistent table removal throws nothing and stays consistent; the row count drops once per removed row, and only listed numbers in range are removed, in order |
| `DataTables.RemoveRowFromColumns` | mmworker/MMDataTable.js:446-450 | the column loop ends with the columns the pass defines |
| `DataTables.RemoveRowsFromColumns` | mmworker/MMDataTable.js:443-455 | the row loop ends with the outcome the pass defines |
| `DataTables.FirstNamedFrom` | mmworker/MMDataTable.js:283-288 | the first column at or after the start whose lower-cased name matches; no earlier one matches |
| `DataTables.WithoutColumnRemovesFirst` | mmworker/MMDataTable.js:283-288 | exactly the first column of that name is taken out and the rest kept; with none of that name nothing changes |
| `DataTables.RemoveColumnNamed` | mmworker/MMDataTable.js:281-288 | the splice loop removes the first column of that name |
| `DataTables.DataTable.constructor` | mmworker/MMDataTable.js:169-175 | a new table has no columns, no rows and only the insert formula as a child |
| `DataTables.DataTable.AddColumn` | mmworker/MMDataTable.js:229-247 | the child is registered under the lower-cased name; an unknown unit fails with `mmcmd:tableBadUnit` and keeps the columns; otherwise the intended new column is appended and its name returned |
| `DataTables.DataTable.AddColumnAsWritten` | mmworker/MMDataTable.js:229-247 | the same, appending the column as the code builds it |
| `DataTables.DataTable.MoveColumn` | mmworker/MMDataTable.js:364-370 | a valid move reorders the columns as `Moved`; an invalid one changes nothing |
| `DataTables.DataTable.AddRow` | mmworker/MMDataTable.js:393-420 | when every column took the row the count grows by one and the row number is reported; a throw is passed on; a break restores the columns that took the row and reports -1 |
| `DataTables.DataTable.AddRowAsWritten` | mmworker/MMDataTable.js:393-420 | as written, a break after at least one success ends in a TypeError from the missing method, leaving the columns changed |
| `DataTables.DataTable.RemoveRows` | mmworker/MMDataTable.js:440-457 | the table is left as the sorted row loop defines, and the removed row numbers are returned |
| `DataTables.DataTable.RemoveChildNamed` | mmworker/MMDataTable.js:279-297 | removal succeeds exactly for a known child; its column leaves the table, and the row count drops to 0 when no column is left |
| `DataTables.DataTable.RemoveChildVerbAsWritten` | mmworker/MMDataTable.js:279-296 | as written from the `removechild` verb: a known child is unfiled but the answer is false and the columns and row count are unchanged; an unknown name throws `cmd:childNotFound` and nothing changes |
| `DataTables.RemoveChildVerbCounterexample` | mmworker/MMDataTable.js:279-285 | on a table whose only column is `a`, the verb's removal answers false and keeps the column, where the intended removal drops it and leaves no rows |
| `DataTables.DataTable.RemoveChildNamedAsWritten` | mmworker/MMDataTable.js:279-280 | as written when called with a bare name, as the preview formula's removal does: the parent reads the name's `args` and throws a TypeError, removing nothing |
| `DataTables.DataTable.CheckCell` | mmworker/MMDataTable.js:520-526 | a cell is accepted exactly when its row and column are in range; otherwise `mmcmd:tableRowColumnError` |
| `DataTables.DataTable.CountDescribedBy` | mmworker/MMDataTable.js:637-645 | `nrow` gives the row count and `ncol` the column count, ignoring case; any other description is not a count |
| `DataTables.CheckedCellExists` | mmworker/MMDataTable.js:520-531 | in a consistent table a cell the range check accepts exists in its column |
| `DataTables.MakeColumn` | mmworker/MMDataTable.js:234-243 | builds the intended new column |
| `DataTables.MakeColumnAsWritten` | mmworker/MMDataTable.js:234-243 | builds the new column as the code does |
| `Graphs.Text` | mmworker/MMGraph.js:213 | an axis name is written as its prefix letter `x`, `y` or `z` followed by at least one character |
| `Graphs.RenamedLinesFrom` | mmworker/MMGraph.js:403-405 | lines before the start keep their names; each later line is renamed for its x axis with consecutive numbers |
| `Graphs.RenamedLines` | mmworker/MMGraph.js:473-476 | every y line is renamed `yn_k` after its position k |
| `Graphs.Renumbered` | mmworker/MMGraph.js:470-480 | renumbering sets the axis number and keeps how many y lines there are and whether there is a z line |
| `Graphs.RenumberedNamesOnly` | mmworker/MMGraph.js:470-480 | after renumbering, every axis of the x axis carries the new number's names and nothing but names changed |
| `Graphs.RenamedSame` | mmworker/MMGraph.js:147-152 | renaming a line to the name it has leaves it unchanged |
| `Graphs.RenumberedNamed` | mmworker/MMGraph.js:470-480 | renumbering an x axis to the number it is named after changes nothing |
| `Graphs.RenumberedTwice` | mmworker/MMGraph.js:470-480 | renumbering twice is the same as renumbering once to the last number |
| `Graphs.RenumberTo` | mmworker/MMGraph.js:470-480 | the renaming loop yields the renumbered x axis |
| `Graphs.Renumbering` | mmworker/MMGraph.js:1154-1156 | each x axis of a run is renumbered after its position in the run |
| `Graphs.RenumberedFrom` | mmworker/MMGraph.js:1171-1173 | axes before the start are kept; each later one is renumbered with consecutive numbers |
| `Graphs.XInserted` | mmworker/MMGraph.js:1153-1161 | inserting at a position puts a new axis of that number there, keeps the axes before it and renumbers the ones after it one up |
| `Graphs.XRemoved` | mmworker/MMGraph.js:1167-1175 | removing an axis keeps the axes before it and renumbers the ones after it one down |
| `Graphs.NewXNamed` | mmworker/MMGraph.js:212-224 | a new x axis is named after its number, has one y line, and has a z line exactly in a 3D graph |
| `Graphs.XAddedKeepsNames` | mmworker/MMGraph.js:1140-1146 | adding an x axis keeps every axis named after its position, and adds exactly one |
| `Graphs.XInsertedKeepsNames` | mmworker/MMGraph.js:1153-1161 | inserting an x axis keeps every axis named after its position |
| `Graphs.XInsertedKeepsContent` | mmworker/MMGraph.js:1153-1161 | inserting keeps every graph with a y line per axis so, and the moved axes keep their content |
| `Graphs.XRemovedKeepsNames` | mmworker/MMGraph.js:1167-1175 | removing an x axis keeps every axis named after its position, and the moved axes keep their content |
| `Graphs.RemoveUndoesInsert` | mmworker/MMGraph.js:1153-1175 | removing the axis just inserted gives the graph back |
| `Graphs.RenumberedBack` | mmworker/MMGraph.js:470-480 | renumbering one up and back down restores a well-named x axis |
| `Graphs.InsertX` | mmworker/MMGraph.js:1153-1158 | the renumbering loop and splice produce the inserted list |
| `Graphs.RemoveX` | mmworker/MMGraph.js:1170-1173 | the splice and renumbering loop produce the list without the axis |
| `Graphs.ShiftXUp` | mmworker/MMGraph.js:1154-1156 | the loop renumbers the axes from the position on one up |
| `Graphs.RenumberXFrom` | mmworker/MMGraph.js:1171-1173 | the loop renumbers the axes from the start on after their positions |
| `Graphs.YInserted` | mmworker/MMGraph.js:402-410 | inserting a y line adds exactly one line and keeps the z line |
| `Graphs.YInsertedAsWritten` | mmworker/MMGraph.js:402-410 | as written the new line adds one line and keeps the z line, but is named `yn_{index+1}`, the same name as the line it pushed along |
| `Graphs.YRemoved` | mmworker/MMGraph.js:416-424 | removing a y line takes exactly one line away and keeps the z line |
| `Graphs.LinesAfterRemovalAsWritten` | mmworker/MMGraph.js:416-424 | as written the renaming fails with `nameAlreadyUsed` exactly when a line follows the one moved up; otherwise one line fewer, with the moved line keeping its old name |
| `Graphs.YAddedKeepsNames` | mmworker/MMGraph.js:389-395 | adding a y line keeps the x axis named after its number, with one more line |
| `Graphs.YInsertedKeepsNames` | mmworker/MMGraph.js:402-410 | with the new line named after its position, every line is named after its position and the old lines keep their content and order |
| `Graphs.YInsertedAt` | mmworker/MMGraph.js:402-410 | after an insertion, the lines before the index are unchanged, the new line sits at the index, and each later line is the old one renamed one number up |
| `Graphs.YRemovedKeepsNames` | mmworker/MMGraph.js:416-424 | with renaming from the removed position on, every line is named after its position and the others keep their content and order |
| `Graphs.InsertedLineNameClash` | mmworker/MMGraph.js:403-406 | as written, inserting at position 1 next to one line gives the new line and the old one the same name `y1_2` |
| `Graphs.RemovedLineKeepsOldName` | mmworker/MMGraph.js:419-422 | as written, removing the first of two lines leaves the other named `y1_2` at position 1; with three lines the renaming asks for a name in use |
| `Graphs.AxisFromName` | mmworker/MMGraph.js:965-986 | a found axis exists in the graph and is of the kind the prefix letter names; a name shorter than two characters finds nothing |
| `Graphs.AxisFromParts` | mmworker/MMGraph.js:968-985 | an axis found from the parsed numbers exists and is of the prefix's kind |
| `Graphs.TextInjective` | mmworker/MMGraph.js:213 | different axis names are written differently |
| `Graphs.AxisFromNameFindsAxis` | mmworker/MMGraph.js:965-986 | in a well-named graph, looking up the name of any axis finds that axis |
| `Graphs.XNameFound` | mmworker/MMGraph.js:974-977 | `xn` finds the n-th x axis |
| `Graphs.ZNameFound` | mmworker/MMGraph.js:978-980 | `zn` finds the z line of the n-th x axis when it has one |
| `Graphs.YNameFound` | mmworker/MMGraph.js:981-983 | `yn_i` finds line i of the n-th x axis |
| `Graphs.AxisFromNameShape` | mmworker/MMGraph.js:965-986 | the lookup depends only on how many axes and lines the graph has |
| `Graphs.LineTypeIndex` | mmworker/MMGraph.js:997-998 | the index of a type name among `line`, `scatter`, `bar`, `bar+dot`, and -1 exactly for any other word |
| `Graphs.WithLineType` | mmworker/MMGraph.js:1001 | setting a line type changes only that line's type and no other x axis |
| `Graphs.WithLineTypeUndone` | mmworker/MMGraph.js:1000-1001 | setting the old type back restores the graph |
| `Graphs.LineTypeRequest` | mmworker/MMGraph.js:993-999 | a request is accepted only with two words, the first naming an existing y or z line and the second one of the four type names |
| `Graphs.LineTypeUndoRestores` | mmworker/MMGraph.js:1000-1001 | running the recorded undo command after a change sets the line's old type back |
| `Graphs.LineTypeNameWord` | mmworker/MMGraph.js:997-1000 | each type name is one word that reads back as its own index |
| `Graphs.YLineDescribed` | mmworker/MMGraph.js:602-628 | a `y` description selects only an existing y line |
| `Graphs.YDescriptionWithoutUnderscore` | mmworker/MMGraph.js:611-619 | `yk` selects line k of the first x axis in a 2D graph, and line 1 of x axis k in a 3D graph |
| `Graphs.YDescriptionOfName` | mmworker/MMGraph.js:607-610 | a full line name `yn_i` selects that line in any graph |
| `Graphs.ColumnNameForAxis` | mmworker/MMGraph.js:1194-1203 | a formula without a quote is its own column name; one with a quote gives its comment name |
| `Graphs.Graph.constructor` | mmworker/MMGraph.js:493-497 | a new graph has the one axis `x1` with line `y1_1`, is well named, and has forgotten twice |
| `Graphs.Graph.ForgetCalculated` | mmworker/MMGraph.js:551-569 | the requestors are dropped and the tool forgets once; nothing else changes |
| `Graphs.Graph.ForgetCreation` | mmworker/MMGraph.js:212-224 | building an x axis forgets once for its y line and once more for a z line |
| `Graphs.Graph.AddXValue` | mmworker/MMGraph.js:1140-1146 | a new axis numbered after the last is appended and returned, with the forgets its creation and the append cause |
| `Graphs.Graph.AddXValueAtIndex` | mmworker/MMGraph.js:1153-1161 | the axes become the inserted list and the new axis is returned |
| `Graphs.Graph.RemoveXValueAtIndexAsWritten` | mmworker/MMGraph.js:1167-1178 | as written, a removal the guard lets through throws a TypeError; otherwise the warning is recorded |
| `Graphs.Graph.RemoveXValueAtIndex` | mmworker/MMGraph.js:1167-1178 | with more than one axis and an index in range the axis is removed and the rest renumbered; past the end it throws; with one axis the warning is recorded and nothing changes |
| `Graphs.Graph.AddYLine` | mmworker/MMGraph.js:389-395 | a line numbered after the last is appended to that x axis and returned, and the graph forgets |
| `Graphs.Graph.AddYLineAtIndex` | mmworker/MMGraph.js:402-410 | the intended behaviour (see Findings, mmworker/MMGraph.js:403-406): the x axis gets the inserted line named after its position, which is returned |
| `Graphs.Graph.RemoveYLineAtIndexAsWritten` | mmworker/MMGraph.js:416-427 | as written, every call throws a TypeError |
| `Graphs.Graph.RemoveYLineAtIndex` | mmworker/MMGraph.js:416-427 | a line in range, when not the only one, is removed and the later lines renamed; otherwise the warning is recorded and nothing changes |
| `Graphs.Graph.AddZLine` | mmworker/MMGraph.js:434-438 | the x axis gets a new `zn` line, which is returned, and the graph forgets |
| `Graphs.Graph.RemoveZLine` | mmworker/MMGraph.js:443-449 | the intended behaviour (see Findings, mmworker/MMGraph.js:157-161): an existing z line is removed and the graph forgets; without one nothing changes |
| `Graphs.Graph.RemoveZLineAsWritten` | mmworker/MMGraph.js:443-449 | as written, removing an existing z line throws a TypeError from `removeChildren`; without one nothing happens |
| `Graphs.Graph.SetLineTypeCommand` | mmworker/MMGraph.js:992-1009 | an accepted request sets the type and records the undo command; any other records `mmcmd:?graphSetLineType` and changes nothing |
| `Graphs.ShiftLinesUp` | mmworker/MMGraph.js:403-405 | the loop renames the lines from the position on one number up |
| `Graphs.RenameLinesFrom` | mmworker/MMGraph.js:420-422 | the loop renames the lines from the start on after their positions |
| `Graphs.GraphOperationsKeepNames` | mmworker/MMGraph.js:389-449 | the intended behaviour (see Findings, mmworker/MMGraph.js:403-406, mmworker/MMGraph.js:419-422 and mmworker/MMGraph.js:157-161): adding, inserting or removing a y line and adding or removing a z line keep every axis named after its position |
| `Graphs.ReplacedKeepsNames` | mmworker/MMGraph.js:470-480 | replacing an x axis by one named after the same number keeps the graph well named |

## Left out

- Floating point: element values are integers. NaN and `parseFloat` are not modelled as such. Where a tool parses a cell's text as a number, the parse is a parameter (`string -> Option<int>`); the formula parser's `filterFloat` is the fixed function `Formulas.FilterFloat` described below.
- The regular-expression tokenizer of `parseFormula`: the parser takes the token list as input. The pattern filter of `listChildNames` is an abstract predicate (`Matcher`).
- Unit conversions by scale and offset, including the scale products of `parseDefinition`: scale factors and offsets are kept as text. `areDimensionsEqual` is equality of the exponent sequences.
- A unit description whose calc type or exponent is not a number (NaN in the engine) gives `BadDescription` rather than a unit with NaN fields.
- Formula evaluation: the `value()` of every operator except the range operator. Formulas whose values a tool needs (counts, labels, tag formulas, script text, default cell values) reach the model as inputs or parameters.
- The default-unit decoration the formula setter applies to a bare number.
- The floating-point routines of `MMNumberValue`: LU decomposition, inversion, eigen routines, statistics and distributions, `mktime`/`date`, and rotation matrices. `MMOptimizer` and `MMMath` are left out for the same reason.
- `MMOdeSolver`: the multistep integrator. Finding solver outputs that zero the error formulas (`MMSolver.solve`) is also left out. Only the bookkeeping around both is modelled.
- Iterator status callbacks and timing.
- Matrix tool: `calculateValue` is modelled as one row-major sweep whose value is stored, and whose knowns are cleared, after the sweep, not cell by cell. An evaluation that re-enters the matrix during the sweep is not modelled.
- MatrixTools.MatrixTool.CalculateValue: the current cell that the sweep sets for each cell it evaluates (mmworker/MMMatrix.js:558-559) is not modelled; the method leaves `currentRow` and `currentColumn` as they were, because only relative references read them, and only while a cell is being evaluated.
- Report: number formatting (`float`, fixed-point output). Number cells reach the layout already formatted.
- Legacy interpreter: the writable typed properties (string, int, float, boolean) that subclasses of the earlier `CommandObject` may declare are left out. The objects modelled have only the read-only built-in properties, which `setValue` refuses.
- HTML page: decimals, exponents and hexadecimal numbers in posted inputs are left out. So is the single-element-array coercion of a posted value.
- HTML page: action arguments other than strings are left out. Actions aimed at sibling tools (`view`, `push`, `addrow`, `deleterows`, `refresh`, `load`) are recorded in the reply, not carried out.
- HTML page: of the exceptions `action` can raise, only the JSON parse error is modelled. Also left out: the `forgetRecursionBlock` guard, `retainCurrentHtml`, and `htmlValue` of a page value that is not a string.
- HTML page: `saveObject`/`initFromSaved`, `inputSources` and `toolViewInfo`.
- Graph: axis values and minimum/maximum evaluation are left out. `valueDescribedBy` answers for y lines only.
- Graph: formula children and the `renameChild` bookkeeping are modelled by their names only. `saveObject`/`initFromSaved`, `toolViewInfo`, `setUnitCommand`, `removeAxisCommand` and `restoreAxisCommand` are left out.
- Graphs.Graph.RemoveYLineAtIndex: an index outside the x axis's lines is refused with the `graphCantDeleteLast` warning. The model does not follow the engine's splice of an out-of-range index.
- Data table: `setCell`, including the evaluation of the cell formula, is left out; only its range checks are modelled. `renameChild`, `removeColumnCommand`/`restoreColumn`, `restoreRows`, `saveObject`, `toolViewInfo` and `tableValue` are left out too.
- Data table: a column's default value for a new row is an input (`inserts`), standing in for the evaluation of its default formula.
- Unit sets: the order of the type names `allTypeNames` returns is not modelled.
- Session storage: `MMSessionStorage` and the asynchronous load and save of a session (IndexedDB).
- Web Worker messaging, command pipes, dynamic module loading, the user interface and the service worker.
- The CoolProp binding `mmworker/emscripten_interface.cxx`, `MMFlash` and the CoolProp wrapper call an external engine and are not part of this model.
- UnitRegistry.UnitsContainer.constructor: the engine's constructor loads the master units (MMUnitSystem.js, `loadMasterUnits`); the model's container starts empty, and units reach it only through `AddUnit`.
- UnitSets.UnitSetsContainer.constructor: the engine's constructor loads the `PureSI`, `SI` and `US` sets and makes `SI` the default; the model's container starts with no sets and no default, and sets reach it only through `AddSet` and `CloneSet`.
- Units.TokenPart: a fractional exponent such as the `0.5` of `kg^0.5` is refused with `unitParseError`, because exponents are integers here; some master units are defined with such exponents.
- Formulas.NumberStep, Formulas.QuickUnit, Formulas.ParsedText, Formulas.Formula.ParseFormula and Formulas.QuickUnitAsWritten: unit names are looked up in a set of known names, and an unknown name gives `formulaBadUnit`. In the engine `unitNamed` tries to add any unknown name as a new unit, which files a stub and throws, so the parse throws and the stub stays; that path is not modelled.
- Formulas.FilterFloat: reads integers only, with an optional non-negative exponent after `e`. Decimals (`2.0`), negative exponents (`100e-2`) and `Infinity` are NaN here, though the engine reads them as numbers.
- Formulas.ParsedText: white-space-only text goes on to the token parse with an empty token list; in the engine the tokenising `match` gives `null` there, and reading its length throws.
- Commands.GetValue, Commands.SetValue, Commands.SetProperty, Tools.Tool.SetValue, LegacyCommands.GetValue, LegacyCommands.SetValue and LegacyCommands.SetProperty: underscore properties live in a map of their own, apart from the object's fields. In the engine `_name` reads and writes the field `name` itself, so `set _name z` renames an object without refiling it and `set _notes x` replaces a tool's notes without a forget. `set properties <json>`, which assigns every listed property and throws on text that is not JSON, is answered without a change.
- Commands.Perform: the tree stays well formed only because of the separation just described; the renaming through `_name` is not modelled.
- LegacyCommands.SetWords, LegacyCommands.SetProperty, LegacyCommands.CreateChild, LegacyCommands.RunScript and LegacyCommands.Processor.ProcessCommandString: built on the corrected `SplitArgs` and `ScriptLines`; the older processor carries the same two defects as the worker (see Findings, mmcmd/CommandProcessor.js:532 and mmcmd/CommandProcessor.js:155-156).
- Commands.CreateChildFromArgs, Commands.SetProperty and Commands.Processor.ProcessCommandString: built on the corrected `SplitArgs`, `OldValue` and `ScriptLines` (see Findings).
- LegacyCommands.Perform: `cd` goes through the corrected `ChangeDefault` (see Findings, mmcmd/CommandProcessor.js:68-78).
- MatrixCells.Placed, MatrixCells.AfterSetCell, MatrixCells.InputIsPlaced, MatrixTools.MatrixTool.Place and MatrixTools.MatrixTool.SetCellInput: built on the corrected reset test, so an input in error typed again with the same text is read again (see Findings, mmworker/MMMatrix.js:43-47).
- Solvers.Solver.RemoveFunctionCommand: removes the function as intended; as written `removeFunction` throws before the undo is set (see Findings, mmworker/MMSolver.js:173-187).
- HtmlInputs.AnswerFor, HtmlPages.InputValue, HtmlPages.PostedNumberAnswered and HtmlPages.HtmlPage.ValueDescribedBy: built on the corrected `AnswerOf`, which answers a kept `0` or `""` (see Findings, mmworker/MMHtmlPage.js:170).
- HtmlInputs.SortRequests, HtmlInputs.RequestAnswered, HtmlPages.HtmlPage.Action and HtmlPages.HtmlPage.Respond: built on the corrected `RequestReply`, which sends every cell of a one-row result (see Findings, mmworker/MMHtmlPage.js:288-293).
- HtmlInputs.Differs: a posted array is always taken as new; the engine's loose `!=` compares an array with a stored scalar through its comma-joined text.
- Graphs.Graph.AddYLineAtIndex, Graphs.Graph.RemoveZLine and Graphs.GraphOperationsKeepNames: built on the corrected naming and removal (see Findings, mmworker/MMGraph.js:403-406, mmworker/MMGraph.js:419-422 and mmworker/MMGraph.js:157-161).
- Reshape.Redimension, NumberValues.Redimension and ToolValues.ToolValue.Redimension: a negative column count that divides the value count is refused with `formulaRedimCountError`. The engine's test `valueCount % columnCount !== 0` lets it through and goes on to build a value with a negative row count.
- TableValues.AddRowResult: for a negative row of a string column the model, like the engine, puts an empty first row before the old ones and keeps no cell for the inserted text; the engine's write of that text to a negative index, a property of the array that is no cell, is not modelled.
- StringValues.StringValue.NumberValueAsWritten: the numbers written back into the string value are stored as their decimal text, since a cell of a string value holds text here.
- UnitRegistry.Stub: the stub has no dimensions; on the exponent-zero path the engine leaves the dimensions it had gathered so far.
- Solvers.Solver.RestoreFunctionCommand: the `solverRestoreError` message is built without the JSON text the engine passes as its argument.
- Strs.Lower, Strs.IsSpace and Strs.ParseInt: `Lower` lower-cases ASCII letters only, where `toLowerCase` covers all of Unicode; `IsSpace` knows six white-space characters, fewer than JavaScript's `\s`; `ParseInt` reads decimal digits only and refuses the `0x` prefix `parseInt` accepts.
- CommandText.Below: names are compared by Unicode scalar values; JavaScript's `sort()` compares UTF-16 code units, so names with characters outside the Basic Multilingual Plane may sort differently.
- Command trees are maps from names to children: the engine keeps children in a plain JavaScript object, where names such as `constructor` or `__proto__` find members of `Object.prototype`. That is not modelled.

## Findings

| source | as written | input that shows it | evidently intended | confidence | as-written member | corrected member |
|---|---|---|---|---|---|---|
| mmworker/MMDataTable.js:237-243 | a new string column in a table that already has rows is refilled with a number column | column `s` with unit `string` added to a table of one row holds the number `[0]` | a string column of empty strings, one per row | not executed | `DataTables.NewColumnAsWritten`, `DataTables.StringColumnCounterexample` | `DataTables.NewColumn` |
| mmworker/MMDataTable.js:410-416 | when a column does not take the new row after earlier columns did, the clean-up loop calls `column.RowNumber`, which does not exist, so a `TypeError` is thrown | columns `a` and `b` with one row; an `addRow` whose value for `b` has other units throws after `a` took the row; with the columns swapped, the next `addRow` stops after `b` and calls the missing method | the columns that took the row are given back their rows and `addRow` answers -1 | not executed | `DataTables.DataTable.AddRowAsWritten`, `DataTables.AddRowTypeErrorCounterexample` | `DataTables.DataTable.AddRow` |
| mmworker/MMDataTable.js:279-280 | the override hands its argument to the parent's `removeChildNamed`, which expects a command and returns nothing; from the `removechild` verb the child is unfiled, the override answers false and the column and row count stay, and from the preview formula's removal by name the parent reads the name's `args` and throws a `TypeError` | `removechild a` on a table whose only column is `a` unfiles `a` but keeps its column and its rows | the column leaves the table with its child, and the row count drops to 0 with the last column | not executed | `DataTables.DataTable.RemoveChildVerbAsWritten`, `DataTables.RemoveChildVerbCounterexample`, `DataTables.DataTable.RemoveChildNamedAsWritten` | `DataTables.DataTable.RemoveChildNamed` |
| mmworker/MMDataTable.js:385 | the undo of `movecolumn` repeats the move instead of reversing it | columns `a b c`, column 1 moved to 3 and then undone gives `c a b` | the undo restores `a b c` | not executed | `DataTables.MoveUndoAsWritten`, `DataTables.MoveUndoCounterexample` | `DataTables.MoveUndo`, `DataTables.MoveUndoRestores` |
| mmworker/MMFormula.js:3049-3050 | the unit of a number with a quoted unit is cut with `substring(1, length - 2)`, which drops the last letter of the unit | `3 "mm"` gives 3 m | 3 mm | not executed | `Formulas.QuotedUnitAsWritten`, `Formulas.QuickUnitAsWritten`, `FormulaProperties.QuotedUnitCounterexample` | `Formulas.QuotedUnit`, `Formulas.QuickUnit` |
| mmworker/MMFormula.js:3157-3169 | the reduce loop reads the precedence of the top of the operator stack without checking that the stack is not empty | the tokens `1 ) + 2` make the loop read a member of `undefined` | the loop stops at an empty stack and the parse reports the unbalanced parenthesis | not executed | `Formulas.ReducedAsWritten`, `FormulaProperties.EmptyOperatorStackCounterexample` | `Formulas.Reduced` |
| mmworker/MMFormula.js:2095-2098 | `eigvect`'s `processArguments` returns `super.processArguments(operandStack), 1`: the comma operator discards the check and always answers 1 | `eigvect()` is accepted with no arguments | the result of the argument check, which refuses an empty argument list | not executed | `Formulas.EigenVectorArgumentsAsWritten`, `FormulaProperties.EigenVectorCounterexample` | `Formulas.Arguments`, `FormulaProperties.MultipleArguments` |
| mmworker/MMCommandProcessor.js:579 | `splitArgs` splits on the pattern `/%s+/`, which matches the letters `%s` instead of white space | `_x  y` (two spaces) gives the words `_x`, ``, `y` | the words `_x` and `y` | not executed | `CommandText.SplitArgsAsWritten`, `CommandText.DoubleSpaceCounterexample` | `CommandText.SplitArgs`, `CommandText.SplitArgsGap` |
| mmworker/MMCommandProcessor.js:147-148 | the `;` separators are replaced by new lines with a non-global `replace`, so only the first is replaced | `a;b;c` gives the lines `a` and `b;c` | the lines `a`, `b` and `c` | not executed | `CommandText.SeparateAsWritten`, `CommandText.SemicolonCounterexample` | `CommandText.Separate`, `CommandText.SeparatedLines` |
| mmworker/mmunits/MMUnitSystem.js:722-732 | `addUnit` files the new unit under its name before its description is parsed, and a description that fails to parse leaves that stub unit behind | adding `m/xyz` with only `m` known | the container is left as it was | not executed | `UnitRegistry.UnitsContainer.AddUnitAsWritten`, `UnitRegistry.UnitsAfterAddAsWritten`, `UnitRegistry.FailedAddCounterexample` | `UnitRegistry.UnitsContainer.AddUnit`, `UnitRegistry.UnitsAfterAdd`, `UnitRegistry.AddKeepsConsistent` |
| mmworker/mmunits/MMUnitSystem.js:1064-1066 | removing the default unit set makes `this.childNamed['SI']` the new default, which indexes the method `childNamed` instead of calling it, so there is no default afterwards | sets `si` and a copy `si_2` that is the default; removing `SI_2` | `si` becomes the default | not executed | `UnitSets.UnitSetsContainer.RemoveSetNamedAsWritten`, `UnitSets.RemoveDefaultCounterexample` | `UnitSets.UnitSetsContainer.RemoveSetNamed`, `UnitSets.RemoveKeepsDefault` |
| mmworker/MMCommandProcessor.js:428-431 | the undo of `set` reads the old value under the whole name `_x`, but `setValue` stores an underscore property under the name after its `_`; the old value read is always empty, so the undo deletes the property | `_x` holds `1`, is set to `2`, and the set is undone: `_x` is gone | `_x` is `1` again | not executed | `Commands.OldValueAsWritten`, `Commands.SetUndoAsWrittenCounterexample` | `Commands.OldValue`, `Commands.SetUndoRestores` |
| mmcmd/CommandProcessor.js:68-78 | `cd` to a path that does not resolve formats its message with `this.t`, which the processor does not have, so a `TypeError` is thrown | `cd /x` in a tree with no `x` | the `cmd:cannotChangeDefault` message naming `/x` | not executed | `LegacyCommands.ChangeDefaultAsWritten`, `LegacyCommands.ChangeDefaultCounterexample` | `LegacyCommands.ChangeDefault` |
| mmworker/MMMatrix.js:43-47 | an input is re-read only when its text changes, so a cell in error typed again with the same text stays in error | a cell whose input `s` failed, typed `s` again after the cause is fixed | the input is re-read | not executed | `MatrixCells.ResetsAsWritten`, `MatrixCells.ErrorRetryBlocked` | `MatrixCells.NeedsReset`, `MatrixCells.RetypedErrorIsReread` |
| mmworker/MMHtmlPage.js:170 | an input is answered only when it is truthy, so a posted zero is treated as missing | the input `0` | the number 0 | not executed | `HtmlInputs.AnswerOfAsWritten`, `HtmlInputs.ZeroInputUnanswered` | `HtmlInputs.AnswerOf` |
| mmworker/MMHtmlPage.js:288-293 | a one-row reply is sent as a list of the first cell of each row | a 1 × 3 value `1 2 3` is replied as `[1]` | `[1, 2, 3]` | not executed | `HtmlInputs.RequestReplyAsWritten`, `HtmlInputs.RowVectorReplyLosesCells` | `HtmlInputs.RequestReply`, `HtmlInputs.ReplyKeepsCells` |
| mmworker/MMStringValue.js:283-296 | `numberValue` writes each parsed number into the string value itself and returns a value of zeros | the string value `5` | the number value 5 | not executed | `StringValues.StringValue.NumberValueAsWritten`, `StringValues.NumberValueCounterexample` | `StringValues.StringValue.NumberValue` |
| mmworker/MMTableValue.js:500-506 | the string branch of `keepRowNumbers` writes the i-th kept value to row `i` of the new value, whose rows are numbered from 1, so writing the first one fails the bounds check | a string column `a`, keeping the value at count 0 | the column `a` is kept | not executed | `TableValues.KeepResultAsWritten`, `TableValues.TableValueColumn.KeepRowNumbersAsWritten`, `TableValues.KeepRowNumbersCounterexample` | `TableValues.KeepResult`, `TableValues.TableValueColumn.KeepRowNumbers` |
| mmworker/MMSolver.js:173-187 | `removeFunction` splices the function out and then hands a name to `removeChildNamed`, which reads it as a command and throws, so the renumbering that should follow never runs | two functions, removing the first leaves a lone function still numbered 2 | the remaining functions are renumbered from 1 | not executed | `Solvers.RemovedAsWritten`, `Solvers.RemovedAsWrittenBreaksNames`, `Solvers.Solver.RemoveFunctionAsWritten` | `Solvers.FunctionRemoved`, `Solvers.RemovedKeepsNames`, `Solvers.RenumberFrom` |
| mmworker/MMReport.js:181 | in the report of a number value, the cell of row `i` and column `j` is read at `i * columnCount + j` with 1-based `i` and `j` | reporting a 1 × 1 number value reads offset 2 of a one-cell storage | the offset `(i - 1) * columnCount + (j - 1)` | not executed | `Reports.NumberCellIndexAsWritten`, `Reports.NumberCellIndexPastEnd` | `Reports.NumberCellIndex`, `Reports.NumberCellIndexInRange` |
| mmworker/MMReport.js:132 | in the report of a string value, the padded row number is passed to `string` without the options, which reads a member of them and throws | a 2 × 1 string value reported outside a table copy | the padded row number, formatted with the report's options | not executed | `Reports.StringWithoutOptions`, `Reports.StringRowLabelThrows` | `Reports.StringRowLabel` |
| mmworker/MMGraph.js:403-406 | `addYLineAtIndex` renumbers the lines from position `index` on and then names the new line `y{n}_{index + 1}`, the name the line after it has just been given | inserting at 1 into an axis with one line gives two lines named `y1_2` | the new line is named `y{n}_{index}` after its position | not executed | `Graphs.YInsertedAsWritten`, `Graphs.InsertedLineNameClash` | `Graphs.YInserted`, `Graphs.YInsertedKeepsNames` |
| mmworker/MMGraph.js:419-422 | the renaming loop of `removeYLineAtIndex` starts one line late, at the line after the one that moved into the gap | removing the first of two lines leaves line `y1_2` in position 1; with three lines the rename hits a name still in use | every line named by its position | not executed | `Graphs.LinesAfterRemovalAsWritten`, `Graphs.RemovedLineKeepsOldName` | `Graphs.YRemoved`, `Graphs.YRemovedKeepsNames` |
| mmworker/MMGraph.js:157-161 | `removeChildren` hands names to `removeChildNamed`, which reads them as commands and throws, so removing an x axis, a y line or a z line throws | removing any axis of a graph with more than one, or any z line | the axis and its formulas are removed | not executed | `Graphs.Graph.RemoveXValueAtIndexAsWritten`, `Graphs.Graph.RemoveYLineAtIndexAsWritten`, `Graphs.Graph.RemoveZLineAsWritten` | `Graphs.Graph.RemoveXValueAtIndex`, `Graphs.Graph.RemoveYLineAtIndex`, `Graphs.Graph.RemoveZLine` |
| mmworker/MMValue.js:117 | the bound error for a row index with no column index builds its arguments from `nCols`, which is not declared, so a `ReferenceError` is thrown | row 2 of a one-row value, with no column index | the `valueRowBoundError` message | not executed | `IndexSelect.SelectRowsAsWritten`, `IndexSelect.RowBoundCounterexample` | `IndexSelect.SelectRows` |
| mmcmd/CommandProcessor.js:532 | the older processor's `splitArgsString` has the same `/%s+/` pattern, which matches the letters `%s` instead of white space | `set _x  a` (two spaces) gives the words `_x`, `` and `a` | the words `_x` and `a` | not executed | `CommandText.SplitArgsAsWritten`, `CommandText.DoubleSpaceCounterexample` | `CommandText.SplitArgs`, `CommandText.SplitArgsGap` |
| mmcmd/CommandProcessor.js:155-156 | the older processor's `processCommandString` replaces `;` separators with the same non-global `replace`, so only the first is replaced | `a;b;c` gives the lines `a` and `b;c` | the lines `a`, `b` and `c` | not executed | `CommandText.SeparateAsWritten`, `CommandText.SemicolonCounterexample` | `CommandText.Separate`, `CommandText.SeparatedLines` |
