# burning profiling core, modelled in Dafny

This project models the profiling core of the `burning` library and proves properties of the model.

- **Phase** records one measured piece of work.
  - Its iterations each carry a label.
  - For every value name it keeps one value per iteration, in `_values`.
  - For every subphase name it keeps one subphase per iteration, in `_phases`.
  - It remembers whether an iteration is open, and when it began.
- **Profile** keeps the root phase and a stack of the phases that are open.
  - It records values, iterations, loops and phases on the innermost open phase.
  - It writes the tree to XML and reads it back.
  - It prints the tree as a series of tables, as text or as HTML. `preparePrint` walks down chains of first subphases to choose the node each table is made from.
- **Table** is a grid of values with named columns.
  - It grows on demand when a row or column is touched.
  - It prints as tab-separated text or as an HTML table.
  - When every cell of a named column has the same measure, that measure goes into the header instead of into each cell.
- **The XML layer:**
  - `Node` holds a name, attributes kept in key order, and children kept sorted by name.
  - `AttributeProxy` looks up one attribute of a node.
  - `Attribute` is a decimal or a string; a string is written in quotes.

How the model is built:

- **Maps.** Each `std::map` becomes an association list kept in strictly increasing key order (module `OrderedMaps`). Iterating over it visits keys in the same order as the C++ map does. An extensionality lemma makes the list representation canonical.
- **Fatal errors.** Where the C++ code logs an error and calls `exit`, the model returns an `Abort(reason)` result, or a `Fatal(reason)` status from a method, and the state is left unchanged.
- **Specification and code.** Each recording operation exists twice:
  - as a function on values, in `Phases` and `Profiles`, which is the specification;
  - as a method on a class, in `PhaseObjects.Phase`, `ProfileObjects.Profile` and `Tables.Table`, which updates fields in place.

  Every method is proved equal to its function.
- **Shared pointers.** Profile's shared pointers from a parent phase to its open child are replaced by writing back. When a loop or phase ends, the parent's last run of that name receives the child's final state (`WithLastRun`). `Profiles.Close` folds the open stack into one tree, which is the tree the C++ root pointer reaches.

The main results:

- **Recording.**
  - Each recording step succeeds exactly under the source's checks, and otherwise aborts with the source's error.
  - A begin/end pair of a phase adds one timed run under its name.
  - Nested phases build the expected tree.
  - Ending a loop does not change the tree that printing sees.
- **XML.** Writing a phase to XML and reading it back gives the same phase, with its open-iteration state cleared throughout (`PhaseRoundTrip.RoundTrip`). This holds for the phases `PhaseRoundTrip.Restorable` describes:
  - the phase has at least one iteration and a "time" entry;
  - every value list and every run list has one entry per iteration;
  - every subphase satisfies the same conditions.

  Outside that domain the round trip changes the phase. A phase with no iterations comes back with one unnamed iteration and an empty "time" list (`PhaseRoundTrip.EmptyPhaseGainsIteration`). For a whole profile the round trip holds when the root also has the single unnamed iteration (`Profiles.RoundTrip`).
- **Tables.**
  - Table operations grow the grid exactly as the proxies do.
  - A cell assigned through a proxy reads back, and nothing else changes.
  - The printed text has one line per row, plus one for the header, and one tab per cell.
- **Printing.** The print loop emits one table per `preparePrint` call, separated by newlines. There is at most one more table than the chain below the root is long. The descent loop of `preparePrint` as written fails on the profile of a single `beginPhase`/`endPhase` pair (see Findings). The model prints with the corrected loop, which stops at a node with no subphases (`ProfilePrint.Reach`).

## Model

| member | source | states |
|---|---|---|
| Attributes.Equal | src/Xml/Attribute.cpp:17-20 | two attributes are equal exactly when they hold the same kind and the same text |
| Attributes.ToStringQuotes | src/Xml/Attribute.cpp:22-38 | `toString` wraps a string in double quotes, with the string itself between them, and writes a decimal as its own text |
| Attributes.AsStringUnquoted | src/Xml/Attribute.hpp:34-39 | `as<string>` gives the raw text of either kind: what `toString` prints, less the quotes it puts around a string |
| Attributes.ToStringInjective | src/Xml/Attribute.cpp:22-38 | for numeric decimals, two attributes print the same exactly when they are equal; a decimal never prints like a quoted string |
| Attributes.ToStringIsRawOnlyForDecimals | src/Xml/Attribute.cpp:22-38 | `toString` agrees with `as<string>` exactly on decimals; strings gain quotes |
| AttributeProxies.Find | src/Xml/Node.cpp:85-88 | `attr(name)` gives a proxy for that name, which is set exactly when the node has that attribute |
| AttributeProxies.Assign | src/Xml/AttributeProxy.cpp:11-19 | assigning through a proxy sets its key to the value, leaves every other key alone and keeps the map ordered |
| AttributeProxies.Value | src/Xml/AttributeProxy.cpp:38-41 | `value()` on a set proxy is the value stored under its name |
| AttributeProxies.Equals | src/Xml/AttributeProxy.cpp:21-26 | `==` is false for an unset proxy, and otherwise compares the stored value |
| AttributeProxies.NotEquals | src/Xml/AttributeProxy.cpp:28-31 | `!=` is the negation of `==`, so an unset proxy differs from every value |
| AttributeProxies.AsString | src/Xml/AttributeProxy.cpp:43-51 | streaming an unset proxy gives "", and a set one gives its value's raw text |
| AttributeProxies.AssignKeepsTracking | src/Xml/AttributeProxy.cpp:11-19 | assignment through any proxy leaves every other proxy of the same map tracking it |
| AttributeProxies.StaleProxy | src/Xml/AttributeProxy.cpp:11-51 | a proxy made before its key existed keeps its iterator after assignment: it still reads as unset, unequal and "", while a fresh `attr` sees the new value |
| Xml.Create | src/Xml/Node.cpp:9-16 | a new node has the given name, no attributes and no children |
| Xml.Attr | src/Xml/Node.cpp:85-88 | `attr(name)` is set exactly when the attribute exists, and tracks the node's attribute map |
| Xml.SetAttr | src/Xml/AttributeProxy.cpp:11-19 | assigning an attribute sets that key only, keeping the name, the children and well-formedness |
| Xml.InsertByName | src/Xml/Node.cpp:110-114 | insertion into the child multiset adds exactly that child |
| Xml.AddChild | src/Xml/Node.cpp:110-114 | `addChild` adds exactly one child, keeping the name and the attributes |
| Xml.InsertByNameSorted | src/Xml/Node.cpp:110-114 | insertion keeps the children sorted by name |
| Xml.AddChildWf | src/Xml/Node.cpp:110-114 | adding a well-formed child to a well-formed node gives a well-formed node |
| Xml.Named | src/Xml/Node.cpp:100-103 | `childs(name)` selects no more children than there are |
| Xml.NamedMembers | src/Xml/Node.cpp:100-103 | `childs(name)` holds exactly the children with that name |
| Xml.ChildsNamed | src/Xml/Node.cpp:100-103 | a node's `childs(name)` holds exactly its children of that name |
| Xml.NamedCount | src/Xml/Node.cpp:100-103 | `childs(name).count()` is at most the number of children, and is zero exactly when no child has that name |
| Xml.NamedExist | src/Xml/Node.cpp:100-103 | `childs(name).exist()` holds exactly when some child has that name |
| Xml.NamedAfterInsert | src/Xml/Node.cpp:110-114 | after an insertion, the children of a name are the earlier ones followed by the new child when it has that name: an upper-bound insertion into a multiset |
| Xml.NamedAfterAddChild | src/Xml/Node.cpp:110-114 | after `addChild`, `childs(name)` and its count grow by the new child exactly when its name matches |
| Xml.Indentation | src/Xml/Node.cpp:44-51 | the indentation is two spaces per level, and empty for levels of zero or below |
| Xml.MakeIndentation | src/Xml/Node.cpp:44-51 | the loop builds exactly the indentation |
| Xml.MakeAttributesText | src/Xml/Node.cpp:59-65 | the loop writes ` key=value` for each attribute, in key order |
| Xml.MakeOpeningTag | src/Xml/Node.cpp:53-73 | the opening tag is the indentation, `<`, the name and the attributes, then `/>` for a leaf and `>` otherwise |
| Xml.MakeClosingTag | src/Xml/Node.cpp:75-83 | the closing tag is the indentation and `</name>` |
| Xml.Write | src/Xml/Node.cpp:28-42 | `write` gives the opening tag; for a node with children it adds each child on its own line one level deeper, then the closing tag on a new line |
| Xml.WriteChildren | src/Xml/Node.cpp:32-39 | the loop over the children writes a newline and the child for each one, in order |
| Xml.OpeningTagOneLine | src/Xml/Node.cpp:53-83 | with no newline in names or attributes, each tag is written on one line |
| Xml.WrittenLines | src/Xml/Node.cpp:28-42 | the written text has one line per leaf and two per inner node (opening and closing tag) |
| Xml.ChildrenTextLines | src/Xml/Node.cpp:32-39 | the children's text adds one line break per child, plus the breaks inside each child |
| OrderedMaps.LookupUpsert | src/Profiling/Phase.hpp:116-121 | `map[k] = v` makes k map to v and leaves every other key's lookup alone |
| OrderedMaps.UpsertSpec | src/Profiling/Phase.hpp:116-121 | after `map[k] = v`, k reads v and other keys read as before |
| OrderedMaps.UpsertTwice | src/Profiling/Phase.hpp:116-121 | a second assignment to the same key overrides the first |
| OrderedMaps.UpsertOrdered | src/Profiling/Phase.hpp:116-121 | assignment keeps the keys in strictly increasing order, as a `std::map` iterates them |
| OrderedMaps.Extensionality | src/Profiling/Phase.hpp:116-121 | two ordered maps with the same lookups are the same list, so each map has one representation |
| Strings.LessIrreflexive | src/Profiling/Phase.hpp:116-121 | the key order (`std::string` `<`) is irreflexive |
| Strings.LessTransitive | src/Profiling/Phase.hpp:116-121 | the key order is transitive |
| Strings.LessTotal | src/Profiling/Phase.hpp:116-121 | any two distinct keys are ordered one way or the other |
| Strings.LessAsymmetric | src/Profiling/Phase.hpp:116-121 | the key order is asymmetric |
| Strings.IntTextRoundTrip | src/Profiling/Phase.cpp:118-144 | the decimal text written for an elapsed time parses back to that number, negative numbers included |
| Phases.PerSecond | src/Profiling/Phase.cpp:118-121 | each time measure has a positive number of units per second, and that number divides 10^9 |
| Phases.AddValue | src/Profiling/Phase.cpp:55-69 | `addValue` succeeds exactly when an iteration exists and every earlier iteration has that value; it fails with "value missed" or "without iteration" as the two checks order them; on success the value is appended to its name only, and the maps stay ordered |
| Phases.AddPhase | src/Profiling/Phase.cpp:76-89 | on success `addPhase` appends the subphase to that name's runs only and keeps the maps ordered |
| Phases.AddPhaseOutcome | src/Profiling/Phase.cpp:76-89 | `addPhase` succeeds exactly when there is at least one iteration and the name has one run per earlier iteration; otherwise it fails as "subphase missed" when the name has fewer than `size() - 1` runs, else as "subphase without iteration"; with no iterations the unsigned `size() - 1` wraps, so it fails as "subphase missed" |
| Phases.BeginIteration | src/Profiling/Phase.cpp:91-103 | `beginIteration` fails exactly when an iteration is open ("started twice"); otherwise it appends the label and opens the iteration at the given time |
| Phases.EndIteration | src/Profiling/Phase.cpp:105-145 | `endIteration` fails exactly when no iteration is open; otherwise it closes it and appends the elapsed time, in the given measure, to "time" only |
| Phases.TruncDivRemainder | src/Profiling/Phase.cpp:121 | C++ division of the nanosecond difference truncates toward zero: the remainder has the dividend's sign, and negation commutes with it |
| Phases.ElapsedNanoseconds | src/Profiling/Phase.cpp:118-121 | in nanoseconds the elapsed time is exact: the seconds difference times 10^9 plus the nanoseconds difference |
| Phases.BeginEndCycle | src/Profiling/Phase.cpp:91-145 | from a closed phase, begin then end succeed, add one labelled iteration and one time value, and leave the subphases alone |
| Phases.IterationsAlternate | src/Profiling/Phase.cpp:93-116 | ending a closed phase fails, and beginning an open one fails |
| Phases.IsLoop | src/Profiling/Phase.cpp:317-325 | a phase is a loop exactly when it has iterations other than the single unnamed one |
| Phases.WithLastRun | src/Profiling/Profile.cpp:66-72 | what the parent sees through its pointer to the newest subphase of that name: that run is replaced and nothing else changes |
| PhaseObjects.Phase.constructor | src/Profiling/Phase.cpp:28-32 | a new phase is empty, with no open iteration |
| PhaseObjects.Phase.AddValue | src/Profiling/Phase.cpp:55-69 | the fields are updated as `Phases.AddValue` says, or left alone when it aborts |
| PhaseObjects.Phase.AddPhase | src/Profiling/Phase.cpp:76-89 | the fields are updated as `Phases.AddPhase` says, including its unsigned check, or left alone when it aborts |
| PhaseObjects.Phase.BeginIteration | src/Profiling/Phase.cpp:91-103 | the fields are updated as `Phases.BeginIteration` says, or left alone when it aborts |
| PhaseObjects.Phase.EndIteration | src/Profiling/Phase.cpp:105-145 | the truncating time arithmetic gives `Phases.EndIteration`'s state, or the fields are left alone when it aborts |
| PhaseObjects.Phase.SeeLastRun | src/Profiling/Profile.cpp:66-88 | the parent's newest run of that name becomes the child's final state, as a shared pointer shows it |
| PhaseObjects.Phase.SetValueFromXml | src/Profiling/Phase.cpp:212-228 | the node's value and measure are appended under its name |
| PhaseObjects.Phase.SubphaseFromXml | src/Profiling/Phase.cpp:230-241 | the child read by `fromXml` is appended under its name attribute |
| PhaseObjects.Phase.ValuesFromXml | src/Profiling/Phase.cpp:250-251 | the loop reads every value child in order, as `PhaseXml.ValuesFrom` says |
| PhaseObjects.Phase.SubphasesFromXml | src/Profiling/Phase.cpp:252-255 | the loops read every phase child and every loop child in order, as `PhaseXml.SubphasesFrom` says |
| PhaseObjects.Phase.IterationFromXml | src/Profiling/Phase.cpp:243-259 | the fields become `PhaseXml.IterationFrom` of the old state |
| PhaseObjects.Phase.IterationsFromXml | src/Profiling/Phase.cpp:270-272 | the loop reads every "iteration" child in order, as `PhaseXml.IterationsFrom` says |
| PhaseObjects.Phase.FromXml | src/Profiling/Phase.cpp:261-284 | gives null exactly for tags other than "phase" and "loop"; otherwise a fresh phase whose state is `PhaseXml.FromXml` |
| PhaseXml.ValueNode | src/Profiling/Phase.cpp:162-166 | a value is written as a childless "value" node with its name, its raw value, and its measure only when that is not empty |
| PhaseXml.ValueFrom | src/Profiling/Phase.cpp:212-228 | reading a value node changes only the values |
| PhaseXml.ValuesFrom | src/Profiling/Phase.cpp:250-251 | reading the value children changes only the values |
| PhaseXml.SubphasesFrom | src/Profiling/Phase.cpp:252-255 | reading the subphase children changes only the subphases |
| PhaseXml.IterationFrom | src/Profiling/Phase.cpp:243-259 | reading an iteration appends its name attribute as the label and leaves the open-iteration state alone |
| PhaseXml.IterationsFrom | src/Profiling/Phase.cpp:270-272 | a loop gains one iteration per "iteration" child, in order, labelled by that child's name attribute |
| PhaseXml.FromXml | src/Profiling/Phase.cpp:261-284 | `fromXml` gives a phase exactly for the tags "phase" and "loop"; a "phase" has the single label "", and a "loop" has the labels of its "iteration" children in order |
| PhaseXml.ValuesXml | src/Profiling/Phase.cpp:153-169 | the value children keep the iteration element's name; the only fatal error is a value list with no entry for the iteration ("value missed in iteration") |
| PhaseXml.PhasesXml | src/Profiling/Phase.cpp:171-183 | the subphase children keep the iteration element's name; the only fatal errors are a missed subphase run or one raised while writing that subphase |
| PhaseXml.IterationXml | src/Profiling/Phase.cpp:147-186 | `iterationToXml` gives an "iteration" element, or fails only as a value or a subphase missed in an iteration |
| PhaseXml.LoopXml | src/Profiling/Phase.cpp:201-210 | the loop keeps the "loop" element's name, or fails only as a value or a subphase missed in an iteration |
| PhaseXml.ToXml | src/Profiling/Phase.cpp:188-210 | `toXml` writes a "phase" or a "loop" element; its only fatal errors are a value or a subphase missed in an iteration |
| PhaseRoundTrip.ValuesXmlAborts | src/Profiling/Phase.cpp:153-160 | a value list with no entry for the iteration makes the value children fail as "value missed in iteration" |
| PhaseRoundTrip.PhasesXmlAborts | src/Profiling/Phase.cpp:171-178 | a subphase run list with no entry for the iteration makes the subphase children fail |
| PhaseRoundTrip.IterationXmlAborts | src/Profiling/Phase.cpp:147-186 | an iteration for which some value list or run list has no entry cannot be written |
| PhaseRoundTrip.LoopXmlAborts | src/Profiling/Phase.cpp:201-210 | the loop fails when an iteration it still has to write fails |
| PhaseRoundTrip.ToXmlAborts | src/Profiling/Phase.cpp:147-210 | `toXml` of a phase with at least one iteration fails when any value list or subphase run list is shorter than the iteration count |
| PhaseRoundTrip.ToXmlDone | src/Profiling/Phase.cpp:147-210 | a phase that has every value and subphase in every iteration is written without fatal error: as "phase" when its only iteration is unnamed, else as "loop" |
| PhaseRoundTrip.IterationXmlDone | src/Profiling/Phase.cpp:147-186 | each iteration of a complete phase is written as its iteration node |
| PhaseRoundTrip.ValueNodeReads | src/Profiling/Phase.cpp:162-166 | reading a written value node gives back its name and its value |
| PhaseRoundTrip.ValuesFromOrdered | src/Profiling/Phase.cpp:224 | reading values keeps the value map ordered |
| PhaseRoundTrip.SubphasesFromOrdered | src/Profiling/Phase.cpp:237 | reading subphases keeps the subphase map ordered |
| PhaseRoundTrip.IterationRoundTrip | src/Profiling/Phase.cpp:147-186 | reading iteration i written by `iterationToXml` extends the values and runs read so far by their i-th entries |
| PhaseRoundTrip.LoopRoundTrip | src/Profiling/Phase.cpp:200-209 | reading the iteration nodes of a loop from i on restores all its iterations, values and runs |
| PhaseRoundTrip.SingleRoundTrip | src/Profiling/Phase.cpp:193-198 | a single unnamed iteration written as "phase" reads back as the same phase, with its subphases' open-iteration state cleared |
| PhaseRoundTrip.LoopWholeRoundTrip | src/Profiling/Phase.cpp:200-209 | a loop written as "loop" reads back as the same phase, with its subphases' open-iteration state cleared |
| PhaseRoundTrip.RoundTrip | src/Profiling/Phase.cpp:188-284 | for a phase with at least one iteration, a "time" entry, every value and run list at full length, and the same in every subphase (`Restorable`), `fromXml(toXml(p))` with any name attribute set gives p back, with the open-iteration state cleared throughout |
| PhaseRoundTrip.LoopXmlIterationsOnly | src/Profiling/Phase.cpp:188-210 | a complete phase that is not a single unnamed iteration is written as a "loop" element whose children are all "iteration" |
| PhaseRoundTrip.ReadsNothing | src/Profiling/Phase.cpp:243-268 | a "phase" node whose children are all "iteration" reads as a phase with one unnamed iteration, no subphases and an empty time list |
| PhaseRoundTrip.EmptyPhaseGainsIteration | src/Profiling/Phase.cpp:188-191 | a phase with no iterations is written as a bare "phase" element, which reads back as one unnamed iteration with an empty time list |
| PhaseTables.Times | src/Profiling/Phase.cpp:309-313 | the time column takes at most one entry per run: the first "time" value of each run with exactly one iteration |
| PhaseTables.TimesOfSingles | src/Profiling/Phase.cpp:309-313 | when every run has one iteration and a time, the column is their first times, in order |
| PhaseTables.ColumnsLayout | src/Profiling/Phase.cpp:286-339 | `toTable` makes a label column first for a loop, then one column per value name, then one per subphase name, each in key order |
| PhaseTables.PhaseColumnCells | src/Profiling/Phase.cpp:303-314 | the column of a subphase name holds the times of its runs |
| PhaseTables.AddColumnsLayout | src/Profiling/Phase.cpp:286-315 | appending columns through `newColumn` and `pushBack` adds exactly those columns, and their cells hold the pushed values, default beyond |
| PhaseTables.PushColumn | src/Profiling/Phase.cpp:299-300 | the push loop appends the values to the column in order |
| PhaseTables.PushTimes | src/Profiling/Phase.cpp:309-313 | the loop over runs pushes exactly `Times` |
| PhaseTables.PushLabels | src/Profiling/Phase.cpp:337-338 | the loop over iterations pushes each label as a value |
| PhaseTables.IterationsToTable | src/Profiling/Phase.cpp:327-339 | `iterationsToTable` adds the label column only for a loop |
| PhaseTables.ValuesToTable | src/Profiling/Phase.cpp:292-301 | one named column per value name, holding its values |
| PhaseTables.PhasesToTable | src/Profiling/Phase.cpp:303-314 | one named column per subphase name, holding its runs' times |
| PhaseTables.ToTable | src/Profiling/Phase.cpp:286-315 | `toTable` adds exactly the phase's columns, in order, to the table |
| Tables.GrowRows | src/Profiling/Table.cpp:46-52 | resizing the rows keeps the old rows and adds empty ones |
| Tables.PadTo | src/Profiling/Table.cpp:354-366 | resizing a row keeps its cells and fills with default values |
| Tables.RowStep | src/Profiling/Table.cpp:46-52 | `row(index)` makes the row exist, keeping the columns and every cell's contents |
| Tables.ColumnStep | src/Profiling/Table.cpp:71-77 | `column(index)` makes the column exist, adding unnamed empty columns and keeping the grid |
| Tables.NamedIndex | src/Profiling/Table.cpp:56-63 | the search gives the first column with that name, or the column count when there is none |
| Tables.ColumnByName | src/Profiling/Table.cpp:54-69 | `column(name)` leaves the table alone when the name exists, else appends one empty column of that name; either way it names the first match |
| Tables.RowCellStep | src/Profiling/Table.cpp:354-366 | `row[c]` makes the cell exist, grows the column list to cover it, and changes no cell's contents |
| Tables.ColumnCellStep | src/Profiling/Table.cpp:394-406 | `column[r]` makes the cell exist, growing rows as needed, and changes no cell's contents |
| Tables.SetCell | src/Profiling/Table.cpp:354-366 | storing through the returned reference changes exactly that cell |
| Tables.RowPushBack | src/Profiling/Table.cpp:368-371 | `row.pushBack` appends to that row only and widens the column list to match |
| Tables.ColumnPushBack | src/Profiling/Table.cpp:408-411 | `column.pushBack` writes the value at row `rows()` of the column and grows that column's count |
| Tables.Rename | src/Profiling/Table.cpp:413-416 | naming a column changes only that column's name |
| Tables.RowAssignThenRead | src/Profiling/Table.cpp:338-366 | a value assigned through `row[c]` reads back, and every other cell is unchanged |
| Tables.ColumnAssignThenRead | src/Profiling/Table.cpp:394-406 | a value assigned through `column[r]` reads back, and every other cell is unchanged |
| Tables.PushAll | src/Profiling/Table.cpp:408-411 | repeated `pushBack` keeps the table shaped and the column count |
| Tables.PushAllCells | src/Profiling/Table.cpp:408-411 | pushing values onto a column puts them in the next rows of that column only |
| Tables.ScanFromAnswer | src/Profiling/Table.cpp:143-147 | the scan answers true exactly when every later cell has the first measure |
| Tables.EqualMeasured | src/Profiling/Table.cpp:135-148 | `isEqualMeasured` holds exactly for a named, non-empty column whose cells share one measure; reading its cells changes no cell's contents |
| Tables.ScanColumns | src/Profiling/Table.cpp:106-108 | computing the flags gives one per column and changes no cell's contents |
| Tables.ScanColumnsFlag | src/Profiling/Table.cpp:106-108 | the flag computed for each column is that column's `isEqualMeasured` |
| Tables.EmptyTablePrints | src/Profiling/Table.cpp:215-325 | an empty table prints nothing as text, and as an empty `<table>` element as HTML |
| Tables.TextLayout | src/Profiling/Table.cpp:99-248 | text output has one line per row plus one for the header, and one tab per printed cell plus one per header cell |
| Tables.TextPrinted | src/Profiling/Table.cpp:99-133 | text output is the header, when some column is named, followed by the rows, using the flags computed first |
| Tables.Stream.Write | src/Profiling/Profile.cpp:180 | writing to a stream appends the text |
| Tables.Printer.Begin | src/Profiling/Table.cpp:215-217 | the printer's `begin` writes its opening text: nothing for text, the table's opening tag for HTML |
| Tables.Printer.End | src/Profiling/Table.cpp:219-221 | the printer's `end` writes its closing text |
| Tables.Printer.BeginRow | src/Profiling/Table.cpp:223-225 | `beginRow` opens a line |
| Tables.Printer.EndRow | src/Profiling/Table.cpp:227-230 | `endRow` ends a line |
| Tables.Printer.BeginValue | src/Profiling/Table.cpp:232-234 | `beginValue` opens a cell, a header cell when inside the header |
| Tables.Printer.EndValue | src/Profiling/Table.cpp:236-239 | `endValue` closes a cell: a tab in text |
| Tables.Printer.BeginHeader | src/Profiling/Table.cpp:241-243 | `beginHeader` opens the header line and enters header mode |
| Tables.Printer.EndHeader | src/Profiling/Table.cpp:245-248 | `endHeader` ends the header line and leaves header mode |
| Tables.PrintValue | src/Profiling/Table.cpp:179-186 | a value is printed followed by " (measure)" only when the measure is not empty |
| Tables.PrintCell | src/Profiling/Table.cpp:124-126 | a cell prints as the cell opening, the value with its measure, and the cell closing |
| Tables.PrintRowCell | src/Profiling/Table.cpp:118-127 | a body cell prints its value, with its measure unless its column is flagged |
| Tables.PrintRow | src/Profiling/Table.cpp:115-129 | a row prints as its cells between the row's opening and closing text, with the measure left out of flagged columns |
| Tables.PrintRows | src/Profiling/Table.cpp:113-130 | the row loop prints every row, in order |
| Tables.Table.constructor | src/Profiling/Table.cpp:26-29 | a new table has no rows and no columns |
| Tables.Table.RowAt | src/Profiling/Table.cpp:46-52 | `row` updates the table as `RowStep` says |
| Tables.Table.ColumnAt | src/Profiling/Table.cpp:71-77 | `column(index)` updates the table as `ColumnStep` says |
| Tables.Table.ColumnNamed | src/Profiling/Table.cpp:54-69 | the search loop returns the first column of that name, appending one when there is none |
| Tables.Table.NewColumn | src/Profiling/Table.cpp:79-82 | `newColumn` adds one unnamed empty column at the end |
| Tables.Table.NewRow | src/Profiling/Table.cpp:84-87 | `newRow` adds one empty row at the end |
| Tables.Table.RowCellRef | src/Profiling/Table.cpp:354-366 | `row[c]` updates the table as `RowCellStep` says |
| Tables.Table.RowCellRefNamed | src/Profiling/Table.cpp:338-352 | `row[name]` first finds or adds the named column, then makes that cell exist |
| Tables.Table.ColumnCellRef | src/Profiling/Table.cpp:394-406 | `column[r]` updates the table as `ColumnCellStep` says |
| Tables.Table.Store | src/Profiling/Table.cpp:354-366 | assignment through a cell reference changes that cell only |
| Tables.Table.PushBackRow | src/Profiling/Table.cpp:368-371 | `row.pushBack` updates the table as `RowPushBack` says |
| Tables.Table.PushBackColumn | src/Profiling/Table.cpp:408-411 | `column.pushBack` updates the table as `ColumnPushBack` says |
| Tables.Table.SetColumnName | src/Profiling/Table.cpp:413-416 | `column.name() = ...` renames that column only |
| Tables.Table.IsEqualMeasured | src/Profiling/Table.cpp:135-148 | the loop's answer and its effect on the table are `EqualMeasured` |
| Tables.Table.HaveHeader | src/Profiling/Table.cpp:150-156 | `haveHeader` holds exactly when some column has a name |
| Tables.Table.PrintHeader | src/Profiling/Table.cpp:158-177 | the header prints every column name, with the shared measure of each flagged column |
| Tables.Table.PrintHeaderCell | src/Profiling/Table.cpp:164-175 | a header cell prints the column name, with the column's first measure when it is flagged |
| Tables.Table.MeasureFlags | src/Profiling/Table.cpp:106-108 | the flag loop computes `isEqualMeasured` of each column, in order |
| Tables.Table.PrintBody | src/Profiling/Table.cpp:113-130 | the body prints every row and leaves the table alone |
| Tables.Table.DoPrint | src/Profiling/Table.cpp:99-133 | `doPrint` appends the printed text of the table as it was before printing |
| Tables.Table.Print | src/Profiling/Table.cpp:89-92 | `print` appends the text form |
| Tables.Table.PrintHtml | src/Profiling/Table.cpp:94-97 | `printHtml` appends the HTML form |
| Profiles.SetTop | src/Profiling/Profile.cpp:33-64 | replacing the innermost phase leaves the phases below and the names alone |
| Profiles.Start | src/Profiling/Profile.cpp:26-31 | a new profile is the root alone, with its unnamed iteration open |
| Profiles.AddValue | src/Profiling/Profile.cpp:33-36 | `addValue` succeeds exactly when the innermost phase accepts the value, and changes only that phase |
| Profiles.BeginIteration | src/Profiling/Profile.cpp:56-59 | `beginIteration` succeeds exactly when the innermost phase is closed, and changes only that phase |
| Profiles.EndIteration | src/Profiling/Profile.cpp:61-64 | `endIteration` succeeds exactly when the innermost phase is open, and appends its time |
| Profiles.BeginLoop | src/Profiling/Profile.cpp:66-72 | `beginLoop` succeeds exactly when `addPhase` does; it then pushes a new empty phase named after the loop |
| Profiles.BeginLoopPushes | src/Profiling/Profile.cpp:66-72 | `beginLoop` is `addPhase` on the innermost phase followed by a push |
| Profiles.Pop | src/Profiling/Profile.cpp:81 | popping keeps the profile well formed, removes one level and its name, and leaves every level below the parent alone |
| Profiles.PopDrops | src/Profiling/Profile.cpp:81 | the popped phase becomes its parent's newest run of its name, and nothing else changes |
| Profiles.EndLoop | src/Profiling/Profile.cpp:74-88 | `endLoop` succeeds exactly when the innermost phase is closed and is not the root; it fails with "iteration's end missing" or "phase's begin missing" in the source's order |
| Profiles.Close | src/Profiling/Profile.cpp:164-169 | the tree the root reaches is ordered, and is the root itself when nothing is open |
| Profiles.AddPhaseThenReplace | src/Profiling/Profile.cpp:66-88 | adding a child and later seeing its final state is the same as adding the final state directly |
| Profiles.LoopCycle | src/Profiling/Profile.cpp:66-88 | `beginLoop` then `endLoop` leaves the tree with one new empty run under that name |
| Profiles.BeginPhaseOpens | src/Profiling/Profile.cpp:38-42 | `beginPhase` is `beginLoop` followed by opening the unnamed iteration |
| Profiles.EndPhaseCloses | src/Profiling/Profile.cpp:44-48 | `endPhase` closes the innermost iteration and hands the timed phase to its parent |
| Profiles.ClosedTimed | src/Profiling/Phase.cpp:105-145 | a phase opened at t0 and closed at t1 holds exactly one time value |
| Profiles.SimplePhaseRuns | src/Profiling/tests/ProfileTest.cpp:57-63 | on a new profile, `beginPhase(name)` and `endPhase()` succeed and leave the root holding one closed run under name |
| Profiles.SimpleRootCloses | src/Profiling/Profile.cpp:99-100 | closing that root's iteration adds its time and nothing else |
| Profiles.SimplePhase | src/Profiling/tests/ProfileTest.cpp:57-63 | the profile of one `beginPhase`/`endPhase` pair, closed, is the tree `SimpleTree` |
| Profiles.PhaseCycle | src/Profiling/Profile.cpp:38-48 | `beginPhase` then `endPhase` add one run holding one timed iteration under that name |
| Profiles.NestedPhases | src/Profiling/Profile.cpp:38-48 | an inner phase within an outer one yields an outer run that holds the inner run, each with its own time |
| Profiles.EndLoopKeepsTree | src/Profiling/Profile.cpp:74-88 | ending a loop does not change the tree seen from the root |
| Profiles.CloseRoot | src/Profiling/Profile.cpp:99-100 | writing or printing closes the root's open iteration in milliseconds and changes nothing else |
| Profiles.ToXml | src/Profiling/Profile.cpp:90-106 | `toXml` fails while a phase is open; otherwise it writes the closed root, renamed "profile" |
| Profiles.AsPhase | src/Profiling/Profile.cpp:115-117 | the node is read as a "phase" with an empty name attribute |
| Profiles.FromXml | src/Profiling/Profile.cpp:108-126 | `fromXml` gives a root exactly for a "profile" tag; it restores the node's name afterwards, and leaves the name attribute set to "" |
| Profiles.RoundTrip | src/Profiling/Profile.cpp:90-126 | a finished profile whose closed root is `Restorable` and has its one unnamed iteration reads back as that root, with the open-iteration state cleared |
| Profiles.LoopRootLost | src/Profiling/Profile.cpp:90-126 | a profile whose root has several or named iterations is written as "loop", renamed "profile", and read back as "phase", so every record is lost |
| ProfilePrint.Below | src/Profiling/Profile.cpp:149-150 | d hops down first subphases leave d fewer hops available |
| ProfilePrint.Descend | src/Profiling/Profile.cpp:130-151 | the descent as written stops at a node with several iterations, values or subphases; the set flag skips one test; the result is the node reached and the name of the last hop |
| ProfilePrint.LeafChainUndefined | src/Profiling/Profile.cpp:132-151 | a chain that ends in a leaf none of the tests stops at is outside the descent as written; the corrected descent stops at that leaf and print makes one table |
| ProfilePrint.Reach | src/Profiling/Profile.cpp:130-151 | the corrected descent stops at a node with no subphases or at one the tests stop at; it reports several iterations; a set flag makes a hop unless the node is a leaf; the result is the node reached and the name of the last hop |
| ProfilePrint.ReachExtendsDescend | src/Profiling/Profile.cpp:130-151 | wherever the descent as written is defined, the corrected one reaches the same node with the same answer |
| ProfilePrint.Prepare | src/Profiling/Profile.cpp:128-162 | `preparePrint` returns the node reached, and reports the last table exactly when that node has no subphases or stopped on several iterations |
| ProfilePrint.PrepareNamesLabels | src/Profiling/Profile.cpp:153-156 | for a loop, the label column on a fresh table is column 0 and is named after the last hop |
| ProfilePrint.Pages | src/Profiling/Profile.cpp:164-183 | print makes at least one table and at most one more than the chain of first subphases below the root is long |
| ProfilePrint.PrintStep | src/Profiling/Profile.cpp:171-182 | a call that is not the last prints its table, a newline and then the rest |
| ProfilePrint.PrintLast | src/Profiling/Profile.cpp:177-178 | the last call's table is the end of the output |
| ProfilePrint.PreparePrint | src/Profiling/Profile.cpp:128-162 | the corrected loop, `toTable` and the renaming give exactly `Prepare` |
| ProfilePrint.PrintPage | src/Profiling/Profile.cpp:173-175 | one pass prints a fresh table prepared from the node |
| ProfilePrint.PrintTables | src/Profiling/Profile.cpp:169-183 | the print loop writes all the tables, separated by newlines, and terminates |
| ProfilePrint.PrintText | src/Profiling/Profile.cpp:164-204 | the text print writes, as text or as HTML, is the sequence of tables |
| ProfileObjects.StatesOf | src/Profiling/Profile.cpp:26-31 | the states of the stacked phase objects, one per object, in order |
| ProfileObjects.Profile.constructor | src/Profiling/Profile.cpp:26-31 | a new profile object mirrors `Profiles.Start` |
| ProfileObjects.Profile.AddValue | src/Profiling/Profile.cpp:33-36 | the objects change as `Profiles.AddValue` says, or not at all on failure |
| ProfileObjects.Profile.BeginIteration | src/Profiling/Profile.cpp:56-59 | the objects change as `Profiles.BeginIteration` says, or not at all on failure |
| ProfileObjects.Profile.EndIteration | src/Profiling/Profile.cpp:61-64 | the objects change as `Profiles.EndIteration` says, or not at all on failure |
| ProfileObjects.Profile.BeginLoop | src/Profiling/Profile.cpp:66-72 | a fresh phase object is pushed, and the objects mirror `Profiles.BeginLoop` |
| ProfileObjects.Profile.Push | src/Profiling/Profile.cpp:71 | `_current.push` adds the object and its name on top, and the other objects stay as they were |
| ProfileObjects.Profile.EndLoop | src/Profiling/Profile.cpp:74-88 | the parent object sees the popped phase, and the objects mirror `Profiles.EndLoop` |
| ProfileObjects.Profile.Drop | src/Profiling/Profile.cpp:81 | `_current.pop` removes the top object and its name, and the other objects stay as they were |
| ProfileObjects.Profile.BeginPhase | src/Profiling/Profile.cpp:38-42 | on success the objects mirror `Profiles.BeginPhase`; on failure the method reports that operation's reason |
| ProfileObjects.Profile.EndPhase | src/Profiling/Profile.cpp:44-48 | on success the objects mirror `Profiles.EndPhase`; on failure the method reports that operation's reason |
| ProfileObjects.Profile.CloseRoot | src/Profiling/Profile.cpp:99-100 | the root object's iteration is closed as `Profiles.CloseRoot` says, and the tree is read back from the objects |
| ProfileObjects.Profile.ToXml | src/Profiling/Profile.cpp:90-106 | the result is `Profiles.ToXml`; the root is closed only when nothing else is open |
| ProfileObjects.SimpleTreePrint | src/Profiling/Profile.cpp:128-183 | the tree of one closed phase under a closed root is outside the descent as written, and prints as exactly one table with the corrected one |
| ProfileObjects.SimplePhasePrint | src/Profiling/tests/ProfileTest.cpp:57-63 | after `beginPhase(name)` and `endPhase()` on a new profile, print as written is undefined, and the corrected print makes one table |
| ProfileObjects.Profile.Print | src/Profiling/Profile.cpp:164-204 | the root is closed, and the text is the tables of the whole tree |

## Left out

- Clock: `clock_gettime` is not called. The current time is a `(sec, nsec)` parameter of the operations that read it.
- Logging and `exit`:
  - A fatal path becomes an `Abort`/`Fatal` outcome that leaves the state unchanged.
  - Error messages that are only logged, as in `setValueFromXml`, `iterationFromXml` and `fromXml`, change nothing and are left out.
- Integer width:
  - The `long` elapsed-time arithmetic is modelled on unbounded integers. Overflow needs an interval of about 292 years.
  - The `size_t` wrap in `addPhase` is modelled explicitly.
- Decimal: the `Decimal` type is kept as its text (`Attribute.Decimal(text)`). Its arithmetic and parsing (`Decimal.cpp`) are not part of this model.
- `Node::parse`, `NodesProxy.cpp`, the XML-named copies of the XML classes and `CommandLine` are not part of this model.
- `Node::parent` is not modelled. The back-pointer has no counterpart in a value tree, and the core never reads it.
- Profiling.cpp and the `Profile::global` singleton are not part of this model: the singleton is static state with no logic of its own.
- The Phase copy constructor and `operator=` are not modelled. The model's values are copied by value.
- ProfileObjects.Profile.FromXml is not modelled. `Profile::fromXml` builds a new profile whose `_current` stack still points at the discarded root, so recording on it is undefined. `Profiles.FromXml` models what it returns: the restored root.
- Output streams: an `std::ostream` becomes a `Stream` object whose text grows. `ProfileObjects.Profile.Print` returns the text written instead of taking a stream.
- Aliasing: the C++ shares subphase objects between a parent's map and the profile's stack. The model writes the child's final state back when the child is popped (`SeeLastRun`, `Profiles.Pop`) and when printing (`Profiles.Close`). Both give the tree the root pointer reaches.
- Undefined behaviour appears as preconditions:
  - `value()` on an unset attribute when reading XML;
  - reading the first run `second[0]` of a subphase name whose run list is empty in `preparePrint` (a recorded profile never has one);
  - reading a missing "time" value in `toTable`.
- Phase::toTable's `_values["time"]` lookup on a subphase inserts the key when it is missing. The precondition that the time exists makes that insertion unreachable, so it is not modelled.
- PhaseRoundTrip.RoundTrip: the open-iteration flag and begin time are not written to XML, so the round trip restores the phase with those cleared (`Stripped`), not the phase itself.
- PhaseRoundTrip.RoundTrip is proved only for `Restorable` phases. Two kinds of phase outside that domain come back changed:
  - a phase with no iterations gains one unnamed iteration and an empty "time" list (`EmptyPhaseGainsIteration`);
  - a phase with no "time" entry gains an empty "time" list, because `iterationFromXml` looks the key up.
- ProfileObjects.Profile.BeginPhase: on failure the contract gives only the reason. When the loop was pushed but the iteration failed to open, the stack is left changed, as in the source before its `exit`.
- ProfileObjects.Profile.EndPhase: on failure the contract gives only the reason, as for BeginPhase.

## Findings

| source | as written | input that shows it | evidently intended | confidence | as-written member | corrected member |
|---|---|---|---|---|---|---|
| src/Profiling/Profile.cpp:132-151 | The descent loop of `preparePrint` follows `phases().begin()` without checking that the map is non-empty. It leaves the loop only on several iterations, values or subphases. | `beginPhase("test"); endPhase();` on a new profile, then `print()`. The root and the "test" run each have one iteration, one value name ("time") and at most one subphase name. The loop reaches the run, which has no subphases, and dereferences the end of its map. | The loop stops at a node with no subphases, and that node's table is the last one. | high; not executed | ProfilePrint.Descend, ProfileObjects.SimplePhasePrint | ProfilePrint.Reach, ProfilePrint.Pages |
