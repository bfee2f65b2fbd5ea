# ffrwd, verified

A Dafny model of the parts of ffrwd, the compiler from SQL to ffmpeg
filtergraphs, that are hardest to be sure of by reading. Each file models one
pass or protocol; the sources of the repository are cited by path and line.

- **Inlining table functions** (`sql`, `rewriting`, `splicing`, `instancing`,
  `hosting`, `nulls`, `answers`, `placing`, `expander`, `inlining_limits`, `names`).
  A query is a FROM list, a WHERE and projections, with a row-by-row meaning over
  any data and any operators. Replacing every call by its body keeps rows, order
  and names, wherever no argument turns into the NULL that means a DEFAULT; and a
  query is refused only for what can be read off it and the functions it calls.
- **Why inlining ends, and where inlined text says it came from**
  (`expansions`, `positions`). Text trees with positions, any definitions.
- **Cutting a script into statements** (`cutting`).
- **A filtergraph's text** (`escaping`, `filtergraph`, `wiring`, `fanout`, `chains`,
  `components`). The reader is written from libavfilter's syntax, the "Filtergraph
  syntax" and "Notes on filtergraph escaping" sections of the FFmpeg Filters
  Documentation, and the printer is proved against it.
- **Dropping input slots** (`slots`, `slots_kept`).
- **Filters on the sidecar's device** (`device`, `device_runs`, `device_fusing`).
- **Running a stage** (`watch`, `watch_verdicts`, `blame`, `watched_blame`,
  `laterals`, `spawning`). The watch is a sequence of polls of all members; the
  run-time lateral is three threads taking turns in any order.
- **Decodes** (`decoding`, `decoding_complete`, `leaky`).
- **Reading stderr** (`draining`, `stderr_readers`).

`dafny verify dfyconfig.toml` checks the project. `wrappers` holds the option type.

Loops of the source are methods with invariants, proved equal to a function of
their input or to the property itself; objects whose methods update fields
(`Inlining.Expander`, `Expansions.Expander`, `Laterals.LateralRun`,
`Draining.Log`, `StderrReaders.WorkReader`) are classes. What the code calls and
is not modelled (stream types, node shapes, JSON, figures, process and socket
calls) is a parameter about which nothing is assumed.

## What the code does not keep

Where a promise fails, the model keeps the code's branch, gives the input, and
proves when the promise holds.

- Values with a blank at either end are escaped for the graph and then trimmed
  at the option level, so they do not survive: exactly when, `Escaping.ValueReadsBack`.
  The comment at `cli/ffrwd/emit.py:343-345` says the two levels compose as libavfilter's do.
- An empty value with no key, in last place, vanishes: `Filtergraph.EmptyExpressionLost`.
- A function parameter spelled like a generated alias (`f_1_x`) captures it, since
  the names taken are the script's identifiers: `Instancing.CaptureExactly`, and over
  any data `InliningLimits.CapturedAlias`.
- NULL is absence, and written for a parameter it means the DEFAULT
  (`cli/ffrwd/functions.py:5743-5751`). A NULL handed through a bare column to a
  defaulted parameter is written there once inlined, and takes the inner default:
  exactly when, `Nulls.NullHandedOn`, `Nulls.DefaultTaken`. `Inlining.Expander.Expand`
  says whether it happened, and what rules it out beforehand.
- A projection reading a call's `tags` without an alias turns into the row's tags,
  and later declared columns shift: `InliningLimits.TagsMoved`, `InliningLimits.ColumnsShift`.
- The report's `failures` are described (`cli/ffrwd/execute.py:938-941`) as the cause first;
  they stay in members' order, as `Blame.CauseNotFirst` shows: exactly when the cause
  comes first, `Blame.CauseFirst`.
- "A producer that then failed" includes one that failed in the same poll, or a
  feeder writer that had lost its reader: `WatchVerdicts.NamedMeans`, `WatchVerdicts.SamePollNamed`.
- A member the watch names for a producer still running is blamed by nobody if that
  producer then exits 0: `WatchedBlame.NamedIsBlamed`.
- A message read off the last chunk after the stop has emptied the queue gets no
  row: `Laterals.LateGetsNone`, with the exact set in `Laterals.OneRowEach`.
- A decode's id is made of its ref with `:` for `_` (`cli/ffrwd/decode.py:106`): pad 1 of
  `a` and the whole of `a_1` share one, `DecodingComplete.IdsMeet`, and the second is
  kept over the first. Exactly when nothing is lost so, `DecodingComplete.NoneLost`.

## Model

| member | source | states |
|---|---|---|
| Rewriting.RewriteMeans | cli/ffrwd/functions.py:3459-3504 | replacing reads by expressions that evaluate alike keeps what every expression evaluates to |
| Rewriting.AccessorMeans | cli/ffrwd/functions.py:3436-3456 | a path read off an argument, in the accessor form, evaluates as the path followed from the argument |
| Rewriting.ConjoinedPasses | cli/ffrwd/functions.py:3618-3625 | the conjoined WHERE keeps a row exactly when the host's and the body's both do |
| Splicing.LateralReadMeans | cli/ffrwd/functions.py:6080-6136 | every `<alias>.<column>` read evaluates as the record the call gave, once it is the projection behind the column |
| Splicing.ArgumentMeans | cli/ffrwd/functions.py:5740-5760 | what a written argument is bound to means the same after a rewriting as before, but where it turned NULL: then it meant NULL and means the default |
| Splicing.SpliceMeans | cli/ffrwd/functions.py:3628-3666 | putting a body that gives the call's rows in the call's place keeps every row and their order, whatever stands to the left and right of it |
| Splicing.PrefixMeans | cli/ffrwd/functions.py:3645-3666 | queries alike after a FROM prefix are alike with it |
| Instancing.InstanceHygienic | cli/ffrwd/functions.py:6243-6252 | fresh aliases and bound parameters share no name, and no argument reads a fresh alias, unless a parameter is spelled `<fn>_<n>_<alias>` and underscores |
| Instancing.RowsMirrored | cli/ffrwd/functions.py:3408-3433 | renaming and substituting at once gives the body's own rows, item by item |
| Instancing.InstanceMeans | cli/ffrwd/functions.py:5762-5784 | an instance's rows, anywhere in a query, are the body's run over the call's arguments: nothing is captured, and nothing else is asked than that putting them in turns no defaulted argument of the body's NULL |
| Instancing.CaptureExactly | cli/ffrwd/functions.py:5762-5784 | a fresh alias is still read as itself if and only if no parameter of the function is spelled like it |
| Hosting.InstanceHosted | cli/ffrwd/functions.py:5762-5784 | an instance is a query of its own right: its aliases distinct, and it reads only them and what its arguments read |
| Hosting.SplicedHosted | cli/ffrwd/functions.py:3645-3666 | the host after a splice is again such a query, every name still apart |
| Inlining.ExpandedStandsFor | cli/ffrwd/functions.py:3850-3883 | an expanded body with its columns named gives the call's records, column by column, where no defaulted argument turned NULL in it |
| Inlining.LateralShape | cli/ffrwd/functions.py:5909-5942 | inlining one lateral call, whatever its arguments, keeps the query's column names and the tags, captures nothing, and leaves every alias its own |
| Inlining.LateralStep | cli/ffrwd/functions.py:5909-5942 | and keeps its rows and their order, where no defaulted argument turned NULL in the body or to the call's right |
| Inlining.CteStep | cli/ffrwd/functions.py:5847-5893 | a call that reads nothing of the query becomes a CTE of the same rows, where no defaulted argument turned NULL in its body |
| Inlining.Expander.FreshName | cli/ffrwd/functions.py:6215-6221 | the first spelling nothing has taken, and only that one is taken |
| Inlining.Expander.FreshAliases | cli/ffrwd/functions.py:6243-6252 | one fresh name per alias of the body, `<fn>_<n>_<alias>` and underscores, no two alike, none taken before |
| Inlining.Expander.Expand | cli/ffrwd/functions.py:4945-4971 | whatever the nesting, what comes out has no call left, the same column names and no two aliases alike; it means what went in, the same rows in the same order, unless an inlining turned a defaulted argument NULL; and none does in a script that writes no NULL as an argument, default or column, or hands defaulted parameters no bare column but a table's own, or whose default there is NULL. It is refused only for a cause in the query and the functions it names: a chain of calls that comes back to a name, more inlinings than the budget, arguments that do not fit, a call that reads neither what is to its left nor nothing, a column its body does not give. So with none of these it succeeds, and then it took from the budget exactly the inlinings the query leads to |
| Inlining.Expander.Instantiate | cli/ffrwd/functions.py:5762-5784 | the instance's own calls are inlined into it before it leaves for the query, which takes the inlinings its function's body leads to; it is refused only for what the query leads to |
| Answers.LoopsMeans | cli/ffrwd/functions.py:5683-5690 | a query loops exactly when some chain of calls, each in the body of the one before, comes back to a name on the stack or in the chain |
| Placing.InstancePlaced | cli/ffrwd/functions.py:5762-5784 | a body whose calls read what is to their left, or a parameter bound to what reads nothing, is so placed once instanced |
| Placing.SplicedPlaced | cli/ffrwd/functions.py:6080-6136 | and so is the host after a splice: no later call comes to read a name that is not to its left |
| Placing.InstanceReadsIts | cli/ffrwd/functions.py:5762-5784 | an instance's calls are read by the columns they have if its body's are |
| Placing.SplicedReadsIts | cli/ffrwd/functions.py:6080-6136 | and so are the calls left in the host after a splice |
| Placing.SplicedFree | cli/ffrwd/functions.py:6080-6136 | a splice makes the host read no name it neither read before nor binds |
| InliningLimits.CapturedAlias | cli/ffrwd/functions.py:5762-5784 | a parameter spelled like a generated alias captures it: over any data, the instance's rows are the call's own if and only if no row is told from the argument by the column read |
| Nulls.NullHandedOn | cli/ffrwd/functions.py:4499-4503 | an argument turns into NULL exactly when it is a column, in any parens, whose replacement is NULL |
| Nulls.DefaultTaken | cli/ffrwd/functions.py:5740-5760 | a defaulted argument means after a rewriting what it meant if and only if it did not so turn NULL, or the default means NULL |
| Nulls.InstanceNullFree | cli/ffrwd/functions.py:5762-5784 | an instance of a function with no NULL in it, over arguments with none, has none, and its calls' arguments mean what they did |
| Nulls.SplicedNullFree | cli/ffrwd/functions.py:6080-6136 | nor does splicing a body with no NULL in it bring one |
| Nulls.InstanceSteady | cli/ffrwd/functions.py:5762-5784 | where defaulted parameters are handed no bare column but a table's own, or default to NULL, an instance is such a body again and none of its arguments turned NULL |
| Nulls.SplicedSteady | cli/ffrwd/functions.py:6080-6136 | and so is the host after a splice |
| InliningLimits.TagsMoved | cli/ffrwd/functions.py:6080-6136 | a projection turns into `tags` exactly when it read the call's `tags` without an alias |
| InliningLimits.ColumnsShift | cli/ffrwd/functions.py:6080-6136 | the columns from there on then shift by one and the last is lost, whatever the projections |
| Names.DecimalInjective | cli/ffrwd/functions.py:6243-6252 | numbers are told apart by their decimal spelling, which generated names end in |
| Names.Fresh | cli/ffrwd/functions.py:6215-6221 | the base and underscores, the first spelling not taken: every shorter one is |
| Expansions.Expander.ExpandWithin | cli/ffrwd/functions.py:4945-4971 | for any definitions, recursive ones included, expansion ends, with no call left in scope and nothing touched but the calls; every position left is the script's or an expansion's. It is refused as recursive only where calls the text and the definitions may write lead back to a function on the stack or already entered, over budget only where the budget is spent, and for arguments only where such calls lead to one that does not fit; otherwise it succeeds, having spent one of the budget an expansion |
| Expansions.Expander.ExpandCall | cli/ffrwd/functions.py:5680-5700 | a call becomes its body's instance over its expanded arguments, expanded in the body's scope, under an expansion recording its site; that spends budget, and inlinings and budget together never pass 200, and the refusals are caused so |
| Expansions.RankedNotRecursive | cli/ffrwd/functions.py:5683-5690 | where the definitions call only lower ones by some rank, and those on the stack are higher, nothing is refused as recursive |
| Expansions.CausedInBody | cli/ffrwd/functions.py:5683-5700 | a refusal caused in a body is caused by the call that leads to it |
| Expansions.Expander.Arguments | cli/ffrwd/functions.py:5702-5738 | arguments are expanded from an empty stack in the caller's scope and still end: the budget falls even where the cycle check sees nothing |
| Expansions.Expander.Adopt | cli/ffrwd/functions.py:5040-5072 | an adopted call is found no more, and the calls left to adopt go down by one; names already given stay, and two of them are never alike: a second version of a package is told apart by its version |
| Expansions.NoneFound | cli/ffrwd/functions.py:4973-4999 | the scan finds nothing exactly when no call to a definition is left |
| Expansions.KeepsOn | cli/ffrwd/functions.py:4945-4971 | leaving all but the calls alone is kept from one replacement to the next |
| Expansions.InlinedKept | cli/ffrwd/functions.py:4945-4971 | text with no call in it is left as it is |
| Expansions.WasmPut | cli/ffrwd/functions.py:4945-4971 | replacing one call changes the count of calls left to adopt by that call's alone |
| Expansions.InstanceKnown | cli/ffrwd/functions.py:5762-5784 | an instance's positions are its own range's, its arguments' or the script's |
| Expansions.EarliestKnown | cli/ffrwd/functions.py:5762-5784 | a call site's position, the earliest in its text, is one already known |
| Positions.StampReadsBack | cli/ffrwd/functions.py:6328-6334 | a stamped line says its expansion, and its body line exactly when that fits a range |
| Positions.Home | cli/ffrwd/functions.py:6336-6354 | every known line leads to a script line, and a script line to itself |
| Positions.SiteBefore | cli/ffrwd/functions.py:6336-6354 | each step up reaches an earlier expansion or the script |
| Positions.Source | cli/ffrwd/functions.py:6336-6354 | the walk up ends at the outermost call site; its fallback is never given |
| Positions.BodyGoesHome | cli/ffrwd/functions.py:6336-6354 | a body's line goes home to where its call's text goes |
| Positions.Translate | cli/ffrwd/functions.py:6356-6370 | a rejection is always said at a script line, and one on a known line at its call's home |
| Positions.NonePrivate | cli/ffrwd/functions.py:6380-6395 | after settling no node keeps a private line, and the script's own are unmoved |
| Cutting.TokenLength | cli/ffrwd/functions.py:3249-3278 | the scan always moves on, and never past the end |
| Cutting.PastBlockComment | cli/ffrwd/functions.py:3281-3296 | the offset loop agrees with the nested-comment reading |
| Cutting.PastQuoted | cli/ffrwd/functions.py:3299-3314 | the offset loop agrees with the doubled-quote reading |
| Cutting.StatementBlocks | cli/ffrwd/functions.py:3249-3278 | the loop's blocks are the slices at each cut, stripped, and a tail that is not blank |
| Cutting.TokenSame | cli/ffrwd/functions.py:3249-3278 | a token that ends before a statement does is the same token whatever follows the statement |
| Cutting.CutSame | cli/ffrwd/functions.py:3249-3278 | a text is cut at its own end if and only if it is cut there in any script it begins |
| Cutting.JoinThenCut | cli/ffrwd/functions.py:3249-3278 | statements joined are cut apart again, each stripped |
| Cutting.CutThenJoin | cli/ffrwd/functions.py:3249-3278 | any text's slices and tail rebuild it, and each slice is a statement |
| Cutting.QuotedHolds | cli/ffrwd/functions.py:3299-3314 | a run in either quote, whatever else is in it, and a final `;` are one statement |
| Cutting.LineHolds | cli/ffrwd/functions.py:3262-3264 | and so is a line comment, to its newline |
| Cutting.CommentHolds | cli/ffrwd/functions.py:3281-3296 | and a block comment holding another |
| Cutting.DollarHolds | cli/ffrwd/functions.py:3249-3278 | and a dollar-quoted body, of any tag, holding anything but its tag |
| Escaping.ValueReadsBack | cli/ffrwd/emit.py:1436-1456 | an escaped value reads back whole if and only if no blank stands at either end of it; without the reader's trim, always |
| Escaping.OptionsReadBack | cli/ffrwd/emit.py:1871-1888 | an option string reads back as its arguments if and only if every value does and the last is not an empty one without a key |
| Escaping.OptionsToken | cli/ffrwd/emit.py:1436-1456 | the graph level of escaping undone leaves exactly the option level |
| Escaping.ScanArguments | cli/ffrwd/emit.py:1436-1456 | no character of an escaped option string ends a filter, and none is trimmed |
| Filtergraph.ChainsReadBack | cli/ffrwd/emit.py:1814-1828 | a graph's text reads back as its chains, labels and filters in order |
| Filtergraph.GraphReadsBack | cli/ffrwd/emit.py:1814-1828 | a rendered graph reads back exactly if and only if every filter's options do |
| Filtergraph.BlankLost | cli/ffrwd/emit.py:1436-1456 | a value of one blank does not survive, though it is escaped |
| Filtergraph.EmptyExpressionLost | cli/ffrwd/emit.py:1871-1888 | an empty value without a key, in last place, is no argument at all to the reader |
| Wiring.CountConsumers | cli/ffrwd/emit.py:1654-1664 | the counts are how often each slot is consumed, nodes and outputs together |
| Fanout.ExemptRefs | cli/ffrwd/emit.py:1622-1651 | exactly the sources some file takes and every file that does takes plainly: subtitles and data, or once and with no node reading it, or, down a pipe, one |
| Fanout.CheckFanout | cli/ffrwd/emit.py:1574-1609 | accepts exactly when no slot but such a source is consumed twice; every pad is then consumed once |
| Fanout.SourceTaken | cli/ffrwd/emit.py:1574-1651 | in an accepted graph a source's picture or sound is filtered at most once, no file has it twice, and a filtered one reaches a file unfiltered only down a pipe |
| Wiring.VerifyTopological | cli/ffrwd/emit.py:1533-1571 | accepts exactly when every ref is a known stream or an earlier node's pad, and there is an output unless it is a network |
| Wiring.OneReader | cli/ffrwd/emit.py:1574-1609 | two inputs reading one pad are one input |
| Wiring.OutputReadByNone | cli/ffrwd/emit.py:1574-1609 | an output's pad is read by no node |
| Wiring.OneOutput | cli/ffrwd/emit.py:1574-1609 | two outputs of one pad are one output |
| Wiring.AssignLabels | cli/ffrwd/emit.py:1672-1701 | every pad has a label, no two the same; `out<i>` is the pad output i maps and no other's |
| Chains.BuildChains | cli/ffrwd/emit.py:1766-1792 | the chains are the nodes in order, cut where one does not extend the one before |
| Chains.OnePlace | cli/ffrwd/emit.py:1766-1773 | a node has one place in the chains |
| Chains.SpecReadsBack | cli/ffrwd/emit.py:322-327 | read as ffmpeg reads one, decimal numbers by their digits and `v`, `a`, `s` or `d` for the kind, a stream specifier gives back the input, the kind and the place among its kind |
| Chains.SpecInjective | cli/ffrwd/emit.py:1525-1530 | stream specifiers of different streams are spelled differently |
| Chains.WiringKept | cli/ffrwd/emit.py:1795-1828 | linking the rendered chains by label and comma gives back exactly the graph: each filter's name and options, and its edges, node to node, source to node, pad to output, a label of a source standing for the stream its specifier is read as |
| Chains.TextReadsBack | cli/ffrwd/emit.py:1795-1828 | the whole text reads back as the rendered chains if and only if every node's options survive |
| Chains.Emit | cli/ffrwd/emit.py:1672-1828 | from an accepted graph to its text: read as libavfilter reads it, the text is the graph's own filters, options and wiring, each source read at the stream it names |
| Components.FindRoot | cli/ffrwd/emit.py:1747-1763 | following the links ends, at the root |
| Components.LinkedRoot | cli/ffrwd/emit.py:1737-1763 | linking two roots keeps the links acyclic and moves exactly one root's nodes |
| Components.JoinChains | cli/ffrwd/emit.py:1737-1763 | after the pass two nodes share a root exactly when the reads force it |
| Components.AcceptedIsWhole | cli/ffrwd/emit.py:1766-1773 | the chains of every accepted graph are what the split assumes |
| Components.RootsConnect | cli/ffrwd/emit.py:1737-1763 | two chains share a root if and only if reads connect them |
| Components.Components | cli/ffrwd/emit.py:1737-1763 | the parts are the chains grouped by connection, in order, each part and each chain where it first came |
| Components.PartsSelfContained | cli/ffrwd/emit.py:1737-1763 | a node a part reads is a node of that part |
| Components.PartsPartition | cli/ffrwd/emit.py:1737-1763 | no chain is lost and none doubled |
| Slots.ReferencedInputIndices | cli/ffrwd/emit.py:633-662 | the loops over nodes, files, chapters, metadata, trims and options find exactly the slots that are pinned; which those are, `SlotsKept.ReferencedMeans` |
| Slots.KeptAt | cli/ffrwd/emit.py:724-731 | a kept slot keeps its path under its new number |
| Slots.EveryNumberUsed | cli/ffrwd/emit.py:724-731 | the new numbers leave no gap |
| Slots.SameNumberSameSlot | cli/ffrwd/emit.py:724-731 | two kept slots have one number exactly when they are one, and keep their order |
| Slots.DropInputSlots | cli/ffrwd/emit.py:711-769 | the loops make the renumbered graph |
| SlotsKept.DropSlotsKeeps | cli/ffrwd/emit.py:711-769 | one pass renumbers by an order-preserving bijection, and every alias, row, chapter and metadata source, trim and option still names the same input |
| SlotsKept.ReferencedStays | cli/ffrwd/emit.py:633-662 | a kept slot is pinned after exactly when it was before |
| SlotsKept.StillNamesIt | cli/ffrwd/emit.py:711-769 | an alias that pins a slot names the same path after |
| SlotsKept.ReferencedMeans | cli/ffrwd/emit.py:633-662 | a slot is pinned exactly where a node's input, a file's stream, an alias with a window or options, or a chapter or metadata number names it |
| SlotsKept.NamesLead | cli/ffrwd/emit.py:711-769 | over kept inputs every such source still resolves, and to the same path |
| SlotsKept.BothKeep | cli/ffrwd/emit.py:676-708 | two passes one after the other keep what each does |
| SlotsKept.DropUnusedUrlInputs | cli/ffrwd/emit.py:676-688 | every slot is kept but the URL rows' that nothing reads, in order and under its own names; afterwards every URL row left is read, and a graph whose rows all are is left alone |
| SlotsKept.DropDroppedBranchInputs | cli/ffrwd/emit.py:691-708 | every slot is kept but the dropped branches' that nothing reads; afterwards none of theirs is left unread, and the URL rows stay read |
| SlotsKept.DropUnused | cli/ffrwd/emit.py:676-769 | both passes: exactly the unread slots of URL rows and dropped branches go, an unread `input()` stays, nothing named moves to another input, and there is nothing more to drop; every source a node or a file reads, every chapter and metadata number and every alias with a window or options resolves afterwards, to the path it did |
| Device.ReaderIs | cli/ffrwd/device_filters.py:106-121 | the reader table lists exactly the inputs reading a node's first pad |
| Device.ReadersOnce | cli/ffrwd/device_filters.py:106-121 | and none of them twice |
| Device.DropUntilStable | cli/ffrwd/device_filters.py:155-181 | the loop ends, in whatever order a pass takes the names, with the largest set whose members read from the device and are read only there |
| DeviceRuns.Touches | cli/ffrwd/device_filters.py:185-197 | the search through the runs finds a module exactly by a run that leads to one, and what it leaves behind are dead ends |
| DeviceRuns.KeepTouching | cli/ffrwd/device_filters.py:185-199 | the filters kept are exactly those whose run touches a module |
| DeviceRuns.Symmetric | cli/ffrwd/device_filters.py:193-196 | what a chosen filter reads is read by it: runs go both ways |
| DeviceRuns.KeptWhole | cli/ffrwd/device_filters.py:185-199 | runs are kept whole |
| DeviceRuns.KeptQualified | cli/ffrwd/device_filters.py:185-199 | what is kept still meets both conditions by itself |
| DeviceRuns.QualifiedMeans | cli/ffrwd/device_filters.py:155-181 | a set qualifies exactly when its members are candidates, each has its pictures from the device, and whatever takes a picture of one, file or filter, reads it on the device or is of the set |
| DeviceRuns.TouchesMeans | cli/ffrwd/device_filters.py:185-197 | a filter touches a module exactly when a pad it reads, or one that reads it, is held there |
| DeviceRuns.NextTo | cli/ffrwd/device_filters.py:193-196 | a neighbour is one it reads, or that reads it, by the first pad |
| DeviceRuns.OnTheDevice | cli/ffrwd/device_filters.py:155-199 | the set is the greatest of its kind: any qualified set's filters on runs that touch a module are in it; no file off the device and no filter off it is left taking a chosen filter's pictures, and each has its own from the device |
| DeviceFusing.MergeRuns | cli/ffrwd/device_filters.py:215-228 | each filter ends with its whole run's graph, in flow order, over what the run's head reads; exactly those another takes are merged |
| DeviceFusing.Fuse | cli/ffrwd/device_filters.py:215-247 | the nodes left are the survivors in their order, each fused over its run |
| DeviceFusing.RunMeans | cli/ffrwd/device_filters.py:215-247 | a run's filters one by one compute what its fused graph does over the head's input |
| DeviceFusing.FusedOrdered | cli/ffrwd/device_filters.py:230-247 | every ref left names an earlier survivor: none names a merged node |
| DeviceFusing.SinksKept | cli/ffrwd/device_filters.py:215-247 | every file gets the stream it did, given each variant computes what its filter does |
| DeviceFusing.InSomeRun | cli/ffrwd/device_filters.py:215-228 | every chosen filter's run is in some survivor's graph, from the same head |
| DeviceFusing.NoneLeftToMerge | cli/ffrwd/device_filters.py:215-228 | no two survivors could still be merged: what one's head reads, another survivor or a file reads too |
| Blame.Cause | cli/ffrwd/execute.py:2876-2892 | the cause ended by itself with no business ending, and no such member ended sooner |
| Blame.NeverAVictim | cli/ffrwd/execute.py:2831-2901 | with acyclic feeds, and each broken pipe's reader seen ended no later than it, the cause is no broken pipe: the stage stops only what is still running when the watch is over |
| Blame.CauseMeansFailure | cli/ffrwd/execute.py:2869-2888 | a cause is named only where something failed |
| Blame.AllWell | cli/ffrwd/execute.py:2777-2828 | a stage whose members all exited 0, none stopped, names nobody and reports 0 |
| Blame.EachOnce | cli/ffrwd/execute.py:2777-2828 | each member that failed by itself is in exactly one of the failures and the consequences |
| Blame.CauseReported | cli/ffrwd/execute.py:2777-2828 | the cause is among the failures and never the consequences, and the code is 0 exactly with none; with one it is the cause's own, or 1 where it exited 0 |
| Blame.TimedOut | cli/ffrwd/execute.py:2801-2804 | at a timeout the failures are exactly the members named, none a consequence, and the code is nonzero exactly with one of them or a wedge |
| Blame.CauseFirst | cli/ffrwd/execute.py:2801-2817 | the report has the cause first in its failures if and only if it exited 0 or no member listed before it failed on its own |
| Blame.CauseNotFirst | cli/ffrwd/execute.py:2808-2817 | and two members that fail out of their order show that it may not |
| WatchedBlame.NamedIsBlamed | cli/ffrwd/execute.py:2426-2440 | a stage the watch ended blames somebody if and only if something failed, and then nobody who ended after the named member |
| Watch.MarkEnded | cli/ffrwd/execute.py:3082-3088 | each member newly ended, and no other, is given this turn's time |
| Watch.WatchStage | cli/ffrwd/execute.py:3076-3128 | the loop returns at the first turn that says so, with what the turns made of the stage: by any turn at which every member but the feeder writers has been seen ended, and naming nobody only at such a turn |
| Watch.AllSeenReturns | cli/ffrwd/execute.py:3118-3128 | the tables say all have ended exactly when the polls have shown every member but the feeder writers ended; the turn then returns, and one that returns before has a name |
| WatchVerdicts.SeenWhen | cli/ffrwd/execute.py:3082-3088 | the time recorded is that of the first poll to see the member ended |
| WatchVerdicts.TurnAsks | cli/ffrwd/execute.py:2950-3008 | what one turn asks of its tables, said of the polls alone |
| WatchVerdicts.AlwaysSound | cli/ffrwd/execute.py:3089-3118 | after every turn: nobody named means no failure but a writer's that lost its reader; somebody named has a reason |
| WatchVerdicts.NobodyNamed | cli/ffrwd/execute.py:3119-3124 | the watch returns naming nobody only if every member that is no feeder writer exited 0 |
| WatchVerdicts.NamedMeans | cli/ffrwd/execute.py:3089-3118 | a named member failed, or exited 0 with a producer running that failed by the deciding turn or still ran a second on; it is never a writer that lost its reader |
| WatchVerdicts.NamedForGood | cli/ffrwd/execute.py:3089-3118 | once named, a member stays named, and the deadline set then stays |
| WatchVerdicts.ReturnsInTime | cli/ffrwd/execute.py:3125-3128 | from the naming, the watch returns within the cascade and one pause |
| WatchVerdicts.ReturnsExactly | cli/ffrwd/execute.py:3118-3128 | a turn returns if and only if every member but the feeder writers was seen ended by then, or somebody was named and the cascade is over |
| WatchVerdicts.SuspectHeld | cli/ffrwd/execute.py:2950-3008 | a member newly seen to exit 0 with a producer still running is held suspect, and one so held exited within the cascade, has a producer running, and none that failed |
| WatchVerdicts.FinishNamesNobody | cli/ffrwd/execute.py:2971-2994 | if all exit 0 and every producer is seen ended within the cascade of its consumer, nobody is named |
| WatchVerdicts.SamePollNamed | cli/ffrwd/execute.py:2971-2994 | a producer failing in the same poll names a member that exited 0, whichever came first |
| Laterals.LateralRun.Arrive | cli/ffrwd/execute.py:2159-2185 | a message is numbered, and queued exactly when nothing ahead overlaps it |
| Laterals.LateralRun.Take | cli/ffrwd/execute.py:2187-2200 | the oldest waiting is taken, unless the run is ending |
| Laterals.LateralRun.ClearWaiting | cli/ffrwd/execute.py:2064-2074 | the stop takes everything waiting |
| Laterals.NeverOverlapping | cli/ffrwd/execute.py:2172-2200 | in every interleaving at most one instance runs, and those running and waiting never overlap |
| Laterals.NoMomentShared | cli/ffrwd/execute.py:2159-2200 | said of the messages: of two whose instances run or wait at once, both with a start and a length, there is no moment both play over |
| Laterals.QueuedWhenClear | cli/ffrwd/execute.py:2159-2185 | and one that lasts is queued, among others that do, exactly when it binds and shares a moment with none ahead |
| Laterals.ClashMeans | cli/ffrwd/execute.py:1891-1896 | two programmes that last overlap exactly when they share a moment |
| Laterals.StartedInOrder | cli/ffrwd/execute.py:2187-2200 | instances start in the order their messages arrived |
| Laterals.AtMostOneRow | cli/ffrwd/execute.py:2159-2200 | no message gets two rows, or one before it comes |
| Laterals.OneRowEach | cli/ffrwd/execute.py:2064-2200 | when all is over a message has exactly one row, unless it was queued after the stop emptied the queue, and then none |
| Laterals.LateGetsNone | cli/ffrwd/execute.py:2064-2185 | such a message can occur |
| Spawning.Wires | cli/ffrwd/execute.py:971-1010 | an edge is chained if and only if it is the only pipe edge on its side of each process and nothing rules it out |
| Spawning.SpawnOrder | cli/ffrwd/execute.py:2918-2947 | always a permutation; each place taken by the least process ready by then, the rest in stage order |
| Spawning.AllPlaced | cli/ffrwd/execute.py:2918-2947 | the whole order is in producer order if and only if the wires make no ring |
| Spawning.LeastOrder | cli/ffrwd/execute.py:2918-2947 | without a ring every producer is spawned first, and the order is lexicographically least of all such |
| Decoding.DecodeAhead | cli/ffrwd/decode.py:84-118 | the nested loops keep, each under its id in turn, every node rewired and each decode ahead of its first reader |
| Decoding.TableKeeps | cli/ffrwd/decode.py:103-115 | a table filled so keeps all it is given, none over another, exactly when no two ids are one |
| DecodingComplete.NoneLost | cli/ffrwd/decode.py:84-118 | the pass loses no node and no decode if and only if no ref that needs a decode has its id for a node's or another such ref's |
| DecodingComplete.IdsMeet | cli/ffrwd/decode.py:106 | and ids can meet: pad p of a node, and the whole of the one called so with an underscore |
| DecodingComplete.NodesLeft | cli/ffrwd/decode.py:84-118 | ids stay distinct and every ref names an earlier node; each node reads a decode where it needs one and otherwise what it did |
| DecodingComplete.OneDecodeEach | cli/ffrwd/decode.py:84-118 | a ref some node needs decoded has its one decode, and a new node is such a decode |
| DecodingComplete.CodedStays | cli/ffrwd/decode.py:33-45 | a pad is coded after exactly when it was before |
| DecodingComplete.NoneNeedsDecode | cli/ffrwd/decode.py:63-118 | afterwards no frame reader reads a coded video or audio stream |
| DecodingComplete.FramesFed | cli/ffrwd/decode.py:63-118 | said of the nodes: none that takes frames, of pictures or of sound, reads a pad that carries packets |
| DecodingComplete.DecodeOfKind | cli/ffrwd/decode.py:98-112 | the decode of a ref is the filter for its kind, one for video and one for audio, over that ref alone |
| DecodingComplete.OthersUnchanged | cli/ffrwd/decode.py:84-118 | a node that needs no decode is left as it was |
| DecodingComplete.SecondRunIdle | cli/ffrwd/decode.py:84-118 | a second run changes nothing |
| Leaky.DecodeAheadOfLeaky | cli/ffrwd/leaky.py:39-65 | the two loops put each decode in front of its leaky, each kept under its id |
| Leaky.KeptReaders | cli/ffrwd/leaky.py:26-36 | a leaky whose readers all took packets has only such readers after |
| Leaky.KeptExactly | cli/ffrwd/leaky.py:39-65 | a leaky is left over packets if and only if everything reading it took packets, and then everything still does |
| Leaky.NoneNeedsAhead | cli/ffrwd/leaky.py:39-65 | no leaky is left over packets that something decodes after |
| Leaky.PacketsGoOn | cli/ffrwd/leaky.py:26-65 | said of the nodes: whatever reads a leaky that is fed packets takes packets, a shaped reader where it first reads it, and every file of it copies or names no codec |
| Leaky.SecondRunIdle | cli/ffrwd/leaky.py:39-65 | a second run changes nothing |
| Draining.Log.Append | cli/ffrwd/execute.py:3517-3528 | the log holds a suffix of all that was appended: at least `keep` bytes once so many came, fewer without its oldest chunk |
| Draining.Log.Text | cli/ffrwd/execute.py:3537-3539 | what is read out is that suffix |
| Draining.LinesOn | cli/ffrwd/execute.py:3579-3582 | splitting what a chunk left over with the next chunk is splitting both together |
| Draining.LinesRebuild | cli/ffrwd/execute.py:3579-3582 | lines and rest rebuild the stream, and hold no newline |
| StderrReaders.DrainRows | cli/ffrwd/execute.py:3569-3605 | however the stream is cut, the rows are its row lines' and the log the stream without exactly those lines |
| StderrReaders.LoggedWhole | cli/ffrwd/execute.py:3595-3605 | a stream with no row line is logged as it is |
| StderrReaders.WorkReader.Feed | cli/ffrwd/execute.py:3646-3651 | the reader's state is that of all it was fed |
| StderrReaders.DrainWork | cli/ffrwd/execute.py:3608-3625 | however the stream is cut, the reports and the log are the whole stream's |
| StderrReaders.DoneOnce | cli/ffrwd/execute.py:3653-3678 | the end is reported exactly once, whatever the stream says |
| StderrReaders.ReportedWhole | cli/ffrwd/execute.py:3653-3678 | the reports are one for each `progress` line up to the end, each holding the keys since the one before, and a last one where the stream breaks off |
| StderrReaders.OnePerProgress | cli/ffrwd/execute.py:3660-3672 | so there are as many as `progress=continue` lines before the end, and one |
| StderrReaders.LogIsTheRest | cli/ffrwd/execute.py:3660-3672 | the log is every line but the progress ones |

## Left out

- Inlining.Expander.Expand: the star `<alias>.*`, struct fields, run-time laterals, named arguments, value functions spliced by `_expand_call` and nested SELECTs are not modelled; a call whose argument reads a name nothing binds is refused here, where the code leaves that to resolving. When an argument did turn NULL, what is said is of the names and columns alone; a DEFAULT is taken by what is written, as `_bound` takes it, never by what a row holds. That a query recurses, is over budget or misfits its arguments is exact; what is asked of a call's reads for it not to be refused is enough, and more than a closed call needs.
- Instancing.InstanceMeans: asks that the function is well formed (`WellFormed`): what resolving checks of a body, and two things the code does not check, each with the input that breaks it in `InliningLimits`: no parameter is spelled like a generated alias, and no projection reads a call's `tags` without an alias, which is asked of every call though only one inlined laterally moves it.
- Splicing.SpliceMeans: comma joins only; the code refuses outer joins around a lateral call.
- Expansions.Expander.ExpandWithin: positional arguments and bare parameter reads; what the tree means is left to the other model of inlining, and shapes, definition order and argument types, which only refuse more, are left out. The chain of calls behind a refusal is one the text may write: a call that a body or an argument leaves over, its own scope not defining it, counts as written wherever it can be put.
- Expansions.Expander.Adopt: a package's path has no `@` in it, as its address is written; versions are any text.
- Expansions.InstanceKnown: a definition's text, its defaults included, is taken to have fewer than a million lines, a library's being counted in its own file.
- Positions.Source: positions are script lines under a million.
- Cutting.StatementBlocks: regular expressions and `str.strip` are written out over code points; `Slices` and the tail's strip stand for the list it builds.
- Escaping.OptionsReadBack: keys and filter names are plain words, as the source's filter tables have them; libavfilter's shorthand names for keyless values are not part of this model.
- Chains.Emit: measuring filters, number formatting and sink options are left out; so is `-map` of subtitle and data streams, which reach no filter.
- Slots.DropInputSlots: the graph's other tables name no slot and are carried along unchanged.
- Device.DropUntilStable: the shape and port lookups are one set of held inputs and pads a node; which variant a filter has, from its option table, is given.
- DeviceFusing.Fuse: a fused graph is the list of its filters in order, for the comma-joined text of their variants; the wire format is only proved to be looked up safely.
- Blame.NeverAVictim: that a broken pipe's reader was seen ended no later is asked of the stage: it is how pipes break.
- Watch.WatchStage: one turn reads every member in one snapshot, and time counts in ticks; closed windows, the stop event, stalls, wedges and the deadline are left out.
- Laterals.OneRowEach: each started instance is taken to say its one row; compiling, running and port waits inside it are left out, as are the variables a message binds.
- Spawning.SpawnOrder: processes are their places in the stage's list, and the heap is a set whose least member is taken.
- Decoding.DecodeAhead: the kind of stream a ref names is given, and a node's shape is the kinds of its ports.
- Leaky.DecodeAheadOfLeaky: files are the streams they write and a codec; that a leaky has no shape and is no packet filter is asked of the graph, as lowering makes it (`cli/ffrwd/macros.py:146-153`), and that no node is called as a decode would be.
- Draining.Log.Append: asks that at least one byte is kept, as the source's own size does; the copy of the log to a file is left out.
- StderrReaders.DrainWork: parsing a progress line and the figures drawn from a block are parameters.
- Declaration validators, package lookup, probing, lowering, splits and timestamps: long case lists, or not part of these files.
- Process, pipe, socket and signal calls, and sink option tables: nothing to prove of them here.
