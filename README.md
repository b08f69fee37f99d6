# import-linter, modelled in Dafny

import-linter checks a Python project against a set of contracts about its imports. It builds
an import graph of the project, reads the contracts from an INI or TOML configuration file,
checks each contract against its own copy of the graph, and reports which contracts are kept and
which are broken. This project models the core of that program and proves what its code promises.

What is modelled, module by module:

- `Imports`, `Parsing`, `Fields`, `Contract`, `Helpers`, `Checking`, `Dotfile` cover the domain
  layer: modules and their ancestry, import expressions and their glob resolution, the
  `"a -> b"` parser, the typed option fields, field population and the contract registry,
  popping and restoring ignored imports, the legacy layer check and the DOT renderer.
- `Graphs` is the import graph the contracts query: modules, direct imports, the details of each
  import, and squashed modules. `MutableGraph` is the graph that `pop_imports`, `add_imports` and
  `_remove_layers` change in place.
- `Forbidden`, `Layers`, `MultiLayers`, `Protected`, `Standalone`, `Acyclic`, `AcyclicSiblings`,
  `Tree` and `Common` cover the contract types and their shared chain helpers. Each `check` is a
  method proved equal to a specification function, and the kept rule and validation errors are
  lemmas about that function.
- `ContractUtils`, `Reporting`, `UseCases` cover the application layer: handling of unresolved
  ignored imports, the `Report` class with its counters, and the lint run (option normalisation,
  contract filtering, the report loop, and the SUCCESS or FAILURE verdict).
- `UserOptionsAdapter` and `Cli` cover the configuration readers from an already parsed file, the
  caching flags and the exit status.
- `Strings`, `Ordering` and `Wrappers` hold the Python string operations, the ordering `sorted()`
  uses, and the `Option` and `Result` types.

Some queries run in grimp or networkx, whose code is not part of this model. They are
function-valued parameters: shortest chains, illegal layer dependencies, cycle breakers,
shortest cycles, cycle detection in the tree contract, and `chain_exists`. So are graph building,
the timer, contract construction and contract checking inside the use case; contract checking
gives the check or the exception it raises. Raised exceptions are `Err` values of `Result`.

Where the code and its documentation disagree, the model follows the code:

- A `*` in an import expression is an `fnmatch` wildcard. It matches any run of characters, dots
  included, not just one module segment.
- `MultiLayersContract.check` builds a temporary graph without the other layers, but it pops
  the direct imports of each pair from the graph it was given and searches for indirect chains
  in that graph. The model does the same: the temporary graph has no effect on the result, and
  each pair sees the graph the earlier pairs left.
- `_longest_common_package` and `_remove_layers` do not do what their names and callers expect.
  See "Findings" below. The acyclic check is modelled as written (`Acyclic.Check` on
  `FamilyKey` and `PackageDependencyAsWritten`); the corrected helpers (`FamilyKeyIntended`,
  `PackageDependency`) give a second instance of the same outcome function, and
  `Acyclic.CheckSpec` is proved for both.

## Model

| member | source | states |
|---|---|---|
| Imports.RootPackageName | src/importlinter/domain/imports.py:36-38 | the root package is a dot-free prefix of the name that is the whole name or is followed by a dot |
| Imports.ParentExists | src/importlinter/domain/imports.py:40-45 | `parent` raises "Module has no parent." exactly when the name has no dot |
| Imports.ParentOfChild | src/importlinter/domain/imports.py:40-45 | the parent of a name with one more dot-free segment is the shorter name |
| Imports.ParentSplitsName | src/importlinter/domain/imports.py:40-45 | a module with a parent is that parent's name, a dot and a dot-free last segment |
| Imports.ChildOfIff | src/importlinter/domain/imports.py:47-52 | `is_child_of(p)` holds exactly when the name is p's name, a dot and one dot-free segment; no parent gives false |
| Imports.ChildIsDescendant | src/importlinter/domain/imports.py:47-55 | a child is a descendant |
| Imports.DescendantIrreflexive | src/importlinter/domain/imports.py:54-55 | no module is its own descendant |
| Imports.DescendantTransitive | src/importlinter/domain/imports.py:54-55 | a descendant of a descendant is a descendant |
| Imports.DescendantSharesRoot | src/importlinter/domain/imports.py:36-55 | a descendant has the root package of its ancestor |
| Imports.GlobLiteral | src/importlinter/domain/imports.py:80-83 | a pattern without `*` matches only the identical name |
| Imports.GlobStarMatchesAll | src/importlinter/domain/imports.py:80-83 | `*` matches every name |
| Imports.GlobPrefixStar | src/importlinter/domain/imports.py:80-83 | `prefix*` matches exactly the names starting with the prefix |
| Imports.PackageStarMatchesDescendants | src/importlinter/domain/imports.py:80-83 | `pkg.*` matches exactly the descendants of `pkg`, however deep, since `*` also matches dots |
| Imports.ExpressionString | src/importlinter/domain/imports.py:87-88 | the rendering starts with the importer, ends with the imported module and is four characters longer than both |
| Imports.ModuleEquality | src/importlinter/domain/imports.py:11-18 | two Modules are equal exactly when their names are; a Module never equals a plain string |
| Imports.ExpressionEquality | src/importlinter/domain/imports.py:87-91 | two expressions are equal exactly when both sides are |
| Imports.MatchedPairs | src/importlinter/domain/imports.py:75-85 | a pair is produced exactly when its importer matches the importer pattern and its imported module the imported pattern |
| Imports.LiteralExpressionPairs | src/importlinter/domain/imports.py:75-85 | a wildcard-free expression resolves to its own pair when both modules are in the graph, else to nothing |
| Imports.Product | src/importlinter/domain/imports.py:85 | the product holds exactly the pairs of an element of each list |
| Imports.ToModules | src/importlinter/domain/imports.py:75-85 | the loop and product yield exactly the matched pairs as Modules |
| Graphs.DirectlyImportedBy | src/importlinter/domain/ports/graph.py:72-73 | exactly the modules the given module imports directly |
| Graphs.ImportersOf | src/importlinter/domain/ports/graph.py:75-76 | exactly the modules that import the given module directly |
| Graphs.DetailsFor | src/importlinter/domain/ports/graph.py:42-57 | exactly the recorded details of the direct import between the two modules |
| Graphs.Children | src/importlinter/domain/ports/graph.py:21-22 | exactly the graph's modules that are children of the module |
| Graphs.Descendants | src/importlinter/domain/ports/graph.py:24-25 | exactly the graph's modules that are descendants of the module |
| Graphs.ChildrenAreDescendants | src/importlinter/domain/ports/graph.py:21-25 | every child found is among the descendants found |
| Graphs.WithImport | src/importlinter/domain/ports/graph.py:59-67 | adding an import adds both modules, the import and its detail, and keeps a valid graph valid |
| Graphs.WithEdge | src/importlinter/domain/ports/graph.py:59-67 | adding an import without a line adds both modules and the import only, keeping validity |
| Graphs.WithoutImport | src/importlinter/domain/ports/graph.py:69-70 | the import and its details go, everything else stays, and validity is kept |
| Graphs.MutableGraph.constructor | src/importlinter/domain/ports/graph.py:7 | a mutable graph holding the given graph |
| Graphs.MutableGraph.Details | src/importlinter/domain/ports/graph.py:42-57 | the current details of the direct import between the two modules |
| Graphs.MutableGraph.RemoveImport | src/importlinter/domain/ports/graph.py:69-70 | the graph loses that import and its details, nothing else |
| Graphs.MutableGraph.AddImport | src/importlinter/domain/ports/graph.py:59-67 | the graph gains the import, its modules and its detail, nothing else |
| Graphs.MutableGraph.AddEdge | src/importlinter/domain/ports/graph.py:59-67 | the graph gains the import and its modules, nothing else |
| Fields.FieldInit | src/importlinter/domain/fields.py:32-52 | a required field with a default raises ValueError; otherwise the field is required exactly when no default is given and `required` is not False, and the default is kept |
| Fields.ParseString | src/importlinter/domain/fields.py:70-73 | a list is refused with the multiple-values message; a single string is returned unchanged |
| Fields.ParseModule | src/importlinter/domain/fields.py:138-139 | fails exactly as the string field does, otherwise the Module named by that string |
| Fields.AsItems | src/importlinter/domain/fields.py:92-95 | a single value is treated as a one-item list |
| Fields.ParseEach | src/importlinter/domain/fields.py:96-99 | succeeds exactly when the subfield accepts every item, giving their clean values in order; otherwise fails as the first refused item does |
| Fields.ParseMultiple | src/importlinter/domain/fields.py:91-99 | the loop parses the items of a list, tuple or single value as the per-item specification says |
| Fields.ParseEachSnoc | src/importlinter/domain/fields.py:97-98 | parsing one more accepted item appends its clean value |
| Fields.ParseEachPrefixFails | src/importlinter/domain/fields.py:97-98 | the first refused item decides the failure of the whole list |
| Fields.ParseList | src/importlinter/domain/fields.py:113-114 | the clean values in input order, one per item, succeeding exactly when every item is accepted; a failure is that of the first refused item |
| Fields.ParseSet | src/importlinter/domain/fields.py:129-130 | the set of exactly the clean items, no larger than the list, succeeding exactly when every item is accepted |
| Fields.ParseImportExpression | src/importlinter/domain/fields.py:153-163 | an accepted expression has two non-empty sides with whole-segment wildcards and writes back to the input; the "Must be in the form" message exactly when either side of the first ` -> ` is empty (so also for a string without it); the wildcard message when both sides are there but either has a partial-segment wildcard; a list is refused |
| Fields.PartitionExpression | src/importlinter/domain/fields.py:155 | an expression string whose importer has no space splits back into its two sides |
| Fields.ExpressionRoundTrip | src/importlinter/domain/fields.py:153-168 | a well-formed expression, written out, parses back to itself |
| Fields.DoubleStarRefused | src/importlinter/domain/fields.py:165-168 | a segment `**` is not a valid wildcard |
| Fields.MisplacedWildcardRefused | src/importlinter/domain/fields.py:160-168 | an importer with a partial-segment wildcard is refused with the wildcard message |
| Fields.StarSegmentAccepted | src/importlinter/domain/fields.py:165-168 | `pkg.*` is valid under any valid package |
| Fields.PartialStarSegmentRefused | src/importlinter/domain/fields.py:165-168 | a segment longer than one character containing `*` is refused |
| Fields.EnumFieldInit | src/importlinter/domain/fields.py:196-227 | construction succeeds exactly when the base field accepts its arguments and every member value is a string, keeping those values in order |
| Fields.ParseEnum | src/importlinter/domain/fields.py:202-219 | a list is refused with the multiple-values message; a blank value gives the default; otherwise the stripped value when it is a member value, else a ValidationError listing the allowed values: `Invalid value '<stripped>': expected 'a', 'b' or 'c'.` |
| Fields.EnumIgnoresPadding | src/importlinter/domain/fields.py:206-213 | whitespace around a member value is ignored |
| Contract.GetFields | src/importlinter/domain/contract.py:50-60 | exactly the class attributes that are fields, with their names; each field comes from the class dictionary |
| Contract.GetFieldsInOrder | src/importlinter/domain/contract.py:50-56 | the fields are the field entries of the class dictionary at strictly increasing positions, and every field entry is among them, so `__dict__` order is kept |
| Contract.FieldsFrom | src/importlinter/domain/contract.py:56 | from any position on, the fields picked are exactly the field entries there, in order |
| Contract.PicksField | src/importlinter/domain/contract.py:56 | a field entry is picked before the fields that follow it |
| Contract.FieldStep | src/importlinter/domain/contract.py:26-45 | a missing option takes the default, else a required-field error, else None; a present one takes the parsed value, records the ValidationError message, or lets any other exception escape |
| Contract.PopulateSnoc | src/importlinter/domain/contract.py:26-45 | the fields are processed one after another in order |
| Contract.PopulateFieldwise | src/importlinter/domain/contract.py:25-45 | when nothing escapes, every field's own outcome is recorded, and only field names are recorded |
| Contract.PopulateAborts | src/importlinter/domain/contract.py:29-45 | population stops with an exception exactly when some field's parse raises something other than a ValidationError |
| Contract.ErrorsRaisedTogether | src/importlinter/domain/contract.py:47-48 | InvalidContractOptions is raised exactly when some field has an error and none raised otherwise, and it carries every field's error message |
| Contract.PopulatePrefixAborted | src/importlinter/domain/contract.py:29-45 | once an exception escapes, the remaining fields are not processed |
| Contract.Contract.constructor | src/importlinter/domain/contract.py:9-14 | the contract holds its name and both option dictionaries, with no field set yet |
| Contract.Contract.PopulateField | src/importlinter/domain/contract.py:27-45 | one field's outcome; only a clean or default value is set on the contract |
| Contract.Contract.PopulateFields | src/importlinter/domain/contract.py:16-48 | the loop yields the outcome of populating the class's fields in order, and on success sets exactly their values |
| Contract.NewContractCheck | src/importlinter/domain/contract.py:94-102 | keeps `kept`; missing metadata and warnings become empty ones, given ones are kept |
| Contract.ContractRegistry.constructor | src/importlinter/domain/contract.py:110-111 | a registry with no contract class |
| Contract.ContractRegistry.Register | src/importlinter/domain/contract.py:113-114 | the name now maps to the class, other names unchanged |
| Contract.ContractRegistry.GetContractClass | src/importlinter/domain/contract.py:116-120 | the registered class when the name is known, otherwise NoSuchContractType carrying the name |
| Helpers.PoppablePairs | src/importlinter/domain/helpers.py:29-36 | exactly the matched pairs that have import details in the graph |
| Helpers.DetailsOfPairs | src/importlinter/domain/helpers.py:30-35 | exactly the graph's details of the given pairs |
| Helpers.RemovePairs | src/importlinter/domain/helpers.py:36 | the pairs' imports and details go, modules stay, and validity is kept |
| Helpers.PopOneEffect | src/importlinter/domain/helpers.py:27-36 | popping one expression removes exactly the matched imports, returns all their details, and leaves no detail for any matched pair |
| Helpers.PopOneFails | src/importlinter/domain/helpers.py:37-38 | MissingImport is raised exactly when no matched pair has an import in the graph |
| Helpers.RestorePairs | src/importlinter/domain/helpers.py:43-63 | adding back the details of removed pairs restores a valid graph exactly |
| Helpers.AddAllUnion | src/importlinter/domain/helpers.py:53-63 | adding two batches of details in turn adds their union |
| Helpers.PopAllValid | src/importlinter/domain/helpers.py:13-40 | popping keeps the graph valid and its modules unchanged |
| Helpers.PopThenAddRestores | src/importlinter/domain/helpers.py:47-51 | when pop_imports succeeds, add_imports of what it returned gives back the original graph |
| Helpers.PopAllError | src/importlinter/domain/helpers.py:37-38 | a failure names one of the expressions as missing |
| Helpers.PopExpression | src/importlinter/domain/helpers.py:27-38 | the inner loop over the matched pairs removes what the per-expression specification says, and leaves the graph alone when nothing matched |
| Helpers.PopImports | src/importlinter/domain/helpers.py:13-40 | the loop leaves the graph and result that the sequential specification gives |
| Helpers.AddImports | src/importlinter/domain/helpers.py:43-63 | the loop adds every given detail to the graph |
| Parsing.NameRun | src/importlinter/domain/parsing.py:8 | the end of the longest run of `[\w.]` characters from the given position |
| Parsing.StringToDirectImport | src/importlinter/domain/parsing.py:18-26 | a string that does not match raises ValueError with the "Could not parse direct import" message |
| Parsing.ParseSound | src/importlinter/domain/parsing.py:8-26 | an accepted string is exactly `<name> -> <name>` with the two returned module names |
| Parsing.ParseComplete | src/importlinter/domain/parsing.py:8-26 | every string of the form `<name> -> <name>` is accepted with those two modules |
| Parsing.RenderThenParse | src/importlinter/domain/parsing.py:18-26 | two names written with ` -> ` parse back to the direct import between them |
| Parsing.PaddedRejected | src/importlinter/domain/parsing.py:8 | leading or trailing spaces are refused, as the anchored pattern demands |
| Parsing.StringsToDirectImports | src/importlinter/domain/parsing.py:11-15 | every string converted in order, or the first conversion's error |
| Checking.CheckContract | src/importlinter/domain/checking.py:9-24 | the contract is invalid exactly when, in some container, a lower layer has a chain to a higher one |
| Checking.OnlyUpwardChainsMatter | src/importlinter/domain/checking.py:13-23 | the verdict depends only on chains from lower to higher layer packages within a container |
| Checking.TrivialContractsValid | src/importlinter/domain/checking.py:13-15 | fewer than two layers, or no container, is always valid |
| ContractUtils.AlertLevelValuesUnique | src/importlinter/application/contract_utils.py:9-13 | the alert levels have distinct values |
| ContractUtils.ExpressionStrings | src/importlinter/application/contract_utils.py:35 | exactly the rendered strings of the expressions |
| ContractUtils.SmallestExpressionString | src/importlinter/application/contract_utils.py:35 | the first sorted string is the rendering of one of the expressions and precedes every other rendering |
| ContractUtils.WarnAll | src/importlinter/application/contract_utils.py:30-33 | one warning per expression, in order, naming that expression |
| ContractUtils.HandleUnresolvedImportExpressions | src/importlinter/application/contract_utils.py:16-38 | nothing for level none or no expressions; a warning per expression for warn; for error, MissingImport naming the smallest rendered expression |
| Dotfile.RenderModuleIsLastSegment | src/importlinter/domain/dotfile.py:59-62 | a module renders as a dot followed by its last dotted segment |
| Dotfile.RenderAttributes | src/importlinter/domain/dotfile.py:21 | one rendered `key="value"` per attribute |
| Dotfile.RenderAttrsCases | src/importlinter/domain/dotfile.py:14-24 | no attributes render as nothing; a label, a dashed style, or both in that order, inside brackets |
| Dotfile.EdgeStringLayout | src/importlinter/domain/dotfile.py:11-12 | an edge renders as the quoted source, ` ->  `, the quoted destination and its attributes |
| Dotfile.EdgeLessIsStrictTotalOrder | src/importlinter/domain/dotfile.py:4-9 | the dataclass order on edges is a strict total order |
| Dotfile.SortedEdges | src/importlinter/domain/dotfile.py:54 | every edge exactly once, in strictly increasing dataclass order |
| Dotfile.NodeLines | src/importlinter/domain/dotfile.py:52-53 | one indented, quoted line per node, in order |
| Dotfile.EdgeLines | src/importlinter/domain/dotfile.py:54-55 | one indented line per edge, in order |
| Dotfile.BodyLinesQuoted | src/importlinter/domain/dotfile.py:48-55 | every node and edge line is the four-space indent then a quote |
| Dotfile.LinesLayout | src/importlinter/domain/dotfile.py:46-57 | the header, then the node lines, then the edge lines, then the closing brace |
| Dotfile.ConcentrateLineIff | src/importlinter/domain/dotfile.py:50-51 | the `concentrate=true` line appears exactly when concentrate is set |
| Dotfile.RenderText | src/importlinter/domain/dotfile.py:57 | the text opens with `digraph {` and ends with `}` and a newline |
| Dotfile.RenderNodeLines | src/importlinter/domain/dotfile.py:52-53 | the loop appends the node lines in order |
| Dotfile.RenderEdgeLines | src/importlinter/domain/dotfile.py:54-55 | the loop appends the edge lines in order |
| Dotfile.DotGraph.constructor | src/importlinter/domain/dotfile.py:35-38 | a graph with its title and concentrate flag and no nodes or edges |
| Dotfile.DotGraph.AddNode | src/importlinter/domain/dotfile.py:40-41 | the node set gains the name |
| Dotfile.DotGraph.AddEdge | src/importlinter/domain/dotfile.py:43-44 | the edge set gains the edge |
| Dotfile.DotGraph.Render | src/importlinter/domain/dotfile.py:46-57 | the text is the layout above for the sorted nodes and edges, joined with newlines |
| Common.ChainEdges | src/importlinter/contracts/_common.py:134-135 | exactly the consecutive pairs of a chain |
| Common.WithoutChainRemovesPairs | src/importlinter/contracts/_common.py:134-135 | removing a chain's imports one by one removes exactly its consecutive pairs |
| Common.WithoutChainShrinks | src/importlinter/contracts/_common.py:130-136 | removing a chain found in the graph strictly shrinks its imports, so the popping loop ends |
| Common.PopChainsExhausts | src/importlinter/contracts/_common.py:128-136 | after popping, no chain remains between the two modules, the imports only shrank, and no popped chain's import is left |
| Common.RemoveChain | src/importlinter/contracts/_common.py:134-135 | the loop removes each consecutive import of the chain |
| Common.PopShortestChains | src/importlinter/contracts/_common.py:128-136 | the loop yields the chains and leaves the graph that the popping specification gives |
| Common.LineNumbers | src/importlinter/contracts/_common.py:64 | the distinct line numbers of the import's details, in increasing order |
| Common.SegmentLinks | src/importlinter/contracts/_common.py:57-71 | one link per consecutive pair of the chain, with its line numbers from the reference graph |
| Common.BuildSegment | src/importlinter/contracts/_common.py:57-71 | the loop builds the links of the chain |
| Common.Prepend | src/importlinter/contracts/_common.py:53-73 | an earlier segment is put before the rest, and a failure propagates |
| Common.PrependNothing | src/importlinter/contracts/_common.py:53-73 | prepending nothing changes nothing |
| Common.PrependTwice | src/importlinter/contracts/_common.py:53-73 | prepending twice prepends the concatenation |
| Common.SegmentsOfChains | src/importlinter/contracts/_common.py:54-72 | one segment per chain, in order |
| Common.HasDirectChainCons | src/importlinter/contracts/_common.py:55-56 | a list has a two-module chain exactly when its first or a later chain has two modules |
| Common.SegmentsFollowPoppedChains | src/importlinter/contracts/_common.py:44-73 | find_segments fails exactly when a popped chain is direct, with the direct-chain message; otherwise it gives the segments of the popped chains and leaves the popped graph |
| Common.FindSegments | src/importlinter/contracts/_common.py:44-73 | the loop's graph and result are those of the specification |
| Common.FamilyMembers | src/importlinter/contracts/_common.py:84-88 | exactly the names that are the package or its descendants |
| Common.FamilyMembersSorted | src/importlinter/contracts/_common.py:83-88 | filtering a sorted list keeps it sorted |
| Common.LinksFrom | src/importlinter/contracts/_common.py:107-115 | one link from the importer to each target, with its line numbers |
| Common.LinksTo | src/importlinter/contracts/_common.py:89-97 | one link from each source to the imported module, with its line numbers |
| Common.HeadImportsSpec | src/importlinter/contracts/_common.py:81-97 | the head imports are exactly the imports of the segment's first imported module from the importer package or its descendants, sorted by importer |
| Common.TailImportsSpec | src/importlinter/contracts/_common.py:99-115 | the tail imports are exactly the imports from the segment's last importer into the imported package or its descendants, sorted |
| Common.Middle | src/importlinter/contracts/_common.py:119 | the segment without its first and last links |
| Common.CollapseSegmentSucceeds | src/importlinter/contracts/_common.py:80-123 | collapsing succeeds exactly when the segment is non-empty and has a head and a tail import; otherwise IndexError |
| Common.CollapsedChainKeepsMiddle | src/importlinter/contracts/_common.py:119 | the collapsed chain keeps the segment's inner links between its new ends |
| Common.CollapsedChainFirst | src/importlinter/contracts/_common.py:119 | the chain starts with an import of the segment's first imported module from the importer package |
| Common.CollapsedChainLast | src/importlinter/contracts/_common.py:119 | the chain ends with an import from the segment's last importer into the imported package |
| Common.CollapsedChainExtraFirsts | src/importlinter/contracts/_common.py:120 | the extra firsts are other head imports, each after the chosen one in name order |
| Common.CollapsedChainExtraFirstsSorted | src/importlinter/contracts/_common.py:120 | the extra firsts are sorted by importer |
| Common.CollapsedChainExtraLasts | src/importlinter/contracts/_common.py:121 | the extra lasts are other tail imports, each after the chosen one in name order |
| Common.CollapsedChainExtraLastsSorted | src/importlinter/contracts/_common.py:121 | the extra lasts are sorted by imported module |
| Common.CollapseAllFails | src/importlinter/contracts/_common.py:76-125 | collapsing fails exactly when some segment fails |
| Common.CollapseAllSegmentwise | src/importlinter/contracts/_common.py:76-125 | on success there is one collapsed chain per segment, in order |
| Common.SegmentsToCollapsedChains | src/importlinter/contracts/_common.py:76-125 | the loop gives the collapsed chains of the specification |
| Common.LineNumberItems | src/importlinter/contracts/_common.py:150 | one `l.<n>` item per line number |
| Common.SourceStrings | src/importlinter/contracts/_common.py:147-151 | one source string per head import, in position order |
| Common.LastStrings | src/importlinter/contracts/_common.py:160-165 | one indented `& <imported>` string per extra last |
| Common.HeadStrings | src/importlinter/contracts/_common.py:145-158 | one string without extra firsts, else one per extra first plus one |
| Common.BulletLineParts | src/importlinter/contracts/_common.py:167-171 | a printed line is its two-character bullet followed by the string |
| Common.HeadStringsLayout | src/importlinter/contracts/_common.py:146-158 | without extra firsts, the arrow string alone; with them, the import, each extra first but the last, then the last with its arrow |
| Common.ImportStringsLayout | src/importlinter/contracts/_common.py:145-165 | the head strings, then one string per extra last indented by the importer's length plus four |
| Common.DirectImportBullets | src/importlinter/contracts/_common.py:167-171 | at least one line, and each starts with its bullet |
| Common.BuildHeadStrings | src/importlinter/contracts/_common.py:145-158 | the loop builds the head strings |
| Common.AppendLastStrings | src/importlinter/contracts/_common.py:160-165 | the loop appends the extra-last strings |
| Common.BulletAll | src/importlinter/contracts/_common.py:167-171 | the loop bullets each string |
| Common.RenderDirectImport | src/importlinter/contracts/_common.py:139-171 | the printed lines of one direct import |
| Common.SingleImportLine | src/importlinter/contracts/_common.py:155-158 | a plain import prints one indented arrow line |
| Common.MiddleLines | src/importlinter/contracts/_common.py:37-38 | one indented arrow line per inner link |
| Common.ChainLinesCount | src/importlinter/contracts/_common.py:33-41 | rendering a non-empty chain prints the head lines, one line per further link, and the extra lasts when the chain has more than one link |
| Common.MiddleLinesBullets | src/importlinter/contracts/_common.py:37-38 | every inner line is indented by two spaces |
| Common.BulletedBlocks | src/importlinter/contracts/_common.py:167-171 | only the first line of the three blocks carries the dash |
| Common.ChainLinesBullets | src/importlinter/contracts/_common.py:33-41 | a rendered chain has its dash on the first line only |
| Common.RenderMiddle | src/importlinter/contracts/_common.py:37-38 | the loop renders the inner links |
| Common.RenderChainData | src/importlinter/contracts/_common.py:33-41 | the printed lines of the chain, or the IndexError of an empty chain |
| Forbidden.CheckAllModulesExistInGraph | src/importlinter/contracts/forbidden.py:159-164 | the error names the first listed module missing from the graph; there is none exactly when all are present |
| Forbidden.ExternalSubpackageIffDotted | src/importlinter/contracts/forbidden.py:171 | a module differs from its root package exactly when its name has a dot |
| Forbidden.ExternalModulesErrorSpec | src/importlinter/contracts/forbidden.py:166-193 | no externals: no error; externals without include_external_packages: the configuration error; with it: an error iff some external is dotted, naming such a module |
| Forbidden.CheckExternalForbiddenModules | src/importlinter/contracts/forbidden.py:166-180 | the loop raises the error the specification gives |
| Forbidden.AllModulesInPackageSpec | src/importlinter/contracts/forbidden.py:213-222 | the family is the module alone when squashed, otherwise the module and its descendants in the graph |
| Forbidden.DirectChainsSpec | src/importlinter/contracts/forbidden.py:195-211 | a direct chain is exactly a two-module import from the source family into the forbidden family, and is a chain in the graph |
| Forbidden.DirectChainsFrom | src/importlinter/contracts/forbidden.py:206-210 | the inner loop collects exactly the imports of one module into the targets |
| Forbidden.GetDirectChains | src/importlinter/contracts/forbidden.py:195-211 | the nested loops return exactly the direct chains |
| Forbidden.BuildGroup | src/importlinter/contracts/forbidden.py:98-114 | one entry per chain in sorted order, each the chain's links with their line numbers |
| Forbidden.SearchPair | src/importlinter/contracts/forbidden.py:84-114 | a group exactly when the pair has chains (direct ones when indirect imports are allowed), equal to its specification |
| Forbidden.SearchSource | src/importlinter/contracts/forbidden.py:77-116 | groups for exactly the forbidden modules the source reaches |
| Forbidden.CollectGroups | src/importlinter/contracts/forbidden.py:76-116 | groups for exactly the broken (source, forbidden) pairs; kept iff none |
| Forbidden.Check | src/importlinter/contracts/forbidden.py:44-134 | returns or raises exactly what the specification function gives |
| Forbidden.KeptIffNoChains | src/importlinter/contracts/forbidden.py:45-97 | kept iff no source module has a chain to a forbidden module in the graph |
| Forbidden.OkMeansSourcesExist | src/importlinter/contracts/forbidden.py:67 | a check that returns found every source module in the graph |
| Forbidden.InvalidChainsShape | src/importlinter/contracts/forbidden.py:115-133 | invalid_chains is strictly sorted by (upstream, downstream), names in-graph forbidden and source modules, and no entry is empty |
| Forbidden.GroupsInOrder | src/importlinter/contracts/forbidden.py:125-133 | the collected groups, sorted by key, are the invalid_chains metadata |
| Layers.RawModuleTailsSpec | src/importlinter/contracts/layers.py:57-65 | at least one tail; each is stripped and free of the delimiter split on; with no delimiter the one tail is the stripped string |
| Layers.RawModuleTailsRoundTrip | src/importlinter/contracts/layers.py:57-61 | unpadded names joined with a vertical bar split back into the same names |
| Layers.ParseIsIndependent | src/importlinter/contracts/layers.py:67-81 | an error, with its message, exactly when both a vertical bar and ":" appear; not independent exactly when only ":" appears |
| Layers.ParseTail | src/importlinter/contracts/layers.py:46-52 | a tail is optional exactly when wrapped in parentheses, and its name is what lies inside them; otherwise the name is the whole tail |
| Layers.CollectTails | src/importlinter/contracts/layers.py:44-53 | the tails collected are exactly the parsed raw tails |
| Layers.ParseLayer | src/importlinter/contracts/layers.py:41-54 | parsing gives the layer of the specification: a list is refused, mixed delimiters are invalid |
| Layers.LayerOfString | src/importlinter/contracts/layers.py:41-81 | a string layer is invalid exactly with mixed delimiters; otherwise it is independent unless ":" is used and holds exactly the parsed tails |
| Layers.LayerOfList | src/importlinter/contracts/layers.py:42 | a list value is refused as multiple values |
| Layers.Validate | src/importlinter/contracts/layers.py:132-140 | the "exhaustive" option error exactly when exhaustive without containers |
| Layers.AllTailsSpec | src/importlinter/contracts/layers.py:177-181 | a tail is in the union exactly when some layer has it |
| Layers.GetAllModuleTails | src/importlinter/contracts/layers.py:177-181 | the loop computes the union of the layers' tails |
| Layers.ContainerLayersErrorSpec | src/importlinter/contracts/layers.py:231-242 | no error exactly when every required tail exists under the container; an error names a missing required module |
| Layers.OptionalTailNeverMissing | src/importlinter/contracts/layers.py:236-237 | adding an optional tail never changes the container's layer check |
| Layers.CheckAllLayersExistForContainer | src/importlinter/contracts/layers.py:231-242 | the loop raises the error of the specification |
| Layers.ContainerErrorNone | src/importlinter/contracts/layers.py:211-229 | a container passes exactly when it lies in a root package and holds every required layer |
| Layers.ContainersErrorSpec | src/importlinter/contracts/layers.py:207-229 | containers pass exactly when each lies in a root package and holds every required layer; otherwise the error is that of some container |
| Layers.ValidateContainers | src/importlinter/contracts/layers.py:207-229 | the loop raises the error of the specification |
| Layers.VisitOrderSpec | src/importlinter/contracts/layers.py:263-266 | the names visited are exactly the required names of the layers |
| Layers.ContainerlessErrorSpec | src/importlinter/contracts/layers.py:262-271 | no error exactly when every required tail of every layer is in the graph; an error names a missing required tail |
| Layers.CheckAllContainerlessLayersExist | src/importlinter/contracts/layers.py:262-271 | the loops raise the error of the specification |
| Layers.ChildLastSegment | src/importlinter/contracts/layers.py:254-256 | a child of a container is the container, a dot and its last segment |
| Layers.UndeclaredModulesSpec | src/importlinter/contracts/layers.py:244-260 | empty unless exhaustive; otherwise exactly the children of containers whose last segment is neither a tail name nor ignored |
| Layers.UndeclaredChildren | src/importlinter/contracts/layers.py:254-258 | the undeclared children of one container |
| Layers.GetUndeclaredModules | src/importlinter/contracts/layers.py:244-260 | the loops compute the undeclared modules of the specification |
| Layers.GrimpifyLayers | src/importlinter/contracts/layers.py:294-302 | one grimp layer per layer, in order, with the tails' names and the same independence |
| Layers.CheckedLayersExist | src/importlinter/contracts/layers.py:159-162 | a check that returns has found every required layer in each container (inside a root package), or at the top level |
| Layers.KeptIff | src/importlinter/contracts/layers.py:168-175 | kept exactly when no illegal dependency is found and, if exhaustive, every child of every container is declared |
| Layers.BuildInvalidChains | src/importlinter/contracts/layers.py:282-292 | one entry per illegal dependency, in the order they are iterated, with its importer and imported layer and the detailed chain of each of its routes, in order |
| Layers.CheckOutcome | src/importlinter/contracts/layers.py:142-175 | raises exactly the container or layer error when there is one; otherwise passes the warnings through and holds exactly two metadata entries: `invalid_dependencies`, the invalid chains built from the dependencies found, empty exactly when none is found, and `undeclared_modules` |
| Layers.LayersContract.Check | src/importlinter/contracts/layers.py:142-175 | records the union of the tails and returns or raises what the specification gives, including the invalid chains built from the dependencies found |
| Graphs.WithoutModules | src/importlinter/domain/ports/graph.py:81-82 | the modules go, with every import and detail involving them; a valid graph stays valid |
| Graphs.WithoutModulesTwice | src/importlinter/domain/ports/graph.py:81-82 | removing two sets of modules in turn removes their union |
| Graphs.MutableGraph.RemoveModule | src/importlinter/domain/ports/graph.py:81-82 | the graph loses the module, its imports and their details |
| MultiLayers.ParseMultiLayerSpec | src/importlinter/contracts/multi_layers.py:43-45 | a list is refused; a string gives one layer per comma-separated piece, in order and unstripped |
| MultiLayers.ParseMultiLayerRoundTrip | src/importlinter/contracts/multi_layers.py:43-45 | comma-free names joined with commas are read back as the same layers |
| MultiLayers.ModulePermutationsSpec | src/importlinter/contracts/multi_layers.py:127-141 | (a, b) is yielded exactly when a is a layer of some level and b is a sibling of another name or a layer of a later level |
| MultiLayers.SiblingsBothWays | src/importlinter/contracts/multi_layers.py:133-135 | distinct siblings are banned from each other in both directions |
| MultiLayers.HigherMayImportLower | src/importlinter/contracts/multi_layers.py:139-141 | a higher layer and a lower one give the downward pair and never the upward one |
| MultiLayers.ExistenceErrorSpec | src/importlinter/contracts/multi_layers.py:72-77 | no error exactly when every layer is in the graph; an error names a missing layer |
| MultiLayers.CheckAllLayersExist | src/importlinter/contracts/multi_layers.py:72-77 | the loops raise the error of the specification |
| MultiLayers.RemoveAll | src/importlinter/contracts/multi_layers.py:147-148 | removing each of a set of modules removes the set |
| MultiLayers.RemoveLayer | src/importlinter/contracts/multi_layers.py:145-149 | one layer, if removable, goes with its descendants |
| MultiLayers.RemoveLevel | src/importlinter/contracts/multi_layers.py:145-149 | the layers of one level go with their descendants, and the removed set stays closed under descendants |
| MultiLayers.RemoveLayers | src/importlinter/contracts/multi_layers.py:143-149 | the graph loses exactly the removable layers and their descendants |
| MultiLayers.DoomedSpec | src/importlinter/contracts/multi_layers.py:143-149 | a module is removed exactly when it is, or descends from, a layer in the graph other than the pair |
| MultiLayers.RemoveLayersSpec | src/importlinter/contracts/multi_layers.py:143-149 | no removable layer or descendant of one is left, and every module that goes is one of them |
| MultiLayers.RemoveLayersAsWrittenKeepsAll | src/importlinter/contracts/multi_layers.py:146 | as written, nothing is removed |
| MultiLayers.RemoveLayersCounterexample | src/importlinter/contracts/multi_layers.py:143-149 | three single-layer levels: as written the third layer stays, as intended it goes |
| MultiLayers.DirectPaths | src/importlinter/contracts/multi_layers.py:88-104 | one path per direct import group, with the first import and every line number; an IndexError exactly when a group is empty |
| MultiLayers.DirectViolationPaths | src/importlinter/contracts/multi_layers.py:88-104 | the loop builds the paths of the specification |
| MultiLayers.CheckPair | src/importlinter/contracts/multi_layers.py:80-111 | one pair: the direct import groups are popped from the shared graph, which keeps what is left; the paths are the direct paths, then the indirect chains found in the popped graph |
| MultiLayers.ViolationsPrefixError | src/importlinter/contracts/multi_layers.py:80-119 | an error for an earlier pair is the error of the whole loop |
| MultiLayers.ViolationsOkIff | src/importlinter/contracts/multi_layers.py:80-119 | the loop finishes exactly when every pair's chains are found without error in the graph the earlier pairs left |
| MultiLayers.ViolationsEmptyIff | src/importlinter/contracts/multi_layers.py:112-119 | there are no violations exactly when no pair has a chain in the graph the earlier pairs left |
| MultiLayers.ViolationsFromPairs | src/importlinter/contracts/multi_layers.py:112-119 | each violation is a banned pair with the chains found for it after the earlier pairs, which are not empty |
| MultiLayers.FindViolations | src/importlinter/contracts/multi_layers.py:79-119 | the loop appends the violations of the specification; the shared graph ends popped by every pair visited, up to the failing one |
| MultiLayers.CheckedLayersExist | src/importlinter/contracts/multi_layers.py:72-77 | a check that returns found every layer in the graph |
| MultiLayers.KeptIff | src/importlinter/contracts/multi_layers.py:121-125 | kept exactly when every banned pair, in turn, finds no direct import group and no indirect chain in the graph the earlier pairs left; every pair visited is banned by the levels |
| MultiLayers.Check | src/importlinter/contracts/multi_layers.py:71-125 | returns or raises what the specification gives, leaving the graph unchanged after a missing layer and popped by every pair otherwise |
| MultiLayers.FormatImport | src/importlinter/contracts/multi_layers.py:229-243 | a TypeError, with its message, exactly when both modules are missing |
| MultiLayers.FormatImportSpec | src/importlinter/contracts/multi_layers.py:229-243 | "importer -> imported", or either alone, after the prefix and before the line numbers in parentheses |
| Protected.Family | src/importlinter/contracts/protected.py:84-86 | the protected family is the top-level module, plus its descendants exactly when modules are treated as packages and it is not squashed |
| Protected.IllegalImporters | src/importlinter/contracts/protected.py:89-93 | an illegal importer of a protected module imports it directly and is neither allowed nor in the protected family |
| Protected.ImporterLinksAt | src/importlinter/contracts/protected.py:95-108 | one link per illegal importer, in the order visited, each carrying the line numbers of that import's details |
| Protected.ModuleLinksSpec | src/importlinter/contracts/protected.py:89-108 | the links recorded for a protected module are exactly its illegal direct imports, each with its line numbers |
| Protected.ModuleLinksSorted | src/importlinter/contracts/protected.py:95 | the importers of one protected module are recorded in strictly increasing order |
| Protected.FamilyLinksSpec | src/importlinter/contracts/protected.py:88-108 | a link is recorded for a family exactly when its imported module belongs to the family and the import is illegal |
| Protected.TopLevelMetadataSpec | src/importlinter/contracts/protected.py:73-108 | the links under a top-level module are exactly the illegal direct imports of its family |
| Protected.ExpressionMetadataSpec | src/importlinter/contracts/protected.py:73-111 | an entry is added for a top-level module of the expression exactly when it has at least one link |
| Protected.AllMetadataMember | src/importlinter/contracts/protected.py:65-111 | every entry in the metadata comes from one of the protected expressions |
| Protected.AllMetadataIncludes | src/importlinter/contracts/protected.py:65-111 | every entry an expression produces appears in the metadata |
| Protected.MetadataEntries | src/importlinter/contracts/protected.py:74-111 | each recorded entry has at least one link, and it names its expression exactly when that expression has a wildcard |
| Protected.LinksSound | src/importlinter/contracts/protected.py:89-106 | every recorded link is a direct import into the family, from a module outside it that is not allowed, with its line numbers |
| Protected.LinksComplete | src/importlinter/contracts/protected.py:84-108 | every illegal direct import of a protected family is recorded under its top-level module |
| Protected.EntryRecorded | src/importlinter/contracts/protected.py:73-111 | the entry of a top-level module that has links is among the metadata |
| Protected.KeptIff | src/importlinter/contracts/protected.py:113-117 | the contract is kept exactly when no protected module is imported directly and illegally; indirect imports never break it; the warnings are passed through |
| Protected.LinksToEach | src/importlinter/contracts/protected.py:95-108 | the innermost loop builds the specified links, in order |
| Protected.CollectModuleLinks | src/importlinter/contracts/protected.py:89-108 | the links of one protected module: one per illegal importer, in sorted order |
| Protected.FamilyLinksEach | src/importlinter/contracts/protected.py:88-108 | the middle loop builds the links of each protected module, in sorted order |
| Protected.CollectFamilyLinks | src/importlinter/contracts/protected.py:84-108 | the links of a family are built over its sorted members |
| Protected.TopLevelEntry | src/importlinter/contracts/protected.py:74-108 | the metadata object built for one top-level module equals its specification |
| Protected.ExpressionMetadataStep | src/importlinter/contracts/protected.py:73-111 | one more top-level module adds its entry exactly when it has links |
| Protected.ExpressionEntries | src/importlinter/contracts/protected.py:73-111 | the loop over the sorted top-level modules builds the specified entries |
| Protected.AllMetadataStep | src/importlinter/contracts/protected.py:65-111 | one more expression appends its entries |
| Protected.Check | src/importlinter/contracts/protected.py:43-117 | check returns the specified outcome |
| Standalone.ExistenceErrorSpec | src/importlinter/contracts/standalone.py:61-64 | the existence check fails exactly when a listed module is missing from the graph, and its message names a missing module |
| Standalone.CheckAllModulesExistInGraph | src/importlinter/contracts/standalone.py:61-64 | the loop over the listed modules reports the first missing one |
| Standalone.ImportedPairs | src/importlinter/contracts/standalone.py:43 | one pair (module, importer) per importer, in order |
| Standalone.ImportingPairs | src/importlinter/contracts/standalone.py:44 | one pair (imported, module) per imported module, in order |
| Standalone.PairsSpec | src/importlinter/contracts/standalone.py:42-44 | a pair is in an entry exactly when it is (module, an importer) or (an imported module, module) |
| Standalone.ConnectionsSpec | src/importlinter/contracts/standalone.py:39-44 | an entry holds exactly the direct imports in and out of the module, importers first; it is empty exactly when the module has none |
| Standalone.ViolationsSpec | src/importlinter/contracts/standalone.py:37-44 | a module has an entry exactly when it is listed and has a direct import in or out, and the entry is its connections |
| Standalone.KeptIff | src/importlinter/contracts/standalone.py:46-51 | the contract is kept exactly when no listed module has any direct import in or out; the warnings are passed through |
| Standalone.CheckedModulesExist | src/importlinter/contracts/standalone.py:35 | the check fails exactly when a listed module is missing from the graph |
| Standalone.Check | src/importlinter/contracts/standalone.py:28-51 | check returns the specified outcome |
| AcyclicSiblings.Depth | src/importlinter/contracts/acyclic_siblings.py:40 | an absent depth is 10; a negative one is refused with the integer field's below-minimum message; any other is kept as given |
| AcyclicSiblings.OverlapErrorSpec | src/importlinter/contracts/acyclic_siblings.py:74-85 | an error exactly when skip expressions are given and some expression is both an ancestor and skipped; it names the smallest such expression |
| AcyclicSiblings.BreakersByPackageUnique | src/importlinter/contracts/acyclic_siblings.py:108-152 | the description of the cycle breakers by package (keys are the visited packages that break, values the graph's nominations) determines the map |
| AcyclicSiblings.ReachesDescendants | src/importlinter/contracts/acyclic_siblings.py:144-150 | every package visited below an ancestor is a descendant of it in the graph and is not skipped |
| AcyclicSiblings.NominateCycleBreakersRecursively | src/importlinter/contracts/acyclic_siblings.py:108-152 | a package is a key exactly when the drill-down visits it, it has at least two children and cycle breakers are nominated for it; its value is that nomination |
| AcyclicSiblings.BelowChildren | src/importlinter/contracts/acyclic_siblings.py:121-152 | the ancestor's own entry merged with what is found below its unskipped children is exactly what the drill-down from the ancestor reports |
| AcyclicSiblings.MergeStep | src/importlinter/contracts/acyclic_siblings.py:144-150 | merging the result of one more package extends the reported packages by exactly those visited from it |
| AcyclicSiblings.NominateForEach | src/importlinter/contracts/acyclic_siblings.py:58-63 | the merged result over a list of packages reports exactly the breaking packages visited from one of them, with their nominations |
| AcyclicSiblings.KeptIff | src/importlinter/contracts/acyclic_siblings.py:65 | no cycle breakers at all exactly when no package visited from any ancestor breaks |
| AcyclicSiblings.Check | src/importlinter/contracts/acyclic_siblings.py:45-72 | the overlap error first; otherwise the cycle breakers by package as described, their summaries, and kept exactly when no visited package breaks |
| Strings.TruncateSpec | src/importlinter/contracts/acyclic_siblings.py:170-171 | the cut name consists of the first n segments of the name (all of them if it has fewer) |
| AcyclicSiblings.CountPairsSpec | src/importlinter/contracts/acyclic_siblings.py:168-184 | a pair of children is counted exactly when some cycle breaker runs between it, and its count is the number that do |
| AcyclicSiblings.CountPairsStep | src/importlinter/contracts/acyclic_siblings.py:172-184 | one more cycle breaker raises its pair's count by one, or starts it at one |
| AcyclicSiblings.CountPairsTotal | src/importlinter/contracts/acyclic_siblings.py:168-186 | the counts add up to the number of cycle breakers counted |
| AcyclicSiblings.CountedDependencies | src/importlinter/contracts/acyclic_siblings.py:164-186 | one dependency per pair of children some cycle breaker runs between, each with a positive count, and the counts add up to the number of breakers |
| AcyclicSiblings.DependenciesSpec | src/importlinter/contracts/acyclic_siblings.py:164-186 | the dependencies of a package cover every cycle breaker, come only from cycle breakers, and their imports add up to the number of breakers |
| AcyclicSiblings.CountChildPairs | src/importlinter/contracts/acyclic_siblings.py:168-184 | the loop's dictionary equals the count per pair of children of the breakers visited |
| AcyclicSiblings.BuildDependencies | src/importlinter/contracts/acyclic_siblings.py:164-186 | the frozen set of dependencies equals the counted pairs, so DependenciesSpec applies to it |
| AcyclicSiblings.SummariesOfSpec | src/importlinter/contracts/acyclic_siblings.py:154-162 | a summary is in the set exactly when it is the summary of one of the visited packages |
| AcyclicSiblings.SummariesSpec | src/importlinter/contracts/acyclic_siblings.py:154-162 | every reported package has its summary holding its dependencies, and every summary belongs to a reported package |
| AcyclicSiblings.SummariseEach | src/importlinter/contracts/acyclic_siblings.py:157-161 | the loop adds exactly the summary of each package it visits |
| AcyclicSiblings.BuildSummaries | src/importlinter/contracts/acyclic_siblings.py:154-162 | the summaries built are those described by SummariesSpec |
| AcyclicSiblings.SummaryLinesSpec | src/importlinter/contracts/acyclic_siblings.py:189-210 | at most five dependency lines, the first five in order; an "(and N more)." line exactly when there are more than five, with N the number left out |
| Acyclic.ParentOfDotted | src/importlinter/contracts/acyclic.py:17-18 | the parent of a dotted name is the name without its last segment |
| Acyclic.ParentOfUndotted | src/importlinter/contracts/acyclic.py:17-18 | an undotted name stands for itself |
| Acyclic.ParentContains | src/importlinter/contracts/acyclic.py:17-18 | a module lies in the package that stands for its parent |
| Acyclic.InsertByLength | src/importlinter/contracts/acyclic.py:16 | inserting into a length-sorted list adds one element, placing it first or keeping the first |
| Acyclic.SortByLength | src/importlinter/contracts/acyclic.py:16 | sorting by length keeps the number of modules |
| Acyclic.InsertByLengthSorted | src/importlinter/contracts/acyclic.py:16 | insertion keeps a list sorted by length |
| Acyclic.InsertByLengthElements | src/importlinter/contracts/acyclic.py:16 | insertion adds exactly the new element |
| Acyclic.SortByLengthSpec | src/importlinter/contracts/acyclic.py:16 | the sort is a permutation of the modules, sorted by length |
| Acyclic.SortByLengthEqualLengths | src/importlinter/contracts/acyclic.py:16 | the sort is stable: equal-length modules keep their order |
| Acyclic.ShortestFirst | src/importlinter/contracts/acyclic.py:16-20 | the first sorted module is one of the shortest |
| Acyclic.Parents | src/importlinter/contracts/acyclic.py:16-18 | one parent (or the undotted name) per sorted module |
| Acyclic.CommonPrefixLength | src/importlinter/contracts/acyclic.py:25-27 | the common prefix is no longer than either string |
| Acyclic.CommonPrefixLengthSpec | src/importlinter/contracts/acyclic.py:25-27 | prefixes agree exactly up to the common prefix length, and differ just after it |
| Acyclic.SharedLength | src/importlinter/contracts/acyclic.py:24-32 | the shared length is at most the first sequence's length |
| Acyclic.SharedLengthSpec | src/importlinter/contracts/acyclic.py:24-32 | the first sequence shares its prefix of that length with every other, and no longer prefix is shared |
| Acyclic.ShortenToCommon | src/importlinter/contracts/acyclic.py:25-30 | the inner loop raises exactly when the first characters differ, and otherwise stops at the common prefix |
| Acyclic.CommonPrefixLoop | src/importlinter/contracts/acyclic.py:20-32 | the outer loop as written: the prefix shared with the last parent only, or the error |
| Acyclic.LongestCommonPackageLoop | src/importlinter/contracts/acyclic.py:13-32 | the whole function as written |
| Acyclic.CommonPrefixAsWrittenSpec | src/importlinter/contracts/acyclic.py:20-32 | the outer loop raises exactly when first characters differ; otherwise its prefix is shared by the first and last parent and stops where they differ |
| Acyclic.LongestCommonPackageAsWrittenSpec | src/importlinter/contracts/acyclic.py:13-32 | as written: the error with its message exactly when first characters differ; otherwise the character-wise common prefix of the first and last parent by length |
| Acyclic.SegmentsOf | src/importlinter/contracts/acyclic.py:17 | the dotted segments of each name |
| Acyclic.JoinPrefixInPackage | src/importlinter/contracts/acyclic.py:17 | a module lies in the package formed by any leading run of its segments |
| Acyclic.InPackageSegments | src/importlinter/contracts/acyclic.py:41-47 | a module in a package starts with the package's segments |
| Acyclic.CommonPackageSpec | src/importlinter/contracts/acyclic.py:20-32 | the corrected common package holds every parent |
| Acyclic.CommonPackageInnermost | src/importlinter/contracts/acyclic.py:20-32 | any package holding every parent holds the corrected common package |
| Acyclic.LongestCommonPackageSpec | src/importlinter/contracts/acyclic.py:13-32 | the corrected result holds the parent of every module |
| Acyclic.LongestCommonPackageInnermost | src/importlinter/contracts/acyclic.py:13-32 | the corrected function fails only when no package holds all parents, and finds the innermost one |
| Acyclic.MembersInCommonPackage | src/importlinter/contracts/acyclic.py:81-88 | every cycle member lies in the family's parent package |
| Acyclic.ChildContaining | src/importlinter/contracts/acyclic.py:44-47 | the reduced first segment names the child of the package holding the module |
| Acyclic.ChildrenGiveNothing | src/importlinter/contracts/acyclic.py:49-50 | two children of the common package give no package dependency |
| Acyclic.PackageDependencySpec | src/importlinter/contracts/acyclic.py:35-52 | a package dependency joins two children of the common package that hold the importer and the imported module, and is never the import itself; sibling children give none |
| Acyclic.GetPackageDependency | src/importlinter/contracts/acyclic.py:35-52 | the method gives the dependency as written, through the loops of `_longest_common_package` |
| Acyclic.CommonPrefixLengthIs | src/importlinter/contracts/acyclic.py:25-27 | a prefix that agrees and is followed by a difference has the common length |
| Acyclic.SplitHead | src/importlinter/contracts/acyclic.py:46-47 | the first segment of `x.rest` is x |
| Acyclic.CommonPackageOfSiblings | src/importlinter/contracts/acyclic.py:20-32 | parents under one package with different last segments have that package in common |
| Acyclic.DependencyOfChildren | src/importlinter/contracts/acyclic.py:44-52 | modules under two children of the package depend on each other through those children |
| Acyclic.DependencyOutsidePrefix | src/importlinter/contracts/acyclic.py:44-47 | `removeprefix` leaves a name without the prefix whole, so the first segment of the full name is used |
| Acyclic.ResetExampleParents | src/importlinter/contracts/acyclic.py:16-18 | the parents of the reset example in sorted order |
| Acyclic.ResetExampleAsWritten | src/importlinter/contracts/acyclic.py:24-32 | as written, the result depends only on the last parent |
| Acyclic.LongestCommonPackageResetCounterexample | src/importlinter/contracts/acyclic.py:24-32 | as written, `p.b` is returned although `p.c.y` is not in it; the corrected result is `p` |
| Acyclic.CharwiseExampleParents | src/importlinter/contracts/acyclic.py:16-18 | the parents of the character-wise example |
| Acyclic.CharwiseExampleAsWritten | src/importlinter/contracts/acyclic.py:26-32 | as written, the common prefix of `p.c` and `p.d` is `p.` with its dot |
| Acyclic.CharwiseExampleDependency | src/importlinter/contracts/acyclic.py:44-52 | on the prefix `p.`, the dependency is between two bogus `p..a` packages |
| Acyclic.PackageDependencyCharwiseCounterexample | src/importlinter/contracts/acyclic.py:35-52 | as written the dependency of `a.b.c.x` on `a.b.d.z` is from `a.b..a` to itself; corrected it is from `a.b.c` to `a.b.d` |
| Acyclic.SiblingOfChild | src/importlinter/contracts/acyclic.py:86-87 | the sibling of a member is the parent's child that holds it |
| Acyclic.SiblingSetSpec | src/importlinter/contracts/acyclic.py:82-88 | every sibling is a child of the parent holding a member, and every member other than the parent is in a sibling |
| Acyclic.FamilyKeySpec | src/importlinter/contracts/acyclic.py:76-91 | as written: the error exactly when the first characters of two parents differ; otherwise the parent is the character-wise common prefix of the first and last parent by length, the siblings are sorted, each is a member starting with the parent cut one segment below it, and each such member's cut is among them |
| Acyclic.FamilyKeyIntendedSpec | src/importlinter/contracts/acyclic.py:76-91 | with the innermost common package, the parent holds every member; its siblings are children of the parent that together hold all other members |
| Acyclic.TruncatedHolds | src/importlinter/contracts/acyclic.py:86 | a member cut to n segments lies in the cut name, made of its first n segments |
| Acyclic.SiblingSetCuts | src/importlinter/contracts/acyclic.py:84-87 | every sibling collected is a member starting with the parent, other than it, cut one segment below it |
| Acyclic.FamilyKeyOfSiblings | src/importlinter/contracts/acyclic.py:80-91 | the key keeps the common package's error or the package; its siblings are sorted, each a member cut below the parent, and each such member's cut is among them |
| Acyclic.FamilyKeyCharwiseCounterexample | src/importlinter/contracts/acyclic.py:76-91 | as written, a cycle through `a.b.c.x` and `a.b.d.z` is keyed under `a.b.`; as intended, under `a.b` |
| Acyclic.CollectSiblings | src/importlinter/contracts/acyclic.py:82-88 | the loop collects the sibling set |
| Acyclic.ComputeFamilyKey | src/importlinter/contracts/acyclic.py:76-91 | the method computes the family key as written, through the loops of `_longest_common_package`, or its error |
| Acyclic.TruncatedIsAncestor | src/importlinter/contracts/acyclic.py:256-265 | every proper leading run of segments is an ancestor |
| Acyclic.TruncatedIsChild | src/importlinter/contracts/acyclic.py:256-265 | each run is a child of the run one segment shorter |
| Acyclic.AncestorIsTruncated | src/importlinter/contracts/acyclic.py:256-265 | every ancestor is a leading run of segments |
| Acyclic.ModuleAncestorsExact | src/importlinter/contracts/acyclic.py:256-265 | the ancestors list holds exactly the module's ancestors, one per segment but the last |
| Acyclic.ModuleAncestorsChain | src/importlinter/contracts/acyclic.py:256-265 | the list starts with the parent and each entry is a child of the next |
| Acyclic.ModuleAncestorsSpec | src/importlinter/contracts/acyclic.py:256-265 | exactly the ancestors, innermost first, each the parent of the one before |
| Acyclic.GetModuleAncestors | src/importlinter/contracts/acyclic.py:256-265 | the loop builds the ancestors list |
| Acyclic.MaxCycleFamilies | src/importlinter/contracts/acyclic.py:250-253 | an option that is not an integer raises `int`'s ValueError with its message |
| Acyclic.MaxCycleFamiliesOfInt | src/importlinter/contracts/acyclic.py:250-253 | an option written as an integer gives no limit below one and that limit otherwise |
| Acyclic.MaxCycleFamiliesNotInt | src/importlinter/contracts/acyclic.py:250-253 | an option without a digit raises the ValueError |
| Strings.ParseInt | src/importlinter/contracts/acyclic.py:252 | `int()` of a string that is not an integer gives the "invalid literal" ValueError message |
| Strings.ParseIntRoundTrip | src/importlinter/contracts/acyclic.py:252 | `int(str(i)) == i` for every integer |
| Strings.ParseIntNeedsDigit | src/importlinter/contracts/acyclic.py:252 | a string without a digit is not an integer |
| Acyclic.AddDependencySpec | src/importlinter/contracts/acyclic.py:169-187 | for any way of deriving a dependency, including `_get_package_dependency` as written: one import's dependency is added once, keeping the graph the original plus the added dependencies |
| Acyclic.AddDependenciesSpec | src/importlinter/contracts/acyclic.py:166-187 | for any derivation: after an importer's imports, each of their dependencies has been added |
| Acyclic.ExpandFromSpec | src/importlinter/contracts/acyclic.py:165-187 | for any derivation: after the importers, the dependency of every original import from them has been added |
| Acyclic.ExpandSpec | src/importlinter/contracts/acyclic.py:161-187 | for any derivation, including the one `check` uses as written: the expanded graph is the original plus exactly the dependencies of its imports, each added once |
| Acyclic.AddImporterDependencies | src/importlinter/contracts/acyclic.py:168-187 | the inner loop adds the dependencies `_get_package_dependency` gives as written, updating the graph and the added set as specified |
| Acyclic.AddPackageDependencies | src/importlinter/contracts/acyclic.py:161-187 | the loops leave the graph expanded with the dependencies as written, and the set of those added |
| Acyclic.RecordSpec | src/importlinter/contracts/acyclic.py:203-208 | recording a cycle keeps the families well formed and adds its key if new |
| Acyclic.CollectFamiliesValid | src/importlinter/contracts/acyclic.py:189-211 | the families stay well formed and keep their keys |
| Acyclic.CollectFamiliesKept | src/importlinter/contracts/acyclic.py:191-208 | no family is found exactly when no module is in a cycle |
| Acyclic.CollectFamiliesLimit | src/importlinter/contracts/acyclic.py:210-211 | the search stops once the limit of families is reached |
| Acyclic.CollectFamiliesComplete | src/importlinter/contracts/acyclic.py:191-211 | unless the limit was reached, every found cycle's family is recorded |
| Acyclic.RecordCycles | src/importlinter/contracts/acyclic.py:205-208 | recording adds only the new cycle |
| Acyclic.CollectFamiliesSound | src/importlinter/contracts/acyclic.py:191-208 | every recorded cycle was found for one of the visited modules |
| Acyclic.CollectFamiliesLoop | src/importlinter/contracts/acyclic.py:189-211 | the loop gives the families of the specification |
| Acyclic.FamilyList | src/importlinter/contracts/acyclic.py:213-216 | one family per key, in insertion order |
| Acyclic.CollectedKept | src/importlinter/contracts/acyclic.py:191-217 | the list is empty exactly when no module of the graph is in a cycle |
| Acyclic.FamiliesOfKept | src/importlinter/contracts/acyclic.py:191-217 | over all modules, no family exactly when no cycle |
| Acyclic.FamiliesOfLimit | src/importlinter/contracts/acyclic.py:210-211 | no more families than the limit |
| Acyclic.FamilyListSound | src/importlinter/contracts/acyclic.py:213-216 | each listed family is non-empty and its cycles have its key |
| Acyclic.CollectedCyclesFound | src/importlinter/contracts/acyclic.py:191-208 | every recorded cycle was found for a module of the graph |
| Acyclic.CollectedFamiliesSound | src/importlinter/contracts/acyclic.py:191-216 | every listed family is non-empty, and its cycles carry its key and were found in the graph |
| Acyclic.FamiliesOfSound | src/importlinter/contracts/acyclic.py:191-216 | the same over all modules of the graph |
| Acyclic.CheckSpec | src/importlinter/contracts/acyclic.py:153-219 | for the key and derivation as written or as intended: kept exactly when no module of the checked graph is in a cycle; the metadata holds only the families, no more than a limit given, each non-empty with cycles found in the graph and carrying its key; a failure is the limit's ValueError or a found cycle's key error; an option that is not an integer fails exactly when some module is in a cycle |
| Acyclic.ReportedSpec | src/importlinter/contracts/acyclic.py:191-219 | the report of the families found: kept exactly when no module is in a cycle, within the limit, each family sound |
| Acyclic.CollectFamiliesRaised | src/importlinter/contracts/acyclic.py:191-208 | a loop that fails raises the key error of a cycle found for one of the modules |
| Acyclic.FamiliesOfRaised | src/importlinter/contracts/acyclic.py:191-208 | a search that fails raises the key error of a cycle found for a module of the graph |
| Acyclic.DistinctKeysCount | src/importlinter/contracts/acyclic.py:205-210 | the number of families is the number of distinct keys |
| Acyclic.Check | src/importlinter/contracts/acyclic.py:153-219 | the method gives the check with `Cycle.family_key` and `_get_package_dependency` as written |
| Acyclic.GraphToSearch | src/importlinter/contracts/acyclic.py:161-187 | the graph searched: the deep copy widened with the dependencies as written, or the graph itself |
| Tree.DiGraph.constructor | src/importlinter/contracts/tree.py:32 | an empty directed graph |
| Tree.DiGraph.AddNode | src/importlinter/contracts/tree.py:43-57 | the node set gains the node, the edges stay |
| Tree.DiGraph.AddEdge | src/importlinter/contracts/tree.py:59-62 | the edge and both its ends are added, as networkx does |
| Tree.Family | src/importlinter/contracts/tree.py:35-81 | the module first, then, when package dependencies are considered, exactly its ancestors |
| Tree.GetFamily | src/importlinter/contracts/tree.py:35-81 | the loop builds the family |
| Tree.AddEdgesTo | src/importlinter/contracts/tree.py:52-62 | every family member of the imported module other than the importer member becomes a node and an edge target |
| Tree.ArrowsStep | src/importlinter/contracts/tree.py:45-62 | one more imported module adds its family's nodes and edges |
| Tree.AddArrows | src/importlinter/contracts/tree.py:45-62 | the loop over the imported modules adds their targets and edges |
| Tree.FamilyStep | src/importlinter/contracts/tree.py:42-62 | one more importer family member adds itself, its targets and its edges |
| Tree.AddFamily | src/importlinter/contracts/tree.py:42-62 | the loop over the importer's family adds the nodes and edges of the specification |
| Tree.ImporterNodesStep | src/importlinter/contracts/tree.py:34-62 | one more importer adds the nodes of its family's imports |
| Tree.ImporterEdgesStep | src/importlinter/contracts/tree.py:34-62 | one more importer adds the edges of its family's imports |
| Tree.AllImporters | src/importlinter/contracts/tree.py:34-62 | visiting every module of the graph, in any order, gives the whole tree graph |
| Tree.VisitImporter | src/importlinter/contracts/tree.py:35-62 | one importer's iteration moves the graph to the next prefix of the specification |
| Tree.BuildGraph | src/importlinter/contracts/tree.py:32-62 | the loops build exactly the tree graph's nodes and edges |
| Tree.Check | src/importlinter/contracts/tree.py:31-65 | the method gives the specified check |
| Tree.KeptIff | src/importlinter/contracts/tree.py:64-65 | the contract is kept exactly when the built graph has no cycle; the metadata holds only the cycles and there are no warnings |
| Tree.GraphShape | src/importlinter/contracts/tree.py:32-62 | every module is a node, every edge joins two nodes, and no edge is a self-loop |
| Tree.DirectEdges | src/importlinter/contracts/tree.py:45-62 | without package dependencies the edges are exactly the imports other than self-imports |
| Tree.PackageEdges | src/importlinter/contracts/tree.py:35-62 | with package dependencies an import joins every pair of distinct packages holding its two ends, and every edge comes from such an import |
| Tree.PackageEdge | src/importlinter/contracts/tree.py:35-62 | one import and two distinct packages holding its ends give an edge |
| Tree.PackageEdgesInclude | src/importlinter/contracts/tree.py:35-62 | considering package dependencies only adds edges |
| Tree.CycleInLarger | src/importlinter/contracts/tree.py:64 | a cycle survives adding edges |
| Tree.KeptWithPackagesKeptWithout | src/importlinter/contracts/tree.py:64-69 | a contract kept with package dependencies is kept without them |
| Tree.MutualPackagesBreak | src/importlinter/contracts/tree.py:35-69 | two packages importing each other through any of their modules break the contract when package dependencies are considered |
| Reporting.CheckMapSpec | src/importlinter/application/ports/reporting.py:37-38 | the check map holds exactly the added contracts, and each distinct contract maps to its own check |
| Reporting.Added | src/importlinter/application/ports/reporting.py:37-45 | adding a check grows the kept count, the warning count and the map by that check |
| Reporting.AgreeAdd | src/importlinter/application/ports/reporting.py:34-45 | add_contract_check keeps the counters and map in agreement with the checks |
| Reporting.Report.constructor | src/importlinter/application/ports/reporting.py:16-32 | a report with nothing added, no failure, and the graph's module and import counts |
| Reporting.Report.AddContractCheck | src/importlinter/application/ports/reporting.py:34-45 | the contract, check and duration are recorded; kept or broken is counted; a broken check marks failure |
| Reporting.Report.AddInvalidContractOptions | src/importlinter/application/ports/reporting.py:54-59 | the errors are stored by name and the report could not run and has failures, nothing else changes |
| Reporting.Report.ContractsAndChecks | src/importlinter/application/ports/reporting.py:47-49 | each added contract in order, paired with its check when contracts are distinct |
| Reporting.CountsAddUp | src/importlinter/application/ports/reporting.py:41-44 | the kept count reaches the number of checks exactly when every check is kept |
| Reporting.ContainsFailuresIff | src/importlinter/application/ports/reporting.py:22-59 | a report has failures exactly when a check is broken or a contract could not run |
| UseCases.NormalizeUserOptions | src/importlinter/application/use_cases.py:133-141 | `root_package` becomes a one-element `root_packages` unless that is already there, and is removed; other options and the contracts are kept; with neither option, KeyError |
| UseCases.NormalizeIdempotent | src/importlinter/application/use_cases.py:133-141 | normalising twice is normalising once |
| UseCases.IdError | src/importlinter/application/use_cases.py:210 | reading a contract's id fails exactly when it is missing or a list |
| UseCases.KeepLimited | src/importlinter/application/use_cases.py:227 | filtering never adds options |
| UseCases.FirstIdErrorSpec | src/importlinter/application/use_cases.py:210 | collecting the ids succeeds exactly when every contract has a usable id |
| UseCases.KeepLimitedMembers | src/importlinter/application/use_cases.py:227 | exactly the options whose id is requested are kept |
| UseCases.KeepLimitedAppend | src/importlinter/application/use_cases.py:227 | filtering distributes over concatenation, keeping order |
| UseCases.KeepLimitedAll | src/importlinter/application/use_cases.py:227 | when every id is requested nothing is dropped |
| UseCases.FilterContractOptionsSpec | src/importlinter/application/use_cases.py:205-229 | no limit keeps all; with a limit it fails exactly on an unusable id or a requested id that no contract has, and otherwise keeps exactly the requested contracts, each requested id found |
| UseCases.GetIncludeExternalPackages | src/importlinter/application/use_cases.py:288-297 | None when the option is missing; True exactly for the strings `True` and `true` |
| UseCases.GetShowTimings | src/importlinter/application/use_cases.py:300-309 | true exactly when the option is the string `True` or `true` |
| UseCases.TrueSpellings | src/importlinter/application/use_cases.py:297-309 | `TRUE` or a non-string value count as false |
| UseCases.ParseContractTypeStringSpec | src/importlinter/application/use_cases.py:259-262 | an accepted type string is the name, `: ` and the class path, neither holding the separator |
| UseCases.ParseContractTypeStringRoundTrip | src/importlinter/application/use_cases.py:259-262 | joining a name and a path without the separator parses back to them |
| UseCases.ContractClassOf | src/importlinter/application/use_cases.py:180 | the class is found exactly when the `type` option is a registered name |
| UseCases.ChecksOfSpec | src/importlinter/application/use_cases.py:179-198 | the contracts and checks line up with the entries |
| UseCases.RunShape | src/importlinter/application/use_cases.py:179-198 | each checked contract was built from its options, checked on the graph as built and timed; each check returned rather than raised; the run ends at the end or at the first contract with invalid options |
| UseCases.RunFails | src/importlinter/application/use_cases.py:179-198 | an exception is that of the first contract whose class lookup, construction or check raised, after contracts that were all built and checked |
| UseCases.RunRaises | src/importlinter/application/use_cases.py:180-196 | a contract whose lookup, construction or check raises ends the run with that exception |
| UseCases.PrependNothing | src/importlinter/application/use_cases.py:179-198 | no earlier entries change nothing |
| UseCases.PrependEnd | src/importlinter/application/use_cases.py:179-198 | entries before the end of the loop are the run |
| UseCases.PrependSnoc | src/importlinter/application/use_cases.py:179-198 | entries accumulate one after another, with the contracts, checks and durations growing to match |
| UseCases.RunStep | src/importlinter/application/use_cases.py:190-197 | a checked contract moves its entry into the accumulated part |
| UseCases.RunStops | src/importlinter/application/use_cases.py:187-189 | invalid options end the run with what was accumulated |
| UseCases.RecordCheck | src/importlinter/application/use_cases.py:197 | recording a check moves the report to the next entry |
| UseCases.RecordInvalid | src/importlinter/application/use_cases.py:188 | recording invalid options gives the report of the stopped run |
| UseCases.CheckNext | src/importlinter/application/use_cases.py:180-197 | one contract's turn either ends the run (with the exception raised, or with the report holding the whole run after invalid options) or records one more entry, the run then going on from the next contract |
| UseCases.CheckContracts | src/importlinter/application/use_cases.py:179-198 | the loop raises exactly when the run does, with the exception of the lookup, construction or check that raised, and otherwise leaves the report holding the run |
| UseCases.BuildReport | src/importlinter/application/use_cases.py:165-202 | a fresh report for the graph holding the planned run over the filtered contracts, or the exception that escaped |
| UseCases.LintResult | src/importlinter/application/use_cases.py:54-65 | an exception escapes only in debug mode; otherwise SUCCESS exactly when the report has no failures |
| UseCases.ReportFailures | src/importlinter/application/use_cases.py:62-65 | the report's failure flag is the run's: an invalid contract or a broken check |
| UseCases.LintImports | src/importlinter/application/use_cases.py:22-126 | the answer is that of reading, normalising, building the graph with the root packages and external flag, and building the report |
| UserOptionsAdapter.Strs | src/importlinter/adapters/user_options.py:62 | each line as a string value |
| UserOptionsAdapter.LinesSpec | src/importlinter/adapters/user_options.py:62 | the lines hold no line break and join back into the stripped value |
| UserOptionsAdapter.CleanSectionConfig | src/importlinter/adapters/user_options.py:55-63 | the loop gives each option, multi-line values as lists of lines |
| UserOptionsAdapter.ContractSectionsSpec | src/importlinter/adapters/user_options.py:50-52 | the contract options are exactly those of the sections named `importlinter:...` |
| UserOptionsAdapter.SessionSectionIsNoContract | src/importlinter/adapters/user_options.py:23-51 | the session section is not a contract section |
| UserOptionsAdapter.BuildFromConfig | src/importlinter/adapters/user_options.py:47-53 | the session options are the cleaned `importlinter` section and the contracts the cleaned contract sections in file order |
| UserOptionsAdapter.ReadTomlOptions | src/importlinter/adapters/user_options.py:92-98 | nothing when the section is missing or empty; otherwise its entries without `contracts` as session options and the `contracts` array as contract options |
| UserOptionsAdapter.TomlRoundTrip | src/importlinter/adapters/user_options.py:92-98 | session options and contracts written into `[tool.importlinter]` read back unchanged |
| Cli.CombineCachingArguments | src/importlinter/cli.py:114-121 | `--no-cache` disables caching whatever the directory; otherwise no directory is "not supplied" and a given one is passed on |
| Cli.ExitStatus | src/importlinter/cli.py:108-111 | exit 0 exactly for a pass, 1 for a failure; an escaping exception propagates |
| Cli.LintImports | src/importlinter/cli.py:64-111 | the exit status of the use case run with the combined cache directory |
| Cli.ExitStatusOfOutcome | src/importlinter/cli.py:108-111 | exit 0 exactly when every contract was kept; 1 for a failure or, outside debug mode, an exception; in debug mode the exception escapes |
| Imports.FirstSegmentUnique | src/importlinter/domain/imports.py:36-38 | a name has only one root package |
| Imports.MatchingModules | src/importlinter/domain/imports.py:80-83 | the modules a pattern resolves to are modules of the graph |
| MultiLayers.FlattenSpec | src/importlinter/contracts/multi_layers.py:139-141 | a name is in the levels below exactly when one of those levels declares it |
| MultiLayers.SiblingPairsSpec | src/importlinter/contracts/multi_layers.py:133-135 | a layer is paired with exactly the siblings of its level that have another name |
| MultiLayers.PairsWith | src/importlinter/contracts/multi_layers.py:139-141 | a layer is paired with exactly the layers of the lower levels |
| MultiLayers.LayerPermutationsSpec | src/importlinter/contracts/multi_layers.py:129-141 | the pairs of one layer: each sibling of another name and each layer of a later level |
| MultiLayers.LevelPermutationsSpec | src/importlinter/contracts/multi_layers.py:128-141 | the pairs of one level: those of each of its layers |
| MultiLayers.PermutationsFromSpec | src/importlinter/contracts/multi_layers.py:127-141 | the pairs from a level on are exactly those banned on that level or a later one |
| MultiLayers.LevelDoomSnoc | src/importlinter/contracts/multi_layers.py:145-149 | one more layer of a level adds exactly what that layer removes |
| MultiLayers.DoomedSnoc | src/importlinter/contracts/multi_layers.py:144-149 | one more level adds exactly what that level removes |
| MultiLayers.LayerDoomClosed | src/importlinter/contracts/multi_layers.py:146-149 | removing a layer with its descendants keeps the removed set closed under descendants |
| MultiLayers.DescendantsWithout | src/importlinter/contracts/multi_layers.py:147 | after modules are removed, a module's descendants are its former descendants that remain |
| MultiLayers.AlreadyRemoved | src/importlinter/contracts/multi_layers.py:146-149 | a layer already removed with its descendants removes nothing more |
| MultiLayers.ViolationsStep | src/importlinter/contracts/multi_layers.py:80-119 | one more pair adds its violation when its chains are not empty, and nothing otherwise |
| MultiLayers.PathsAtPrefix | src/importlinter/contracts/multi_layers.py:79-111 | a pair's chains depend only on the pairs before it |
| MultiLayers.PoppedStep | src/importlinter/contracts/multi_layers.py:84-88 | after one more pair, the graph is the previous one with that pair's direct imports popped |
| Layers.StrippedPartsSpec | src/importlinter/contracts/layers.py:61-63 | splitting gives at least one part, each stripped and free of the delimiter |
| Layers.LayersContract.constructor | src/importlinter/contracts/layers.py:93-148 | a contract holds its options and has recorded no tails before it is checked |
| Forbidden.DirectPairsUnion | src/importlinter/contracts/forbidden.py:195-211 | the direct chains of two groups of sources are the chains of each group together |
| Forbidden.MergeStep | src/importlinter/contracts/forbidden.py:76-116 | the groups of one more source extend the groups to exactly the broken pairs of the longer prefix |
| Forbidden.AddSource | src/importlinter/contracts/forbidden.py:77-116 | one pass of the outer loop keeps the groups of the broken pairs so far, and kept iff there are none |
| Forbidden.CollectedAll | src/importlinter/contracts/forbidden.py:76-116 | after every source, the groups are those of the broken pairs |
| Forbidden.NoBrokenKeysIff | src/importlinter/contracts/forbidden.py:76-116 | no pair is broken exactly when no source has a chain to a forbidden module |
| AcyclicSiblings.DependencyLessIsStrictTotalOrder | src/importlinter/contracts/acyclic_siblings.py:29-34 | the field-by-field order of dependencies is a strict total order |
| AcyclicSiblings.SortedDependencies | src/importlinter/contracts/acyclic_siblings.py:199 | the dependencies in ascending order, each once |
| Common.Bulleted | src/importlinter/contracts/_common.py:167-171 | one printed line per string, in order, each behind the bullet for its position |

## Left out

- Reading files and finding the configuration file: the readers start from the parsed INI sections or the parsed TOML table.
- `configparser` and `toml` text parsing, including the `DEFAULT` section of `configparser`.
- Strings.ParseInt: reads ASCII decimal digits only, where `int()` also reads every other Unicode decimal digit (such as `٣`); and the ValueError message quotes the string in plain single quotes, where Python uses `repr`, which differs for a string holding a quote or a backslash.
- Acyclic.MaxCycleFamilies: inherits both gaps of `Strings.ParseInt`: a limit written in non-ASCII digits raises here, and the message differs from Python's for a string holding a quote or a backslash.
- AcyclicSiblings.HasWildcard: `ModuleExpression.has_wildcard_expression` is not part of this model; it is taken to be `'*' in expression`.
- UserOptionsAdapter.ReadTomlOptions: a `contracts` entry that is not an array of tables is an error value rather than whatever later code would make of it.
- The reader dispatch in `read_user_options`, `_register_contract_types` and `_string_to_class`: they import classes by dotted path with `importlib`. The registry and contract construction are parameters, and only the split in `_parse_contract_type_string` is modelled.
- `_build_graph` and its default cache directory: graph building is a parameter that receives the combined cache setting.
- `_normalize_user_options` copies the options shallowly, so the caller's dictionary shares its values. The model works on values, so no aliasing is modelled.
- `copy.deepcopy` of the graph for each contract: graphs are values, so every contract sees its own copy.
- Timers and durations: the timer is a parameter that gives each check's duration.
- Printing, colouring, verbose output and the rendering of broken contracts. Only the lines built by `_render_direct_import`, `render_chain_data`, the DOT renderer and the acyclic-siblings truncation rule are modelled, as strings.
- Command-line logging and the `sys.path` change in `cli.lint_imports`.
- grimp and networkx algorithms: chain finding, illegal-dependency search, cycle-breaker nomination, cycle finding and squashing are oracles, and their results are taken as given.
- Layers.BuildInvalidChains: `build_detailed_chain_from_route` is not part of this model; it is a parameter. The dependency set grimp returns, and each dependency's route set, are taken in the order Python iterates them, which the finder supplies.
- The order of dictionary and set iteration: where the source sorts, the model sorts; where it iterates a set without sorting, the model visits the elements in sorted order instead. Where only the first element met, or a limit, decides the result, the model's result is one of those the source can give, not the one Python's set order picks. The members so determinised are listed below.
- Acyclic.FamiliesOf: visits `graph.modules` sorted; with a limit on the number of families, which families are reported depends on that order, so `Acyclic.CheckSpec` and `Acyclic.Check` report those of the sorted order.
- Forbidden.ExternalModulesError: the first dotted external module in sorted order is named; `CheckExternalForbiddenModules` and `Forbidden.Check` raise that one.
- CheckExternalForbiddenModules: names the sorted-first offending external module, where the source names the first one its set iteration meets.
- Layers.ContainerLayersError: the sorted-first missing required layer is named; `CheckAllLayersExistForContainer` raises that one.
- CheckAllLayersExistForContainer: names the sorted-first missing layer, where the source names the first one its set iteration meets.
- Layers.ContainersError: containers are visited sorted, so the error of the sorted-first failing container is raised.
- ValidateContainers: visits the containers sorted, where the source iterates the set.
- Layers.ContainerlessError: the sorted-first missing layer name is reported.
- CheckAllContainerlessLayersExist: names the sorted-first missing layer, where the source iterates a set.
- LayersContract.Check: can raise the container or layer error of the sorted choice above rather than the set-order one.
- Standalone.Connections: the importers and imported modules of each module are listed sorted, where the source lists them in set order.
- ConnectionsSpec: fixes the sorted order within the importers and within the imported modules.
- Standalone.Check: reports the connections in the sorted order of `Standalone.Connections`.
- CheckSpec: the families are those of the sorted visit of the modules (see `Acyclic.FamiliesOf`).
- NameRun: `[\w.]` is read with an ASCII `\w`: letters, digits and underscore. Python's `\w` on strings also takes every Unicode letter and digit, so a name such as `café` is accepted by the source and refused here.
- StringToDirectImport: inherits the ASCII reading of `\w` from `NameRun`, so non-ASCII names are refused.
- ParseComplete: completeness is stated for ASCII name characters only.
- StringsToDirectImports: inherits the ASCII reading of `\w`.
- AcyclicSiblings.Depth: `IntegerField` is not part of this model. The option arrives already read as an integer, and the message for a value below the minimum is a parameter.
- Acyclic.Check: with `verbose`, the source reads `max_cycle_families` before the search and so raises its ValueError at once; printing is not modelled, so the model reads it as the non-verbose path does, when a first cycle is recorded.
- The order of grimp's import details for one import: the details are a set.
- Hashing of value objects: equality is modelled as equality of names, and hash collisions are not modelled.
- `InvalidContractOptions` is modelled as its map from field name to message.
- The independence and modular contracts, the UI and interactive servers, the app configuration and wiring, and the test fakes are not part of this model.

## Findings

| source | as written | input that shows it | evidently intended | confidence | as-written member | corrected member |
|---|---|---|---|---|---|---|
| src/importlinter/contracts/acyclic.py:24-32 | each parent restarts the prefix search from the full length of the first parent, so the result depends only on the first and last parents | modules `a.b.x`, `a.c.y`, `a.b.z` (equal lengths) give `a.b`, which does not hold `a.c.y` | the innermost package that holds every parent, here `a` | not executed | Acyclic.LongestCommonPackageResetCounterexample | Acyclic.LongestCommonPackageInnermost |
| src/importlinter/contracts/acyclic.py:76-91 | the family key's parent is the character-wise common prefix | a cycle through `a.b.c.x` and `a.b.d.z` is keyed under `a.b.` | the innermost common package `a.b` | not executed | Acyclic.FamilyKeyCharwiseCounterexample | Acyclic.FamilyKeyIntendedSpec |
| src/importlinter/contracts/acyclic.py:24-52 | the common package is a character-wise prefix, which can end just after a dot | the import `a.b.c.x -> a.b.d.z` gives the common package `a.b.` and the dependency `a.b..a -> a.b..a` | a segment-wise common package `a.b`, giving the dependency `a.b.c -> a.b.d` | not executed | Acyclic.PackageDependencyCharwiseCounterexample | Acyclic.PackageDependencySpec |
| src/importlinter/contracts/multi_layers.py:143-149 | `layer in graph.modules` tests the `Layer` tuple instead of its name, so no layer is ever removed | levels `high`, `low`, `other` with the pair (`high`, `low`): `other` stays in the temporary graph | every layer other than the pair is removed with its descendants | not executed | MultiLayers.RemoveLayersCounterexample | MultiLayers.RemoveLayersSpec |
