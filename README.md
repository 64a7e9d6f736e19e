# MESA network reader and nuclide-chart builder

This project models the core of a small Python tool. The tool reads a MESA nuclear
reaction network definition (a `.net` file) and draws its isotopes on a chart of the
nuclides. The model covers the two parts of the tool that do the work:

- The network-file parser in `nuclear_aux.py`. `process_line` classifies one record
  (`neut`, `fe54`, `fe 52 54`). `read_file` reads a network by name:
  - it appends `.net` to the name when missing;
  - it answers the frozen `approx19/20/21` networks without reading any file;
  - it tries a `mesa` → `mesa_` correction for a missing file;
  - it takes compound `approx21_plus_...` names apart at `_`;
  - it scans any other file line by line, following `include` directives.
  The reader builds an ordered mapping from element symbol to mass numbers. Merging is
  append-only: a symbol keeps its earlier list, and the new mass numbers are added
  after it.
- The post-processing in `nuclearNetAnalyzer.py`. `analyzeNetwork` drops the empty
  symbol and records which network was read under the key `"network"`.
  `getDataStructs` turns the mapping into a grid of nuclide cells. It also produces an
  element label for each symbol and the position of each label. A nuclide with Z
  protons and N neutrons sits at flat index N + Z·ncols. Cells of the background chart
  are shown only where the network has no cell.

Modules:

- `Text` (text.dfy) holds the string operations the Python code relies on:
  `str.split()`, `split(sep)`, `lstrip`, `capitalize`, `isalpha`, `isdigit`, `int()`,
  and the regular expressions `[a-zA-Z]+` and `\d+`.
- `Dicts` (dicts.dfy) is Python's insertion-ordered `dict`.
- `LineClassifier` (classifier.dfy) is `process_line`.
- `NetworkReader` (reader.dfy) is `read_file`. The functions `Read`, `ReadCompound`,
  `Scan` and `MergeAll` say what a read computes. The methods `ReadFile`,
  `ReadSegments`, `ScanLines`, `ReadLine` and `MergeTerms` carry the source's loops
  and are proved equal to those functions.
- `ReaderProperties` (reader_props.dfy) holds the properties of a read.
- `NetAnalyzer` and `ChartGrid` (analyzer.dfy) are `analyzeNetwork` and
  `getDataStructs`.

The file system is a parameter: a map from file name to the file's lines.
`os.path.isfile` becomes map membership, and `open` becomes a lookup. `read_file` has
no guard against cyclic includes. A `fuel` parameter counts the nested calls still
allowed, and running out of it is the model's RecursionError.

The exceptions `read_file` can raise are modelled as `Raised` outcomes:
- a record `process_line` cannot index (`54`, `fe-`);
- an `include` line with a single word;
- a last line made only of blanks;
- includes nested too deep.

Where the comments and the code disagree, the model follows the code:
- The comment on nuclear_aux.py:47 lists the 18 nuclides of `approx19`. The table on
  line 48 holds those 18 nuclides under 16 keys, because `he` and `fe` each carry two
  mass numbers. The mapping therefore has 16 entries, not 18.
- The comment on nuclear_aux.py:25 presents the one-token case as `neut`/`prot`. The
  code returns any single token ending in a letter unchanged with no mass number, so
  `12fe34bar` gives (`12fe34bar`, []).

## Model

| member | source | states |
|---|---|---|
| LineClassifier.Classify | nuclear_aux.py:22-40 | The symbol is empty exactly when the text is neither one token nor the `symbol number number` shape. An empty symbol comes with no mass numbers. A symbol never contains whitespace, and every mass number is non-negative. |
| LineClassifier.BareSymbol | nuclear_aux.py:26-27 | A single token ending in a letter, with any surrounding blanks, is returned unchanged with no mass number. |
| LineClassifier.OneToken | nuclear_aux.py:23 | `line.strip().split()` of a single token with any whitespace around it is that token alone. |
| LineClassifier.OtherToken | nuclear_aux.py:30-31 | A single token not ending in a letter, with any whitespace around it, gives its first letter run and the number of its first digit run. It raises exactly when it has no letter or no digit. |
| LineClassifier.SymbolWithMass | nuclear_aux.py:30-31 | Letters followed by any digit string, with any whitespace around them (`fe54`, ` fe054\n`), give that symbol and the number the digits spell. |
| LineClassifier.ThreeTokens | nuclear_aux.py:23 | Three tokens separated by any non-empty whitespace, with any whitespace around them, split into exactly those three tokens. |
| LineClassifier.SymbolWithRange | nuclear_aux.py:34-37 | An alphabetic symbol and two digit strings a and b, separated and surrounded by any whitespace, give the symbol with the inclusive ascending range from a to b. The range has b−a+1 entries and is empty when a > b. |
| Text.FirstRunIsFirstMatch | nuclear_aux.py:31 | `re.findall(...)[0]` is the longest run of the class starting at the first character of the class. |
| LineClassifier.Range | nuclear_aux.py:37 | `range(a, b+1)` has length b−a+1 when a ≤ b and 0 otherwise, and its i-th entry is a+i. |
| Dicts.Assign | nuclear_aux.py:83-85 | `d[k] = v` sets k and keeps every other key and value. An existing key keeps its place, and a new key goes last. |
| Dicts.AssignAllValues | nuclear_aux.py:48 | The union of `d` with a table holds the keys of both. A key of the table gets the value of its last pair, every other key keeps its value, and the dict invariant is kept. |
| Dicts.Remove | nuclearNetAnalyzer.py:56-57 | `del d[k]` removes k only and keeps the dict invariant. |
| Dicts.RemoveKeys | nuclearNetAnalyzer.py:56-57 | Deleting a key keeps the remaining keys in their order. |
| NetworkReader.Merge | nuclear_aux.py:83-85 | After `if key not in d: d[key] = []; d[key].extend(values)`, the key holds its old list followed by the new values. Other keys are unchanged, earlier keys keep their places, and the dict invariant is kept. |
| NetworkReader.WithExtension | nuclear_aux.py:44-45 | The name ends in `.net`, and is the input itself when that already ends in `.net`. |
| NetworkReader.Resolve | nuclear_aux.py:57-71 | A file is found exactly when the name is present, or when it starts with `mesa` and `mesa_`+rest is present. A present name is opened as itself; otherwise the file opened is `mesa_`+rest. |
| NetworkReader.ReadFile | nuclear_aux.py:42-71 | The reader returns exactly `Read`: the aliases, the missing-file return and the recursion limit, with the rest delegated below. |
| NetworkReader.OpenFile | nuclear_aux.py:72-88 | A present file whose name contains `approx21` goes to the compound branch; every other file is scanned. |
| NetworkReader.ReadSegments | nuclear_aux.py:73-86 | The compound-name loop returns exactly `ReadCompound`. |
| NetworkReader.AbsorbTerm | nuclear_aux.py:77-85 | One segment gives exactly `Absorb`: `plus` and segments of at most 3 characters are skipped, and others lose a trailing `.net` and are merged. |
| NetworkReader.MergeSegments | nuclear_aux.py:74-85 | The loop over the remaining segments returns exactly `Segments`. |
| NetworkReader.ScanLines | nuclear_aux.py:88-122 | The line loop, with its `first_line` flag, returns exactly `Scan` of the file's lines. |
| NetworkReader.ReadLine | nuclear_aux.py:91-120 | One loop iteration gives exactly `ScanLine`, in the source's order of tests. |
| NetworkReader.MergeTerms | nuclear_aux.py:105-109 | The `add_isos(` loop returns exactly `MergeAll`. |
| ReaderProperties.AliasRead | nuclear_aux.py:47-55 | An alias name is answered by assigning its frozen table, with no file lookup. |
| ReaderProperties.Approx19IgnoresDirectory | nuclear_aux.py:44-49 | `approx19` and `approx19.net` give the input with the approx19 table assigned, whatever the directory holds. |
| ReaderProperties.Approx20IgnoresDirectory | nuclear_aux.py:50-52 | The same for `approx20`. |
| ReaderProperties.Approx21IgnoresDirectory | nuclear_aux.py:53-55 | The same for `approx21`. |
| ReaderProperties.AliasTablesDistinct | nuclear_aux.py:48-54 | The three tables list the same symbols in the same order, each symbol once. |
| ReaderProperties.AliasOverwrites | nuclear_aux.py:48-54 | Each symbol of an alias is set to the frozen list, replacing what was there. Every other symbol keeps its list. From an empty mapping the keys are the table's 16 symbols in order. |
| ReaderProperties.TableOverwrites | nuclear_aux.py:48 | The same for any table of distinct symbols. |
| ReaderProperties.AssignAllAppendsKeys | nuclear_aux.py:48 | Assigning new distinct symbols appends them after the existing keys, in table order. |
| ReaderProperties.MissingFileKeepsMapping | nuclear_aux.py:57-71 | A missing file, with no `mesa_` correction present, returns the mapping unchanged. |
| ReaderProperties.MesaCorrection | nuclear_aux.py:57-63 | A missing `mesa…` network whose `mesa_…` spelling is present is read from the corrected file. |
| ReaderProperties.ExtensionOptional | nuclear_aux.py:44-45 | Reading `x` is the same as reading `x.net`. |
| ReaderProperties.ReadGrows | nuclear_aux.py:42-122 | A successful read keeps every key of the input in place, in order, and keeps the dict invariant. |
| ReaderProperties.OpenGrows | nuclear_aux.py:72-122 | The same for a present file. |
| ReaderProperties.CompoundGrows | nuclear_aux.py:73-86 | The same for the compound branch. |
| ReaderProperties.SegmentsGrow | nuclear_aux.py:74-85 | The same for the compound segments. |
| ReaderProperties.MergeAllGrows | nuclear_aux.py:105-109 | The same for an `add_isos(` list. |
| ReaderProperties.LineGrows | nuclear_aux.py:91-120 | The same for one line of a file. |
| ReaderProperties.ScanGrows | nuclear_aux.py:88-122 | The same for a file scan. |
| ReaderProperties.MassesOfMerge | nuclear_aux.py:83-85 | Merging a record appends its masses to its own symbol's list and to no other. |
| ReaderProperties.MergeAllSymbols | nuclear_aux.py:105-109 | Merging a list fails exactly when some piece cannot be classified. On success the symbols present are the old ones plus those of the pieces. |
| ReaderProperties.MergeAllAppends | nuclear_aux.py:105-109 | Each symbol ends with its earlier list followed by the masses of all pieces for it, in order, duplicates kept. |
| ReaderProperties.SameHeadSameScan | nuclear_aux.py:90-120 | Files that share a first line, and whose remaining lines scan alike from every state, scan alike. |
| ReaderProperties.CommentsContributeNothing | nuclear_aux.py:91-94 | Dropping the `"\n"` lines and the `!` comment lines does not change the result of a scan. |
| ReaderProperties.ScanStops | nuclear_aux.py:98-115 | After an `add_iso(...)` line, an `add_isos(...)` line, or any other non-header line with `)`, no later line contributes. |
| ReaderProperties.AddIsosMergesPieces | nuclear_aux.py:104-110 | An `add_isos(...)` line merges every `, `-separated piece of its argument in order and ends the file. |
| ReaderProperties.FirstHeaderSkipped | nuclear_aux.py:111-113 | While no header has been skipped, an `add_isos(` or `add_isos_and_reactions(` line without a complete call is skipped, and the flag is cleared. |
| ReaderProperties.LaterHeaderIsRecord | nuclear_aux.py:111-120 | After that, such a line without `)` is read as a record: it is merged, or it raises. |
| ReaderProperties.MassLine | nuclear_aux.py:117-120 | A file line such as `fe54\n`, with blanks around it, adds exactly that one mass number to its symbol. |
| ReaderProperties.RangeLine | nuclear_aux.py:117-120 | A file line such as `fe 52 54\n` adds exactly the inclusive range to its symbol. |
| ReaderProperties.PlainFileMergesRecords | nuclear_aux.py:117-120 | A file of plain records reads as merging the part of each line before `!`, in file order. |
| ReaderProperties.ReadScansFile | nuclear_aux.py:88-122 | An ordinary present file is read by scanning its lines with the header flag set. |
| ReaderProperties.IncludeDirective | nuclear_aux.py:95-96 | `include 'b'` is recognised as an include of `b`. |
| ReaderProperties.IncludeLine | nuclear_aux.py:95-97 | An include line reads the named network into the current mapping and goes on with the next line; an error in the included read propagates. |
| ReaderProperties.IncludeOnlyFile | nuclear_aux.py:95-97 | A file whose one line is `include 'b'` reads exactly as `b` does. |
| ReaderProperties.SegmentsMergeExtras | nuclear_aux.py:77-85 | The compound segments merge exactly their extras: `plus` and short segments are dropped, and `.net` is stripped. |
| ReaderProperties.CompoundNameReadsApprox21Plus | nuclear_aux.py:73-86 | `approx21_plus_x_...` gives approx21 assigned onto the input, then the extras merged. |
| ReaderProperties.CompoundNameWithoutApprox21 | nuclear_aux.py:73-86 | A compound name whose first segment is not `approx21` merges its extras only. |
| NetAnalyzer.AnalyzeNetwork | nuclearNetAnalyzer.py:54-60 | The analysis fails exactly when the read raises, with the same error. On success: the chart is a valid dict without `""`; `"network"` maps to the requested name; every other symbol is present and keeps its mass numbers exactly as read. The keys are those read, less `""`, followed by `"network"`, or in place when a `network` symbol was read. |
| ChartGrid.Drawn | nuclearNetAnalyzer.py:104 | `list(keys)[:-1]`: every key but the last, in order. |
| ChartGrid.MinOf | nuclearNetAnalyzer.py:115 | `np.min` is an element of the list and no greater than any element. |
| ChartGrid.Element | nuclearNetAnalyzer.py:105-118 | One loop iteration produces the label, the label position and the cells of one symbol. |
| ChartGrid.Elements | nuclearNetAnalyzer.py:104-120 | The loop over all keys but the last produces all labels, positions and cells, in key order. |
| ChartGrid.BackgroundCells | nuclearNetAnalyzer.py:126-133 | The background loop produces cell n + z·ncols for each listed nuclide, in order. |
| ChartGrid.FlatIndex | nuclearNetAnalyzer.py:123 | A numpy index in [−size, size) lands in [0, size). A non-negative index lands on itself, and a negative index i lands on size + i. |
| ChartGrid.Mark | nuclearNetAnalyzer.py:122-123 | A fresh zeroed array of the given size holds the marker exactly at the (wrapped) listed cells. |
| ChartGrid.Overlay | nuclearNetAnalyzer.py:139 | Empty network cells take the background value; occupied ones keep theirs. |
| ChartGrid.Occupancy | nuclearNetAnalyzer.py:120-139 | Each flat cell is Present if it is a network cell, else Background if it is a background cell, else Vacant. |
| ChartGrid.Reshape | nuclearNetAnalyzer.py:124 | The grid has nrows rows of ncols cells, and row r, column c is flat cell r·ncols + c. |
| ChartGrid.GetDataStructs | nuclearNetAnalyzer.py:70-141 | Returns one label and one label position per drawn key, and an nrows×ncols grid. Each cell is Present exactly on network cells, else Background on background cells, else Vacant. |
| ChartGrid.LabelTexts | nuclearNetAnalyzer.py:111-114 | The label is `n` for `neut`, `p` for `prot`, and the capitalised symbol otherwise. |
| ChartGrid.OneLabelPerKey | nuclearNetAnalyzer.py:104-114 | There is exactly one label per drawn key, and the i-th label is that of the i-th key. |
| ChartGrid.DrawnAreRead | nuclearNetAnalyzer.py:60 | On a chart from `analyzeNetwork`, the drawn keys are exactly the symbols read, since `"network"` is last. |
| ChartGrid.LabelLeftOfLightest | nuclearNetAnalyzer.py:107-115 | `neut`'s label is at (0, 0) and `prot`'s at (1, −1). Any other element's label is in its own row Z, one column left of its lightest isotope's neutron number. |
| ChartGrid.OnePositionPerKey | nuclearNetAnalyzer.py:104-115 | There is exactly one label position per drawn key, and the i-th is that of the i-th key. |
| ChartGrid.NetworkCells | nuclearNetAnalyzer.py:104-120 | A cell is a network cell exactly when it is a cell of some drawn key. |
| ChartGrid.CellOfKeyIsNetworkCell | nuclearNetAnalyzer.py:118-120 | Every cell of a drawn key is a network cell. |
| ChartGrid.NetworkCellOfSomeKey | nuclearNetAnalyzer.py:118-120 | Every network cell belongs to some drawn key. |
| ChartGrid.BackgroundCellsOf | nuclearNetAnalyzer.py:130-131 | A cell is a background cell exactly when it is n + z·ncols for some listed (z, n). |
| ChartGrid.KeyCells | nuclearNetAnalyzer.py:106-118 | `neut` has exactly cell 1 (Z=0, N=1), and `prot` exactly cell ncols (Z=1, N=0), whatever their lists hold. Any other element has exactly the cells (A−Z) + Z·ncols of its mass numbers A. |
| ChartGrid.MinOfShifted | nuclearNetAnalyzer.py:106-115 | The least neutron number is the least mass number minus Z. |

## Left out

- `process_reac` (nuclear_aux.py:124 onward) is not part of this model. It is unfinished and fails on its first real line.
- The unused module-level argument parser of nuclear_aux.py is left out.
- The search directory is a parameter. The choice between `MESA_DIR` and the working directory (nuclearNetAnalyzer.py:45-52) and `os.path.join` are left out. Names are looked up as given, so an absolute name inside an `include` is not treated specially.
- The `print` calls (nuclear_aux.py:62, 66, 70; nuclearNetAnalyzer.py:58) are output only and are left out.
- pandas tables are modelled as a map from capitalised symbol to atomic number and as a list of (Z, N) pairs. numpy arrays are modelled as Dafny arrays and sequences. matplotlib is left out.
- ChartGrid.GetDataStructs: the float markers 1, 0.1 and 0 become `Present`, `Background` and `Vacant`. The masked-array bookkeeping becomes the `Overlay` of vacant cells.
- ChartGrid.GetDataStructs: the running `minProt/maxProt/minNeut/maxNeut` limits (nuclearNetAnalyzer.py:116-117) are not returned by the source and are not modelled.
- ChartGrid.GetDataStructs: the paths on which the source raises are preconditions rather than modelled errors:
  - a symbol missing from the periodic table;
  - an element other than `neut`/`prot` with no mass numbers (`np.min` of an empty array);
  - a grid index outside [−nrows·ncols, nrows·ncols);
  - a network with fewer than two keys, or an empty background list.
  Negative indices inside that range wrap as numpy does.
- ChartGrid.GetDataStructs: a `neut` or `prot` entry with more than one mass number and no periodic-table row makes numpy broadcasting fail in the source. `EntryOk` excludes it.
- NetworkReader.ReadFile: Python's recursion limit is modelled as a `fuel` count of nested calls.
- Characters are ASCII. `isalpha`, `isdigit`, `capitalize` and `split()` are modelled on ASCII letters, digits and the ASCII whitespace characters.
