/**
 * `analyzeNetwork` of nuclearNetAnalyzer.py: reads a network from an empty mapping,
 * drops the empty symbol that unclassifiable records produce, and records which network
 * was read under the key `network`.
 */
module NetAnalyzer {
  import opened Dicts
  import opened NetworkReader
  import opened ReaderProperties

  /** A value of the analysed mapping: the mass numbers of an element, or the name of
      the network (the `network` key). */
  datatype Entry = Isotopes(masses: seq<int>) | Provenance(name: string)

  type Chart = Dict<Entry>

  datatype Analysis = Failed(error: Error) | Analyzed(chart: Chart)

  /** A network viewed as a chart: every list of mass numbers becomes an `Isotopes` entry. */
  function AsChart(n: Network): (c: Chart)
    ensures c.keys == n.keys
    ensures forall k :: k in c.vals <==> k in n.vals
    ensures forall k :: k in n.vals ==> c.vals[k] == Isotopes(n.vals[k])
    ensures n.Valid() ==> c.Valid()
  {
    Dict(n.keys, map k | k in n.vals :: Isotopes(n.vals[k]))
  }

  /** `analyzeNetwork(net)` with the network directory given as `dir`. A reader error
      escapes; otherwise the result holds every symbol read except the empty one, each
      with its mass numbers, and `network` naming the request. When no element is called
      `network`, that key comes last and the others keep the order in which they were
      read. */
  method AnalyzeNetwork(dir: Directory, net: string, fuel: nat) returns (r: Analysis)
    ensures r.Failed? <==> Read(dir, Empty(), net, fuel).Raised?
    ensures r.Failed? ==> r.error == Read(dir, Empty(), net, fuel).error
    ensures r.Analyzed? ==>
      var read := Read(dir, Empty(), net, fuel).net;
      && r.chart.Valid()
      && "" !in r.chart.vals
      && "network" in r.chart.vals && r.chart.vals["network"] == Provenance(net)
      && (forall k :: k != "" && k != "network" ==> (k in r.chart.vals <==> k in read.vals))
      && (forall k :: k != "" && k != "network" && k in read.vals ==> r.chart.vals[k] == Isotopes(read.vals[k]))
      && ("network" !in read.vals ==> r.chart.keys == Without(read.keys, "") + ["network"])
      && ("network" in read.vals ==> r.chart.keys == Without(read.keys, ""))
  {
    var outcome := ReadFile(dir, Empty(), net, fuel);
    if outcome.Raised? {
      return Failed(outcome.error);
    }
    ReadGrows(dir, Empty(), net, fuel);
    var data := AsChart(outcome.net);
    if "" in data.vals {
      RemoveKeys(data, "");
      data := Remove(data, "");
    } else {
      WithoutAbsent(data.keys, "");
    }
    var chart := Assign(data, "network", Provenance(net));
    if "network" !in data.vals {
      assert chart.keys == data.keys + ["network"];
    }
    return Analyzed(chart);
  }
}

/**
 * `getDataStructs` of nuclearNetAnalyzer.py: the occupancy grid of a network on the
 * chart of nuclides, with the labels of its elements and where to draw them.
 *
 * The periodic table is a map from capitalised symbol to proton number Z, and the
 * background chart a list of (Z, N) pairs. Grid cells are flat indices N + Z * ncols
 * into an array of nrows * ncols cells, reshaped to nrows rows of ncols cells.
 */
module ChartGrid {
  import opened Text
  import opened Dicts
  import opened NetAnalyzer

  /** The markers of the grid: 0 (nothing), 0.1 (a known nuclide) and 1 (in the network). */
  datatype Cell = Vacant | Background | Present

  /** `neut` and `prot` are placed by hand rather than looked up. */
  predicate IsSpecial(k: string) {
    k == "neut" || k == "prot"
  }

  /** `list(data_dict.keys())[:-1]`: every key but the last. */
  function Drawn(c: Chart): (ks: seq<string>)
    ensures |ks| == if c.keys == [] then 0 else |c.keys| - 1
    ensures forall i :: 0 <= i < |ks| ==> ks[i] == c.keys[i]
  {
    if c.keys == [] then [] else c.keys[..|c.keys| - 1]
  }

  /** What `getDataStructs` needs of a key it draws: an entry of mass numbers; for an
      element, a row of the periodic table and at least one mass number (numpy's minimum
      of an empty array raises); for `neut` and `prot`, at most one mass number unless
      the table has a row for them (numpy cannot broadcast otherwise). */
  predicate EntryOk(k: string, c: Chart, table: map<string, int>) {
    && k in c.vals && c.vals[k].Isotopes?
    && (!IsSpecial(k) ==> Capitalize(k) in table && |c.vals[k].masses| > 0)
    && (IsSpecial(k) ==> |c.vals[k].masses| <= 1 || Capitalize(k) in table)
  }

  predicate AllOk(ks: seq<string>, c: Chart, table: map<string, int>) {
    forall i :: 0 <= i < |ks| ==> EntryOk(ks[i], c, table)
  }

  /** The smallest of a non-empty list (`np.min`). */
  function MinOf(s: seq<int>): (m: int)
    requires s != []
    ensures m in s
    ensures forall i :: 0 <= i < |s| ==> m <= s[i]
  {
    if |s| == 1 then s[0]
    else
      var rest := MinOf(s[1..]);
      if s[0] <= rest then s[0] else rest
  }

  /** The label of a key: `n` and `p` for `neut` and `prot`, else the capitalised symbol. */
  function LabelText(k: string): string {
    if IsSpecial(k) then [k[0]] else Capitalize(k)
  }

  /** The proton number of an element. */
  function ProtonsOf(k: string, table: map<string, int>): int
    requires !IsSpecial(k) && Capitalize(k) in table
  {
    table[Capitalize(k)]
  }

  /** The proton number of a key and the neutron numbers of its isotopes: `neut` is
      Z = 0, N = 1; `prot` is Z = 1, N = 0; an element with mass numbers A has N = A - Z. */
  function Nuclides(k: string, c: Chart, table: map<string, int>): (zn: (int, seq<int>))
    requires EntryOk(k, c, table)
  {
    if k == "neut" then (0, [1])
    else if k == "prot" then (1, [0])
    else
      var z := ProtonsOf(k, table);
      (z, Shifted(c.vals[k].masses, z))
  }

  /** Flat indices of the cells of Z with neutron numbers `ns`. */
  function Flatten(z: int, ns: seq<int>, ncols: int): (ids: seq<int>)
    ensures |ids| == |ns| && forall j :: 0 <= j < |ns| ==> ids[j] == ns[j] + z * ncols
  {
    seq(|ns|, j requires 0 <= j < |ns| => ns[j] + z * ncols)
  }

  /** The cells of one key. */
  function CellIds(k: string, c: Chart, table: map<string, int>, ncols: int): (ids: seq<int>)
    requires EntryOk(k, c, table)
  {
    var (z, ns) := Nuclides(k, c, table);
    Flatten(z, ns, ncols)
  }

  /** Where the label of a key goes: its Z, and one less than its smallest N. */
  function LabelPos(k: string, c: Chart, table: map<string, int>): (int, int)
    requires EntryOk(k, c, table)
  {
    var (z, ns) := Nuclides(k, c, table);
    if ns == [] then (z, 0) else (z, MinOf(ns) - 1)
  }

  /** The labels of the keys `ks`, in order (the `elementName` list). */
  function Names(ks: seq<string>): (names: seq<string>)
  {
    if ks == [] then [] else Names(ks[..|ks| - 1]) + [LabelText(ks[|ks| - 1])]
  }

  /** The label positions of the keys `ks`, in order (the `eleLabelPos` list). */
  function Positions(ks: seq<string>, c: Chart, table: map<string, int>): (ps: seq<(int, int)>)
    requires AllOk(ks, c, table)
  {
    if ks == [] then [] else Positions(ks[..|ks| - 1], c, table) + [LabelPos(ks[|ks| - 1], c, table)]
  }

  /** The cells of the keys `ks`, key after key (the flattened `Iso_id` list). */
  function IsoIds(ks: seq<string>, c: Chart, table: map<string, int>, ncols: int): (ids: seq<int>)
    requires AllOk(ks, c, table)
  {
    if ks == [] then [] else IsoIds(ks[..|ks| - 1], c, table, ncols) + CellIds(ks[|ks| - 1], c, table, ncols)
  }

  /** The cells of the background chart (the `Back_id` list). */
  function BackIds(background: seq<(int, int)>, ncols: int): (ids: seq<int>)
  {
    if background == [] then []
    else
      var (z, n) := background[|background| - 1];
      BackIds(background[..|background| - 1], ncols) + [n + z * ncols]
  }

  /** The value of a cell of the finished grid. */
  function CellAt(k: int, iso: seq<int>, back: seq<int>): Cell {
    if k in iso then Present else if k in back then Background else Vacant
  }

  /** numpy accepts an index from `-size` up to `size`; a negative one counts from the end. */
  predicate InGrid(ids: seq<int>, size: int) {
    forall i :: 0 <= i < |ids| ==> -size <= ids[i] < size
  }

  /** The cell an index in range refers to. */
  function FlatIndex(id: int, size: int): (k: int)
    requires -size <= id < size
    ensures 0 <= k < size
    ensures 0 <= id ==> k == id
    ensures id < 0 ==> k == id + size
  {
    if id < 0 then id + size else id
  }

  /** The cells a list of indices in range refers to. */
  function Wrap(ids: seq<int>, size: int): (ks: seq<int>)
    requires InGrid(ids, size)
    ensures |ks| == |ids| && forall i :: 0 <= i < |ids| ==> ks[i] == FlatIndex(ids[i], size)
  {
    seq(|ids|, i requires 0 <= i < |ids| => FlatIndex(ids[i], size))
  }

  /** The flat index of the first cell of row `r`. */
  function Offset(r: nat, ncols: nat): nat {
    if r == 0 then 0 else Offset(r - 1, ncols) + ncols
  }

  lemma {:induction false} OffsetIsProduct(r: nat, ncols: nat)
    ensures Offset(r, ncols) == r * ncols
  {
    if r > 0 {
      OffsetIsProduct(r - 1, ncols);
      assert (r - 1) * ncols + ncols == r * ncols;
    }
  }

  lemma {:induction false} RowInside(r: nat, nrows: nat, ncols: nat)
    requires r < nrows
    ensures Offset(r, ncols) + ncols <= Offset(nrows, ncols)
    decreases nrows
  {
    if r < nrows - 1 {
      RowInside(r, nrows - 1, ncols);
    }
  }

  /** The flat array of `nrows * ncols` cells as `nrows` rows of `ncols` cells: row `r`
      starts at flat index `Offset(r, ncols)`. */
  function Reshape(cells: seq<Cell>, nrows: nat, ncols: nat): (grid: seq<seq<Cell>>)
    requires |cells| == Offset(nrows, ncols)
    ensures |grid| == nrows
    ensures forall r :: 0 <= r < nrows ==> |grid[r]| == ncols
    ensures forall r, col :: 0 <= r < nrows && 0 <= col < ncols ==>
      Offset(r, ncols) + col < |cells| && grid[r][col] == cells[Offset(r, ncols) + col]
  {
    assert forall r :: 0 <= r < nrows ==> Offset(r, ncols) + ncols <= |cells| by {
      forall r | 0 <= r < nrows {
        RowInside(r, nrows, ncols);
      }
    }
    seq(nrows, r requires 0 <= r < nrows => cells[Offset(r, ncols)..Offset(r, ncols) + ncols])
  }

  /** The mass numbers of an element as neutron numbers, `masses - Z`. */
  function Shifted(s: seq<int>, z: int): (t: seq<int>)
    ensures |t| == |s| && forall j :: 0 <= j < |s| ==> t[j] == s[j] - z
  {
    seq(|s|, j requires 0 <= j < |s| => s[j] - z)
  }

  lemma MinOfShifted(s: seq<int>, z: int)
    requires s != []
    ensures MinOf(Shifted(s, z)) == MinOf(s) - z
  {
    var t := Shifted(s, z);
    var a :| 0 <= a < |t| && t[a] == MinOf(t);
    var b :| 0 <= b < |s| && s[b] == MinOf(s);
    assert MinOf(t) <= t[b];
    assert MinOf(s) <= s[a];
  }

  /** The body of the loop over the keys: the label, the label position and the cells of
      one key. */
  method Element(element: string, c: Chart, table: map<string, int>, ncols: int)
    returns (name: string, position: (int, int), cells: seq<int>)
    requires EntryOk(element, c, table)
    ensures name == LabelText(element)
    ensures position == LabelPos(element, c, table)
    ensures cells == CellIds(element, c, table, ncols)
  {
    var masses := c.vals[element].masses;
    var z, ns;
    if element == "neut" {
      z, ns := 0, [1];
    } else if element == "prot" {
      z, ns := 1, [0];
    } else {
      z := table[Capitalize(element)];
      ns := Shifted(masses, z);
    }
    assert (z, ns) == Nuclides(element, c, table);
    if IsSpecial(element) {
      name := [element[0]];
    } else {
      name := Capitalize(element);
    }
    position := (z, MinOf(ns) - 1);
    cells := Flatten(z, ns, ncols);
  }

  lemma ExtendByOne(ks: seq<string>, i: nat, c: Chart, table: map<string, int>, ncols: int)
    requires i < |ks| && AllOk(ks, c, table)
    ensures AllOk(ks[..i], c, table) && AllOk(ks[..i + 1], c, table) && EntryOk(ks[i], c, table)
    ensures Names(ks[..i + 1]) == Names(ks[..i]) + [LabelText(ks[i])]
    ensures Positions(ks[..i + 1], c, table) == Positions(ks[..i], c, table) + [LabelPos(ks[i], c, table)]
    ensures IsoIds(ks[..i + 1], c, table, ncols) == IsoIds(ks[..i], c, table, ncols) + CellIds(ks[i], c, table, ncols)
  {
    var seen := ks[..i + 1];
    assert seen[..i] == ks[..i] && seen[i] == ks[i];
  }

  /** The loop over every key but the last: the label, the label position and the
      cells of each key. */
  method Elements(c: Chart, table: map<string, int>, ncols: int)
    returns (names: seq<string>, positions: seq<(int, int)>, iso: seq<int>)
    requires AllOk(Drawn(c), c, table)
    ensures names == Names(Drawn(c))
    ensures positions == Positions(Drawn(c), c, table)
    ensures iso == IsoIds(Drawn(c), c, table, ncols)
  {
    var drawn := Drawn(c);
    names, positions, iso := [], [], [];
    var i := 0;
    while i < |drawn|
      invariant i <= |drawn|
      invariant names == Names(drawn[..i])
      invariant positions == Positions(drawn[..i], c, table)
      invariant iso == IsoIds(drawn[..i], c, table, ncols)
    {
      var name, position, cells := Element(drawn[i], c, table, ncols);
      ExtendByOne(drawn, i, c, table, ncols);
      names, positions, iso := names + [name], positions + [position], iso + cells;
      i := i + 1;
    }
    assert drawn[..|drawn|] == drawn;
  }

  /** The loop over the background chart: the cell of each known nuclide. */
  method BackgroundCells(background: seq<(int, int)>, ncols: int) returns (back: seq<int>)
    ensures back == BackIds(background, ncols)
  {
    back := [];
    var i := 0;
    while i < |background|
      invariant i <= |background|
      invariant back == BackIds(background[..i], ncols)
    {
      assert background[..i + 1][..i] == background[..i];
      var (z, n) := background[i];
      back := back + [n + z * ncols];
      i := i + 1;
    }
    assert background[..|background|] == background;
  }

  /** `zeros(size)` with `value` written at each of `ids`. */
  method Mark(size: nat, ids: seq<int>, value: Cell) returns (a: array<Cell>)
    requires InGrid(ids, size)
    ensures fresh(a) && a.Length == size
    ensures forall k :: 0 <= k < size ==> a[k] == if k in Wrap(ids, size) then value else Vacant
  {
    a := new Cell[size](_ => Vacant);
    ghost var marked: seq<int> := [];
    var j := 0;
    while j < |ids|
      invariant j <= |ids|
      invariant marked == Wrap(ids[..j], size)
      invariant forall k :: 0 <= k < size ==> a[k] == if k in marked then value else Vacant
    {
      assert ids[..j + 1] == ids[..j] + [ids[j]];
      var k := if ids[j] < 0 then ids[j] + size else ids[j];
      a[k] := value;
      marked := marked + [k];
      j := j + 1;
    }
    assert ids[..|ids|] == ids;
  }

  /** `data[data.mask] = dataB[data.mask]`: the vacant cells of `data` take the value
      `dataB` has there. */
  method Overlay(data: array<Cell>, dataB: array<Cell>)
    requires data != dataB && data.Length == dataB.Length
    modifies data
    ensures forall m :: 0 <= m < data.Length ==>
      data[m] == if old(data[m]) == Vacant then dataB[m] else old(data[m])
  {
    var k := 0;
    while k < data.Length
      invariant k <= data.Length
      invariant forall m :: 0 <= m < k ==>
        data[m] == if old(data[m]) == Vacant then dataB[m] else old(data[m])
      invariant forall m :: k <= m < data.Length ==> data[m] == old(data[m])
    {
      if data[k] == Vacant {
        data[k] := dataB[k];
      }
      k := k + 1;
    }
  }

  /** The flat grid: the network's cells marked present over the background's cells. */
  method Occupancy(size: nat, iso: seq<int>, back: seq<int>) returns (cells: seq<Cell>)
    requires InGrid(iso, size) && InGrid(back, size)
    ensures |cells| == size
    ensures forall m :: 0 <= m < size ==> cells[m] == CellAt(m, Wrap(iso, size), Wrap(back, size))
  {
    var data := Mark(size, iso, Present);
    var dataB := Mark(size, back, Background);
    Overlay(data, dataB);
    cells := data[..];
  }

  /** `getDataStructs(data_dict, periodicTable, fullIsotopeList, nrows, ncols)`: the
      grid marks the cells of the network as present, the other cells of the background
      chart as background, and leaves every other cell vacant; there is one label and one
      label position per key except the last. */
  method GetDataStructs(c: Chart, table: map<string, int>, background: seq<(int, int)>, nrows: nat, ncols: nat)
    returns (grid: seq<seq<Cell>>, names: seq<string>, positions: seq<(int, int)>)
    requires AllOk(Drawn(c), c, table)
    requires |c.keys| >= 2 && background != []
    requires InGrid(IsoIds(Drawn(c), c, table, ncols), nrows * ncols)
    requires InGrid(BackIds(background, ncols), nrows * ncols)
    ensures names == Names(Drawn(c))
    ensures positions == Positions(Drawn(c), c, table)
    ensures |grid| == nrows
    ensures forall r :: 0 <= r < nrows ==> |grid[r]| == ncols
    ensures forall r, col :: 0 <= r < nrows && 0 <= col < ncols ==>
      grid[r][col] == CellAt(Offset(r, ncols) + col,
        Wrap(IsoIds(Drawn(c), c, table, ncols), nrows * ncols), Wrap(BackIds(background, ncols), nrows * ncols))
  {
    var iso;
    names, positions, iso := Elements(c, table, ncols);
    var back := BackgroundCells(background, ncols);
    var cells := Occupancy(nrows * ncols, iso, back);
    OffsetIsProduct(nrows, ncols);
    grid := Reshape(cells, nrows, ncols);
  }

  /** The label of `neut` is `n`, of `prot` is `p`, and of an element its capitalised symbol. */
  lemma LabelTexts(k: string)
    ensures k == "neut" ==> LabelText(k) == "n"
    ensures k == "prot" ==> LabelText(k) == "p"
    ensures !IsSpecial(k) ==> LabelText(k) == Capitalize(k)
  {
  }

  /** One label per drawn key, in key order. */
  lemma {:induction false} OneLabelPerKey(ks: seq<string>)
    ensures |Names(ks)| == |ks|
    ensures forall i :: 0 <= i < |ks| ==> Names(ks)[i] == LabelText(ks[i])
  {
    if ks != [] {
      var front := ks[..|ks| - 1];
      OneLabelPerKey(front);
      forall i | 0 <= i < |front|
        ensures Names(ks)[i] == LabelText(ks[i])
      {
        assert front[i] == ks[i];
      }
    }
  }

  /** The keys drawn from an analysed network are the symbols read, in order: the
      `network` key that the analysis put last is the one left out. */
  lemma DrawnAreRead(chart: Chart, read: seq<string>)
    requires chart.keys == read + ["network"]
    ensures Drawn(chart) == read
  {
  }

  /** The label of an element sits in the row of its proton number, one column left of
      its lightest isotope; `n` sits at (0, 0) and `p` at (1, -1). */
  lemma LabelLeftOfLightest(k: string, c: Chart, table: map<string, int>)
    requires EntryOk(k, c, table)
    ensures k == "neut" ==> LabelPos(k, c, table) == (0, 0)
    ensures k == "prot" ==> LabelPos(k, c, table) == (1, -1)
    ensures !IsSpecial(k) ==>
      var z := table[Capitalize(k)];
      var masses := c.vals[k].masses;
      && LabelPos(k, c, table).0 == z
      && (LabelPos(k, c, table).1 + 1 + z) in masses
      && forall j :: 0 <= j < |masses| ==> LabelPos(k, c, table).1 + 1 + z <= masses[j]
  {
    if !IsSpecial(k) {
      MinOfShifted(c.vals[k].masses, table[Capitalize(k)]);
    }
  }

  /** One label position per drawn key, in key order. */
  lemma {:induction false} OnePositionPerKey(ks: seq<string>, c: Chart, table: map<string, int>)
    requires AllOk(ks, c, table)
    ensures |Positions(ks, c, table)| == |ks|
    ensures forall i :: 0 <= i < |ks| ==> Positions(ks, c, table)[i] == LabelPos(ks[i], c, table)
  {
    if ks != [] {
      var front := ks[..|ks| - 1];
      assert AllOk(front, c, table);
      OnePositionPerKey(front, c, table);
      var before := Positions(front, c, table);
      assert Positions(ks, c, table) == before + [LabelPos(ks[|ks| - 1], c, table)];
      forall i | 0 <= i < |front|
        ensures Positions(ks, c, table)[i] == LabelPos(ks[i], c, table)
      {
        assert before[i] == LabelPos(front[i], c, table);
        assert front[i] == ks[i];
      }
    }
  }

  lemma {:induction false} CellOfKeyIsNetworkCell(ks: seq<string>, c: Chart, table: map<string, int>, ncols: int, i: nat, id: int)
    requires AllOk(ks, c, table)
    requires i < |ks| && id in CellIds(ks[i], c, table, ncols)
    ensures id in IsoIds(ks, c, table, ncols)
  {
    var front := ks[..|ks| - 1];
    assert AllOk(front, c, table);
    if i < |front| {
      assert front[i] == ks[i];
      CellOfKeyIsNetworkCell(front, c, table, ncols, i, id);
    }
  }

  lemma {:induction false} NetworkCellOfSomeKey(ks: seq<string>, c: Chart, table: map<string, int>, ncols: int, id: int)
    returns (i: nat)
    requires AllOk(ks, c, table)
    requires id in IsoIds(ks, c, table, ncols)
    ensures i < |ks| && id in CellIds(ks[i], c, table, ncols)
  {
    var front := ks[..|ks| - 1];
    assert AllOk(front, c, table);
    if id in IsoIds(front, c, table, ncols) {
      i := NetworkCellOfSomeKey(front, c, table, ncols, id);
      assert front[i] == ks[i];
    } else {
      i := |ks| - 1;
    }
  }

  /** The cells of the network are exactly the cells of its drawn keys. */
  lemma NetworkCells(ks: seq<string>, c: Chart, table: map<string, int>, ncols: int, id: int)
    requires AllOk(ks, c, table)
    ensures id in IsoIds(ks, c, table, ncols) <==> exists i :: 0 <= i < |ks| && id in CellIds(ks[i], c, table, ncols)
  {
    if id in IsoIds(ks, c, table, ncols) {
      var i := NetworkCellOfSomeKey(ks, c, table, ncols, id);
    }
    if exists i :: 0 <= i < |ks| && id in CellIds(ks[i], c, table, ncols) {
      var i :| 0 <= i < |ks| && id in CellIds(ks[i], c, table, ncols);
      CellOfKeyIsNetworkCell(ks, c, table, ncols, i, id);
    }
  }

  /** The cells of one key: `neut` at Z = 0, N = 1; `prot` at Z = 1, N = 0; and an
      element with proton number Z at N = A - Z for each of its mass numbers A. */
  lemma KeyCells(k: string, c: Chart, table: map<string, int>, ncols: int, id: int)
    requires EntryOk(k, c, table)
    ensures k == "neut" ==> (id in CellIds(k, c, table, ncols) <==> id == 1 + 0 * ncols)
    ensures k == "prot" ==> (id in CellIds(k, c, table, ncols) <==> id == 0 + 1 * ncols)
    ensures !IsSpecial(k) ==>
      var z := table[Capitalize(k)];
      var masses := c.vals[k].masses;
      (id in CellIds(k, c, table, ncols) <==> exists j :: 0 <= j < |masses| && id == (masses[j] - z) + z * ncols)
  {
    var ids := CellIds(k, c, table, ncols);
    if k == "neut" {
      assert ids == [1 + 0 * ncols];
    } else if k == "prot" {
      assert ids == [0 + 1 * ncols];
    } else {
      var z := table[Capitalize(k)];
      var masses := c.vals[k].masses;
      if id in ids {
        var j :| 0 <= j < |ids| && ids[j] == id;
        assert id == (masses[j] - z) + z * ncols;
      }
      if exists j :: 0 <= j < |masses| && id == (masses[j] - z) + z * ncols {
        var j :| 0 <= j < |masses| && id == (masses[j] - z) + z * ncols;
        assert ids[j] == id;
      }
    }
  }

  /** The background cells are exactly the cells n + z * ncols of the listed (z, n)
      pairs. */
  lemma {:induction false} BackgroundCellsOf(background: seq<(int, int)>, ncols: int, id: int)
    ensures id in BackIds(background, ncols) <==>
      exists i :: 0 <= i < |background| && id == background[i].1 + background[i].0 * ncols
    decreases |background|
  {
    if background != [] {
      var front := background[..|background| - 1];
      BackgroundCellsOf(front, ncols, id);
      if exists i :: 0 <= i < |front| && id == front[i].1 + front[i].0 * ncols {
        var i :| 0 <= i < |front| && id == front[i].1 + front[i].0 * ncols;
        assert background[i] == front[i];
      }
      if exists i :: 0 <= i < |background| && id == background[i].1 + background[i].0 * ncols {
        var i :| 0 <= i < |background| && id == background[i].1 + background[i].0 * ncols;
        if i < |front| { assert front[i] == background[i]; }
      }
    }
  }
}
