/**
 * What `read_file` guarantees, stated over the reader's definition in NetworkReader.
 */
module ReaderProperties {
  import opened Text
  import opened Dicts
  import opened LineClassifier
  import opened NetworkReader

  // ---------------------------------------------------------------- aliases

  /** A name that normalises to an alias is answered from the frozen table. */
  lemma AliasRead(dir: Directory, d: Network, name: string, fuel: nat)
    requires fuel > 0 && Alias(WithExtension(name)).Some?
    ensures Read(dir, d, name, fuel) == Done(AssignAll(d, Alias(WithExtension(name)).value))
  {
  }

  /** The name `approx19`, with or without `.net`, gives the input mapping updated with
      the frozen approx19 table, whatever the directory holds. */
  lemma Approx19IgnoresDirectory(dir: Directory, d: Network, fuel: nat)
    requires fuel > 0
    ensures Read(dir, d, "approx19", fuel) == Read(dir, d, "approx19.net", fuel) == Done(AssignAll(d, Approx19))
  {
    assert "approx19" + ".net" == "approx19.net";
    ExtensionOptional(dir, d, "approx19", fuel);
    AliasRead(dir, d, "approx19.net", fuel);
  }

  /** The same for `approx20`. */
  lemma Approx20IgnoresDirectory(dir: Directory, d: Network, fuel: nat)
    requires fuel > 0
    ensures Read(dir, d, "approx20", fuel) == Read(dir, d, "approx20.net", fuel) == Done(AssignAll(d, Approx20))
  {
    assert "approx20" + ".net" == "approx20.net";
    ExtensionOptional(dir, d, "approx20", fuel);
    assert "approx20.net"[7] != "approx19.net"[7];
    AliasRead(dir, d, "approx20.net", fuel);
  }

  /** The same for `approx21`. */
  lemma Approx21IgnoresDirectory(dir: Directory, d: Network, fuel: nat)
    requires fuel > 0
    ensures Read(dir, d, "approx21", fuel) == Read(dir, d, "approx21.net", fuel) == Done(AssignAll(d, Approx21))
  {
    assert "approx21" + ".net" == "approx21.net";
    ExtensionOptional(dir, d, "approx21", fuel);
    assert "approx21.net"[6] != "approx19.net"[6] && "approx21.net"[7] != "approx20.net"[7];
    AliasRead(dir, d, "approx21.net", fuel);
  }

  /** The symbols of a table, in order. */
  function Symbols(table: seq<(string, seq<int>)>): (ks: seq<string>)
    ensures |ks| == |table|
    ensures forall i :: 0 <= i < |table| ==> ks[i] == table[i].0
  {
    seq(|table|, i requires 0 <= i < |table| => table[i].0)
  }

  predicate DistinctSymbols(table: seq<(string, seq<int>)>) {
    forall i, j :: 0 <= i < j < |table| ==> table[i].0 != table[j].0
  }

  /** The sixteen symbols shared by the three frozen tables. */
  const AliasSymbols: seq<string> :=
    ["neut", "h", "he", "c", "n", "o", "ne", "mg", "si", "s", "ar", "ca", "ti", "cr", "fe", "ni"]

  lemma AliasSymbolsDistinct()
    ensures forall i, j :: 0 <= i < j < |AliasSymbols| ==> AliasSymbols[i] != AliasSymbols[j]
  {
  }

  /** Each frozen table names the same sixteen distinct symbols. */
  lemma AliasTablesDistinct()
    ensures Symbols(Approx19) == Symbols(Approx20) == Symbols(Approx21) == AliasSymbols
    ensures DistinctSymbols(Approx19) && DistinctSymbols(Approx20) && DistinctSymbols(Approx21)
  {
    AliasSymbolsDistinct();
  }

  /** Assigning pairs with distinct new keys lists them after the existing keys, in order. */
  lemma {:induction false} AssignAllAppendsKeys(d: Network, table: seq<(string, seq<int>)>)
    requires DistinctSymbols(table)
    requires forall i :: 0 <= i < |table| ==> table[i].0 !in d.vals
    ensures AssignAll(d, table).keys == d.keys + Symbols(table)
    decreases |table|
  {
    if table != [] {
      var front := table[..|table| - 1];
      var k := table[|table| - 1].0;
      AssignAllAppendsKeys(d, front);
      assert k !in AssignAll(d, front).vals by {
        forall i | 0 <= i < |front| ensures front[i].0 != k { assert front[i] == table[i]; }
        KeysOfMembers(front, k);
        AssignAllKeeps(d, front);
      }
      assert Symbols(table) == Symbols(front) + [k];
    }
  }

  /** A key of `KeysOf(ps)` is the key of some pair. */
  lemma {:induction false} KeysOfMembers<V>(ps: seq<(string, V)>, k: string)
    requires forall i :: 0 <= i < |ps| ==> ps[i].0 != k
    ensures k !in KeysOf(ps)
    decreases |ps|
  {
    if ps != [] {
      KeysOfMembers(ps[..|ps| - 1], k);
    }
  }

  /** Assigning a table of distinct symbols sets each of them to its list and leaves
      every other symbol alone; from an empty mapping the keys are the table's symbols. */
  lemma TableOverwrites(d: Network, table: seq<(string, seq<int>)>)
    requires DistinctSymbols(table)
    ensures var r := AssignAll(d, table);
      && (forall i :: 0 <= i < |table| ==> table[i].0 in r.vals && r.vals[table[i].0] == table[i].1)
      && (forall k :: k !in KeysOf(table) ==> (k in r.vals <==> k in d.vals))
      && (forall k :: k !in KeysOf(table) && k in d.vals ==> r.vals[k] == d.vals[k])
      && (d.Valid() ==> r.Valid())
    ensures AssignAll(Empty(), table).keys == Symbols(table)
  {
    assert forall i :: 0 <= i < |table| ==> LastFor(table, i);
    AssignAllValues(d, table);
    AssignAllAppendsKeys(Empty(), table);
  }

  /** An alias overwrites: each of its symbols is set to the frozen list, replacing what
      was there, and every other symbol keeps its list. From an empty mapping the result
      has exactly the sixteen symbols of the table, in the table's order. */
  lemma AliasOverwrites(d: Network, table: seq<(string, seq<int>)>)
    requires table == Approx19 || table == Approx20 || table == Approx21
    ensures var r := AssignAll(d, table);
      && (forall i :: 0 <= i < |table| ==> table[i].0 in r.vals && r.vals[table[i].0] == table[i].1)
      && (forall k :: k !in KeysOf(table) ==> (k in r.vals <==> k in d.vals))
      && (forall k :: k !in KeysOf(table) && k in d.vals ==> r.vals[k] == d.vals[k])
      && (d.Valid() ==> r.Valid())
    ensures AssignAll(Empty(), table).keys == Symbols(table) && |AssignAll(Empty(), table).keys| == 16
  {
    AliasTablesDistinct();
    TableOverwrites(d, table);
  }

  // ---------------------------------------------------------------- missing files

  /** A name that is not an alias and names no file, even after the one `mesa` ->
      `mesa_` correction, leaves the mapping as it was. */
  lemma MissingFileKeepsMapping(dir: Directory, d: Network, name: string, fuel: nat)
    requires fuel > 0
    requires Alias(WithExtension(name)).None?
    requires WithExtension(name) !in dir
    requires !StartsWith(WithExtension(name), "mesa") || "mesa_" + WithExtension(name)[4..] !in dir
    ensures Read(dir, d, name, fuel) == Done(d)
  {
  }

  /** Whether a name carries `.net` or not makes no difference. */
  lemma ExtensionOptional(dir: Directory, d: Network, name: string, fuel: nat)
    requires !EndsWith(name, ".net")
    ensures Read(dir, d, name, fuel) == Read(dir, d, name + ".net", fuel)
  {
    assert EndsWith(name + ".net", ".net");
    assert WithExtension(name + ".net") == name + ".net";
  }

  /** A missing `mesa...` network whose `mesa_...` spelling is present is read from the
      corrected file. */
  lemma MesaCorrection(dir: Directory, d: Network, name: string, fuel: nat)
    requires fuel > 0
    requires Alias(WithExtension(name)).None?
    requires WithExtension(name) !in dir && StartsWith(WithExtension(name), "mesa")
    requires "mesa_" + WithExtension(name)[4..] in dir
    ensures Read(dir, d, name, fuel) == Open(dir, d, "mesa_" + WithExtension(name)[4..], fuel - 1)
  {
  }

  // ---------------------------------------------------------------- the mapping only grows

  /** A successful read keeps every key of the input in its place (new keys come after
      them) and keeps the mapping a well-formed dict. */
  ghost predicate Grows(d: Network, r: Outcome) {
    r.Done? ==> d.keys <= r.net.keys && (d.Valid() ==> r.net.Valid())
  }

  lemma {:induction false} ReadGrows(dir: Directory, d: Network, name: string, fuel: nat)
    ensures Grows(d, Read(dir, d, name, fuel))
    decreases fuel, 0, 0
  {
    if fuel > 0 {
      var net := WithExtension(name);
      match Alias(net) {
        case Some(table) =>
          AssignAllValues(d, table);
        case None =>
          match Resolve(dir, net) {
            case None =>
            case Some(file) =>
              OpenGrows(dir, d, file, fuel - 1);
          }
      }
    }
  }

  lemma {:induction false} OpenGrows(dir: Directory, d: Network, file: string, fuel: nat)
    requires file in dir
    ensures Grows(d, Open(dir, d, file, fuel))
    decreases fuel, 2, 0
  {
    if Contains(file, "approx21") {
      CompoundGrows(dir, d, SplitOn(file, "_"), fuel);
    } else {
      ScanGrows(dir, d, dir[file], true, fuel);
    }
  }

  lemma CompoundGrows(dir: Directory, d: Network, terms: seq<string>, fuel: nat)
    ensures Grows(d, ReadCompound(dir, d, terms, fuel))
  {
    if terms != [] && terms[0] == "approx21" {
      if fuel > 0 {
        assert terms[0] + ".net" == "approx21.net";
        Approx21IgnoresDirectory(dir, d, fuel);
        AssignAllValues(d, Approx21);
        SegmentsGrow(AssignAll(d, Approx21), terms, 1);
      }
    } else {
      SegmentsGrow(d, terms, 0);
    }
  }

  lemma {:induction false} SegmentsGrow(d: Network, terms: seq<string>, i: nat)
    requires i <= |terms|
    ensures Grows(d, Segments(d, terms, i))
    decreases |terms| - i
  {
    if i < |terms| {
      if terms[i] == "plus" || |terms[i]| <= 3 {
        SegmentsGrow(d, terms, i + 1);
      } else {
        var record := WithoutExtension(terms[i]);
        if !ClassifyFails(record) {
          SegmentsGrow(Merge(d, Classify(record)), terms, i + 1);
        }
      }
    }
  }

  lemma {:induction false} MergeAllGrows(d: Network, terms: seq<string>)
    ensures Grows(d, MergeAll(d, terms))
    decreases |terms|
  {
    if terms != [] && !ClassifyFails(terms[0]) {
      MergeAllGrows(Merge(d, Classify(terms[0])), terms[1..]);
    }
  }

  /** One line of a file keeps every key it finds and the representation invariant. */
  lemma LineGrows(dir: Directory, d: Network, line: string, first: bool, fuel: nat)
    ensures match ScanLine(dir, d, line, first, fuel)
      case Finish(outcome) => Grows(d, outcome)
      case Continue(d', _) => d.keys <= d'.keys && (d.Valid() ==> d'.Valid())
    decreases fuel, 1, 0
  {
    if line == "\n" || IsComment(line) || LStripSpaces(line) == [] {
    } else if Contains(line, "include") {
      var ws := Words(line);
      if |ws| >= 2 {
        ReadGrows(dir, d, Unquote(ws[1]), fuel);
      }
    } else if Contains(line, "add_iso(") && ')' in line {
    } else if Contains(line, "add_isos(") && ')' in line {
      MergeAllGrows(d, SplitOn(Arguments(line, "add_isos("), ", "));
    }
  }

  lemma {:induction false} ScanGrows(dir: Directory, d: Network, lines: seq<string>, first: bool, fuel: nat)
    ensures Grows(d, Scan(dir, d, lines, first, fuel))
    decreases fuel, 1, |lines|
  {
    if lines != [] {
      LineGrows(dir, d, lines[0], first, fuel);
      match ScanLine(dir, d, lines[0], first, fuel) {
        case Finish(_) =>
        case Continue(d', f) =>
          ScanGrows(dir, d', lines[1..], f, fuel);
      }
    }
  }

  // ---------------------------------------------------------------- merging in order

  /** Whether every piece can be classified. */
  predicate AllClassifiable(terms: seq<string>) {
    terms == [] || (!ClassifyFails(terms[0]) && AllClassifiable(terms[1..]))
  }

  /** The mass numbers that the records of `terms` give for symbol `k`, in order. */
  function MassesFor(terms: seq<string>, k: string): seq<int>
    requires AllClassifiable(terms)
  {
    if terms == [] then []
    else
      var rec := Classify(terms[0]);
      (if rec.symbol == k then rec.masses else []) + MassesFor(terms[1..], k)
  }

  /** The symbols that the records of `terms` name. */
  function SymbolsOfRecords(terms: seq<string>): set<string>
    requires AllClassifiable(terms)
  {
    if terms == [] then {} else {Classify(terms[0]).symbol} + SymbolsOfRecords(terms[1..])
  }

  /** The list held for `k`, or the empty list when `k` is absent. */
  function MassesOf(d: Network, k: string): seq<int> {
    if k in d.vals then d.vals[k] else []
  }

  lemma ConcatAssoc<T>(a: seq<T>, b: seq<T>, c: seq<T>)
    ensures a + b + c == a + (b + c)
  {
  }

  lemma MassesOfMerge(d: Network, rec: Record, k: string)
    ensures MassesOf(Merge(d, rec), k) == MassesOf(d, k) + (if rec.symbol == k then rec.masses else [])
  {
    if rec.symbol != k { assert MassesOf(d, k) + [] == MassesOf(d, k); }
  }

  /** Merging a list of pieces fails exactly when one of them cannot be classified; when
      it succeeds, the symbols present are those present before and those of the pieces. */
  lemma {:induction false} MergeAllSymbols(d: Network, terms: seq<string>)
    ensures MergeAll(d, terms).Done? <==> AllClassifiable(terms)
    ensures AllClassifiable(terms) ==>
      forall k :: k in MergeAll(d, terms).net.vals <==> k in d.vals || k in SymbolsOfRecords(terms)
    decreases |terms|
  {
    if terms != [] && !ClassifyFails(terms[0]) {
      MergeAllSymbols(Merge(d, Classify(terms[0])), terms[1..]);
    }
  }

  /** Merging is append-only and keeps the order and the duplicates of the pieces: each
      symbol ends with its earlier list followed by the mass numbers of all pieces for
      it, in the order of the pieces. */
  lemma {:induction false} MergeAllAppends(d: Network, terms: seq<string>, k: string)
    requires AllClassifiable(terms)
    ensures MergeAll(d, terms).Done?
    ensures MassesOf(MergeAll(d, terms).net, k) == MassesOf(d, k) + MassesFor(terms, k)
    decreases |terms|
  {
    if terms == [] {
      assert MassesOf(d, k) + [] == MassesOf(d, k);
    } else {
      var rec := Classify(terms[0]);
      MergeAllAppends(Merge(d, rec), terms[1..], k);
      MassesOfMerge(d, rec, k);
      ConcatAssoc(MassesOf(d, k), if rec.symbol == k then rec.masses else [], MassesFor(terms[1..], k));
    }
  }

  // ---------------------------------------------------------------- the line scan

  /** Lines the scan passes over: the bare line "\n" and `!` comment lines. */
  predicate Skipped(line: string) {
    line == "\n" || IsComment(line)
  }

  function Uncommented(lines: seq<string>): (r: seq<string>)
    ensures forall i :: 0 <= i < |r| ==> !Skipped(r[i])
  {
    if lines == [] then []
    else (if Skipped(lines[0]) then [] else [lines[0]]) + Uncommented(lines[1..])
  }

  /** Two files that start with the same line, and whose remaining lines scan alike from
      every state, scan alike. */
  lemma SameHeadSameScan(dir: Directory, d: Network, line: string, rest: seq<string>, other: seq<string>, first: bool, fuel: nat)
    requires forall d': Network, f: bool :: Scan(dir, d', rest, f, fuel) == Scan(dir, d', other, f, fuel)
    ensures Scan(dir, d, [line] + rest, first, fuel) == Scan(dir, d, [line] + other, first, fuel)
  {
    var a, b := [line] + rest, [line] + other;
    assert a[0] == line && a[1..] == rest;
    assert b[0] == line && b[1..] == other;
    match ScanLine(dir, d, line, first, fuel) {
      case Finish(_) =>
      case Continue(d', f) =>
        assert Scan(dir, d', rest, f, fuel) == Scan(dir, d', other, f, fuel);
    }
  }


  /** Blank lines and comment lines contribute nothing: removing them from a file does
      not change what is read. */
  lemma {:induction false} CommentsContributeNothing(dir: Directory, d: Network, lines: seq<string>, first: bool, fuel: nat)
    ensures Scan(dir, d, lines, first, fuel) == Scan(dir, d, Uncommented(lines), first, fuel)
    decreases |lines|, 0
  {
    if lines != [] {
      var line, rest := lines[0], lines[1..];
      if Skipped(line) {
        assert Uncommented(lines) == Uncommented(rest);
        CommentsContributeNothing(dir, d, rest, first, fuel);
      } else {
        assert lines == [line] + rest;
        assert Uncommented(lines) == [line] + Uncommented(rest);
        forall d': Network, f: bool
          ensures Scan(dir, d', rest, f, fuel) == Scan(dir, d', Uncommented(rest), f, fuel)
        {
          CommentsContributeNothing(dir, d', rest, f, fuel);
        }
        SameHeadSameScan(dir, d, line, rest, Uncommented(rest), first, fuel);
      }
    }
  }

  /** The lines after which nothing more of the file is read: an `add_iso(` line with a
      `)`, an `add_isos(` line with a `)`, and any other line with a `)` that is not the
      skipped header. */
  predicate EndsScan(line: string, first: bool) {
    && line != "\n"
    && LStripSpaces(line) != []
    && !IsComment(line)
    && !Contains(line, "include")
    && ')' in line
    && !(first && !Contains(line, "add_iso(") && !Contains(line, "add_isos(") && Contains(line, "add_isos_and_reactions("))
  }

  /** No line after a closing line contributes. */
  lemma ScanStops(dir: Directory, d: Network, line: string, rest: seq<string>, first: bool, fuel: nat)
    requires EndsScan(line, first)
    ensures Scan(dir, d, [line] + rest, first, fuel) == Scan(dir, d, [line], first, fuel)
  {
    assert ([line] + rest)[0] == line && ([line] + rest)[1..] == rest;
    assert [line][1..] == [];
  }

  /** An `add_isos(...)` line merges each `, `-separated piece of its argument list, in
      order, and ends the file. */
  lemma AddIsosMergesPieces(dir: Directory, d: Network, line: string, rest: seq<string>, first: bool, fuel: nat)
    requires line != "\n" && LStripSpaces(line) != [] && !IsComment(line) && !Contains(line, "include")
    requires !Contains(line, "add_iso(") && Contains(line, "add_isos(") && ')' in line
    ensures Scan(dir, d, [line] + rest, first, fuel) == MergeAll(d, SplitOn(Arguments(line, "add_isos("), ", "))
  {
    assert ([line] + rest)[0] == line;
  }

  /** A line that the scan reads as one record: no comment, directive or `)`. */
  predicate IsPlainRecord(line: string) {
    && line != "\n"
    && LStripSpaces(line) != []
    && !IsComment(line)
    && !Contains(line, "include")
    && ')' !in line
    && !Contains(line, "add_isos(")
    && !Contains(line, "add_isos_and_reactions(")
  }

  /** The record part of each line: the text before the first `!`. */
  function Records(lines: seq<string>): (r: seq<string>)
    ensures |r| == |lines|
    ensures forall i :: 0 <= i < |lines| ==> r[i] == SplitOn(lines[i], "!")[0]
  {
    seq(|lines|, i requires 0 <= i < |lines| => SplitOn(lines[i], "!")[0])
  }

  /** A file made of plain records is read by merging its records in file order. */
  lemma {:induction false} PlainFileMergesRecords(dir: Directory, d: Network, lines: seq<string>, first: bool, fuel: nat)
    requires forall i :: 0 <= i < |lines| ==> IsPlainRecord(lines[i])
    ensures Scan(dir, d, lines, first, fuel) == MergeAll(d, Records(lines))
    decreases |lines|
  {
    if lines != [] {
      var line := lines[0];
      assert IsPlainRecord(line);
      assert Records(lines)[0] == SplitOn(line, "!")[0];
      assert Records(lines)[1..] == Records(lines[1..]);
      var record := SplitOn(line, "!")[0];
      if !ClassifyFails(record) {
        PlainFileMergesRecords(dir, Merge(d, Classify(record)), lines[1..], first, fuel);
      }
    }
  }

  /** A line that is not blank, not a comment, not an include and not a complete
      `add_iso(...)` or `add_isos(...)` call. */
  predicate ReachesHeaderTest(line: string) {
    && line != "\n"
    && LStripSpaces(line) != []
    && !IsComment(line)
    && !Contains(line, "include")
    && !(Contains(line, "add_iso(") && ')' in line)
    && !(Contains(line, "add_isos(") && ')' in line)
  }

  /** The first `add_isos(` or `add_isos_and_reactions(` header of a file is skipped,
      and no later header is. */
  lemma FirstHeaderSkipped(dir: Directory, d: Network, line: string, rest: seq<string>, fuel: nat)
    requires ReachesHeaderTest(line)
    requires Contains(line, "add_isos(") || Contains(line, "add_isos_and_reactions(")
    ensures Scan(dir, d, [line] + rest, true, fuel) == Scan(dir, d, rest, false, fuel)
  {
    assert ([line] + rest)[0] == line && ([line] + rest)[1..] == rest;
  }

  /** Once a header has been skipped, a further header line without `)` is read as a
      record: it is classified and merged, or raises. */
  lemma LaterHeaderIsRecord(dir: Directory, d: Network, line: string, rest: seq<string>, fuel: nat)
    requires ReachesHeaderTest(line) && ')' !in line
    ensures var record := SplitOn(line, "!")[0];
      Scan(dir, d, [line] + rest, false, fuel)
        == if ClassifyFails(record) then Raised(UnreadableRecord(record))
           else Scan(dir, Merge(d, Classify(record)), rest, false, fuel)
  {
    assert ([line] + rest)[0] == line && ([line] + rest)[1..] == rest;
  }

  /** A record line such as `fe54`, with any blanks before it and its line end, adds that
      one mass number to its symbol. */
  lemma MassLine(dir: Directory, d: Network, before: string, symbol: string, digits: string, after: string, first: bool, fuel: nat)
    requires AllSpaces(before) && AllSpaces(after) && IsAlpha(symbol) && IsDecimal(digits)
    requires IsPlainRecord(before + symbol + digits + after)
    ensures Scan(dir, d, [before + symbol + digits + after], first, fuel) == Done(Merge(d, Record(symbol, [NatOf(digits)])))
  {
    var line := before + symbol + digits + after;
    assert '!' !in line by {
      assert !IsSpace('!') && !IsLetter('!') && !IsDigit('!');
      assert '!' !in before && '!' !in symbol && '!' !in digits && '!' !in after;
    }
    SplitOnAbsent(line, '!');
    assert "!" == ['!'];
    PlainFileMergesRecords(dir, d, [line], first, fuel);
    assert Records([line]) == [line];
    SymbolWithMass(before, symbol, digits, after);
    assert [line][1..] == [];
  }

  /** A record line such as `fe 52 54`, with any blanks around and between its words,
      adds the inclusive range of mass numbers to its symbol. */
  lemma RangeLine(dir: Directory, d: Network, before: string, symbol: string, sep1: string, start: string, sep2: string, end: string, after: string, first: bool, fuel: nat)
    requires AllSpaces(before) && AllSpaces(after)
    requires sep1 != [] && AllSpaces(sep1) && sep2 != [] && AllSpaces(sep2)
    requires IsAlpha(symbol) && IsDecimal(start) && IsDecimal(end)
    requires IsPlainRecord(before + symbol + sep1 + start + sep2 + end + after)
    ensures Scan(dir, d, [before + symbol + sep1 + start + sep2 + end + after], first, fuel)
      == Done(Merge(d, Record(symbol, Range(NatOf(start), NatOf(end)))))
  {
    var line := before + symbol + sep1 + start + sep2 + end + after;
    assert '!' !in line by {
      assert !IsSpace('!') && !IsLetter('!') && !IsDigit('!');
      assert '!' !in before && '!' !in symbol && '!' !in sep1 && '!' !in start;
      assert '!' !in sep2 && '!' !in end && '!' !in after;
    }
    SplitOnAbsent(line, '!');
    assert "!" == ['!'];
    PlainFileMergesRecords(dir, d, [line], first, fuel);
    assert Records([line]) == [line];
    SymbolWithRange(before, symbol, sep1, start, sep2, end, after);
    assert [line][1..] == [];
  }

  // ---------------------------------------------------------------- includes

  /** A present file that is not an alias and not a compound name is scanned line by line. */
  lemma ReadScansFile(dir: Directory, d: Network, a: string, fuel: nat)
    requires EndsWith(a, ".net") && Alias(a).None? && a in dir && !Contains(a, "approx21")
    ensures Read(dir, d, a, fuel + 1) == Scan(dir, d, dir[a], true, fuel)
  {
    assert WithExtension(a) == a;
  }

  /** Two words separated by one blank and followed by blanks split into those words. */
  lemma TwoWords(x: string, y: string, tail: string)
    requires x != [] && NoSpaces(x) && y != [] && NoSpaces(y) && AllSpaces(tail)
    ensures Words(x + (" " + (y + tail))) == [x, y]
  {
    WordsCons(x, " " + (y + tail));
    WordsSkipSpaces(" ", y + tail);
    WordsCons(y, tail);
    WordsSkipSpaces(tail, []);
    assert tail + [] == tail;
  }

  /** A quoted name without blanks has no blanks. */
  lemma QuotedNoSpaces(b: string)
    requires NoSpaces(b)
    ensures NoSpaces("'" + b + "'")
  {
    var quoted := "'" + b + "'";
    forall i | 0 <= i < |quoted| ensures !IsSpace(quoted[i]) {
      if 0 < i < |quoted| - 1 { assert quoted[i] == b[i - 1]; }
    }
  }

  /** The line `include 'b'` is an include directive naming `b`. */
  lemma IncludeDirective(b: string)
    requires b != [] && NoSpaces(b)
    ensures var line := "include '" + b + "'\n";
      && line != "\n" && LStripSpaces(line) != [] && !IsComment(line) && Contains(line, "include")
      && |Words(line)| >= 2 && Unquote(Words(line)[1]) == b
  {
    var line := "include '" + b + "'\n";
    var quoted := "'" + b + "'";
    assert line == "include" + (" " + (quoted + "\n"));
    QuotedNoSpaces(b);
    assert NoSpaces("include") && AllSpaces("\n");
    TwoWords("include", quoted, "\n");
    assert Unquote(quoted) == b;
    assert StartsWith(line, "include");
    assert LStripSpaces(line) == line && line[0] == 'i';
  }

  /** A file whose only line is `include 'b'` reads exactly as `b` does. */
  lemma IncludeOnlyFile(dir: Directory, d: Network, a: string, b: string, fuel: nat)
    requires EndsWith(a, ".net") && Alias(a).None? && a in dir && !Contains(a, "approx21")
    requires b != [] && NoSpaces(b)
    requires dir[a] == ["include '" + b + "'\n"]
    ensures Read(dir, d, a, fuel + 1) == Read(dir, d, b, fuel)
  {
    var line := "include '" + b + "'\n";
    ReadScansFile(dir, d, a, fuel);
    IncludeDirective(b);
    IncludeLine(dir, d, line, [], true, fuel);
    assert [line] + [] == dir[a];
  }

  /** An `include` line reads the named file into the mapping and goes on with the
      remaining lines. */
  lemma IncludeLine(dir: Directory, d: Network, line: string, rest: seq<string>, first: bool, fuel: nat)
    requires line != "\n" && LStripSpaces(line) != [] && !IsComment(line) && Contains(line, "include")
    requires |Words(line)| >= 2
    ensures var sub := Read(dir, d, Unquote(Words(line)[1]), fuel);
      Scan(dir, d, [line] + rest, first, fuel) == if sub.Raised? then sub else Scan(dir, sub.net, rest, first, fuel)
  {
    assert ([line] + rest)[0] == line && ([line] + rest)[1..] == rest;
  }

  // ---------------------------------------------------------------- compound names

  /** The extra isotopes of a compound name's later segments: `plus` and segments of at
      most three characters are dropped, a trailing `.net` is removed. */
  function Extras(terms: seq<string>): seq<string>
  {
    if terms == [] then []
    else
      (if terms[0] == "plus" || |terms[0]| <= 3 then [] else [WithoutExtension(terms[0])])
      + Extras(terms[1..])
  }

  /** The segment loop merges the extra isotopes in order. */
  lemma {:induction false} SegmentsMergeExtras(d: Network, terms: seq<string>, i: nat)
    requires i <= |terms|
    ensures Segments(d, terms, i) == MergeAll(d, Extras(terms[i..]))
    decreases |terms| - i
  {
    if i < |terms| {
      var term := terms[i];
      assert terms[i..][0] == term && terms[i..][1..] == terms[i + 1..];
      if term == "plus" || |term| <= 3 {
        assert Extras(terms[i..]) == [] + Extras(terms[i + 1..]);
        assert [] + Extras(terms[i + 1..]) == Extras(terms[i + 1..]);
        SegmentsMergeExtras(d, terms, i + 1);
      } else {
        var record := WithoutExtension(term);
        assert Extras(terms[i..]) == [record] + Extras(terms[i + 1..]);
        assert ([record] + Extras(terms[i + 1..]))[1..] == Extras(terms[i + 1..]);
        if !ClassifyFails(record) {
          SegmentsMergeExtras(Merge(d, Classify(record)), terms, i + 1);
        }
      }
    }
  }

  /** A compound name `approx21_plus_...` reads as the approx21 table followed by the
      records of its later segments, `plus` and short segments left out. */
  lemma CompoundNameReadsApprox21Plus(dir: Directory, d: Network, terms: seq<string>, fuel: nat)
    requires |terms| >= 1 && terms[0] == "approx21"
    requires fuel > 0
    ensures ReadCompound(dir, d, terms, fuel) == MergeAll(AssignAll(d, Approx21), Extras(terms[1..]))
  {
    assert terms[0] + ".net" == "approx21.net";
    Approx21IgnoresDirectory(dir, d, fuel);
    SegmentsMergeExtras(AssignAll(d, Approx21), terms, 1);
  }

  /** A compound name that does not start with the segment `approx21` reads every one
      of its segments as a record (`plus` and short segments left out). */
  lemma CompoundNameWithoutApprox21(dir: Directory, d: Network, terms: seq<string>, fuel: nat)
    requires terms == [] || terms[0] != "approx21"
    ensures ReadCompound(dir, d, terms, fuel) == MergeAll(d, Extras(terms))
  {
    SegmentsMergeExtras(d, terms, 0);
    assert terms[0..] == terms;
  }
}
