/**
 * `read_file` of nuclear_aux.py: reads a MESA network definition into an ordered
 * mapping from element symbol to mass numbers.
 *
 * The search directory is a map from file name to the file's lines as Python iterates
 * them, so that `os.path.isfile` is map membership and `open` a lookup. `read_file` has
 * no guard against cyclic includes; `fuel` is the number of nested calls the
 * interpreter still allows, and running out of it is Python's RecursionError.
 *
 * `Read`, `ReadCompound`, `Scan` and `MergeAll` state what the reader computes;
 * `ReadFile` is the reader itself, with its loops, and is proved to agree with them.
 */
module NetworkReader {
  import opened Text
  import opened Dicts
  import opened LineClassifier

  /** Element symbol to the list of mass numbers read for it, in insertion order. */
  type Network = Dict<seq<int>>

  /** File name to the file's lines, each with its '\n' except possibly the last. */
  type Directory = map<string, seq<string>>

  datatype Option<T> = None | Some(value: T)

  /** The exceptions `read_file` lets escape. */
  datatype Error =
    | UnreadableRecord(text: string)   // IndexError inside process_line
    | MissingIncludeName(line: string) // IndexError: an `include` line with one word
    | BlankLine                        // IndexError: a last line of blanks without '\n'
    | RecursionLimit                   // RecursionError: includes nested too deep

  datatype Outcome = Done(net: Network) | Raised(error: Error)

  /** `if key not in data_dict: data_dict[key] = []` then `data_dict[key].extend(values)`:
      the key is present afterwards with its old list followed by the new values, and
      every other key keeps its list. */
  function Merge(d: Network, rec: Record): (r: Network)
    ensures rec.symbol in r.vals
    ensures r.vals[rec.symbol] == (if rec.symbol in d.vals then d.vals[rec.symbol] else []) + rec.masses
    ensures forall k :: k != rec.symbol ==> (k in r.vals <==> k in d.vals)
    ensures forall k :: k != rec.symbol && k in d.vals ==> r.vals[k] == d.vals[k]
    ensures d.keys <= r.keys
    ensures d.Valid() ==> r.Valid()
  {
    var prior := if rec.symbol in d.vals then d.vals[rec.symbol] else [];
    Assign(d, rec.symbol, prior + rec.masses)
  }

  /** The frozen approx19 network (nuclear_aux.py:48). */
  const Approx19: seq<(string, seq<int>)> :=
    [("neut", []), ("h", [1]), ("he", [3, 4]), ("c", [12]), ("n", [14]), ("o", [16]),
     ("ne", [20]), ("mg", [24]), ("si", [28]), ("s", [32]), ("ar", [36]), ("ca", [40]),
     ("ti", [44]), ("cr", [48]), ("fe", [52, 54]), ("ni", [56])]

  /** The frozen approx20 network (nuclear_aux.py:51): approx19 with fe56 added. */
  const Approx20: seq<(string, seq<int>)> :=
    [("neut", []), ("h", [1]), ("he", [3, 4]), ("c", [12]), ("n", [14]), ("o", [16]),
     ("ne", [20]), ("mg", [24]), ("si", [28]), ("s", [32]), ("ar", [36]), ("ca", [40]),
     ("ti", [44]), ("cr", [48]), ("fe", [52, 54, 56]), ("ni", [56])]

  /** The frozen approx21 network (nuclear_aux.py:54): approx20 with cr56 added. */
  const Approx21: seq<(string, seq<int>)> :=
    [("neut", []), ("h", [1]), ("he", [3, 4]), ("c", [12]), ("n", [14]), ("o", [16]),
     ("ne", [20]), ("mg", [24]), ("si", [28]), ("s", [32]), ("ar", [36]), ("ca", [40]),
     ("ti", [44]), ("cr", [48, 56]), ("fe", [52, 54, 56]), ("ni", [56])]

  /** The frozen table for a network name, if it is one of the three aliases. */
  function Alias(net: string): Option<seq<(string, seq<int>)>>
  {
    if net == "approx19.net" then Some(Approx19)
    else if net == "approx20.net" then Some(Approx20)
    else if net == "approx21.net" then Some(Approx21)
    else None
  }

  /** The name with the `.net` extension appended when it is missing. */
  function WithExtension(name: string): (net: string)
    ensures EndsWith(net, ".net")
    ensures net == name || net == name + ".net"
    ensures EndsWith(name, ".net") ==> net == name
  {
    if EndsWith(name, ".net") then name else name + ".net"
  }

  /** The file that is opened for `net`: `net` itself when present; otherwise, for a name
      starting with `mesa`, the name with `mesa` replaced by `mesa_` when that is present;
      otherwise none. */
  function Resolve(dir: Directory, net: string): (file: Option<string>)
    ensures file.Some? ==> file.value in dir
    ensures file.None? <==> net !in dir && (!StartsWith(net, "mesa") || "mesa_" + net[4..] !in dir)
    ensures net in dir ==> file == Some(net)
    ensures net !in dir && file.Some? ==> StartsWith(net, "mesa") && file.value == "mesa_" + net[4..]
  {
    if net in dir then Some(net)
    else if StartsWith(net, "mesa") && "mesa_" + net[4..] in dir then Some("mesa_" + net[4..])
    else None
  }

  /** `read_file(d, dir, name)` with `fuel` nested calls allowed. */
  function Read(dir: Directory, d: Network, name: string, fuel: nat): Outcome
    decreases fuel, 0, 0
  {
    if fuel == 0 then Raised(RecursionLimit)
    else
      var net := WithExtension(name);
      match Alias(net)
      case Some(table) => Done(AssignAll(d, table))
      case None =>
        match Resolve(dir, net)
        case None => Done(d)
        case Some(file) => Open(dir, d, file, fuel - 1)
  }

  /** Reading a present file: a name containing `approx21` is taken apart at `_`, every
      other file is scanned line by line. */
  function Open(dir: Directory, d: Network, file: string, fuel: nat): Outcome
    requires file in dir
    decreases fuel, 2, 0
  {
    if Contains(file, "approx21") then ReadCompound(dir, d, SplitOn(file, "_"), fuel)
    else Scan(dir, d, dir[file], true, fuel)
  }

  /** A segment of a compound name, with a trailing `.net` removed. */
  function WithoutExtension(term: string): (t: string)
    ensures |t| <= |term|
  {
    if EndsWith(term, ".net") then term[..|term| - 4] else term
  }

  /** The `approx21_plus_...` branch: a leading `approx21` segment reads the approx21
      network through `read_file`, and the segments after it are taken by `Segments`. */
  function ReadCompound(dir: Directory, d: Network, terms: seq<string>, fuel: nat): Outcome
    decreases fuel, 1, 0
  {
    if terms != [] && terms[0] == "approx21" then
      match Read(dir, d, terms[0] + ".net", fuel)
      case Raised(e) => Raised(e)
      case Done(d') => Segments(d', terms, 1)
    else Segments(d, terms, 0)
  }

  /** One segment of a compound name that is not a leading `approx21`: `plus` and
      segments of at most three characters leave the mapping as it is, and every other
      segment is classified and merged. */
  function Absorb(d: Network, term: string): Outcome {
    if term == "plus" || |term| <= 3 then Done(d)
    else
      var record := WithoutExtension(term);
      if ClassifyFails(record) then Raised(UnreadableRecord(record))
      else Done(Merge(d, Classify(record)))
  }

  /** The segments of a compound name from position `i` on, taken one after another. */
  function Segments(d: Network, terms: seq<string>, i: nat): Outcome
    requires i <= |terms|
    decreases |terms| - i
  {
    if i == |terms| then Done(d)
    else match Absorb(d, terms[i])
      case Raised(e) => Raised(e)
      case Done(d') => Segments(d', terms, i + 1)
  }

  /** Whether the first non-blank character of a line opens a `!` comment. */
  predicate IsComment(line: string) {
    var t := LStripSpaces(line);
    t != [] && t[0] == '!'
  }

  /** The argument list of an `add_iso(...)` or `add_isos(...)` line. */
  function Arguments(line: string, call: string): string
    requires '(' in call && Contains(line, call) && ')' in line
  {
    ContainsChar(line, call, '(');
    Between(line, '(', ')')
  }

  /** What one line of a file does to the scan: go on to the next line with a new
      mapping and header flag, or end the scan with an outcome. */
  datatype LineEffect = Continue(net: Network, first: bool) | Finish(outcome: Outcome)

  /** One line of a file, in the order `read_file` tests it: an empty line is skipped, a
      blank one raises, a comment is skipped, an include reads the named network, a
      complete `add_iso(...)` or `add_isos(...)` call ends the file, the first
      `add_isos(` or `add_isos_and_reactions(` header is skipped, any other line with a
      `)` ends the file, and every other line is a record up to its `!` comment. */
  function ScanLine(dir: Directory, d: Network, line: string, first: bool, fuel: nat): LineEffect
    decreases fuel, 1, 0
  {
    if line == "\n" then Continue(d, first)
    else if LStripSpaces(line) == [] then Finish(Raised(BlankLine))
    else if IsComment(line) then Continue(d, first)
    else if Contains(line, "include") then
      var ws := Words(line);
      if |ws| < 2 then Finish(Raised(MissingIncludeName(line)))
      else
        match Read(dir, d, Unquote(ws[1]), fuel)
        case Raised(e) => Finish(Raised(e))
        case Done(d') => Continue(d', first)
    else if Contains(line, "add_iso(") && ')' in line then
      var arg := Arguments(line, "add_iso(");
      Finish(if ClassifyFails(arg) then Raised(UnreadableRecord(arg)) else Done(Merge(d, Classify(arg))))
    else if Contains(line, "add_isos(") && ')' in line then
      Finish(MergeAll(d, SplitOn(Arguments(line, "add_isos("), ", ")))
    else if first && (Contains(line, "add_isos(") || Contains(line, "add_isos_and_reactions(")) then
      Continue(d, false)
    else if ')' in line then Finish(Done(d))
    else
      var record := SplitOn(line, "!")[0];
      if ClassifyFails(record) then Finish(Raised(UnreadableRecord(record)))
      else Continue(Merge(d, Classify(record)), first)
  }

  /** The scan of a file's lines; `first` says that no header line has been skipped yet. */
  function Scan(dir: Directory, d: Network, lines: seq<string>, first: bool, fuel: nat): Outcome
    decreases fuel, 1, |lines|
  {
    if lines == [] then Done(d)
    else match ScanLine(dir, d, lines[0], first, fuel)
      case Finish(outcome) => outcome
      case Continue(d', first') => Scan(dir, d', lines[1..], first', fuel)
  }

  /** Classifies and merges each piece in turn (the loop over an `add_isos(...)` list). */
  function MergeAll(d: Network, terms: seq<string>): Outcome
    decreases |terms|
  {
    if terms == [] then Done(d)
    else if ClassifyFails(terms[0]) then Raised(UnreadableRecord(terms[0]))
    else MergeAll(Merge(d, Classify(terms[0])), terms[1..])
  }

  /** `read_file(d, dir, name)`: name normalisation, the aliases and the existence check;
      the compound branch and the line scan follow in `ReadSegments` and `ScanLines`. */
  method ReadFile(dir: Directory, d: Network, name: string, fuel: nat) returns (r: Outcome)
    ensures r == Read(dir, d, name, fuel)
    decreases fuel, 0, 0
  {
    if fuel == 0 {
      return Raised(RecursionLimit);
    }
    var net := name;
    if !EndsWith(net, ".net") {
      net := net + ".net";
    }
    assert net == WithExtension(name);
    // the three frozen networks are answered without reading a file
    var table := Alias(net);
    if table.Some? {
      return Done(AssignAll(d, table.value));
    }
    ghost var requested := net;
    if net !in dir {
      if StartsWith(net, "mesa") {
        var corrected := "mesa_" + net[4..];
        if corrected in dir {
          net := corrected;
        } else {
          assert Resolve(dir, requested).None?;
          return Done(d);
        }
      } else {
        assert Resolve(dir, requested).None?;
        return Done(d);
      }
    }
    assert Resolve(dir, requested) == Some(net);
    r := OpenFile(dir, d, net, fuel - 1);
  }

  /** The two ways `read_file` reads a present file. */
  method OpenFile(dir: Directory, d: Network, net: string, fuel: nat) returns (r: Outcome)
    requires net in dir
    ensures r == Open(dir, d, net, fuel)
    decreases fuel, 2, 0
  {
    if Contains(net, "approx21") {
      r := ReadSegments(dir, d, SplitOn(net, "_"), fuel);
    } else {
      r := ScanLines(dir, d, dir[net], fuel);
    }
  }

  /** The `for i, term in enumerate(net_name.split('_'))` loop of `read_file`; its
      first iteration, which alone can read `approx21`, comes before the others. */
  method ReadSegments(dir: Directory, d: Network, terms: seq<string>, fuel: nat) returns (r: Outcome)
    ensures r == ReadCompound(dir, d, terms, fuel)
    decreases fuel, 1, 0
  {
    if terms != [] && terms[0] == "approx21" {
      var sub := ReadFile(dir, d, terms[0] + ".net", fuel);
      if sub.Raised? {
        return sub;
      }
      r := MergeSegments(sub.net, terms, 1);
    } else {
      r := MergeSegments(d, terms, 0);
    }
  }

  /** The body of that loop for a segment that is not a leading `approx21`. */
  method AbsorbTerm(data: Network, term: string) returns (r: Outcome)
    ensures r == Absorb(data, term)
  {
    if term == "plus" {
      return Done(data);
    } else if |term| > 3 {
      var record := term;
      if EndsWith(record, ".net") {
        record := record[..|record| - 4];
      }
      if ClassifyFails(record) {
        return Raised(UnreadableRecord(record));
      }
      return Done(Merge(data, Classify(record)));
    }
    return Done(data);
  }

  /** The iterations of that loop from `start` on. */
  method MergeSegments(d: Network, terms: seq<string>, start: nat) returns (r: Outcome)
    requires start <= |terms|
    ensures r == Segments(d, terms, start)
  {
    var data := d;
    var i := start;
    while i < |terms|
      invariant start <= i <= |terms|
      invariant Segments(d, terms, start) == Segments(data, terms, i)
    {
      var next := AbsorbTerm(data, terms[i]);
      if next.Raised? {
        return next;
      }
      data := next.net;
      i := i + 1;
    }
    return Done(data);
  }

  /** The `for line in file` loop of `read_file`. */
  method ScanLines(dir: Directory, d: Network, lines: seq<string>, fuel: nat) returns (r: Outcome)
    ensures r == Scan(dir, d, lines, true, fuel)
    decreases fuel, 1, 1
  {
    var data := d;
    var first := true;
    var i := 0;
    while i < |lines|
      invariant i <= |lines|
      invariant Scan(dir, d, lines, true, fuel) == Scan(dir, data, lines[i..], first, fuel)
    {
      assert lines[i..][0] == lines[i] && lines[i..][1..] == lines[i + 1..];
      var effect := ReadLine(dir, data, lines[i], first, fuel);
      if effect.Finish? {
        return effect.outcome;
      }
      data, first := effect.net, effect.first;
      i := i + 1;
    }
    return Done(data);
  }

  /** The body of that loop: `continue` goes on with the next line, while `break` and
      `return` finish the file. */
  method ReadLine(dir: Directory, data: Network, line: string, first: bool, fuel: nat) returns (r: LineEffect)
    ensures r == ScanLine(dir, data, line, first, fuel)
    decreases fuel, 1, 0
  {
    if line == "\n" {
      return Continue(data, first);
    }
    var stripped := LStripSpaces(line);
    if stripped == [] {
      return Finish(Raised(BlankLine));
    }
    if stripped[0] == '!' {
      return Continue(data, first);
    }
    if Contains(line, "include") {
      var ws := Words(line);
      if |ws| < 2 {
        return Finish(Raised(MissingIncludeName(line)));
      }
      var sub := ReadFile(dir, data, Unquote(ws[1]), fuel);
      if sub.Raised? {
        return Finish(sub);
      }
      return Continue(sub.net, first);
    }
    if Contains(line, "add_iso(") && ')' in line {
      ContainsChar(line, "add_iso(", '(');
      var arg := Between(line, '(', ')');
      if ClassifyFails(arg) {
        return Finish(Raised(UnreadableRecord(arg)));
      }
      return Finish(Done(Merge(data, Classify(arg))));
    }
    if Contains(line, "add_isos(") && ')' in line {
      ContainsChar(line, "add_isos(", '(');
      var terms := SplitOn(Between(line, '(', ')'), ", ");
      var merged := MergeTerms(data, terms);
      return Finish(merged);
    }
    if first && (Contains(line, "add_isos(") || Contains(line, "add_isos_and_reactions(")) {
      return Continue(data, false);
    }
    if ')' in line {
      return Finish(Done(data));
    }
    var record := SplitOn(line, "!")[0];
    if ClassifyFails(record) {
      return Finish(Raised(UnreadableRecord(record)));
    }
    return Continue(Merge(data, Classify(record)), first);
  }

  /** The `for term in ...split(', ')` loop of the `add_isos(` branch. */
  method MergeTerms(d: Network, terms: seq<string>) returns (r: Outcome)
    ensures r == MergeAll(d, terms)
  {
    var data := d;
    var j := 0;
    while j < |terms|
      invariant j <= |terms|
      invariant MergeAll(d, terms) == MergeAll(data, terms[j..])
    {
      assert terms[j..][0] == terms[j] && terms[j..][1..] == terms[j + 1..];
      if ClassifyFails(terms[j]) {
        return Raised(UnreadableRecord(terms[j]));
      }
      data := Merge(data, Classify(terms[j]));
      j := j + 1;
    }
    return Done(data);
  }
}
