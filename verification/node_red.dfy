/**
 * `read_labels` in `modulos/node_red.py`: a label file of "<number> <name>"
 * lines read into a dictionary from number to name.
 */
module NodeRed {
  import opened Wrappers
  import opened Text

  /** What one line contributes. */
  datatype LineResult =
    | Skip                            // no space after stripping: ignored
    | BadKey                          // the text before the space is not an integer: `int` raises
    | Pair(key: int, value: string)   // the entry key ↦ value

  /**
   * One line: stripped, split at its first space; the part before it read
   * with `int`, the rest kept as the name.
   */
  function ParseLine(line: string): (r: LineResult)
    ensures r.Skip? <==> ' ' !in Strip(line)
  {
    match SplitOnce(Strip(line), ' ')
    case None => Skip
    case Some((k, v)) =>
      match PyInt(k)
      case None => BadKey
      case Some(key) => Pair(key, v)
  }

  /** The dictionary after one more line; `None` stays `None`. */
  function Add(labels: Option<map<int, string>>, line: LineResult): Option<map<int, string>> {
    match labels
    case None => None
    case Some(entries) =>
      match line
      case Skip => Some(entries)
      case BadKey => None
      case Pair(key, value) => Some(entries[key := value])
  }

  /** The dictionary after the given parsed lines; `None` once a key failed to parse. */
  function Fill(parsed: seq<LineResult>): Option<map<int, string>> {
    if parsed == [] then Some(map[]) else Add(Fill(parsed[..|parsed| - 1]), parsed[|parsed| - 1])
  }

  /** Every line of the file, parsed. */
  function ParseAll(lines: seq<string>): (parsed: seq<LineResult>)
    ensures |parsed| == |lines|
  {
    if lines == [] then [] else ParseAll(lines[..|lines| - 1]) + [ParseLine(lines[|lines| - 1])]
  }

  /** The dictionary the lines describe; `None` when a key fails to parse. */
  function Labels(lines: seq<string>): Option<map<int, string>> {
    Fill(ParseAll(lines))
  }

  /** `read_labels`' result: `{}` for a missing file or a bad key, else the dictionary. */
  function LabelFile(file: Option<seq<string>>): map<int, string> {
    match file
    case None => map[]
    case Some(lines) =>
      match Labels(lines)
      case None => map[]
      case Some(labels) => labels
  }

  /**
   * `read_labels`, with the file given as its lines (`None` when it does
   * not exist): the loop fills the dictionary line by line and gives up with
   * `{}` at the first bad key.
   */
  method ReadLabels(file: Option<seq<string>>) returns (labels: map<int, string>)
    ensures labels == LabelFile(file)
  {
    if file.None? {
      return map[];
    }
    var lines := file.value;
    labels := map[];
    for i := 0 to |lines|
      invariant Labels(lines[..i]) == Some(labels)
    {
      var entry := ParseLine(lines[i]);
      LabelsStep(lines, i);
      match entry
      case Skip =>
      case BadKey =>
        BadKeyStays(lines, i + 1);
        return map[];
      case Pair(key, value) =>
        labels := labels[key := value];
    }
    assert lines[..|lines|] == lines;
  }

  /** One bad key anywhere empties the whole result, whatever comes after it. */
  lemma {:induction false} BadKeyEmpties(parsed: seq<LineResult>, i: nat)
    requires i < |parsed| && parsed[i] == BadKey
    ensures Fill(parsed) == None
  {
    var init := parsed[..|parsed| - 1];
    if i < |init| {
      assert init[i] == parsed[i];
      BadKeyEmpties(init, i);
    }
  }

  /** Reading one more line is one `Add`. */
  lemma LabelsStep(lines: seq<string>, i: nat)
    requires i < |lines|
    ensures Labels(lines[..i + 1]) == Add(Labels(lines[..i]), ParseLine(lines[i]))
  {
    assert lines[..i + 1][..i] == lines[..i];
  }

  /** Once the lines read so far hold a bad key, no later line changes that. */
  lemma {:induction false} BadKeyStays(lines: seq<string>, n: nat)
    requires n <= |lines| && Labels(lines[..n]) == None
    ensures Labels(lines) == None
    decreases |lines| - n
  {
    if n < |lines| {
      LabelsStep(lines, n);
      BadKeyStays(lines, n + 1);
    } else {
      assert lines[..n] == lines;
    }
  }

  /** Line `i` carries the entry k ↦ v and no later line carries key `k`. */
  predicate LastAt(parsed: seq<LineResult>, i: int, k: int, v: string) {
    0 <= i < |parsed| && parsed[i] == Pair(k, v) &&
    forall j :: i < j < |parsed| ==> !(parsed[j].Pair? && parsed[j].key == k)
  }

  /** Some line carries k ↦ v and no later line carries key `k`. */
  predicate LastWith(parsed: seq<LineResult>, k: int, v: string) {
    exists i :: 0 <= i < |parsed| && LastAt(parsed, i, k, v)
  }

  /**
   * Without a bad key, the dictionary holds, for each of its keys, the name
   * on the last line carrying that key.
   */
  lemma {:induction false} LastLineWins(parsed: seq<LineResult>, labels: map<int, string>)
    requires Fill(parsed) == Some(labels)
    ensures forall k :: k in labels ==> LastWith(parsed, k, labels[k])
  {
    if parsed != [] {
      var init, last := parsed[..|parsed| - 1], |parsed| - 1;
      assert Fill(init).Some?;
      var before := Fill(init).value;
      LastLineWins(init, before);
      forall k | k in labels
        ensures LastWith(parsed, k, labels[k])
      {
        if parsed[last].Pair? && parsed[last].key == k {
          assert LastAt(parsed, last, k, labels[k]);
        } else {
          assert k in before && labels[k] == before[k];
          var i :| 0 <= i < |init| && LastAt(init, i, k, before[k]);
          assert LastAt(parsed, i, k, labels[k]);
        }
      }
    }
  }

  /** Without a bad key, every key some line carries is in the dictionary. */
  lemma {:induction false} EveryKeyKept(parsed: seq<LineResult>, labels: map<int, string>, i: nat)
    requires Fill(parsed) == Some(labels)
    requires i < |parsed| && parsed[i].Pair?
    ensures parsed[i].key in labels
  {
    var init, last := parsed[..|parsed| - 1], |parsed| - 1;
    assert Fill(init).Some?;
    var before := Fill(init).value;
    if i < last {
      assert init[i] == parsed[i];
      EveryKeyKept(init, before, i);
    }
  }

  /**
   * A line written as `f"{k} {v}"`, with a name that does not end in
   * whitespace, parses as the entry k ↦ v.
   */
  lemma WrittenLineParses(k: int, v: string)
    requires v != [] && !IsSpace(v[|v| - 1])
    ensures ParseLine(IntToString(k) + " " + v) == Pair(k, v)
  {
    var key := IntToString(k);
    var line := key + " " + v;
    assert forall t :: 0 <= t < |key| ==> key[t] != ' ';
    assert line[0] == key[0] && !IsSpace(line[0]);
    StripTrimmed(line);
    assert line == key + [' '] + v;
    SplitOnceJoin(key, ' ', v);
    StripTrimmed(key);
    IntRoundTrip(k);
  }

  /** Appending such a line to a file without bad keys adds, or replaces, the entry k ↦ v. */
  lemma WrittenLineReadsBack(lines: seq<string>, labels: map<int, string>, k: int, v: string)
    requires Labels(lines) == Some(labels)
    requires v != [] && !IsSpace(v[|v| - 1])
    ensures Labels(lines + [IntToString(k) + " " + v]) == Some(labels[k := v])
  {
    var line := IntToString(k) + " " + v;
    WrittenLineParses(k, v);
    assert (lines + [line])[..|lines|] == lines;
    assert ParseAll(lines + [line]) == ParseAll(lines) + [Pair(k, v)];
    assert (ParseAll(lines) + [Pair(k, v)])[..|lines|] == ParseAll(lines);
  }
}
