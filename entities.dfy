/**
 * walk_entities: pull the addresses of newly created entities out of the text that
 * `rev2` prints. The parser is tied to rev2's output format: it looks for the last
 * "New Entities" heading and reads the tree-drawn lines that follow it.
 */
module Entities {
  import opened Common
  import opened Text

  const Marker: string := "New Entities"
  const ComponentPrefix: string := "└─ Component: "
  const ResourceDefPrefix: string := "└─ ResourceDef: "
  const PackagePrefix: string := "└─ Package: "

  predicate IsEntityPrefix(p: string) {
    p == ComponentPrefix || p == ResourceDefPrefix || p == PackagePrefix
  }

  /** A line that walk_entities takes an entity from. */
  predicate IsEntityLine(line: string) {
    StartsWith(line, ComponentPrefix) || StartsWith(line, ResourceDefPrefix) || StartsWith(line, PackagePrefix)
  }

  /** What one scanned line contributes: nothing, an address, or the out-of-range panic. */
  datatype LineKind = Other | Entity(address: string) | Truncated

  function Classify(line: string): LineKind {
    if !IsEntityLine(line) then Other
    else
      var words := SplitWhitespace(line);
      if |words| > 2 then Entity(words[2]) else Truncated
  }

  /** The addresses of `lines`, in order, or the panic of the first truncated entity line. */
  function Collect(lines: seq<string>): Result<seq<string>> {
    if lines == [] then Ok([])
    else
      match Classify(lines[0])
      case Truncated => Err(EntityIndexPanic)
      case Other => Collect(lines[1..])
      case Entity(address) => Prepend([address], Collect(lines[1..]))
  }

  function Prepend(done: seq<string>, rest: Result<seq<string>>): Result<seq<string>> {
    match rest
    case Ok(more) => Ok(done + more)
    case Err(e) => Err(e)
  }

  /** The lines walk_entities scans: from the last marker to the end of the text. */
  function ScannedLines(stdout: string): seq<string> {
    match RFind(stdout, Marker)
    case None => []
    case Some(loc) => Lines(stdout[loc..])
  }

  /** What walk_entities returns for `stdout`. */
  function Walk(stdout: string): Result<seq<string>> {
    if RFind(stdout, Marker).None? then Err(NoEntitiesFound)
    else Finish(Collect(ScannedLines(stdout)))
  }

  /** The end of walk_entities: a scan that found no address is an error too. */
  function Finish(scan: Result<seq<string>>): Result<seq<string>> {
    match scan
    case Err(e) => Err(e)
    case Ok(found) => if |found| < 1 then Err(NoEntitiesFound) else Ok(found)
  }

  /** Number of entity lines among `lines`. */
  function CountEntityLines(lines: seq<string>): nat {
    if lines == [] then 0
    else (if IsEntityLine(lines[0]) then 1 else 0) + CountEntityLines(lines[1..])
  }

  lemma PrependNothing(rest: Result<seq<string>>)
    ensures Prepend([], rest) == rest
  {
    if rest.Ok? {
      assert [] + rest.value == rest.value;
    }
  }

  lemma PrependTwice(a: seq<string>, b: seq<string>, rest: Result<seq<string>>)
    ensures Prepend(a, Prepend(b, rest)) == Prepend(a + b, rest)
  {
    if rest.Ok? {
      assert a + (b + rest.value) == (a + b) + rest.value;
    }
  }

  /** One more line of the scan. */
  lemma CollectStep(lines: seq<string>, i: nat)
    requires i < |lines|
    ensures Collect(lines[i..]) == match Classify(lines[i])
      case Truncated => Err(EntityIndexPanic)
      case Other => Collect(lines[i + 1..])
      case Entity(address) => Prepend([address], Collect(lines[i + 1..]))
  {
    assert lines[i..][0] == lines[i] && lines[i..][1..] == lines[i + 1..];
  }

  /** walk_entities, line by line. */
  method WalkEntities(stdout: string) returns (r: Result<seq<string>>)
    ensures r == Walk(stdout)
    ensures r.Ok? ==> |r.value| > 0
  {
    var ret: seq<string> := [];
    var location: nat;
    match RFind(stdout, Marker) {
      case Some(loc) => location := loc;
      case None => return Err(NoEntitiesFound);
    }
    var lines := Lines(stdout[location..]);
    assert Walk(stdout) == Finish(Collect(lines));
    var i := 0;
    assert lines[0..] == lines;
    PrependNothing(Collect(lines));
    while i < |lines|
      invariant i <= |lines|
      invariant Collect(lines) == Prepend(ret, Collect(lines[i..]))
    {
      var line := lines[i];
      CollectStep(lines, i);
      if StartsWith(line, ComponentPrefix) || StartsWith(line, ResourceDefPrefix) || StartsWith(line, PackagePrefix) {
        var entityVec := SplitWhitespace(line);
        if |entityVec| <= 2 {
          return Err(EntityIndexPanic);
        }
        PrependTwice(ret, [entityVec[2]], Collect(lines[i + 1..]));
        ret := ret + [entityVec[2]];
      }
      i := i + 1;
    }
    assert lines[i..] == [];
    assert ret + [] == ret;
    if |ret| < 1 {
      return Err(NoEntitiesFound);
    }
    return Ok(ret);
  }

  // ---------------------------------------------------------------------------
  // Which lines contribute, and what

  /** A word followed by one blank is split into that word. */
  lemma WordAndBlank(w: string)
    requires w != [] && NoWhitespace(w)
    ensures SplitWhitespace(w + " ") == [w]
  {
    WordThenSpace(w, ' ', []);
    assert [] + w == w;
  }

  /** Two words, each followed by one blank, split into those two words. */
  lemma TwoWordsAndBlanks(p: string, b: string, kind: string)
    requires p == b + " " + kind + " "
    requires b != [] && NoWhitespace(b) && kind != [] && NoWhitespace(kind)
    ensures SplitWhitespace(p) == [b, kind]
  {
    var first := b + " ";
    assert p == first + (kind + " ");
    WordsFromAppend(first, kind + " ", []);
    WordAndBlank(b);
    WordAndBlank(kind);
  }

  /** An entity prefix is a bullet, a kind label and a blank. */
  lemma PrefixWords(p: string, kind: string)
    requires p == "└─ " + kind + " "
    requires kind != [] && NoWhitespace(kind)
    ensures |p| > 3 && SplitWhitespace(p) == ["└─", p[3..|p| - 1]]
    ensures IsWhitespace(p[|p| - 1])
  {
    var b := "└─";
    assert p == b + " " + kind + " ";
    TwoWordsAndBlanks(p, b, kind);
    assert p[3..|p| - 1] == kind;
  }

  lemma EntityPrefixWords(p: string)
    requires IsEntityPrefix(p)
    ensures |p| > 3 && SplitWhitespace(p) == ["└─", p[3..|p| - 1]]
    ensures IsWhitespace(p[|p| - 1])
  {
    if p == ComponentPrefix {
      ComponentPrefixWords();
    } else if p == ResourceDefPrefix {
      ResourceDefPrefixWords();
    } else {
      PackagePrefixWords();
    }
  }

  lemma ComponentPrefixWords()
    ensures var p := ComponentPrefix; |p| > 3 && SplitWhitespace(p) == ["└─", p[3..|p| - 1]] && IsWhitespace(p[|p| - 1])
  {
    PrefixWords(ComponentPrefix, "Component:");
  }

  lemma ResourceDefPrefixWords()
    ensures var p := ResourceDefPrefix; |p| > 3 && SplitWhitespace(p) == ["└─", p[3..|p| - 1]] && IsWhitespace(p[|p| - 1])
  {
    PrefixWords(ResourceDefPrefix, "ResourceDef:");
  }

  lemma PackagePrefixWords()
    ensures var p := PackagePrefix; |p| > 3 && SplitWhitespace(p) == ["└─", p[3..|p| - 1]] && IsWhitespace(p[|p| - 1])
  {
    PrefixWords(PackagePrefix, "Package:");
  }

  /** The words of a line that starts with a prefix ending in a blank: the prefix's, then the rest's. */
  lemma LineWords(line: string, p: string)
    requires StartsWith(line, p) && |p| > 0 && IsWhitespace(p[|p| - 1])
    ensures SplitWhitespace(line) == SplitWhitespace(p) + SplitWhitespace(line[|p|..])
  {
    var rest := line[|p|..];
    assert line == p + rest;
    WordsFromAppend(p, rest, []);
  }

  /** After a two-word prefix, token 2 is the first word of the rest, if the rest has one. */
  lemma WordAfterPrefix(line: string, p: string)
    requires StartsWith(line, p) && |p| > 0 && IsWhitespace(p[|p| - 1])
    requires |SplitWhitespace(p)| == 2
    ensures |SplitWhitespace(line)| > 2 <==> FirstWord(line[|p|..]).Some?
    ensures |SplitWhitespace(line)| > 2 ==> SplitWhitespace(line)[2] == FirstWord(line[|p|..]).value
  {
    LineWords(line, p);
    SplitWhitespaceFirst(line[|p|..]);
  }

  /**
   * A line that starts with an entity prefix yields the first word after that prefix
   * (token 2 of the whole line), or the out-of-range panic when nothing follows it.
   */
  lemma ClassifyEntityLine(line: string, p: string)
    requires IsEntityPrefix(p) && StartsWith(line, p)
    ensures Classify(line) == match FirstWord(line[|p|..])
      case None => Truncated
      case Some(w) => Entity(w)
  {
    EntityPrefixWords(p);
    WordAfterPrefix(line, p);
    assert IsEntityLine(line);
  }

  /** The three prefixes differ at their fourth character, so a line matches at most one. */
  lemma PrefixesExclusive(line: string)
    ensures !(StartsWith(line, ComponentPrefix) && StartsWith(line, ResourceDefPrefix))
    ensures !(StartsWith(line, ComponentPrefix) && StartsWith(line, PackagePrefix))
    ensures !(StartsWith(line, ResourceDefPrefix) && StartsWith(line, PackagePrefix))
  {
    if StartsWith(line, ComponentPrefix) {
      assert line[3] == 'C';
    } else if StartsWith(line, ResourceDefPrefix) {
      assert line[3] == 'R';
    }
  }

  // ---------------------------------------------------------------------------
  // The scan over the lines

  /** Sequencing of two scans: the first panic wins, otherwise the addresses are concatenated. */
  function Then(first: Result<seq<string>>, second: Result<seq<string>>): Result<seq<string>> {
    match first
    case Err(e) => Err(e)
    case Ok(found) => Prepend(found, second)
  }

  /** Scanning `xs + ys` is scanning `xs`, then `ys`: addresses keep the order of their lines. */
  lemma {:induction false} CollectAppend(xs: seq<string>, ys: seq<string>)
    ensures Collect(xs + ys) == Then(Collect(xs), Collect(ys))
    decreases |xs|
  {
    if xs == [] {
      assert xs + ys == ys;
      PrependNothing(Collect(ys));
    } else {
      assert (xs + ys)[0] == xs[0] && (xs + ys)[1..] == xs[1..] + ys;
      CollectAppend(xs[1..], ys);
      match Classify(xs[0])
      case Truncated =>
      case Other =>
      case Entity(address) =>
        if Collect(xs[1..]).Ok? {
          PrependTwice([address], Collect(xs[1..]).value, Collect(ys));
        }
    }
  }

  /** The scan fails exactly when some entity line has no address, and then with the panic. */
  lemma CollectPanics(lines: seq<string>)
    ensures Collect(lines).Err? <==> exists i :: 0 <= i < |lines| && Classify(lines[i]) == Truncated
    ensures Collect(lines).Err? ==> Collect(lines).error == EntityIndexPanic
  {
    if Collect(lines).Err? {
      var i := CollectFailsOnlyAtTruncated(lines);
    }
    if exists i :: 0 <= i < |lines| && Classify(lines[i]) == Truncated {
      var i :| 0 <= i < |lines| && Classify(lines[i]) == Truncated;
      CollectFailsAtTruncated(lines, i);
    }
  }

  /** A failed scan failed with the panic, at an entity line without an address. */
  lemma {:induction false} CollectFailsOnlyAtTruncated(lines: seq<string>) returns (i: nat)
    requires Collect(lines).Err?
    ensures Collect(lines).error == EntityIndexPanic
    ensures i < |lines| && Classify(lines[i]) == Truncated
    decreases |lines|
  {
    if Classify(lines[0]) == Truncated {
      return 0;
    }
    var rest := lines[1..];
    CollectPassesOver(lines);
    var j := CollectFailsOnlyAtTruncated(rest);
    assert lines[j + 1] == rest[j];
    return j + 1;
  }

  /** A first line that does not panic passes the rest of the scan's failure through. */
  lemma CollectPassesOver(lines: seq<string>)
    requires lines != [] && Classify(lines[0]) != Truncated
    ensures Collect(lines).Err? <==> Collect(lines[1..]).Err?
    ensures Collect(lines).Err? ==> Collect(lines).error == Collect(lines[1..]).error
  {
  }

  /** An entity line without an address makes the whole scan fail. */
  lemma {:induction false} CollectFailsAtTruncated(lines: seq<string>, i: nat)
    requires i < |lines| && Classify(lines[i]) == Truncated
    ensures Collect(lines).Err?
    decreases i
  {
    if i > 0 && Classify(lines[0]) != Truncated {
      var rest := lines[1..];
      assert rest[i - 1] == lines[i];
      CollectFailsAtTruncated(rest, i - 1);
    }
  }

  /** A successful scan returns one address per entity line. */
  lemma {:induction false} CollectCount(lines: seq<string>)
    requires Collect(lines).Ok?
    ensures |Collect(lines).value| == CountEntityLines(lines)
    decreases |lines|
  {
    if lines != [] {
      CollectCount(lines[1..]);
    }
  }

  /** Every address a successful scan returns is the address of one of the lines. */
  lemma {:induction false} CollectFrom(lines: seq<string>)
    requires Collect(lines).Ok?
    ensures forall a :: a in Collect(lines).value ==>
      exists i :: 0 <= i < |lines| && Classify(lines[i]) == Entity(a)
    decreases |lines|
  {
    if lines != [] {
      CollectFrom(lines[1..]);
      forall a | a in Collect(lines).value
        ensures exists i :: 0 <= i < |lines| && Classify(lines[i]) == Entity(a)
      {
        if Classify(lines[0]) == Entity(a) {
          assert 0 < |lines|;
        } else {
          assert a in Collect(lines[1..]).value;
          var i :| 0 <= i < |lines[1..]| && Classify(lines[1..][i]) == Entity(a);
          assert lines[i + 1] == lines[1..][i];
        }
      }
    }
  }

  lemma {:induction false} CountEntityLinesPositive(lines: seq<string>, i: nat)
    requires i < |lines| && IsEntityLine(lines[i])
    ensures CountEntityLines(lines) > 0
    decreases |lines|
  {
    if i > 0 {
      assert lines[1..][i - 1] == lines[i];
      CountEntityLinesPositive(lines[1..], i - 1);
    }
  }

  // ---------------------------------------------------------------------------
  // walk_entities as a whole

  /** Without the marker there is nothing to scan, whatever else the text holds. */
  lemma WalkMissingMarker(stdout: string)
    requires forall j: nat :: !OccursAt(stdout, Marker, j)
    ensures Walk(stdout) == Err(NoEntitiesFound)
  {
  }

  /** The three outcomes of walk_entities, each in terms of the lines after the last marker. */
  lemma WalkOutcomes(stdout: string)
    ensures Walk(stdout).Ok? ==> 0 < |Walk(stdout).value| == CountEntityLines(ScannedLines(stdout))
    ensures Walk(stdout) == Err(EntityIndexPanic) <==>
      exists i :: 0 <= i < |ScannedLines(stdout)| && Classify(ScannedLines(stdout)[i]) == Truncated
    ensures Walk(stdout) == Err(NoEntitiesFound) <==>
      RFind(stdout, Marker).None? || CountEntityLines(ScannedLines(stdout)) == 0
    ensures Walk(stdout).Err? ==> Walk(stdout).error in {NoEntitiesFound, EntityIndexPanic}
  {
    var lines := ScannedLines(stdout);
    CollectPanics(lines);
    if Collect(lines).Ok? {
      CollectCount(lines);
    } else {
      var i :| 0 <= i < |lines| && Classify(lines[i]) == Truncated;
      CountEntityLinesPositive(lines, i);
    }
  }

  /**
   * Only the text from the last marker on is read: whatever comes before a block that
   * holds the marker (other markers, other entity lines) is not scanned.
   */
  lemma ScanIgnoresEarlierText(stdout: string, earlier: string, block: string)
    requires stdout == earlier + block
    requires RFind(block, Marker).Some?
    ensures RFind(stdout, Marker).Some?
    ensures ScannedLines(stdout) == ScannedLines(block)
  {
    RFindSuffix(stdout, earlier, block, Marker);
  }

  /** ... and so does not change what walk_entities returns. */
  lemma WalkIgnoresEarlierText(stdout: string, earlier: string, block: string)
    requires stdout == earlier + block
    requires RFind(block, Marker).Some?
    ensures Walk(stdout) == Walk(block)
  {
    ScanIgnoresEarlierText(stdout, earlier, block);
  }
}
