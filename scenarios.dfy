/**
 * The pipeline on a sample rev2 output: one entity block
 * bound to two names, and a second block that hides the first.
 */
module Scenarios {
  import opened Common
  import opened Text
  import opened Entities
  import opened EnvStore
  import opened Pipeline

  const ComponentLine: string := "└─ Component: addr1 extra"
  const PackageLine: string := "└─ Package: addr2 extra"

  /** A pattern whose first character occurs nowhere after it is found only where it starts. */
  lemma RFindOnlyAtStart(s: string, pat: string, tail: string)
    requires s == pat + tail && |pat| > 0
    requires pat[0] !in pat[1..] && pat[0] !in tail
    ensures RFind(s, pat) == Some(0)
  {
    assert s[..|pat|] == pat;
    assert OccursAt(s, pat, 0);
    forall j: nat | 0 < j && OccursAt(s, pat, j) ensures false {
    }
  }

  lemma RFindMarkerFirst(s: string, tail: string)
    requires s == Marker + tail && 'N' !in tail
    ensures RFind(s, Marker) == Some(0)
  {
    assert Marker[1..] == "ew Entities";
    RFindOnlyAtStart(s, Marker, tail);
  }

  /** A word ends at the first blank after it. */
  lemma {:induction false} WordLenUpToBlank(w: string, more: string)
    requires NoWhitespace(w) && more != [] && IsWhitespace(more[0])
    ensures WordLen(w + more) == |w|
    decreases |w|
  {
    if w == [] {
      assert w + more == more;
    } else {
      assert (w + more)[1..] == w[1..] + more;
      WordLenUpToBlank(w[1..], more);
    }
  }

  /** An entity line names the word right after its prefix. */
  lemma ClassifyNamed(line: string, p: string, w: string, more: string)
    requires IsEntityPrefix(p) && line == p + w + more
    requires w != [] && NoWhitespace(w) && more != [] && IsWhitespace(more[0])
    ensures Classify(line) == Entity(w)
  {
    assert line[..|p|] == p;
    assert line[|p|..] == w + more;
    ClassifyEntityLine(line, p);
    WordLenUpToBlank(w, more);
    assert SpaceLen(w + more) == 0;
    assert (w + more)[0..|w|] == w;
  }

  lemma ClassifyMarkerLine()
    ensures Classify(Marker) == Other
  {
    assert !StartsWith(Marker, ComponentPrefix) by { assert Marker[0] != ComponentPrefix[0]; }
    assert !StartsWith(Marker, ResourceDefPrefix) by { assert Marker[0] != ResourceDefPrefix[0]; }
    assert !StartsWith(Marker, PackagePrefix) by { assert Marker[0] != PackagePrefix[0]; }
  }

  lemma ClassifyComponent()
    ensures Classify(ComponentLine) == Entity("addr1")
  {
    ClassifyNamed(ComponentLine, ComponentPrefix, "addr1", " extra");
  }

  lemma ClassifyPackage()
    ensures Classify(PackageLine) == Entity("addr2")
  {
    ClassifyNamed(PackageLine, PackagePrefix, "addr2", " extra");
  }

  /** The three lines of the example block, as one rev2 output. */
  const Block: string := Marker + "\n" + ComponentLine + "\n" + PackageLine

  lemma ThreeLines(a: string, b: string, c: string)
    requires '\n' !in a && '\n' !in b && '\n' !in c && c != []
    requires StripCarriageReturn(a) == a && StripCarriageReturn(b) == b
    ensures Lines(a + "\n" + b + "\n" + c) == [a, b, c]
  {
    var rest := b + "\n" + c;
    assert a + "\n" + b + "\n" + c == a + "\n" + rest;
    LinesBreak(a, rest);
    LinesBreak(b, c);
    LinesLast(c);
  }

  lemma BlockLines()
    ensures Lines(Block) == [Marker, ComponentLine, PackageLine]
  {
    ThreeLines(Marker, ComponentLine, PackageLine);
  }

  lemma CollectThree(a: string, b: string, c: string, x: string, y: string)
    requires Classify(a) == Other && Classify(b) == Entity(x) && Classify(c) == Entity(y)
    ensures Collect([a, b, c]) == Ok([x, y])
  {
    var lines := [a, b, c];
    assert lines[1..] == [b, c];
    assert lines[1..][1..] == [c];
    assert lines[1..][1..][1..] == [];
    assert [y] + [] == [y];
    assert Collect([c]) == Ok([y]);
    assert [x] + [y] == [x, y];
    assert Collect([b, c]) == Ok([x, y]);
  }

  lemma BlockCollect()
    ensures Collect([Marker, ComponentLine, PackageLine]) == Ok(["addr1", "addr2"])
  {
    ClassifyMarkerLine();
    ClassifyComponent();
    ClassifyPackage();
    CollectThree(Marker, ComponentLine, PackageLine, "addr1", "addr2");
  }

  /** A character other than the line feed that is in neither of two lines is not in them joined by line feeds. */
  lemma NotInJoined(c: char, a: string, b: string, joined: string)
    requires c != '\n' && c !in a && c !in b && joined == "\n" + a + "\n" + b
    ensures c !in joined
  {
  }

  lemma LinesHaveNoMarkerStart()
    ensures 'N' !in ComponentLine && 'N' !in PackageLine
  {
  }

  lemma BlockMarker()
    ensures RFind(Block, Marker) == Some(0)
  {
    var tail := "\n" + ComponentLine + "\n" + PackageLine;
    LinesHaveNoMarkerStart();
    NotInJoined('N', ComponentLine, PackageLine, tail);
    RFindMarkerFirst(Block, tail);
  }

  lemma WalkFromStart(stdout: string, lines: seq<string>, found: seq<string>)
    requires RFind(stdout, Marker) == Some(0) && Lines(stdout) == lines
    requires Collect(lines) == Ok(found) && found != []
    ensures Walk(stdout) == Ok(found)
  {
    assert stdout[0..] == stdout;
  }

  /** On the sample output, the two entity lines after the marker give their third tokens, in order. */
  lemma WalkExample()
    ensures Walk(Block) == Ok(["addr1", "addr2"])
  {
    BlockMarker();
    BlockLines();
    BlockCollect();
    WalkFromStart(Block, [Marker, ComponentLine, PackageLine], ["addr1", "addr2"]);
  }

  /** Output of an earlier transaction in the same rev2 output: only the last block counts. */
  lemma WalkLastBlockOnly(earlier: string)
    ensures Walk(earlier + Block) == Ok(["addr1", "addr2"])
  {
    BlockMarker();
    WalkIgnoresEarlierText(earlier + Block, earlier, Block);
    WalkExample();
  }

  lemma TwoBindings(a: string, b: string, x: string, y: string)
    ensures Bindings([a, b], [x, y]) == [BindingLine(a, x), BindingLine(b, y)]
  {
    assert [a, b][1..] == [b] && [x, y][1..] == [y];
    assert [b][1..] == [] && [y][1..] == [];
    assert Bindings([b], [y]) == [BindingLine(b, y)] + [];
  }

  lemma ExampleBindings()
    ensures Bindings(["a", "b"], ["addr1", "addr2"]) == ["a=addr1\n", "b=addr2\n"]
  {
    TwoBindings("a", "b", "addr1", "addr2");
    assert BindingLine("a", "addr1") == "a=addr1\n";
    assert BindingLine("b", "addr2") == "b=addr2\n";
  }

  lemma RunOneEntry(tool: Tool, cmd: Commando, entities: seq<string>)
    requires cmd.envs != [] && tool(Argv(cmd)).Exited?
    requires Walk(tool(Argv(cmd)).stdout) == Ok(entities)
    ensures RunFileSpec(tool, Some(Commandos([cmd]))) == (Pass, EnvState(true, Bindings(cmd.envs, entities)))
  {
    var st := EnvState(true, []);
    var lines := Bindings(cmd.envs, entities);
    CmdStepWithNames(st, tool, cmd);
    assert [] + lines == lines;
    var step := CmdStep(st, tool, cmd);
    assert step == (Pass, EnvState(true, lines));
    RunCmdsCons(st, tool, [cmd]);
    assert [cmd][0] == cmd && [cmd][1..] == [];
    assert RunCmds(step.1, tool, []) == (Pass, step.1);
  }

  /**
   * A sample run: one entry whose rev2 call prints the sample block and that
   * declares the names `a` and `b` leaves `.env` holding `a=addr1` and `b=addr2`.
   */
  lemma RunFileExample(tool: Tool, cmd: Commando)
    requires cmd.envs == ["a", "b"]
    requires tool(Argv(cmd)).Exited? && tool(Argv(cmd)).stdout == Block
    ensures RunFileSpec(tool, Some(Commandos([cmd]))) == (Pass, EnvState(true, ["a=addr1\n", "b=addr2\n"]))
  {
    var entities := ["addr1", "addr2"];
    assert Walk(tool(Argv(cmd)).stdout) == Ok(entities) by {
      WalkExample();
    }
    RunOneEntry(tool, cmd, entities);
    ExampleBindings();
  }
}
