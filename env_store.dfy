/**
 * The `.env` store that the pipeline writes its bindings to: a file that is emptied once
 * per run and then only appended to, one `name=value` line per binding.
 */
module EnvStore {
  import opened Common

  /** The store as a value: whether the file exists, and the lines written to it so far. */
  datatype EnvState = EnvState(present: bool, lines: seq<string>)

  /** The line append_env writes for one binding. */
  function BindingLine(name: string, value: string): string {
    name + "=" + value + "\n"
  }

  /** One append_env call on the store as a value: it fails, changing nothing, when the file is missing. */
  function AppendLine(st: EnvState, line: string): (Outcome, EnvState) {
    if st.present then (Pass, EnvState(true, st.lines + [line]))
    else (Fail(StoreMissing), st)
  }

  /** Index of the first `c` in `s`. */
  function IndexOf(s: string, c: char): (r: Option<nat>)
    ensures r.Some? ==> r.value < |s| && s[r.value] == c && c !in s[..r.value]
    ensures r.None? ==> c !in s
  {
    if s == [] then None
    else if s[0] == c then Some(0)
    else
      match IndexOf(s[1..], c)
      case None => None
      case Some(k) =>
        assert s[..k + 1] == [s[0]] + s[1..][..k];
        Some(k + 1)
  }

  /**
   * How a reader of the store splits a line back into a binding: the name runs up to the
   * first `=`, the value from there to the line feed that ends the line.
   */
  function ParseBinding(line: string): Option<(string, string)> {
    if line == [] || line[|line| - 1] != '\n' then None
    else
      var body := line[..|line| - 1];
      match IndexOf(body, '=')
      case None => None
      case Some(k) => Some((body[..k], body[k + 1..]))
  }

  /** A binding line reads back as the binding it was written for, when the name holds no `=`. */
  lemma BindingRoundTrip(name: string, value: string)
    requires '=' !in name
    ensures ParseBinding(BindingLine(name, value)) == Some((name, value))
  {
    var line := BindingLine(name, value);
    var body := name + "=" + value;
    assert line[..|line| - 1] == body;
    assert body[..|name|] == name;
    var k := IndexOf(body, '=').value;
    assert body[|name|] == '=';
    assert k == |name|;
    assert body[k + 1..] == value;
  }

  /** The `.env` file of the working directory. */
  class EnvFile {
    var present: bool
    var lines: seq<string>

    /** A file that does not exist holds nothing. */
    ghost predicate Valid()
      reads this
    {
      present || lines == []
    }

    function State(): EnvState
      reads this
    {
      EnvState(present, lines)
    }

    constructor (present: bool, lines: seq<string>)
      requires present || lines == []
      ensures Valid() && State() == EnvState(present, lines)
    {
      this.present := present;
      this.lines := lines;
    }

    /** `File::create(".env")`: create the file if it is missing, empty it otherwise. */
    method Reset()
      modifies this
      ensures Valid() && State() == EnvState(true, [])
    {
      present := true;
      lines := [];
    }

    /**
     * append_env: open the file for appending without creating it, build `name=value\n`
     * and write it at the end.
     */
    method Append(name: string, value: string) returns (r: Outcome)
      requires Valid()
      modifies this
      ensures Valid()
      ensures (r, State()) == AppendLine(old(State()), BindingLine(name, value))
    {
      if !present {
        return Fail(StoreMissing);
      }
      var line := name;
      line := line + "=";
      line := line + value;
      line := line + "\n";
      lines := lines + [line];
      return Pass;
    }
  }
}
