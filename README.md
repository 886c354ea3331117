# revup command pipeline, modelled in Dafny

revup prepares the `rev2` ledger simulator. It reads a command file: a JSON list of
`Commando` entries, each holding a rev2 subcommand, its arguments and a list of variable
names. For each entry, in order, it runs `rev2 <command> <args…>`. When the entry declares
names, it pulls the addresses of the newly created entities out of rev2's output, pairs them
with the names in order, and writes one `name=address` line per pair to `.env`: as many lines
as the shorter of the two lists.

This project models that pipeline.

- `text.dfy`: the Rust string operations the parser relies on, as specification functions.
  These are `str::rfind`, `str::lines`, `str::starts_with` and `str::split_whitespace`, with
  Rust's Unicode White_Space set.
- `entities.dfy`: `walk_entities`.
  - `WalkEntities` is a method with the source's loop.
  - `Walk` is the function it is proved against.
  - The lemmas say what `Walk` returns.
- `env_store.dfy`: the `.env` file as a class `EnvFile`.
  - `present` records whether the file exists.
  - `lines` holds the lines written so far.
  - `Reset` is `File::create`; `Append` is `append_env`.
- `pipeline.dfy`: the `Commando`/`Commandos` records, and `run_cmd` and `run_file` as methods
  over an `EnvFile`.
  - Each method is proved equal to a function on the store as a value: `CmdStep` and
    `RunFileSpec`.
  - The lemmas state the pairing, append-only and stop-at-first-failure properties.
- `scenarios.dfy`: the pipeline on a sample rev2 output.

The `rev2` executable is a parameter of type `Tool`. It maps an argument vector to
`CouldNotLaunch` or to `Exited(stdout, stderr, success)`. The command file is passed to
`RunFile` as `Option<Commandos>`, where `None` stands for a file that cannot be opened or
parsed.

`walk_entities` returns the same "No entities found" error for a missing marker and for a
block without entity lines (src/main.rs:193, 211), so both are the one error `NoEntitiesFound`.

## Model

| member | source | states |
|---|---|---|
| Text.RFind | src/main.rs:191 | `rfind` returns the start of an occurrence of the pattern, with no occurrence after it; `None` means the pattern does not occur at all |
| Text.RFindAppend | src/main.rs:191 | text placed before a part that contains the marker cannot move the last occurrence: it is the part's last occurrence, shifted by the length of the text before it |
| Text.RFindSuffix | src/main.rs:191-196 | the text from the last marker on is the same whether or not more text comes before it |
| Text.LinesFrom | src/main.rs:197 | the lines produced by `lines()` hold no line feed |
| Text.LinesBreak | src/main.rs:197 | a line feed ends a line (minus a trailing carriage return), and the rest is split on its own |
| Text.LinesLast | src/main.rs:197 | a non-empty text without a line feed is exactly one line |
| Text.WordsFrom | src/main.rs:204 | every token of `split_whitespace` is non-empty and holds no whitespace |
| Text.WordsFromAppend | src/main.rs:204 | splitting text that ends in whitespace, then more text, gives the tokens of the two parts concatenated |
| Text.SplitWhitespaceFirst | src/main.rs:204-205 | `split_whitespace` gives no token exactly when the text is all blank; otherwise token 0 is the first run of non-blank characters |
| Text.SpaceLen | src/main.rs:204 | the length of the leading whitespace run: all blank before it, a non-blank at it |
| Text.WordLen | src/main.rs:204 | the length of the leading non-blank run: no blank before it, a blank at it |
| Entities.WalkEntities | src/main.rs:186-215 | the loop over the lines returns exactly `Walk(stdout)`, and every success holds at least one address |
| Entities.EntityPrefixWords | src/main.rs:200-204 | each of the three prefixes splits into exactly two tokens (the bullet and its kind label) and ends in a blank, so token 2 of a line is the first token after the prefix |
| Entities.ClassifyEntityLine | src/main.rs:199-205 | a line that starts with an entity prefix contributes the first word after the prefix, or causes the out-of-range panic when nothing but blanks follows the prefix |
| Entities.PrefixesExclusive | src/main.rs:200-202 | no line starts with two of the three prefixes, so a kept line matches exactly one |
| Entities.CollectAppend | src/main.rs:199-208 | scanning two runs of lines gives the first run's addresses followed by the second's, so addresses keep the order of their lines; the first panic wins |
| Entities.CollectPanics | src/main.rs:204-205 | the scan fails exactly when some scanned entity line has no token after its prefix, and then with the index panic |
| Entities.CollectFailsOnlyAtTruncated | src/main.rs:204-205 | a failed scan failed with the index panic, at a line that has no address |
| Entities.CollectFailsAtTruncated | src/main.rs:204-205 | an entity line without an address anywhere in the scanned lines makes the scan fail |
| Entities.CollectCount | src/main.rs:199-208 | a successful scan returns one address per entity line |
| Entities.CollectFrom | src/main.rs:199-208 | every returned address is the classification result of one of the scanned lines |
| Entities.WalkMissingMarker | src/main.rs:191-194 | without the marker anywhere in stdout, the result is the "No entities found" error |
| Entities.WalkOutcomes | src/main.rs:191-214 | success means one address per entity line after the last marker, at least one; the panic happens iff such a line is truncated; "No entities found" iff the marker is missing or no entity line follows it; there are no other errors |
| Entities.WalkIgnoresEarlierText | src/main.rs:191-197 | whatever comes before a block that holds the marker (earlier markers, earlier entity lines) does not change the result |
| EnvStore.BindingRoundTrip | src/main.rs:217-222 | the line written for a binding reads back as that name and value when the name holds no `=` |
| EnvStore.EnvFile.Reset | src/main.rs:88-90 | after `File::create` the store exists and is empty |
| EnvStore.EnvFile.Append | src/main.rs:217-223 | with the store present, `name=value\n` is added after the existing lines; with it missing, the append fails and nothing changes |
| Pipeline.RunCmd | src/main.rs:161-184 | the call runs rev2 with `[command] + args` in both branches and leaves the store exactly as `CmdStep` says: unchanged on a launch failure or a failed extraction, and extended by the zipped bindings otherwise |
| Pipeline.RunFile | src/main.rs:86-100 | the run empties `.env`, then loads the commands and runs them in order until one fails, and ends exactly as `RunFileSpec` says |
| Pipeline.BindingsPairs | src/main.rs:178-181 | the zip gives min(\|envs\|, \|entities\|) lines, and line i is `envs[i] + "=" + entities[i] + "\n"` |
| Pipeline.AppendAllAtEnd | src/main.rs:178-181 | appending the zipped lines to a present store puts them after the existing lines, in order; on a missing store the first append fails and nothing is written |
| Pipeline.CmdStepWithoutNames | src/main.rs:175 | an entry without names writes nothing, whatever stdout holds, and fails only when rev2 cannot be started |
| Pipeline.CmdStepWithNames | src/main.rs:175-181 | with names, an extraction error propagates before any line of that entry is written; otherwise exactly the zipped bindings are appended |
| Pipeline.CmdStepMissingStore | src/main.rs:218 | when `.env` is missing, an entry that found addresses fails with the store error and writes nothing |
| Pipeline.CmdStepReadsOnlyStdout | src/main.rs:167-176 | the exit status and stderr of rev2 are never inspected: two runs with the same stdout have the same effect |
| Pipeline.CmdStepAppendOnly | src/main.rs:175-181 | one entry never removes or rewrites a line of the store, and never creates or deletes it |
| Pipeline.RunCmdsAppendOnly | src/main.rs:95-97 | the same holds for any list of entries: the store only grows at its end |
| Pipeline.RunCmdsAppend | src/main.rs:95-97 | running two lists of entries one after the other is running the first and, if it passed, the second from where it left the store |
| Pipeline.RunCmdsStopsAtFirstFailure | src/main.rs:95-97 | the first failing entry ends the run with its error, the entries after it are not run, and what the earlier ones wrote is kept |
| Pipeline.CmdStepOnPresentStore | src/main.rs:175-181 | on a present store an entry never fails with the store error, and on success it appends exactly the lines it produces |
| Pipeline.RunCmdsOnPresentStore | src/main.rs:95-97 | on a present store a list of entries never fails with the store error, and on success it appends the lines of every entry, in execution order |
| Pipeline.RunFileNoCommands | src/main.rs:86-100 | an empty command list passes and leaves the store existing and empty |
| Pipeline.RunFileOnlyThisRun | src/main.rs:88-99 | after a run the store exists, the store error never occurs, and a successful run leaves exactly this run's bindings, in execution order |
| Scenarios.WalkExample | src/main.rs:186-215 | on a marker followed by a Component line and a Package line, walk_entities returns the two addresses in line order |
| Scenarios.WalkLastBlockOnly | src/main.rs:191-197 | any text before that block, including earlier blocks, changes nothing |
| Scenarios.RunFileExample | src/main.rs:86-100 | an entry naming `a` and `b` whose rev2 call prints that block leaves `.env` holding `a=addr1` and `b=addr2`, in that order |

## Left out

- `main`: argument parsing with clap, and the choice between `-f`, `-r`, `-i` and the default run (src/main.rs:21-68). This is glue around the modelled core.
- `run`: looking up `.revup` in the current directory, `std::process::exit` and printing of errors (src/main.rs:70-84). This is environment access and I/O.
- `run_reset`: its whole body is commented out (src/main.rs:102-142).
- `run_init` and `create_default_config_file`: writing a default command file with serde (src/main.rs:144-159, 225 on).
- Process spawning and `String::from_utf8_lossy`. `rev2` is the `Tool` parameter, and its output is taken to be text already.
- `serde_json::from_reader` and opening the command file. The parsed command file is the `Option<Commandos>` parameter of `RunFile`.
- The `println!` echoes of stdout, stderr and each binding. They have no effect on the result.
- Failures of `File::create` and of `write_all` are not modelled. Truncating `.env` always succeeds, and an append to an existing `.env` always succeeds.
- Entities.WalkEntities: the out-of-range index at src/main.rs:205 aborts the Rust process with a panic. Here it is the error value `EntityIndexPanic`, which `run_cmd` and `run_file` pass on like any other error.
- Text.RFind: `rfind` gives a byte offset into UTF-8 text. Here strings are sequences of Unicode scalar values and offsets count characters. Slicing at the returned position selects the same text in both.
- Concurrency: nothing else is assumed to touch `.env` during a run.
