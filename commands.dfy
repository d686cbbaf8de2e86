/**
 * The command runner of the installer (`execute`). Nothing is executed here: every command
 * line handed to the runner is appended to the log of a `Shell`, marked as printed only when
 * it was a dry run. What a real process does (its exit status and captured output) and what
 * the operator answers at the failure prompt are parameters, and so is what `blkid` prints.
 */
module Commands {
  import opened Wrappers
  import opened Text

  /** One command line given to the runner; a `dryRun` command is printed, not executed. */
  datatype Command = Command(line: string, dryRun: bool)

  /** The `blkid` query that reads one tag of a block device. */
  function BlkidCommand(element: string, path: string): string
  {
    "blkid -s " + element + " -o value " + path
  }

  /** What `blkid -s <element> -o value <path>` prints (stripped), given the commands run before it. */
  type Probe = (seq<Command>, string, string) -> string

  /** The runner's log: every command it was handed, in order. */
  class Shell {
    var log: seq<Command>
    const probe: Probe

    constructor (probe: Probe)
      ensures log == [] && this.probe == probe
    {
      log := [];
      this.probe := probe;
    }

    /** Hands one command line to the runner; the command is assumed to return normally. */
    method Run(line: string, dryRun: bool)
      modifies this
      ensures log == old(log) + [Command(line, dryRun)]
    {
      log := log + [Command(line, dryRun)];
    }

    /** `__get_blkid`: the query always runs for real, even during a dry run. */
    method Blkid(element: string, path: string) returns (value: string)
      modifies this
      ensures log == old(log) + [Command(BlkidCommand(element, path), false)]
      ensures value == probe(old(log), element, path)
    {
      value := probe(log, element, path);
      Run(BlkidCommand(element, path), false);
    }
  }

  // ---------------------------------------------------------------------------
  // Pipe modes

  /** The `PipeOpts` bits. */
  const Stdout: int := 4
  const Stderr: int := 2
  const Stdin: int := 1

  /** `execute`'s default `pipe_mode`. */
  const DefaultPipeMode: int := Stderr

  /** The fields of `PipeOpts` in declaration order, zipped with the streams stdout, stderr, stdin. */
  const PipeFields: seq<int> := [Stdout, Stderr, Stdin]

  /**
   * `bit & mode == bit` for a bit that is a power of two. Dafny's `/` and `%` round towards
   * negative infinity for a positive divisor, which gives the bits of Python's two's-complement
   * view of a negative `mode` too.
   */
  predicate HasBit(mode: int, bit: int)
    requires bit > 0
  {
    (mode / bit) % 2 == 1
  }

  /** Which of the three streams are pipes. */
  datatype Streams = Streams(stdout: bool, stderr: bool, stdin: bool)

  function Piped(mode: int): Streams
  {
    Streams(HasBit(mode, Stdout), HasBit(mode, Stderr), HasBit(mode, Stdin))
  }

  /** The mode that pipes exactly the given streams. */
  function PipeMask(s: Streams): int
  {
    (if s.stdout then Stdout else 0) + (if s.stderr then Stderr else 0) + (if s.stdin then Stdin else 0)
  }

  /** The loop that fills the `std` dictionary from the mask. */
  method DecodePipeMode(mode: int) returns (std: Streams)
    ensures std == Piped(mode)
  {
    var piped: seq<bool> := [];
    var i := 0;
    while i < |PipeFields|
      invariant 0 <= i <= |PipeFields| && |piped| == i
      invariant forall j :: 0 <= j < i ==> piped[j] == HasBit(mode, PipeFields[j])
    {
      var value := PipeFields[i];
      piped := piped + [HasBit(mode, value)];
      i := i + 1;
    }
    std := Streams(piped[0], piped[1], piped[2]);
  }

  /** Decoding a mask built from a stream choice gives that choice back. */
  lemma DecodeMask(s: Streams)
    ensures Piped(PipeMask(s)) == s
  {
  }

  /** Every mode between 0 and 7 is the mask of the streams it pipes. */
  lemma MaskDecode(mode: int)
    requires 0 <= mode < 8
    ensures PipeMask(Piped(mode)) == mode
  {
    assert mode == 0 || mode == 1 || mode == 2 || mode == 3 || mode == 4 || mode == 5 || mode == 6 || mode == 7;
  }

  /** The default mode pipes stderr only; mode 7 pipes all three streams. */
  lemma DefaultPipesStderrOnly()
    ensures Piped(DefaultPipeMode) == Streams(false, true, false)
    ensures Piped(7) == Streams(true, true, true)
  {
  }

  // ---------------------------------------------------------------------------
  // execute

  /** What the spawned process did: its exit status and what it wrote. */
  datatype ProcessRun = ProcessRun(status: int, stdout: string, stderr: string)

  datatype ExecResult =
    | NoResult                                           // dry run: the command was only printed
    | Process(streams: Streams)                          // not waited for: the live process
    | Output(stdout: Option<string>, stderr: Option<string>)  // what `communicate()` captured
    | CommandFailed(command: string)                     // `CommandFailedException(command)`

  /** The operator declined to continue: the lower-cased answer is "n" or empty. */
  predicate Declined(answer: string)
  {
    var a := Lower(answer);
    a == "n" || a == ""
  }

  /** The failure prompt is shown: errors are printed, stderr is a pipe, and the status is non-zero. */
  predicate Prompted(printErrors: bool, std: Streams, run: ProcessRun)
  {
    printErrors && std.stderr && run.status != 0
  }

  /** The result `execute` returns or raises. */
  function Outcome(command: string, pipeMode: int, dryRun: bool, waitForProc: bool,
                   printErrors: bool, run: ProcessRun, answer: string): ExecResult
  {
    if dryRun then NoResult
    else
      var std := Piped(pipeMode);
      if !waitForProc then Process(std)
      else if Prompted(printErrors, std, run) && Declined(answer) then CommandFailed(command)
      else Output(if std.stdout then Some(run.stdout) else None,
                  if std.stderr then Some(run.stderr) else None)
  }

  /**
   * Dry runs return nothing; otherwise a piped stream is captured; the command fails exactly
   * when the prompt appeared and the answer was "n", "N" or empty.
   */
  lemma OutcomeCases(command: string, pipeMode: int, dryRun: bool, waitForProc: bool,
                     printErrors: bool, run: ProcessRun, answer: string)
    ensures var r := Outcome(command, pipeMode, dryRun, waitForProc, printErrors, run, answer);
      && (r == NoResult <==> dryRun)
      && (r.Process? <==> !dryRun && !waitForProc)
      && (r.CommandFailed? <==>
            !dryRun && waitForProc && printErrors && HasBit(pipeMode, Stderr) && run.status != 0
            && (answer == "" || answer == "n" || answer == "N"))
      && (r.CommandFailed? ==> r.command == command)
      && (r.Output? ==>
            (r.stdout.Some? <==> HasBit(pipeMode, Stdout)) && (r.stderr.Some? <==> HasBit(pipeMode, Stderr)))
  {
    LowerIsLetter(answer, 'n');
    assert Lower(answer) == "" <==> answer == "";
  }

  /** `execute`: decode the mask, spawn (here: log) the command, wait, and decide on failure. */
  method Execute(shell: Shell, command: string, pipeMode: int, dryRun: bool, waitForProc: bool,
                 printErrors: bool, run: ProcessRun, answer: string) returns (r: ExecResult)
    modifies shell
    ensures shell.log == old(shell.log) + [Command(command, dryRun)]
    ensures r == Outcome(command, pipeMode, dryRun, waitForProc, printErrors, run, answer)
  {
    if dryRun {
      shell.Run(command, true);
      return NoResult;
    }
    var std := DecodePipeMode(pipeMode);
    shell.Run(command, false);
    if !waitForProc {
      return Process(std);
    }
    var captured := Output(if std.stdout then Some(run.stdout) else None,
                           if std.stderr then Some(run.stderr) else None);
    if printErrors && std.stderr && run.status != 0 {
      var i := Lower(answer);
      if i == "n" || i == "" {
        return CommandFailed(command);
      }
    }
    r := captured;
  }
}
