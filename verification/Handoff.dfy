/** From the scheduling decision to the program: exec_program, finish, and the speculative
    exec of src/main.c against the path that probes the program first. */
module Handoff {
  import opened CacheRecord
  import opened Schedule
  import opened Wrappers

  /** The program at bin_path: does access(X_OK) accept it, and would exec run it? */
  datatype Program = Program(accessible: bool, runnable: bool)

  /** exec succeeds only on programs that access accepts. */
  predicate Plausible(prog: Program) {
    prog.runnable ==> prog.accessible
  }

  /** Act is everything from main.c:734 on; Executed carries the program's argument vector. */
  datatype Launched = Act | Executed(argv: seq<string>) | CannotExecute | Returned

  /** finish: what follows a cache hit. */
  function HandOff(p: Project, o: Options, prog: Program, argv: seq<string>, bin: string): Launched
    requires argv != []
  {
    if !p.hasBin || Inspect(o) || o.adopt then Returned
    else if prog.runnable then Executed(argv[0 := bin])
    else CannotExecute
  }

  /** The checked path: always probe the program first, then recheck under the lock at a
      `later` clock reading. */
  function CheckFirst(p: Project, o: Options, c: Cache, now: int, later: int,
                      prog: Program, argv: seq<string>, bin: string): Launched
    requires argv != []
  {
    if !IsDue(p, c, now, o.force, true, prog.accessible).due then HandOff(p, o, prog, argv, bin)
    else if Inspect(o) then Act
    else if !IsDue(p, c, later, o.force, true, prog.accessible).due then HandOff(p, o, prog, argv, bin)
    else Act
  }

  /** exec_program: FILE's slot of the argument vector is lent to the program and restored
      when exec fails. Returns what was executed, if anything. */
  method ExecProgram(argv: array<string>, file: string, bin: string, prog: Program) returns (ran: Option<seq<string>>)
    requires argv.Length > 0 && argv[0] == file
    modifies argv
    ensures ran == if prog.runnable then Some(old(argv[..])[0 := bin]) else None
    ensures ran.Some? ==> ran.value == [bin] + old(argv[1..])
    ensures !prog.runnable ==> argv[..] == old(argv[..])
  {
    argv[0] := bin;
    if prog.runnable {
      return Some(argv[..]);
    }
    argv[0] := file;
    assert argv[..] == old(argv[..]);
    ran := None;
  }

  method Finish(p: Project, o: Options, argv: array<string>, file: string, bin: string, prog: Program)
    returns (r: Launched)
    requires argv.Length > 0 && argv[0] == file
    modifies argv
    ensures r == HandOff(p, o, prog, old(argv[..]), bin)
    ensures r == if o.checkOnly || o.dryRun || o.adopt || !p.hasBin then Returned
                 else if prog.runnable then Executed([bin] + old(argv[1..]))
                 else CannotExecute
    ensures !r.Executed? ==> argv[..] == old(argv[..])
  {
    if !p.hasBin || Inspect(o) || o.adopt {
      return Returned;
    }
    var ran := ExecProgram(argv, file, bin, prog);
    r := if ran.Some? then Executed(ran.value) else CannotExecute;
  }

  /** main from the first decision to the locked recheck. On a quiet handoff exec itself
      probes the program; the outcome is that of the checked path for every schedule, record
      and program, and whoever acts or retries finds the argument vector untouched. The program is
      reached exactly when there is one, none of -c, -n and --adopt is given, and the project is not
      due at the first look or at the locked recheck; under -c, -n or --adopt a run that finds
      nothing due returns. */
  method Launch(p: Project, o: Options, c: Cache, now: int, later: int,
                prog: Program, argv: array<string>, file: string, bin: string)
    returns (r: Launched)
    requires argv.Length > 0 && argv[0] == file
    requires Plausible(prog) && (p.binCached ==> p.hasBin)
    modifies argv
    ensures r == CheckFirst(p, o, c, now, later, prog, old(argv[..]), bin)
    ensures !r.Executed? ==> argv[..] == old(argv[..])
    ensures var idle := !IsDue(p, c, now, o.force, true, prog.accessible).due;
      var idleLater := !o.checkOnly && !o.dryRun && !IsDue(p, c, later, o.force, true, prog.accessible).due;
      && (r == Act <==> !idle && !idleLater)
      && (r == Returned <==> (idle || idleLater) && (o.checkOnly || o.dryRun || o.adopt || !p.hasBin))
      && (r.Executed? || r == CannotExecute ==> prog.runnable == r.Executed?)
    ensures r.Executed? ==> r.argv == [bin] + old(argv[1..])
  {
    var execCheck := p.binCached && !o.verbose && !o.checkOnly && !o.dryRun && !o.adopt;
    if !IsDue(p, c, now, o.force, !execCheck, prog.accessible).due {
      if execCheck {
        var ran := ExecProgram(argv, file, bin, prog);
        if ran.Some? {
          return Executed(ran.value);
        }
        if prog.accessible {
          return CannotExecute;
        }
      } else {
        r := Finish(p, o, argv, file, bin, prog);
        return;
      }
    }
    if !o.checkOnly && !o.dryRun {
      if !IsDue(p, c, later, o.force, true, prog.accessible).due {
        r := Finish(p, o, argv, file, bin, prog);
        return;
      }
    }
    r := Act;
  }
}
