/**
 * The command-safety classifier and the approval policy of the assistant.
 *
 * `IsSafeCommand` decides, first match wins, whether a tokenised shell command is a known
 * read-only command and, if so, gives it a human-readable label and a group.  `CanAutoApprove`
 * combines that classification with the operator's approval policy.  Everything here is pure.
 */
module Approvals {
  import opened Wrappers

  /** A shell command as a list of tokens; token 0 names the executable. */
  type Command = seq<string>

  /** An approval policy; the assistant knows "suggest", "auto-edit" and "full-auto". */
  type ApprovalPolicy = string

  const FullAuto: ApprovalPolicy := "full-auto"

  /** The `type` field of an assessment: "auto-approve" or "ask-user". */
  datatype Verdict = AutoApprove | AskUser

  datatype SafetyAssessment = SafetyAssessment(
    kind: Verdict,
    reason: Option<string>,
    group: Option<string>,
    runInSandbox: bool)

  /** Executables that are safe whatever their arguments, with their (label, group). */
  const SafeCommands: map<string, (string, string)> := map[
    "cd" := ("Change directory", "Navigating"),
    "ls" := ("List directory", "Searching"),
    "pwd" := ("Print working directory", "Navigating"),
    "true" := ("No-op", "Utility"),
    "echo" := ("Echo string", "Printing"),
    "cat" := ("View file contents", "Reading files"),
    "nl" := ("View file with line numbers", "Reading files"),
    "rg" := ("Ripgrep search", "Searching"),
    "grep" := ("Text search", "Searching"),
    "head" := ("Show file head", "Reading files"),
    "tail" := ("Show file tail", "Reading files"),
    "wc" := ("Word count", "Reading files"),
    "which" := ("Locate command", "Searching")
  ]

  /** `git` subcommands that only read the repository. */
  const GitReadOnly: set<string> := {"status", "branch", "log", "diff", "show"}

  /** `find` options that run commands, delete files or write files. */
  const FindUnsafeOptions: set<string> :=
    {"-exec", "-execdir", "-ok", "-okdir", "-delete", "-fls", "-fprint", "-fprint0", "-fprintf"}

  // ---------------------------------------------------------------------------------------
  // The `sed -n` argument recogniser
  // ---------------------------------------------------------------------------------------

  predicate IsDigit(c: char) { '0' <= c <= '9' }

  /** States of a left-to-right scan of `(\d+,)?\d+p`. */
  datatype ScanState =
    | Start   // nothing read yet
    | First   // inside the first number
    | Comma   // just read the comma
    | Second  // inside the number after the comma
    | Done    // read the final `p`
    | Dead    // no continuation can match

  function Step(q: ScanState, c: char): ScanState {
    match q
    case Start => if IsDigit(c) then First else Dead
    case First => if IsDigit(c) then First else if c == ',' then Comma else if c == 'p' then Done else Dead
    case Comma => if IsDigit(c) then Second else Dead
    case Second => if IsDigit(c) then Second else if c == 'p' then Done else Dead
    case Done => Dead
    case Dead => Dead
  }

  /** The state reached from `q` after reading all of `s`. */
  function Scan(q: ScanState, s: string): ScanState
    decreases |s|
  {
    if s == [] then q else Scan(Step(q, s[0]), s[1..])
  }

  /** `s` is a whole line-range print command such as "5p" or "3,10p". */
  predicate IsPrintRange(s: string) {
    Scan(Start, s) == Done
  }

  /**
   * `re.match(r"^(\d+,)?\d+p$", arg)`: `$` matches at the end of the string and also just
   * before a newline that ends it.
   */
  predicate ValidSedN(arg: string): (r: bool)
    ensures r <==> MatchesSedPattern(arg)
  {
    PrintRangeIsPattern(arg);
    IsPrintRange(arg) ||
    (|arg| > 0 && arg[|arg| - 1] == '\n' &&
     (PrintRangeIsPattern(arg[..|arg| - 1]); IsPrintRange(arg[..|arg| - 1])))
  }

  /** A non-empty run of decimal digits. */
  ghost predicate IsNumber(s: string) {
    |s| > 0 && forall i :: 0 <= i < |s| ==> IsDigit(s[i])
  }

  /** The language of the regular expression `(\d+,)?\d+p`, written out. */
  ghost predicate MatchesPrintRange(s: string) {
    (exists b :: IsNumber(b) && s == b + "p") ||
    (exists a, b :: IsNumber(a) && IsNumber(b) && s == a + "," + b + "p")
  }

  /** What Python's `re.match` with the anchored pattern accepts. */
  ghost predicate MatchesSedPattern(arg: string) {
    MatchesPrintRange(arg) ||
    (|arg| > 0 && arg[|arg| - 1] == '\n' && MatchesPrintRange(arg[..|arg| - 1]))
  }

  lemma {:induction false} ScanAppend(q: ScanState, s: string, t: string)
    ensures Scan(q, s + t) == Scan(Scan(q, s), t)
    decreases |s|
  {
    if s == [] {
      assert s + t == t;
    } else {
      assert (s + t)[0] == s[0] && (s + t)[1..] == s[1..] + t;
      ScanAppend(Step(q, s[0]), s[1..], t);
    }
  }

  lemma {:induction false} DeadStaysDead(s: string)
    ensures Scan(Dead, s) == Dead
    decreases |s|
  {
    if s != [] {
      DeadStaysDead(s[1..]);
    }
  }

  lemma DoneOnlyAtEnd(s: string)
    requires Scan(Done, s) == Done
    ensures s == []
  {
    if s != [] {
      DeadStaysDead(s[1..]);
    }
  }

  /** Digits keep the scan inside a number. */
  lemma {:induction false} DigitsStay(q: ScanState, d: string)
    requires q == First || q == Second
    requires forall i :: 0 <= i < |d| ==> IsDigit(d[i])
    ensures Scan(q, d) == q
    decreases |d|
  {
    if d != [] {
      DigitsStay(q, d[1..]);
    }
  }

  lemma NumberFrom(q: ScanState, b: string)
    requires q == Start || q == Comma
    requires IsNumber(b)
    ensures Scan(q, b) == (if q == Start then First else Second)
  {
    var q' := if q == Start then First else Second;
    assert Step(q, b[0]) == q';
    DigitsStay(q', b[1..]);
  }

  /** From inside the second number, only digits and then a final `p` are accepted. */
  lemma {:induction false} SecondAccepts(s: string) returns (d: string)
    requires Scan(Second, s) == Done
    ensures (forall i :: 0 <= i < |d| ==> IsDigit(d[i])) && s == d + "p"
    decreases |s|
  {
    assert s != [];
    var c := s[0];
    if IsDigit(c) {
      var d' := SecondAccepts(s[1..]);
      d := [c] + d';
      assert s == [c] + s[1..];
    } else if c == 'p' {
      DoneOnlyAtEnd(s[1..]);
      d := [];
      assert s == [c] + s[1..];
    } else {
      DeadStaysDead(s[1..]);
      assert false;
    }
  }

  /** From inside the first number: digits, then `p` or a comma, a number and `p`. */
  lemma {:induction false} FirstAccepts(s: string) returns (d: string, b: string)
    requires Scan(First, s) == Done
    ensures forall i :: 0 <= i < |d| ==> IsDigit(d[i])
    ensures s == d + "p" || (IsNumber(b) && s == d + "," + b + "p")
    decreases |s|
  {
    assert s != [];
    var c := s[0];
    assert s == [c] + s[1..];
    if IsDigit(c) {
      var d', b' := FirstAccepts(s[1..]);
      d, b := [c] + d', b';
      if s[1..] == d' + "p" {
        assert s == d + "p";
      } else {
        assert s == d + "," + b + "p";
      }
    } else if c == ',' {
      var t := s[1..];
      assert Scan(Comma, t) == Done;
      if IsDigit(t[0]) {
        var e := SecondAccepts(t[1..]);
        d, b := [], [t[0]] + e;
        assert t == [t[0]] + t[1..];
        assert s == d + "," + b + "p";
      } else {
        DeadStaysDead(t[1..]);
        assert false;
      }
    } else if c == 'p' {
      DoneOnlyAtEnd(s[1..]);
      d, b := [], [];
    } else {
      DeadStaysDead(s[1..]);
      assert false;
    }
  }

  /** The scanner recognises exactly the language of `(\d+,)?\d+p`. */
  lemma PrintRangeIsPattern(s: string)
    ensures IsPrintRange(s) <==> MatchesPrintRange(s)
  {
    if IsPrintRange(s) {
      assert s != [];
      var c := s[0];
      assert s == [c] + s[1..];
      if IsDigit(c) {
        var d, b := FirstAccepts(s[1..]);
        var n := [c] + d;
        assert IsNumber(n);
        if s[1..] == d + "p" {
          assert s == n + "p";
        } else {
          assert s == n + "," + b + "p";
        }
      } else {
        DeadStaysDead(s[1..]);
        assert false;
      }
    }
    if MatchesPrintRange(s) {
      if b :| IsNumber(b) && s == b + "p" {
        ScanAppend(Start, b, "p");
        NumberFrom(Start, b);
      } else {
        var a, b :| IsNumber(a) && IsNumber(b) && s == a + "," + b + "p";
        ScanAppend(Start, a + "," + b, "p");
        ScanAppend(Start, a + ",", b);
        ScanAppend(Start, a, ",");
        NumberFrom(Start, a);
        NumberFrom(Comma, b);
      }
    }
  }

  lemma SedArgumentExamples()
    ensures ValidSedN("5p") && ValidSedN("3,10p")
    ensures !ValidSedN("abc") && !ValidSedN("p") && !ValidSedN(",5p")
  {
  }

  // ---------------------------------------------------------------------------------------
  // The classifier
  // ---------------------------------------------------------------------------------------

  /** Python's `any(arg in unsafe for arg in cmd)`. */
  function HasUnsafeFindOption(args: seq<string>): (r: bool)
    ensures r <==> exists i :: 0 <= i < |args| && args[i] in FindUnsafeOptions
  {
    if args == [] then false
    else if args[0] in FindUnsafeOptions then true
    else
      var rest := HasUnsafeFindOption(args[1..]);
      assert forall i :: 1 <= i < |args| ==> args[i] == args[1..][i - 1];
      rest
  }

  /**
   * The (label, group) of a command known to be safe, or None.  Rules are tried in order:
   * the fixed table, read-only `git`, `cargo check`, `find` without an unsafe option,
   * `sed -n` with a line-range print argument.
   */
  function IsSafeCommand(cmd: Command): (r: Option<(string, string)>)
    requires |cmd| > 0
    ensures cmd[0] in SafeCommands ==> r == Some(SafeCommands[cmd[0]])
    ensures cmd[0] == "git" ==>
      (r.Some? <==> |cmd| > 1 && cmd[1] in GitReadOnly) &&
      (r.Some? ==> r.value == ("Git " + cmd[1], "Using git"))
    ensures cmd[0] == "cargo" ==>
      r == if |cmd| > 1 && cmd[1] == "check" then Some(("Cargo check", "Running command")) else None
    ensures cmd[0] == "find" ==>
      (r.Some? <==> forall i :: 0 <= i < |cmd| ==> cmd[i] !in FindUnsafeOptions) &&
      (r.Some? ==> r.value == ("Find files", "Searching"))
    ensures cmd[0] == "sed" ==>
      (r.Some? <==> |cmd| >= 3 && cmd[1] == "-n" && MatchesSedPattern(cmd[2])) &&
      (r.Some? ==> r.value == ("Sed print subset", "Reading files"))
    ensures cmd[0] !in SafeCommands && cmd[0] !in {"git", "cargo", "find", "sed"} ==> r == None
  {
    if cmd[0] in SafeCommands then Some(SafeCommands[cmd[0]])
    else if cmd[0] == "git" && |cmd| > 1 && cmd[1] in GitReadOnly then Some(("Git " + cmd[1], "Using git"))
    else if cmd[0] == "cargo" && |cmd| > 1 && cmd[1] == "check" then Some(("Cargo check", "Running command"))
    else if cmd[0] == "find" then
      if HasUnsafeFindOption(cmd) then None else Some(("Find files", "Searching"))
    else if cmd[0] == "sed" && |cmd| >= 3 && cmd[1] == "-n" && ValidSedN(cmd[2]) then
      Some(("Sed print subset", "Reading files"))
    else None
  }

  // ---------------------------------------------------------------------------------------
  // The approval policy
  // ---------------------------------------------------------------------------------------

  /** Decide whether `command` may run without asking the user under `policy`. */
  function CanAutoApprove(command: Command, policy: ApprovalPolicy): (r: SafetyAssessment)
    requires |command| > 0
    ensures r.kind == AutoApprove <==> IsSafeCommand(command).Some? || policy == FullAuto
    ensures r.runInSandbox <==> IsSafeCommand(command).None? && policy == FullAuto
    ensures r.kind == AskUser ==> r.reason.None? && r.group.None?
    ensures r.kind == AutoApprove ==> r.reason.Some? && r.group.Some?
  {
    match IsSafeCommand(command)
    case Some((reason, group)) => SafetyAssessment(AutoApprove, Some(reason), Some(group), false)
    case None =>
      if policy == FullAuto then
        SafetyAssessment(AutoApprove, Some("Full auto mode"), Some("Running commands"), true)
      else
        SafetyAssessment(AskUser, None, None, false)
  }

  lemma SafeCommandApprovedOutsideSandbox(command: Command, policy: ApprovalPolicy)
    requires |command| > 0 && IsSafeCommand(command).Some?
    ensures CanAutoApprove(command, policy) ==
      SafetyAssessment(AutoApprove, Some(IsSafeCommand(command).value.0),
                       Some(IsSafeCommand(command).value.1), false)
  {
  }

  lemma UnclassifiedCommandDecision(command: Command, policy: ApprovalPolicy)
    requires |command| > 0 && IsSafeCommand(command).None?
    ensures policy == FullAuto ==>
      CanAutoApprove(command, policy) ==
        SafetyAssessment(AutoApprove, Some("Full auto mode"), Some("Running commands"), true)
    ensures policy != FullAuto ==>
      CanAutoApprove(command, policy) == SafetyAssessment(AskUser, None, None, false)
  {
  }

  /** A `find` that deletes is never classified safe: it runs sandboxed under full-auto, else the user is asked. */
  lemma FindDeleteExample()
    ensures IsSafeCommand(["find", ".", "-delete"]) == None
    ensures CanAutoApprove(["find", ".", "-delete"], FullAuto).runInSandbox
    ensures CanAutoApprove(["find", ".", "-delete"], "suggest").kind == AskUser
  {
    assert ["find", ".", "-delete"][2] == "-delete";
  }

  /** `sed -n` is safe with a line-range print argument and not with any other. */
  lemma SedPrintExamples()
    ensures CanAutoApprove(["sed", "-n", "3,5p", "file.txt"], "suggest").kind == AutoApprove
    ensures CanAutoApprove(["sed", "-n", "abc", "file.txt"], "suggest").kind == AskUser
  {
    SedArgumentExamples();
  }

  /** A table command is approved with its label and group, outside the sandbox. */
  lemma ListingExample()
    ensures CanAutoApprove(["ls", "-la"], "suggest") ==
      SafetyAssessment(AutoApprove, Some("List directory"), Some("Searching"), false)
  {
  }
}
