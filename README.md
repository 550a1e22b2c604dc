# A verified model of the command-safety classifier and the streaming agent loop

This project models the core of a small command-line coding assistant, written in Python (`codex_py`), in Dafny. The core has two parts.

- **The approval classifier** (`approvals.dfy`, module `Approvals`) models `codex_py/approvals.py`.
  - `IsSafeCommand` decides whether a tokenised shell command is known to be read-only. The rules are tried in order and the first match wins: the fixed table of safe executables, read-only `git` subcommands, `cargo check`, `find` without an option that executes, deletes or writes, and `sed -n` with a line-range print argument.
  - `CanAutoApprove` combines that verdict with the operator's approval policy. A classified command is approved outside the sandbox. Under `full-auto` any other command is approved inside the sandbox. Otherwise the user is asked.
  - The `sed -n` argument check is a regular-expression match, `^(\d+,)?\d+p$`. Here it is a left-to-right scanner (`ValidSedN`) proved to accept exactly the language of that expression. That language is written out as a ghost predicate (`MatchesSedPattern`), including Python's rule that `$` also matches just before a final newline.
- **The agent loop** (`agent_loop.dfy`, module `AgentLoops`) models `codex_py/agent_loop.py`.
  - `AgentLoop` is a class whose fields are set by its constructor.
  - Its method `Run` is the retry loop of `run`, imperative as in the source:
    - an outer `while` runs the attempts;
    - an inner `while` forwards the chunks of one stream.
  - Each attempt does the following:
    - opens a streaming completion;
    - reports `on_loading(True)`;
    - forwards every chunk to `on_item`;
    - reports `on_loading(False)` and returns.
  - Any exception inside an attempt ends it. The loop then sleeps `0.5 * attempt` seconds and tries again, until `max_retries + 1` attempts have been made. After that the exception escapes.
  - Everything `run` does that can be seen from outside is recorded as a trace of events, in order: provider calls, callback calls and sleeps.
  - `Run` is proved to produce exactly the outcome and trace of the reference function `RunSpec`. The lemmas about `RunSpec` state what the loop promises:
    - the number of attempts;
    - which attempt's exception escapes;
    - the linear backoff;
    - the order of the callbacks within an attempt;
    - the first success ends the run.
  - The retry loop itself is the function `Retry`, written over an abstract attempt. Its bookkeeping lemmas hold for any attempt that makes one provider call, calls `on_loading(True)` at most once, never sleeps, and ends with `on_loading(False)` when it succeeds. `StepAccounts` proves that the real attempts of `run` are such attempts.

`wrappers.dfy` holds the `Option` datatype shared by both modules.

How the environment is modelled:

- **The OpenAI client.** It is foreign code, so it is a parameter, `Provider`. The library may be missing (`openai is None`). Its client constructor may raise. Otherwise `attempts(k)` says what attempt `k` does: `create` raises, or it returns a stream of given chunks. After its last chunk the stream either ends or raises.
- **The callbacks.** `on_item` and `on_loading` are modelled by whether a given call raises. The call is identified by the trace before it and by its argument. The defaults that the constructor installs for missing callbacks never raise.
- **`time.sleep`.** It becomes a `Sleep(k)` event meaning `k` half-seconds.

What the code of `run` does, stated plainly because a reader might expect more of an agent loop:

- `run` forwards every chunk to `on_item` unchanged. It does not look inside chunks for shell tool calls. It does not call the classifier, and `AgentLoop` has no approval callback.
- `run` retries after every `Exception` raised in its `try` block (`codex_py/agent_loop.py:46`), not only after transport failures. That includes exceptions raised by the `on_loading` and `on_item` callbacks. The model retries all of these, and a `Failure` names which step raised.
- When the attempts run out, `run` re-raises the original exception (`codex_py/agent_loop.py:48`). The model's `AttemptFailed(attempt, cause)` records which attempt it came from and what raised.

## Model

| member | source | states |
|---|---|---|
| Approvals.HasUnsafeFindOption | codex_py/approvals.py:45-47 | true exactly when some token of the command is one of the nine unsafe `find` options |
| Approvals.PrintRangeIsPattern | codex_py/approvals.py:54-56 | the scanner accepts a string exactly when it is a number followed by `p`, or a number, a comma, a number and `p` |
| Approvals.ValidSedN | codex_py/approvals.py:54-56 | accepts exactly the strings matched by the anchored expression `(\d+,)?\d+p`, with `$` also allowed before a final newline |
| Approvals.SedArgumentExamples | codex_py/approvals.py:54-56 | `5p` and `3,10p` are accepted; `abc`, `p` and `,5p` are rejected |
| Approvals.IsSafeCommand | codex_py/approvals.py:34-51 | an executable in the safe table is safe whatever its arguments, with the table's label and group; `git` is safe exactly when a second token exists and is status, branch, log, diff or show, as `Git <sub>` in `Using git`; `cargo` exactly when its second token is `check`; `find` exactly when no token is one of the unsafe options, as `Find files` in `Searching`; `sed` exactly when it has at least three tokens, the second is `-n` and the third matches the print-range expression; any other executable is never safe |
| Approvals.CanAutoApprove | codex_py/approvals.py:59-71 | approved exactly when the command is classified safe or the policy is full-auto; sandboxed exactly when approved by the full-auto fallback; asking the user carries no reason or group; an approval always carries both |
| Approvals.SafeCommandApprovedOutsideSandbox | codex_py/approvals.py:60-63 | a classified command is approved with its classification's label and group, outside the sandbox, under every policy |
| Approvals.UnclassifiedCommandDecision | codex_py/approvals.py:64-71 | an unclassified command is approved sandboxed with reason `Full auto mode` and group `Running commands` under full-auto, and otherwise the user is asked |
| Approvals.FindDeleteExample | codex_py/approvals.py:44-47 | `find . -delete` is not safe; it is sandboxed under full-auto and referred to the user under suggest |
| Approvals.SedPrintExamples | codex_py/approvals.py:49-50 | `sed -n 3,5p file.txt` is approved and `sed -n abc file.txt` is referred to the user |
| Approvals.ListingExample | codex_py/approvals.py:59-63 | `ls -la` is approved as `List directory` in `Searching`, outside the sandbox |
| AgentLoops.AgentLoop.constructor | codex_py/agent_loop.py:12-26 | the fields take the given values; a missing callback is replaced by one that never raises |
| AgentLoops.AgentLoop.Run | codex_py/agent_loop.py:28-49 | the outcome and the full event trace are those of the reference `RunSpec` |
| AgentLoops.AgentLoop.DeliverStopsAtFirstRaise | codex_py/agent_loop.py:42-43 | chunks are forwarded in order, each once; without a raise all are forwarded; with one, forwarding stops right after the first call that raised, and every earlier call did not raise |
| AgentLoops.AgentLoop.AttemptEvents | codex_py/agent_loop.py:35-45 | an attempt starts with the provider call; it fails at opening exactly when `create` raises; once open, `on_loading(True)` comes next and then only chunks and `on_loading(False)`; `on_loading(False)` is reached only after every chunk, and success needs a stream that ended normally |
| AgentLoops.AgentLoop.AttemptBookkeeping | codex_py/agent_loop.py:35-45 | one attempt makes one provider call, at most one `on_loading(True)` and no sleep, and a successful one ends with `on_loading(False)` |
| AgentLoops.AgentLoop.StepAccounts | codex_py/agent_loop.py:35-45 | every attempt of `run` meets the four conditions the generic retry lemmas assume |
| AgentLoops.AgentLoop.AttemptAppends | codex_py/agent_loop.py:35-45 | an attempt keeps the trace before it, starts with its provider call and never sleeps |
| AgentLoops.AgentLoop.StepAppends | codex_py/agent_loop.py:35-45 | every attempt of `run` keeps the trace before it, starts with its provider call and never sleeps |
| AgentLoops.AgentLoop.QuietAttempt | codex_py/agent_loop.py:35-46 | with callbacks that never raise, an attempt fails exactly when the provider fails, with the exact trace in each case |
| AgentLoops.RetryAttempts | codex_py/agent_loop.py:32-48 | the loop makes at most `max_retries + 1` attempts; an escaping exception comes from attempt `max_retries + 1`; a normal return after an attempt follows `on_loading(False)` |
| AgentLoops.RetryOpens | codex_py/agent_loop.py:32-40 | each attempt made appears in the trace as exactly one provider call |
| AgentLoops.RetryDelays | codex_py/agent_loop.py:46-49 | the sleep durations, in order, are 1, 2, ... half-seconds, one fewer than the attempts made |
| AgentLoops.RetryStarts | codex_py/agent_loop.py:33-41 | `on_loading(True)` is never called more often than the provider |
| AgentLoops.RetryCounts | codex_py/agent_loop.py:32-48 | from a fresh start: no attempt when `max_retries < 0`; otherwise between 1 and `max_retries + 1` provider calls; the escaping exception is from the last; loading starts never outnumber provider calls; a normal return ends with `on_loading(False)` |
| AgentLoops.RetryBackoff | codex_py/agent_loop.py:46-49 | from a fresh start the sleeps are exactly 1, 2, ..., n-1 half-seconds for n provider calls |
| AgentLoops.RetryLast | codex_py/agent_loop.py:32-48 | the loop's result is that of its last attempt: the trace is that attempt's, the loop returns exactly when it succeeded, and otherwise re-raises its exception as attempt `max_retries + 1` |
| AgentLoops.AllFailRaises | codex_py/agent_loop.py:32-48 | when every attempt fails, the loop makes `max_retries + 1` attempts and raises |
| AgentLoops.RetryKeeps | codex_py/agent_loop.py:32-49 | a property every attempt, and the sleep after it, carries forward holds of the trace the loop ends with |
| AgentLoops.AttemptPlaced | codex_py/agent_loop.py:35-49 | one attempt, and the sleep of k half-seconds after the k-th provider call, keep every sleep after the provider call it is numbered by |
| AgentLoops.RetrySleepPlacement | codex_py/agent_loop.py:46-49 | from a fresh start, each sleep lasts as many half-seconds as there were provider calls before it, and a provider call comes right after it |
| AgentLoops.RetryOfEqualSteps | codex_py/agent_loop.py:32-49 | the loop's behaviour depends only on what each attempt does |
| AgentLoops.AgentLoop.AttemptCount | codex_py/agent_loop.py:32-48 | with a working client, `run` makes no provider call when `max_retries < 0` and at most `max_retries + 1` otherwise; an exception escapes only from attempt `max_retries + 1`; loading starts never outnumber provider calls |
| AgentLoops.AgentLoop.LinearBackoff | codex_py/agent_loop.py:46-49 | the k-th sleep of `run` lasts k half-seconds, and there is one sleep fewer than provider calls |
| AgentLoops.AgentLoop.SleepsBetweenAttempts | codex_py/agent_loop.py:46-49 | the sleep after failed attempt k lasts k half-seconds and the provider call of attempt k + 1 comes right after it |
| AgentLoops.AgentLoop.ReturnEndsWithLoadingStop | codex_py/agent_loop.py:44-45 | with a working client and `max_retries >= 0`, a normal return of `run` comes right after `on_loading(False)` |
| AgentLoops.AgentLoop.NoRetriesMeansOneAttempt | codex_py/agent_loop.py:32-48 | with a working client and `max_retries == 0` there is exactly one provider call and no sleep; the trace is that of attempt 1; `run` returns exactly when attempt 1 succeeds, and otherwise re-raises attempt 1's exception |
| AgentLoops.AgentLoop.LastAttemptDecides | codex_py/agent_loop.py:32-48 | with a working client and `max_retries >= 0`, the last attempt, numbered by the count of provider calls, decides `run`: the trace is that attempt's, `run` returns exactly when it succeeded, and otherwise re-raises its exception as attempt `max_retries + 1` |
| AgentLoops.AgentLoop.AllAttemptsFailRaises | codex_py/agent_loop.py:32-48 | with a working client and `max_retries >= 0`, when every attempt fails on every trace it could start from, `run` makes `max_retries + 1` provider calls and raises the exception of attempt `max_retries + 1` |
| AgentLoops.AgentLoop.NoRetriesFailingProviderRaises | codex_py/agent_loop.py:32-48 | with `max_retries == 0` and a provider whose `create` always raises, `run` makes one provider call and re-raises that call's exception as attempt 1 |
| AgentLoops.AgentLoop.FirstSuccessEndsRun | codex_py/agent_loop.py:42-45 | the first attempt that succeeds had a normally ending stream and is the last: the loop returns with that attempt's full trace |
| AgentLoops.AgentLoop.UnavailableProviderFailsFirst | codex_py/agent_loop.py:29-31 | a missing provider library or a failing client constructor raises before any provider call, callback or sleep |
| AgentLoops.AgentLoop.RecoversOnThirdAttempt | codex_py/agent_loop.py:32-49 | two failed opens followed by a good stream give exactly: call, sleep 1, call, sleep 2, call, loading, the chunks, loading stop |
| AgentLoops.AgentLoop.SingleChunkRun | codex_py/tests/test_agent.py:18-24 | a client streaming one chunk, with callbacks that only record, makes `run` forward that chunk once and return |
| AgentLoops.AgentLoop.QuietLoopsAgree | codex_py/agent_loop.py:24-25 | two loops with the same model and retry limit, whose callbacks never raise, behave identically; so the default no-op callbacks are as good as any recording ones |

## Left out

- Approvals.IsSafeCommand: requires a non-empty command. Python raises `IndexError` on `cmd[0]` for an empty list; the model does not represent that exception.
- Approvals.CanAutoApprove: requires a non-empty command for the same reason, since `can_auto_approve` calls `is_safe_command` first and the `IndexError` escapes from there.
- Approvals.ValidSedN: `\d` is taken as the ASCII digits 0-9. Python's `\d` on `str` also matches other Unicode decimal digits, such as Arabic-Indic digits.
- Approvals.ValidSedN: the `arg or ""` guard against `None` is not modelled, because a command is a list of strings and its third token is never `None`.
- The `SafetyAssessment.type` strings `"auto-approve"` and `"ask-user"` are the two constructors of `Verdict`.
- AgentLoops.AgentLoop.Run: streams are finite lists of chunks, and a broken stream raises after its last listed chunk. An endless or stalled stream, which would block `run` forever, is not modelled.
- AgentLoops.AgentLoop.Run: the provider client, the HTTP request, and the contents of chunks and messages are abstract. `api_key` and `instructions` are stored by the constructor and used no further in `run`, except that `api_key` goes to the client constructor, whose failure is `ClientFails`.
- AgentLoops.AgentLoop.Run: sleeps are events, not real time. Floating-point durations are represented exactly as half-second counts.
- AgentLoops.AgentLoop.Run: only exceptions derived from `Exception` are caught by the source. `BaseException`s such as `KeyboardInterrupt` would escape at once; they are not modelled.
- AgentLoops.AgentLoop.Run: the `hasattr(openai, "OpenAI")` branch, which uses the module itself as the client, is folded into `Client`.
- `codex_py/cli.py`, `codex_py/config.py` and `codex_py/tui.py` (argument parsing, configuration loading, terminal interface) are not part of this model. They only call the core.
- Concurrency: a loop object serves one `run` at a time, as the source assumes.
