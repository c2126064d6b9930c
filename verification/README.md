# Push decision of the commit-checker hook

This project models the pre-receive hook of a commit-checking plugin for a
Git hosting server (`YaccHook.onReceive`). It covers how the hook decides
whether a push may proceed and what it writes to the hook's stderr when it
rejects one. The production class is not part of this model. Its behaviour
is the one its unit tests pin down, and those tests are the source cited below.

For every ref change of the push, in order, the hook does one of two things:

- It skips the ref change if it deletes its ref, if its target is the
  all-zero object id, or if it is a Git notes ref. The model takes the
  notes namespace to be the prefix `refs/notes/`, and it reports the first
  skip rule that matches in the order deletion, zero target, notes.
- Otherwise it asks the commit checker (`YaccService.checkRefChange`) for
  error messages, and tags each message with the ref name.

If no error was collected, the push is allowed and nothing is written.
Otherwise the push is rejected and the hook writes this text:

- the configured `errorMessageHeader`, or the built-in banner when the
  header is unset or empty;
- a blank line;
- one `<ref>: <message>` line per error, each followed by a blank line;
- if `errorMessageFooter` is set, the footer followed by a blank line.

Modules:

- `RefChanges` (`refchanges.dfy`): ref changes, and the skip classifier.
  `Classify` returns the first skip rule that matches. `ShouldCheck` says
  whether the checker is consulted.
- `ErrorText` (`errortext.dfy`): the two settings, the rendered text
  (`Render`), a string-builder version of it (`BuildErrorText`), and the
  text read back line by line (`RenderedLines`).
- `Hook` (`hook.dfy`): error collection (`CollectErrors`), the decision
  (`OnReceive`), and the hook written as the loop it is (`Receive`).
- `HookScenarios` (`scenarios.dfy`): each unit test stated as a lemma over
  the model.
- `Text` (`text.dfy`) and `Options` (`options.dfy`): string helpers,
  splitting text into lines, and the optional-value type for settings.

How the model maps the source:

- The commit checker is a function parameter `Checker = RefChange -> seq<string>`.
  The repository and the settings are the same for every call within one
  push, so they are absorbed into that function.
- "The checker is not consulted" is stated as: a checker's answers on
  skipped ref changes never change the result.
- The default banner (`YaccErrorBuilder.ERROR_BEARS`) is not part of this
  model. It is `DefaultBanner`, a string constant with no fixed value, so
  every property holds whatever the banner says.
- The mock ref change's hashes are not modelled, so each scenario holds
  for every non-deleting update of `refs/heads/master` whose target is not
  the zero id.
- Rendering is a pure function, so the same inputs always give the same
  text; no lemma is needed for that.

Two choices the model makes about the settings:

- Only an unset or empty setting counts as absent; a whitespace-only header
  is used as written.
- The footer is appended right after the last error's blank line; the tests
  fix only the suffix `"\nCustom Footer\n\n"`, and `Render` proves that
  suffix.

## Model

| member | source | states |
|---|---|---|
| RefChanges.Classify | src/test/java/ut/com/isroot/stash/plugin/YaccHookTest.java:55-74 | The reason returned is one that applies to the ref change. Every rule ranked before it does not apply. No reason is returned exactly when no skip rule (deletion, zero target, notes namespace) applies. |
| RefChanges.ShouldCheckIff | src/test/java/ut/com/isroot/stash/plugin/YaccHookTest.java:140-149 | A ref change is checked if and only if it is not a DELETE, its to-hash is not forty zeros, and its ref is not under `refs/notes/`. |
| ErrorText.Body | src/test/java/ut/com/isroot/stash/plugin/YaccHookTest.java:93-99 | The error section is empty exactly when there are no errors, and otherwise ends with a newline. |
| ErrorText.BodyEndsWithLast | src/test/java/ut/com/isroot/stash/plugin/YaccHookTest.java:93-99 | A non-empty error section ends with the last error's `<ref>: <message>` line and a blank line. |
| ErrorText.BodyAppend | src/test/java/ut/com/isroot/stash/plugin/YaccHookTest.java:93-99 | The error section of two error lists joined is the first list's section followed by the second's, so checker order is kept and nothing is reordered or deduplicated. |
| ErrorText.Render | src/test/java/ut/com/isroot/stash/plugin/YaccHookTest.java:102-138 | The text starts with the header and a blank line. With a footer it ends with `"\n" + footer + "\n\n"`. Without a footer it ends with the last error's line and a blank line, and with no errors it is just the header and a blank line. |
| ErrorText.ErrorLines | src/test/java/ut/com/isroot/stash/plugin/YaccHookTest.java:93-99 | Line 2i of the error section is error i's `<ref>: <message>` line, and line 2i+1 is blank; the section has two lines per error. |
| ErrorText.RenderedLines | src/test/java/ut/com/isroot/stash/plugin/YaccHookTest.java:93-99 | Split into lines, the text is the header's lines, a blank line, each error's line followed by a blank line, then the footer and a blank line. Holds when no error line or footer contains a newline. |
| ErrorText.RenderedLinesPlainHeader | src/test/java/ut/com/isroot/stash/plugin/YaccHookTest.java:123-125 | With a one-line header, the header is exactly the first line and the second line is blank. |
| ErrorText.BuildErrorText | src/test/java/ut/com/isroot/stash/plugin/YaccHookTest.java:93-99 | Appending header, blank line, each error line with a blank line, then the footer, builds exactly the text `Render` describes. |
| Hook.CollectErrors | src/test/java/ut/com/isroot/stash/plugin/YaccHookTest.java:76-100 | Every collected error was reported by the checker for a checked ref change of the push, and carries that change's ref name. |
| Hook.CollectErrorsComplete | src/test/java/ut/com/isroot/stash/plugin/YaccHookTest.java:76-84 | Every message the checker reports for a checked ref change is collected, tagged with its ref. |
| Hook.CollectedIff | src/test/java/ut/com/isroot/stash/plugin/YaccHookTest.java:76-100 | An error is collected if and only if the checker reports its message for a checked ref change with its ref name. |
| Hook.NoErrorsIff | src/test/java/ut/com/isroot/stash/plugin/YaccHookTest.java:76-84 | No error is collected if and only if the checker reports nothing for every checked ref change. |
| Hook.CollectErrorsAppend | src/test/java/ut/com/isroot/stash/plugin/YaccHookTest.java:93-99 | The errors of a push are the first part's errors followed by the rest's, so errors are grouped by ref change in push order. |
| Hook.CollectErrorsIgnoresSkipped | src/test/java/ut/com/isroot/stash/plugin/YaccHookTest.java:56-74 | Two checkers that agree on every checked ref change collect the same errors: answers for skipped ref changes are never used. |
| Hook.OnReceive | src/test/java/ut/com/isroot/stash/plugin/YaccHookTest.java:55-149 | The push is allowed if and only if the checker reports nothing for every checked ref change. Nothing is written exactly when the push is allowed. A rejection's text starts with the header and a blank line. |
| Hook.RejectedOutputLines | src/test/java/ut/com/isroot/stash/plugin/YaccHookTest.java:86-100 | A rejected push's stderr, read line by line, is the header, a blank line, each collected error's line followed by a blank line, then the footer lines. |
| Hook.OnReceiveIgnoresSkipped | src/test/java/ut/com/isroot/stash/plugin/YaccHookTest.java:56-74 | The decision and the stderr text do not depend on what the checker would say about skipped ref changes. |
| Hook.ErrorsOf | src/test/java/ut/com/isroot/stash/plugin/YaccHookTest.java:56-84 | The loop step skips deletions, zero targets and notes with no errors, and otherwise tags the checker's messages with the ref. |
| Hook.Receive | src/test/java/ut/com/isroot/stash/plugin/YaccHookTest.java:55-149 | The hook's loop over the ref changes gives the same decision and text as `OnReceive`, and allows the push if and only if no checked ref change has errors. |
| HookScenarios.DeleteRefChangesIgnored | src/test/java/ut/com/isroot/stash/plugin/YaccHookTest.java:56-63 | A DELETE is not checked, and the push is allowed with nothing written, for every checker. |
| HookScenarios.NullRefChangesIgnored | src/test/java/ut/com/isroot/stash/plugin/YaccHookTest.java:66-74 | An ADD whose to-hash is forty zeros is not checked, and the push is allowed with nothing written, for every checker. |
| HookScenarios.PushRejectedIfThereAreErrors | src/test/java/ut/com/isroot/stash/plugin/YaccHookTest.java:77-84 | One checker error on `refs/heads/master` rejects the push. |
| HookScenarios.ErrorsArePrintedToHookStdErr | src/test/java/ut/com/isroot/stash/plugin/YaccHookTest.java:87-100 | Without settings the text is exactly the banner, a blank line, then `refs/heads/master: error1` and `refs/heads/master: error2`, each followed by a blank line. |
| HookScenarios.DefaultHeaderDisplayedIfErrorMessageHeaderIsEmpty | src/test/java/ut/com/isroot/stash/plugin/YaccHookTest.java:103-112 | A header set to the empty string gives a text that starts with the banner. |
| HookScenarios.NonEmptyErrorMessageHeaderReplacesDefaultHeader | src/test/java/ut/com/isroot/stash/plugin/YaccHookTest.java:115-126 | The header `Custom Header` gives exactly `"Custom Header\n\nrefs/heads/master: error1\n\n"`. |
| HookScenarios.ErrorMessageFooterAddedToEndOfOutput | src/test/java/ut/com/isroot/stash/plugin/YaccHookTest.java:129-138 | The footer `Custom Footer` makes the text end with `"\nCustom Footer\n\n"`. |
| HookScenarios.GitNotesAreIgnored | src/test/java/ut/com/isroot/stash/plugin/YaccHookTest.java:141-149 | A push of `refs/notes/commits` is allowed even though the checker reports an error for it. |
| HookScenarios.ErrorsListedInPushOrder | src/test/java/ut/com/isroot/stash/plugin/YaccHookTest.java:93-99 | With two checked ref changes that have one error each, the text lists the first ref's error line and then the second's, each as `<ref>: <message>` followed by a blank line (the test itself pushes one ref change; the order across ref changes is the model's). |

## Left out

- The commit checker's rules (message patterns, author checks, branch
  names): `YaccService` is not part of this model. It is the uninterpreted
  `Checker` parameter.
- The host plugin API (`HookResponse`, `RepositoryHookContext`, `Settings`,
  `Repository`, `RefChange`): replaced by plain datatypes and a `Config`
  record holding the two settings the renderer reads.
- Writing to the `PrintWriter` behind `HookResponse.err()`: the written text
  is returned as `Decision.stderr`.
- Header and footer made only of whitespace: they are not treated as blank,
  because the tests show no trimming. Only an unset or empty setting counts
  as absent.
- The exact footer layout beyond the suffix `"\n" + footer + "\n\n"`, which
  is all the tests fix. The model puts no extra blank line before the footer.
- The text of the default banner (`YaccErrorBuilder.ERROR_BEARS`): not part
  of this model. It is a constant with no fixed value.
- Logging of skipped ref changes: it has no effect on the decision or on
  stderr.
- RefChanges.Classify: the notes namespace is taken as the prefix
  `refs/notes/` (with the trailing slash), and the skip rules are applied in
  the order deletion, zero target, notes. The tests pin only
  `refs/notes/commits` and never trigger two rules at once, so both are
  modelling choices.
- Hook.CollectErrorsAppend: listing errors ref change by ref change in push
  order is a modelling choice. The tests push a single ref change.
- HookScenarios.ErrorsListedInPushOrder: the same choice as
  `Hook.CollectErrorsAppend`, shown on two ref changes. No test pushes more
  than one ref change.
