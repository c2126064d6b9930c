/**
 The hook's unit-test scenarios, stated over the model. A test's default
 ref change is an update of `refs/heads/master` whose target exists; its
 hashes do not matter, so each scenario holds for every such ref change.
 */
module HookScenarios {
  import opened Options
  import opened Text
  import opened RefChanges
  import opened ErrorText
  import opened Hook

  /** Neither a header nor a footer is configured. */
  const NoSettings := Config(None, None)

  /** The test's default ref change: an update of the master branch to an existing commit. */
  predicate IsMasterUpdate(rc: RefChange) {
    rc.refId == "refs/heads/master" && rc.kind != Delete && rc.toHash != ZeroHash
  }

  lemma MasterIsChecked(rc: RefChange)
    requires IsMasterUpdate(rc)
    ensures ShouldCheck(rc)
  {
    assert rc.refId[..|NotesNamespace|] != NotesNamespace by {
      assert rc.refId[5] == 'h' && NotesNamespace[5] == 'n';
    }
  }

  /** A push of one checked ref change collects exactly the checker's messages for it. */
  lemma SingleRefErrors(rc: RefChange, check: Checker)
    requires ShouldCheck(rc)
    ensures CollectErrors([rc], check) == Attribute(rc, check(rc))
  {
    assert [rc][1..] == [];
  }

  lemma LineLiteral(refId: string, message: string, rest: string)
    requires rest == ": " + message + "\n\n"
    ensures ErrorLine(Violation(refId, message)) + "\n\n" == refId + rest
  {
  }

  /** A deletion is allowed, nothing is written, and no checker can change that. */
  lemma DeleteRefChangesIgnored(rc: RefChange, cfg: Config, check: Checker)
    requires rc.kind == Delete
    ensures !ShouldCheck(rc)
    ensures OnReceive([rc], cfg, check) == Decision(true, "")
  {
  }

  /** A ref change to the all-zero object id is allowed whatever the checker says. */
  lemma NullRefChangesIgnored(rc: RefChange, cfg: Config, check: Checker)
    requires rc.kind == Add && rc.toHash == "0000000000000000000000000000000000000000"
    ensures !ShouldCheck(rc)
    ensures OnReceive([rc], cfg, check) == Decision(true, "")
  {
  }

  /** One error from the checker is enough to reject the push. */
  lemma PushRejectedIfThereAreErrors(rc: RefChange, cfg: Config)
    requires IsMasterUpdate(rc)
    ensures !OnReceive([rc], cfg, _ => ["error with commit"]).allowed
  {
    MasterIsChecked(rc);
  }

  /** Without settings the banner, a blank line, then each error and a blank line. */
  lemma ErrorsArePrintedToHookStdErr(rc: RefChange)
    requires IsMasterUpdate(rc)
    ensures OnReceive([rc], NoSettings, _ => ["error1", "error2"]).stderr ==
      DefaultBanner + "\n" + "\n" +
      "refs/heads/master: error1\n" + "\n" +
      "refs/heads/master: error2\n" + "\n"
  {
    MasterIsChecked(rc);
    var check: Checker := _ => ["error1", "error2"];
    SingleRefErrors(rc, check);
    var first := Violation("refs/heads/master", "error1");
    var second := Violation("refs/heads/master", "error2");
    assert CollectErrors([rc], check) == [first, second];
    RenderTwoErrors(first, second);
    MasterErrorsText(DefaultBanner);
  }

  /** The test's expected text, regrouped line by line. */
  lemma MasterErrorsText(banner: string)
    ensures banner + "\n" + "\n" +
      "refs/heads/master: error1\n" + "\n" +
      "refs/heads/master: error2\n" + "\n" ==
      banner + "\n\n" + (ErrorLine(Violation("refs/heads/master", "error1")) + "\n\n") +
      (ErrorLine(Violation("refs/heads/master", "error2")) + "\n\n")
  {
  }

  /** A header set to the empty string falls back to the banner. */
  lemma DefaultHeaderDisplayedIfErrorMessageHeaderIsEmpty(rc: RefChange)
    requires IsMasterUpdate(rc)
    ensures StartsWith(OnReceive([rc], Config(Some(""), None), _ => ["error1"]).stderr, DefaultBanner)
  {
    MasterIsChecked(rc);
    var text := OnReceive([rc], Config(Some(""), None), _ => ["error1"]).stderr;
    assert text[..|DefaultBanner|] == (DefaultBanner + "\n\n")[..|DefaultBanner|];
  }

  /** A configured header replaces the banner verbatim. */
  lemma NonEmptyErrorMessageHeaderReplacesDefaultHeader(rc: RefChange)
    requires IsMasterUpdate(rc)
    ensures OnReceive([rc], Config(Some("Custom Header"), None), _ => ["error1"]).stderr ==
      "Custom Header\n" + "\n" + "refs/heads/master: error1\n\n"
  {
    MasterIsChecked(rc);
    var check: Checker := _ => ["error1"];
    SingleRefErrors(rc, check);
    var only := Violation("refs/heads/master", "error1");
    assert CollectErrors([rc], check) == [only];
    RenderOneError(Config(Some("Custom Header"), None), only);
    LineLiteral("refs/heads/master", "error1", ": error1\n\n");
  }

  lemma RenderOneError(cfg: Config, v: Violation)
    requires !IsSet(cfg.errorMessageFooter)
    ensures Render(cfg, [v]) == HeaderText(cfg) + "\n\n" + (ErrorLine(v) + "\n\n")
  {
    assert Body([v]) == ErrorLine(v) + "\n\n" + Body([]);
  }

  /** A configured footer closes the text, on its own line and followed by a blank line. */
  lemma ErrorMessageFooterAddedToEndOfOutput(rc: RefChange)
    requires IsMasterUpdate(rc)
    ensures EndsWith(OnReceive([rc], Config(None, Some("Custom Footer")), _ => ["error1"]).stderr,
      "\nCustom Footer\n\n")
  {
    MasterIsChecked(rc);
    var cfg := Config(None, Some("Custom Footer"));
    var check: Checker := _ => ["error1"];
    SingleRefErrors(rc, check);
    var errs := CollectErrors([rc], check);
    assert errs == [Violation("refs/heads/master", "error1")];
    assert "\n" + cfg.errorMessageFooter.value + "\n\n" == "\nCustom Footer\n\n";
  }

  /** A push of git notes is allowed even when the checker would object. */
  lemma GitNotesAreIgnored(rc: RefChange, cfg: Config)
    requires rc.refId == "refs/notes/commits"
    ensures OnReceive([rc], cfg, _ => ["error1"]).allowed
  {
    assert rc.refId[..|NotesNamespace|] == NotesNamespace;
  }

  /** A push of two checked ref changes collects the first one's errors, then the second one's. */
  lemma TwoRefErrors(a: RefChange, b: RefChange, check: Checker)
    requires ShouldCheck(a) && ShouldCheck(b)
    ensures CollectErrors([a, b], check) == Attribute(a, check(a)) + Attribute(b, check(b))
  {
    CollectErrorsAppend([a], [b], check);
    assert [a] + [b] == [a, b];
    SingleRefErrors(a, check);
    SingleRefErrors(b, check);
  }

  lemma RenderTwoErrors(x: Violation, y: Violation)
    ensures Render(NoSettings, [x, y]) ==
      DefaultBanner + "\n\n" + (ErrorLine(x) + "\n\n") + (ErrorLine(y) + "\n\n")
  {
    assert Body([x, y]) == ErrorLine(x) + "\n\n" + Body([y]);
  }

  /** Errors of two ref changes are listed ref by ref, in push order. */
  lemma ErrorsListedInPushOrder(a: RefChange, b: RefChange, check: Checker)
    requires ShouldCheck(a) && ShouldCheck(b)
    requires check(a) == ["first"] && check(b) == ["second"]
    ensures OnReceive([a, b], NoSettings, check).stderr ==
      DefaultBanner + "\n\n" + (a.refId + ": first\n\n") + (b.refId + ": second\n\n")
  {
    TwoRefErrors(a, b, check);
    var first := Violation(a.refId, "first");
    var second := Violation(b.refId, "second");
    assert CollectErrors([a, b], check) == [first, second];
    RenderTwoErrors(first, second);
    LineLiteral(a.refId, "first", ": first\n\n");
    LineLiteral(b.refId, "second", ": second\n\n");
  }

}
