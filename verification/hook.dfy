/**
 The pre-receive decision of the commit-checker hook. For each ref change of
 a push, in order, the hook skips the ones the classifier rules out and asks
 the commit checker for the errors of the others, tagging each with its ref.
 The push is allowed exactly when no error was found; otherwise the rendered
 error text is written to the hook's stderr and the push is rejected.
 */
module Hook {
  import opened RefChanges
  import opened ErrorText
  import opened Text

  /**
   The commit checker: the error messages it finds for one ref change. The
   repository and the settings are the same for every ref change of a push,
   so they are part of the function rather than arguments to it.
   */
  type Checker = RefChange -> seq<string>

  /** What the hook reports: whether the push may proceed, and what it wrote to stderr. */
  datatype Decision = Decision(allowed: bool, stderr: string)

  /** Each message the checker reported for `rc`, attributed to `rc`'s ref. */
  function Attribute(rc: RefChange, messages: seq<string>): (r: seq<Violation>)
    ensures |r| == |messages|
    ensures forall j :: 0 <= j < |r| ==> r[j] == Violation(rc.refId, messages[j])
  {
    seq(|messages|, j requires 0 <= j < |messages| => Violation(rc.refId, messages[j]))
  }

  /** `v` is one of the errors the checker reports for the checked ref change `refs[i]`. */
  predicate ReportedAt(refs: seq<RefChange>, check: Checker, v: Violation, i: int) {
    0 <= i < |refs| && ShouldCheck(refs[i]) && v.refId == refs[i].refId && v.message in check(refs[i])
  }

  /** The errors one ref change contributes: none when it is skipped. */
  function Found(rc: RefChange, check: Checker): seq<Violation> {
    if ShouldCheck(rc) then Attribute(rc, check(rc)) else []
  }

  /** The errors of the ref changes that are checked, in push order and then checker order. */
  function CollectErrors(refs: seq<RefChange>, check: Checker): (r: seq<Violation>)
    ensures forall v :: v in r ==> exists i :: ReportedAt(refs, check, v, i)
  {
    if refs == [] then []
    else
      var here := Found(refs[0], check);
      var rest := CollectErrors(refs[1..], check);
      assert forall v :: v in rest ==> exists i :: ReportedAt(refs, check, v, i) by {
        forall v | v in rest
          ensures exists i :: ReportedAt(refs, check, v, i)
        {
          var k :| ReportedAt(refs[1..], check, v, k);
          assert refs[1..][k] == refs[k + 1];
          assert ReportedAt(refs, check, v, k + 1);
        }
      }
      assert forall v :: v in here ==> ReportedAt(refs, check, v, 0);
      here + rest
  }

  /** Every error the checker reports for a checked ref change is collected. */
  lemma {:induction false} CollectErrorsComplete(refs: seq<RefChange>, check: Checker, i: nat, message: string)
    requires i < |refs| && ShouldCheck(refs[i]) && message in check(refs[i])
    ensures Violation(refs[i].refId, message) in CollectErrors(refs, check)
  {
    var here := Found(refs[0], check);
    var rest := CollectErrors(refs[1..], check);
    assert CollectErrors(refs, check) == here + rest;
    if i == 0 {
      var j :| 0 <= j < |check(refs[0])| && check(refs[0])[j] == message;
      assert here[j] == Violation(refs[0].refId, message);
    } else {
      assert refs[1..][i - 1] == refs[i];
      CollectErrorsComplete(refs[1..], check, i - 1, message);
    }
  }

  /** An error is collected exactly when the checker reports it for some checked ref change. */
  lemma CollectedIff(refs: seq<RefChange>, check: Checker, v: Violation)
    ensures v in CollectErrors(refs, check) <==> exists i :: ReportedAt(refs, check, v, i)
  {
    if i :| ReportedAt(refs, check, v, i) {
      CollectErrorsComplete(refs, check, i, v.message);
    }
  }

  /** No error is collected exactly when the checker reports nothing for every checked ref change. */
  lemma NoErrorsIff(refs: seq<RefChange>, check: Checker)
    ensures CollectErrors(refs, check) == [] <==>
      forall i :: 0 <= i < |refs| && ShouldCheck(refs[i]) ==> check(refs[i]) == []
  {
    var errs := CollectErrors(refs, check);
    if errs == [] {
      forall i | 0 <= i < |refs| && ShouldCheck(refs[i])
        ensures check(refs[i]) == []
      {
        if check(refs[i]) != [] {
          CollectErrorsComplete(refs, check, i, check(refs[i])[0]);
        }
      }
    } else {
      assert errs[0] in errs;
    }
  }

  lemma CollectErrorsCons(refs: seq<RefChange>, check: Checker)
    requires refs != []
    ensures CollectErrors(refs, check) == Found(refs[0], check) + CollectErrors(refs[1..], check)
  {
  }

  /** The errors of a push are those of its first part followed by those of the rest. */
  lemma {:induction false} CollectErrorsAppend(a: seq<RefChange>, b: seq<RefChange>, check: Checker)
    ensures CollectErrors(a + b, check) == CollectErrors(a, check) + CollectErrors(b, check)
  {
    if a == [] {
      assert a + b == b;
    } else {
      var ab := a + b;
      assert ab[0] == a[0] && ab[1..] == a[1..] + b;
      CollectErrorsCons(ab, check);
      CollectErrorsCons(a, check);
      CollectErrorsAppend(a[1..], b, check);
      Assoc(Found(a[0], check), CollectErrors(a[1..], check), CollectErrors(b, check));
    }
  }

  /**
   Skipped ref changes are never shown to the checker: two checkers that agree
   on every checked ref change of a push collect the same errors.
   */
  lemma {:induction false} CollectErrorsIgnoresSkipped(refs: seq<RefChange>, check1: Checker, check2: Checker)
    requires forall i :: 0 <= i < |refs| && ShouldCheck(refs[i]) ==> check1(refs[i]) == check2(refs[i])
    ensures CollectErrors(refs, check1) == CollectErrors(refs, check2)
  {
    if refs != [] {
      assert forall i :: 0 <= i < |refs[1..]| ==> refs[1..][i] == refs[i + 1];
      CollectErrorsIgnoresSkipped(refs[1..], check1, check2);
    }
  }

  /** The hook's answer for a push. */
  function OnReceive(refs: seq<RefChange>, cfg: Config, check: Checker): (d: Decision)
    ensures d.allowed <==> forall i :: 0 <= i < |refs| && ShouldCheck(refs[i]) ==> check(refs[i]) == []
    ensures d.allowed <==> d.stderr == ""
    ensures !d.allowed ==> StartsWith(d.stderr, HeaderText(cfg) + "\n\n")
  {
    NoErrorsIff(refs, check);
    var errs := CollectErrors(refs, check);
    if errs == [] then Decision(true, "") else Decision(false, Render(cfg, errs))
  }

  /**
   Read line by line, the stderr of a rejected push is the header, a blank
   line, and then each collected error on its own line followed by a blank
   line, and the footer last; this needs the error lines and footer to be
   free of newlines.
   */
  lemma RejectedOutputLines(refs: seq<RefChange>, cfg: Config, check: Checker)
    requires !OnReceive(refs, cfg, check).allowed
    requires PlainErrors(CollectErrors(refs, check))
    requires IsSet(cfg.errorMessageFooter) ==> NewlineFree(cfg.errorMessageFooter.value)
    ensures Lines(OnReceive(refs, cfg, check).stderr) ==
      Lines(HeaderText(cfg) + "\n") + [""] + ErrorLines(CollectErrors(refs, check)) + FooterLines(cfg)
  {
    RenderedLines(cfg, CollectErrors(refs, check));
  }

  /** The hook's decision does not depend on what the checker says about skipped ref changes. */
  lemma OnReceiveIgnoresSkipped(refs: seq<RefChange>, cfg: Config, check1: Checker, check2: Checker)
    requires forall i :: 0 <= i < |refs| && ShouldCheck(refs[i]) ==> check1(refs[i]) == check2(refs[i])
    ensures OnReceive(refs, cfg, check1) == OnReceive(refs, cfg, check2)
  {
    CollectErrorsIgnoresSkipped(refs, check1, check2);
  }

  /**
   One step of the hook's loop: skip deletions, ref changes without a target
   and notes, and otherwise tag each of the checker's messages with the ref.
   */
  method ErrorsOf(rc: RefChange, check: Checker) returns (found: seq<Violation>)
    ensures found == Found(rc, check)
  {
    found := [];
    if rc.kind == Delete {
      return;
    }
    if rc.toHash == ZeroHash {
      return;
    }
    if StartsWith(rc.refId, NotesNamespace) {
      return;
    }
    var messages := check(rc);
    var j := 0;
    while j < |messages|
      invariant 0 <= j <= |messages|
      invariant found == Attribute(rc, messages[..j])
    {
      found := found + [Violation(rc.refId, messages[j])];
      j := j + 1;
    }
    assert messages[..j] == messages;
  }

  /** A push with one more ref change has that change's errors appended. */
  lemma CollectErrorsSnoc(refs: seq<RefChange>, i: nat, check: Checker)
    requires i < |refs|
    ensures CollectErrors(refs[..i + 1], check) == CollectErrors(refs[..i], check) + Found(refs[i], check)
  {
    CollectErrorsCons([refs[i]], check);
    assert [refs[i]][1..] == [];
    CollectErrorsAppend(refs[..i], [refs[i]], check);
    assert refs[..i + 1] == refs[..i] + [refs[i]];
  }

  /**
   The hook as the loop it is: walk the ref changes in push order, gather the
   errors of each, then allow the push or write the error text and reject it.
   */
  method Receive(refs: seq<RefChange>, cfg: Config, check: Checker) returns (allowed: bool, stderr: string)
    ensures Decision(allowed, stderr) == OnReceive(refs, cfg, check)
    ensures allowed <==> forall i :: 0 <= i < |refs| && ShouldCheck(refs[i]) ==> check(refs[i]) == []
  {
    var errors: seq<Violation> := [];
    var i := 0;
    while i < |refs|
      invariant 0 <= i <= |refs|
      invariant errors == CollectErrors(refs[..i], check)
    {
      var found := ErrorsOf(refs[i], check);
      CollectErrorsSnoc(refs, i, check);
      errors := errors + found;
      i := i + 1;
    }
    assert refs[..i] == refs;
    if errors == [] {
      allowed, stderr := true, "";
    } else {
      allowed := false;
      stderr := BuildErrorText(cfg, errors);
    }
  }

}
