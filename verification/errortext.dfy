/**
 The text the hook writes to its stderr when it rejects a push: a header
 (the configured `errorMessageHeader`, or the built-in banner), a blank line,
 then one `<ref>: <message>` line per error, each followed by a blank line,
 and last the configured `errorMessageFooter`, if any, followed by a blank
 line.
 */
module ErrorText {
  import opened Options
  import opened Text

  /** The two settings the renderer reads; `None` is a setting the host leaves unset. */
  datatype Config = Config(errorMessageHeader: Option<string>, errorMessageFooter: Option<string>)

  /** One error reported by the commit checker, attributed to the ref it was found on. */
  datatype Violation = Violation(refId: string, message: string)

  /**
   The built-in banner shown when no header is configured. Its text is not
   part of this model, so it is left as an arbitrary string.
   */
  const DefaultBanner: string

  /** A setting that is present and not the empty string. */
  predicate IsSet(setting: Option<string>) {
    setting.Some? && setting.value != ""
  }

  function HeaderText(cfg: Config): string {
    if IsSet(cfg.errorMessageHeader) then cfg.errorMessageHeader.value else DefaultBanner
  }

  /** The line reporting one error: the ref, a colon and a space, then the message. */
  function ErrorLine(v: Violation): string {
    v.refId + ": " + v.message
  }

  /** The error lines, in order, each followed by a blank line. */
  function Body(errs: seq<Violation>): (r: string)
    ensures r == [] <==> errs == []
    ensures r != [] ==> r[|r| - 1] == '\n'
  {
    if errs == [] then "" else ErrorLine(errs[0]) + "\n\n" + Body(errs[1..])
  }

  /** The last error's line, with its blank line, closes the body. */
  lemma {:induction false} BodyEndsWithLast(errs: seq<Violation>)
    ensures errs != [] ==> EndsWith(Body(errs), ErrorLine(errs[|errs| - 1]) + "\n\n")
  {
    if errs == [] {
      return;
    }
    var rest := Body(errs[1..]);
    var r := Body(errs);
    assert r[|r| - |rest|..] == rest;
    if errs[1..] != [] {
      assert errs[1..][|errs[1..]| - 1] == errs[|errs| - 1];
      BodyEndsWithLast(errs[1..]);
    }
  }

  function FooterText(cfg: Config): string {
    if IsSet(cfg.errorMessageFooter) then cfg.errorMessageFooter.value + "\n\n" else ""
  }

  /** The whole stderr text of a rejected push. */
  function Render(cfg: Config, errs: seq<Violation>): (r: string)
    ensures StartsWith(r, HeaderText(cfg) + "\n\n")
    ensures IsSet(cfg.errorMessageFooter) ==>
      EndsWith(r, "\n" + cfg.errorMessageFooter.value + "\n\n")
    ensures !IsSet(cfg.errorMessageFooter) && errs != [] ==>
      EndsWith(r, ErrorLine(errs[|errs| - 1]) + "\n\n")
    ensures !IsSet(cfg.errorMessageFooter) && errs == [] ==> r == HeaderText(cfg) + "\n\n"
  {
    RenderEnds(HeaderText(cfg) + "\n\n", Body(errs), FooterText(cfg));
    BodyEndsWithLast(errs);
    HeaderText(cfg) + "\n\n" + Body(errs) + FooterText(cfg)
  }

  /** The facts about concatenation behind the contract of Render. */
  lemma RenderEnds(head: string, body: string, foot: string)
    requires EndsWith(head, "\n")
    requires body == [] || body[|body| - 1] == '\n'
    ensures StartsWith(head + body + foot, head)
    ensures body == [] && foot == [] ==> head + body + foot == head
    ensures foot == [] ==> EndsWith(head + body + foot, body)
    ensures EndsWith(head + body + foot, [(head + body)[|head + body| - 1]] + foot)
    ensures (head + body)[|head + body| - 1] == '\n'
  {
    var r := head + body + foot;
    assert r[..|head|] == head;
    assert r[|r| - |foot| - 1..] == [(head + body)[|head + body| - 1]] + foot;
    if foot == [] {
      assert r == head + body;
    }
  }

  /** Body appends: the error lines of two error lists are those of each, in order. */
  lemma {:induction false} BodyAppend(a: seq<Violation>, b: seq<Violation>)
    ensures Body(a + b) == Body(a) + Body(b)
  {
    if a == [] {
      assert a + b == b;
    } else {
      assert (a + b)[0] == a[0];
      assert (a + b)[1..] == a[1..] + b;
      BodyAppend(a[1..], b);
    }
  }

  /** The lines the error section reads as: each error's line and then a blank one. */
  function ErrorLines(errs: seq<Violation>): (r: seq<string>)
    ensures |r| == 2 * |errs|
    ensures forall i :: 0 <= i < |errs| ==> r[2 * i] == ErrorLine(errs[i]) && r[2 * i + 1] == ""
  {
    if errs == [] then []
    else
      var rest := ErrorLines(errs[1..]);
      var r := [ErrorLine(errs[0]), ""] + rest;
      assert forall i :: 1 <= i < |errs| ==> r[2 * i] == ErrorLine(errs[i]) && r[2 * i + 1] == "" by {
        forall i | 1 <= i < |errs|
          ensures r[2 * i] == ErrorLine(errs[i]) && r[2 * i + 1] == ""
        {
          assert errs[1..][i - 1] == errs[i];
          assert r[2 * i] == rest[2 * (i - 1)];
          assert r[2 * i + 1] == rest[2 * (i - 1) + 1];
        }
      }
      r
  }

  function FooterLines(cfg: Config): seq<string> {
    if IsSet(cfg.errorMessageFooter) then [cfg.errorMessageFooter.value, ""] else []
  }

  /**
   Read line by line, the stderr text is the header's lines, a blank line,
   every error on a line of its own followed by a blank line, and the footer
   and a blank line, provided no error line and no footer holds a newline.
   */
  lemma RenderedLines(cfg: Config, errs: seq<Violation>)
    requires PlainErrors(errs)
    requires IsSet(cfg.errorMessageFooter) ==> NewlineFree(cfg.errorMessageFooter.value)
    ensures Lines(Render(cfg, errs)) ==
      Lines(HeaderText(cfg) + "\n") + [""] + ErrorLines(errs) + FooterLines(cfg)
  {
    var header := HeaderText(cfg);
    var h := header + "\n";
    var body := Body(errs);
    var foot := FooterText(cfg);
    var tail := body + foot;
    var blankThenTail: string := "\n" + tail;
    RegroupHeader(header, body, foot);
    assert Render(cfg, errs) == h + blankThenTail;
    LinesAppend(h, blankThenTail);
    assert blankThenTail == [] + "\n" + tail;
    LinesAfterLine([], tail);
    BodyLines(errs, foot);
    FooterTextLines(cfg);
    var errLines := ErrorLines(errs);
    var footLines := FooterLines(cfg);
    assert Lines(Render(cfg, errs)) == Lines(h) + ([""] + (errLines + footLines));
    Assoc(Lines(h), [""], errLines + footLines);
    Assoc(Lines(h) + [""], errLines, footLines);
  }

  /** With a one-line header, the header is the first line and a blank line the second. */
  lemma RenderedLinesPlainHeader(cfg: Config, errs: seq<Violation>)
    requires NewlineFree(HeaderText(cfg))
    requires PlainErrors(errs)
    requires IsSet(cfg.errorMessageFooter) ==> NewlineFree(cfg.errorMessageFooter.value)
    ensures Lines(Render(cfg, errs)) == [HeaderText(cfg), ""] + ErrorLines(errs) + FooterLines(cfg)
  {
    var header := HeaderText(cfg);
    RenderedLines(cfg, errs);
    assert header + "\n" == header + "\n" + "";
    LinesAfterLine(header, "");
    assert Lines(header + "\n") == [header];
    assert [header] + [""] == [header, ""];
  }

  lemma RegroupHeader(header: string, body: string, foot: string)
    ensures header + "\n\n" + body + foot == (header + "\n") + ("\n" + (body + foot))
  {
  }

  lemma FooterTextLines(cfg: Config)
    requires IsSet(cfg.errorMessageFooter) ==> NewlineFree(cfg.errorMessageFooter.value)
    ensures Lines(FooterText(cfg)) == FooterLines(cfg)
  {
    if IsSet(cfg.errorMessageFooter) {
      var f := cfg.errorMessageFooter.value;
      assert f + "\n\n" == f + "\n" + ([] + "\n" + "");
      LinesAfterLine(f, [] + "\n" + "");
      LinesAfterLine([], "");
    }
  }

  /** Every error of `errs` is reported on a line without newlines. */
  predicate PlainErrors(errs: seq<Violation>) {
    forall i :: 0 <= i < |errs| ==> NewlineFree(ErrorLine(errs[i]))
  }

  lemma BodyCons(errs: seq<Violation>, x: string)
    requires errs != []
    ensures Body(errs) + x == ErrorLine(errs[0]) + "\n\n" + (Body(errs[1..]) + x)
    ensures ErrorLines(errs) == [ErrorLine(errs[0]), ""] + ErrorLines(errs[1..])
  {
  }

  lemma PlainErrorsTail(errs: seq<Violation>)
    requires errs != [] && PlainErrors(errs)
    ensures NewlineFree(ErrorLine(errs[0])) && PlainErrors(errs[1..])
  {
    assert forall i :: 0 <= i < |errs| - 1 ==> errs[1..][i] == errs[i + 1];
  }

  lemma {:induction false} BodyLines(errs: seq<Violation>, x: string)
    requires PlainErrors(errs)
    ensures Lines(Body(errs) + x) == ErrorLines(errs) + Lines(x)
  {
    if errs == [] {
      assert Body(errs) + x == x;
    } else {
      var line := ErrorLine(errs[0]);
      var more := Body(errs[1..]);
      BodyCons(errs, x);
      PlainErrorsTail(errs);
      LinesAfterLineAndBlank(line, more + x);
      BodyLines(errs[1..], x);
      Assoc([line, ""], ErrorLines(errs[1..]), Lines(x));
    }
  }

  /**
   The renderer as a string builder: append the header and a blank line,
   then each error line and a blank line, then the footer.
   */
  method BuildErrorText(cfg: Config, errs: seq<Violation>) returns (text: string)
    ensures text == Render(cfg, errs)
  {
    var head := HeaderText(cfg) + "\n\n";
    text := head;
    var i := 0;
    while i < |errs|
      invariant 0 <= i <= |errs|
      invariant text == head + Body(errs[..i])
    {
      var piece := ErrorLine(errs[i]) + "\n\n";
      assert Body([errs[i]]) == piece;
      BodyAppend(errs[..i], [errs[i]]);
      assert errs[..i + 1] == errs[..i] + [errs[i]];
      text := text + piece;
      i := i + 1;
    }
    assert errs[..i] == errs;
    var foot := FooterText(cfg);
    if IsSet(cfg.errorMessageFooter) {
      var footer := cfg.errorMessageFooter.value + "\n\n";
      assert foot == footer;
      text := text + footer;
    } else {
      assert foot == [];
      assert text == text + foot;
    }
  }

}
