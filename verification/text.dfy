/**
 Plain-text helpers over `string`: prefixes, suffixes, and the split of a
 text into its newline-terminated lines, which is how the hook's stderr is
 read by the person pushing.
 */
module Text {

  predicate StartsWith(s: string, p: string) {
    |p| <= |s| && s[..|p|] == p
  }

  predicate EndsWith(s: string, p: string) {
    |p| <= |s| && s[|s| - |p|..] == p
  }

  predicate NewlineFree(s: string) {
    '\n' !in s
  }

  lemma Assoc<T>(a: seq<T>, b: seq<T>, c: seq<T>)
    ensures a + (b + c) == (a + b) + c
  {
  }

  /** Puts `c` in front of the first line of `ls`, or makes it a line of its own. */
  function PrependToFirst(c: char, ls: seq<string>): (r: seq<string>)
    ensures |r| == if ls == [] then 1 else |ls|
  {
    if ls == [] then [[c]] else [[c] + ls[0]] + ls[1..]
  }

  /**
   The lines of `s`: the pieces between newlines, each without its newline.
   A final newline does not start another (empty) line, so `"a\n\nb"` has
   the lines `"a"`, `""` and `"b"`, and `"a\n"` only the line `"a"`.
   */
  function Lines(s: string): (r: seq<string>)
    ensures s != [] ==> r != []
  {
    if s == [] then []
    else if s[0] == '\n' then [""] + Lines(s[1..])
    else PrependToFirst(s[0], Lines(s[1..]))
  }

  /** A newline-free text followed by a newline is read as exactly one line. */
  lemma {:induction false} LinesAfterLine(a: string, b: string)
    requires NewlineFree(a)
    ensures Lines(a + "\n" + b) == [a] + Lines(b)
  {
    if a == [] {
      assert a + "\n" + b == "\n" + b;
      assert ("\n" + b)[1..] == b;
    } else {
      var s := a + "\n" + b;
      assert s[0] == a[0] && s[0] != '\n';
      assert s[1..] == a[1..] + "\n" + b;
      LinesAfterLine(a[1..], b);
      assert [a[0]] + a[1..] == a;
    }
  }

  /** A newline-free text followed by two newlines is read as that line and a blank one. */
  lemma LinesAfterLineAndBlank(a: string, b: string)
    requires NewlineFree(a)
    ensures Lines(a + "\n\n" + b) == [a, ""] + Lines(b)
  {
    var blankThenB: string := "\n" + b;
    assert a + "\n\n" + b == a + "\n" + blankThenB;
    LinesAfterLine(a, blankThenB);
    assert blankThenB == [] + "\n" + b;
    LinesAfterLine([], b);
  }

  /** Putting a character in front of a non-empty list of lines only touches its first line. */
  lemma PrependToFirstAppend(c: char, ls: seq<string>, ms: seq<string>)
    requires ls != []
    ensures PrependToFirst(c, ls) + ms == PrependToFirst(c, ls + ms)
  {
    assert (ls + ms)[0] == ls[0];
    assert (ls + ms)[1..] == ls[1..] + ms;
  }

  /** The lines of a text that starts with `c`, in terms of the lines after it. */
  lemma LinesCons(c: char, u: string)
    ensures Lines([c] + u) ==
      if c == '\n' then [""] + Lines(u) else PrependToFirst(c, Lines(u))
  {
    assert ([c] + u)[0] == c;
    assert ([c] + u)[1..] == u;
  }

  /** The last character of a non-empty text survives dropping its first one. */
  lemma TailKeepsLast(s: string)
    requires s != []
    ensures s[1..] == [] || s[1..][|s[1..]| - 1] == s[|s| - 1]
  {
  }

  /** Appending after a completed line leaves the earlier lines as they were. */
  lemma {:induction false} LinesAppend(s: string, x: string)
    requires s == [] || s[|s| - 1] == '\n'
    ensures Lines(s + x) == Lines(s) + Lines(x)
  {
    if s == [] {
      assert s + x == x;
    } else {
      var c := s[0];
      var tail := s[1..];
      assert s == [c] + tail;
      assert s + x == [c] + (tail + x);
      TailKeepsLast(s);
      LinesAppend(tail, x);
      LinesCons(c, tail);
      LinesCons(c, tail + x);
      if c == '\n' {
        Assoc([""], Lines(tail), Lines(x));
      } else {
        assert tail != [];
        PrependToFirstAppend(c, Lines(tail), Lines(x));
      }
    }
  }

}
