/**
 * The text log shown in the window: each new entry either replaces an
 * empty log or goes on a new line after the existing text.
 */
module LogText {

  /**
   * The append rule used by the send button and the write handler:
   * an empty log becomes `s`, otherwise `s` follows a newline.
   */
  function AppendLog(log: string, s: string): (r: string)
    ensures log <= r
    ensures |r| == |log| + |s| + (if log == "" then 0 else 1)
    ensures r[|r| - |s|..] == s
    ensures log != "" ==> r[|log|] == '\n'
  {
    if log == "" then s else log + "\n" + s
  }

  /** The lines of a text: the pieces between newline characters. */
  function Lines(t: string): (r: seq<string>)
    ensures |r| >= 1
    ensures forall i :: 0 <= i < |r| ==> '\n' !in r[i]
    ensures |r| == 1 ==> r[0] == t
    decreases |t|
  {
    if t == [] then [""]
    else
      var rest := Lines(t[1..]);
      if t[0] == '\n' then [""] + rest
      else [[t[0]] + rest[0]] + rest[1..]
  }

  /** The text made of the given lines, separated by newlines. */
  function Join(ls: seq<string>): (t: string)
    requires |ls| >= 1
    decreases |ls|
  {
    if |ls| == 1 then ls[0] else ls[0] + "\n" + Join(ls[1..])
  }

  /** A text without a newline is a single line. */
  lemma {:induction false} LinesOfLine(s: string)
    requires '\n' !in s
    ensures Lines(s) == [s]
    decreases |s|
  {
    if s != [] {
      assert '\n' !in s[1..] by {
        forall k | 0 <= k < |s[1..]| ensures s[1..][k] != '\n' {
          assert s[1..][k] == s[k + 1];
        }
      }
      LinesOfLine(s[1..]);
      assert [s[0]] + s[1..] == s;
    }
  }

  /** Splitting `a + "\n" + b` gives the lines of `a` followed by those of `b`. */
  lemma {:induction false} LinesOfConcat(a: string, b: string)
    ensures Lines(a + "\n" + b) == Lines(a) + Lines(b)
    decreases |a|
  {
    var t := a + "\n" + b;
    if a == [] {
      assert t[0] == '\n' && t[1..] == b;
    } else {
      assert t[0] == a[0] && t[1..] == a[1..] + "\n" + b;
      LinesOfConcat(a[1..], b);
    }
  }

  /** Joining the lines of a text gives the text back. */
  lemma {:induction false} JoinLines(t: string)
    ensures Join(Lines(t)) == t
    decreases |t|
  {
    if t != [] {
      JoinLines(t[1..]);
      var rest := Lines(t[1..]);
      if t[0] == '\n' {
        assert Lines(t)[1..] == rest;
      } else if |rest| == 1 {
        assert [t[0]] + t[1..] == t;
      } else {
        var ls := Lines(t);
        assert ls[1..] == rest[1..];
        assert Join(rest) == rest[0] + "\n" + Join(rest[1..]);
        assert [t[0]] + t[1..] == t;
      }
    }
  }

  /** Splitting a join of newline-free lines gives the lines back. */
  lemma {:induction false} LinesJoin(ls: seq<string>)
    requires |ls| >= 1
    requires forall i :: 0 <= i < |ls| ==> '\n' !in ls[i]
    ensures Lines(Join(ls)) == ls
    decreases |ls|
  {
    LinesOfLine(ls[0]);
    if |ls| > 1 {
      LinesJoin(ls[1..]);
      LinesOfConcat(ls[0], Join(ls[1..]));
      assert [ls[0]] + ls[1..] == ls;
    }
  }

  /**
   * Appending a newline-free entry adds exactly one line at the end of the
   * log (or makes it the only line of an empty log); earlier lines stay.
   */
  lemma AppendAddsLine(log: string, s: string)
    requires '\n' !in s
    ensures Lines(AppendLog(log, s)) == if log == "" then [s] else Lines(log) + [s]
  {
    LinesOfLine(s);
    if log != "" {
      LinesOfConcat(log, s);
    }
  }
}
