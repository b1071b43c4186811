/** The extended `Description:` of each binary package in
    `debian/control`, as the control template formats the gem's long
    description (section 5.6.13 of the Debian Policy Manual: every line
    starts with a space, and a line made of a space and a full stop stands
    for an empty line). */
module Description {
  import opened Text

  const PLACEHOLDER: string := " <insert long description, indented with spaces>\n"

  /** One description line: the input line stripped, `.` if nothing is
      left, after a single space. */
  function DescriptionLine(line: string): (r: string)
    ensures |r| >= 2 && r[0] == ' ' && !IsSpace(r[1])
    ensures Strip(line) == [] ==> r == " ."
    ensures Strip(line) != [] ==> r == " " + Strip(line)
  {
    var s := Strip(line);
    if s == [] then " ." else " " + s
  }

  /** The formatted long description, or the placeholder when the gem has none. */
  function LongDescription(d: Option<string>): (r: string)
    ensures d.None? ==> r == PLACEHOLDER
    ensures EndsWith(r, "\n")
  {
    match d
    case None => PLACEHOLDER
    case Some(text) =>
      var ls := Lines(text);
      Join(seq(|ls|, k requires 0 <= k < |ls| => DescriptionLine(ls[k])), "\n") + "\n"
  }

  /** Stripping a line that has a newline at most at its end leaves no newline. */
  lemma StripOfLine(s: string)
    requires s == [] || '\n' !in s[..|s| - 1]
    ensures '\n' !in Strip(s)
  {
    var a := LStrip(s);
    var r := RStrip(a);
    assert r == Strip(s);
    forall j | 0 <= j < |r| ensures r[j] != '\n' {
      assert r[j] == a[j] == s[|s| - |a| + j];
      if |s| - |a| + j < |s| - 1 {
        assert s[..|s| - 1][|s| - |a| + j] == s[|s| - |a| + j];
      }
    }
  }

  /** The lines of `xs` joined with newlines and ended by one are the
      items of `xs`, each with its newline. */
  lemma {:induction false} LinesOfJoined(xs: seq<string>)
    requires xs != []
    requires forall k :: 0 <= k < |xs| ==> xs[k] != [] && '\n' !in xs[k]
    ensures Lines(Join(xs, "\n") + "\n") == seq(|xs|, k requires 0 <= k < |xs| => xs[k] + "\n")
  {
    var a := xs[0] + "\n";
    assert forall j :: 0 <= j < |a| - 1 ==> a[j] == xs[0][j];
    if |xs| == 1 {
      LinesOfOneLine(a);
    } else {
      LinesOfJoined(xs[1..]);
      assert Join(xs, "\n") + "\n" == a + (Join(xs[1..], "\n") + "\n");
      LinesAppend(a, Join(xs[1..], "\n") + "\n");
    }
  }

  /** A non-empty description keeps its number of lines, and each output
      line is the formatted input line. */
  lemma LongDescriptionLines(text: string)
    requires text != []
    ensures var ls := Lines(text);
      && |Lines(LongDescription(Some(text)))| == |ls|
      && forall k :: 0 <= k < |ls| ==> Lines(LongDescription(Some(text)))[k] == DescriptionLine(ls[k]) + "\n"
  {
    var ls := Lines(text);
    var xs := seq(|ls|, k requires 0 <= k < |ls| => DescriptionLine(ls[k]));
    assert ls != [] by { LinesConcat(text); }
    forall k | 0 <= k < |xs| ensures xs[k] != [] && '\n' !in xs[k] {
      LineShape(text, k);
      var l := ls[k];
      assert '\n' !in l[..|l| - 1] by {
        assert forall j :: 0 <= j < |l| - 1 ==> l[..|l| - 1][j] == l[j];
      }
      StripOfLine(l);
    }
    LinesOfJoined(xs);
  }

  /** Every output line is one space and a visible character: no line is
      blank, and none is shown verbatim (which two leading spaces would mean). */
  lemma LongDescriptionShape(text: string)
    requires text != []
    ensures forall l :: l in Lines(LongDescription(Some(text))) ==>
      |l| >= 3 && l[0] == ' ' && !IsSpace(l[1]) && l[|l| - 1] == '\n'
  {
    var out := Lines(LongDescription(Some(text)));
    LongDescriptionLines(text);
    forall l | l in out ensures |l| >= 3 && l[0] == ' ' && !IsSpace(l[1]) && l[|l| - 1] == '\n' {
      var k :| 0 <= k < |out| && out[k] == l;
      var d := DescriptionLine(Lines(text)[k]);
      assert l == d + "\n";
      assert l[0] == d[0] && l[1] == d[1];
    }
  }

  /** A blank or whitespace-only line becomes ` .`. */
  lemma BlankLineIsDot(text: string, k: nat)
    requires text != [] && k < |Lines(text)|
    requires forall j :: 0 <= j < |Lines(text)[k]| ==> IsSpace(Lines(text)[k][j])
    ensures |Lines(LongDescription(Some(text)))| == |Lines(text)|
    ensures Lines(LongDescription(Some(text)))[k] == " .\n"
  {
    LongDescriptionLines(text);
    var l := Lines(text)[k];
    assert forall j :: 0 <= j < |l| ==> IsTrailingStrip(l[j]);
  }
}
