/** `DhMakeRuby::Template`: the `debian/` files `dh-make-ruby` writes, kept
    after the `__END__` line of its own source, each introduced by a marker
    line holding the file's name. */
module Templates {
  import opened Text
  import opened Tarball

  /** A template file: its name and the text collected under its marker. */
  datatype Template = Template(filename: string, data: string)

  /** The marker: 32 `>` and a space, then the file name. */
  const MARKER: string := ">>>>>>>>>>>>>>>>>>>>>>>>>>>>>>>> "

  const END_LINE: string := "__END__\n"

  /** Appending to the data of `result.last` while `result` is empty. */
  const NO_TEMPLATE: string := "NoMethodError: undefined method `data' for nil:NilClass"

  /** Index of the last occurrence of `lit` starting below `k`. */
  function LastOccurrenceBelow(s: string, lit: string, k: nat): (r: Option<nat>)
    requires k <= |s| + 1
    ensures r.Some? ==> r.value < k && HasAt(s, r.value, lit)
    ensures r.Some? ==> forall j :: r.value < j < k ==> !HasAt(s, j, lit)
    ensures r.None? ==> forall j :: 0 <= j < k ==> !HasAt(s, j, lit)
  {
    if k == 0 then None
    else if HasAt(s, k - 1, lit) then Some(k - 1)
    else LastOccurrenceBelow(s, lit, k - 1)
  }

  /** `gsub(/.*__END__\n/m, '')`: the greedy multi-line `.*` reaches the
      last `__END__` line, and everything up to it goes; a text without one
      is kept whole. */
  function Body(text: string): (r: string)
    ensures EndsWith(text, r)
    ensures !Contains(r, END_LINE)
    ensures !Contains(text, END_LINE) ==> r == text
  {
    match LastOccurrenceBelow(text, END_LINE, |text| + 1)
    case None => text
    case Some(k) =>
      var off := k + |END_LINE|;
      var r := text[off..];
      forall p | 0 <= p <= |r| ensures !HasAt(r, p, END_LINE) {
        if HasAt(r, p, END_LINE) {
          assert r[p..p + |END_LINE|] == text[off + p..off + p + |END_LINE|];
          assert HasAt(text, off + p, END_LINE);
        }
      }
      r
  }

  /** The last `__END__` line, and anything before it, is dropped. */
  lemma BodyAfterOnlyEnd(pre: string, post: string)
    requires forall j :: |pre| < j <= |pre + END_LINE + post| ==> !HasAt(pre + END_LINE + post, j, END_LINE)
    ensures Body(pre + END_LINE + post) == post
  {
    var s := pre + END_LINE + post;
    assert HasAt(s, |pre|, END_LINE) by { assert s[|pre|..|pre| + |END_LINE|] == END_LINE; }
    LastOccurrenceBelowIs(s, END_LINE, |s| + 1, |pre|);
    assert s[|pre| + |END_LINE|..] == post;
  }

  lemma {:induction false} LastOccurrenceBelowIs(s: string, lit: string, k: nat, j: nat)
    requires j < k <= |s| + 1 && HasAt(s, j, lit)
    requires forall i :: j < i < k ==> !HasAt(s, i, lit)
    ensures LastOccurrenceBelow(s, lit, k) == Some(j)
    decreases k
  {
    if k - 1 != j {
      LastOccurrenceBelowIs(s, lit, k - 1, j);
    }
  }

  /** `line =~ /^>>>>…>>>> (.*)/` for a line from `String#lines`. */
  predicate IsMarker(line: string) {
    StartsWith(line, MARKER)
  }

  /** The text before the first newline. */
  function UpToNewline(s: string): (r: string)
    ensures StartsWith(s, r) && '\n' !in r
    ensures |r| < |s| ==> s[|r|] == '\n'
  {
    if s == [] || s[0] == '\n' then [] else [s[0]] + UpToNewline(s[1..])
  }

  /** `$1` of the marker pattern: the rest of the line, newline excluded. */
  function FileNameOf(line: string): (r: string)
    requires IsMarker(line)
    ensures '\n' !in r && StartsWith(line[|MARKER|..], r)
  {
    UpToNewline(line[|MARKER|..])
  }

  /** What `Template.load` returns for the given lines: a marker line opens
      a template with empty data, any other line is appended to the data of
      the last template opened, and raises when there is none. */
  function LoadLines(ls: seq<string>): (r: Result<seq<Template>>)
    ensures r.Failure? ==> r == Failure(NO_TEMPLATE)
    ensures r.Ok? ==> |r.value| <= |ls|
  {
    if ls == [] then Ok([])
    else
      match LoadLines(ls[..|ls| - 1])
      case Failure(e) => Failure(e)
      case Ok(r) =>
        var line := ls[|ls| - 1];
        if IsMarker(line) then Ok(r + [Template(FileNameOf(line), "")])
        else if r == [] then Failure(NO_TEMPLATE)
        else Ok(r[..|r| - 1] + [r[|r| - 1].(data := r[|r| - 1].data + line)])
  }

  /** Once loading raises, the later lines change nothing. */
  lemma {:induction false} LoadFailureSticks(ls: seq<string>, i: nat)
    requires i <= |ls| && LoadLines(ls[..i]).Failure?
    ensures LoadLines(ls) == LoadLines(ls[..i])
    decreases |ls| - i
  {
    if i < |ls| {
      assert ls[..i + 1][..i] == ls[..i];
      LoadFailureSticks(ls, i + 1);
    } else {
      assert ls[..i] == ls;
    }
  }

  /** `Template.load`: the lines of the text after `__END__`, one at a time. */
  method Load(text: string) returns (r: Result<seq<Template>>)
    ensures r == LoadLines(Lines(Body(text)))
  {
    var lines := Lines(Body(text));
    var result: seq<Template> := [];
    var i := 0;
    while i < |lines|
      invariant 0 <= i <= |lines|
      invariant LoadLines(lines[..i]) == Ok(result)
    {
      var line := lines[i];
      LoadStep(lines, i);
      if IsMarker(line) {
        result := result + [Template(FileNameOf(line), "")];
      } else if result == [] {
        LoadFailureSticks(lines, i + 1);
        return Failure(NO_TEMPLATE);
      } else {
        var last := result[|result| - 1];
        result := result[..|result| - 1] + [last.(data := last.data + line)];
      }
      i := i + 1;
    }
    assert lines[..|lines|] == lines;
    r := Ok(result);
  }

  /** One more line, after lines that loaded. */
  lemma LoadStep(ls: seq<string>, i: nat)
    requires i < |ls| && LoadLines(ls[..i]).Ok?
    ensures var r := LoadLines(ls[..i]).value;
      LoadLines(ls[..i + 1]) ==
        if IsMarker(ls[i]) then Ok(r + [Template(FileNameOf(ls[i]), "")])
        else if r == [] then Failure(NO_TEMPLATE)
        else Ok(r[..|r| - 1] + [r[|r| - 1].(data := r[|r| - 1].data + ls[i])])
  {
    assert ls[..i + 1][..i] == ls[..i];
  }

  /** The marker lines, in order. */
  function Markers(ls: seq<string>): (r: seq<string>)
    ensures forall k :: 0 <= k < |r| ==> IsMarker(r[k])
  {
    if ls == [] then [] else Markers(ls[..|ls| - 1]) + (if IsMarker(ls[|ls| - 1]) then [ls[|ls| - 1]] else [])
  }

  /** One template per marker line, named by it, in the order of the lines. */
  lemma {:induction false} LoadFilenames(ls: seq<string>)
    requires LoadLines(ls).Ok?
    ensures var ts := LoadLines(ls).value;
      && |ts| == |Markers(ls)|
      && forall k :: 0 <= k < |ts| ==> ts[k].filename == FileNameOf(Markers(ls)[k])
  {
    if ls != [] {
      var init := ls[..|ls| - 1];
      assert LoadLines(init).Ok?;
      LoadFilenames(init);
      var r := LoadLines(init).value;
      var ts := LoadLines(ls).value;
      if IsMarker(ls[|ls| - 1]) {
        assert ts == r + [Template(FileNameOf(ls[|ls| - 1]), "")];
      } else {
        assert ts == r[..|r| - 1] + [r[|r| - 1].(data := r[|r| - 1].data + ls[|ls| - 1])];
      }
    }
  }

  /** Loading raises exactly when there is a first line and it is not a
      marker. */
  lemma {:induction false} LoadFailsIff(ls: seq<string>)
    ensures LoadLines(ls).Failure? <==> ls != [] && !IsMarker(ls[0])
  {
    if ls != [] {
      var init := ls[..|ls| - 1];
      LoadFailsIff(init);
      if init != [] {
        assert init[0] == ls[0];
        if IsMarker(ls[0]) {
          LoadFilenames(init);
          MarkersOfMarkerHead(init);
        }
      }
    }
  }

  lemma {:induction false} MarkersOfMarkerHead(ls: seq<string>)
    requires ls != [] && IsMarker(ls[0])
    ensures Markers(ls) != []
  {
    if |ls| > 1 {
      assert ls[..|ls| - 1][0] == ls[0];
      MarkersOfMarkerHead(ls[..|ls| - 1]);
    }
  }

  /** The marker line a template is read from. */
  function MarkerLine(filename: string): string {
    MARKER + filename + "\n"
  }

  /** The templates written back out: each marker line, then its data. */
  function Render(ts: seq<Template>): string {
    if ts == [] then [] else Render(ts[..|ts| - 1]) + MarkerLine(ts[|ts| - 1].filename) + ts[|ts| - 1].data
  }

  lemma MarkerLineOf(line: string)
    requires IsMarker(line) && WholeLine(line)
    ensures MarkerLine(FileNameOf(line)) == line
  {
    var rest := line[|MARKER|..];
    var f := FileNameOf(line);
    assert rest[|rest| - 1] == '\n';
    assert rest == f + "\n";
    assert line == MARKER + rest;
  }

  /** Nothing is lost or reordered: writing the templates back out gives the
      lines that were loaded, when each of them is a whole line. */
  lemma {:induction false} LoadRender(ls: seq<string>)
    requires LoadLines(ls).Ok?
    requires forall k :: 0 <= k < |ls| ==> WholeLine(ls[k])
    ensures Render(LoadLines(ls).value) == Concat(ls)
  {
    if ls != [] {
      var init := ls[..|ls| - 1];
      var line := ls[|ls| - 1];
      assert ls[..|ls| - 1 + 1] == ls;
      assert LoadLines(init).Ok? && Render(LoadLines(init).value) == Concat(init) by {
        assert forall k :: 0 <= k < |init| ==> init[k] == ls[k];
        LoadRender(init);
      }
      assert Concat(ls) == Concat(init) + line by {
        assert ls == init + [line];
        ConcatSnoc(init, line);
      }
      var r := LoadLines(init).value;
      LoadStep(ls, |ls| - 1);
      if IsMarker(line) {
        RenderAddMarker(r, line);
      } else {
        RenderAppendLine(r, line);
      }
    }
  }

  lemma RenderAddMarker(r: seq<Template>, line: string)
    requires IsMarker(line) && WholeLine(line)
    ensures Render(r + [Template(FileNameOf(line), "")]) == Render(r) + line
  {
    MarkerLineOf(line);
    RenderSnoc(r, Template(FileNameOf(line), ""));
  }

  lemma RenderAppendLine(r: seq<Template>, line: string)
    requires r != []
    ensures Render(r[..|r| - 1] + [r[|r| - 1].(data := r[|r| - 1].data + line)]) == Render(r) + line
  {
    var init, last := r[..|r| - 1], r[|r| - 1];
    var head := Render(init) + MarkerLine(last.filename);
    assert Render(init + [last.(data := last.data + line)]) == head + (last.data + line) by {
      RenderSnoc(init, last.(data := last.data + line));
    }
    assert Render(r) == head + last.data;
    SeqAssoc(head, last.data, line);
  }

  lemma RenderSnoc(ts: seq<Template>, t: Template)
    ensures Render(ts + [t]) == Render(ts) + MarkerLine(t.filename) + t.data
  {
    assert (ts + [t])[..|ts|] == ts;
  }

  /** The last line of a text ends with the text's last character. */
  lemma {:induction false} LastLineEnds(s: string)
    requires s != []
    ensures var ls := Lines(s); ls != [] && ls[|ls| - 1][|ls[|ls| - 1]| - 1] == s[|s| - 1]
    decreases |s|
  {
    var n := LineLength(s);
    assert Lines(s) == [s[..n]] + Lines(s[n..]);
    if n < |s| {
      LastLineEnds(s[n..]);
      assert s[n..][|s[n..]| - 1] == s[|s| - 1];
    }
  }

  /** A text that ends with a newline is cut into whole lines. */
  lemma LinesOfNewlineText(s: string)
    requires s == [] || s[|s| - 1] == '\n'
    ensures forall k :: 0 <= k < |Lines(s)| ==> WholeLine(Lines(s)[k])
  {
    forall k | 0 <= k < |Lines(s)| ensures WholeLine(Lines(s)[k]) {
      LineShape(s, k);
      if k == |Lines(s)| - 1 {
        LastLineEnds(s);
      }
      var l := Lines(s)[k];
      assert forall j :: 0 <= j < |l| - 1 ==> l[..|l| - 1][j] == l[j];
    }
  }

  /** For a template text ending with a newline, the loaded templates
      written back out are exactly the text after `__END__`. */
  lemma LoadRenderText(text: string)
    requires LoadLines(Lines(Body(text))).Ok?
    requires Body(text) == [] || Body(text)[|Body(text)| - 1] == '\n'
    ensures Render(LoadLines(Lines(Body(text))).value) == Body(text)
  {
    LinesOfNewlineText(Body(text));
    LoadRender(Lines(Body(text)));
    LinesConcat(Body(text));
  }

  /** `Template#directory`. */
  function Directory(t: Template): (r: string)
    ensures '/' !in t.filename ==> r == "."
  {
    Dirname(t.filename)
  }

  /** Every template of the generator lives in `debian/`. */
  lemma DebianDirectory(name: string, data: string)
    requires '/' !in name
    ensures Directory(Template("debian/" + name, data)) == "debian"
  {
    var d := "debian";
    assert "debian/" + name == d + "/" + name;
    assert d != [] && d[|d| - 1] == 'n';
    DirnameOfJoin(d, name);
  }
}
