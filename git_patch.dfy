/**
 * The patch text built by `GitManager::get_staged_diff` (src/git.rs): the
 * callback given to `diff.print` turns each `(origin, content)` line into a
 * piece of text and appends it to the output.
 */
module GitPatch {
  import opened Results
  import opened Text

  /**
   * One line handed to the print callback: its origin character and its
   * content, `None` when the content bytes are not valid UTF-8.
   */
  datatype DiffLine = DiffLine(origin: char, content: Option<string>)

  /** The content as the callback can append it: the empty string when it does not decode. */
  function Decoded(line: DiffLine): string {
    if line.content.Some? then line.content.value else ""
  }

  /** What the callback appends for one line. */
  function Contribution(line: DiffLine): string {
    match line.origin
    case '+' => [line.origin] + Decoded(line)
    case '-' => [line.origin] + Decoded(line)
    case ' ' => [line.origin] + Decoded(line)
    case 'F' => if line.content.Some? then "--- " + line.content.value else ""
    case 'H' => if line.content.Some? then "@@ " + line.content.value else ""
    case _ => ""
  }

  /**
   * `diff.print`: the callback's text for each line, appended in the order
   * the lines are handed over.
   */
  function Print(callback: DiffLine -> string, lines: seq<DiffLine>): string {
    if lines == [] then "" else Print(callback, lines[..|lines| - 1]) + callback(lines[|lines| - 1])
  }

  /** The whole patch text: `diff.print` with the patch callback. */
  function Render(lines: seq<DiffLine>): string {
    Print(Contribution, lines)
  }

  /**
   * The callback loop: `diff_output` grows by one contribution per line and
   * the callback always answers `true`, so every line is visited.
   */
  method RenderPatch(lines: seq<DiffLine>) returns (output: string)
    ensures output == Render(lines)
  {
    output := "";
    for i := 0 to |lines|
      invariant output == Render(lines[..i])
    {
      var line := lines[i];
      ghost var before := output;
      match line.origin {
        case '+' | '-' | ' ' =>
          output := output + [line.origin];
          if line.content.Some? {
            output := output + line.content.value;
          }
          assert output == before + Contribution(line);
        case 'F' =>
          if line.content.Some? {
            output := output + "--- ";
            output := output + line.content.value;
          }
          assert output == before + Contribution(line);
        case 'H' =>
          if line.content.Some? {
            output := output + "@@ ";
            output := output + line.content.value;
          }
          assert output == before + Contribution(line);
        case _ =>
          assert output == before + Contribution(line);
      }
      assert lines[..i + 1][..i] == lines[..i];
    }
    assert lines[..|lines|] == lines;
  }

  /** Printing is a homomorphism: the text of two runs of lines is the concatenation of their texts. */
  lemma {:induction false} PrintConcat(callback: DiffLine -> string, a: seq<DiffLine>, b: seq<DiffLine>)
    ensures Print(callback, a + b) == Print(callback, a) + Print(callback, b)
    decreases |b|
  {
    if b == [] {
      assert a + b == a;
    } else {
      var last := |b| - 1;
      assert (a + b)[..|a + b| - 1] == a + b[..last];
      assert (a + b)[|a + b| - 1] == b[last];
      PrintConcat(callback, a, b[..last]);
    }
  }

  /**
   * Each line is printed at its own position: the text is the text of the
   * lines before it, then its callback text, then the text of the lines after it.
   */
  lemma PrintAt(callback: DiffLine -> string, lines: seq<DiffLine>, i: nat)
    requires i < |lines|
    ensures Print(callback, lines) == Print(callback, lines[..i]) + callback(lines[i]) + Print(callback, lines[i + 1..])
  {
    SplitAt(lines, i);
    PrintAround(callback, lines, lines[..i], lines[i], lines[i + 1..]);
  }

  /** A run of lines is the lines before position `i`, the line at `i` and the lines after it. */
  lemma SplitAt(lines: seq<DiffLine>, i: nat)
    requires i < |lines|
    ensures lines == lines[..i] + [lines[i]] + lines[i + 1..]
  {
  }

  /** A line between two runs is printed between their texts. */
  lemma PrintAround(callback: DiffLine -> string, lines: seq<DiffLine>, a: seq<DiffLine>, x: DiffLine, b: seq<DiffLine>)
    requires lines == a + [x] + b
    ensures Print(callback, lines) == Print(callback, a) + callback(x) + Print(callback, b)
  {
    PrintConcat(callback, a + [x], b);
    assert (a + [x])[..|a|] == a;
  }

  /** The printed text is blank exactly when every line's callback text is. */
  lemma {:induction false} PrintBlank(callback: DiffLine -> string, lines: seq<DiffLine>)
    ensures IsBlank(Print(callback, lines)) <==> forall i :: 0 <= i < |lines| ==> IsBlank(callback(lines[i]))
  {
    if lines != [] {
      var n := |lines| - 1;
      var init := lines[..n];
      PrintBlank(callback, init);
      BlankConcat(Print(callback, init), callback(lines[n]));
      assert forall i :: 0 <= i < |init| ==> init[i] == lines[i];
    }
  }

  /** Lines whose origin the callback ignores. */
  predicate Silent(line: DiffLine) {
    line.origin !in {'+', '-', ' ', 'F', 'H'}
  }

  /** The lines whose origin the callback handles, in order. */
  function Handled(lines: seq<DiffLine>): (r: seq<DiffLine>)
    ensures |r| <= |lines|
    ensures forall i :: 0 <= i < |r| ==> !Silent(r[i])
  {
    if lines == [] then []
    else if Silent(lines[|lines| - 1]) then Handled(lines[..|lines| - 1])
    else Handled(lines[..|lines| - 1]) + [lines[|lines| - 1]]
  }

  /** Lines with any other origin (binary notes, end-of-file markers, ...) leave no trace in the text. */
  lemma {:induction false} SilentLinesIgnored(lines: seq<DiffLine>)
    ensures Render(Handled(lines)) == Render(lines)
  {
    if lines != [] {
      var init := lines[..|lines| - 1];
      SilentLinesIgnored(init);
      if !Silent(lines[|lines| - 1]) {
        PrintConcat(Contribution, Handled(init), [lines[|lines| - 1]]);
        assert Print(Contribution, [lines[|lines| - 1]]) == Print(Contribution, []) + Contribution(lines[|lines| - 1]);
      }
    }
  }

  /**
   * A `+`, `-` or space line always puts its origin character in the text,
   * followed by its content when that decodes; with content that does not
   * decode, only the origin character.
   */
  lemma ChangeLineKeepsOrigin(lines: seq<DiffLine>, i: nat)
    requires i < |lines| && lines[i].origin in {'+', '-', ' '}
    ensures var at := |Render(lines[..i])|;
      at + 1 + |Decoded(lines[i])| <= |Render(lines)| && Render(lines)[at] == lines[i].origin &&
      (lines[i].content.Some? ==> Render(lines)[at + 1..at + 1 + |lines[i].content.value|] == lines[i].content.value) &&
      (lines[i].content.None? ==> Contribution(lines[i]) == [lines[i].origin])
  {
    PrintAt(Contribution, lines, i);
    var at := |Render(lines[..i])|;
    var text := Render(lines);
    var c := Contribution(lines[i]);
    assert text[at..at + |c|] == c;
    assert c[0] == lines[i].origin;
    if lines[i].content.Some? {
      assert c[1..] == lines[i].content.value;
      assert text[at + 1..at + 1 + |lines[i].content.value|] == c[1..];
    }
  }

  /**
   * An `F` line whose content decodes puts `"--- "` and the content in the
   * text at its position, and an `H` line `"@@ "` and the content.
   */
  lemma HeaderLineKeepsPrefix(lines: seq<DiffLine>, i: nat)
    requires i < |lines| && lines[i].origin in {'F', 'H'} && lines[i].content.Some?
    ensures var at := |Render(lines[..i])|;
      var header := (if lines[i].origin == 'F' then "--- " else "@@ ") + lines[i].content.value;
      at + |header| <= |Render(lines)| && Render(lines)[at..at + |header|] == header
  {
    PrintAt(Contribution, lines, i);
    var at := |Render(lines[..i])|;
    var c := Contribution(lines[i]);
    assert Render(lines)[at..at + |c|] == c;
  }

  /** `F` and `H` lines whose content does not decode emit nothing, not even their prefix. */
  lemma UndecodableHeaderSilent(lines: seq<DiffLine>, i: nat)
    requires i < |lines| && lines[i].origin in {'F', 'H'} && lines[i].content.None?
    ensures Render(lines) == Render(lines[..i]) + Render(lines[i + 1..])
  {
    PrintAt(Contribution, lines, i);
  }

  /** A diff holding an added or removed line is not empty after trimming. */
  lemma ChangedLineNotBlank(lines: seq<DiffLine>, i: nat)
    requires i < |lines| && lines[i].origin in {'+', '-'}
    ensures Trim(Render(lines)) != []
  {
    PrintBlank(Contribution, lines);
    assert Contribution(lines[i])[0] == lines[i].origin;
    TrimEmptyIffBlank(Render(lines));
  }
}
