/** The description box of the experience, project and involvement editors:
    the bullet rule applied while typing a new item (a loop over the lines),
    the bullet rule applied while editing an existing item (a map over the
    lines), and the Bold button that wraps or unwraps the selected text. */
module Description {

  import opened Text

  /** New-item rule for one line: a line that does not start with `*` gets
      `"* "` in front, except a later line that is empty. */
  function PrefixNewLine(line: string, first: bool): string {
    if !StartsWith(line, "*") && (first || line != []) then "* " + line else line
  }

  function NewItemLines(lines: seq<string>): (r: seq<string>)
    ensures |r| == |lines|
  {
    seq(|lines|, k requires 0 <= k < |lines| => PrefixNewLine(lines[k], k == 0))
  }

  /** The description the new-item box stores for the typed `value`. */
  function NewItemDescription(value: string): string {
    Join(NewItemLines(Split(value, '\n')), "\n")
  }

  /** The handler's loop: split into an array of lines, prefix line 0 when it
      does not start with `*`, then every later non-empty line that does not,
      and join the lines back. */
  method FormatNewItemDescription(description: string) returns (r: string)
    ensures r == NewItemDescription(description)
  {
    var pieces := Split(description, '\n');
    var lines := new string[|pieces|](k requires 0 <= k < |pieces| => pieces[k]);
    if lines.Length > 0 && !StartsWith(lines[0], "*") {
      lines[0] := "* " + lines[0];
    }
    var i := 1;
    while i < lines.Length
      invariant 1 <= i <= lines.Length
      invariant forall k :: 0 <= k < i ==> lines[k] == PrefixNewLine(pieces[k], k == 0)
      invariant forall k :: i <= k < lines.Length ==> lines[k] == pieces[k]
    {
      if lines[i] != [] && !StartsWith(lines[i], "*") {
        lines[i] := "* " + lines[i];
      }
      i := i + 1;
    }
    assert lines[..] == NewItemLines(pieces);
    r := Join(lines[..], "\n");
  }

  /** Edit rule for one line: a line whose trimmed form is non-empty and does
      not start with `*` gets `"* "` in front; the line itself is not trimmed. */
  function PrefixEditLine(line: string): string {
    if Trim(line) != [] && !StartsWith(Trim(line), "*") then "* " + line else line
  }

  function EditLines(lines: seq<string>): (r: seq<string>)
    ensures |r| == |lines|
  {
    seq(|lines|, k requires 0 <= k < |lines| => PrefixEditLine(lines[k]))
  }

  /** The description the edit box stores for the typed `value`. */
  function EditDescription(value: string): string {
    Join(EditLines(Split(value, '\n')), "\n")
  }

  /** A string that starts with `*` still starts with `*` after trimming. */
  lemma TrimStarred(s: string)
    requires StartsWith(s, "*")
    ensures Trim(s) != [] && StartsWith(Trim(s), "*")
  {
    TrimKeepsHead(s, IsJsSpace);
  }

  /** Neither rule introduces a line break into a line. */
  lemma PrefixedLinesFree(lines: seq<string>)
    requires forall k :: 0 <= k < |lines| ==> '\n' !in lines[k]
    ensures forall k :: 0 <= k < |lines| ==> '\n' !in NewItemLines(lines)[k] && '\n' !in EditLines(lines)[k]
  {
    forall k | 0 <= k < |lines|
      ensures '\n' !in NewItemLines(lines)[k] && '\n' !in EditLines(lines)[k]
    {
      assert '\n' !in "* ";
    }
  }

  /** The new-item rule keeps the number of lines; each output line is the
      input line, or `"* "` followed by it exactly when the line does not
      start with `*` and is the first line or non-empty; so the first line
      always starts with `*` and an empty first line becomes `"* "`. */
  lemma NewItemLinesRule(value: string)
    ensures Split(NewItemDescription(value), '\n') == NewItemLines(Split(value, '\n'))
    ensures |Split(NewItemDescription(value), '\n')| == |Split(value, '\n')|
    ensures forall k :: 0 <= k < |Split(value, '\n')| ==>
      var line := Split(value, '\n')[k];
      var out := Split(NewItemDescription(value), '\n')[k];
      (out == "* " + line <==> !StartsWith(line, "*") && (k == 0 || line != []))
      && (out == line <==> !(!StartsWith(line, "*") && (k == 0 || line != [])))
    ensures StartsWith(Split(NewItemDescription(value), '\n')[0], "*")
    ensures Split(value, '\n')[0] == [] ==> Split(NewItemDescription(value), '\n')[0] == "* "
  {
    var lines := Split(value, '\n');
    SplitPiecesFree(value, '\n');
    PrefixedLinesFree(lines);
    SplitJoin(NewItemLines(lines), '\n');
    forall k | 0 <= k < |lines|
      ensures var out := NewItemLines(lines)[k];
        (out == "* " + lines[k] <==> !StartsWith(lines[k], "*") && (k == 0 || lines[k] != []))
        && (out == lines[k] <==> !(!StartsWith(lines[k], "*") && (k == 0 || lines[k] != [])))
    {
      assert |"* " + lines[k]| != |lines[k]|;
    }
    assert ("* " + lines[0])[..1] == "*";
  }

  /** Formatting an already formatted new-item description changes nothing. */
  lemma NewItemIdempotent(value: string)
    ensures NewItemDescription(NewItemDescription(value)) == NewItemDescription(value)
  {
    var lines := NewItemLines(Split(value, '\n'));
    NewItemLinesRule(value);
    forall k | 0 <= k < |lines| ensures PrefixNewLine(lines[k], k == 0) == lines[k] {
      var line := Split(value, '\n')[k];
      if lines[k] != line {
        assert lines[k] == "* " + line;
        assert lines[k][..1] == "*";
      }
    }
    assert NewItemLines(lines) == lines;
  }

  /** Edit rule per line: the line count is kept, blank lines and lines whose
      trimmed form starts with `*` are unchanged, every other line gets `"* "`. */
  lemma EditLinesRule(value: string)
    ensures Split(EditDescription(value), '\n') == EditLines(Split(value, '\n'))
    ensures |Split(EditDescription(value), '\n')| == |Split(value, '\n')|
    ensures forall k :: 0 <= k < |Split(value, '\n')| ==>
      var line := Split(value, '\n')[k];
      var out := Split(EditDescription(value), '\n')[k];
      (Trim(line) == [] || StartsWith(Trim(line), "*") ==> out == line)
      && (Trim(line) != [] && !StartsWith(Trim(line), "*") ==> out == "* " + line)
  {
    var lines := Split(value, '\n');
    SplitPiecesFree(value, '\n');
    PrefixedLinesFree(lines);
    SplitJoin(EditLines(lines), '\n');
  }

  /** Formatting an already formatted edit description changes nothing. */
  lemma EditIdempotent(value: string)
    ensures EditDescription(EditDescription(value)) == EditDescription(value)
  {
    var lines := EditLines(Split(value, '\n'));
    EditLinesRule(value);
    forall k | 0 <= k < |lines| ensures PrefixEditLine(lines[k]) == lines[k] {
      var line := Split(value, '\n')[k];
      if lines[k] != line {
        assert lines[k] == "* " + line;
        assert lines[k][..1] == "*";
        TrimStarred(lines[k]);
      }
    }
    assert EditLines(lines) == lines;
  }

  /** The text is empty or all white space. */
  predicate IsBlank(text: string) {
    forall i :: 0 <= i < |text| ==> IsJsSpace(text[i])
  }

  /** `!text.trim()` holds exactly for the blank texts. */
  lemma BlankIffTrimEmpty(text: string)
    ensures IsBlank(text) <==> Trim(text) == []
  {
    TrimEmptyIff(text, IsJsSpace);
  }

  /** The selection counts as bold when it starts and ends with `**`. */
  predicate LooksBold(selection: string) {
    StartsWith(selection, "**") && EndsWith(selection, "**")
  }

  /** What replaces the selection: its inside when it looks bold, else the
      selection wrapped in `**`. */
  function ToggledSelection(selection: string): string {
    if LooksBold(selection) then SliceInner2(selection) else "**" + selection + "**"
  }

  /** The Bold button on `text` with the selection `start..end`; the text box
      shows `text`, so the selected text is the same substring of it. */
  function ApplyBold(text: string, start: nat, end: nat): string {
    var selection := Substring(text, start, end);
    if IsBlank(selection) then text
    else Substring(text, 0, start) + ToggledSelection(selection) + Substring(text, end, |text|)
  }

  /** A blank selection leaves the text unchanged. */
  lemma ApplyBoldBlank(text: string, start: nat, end: nat)
    requires IsBlank(Substring(text, start, end))
    ensures ApplyBold(text, start, end) == text
  {
  }

  /** With the selection inside the text, the clamping of `substring` plays no part. */
  lemma ApplyBoldInRange(text: string, start: nat, end: nat)
    requires start <= end <= |text|
    ensures ApplyBold(text, start, end) ==
      if IsBlank(text[start..end]) then text
      else text[..start] + ToggledSelection(text[start..end]) + text[end..]
  {
    assert Substring(text, start, end) == text[start..end];
    assert Substring(text, 0, start) == text[..start];
    assert Substring(text, end, |text|) == text[end..];
  }

  /** Text with a piece in the middle replaced. */
  lemma Splice(text: string, start: nat, end: nat, mid: string)
    requires start <= end <= |text|
    ensures var u := text[..start] + mid + text[end..];
      |u| == |text| - (end - start) + |mid| && u[..start] == text[..start]
      && u[start..start + |mid|] == mid && u[start + |mid|..] == text[end..]
  {
  }

  /** The selection wrapped in `**` is not blank, looks bold and toggles back. */
  lemma ToggleWrapped(selection: string)
    ensures !IsBlank("**" + selection + "**") && LooksBold("**" + selection + "**")
    ensures ToggledSelection("**" + selection + "**") == selection
  {
    var w := "**" + selection + "**";
    assert w[0] == '*' && w[..2] == "**" && w[|w| - 2..] == "**";
    assert w[2..|w| - 2] == selection;
  }

  /** Cutting the text at two places and gluing the pieces gives it back. */
  lemma Recompose(text: string, start: nat, end: nat)
    requires start <= end <= |text|
    ensures text[..start] + text[start..end] + text[end..] == text
  {
    assert text[..start] + text[start..end] == text[..end];
  }

  /** Pressing Bold on a range that holds `**` + `sel` + `**` gives back the text with `sel`. */
  lemma UnwrapRange(text: string, start: nat, end: nat)
    requires start <= end <= |text|
    ensures var w := text[..start] + ("**" + text[start..end] + "**") + text[end..];
      ApplyBold(w, start, end + 4) == text
  {
    var sel := text[start..end];
    var wsel := "**" + sel + "**";
    var w := text[..start] + wsel + text[end..];
    Splice(text, start, end, wsel);
    ToggleWrapped(sel);
    ApplyBoldInRange(w, start, end + 4);
    assert w[start..end + 4] == wsel;
    assert ApplyBold(w, start, end + 4) == text[..start] + sel + text[end..];
    Recompose(text, start, end);
  }

  /** A non-blank selection that does not look bold is wrapped in `**`. */
  lemma WrapRange(text: string, start: nat, end: nat)
    requires start <= end <= |text|
    requires !IsBlank(text[start..end]) && !LooksBold(text[start..end])
    ensures ApplyBold(text, start, end) == text[..start] + ("**" + text[start..end] + "**") + text[end..]
  {
    ApplyBoldInRange(text, start, end);
  }

  /** A non-blank selection that does not look bold is wrapped in `**`, and
      pressing Bold again on the wrapped range restores the original text. */
  lemma WrapThenUnwrap(text: string, start: nat, end: nat)
    requires start <= end <= |text|
    requires !IsBlank(text[start..end]) && !LooksBold(text[start..end])
    ensures ApplyBold(text, start, end) == text[..start] + ("**" + text[start..end] + "**") + text[end..]
    ensures ApplyBold(ApplyBold(text, start, end), start, end + 4) == text
  {
    WrapRange(text, start, end);
    UnwrapRange(text, start, end);
  }

  /** A selection `**x**` with a non-blank inside is replaced by `x`. */
  lemma UnwrapStep(text: string, start: nat, end: nat)
    requires start + 4 <= end <= |text|
    requires LooksBold(text[start..end]) && !IsBlank(text[start + 2..end - 2])
    ensures ApplyBold(text, start, end) == text[..start] + text[start + 2..end - 2] + text[end..]
  {
    var sel := text[start..end];
    var inner := text[start + 2..end - 2];
    assert sel == "**" + inner + "**";
    ToggleWrapped(inner);
    ApplyBoldInRange(text, start, end);
  }

  /** Wrapping `x` back in place of `**x**` gives the text it came from. */
  lemma RewrapStep(text: string, start: nat, end: nat)
    requires start + 4 <= end <= |text|
    requires LooksBold(text[start..end])
    requires !IsBlank(text[start + 2..end - 2]) && !LooksBold(text[start + 2..end - 2])
    ensures var u := text[..start] + text[start + 2..end - 2] + text[end..];
      ApplyBold(u, start, end - 4) == text
  {
    var sel := text[start..end];
    var inner := text[start + 2..end - 2];
    assert sel == "**" + inner + "**";
    var u := text[..start] + inner + text[end..];
    Splice(text, start, end, inner);
    assert u[start..end - 4] == inner;
    WrapRange(u, start, end - 4);
    assert ApplyBold(u, start, end - 4) == text[..start] + sel + text[end..];
    Recompose(text, start, end);
  }

  /** A selection `**x**` with a non-blank inside that does not itself look
      bold is replaced by `x`, and pressing Bold on `x` wraps it again. */
  lemma UnwrapThenWrap(text: string, start: nat, end: nat)
    requires start + 4 <= end <= |text|
    requires LooksBold(text[start..end])
    requires !IsBlank(text[start + 2..end - 2]) && !LooksBold(text[start + 2..end - 2])
    ensures ApplyBold(text, start, end) == text[..start] + text[start + 2..end - 2] + text[end..]
    ensures ApplyBold(ApplyBold(text, start, end), start, end - 4) == text
  {
    UnwrapStep(text, start, end);
    RewrapStep(text, start, end);
  }

  /** `**` and `***` look bold and have nothing inside. */
  lemma ShortMarker(selection: string)
    requires selection == "**" || selection == "***"
    ensures !IsBlank(selection) && ToggledSelection(selection) == []
  {
    assert selection[0] == '*' && selection[..2] == "**" && selection[|selection| - 2..] == "**";
  }

  /** A selection of just `**` or `***` looks bold and has nothing inside, so
      pressing Bold deletes it. */
  lemma ShortMarkerDeleted(text: string, start: nat, end: nat)
    requires start <= end <= |text|
    requires text[start..end] == "**" || text[start..end] == "***"
    ensures ApplyBold(text, start, end) == text[..start] + text[end..]
  {
    ShortMarker(text[start..end]);
    ApplyBoldInRange(text, start, end);
    assert text[..start] + [] == text[..start];
  }
}
