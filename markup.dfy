/** The `**bold**` markup of descriptions and its conversion: the global,
    non-greedy regular-expression replacement of `**(.*?)**` (to `<strong>…</strong>` for the
    HTML resume and to `\textbf{…}` for LaTeX), and `formatDescription`, which
    turns a description into `<li>` items split on `*`. */
module Markup {

  import opened Wrappers
  import opened Text
  import ListOps

  /** `**` begins at `j`, at or after `from`, and no character of
      `s[from..j]` is a line terminator: `(.*?)` can stop there. */
  predicate Closes(s: string, from: nat, j: nat) {
    from <= j && j + 2 <= |s| && s[j] == '*' && s[j + 1] == '*'
    && forall k :: from <= k < j ==> !IsLineTerminator(s[k])
  }

  /** Where the lazy group `(.*?)` opened before `from` ends: the first
      index at which it can stop, if any. */
  function CloseAt(s: string, from: nat): (r: Option<nat>)
    ensures r.Some? ==> Closes(s, from, r.value) && forall j :: from <= j < r.value ==> !Closes(s, from, j)
    ensures r.None? ==> forall j :: !Closes(s, from, j)
    decreases |s| - from
  {
    if from + 2 > |s| then None
    else if s[from] == '*' && s[from + 1] == '*' then Some(from)
    else if IsLineTerminator(s[from]) then None
    else
      var r := CloseAt(s, from + 1);
      assert forall j: nat :: Closes(s, from, j) && j > from ==> Closes(s, from + 1, j);
      r
  }

  /** The global replacement of `**(.*?)**` by `open + '$1' + close`: scanning from the
      left, a `**` that has a matching `**` later on the same line is replaced
      together with it, the text between them kept; every other character is
      copied. */
  function ReplaceBold(s: string, open: string, close: string): string
    decreases |s|
  {
    if |s| >= 2 && s[0] == '*' && s[1] == '*' && CloseAt(s, 2).Some? then
      var j := CloseAt(s, 2).value;
      open + s[2..j] + close + ReplaceBold(s[j + 2..], open, close)
    else if s == [] then []
    else [s[0]] + ReplaceBold(s[1..], open, close)
  }

  /** The HTML form used by the resume previews. */
  function ToStrong(s: string): string {
    ReplaceBold(s, "<strong>", "</strong>")
  }

  /** Text in which no `*` is followed by another `*` has no match. */
  lemma {:induction false} NoMarkerUnchanged(s: string, open: string, close: string)
    requires forall k :: 0 <= k < |s| - 1 ==> !(s[k] == '*' && s[k + 1] == '*')
    ensures ReplaceBold(s, open, close) == s
    decreases |s|
  {
    if s != [] {
      NoMarkerUnchanged(s[1..], open, close);
      assert [s[0]] + s[1..] == s;
    }
  }

  /** A prefix without any `*` is copied unchanged. */
  lemma {:induction false} PlainPrefix(p: string, t: string, open: string, close: string)
    requires '*' !in p
    ensures ReplaceBold(p + t, open, close) == p + ReplaceBold(t, open, close)
    decreases |p|
  {
    if p == [] {
      assert p + t == t;
    } else {
      assert p[0] in p;
      assert (p + t)[0] == p[0] && (p + t)[1..] == p[1..] + t;
      assert forall c :: c in p[1..] ==> c in p;
      PlainPrefix(p[1..], t, open, close);
      var rest := ReplaceBold(t, open, close);
      assert ReplaceBold(p + t, open, close) == [p[0]] + ReplaceBold(p[1..] + t, open, close);
      assert [p[0]] + (p[1..] + rest) == p + rest;
    }
  }

  /** `**w**`, with `w` free of `*` and of line breaks, becomes `open + w + close`,
      whatever follows. */
  lemma WrappedWord(w: string, t: string, open: string, close: string)
    requires '*' !in w
    requires forall k :: 0 <= k < |w| ==> !IsLineTerminator(w[k])
    ensures ReplaceBold("**" + w + "**" + t, open, close) == open + w + close + ReplaceBold(t, open, close)
  {
    var s := "**" + w + "**" + t;
    var j := |w| + 2;
    assert Closes(s, 2, j);
    forall i | 2 <= i < j ensures !Closes(s, 2, i) {
      assert s[i] == w[i - 2];
    }
    assert CloseAt(s, 2) == Some(j);
    assert s[2..j] == w;
    assert s[j + 2..] == t;
  }

  /** Marked words between plain text are each converted:
      `p + **w** + q` with `p`, `w`, `q` free of `*`. */
  lemma MarkedInPlainText(p: string, w: string, q: string, open: string, close: string)
    requires '*' !in p && '*' !in w && '*' !in q
    requires forall k :: 0 <= k < |w| ==> !IsLineTerminator(w[k])
    ensures ReplaceBold(p + "**" + w + "**" + q, open, close) == p + open + w + close + q
  {
    assert p + "**" + w + "**" + q == p + ("**" + w + "**" + q);
    PlainPrefix(p, "**" + w + "**" + q, open, close);
    WrappedWord(w, q, open, close);
    NoMarkerUnchanged(q, open, close);
  }

  /** The match cannot cross a line break: `**a` newline `b**` stays as it is. */
  lemma NoMatchAcrossLines()
    ensures ReplaceBold("**a\nb**", "<strong>", "</strong>") == "**a\nb**"
  {
    var s := "**a\nb**";
    assert CloseAt(s, 2) == None;
    assert s[1..] == "*a\nb**";
    assert CloseAt(s[1..], 2) == None;
    assert s[1..][1..] == "a\nb**";
    NoMarkerUnchanged("a\nb", "<strong>", "</strong>");
    assert "a\nb**"[1..] == "\nb**";
    assert "\nb**"[1..] == "b**";
    assert "b**"[1..] == "**";
    assert CloseAt("**", 2) == None;
    assert "**"[1..] == "*";
  }

  /** The non-blank `*`-separated segments, in order. */
  predicate NotBlankSegment(segment: string) {
    Trim(segment) != []
  }

  /** The `*`-separated segments of the text after the bold conversion. */
  function Segments(text: string): (r: seq<string>)
    ensures forall k :: 0 <= k < |r| ==> '*' !in r[k]
  {
    SplitPiecesFree(ToStrong(text), '*');
    Split(ToStrong(text), '*')
  }

  /** Each string trimmed. */
  function TrimAll(pieces: seq<string>): (r: seq<string>)
    ensures |r| == |pieces|
    ensures forall k :: 0 <= k < |r| ==> r[k] == Trim(pieces[k])
  {
    seq(|pieces|, k requires 0 <= k < |pieces| => Trim(pieces[k]))
  }

  /** The items `formatDescription` emits: the non-blank segments, each
      trimmed; no item is empty or holds a `*`. */
  function DescriptionItems(text: string): (items: seq<string>)
    ensures |items| == ListOps.CountWhere(Segments(text), NotBlankSegment)
    ensures forall k :: 0 <= k < |items| ==> items[k] != [] && '*' !in items[k]
  {
    var kept := ListOps.Filter(Segments(text), NotBlankSegment);
    var items := TrimAll(kept);
    forall k | 0 <= k < |kept| ensures items[k] != [] && '*' !in items[k] {
      assert kept[k] in Segments(text);
      TrimKeepsOut(kept[k], '*');
    }
    items
  }

  /** Trimming adds no character. */
  lemma TrimKeepsOut(s: string, c: char)
    requires c !in s
    ensures c !in Trim(s)
  {
    var t := TrimStartBy(s, IsJsSpace);
    var u := TrimEndBy(t, IsJsSpace);
    forall i | 0 <= i < |u| ensures u[i] != c {
      assert u[i] == t[i] == s[|s| - |t| + i];
    }
  }

  /** `formatDescription`: one `<li>` per item, concatenated. */
  function FormatDescription(text: string): string {
    Concat(DescriptionItems(text))
  }

  function ListItem(item: string): string {
    "<li>" + item + "</li>"
  }

  function Concat(items: seq<string>): (r: string)
    ensures items == [] ==> r == []
  {
    if items == [] then [] else ListItem(items[0]) + Concat(items[1..])
  }

  /** A description with no `*` at all is one item (its trimmed text) when
      not blank and no item when blank. */
  lemma {:induction false} PlainDescription(text: string)
    requires '*' !in text
    ensures Trim(text) != [] ==> DescriptionItems(text) == [Trim(text)]
    ensures Trim(text) != [] ==> FormatDescription(text) == "<li>" + Trim(text) + "</li>"
    ensures Trim(text) == [] ==> DescriptionItems(text) == [] && FormatDescription(text) == []
  {
    NoMarkerUnchanged(text, "<strong>", "</strong>");
    SplitFree(text, '*');
    assert Split(ToStrong(text), '*') == [text];
    assert ListOps.Filter([text], NotBlankSegment) == (if NotBlankSegment(text) then [text] else []) by {
      assert [text][1..] == [];
    }
  }

  /** The bullets of a `*`-list: `*a*b` gives the items `a` and `b`, trimmed. */
  lemma StarredList(a: string, b: string)
    requires '*' !in a && '*' !in b && Trim(a) != [] && Trim(b) != []
    ensures DescriptionItems("*" + a + "*" + b) == [Trim(a), Trim(b)]
  {
    var text := "*" + a + "*" + b;
    StarredSegments(a, b);
    KeptSegments(a, b);
    assert ListOps.Filter(Segments(text), NotBlankSegment) == [a, b];
  }

  lemma StarredSegments(a: string, b: string)
    requires '*' !in a && '*' !in b && a != []
    ensures Segments("*" + a + "*" + b) == [[], a, b]
  {
    var text := "*" + a + "*" + b;
    StarredListPlain(a, b);
    NoMarkerUnchanged(text, "<strong>", "</strong>");
    StarredListSplit(a, b);
  }

  lemma KeptSegments(a: string, b: string)
    requires Trim(a) != [] && Trim(b) != []
    ensures ListOps.Filter([[], a, b], NotBlankSegment) == [a, b]
  {
    var segments: seq<string> := [[], a, b];
    assert Trim([]) == [];
    assert segments[1..] == [a, b] && segments[1..][1..] == [b] && [b][1..] == [];
    assert ListOps.Filter([b], NotBlankSegment) == [b] + ListOps.Filter([], NotBlankSegment);
    assert ListOps.Filter([a, b], NotBlankSegment) == [a] + ListOps.Filter([b], NotBlankSegment);
  }

  lemma StarredListPlain(a: string, b: string)
    requires '*' !in a && '*' !in b && a != []
    ensures var text := "*" + a + "*" + b;
      forall k :: 0 <= k < |text| - 1 ==> !(text[k] == '*' && text[k + 1] == '*')
  {
    var text := "*" + a + "*" + b;
    forall k | 0 <= k < |text| - 1 ensures !(text[k] == '*' && text[k + 1] == '*') {
      if k == 0 {
        assert text[1] == a[0] && a[0] in a;
      } else if k <= |a| {
        assert text[k] == a[k - 1] && a[k - 1] in a;
      } else {
        assert text[k + 1] == b[k - |a| - 1] && b[k - |a| - 1] in b;
      }
    }
  }

  lemma StarredListSplit(a: string, b: string)
    requires '*' !in a && '*' !in b
    ensures Split("*" + a + "*" + b, '*') == [[], a, b]
  {
    assert "*" + a + "*" + b == [] + ['*'] + (a + ['*'] + b);
    SplitCons([], '*', a + ['*'] + b);
    SplitCons(a, '*', b);
    SplitFree(b, '*');
  }
}
