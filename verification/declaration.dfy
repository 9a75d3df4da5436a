/** Rendering `nuxt.d.ts` from the final references and declarations
    (packages/nuxi/src/commands/prepare.ts, lines 45-58 and 66-72). */
module Declaration {
  import opened Text
  import opened Refs

  /** The path made relative to the project root, for whatever value the `path`
      property holds. Path arithmetic is not modelled. */
  type Relativize = (string, AttrValue) -> string

  /** The two comment lines at the top of the file. */
  const Header1 := "// This file is " + "auto generated " + "by `nuxt prepare`"
  const Header2 := "// Please do not " + "manually modify " + "this file."
  const ExportLine := "export {}"
  const RefOpen := "/// <reference "
  const RefClose := " />"

  /** The text every rendered file starts with: both comment lines and a blank line. */
  const Preamble := Header1 + "\n" + Header2 + "\n" + "\n"

  /** The text every rendered file ends with. */
  const Trailer := "\n" + ExportLine + "\n"

  /** One attribute: `key="value"` for a truthy value, nothing otherwise. */
  function RenderAttr(key: string, value: AttrValue): (r: string)
    ensures Truthy(value) ==> r == key + "=\"" + value.s + "\""
    ensures r == "" <==> !Truthy(value)
  {
    if Truthy(value) then key + "=\"" + value.s + "\"" else ""
  }

  /** One rendered piece per entry, in entry order. */
  function AttrParts(entries: seq<Attr>): (r: seq<string>)
    ensures |r| == |entries|
    ensures forall i :: 0 <= i < |entries| ==> r[i] == RenderAttr(entries[i].key, entries[i].value)
  {
    seq(|entries|, i requires 0 <= i < |entries| => RenderAttr(entries[i].key, entries[i].value))
  }

  /** All attributes of a reference: every entry is rendered, falsy ones as the
      empty string, and the pieces are separated by single spaces. */
  function RenderAttrs(ref: Reference): (r: string)
    ensures |r| == TotalLength(AttrParts(ref.entries)) + Gaps(|ref.entries|)
    ensures |ref.entries| > 0 ==> RenderAttr(ref.entries[0].key, ref.entries[0].value) <= r
  {
    Join(AttrParts(ref.entries), " ")
  }

  /** When no rendered entry contains a space, the rendered attributes split on
      spaces give back exactly the rendered entries, in entry order. */
  lemma RenderAttrsSplit(ref: Reference)
    requires |ref.entries| > 0
    requires forall k :: 0 <= k < |ref.entries| ==> ' ' !in AttrParts(ref.entries)[k]
    ensures Split(RenderAttrs(ref), ' ') == AttrParts(ref.entries)
  {
    SplitJoin(AttrParts(ref.entries), ' ');
  }

  /** The attributes are rendered in entry order: the first entry alone, or the
      first entry, one space, and the rendering of the remaining entries. */
  lemma RenderAttrsCons(ref: Reference)
    requires |ref.entries| > 0
    ensures |ref.entries| == 1 ==> RenderAttrs(ref) == RenderAttr(ref.entries[0].key, ref.entries[0].value)
    ensures |ref.entries| > 1 ==>
      RenderAttrs(ref) == RenderAttr(ref.entries[0].key, ref.entries[0].value) + " " + RenderAttrs(Reference(ref.entries[1..]))
  {
    var parts := AttrParts(ref.entries);
    if |parts| > 1 {
      assert parts[1..] == AttrParts(ref.entries[1..]);
      assert parts == [parts[0]] + parts[1..];
      JoinCons(parts[0], parts[1..], " ");
    }
  }

  /** A reference whose values are all falsy still renders its separators:
      `n` entries give `n - 1` spaces and nothing else. */
  lemma RenderAttrsAllFalsy(ref: Reference)
    requires forall i :: 0 <= i < |ref.entries| ==> !Truthy(ref.entries[i].value)
    ensures RenderAttrs(ref) == Repeat(' ', Gaps(|ref.entries|))
  {
    JoinEmpties(AttrParts(ref.entries), ' ');
  }

  /** The path rewrite: when the reference has a `path` key, its value is
      replaced by the path relative to the root, at the same position, and
      every other entry is kept. */
  function RewritePath(rootDir: string, ref: Reference, relative: Relativize): (r: Reference)
    ensures |r.entries| == |ref.entries|
    ensures forall i :: 0 <= i < |ref.entries| ==> r.entries[i].key == ref.entries[i].key
    ensures forall i :: 0 <= i < |ref.entries| && ref.entries[i].key != PathKey ==> r.entries[i] == ref.entries[i]
    ensures forall i :: 0 <= i < |ref.entries| && ref.entries[i].key == PathKey ==>
      r.entries[i].value == Str(relative(rootDir, ref.entries[i].value))
    ensures !HasKey(ref, PathKey) ==> r == ref
    ensures WellFormed(ref) ==> WellFormed(r)
  {
    var e := ref.entries;
    var rewritten := seq(|e|, i requires 0 <= i < |e| =>
      if e[i].key == PathKey then Attr(PathKey, Str(relative(rootDir, e[i].value))) else e[i]);
    if !HasKey(ref, PathKey) then
      assert rewritten == e;
      ref
    else
      Reference(rewritten)
  }

  /** The triple-slash reference directive of one reference, holding its
      attributes after the path rewrite. */
  function ReferenceLine(rootDir: string, ref: Reference, relative: Relativize): (line: string)
    ensures RefOpen <= line
    ensures EndsWith(line, RefClose)
    ensures |line| == |RefOpen| + |RenderAttrs(RewritePath(rootDir, ref, relative))| + |RefClose|
    ensures line[|RefOpen|..|line| - |RefClose|] == RenderAttrs(RewritePath(rootDir, ref, relative))
  {
    var attrs := RenderAttrs(RewritePath(rootDir, ref, relative));
    var line := RefOpen + attrs + RefClose;
    assert line[|RefOpen|..|line| - |RefClose|] == attrs;
    assert line[|line| - |RefClose|..] == RefClose;
    line
  }

  /** The fixed header lines and trailing lines around `body`. */
  function Framed(body: seq<string>): (r: seq<string>)
    ensures |r| == 5 + |body|
    ensures r[..3] == [Header1, Header2, ""] && r[|r| - 2..] == [ExportLine, ""]
    ensures r[3..3 + |body|] == body
  {
    [Header1, Header2, ""] + body + [ExportLine, ""]
  }

  /** Joining a framed body with newlines starts with the preamble and ends
      with the trailer, whatever the body holds. */
  lemma FramedText(body: seq<string>)
    ensures Preamble <= Join(Framed(body), "\n")
    ensures EndsWith(Join(Framed(body), "\n"), Trailer)
  {
    var head := [Header1, Header2, ""];
    var tail := [ExportLine, ""];
    JoinFront(Framed(body), "\n", "");
    assert Preamble + "" == Preamble;
    assert Framed(body) == (head + body) + tail;
    JoinBack(head + body, ExportLine, "\n");
  }

  /** The fixed lines of the file are single lines. */
  lemma FixedLinesHaveNoNewline()
    ensures '\n' !in Header1 && '\n' !in Header2 && '\n' !in ExportLine
  {
  }

  /** The array that is joined with newlines to form the file. */
  function Elements(rootDir: string, refs: seq<Reference>, decls: seq<string>, relative: Relativize): (r: seq<string>)
    ensures |r| == 5 + |refs| + |decls|
    ensures r[0] == Header1 && r[1] == Header2 && r[2] == ""
    ensures forall i :: 0 <= i < |refs| ==> r[3 + i] == ReferenceLine(rootDir, refs[i], relative)
    ensures forall j :: 0 <= j < |decls| ==> r[3 + |refs| + j] == decls[j]
    ensures r[|r| - 2] == ExportLine && r[|r| - 1] == ""
  {
    var lines := seq(|refs|, i requires 0 <= i < |refs| => ReferenceLine(rootDir, refs[i], relative));
    Framed(lines + decls)
  }

  /** The text written to `nuxt.d.ts`. */
  function Render(rootDir: string, refs: seq<Reference>, decls: seq<string>, relative: Relativize): (text: string)
    ensures Preamble <= text
    ensures EndsWith(text, Trailer)
  {
    var lines := seq(|refs|, i requires 0 <= i < |refs| => ReferenceLine(rootDir, refs[i], relative));
    FramedText(lines + decls);
    Join(Elements(rootDir, refs, decls, relative), "\n")
  }

  /** The first reference line comes right after the preamble. */
  lemma RenderFirstLine(rootDir: string, refs: seq<Reference>, decls: seq<string>, relative: Relativize)
    requires |refs| > 0
    ensures Preamble + ReferenceLine(rootDir, refs[0], relative) + "\n" <= Render(rootDir, refs, decls, relative)
  {
    FirstAfterHeader(Elements(rootDir, refs, decls, relative), Header1, Header2,
                     ReferenceLine(rootDir, refs[0], relative));
  }

  /** Joined elements that start with two lines, an empty line and then `line`
      start with those lines, each followed by a newline, then `line` and a newline. */
  lemma FirstAfterHeader(elements: seq<string>, h1: string, h2: string, line: string)
    requires |elements| >= 5 && elements[0] == h1 && elements[1] == h2 && elements[2] == ""
    requires elements[3] == line
    ensures h1 + "\n" + h2 + "\n" + "\n" + line + "\n" <= Join(elements, "\n")
  {
    JoinFromFourth(elements, line);
    JoinFront(elements, "\n", line + "\n");
    var pre := h1 + "\n" + h2 + "\n" + "\n";
    assert pre + (line + "\n") == pre + line + "\n";
  }

  /** When the fourth element is `line` and more follow, joining from the fourth
      element on starts with `line` and a newline. */
  lemma JoinFromFourth(elements: seq<string>, line: string)
    requires |elements| >= 5 && elements[3] == line
    ensures line + "\n" <= Join(elements[3..], "\n")
  {
    var rest := elements[3..];
    JoinTailPrefix(rest, "\n", "");
    assert line + "\n" + "" == line + "\n";
  }

  /** When no element contains a newline, the file's lines are exactly the
      elements: splitting the text on newlines gives them back one by one. */
  lemma RenderLines(rootDir: string, refs: seq<Reference>, decls: seq<string>, relative: Relativize)
    requires forall i :: 0 <= i < |refs| ==> '\n' !in ReferenceLine(rootDir, refs[i], relative)
    requires forall j :: 0 <= j < |decls| ==> '\n' !in decls[j]
    ensures Split(Render(rootDir, refs, decls, relative), '\n') == Elements(rootDir, refs, decls, relative)
    ensures |Split(Render(rootDir, refs, decls, relative), '\n')| == 5 + |refs| + |decls|
  {
    var elements := Elements(rootDir, refs, decls, relative);
    forall k | 0 <= k < |elements|
      ensures '\n' !in elements[k]
    {
      FixedLinesHaveNoNewline();
      if 3 <= k < 3 + |refs| {
        assert elements[k] == ReferenceLine(rootDir, refs[k - 3], relative);
      } else if 3 + |refs| <= k < 3 + |refs| + |decls| {
        assert elements[k] == decls[k - 3 - |refs|];
      }
    }
    SplitJoin(elements, '\n');
  }

  /** Two `relative` functions that agree on every path value present give the
      same text: the output depends on nothing but the inputs. */
  lemma RenderDependsOnPathsOnly(rootDir: string, refs: seq<Reference>, decls: seq<string>,
                                 relative1: Relativize, relative2: Relativize)
    requires forall i, k :: 0 <= i < |refs| && 0 <= k < |refs[i].entries| && refs[i].entries[k].key == PathKey ==>
      relative1(rootDir, refs[i].entries[k].value) == relative2(rootDir, refs[i].entries[k].value)
    ensures Render(rootDir, refs, decls, relative1) == Render(rootDir, refs, decls, relative2)
  {
    forall i | 0 <= i < |refs|
      ensures RewritePath(rootDir, refs[i], relative1) == RewritePath(rootDir, refs[i], relative2)
    {
      var r1 := RewritePath(rootDir, refs[i], relative1);
      var r2 := RewritePath(rootDir, refs[i], relative2);
      assert r1.entries == r2.entries;
    }
    assert Elements(rootDir, refs, decls, relative1) == Elements(rootDir, refs, decls, relative2);
  }

  /** A one-entry reference renders as one attribute; a `path` value is made
      relative first. */
  lemma SingleEntryLine(rootDir: string, key: string, value: AttrValue, relative: Relativize)
    ensures ReferenceLine(rootDir, Reference([Attr(key, value)]), relative)
      == RefOpen + RenderAttr(key, if key == PathKey then Str(relative(rootDir, value)) else value) + RefClose
  {
    var v := if key == PathKey then Str(relative(rootDir, value)) else value;
    var rewritten := RewritePath(rootDir, Reference([Attr(key, value)]), relative);
    assert rewritten.entries == [Attr(key, v)];
    assert AttrParts(rewritten.entries) == [RenderAttr(key, v)];
  }

  /** A `{ path }` reference under the project root renders with the relative path. */
  lemma PathReferenceExample(relative: Relativize)
    requires relative("/abs/project", Str("/abs/project/types/foo.d.ts")) == "types/foo.d.ts"
    ensures ReferenceLine("/abs/project", Reference([Attr(PathKey, Str("/abs/project/types/foo.d.ts"))]), relative)
      == "/// <reference path=\"types/foo.d.ts\" />"
  {
    SingleEntryLine("/abs/project", PathKey, Str("/abs/project/types/foo.d.ts"), relative);
    var rel := "types/foo.d.ts";
    assert Truthy(Str(rel));
    assert RenderAttr(PathKey, Str(rel)) == PathKey + "=\"" + rel + "\"";
    PathLineLiteral();
  }

  /** The directive text of the example above, assembled from its pieces. */
  lemma PathLineLiteral()
    ensures RefOpen + (PathKey + "=\"" + "types/foo.d.ts" + "\"") + RefClose
      == "/// <reference path=\"types/foo.d.ts\" />"
  {
  }
}
