/** HCL source as a tree, and the masker against it: scanning the text of a tree gives the mask that
    the tree's structure says. The forms are those of the HCL Native Syntax Specification: comments,
    quoted templates with their escapes and interpolations, and heredoc templates. */
module HclGrammar {
  import opened Common
  import opened HclMask

  datatype Doc =
    | End
    | Code(c: char, after: Doc)
    | LineComment(opener: string, text: string, after: Doc)
    | BlockComment(text: string, after: Doc)
    | Quote(parts: Parts, after: Doc)
    | Braces(body: Doc, after: Doc)
    | Heredoc(dash: string, tag: string, opening: string, lines: seq<string>, indent: string, trailing: string, after: Doc)

  datatype Parts =
    | Close
    | Text(c: char, rest: Parts)
    | Escape(c: char, rest: Parts)
    | Literal(marker: char, rest: Parts)
    | Template(marker: char, body: Doc, rest: Parts)

  // ---------------------------------------------------------------- the text of a tree

  function RenderLines(lines: seq<string>): string {
    if lines == [] then "" else lines[0] + "\n" + RenderLines(lines[1..])
  }

  function HeredocText(dash: string, tag: string, opening: string, lines: seq<string>, closing: string): string {
    "<<" + dash + tag + opening + "\n" + RenderLines(lines) + closing
  }

  function Render(d: Doc): string {
    match d
    case End => ""
    case Code(c, after) => [c] + Render(after)
    case LineComment(opener, text, after) => opener + text + Render(after)
    case BlockComment(text, after) => "/*" + text + "*/" + Render(after)
    case Quote(parts, after) => "\"" + RenderParts(parts) + Render(after)
    case Braces(body, after) => "{" + Render(body) + "}" + Render(after)
    case Heredoc(dash, tag, opening, lines, indent, trailing, after) =>
      HeredocText(dash, tag, opening, lines, indent + tag + trailing) + Render(after)
  }

  function RenderParts(p: Parts): string {
    match p
    case Close => "\""
    case Text(c, rest) => [c] + RenderParts(rest)
    case Escape(c, rest) => ['\\', c] + RenderParts(rest)
    case Literal(m, rest) => [m, m, '{'] + RenderParts(rest)
    case Template(m, body, rest) => [m, '{'] + Render(body) + "}" + RenderParts(rest)
  }

  // ---------------------------------------------------------------- the mask of a tree

  /** Code, delimiters and template markers stay; comments, heredocs and literal text are blanked. */
  function Mask(d: Doc): string {
    match d
    case End => ""
    case Code(c, after) => [c] + Mask(after)
    case LineComment(opener, text, after) => Blank(opener + text) + Mask(after)
    case BlockComment(text, after) => Blank("/*" + text + "*/") + Mask(after)
    case Quote(parts, after) => "\"" + MaskParts(parts) + Mask(after)
    case Braces(body, after) => "{" + Mask(body) + "}" + Mask(after)
    case Heredoc(dash, tag, opening, lines, indent, trailing, after) =>
      Blank(HeredocText(dash, tag, opening, lines, indent + tag + trailing)) + Mask(after)
  }

  function MaskParts(p: Parts): string {
    match p
    case Close => "\""
    case Text(c, rest) => Blank([c]) + MaskParts(rest)
    case Escape(c, rest) => Blank(['\\', c]) + MaskParts(rest)
    case Literal(m, rest) => Blank([m, m, '{']) + MaskParts(rest)
    case Template(m, body, rest) => [m, '{'] + Mask(body) + "}" + MaskParts(rest)
  }

  // ---------------------------------------------------------------- which trees are source

  /** A character of code that starts no comment, string or heredoc, nor a brace pair where those nest. */
  predicate PlainCode(s: string, inner: bool)
    requires s != []
  {
    && s[0] != '#' && s[0] != '"' && !("//" <= s) && !("/*" <= s) && Opener(s).None?
    && (inner ==> s[0] != '{' && s[0] != '}')
  }

  /** A character of text that starts no escape, interpolation or closing quote. */
  predicate PlainText(s: string)
    requires s != []
  {
    s[0] != '\\' && s[0] != '"' && !("${" <= s) && !("%{" <= s) && !("$${" <= s) && !("%%{" <= s)
  }

  predicate Marker(c: char) { c == '$' || c == '%' }

  predicate EndsLine(follow: string) { follow == [] || follow[0] == '\n' }

  /** No `* /` ends the comment early, not even one that its own closer would complete. */
  predicate Unclosed(text: string) {
    forall k :: 0 <= k < |text| ==> !(text[k] == '*' && (text + "*")[k + 1] == '/')
  }

  predicate IsTag(tag: string) { tag != [] && TagStart(tag[0]) && forall k :: 0 <= k < |tag| ==> TagChar(tag[k]) }

  predicate Spaces(s: string) { forall k :: 0 <= k < |s| ==> Space(s[k]) }

  predicate HeredocShape(dash: string, tag: string, opening: string, lines: seq<string>, indent: string, trailing: string) {
    && (dash == "" || dash == "-") && IsTag(tag)
    && '\n' !in opening && (opening != [] ==> !TagChar(opening[0]))
    && (forall k :: 0 <= k < |lines| ==> '\n' !in lines[k] && !Terminates(lines[k], tag))
    && Spaces(indent) && Spaces(trailing)
  }

  /** The tree is what its text says when `tail` follows; `inner` is inside an interpolation. */
  predicate Source(d: Doc, inner: bool, tail: string) {
    match d
    case End => true
    case Code(c, after) => Source(after, inner, tail) && PlainCode([c] + (Render(after) + tail), inner)
    case LineComment(opener, text, after) =>
      Source(after, inner, tail) && opener in ["#", "//"] && '\n' !in text && EndsLine(Render(after) + tail)
    case BlockComment(text, after) => Source(after, inner, tail) && Unclosed(text)
    case Quote(parts, after) => Source(after, inner, tail) && SourceParts(parts, Render(after) + tail)
    case Braces(body, after) => inner && Source(after, true, tail) && Source(body, true, "}" + (Render(after) + tail))
    case Heredoc(dash, tag, opening, lines, indent, trailing, after) =>
      Source(after, inner, tail) && HeredocShape(dash, tag, opening, lines, indent, trailing) && EndsLine(Render(after) + tail)
  }

  predicate SourceParts(p: Parts, tail: string) {
    match p
    case Close => true
    case Text(c, rest) => SourceParts(rest, tail) && PlainText([c] + (RenderParts(rest) + tail))
    case Escape(c, rest) => SourceParts(rest, tail)
    case Literal(m, rest) => SourceParts(rest, tail) && Marker(m)
    case Template(m, body, rest) =>
      SourceParts(rest, tail) && Marker(m) && Source(body, true, "}" + (RenderParts(rest) + tail))
  }

  // ---------------------------------------------------------------- what single turns take

  /** One turn that takes exactly `piece`. */
  lemma Piece(piece: string, follow: string, stack: seq<Context>, t: HclMask.Turn)
    requires piece != [] && t == Take(piece + follow, stack) && t.len == |piece|
    ensures Scan(piece + follow, stack) == (if t.hides then Blank(piece) else piece) + Scan(follow, t.stack)
    ensures Open(piece + follow, stack) == Open(follow, t.stack)
    ensures Whole(piece + follow, stack) ==> (Closes(piece + follow, stack) <==> Closes(follow, t.stack))
  {
    ScanUnfolds(piece + follow, stack);
    ClosesUnfolds(piece + follow, stack);
    assert (piece + follow)[..|piece|] == piece && (piece + follow)[|piece|..] == follow;
  }

  lemma ClosesUnfolds(s: string, stack: seq<Context>)
    requires s != []
    ensures Closes(s, stack) <==> Whole(s, stack) && Closes(s[Take(s, stack).len..], Take(s, stack).stack)
  {
  }

  lemma LineEndAfter(line: string, follow: string)
    requires '\n' !in line && EndsLine(follow)
    ensures LineEnd(line + follow) == |line| && (line + follow)[..|line|] == line
  {
    var s := line + follow;
    assert s[..|line|] == line;
    var n := LineEnd(s);
    var k := if n <= |line| then 0 else |line|;
    assert 0 < n ==> s[..n][k] == s[k];
  }

  lemma LineCommentTakes(opener: string, text: string, follow: string, stack: seq<Context>)
    requires opener in ["#", "//"] && '\n' !in text && EndsLine(follow) && Top(stack) != Some(Str)
    ensures Take(opener + text + follow, stack) == HclMask.Turn(|opener + text|, true, stack)
    ensures Whole(opener + text + follow, stack)
  {
    LineEndAfter(opener + text, follow);
    var s := opener + text + follow;
    if opener == "//" { assert "//" <= s && s[1] == '/'; }
  }

  lemma {:induction false} BlockEndAfter(text: string, follow: string)
    requires Unclosed(text)
    ensures BlockEnd(text + "*/" + follow) == |text| + 2 && BlockCloses(text + "*/" + follow)
  {
    var s := text + "*/" + follow;
    if text != [] {
      assert s[1..] == text[1..] + "*/" + follow;
      assert s[0] == text[0] && s[1] == (text + "*")[1];
      forall k | 0 <= k < |text[1..]| ensures !(text[1..][k] == '*' && (text[1..] + "*")[k + 1] == '/') {
        assert text[1..][k] == text[k + 1] && (text[1..] + "*")[k + 1] == (text + "*")[k + 2];
      }
      BlockEndAfter(text[1..], follow);
    }
  }

  lemma BlockCommentTakes(text: string, follow: string, stack: seq<Context>)
    requires Unclosed(text) && Top(stack) != Some(Str)
    ensures Take("/*" + text + "*/" + follow, stack) == HclMask.Turn(|text| + 4, true, stack)
    ensures Whole("/*" + text + "*/" + follow, stack)
  {
    var s := "/*" + text + "*/" + follow;
    assert s[0] == '/' && s[1] == '*' && "/*" <= s && s[2..] == text + "*/" + follow;
    BlockEndAfter(text, follow);
  }

  lemma {:induction false} TagRunAfter(tag: string, follow: string)
    requires (forall k :: 0 <= k < |tag| ==> TagChar(tag[k])) && (follow != [] ==> !TagChar(follow[0]))
    ensures TagRun(tag + follow) == |tag|
  {
    if tag == [] {
      assert tag + follow == follow;
    } else {
      assert (tag + follow)[1..] == tag[1..] + follow;
      TagRunAfter(tag[1..], follow);
    }
  }

  lemma {:induction false} TrimmedLeft(indent: string, rest: string)
    requires Spaces(indent) && rest != [] && !Space(rest[0])
    ensures TrimLeft(indent + rest) == rest
  {
    if indent == [] {
      assert indent + rest == rest;
    } else {
      assert (indent + rest)[1..] == indent[1..] + rest;
      TrimmedLeft(indent[1..], rest);
    }
  }

  lemma {:induction false} TrimmedRight(rest: string, trailing: string)
    requires Spaces(trailing) && rest != [] && !Space(rest[|rest| - 1])
    ensures TrimRight(rest + trailing) == rest
  {
    if trailing == [] {
      assert rest + trailing == rest;
    } else {
      var n := |rest + trailing| - 1;
      assert (rest + trailing)[..n] == rest + trailing[..|trailing| - 1];
      TrimmedRight(rest, trailing[..|trailing| - 1]);
    }
  }

  lemma ClosingLineTerminates(indent: string, tag: string, trailing: string)
    requires IsTag(tag) && Spaces(indent) && Spaces(trailing)
    ensures Terminates(indent + tag + trailing, tag) && '\n' !in indent + tag + trailing
  {
    assert indent + tag + trailing == indent + (tag + trailing);
    TrimmedLeft(indent, tag + trailing);
    TrimmedRight(tag, trailing);
    assert '\n' !in indent && '\n' !in tag && '\n' !in trailing;
  }

  lemma {:induction false} LeftSpaces(s: string) returns (a: string)
    ensures Spaces(a) && s == a + TrimLeft(s)
  {
    a := "";
    if s != [] && Space(s[0]) {
      var b := LeftSpaces(s[1..]);
      a := [s[0]] + b;
    }
  }

  lemma {:induction false} RightSpaces(s: string) returns (b: string)
    ensures Spaces(b) && s == TrimRight(s) + b
  {
    b := "";
    if s != [] && Space(s[|s| - 1]) {
      var a := RightSpaces(s[..|s| - 1]);
      b := a + [s[|s| - 1]];
    }
  }

  ghost predicate Padded(line: string, tag: string, indent: string, trailing: string) {
    Spaces(indent) && Spaces(trailing) && line == indent + tag + trailing
  }

  /** A heredoc ends at the lines that hold the tag between spaces and tabs, and at no others. */
  lemma TerminatorLines(line: string, tag: string)
    requires IsTag(tag)
    ensures Terminates(line, tag) <==> exists indent, trailing :: Padded(line, tag, indent, trailing)
  {
    if Terminates(line, tag) {
      var indent := LeftSpaces(line);
      var trailing := RightSpaces(TrimLeft(line));
      assert line == indent + tag + trailing;
      assert Padded(line, tag, indent, trailing);
    }
    if indent, trailing :| Padded(line, tag, indent, trailing) { ClosingLineTerminates(indent, tag, trailing); }
  }

  lemma DropDrop(s: string, a: nat, b: nat)
    requires a + b <= |s|
    ensures s[a..][b..] == s[a + b..]
  {
  }

  lemma PastNewline(line: string, rest: string)
    ensures var s := line + ("\n" + rest); |line| < |s| && s[|line|] == '\n' && s[|line| + 1..] == rest && EndsLine("\n" + rest)
  {
  }

  lemma FirstLineOf(lines: seq<string>, closing: string, follow: string)
    requires lines != []
    ensures RenderLines(lines) + closing + follow == lines[0] + ("\n" + (RenderLines(lines[1..]) + closing + follow))
  {
  }

  /** A line that does not terminate the heredoc is passed over. */
  lemma HeredocGoesOn(line: string, rest: string, tag: string)
    requires '\n' !in line && !Terminates(line, tag)
    ensures HeredocEnd(line + ("\n" + rest), tag) == |line| + 1 + HeredocEnd(rest, tag)
    ensures HeredocCloses(line + ("\n" + rest), tag) <==> HeredocCloses(rest, tag)
  {
    PastNewline(line, rest);
    LineEndAfter(line, "\n" + rest);
  }

  lemma HeredocStops(closing: string, follow: string, tag: string)
    requires '\n' !in closing && Terminates(closing, tag) && EndsLine(follow)
    ensures HeredocEnd(closing + follow, tag) == |closing| && HeredocCloses(closing + follow, tag)
  {
    LineEndAfter(closing, follow);
  }

  lemma {:induction false} HeredocEndsAt(lines: seq<string>, closing: string, follow: string, tag: string)
    requires forall k :: 0 <= k < |lines| ==> '\n' !in lines[k] && !Terminates(lines[k], tag)
    requires '\n' !in closing && Terminates(closing, tag) && EndsLine(follow)
    ensures HeredocEnd(RenderLines(lines) + closing + follow, tag) == |RenderLines(lines)| + |closing|
    ensures HeredocCloses(RenderLines(lines) + closing + follow, tag)
  {
    if lines == [] {
      assert RenderLines(lines) + closing == closing;
      HeredocStops(closing, follow, tag);
    } else {
      FirstLineOf(lines, closing, follow);
      HeredocGoesOn(lines[0], RenderLines(lines[1..]) + closing + follow, tag);
      HeredocEndsAt(lines[1..], closing, follow, tag);
    }
  }

  lemma OpenerAt(dash: string, tag: string, more: string)
    requires (dash == "" || dash == "-") && IsTag(tag) && (more != [] ==> !TagChar(more[0]))
    ensures var start := 2 + |dash|; Opener("<<" + dash + tag + more) == Some((start, start + |tag|))
  {
    var s, start := "<<" + dash + tag + more, 2 + |dash|;
    assert "<<" <= s && s[start..] == tag + more && s[start] == tag[0];
    assert dash == "" ==> s[2] == tag[0];
    TagRunAfter(tag, more);
  }

  lemma HeredocTakes(dash: string, tag: string, opening: string, lines: seq<string>, indent: string, trailing: string,
                     follow: string, stack: seq<Context>)
    requires HeredocShape(dash, tag, opening, lines, indent, trailing) && EndsLine(follow) && Top(stack) != Some(Str)
    ensures var text := HeredocText(dash, tag, opening, lines, indent + tag + trailing);
      Take(text + follow, stack) == HclMask.Turn(|text|, true, stack) && Whole(text + follow, stack)
  {
    ClosingLineTerminates(indent, tag, trailing);
    HeredocClosedTakes(dash, tag, opening, lines, indent + tag + trailing, follow, stack);
  }

  lemma HeredocClosedTakes(dash: string, tag: string, opening: string, lines: seq<string>, closing: string,
                           follow: string, stack: seq<Context>)
    requires HeredocShape(dash, tag, opening, lines, "", "") && EndsLine(follow) && Top(stack) != Some(Str)
    requires '\n' !in closing && Terminates(closing, tag)
    ensures var text := HeredocText(dash, tag, opening, lines, closing);
      Take(text + follow, stack) == HclMask.Turn(|text|, true, stack) && Whole(text + follow, stack)
  {
    var body := RenderLines(lines) + closing + follow;
    HeredocTextSplits(dash, tag, opening, lines, closing, follow);
    HeredocAt(dash, tag, opening, body, stack);
    HeredocEndsAt(lines, closing, follow, tag);
  }

  lemma HeredocAt(dash: string, tag: string, opening: string, body: string, stack: seq<Context>)
    requires (dash == "" || dash == "-") && IsTag(tag) && Top(stack) != Some(Str)
    requires '\n' !in opening && (opening != [] ==> !TagChar(opening[0]))
    ensures var s := "<<" + dash + tag + (opening + ("\n" + body));
      && Take(s, stack) == HclMask.Turn(2 + |dash| + |tag| + |opening| + 1 + HeredocEnd(body, tag), true, stack)
      && (HeredocCloses(body, tag) ==> Whole(s, stack))
  {
    var s := "<<" + dash + tag + (opening + ("\n" + body));
    OpenerAt(dash, tag, opening + ("\n" + body));
    Middle("<<" + dash, tag, opening + ("\n" + body));
    HeredocFrom(s, stack, 2 + |dash|, tag, opening, body);
  }

  lemma HeredocFrom(s: string, stack: seq<Context>, start: nat, tag: string, opening: string, body: string)
    requires Opener(s) == Some((start, start + |tag|)) && s[start..start + |tag|] == tag && Top(stack) != Some(Str)
    requires s[start + |tag|..] == opening + ("\n" + body) && '\n' !in opening
    ensures Take(s, stack) == HclMask.Turn(start + |tag| + |opening| + 1 + HeredocEnd(body, tag), true, stack)
    ensures HeredocCloses(body, tag) ==> Whole(s, stack)
  {
    var end := start + |tag|;
    BodyAfterLine(s, end, opening, body);
    TakeAtOpener(s, stack, start, end);
    HeredocLenAt(s, start, end, end + |opening|, tag, body);
    WholeAtOpener(s, stack, start, end, end + |opening|, tag, body);
  }

  lemma BodyAfterLine(s: string, end: nat, opening: string, body: string)
    requires end <= |s| && s[end..] == opening + ("\n" + body) && '\n' !in opening
    ensures end + |opening| < |s| && s[end + |opening| + 1..] == body && LineEnd(s[end..]) == |opening|
  {
    PastNewline(opening, body);
    LineEndAfter(opening, "\n" + body);
    DropDrop(s, end, |opening| + 1);
  }

  lemma HeredocLenAt(s: string, start: nat, end: nat, j: nat, tag: string, body: string)
    requires start <= end <= |s| && j == end + LineEnd(s[end..]) && j < |s| && body == s[j + 1..] && tag == s[start..end]
    ensures HeredocLen(s, start, end) == j + 1 + HeredocEnd(body, tag)
  {
  }

  lemma OpensWithAngle(s: string)
    requires Opener(s).Some?
    ensures s != [] && s[0] == '<'
  {
  }

  lemma TakeAtOpener(s: string, stack: seq<Context>, start: nat, end: nat)
    requires Opener(s) == Some((start, end)) && Top(stack) != Some(Str)
    ensures Take(s, stack) == HclMask.Turn(HeredocLen(s, start, end), true, stack)
  {
    OpensWithAngle(s);
  }

  lemma WholeAtOpener(s: string, stack: seq<Context>, start: nat, end: nat, j: nat, tag: string, body: string)
    requires Opener(s) == Some((start, end)) && Top(stack) != Some(Str)
    requires j == end + LineEnd(s[end..]) && j < |s| && body == s[j + 1..] && tag == s[start..end]
    ensures Whole(s, stack) <==> HeredocCloses(body, tag)
  {
    OpensWithAngle(s);
  }

  lemma HeredocTextSplits(dash: string, tag: string, opening: string, lines: seq<string>, closing: string, follow: string)
    ensures HeredocText(dash, tag, opening, lines, closing) + follow
         == "<<" + dash + tag + (opening + ("\n" + (RenderLines(lines) + closing + follow)))
    ensures |HeredocText(dash, tag, opening, lines, closing)|
         == 2 + |dash| + |tag| + |opening| + 1 + |RenderLines(lines)| + |closing|
  {
  }

  lemma Middle(a: string, b: string, c: string)
    ensures (a + b + c)[|a|..|a| + |b|] == b && (a + b + c)[|a| + |b|..] == c
  {
  }

  // ---------------------------------------------------------------- the scanner gives the tree's mask

  ghost predicate Fits(inner: bool, stack: seq<Context>) {
    Top(stack) == if inner then Some(Interp) else None
  }

  /** Scanning `text` gives `mask` and leaves `after`, whatever follows being scanned from there. */
  ghost predicate Masks(text: string, mask: string, tail: string, stack: seq<Context>, after: seq<Context>) {
    && Scan(text + tail, stack) == mask + Scan(tail, after) && Open(text + tail, stack) == Open(tail, after)
    && (Closes(text + tail, stack) <==> Closes(tail, after))
  }

  lemma Chain(a: string, ma: string, b: string, mb: string, tail: string, s0: seq<Context>, s1: seq<Context>, s2: seq<Context>)
    requires Masks(a, ma, b + tail, s0, s1) && Masks(b, mb, tail, s1, s2)
    ensures Masks(a + b, ma + mb, tail, s0, s2)
  {
    Regroup(a, b, tail);
    Regroup(ma, mb, Scan(tail, s2));
  }

  lemma PieceMasks(piece: string, follow: string, stack: seq<Context>, t: HclMask.Turn)
    requires piece != [] && t == Take(piece + follow, stack) && t.len == |piece| && Whole(piece + follow, stack)
    ensures Masks(piece, if t.hides then Blank(piece) else piece, follow, stack, t.stack)
  {
    Piece(piece, follow, stack, t);
  }

  /** A character of text, an escape, or an escaped marker: blanked, and still inside the literal. */
  lemma TextMasks(piece: string, follow: string, stack: seq<Context>)
    requires || (|piece| == 1 && PlainText(piece + follow)) || (|piece| == 2 && piece[0] == '\\')
             || (|piece| == 3 && Marker(piece[0]) && piece[1] == piece[0] && piece[2] == '{')
    ensures Masks(piece, Blank(piece), follow, stack + [Str], stack + [Str])
  {
    var s := piece + follow;
    assert |piece| == 3 ==> s[..3] == piece && ("$${" <= s || "%%{" <= s);
    PieceMasks(piece, follow, stack + [Str], HclMask.Turn(|piece|, true, stack + [Str]));
  }

  lemma QuoteMasks(follow: string, stack: seq<Context>, inside: bool)
    requires !inside ==> Top(stack) != Some(Str)
    ensures inside ==> Masks("\"", "\"", follow, stack + [Str], stack)
    ensures !inside ==> Masks("\"", "\"", follow, stack, stack + [Str])
  {
    if inside {
      PieceMasks("\"", follow, stack + [Str], HclMask.Turn(1, false, stack));
    } else {
      PieceMasks("\"", follow, stack, HclMask.Turn(1, false, stack + [Str]));
    }
  }

  lemma BraceMasks(follow: string, stack: seq<Context>)
    ensures Masks("}", "}", follow, stack + [Interp], stack)
    ensures Top(stack) == Some(Interp) ==> Masks("{", "{", follow, stack, stack + [Interp])
  {
    assert ("}" + follow)[0] == '}' && ("{" + follow)[0] == '{';
    PieceMasks("}", follow, stack + [Interp], HclMask.Turn(1, false, stack));
    if Top(stack) == Some(Interp) { PieceMasks("{", follow, stack, HclMask.Turn(1, false, stack + [Interp])); }
  }

  lemma MarkerMasks(m: char, follow: string, stack: seq<Context>)
    requires Marker(m)
    ensures Masks([m, '{'], [m, '{'], follow, stack + [Str], stack + [Str] + [Interp])
  {
    var s := [m, '{'] + follow;
    assert s[0] == m && s[1] == '{' && s[..2] == [m, '{'];
    PieceMasks([m, '{'], follow, stack + [Str], HclMask.Turn(2, false, stack + [Str] + [Interp]));
  }

  /** One delimited stretch between an opener and a closer. */
  lemma Enclosed(o: string, body: string, mb: string, c: string, rest: string, mr: string, tail: string,
                 s0: seq<Context>, s1: seq<Context>, s2: seq<Context>)
    requires Masks(o, o, body + (c + (rest + tail)), s0, s1) && Masks(body, mb, c + (rest + tail), s1, s1)
    requires Masks(c, c, rest + tail, s1, s0) && Masks(rest, mr, tail, s0, s2)
    ensures Masks(o + body + c + rest, o + mb + c + mr, tail, s0, s2)
  {
    Chain(c, c, rest, mr, tail, s1, s0, s2);
    Regroup(c, rest, tail);
    Chain(body, mb, c + rest, c + mr, tail, s1, s1, s2);
    Regroup(body, c + rest, tail);
    Chain(o, o, body + (c + rest), mb + (c + mr), tail, s0, s1, s2);
    Regroup4(o, body, c, rest);
    Regroup4(o, mb, c, mr);
  }

  lemma Regroup(a: string, b: string, c: string)
    ensures a + b + c == a + (b + c)
  {
  }

  lemma Regroup4(a: string, b: string, c: string, d: string)
    ensures a + (b + (c + d)) == a + b + c + d
  {
  }

  lemma {:induction false} ScanIsMask(d: Doc, inner: bool, tail: string, stack: seq<Context>)
    requires Source(d, inner, tail) && Fits(inner, stack)
    ensures Masks(Render(d), Mask(d), tail, stack, stack)
    decreases d
  {
    match d
    case End => NothingMasks(tail, stack);
    case Code(c, after) =>
      ScanIsMask(after, inner, tail, stack);
      CodeTakes(c, Render(after) + tail, inner, stack);
      PieceThen([c], false, Render(after), Mask(after), tail, stack);
    case LineComment(opener, text, after) =>
      ScanIsMask(after, inner, tail, stack);
      LineCommentTakes(opener, text, Render(after) + tail, stack);
      PieceThen(opener + text, true, Render(after), Mask(after), tail, stack);
    case BlockComment(text, after) =>
      ScanIsMask(after, inner, tail, stack);
      BlockCommentTakes(text, Render(after) + tail, stack);
      PieceThen("/*" + text + "*/", true, Render(after), Mask(after), tail, stack);
    case Quote(parts, after) =>
      ScanIsMask(after, inner, tail, stack);
      ScanIsMaskParts(parts, Render(after) + tail, stack);
      QuoteAround(RenderParts(parts), MaskParts(parts), Render(after), Mask(after), tail, stack);
    case Braces(body, after) =>
      ScanIsMask(after, true, tail, stack);
      ScanIsMask(body, true, "}" + (Render(after) + tail), stack + [Interp]);
      BracesAround(Render(body), Mask(body), Render(after), Mask(after), tail, stack);
    case Heredoc(dash, tag, opening, lines, indent, trailing, after) =>
      ScanIsMask(after, inner, tail, stack);
      HeredocTakes(dash, tag, opening, lines, indent, trailing, Render(after) + tail, stack);
      PieceThen(HeredocText(dash, tag, opening, lines, indent + tag + trailing), true, Render(after), Mask(after), tail, stack);
  }

  lemma NothingMasks(tail: string, stack: seq<Context>)
    ensures Masks("", "", tail, stack, stack)
  {
    assert "" + tail == tail && "" + Scan(tail, stack) == Scan(tail, stack);
  }

  lemma CodeTakes(c: char, follow: string, inner: bool, stack: seq<Context>)
    requires PlainCode([c] + follow, inner) && Fits(inner, stack)
    ensures Take([c] + follow, stack) == HclMask.Turn(1, false, stack) && Whole([c] + follow, stack)
  {
  }

  /** A piece that one turn takes without changing the context, and what comes after it. */
  lemma PieceThen(piece: string, hides: bool, rest: string, mr: string, tail: string, stack: seq<Context>)
    requires piece != [] && Take(piece + (rest + tail), stack) == HclMask.Turn(|piece|, hides, stack)
    requires Whole(piece + (rest + tail), stack) && Masks(rest, mr, tail, stack, stack)
    ensures Masks(piece + rest, (if hides then Blank(piece) else piece) + mr, tail, stack, stack)
  {
    PieceMasks(piece, rest + tail, stack, HclMask.Turn(|piece|, hides, stack));
    Chain(piece, if hides then Blank(piece) else piece, rest, mr, tail, stack, stack, stack);
  }

  lemma QuoteAround(parts: string, mp: string, rest: string, mr: string, tail: string, stack: seq<Context>)
    requires Top(stack) != Some(Str) && Masks(parts, mp, rest + tail, stack + [Str], stack) && Masks(rest, mr, tail, stack, stack)
    ensures Masks("\"" + parts + rest, "\"" + mp + mr, tail, stack, stack)
  {
    QuoteMasks(parts + (rest + tail), stack, false);
    Chain("\"", "\"", parts, mp, rest + tail, stack, stack + [Str], stack);
    Chain("\"" + parts, "\"" + mp, rest, mr, tail, stack, stack, stack);
  }

  lemma BracesAround(body: string, mb: string, rest: string, mr: string, tail: string, stack: seq<Context>)
    requires Top(stack) == Some(Interp) && Masks(rest, mr, tail, stack, stack)
    requires Masks(body, mb, "}" + (rest + tail), stack + [Interp], stack + [Interp])
    ensures Masks("{" + body + "}" + rest, "{" + mb + "}" + mr, tail, stack, stack)
  {
    BraceMasks(rest + tail, stack);
    BraceMasks(body + ("}" + (rest + tail)), stack);
    Enclosed("{", body, mb, "}", rest, mr, tail, stack, stack + [Interp], stack);
  }

  lemma {:induction false} ScanIsMaskParts(p: Parts, tail: string, stack: seq<Context>)
    requires SourceParts(p, tail)
    ensures Masks(RenderParts(p), MaskParts(p), tail, stack + [Str], stack)
    decreases p
  {
    match p
    case Close => QuoteMasks(tail, stack, true);
    case Text(c, rest) => ScanIsMaskParts(rest, tail, stack); TextThen([c], rest, tail, stack);
    case Escape(c, rest) => ScanIsMaskParts(rest, tail, stack); TextThen(['\\', c], rest, tail, stack);
    case Literal(m, rest) => ScanIsMaskParts(rest, tail, stack); TextThen([m, m, '{'], rest, tail, stack);
    case Template(m, body, rest) => TemplateIsMask(m, body, rest, tail, stack);
  }

  lemma TextThen(piece: string, rest: Parts, tail: string, stack: seq<Context>)
    requires || (|piece| == 1 && PlainText(piece + (RenderParts(rest) + tail))) || (|piece| == 2 && piece[0] == '\\')
             || (|piece| == 3 && Marker(piece[0]) && piece[1] == piece[0] && piece[2] == '{')
    requires Masks(RenderParts(rest), MaskParts(rest), tail, stack + [Str], stack)
    ensures Masks(piece + RenderParts(rest), Blank(piece) + MaskParts(rest), tail, stack + [Str], stack)
  {
    TextMasks(piece, RenderParts(rest) + tail, stack);
    Chain(piece, Blank(piece), RenderParts(rest), MaskParts(rest), tail, stack + [Str], stack + [Str], stack);
  }

  lemma {:induction false} TemplateIsMask(m: char, body: Doc, rest: Parts, tail: string, stack: seq<Context>)
    requires SourceParts(rest, tail) && Marker(m) && Source(body, true, "}" + (RenderParts(rest) + tail))
    ensures Masks(RenderParts(Template(m, body, rest)), MaskParts(Template(m, body, rest)), tail, stack + [Str], stack)
    decreases Template(m, body, rest), 0
  {
    var follow := RenderParts(rest) + tail;
    ScanIsMaskParts(rest, tail, stack);
    ScanIsMask(body, true, "}" + follow, stack + [Str] + [Interp]);
    TemplateAround(m, Render(body), Mask(body), RenderParts(rest), MaskParts(rest), tail, stack);
  }

  lemma TemplateAround(m: char, body: string, mb: string, rest: string, mr: string, tail: string, stack: seq<Context>)
    requires Marker(m) && Masks(body, mb, "}" + (rest + tail), stack + [Str] + [Interp], stack + [Str] + [Interp])
    requires Masks(rest, mr, tail, stack + [Str], stack)
    ensures Masks([m, '{'] + body + "}" + rest, [m, '{'] + mb + "}" + mr, tail, stack + [Str], stack)
  {
    BraceMasks(rest + tail, stack + [Str]);
    MarkerMasks(m, body + ("}" + (rest + tail)), stack);
    Enclosed([m, '{'], body, mb, "}", rest, mr, tail, stack + [Str], stack + [Str] + [Interp], stack);
  }

  /** The scan of a whole document is its structural mask, and no context is left open. */
  lemma MaskFollowsStructure(d: Doc)
    requires Source(d, false, "")
    ensures Scan(Render(d), []) == Mask(d) && Open(Render(d), []) == []
  {
    ScanIsMask(d, false, "", []);
    assert Render(d) + "" == Render(d) && Mask(d) + Scan("", []) == Mask(d);
  }
}
