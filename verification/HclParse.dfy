/** The other direction of the grammar: every source the scanner finds closed is the text of a tree. */
module HclParse {
  import opened Common
  import opened HclMask
  import opened HclGrammar

  // ---------------------------------------------------------------- comments and heredocs

  /** A comment the scanner finds closed: its text, and what follows the closer. */
  lemma {:induction false} BlockApart(s: string) returns (text: string, follow: string)
    requires BlockCloses(s)
    ensures s == text + "*/" + follow && |text| + 2 == BlockEnd(s) && Unclosed(text)
    decreases |s|
  {
    if s[0] == '*' && s[1] == '/' {
      text, follow := "", s[2..];
      assert s == s[..2] + s[2..];
    } else {
      var more;
      more, follow := BlockApart(s[1..]);
      text := [s[0]] + more;
      BlockInFront(s, more, follow);
    }
  }

  lemma BlockInFront(s: string, more: string, follow: string)
    requires s != [] && s[1..] == more + "*/" + follow && Unclosed(more) && !(s[0] == '*' && s[1] == '/')
    ensures s == [s[0]] + more + "*/" + follow && Unclosed([s[0]] + more)
  {
    assert s == [s[0]] + s[1..];
    assert s[1] == (more + "*")[0];
    UnclosedInFront(s[0], more);
  }

  lemma UnclosedInFront(c: char, more: string)
    requires Unclosed(more) && !(c == '*' && (more + "*")[0] == '/')
    ensures Unclosed([c] + more)
  {
    var text := [c] + more;
    forall k | 0 <= k < |text| ensures !(text[k] == '*' && (text + "*")[k + 1] == '/') {
      assert (text + "*")[k + 1] == (more + "*")[k];
      if k > 0 { assert text[k] == more[k - 1]; }
    }
  }

  lemma {:induction false} TagOf(s: string)
    ensures forall k :: 0 <= k < TagRun(s) ==> TagChar(s[k])
    ensures TagRun(s) < |s| ==> !TagChar(s[TagRun(s)])
  {
    if s != [] && TagChar(s[0]) { TagOf(s[1..]); }
  }

  /** One line of the search for the terminator. */
  lemma BodyStep(s: string, tag: string) returns (line: string, rest: string)
    requires HeredocCloses(s, tag)
    ensures '\n' !in line
    ensures Terminates(line, tag) ==> s == line + rest && EndsLine(rest) && HeredocEnd(s, tag) == |line|
    ensures !Terminates(line, tag) ==>
              && s == line + ("\n" + rest) && HeredocCloses(rest, tag)
              && HeredocEnd(s, tag) == |line| + 1 + HeredocEnd(rest, tag)
  {
    var e := LineEnd(s);
    FirstLine(s);
    line, rest := s[..e], if Terminates(s[..e], tag) then s[e..] else s[e + 1..];
  }

  lemma SplitBefore(s: string, e: nat)
    requires e < |s|
    ensures s[e..] == [s[e]] + s[e + 1..] && s == s[..e] + s[e..]
  {
  }

  lemma FirstLine(s: string)
    ensures var e := LineEnd(s);
      '\n' !in s[..e] && s == s[..e] + s[e..] && EndsLine(s[e..]) && (e < |s| ==> s == s[..e] + ("\n" + s[e + 1..]))
  {
    var e := LineEnd(s);
    if e < |s| {
      SplitBefore(s, e);
      assert s[e..][0] == s[e] == '\n';
    } else {
      assert s[e..] == "" && s[..e] == s;
    }
  }

  ghost predicate BodyOnly(lines: seq<string>, tag: string) {
    forall k :: 0 <= k < |lines| ==> '\n' !in lines[k] && !Terminates(lines[k], tag)
  }

  lemma BodyInFront(line: string, more: seq<string>, tag: string)
    requires BodyOnly(more, tag) && '\n' !in line && !Terminates(line, tag)
    ensures BodyOnly([line] + more, tag)
  {
  }

  /** The lines of a heredoc's body, the line that closes it, and what follows. */
  lemma {:induction false} BodyLines(s: string, tag: string) returns (lines: seq<string>, closing: string, follow: string)
    requires HeredocCloses(s, tag)
    ensures BodyOnly(lines, tag) && '\n' !in closing && Terminates(closing, tag) && EndsLine(follow)
    ensures s == RenderLines(lines) + closing + follow && |RenderLines(lines)| + |closing| == HeredocEnd(s, tag)
    decreases |s|
  {
    var line, rest := BodyStep(s, tag);
    if Terminates(line, tag) {
      lines, closing, follow := [], line, rest;
      assert RenderLines(lines) + closing == closing;
    } else {
      var more;
      more, closing, follow := BodyLines(rest, tag);
      BodyInFront(line, more, tag);
      lines := [line] + more;
      LinesBuilt(line, more, closing, follow);
    }
  }

  lemma LinesBuilt(line: string, more: seq<string>, closing: string, follow: string)
    ensures var lines := [line] + more;
      && line + ("\n" + (RenderLines(more) + closing + follow)) == RenderLines(lines) + closing + follow
      && |RenderLines(lines)| == |line| + 1 + |RenderLines(more)|
  {
    var lines := [line] + more;
    assert lines[1..] == more;
    FirstLineOf(lines, closing, follow);
  }

  predicate OpeningShape(dash: string, tag: string, opening: string) {
    (dash == "" || dash == "-") && IsTag(tag) && '\n' !in opening && (opening != [] ==> !TagChar(opening[0]))
  }

  lemma OpeningText(s: string, start: nat, end: nat, j: nat)
    requires Opener(s) == Some((start, end)) && j == end + LineEnd(s[end..]) && j < |s|
    ensures s == "<<" + s[2..start] + s[start..end] + (s[end..][..j - end] + ("\n" + s[j + 1..]))
    ensures OpeningShape(s[2..start], s[start..end], s[end..][..j - end])
  {
    TagApart(s, start, end);
    OpeningApart(s, end, j);
  }

  /** The body of a heredoc the scanner finds terminated, and how long the whole is. */
  lemma BodyApart(s: string, stack: seq<Context>, start: nat, end: nat, j: nat)
    returns (lines: seq<string>, closing: string, follow: string)
    requires Opener(s) == Some((start, end)) && Whole(s, stack) && Top(stack) != Some(Str) && j == end + LineEnd(s[end..])
    ensures j < |s| && s[j + 1..] == RenderLines(lines) + closing + follow && EndsLine(follow)
    ensures BodyOnly(lines, s[start..end]) && '\n' !in closing && Terminates(closing, s[start..end])
    ensures HeredocLen(s, start, end) == j + 1 + |RenderLines(lines)| + |closing|
  {
    HeredocCloseFound(s, stack, start, end);
    lines, closing, follow := MeasuredBody(s, start, end, j, s[j + 1..], s[start..end]);
  }

  lemma MeasuredBody(s: string, start: nat, end: nat, j: nat, body: string, tag: string)
    returns (lines: seq<string>, closing: string, follow: string)
    requires start <= end <= |s| && j == end + LineEnd(s[end..]) && j < |s| && body == s[j + 1..] && tag == s[start..end]
    requires HeredocCloses(body, tag)
    ensures body == RenderLines(lines) + closing + follow && EndsLine(follow)
    ensures BodyOnly(lines, tag) && '\n' !in closing && Terminates(closing, tag)
    ensures HeredocLen(s, start, end) == j + 1 + |RenderLines(lines)| + |closing|
  {
    lines, closing, follow := BodyLines(body, tag);
    HeredocLenAt(s, start, end, j, tag, body);
  }

  /** Such a heredoc taken apart. */
  lemma HeredocApart(s: string, stack: seq<Context>, start: nat, end: nat)
    returns (dash: string, tag: string, opening: string, lines: seq<string>, closing: string, follow: string)
    requires Opener(s) == Some((start, end)) && Whole(s, stack) && Top(stack) != Some(Str)
    ensures OpeningShape(dash, tag, opening) && BodyOnly(lines, tag)
    ensures '\n' !in closing && Terminates(closing, tag) && EndsLine(follow)
    ensures s == HeredocText(dash, tag, opening, lines, closing) + follow
    ensures |HeredocText(dash, tag, opening, lines, closing)| == HeredocLen(s, start, end)
  {
    var j := end + LineEnd(s[end..]);
    lines, closing, follow := BodyApart(s, stack, start, end, j);
    OpeningText(s, start, end, j);
    dash, tag, opening := s[2..start], s[start..end], s[end..][..j - end];
    HeredocTextSplits(dash, tag, opening, lines, closing, follow);
  }

  lemma HeredocCloseFound(s: string, stack: seq<Context>, start: nat, end: nat)
    requires Opener(s) == Some((start, end)) && Whole(s, stack) && Top(stack) != Some(Str)
    ensures var j := end + LineEnd(s[end..]); j < |s| && HeredocCloses(s[j + 1..], s[start..end])
  {
    OpensWithAngle(s);
  }

  lemma OpeningApart(s: string, end: nat, j: nat)
    requires end <= |s| && j == end + LineEnd(s[end..]) && j < |s|
    ensures var opening := s[end..][..j - end]; s[end..] == opening + ("\n" + s[j + 1..]) && '\n' !in opening
    ensures j > end ==> s[end..][..j - end][0] == s[end..][0]
  {
    DropDrop(s, end, j - end + 1);
  }

  lemma FourPieces(s: string, a: nat, b: nat, c: nat)
    requires a <= b <= c <= |s|
    ensures s == s[..a] + s[a..b] + s[b..c] + s[c..]
  {
  }

  lemma SliceAt(s: string, from: nat, n: nat)
    requires from + n <= |s|
    ensures s[from..][..n] == s[from..from + n] && (from + n < |s| ==> s[from..][n] == s[from + n] == s[from + n..][0])
  {
  }

  /** What an opener's tag is made of. */
  lemma TagIsTag(rest: string)
    requires rest != [] && TagStart(rest[0])
    ensures var n := TagRun(rest); n <= |rest| && IsTag(rest[..n]) && (n < |rest| ==> !TagChar(rest[n]))
  {
    TagOf(rest);
    var tag := rest[..TagRun(rest)];
    assert tag != [] && tag[0] == rest[0];
    assert forall k :: 0 <= k < |tag| ==> tag[k] == rest[k];
  }

  lemma TagApart(s: string, start: nat, end: nat)
    requires Opener(s) == Some((start, end))
    ensures (s[2..start] == "" || s[2..start] == "-") && IsTag(s[start..end]) && s == "<<" + s[2..start] + s[start..end] + s[end..]
    ensures s[end..] != [] ==> !TagChar(s[end..][0])
  {
    var rest := s[start..];
    assert rest != [] && rest[0] == s[start] && end - start == TagRun(rest);
    TagIsTag(rest);
    SliceAt(s, start, end - start);
    FourPieces(s, 2, start, end);
    assert s[..2] == "<<";
    assert s[2..start] == if start == 3 then [s[2]] else "";
  }

  // ---------------------------------------------------------------- reading a tree

  /** The stack inside a document: an interpolation's on top of `outer`, or at the top of the source. */
  function Here(inner: bool, outer: seq<Context>): seq<Context> { if inner then outer + [Interp] else [] }

  /** What follows a document: the closing brace inside an interpolation, nothing at the top. */
  function Tail(inner: bool, rest: string): string { if inner then "}" + rest else "" }

  /** The text of a tree and what follows it. */
  ghost predicate Spells(s: string, d: Doc, inner: bool, tail: string) { s == Render(d) + tail && Source(d, inner, tail) }

  ghost predicate SpellsParts(s: string, p: Parts, rest: string) { s == RenderParts(p) + rest && SourceParts(p, rest) }

  lemma {:induction false} ReadDoc(s: string, inner: bool, outer: seq<Context>) returns (d: Doc, rest: string)
    requires Closes(s, Here(inner, outer))
    ensures Spells(s, d, inner, Tail(inner, rest)) && (inner ==> Closes(rest, outer) && |rest| < |s|)
    decreases |s|
  {
    if s == [] { return End, ""; }
    var here := Here(inner, outer);
    DocTurn(s, inner, outer);
    if s[0] == '#' || "//" <= s {
      d, rest := ReadDoc(s[LineEnd(s)..], inner, outer);
      d := LineCommentRead(s, d, inner, Tail(inner, rest));
    } else if "/*" <= s {
      d, rest := ReadDoc(s[2 + BlockEnd(s[2..])..], inner, outer);
      d := BlockCommentRead(s, d, inner, Tail(inner, rest));
    } else if s[0] == '"' {
      var parts, more := ReadParts(s[1..], here);
      d, rest := ReadDoc(more, inner, outer);
      QuoteRead(s, parts, d, inner, Tail(inner, rest));
      d := Quote(parts, d);
    } else if inner && s[0] == '{' {
      var body, more := ReadDoc(s[1..], true, here);
      d, rest := ReadDoc(more, inner, outer);
      BracesRead(s, body, d, Tail(inner, rest));
      d := Braces(body, d);
    } else if inner && s[0] == '}' {
      d, rest := End, s[1..];
      EndRead(s);
    } else if Opener(s).Some? {
      d, rest := ReadDoc(s[HeredocLen(s, Opener(s).value.0, Opener(s).value.1)..], inner, outer);
      d := HeredocRead(s, here, d, inner, Tail(inner, rest));
    } else {
      d, rest := ReadDoc(s[1..], inner, outer);
      CodeRead(s, d, inner, Tail(inner, rest));
      d := Code(s[0], d);
    }
  }

  /** A turn outside a literal leaves a closed source. */
  lemma DocTurn(s: string, inner: bool, outer: seq<Context>)
    requires Closes(s, Here(inner, outer)) && s != []
    ensures var here := Here(inner, outer);
            if s[0] == '#' || "//" <= s then LineEnd(s) > 0 && Closes(s[LineEnd(s)..], here)
            else if "/*" <= s then BlockCloses(s[2..]) && Closes(s[2 + BlockEnd(s[2..])..], here)
            else if s[0] == '"' then Closes(s[1..], here + [Str])
            else if inner && s[0] == '{' then Closes(s[1..], here + [Interp])
            else if inner && s[0] == '}' then Closes(s[1..], outer)
            else match Opener(s)
              case Some((start, end)) => Whole(s, here) && Closes(s[HeredocLen(s, start, end)..], here)
              case None => PlainCode(s, inner) && Closes(s[1..], here)
  {
    ClosesUnfolds(s, Here(inner, outer));
    assert (outer + [Interp])[..|outer|] == outer;
  }

  lemma EndRead(s: string)
    requires s != [] && s[0] == '}'
    ensures Spells(s, End, true, "}" + s[1..])
  {
    assert s == "" + ("}" + s[1..]);
  }

  lemma CodeRead(s: string, after: Doc, inner: bool, tail: string)
    requires s != [] && PlainCode(s, inner) && Spells(s[1..], after, inner, tail)
    ensures Spells(s, Code(s[0], after), inner, tail)
  {
    assert s == [s[0]] + s[1..];
    Regroup([s[0]], Render(after), tail);
  }

  lemma LineCommentRead(s: string, after: Doc, inner: bool, tail: string) returns (d: Doc)
    requires s != [] && (s[0] == '#' || "//" <= s) && Spells(s[LineEnd(s)..], after, inner, tail)
    ensures Spells(s, d, inner, tail)
  {
    var opener, text := CommentApart(s);
    LineCommentBuilt(opener, text, s[LineEnd(s)..], after, inner, tail);
    d := LineComment(opener, text, after);
  }

  lemma LineCommentBuilt(opener: string, text: string, follow: string, after: Doc, inner: bool, tail: string)
    requires opener in ["#", "//"] && '\n' !in text && EndsLine(follow) && Spells(follow, after, inner, tail)
    ensures Spells(opener + text + follow, LineComment(opener, text, after), inner, tail)
  {
    Regroup(opener + text, Render(after), tail);
  }

  lemma Suffix(a: string, b: string)
    ensures (a + b)[|a|..] == b
  {
  }

  lemma CommentApart(s: string) returns (opener: string, text: string)
    requires s != [] && (s[0] == '#' || "//" <= s)
    ensures opener in ["#", "//"] && '\n' !in text && EndsLine(s[LineEnd(s)..]) && s == opener + text + s[LineEnd(s)..]
  {
    var n, k := LineEnd(s), if s[0] == '#' then 1 else 2;
    CommentIsLonger(s);
    opener, text := s[..k], s[k..n];
    assert forall i :: k <= i < n ==> s[i] == s[..n][i];
  }

  lemma CommentIsLonger(s: string)
    requires s != [] && (s[0] == '#' || "//" <= s)
    ensures s[0] == '#' ==> LineEnd(s) >= 1 && s[..1] == "#"
    ensures s[0] != '#' ==> LineEnd(s) >= 2 && s[..2] == "//"
  {
    if s[0] != '#' { assert s[1] == '/' && s[1..][0] == '/'; }
  }

  lemma BlockCommentRead(s: string, after: Doc, inner: bool, tail: string) returns (d: Doc)
    requires "/*" <= s && BlockCloses(s[2..]) && Spells(s[2 + BlockEnd(s[2..])..], after, inner, tail)
    ensures Spells(s, d, inner, tail)
  {
    var text, follow := BlockApart(s[2..]);
    BlockJoins(s, text, follow);
    BlockCommentBuilt(text, follow, after, inner, tail);
    d := BlockComment(text, after);
  }

  lemma BlockCommentBuilt(text: string, follow: string, after: Doc, inner: bool, tail: string)
    requires Unclosed(text) && Spells(follow, after, inner, tail)
    ensures Spells("/*" + text + "*/" + follow, BlockComment(text, after), inner, tail)
  {
    Regroup("/*" + text + "*/", Render(after), tail);
  }

  lemma BlockJoins(s: string, text: string, follow: string)
    requires "/*" <= s && s[2..] == text + "*/" + follow
    ensures s == "/*" + text + "*/" + follow && s[2 + |text| + 2..] == follow
  {
    assert s == s[..2] + s[2..];
    Suffix("/*" + text + "*/", follow);
  }

  lemma QuoteRead(s: string, parts: Parts, after: Doc, inner: bool, tail: string)
    requires s != [] && s[0] == '"' && s[1..] == RenderParts(parts) + (Render(after) + tail)
    requires SourceParts(parts, Render(after) + tail) && Source(after, inner, tail)
    ensures Spells(s, Quote(parts, after), inner, tail)
  {
    assert s == "\"" + s[1..];
    Regroup4("\"", RenderParts(parts), Render(after), tail);
  }

  lemma BracesRead(s: string, body: Doc, after: Doc, tail: string)
    requires s != [] && s[0] == '{' && s[1..] == Render(body) + ("}" + (Render(after) + tail))
    requires Source(body, true, "}" + (Render(after) + tail)) && Source(after, true, tail)
    ensures Spells(s, Braces(body, after), true, tail)
  {
    assert s == "{" + s[1..];
    BracesRegroup(Render(body), Render(after), tail);
  }

  lemma BracesRegroup(body: string, after: string, tail: string)
    ensures "{" + (body + ("}" + (after + tail))) == "{" + body + "}" + after + tail
  {
    Regroup4(body, "}", after, tail);
    Regroup4("{", body, "}", after);
  }

  lemma HeredocRead(s: string, stack: seq<Context>, after: Doc, inner: bool, tail: string) returns (d: Doc)
    requires Opener(s).Some? && Whole(s, stack) && Top(stack) != Some(Str)
    requires Spells(s[HeredocLen(s, Opener(s).value.0, Opener(s).value.1)..], after, inner, tail)
    ensures Spells(s, d, inner, tail)
  {
    var dash, tag, opening, lines, closing, follow := HeredocApart(s, stack, Opener(s).value.0, Opener(s).value.1);
    var indent, trailing := ClosingApart(closing, tag);
    Suffix(HeredocText(dash, tag, opening, lines, closing), follow);
    HeredocBuilt(dash, tag, opening, lines, indent, trailing, follow, after, inner, tail);
    d := Heredoc(dash, tag, opening, lines, indent, trailing, after);
  }

  lemma HeredocBuilt(dash: string, tag: string, opening: string, lines: seq<string>, indent: string, trailing: string,
                     follow: string, after: Doc, inner: bool, tail: string)
    requires HeredocShape(dash, tag, opening, lines, indent, trailing) && EndsLine(follow) && Spells(follow, after, inner, tail)
    ensures Spells(HeredocText(dash, tag, opening, lines, indent + tag + trailing) + follow,
                   Heredoc(dash, tag, opening, lines, indent, trailing, after), inner, tail)
  {
    Regroup(HeredocText(dash, tag, opening, lines, indent + tag + trailing), Render(after), tail);
  }

  lemma ClosingApart(closing: string, tag: string) returns (indent: string, trailing: string)
    requires Terminates(closing, tag)
    ensures closing == indent + tag + trailing && Spaces(indent) && Spaces(trailing)
  {
    indent := LeftSpaces(closing);
    trailing := RightSpaces(TrimLeft(closing));
  }

  lemma {:induction false} ReadParts(s: string, outer: seq<Context>) returns (p: Parts, rest: string)
    requires Closes(s, outer + [Str])
    ensures SpellsParts(s, p, rest) && Closes(rest, outer) && |rest| < |s|
    decreases |s|
  {
    TextTurn(s, outer);
    if s[0] == '\\' {
      p, rest := ReadParts(s[2..], outer);
      p := TextRead(s, 2, p, rest);
    } else if s[0] == '"' {
      p, rest := Close, s[1..];
      assert s == "\"" + rest;
    } else if "$${" <= s || "%%{" <= s {
      p, rest := ReadParts(s[3..], outer);
      p := TextRead(s, 3, p, rest);
    } else if "${" <= s || "%{" <= s {
      var body, more := ReadDoc(s[2..], true, outer + [Str]);
      p, rest := ReadParts(more, outer);
      p := TemplateRead(s, body, more, p, rest);
    } else {
      p, rest := ReadParts(s[1..], outer);
      p := TextRead(s, 1, p, rest);
    }
  }

  /** A turn inside a literal leaves a closed source. */
  lemma TextTurn(s: string, outer: seq<Context>)
    requires Closes(s, outer + [Str])
    ensures s != []
    ensures if s[0] == '\\' then |s| >= 2 && Closes(s[2..], outer + [Str])
            else if s[0] == '"' then Closes(s[1..], outer)
            else if "$${" <= s || "%%{" <= s then Closes(s[3..], outer + [Str])
            else if "${" <= s || "%{" <= s then Closes(s[2..], outer + [Str] + [Interp])
            else Closes(s[1..], outer + [Str])
  {
    ClosesUnfolds(s, outer + [Str]);
    assert (outer + [Str])[..|outer|] == outer;
  }

  /** A character of text, an escape or an escaped marker in front of what follows it. */
  lemma TextRead(s: string, n: nat, after: Parts, rest: string) returns (p: Parts)
    requires 1 <= n <= 3 && n <= |s| && SpellsParts(s[n..], after, rest)
    requires n == 1 ==> PlainText(s)
    requires n == 2 ==> s[0] == '\\'
    requires n == 3 ==> "$${" <= s || "%%{" <= s
    ensures SpellsParts(s, p, rest)
  {
    p := if n == 1 then Text(s[0], after) else if n == 2 then Escape(s[1], after) else Literal(s[0], after);
    assert s == s[..n] + s[n..];
    PieceOf(s, n);
    Regroup(s[..n], RenderParts(after), rest);
  }

  lemma PieceOf(s: string, n: nat)
    requires 1 <= n <= 3 && n <= |s|
    requires n == 3 ==> "$${" <= s || "%%{" <= s
    ensures n == 1 ==> s[..n] == [s[0]]
    ensures n == 2 ==> s[..n] == [s[0], s[1]]
    ensures n == 3 ==> s[..n] == [s[0], s[0], '{'] && Marker(s[0])
  {
    if n == 3 { assert s[1] == s[0] && s[2] == '{'; }
  }

  lemma TemplateRead(s: string, body: Doc, more: string, after: Parts, rest: string) returns (p: Parts)
    requires ("${" <= s || "%{" <= s) && s[2..] == Render(body) + ("}" + more) && Source(body, true, "}" + more)
    requires SpellsParts(more, after, rest)
    ensures SpellsParts(s, p, rest)
  {
    p := Template(s[0], body, after);
    assert s == [s[0], '{'] + s[2..];
    Regroup4(Render(body), "}", RenderParts(after), rest);
    Regroup([s[0], '{'], Render(body) + "}" + RenderParts(after), rest);
    Regroup4([s[0], '{'], Render(body), "}", RenderParts(after));
    Regroup(Render(body), "}", RenderParts(after));
  }

  /** The sources the scanner finds closed are exactly the texts of trees, and on each of them its mask
      is the structural one. */
  lemma ClosedSourcesAreDocuments(s: string)
    ensures Closes(s, []) <==> exists d :: Source(d, false, "") && Render(d) == s
    ensures Closes(s, []) ==> exists d :: Source(d, false, "") && Render(d) == s && Scan(s, []) == Mask(d)
  {
    if Closes(s, []) {
      var d, rest := ReadDoc(s, false, []);
      assert Render(d) + "" == Render(d);
      MaskFollowsStructure(d);
      assert Source(d, false, "") && Render(d) == s;
    }
    if d :| Source(d, false, "") && Render(d) == s {
      ScanIsMask(d, false, "", []);
      assert Render(d) + "" == Render(d);
    }
  }
}
