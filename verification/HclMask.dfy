/** The HCL masker: every character that is not code becomes a space, with newlines, string
    delimiters and interpolated code kept. */
module HclMask {
  import opened Common

  // ---------------------------------------------------------------- one turn of the scanner

  /** An open context; the top one is last. */
  datatype Context = Str | Interp

  /** What one turn of the loop does: how much it takes, whether that is blanked, and the stack after. */
  datatype Turn = Turn(len: nat, hides: bool, stack: seq<Context>)

  function BlankChar(c: char): char { if c == '\n' then c else ' ' }

  function Blank(s: string): (b: string)
    ensures |b| == |s| && forall k :: 0 <= k < |s| ==> b[k] == BlankChar(s[k])
  {
    seq(|s|, k requires 0 <= k < |s| => BlankChar(s[k]))
  }

  /** The end of a block comment whose opener has been taken; an unclosed one takes everything. */
  function BlockEnd(s: string): (n: nat)
    ensures n <= |s|
  {
    if |s| < 2 then |s| else if s[0] == '*' && s[1] == '/' then 2 else 1 + BlockEnd(s[1..])
  }

  predicate TagStart(c: char) { 'a' <= c <= 'z' || 'A' <= c <= 'Z' || c == '_' }

  predicate TagChar(c: char) { TagStart(c) || '0' <= c <= '9' }

  function TagRun(s: string): (n: nat)
    ensures n <= |s|
  {
    if s != [] && TagChar(s[0]) then 1 + TagRun(s[1..]) else 0
  }

  /** The regular expression for a heredoc opener: where its tag starts and ends. */
  function Opener(s: string): (o: Option<(nat, nat)>)
    ensures o.Some? ==> 2 <= o.value.0 < o.value.1 <= |s|
  {
    if !("<<" <= s) then None
    else
      var from := if 2 < |s| && s[2] == '-' then 3 else 2;
      if from < |s| && TagStart(s[from]) then Some((from, from + TagRun(s[from..]))) else None
  }

  predicate Space(c: char) { c == ' ' || c == '\t' }

  function TrimLeft(s: string): string { if s != [] && Space(s[0]) then TrimLeft(s[1..]) else s }

  function TrimRight(s: string): string {
    if s != [] && Space(s[|s| - 1]) then TrimRight(s[..|s| - 1]) else s
  }

  predicate Terminates(line: string, tag: string) { TrimRight(TrimLeft(line)) == tag }

  /** The end of the first line that holds only the tag; without one, the end of the text. */
  function HeredocEnd(s: string, tag: string): (n: nat)
    ensures n <= |s|
  {
    var e := LineEnd(s);
    if Terminates(s[..e], tag) then e
    else if e == |s| then |s|
    else e + 1 + HeredocEnd(s[e + 1..], tag)
  }

  function HeredocLen(s: string, start: nat, end: nat): (n: nat)
    requires start <= end <= |s|
    ensures end <= n <= |s|
  {
    var j := end + LineEnd(s[end..]);
    if j == |s| then |s| else j + 1 + HeredocEnd(s[j + 1..], s[start..end])
  }

  function Top(stack: seq<Context>): Option<Context> {
    if stack == [] then None else Some(stack[|stack| - 1])
  }

  function Take(s: string, stack: seq<Context>): (t: Turn)
    requires s != []
    ensures 1 <= t.len <= |s|
  {
    if Top(stack) == Some(Str) then TakeText(s, stack)
    else if s[0] == '#' || "//" <= s then Turn(LineEnd(s), true, stack)
    else if "/*" <= s then Turn(2 + BlockEnd(s[2..]), true, stack)
    else if s[0] == '"' then Turn(1, false, stack + [Str])
    else if Top(stack) == Some(Interp) && s[0] == '{' then Turn(1, false, stack + [Interp])
    else if Top(stack) == Some(Interp) && s[0] == '}' then Turn(1, false, stack[..|stack| - 1])
    else match Opener(s)
      case Some((start, end)) => Turn(HeredocLen(s, start, end), true, stack)
      case None => Turn(1, false, stack)
  }

  /** A turn inside a quoted literal. */
  function TakeText(s: string, stack: seq<Context>): (t: Turn)
    requires s != [] && stack != []
    ensures 1 <= t.len <= |s|
  {
    if s[0] == '\\' then Turn(if |s| < 2 then |s| else 2, true, stack)
    else if s[0] == '"' then Turn(1, false, stack[..|stack| - 1])
    else if "$${" <= s || "%%{" <= s then Turn(3, true, stack)
    else if "${" <= s || "%{" <= s then Turn(2, false, stack + [Interp])
    else Turn(1, true, stack)
  }

  function Shown(s: string, t: Turn): string
    requires t.len <= |s|
  {
    if t.hides then Blank(s[..t.len]) else s[..t.len]
  }

  /** The mask of a source suffix read in a context. */
  function Scan(s: string, stack: seq<Context>): string
    decreases |s|
  {
    if s == [] then [] else
      var t := Take(s, stack);
      Shown(s, t) + Scan(s[t.len..], t.stack)
  }

  /** The contexts still open at the end. */
  function Open(s: string, stack: seq<Context>): seq<Context>
    decreases |s|
  {
    if s == [] then stack else
      var t := Take(s, stack);
      Open(s[t.len..], t.stack)
  }

  // ---------------------------------------------------------------- sources that are closed

  predicate BlockCloses(s: string) { |s| >= 2 && ((s[0] == '*' && s[1] == '/') || BlockCloses(s[1..])) }

  predicate HeredocCloses(s: string, tag: string) {
    var e := LineEnd(s);
    Terminates(s[..e], tag) || (e < |s| && HeredocCloses(s[e + 1..], tag))
  }

  /** What the next turn takes is not cut short by the end of the source. */
  predicate Whole(s: string, stack: seq<Context>)
    requires s != []
  {
    if Top(stack) == Some(Str) then s[0] == '\\' ==> |s| >= 2
    else if "/*" <= s then BlockCloses(s[2..])
    else match Opener(s)
      case Some((start, end)) =>
        var j := end + LineEnd(s[end..]);
        j < |s| && HeredocCloses(s[j + 1..], s[start..end])
      case None => true
  }

  /** Nothing the scanner opens is left open: no comment, heredoc, escape, string or interpolation. */
  predicate Closes(s: string, stack: seq<Context>)
    decreases |s|
  {
    if s == [] then stack == []
    else
      var t := Take(s, stack);
      Whole(s, stack) && Closes(s[t.len..], t.stack)
  }

  // ---------------------------------------------------------------- the loop

  method BlankRange(out: array<char>, a: nat, b: nat)
    requires a <= b <= out.Length
    modifies out
    ensures out[..] == old(out[..a]) + Blank(old(out[a..b])) + old(out[b..])
  {
    var k := a;
    while k < b
      invariant a <= k <= b
      invariant forall i :: 0 <= i < a || k <= i < out.Length ==> out[i] == old(out[i])
      invariant forall i :: a <= i < k ==> out[i] == BlankChar(old(out[i]))
    {
      if out[k] != '\n' { out[k] := ' '; }
      k := k + 1;
    }
  }

  /** The buffer has its first `i` characters masked and the rest still to read. */
  ghost predicate MaskedUpTo(src: string, i: nat, out: string, stack: seq<Context>) {
    && i <= |src| == |out| && out[i..] == src[i..]
    && Scan(src, []) == out[..i] + Scan(src[i..], stack)
    && Open(src, []) == Open(src[i..], stack)
  }

  lemma OneTurn(src: string, i: nat, was: string, now: string, stack: seq<Context>, t: Turn)
    requires MaskedUpTo(src, i, was, stack) && i < |src| && t == Take(src[i..], stack)
    requires now == was[..i] + Shown(src[i..], t) + was[i + t.len..]
    ensures MaskedUpTo(src, i + t.len, now, t.stack)
  {
    ScanUnfolds(src[i..], stack);
    BufferAdvances(src, i, was, now, Shown(src[i..], t), t.len);
  }

  lemma BufferAdvances(src: string, i: nat, was: string, now: string, shown: string, len: nat)
    requires i + len <= |src| == |was| && |shown| == len && was[i..] == src[i..]
    requires now == was[..i] + shown + was[i + len..]
    ensures |now| == |src| && now[i + len..] == src[i + len..] == src[i..][len..]
    ensures forall x: string :: was[..i] + (shown + x) == now[..i + len] + x
  {
    assert now[..i + len] == was[..i] + shown;
    assert now[i + len..] == was[i..][len..];
  }

  lemma ScanUnfolds(s: string, stack: seq<Context>)
    requires s != []
    ensures var t := Take(s, stack);
      && Scan(s, stack) == Shown(s, t) + Scan(s[t.len..], t.stack)
      && Open(s, stack) == Open(s[t.len..], t.stack)
  {
  }

  lemma NextPiece(src: string, i: nat, was: string, len: nat)
    requires i + len <= |src| == |was| && was[i..] == src[i..]
    ensures was[i..i + len] == src[i..][..len] && was == was[..i] + was[i..i + len] + was[i + len..]
  {
    assert was[i..][..len] == was[i..i + len];
  }

  lemma MaskStartsAndEnds(src: string, out: string, stack: seq<Context>)
    ensures out == src ==> MaskedUpTo(src, 0, out, [])
    ensures MaskedUpTo(src, |src|, out, stack) ==> out == Scan(src, []) && stack == Open(src, [])
  {
    assert src[0..] == src && src[|src|..] == [];
    if |out| == |src| { assert out[..|src|] == out; }
  }

  /** mask_source: the index and the context stack over a copy of the source, overwritten in place. */
  method MaskSource(src: string) returns (mask: string, stack: seq<Context>)
    ensures mask == Scan(src, []) && stack == Open(src, [])
    ensures |mask| == |src|
    ensures forall k :: 0 <= k < |src| ==> mask[k] == src[k] || mask[k] == BlankChar(src[k])
    ensures forall k :: 0 <= k < |src| ==> (mask[k] == '\n' <==> src[k] == '\n')
  {
    var out := new char[|src|](k requires 0 <= k < |src| => src[k]);
    stack := [];
    var i := 0;
    assert out[..] == src;
    MaskStartsAndEnds(src, src, []);
    while i < |src|
      invariant 0 <= i <= |src| && out.Length == |src| && MaskedUpTo(src, i, out[..], stack)
    {
      ghost var was := out[..];
      var t := Take(src[i..], stack);
      NextPiece(src, i, was, t.len);
      if t.hides { BlankRange(out, i, i + t.len); }
      OneTurn(src, i, was, out[..], stack, t);
      i, stack := i + t.len, t.stack;
    }
    mask := out[..];
    MaskStartsAndEnds(src, mask, stack);
    MaskOnlyBlanks(src, []);
  }

  /** Every character is kept or blanked: lengths, offsets and newlines are those of the source. */
  lemma {:induction false} MaskOnlyBlanks(s: string, stack: seq<Context>)
    ensures |Scan(s, stack)| == |s|
    ensures forall k :: 0 <= k < |s| ==> Scan(s, stack)[k] == s[k] || Scan(s, stack)[k] == BlankChar(s[k])
    decreases |s|
  {
    if s != [] {
      var t := Take(s, stack);
      var rest := s[t.len..];
      MaskOnlyBlanks(rest, t.stack);
      forall k | 0 <= k < |s| ensures Scan(s, stack)[k] == s[k] || Scan(s, stack)[k] == BlankChar(s[k]) {
        if k >= t.len {
          assert Scan(s, stack)[k] == Scan(rest, t.stack)[k - t.len];
          assert s[k] == rest[k - t.len];
        }
      }
    }
  }

  // ---------------------------------------------------------------- masking a mask changes nothing

  ghost predicate AllBlank(b: string) { forall k :: 0 <= k < |b| ==> b[k] == ' ' || b[k] == '\n' }

  lemma BlankTurn(s: string, stack: seq<Context>)
    requires s != [] && (s[0] == ' ' || s[0] == '\n')
    ensures var t := Take(s, stack); t.len == 1 && t.stack == stack && Shown(s, t) == [s[0]]
  {
    assert s[..1] == [s[0]];
  }

  lemma FirstAside(b: string, x: string)
    requires b != []
    ensures b + x == [b[0]] + (b[1..] + x) && (b + x)[0] == b[0] && (b + x)[1..] == b[1..] + x
  {
  }

  /** Blanks pass through the scanner unchanged, in any context. */
  lemma {:induction false} BlanksPass(b: string, tail: string, stack: seq<Context>)
    requires AllBlank(b)
    ensures Scan(b + tail, stack) == b + Scan(tail, stack) && Open(b + tail, stack) == Open(tail, stack)
    decreases |b|
  {
    if b == [] {
      assert b + tail == tail;
    } else {
      FirstAside(b, tail);
      BlankTurn(b + tail, stack);
      ScanUnfolds(b + tail, stack);
      BlanksPass(b[1..], tail, stack);
      FirstAside(b, Scan(tail, stack));
    }
  }

  /** `m` differs from `s` only by spaces. */
  ghost predicate Fades(s: string, m: string) {
    |m| == |s| && forall k :: 0 <= k < |s| ==> m[k] == s[k] || m[k] == ' '
  }

  lemma OpenerFades(s: string, m: string)
    requires Fades(s, m) && Opener(s).None?
    ensures Opener(m).None?
  {
  }

  /** A turn that keeps what it takes is repeated on anything faded behind it. */
  lemma KeptTurnRepeats(s: string, m: string, stack: seq<Context>)
    requires s != [] && Fades(s, m) && !Take(s, stack).hides && m[..Take(s, stack).len] == s[..Take(s, stack).len]
    ensures Take(m, stack) == Take(s, stack)
  {
    var t := Take(s, stack);
    assert m[0] == m[..t.len][0] == s[..t.len][0] == s[0];
    if Top(stack) == Some(Str) {
      if t.len == 2 { assert m[1] == m[..2][1] == s[..2][1] == s[1]; }
    } else if s[0] == '<' {
      OpenerFades(s, m);
    }
  }

  lemma {:induction false} MaskingAgainChangesNothing(s: string, stack: seq<Context>)
    ensures Scan(Scan(s, stack), stack) == Scan(s, stack)
    ensures Open(Scan(s, stack), stack) == Open(s, stack)
    decreases |s|
  {
    if s != [] {
      var t := Take(s, stack);
      var shown, rest := Shown(s, t), Scan(s[t.len..], t.stack);
      var m := Scan(s, stack);
      MaskingAgainChangesNothing(s[t.len..], t.stack);
      if t.hides {
        HidingTurnKeepsStack(s, stack);
        BlanksPass(shown, rest, stack);
      } else {
        MaskOnlyBlanks(s, stack);
        assert m[..t.len] == s[..t.len] && m[t.len..] == rest;
        KeptTurnRepeats(s, m, stack);
      }
    }
  }

  lemma HidingTurnKeepsStack(s: string, stack: seq<Context>)
    requires s != [] && Take(s, stack).hides
    ensures Take(s, stack).stack == stack
  {
  }
}
