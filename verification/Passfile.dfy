/** The libpq password file: printing and parsing its entries, and replacing one role's entry. */
module Passfile {
  import opened Common

  datatype Entry = Entry(host: string, port: string, database: string, role: string, password: string)

  // ---------------------------------------------------------------- printing and splitting fields

  /** Backslashes, then colons, behind a backslash. */
  function Escape(field: string): string {
    if field == [] then []
    else (if field[0] == '\\' || field[0] == ':' then ['\\', field[0]] else [field[0]]) + Escape(field[1..])
  }

  /** ":".join(...) */
  function Join(fields: seq<string>): string
    requires fields != []
  {
    if |fields| == 1 then Escape(fields[0]) else Escape(fields[0]) + ":" + Join(fields[1..])
  }

  function FieldsOf(e: Entry): seq<string> { [e.host, e.port, e.database, e.role, e.password] }

  function Line(e: Entry): string { Join(FieldsOf(e)) + "\n" }

  /** The first field with `cur` before it. */
  function Before(cur: string, fields: seq<string>): seq<string>
    requires fields != []
  {
    [cur + fields[0]] + fields[1..]
  }

  lemma BeforeFirst(cur: string, fields: seq<string>)
    ensures fields != [] ==> Before("", fields) == fields
    ensures Before(cur, [""] + fields) == [cur] + fields
  {
    assert cur + "" == cur;
    if fields != [] {
      assert "" + fields[0] == fields[0];
      assert fields == [fields[0]] + fields[1..];
    }
  }

  /** The fields of a line: a backslash takes the next character as it is, and one at the very end is lost. */
  function Split(s: string): (fields: seq<string>)
    ensures fields != []
    decreases |s|
  {
    if s == [] then [""]
    else if s[0] == '\\' then (if |s| == 1 then [""] else Before([s[1]], Split(s[2..])))
    else if s[0] == ':' then [""] + Split(s[1..])
    else Before([s[0]], Split(s[1..]))
  }

  function SplitFrom(s: string, esc: bool): (fields: seq<string>)
    ensures fields != []
  {
    if !esc then Split(s) else if s == [] then [""] else Before([s[0]], Split(s[1..]))
  }

  /** line.rstrip("\n") */
  function Stripped(line: string): string {
    if line != [] && line[|line| - 1] == '\n' then Stripped(line[..|line| - 1]) else line
  }

  function UserOf(line: string): Option<string> {
    var fields := Split(Stripped(line));
    if |fields| == 5 then Some(fields[3]) else None
  }

  lemma SplitStep(s: string, esc: bool, cur: string, ch: char)
    requires s != [] && s[0] == ch
    ensures esc ==> Before(cur, SplitFrom(s, true)) == Before(cur + [ch], SplitFrom(s[1..], false))
    ensures !esc && ch == '\\' ==> Before(cur, SplitFrom(s, false)) == Before(cur, SplitFrom(s[1..], true))
    ensures !esc && ch == ':' ==> Before(cur, SplitFrom(s, false)) == [cur] + Before("", SplitFrom(s[1..], false))
    ensures !esc && ch != ':' && ch != '\\' ==>
              Before(cur, SplitFrom(s, false)) == Before(cur + [ch], SplitFrom(s[1..], false))
  {
    if !esc && ch == '\\' && |s| > 1 { assert s[1..][1..] == s[2..]; }
    if esc || (ch != ':' && ch != '\\') {
      var f := Split(s[1..]);
      assert cur + ([ch] + f[0]) == cur + [ch] + f[0];
    }
    if !esc && ch == ':' { BeforeFirst(cur, Split(s[1..])); }
  }

  /** What the pass has so far: the fields before the current one, and its start. */
  ghost predicate SplitSoFar(s: string, i: nat, parts: seq<string>, cur: string, esc: bool) {
    i <= |s| && Split(s) == parts + Before(cur, SplitFrom(s[i..], esc))
  }

  lemma SplitAdvances(s: string, i: nat, parts: seq<string>, cur: string, esc: bool)
    requires SplitSoFar(s, i, parts, cur, esc) && i < |s|
    ensures esc ==> SplitSoFar(s, i + 1, parts, cur + [s[i]], false)
    ensures !esc && s[i] == '\\' ==> SplitSoFar(s, i + 1, parts, cur, true)
    ensures !esc && s[i] == ':' ==> SplitSoFar(s, i + 1, parts + [cur], "", false)
    ensures !esc && s[i] != ':' && s[i] != '\\' ==> SplitSoFar(s, i + 1, parts, cur + [s[i]], false)
  {
    assert s[i..][1..] == s[i + 1..];
    SplitStep(s[i..], esc, cur, s[i]);
    if !esc && s[i] == ':' {
      var more := Before("", SplitFrom(s[i + 1..], false));
      assert parts + ([cur] + more) == parts + [cur] + more;
    }
  }

  lemma SplitStartsAndEnds(s: string, parts: seq<string>, cur: string, esc: bool)
    ensures SplitSoFar(s, 0, [], "", false)
    ensures SplitSoFar(s, |s|, parts, cur, esc) ==> Split(s) == parts + [cur]
  {
    assert s[0..] == s && s[|s|..] == [] && [""] + [] == [""];
    BeforeFirst("", Split(s));
    BeforeFirst(cur, []);
  }

  /** _entry_user: one pass over the characters with the fields so far, the current one, and whether the
      last character was a backslash. */
  method EntryUser(line: string) returns (user: Option<string>)
    ensures user == UserOf(line)
  {
    var parts: seq<string>, cur, esc := [], "", false;
    var s := Stripped(line);
    var i := 0;
    SplitStartsAndEnds(s, parts, cur, esc);
    while i < |s|
      invariant 0 <= i <= |s| && SplitSoFar(s, i, parts, cur, esc)
    {
      var ch := s[i];
      SplitAdvances(s, i, parts, cur, esc);
      if esc {
        cur, esc := cur + [ch], false;
      } else if ch == '\\' {
        esc := true;
      } else if ch == ':' {
        parts, cur := parts + [cur], "";
      } else {
        cur := cur + [ch];
      }
      i := i + 1;
    }
    SplitStartsAndEnds(s, parts, cur, esc);
    parts := parts + [cur];
    return if |parts| == 5 then Some(parts[3]) else None;
  }

  // ---------------------------------------------------------------- fields round trip

  lemma SplitEscaped(c: char, more: string)
    ensures Split(['\\', c] + more) == Before([c], Split(more))
    ensures c != '\\' && c != ':' ==> Split([c] + more) == Before([c], Split(more))
  {
    assert (['\\', c] + more)[2..] == more && ([c] + more)[1..] == more;
  }

  lemma EscapeFirst(field: string, rest: string)
    requires field != []
    ensures Escape(field) + rest == (if field[0] == '\\' || field[0] == ':' then ['\\', field[0]] else [field[0]])
                                    + (Escape(field[1..]) + rest)
  {
  }

  lemma BeforeBefore(field: string, fields: seq<string>)
    requires field != [] && fields != []
    ensures Before([field[0]], Before(field[1..], fields)) == Before(field, fields)
  {
    assert [field[0]] + (field[1..] + fields[0]) == field + fields[0];
  }

  lemma {:induction false} EscapedReadsBack(field: string, rest: string)
    requires rest == [] || rest[0] == ':'
    ensures Split(Escape(field) + rest) == Before(field, Split(rest))
  {
    if field == [] {
      assert Escape(field) + rest == rest;
      BeforeFirst("", Split(rest));
    } else {
      EscapeFirst(field, rest);
      SplitEscaped(field[0], Escape(field[1..]) + rest);
      EscapedReadsBack(field[1..], rest);
      BeforeBefore(field, Split(rest));
    }
  }

  /** Any fields at all are read back from the line they are printed on. */
  lemma {:induction false} FieldsReadBack(fields: seq<string>)
    requires fields != []
    ensures Split(Join(fields)) == fields
  {
    if |fields| == 1 {
      assert Escape(fields[0]) + "" == Escape(fields[0]);
      EscapedReadsBack(fields[0], "");
      BeforeFirst(fields[0], []);
      assert [""] + [] == [""] && fields == [fields[0]] + [];
    } else {
      var rest := ":" + Join(fields[1..]);
      assert Join(fields) == Escape(fields[0]) + rest;
      EscapedReadsBack(fields[0], rest);
      assert rest[1..] == Join(fields[1..]);
      FieldsReadBack(fields[1..]);
      BeforeFirst(fields[0], fields[1..]);
    }
  }

  predicate NoBreak(s: string) { '\n' !in s && '\r' !in s }

  predicate OneLine(e: Entry) {
    NoBreak(e.host) && NoBreak(e.port) && NoBreak(e.database) && NoBreak(e.role) && NoBreak(e.password)
  }

  lemma {:induction false} EscapeNoBreak(field: string)
    requires NoBreak(field)
    ensures NoBreak(Escape(field))
  {
    if field != [] { EscapeNoBreak(field[1..]); }
  }

  lemma {:induction false} JoinNoBreak(fields: seq<string>)
    requires fields != [] && forall f :: f in fields ==> NoBreak(f)
    ensures NoBreak(Join(fields))
  {
    EscapeNoBreak(fields[0]);
    if |fields| > 1 { JoinNoBreak(fields[1..]); }
  }

  /** Printing and parsing an entry without line breaks undo each other, field by field. */
  lemma EntryReadsBack(e: Entry)
    requires OneLine(e)
    ensures Split(Stripped(Line(e))) == FieldsOf(e) && UserOf(Line(e)) == Some(e.role)
    ensures Terminated(Line(e))
  {
    FieldsReadBack(FieldsOf(e));
    JoinNoBreak(FieldsOf(e));
    var text := Join(FieldsOf(e));
    assert Line(e)[..|text|] == text;
    assert text != [] ==> text[|text| - 1] in text;
  }

  // ---------------------------------------------------------------- lines of a file

  /** Universal newlines: every carriage return, with the newline behind it if any, is one newline. */
  function Universal(s: string): string
    decreases |s|
  {
    if s == [] then []
    else if s[0] == '\r' then ['\n'] + Universal(if |s| > 1 && s[1] == '\n' then s[2..] else s[1..])
    else [s[0]] + Universal(s[1..])
  }

  function Lines(s: string): seq<string>
    decreases |s|
  {
    if s == [] then []
    else if LineEnd(s) == |s| then [s]
    else [s[..LineEnd(s) + 1]] + Lines(s[LineEnd(s) + 1..])
  }

  /** fh.readlines(), of an absent file none. */
  function ReadLines(content: Option<string>): seq<string> {
    if content.None? then [] else Lines(Universal(content.value))
  }

  function Concat(lines: seq<string>): string { if lines == [] then [] else lines[0] + Concat(lines[1..]) }

  /** One line with its newline. */
  predicate Terminated(line: string) {
    line != [] && line[|line| - 1] == '\n' && NoBreak(line[..|line| - 1])
  }

  lemma {:induction false} UniversalKeeps(s: string)
    ensures '\r' !in Universal(s) && ('\r' !in s ==> Universal(s) == s)
    decreases |s|
  {
    if s != [] { UniversalKeeps(if s[0] == '\r' && |s| > 1 && s[1] == '\n' then s[2..] else s[1..]); }
  }

  lemma FirstLine(line: string, rest: string)
    requires Terminated(line)
    ensures Lines(line + rest) == [line] + Lines(rest)
  {
    var s, n := line + rest, |line| - 1;
    assert s[..n] == line[..n] && s[n] == '\n';
    var e := LineEnd(s);
    var k := if e <= n then 0 else n;
    assert 0 < e ==> s[..e][k] == s[k];
    assert e == n;
    assert s[..n + 1] == line && s[n + 1..] == rest;
  }

  lemma {:induction false} LinesOfConcat(lines: seq<string>)
    requires forall i :: 0 <= i < |lines| ==> Terminated(lines[i])
    ensures Lines(Concat(lines)) == lines
  {
    if lines != [] {
      FirstLine(lines[0], Concat(lines[1..]));
      LinesOfConcat(lines[1..]);
    }
  }

  // ---------------------------------------------------------------- replacing an entry

  function Kept(lines: seq<string>, role: string): seq<string> {
    if lines == [] then []
    else Kept(lines[..|lines| - 1], role)
         + if UserOf(lines[|lines| - 1]) == Some(role) then [] else [lines[|lines| - 1]]
  }

  predicate Holds(lines: seq<string>, role: string) { exists i :: 0 <= i < |lines| && UserOf(lines[i]) == Some(role) }

  datatype Outcome = Written | ParentUnsafe | FileExposed | AlreadyHeld | TemporaryTaken | WriteFailed

  /** What the file system answers: the directory's owner and mode, the file's mode, whether the
      temporary name was free, and whether writing and renaming succeeded. */
  datatype Host = Host(parentSafe: bool, fileSafe: bool, temporaryFree: bool, writes: bool)

  /** The checks in their order; `present` says whether there is a file, `held` whether it has the role. */
  function OutcomeOf(host: Host, present: bool, held: bool, rotate: bool): Outcome {
    if !host.parentSafe then ParentUnsafe
    else if present && !host.fileSafe then FileExposed
    else if held && !rotate then AlreadyHeld
    else if !host.temporaryFree then TemporaryTaken
    else if !host.writes then WriteFailed
    else Written
  }

  /** The lines of other users, and whether any were left out. */
  method Partition(lines: seq<string>, role: string) returns (kept: seq<string>, existing: bool)
    ensures kept == Kept(lines, role) && (existing <==> Holds(lines, role))
  {
    kept, existing := [], false;
    var i := 0;
    while i < |lines|
      invariant 0 <= i <= |lines| && kept == Kept(lines[..i], role)
      invariant existing <==> exists j :: 0 <= j < i && UserOf(lines[j]) == Some(role)
    {
      assert lines[..i + 1][..i] == lines[..i] && lines[..i + 1][i] == lines[i];
      var user := EntryUser(lines[i]);
      if user == Some(role) { existing := true; } else { kept := kept + [lines[i]]; }
      i := i + 1;
    }
    assert lines[..i] == lines;
  }

  class PassfileOnDisk {
    /** None while there is no file. */
    var content: Option<string>

    constructor ()
      ensures content == None
    {
      content := None;
    }

    /** write_passfile_entry. The file changes only when it answers Written: then it holds the lines of
        the other roles as read, in their order, and the new entry behind them. */
    method WriteEntry(e: Entry, rotate: bool, host: Host) returns (r: Outcome)
      modifies this
      ensures r == OutcomeOf(host, old(content).Some?, Holds(ReadLines(old(content)), e.role), rotate)
      ensures r == Written ==> content == Some(Concat(Kept(ReadLines(old(content)), e.role) + [Line(e)]))
      ensures r != Written ==> content == old(content)
    {
      if !host.parentSafe { return ParentUnsafe; }
      if content.Some? && !host.fileSafe { return FileExposed; }
      var lines := ReadLines(content);
      var kept, existing := Partition(lines, e.role);
      if existing && !rotate { return AlreadyHeld; }
      if !host.temporaryFree { return TemporaryTaken; }
      if !host.writes { return WriteFailed; }
      content := Some(Concat(kept + [Line(e)]));
      return Written;
    }
  }

  lemma {:induction false} KeptMembers(lines: seq<string>, role: string)
    ensures forall l :: l in Kept(lines, role) <==> l in lines && UserOf(l) != Some(role)
  {
    if lines != [] {
      var n := |lines| - 1;
      KeptMembers(lines[..n], role);
      assert lines == lines[..n] + [lines[n]];
    }
  }

  lemma {:induction false} LinesTerminated(s: string, i: nat)
    requires '\r' !in s && i < |Lines(s)|
    ensures Terminated(Lines(s)[i]) || (i == |Lines(s)| - 1 && NoBreak(Lines(s)[i]) && Lines(s)[i] != [])
    decreases |s|
  {
    if LineEnd(s) < |s| {
      var e := LineEnd(s);
      assert s[..e + 1][..e] == s[..e];
      if i > 0 { LinesTerminated(s[e + 1..], i - 1); }
    } else {
      assert s[..|s|] == s;
    }
  }

  lemma {:induction false} ConcatNoReturns(lines: seq<string>)
    requires forall l :: l in lines ==> NoBreak(l) || Terminated(l)
    ensures '\r' !in Concat(lines)
  {
    if lines != [] {
      var l := lines[0];
      assert Terminated(l) ==> l == l[..|l| - 1] + ['\n'];
      ConcatNoReturns(lines[1..]);
    }
  }

  lemma TerminatedReadBack(lines: seq<string>)
    requires forall l :: l in lines ==> Terminated(l)
    ensures ReadLines(Some(Concat(lines))) == lines
  {
    ConcatNoReturns(lines);
    UniversalKeeps(Concat(lines));
    LinesOfConcat(lines);
  }

  lemma ReadBackTerminated(lines: seq<string>, i: nat)
    requires ReadLines(Some(Concat(lines))) == lines && i < |lines| - 1
    ensures Terminated(lines[i])
  {
    UniversalKeeps(Concat(lines));
    LinesTerminated(Universal(Concat(lines)), i);
  }

  /** What a write leaves reads back as the other roles' lines and the new entry exactly when none of
      those lines lacks its newline, which only the last line of a file can. */
  lemma WriteReadsBack(kept: seq<string>, e: Entry)
    requires OneLine(e)
    ensures ReadLines(Some(Concat(kept + [Line(e)]))) == kept + [Line(e)] <==> forall l :: l in kept ==> Terminated(l)
  {
    var all := kept + [Line(e)];
    EntryReadsBack(e);
    if forall l :: l in kept ==> Terminated(l) {
      TerminatedReadBack(all);
    } else {
      var i :| 0 <= i < |kept| && !Terminated(kept[i]);
      if ReadLines(Some(Concat(all))) == all { ReadBackTerminated(all, i); }
    }
  }

  // ---------------------------------------------------------------- series of writes from an absent file

  /** The file as the entries it stands for: one per role, the last one written. */
  ghost predicate Stands(content: Option<string>, entries: seq<Entry>) {
    && ReadLines(content) == Printed(entries)
    && (forall i :: 0 <= i < |entries| ==> OneLine(entries[i]))
    && (forall i, j :: 0 <= i < j < |entries| ==> entries[i].role != entries[j].role)
  }

  function Printed(entries: seq<Entry>): (lines: seq<string>)
    ensures |lines| == |entries| && forall i :: 0 <= i < |lines| ==> lines[i] == Line(entries[i])
  {
    seq(|entries|, i requires 0 <= i < |entries| => Line(entries[i]))
  }

  function Others(entries: seq<Entry>, role: string): seq<Entry> {
    if entries == [] then []
    else Others(entries[..|entries| - 1], role)
         + if entries[|entries| - 1].role == role then [] else [entries[|entries| - 1]]
  }

  lemma {:induction false} KeptPrinted(entries: seq<Entry>, role: string)
    requires forall i :: 0 <= i < |entries| ==> OneLine(entries[i])
    ensures Kept(Printed(entries), role) == Printed(Others(entries, role))
  {
    if entries != [] {
      var n := |entries| - 1;
      EntryReadsBack(entries[n]);
      KeptPrinted(entries[..n], role);
      assert Printed(entries)[..n] == Printed(entries[..n]);
      assert Printed(Others(entries, role)) == Printed(Others(entries[..n], role))
          + if entries[n].role == role then [] else [Line(entries[n])];
    }
  }

  lemma {:induction false} OthersMembers(entries: seq<Entry>, role: string)
    ensures forall e :: e in Others(entries, role) <==> e in entries && e.role != role
    ensures (forall i, j :: 0 <= i < j < |entries| ==> entries[i].role != entries[j].role) ==>
              forall i, j :: 0 <= i < j < |Others(entries, role)| ==>
                Others(entries, role)[i].role != Others(entries, role)[j].role
  {
    if entries != [] {
      var n := |entries| - 1;
      OthersMembers(entries[..n], role);
      assert entries == entries[..n] + [entries[n]];
      forall e | e in Others(entries[..n], role) ensures e in entries[..n] {}
    }
  }

  lemma EntriesTerminated(entries: seq<Entry>)
    requires forall i :: 0 <= i < |entries| ==> OneLine(entries[i])
    ensures forall l :: l in Printed(entries) ==> Terminated(l)
  {
    forall i | 0 <= i < |entries| ensures Terminated(Printed(entries)[i]) { EntryReadsBack(entries[i]); }
  }

  /** A successful write replaces the role's entry and keeps every other role's. */
  lemma WriteStands(content: Option<string>, entries: seq<Entry>, e: Entry)
    requires Stands(content, entries) && OneLine(e)
    ensures Stands(Some(Concat(Kept(ReadLines(content), e.role) + [Line(e)])), Others(entries, e.role) + [e])
  {
    KeptPrinted(entries, e.role);
    OthersAndNew(entries, e);
    EntriesTerminated(Others(entries, e.role));
    WriteReadsBack(Printed(Others(entries, e.role)), e);
  }

  lemma OthersAndNew(entries: seq<Entry>, e: Entry)
    requires forall i :: 0 <= i < |entries| ==> OneLine(entries[i])
    requires forall i, j :: 0 <= i < j < |entries| ==> entries[i].role != entries[j].role
    requires OneLine(e)
    ensures forall i :: 0 <= i < |Others(entries, e.role)| ==> OneLine(Others(entries, e.role)[i])
    ensures var more := Others(entries, e.role) + [e];
      && (forall i :: 0 <= i < |more| ==> OneLine(more[i]))
      && (forall i, j :: 0 <= i < j < |more| ==> more[i].role != more[j].role)
      && Printed(more) == Printed(Others(entries, e.role)) + [Line(e)]
  {
    OthersMembers(entries, e.role);
    var others := Others(entries, e.role);
    forall i | 0 <= i < |others| ensures OneLine(others[i]) && others[i].role != e.role { assert others[i] in others; }
  }

  lemma StandsHolds(content: Option<string>, entries: seq<Entry>, role: string)
    requires Stands(content, entries)
    ensures Holds(ReadLines(content), role) <==> exists x :: x in entries && x.role == role
  {
    var lines := ReadLines(content);
    forall i | 0 <= i < |entries| ensures UserOf(lines[i]) == Some(entries[i].role) { EntryReadsBack(entries[i]); }
    if Holds(lines, role) {
      var i :| 0 <= i < |lines| && UserOf(lines[i]) == Some(role);
      assert entries[i] in entries;
    }
    if x :| x in entries && x.role == role {
      var i :| 0 <= i < |entries| && entries[i] == x;
      assert UserOf(lines[i]) == Some(role);
    }
  }

  /** A call in a series: what it writes, and whether the host let it. */
  datatype Call = Call(entry: Entry, rotate: bool, host: Host)

  /** What one more call means for the last entries written. */
  function LastAfter(before: map<string, Entry>, c: Call): map<string, Entry> {
    if OutcomeOf(c.host, before != map[], c.entry.role in before, c.rotate) != Written then before
    else before[c.entry.role := c.entry]
  }

  /** What the calls mean: the last entry written for each role. */
  function LastWritten(calls: seq<Call>): map<string, Entry> {
    if calls == [] then map[] else LastAfter(LastWritten(calls[..|calls| - 1]), calls[|calls| - 1])
  }

  lemma LastWrittenStep(calls: seq<Call>, i: nat)
    requires i < |calls|
    ensures LastWritten(calls[..i + 1]) == LastAfter(LastWritten(calls[..i]), calls[i])
  {
    assert calls[..i + 1][..i] == calls[..i] && calls[..i + 1][i] == calls[i];
  }

  ghost predicate Matches(entries: seq<Entry>, last: map<string, Entry>) {
    (forall e :: e in entries <==> e.role in last && last[e.role] == e) && (forall r :: r in last ==> last[r].role == r)
  }

  lemma OneMoreCall(entries: seq<Entry>, last: map<string, Entry>, e: Entry)
    requires Matches(entries, last)
    ensures Matches(Others(entries, e.role) + [e], last[e.role := e])
    ensures (exists x :: x in entries && x.role == e.role) <==> e.role in last
  {
    OthersMembers(entries, e.role);
    if e.role in last { assert last[e.role] in entries; }
  }

  /** The file stands for the entries, and they are the last ones written. */
  ghost predicate Follows(content: Option<string>, entries: seq<Entry>, last: map<string, Entry>) {
    Stands(content, entries) && Matches(entries, last) && (content.Some? <==> last != map[])
  }

  lemma OutcomesAgree(content: Option<string>, entries: seq<Entry>, last: map<string, Entry>, c: Call)
    requires Follows(content, entries, last)
    ensures OutcomeOf(c.host, content.Some?, Holds(ReadLines(content), c.entry.role), c.rotate)
         == OutcomeOf(c.host, last != map[], c.entry.role in last, c.rotate)
  {
    StandsHolds(content, entries, c.entry.role);
    OneMoreCall(entries, last, c.entry);
  }

  lemma WriteFollows(content: Option<string>, entries: seq<Entry>, last: map<string, Entry>, e: Entry)
    requires Follows(content, entries, last) && OneLine(e)
    ensures Follows(Some(Concat(Kept(ReadLines(content), e.role) + [Line(e)])), Others(entries, e.role) + [e], last[e.role := e])
  {
    WriteStands(content, entries, e);
    OneMoreCall(entries, last, e);
    assert e.role in last[e.role := e];
  }

  /** After any series of calls from an absent file there is exactly one entry for each role written,
      the last one written, and nothing else. */
  method WriteSeries(calls: seq<Call>) returns (file: PassfileOnDisk, ghost entries: seq<Entry>)
    requires forall i :: 0 <= i < |calls| ==> OneLine(calls[i].entry)
    ensures fresh(file) && Stands(file.content, entries) && Matches(entries, LastWritten(calls))
  {
    file := new PassfileOnDisk();
    entries := [];
    var i := 0;
    while i < |calls|
      invariant 0 <= i <= |calls| && fresh(file)
      invariant Follows(file.content, entries, LastWritten(calls[..i]))
    {
      var c := calls[i];
      ghost var last := LastWritten(calls[..i]);
      LastWrittenStep(calls, i);
      OutcomesAgree(file.content, entries, last, c);
      WriteFollows(file.content, entries, last, c.entry);
      var r := file.WriteEntry(c.entry, c.rotate, c.host);
      if r == Written { entries := Others(entries, c.entry.role) + [c.entry]; }
      i := i + 1;
    }
    assert calls[..i] == calls;
  }
}
