/** The SQL printers, and readers that undo them. */
module Quoting {
  import opened Common

  /** A printed text, or the ValueError for a NUL byte. */
  datatype Printed = Text(text: string) | NulByte

  const NUL := 0 as char

  /** What a reader took and what it left. */
  datatype Read<T> = Read(value: T, rest: string)

  // ---------------------------------------------------------------- the printers

  /** text.replace(q, q + q) */
  function Doubled(q: char, s: string): string {
    if s == [] then [] else (if s[0] == q then [q, q] else [s[0]]) + Doubled(q, s[1..])
  }

  function Quoted(q: char, s: string): string { [q] + Doubled(q, s) + [q] }

  function Ident(name: string): Printed {
    if NUL in name then NulByte else Text(Quoted('"', name))
  }

  function Lit(value: Option<string>): Printed {
    match value
    case None => Text("NULL")
    case Some(s) => if NUL in s then NulByte else Text(Quoted('\'', s))
  }

  function Qualified(schema: string, name: string): Printed {
    match (Ident(schema), Ident(name))
    case (Text(a), Text(b)) => Text(a + "." + b)
    case _ => NulByte
  }

  /** ",".join(lit(v) for v in values) */
  function Joined(values: seq<Option<string>>): Printed {
    if values == [] then Text("")
    else
      match (Lit(values[0]), Joined(values[1..]))
      case (Text(a), Text(b)) => Text(if |values| == 1 then a else a + "," + b)
      case _ => NulByte
  }

  function TextArray(values: seq<Option<string>>): Printed {
    match Joined(values)
    case Text(items) => Text("ARRAY[" + items + "]::text[]")
    case NulByte => NulByte
  }

  // ---------------------------------------------------------------- the readers

  /** The rest of a quoted token after its opening quote: a doubled quote is one quote, a single one ends it. */
  function ReadBody(q: char, s: string): Option<Read<string>>
    decreases |s|
  {
    if s == [] then None
    else if s[0] != q then
      match ReadBody(q, s[1..])
      case None => None
      case Some(r) => Some(Read([s[0]] + r.value, r.rest))
    else if |s| > 1 && s[1] == q then
      match ReadBody(q, s[2..])
      case None => None
      case Some(r) => Some(Read([q] + r.value, r.rest))
    else Some(Read("", s[1..]))
  }

  function ReadQuoted(q: char, s: string): Option<Read<string>> {
    if s == [] || s[0] != q then None else ReadBody(q, s[1..])
  }

  function ReadLiteral(s: string): Option<Read<Option<string>>> {
    if "NULL" <= s then Some(Read(None, s[4..]))
    else
      match ReadQuoted('\'', s)
      case None => None
      case Some(r) => Some(Read(Some(r.value), r.rest))
  }

  function ReadQualified(s: string): Option<Read<(string, string)>> {
    match ReadQuoted('"', s)
    case None => None
    case Some(a) =>
      if a.rest == [] || a.rest[0] != '.' then None
      else
        match ReadQuoted('"', a.rest[1..])
        case None => None
        case Some(b) => Some(Read((a.value, b.value), b.rest))
  }

  /** Literals between commas, up to the closing bracket. */
  function ReadItems(s: string): Option<Read<seq<Option<string>>>>
    decreases |s|
  {
    match ReadLiteral(s)
    case None => None
    case Some(first) =>
      if first.rest == [] || |first.rest| >= |s| then None
      else if first.rest[0] == ']' then Some(Read([first.value], first.rest[1..]))
      else if first.rest[0] != ',' then None
      else
        match ReadItems(first.rest[1..])
        case None => None
        case Some(more) => Some(Read([first.value] + more.value, more.rest))
  }

  function ReadTextArray(s: string): Option<Read<seq<Option<string>>>> {
    if !("ARRAY[" <= s) then None
    else
      var items := if "]" <= s[6..] then Some(Read([], s[7..])) else ReadItems(s[6..]);
      match items
      case None => None
      case Some(r) => if "::text[]" <= r.rest then Some(Read(r.value, r.rest[8..])) else None
  }

  // ---------------------------------------------------------------- reading back what was printed

  predicate StartsWith(q: char, s: string) { s != [] && s[0] == q }

  lemma {:induction false} BodyReadsBack(q: char, s: string, tail: string)
    requires !StartsWith(q, tail)
    ensures ReadBody(q, Doubled(q, s) + [q] + tail) == Some(Read(s, tail))
  {
    var text := Doubled(q, s) + [q] + tail;
    if s == [] {
      assert text == [q] + tail;
    } else {
      var more := Doubled(q, s[1..]) + [q] + tail;
      BodyReadsBack(q, s[1..], tail);
      if s[0] == q {
        assert text[0] == q && text[1] == q && text[2..] == more;
      } else {
        assert text[0] == s[0] && text[1..] == more;
      }
      assert s == [s[0]] + s[1..];
    }
  }

  /** A quoted token is read back exactly, and nothing after it is touched, just when the text that
      follows does not begin with the quote. */
  lemma QuotedReadsBack(q: char, s: string, tail: string)
    ensures ReadQuoted(q, Quoted(q, s) + tail) == Some(Read(s, tail)) <==> !StartsWith(q, tail)
  {
    var text := Quoted(q, s) + tail;
    assert text[1..] == Doubled(q, s) + [q] + tail;
    if StartsWith(q, tail) {
      QuoteSwallowed(q, s, tail);
    } else {
      BodyReadsBack(q, s, tail);
    }
  }

  lemma {:induction false} QuoteSwallowed(q: char, s: string, tail: string)
    requires StartsWith(q, tail)
    ensures ReadBody(q, Doubled(q, s) + [q] + tail) != Some(Read(s, tail))
  {
    var text := Doubled(q, s) + [q] + tail;
    if s == [] {
      assert text[0] == q && text[1] == q;
    } else {
      var more := Doubled(q, s[1..]) + [q] + tail;
      QuoteSwallowed(q, s[1..], tail);
      if s[0] == q {
        assert text[0] == q && text[1] == q && text[2..] == more;
      } else {
        assert text[0] == s[0] && text[1..] == more;
      }
    }
  }

  /** Whatever the reader accepts is what the printer prints for the value it read. */
  lemma {:induction false} BodyPrintsBack(q: char, text: string)
    requires ReadBody(q, text).Some?
    ensures var r := ReadBody(q, text).value; text == Doubled(q, r.value) + [q] + r.rest
    decreases |text|
  {
    if text[0] != q {
      BodyPrintsBack(q, text[1..]);
    } else if |text| > 1 && text[1] == q {
      BodyPrintsBack(q, text[2..]);
    }
  }

  lemma QuotedPrintsBack(q: char, text: string)
    requires ReadQuoted(q, text).Some?
    ensures var r := ReadQuoted(q, text).value; text == Quoted(q, r.value) + r.rest && !StartsWith(q, r.rest)
  {
    BodyPrintsBack(q, text[1..]);
    var r := ReadQuoted(q, text).value;
    QuotedReadsBack(q, r.value, r.rest);
  }

  predicate Printable(value: Option<string>) { value.Some? ==> NUL !in value.value }

  /** lit: refused exactly for a NUL, otherwise read back with nothing lost and nothing taken. */
  lemma LitReadsBack(value: Option<string>, tail: string)
    requires !StartsWith('\'', tail)
    ensures Lit(value).NulByte? <==> !Printable(value)
    ensures Lit(value).Text? ==> ReadLiteral(Lit(value).text + tail) == Some(Read(value, tail))
  {
    match value
    case None =>
    case Some(s) =>
      QuotedReadsBack('\'', s, tail);
      assert (Quoted('\'', s) + tail)[0] == '\'';
  }

  lemma IdentReadsBack(name: string, tail: string)
    requires !StartsWith('"', tail)
    ensures Ident(name).NulByte? <==> NUL in name
    ensures Ident(name).Text? ==> ReadQuoted('"', Ident(name).text + tail) == Some(Read(name, tail))
  {
    QuotedReadsBack('"', name, tail);
  }

  /** A schema and a name cannot run into each other. */
  lemma QualifiedReadsBack(schema: string, name: string, tail: string)
    requires !StartsWith('"', tail)
    ensures Qualified(schema, name).NulByte? <==> NUL in schema || NUL in name
    ensures Qualified(schema, name).Text? ==>
              ReadQualified(Qualified(schema, name).text + tail) == Some(Read((schema, name), tail))
  {
    if Qualified(schema, name).Text? {
      var b := Quoted('"', name) + tail;
      assert Qualified(schema, name).text + tail == Quoted('"', schema) + ("." + b);
      IdentReadsBack(schema, "." + b);
      IdentReadsBack(name, tail);
      assert ("." + b)[1..] == b;
    }
  }

  lemma {:induction false} ItemsReadBack(values: seq<Option<string>>, tail: string)
    requires values != [] && Joined(values).Text?
    ensures ReadItems(Joined(values).text + "]" + tail) == Some(Read(values, tail))
  {
    var first := Lit(values[0]).text;
    if |values| == 1 {
      assert first + "]" + tail == first + ("]" + tail);
      LitReadsBack(values[0], "]" + tail);
      assert values == [values[0]] && ("]" + tail)[1..] == tail;
    } else {
      var more := Joined(values[1..]).text + "]" + tail;
      assert Joined(values).text + "]" + tail == first + ("," + more);
      LitReadsBack(values[0], "," + more);
      assert ("," + more)[1..] == more;
      ItemsReadBack(values[1..], tail);
      assert values == [values[0]] + values[1..];
    }
  }

  lemma {:induction false} JoinedRefused(values: seq<Option<string>>)
    ensures Joined(values).NulByte? <==> exists i :: 0 <= i < |values| && !Printable(values[i])
  {
    if values != [] {
      JoinedRefused(values[1..]);
      if i :| 0 <= i < |values| && !Printable(values[i]) {
        if i > 0 { assert values[1..][i - 1] == values[i]; }
      }
    }
  }

  /** Where the pieces of a printed array lie. */
  lemma ArrayPieces(items: string, tail: string)
    ensures var s := "ARRAY[" + items + "]::text[]" + tail; var cast := "::text[]" + tail;
      && s[..6] == "ARRAY[" && s[6..] == items + "]" + cast && cast[8..] == tail
      && (items == "" ==> s[6] == ']' && s[7..] == cast)
  {
    var s, cast := "ARRAY[" + items + "]::text[]" + tail, "::text[]" + tail;
    var rest := items + "]" + cast;
    assert s == "ARRAY[" + rest;
    assert items == "" ==> rest == "]" + cast && s[7..] == rest[1..];
  }

  /** text_array: every list of strings and NULLs is read back whole, the empty one included. */
  lemma TextArrayReadsBack(values: seq<Option<string>>, tail: string)
    ensures TextArray(values).NulByte? <==> exists i :: 0 <= i < |values| && !Printable(values[i])
    ensures TextArray(values).Text? ==> ReadTextArray(TextArray(values).text + tail) == Some(Read(values, tail))
  {
    JoinedRefused(values);
    if TextArray(values).Text? {
      var items := Joined(values).text;
      ArrayPieces(items, tail);
      if values != [] {
        ItemsReadBack(values, "::text[]" + tail);
        FirstIsNoBracket(values);
      }
    }
  }

  lemma FirstIsNoBracket(values: seq<Option<string>>)
    requires values != [] && Joined(values).Text?
    ensures var t := Joined(values).text; t != [] && t[0] != ']'
  {
  }
}
