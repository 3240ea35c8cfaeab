/**
 The filter strings the memory store sends to its vector table: an id is quoted by doubling every
 quote in it, and lists of quoted ids are joined into an `IN` filter.  `Read...` is the reader on
 the other side: the character string literal of ISO/IEC 9075-2 section 5.3, in which two
 neighbouring quotes stand for one and a single quote ends the literal.
 */
module IdFilter {
  import opened Wrappers

  function Escape(id: string): string {
    if id == "" then ""
    else (if id[0] == '\'' then "''" else [id[0]]) + Escape(id[1..])
  }

  function Quote(id: string): string { "'" + Escape(id) + "'" }

  function QuoteAll(ids: seq<string>): seq<string> {
    if ids == [] then [] else [Quote(ids[0])] + QuoteAll(ids[1..])
  }

  function Join(parts: seq<string>, separator: string): string {
    if parts == [] then ""
    else if |parts| == 1 then parts[0]
    else parts[0] + separator + Join(parts[1..], separator)
  }

  /** The filter of `update` and `delete`. */
  function EqFilter(id: string): string { "id = " + Quote(id) }

  /** The filter of `fetch_by_ids`. */
  function InFilter(ids: seq<string>): string { "id IN (" + Join(QuoteAll(ids), ", ") + ")" }

  // --- The reader ---

  /** The rest of a literal after its opening quote: its value, and what follows its closing quote. */
  function ReadBody(s: string): (r: Option<(string, string)>)
    ensures r.Some? ==> |r.value.1| < |s|
    decreases |s|
  {
    if s == "" then None
    else if s[0] != '\'' then
      match ReadBody(s[1..])
      case None => None
      case Some((value, rest)) => Some(([s[0]] + value, rest))
    else if |s| > 1 && s[1] == '\'' then
      match ReadBody(s[2..])
      case None => None
      case Some((value, rest)) => Some((['\''] + value, rest))
    else Some(("", s[1..]))
  }

  function ReadLiteral(s: string): (r: Option<(string, string)>)
    ensures r.Some? ==> |r.value.1| < |s|
  {
    if s != "" && s[0] == '\'' then ReadBody(s[1..]) else None
  }

  function ReadExactly(keyword: string, s: string): Option<string> {
    if keyword <= s then Some(s[|keyword|..]) else None
  }

  /** One literal or more, separated by commas, up to a closing parenthesis that ends the text. */
  function ReadList(s: string): Option<seq<string>>
    decreases |s|
  {
    match ReadLiteral(s)
    case None => None
    case Some((id, rest)) =>
      if rest == ")" then Some([id])
      else
        match ReadExactly(", ", rest)
        case None => None
        case Some(more) =>
          match ReadList(more)
          case None => None
          case Some(ids) => Some([id] + ids)
  }

  function ReadInFilter(filter: string): Option<seq<string>> {
    match ReadExactly("id IN (", filter)
    case None => None
    case Some(list) => ReadList(list)
  }

  function ReadEqFilter(filter: string): Option<string> {
    match ReadExactly("id = ", filter)
    case None => None
    case Some(s) =>
      match ReadLiteral(s)
      case None => None
      case Some((id, rest)) => if rest == "" then Some(id) else None
  }

  // --- The writer, character by character ---

  lemma {:induction false} EscapeAppend(a: string, b: string)
    ensures Escape(a + b) == Escape(a) + Escape(b)
  {
    if a == "" {
      assert a + b == b;
    } else {
      EscapeAppend(a[1..], b);
      assert (a + b)[1..] == a[1..] + b;
      var first := if a[0] == '\'' then "''" else [a[0]];
      assert first + (Escape(a[1..]) + Escape(b)) == first + Escape(a[1..]) + Escape(b);
    }
  }

  /** Every quote is doubled and no other character is touched. */
  lemma QuotesAreDoubled(before: string, c: char, after: string)
    ensures Escape(before + [c] + after) == Escape(before) + (if c == '\'' then "''" else [c]) + Escape(after)
  {
    EscapeAppend(before + [c], after);
    EscapeAppend(before, [c]);
    assert Escape([c][1..]) == "";
  }

  /** The filters of ids without quotes, as text. */
  lemma PlainFilters(a: string, b: string)
    requires '\'' !in a && '\'' !in b
    ensures EqFilter(a) == "id = " + ("'" + a + "'")
    ensures InFilter([a, b]) == "id IN (" + (("'" + a + "'") + ", " + ("'" + b + "'")) + ")"
  {
    PlainEscape(a);
    PlainEscape(b);
    JoinedCons([a, b]);
    assert [a, b][1..] == [b];
    JoinedOne([b]);
  }

  lemma {:induction false} PlainEscape(id: string)
    requires '\'' !in id
    ensures Escape(id) == id
  {
    if id != "" {
      assert '\'' !in id[1..] && id[0] in id;
      PlainEscape(id[1..]);
    }
  }

  // --- Round trips ---

  /** A quoted id is read back whole wherever the next character is not another quote. */
  lemma {:induction false} EscapeReadsBack(id: string, rest: string)
    requires rest == "" || rest[0] != '\''
    ensures ReadBody(Escape(id) + "'" + rest) == Some((id, rest))
  {
    var s := Escape(id) + "'" + rest;
    if id == "" {
      assert s == "'" + rest;
      assert s[1..] == rest;
    } else {
      var tail := Escape(id[1..]) + "'" + rest;
      assert id == [id[0]] + id[1..];
      EscapeReadsBack(id[1..], rest);
      if id[0] == '\'' {
        assert s == "''" + tail;
        assert s[2..] == tail;
      } else {
        assert s == [id[0]] + tail;
        assert s[1..] == tail;
      }
    }
  }

  lemma QuoteReadsBack(id: string, rest: string)
    requires rest == "" || rest[0] != '\''
    ensures ReadLiteral(Quote(id) + rest) == Some((id, rest))
  {
    EscapeReadsBack(id, rest);
    assert (Quote(id) + rest)[1..] == Escape(id) + "'" + rest;
  }

  lemma JoinedCons(ids: seq<string>)
    requires |ids| > 1
    ensures Join(QuoteAll(ids), ", ") == Quote(ids[0]) + ", " + Join(QuoteAll(ids[1..]), ", ")
  {
    var rest := QuoteAll(ids[1..]);
    assert |rest| > 0;
    assert ([Quote(ids[0])] + rest)[1..] == rest;
  }

  lemma ReadCons(id: string, more: string, ids: seq<string>)
    requires ReadList(more) == Some(ids)
    ensures ReadList(Quote(id) + (", " + more)) == Some([id] + ids)
  {
    var rest := ", " + more;
    QuoteReadsBack(id, rest);
    assert |rest| >= 2 && rest[..2] == ", " && rest[2..] == more;
    assert ReadExactly(", ", rest) == Some(more);
  }

  lemma ReadLast(id: string)
    ensures ReadList(Quote(id) + ")") == Some([id])
  {
    QuoteReadsBack(id, ")");
  }

  lemma JoinedOne(ids: seq<string>)
    requires |ids| == 1
    ensures Join(QuoteAll(ids), ", ") == Quote(ids[0])
  {
    assert QuoteAll(ids[1..]) == [];
  }

  lemma {:induction false} ListReadsBack(ids: seq<string>)
    requires ids != []
    ensures ReadList(Join(QuoteAll(ids), ", ") + ")") == Some(ids)
  {
    if |ids| == 1 {
      JoinedOne(ids);
      ReadLast(ids[0]);
      assert ids == [ids[0]];
    } else {
      ListReadsBack(ids[1..]);
      JoinedCons(ids);
      var more := Join(QuoteAll(ids[1..]), ", ") + ")";
      ReadCons(ids[0], more, ids[1..]);
      ConcatAll(Quote(ids[0]), ", ", Join(QuoteAll(ids[1..]), ", "), ")");
      assert ids == [ids[0]] + ids[1..];
    }
  }

  lemma ConcatAll(a: string, b: string, c: string, d: string)
    ensures a + b + c + d == a + (b + (c + d))
  {
  }

  /** The filter names exactly the ids it was built from, whatever characters they contain. */
  lemma InFilterReadsBack(ids: seq<string>)
    requires ids != []
    ensures ReadInFilter(InFilter(ids)) == Some(ids)
  {
    ListReadsBack(ids);
    assert InFilter(ids)[|"id IN ("|..] == Join(QuoteAll(ids), ", ") + ")";
  }

  lemma EqFilterReadsBack(id: string)
    ensures ReadEqFilter(EqFilter(id)) == Some(id)
  {
    QuoteReadsBack(id, "");
    assert EqFilter(id)[|"id = "|..] == Quote(id) + "";
  }
}
