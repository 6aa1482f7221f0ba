/** Positional `?` parameters: the lexer that finds them, and the template it makes of a
    statement. */
module Placeholders {
  import opened Text
  import opened DollarQuote
  import opened SqlModes

  // ----- Tokens -----

  /** Just past the newline that ends the line, or the end. */
  function LineEnd(s: string, i: nat): (e: nat)
    requires i <= |s|
    ensures i <= e <= |s|
    ensures i < |s| ==> i < e
    decreases |s| - i
  {
    if i == |s| then i else if s[i] == '\n' then i + 1 else LineEnd(s, i + 1)
  }

  /** Just past the first star-slash from `i` on, or the end. */
  function BlockEnd(s: string, i: nat): (e: nat)
    requires i <= |s|
    ensures i <= e <= |s|
    decreases |s| - i
  {
    if i == |s| then i
    else if s[i] == '*' && i + 1 < |s| && s[i + 1] == '/' then i + 2
    else BlockEnd(s, i + 1)
  }

  /** The end of the token that starts at `i`. */
  function TokenEnd(s: string, i: nat): (e: nat)
    requires i < |s|
    ensures i < e <= |s|
  {
    if s[i] == '$' && DollarEnd(s, i) > i then DollarEnd(s, i)
    else if IsQuote(s[i]) then QuoteEnd(s, i + 1, s[i])
    else if PairAt(s, i, '-', '-') then LineEnd(s, i)
    else if PairAt(s, i, '/', '*') then BlockEnd(s, i + 1)
    else i + 1
  }

  // ----- The template -----

  datatype Piece = Chunk(text: string) | Hole

  /** The statement from `i` on, cut into verbatim chunks and holes. */
  function Pieces(s: string, i: nat): seq<Piece>
    requires i <= |s|
    decreases |s| - i
  {
    if i == |s| then []
    else if s[i] == '?' then [Hole] + Pieces(s, i + 1)
    else [Chunk(s[i..TokenEnd(s, i)])] + Pieces(s, TokenEnd(s, i))
  }

  function Template(s: string): seq<Piece> { Pieces(s, 0) }

  function Holes(ps: seq<Piece>): nat {
    if ps == [] then 0 else (if ps[0].Hole? then 1 else 0) + Holes(ps[1..])
  }

  /** The chunks, with the k-th hole from `first` on filled by `visitor(k)`. */
  function Fill(ps: seq<Piece>, first: nat, visitor: nat -> string): string {
    if ps == [] then ""
    else if ps[0].Hole? then visitor(first) + Fill(ps[1..], first + 1, visitor)
    else ps[0].text + Fill(ps[1..], first, visitor)
  }

  // ----- The code -----

  method CopyQuoted(s: string, start: nat) returns (i: nat, copied: string)
    requires start < |s| && IsQuote(s[start])
    ensures i == QuoteEnd(s, start + 1, s[start]) && copied == s[start..i]
  {
    var c := s[start];
    copied := [c];
    i := start + 1;
    while i < |s|
      invariant start < i <= |s| && copied == s[start..i]
      invariant QuoteEnd(s, i, c) == QuoteEnd(s, start + 1, c)
    {
      copied := copied + [s[i]];
      if s[i] == '\\' && i + 1 < |s| {
        i := i + 1;
        copied := copied + [s[i]];
        i := i + 1;
        continue;
      }
      if s[i] == c {
        if i + 1 < |s| && s[i + 1] == c {
          i := i + 1;
          copied := copied + [s[i]];
        } else {
          return i + 1, copied;
        }
      }
      i := i + 1;
    }
  }

  method CopyLine(s: string, start: nat) returns (i: nat, copied: string)
    requires start <= |s|
    ensures i == LineEnd(s, start) && copied == s[start..i]
  {
    copied := "";
    i := start;
    while i < |s| && s[i] != '\n'
      invariant start <= i <= |s| && copied == s[start..i]
      invariant LineEnd(s, i) == LineEnd(s, start)
    {
      copied := copied + [s[i]];
      i := i + 1;
    }
    if i < |s| {
      copied := copied + [s[i]];
      i := i + 1;
    }
  }

  method CopyBlock(s: string, start: nat) returns (i: nat, copied: string)
    requires start < |s|
    ensures i == BlockEnd(s, start + 1) && copied == s[start..i]
  {
    copied := [s[start]];
    i := start + 1;
    while i < |s|
      invariant start < i <= |s| && copied == s[start..i]
      invariant BlockEnd(s, i) == BlockEnd(s, start + 1)
    {
      copied := copied + [s[i]];
      if s[i] == '*' && i + 1 < |s| && s[i + 1] == '/' {
        i := i + 1;
        copied := copied + [s[i]];
        i := i + 1;
        return;
      }
      i := i + 1;
    }
  }

  /** One token copied verbatim. */
  method CopyToken(s: string, start: nat) returns (i: nat, copied: string)
    requires start < |s|
    ensures i == TokenEnd(s, start) && copied == s[start..i]
  {
    if s[start] == '$' {
      i := ScanDollar(s, start);
      if i > start {
        return i, s[start..i];
      }
    }
    if IsQuote(s[start]) {
      i, copied := CopyQuoted(s, start);
    } else if start + 1 < |s| && s[start] == '-' && s[start + 1] == '-' {
      i, copied := CopyLine(s, start);
    } else if start + 1 < |s| && s[start] == '/' && s[start + 1] == '*' {
      i, copied := CopyBlock(s, start);
    } else {
      i, copied := start + 1, [s[start]];
    }
  }

  /** 0, 1, ..., n - 1. */
  function Counting(n: nat): seq<nat> { seq(n, k => k) }

  lemma CountingStep(n: nat)
    ensures Counting(n) + [n] == Counting(n + 1)
  {
  }

  /** Copies `sql`, calling `visitor` for each placeholder; `calls` records the calls. */
  method ReplacePlaceholders(sql: string, visitor: nat -> string)
    returns (out: string, found: nat, calls: seq<nat>)
    ensures out == Fill(Template(sql), 0, visitor)
    ensures found == Holes(Template(sql))
    ensures calls == Counting(found)
  {
    out, found, calls := "", 0, [];
    var i := 0;
    while i < |sql|
      invariant 0 <= i <= |sql|
      invariant out + Fill(Pieces(sql, i), found, visitor) == Fill(Template(sql), 0, visitor)
      invariant found + Holes(Pieces(sql, i)) == Holes(Template(sql))
      invariant calls == Counting(found)
    {
      if sql[i] == '?' {
        HoleStep(sql, i, found, visitor);
        Assoc(out, visitor(found), Fill(Pieces(sql, i + 1), found + 1, visitor));
        out := out + visitor(found);
        CountingStep(found);
        calls := calls + [found];
        found := found + 1;
        i := i + 1;
      } else {
        ChunkStep(sql, i, found, visitor);
        var e, copied := CopyToken(sql, i);
        Assoc(out, copied, Fill(Pieces(sql, e), found, visitor));
        out := out + copied;
        i := e;
      }
    }
  }

  lemma HoleStep(s: string, i: nat, k: nat, visitor: nat -> string)
    requires i < |s| && s[i] == '?'
    ensures Fill(Pieces(s, i), k, visitor) == visitor(k) + Fill(Pieces(s, i + 1), k + 1, visitor)
    ensures Holes(Pieces(s, i)) == 1 + Holes(Pieces(s, i + 1))
  {
    assert Pieces(s, i)[1..] == Pieces(s, i + 1);
  }

  lemma ChunkStep(s: string, i: nat, k: nat, visitor: nat -> string)
    requires i < |s| && s[i] != '?'
    ensures Fill(Pieces(s, i), k, visitor)
            == s[i..TokenEnd(s, i)] + Fill(Pieces(s, TokenEnd(s, i)), k, visitor)
    ensures Holes(Pieces(s, i)) == Holes(Pieces(s, TokenEnd(s, i)))
  {
    assert Pieces(s, i)[1..] == Pieces(s, TokenEnd(s, i));
  }

  datatype Result<+T> = Ok(value: T) | Mismatch(supplied: nat, placeholders: nat)

  /** `buildSql`, with each parameter already rendered as a literal. */
  method BuildSql(sql: string, literals: seq<string>) returns (r: Result<string>)
    ensures r.Ok? <==> Holes(Template(sql)) == |literals|
    ensures r.Ok? ==> r.value == Fill(Template(sql), 0, Supply(literals))
    ensures r.Mismatch? ==> r == Mismatch(|literals|, Holes(Template(sql)))
  {
    var out, used, _ := ReplacePlaceholders(sql, Supply(literals));
    if used != |literals| {
      return Mismatch(|literals|, used);
    }
    return Ok(out);
  }

  function Supply(literals: seq<string>): nat -> string {
    (k: nat) => if k < |literals| then literals[k] else "?"
  }

  // ----- What the template is -----

  /** The template is the statement: filling every hole with "?" gives the SQL back. */
  lemma {:induction false} TemplateFlattens(s: string, i: nat, k: nat)
    requires i <= |s|
    ensures Fill(Pieces(s, i), k, _ => "?") == s[i..]
    decreases |s| - i
  {
    if i < |s| {
      if s[i] == '?' {
        HoleStep(s, i, k, _ => "?");
        TemplateFlattens(s, i + 1, k + 1);
        Between(s, i, i + 1, |s|);
        assert s[i..] == s[i..|s|] && s[i + 1..] == s[i + 1..|s|] && s[i..i + 1] == "?";
      } else {
        ChunkStep(s, i, k, _ => "?");
        TemplateFlattens(s, TokenEnd(s, i), k);
        Between(s, i, TokenEnd(s, i), |s|);
        assert s[i..] == s[i..|s|] && s[TokenEnd(s, i)..] == s[TokenEnd(s, i)..|s|];
      }
    }
  }

  lemma VisitingWithQuestionMarks(sql: string)
    ensures Fill(Template(sql), 0, _ => "?") == sql
  {
    TemplateFlattens(sql, 0, 0);
  }

  /** The text around the holes is fixed: the j-th piece of the statement is at the same place
      in every output, after the pieces before it. */
  lemma {:induction false} FillSplits(ps: seq<Piece>, qs: seq<Piece>, k: nat, visitor: nat -> string)
    ensures Fill(ps + qs, k, visitor) == Fill(ps, k, visitor) + Fill(qs, k + Holes(ps), visitor)
  {
    if ps == [] {
      assert ps + qs == qs;
    } else {
      assert (ps + qs)[1..] == ps[1..] + qs;
      FillSplits(ps[1..], qs, if ps[0].Hole? then k + 1 else k, visitor);
    }
  }

  // ----- Which question marks are holes -----

  function StepEnd(s: string, i: nat): (e: nat)
    requires i < |s|
    ensures i < e <= |s|
  {
    if s[i] == '?' then i + 1 else TokenEnd(s, i)
  }

  /** A line comment ends just past the first newline, or with the statement. */
  lemma {:induction false} LineEndIs(s: string, i: nat, e: nat)
    requires FirstNewline(s, i, e)
    ensures LineEnd(s, i) == if e < |s| then e + 1 else e
    decreases e - i
  {
    if i < e {
      LineEndIs(s, i + 1, e);
    }
  }

  lemma {:induction false} LineEndFirst(s: string, i: nat) returns (e: nat)
    requires i <= |s|
    ensures FirstNewline(s, i, e)
    decreases |s| - i
  {
    if i == |s| || s[i] == '\n' {
      e := i;
    } else {
      e := LineEndFirst(s, i + 1);
    }
  }

  /** A block comment ends just past the first star-slash, or with the statement. */
  lemma {:induction false} BlockEndIs(s: string, i: nat) returns (c: int)
    requires i <= |s|
    ensures FirstClose(s, i, c) && BlockEnd(s, i) == if c < 0 then |s| else c + 2
    decreases |s| - i
  {
    if i == |s| {
      c := -1;
    } else if PairAt(s, i, '*', '/') {
      c := i;
    } else {
      c := BlockEndIs(s, i + 1);
    }
  }

  lemma LineSpans(s: string, i: nat)
    requires PairAt(s, i, '-', '-') && ModeAt(s, i + 1, true) == Line
    ensures Spans(s, i + 1, LineEnd(s, i), true)
  {
    var e := LineEndFirst(s, i);
    LineEndIs(s, i, e);
    forall k | i < k <= e ensures ModeAt(s, k, true) == Line && (k == e < |s| ==> ModeAt(s, e + 1, true) == Outside) {
      LineModes(s, i + 1, e, k, true);
    }
  }

  /** A token reaches exactly to the next character that is read outside. */
  lemma StepSpans(s: string, i: nat)
    requires i < |s| && Free(s, i, true)
    ensures Spans(s, i + 1, StepEnd(s, i), true)
  {
    assert ModeAt(s, i + 1, true) == Opened(s, i);
    if s[i] == '$' && DollarEnd(s, i) > i {
      DollarSpans(s, i, true);
    } else if IsQuote(s[i]) {
      QuoteSpans(s, i + 1, s[i], true);
    } else if PairAt(s, i, '-', '-') {
      LineSpans(s, i);
    } else if PairAt(s, i, '/', '*') {
      var c := BlockEndIs(s, i + 1);
      BlockSpans(s, i + 1, c, true);
    }
  }

  /** The question marks from `i` on that are read outside every region. */
  ghost function OpenMarks(s: string, i: nat): set<nat>
    requires i <= |s|
  {
    set p | i <= p < |s| && s[p] == '?' && Free(s, p, true)
  }

  function PieceAt(s: string, i: nat): Piece
    requires i < |s|
  {
    if s[i] == '?' then Hole else Chunk(s[i..StepEnd(s, i)])
  }

  lemma PiecesStep(s: string, i: nat)
    requires i < |s|
    ensures Pieces(s, i) == [PieceAt(s, i)] + Pieces(s, StepEnd(s, i))
    ensures Holes(Pieces(s, i)) == (if s[i] == '?' then 1 else 0) + Holes(Pieces(s, StepEnd(s, i)))
  {
    assert Pieces(s, i)[1..] == Pieces(s, StepEnd(s, i));
  }

  lemma MarksStep(s: string, i: nat, e: nat)
    requires i < |s| && Free(s, i, true) && Spans(s, i + 1, e, true)
    ensures OpenMarks(s, i) == (if s[i] == '?' then {i} else {}) + OpenMarks(s, e) && i !in OpenMarks(s, e)
  {
  }

  lemma {:induction false} HolesFrom(s: string, i: nat)
    requires i <= |s| && (i < |s| ==> Free(s, i, true))
    ensures Holes(Pieces(s, i)) == |OpenMarks(s, i)|
    decreases |s| - i
  {
    if i < |s| {
      var e := StepEnd(s, i);
      StepSpans(s, i);
      HolesFrom(s, e);
      PiecesStep(s, i);
      MarksStep(s, i, e);
    }
  }

  /** There are as many placeholders as question marks that are read outside quoted regions,
      dollar-quoted regions and comments. */
  lemma HolesAreOutside(s: string)
    ensures Holes(Template(s)) == |set p | 0 <= p < |s| && s[p] == '?' && Free(s, p, true)|
  {
    HolesFrom(s, 0);
    assert OpenMarks(s, 0) == set p | 0 <= p < |s| && s[p] == '?' && Free(s, p, true);
  }

  lemma NextFree(s: string, i: nat, p: nat)
    requires i < p < |s| && Free(s, i, true) && Free(s, p, true)
    ensures StepEnd(s, i) <= p && Free(s, StepEnd(s, i), true)
  {
    StepSpans(s, i);
  }

  lemma HoleHere(s: string, p: nat)
    requires p < |s| && s[p] == '?'
    ensures Pieces(s, p) == [] + ([Hole] + Pieces(s, p + 1)) && Fill([], 0, _ => "?") == s[p..p]
  {
  }

  lemma Between(s: string, i: nat, e: nat, p: nat)
    requires i <= e <= p <= |s|
    ensures s[i..p] == s[i..e] + s[e..p]
  {
  }

  lemma FillStep(s: string, i: nat, more: seq<Piece>)
    requires i < |s|
    ensures Fill([PieceAt(s, i)] + more, 0, _ => "?") == s[i..StepEnd(s, i)] + Fill(more, 0, _ => "?")
  {
    var ps := [PieceAt(s, i)] + more;
    assert ps[1..] == more;
    AnyNumbering(more, 1, 0);
    assert s[i] == '?' ==> s[i..i + 1] == "?";
  }

  /** A placeholder is where such a question mark is: the pieces in front of it are the text in
      front of it, and those behind it are the text behind. */
  lemma {:induction false} HoleStands(s: string, i: nat, p: nat) returns (ahead: seq<Piece>)
    requires i <= p < |s| && Free(s, i, true) && s[p] == '?' && Free(s, p, true)
    ensures Pieces(s, i) == ahead + ([Hole] + Pieces(s, p + 1))
    ensures Fill(ahead, 0, _ => "?") == s[i..p]
    decreases p - i
  {
    PiecesStep(s, i);
    if i == p {
      ahead := [];
      HoleHere(s, p);
    } else {
      var e := StepEnd(s, i);
      NextFree(s, i, p);
      var more := HoleStands(s, e, p);
      ahead := [PieceAt(s, i)] + more;
      Assoc([PieceAt(s, i)], more, [Hole] + Pieces(s, p + 1));
      FillStep(s, i, more);
      Between(s, i, e, p);
    }
  }

  /** Answering "?" does not depend on the numbers. */
  lemma {:induction false} AnyNumbering(ps: seq<Piece>, k: nat, m: nat)
    ensures Fill(ps, k, _ => "?") == Fill(ps, m, _ => "?")
  {
    if ps != [] {
      AnyNumbering(ps[1..], k, m);
      AnyNumbering(ps[1..], k + 1, m + 1);
    }
  }

  /** The question marks in front of `p` that are read outside every region. */
  ghost function MarksBefore(s: string, p: nat): set<nat>
    requires p <= |s|
  {
    set q | 0 <= q < p && s[q] == '?' && Free(s, q, true)
  }

  lemma {:induction false} HolesSplit(ps: seq<Piece>, qs: seq<Piece>)
    ensures Holes(ps + qs) == Holes(ps) + Holes(qs)
  {
    if ps == [] {
      assert ps + qs == qs;
    } else {
      assert (ps + qs)[1..] == ps[1..] + qs;
      HolesSplit(ps[1..], qs);
    }
  }

  lemma MarksSplit(s: string, p: nat)
    requires p < |s| && s[p] == '?' && Free(s, p, true)
    ensures |OpenMarks(s, 0)| == |MarksBefore(s, p)| + 1 + |OpenMarks(s, p + 1)|
  {
    var rest := {p} + OpenMarks(s, p + 1);
    assert |rest| == 1 + |OpenMarks(s, p + 1)|;
    assert OpenMarks(s, 0) == MarksBefore(s, p) + rest && MarksBefore(s, p) !! rest;
  }

  lemma CountsBefore(s: string, p: nat, ahead: seq<Piece>)
    requires p < |s| && s[p] == '?' && Free(s, p, true) && Pieces(s, 0) == ahead + ([Hole] + Pieces(s, p + 1))
    ensures Holes(ahead) == |MarksBefore(s, p)|
  {
    StepSpans(s, p);
    HolesFrom(s, 0);
    HolesFrom(s, p + 1);
    MarksSplit(s, p);
    HolesSplit(ahead, [Hole] + Pieces(s, p + 1));
    HolesSplit([Hole], Pieces(s, p + 1));
    assert Holes([Hole]) == 1;
  }

  /** The visitor's k-th answer stands where the k-th question mark outside every region stood. */
  lemma MarkFilled(s: string, p: nat, visitor: nat -> string) returns (front: string, back: string)
    requires p < |s| && s[p] == '?' && Free(s, p, true)
    ensures Fill(Template(s), 0, visitor) == front + (visitor(|MarksBefore(s, p)|) + back)
    ensures exists ahead, behind :: Template(s) == ahead + ([Hole] + behind)
              && front == Fill(ahead, 0, visitor) && Fill(ahead, 0, _ => "?") == s[..p]
              && back == Fill(behind, |MarksBefore(s, p)| + 1, visitor) && Fill(behind, 0, _ => "?") == s[p + 1..]
  {
    var ahead := HoleStands(s, 0, p);
    var behind := Pieces(s, p + 1);
    var n := |MarksBefore(s, p)|;
    CountsBefore(s, p, ahead);
    FillSplits(ahead, [Hole] + behind, 0, visitor);
    assert ([Hole] + behind)[1..] == behind;
    front, back := Fill(ahead, 0, visitor), Fill(behind, n + 1, visitor);
    TemplateFlattens(s, p + 1, 0);
    assert s[0..p] == s[..p];
  }

  // ----- Appending letters -----

  lemma {:induction false} QuoteEndAppend(s: string, t: string, i: nat, q: char)
    requires i <= |s| && Letters(t) && IsQuote(q)
    ensures var e, f := QuoteEnd(s, i, q), QuoteEnd(s + t, i, q);
            f == e || (e == |s| && f >= |s|)
    decreases |s| - i
  {
    var u := s + t;
    if i + 1 < |s| {
      assert u[i] == s[i] && u[i + 1] == s[i + 1];
      QuoteEndAppend(s, t, i + 1, q);
      QuoteEndAppend(s, t, i + 2, q);
    } else if i + 1 == |s| {
      assert u[i] == s[i];
      assert t != [] ==> u[i + 1] == t[0];
    }
  }

  lemma {:induction false} LineEndAppend(s: string, t: string, i: nat)
    requires i <= |s|
    ensures var e, f := LineEnd(s, i), LineEnd(s + t, i);
            f == e || (e == |s| && f >= |s|)
    decreases |s| - i
  {
    if i < |s| {
      assert (s + t)[i] == s[i];
      LineEndAppend(s, t, i + 1);
    }
  }

  lemma {:induction false} BlockEndAppend(s: string, t: string, i: nat)
    requires i <= |s| && Letters(t)
    ensures var e, f := BlockEnd(s, i), BlockEnd(s + t, i);
            f == e || (e == |s| && f >= |s|)
    decreases |s| - i
  {
    if i < |s| {
      var u := s + t;
      assert u[i] == s[i];
      assert i + 1 < |u| ==> u[i + 1] == if i + 1 < |s| then s[i + 1] else t[i + 1 - |s|];
      BlockEndAppend(s, t, i + 1);
    }
  }

  lemma TokenEndAppend(s: string, t: string, i: nat)
    requires i < |s| && Letters(t)
    ensures var e, f := TokenEnd(s, i), TokenEnd(s + t, i);
            f == e || (e == |s| && f >= |s|)
  {
    var u := s + t;
    assert u[i] == s[i];
    assert i + 1 < |u| ==> u[i + 1] == if i + 1 < |s| then s[i + 1] else t[i + 1 - |s|];
    if s[i] == '$' {
      DollarEndAppend(s, t, i);
    } else if IsQuote(s[i]) {
      QuoteEndAppend(s, t, i + 1, s[i]);
    } else if PairAt(s, i, '-', '-') {
      LineEndAppend(s, t, i);
    } else if PairAt(s, i, '/', '*') {
      BlockEndAppend(s, t, i + 1);
    }
  }

  lemma {:induction false} NoHolesInTail(s: string, i: nat)
    requires i <= |s| && forall k | i <= k < |s| :: IsAlpha(s[k])
    ensures Holes(Pieces(s, i)) == 0
    decreases |s| - i
  {
    if i < |s| {
      NoHolesInTail(s, i + 1);
      ChunkStep(s, i, 0, _ => "");
    }
  }

  /** Letters appended to a statement, wherever its last token ends, add no placeholder. */
  lemma {:induction false} HolesAppend(s: string, t: string, i: nat)
    requires i <= |s| && Letters(t)
    ensures Holes(Pieces(s + t, i)) == Holes(Pieces(s, i))
    decreases |s| - i
  {
    var u := s + t;
    assert forall k | |s| <= k < |u| :: u[k] == t[k - |s|];
    if i == |s| {
      NoHolesInTail(u, i);
    } else if s[i] == '?' {
      HolesAppend(s, t, i + 1);
      HoleStep(s, i, 0, _ => "");
      HoleStep(u, i, 0, _ => "");
    } else {
      TokenEndAppend(s, t, i);
      var e, f := TokenEnd(s, i), TokenEnd(u, i);
      ChunkStep(s, i, 0, _ => "");
      ChunkStep(u, i, 0, _ => "");
      if e == |s| {
        NoHolesInTail(u, f);
      } else {
        HolesAppend(s, t, e);
      }
    }
  }
}
