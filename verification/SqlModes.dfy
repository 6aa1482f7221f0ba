/** How each character of a statement is to be read: a machine that goes through the statement one
    character at a time.  It is the reference for the two lexers that jump from region to region. */
module SqlModes {
  import opened DollarQuote

  predicate IsQuote(c: char) { c == '\'' || c == '"' || c == '`' }

  /** `s` holds `x` and then `y` at position `i`. */
  predicate PairAt(s: string, i: nat, x: char, y: char) {
    i + 1 < |s| && s[i] == x && s[i + 1] == y
  }

  /** What the characters read so far leave open.  `Closed` means that the last one was a quote
      that closes its region unless it is doubled, `LastSlash` that a block comment ends with the
      next character. */
  datatype Mode =
    | Outside
    | Quoted(quote: char)
    | Escaped(quote: char)
    | Closed(quote: char)
    | Line
    | BlockOpen
    | Block
    | LastSlash
    | Dollar(end: nat)

  /** Reading the character at `i` outside every region. */
  function Opened(s: string, i: nat): Mode
    requires i < |s|
  {
    if s[i] == '$' && DollarEnd(s, i) > i then Dollar(DollarEnd(s, i))
    else if IsQuote(s[i]) then Quoted(s[i])
    else if PairAt(s, i, '-', '-') then Line
    else if PairAt(s, i, '/', '*') then BlockOpen
    else Outside
  }

  /** Reading one character.  If `eager`, the star that opens a block comment can close it too. */
  function Next(s: string, i: nat, m: Mode, eager: bool): Mode
    requires i < |s|
  {
    match m
    case Outside => Opened(s, i)
    case Quoted(q) => if s[i] == '\\' then Escaped(q) else if s[i] == q then Closed(q) else m
    case Escaped(q) => Quoted(q)
    case Closed(q) => if s[i] == q then Quoted(q) else Opened(s, i)
    case Line => if s[i] == '\n' then Outside else m
    case BlockOpen => if eager && PairAt(s, i, '*', '/') then LastSlash else Block
    case Block => if PairAt(s, i, '*', '/') then LastSlash else m
    case LastSlash => Outside
    case Dollar(end) => if i + 1 == end then Outside else m
  }

  /** The mode in which the character at `i` is read. */
  function ModeAt(s: string, i: nat, eager: bool): Mode
    requires i <= |s|
  {
    if i == 0 then Outside else Next(s, i - 1, ModeAt(s, i - 1, eager), eager)
  }

  /** The character at `i` is outside every region, or starts one. */
  predicate Free(s: string, i: nat, eager: bool)
    requires i < |s|
  {
    var m := ModeAt(s, i, eager);
    m.Outside? || (m.Closed? && s[i] != m.quote)
  }

  // ----- Quoted regions -----

  /** Just past the quote that closes a region whose body starts at `i`, or the end. */
  function QuoteEnd(s: string, i: nat, quote: char): (e: nat)
    requires i <= |s|
    ensures i <= e <= |s|
    decreases |s| - i
  {
    if i == |s| then i
    else if s[i] == '\\' && i + 1 < |s| then QuoteEnd(s, i + 2, quote)
    else if s[i] == quote then
      if i + 1 < |s| && s[i + 1] == quote then QuoteEnd(s, i + 2, quote) else i + 1
    else QuoteEnd(s, i + 1, quote)
  }

  /** Nothing between `i` and `e` is free, and what follows is. */
  ghost predicate Spans(s: string, i: nat, e: nat, eager: bool) {
    && i <= e <= |s| && (forall k | i <= k < e :: !Free(s, k, eager)) && (e < |s| ==> Free(s, e, eager))
  }

  lemma {:induction false} QuoteSpans(s: string, i: nat, quote: char, eager: bool)
    requires i <= |s| && IsQuote(quote) && ModeAt(s, i, eager) == Quoted(quote)
    ensures Spans(s, i, QuoteEnd(s, i, quote), eager)
    decreases |s| - i
  {
    if i < |s| {
      assert ModeAt(s, i + 1, eager) == Next(s, i, Quoted(quote), eager);
      if s[i] == '\\' && i + 1 < |s| {
        assert ModeAt(s, i + 2, eager) == Quoted(quote);
        QuoteSpans(s, i + 2, quote, eager);
      } else if s[i] == quote {
        if i + 1 < |s| && s[i + 1] == quote {
          assert ModeAt(s, i + 2, eager) == Quoted(quote);
          QuoteSpans(s, i + 2, quote, eager);
        }
      } else if i + 1 < |s| {
        QuoteSpans(s, i + 1, quote, eager);
      }
    }
  }

  // ----- Line comments -----

  /** The first newline from `i` on, or the end. */
  ghost predicate FirstNewline(s: string, i: nat, e: nat) {
    i <= e <= |s| && (forall k | i <= k < e :: s[k] != '\n') && (e < |s| ==> s[e] == '\n')
  }

  lemma {:induction false} LineModes(s: string, i: nat, e: nat, k: nat, eager: bool)
    requires FirstNewline(s, i, e) && ModeAt(s, i, eager) == Line && i <= k <= e
    ensures ModeAt(s, k, eager) == Line
    ensures k == e < |s| ==> ModeAt(s, e + 1, eager) == Outside
    decreases k
  {
    if i < k {
      LineModes(s, i, e, k - 1, eager);
    }
  }

  // ----- Block comments -----

  /** The first star-slash from `i` on, or -1. */
  ghost predicate FirstClose(s: string, i: nat, c: int) {
    if c < 0 then forall k | i <= k < |s| :: !PairAt(s, k, '*', '/')
    else i <= c && PairAt(s, c, '*', '/') && forall k | i <= k < c :: !PairAt(s, k, '*', '/')
  }

  lemma {:induction false} BlockModes(s: string, i: nat, c: int, k: nat, eager: bool)
    requires i <= |s| && FirstClose(s, i, c) && ModeAt(s, i, eager) == Block && i <= k <= (if c < 0 then |s| else c)
    ensures ModeAt(s, k, eager) == Block
    decreases k
  {
    if i < k {
      BlockModes(s, i, c, k - 1, eager);
    }
  }

  /** A block comment from its first star on. */
  lemma BlockSpans(s: string, i: nat, c: int, eager: bool)
    requires i < |s| && ModeAt(s, i, eager) == BlockOpen && FirstClose(s, if eager then i else i + 1, c)
    ensures Spans(s, i, if c < 0 then |s| else c + 2, eager)
  {
    assert ModeAt(s, i + 1, eager) == if eager && PairAt(s, i, '*', '/') then LastSlash else Block;
    var e := if c < 0 then |s| else c + 2;
    if c == i {
      assert ModeAt(s, i + 2, eager) == Outside;
    } else {
      forall k | i < k <= (if c < 0 then |s| else c) ensures ModeAt(s, k, eager) == Block {
        BlockModes(s, i + 1, c, k, eager);
      }
      if c >= 0 {
        assert ModeAt(s, c + 1, eager) == LastSlash && ModeAt(s, c + 2, eager) == Outside;
      }
    }
  }

  // ----- Dollar-quoted regions -----

  lemma {:induction false} DollarModes(s: string, i: nat, e: nat, k: nat, eager: bool)
    requires i < k <= e <= |s| && ModeAt(s, i + 1, eager) == Dollar(e) && i + 1 < e
    ensures ModeAt(s, k, eager) == if k == e then Outside else Dollar(e)
    decreases k
  {
    if i + 1 < k {
      DollarModes(s, i, e, k - 1, eager);
    }
  }

  lemma DollarSpans(s: string, i: nat, eager: bool)
    requires i < |s| && s[i] == '$' && DollarEnd(s, i) > i && ModeAt(s, i + 1, eager) == Dollar(DollarEnd(s, i))
    ensures Spans(s, i + 1, DollarEnd(s, i), eager)
  {
    var e := DollarEnd(s, i);
    forall k | i < k <= e ensures ModeAt(s, k, eager) == if k == e then Outside else Dollar(e) {
      DollarModes(s, i, e, k, eager);
    }
  }
}
