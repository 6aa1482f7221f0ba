/** Blanking the literals and comments of a statement, in place, before keywords are searched. */
module LiteralMask {
  import opened DollarQuote
  import opened SqlModes

  // ----- Regions -----

  /** A line comment ends at its newline, which stays. */
  function LineEnd(s: string, i: nat): (e: nat)
    requires i <= |s|
    ensures i <= e <= |s|
    decreases |s| - i
  {
    if i < |s| && s[i] != '\n' then LineEnd(s, i + 1) else i
  }

  function BlockEnd(s: string, i: nat): (e: nat)
    requires i + 2 <= |s|
    ensures i + 2 <= e <= |s|
  {
    var close := Find(s, "*/", i + 2);
    if close < 0 then |s| else close + 2
  }

  /** The end of the region that starts at `i`, or `i` itself if none does. */
  function RegionEnd(s: string, i: nat): (e: nat)
    requires i < |s|
    ensures i <= e <= |s|
  {
    if PairAt(s, i, '-', '-') then LineEnd(s, i)
    else if PairAt(s, i, '/', '*') then BlockEnd(s, i)
    else if IsQuote(s[i]) then QuoteEnd(s, i + 1, s[i])
    else if s[i] == '$' then DollarEnd(s, i)
    else i
  }

  function Cleared(s: string, from: nat, to: nat): (t: string)
    requires from <= to <= |s|
    ensures |t| == |s|
  {
    seq(|s|, k requires 0 <= k < |s| => if from <= k < to then ' ' else s[k])
  }

  function MaskFrom(s: string, i: nat): (m: string)
    decreases |s| - i
  {
    if i >= |s| then s
    else
      var e := RegionEnd(s, i);
      if e > i then MaskFrom(Cleared(s, i, e), e) else MaskFrom(s, i + 1)
  }

  function Mask(s: string): string { MaskFrom(s, 0) }

  // ----- The loops -----

  /** Blanking the next position, or one blanked before. */
  lemma ClearedWrite(s: string, from: nat, to: nat, i: nat)
    requires from <= i <= to <= |s| && i < |s|
    ensures Cleared(s, from, to)[i := ' '] == Cleared(s, from, if i == to then to + 1 else to)
    ensures Cleared(s, from, from) == s
  {
  }

  method MaskLine(a: array<char>, start: nat) returns (i: nat)
    requires start < a.Length
    modifies a
    ensures i == LineEnd(old(a[..]), start)
    ensures a[..] == Cleared(old(a[..]), start, i)
  {
    ghost var was := a[..];
    i := start;
    ClearedWrite(was, start, start, start);
    while i < a.Length && a[i] != '\n'
      invariant start <= i <= a.Length && a[..] == Cleared(was, start, i)
      invariant LineEnd(was, i) == LineEnd(was, start)
    {
      ghost var before := a[..];
      assert a[i] == before[i] == was[i];
      ClearedWrite(was, start, i, i);
      a[i] := ' ';
      assert a[..] == before[i := ' '];
      i := i + 1;
    }
    assert i < a.Length ==> a[i] == a[..][i] == was[i];
  }

  method Clear(a: array<char>, from: nat, to: nat, ghost was: string, ghost start: nat)
    requires start <= from <= to <= a.Length == |was| && a[..] == Cleared(was, start, from)
    modifies a
    ensures a[..] == Cleared(was, start, to)
  {
    for p := from to to
      invariant a[..] == Cleared(was, start, p)
    {
      ghost var before := a[..];
      ClearedWrite(was, start, p, p);
      a[p] := ' ';
      assert a[..] == before[p := ' '];
    }
  }

  /** Blanks the next position of a region, or one blanked before. */
  method WriteBlank(a: array<char>, i: nat, ghost was: string, ghost start: nat, ghost done: nat)
    requires start <= i <= done <= |was| == a.Length && i < |was| && a[..] == Cleared(was, start, done)
    modifies a
    ensures a[..] == Cleared(was, start, if i == done then done + 1 else done)
  {
    ghost var before := a[..];
    ClearedWrite(was, start, done, i);
    a[i] := ' ';
    assert a[..] == before[i := ' '];
  }

  lemma ClearedAt(s: string, from: nat, to: nat, i: nat)
    requires from <= i <= to <= |s| && i < |s|
    ensures Cleared(s, from, to)[i] == if i < to then ' ' else s[i]
    ensures to <= i + 1 < |s| ==> Cleared(s, from, to)[i + 1] == s[i + 1]
  {
  }

  method MaskQuoted(a: array<char>, start: nat) returns (i: nat)
    requires start < a.Length && IsQuote(a[start])
    modifies a
    ensures i == QuoteEnd(old(a[..]), start + 1, old(a[start]))
    ensures a[..] == Cleared(old(a[..]), start, i)
  {
    ghost var was := a[..];
    var quote, n := a[start], a.Length;
    ClearedWrite(was, start, start, start);
    WriteBlank(a, start, was, start, start);
    i := start + 1;
    // After an escape the index stays on the blank just written.
    ghost var done := i;
    while i < n
      invariant start < i <= done <= n && done <= i + 1
      invariant a[..] == Cleared(was, start, done)
      invariant QuoteEnd(was, done, quote) == QuoteEnd(was, start + 1, quote)
      decreases n - i
    {
      ClearedAt(was, start, done, i);
      assert a[i] == a[..][i] && (i + 1 < n ==> a[i + 1] == a[..][i + 1]);
      var doubled := i + 1 < n && a[i + 1] == quote;
      if a[i] == '\\' && i + 1 < n {
        WriteBlank(a, i, was, start, done);
        i := i + 1;
        WriteBlank(a, i, was, start, i);
        done := i + 1;
        continue;
      }
      if a[i] == quote {
        WriteBlank(a, i, was, start, done);
        done := i + 1;
        if doubled {
          i := i + 1;
          WriteBlank(a, i, was, start, i);
          done := i + 1;
        } else {
          i := i + 1;
          break;
        }
      }
      WriteBlank(a, i, was, start, done);
      done := if done == i then i + 1 else done;
      i := i + 1;
    }
  }

  method MaskBlock(a: array<char>, start: nat) returns (i: nat)
    requires PairAt(a[..], start, '/', '*')
    modifies a
    ensures i == BlockEnd(old(a[..]), start)
    ensures a[..] == Cleared(old(a[..]), start, i)
  {
    ghost var was := a[..];
    ClearedWrite(was, start, start, start);
    ClearedWrite(was, start, start + 1, start + 1);
    a[start] := ' ';
    a[start + 1] := ' ';
    assert a[..] == was[start := ' '][start + 1 := ' '];
    FindAhead(a[..], was, "*/", start + 2);
    var close := Find(a[..], "*/", start + 2);
    i := if close < 0 then a.Length else close + 2;
    Clear(a, start + 2, i, was, start);
  }

  /** The code's loop over the whole statement. */
  method MaskLiteralRegions(a: array<char>)
    modifies a
    ensures a[..] == Mask(old(a[..]))
  {
    var n, i := a.Length, 0;
    while i < n
      invariant 0 <= i <= n && MaskFrom(a[..], i) == Mask(old(a[..]))
    {
      ghost var was := a[..];
      if a[i] == '-' && i + 1 < n && a[i + 1] == '-' {
        assert PairAt(was, i, '-', '-');
        i := MaskLine(a, i);
      } else if a[i] == '/' && i + 1 < n && a[i + 1] == '*' {
        assert PairAt(was, i, '/', '*');
        i := MaskBlock(a, i);
      } else if IsQuote(a[i]) {
        i := MaskQuoted(a, i);
      } else {
        var e := i;
        if a[i] == '$' {
          e := ScanDollar(a[..], i);
        }
        if e > i {
          ClearedWrite(was, i, i, i);
          Clear(a, i, e, was, i);
          i := e;
        } else {
          i := i + 1;
        }
      }
    }
  }

  // ----- Searching ahead -----

  /** What lies before the search's start does not matter. */
  lemma FindAhead(s: string, t: string, pattern: string, from: nat)
    requires |s| == |t| && from <= |s| && forall k | from <= k < |s| :: s[k] == t[k]
    ensures Find(s, pattern, from) == Find(t, pattern, from)
  {
    forall p: nat | from <= p ensures MatchesAt(s, pattern, p) <==> MatchesAt(t, pattern, p) {
      if p + |pattern| <= |s| {
        assert s[p..p + |pattern|] == t[p..p + |pattern|];
      }
    }
    FindSame(s, t, pattern, from);
  }

  // ----- What masking does -----

  /** A region starts at `i`. */
  predicate Opens(s: string, i: nat)
    requires i < |s|
  {
    RegionEnd(s, i) > i
  }

  lemma OpensWhen(s: string, i: nat)
    requires i < |s|
    ensures Opens(s, i) <==> PairAt(s, i, '-', '-') || PairAt(s, i, '/', '*') || IsQuote(s[i])
                             || (s[i] == '$' && DollarEnd(s, i) > i)
  {
  }

  /** `m` is `s` with some characters blanked. */
  ghost predicate Blanked(m: string, s: string) {
    |m| == |s| && forall k | 0 <= k < |s| :: m[k] == ' ' || m[k] == s[k]
  }

  /** A match without blanks was one before. */
  lemma MatchBlanked(m: string, s: string, d: string, p: nat)
    requires Blanked(m, s) && MatchesAt(m, d, p) && ' ' !in d
    ensures MatchesAt(s, d, p)
  {
    var q := p + |d|;
    forall k | p <= k < q ensures m[k] == s[k] {
      assert m[p..q][k - p] == m[k];
      assert d[k - p] in d;
    }
    assert s[p..q] == m[p..q];
  }

  lemma TagBlanked(m: string, s: string, i: nat, e: nat)
    requires Blanked(m, s) && i < |s| && m[i] == '$' && e == TagEnd(m, i + 1) && ValidTag(m, i, e)
    ensures s[i] == '$' && TagEnd(s, i + 1) == e && ValidTag(s, i, e) && s[i..e + 1] == m[i..e + 1]
    ensures ' ' !in m[i..e + 1]
  {
    TagEndIs(m, i + 1, e);
    assert forall k | i <= k <= e :: m[k] == s[k] && m[k] != ' ';
    TagEndIs(s, i + 1, e);
  }

  /** A dollar region of a blanked text was one before. */
  lemma DollarBlanked(m: string, s: string, i: nat)
    requires Blanked(m, s) && i < |s| && m[i] == '$' && DollarEnd(m, i) > i
    ensures s[i] == '$' && DollarEnd(s, i) > i
  {
    var e := TagEnd(m, i + 1);
    DollarOpens(m, i, e);
    TagBlanked(m, s, i, e);
    FindBlanked(m, s, m[i..e + 1], e + 1);
    DollarOpens(s, i, e);
  }

  lemma FindBlanked(m: string, s: string, d: string, from: nat)
    requires Blanked(m, s) && ' ' !in d && Find(m, d, from) >= 0
    ensures Find(s, d, from) >= 0
  {
    var p := Find(m, d, from);
    MatchBlanked(m, s, d, p);
    FindFirst(s, d, from, p);
  }

  lemma DollarOpens(s: string, i: nat, e: nat)
    requires i < |s| && s[i] == '$' && e == TagEnd(s, i + 1)
    ensures DollarEnd(s, i) > i <==> ValidTag(s, i, e) && Find(s, s[i..e + 1], e + 1) >= 0
  {
  }

  lemma OpensBlanked(m: string, s: string, i: nat)
    requires Blanked(m, s) && i < |s| && Opens(m, i)
    ensures Opens(s, i)
  {
    OpensWhen(m, i);
    OpensWhen(s, i);
    if m[i] == '$' && DollarEnd(m, i) > i {
      DollarBlanked(m, s, i);
    }
  }

  /** Masking only blanks, and what it leaves from `i` on starts no region. */
  lemma {:induction false} MaskFromBlanks(s: string, i: nat)
    requires i <= |s|
    ensures Blanked(MaskFrom(s, i), s)
    ensures forall k | i <= k < |s| && Opens(s, k) :: MaskFrom(s, i)[k] == ' '
    ensures forall k | 0 <= k < i :: MaskFrom(s, i)[k] == s[k]
    decreases |s| - i
  {
    if i < |s| {
      var e := RegionEnd(s, i);
      if e > i {
        var t := Cleared(s, i, e);
        MaskFromBlanks(t, e);
        forall k | e <= k < |s| && Opens(s, k) ensures Opens(t, k) {
          OpensAhead(s, t, k);
        }
      } else {
        MaskFromBlanks(s, i + 1);
      }
    }
  }

  ghost predicate AgreeFrom(s: string, t: string, i: nat) {
    |s| == |t| && forall k | i <= k < |s| :: s[k] == t[k]
  }

  lemma OpensAhead(s: string, t: string, i: nat)
    requires AgreeFrom(s, t, i) && i < |s| && Opens(s, i)
    ensures Opens(t, i)
  {
    OpensWhen(s, i);
    OpensWhen(t, i);
    if s[i] == '$' && DollarEnd(s, i) > i {
      DollarAhead(s, t, i);
    }
  }

  lemma DollarAhead(s: string, t: string, i: nat)
    requires AgreeFrom(s, t, i) && i < |s| && s[i] == '$'
    ensures DollarEnd(s, i) == DollarEnd(t, i)
  {
    var e := TagEnd(s, i + 1);
    TagEndIs(s, i + 1, e);
    TagEndIs(t, i + 1, e);
    RegionAhead(s, t, i, e);
  }

  lemma RegionAhead(s: string, t: string, i: nat, e: nat)
    requires AgreeFrom(s, t, i) && i < e <= |s|
    ensures RegionAfter(s, i, e) == RegionAfter(t, i, e)
  {
    if ValidTag(s, i, e) {
      assert s[i..e + 1] == t[i..e + 1];
      FindAhead(s, t, s[i..e + 1], e + 1);
    }
  }

  lemma {:induction false} MaskFromQuiet(s: string, i: nat)
    requires forall k | i <= k < |s| :: !Opens(s, k)
    ensures MaskFrom(s, i) == s
    decreases |s| - i
  {
    if i < |s| {
      assert !Opens(s, i);
      MaskFromQuiet(s, i + 1);
    }
  }

  /** Masking keeps the length and only ever writes spaces; no literal or comment is left, and
      no quote character is. */
  lemma MaskBlanks(s: string)
    ensures Blanked(Mask(s), s)
    ensures forall k | 0 <= k < |s| :: !Opens(Mask(s), k) && !IsQuote(Mask(s)[k])
  {
    var m := Mask(s);
    MaskFromBlanks(s, 0);
    forall k | 0 <= k < |s| ensures !Opens(m, k) && !IsQuote(m[k]) {
      OpensWhen(m, k);
      if Opens(m, k) {
        OpensBlanked(m, s, k);
      }
    }
  }

  /** A second masking changes nothing. */
  lemma MaskIdempotent(s: string)
    ensures Mask(Mask(s)) == Mask(s)
  {
    MaskBlanks(s);
    MaskFromQuiet(Mask(s), 0);
  }

  /** A statement is left alone exactly if no region starts anywhere in it. */
  lemma MaskUnchanged(s: string)
    ensures Mask(s) == s <==> forall k | 0 <= k < |s| :: !Opens(s, k)
  {
    if Mask(s) == s {
      MaskBlanks(s);
    } else if forall k | 0 <= k < |s| :: !Opens(s, k) {
      MaskFromQuiet(s, 0);
    }
  }

  // ----- What is masked -----

  /** The character at `p` is blanked: it starts a region or is inside one, unless it is the newline
      that ends a line comment. */
  predicate Masked(s: string, p: nat)
    requires p < |s|
  {
    if Free(s, p, false) then !Opened(s, p).Outside? else !(ModeAt(s, p, false) == Line && s[p] == '\n')
  }

  lemma {:induction false} LineEndIs(s: string, i: nat)
    requires i <= |s|
    ensures FirstNewline(s, i, LineEnd(s, i))
    decreases |s| - i
  {
    if i < |s| && s[i] != '\n' {
      LineEndIs(s, i + 1);
    }
  }

  lemma BlockEndIs(s: string, i: nat) returns (c: int)
    requires i + 2 <= |s|
    ensures FirstClose(s, i + 2, c) && BlockEnd(s, i) == if c < 0 then |s| else c + 2
  {
    c := Find(s, "*/", i + 2);
    forall k: nat | k + 1 < |s| ensures PairAt(s, k, '*', '/') <==> MatchesAt(s, "*/", k) {
      assert s[k..k + 2] == [s[k], s[k + 1]];
    }
    forall k: nat | i + 2 <= k < |s| && PairAt(s, k, '*', '/') ensures 0 <= c <= k {
      FindFirst(s, "*/", i + 2, k);
    }
  }

  /** The scan resumes at the next free character, or at the newline that ends a line comment. */
  predicate Resumes(s: string, i: nat) {
    i < |s| ==> Free(s, i, false) || (ModeAt(s, i, false) == Line && s[i] == '\n')
  }

  /** From `i` up to `e` everything is masked, and there the scan resumes. */
  ghost predicate Hides(s: string, i: nat, e: nat) {
    i <= e <= |s| && (forall k | i <= k < e :: Masked(s, k)) && Resumes(s, e)
  }

  lemma SpansHides(s: string, i: nat, e: nat)
    requires Spans(s, i, e, false) && forall k | i <= k < e :: !ModeAt(s, k, false).Line?
    ensures Hides(s, i, e)
  {
  }

  lemma LineHides(s: string, i: nat)
    requires PairAt(s, i, '-', '-') && ModeAt(s, i + 1, false) == Line
    ensures Hides(s, i + 1, LineEnd(s, i))
  {
    var e := LineEnd(s, i);
    LineEndIs(s, i);
    forall k | i < k <= e ensures ModeAt(s, k, false) == Line {
      LineModes(s, i + 1, e, k, false);
    }
  }

  lemma {:induction false} NotLine(s: string, i: nat, k: nat, e: nat)
    requires i <= k < e && Spans(s, i, e, false) && !ModeAt(s, i, false).Line? && i < |s|
    ensures !ModeAt(s, k, false).Line?
    decreases k
  {
    if i < k {
      NotLine(s, i, k - 1, e);
      assert !Free(s, k - 1, false) && ModeAt(s, k, false) == Next(s, k - 1, ModeAt(s, k - 1, false), false);
    }
  }

  lemma OtherHides(s: string, i: nat, e: nat)
    requires i < |s| && Spans(s, i, e, false) && !ModeAt(s, i, false).Line?
    ensures Hides(s, i, e)
  {
    forall k | i <= k < e ensures !ModeAt(s, k, false).Line? {
      NotLine(s, i, k, e);
    }
    SpansHides(s, i, e);
  }

  lemma BlockHides(s: string, i: nat)
    requires PairAt(s, i, '/', '*') && ModeAt(s, i + 1, false) == BlockOpen
    ensures Hides(s, i + 1, BlockEnd(s, i))
  {
    var c := BlockEndIs(s, i);
    BlockSpans(s, i + 1, c, false);
    OtherHides(s, i + 1, BlockEnd(s, i));
  }

  lemma QuoteHides(s: string, i: nat)
    requires i < |s| && IsQuote(s[i]) && ModeAt(s, i + 1, false) == Quoted(s[i])
    ensures Hides(s, i + 1, QuoteEnd(s, i + 1, s[i]))
  {
    if i + 1 < |s| {
      QuoteSpans(s, i + 1, s[i], false);
      OtherHides(s, i + 1, QuoteEnd(s, i + 1, s[i]));
    }
  }

  lemma DollarHides(s: string, i: nat)
    requires i < |s| && s[i] == '$' && DollarEnd(s, i) > i && ModeAt(s, i + 1, false) == Dollar(DollarEnd(s, i))
    ensures Hides(s, i + 1, DollarEnd(s, i))
  {
    DollarSpans(s, i, false);
    if i + 1 < |s| {
      OtherHides(s, i + 1, DollarEnd(s, i));
    }
  }

  /** What one turn of the scan steps over. */
  lemma RegionHides(s: string, i: nat)
    requires i < |s| && Free(s, i, false)
    ensures var e := RegionEnd(s, i);
            if e > i then Hides(s, i, e) else !Masked(s, i) && Resumes(s, i + 1)
  {
    assert ModeAt(s, i + 1, false) == Opened(s, i);
    if PairAt(s, i, '-', '-') {
      LineHides(s, i);
    } else if PairAt(s, i, '/', '*') {
      BlockHides(s, i);
    } else if IsQuote(s[i]) {
      QuoteHides(s, i);
    } else if s[i] == '$' && DollarEnd(s, i) > i {
      DollarHides(s, i);
    }
  }

  lemma NewlineResumes(s: string, i: nat)
    requires i < |s| && ModeAt(s, i, false) == Line && s[i] == '\n'
    ensures RegionEnd(s, i) == i && !Masked(s, i) && Resumes(s, i + 1)
  {
    assert ModeAt(s, i + 1, false) == Outside;
  }

  // The scan works on a text whose part behind it is blanked already.

  lemma {:induction false} QuoteEndAhead(s: string, t: string, i: nat, quote: char)
    requires AgreeFrom(s, t, i) && i <= |s|
    ensures QuoteEnd(s, i, quote) == QuoteEnd(t, i, quote)
    decreases |s| - i
  {
    if i < |s| {
      QuoteEndAhead(s, t, i + 1, quote);
      if i + 1 < |s| {
        QuoteEndAhead(s, t, i + 2, quote);
      }
    }
  }

  lemma {:induction false} LineEndAhead(s: string, t: string, i: nat)
    requires AgreeFrom(s, t, i) && i <= |s|
    ensures LineEnd(s, i) == LineEnd(t, i)
    decreases |s| - i
  {
    if i < |s| {
      LineEndAhead(s, t, i + 1);
    }
  }

  lemma RegionEndAhead(s: string, t: string, i: nat)
    requires AgreeFrom(s, t, i) && i < |s|
    ensures RegionEnd(s, i) == RegionEnd(t, i)
  {
    LineEndAhead(s, t, i);
    QuoteEndAhead(s, t, i + 1, s[i]);
    if PairAt(s, i, '/', '*') {
      FindAhead(s, t, "*/", i + 2);
    }
    if s[i] == '$' {
      DollarAhead(s, t, i);
    }
  }

  lemma {:induction false} MaskFromExact(s: string, t: string, i: nat, p: nat)
    requires i <= |s| && AgreeFrom(s, t, i) && Resumes(s, i) && p < |s|
    ensures |MaskFrom(t, i)| == |s|
    ensures MaskFrom(t, i)[p] == if p < i then t[p] else if Masked(s, p) then ' ' else s[p]
    decreases |s| - i
  {
    if i < |s| {
      var e := RegionEnd(s, i);
      RegionEndAhead(s, t, i);
      if Free(s, i, false) {
        RegionHides(s, i);
      } else {
        NewlineResumes(s, i);
      }
      if e > i {
        MaskFromExact(s, Cleared(t, i, e), e, p);
      } else {
        MaskFromExact(s, t, i + 1, p);
      }
    }
  }

  /** Exactly the characters of literals and comments become spaces, as a machine reads them that
      goes through the statement one character at a time; all others stay. */
  lemma MaskExact(s: string, p: nat)
    requires p < |s|
    ensures |Mask(s)| == |s| && Mask(s)[p] == if Masked(s, p) then ' ' else s[p]
  {
    MaskFromExact(s, s, 0, p);
  }

  /** The two lexers take a block comment's first star differently: after a slash, a star and a slash
      the comment is over for one and has only begun for the other. */
  lemma StarDiffers(s: string)
    requires |s| >= 4 && PairAt(s, 0, '/', '*') && s[2] == '/'
    ensures Free(s, 3, true) && !Free(s, 3, false)
  {
    assert ModeAt(s, 1, true) == BlockOpen && ModeAt(s, 1, false) == BlockOpen;
    assert ModeAt(s, 2, true) == LastSlash && ModeAt(s, 2, false) == Block;
    assert ModeAt(s, 3, true) == Outside && ModeAt(s, 3, false) == Block;
  }
}
