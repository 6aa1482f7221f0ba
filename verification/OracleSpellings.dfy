/** What the parser makes of a `RETURNING ... INTO` clause that a person wrote: keywords in any case,
    names quoted or not, any spaces after a comma, and as many binds as there are. */
module OracleSpellings {
  import opened Wrappers
  import opened Text
  import opened OracleReturning

  datatype Column = Bare(word: string) | InQuotes(name: string)

  /** A bare name starts with a letter and is not the keyword itself. */
  predicate Proper(c: Column) { c.Bare? ==> IsWord(c.word) && !FoldEquals(c.word, "RETURNING") }

  function Spelled(c: Column): string { if c.Bare? then c.word else Quoted(c.name) }

  /** A bare name means its upper-case form, a quoted one itself. */
  function Meant(c: Column): string { if c.Bare? then Uppercase(c.word) else c.name }

  function MeantAll(cs: seq<Column>): seq<string> { if cs == [] then [] else [Meant(cs[0])] + MeantAll(cs[1..]) }

  predicate AllSpaces(gap: string) { forall k | 0 <= k < |gap| :: IsSpace(gap[k]) }

  function ListText(cs: seq<Column>, gap: string): string
    decreases |cs|, 0
  {
    if cs == [] then "" else Spelled(cs[0]) + MoreText(cs[1..], gap)
  }

  function MoreText(cs: seq<Column>, gap: string): string
    decreases |cs|, 1
  {
    if cs == [] then "" else "," + (gap + ListText(cs, gap))
  }

  lemma ListSplit(cs: seq<Column>, gap: string, tail: string)
    requires cs != []
    ensures ListText(cs, gap) + tail == Spelled(cs[0]) + (MoreText(cs[1..], gap) + tail)
  {
    Assoc(Spelled(cs[0]), MoreText(cs[1..], gap), tail);
  }

  lemma MoreSplit(cs: seq<Column>, gap: string, tail: string)
    ensures cs == [] ==> MoreText(cs, gap) + tail == tail
    ensures cs != [] ==> MoreText(cs, gap) + tail == "," + (gap + (ListText(cs, gap) + tail))
  {
    Assoc(gap, ListText(cs, gap), tail);
    Assoc(",", gap + ListText(cs, gap), tail);
  }

  // ----- Scanning -----

  /** What may follow a name: nothing that goes on with the word or doubles the quote. */
  predicate Ends(more: string) { more != "" && (more[0] == ' ' || more[0] == ',') }

  lemma BareScanned(word: string, more: string, found: Option<string>)
    requires IsWord(word) && !FoldEquals(word, "RETURNING") && Ends(more)
    ensures LastReturning(word + more, found) == LastReturning(more, found)
  {
    WordRead(word, more);
    var t := word + more;
    assert t[0] == word[0] && AfterToken(t) == more && !ReturningAt(t);
  }

  lemma SpelledScanned(c: Column, more: string, found: Option<string>)
    requires Proper(c) && Ends(more)
    ensures LastReturning(Spelled(c) + more, found) == LastReturning(more, found)
  {
    if c.Bare? {
      BareScanned(c.word, more, found);
    } else {
      NameScanned(c.name, more, found);
    }
  }

  lemma GapInert(gap: string)
    requires AllSpaces(gap)
    ensures Inert("," + gap)
  {
  }

  lemma {:induction false} ListScanned(cs: seq<Column>, gap: string, rest: string, found: Option<string>)
    requires cs != [] && AllSpaces(gap) && (forall c | c in cs :: Proper(c)) && rest != "" && rest[0] == ' '
    ensures LastReturning(ListText(cs, gap) + rest, found) == LastReturning(rest, found)
    decreases |cs|
  {
    ListSplit(cs, gap, rest);
    MoreSplit(cs[1..], gap, rest);
    SpelledScanned(cs[0], MoreText(cs[1..], gap) + rest, found);
    if |cs| > 1 {
      var onward := ListText(cs[1..], gap) + rest;
      GapInert(gap);
      Assoc(",", gap, onward);
      InertScanned("," + gap, onward, found);
      ListScanned(cs[1..], gap, rest, found);
    }
  }

  // ----- Parsing -----

  lemma {:induction false} GapRead(gap: string, t: string)
    requires AllSpaces(gap)
    ensures AfterSpaces(gap + t) == AfterSpaces(t)
  {
    if gap == "" {
      assert gap + t == t;
    } else {
      assert (gap + t)[1..] == gap[1..] + t;
      GapRead(gap[1..], t);
    }
  }

  lemma BareRead(word: string, more: string)
    requires IsWord(word) && Ends(more)
    ensures var u := word + more;
            AfterSpaces(u) == u && IsName(u) && Name(u) == Uppercase(word) && AfterName(u) == more
  {
    WordRead(word, more);
    var u := word + more;
    assert u[0] == word[0];
  }

  lemma QuotesRead(name: string, more: string)
    requires Ends(more)
    ensures var u := Quoted(name) + more;
            AfterSpaces(u) == u && IsName(u) && Name(u) == name && AfterName(u) == more
  {
    QuotedRead(name, more);
  }

  /** A spelled name, behind any spaces. */
  lemma SpelledRead(c: Column, gap: string, more: string)
    requires Proper(c) && Ends(more) && AllSpaces(gap)
    ensures var t := gap + (Spelled(c) + more);
            t != "" && ColumnAt(t) == Some(Meant(c)) && AfterColumn(t) == AfterSpaces(more)
  {
    var u := Spelled(c) + more;
    GapRead(gap, u);
    if c.Bare? {
      BareRead(c.word, more);
    } else {
      QuotesRead(c.name, more);
    }
  }

  lemma {:induction false} ListParsed(cs: seq<Column>, gap: string, ahead: string, rest: string, before: seq<string>)
    requires cs != [] && AllSpaces(gap) && AllSpaces(ahead) && (forall c | c in cs :: Proper(c))
    requires rest != "" && !IsSpace(rest[0]) && rest[0] != ','
    ensures ParseColumns(ahead + (ListText(cs, gap) + (" " + rest)), before)
            == Some(Listed(before + MeantAll(cs), rest))
    decreases |cs|
  {
    var tail := " " + rest;
    ListSplit(cs, gap, tail);
    MoreSplit(cs[1..], gap, tail);
    SpelledRead(cs[0], ahead, MoreText(cs[1..], gap) + tail);
    Assoc(before, [Meant(cs[0])], MeantAll(cs[1..]));
    if |cs| == 1 {
      SpaceRead(rest);
      LastMeant(cs, before);
    } else {
      CommaRead(gap + (ListText(cs[1..], gap) + tail));
      ListParsed(cs[1..], gap, gap, rest, before + [Meant(cs[0])]);
    }
  }

  lemma LastMeant(cs: seq<Column>, before: seq<string>)
    requires |cs| == 1
    ensures before + MeantAll(cs) == before + [Meant(cs[0])]
  {
    assert MeantAll(cs[1..]) == [] && [Meant(cs[0])] + [] == [Meant(cs[0])];
  }

  lemma {:induction false} MeantSize(cs: seq<Column>)
    ensures |MeantAll(cs)| == |cs|
  {
    if cs != [] {
      MeantSize(cs[1..]);
    }
  }

  /** The clause, from the space in front of it. */
  function Clause(keyword: string, cs: seq<Column>, gap: string, into: string, count: nat, firstBind: nat): string {
    " " + (keyword + (" " + (ListText(cs, gap) + (" " + (into + (" " + Binds(count, firstBind)))))))
  }

  lemma ClauseFound(keyword: string, cs: seq<Column>, gap: string, into: string, binds: string, found: Option<string>)
    requires IsWord(keyword) && FoldEquals(keyword, "RETURNING") && IsWord(into) && !FoldEquals(into, "RETURNING")
    requires cs != [] && AllSpaces(gap) && (forall c | c in cs :: Proper(c)) && Inert(binds)
    ensures var body := ListText(cs, gap) + (" " + (into + (" " + binds)));
            LastReturning(" " + (keyword + (" " + body)), found) == Some(" " + body)
  {
    var tail := " " + (into + (" " + binds));
    BodyScanned(keyword, ListText(cs, gap) + tail, found);
    ListScanned(cs, gap, tail, Some(" " + (ListText(cs, gap) + tail)));
    BindsScanned(into, binds, Some(" " + (ListText(cs, gap) + tail)));
  }

  lemma ListRead(cs: seq<Column>, gap: string, into: string, count: nat, firstBind: nat)
    requires cs != [] && AllSpaces(gap) && (forall c | c in cs :: Proper(c)) && count > 0 && firstBind < SizeRange
    requires IsWord(into) && FoldEquals(into, "INTO")
    ensures ParseList(" " + (ListText(cs, gap) + (" " + (into + (" " + Binds(count, firstBind))))))
            == if count == |cs| then Some(Returning(MeantAll(cs), firstBind, count)) else None
  {
    var binds := " " + Binds(count, firstBind);
    ListParsed(cs, gap, " ", into + binds, []);
    assert [] + MeantAll(cs) == MeantAll(cs);
    MeantSize(cs);
    SpaceRead(into + binds);
    WordRead(into, binds);
    BindsParsed(count, firstBind, []);
    assert [] + BindList(count, firstBind) == BindList(count, firstBind);
  }

  /** Behind a statement that ends outside quotes the clause yields the names as meant and the first
      bind, exactly if there are as many binds as names. */
  lemma ClauseRead(base: string, keyword: string, cs: seq<Column>, gap: string, into: string, count: nat, firstBind: nat)
    requires EndsOutside(base) && IsWord(keyword) && FoldEquals(keyword, "RETURNING")
    requires IsWord(into) && FoldEquals(into, "INTO") && AllSpaces(gap)
    requires cs != [] && (forall c | c in cs :: Proper(c)) && count > 0 && firstBind < SizeRange
    ensures Parse(base + Clause(keyword, cs, gap, into, count, firstBind))
            == if count == |cs| then Some(Returning(MeantAll(cs), firstBind, count)) else None
  {
    var found := BaseScanned(base, Clause(keyword, cs, gap, into, count, firstBind), None);
    BindsInert(count, firstBind);
    IntoDiffers(into);
    ClauseFound(keyword, cs, gap, into, Binds(count, firstBind), found);
    ListRead(cs, gap, into, count, firstBind);
  }

  lemma IntoDiffers(into: string)
    requires FoldEquals(into, "INTO")
    ensures !FoldEquals(into, "RETURNING")
  {
    FoldedSize(into, "INTO");
    DifferentSizes(into, "RETURNING");
  }
}
