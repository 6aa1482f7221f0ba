/** When the parser recovers the generated `RETURNING ... INTO` suffix: exactly if the statement
    before it ends outside quotes.  The last quote of the text must close the last recovered name,
    so the names, read from the right, sit where the suffix printed them. */
module OracleRecovery {
  import opened Wrappers
  import opened Text
  import opened OracleReturning

  // ----- What a scanner has still to read is an end of the whole text -----

  predicate EndsWith(text: string, t: string) { |t| <= |text| && text[|text| - |t|..] == t }

  lemma EndsWithin(text: string, t: string, u: string)
    requires EndsWith(text, t) && EndsWith(t, u)
    ensures EndsWith(text, u)
    ensures |u| < |t| ==> |u| < |text| && Before(text, u) == Before(t, u)
  {
    assert text[|text| - |u|..] == t[|t| - |u|..];
  }

  lemma EndsAppended(a: string, t: string)
    ensures EndsWith(a + t, t)
    ensures a != "" ==> Before(a + t, t) == a[|a| - 1]
  {
  }

  lemma SameEnd(text: string, t: string, u: string)
    requires EndsWith(text, t) && EndsWith(text, u) && |t| == |u|
    ensures t == u
  {
  }

  /** The character in front of an end of the text. */
  function Before(text: string, t: string): char
    requires |t| < |text|
  {
    text[|text| - |t| - 1]
  }

  lemma {:induction false} SpacesBefore(t: string)
    ensures var u := AfterSpaces(t);
            && EndsWith(t, u) && (u != "" ==> !IsSpace(u[0]))
            && forall i | 0 <= i < |t| - |u| :: IsSpace(t[i])
  {
    if t != "" && IsSpace(t[0]) {
      SpacesBefore(t[1..]);
      EndsWithin(t, t[1..], AfterSpaces(t));
      assert forall i | 0 < i < |t| :: t[i] == t[1..][i - 1];
    }
  }

  lemma {:induction false} WordChars(t: string)
    ensures forall i | 0 <= i < |Word(t)| :: IsWordChar(Word(t)[i])
  {
    if t != "" && IsWordChar(t[0]) {
      WordChars(t[1..]);
    }
  }

  lemma WordBefore(t: string)
    ensures EndsWith(t, AfterWord(t)) && |t| == |Word(t)| + |AfterWord(t)|
    ensures Word(t) != "" ==> Before(t, AfterWord(t)) == Word(t)[|Word(t)| - 1] && IsWordChar(Before(t, AfterWord(t)))
  {
    WordSplits(t);
    WordChars(t);
    EndsAppended(Word(t), AfterWord(t));
  }

  lemma {:induction false} DigitsBefore(t: string)
    ensures var u := AfterDigits(t); EndsWith(t, u) && forall i | 0 <= i < |t| - |u| :: IsDigit(t[i])
  {
    if !NonDigitStart(t) {
      DigitsBefore(t[1..]);
      EndsWithin(t, t[1..], AfterDigits(t));
      assert forall i | 0 < i < |t| :: t[i] == t[1..][i - 1];
    }
  }

  lemma {:induction false} QuoteEnds(t: string, quote: char)
    ensures EndsWith(t, AfterQuote(t, quote))
  {
    if t != "" {
      if t[0] != quote {
        QuoteEnds(t[1..], quote);
        EndsWithin(t, t[1..], AfterQuote(t, quote));
      } else if |t| > 1 && t[1] == quote {
        QuoteEnds(t[2..], quote);
        EndsWithin(t, t[2..], AfterQuote(t, quote));
      }
    }
  }

  /** A quoted region that is followed by something was printed from the name that is read. */
  lemma {:induction false} QuoteBefore(t: string)
    requires AfterQuote(t, '"') != ""
    ensures t == Doubled(QuotedName(t)) + ("\"" + AfterQuote(t, '"'))
  {
    var rest := "\"" + AfterQuote(t, '"');
    if t[0] != '"' {
      QuoteBefore(t[1..]);
      NameGrows(t[0], QuotedName(t[1..]), rest);
      assert t == [t[0]] + t[1..];
    } else if |t| > 1 && t[1] == '"' {
      QuoteBefore(t[2..]);
      NameGrows('"', QuotedName(t[2..]), rest);
      assert t == "\"\"" + t[2..];
    }
  }

  lemma NameGrows(c: char, name: string, rest: string)
    ensures Doubled([c] + name) + rest == (if c == '"' then "\"\"" else [c]) + (Doubled(name) + rest)
  {
    assert ([c] + name)[1..] == name;
    Assoc(if c == '"' then "\"\"" else [c], Doubled(name), rest);
  }

  lemma NameEnds(t: string)
    requires IsName(t)
    ensures EndsWith(t, AfterName(t))
    ensures AfterName(t) != "" ==> Before(t, AfterName(t)) == '"' || IsWordChar(Before(t, AfterName(t)))
  {
    if t[0] == '"' {
      QuoteEnds(t[1..], '"');
      EndsWithin(t, t[1..], AfterName(t));
      if AfterName(t) != "" {
        QuoteBefore(t[1..]);
        EndsAppended("\"" + Doubled(QuotedName(t[1..])) + "\"", AfterName(t));
        assert t == ("\"" + Doubled(QuotedName(t[1..])) + "\"") + AfterName(t);
      }
    } else {
      WordBefore(t);
    }
  }

  // ----- The binds fix the end of the list -----

  ghost predicate NoLetter(t: string) { forall i | 0 <= i < |t| :: !IsAlpha(t[i]) }

  lemma NoLetterAfter(t: string, u: string)
    requires EndsWith(t, u) && NoLetter(u) && forall i | 0 <= i < |t| - |u| :: !IsAlpha(t[i])
    ensures NoLetter(t)
  {
    assert forall i | |t| - |u| <= i < |t| :: t[i] == u[i - (|t| - |u|)];
  }

  lemma SpacesHoldNoLetter(t: string)
    requires NoLetter(AfterSpaces(t))
    ensures NoLetter(t)
  {
    SpacesBefore(t);
    NoLetterAfter(t, AfterSpaces(t));
  }

  lemma DigitsHoldNoLetter(t: string)
    requires NoLetter(AfterDigits(t))
    ensures NoLetter(t)
  {
    DigitsBefore(t);
    NoLetterAfter(t, AfterDigits(t));
  }

  lemma NoLetterHead(t: string)
    requires t != "" && !IsAlpha(t[0]) && NoLetter(t[1..])
    ensures NoLetter(t)
  {
    NoLetterAfter(t, t[1..]);
  }

  lemma {:induction false} BindsHoldNoLetter(t: string, binds: seq<nat>)
    requires ParseBinds(t, binds).Some?
    ensures NoLetter(t)
    decreases |t|
  {
    var u := AfterSpaces(t);
    if u != "" {
      if u[0] == ',' {
        BindsHoldNoLetter(u[1..], binds);
      } else {
        BindsHoldNoLetter(AfterDigits(u[1..]), binds + [BindValue(u[1..], 0)]);
        DigitsHoldNoLetter(u[1..]);
      }
      NoLetterHead(u);
    }
    SpacesHoldNoLetter(t);
  }

  lemma {:induction false} UppercaseAt(s: string, i: nat)
    requires i < |s|
    ensures |Uppercase(s)| == |s| && Uppercase(s)[i] == Upper(s[i])
  {
    UppercaseSize(s);
    if i > 0 {
      UppercaseAt(s[1..], i - 1);
    }
  }

  /** A word that folds to one that ends with a letter ends with a letter. */
  lemma FoldedEnd(w: string, keyword: string)
    requires FoldEquals(w, keyword) && keyword != "" && IsAlpha(keyword[|keyword| - 1])
    ensures |w| == |keyword| && IsAlpha(w[|w| - 1])
  {
    FoldedSize(w, keyword);
    UppercaseAt(w, |w| - 1);
    UppercaseAt(keyword, |w| - 1);
  }

  /** What stands in front of the shorter of two ends is part of the longer one. */
  lemma BeforeInside(text: string, t: string, u: string)
    requires EndsWith(text, t) && EndsWith(text, u) && |t| < |u|
    ensures Before(text, t) == u[|u| - |t| - 1]
  {
  }

  /** Behind the last letter of the text only one end can start. */
  lemma LastLetter(text: string, t: string, u: string)
    requires EndsWith(text, t) && EndsWith(text, u) && |t| < |text| && |u| < |text|
    requires NoLetter(t) && NoLetter(u) && IsAlpha(Before(text, t)) && IsAlpha(Before(text, u))
    ensures t == u
  {
    if |t| < |u| {
      BeforeInside(text, t, u);
    } else if |u| < |t| {
      BeforeInside(text, u, t);
    }
  }

  /** The INTO that the parser found is the last word of the text. */
  lemma IntoFound(text: string, u: string, binds: string)
    requires EndsWith(text, u) && FoldEquals(Word(u), "INTO") && ParseBinds(AfterWord(u), []).Some?
    requires EndsWith(text, "INTO" + binds) && NoLetter(binds)
    ensures u == "INTO" + binds
  {
    FoldedEnd(Word(u), "INTO");
    WordBefore(u);
    BindsHoldNoLetter(AfterWord(u), []);
    EndsWithin(text, u, AfterWord(u));
    EndsAppended("INTO", binds);
    EndsWithin(text, "INTO" + binds, binds);
    LastLetter(text, AfterWord(u), binds);
    SameEnd(text, u, "INTO" + binds);
  }

  // ----- The names, aligned from the right -----

  /** Two ends of the text that differ in leading spaces only, each behind something else. */
  lemma Trim(text: string, t: string, u: string)
    requires EndsWith(text, t) && EndsWith(text, u) && |t| < |text| && |u| < |text|
    requires AfterSpaces(t) == AfterSpaces(u) && !IsSpace(Before(text, t)) && !IsSpace(Before(text, u))
    ensures t == u
  {
    SpacesBefore(t);
    SpacesBefore(u);
    if |t| < |u| {
      BeforeInside(text, t, u);
    } else if |u| < |t| {
      BeforeInside(text, u, t);
    }
  }

  lemma SpacesWithin(text: string, t: string)
    requires EndsWith(text, t)
    ensures EndsWith(text, AfterSpaces(t))
  {
    SpacesBefore(t);
    EndsWithin(text, t, AfterSpaces(t));
  }

  lemma NameBefore(text: string, v: string, rest: string)
    requires EndsWith(text, v) && IsName(v) && rest == AfterName(v) != ""
    ensures EndsWith(v, rest) && EndsWith(text, rest) && |rest| < |v| <= |text|
    ensures Before(text, rest) == Before(v, rest) && !IsSpace(Before(v, rest))
  {
    NameEnds(v);
    EndsWithin(text, v, rest);
  }

  lemma PrintedBefore(text: string, column: string, y: string)
    requires EndsWith(text, Quoted(column) + y)
    ensures EndsWith(text, y) && |y| < |text| && Before(text, y) == '"'
  {
    PrintedEnd(column, y);
    EndsWithin(text, Quoted(column) + y, y);
  }

  /** A column that was read up to where a printed name ends is that name. */
  lemma ColumnAligned(text: string, t: string, column: string, y: string)
    requires EndsWith(text, t) && ColumnAt(t) == Some(column) && AfterColumn(t) == AfterSpaces(y) != ""
    requires EndsWith(text, Quoted(column) + y)
    ensures AfterSpaces(t) == Quoted(column) + y
  {
    var v := AfterSpaces(t);
    SpacesWithin(text, t);
    NameBefore(text, v, AfterName(v));
    PrintedBefore(text, column, y);
    Trim(text, AfterName(v), y);
    NamedByQuote(v, column, y);
  }

  lemma PrintedEnd(column: string, y: string)
    ensures EndsWith(Quoted(column) + y, y) && Before(Quoted(column) + y, y) == '"'
  {
    EndsAppended(Quoted(column), y);
  }

  lemma NamedByQuote(v: string, column: string, y: string)
    requires IsName(v) && Name(v) == column && AfterName(v) == y != "" && EndsWith(v, y) && Before(v, y) == '"'
    ensures v == Quoted(column) + y
  {
    if v[0] == '"' {
      QuoteBefore(v[1..]);
      assert v == "\"" + v[1..];
    } else {
      WordBefore(v);
    }
  }

  /** What reading columns leaves behind, and that it only adds columns. */
  lemma {:induction false} ColumnsGrow(t: string, before: seq<string>)
    requires ParseColumns(t, before).Some?
    ensures var list := ParseColumns(t, before).value;
            && before <= list.columns && EndsWith(t, list.rest)
            && (list.rest != "" ==> |before| < |list.columns| && !IsSpace(list.rest[0]))
    decreases |t|
  {
    if t != "" {
      ColumnEnds(t);
      var u, all := AfterColumn(t), before + [ColumnAt(t).value];
      if CommaStart(u) {
        ColumnsGrow(u[1..], all);
        EndsWithin(u, u[1..], ParseColumns(t, before).value.rest);
        EndsWithin(t, u, ParseColumns(t, before).value.rest);
      }
    }
  }

  lemma ColumnEnds(t: string)
    requires ColumnAt(t).Some?
    ensures EndsWith(t, AfterColumn(t)) && (AfterColumn(t) != "" ==> !IsSpace(AfterColumn(t)[0]))
  {
    var v := AfterSpaces(t);
    SpacesBefore(t);
    NameEnds(v);
    SpacesBefore(AfterName(v));
    EndsWithin(t, v, AfterName(v));
    EndsWithin(t, AfterName(v), AfterColumn(t));
  }

  /** Nothing that is printed behind a name is a space or a comma. */
  predicate Tail(t: string) { t != "" && !IsSpace(t[0]) && t[0] != ',' }

  /** If reading columns yields `columns` and stops where the printed ones stop, it started where
      the printed ones start. */
  lemma {:induction false} NamesAligned(text: string, t: string, before: seq<string>, columns: seq<string>, tail: string)
    requires columns != [] && Tail(tail) && EndsWith(text, t) && EndsWith(text, Names(columns) + (" " + tail))
    requires ParseColumns(t, before) == Some(Listed(before + columns, tail))
    ensures AfterSpaces(t) == Names(columns) + (" " + tail)
    decreases |columns|
  {
    NamesSplit(columns, " " + tail);
    FirstColumn(t, before, columns, tail);
    if |columns| == 1 {
      SpaceRead(tail);
    } else {
      OnwardRead(text, t);
      OnwardPrinted(text, columns, " " + tail);
      NamesAligned(text, AfterColumn(t)[1..], before + [columns[0]], columns[1..], tail);
      OnwardTrimmed(text, t, AfterColumn(t), " " + (Names(columns[1..]) + (" " + tail)));
    }
    ColumnAligned(text, t, columns[0], MoreNames(columns[1..]) + (" " + tail));
  }

  lemma OnwardRead(text: string, t: string)
    requires EndsWith(text, t) && ColumnAt(t).Some? && CommaStart(AfterColumn(t))
    ensures EndsWith(text, AfterColumn(t)) && EndsWith(text, AfterColumn(t)[1..])
  {
    ColumnEnds(t);
    EndsWithin(text, t, AfterColumn(t));
    EndsWithin(text, AfterColumn(t), AfterColumn(t)[1..]);
  }

  lemma OnwardPrinted(text: string, columns: seq<string>, tail: string)
    requires |columns| > 1 && EndsWith(text, Names(columns) + tail)
    ensures EndsWith(text, "," + (" " + (Names(columns[1..]) + tail)))
    ensures EndsWith(text, Names(columns[1..]) + tail)
  {
    var rest := Names(columns[1..]) + tail;
    NamesSplit(columns, tail);
    PrintedBefore(text, columns[0], "," + (" " + rest));
    EndsAppended(",", " " + rest);
    EndsWithin(text, "," + (" " + rest), " " + rest);
    EndsAppended(" ", rest);
    EndsWithin(text, " " + rest, rest);
  }

  lemma OnwardTrimmed(text: string, t: string, u: string, onward: string)
    requires EndsWith(text, t) && ColumnAt(t).Some? && u == AfterColumn(t) && CommaStart(u)
    requires EndsWith(text, "," + onward) && AfterSpaces(u[1..]) == AfterSpaces(onward)
    ensures u == "," + onward
  {
    ColumnEnds(t);
    EndsWithin(text, t, u);
    EndsWithin(text, u, u[1..]);
    EndsAppended(",", onward);
    EndsWithin(text, "," + onward, onward);
    Trim(text, u[1..], onward);
    assert u == "," + u[1..];
  }

  /** The first turn of reading columns that end in `tail`. */
  lemma FirstColumn(t: string, before: seq<string>, columns: seq<string>, tail: string)
    requires columns != [] && Tail(tail) && ParseColumns(t, before) == Some(Listed(before + columns, tail))
    ensures t != "" && ColumnAt(t) == Some(columns[0])
    ensures |columns| == 1 ==> AfterColumn(t) == tail
    ensures |columns| > 1 ==>
              && CommaStart(AfterColumn(t))
              && ParseColumns(AfterColumn(t)[1..], before + [columns[0]])
                 == Some(Listed(before + [columns[0]] + columns[1..], tail))
  {
    assert t != "";
    var u, all := AfterColumn(t), before + [ColumnAt(t).value];
    if CommaStart(u) {
      ColumnsGrow(u[1..], all);
    }
    OneMore(before, ColumnAt(t).value, columns);
  }

  lemma OneMore<T>(before: seq<T>, x: T, xs: seq<T>)
    requires xs != [] && before + [x] <= before + xs
    ensures x == xs[0] && before + xs == before + [xs[0]] + xs[1..]
    ensures before + [x] == before + xs <==> |xs| == 1
  {
    assert (before + [x])[|before|] == (before + xs)[|before|];
  }

  // ----- The keyword -----

  /** What follows a RETURNING found in the text. */
  predicate AfterLetter(text: string, t: string) { |t| < |text| && EndsWith(text, t) && IsAlpha(Before(text, t)) }

  lemma TokenEnds(t: string)
    requires t != ""
    ensures EndsWith(t, AfterToken(t))
    ensures ReturningAt(t) ==> AfterLetter(t, AfterToken(t))
  {
    if IsQuote(t[0]) {
      QuoteEnds(t[1..], t[0]);
      EndsWithin(t, t[1..], AfterToken(t));
    } else if IsAlpha(t[0]) {
      WordBefore(t);
      if ReturningAt(t) {
        FoldedEnd(Word(t), "RETURNING");
      }
    }
  }

  lemma {:induction false} LastReturningBehind(text: string, t: string, found: Option<string>)
    requires EndsWith(text, t) && (found.Some? ==> AfterLetter(text, found.value))
    ensures var r := LastReturning(t, found); r.Some? ==> AfterLetter(text, r.value)
    decreases |t|
  {
    if t != "" {
      TokenEnds(t);
      EndsWithin(text, t, AfterToken(t));
      LastReturningBehind(text, AfterToken(t), if ReturningAt(t) then Some(AfterToken(t)) else found);
    }
  }

  /** What the scanner finds is what it had found, or shorter than what it still read. */
  lemma {:induction false} LastReturningShorter(t: string, found: Option<string>)
    ensures var r := LastReturning(t, found); r == found || (r.Some? && |r.value| < |t|)
    decreases |t|
  {
    if t != "" {
      LastReturningShorter(AfterToken(t), if ReturningAt(t) then Some(AfterToken(t)) else found);
    }
  }

  /** A text without quotes does not close a region. */
  lemma {:induction false} QuoteRunsOver(x: string, rest: string, quote: char)
    requires quote !in x
    ensures AfterQuote(x + rest, quote) == AfterQuote(rest, quote)
  {
    if x == "" {
      assert x + rest == rest;
    } else {
      assert (x + rest)[1..] == x[1..] + rest && x[0] in x;
      QuoteRunsOver(x[1..], rest, quote);
    }
  }

  lemma {:induction false} OpenRunsOver(t: string, rest: string, quote: char)
    requires !Closes(t, quote) && (rest == "" || rest[0] != quote)
    ensures AfterQuote(t + rest, quote) == AfterQuote(rest, quote)
    decreases |t|
  {
    if t == "" {
      assert t + rest == rest;
    } else {
      assert (t + rest)[1..] == t[1..] + rest;
      if t[0] != quote {
        OpenRunsOver(t[1..], rest, quote);
      } else {
        assert (t + rest)[2..] == t[2..] + rest;
        OpenRunsOver(t[2..], rest, quote);
      }
    }
  }

  const Opening: string := " RETURNING "

  lemma OpeningHasNoQuote()
    ensures '\'' !in Opening && '"' !in Opening && |Opening| == 11
  {
  }

  /** Behind a base that ends inside quotes the scanner never finds the suffix's own keyword. */
  lemma {:induction false} OpenBaseHides(base: string, body: string, found: Option<string>)
    requires !EndsOutside(base) && (found.Some? ==> |found.value| > |body| + 1)
    ensures var r := LastReturning(base + (Opening + body), found); r.Some? ==> |r.value| != |body| + 1
    decreases |base|
  {
    var rest := Opening + body;
    var t := base + rest;
    assert t[1..] == base[1..] + rest;
    OpeningHasNoQuote();
    if IsQuote(base[0]) && !Closes(base[1..], base[0]) {
      OpenRunsOver(base[1..], rest, base[0]);
      QuoteRunsOver(Opening, body, base[0]);
      LastReturningShorter(AfterToken(t), found);
    } else {
      TokenAppend(base, rest);
      OpenBaseHides(AfterToken(base), body, if ReturningAt(t) then Some(AfterToken(t)) else found);
    }
  }

  // ----- The exact condition -----

  lemma BodyStart(columns: seq<string>, tail: string)
    requires columns != []
    ensures var body := Names(columns) + tail; AfterSpaces(body) == body && AfterSpaces(" " + body) == body
  {
    NamesSplit(columns, tail);
    SpaceRead(Names(columns) + tail);
  }

  /** A list that was recovered whole follows the suffix's own keyword. */
  lemma RecoveredBehind(text: string, t: string, columns: seq<string>, binds: string)
    requires columns != [] && NoLetter(binds) && AfterLetter(text, t)
    requires ParseList(t).Some? && ParseList(t).value.columns == columns
    requires var body := Names(columns) + (" " + ("INTO" + binds));
             AfterLetter(text, " " + body) && EndsWith(text, body) && EndsWith(text, "INTO" + binds)
    ensures |t| == |Names(columns) + (" " + ("INTO" + binds))| + 1
  {
    var tail := "INTO" + binds;
    ListTail(text, t, columns, binds);
    assert [] + columns == columns;
    NamesAligned(text, t, [], columns, tail);
    BodyStart(columns, " " + tail);
    Trim(text, t, " " + (Names(columns) + (" " + tail)));
  }

  lemma ListTail(text: string, t: string, columns: seq<string>, binds: string)
    requires EndsWith(text, t) && EndsWith(text, "INTO" + binds) && NoLetter(binds)
    requires ParseList(t).Some? && ParseList(t).value.columns == columns
    ensures ParseColumns(t, []) == Some(Listed(columns, "INTO" + binds))
  {
    var list := ParseColumns(t, []).value;
    ColumnsGrow(t, []);
    EndsWithin(text, t, list.rest);
    RestIsInto(text, list.rest, binds);
  }

  lemma RestIsInto(text: string, rest: string, binds: string)
    requires EndsWith(text, rest) && (rest != "" ==> !IsSpace(rest[0]))
    requires FoldEquals(Word(AfterSpaces(rest)), "INTO") && ParseBinds(AfterWord(AfterSpaces(rest)), []).Some?
    requires EndsWith(text, "INTO" + binds) && NoLetter(binds)
    ensures rest == "INTO" + binds
  {
    SpacesBefore(rest);
    assert AfterSpaces(rest) == rest;
    IntoFound(text, rest, binds);
  }

  lemma BodyEnds(text: string, columns: seq<string>, tail: string)
    requires EndsWith(text, " " + (Names(columns) + (" " + tail)))
    ensures EndsWith(text, Names(columns) + (" " + tail)) && EndsWith(text, tail)
  {
    var body := Names(columns) + (" " + tail);
    EndsAppended(" ", body);
    EndsWithin(text, " " + body, body);
    EndsAppended(Names(columns), " " + tail);
    EndsWithin(text, body, " " + tail);
    EndsAppended(" ", tail);
    EndsWithin(text, " " + tail, tail);
  }

  lemma OpeningEnds(base: string, body: string)
    ensures AfterLetter(base + (Opening + body), " " + body)
  {
    var start := base + " RETURNING";
    assert base + (Opening + body) == start + (" " + body);
    EndsAppended(start, " " + body);
    assert start[|start| - 1] == 'G';
  }

  lemma BindsAreNoLetters(count: nat, first: nat)
    ensures NoLetter(" " + Binds(count, first))
  {
    BindsInert(count, first);
  }

  lemma SuffixSpelling(columns: seq<string>, firstBind: nat)
    requires columns != []
    ensures Suffix(columns, firstBind) == Opening + (Names(columns) + (" " + ("INTO" + (" " + Binds(|columns|, firstBind)))))
  {
    Spelling(Binds(|columns|, firstBind));
  }

  /** Whatever stands before it, the suffix is recovered exactly if that ends outside quotes. */
  lemma RecoveredWhen(base: string, columns: seq<string>, firstBind: nat)
    requires columns != [] && firstBind < SizeRange
    ensures Parse(base + Suffix(columns, firstBind)) == Some(Returning(columns, firstBind, |columns|))
            <==> EndsOutside(base)
  {
    if EndsOutside(base) {
      SuffixRoundTrip(base, columns, firstBind);
    } else {
      var binds := " " + Binds(|columns|, firstBind);
      var body := Names(columns) + (" " + ("INTO" + binds));
      var text := base + (Opening + body);
      SuffixSpelling(columns, firstBind);
      OpenBaseHides(base, body, None);
      if LastReturning(text, None).Some? {
        var t := LastReturning(text, None).value;
        assert EndsWith(text, text);
        LastReturningBehind(text, text, None);
        OpeningEnds(base, body);
        BodyEnds(text, columns, "INTO" + binds);
        BindsAreNoLetters(|columns|, firstBind);
        if ParseList(t).Some? && ParseList(t).value.columns == columns {
          RecoveredBehind(text, t, columns, binds);
          assert false;
        }
      }
    }
  }
}
