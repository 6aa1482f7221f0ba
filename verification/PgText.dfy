/** The text form of Postgres arrays and composites: the printer, the parser, and exactly when
    the parser reads back what was printed. */
module PgText {
  import opened Wrappers
  import opened Text

  type Element = Option<string>

  /** Arrays and composites share one scanner and one quoting rule. */
  datatype Dialect = Dialect(open: char, close: char, nullText: string, emptyIsNull: bool)

  const ArrayText := Dialect('{', '}', "NULL", false)
  const CompositeText := Dialect('(', ')', "", true)

  predicate Known(d: Dialect) { d == ArrayText || d == CompositeText }

  // ----- Printing -----

  predicate IsNullWord(s: string) {
    |s| == 4 && s[0] in {'N', 'n'} && s[1] in {'U', 'u'} && s[2] in {'L', 'l'} && s[3] in {'L', 'l'}
  }

  predicate ForcesQuotes(c: char) {
    c in {'{', '}', ',', '"', '\\', ' ', '\t', '\n', '\r'}
  }

  predicate NeedsQuoting(s: string) {
    s == "" || IsNullWord(s) || exists i | 0 <= i < |s| :: ForcesQuotes(s[i])
  }

  function Escape(s: string): string {
    if s == "" then "" else EscapeChar(s[0]) + Escape(s[1..])
  }

  function EscapeChar(c: char): string { if c == '"' || c == '\\' then ['\\', c] else [c] }

  function Quote(s: string): string {
    if NeedsQuoting(s) then "\"" + Escape(s) + "\"" else s
  }

  function ElementText(d: Dialect, e: Element): string {
    match e
    case None => d.nullText
    case Some(s) => Quote(s)
  }

  function Joined(d: Dialect, xs: seq<Element>): string
    decreases |xs|, 0
  {
    if xs == [] then "" else ElementText(d, xs[0]) + Rest(d, xs[1..])
  }

  /** What follows an element that is not the first. */
  function Rest(d: Dialect, xs: seq<Element>): string
    decreases |xs|, 1
  {
    if xs == [] then "" else "," + Joined(d, xs)
  }

  function Format(d: Dialect, xs: seq<Element>): string {
    [d.open] + Joined(d, xs) + [d.close]
  }

  method CheckQuoting(raw: string) returns (needs: bool)
    ensures needs == NeedsQuoting(raw)
  {
    if raw == "" || IsNullWord(raw) {
      return true;
    }
    for i := 0 to |raw|
      invariant forall k | 0 <= k < i :: !ForcesQuotes(raw[k])
    {
      if ForcesQuotes(raw[i]) {
        return true;
      }
    }
    return false;
  }

  method QuoteElement(raw: string) returns (s: string)
    ensures s == Quote(raw)
  {
    var needs := CheckQuoting(raw);
    if !needs {
      return raw;
    }
    s := "\"";
    for i := 0 to |raw|
      invariant s + Escape(raw[i..]) == "\"" + Escape(raw)
    {
      ghost var before := s;
      Assoc(before, EscapeChar(raw[i]), Escape(raw[i + 1..]));
      assert raw[i..][1..] == raw[i + 1..];
      if raw[i] == '"' || raw[i] == '\\' {
        s := s + ['\\'];
      }
      s := s + [raw[i]];
      assert s == before + EscapeChar(raw[i]);
    }
    s := s + "\"";
  }

  method FormatElements(d: Dialect, xs: seq<Element>) returns (s: string)
    ensures s == Format(d, xs)
  {
    s := [d.open];
    for i := 0 to |xs|
      invariant s + (if i == 0 then Joined(d, xs) else Rest(d, xs[i..])) == [d.open] + Joined(d, xs)
    {
      assert xs[i..][1..] == xs[i + 1..] && xs[0..] == xs;
      ghost var after := Rest(d, xs[i + 1..]);
      if i > 0 {
        Assoc(s, ",", Joined(d, xs[i..]));
        s := s + ",";
      }
      assert s + (ElementText(d, xs[i]) + after) == [d.open] + Joined(d, xs);
      Assoc(s, ElementText(d, xs[i]), after);
      if xs[i].Some? {
        var q := QuoteElement(xs[i].value);
        s := s + q;
      } else {
        s := s + d.nullText;
      }
    }
    s := s + [d.close];
  }

  // ----- Parsing -----

  /** The scanner's variables. */
  datatype Scanner = Scanner(raw: string, quoted: bool, quotedAny: bool, depth: int, out: seq<Element>)

  function Flush(d: Dialect, st: Scanner): Scanner {
    var e := if !st.quotedAny && (st.raw == "NULL" || (st.raw == "" && d.emptyIsNull)) then None
             else Some(st.raw);
    Scanner("", st.quoted, false, st.depth, st.out + [e])
  }

  /** The elements of the rest of the text between the brackets. */
  function Scan(d: Dialect, rest: string, st: Scanner): Option<seq<Element>>
    decreases |rest|
  {
    if rest == "" then
      if st.quoted || st.depth != 0 then None else Some(Flush(d, st).out)
    else
      var c := rest[0];
      var keep := st.(raw := st.raw + [c]);
      if st.quoted then
        if c == '\\' && |rest| >= 2 then Scan(d, rest[2..], st.(raw := st.raw + [rest[1]]))
        else if c == '"' then Scan(d, rest[1..], st.(quoted := false))
        else Scan(d, rest[1..], keep)
      else if c == '"' then Scan(d, rest[1..], st.(quoted := true, quotedAny := true))
      else if c == d.open then Scan(d, rest[1..], keep.(depth := st.depth + 1))
      else if c == d.close then
        if st.depth - 1 < 0 then None else Scan(d, rest[1..], keep.(depth := st.depth - 1))
      else if c == ',' && st.depth == 0 then Scan(d, rest[1..], Flush(d, st))
      else Scan(d, rest[1..], keep)
  }

  const Start := Scanner("", false, false, 0, [])

  function Parse(d: Dialect, text: string): Option<seq<Element>> {
    if |text| < 2 || text[0] != d.open || text[|text| - 1] != d.close then None
    else if |text| == 2 then Some([])
    else Scan(d, Inner(text), Start)
  }

  /** The text between the brackets. */
  function Inner(text: string): string
    requires |text| >= 2
  {
    text[1..|text| - 1]
  }

  lemma InnerAt(text: string, i: nat)
    requires 1 <= i && i + 1 < |text|
    ensures Inner(text)[i - 1..] != "" && Inner(text)[i - 1..][0] == text[i]
    ensures Inner(text)[i - 1..][1..] == Inner(text)[i..]
    ensures i + 2 < |text| ==> Inner(text)[i - 1..][1] == text[i + 1] && Inner(text)[i - 1..][2..] == Inner(text)[i + 1..]
  {
  }

  /** The loop's turn inside quotes; `st` is the state it starts from. */
  method TurnQuoted(d: Dialect, text: string, start: nat, before: string, ghost st: Scanner)
    returns (raw: string, quoted: bool, i: nat)
    requires 1 <= start && start + 1 < |text| && st.quoted && st.raw == before
    ensures start < i <= |text| - 1
    ensures Scan(d, Inner(text)[i - 1..], st.(raw := raw, quoted := quoted)) == Scan(d, Inner(text)[start - 1..], st)
  {
    InnerAt(text, start);
    raw, quoted, i := before, true, start;
    var c := text[i];
    if c == '\\' && i + 1 < |text| - 1 {
      raw := raw + [text[i + 1]];
      i := i + 2;
    } else if c == '"' {
      quoted := false;
      i := i + 1;
    } else {
      raw := raw + [c];
      i := i + 1;
    }
  }

  method SplitElements(d: Dialect, text: string) returns (r: Option<seq<Element>>)
    ensures r == Parse(d, text)
  {
    if |text| < 2 || text[0] != d.open || text[|text| - 1] != d.close {
      return None;
    }
    if |text| == 2 {
      return Some([]);
    }
    var raw, quoted, quotedAny, depth, out := "", false, false, 0, [];
    var i := 1;
    while i + 1 < |text|
      invariant 1 <= i <= |text| - 1
      invariant Scan(d, Inner(text)[i - 1..], Scanner(raw, quoted, quotedAny, depth, out)) == Parse(d, text)
      decreases |text| - i
    {
      var c := text[i];
      if quoted {
        raw, quoted, i := TurnQuoted(d, text, i, raw, Scanner(raw, quoted, quotedAny, depth, out));
        continue;
      }
      InnerAt(text, i);
      if c == '"' {
        quoted, quotedAny := true, true;
        i := i + 1;
        continue;
      }
      if c == d.open {
        depth := depth + 1;
        raw := raw + [c];
        i := i + 1;
        continue;
      }
      if c == d.close {
        depth := depth - 1;
        if depth < 0 {
          return None;
        }
        raw := raw + [c];
        i := i + 1;
        continue;
      }
      if c == ',' && depth == 0 {
        out := Flush(d, Scanner(raw, quoted, quotedAny, depth, out)).out;
        raw, quotedAny := "", false;
        i := i + 1;
        continue;
      }
      raw := raw + [c];
      i := i + 1;
    }
    assert Inner(text)[i - 1..] == "";
    if quoted || depth != 0 {
      return None;
    }
    return Some(Flush(d, Scanner(raw, quoted, quotedAny, depth, out)).out);
  }

  // ----- When an element survives -----

  /** The bracket depth after `s`, or None where a bracket closes nothing. */
  function Nest(d: Dialect, s: string, depth: int): Option<int> {
    if s == "" then Some(depth)
    else if s[0] == d.open then Nest(d, s[1..], depth + 1)
    else if s[0] == d.close then if depth - 1 < 0 then None else Nest(d, s[1..], depth - 1)
    else Nest(d, s[1..], depth)
  }

  predicate Balanced(d: Dialect, s: string) { Nest(d, s, 0) == Some(0) }

  /** An element printed without quotes must have its brackets matched. */
  predicate Safe(d: Dialect, e: Element) {
    e.Some? && !NeedsQuoting(e.value) ==> Balanced(d, e.value)
  }

  // ----- Scanning one printed element -----

  predicate Plain(s: string) { forall i | 0 <= i < |s| :: !ForcesQuotes(s[i]) }

  lemma {:induction false} ScanPlain(d: Dialect, s: string, rest: string, st: Scanner)
    requires Known(d) && Plain(s) && !st.quoted
    ensures Scan(d, s + rest, st)
            == match Nest(d, s, st.depth)
               case None => None
               case Some(k) => Scan(d, rest, st.(raw := st.raw + s, depth := k))
    decreases |s|
  {
    if s == "" {
      assert s + rest == rest && st.raw + s == st.raw;
    } else {
      var c := s[0];
      assert !ForcesQuotes(c);
      assert (s + rest)[1..] == s[1..] + rest;
      assert st.raw + [c] + s[1..] == st.raw + s;
      var depth := if c == d.open then st.depth + 1 else if c == d.close then st.depth - 1 else st.depth;
      ScanPlain(d, s[1..], rest, st.(raw := st.raw + [c], depth := depth));
    }
  }

  lemma {:induction false} ScanEscaped(d: Dialect, s: string, rest: string, st: Scanner)
    requires st.quoted
    ensures Scan(d, Escape(s) + ("\"" + rest), st)
            == Scan(d, rest, st.(raw := st.raw + s, quoted := false))
    decreases |s|
  {
    var tail := "\"" + rest;
    if s == "" {
      assert Escape(s) + tail == tail && tail[1..] == rest && st.raw + s == st.raw;
    } else {
      var c := s[0];
      assert st.raw + [c] + s[1..] == st.raw + s;
      Assoc(EscapeChar(c), Escape(s[1..]), tail);
      ScanEscapedChar(d, c, Escape(s[1..]) + tail, st);
      ScanEscaped(d, s[1..], rest, st.(raw := st.raw + [c]));
    }
  }

  lemma ScanEscapedChar(d: Dialect, c: char, rest: string, st: Scanner)
    requires st.quoted
    ensures Scan(d, EscapeChar(c) + rest, st) == Scan(d, rest, st.(raw := st.raw + [c]))
  {
    var text := EscapeChar(c) + rest;
    assert text[|EscapeChar(c)|..] == rest;
  }

  /** The scanner right after a printed element, if it gets that far. */
  function AfterElement(d: Dialect, e: Element, st: Scanner): Option<Scanner> {
    match e
    case None => Some(st.(raw := st.raw + d.nullText))
    case Some(s) =>
      if NeedsQuoting(s) then Some(st.(raw := st.raw + s, quotedAny := true))
      else
        match Nest(d, s, st.depth)
        case None => None
        case Some(k) => Some(st.(raw := st.raw + s, depth := k))
  }

  lemma ScanElement(d: Dialect, e: Element, rest: string, st: Scanner)
    requires Known(d) && !st.quoted
    ensures Scan(d, ElementText(d, e) + rest, st)
            == match AfterElement(d, e, st) case None => None case Some(t) => Scan(d, rest, t)
  {
    match e
    case None =>
      NestNullText(d, st.depth);
      ScanPlain(d, d.nullText, rest, st);
    case Some(s) =>
      if NeedsQuoting(s) {
        var text := Quote(s) + rest;
        var open := st.(quoted := true, quotedAny := true);
        assert text[0] == '"' && text[1..] == Escape(s) + ("\"" + rest);
        ScanEscaped(d, s, rest, open);
        assert open.(raw := st.raw + s, quoted := false) == st.(raw := st.raw + s, quotedAny := true);
      } else {
        ScanPlain(d, s, rest, st);
      }
  }

  lemma NestNullText(d: Dialect, depth: int)
    requires Known(d)
    ensures Plain(d.nullText) && Nest(d, d.nullText, depth) == Some(depth)
  {
    if d == ArrayText {
      var w := "NULL";
      assert w[1..] == "ULL" && w[1..][1..] == "LL" && w[1..][1..][1..] == "L";
      assert Nest(d, "L", depth) == Some(depth);
      assert Nest(d, "LL", depth) == Some(depth) by { assert "LL"[1..] == "L"; }
      assert Nest(d, "ULL", depth) == Some(depth);
    }
  }

  lemma {:induction false} NestNonNegative(d: Dialect, s: string, depth: int)
    requires depth >= 0
    ensures Nest(d, s, depth).Some? ==> Nest(d, s, depth).value >= 0
  {
    if s != "" {
      var k := if s[0] == d.open then depth + 1 else if s[0] == d.close then depth - 1 else depth;
      if k >= 0 {
        NestNonNegative(d, s[1..], k);
      }
    }
  }

  // ----- Scanning the whole list -----

  /** From anywhere outside quotes, a printed list of n elements adds at most n. */
  lemma {:induction false} AtMostPrinted(d: Dialect, xs: seq<Element>, st: Scanner)
    requires Known(d) && !st.quoted && xs != []
    ensures var r := Scan(d, Joined(d, xs), st);
            r.Some? ==> |r.value| <= |st.out| + |xs|
    decreases |xs|
  {
    var rest := Rest(d, xs[1..]);
    ScanElement(d, xs[0], rest, st);
    if AfterElement(d, xs[0], st).Some? && |xs| > 1 {
      var t := AfterElement(d, xs[0], st).value;
      assert rest[1..] == Joined(d, xs[1..]);
      AtMostPrinted(d, xs[1..], if t.depth == 0 then Flush(d, t) else t.(raw := t.raw + ","));
    }
  }

  lemma FlushPrinted(d: Dialect, e: Element, st: Scanner)
    requires Known(d) && st.raw == "" && !st.quoted && !st.quotedAny && st.depth == 0 && Safe(d, e)
    ensures AfterElement(d, e, st).Some?
    ensures var t := AfterElement(d, e, st).value;
            t.depth == 0 && Flush(d, t) == st.(out := st.out + [e])
  {
    assert st.raw + d.nullText == d.nullText;
    if e.Some? {
      assert st.raw + e.value == e.value;
    }
  }

  /** An element whose brackets do not match costs the list at least one element. */
  lemma UnsafeHead(d: Dialect, xs: seq<Element>, out: seq<Element>)
    requires Known(d) && xs != [] && !Safe(d, xs[0])
    ensures Scan(d, Joined(d, xs), Start.(out := out)) != Some(out + xs)
  {
    var st := Start.(out := out);
    ScanElement(d, xs[0], Rest(d, xs[1..]), st);
    NestNonNegative(d, xs[0].value, 0);
    var after := AfterElement(d, xs[0], st);
    if after.Some? && |xs| > 1 {
      var t := after.value;
      assert Rest(d, xs[1..])[1..] == Joined(d, xs[1..]);
      AtMostPrinted(d, xs[1..], t.(raw := t.raw + ","));
      assert |out + xs| == |out| + |xs|;
    }
  }

  lemma SafeHead(d: Dialect, xs: seq<Element>, out: seq<Element>)
    requires Known(d) && xs != [] && Safe(d, xs[0])
    ensures Scan(d, Joined(d, xs), Start.(out := out))
            == if |xs| == 1 then Some(out + xs)
               else Scan(d, Joined(d, xs[1..]), Start.(out := out + [xs[0]]))
  {
    var st := Start.(out := out);
    var rest := Rest(d, xs[1..]);
    ScanElement(d, xs[0], rest, st);
    FlushPrinted(d, xs[0], st);
    if |xs| == 1 {
      assert xs == [xs[0]];
    } else {
      assert rest[1..] == Joined(d, xs[1..]);
    }
  }

  /** Scanning the printed list gives the list back exactly if every element is safe. */
  lemma {:induction false} ScanJoined(d: Dialect, xs: seq<Element>, out: seq<Element>)
    requires Known(d) && xs != []
    ensures Scan(d, Joined(d, xs), Start.(out := out)) == Some(out + xs)
            <==> forall e | e in xs :: Safe(d, e)
    decreases |xs|
  {
    assert xs == [xs[0]] + xs[1..];
    if Safe(d, xs[0]) {
      SafeHead(d, xs, out);
      if |xs| > 1 {
        assert out + [xs[0]] + xs[1..] == out + xs;
        ScanJoined(d, xs[1..], out + [xs[0]]);
      }
    } else {
      UnsafeHead(d, xs, out);
    }
  }

  lemma ElementTextEmpty(d: Dialect, e: Element)
    ensures ElementText(d, e) == "" <==> e.None? && d.nullText == ""
  {
  }

  /** The text between the brackets is empty for the empty list, and for a lone null of a
      dialect that prints null as nothing. */
  lemma JoinedEmpty(d: Dialect, xs: seq<Element>)
    ensures Joined(d, xs) == "" <==> xs == [] || (xs == [None] && d.nullText == "")
  {
    if xs != [] {
      ElementTextEmpty(d, xs[0]);
      if |xs| == 1 {
        assert xs == [xs[0]];
      }
    }
  }

  /** The round trip, exactly. */
  lemma RoundTrip(d: Dialect, xs: seq<Element>)
    requires Known(d)
    ensures Parse(d, Format(d, xs)) == Some(xs)
            <==> (xs == [None] ==> d.nullText != "") && forall e | e in xs :: Safe(d, e)
  {
    var text := Format(d, xs);
    assert text[1..|text| - 1] == Joined(d, xs);
    JoinedEmpty(d, xs);
    if Joined(d, xs) != "" {
      ScanJoined(d, xs, []);
      assert [] + xs == xs;
      assert Start.(out := []) == Start;
    }
  }

  /** Every list of optional strings survives the array form. */
  lemma ArrayRoundTrip(xs: seq<Element>)
    ensures Parse(ArrayText, Format(ArrayText, xs)) == Some(xs)
  {
    forall e | e in xs ensures Safe(ArrayText, e) {
      if e.Some? && !NeedsQuoting(e.value) {
        NoBraces(e.value, 0);
      }
    }
    RoundTrip(ArrayText, xs);
  }

  lemma {:induction false} NoBraces(s: string, depth: int)
    requires Plain(s)
    ensures Nest(ArrayText, s, depth) == Some(depth)
    decreases |s|
  {
    if s != "" {
      assert !ForcesQuotes(s[0]);
      NoBraces(s[1..], depth);
    }
  }

  /** A list survives the composite form exactly if it is not a lone null and the parentheses
      of its unquoted elements match. */
  lemma CompositeRoundTrip(xs: seq<Element>)
    ensures Parse(CompositeText, Format(CompositeText, xs)) == Some(xs)
            <==> xs != [None] && forall e | e in xs :: Safe(CompositeText, e)
  {
    RoundTrip(CompositeText, xs);
  }

  /** Parentheses do not force quotes, so an open one swallows the separator. */
  lemma OpenParenthesisMerges()
    ensures Parse(CompositeText, Format(CompositeText, [Some("a("), Some("b)")])) != Some([Some("a("), Some("b)")])
  {
    var d := CompositeText;
    var xs := [Some("a("), Some("b)")];
    assert "a("[1..] == "(" && "("[1..] == "";
    assert Nest(d, "(", 0) == Some(1);
    assert xs[0] in xs && !Safe(d, xs[0]);
    CompositeRoundTrip(xs);
  }

  /** Matched ones do no harm. */
  lemma MatchedParenthesesSurvive()
    ensures Parse(CompositeText, Format(CompositeText, [Some("(x)")])) == Some([Some("(x)")])
  {
    var d := CompositeText;
    assert "(x)"[1..] == "x)" && "x)"[1..] == ")" && ")"[1..] == "";
    assert Nest(d, ")", 1) == Some(0);
    assert Nest(d, "x)", 1) == Some(0);
    CompositeRoundTrip([Some("(x)")]);
  }

  /** Quotes inside a nested array are read and dropped, so a nested list of one element with a comma
      reads like one of two elements. */
  lemma NestedQuotesDropped()
    ensures Parse(ArrayText, "{{\"a,b\"}}") == Some([Some("{a,b}")]) == Parse(ArrayText, "{{a,b}}")
  {
    var d := ArrayText;
    var plain, quoted := "{a,b}", "{\"a,b\"}";
    assert Inner("{{a,b}}") == plain && Inner("{{\"a,b\"}}") == quoted;
    NestedScan(d, Start);
  }

  lemma NestedScan(d: Dialect, st: Scanner)
    requires d == ArrayText && st == Start
    ensures Scan(d, "{a,b}", st) == Some([Some("{a,b}")])
    ensures Scan(d, "{\"a,b\"}", st) == Some([Some("{a,b}")])
  {
    var s1 := st.(raw := "{", depth := 1);
    var end := st.(raw := "{a,b}");
    assert [] + [Some("{a,b}")] == [Some("{a,b}")];
    assert Flush(d, end).out == [Some("{a,b}")] && "{a,b}" != "NULL";
    assert Scan(d, "", end) == Some([Some("{a,b}")]);
    assert Scan(d, "}", s1.(raw := "{a,b")) == Scan(d, "", end) by { assert "}"[1..] == "" && "{a,b" + "}" == "{a,b}"; }
    assert Scan(d, "b}", s1.(raw := "{a,")) == Scan(d, "}", s1.(raw := "{a,b")) by { assert "b}"[1..] == "}" && "{a," + "b" == "{a,b"; }
    assert Scan(d, ",b}", s1.(raw := "{a")) == Scan(d, "b}", s1.(raw := "{a,")) by { assert ",b}"[1..] == "b}" && "{a" + "," == "{a,"; }
    assert Scan(d, "a,b}", s1) == Scan(d, ",b}", s1.(raw := "{a")) by { assert "a,b}"[1..] == ",b}" && "{" + "a" == "{a"; }
    assert Scan(d, "{a,b}", st) == Scan(d, "a,b}", s1) by { assert "{a,b}"[1..] == "a,b}" && "" + "{" == "{"; }
    NestedQuoted(d, st);
  }

  lemma NestedQuoted(d: Dialect, st: Scanner)
    requires d == ArrayText && st == Start
    ensures Scan(d, "{\"a,b\"}", st) == Some([Some("{a,b}")])
  {
    var s1 := st.(raw := "{", depth := 1);
    var s2 := s1.(quoted := true, quotedAny := true);
    NestedEnd(d, s2.(raw := "{a,b", quoted := false));
    NestedBody(d, s2);
    assert Scan(d, "\"a,b\"}", s1) == Scan(d, "a,b\"}", s2) by { assert "\"a,b\"}"[1..] == "a,b\"}"; }
    assert Scan(d, "{\"a,b\"}", st) == Scan(d, "\"a,b\"}", s1) by { assert "{\"a,b\"}"[1..] == "\"a,b\"}" && "" + "{" == "{"; }
  }

  lemma NestedBody(d: Dialect, s: Scanner)
    requires s.quoted && s.raw == "{"
    ensures Scan(d, "a,b\"}", s) == Scan(d, "}", s.(raw := "{a,b", quoted := false))
  {
    ScanEscaped(d, "a,b", "}", s);
    EscapeNone();
    assert "{" + "a,b" == "{a,b" && "a,b" + ("\"" + "}") == "a,b\"}";
  }

  lemma NestedEnd(d: Dialect, s: Scanner)
    requires d == ArrayText && s == Scanner("{a,b", false, true, 1, [])
    ensures Scan(d, "}", s) == Some([Some("{a,b}")])
  {
    var end := s.(raw := "{a,b}", depth := 0);
    assert [] + [Some("{a,b}")] == [Some("{a,b}")];
    assert Scan(d, "", end) == Some([Some("{a,b}")]);
    assert "}"[1..] == "" && "{a,b" + "}" == "{a,b}";
  }

  lemma EscapeNone()
    ensures Escape("a,b") == "a,b"
  {
    assert "a,b"[1..] == ",b" && ",b"[1..] == "b" && "b"[1..] == "";
    assert Escape("b") == "b" && Escape(",b") == ",b";
  }

  /** A lone null prints as nothing between the brackets, and reads back as no element. */
  lemma LoneNullVanishes()
    ensures Parse(CompositeText, Format(CompositeText, [None])) == Some([])
  {
    assert Format(CompositeText, [None]) == "()";
  }
}
