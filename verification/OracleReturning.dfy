/** Oracle's `RETURNING ... INTO` clause: the generated suffix and the parser that reads it back. */
module OracleReturning {
  import opened Wrappers
  import opened Text

  /** `std::size_t` has 64 bits. */
  const SizeRange: nat := 0x1_0000_0000_0000_0000

  predicate IsWordChar(c: char) { IsAlnum(c) || c == '_' || c == '$' || c == '#' }

  predicate IsQuote(c: char) { c == '\'' || c == '"' }

  // ----- The generated suffix -----

  function Doubled(s: string): string {
    if s == "" then "" else (if s[0] == '"' then "\"\"" else [s[0]]) + Doubled(s[1..])
  }

  function Quoted(ident: string): string { "\"" + (Doubled(ident) + "\"") }

  function Names(columns: seq<string>): string
    decreases |columns|, 0
  {
    if columns == [] then "" else Quoted(columns[0]) + MoreNames(columns[1..])
  }

  function MoreNames(columns: seq<string>): string
    decreases |columns|, 1
  {
    if columns == [] then "" else ", " + Names(columns)
  }

  function Next(bind: nat): nat { (bind + 1) % SizeRange }

  function Binds(count: nat, first: nat): string
    decreases count, 0
  {
    if count == 0 then "" else (":" + Digits(first)) + MoreBinds(count - 1, Next(first))
  }

  function MoreBinds(count: nat, first: nat): string
    decreases count, 1
  {
    if count == 0 then "" else ", " + Binds(count, first)
  }

  function Suffix(columns: seq<string>, firstBind: nat): string {
    if columns == [] then ""
    else " RETURNING " + (Names(columns) + (" INTO " + Binds(|columns|, firstBind)))
  }

  method QuoteIdentifier(ident: string) returns (s: string)
    ensures s == Quoted(ident)
  {
    s := "\"";
    for i := 0 to |ident|
      invariant s + Doubled(ident[i..]) == "\"" + Doubled(ident)
    {
      assert ident[i..][1..] == ident[i + 1..];
      var piece := if ident[i] == '"' then "\"\"" else [ident[i]];
      Assoc(s, piece, Doubled(ident[i + 1..]));
      s := s + piece;
    }
    s := s + "\"";
    Assoc("\"", Doubled(ident), "\"");
  }

  method MakeReturningSuffix(columns: seq<string>, firstBind: nat) returns (s: string)
    requires firstBind < SizeRange
    ensures s == Suffix(columns, firstBind)
  {
    if columns == [] {
      return "";
    }
    var names := AppendNames(" RETURNING ", columns);
    Assoc(" RETURNING ", Names(columns), " INTO ");
    s := AppendBinds(names + " INTO ", |columns|, firstBind);
    Assoc(names, " INTO ", Binds(|columns|, firstBind));
    Assoc(" RETURNING ", Names(columns), " INTO " + Binds(|columns|, firstBind));
  }

  method AppendNames(start: string, columns: seq<string>) returns (s: string)
    ensures s == start + Names(columns)
  {
    s := start;
    for i := 0 to |columns|
      invariant s + (if i == 0 then Names(columns) else MoreNames(columns[i..])) == start + Names(columns)
    {
      assert columns[i..][1..] == columns[i + 1..] && columns[0..] == columns;
      if i > 0 {
        Assoc(s, ", ", Names(columns[i..]));
        s := s + ", ";
      }
      var q := QuoteIdentifier(columns[i]);
      Assoc(s, q, MoreNames(columns[i + 1..]));
      s := s + q;
    }
  }

  /** The number of the bind `i` places after the first. */
  function BindAt(firstBind: nat, i: nat): nat { (firstBind + i) % SizeRange }

  lemma BindAtSteps(firstBind: nat, i: nat)
    ensures Next(BindAt(firstBind, i)) == BindAt(firstBind, i + 1)
    ensures firstBind < SizeRange ==> BindAt(firstBind, 0) == firstBind
  {
  }

  method AppendBinds(start: string, count: nat, firstBind: nat) returns (s: string)
    requires firstBind < SizeRange
    ensures s == start + Binds(count, firstBind)
  {
    s := start;
    ghost var whole := start + Binds(count, firstBind);
    for i := 0 to count
      invariant s + (if i == 0 then Binds(count, firstBind) else MoreBinds(count - i, BindAt(firstBind, i))) == whole
    {
      var bind := BindAt(firstBind, i);
      BindAtSteps(firstBind, i);
      if i > 0 {
        Assoc(s, ", ", Binds(count - i, bind));
        s := s + ", ";
      }
      assert s + Binds(count - i, bind) == whole;
      Assoc(s, ":" + Digits(bind), MoreBinds(count - i - 1, Next(bind)));
      s := s + (":" + Digits(bind));
    }
  }

  // ----- What the parser reads -----

  /** The text after a quoted region whose opening quote has been read. */
  function AfterQuote(t: string, quote: char): (rest: string)
    ensures |rest| <= |t|
  {
    if t == "" then ""
    else if t[0] != quote then AfterQuote(t[1..], quote)
    else if |t| > 1 && t[1] == quote then AfterQuote(t[2..], quote)
    else t[1..]
  }

  /** The name inside such a region. */
  function QuotedName(t: string): string {
    if t == "" then ""
    else if t[0] != '"' then [t[0]] + QuotedName(t[1..])
    else if |t| > 1 && t[1] == '"' then "\"" + QuotedName(t[2..])
    else ""
  }

  function AfterWord(t: string): (rest: string)
    ensures |rest| <= |t|
    ensures t != "" && IsWordChar(t[0]) ==> |rest| < |t|
  {
    if t != "" && IsWordChar(t[0]) then AfterWord(t[1..]) else t
  }

  function Word(t: string): string {
    if t != "" && IsWordChar(t[0]) then [t[0]] + Word(t[1..]) else ""
  }

  function AfterSpaces(t: string): (rest: string)
    ensures |rest| <= |t|
  {
    if t != "" && IsSpace(t[0]) then AfterSpaces(t[1..]) else t
  }

  function Uppercase(s: string): string {
    if s == "" then "" else [Upper(s[0])] + Uppercase(s[1..])
  }

  predicate FoldEquals(a: string, b: string) { Uppercase(a) == Uppercase(b) }

  /** The scanner steps over a quoted region, a word, or one other character. */
  function AfterToken(t: string): (rest: string)
    requires t != ""
    ensures |rest| < |t|
  {
    if IsQuote(t[0]) then AfterQuote(t[1..], t[0])
    else if IsAlpha(t[0]) then AfterWord(t)
    else t[1..]
  }

  predicate ReturningAt(t: string)
    requires t != ""
  {
    IsAlpha(t[0]) && FoldEquals(Word(t), "RETURNING")
  }

  /** The text after the last RETURNING outside quotes. */
  function LastReturning(t: string, found: Option<string>): Option<string>
    decreases |t|
  {
    if t == "" then found
    else LastReturning(AfterToken(t), if ReturningAt(t) then Some(AfterToken(t)) else found)
  }

  datatype Listed = Listed(columns: seq<string>, rest: string)

  predicate CommaStart(t: string) { t != "" && t[0] == ',' }

  /** The column name that the rest of the text starts with. */
  function ColumnAt(t: string): Option<string> {
    var u := AfterSpaces(t);
    if IsName(u) then Some(Name(u)) else None
  }

  function AfterColumn(t: string): (rest: string)
    requires ColumnAt(t).Some?
    ensures |rest| < |t|
  {
    AfterSpaces(AfterName(AfterSpaces(t)))
  }

  function ParseColumns(t: string, columns: seq<string>): Option<Listed>
    decreases |t|
  {
    if t == "" then Some(Listed(columns, t))
    else if ColumnAt(t).None? then None
    else
      var u := AfterColumn(t);
      var all := columns + [ColumnAt(t).value];
      if CommaStart(u) then ParseColumns(u[1..], all) else Some(Listed(all, u))
  }

  predicate IsName(t: string) { t != "" && (t[0] == '"' || IsWordChar(t[0])) }

  function Name(t: string): string
    requires IsName(t)
  {
    if t[0] == '"' then QuotedName(t[1..]) else Uppercase(Word(t))
  }

  function AfterName(t: string): (rest: string)
    requires IsName(t)
    ensures |rest| < |t|
  {
    if t[0] == '"' then AfterQuote(t[1..], '"') else AfterWord(t)
  }

  /** Appending a digit, in a `std::size_t`. */
  function Shift(sum: nat, c: char): (r: nat)
    requires IsDigit(c)
    ensures sum * 10 + DigitValue(c) < SizeRange ==> r == sum * 10 + DigitValue(c)
  {
    (sum * 10 + DigitValue(c)) % SizeRange
  }

  /** The number that a run of digits accumulates in a `std::size_t`. */
  function BindValue(t: string, sum: nat): nat {
    if NonDigitStart(t) then sum else BindValue(t[1..], Shift(sum, t[0]))
  }

  function AfterDigits(t: string): (rest: string)
    ensures |rest| <= |t|
  {
    if NonDigitStart(t) then t else AfterDigits(t[1..])
  }

  function ParseBinds(t: string, binds: seq<nat>): Option<seq<nat>>
    decreases |t|
  {
    var u := AfterSpaces(t);
    if u == "" then Some(binds)
    else if u[0] == ',' then ParseBinds(u[1..], binds)
    else if u[0] != ':' then None
    else ParseBinds(AfterDigits(u[1..]), binds + [BindValue(u[1..], 0)])
  }

  datatype Returning = Returning(columns: seq<string>, firstBind: nat, bindCount: nat)

  function ParseList(t: string): Option<Returning> {
    match ParseColumns(t, [])
    case None => None
    case Some(list) =>
      var u := AfterSpaces(list.rest);
      if list.columns == [] || !FoldEquals(Word(u), "INTO") then None
      else
        match ParseBinds(AfterWord(u), [])
        case None => None
        case Some(binds) =>
          if |binds| != |list.columns| then None
          else Some(Returning(list.columns, binds[0], |binds|))
  }

  function Parse(sql: string): Option<Returning> {
    match LastReturning(sql, None)
    case None => None
    case Some(t) => ParseList(t)
  }

  // ----- The parser's loops -----

  method SkipQuoted(sql: string, start: nat, quote: char) returns (i: nat, name: string)
    requires start <= |sql|
    ensures start <= i <= |sql| && sql[i..] == AfterQuote(sql[start..], quote)
    ensures quote == '"' ==> name == QuotedName(sql[start..])
  {
    var n := |sql|;
    i, name := start, "";
    while i < n
      invariant start <= i <= n
      invariant AfterQuote(sql[i..], quote) == AfterQuote(sql[start..], quote)
      invariant quote == '"' ==> name + QuotedName(sql[i..]) == QuotedName(sql[start..])
    {
      assert sql[i..][1..] == sql[i + 1..];
      if sql[i] == quote {
        if i + 1 < n && sql[i + 1] == quote {
          assert sql[i..][2..] == sql[i + 2..];
          Assoc(name, [quote], QuotedName(sql[i + 2..]));
          name := name + [quote];
          i := i + 2;
          continue;
        }
        i := i + 1;
        break;
      }
      Assoc(name, [sql[i]], QuotedName(sql[i + 1..]));
      name := name + [sql[i]];
      i := i + 1;
    }
  }

  method SkipWord(sql: string, start: nat) returns (i: nat)
    requires start <= |sql|
    ensures start <= i <= |sql| && sql[i..] == AfterWord(sql[start..]) && sql[start..i] == Word(sql[start..])
  {
    i := start;
    while i < |sql| && IsWordChar(sql[i])
      invariant start <= i <= |sql| && AfterWord(sql[i..]) == AfterWord(sql[start..])
      invariant sql[start..i] + Word(sql[i..]) == Word(sql[start..])
    {
      assert sql[i..][1..] == sql[i + 1..];
      assert sql[start..i + 1] == sql[start..i] + [sql[i]];
      Assoc(sql[start..i], [sql[i]], Word(sql[i + 1..]));
      i := i + 1;
    }
  }

  method SkipSpaces(sql: string, start: nat) returns (i: nat)
    requires start <= |sql|
    ensures start <= i <= |sql| && sql[i..] == AfterSpaces(sql[start..])
  {
    i := start;
    while i < |sql| && IsSpace(sql[i])
      invariant start <= i <= |sql| && AfterSpaces(sql[i..]) == AfterSpaces(sql[start..])
    {
      assert sql[i..][1..] == sql[i + 1..];
      i := i + 1;
    }
  }

  lemma {:induction false} WordSplits(t: string)
    ensures t == Word(t) + AfterWord(t)
  {
    if t != "" && IsWordChar(t[0]) {
      WordSplits(t[1..]);
    }
  }

  method SkipToken(sql: string, start: nat) returns (i: nat, hit: bool)
    requires start < |sql|
    ensures start < i <= |sql| && sql[i..] == AfterToken(sql[start..])
    ensures hit == ReturningAt(sql[start..]) && (hit ==> i == start + 9)
  {
    assert sql[start..][1..] == sql[start + 1..];
    var c := sql[start];
    hit := false;
    if IsQuote(c) {
      var end, name := SkipQuoted(sql, start + 1, c);
      i := end;
    } else if IsAlpha(c) {
      i := SkipWord(sql, start);
      if FoldEquals(sql[start..i], "RETURNING") {
        FoldedSize(sql[start..i], "RETURNING");
        hit := true;
      }
    } else {
      i := start + 1;
    }
  }

  /** The text behind a keyword at a position. */
  function Behind(sql: string, keyword: Option<nat>): Option<string>
    requires keyword.Some? ==> keyword.value + 9 <= |sql|
  {
    if keyword.Some? then Some(sql[keyword.value + 9..]) else None
  }

  lemma ScanStep(sql: string, i: nat, end: nat, hit: bool, keyword: Option<nat>)
    requires i < end <= |sql| && sql[end..] == AfterToken(sql[i..])
    requires hit == ReturningAt(sql[i..]) && (hit ==> end == i + 9) && (keyword.Some? ==> keyword.value + 9 <= |sql|)
    ensures LastReturning(sql[i..], Behind(sql, keyword))
            == LastReturning(sql[end..], Behind(sql, if hit then Some(i) else keyword))
  {
  }

  /** The position of the last keyword, if there is one. */
  method FindReturning(sql: string) returns (keyword: Option<nat>)
    ensures keyword.Some? ==> keyword.value + 9 <= |sql|
    ensures LastReturning(sql, None) == Behind(sql, keyword)
  {
    var n, i := |sql|, 0;
    keyword := None;
    assert sql[0..] == sql;
    while i < n
      invariant i <= n && (keyword.Some? ==> keyword.value + 9 <= n)
      invariant LastReturning(sql[i..], Behind(sql, keyword)) == LastReturning(sql, None)
    {
      var end, hit := SkipToken(sql, i);
      ScanStep(sql, i, end, hit, keyword);
      if hit {
        keyword := Some(i);
      }
      i := end;
    }
  }

  lemma FoldedSize(a: string, b: string)
    requires FoldEquals(a, b)
    ensures |a| == |b|
  {
    UppercaseSize(a);
    UppercaseSize(b);
  }

  lemma {:induction false} UppercaseSize(s: string)
    ensures |Uppercase(s)| == |s|
  {
    if s != "" {
      UppercaseSize(s[1..]);
    }
  }

  method ReadName(sql: string, start: nat) returns (name: string, p: nat)
    requires start <= |sql| && IsName(sql[start..])
    ensures start < p <= |sql| && sql[p..] == AfterName(sql[start..]) && name == Name(sql[start..])
  {
    assert sql[start..][1..] == sql[start + 1..];
    if sql[start] == '"' {
      p, name := SkipQuoted(sql, start + 1, '"');
    } else {
      p := SkipWord(sql, start);
      name := Uppercase(sql[start..p]);
    }
  }

  /** One turn of the column loop; `more` says that a comma follows. */
  method ReadColumn(sql: string, start: nat) returns (name: Option<string>, p: nat, more: bool)
    requires start < |sql|
    ensures p <= |sql| && (name.Some? ==> start < p)
    ensures name == ColumnAt(sql[start..])
    ensures name.Some? ==> var u := AfterColumn(sql[start..]);
                           more == CommaStart(u) && sql[p..] == if more then u[1..] else u
  {
    p := SkipSpaces(sql, start);
    more := false;
    if p >= |sql| {
      return None, p, more;
    }
    if sql[p] != '"' && !IsWordChar(sql[p]) {
      return None, p, more;
    }
    var column, end := ReadName(sql, p);
    name := Some(column);
    p := SkipSpaces(sql, end);
    if p < |sql| && sql[p] == ',' {
      p, more := p + 1, true;
    }
  }

  method ReadColumns(sql: string, start: nat) returns (columns: Option<seq<string>>, p: nat)
    requires start <= |sql|
    ensures p <= |sql|
    ensures ParseColumns(sql[start..], [])
            == if columns.Some? then Some(Listed(columns.value, sql[p..])) else None
  {
    var n, list := |sql|, [];
    p := start;
    while p < n
      invariant p <= n && ParseColumns(sql[p..], list) == ParseColumns(sql[start..], [])
      decreases n - p
    {
      var name, end, more := ReadColumn(sql, p);
      if name.None? {
        return None, p;
      }
      p, list := end, list + [name.value];
      if !more {
        break;
      }
    }
    return Some(list), p;
  }

  method ReadBind(sql: string, start: nat) returns (value: nat, p: nat)
    requires start <= |sql|
    ensures start <= p <= |sql| && sql[p..] == AfterDigits(sql[start..]) && value == BindValue(sql[start..], 0)
  {
    value, p := 0, start;
    while p < |sql| && IsDigit(sql[p])
      invariant start <= p <= |sql|
      invariant AfterDigits(sql[p..]) == AfterDigits(sql[start..])
      invariant BindValue(sql[p..], value) == BindValue(sql[start..], 0)
    {
      assert sql[p..][1..] == sql[p + 1..];
      value := Shift(value, sql[p]);
      p := p + 1;
    }
  }

  method ReadBinds(sql: string, start: nat) returns (binds: Option<seq<nat>>)
    requires start <= |sql|
    ensures binds == ParseBinds(sql[start..], [])
  {
    var n, p, list := |sql|, start, [];
    while p < n
      invariant p <= n && ParseBinds(sql[p..], list) == ParseBinds(sql[start..], [])
    {
      p := SkipSpaces(sql, p);
      if p >= n {
        break;
      }
      assert sql[p..][1..] == sql[p + 1..];
      if sql[p] == ',' {
        p := p + 1;
        continue;
      }
      if sql[p] != ':' {
        return None;
      }
      var bind, end := ReadBind(sql, p + 1);
      p, list := end, list + [bind];
    }
    return Some(list);
  }

  /** The part of the parser behind the keyword. */
  method ReadList(sql: string, start: nat) returns (r: Option<Returning>)
    requires start <= |sql|
    ensures r == ParseList(sql[start..])
  {
    var columns, p := ReadColumns(sql, start);
    if columns.None? || columns.value == [] {
      return None;
    }
    p := SkipSpaces(sql, p);
    var end := SkipWord(sql, p);
    if !FoldEquals(sql[p..end], "INTO") {
      return None;
    }
    var binds := ReadBinds(sql, end);
    if binds.None? || |binds.value| != |columns.value| {
      return None;
    }
    return Some(Returning(columns.value, binds.value[0], |binds.value|));
  }

  lemma ParseBehind(sql: string, keyword: Option<nat>)
    requires (keyword.Some? ==> keyword.value + 9 <= |sql|) && LastReturning(sql, None) == Behind(sql, keyword)
    ensures Parse(sql) == if keyword.Some? then ParseList(sql[keyword.value + 9..]) else None
  {
  }

  /** The whole parser. */
  method ParseReturningInto(sql: string) returns (r: Option<Returning>)
    ensures r == Parse(sql)
  {
    var keyword := FindReturning(sql);
    ParseBehind(sql, keyword);
    if keyword.None? {
      return None;
    }
    r := ReadList(sql, keyword.value + 9);
  }

  // ----- The scanner on the statement before the suffix -----

  /** The quoted region just opened is closed within `t`. */
  predicate Closes(t: string, quote: char) {
    t != "" && if t[0] != quote then Closes(t[1..], quote)
               else |t| > 1 && t[1] == quote ==> Closes(t[2..], quote)
  }

  /** Scanning `t` ends outside quotes. */
  predicate EndsOutside(t: string)
    decreases |t|
  {
    t == "" || ((IsQuote(t[0]) ==> Closes(t[1..], t[0])) && EndsOutside(AfterToken(t)))
  }

  lemma {:induction false} AfterQuoteAppend(t: string, quote: char, rest: string)
    requires Closes(t, quote) && (rest == "" || rest[0] != quote)
    ensures AfterQuote(t + rest, quote) == AfterQuote(t, quote) + rest
    decreases |t|
  {
    assert (t + rest)[1..] == t[1..] + rest;
    if t[0] != quote {
      AfterQuoteAppend(t[1..], quote, rest);
    } else if |t| > 1 && t[1] == quote {
      assert (t + rest)[2..] == t[2..] + rest;
      AfterQuoteAppend(t[2..], quote, rest);
    }
  }

  predicate NonWordStart(t: string) { t == "" || !IsWordChar(t[0]) }

  lemma {:induction false} WordAppend(t: string, rest: string)
    requires NonWordStart(rest)
    ensures AfterWord(t + rest) == AfterWord(t) + rest && Word(t + rest) == Word(t)
  {
    if t == "" {
      assert t + rest == rest;
    } else {
      assert (t + rest)[1..] == t[1..] + rest;
      if IsWordChar(t[0]) {
        WordAppend(t[1..], rest);
      }
    }
  }

  lemma TokenAppend(t: string, rest: string)
    requires t != "" && (IsQuote(t[0]) ==> Closes(t[1..], t[0])) && rest != "" && rest[0] == ' '
    ensures AfterToken(t + rest) == AfterToken(t) + rest
  {
    assert (t + rest)[1..] == t[1..] + rest;
    WordAppend(t, rest);
    if IsQuote(t[0]) {
      AfterQuoteAppend(t[1..], t[0], rest);
    }
  }

  /** A base that ends outside quotes hands the scanner over to what follows it. */
  lemma {:induction false} BaseScanned(base: string, rest: string, found: Option<string>)
    returns (f: Option<string>)
    requires EndsOutside(base) && rest != "" && rest[0] == ' '
    ensures LastReturning(base + rest, found) == LastReturning(rest, f)
    decreases |base|
  {
    var t := base + rest;
    if base == "" {
      assert t == rest;
      f := found;
    } else {
      TokenAppend(base, rest);
      f := BaseScanned(AfterToken(base), rest, if ReturningAt(t) then Some(AfterToken(t)) else found);
    }
  }

  // ----- The scanner on the suffix -----

  lemma {:induction false} DoubledRead(s: string, rest: string)
    requires rest == "" || rest[0] != '"'
    ensures AfterQuote(Doubled(s) + ("\"" + rest), '"') == rest
    ensures QuotedName(Doubled(s) + ("\"" + rest)) == s
  {
    var tail := "\"" + rest;
    var text := Doubled(s) + tail;
    if s == "" {
      assert text == tail && tail[1..] == rest;
    } else {
      DoubledRead(s[1..], rest);
      if s[0] == '"' {
        assert text[2..] == Doubled(s[1..]) + tail;
      } else {
        assert text[1..] == Doubled(s[1..]) + tail;
      }
      assert s == [s[0]] + s[1..];
    }
  }

  lemma QuotedRead(s: string, rest: string)
    requires rest == "" || rest[0] != '"'
    ensures (Quoted(s) + rest)[0] == '"'
    ensures AfterQuote((Quoted(s) + rest)[1..], '"') == rest
    ensures QuotedName((Quoted(s) + rest)[1..]) == s
  {
    assert (Quoted(s) + rest)[1..] == Doubled(s) + ("\"" + rest);
    DoubledRead(s, rest);
  }

  /** Neither a quote nor the start of a word. */
  predicate Inert(x: string) { forall k | 0 <= k < |x| :: !IsQuote(x[k]) && !IsAlpha(x[k]) }

  lemma {:induction false} InertScanned(x: string, rest: string, found: Option<string>)
    requires Inert(x)
    ensures LastReturning(x + rest, found) == LastReturning(rest, found)
  {
    if x == "" {
      assert x + rest == rest;
    } else {
      assert (x + rest)[1..] == x[1..] + rest;
      InertScanned(x[1..], rest, found);
    }
  }

  lemma {:induction false} BindsInert(count: nat, first: nat)
    ensures Inert(Binds(count, first))
    decreases count
  {
    if count > 0 {
      DigitsValue(first);
      BindsInert(count - 1, Next(first));
    }
  }

  lemma NameScanned(column: string, more: string, found: Option<string>)
    requires more == "" || more[0] != '"'
    ensures LastReturning(Quoted(column) + more, found) == LastReturning(more, found)
  {
    QuotedRead(column, more);
  }

  lemma {:induction false} NamesScanned(columns: seq<string>, rest: string, found: Option<string>)
    requires columns != [] && rest != "" && rest[0] == ' '
    ensures LastReturning(Names(columns) + rest, found) == LastReturning(rest, found)
    decreases |columns|
  {
    NamesSplit(columns, rest);
    NameScanned(columns[0], MoreNames(columns[1..]) + rest, found);
    if |columns| > 1 {
      var onward := Names(columns[1..]) + rest;
      assert "," + (" " + onward) == ", " + onward;
      InertScanned(", ", onward, found);
      NamesScanned(columns[1..], rest, found);
    }
  }

  /** A word that starts with a letter. */
  predicate IsWord(w: string) { w != "" && IsAlpha(w[0]) && forall k | 0 <= k < |w| :: IsWordChar(w[k]) }

  lemma {:induction false} WordRead(w: string, rest: string)
    requires (forall k | 0 <= k < |w| :: IsWordChar(w[k])) && NonWordStart(rest)
    ensures Word(w + rest) == w && AfterWord(w + rest) == rest
  {
    if w == "" {
      assert w + rest == rest;
    } else {
      assert (w + rest)[1..] == w[1..] + rest;
      WordRead(w[1..], rest);
    }
  }

  lemma WordScanned(w: string, rest: string, found: Option<string>)
    requires IsWord(w) && NonWordStart(rest)
    ensures LastReturning(" " + (w + rest), found)
            == LastReturning(rest, if FoldEquals(w, "RETURNING") then Some(rest) else found)
  {
    InertScanned(" ", w + rest, found);
    WordRead(w, rest);
  }

  lemma BindsScanned(w: string, binds: string, found: Option<string>)
    requires IsWord(w) && !FoldEquals(w, "RETURNING") && Inert(binds)
    ensures LastReturning(" " + (w + (" " + binds)), found) == found
  {
    var after := " " + binds;
    WordScanned(w, after, found);
    InertScanned(after, "", found);
    assert after + "" == after;
  }

  lemma IntoIsWord()
    ensures IsWord("INTO")
  {
  }

  lemma ReturningIsWord()
    ensures IsWord("RETURNING")
  {
  }

  lemma IntoIsNotReturning()
    ensures !FoldEquals("INTO", "RETURNING")
  {
    DifferentSizes("INTO", "RETURNING");
  }

  lemma DifferentSizes(a: string, b: string)
    requires |a| != |b|
    ensures !FoldEquals(a, b)
  {
    UppercaseSize(a);
    UppercaseSize(b);
  }

  lemma BodyScanned(w: string, body: string, found: Option<string>)
    requires IsWord(w) && FoldEquals(w, "RETURNING")
    ensures LastReturning(" " + (w + (" " + body)), found) == LastReturning(body, Some(" " + body))
  {
    WordScanned(w, " " + body, found);
    InertScanned(" ", body, Some(" " + body));
  }

  lemma ClauseScanned(r: string, w: string, columns: seq<string>, binds: string, found: Option<string>)
    requires IsWord(r) && FoldEquals(r, "RETURNING") && IsWord(w) && !FoldEquals(w, "RETURNING")
    requires columns != [] && Inert(binds)
    ensures var body := Names(columns) + (" " + (w + (" " + binds)));
            LastReturning(" " + (r + (" " + body)), found) == Some(" " + body)
  {
    var into := " " + (w + (" " + binds));
    var body := Names(columns) + into;
    BodyScanned(r, body, found);
    NamesScanned(columns, into, Some(" " + body));
    BindsScanned(w, binds, Some(" " + body));
  }

  lemma Spelling(t: string)
    ensures " INTO " + t == " " + ("INTO" + (" " + t))
    ensures " RETURNING " + t == " " + ("RETURNING" + (" " + t))
  {
  }

  lemma SuffixScanned(columns: seq<string>, firstBind: nat, found: Option<string>)
    requires columns != []
    ensures var body := Names(columns) + (" INTO " + Binds(|columns|, firstBind));
            LastReturning(Suffix(columns, firstBind), found) == Some(" " + body)
  {
    var binds := Binds(|columns|, firstBind);
    Spelling(binds);
    Spelling(Names(columns) + (" INTO " + binds));
    IntoIsNotReturning();
    IntoIsWord();
    ReturningIsWord();
    BindsInert(|columns|, firstBind);
    ClauseScanned("RETURNING", "INTO", columns, binds, found);
  }

  // ----- The parser on the suffix -----

  lemma SpaceRead(t: string)
    requires t == "" || !IsSpace(t[0])
    ensures AfterSpaces(" " + t) == t && AfterSpaces(t) == t
  {
    assert (" " + t)[1..] == t;
  }

  lemma ColumnRead(column: string, more: string)
    requires more == "" || more[0] != '"'
    ensures ColumnAt(" " + (Quoted(column) + more)) == Some(column)
    ensures AfterColumn(" " + (Quoted(column) + more)) == AfterSpaces(more)
  {
    QuotedRead(column, more);
    SpaceRead(Quoted(column) + more);
  }

  /** One printed name, followed by what cannot be a further quote. */
  lemma NameParsed(column: string, more: string, before: seq<string>)
    requires more == "" || more[0] != '"'
    ensures var t := " " + (Quoted(column) + more);
            var u, all := AfterSpaces(more), before + [column];
            ParseColumns(t, before) == if CommaStart(u) then ParseColumns(u[1..], all) else Some(Listed(all, u))
  {
    ColumnRead(column, more);
  }

  lemma NamesSplit(columns: seq<string>, tail: string)
    requires columns != []
    ensures Names(columns) + tail == Quoted(columns[0]) + (MoreNames(columns[1..]) + tail)
    ensures |columns| == 1 ==> MoreNames(columns[1..]) + tail == tail
    ensures |columns| > 1 ==> MoreNames(columns[1..]) + tail == "," + (" " + (Names(columns[1..]) + tail))
  {
    Assoc(Quoted(columns[0]), MoreNames(columns[1..]), tail);
    if |columns| > 1 {
      CommaSpace(Names(columns[1..]), tail);
    } else {
      NothingMore(columns[1..], tail);
    }
  }

  lemma NothingMore(columns: seq<string>, tail: string)
    requires columns == []
    ensures MoreNames(columns) + tail == tail
  {
  }

  lemma CommaSpace(x: string, y: string)
    ensures ", " + x + y == "," + (" " + (x + y))
  {
  }

  lemma CommaRead(t: string)
    ensures var u := AfterSpaces("," + t); CommaStart(u) && u[1..] == t
  {
    assert ("," + t)[1..] == t;
  }

  lemma {:induction false} NamesParsed(columns: seq<string>, rest: string, before: seq<string>)
    requires columns != [] && rest != "" && !IsSpace(rest[0]) && rest[0] != ','
    ensures ParseColumns(" " + (Names(columns) + (" " + rest)), before) == Some(Listed(before + columns, rest))
    decreases |columns|
  {
    NamesSplit(columns, " " + rest);
    NameParsed(columns[0], MoreNames(columns[1..]) + (" " + rest), before);
    assert before + columns == before + [columns[0]] + columns[1..];
    if |columns| == 1 {
      SpaceRead(rest);
      assert before + columns == before + [columns[0]];
    } else {
      CommaRead(" " + (Names(columns[1..]) + (" " + rest)));
      NamesParsed(columns[1..], rest, before + [columns[0]]);
    }
  }

  lemma {:induction false} ValuePrefix(s: string, k: nat)
    requires k <= |s| && forall i | 0 <= i < |s| :: IsDigit(s[i])
    ensures Value(s[..k]) <= Value(s)
    decreases |s|
  {
    if k < |s| {
      var init := s[..|s| - 1];
      ValuePrefix(init, k);
      assert init[..k] == s[..k];
    } else {
      assert s[..k] == s;
    }
  }

  lemma ValueStep(s: string, k: nat)
    requires k < |s| && forall i | 0 <= i < |s| :: IsDigit(s[i])
    ensures Value(s[..k + 1]) == Value(s[..k]) * 10 + DigitValue(s[k])
  {
    assert s[..k + 1][..k] == s[..k];
  }

  /** Reading a numeral that fits never wraps. */
  lemma {:induction false} NumeralRead(s: string, rest: string, k: nat)
    requires k <= |s| && (forall i | 0 <= i < |s| :: IsDigit(s[i])) && NonDigitStart(rest)
    requires Value(s) < SizeRange
    ensures BindValue(s[k..] + rest, Value(s[..k])) == Value(s)
    ensures AfterDigits(s[k..] + rest) == rest
    decreases |s| - k
  {
    var t := s[k..] + rest;
    if k == |s| {
      assert t == rest && s[..k] == s;
    } else {
      assert t[0] == s[k] && t[1..] == s[k + 1..] + rest;
      ValueStep(s, k);
      ValuePrefix(s, k + 1);
      NumeralRead(s, rest, k + 1);
    }
  }

  lemma BindRead(bind: nat, rest: string)
    requires bind < SizeRange && NonDigitStart(rest)
    ensures BindValue(Digits(bind) + rest, 0) == bind && AfterDigits(Digits(bind) + rest) == rest
  {
    DigitsValue(bind);
    var s := Digits(bind);
    NumeralRead(s, rest, 0);
    assert s[0..] == s && s[..0] == "";
  }

  function BindList(count: nat, first: nat): (binds: seq<nat>)
    ensures |binds| == count && (count > 0 ==> binds[0] == first)
  {
    if count == 0 then [] else [first] + BindList(count - 1, Next(first))
  }

  /** One printed bind. */
  lemma BindParsed(bind: nat, more: string, before: seq<nat>)
    requires bind < SizeRange && NonDigitStart(more)
    ensures ParseBinds(" " + (":" + (Digits(bind) + more)), before) == ParseBinds(more, before + [bind])
  {
    var numeral := Digits(bind) + more;
    SpaceRead(":" + numeral);
    assert (":" + numeral)[1..] == numeral;
    BindRead(bind, more);
  }

  lemma BindCommaParsed(t: string, before: seq<nat>)
    ensures ParseBinds(", " + t, before) == ParseBinds(" " + t, before)
  {
    SpaceRead(", " + t);
    assert (", " + t)[1..] == " " + t;
  }

  lemma {:induction false} BindsParsed(count: nat, first: nat, before: seq<nat>)
    requires count > 0 && first < SizeRange
    ensures ParseBinds(" " + Binds(count, first), before) == Some(before + BindList(count, first))
    decreases count
  {
    var more := MoreBinds(count - 1, Next(first));
    assert Binds(count, first) == ":" + (Digits(first) + more);
    BindParsed(first, more, before);
    Assoc(before, [first], BindList(count - 1, Next(first)));
    if count > 1 {
      BindCommaParsed(Binds(count - 1, Next(first)), before + [first]);
      BindsParsed(count - 1, Next(first), before + [first]);
    } else {
      assert before + BindList(count, first) == before + [first];
    }
  }

  lemma ListParsed(columns: seq<string>, firstBind: nat)
    requires columns != [] && firstBind < SizeRange
    ensures ParseList(" " + (Names(columns) + (" INTO " + Binds(|columns|, firstBind))))
            == Some(Returning(columns, firstBind, |columns|))
  {
    var binds := Binds(|columns|, firstBind);
    var into := "INTO" + (" " + binds);
    Spelling(binds);
    NamesParsed(columns, into, []);
    assert [] + columns == columns;
    SpaceRead(into);
    WordRead("INTO", " " + binds);
    BindsParsed(|columns|, firstBind, []);
  }

  /** Parsing a statement to which the suffix was appended recovers what the suffix was made
      from: any names, quotes included, and any first bind. */
  lemma SuffixRoundTrip(base: string, columns: seq<string>, firstBind: nat)
    requires columns != [] && firstBind < SizeRange && EndsOutside(base)
    ensures Parse(base + Suffix(columns, firstBind)) == Some(Returning(columns, firstBind, |columns|))
  {
    var found := BaseScanned(base, Suffix(columns, firstBind), None);
    SuffixScanned(columns, firstBind, found);
    ListParsed(columns, firstBind);
  }

  lemma {:induction false} NeverCloses(t: string, quote: char)
    requires quote !in t
    ensures AfterQuote(t, quote) == ""
  {
    if t != "" {
      assert t[0] in t;
      NeverCloses(t[1..], quote);
    }
  }

  /** Inside an open literal the suffix is not seen. */
  lemma OpenLiteralHides(columns: seq<string>, firstBind: nat)
    requires '\'' !in Suffix(columns, firstBind)
    ensures !EndsOutside("'") && Parse("'" + Suffix(columns, firstBind)) == None
  {
    var t := "'" + Suffix(columns, firstBind);
    assert t[1..] == Suffix(columns, firstBind);
    NeverCloses(t[1..], '\'');
    assert AfterToken(t) == "" && !ReturningAt(t);
    assert LastReturning(t, None) == LastReturning("", None);
  }
}
