/** Dollar-quoted regions, `$tag$ ... $tag$`, which two of the SQL lexers recognise alike. */
module DollarQuote {
  import opened Text

  predicate IsTagChar(c: char) { IsAlnum(c) || c == '_' }

  lemma TagChars(c: char)
    ensures IsTagChar(c) <==> 'a' <= c <= 'z' || 'A' <= c <= 'Z' || '0' <= c <= '9' || c == '_'
  {
  }

  /** The first position from `i` on that does not hold a tag character. */
  function TagEnd(s: string, i: nat): (e: nat)
    requires i <= |s|
    ensures i <= e <= |s|
    decreases |s| - i
  {
    if i < |s| && IsTagChar(s[i]) then TagEnd(s, i + 1) else i
  }

  predicate IsTagEnd(s: string, i: nat, e: nat) {
    i <= e <= |s| && (forall k | i <= k < e :: IsTagChar(s[k])) && (e < |s| ==> !IsTagChar(s[e]))
  }

  lemma {:induction false} TagEndIs(s: string, i: nat, e: nat)
    requires i <= |s|
    ensures TagEnd(s, i) == e <==> IsTagEnd(s, i, e)
    decreases |s| - i
  {
    if i < |s| && IsTagChar(s[i]) {
      TagEndIs(s, i + 1, e);
    }
  }

  predicate MatchesAt(s: string, pattern: string, p: nat) {
    p + |pattern| <= |s| && s[p..p + |pattern|] == pattern
  }

  /** `std::string::find`: the first match from `from` on, or -1. */
  function Find(s: string, pattern: string, from: nat): (p: int)
    ensures p >= -1 && (p >= 0 ==> from <= p && MatchesAt(s, pattern, p))
    decreases |s| - from
  {
    if from + |pattern| > |s| then -1
    else if MatchesAt(s, pattern, from) then from
    else Find(s, pattern, from + 1)
  }

  lemma {:induction false} FindFirst(s: string, pattern: string, from: nat, k: nat)
    requires from <= k && MatchesAt(s, pattern, k)
    ensures 0 <= Find(s, pattern, from) <= k
    decreases |s| - from
  {
    if !MatchesAt(s, pattern, from) {
      FindFirst(s, pattern, from + 1, k);
    }
  }

  /** Texts with the same matches are searched alike. */
  lemma FindSame(s: string, t: string, pattern: string, from: nat)
    requires forall p: nat | from <= p :: MatchesAt(s, pattern, p) <==> MatchesAt(t, pattern, p)
    ensures Find(s, pattern, from) == Find(t, pattern, from)
  {
    var p, q := Find(s, pattern, from), Find(t, pattern, from);
    if p >= 0 {
      FindFirst(t, pattern, from, p);
    }
    if q >= 0 {
      FindFirst(s, pattern, from, q);
    }
  }

  predicate ValidTag(s: string, i: nat, tagEnd: nat)
    requires i < tagEnd <= |s|
  {
    tagEnd < |s| && s[tagEnd] == '$' && (tagEnd == i + 1 || !IsDigit(s[i + 1]))
  }

  /** Where the region opened by the `$` at `i` ends, or `i` if none opens there. */
  function DollarEnd(s: string, i: nat): (e: nat)
    requires i < |s| && s[i] == '$'
    ensures i <= e <= |s|
  {
    RegionAfter(s, i, TagEnd(s, i + 1))
  }

  /** The same, once the end of the tag is known. */
  function RegionAfter(s: string, i: nat, tagEnd: nat): (e: nat)
    requires i < tagEnd <= |s|
    ensures i <= e <= |s|
  {
    if ValidTag(s, i, tagEnd) then
      var delimiter := s[i..tagEnd + 1];
      var close := Find(s, delimiter, tagEnd + 1);
      if close >= 0 then close + |delimiter| else i
    else i
  }

  /** The first match from `from` on is at `c`. */
  ghost predicate FirstMatch(s: string, d: string, from: nat, c: nat) {
    from <= c && MatchesAt(s, d, c) && forall k: nat | from <= k < c :: !MatchesAt(s, d, k)
  }

  lemma FindIs(s: string, d: string, from: nat, c: nat)
    ensures Find(s, d, from) == c <==> FirstMatch(s, d, from, c)
  {
    var f := Find(s, d, from);
    if f == c {
      forall k: nat | from <= k < c ensures !MatchesAt(s, d, k) {
        if MatchesAt(s, d, k) {
          FindFirst(s, d, from, k);
        }
      }
    }
    if FirstMatch(s, d, from, c) {
      FindFirst(s, d, from, c);
    }
  }

  /** A region that opens at `i` with this tag and ends at `e`: behind the first repetition of the
      delimiter.  A tag does not start with a digit. */
  ghost predicate RegionIs(s: string, i: nat, tagEnd: nat, close: nat, e: nat) {
    && IsTagEnd(s, i + 1, tagEnd) && tagEnd < |s| && s[tagEnd] == '$' && (tagEnd > i + 1 ==> !IsDigit(s[i + 1]))
    && FirstMatch(s, s[i..tagEnd + 1], tagEnd + 1, close)
    && e == close + (tagEnd + 1 - i)
  }

  lemma RegionFound(s: string, i: nat, e: nat)
    requires i < |s| && s[i] == '$' && i < e && DollarEnd(s, i) == e
    ensures exists tagEnd, close :: RegionIs(s, i, tagEnd, close, e)
  {
    var t := TagEnd(s, i + 1);
    TagEndIs(s, i + 1, t);
    assert RegionAfter(s, i, t) == e && ValidTag(s, i, t);
    var d := s[i..t + 1];
    var c := Find(s, d, t + 1);
    FindIs(s, d, t + 1, c);
    assert RegionIs(s, i, t, c, e);
  }

  lemma RegionEnds(s: string, i: nat, tagEnd: nat, close: nat, e: nat)
    requires i < |s| && s[i] == '$' && RegionIs(s, i, tagEnd, close, e)
    ensures DollarEnd(s, i) == e
  {
    TagEndIs(s, i + 1, tagEnd);
    FindIs(s, s[i..tagEnd + 1], tagEnd + 1, close);
  }

  /** Where a region ends, said without the scan. */
  lemma DollarEndIs(s: string, i: nat, e: nat)
    requires i < |s| && s[i] == '$' && i < e
    ensures DollarEnd(s, i) == e <==> exists tagEnd, close :: RegionIs(s, i, tagEnd, close, e)
  {
    if DollarEnd(s, i) == e {
      RegionFound(s, i, e);
    }
    if tagEnd, close :| RegionIs(s, i, tagEnd, close, e) {
      RegionEnds(s, i, tagEnd, close, e);
    }
  }

  /** The code's search for the region's end. */
  method ScanDollar(s: string, i: nat) returns (e: nat)
    requires i < |s| && s[i] == '$'
    ensures e == DollarEnd(s, i)
  {
    var tagEnd := i + 1;
    while tagEnd < |s| && IsTagChar(s[tagEnd])
      invariant i + 1 <= tagEnd <= |s| && TagEnd(s, tagEnd) == TagEnd(s, i + 1)
    {
      tagEnd := tagEnd + 1;
    }
    e := i;
    if tagEnd < |s| && s[tagEnd] == '$' && (tagEnd == i + 1 || !IsDigit(s[i + 1])) {
      var delimiter := s[i..tagEnd + 1];
      var close := Find(s, delimiter, tagEnd + 1);
      if close >= 0 {
        e := close + |delimiter|;
      }
    }
  }

  predicate Letters(t: string) { forall k | 0 <= k < |t| :: IsAlpha(t[k]) }

  /** Appending letters neither opens nor closes a region. */
  lemma DollarEndAppend(s: string, t: string, i: nat)
    requires i < |s| && s[i] == '$' && Letters(t)
    ensures DollarEnd(s + t, i) == DollarEnd(s, i)
  {
    var e := TagEnd(s, i + 1);
    TagEndAppend(s, t, i + 1);
    if e < |s| {
      RegionAppend(s, t, i, e);
    } else {
      TagAppend(s, t, i, e);
    }
  }

  lemma RegionAppend(s: string, t: string, i: nat, e: nat)
    requires i < e < |s| && Letters(t)
    ensures RegionAfter(s + t, i, e) == RegionAfter(s, i, e)
  {
    TagAppend(s, t, i, e);
    if ValidTag(s, i, e) {
      FindAppend(s, t, s[i..e + 1], e + 1);
    }
  }

  lemma TagAppend(s: string, t: string, i: nat, e: nat)
    requires i < e <= |s| && Letters(t)
    ensures ValidTag(s, i, e) ==> ValidTag(s + t, i, e) && (s + t)[i..e + 1] == s[i..e + 1]
    ensures e < |s| && !ValidTag(s, i, e) ==> !ValidTag(s + t, i, e)
    ensures !ValidTag(s + t, i, |s + t|)
  {
    assert e < |s| ==> (s + t)[e] == s[e] && (s + t)[i + 1] == s[i + 1];
  }

  lemma TagEndAppend(s: string, t: string, i: nat)
    requires i <= |s| && Letters(t)
    ensures TagEnd(s, i) < |s| ==> TagEnd(s + t, i) == TagEnd(s, i)
    ensures TagEnd(s, i) == |s| ==> TagEnd(s + t, i) == |s + t|
  {
    var u, e := s + t, TagEnd(s, i);
    assert forall k | |s| <= k < |u| :: u[k] == t[k - |s|];
    assert forall k | 0 <= k < |s| :: u[k] == s[k];
    TagEndIs(s, i, e);
    TagEndIs(u, i, if e < |s| then e else |u|);
  }

  lemma LastOfMatch(s: string, d: string, p: nat)
    requires d != [] && MatchesAt(s, d, p)
    ensures s[p + |d| - 1] == d[|d| - 1]
  {
    assert s[p..p + |d|][|d| - 1] == s[p + |d| - 1];
  }

  lemma FindAppend(s: string, t: string, d: string, from: nat)
    requires d != [] && d[|d| - 1] == '$' && Letters(t)
    ensures Find(s + t, d, from) == Find(s, d, from)
  {
    var u := s + t;
    forall p: nat | from <= p ensures MatchesAt(u, d, p) <==> MatchesAt(s, d, p) {
      assert p + |d| <= |s| ==> u[p..p + |d|] == s[p..p + |d|];
      if MatchesAt(u, d, p) {
        LastOfMatch(u, d, p);
      }
    }
    FindSame(u, s, d, from);
  }
}
