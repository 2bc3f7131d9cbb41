/** Copy detection in the score (agent-server/focusproof/domain/scoring.py:19-22, 70-138). The
    Unicode folding and the alphanumeric test of the host language are parameters. */
module CopyDetection {

  /** `unicodedata.normalize("NFKC", text).casefold()` and `str.isalnum`. */
  datatype Unicode = Unicode(fold: string -> string, alnum: char -> bool)

  predicate IsCjk(c: char) {
    || '\U{3400}' <= c <= '\U{4dbf}' || '\U{4e00}' <= c <= '\U{9fff}' || '\U{f900}' <= c <= '\U{faff}'
    || '\U{3040}' <= c <= '\U{30ff}' || '\U{ac00}' <= c <= '\U{d7af}'
  }

  predicate IsWordCharacter(u: Unicode, c: char) {
    !IsCjk(c) && u.alnum(c)
  }

  predicate IsWord(u: Unicode, s: string) {
    forall c <- s :: IsWordCharacter(u, c)
  }

  // ---------------------------------------------------------------------
  // The tokeniser

  /** How far the word at the front of `s` reaches. */
  function WordLength(u: Unicode, s: string): (n: nat)
    ensures n <= |s| && IsWord(u, s[..n])
    ensures n < |s| ==> !IsWordCharacter(u, s[n])
  {
    if s == [] || !IsWordCharacter(u, s[0]) then 0
    else
      var n := WordLength(u, s[1..]);
      assert s[..n + 1] == [s[0]] + s[1..][..n];
      n + 1
  }

  /** Each CJK character by itself, and between them the longest runs of word characters. */
  function Units(u: Unicode, s: string): seq<string>
    decreases |s|
  {
    if s == [] then []
    else if IsCjk(s[0]) then [[s[0]]] + Units(u, s[1..])
    else if u.alnum(s[0]) then
      var n := WordLength(u, s);
      [s[..n]] + Units(u, s[n..])
    else Units(u, s[1..])
  }

  /** `flush_word`. */
  function Flushed(word: string): seq<string> {
    if word == [] then [] else [word]
  }

  lemma {:induction false} WordLengthOfWord(u: Unicode, word: string, rest: string)
    requires IsWord(u, word)
    requires rest == [] || !IsWordCharacter(u, rest[0])
    ensures WordLength(u, word + rest) == |word|
  {
    if word == [] {
      assert word + rest == rest;
    } else {
      assert (word + rest)[1..] == word[1..] + rest;
      WordLengthOfWord(u, word[1..], rest);
    }
  }

  /** A word ends where the text ends or goes on with something else. */
  lemma UnitsAfterWord(u: Unicode, word: string, rest: string)
    requires IsWord(u, word)
    requires rest == [] || !IsWordCharacter(u, rest[0])
    ensures Units(u, word + rest) == Flushed(word) + Units(u, rest)
  {
    if word == [] {
      assert word + rest == rest;
    } else {
      WordLengthOfWord(u, word, rest);
      assert (word + rest)[0] == word[0] && word[0] in word;
      assert (word + rest)[..|word|] == word && (word + rest)[|word|..] == rest;
    }
  }

  /** One character more: what the loop body does. */
  lemma UnitsStep(u: Unicode, word: string, c: char, rest: string)
    requires IsWord(u, word)
    ensures Units(u, word + ([c] + rest)) ==
            if IsCjk(c) then Flushed(word) + [[c]] + Units(u, rest)
            else if u.alnum(c) then Units(u, (word + [c]) + rest)
            else Flushed(word) + Units(u, rest)
  {
    var next := [c] + rest;
    assert next[1..] == rest;
    if !IsWordCharacter(u, c) {
      UnitsAfterWord(u, word, next);
    } else {
      assert word + next == (word + [c]) + rest;
    }
  }

  /** The loop of `_copy_comparison_units`, over the folded text. */
  method CopyComparisonUnits(u: Unicode, normalized: string) returns (units: seq<string>)
    ensures exists spans :: Tokenizes(u, normalized, spans, units)
    ensures units == Units(u, normalized)
  {
    hide Units, Tokenizes;
    units := [];
    var word := [];
    assert word + normalized[0..] == normalized;
    for i := 0 to |normalized|
      invariant IsWord(u, word)
      invariant Units(u, normalized) == units + Units(u, word + normalized[i..])
    {
      var c := normalized[i];
      ghost var rest := normalized[i + 1..];
      assert normalized[i..] == [c] + rest && [] + rest == rest;
      UnitsStep(u, word, c, rest);
      if IsCjk(c) {
        units := units + Flushed(word) + [[c]];
        word := [];
      } else if u.alnum(c) {
        word := word + [c];
      } else {
        units := units + Flushed(word);
        word := [];
      }
    }
    UnitsAfterWord(u, word, []);
    NoUnits(u);
    assert normalized[|normalized|..] == [];
    units := units + Flushed(word);
    assert units == Units(u, normalized);
    ghost var spans := UnitsAreMaximal(u, normalized);
  }

  lemma NoUnits(u: Unicode)
    ensures Units(u, []) == []
  {
  }

  function Flatten(units: seq<string>): string {
    if units == [] then [] else units[0] + Flatten(units[1..])
  }

  /** The characters that end up in some unit. */
  function Kept(u: Unicode, s: string): string {
    if s == [] then []
    else (if IsCjk(s[0]) || u.alnum(s[0]) then [s[0]] else []) + Kept(u, s[1..])
  }

  lemma {:induction false} KeptOfWord(u: Unicode, word: string, rest: string)
    requires IsWord(u, word)
    ensures Kept(u, word + rest) == word + Kept(u, rest)
  {
    if word == [] {
      assert word + rest == rest;
    } else {
      assert word[0] in word;
      assert (word + rest)[1..] == word[1..] + rest;
      KeptOfWord(u, word[1..], rest);
    }
  }

  /** The tokeniser loses and invents nothing. */
  lemma {:induction false} NothingLostNothingInvented(u: Unicode, s: string)
    ensures Flatten(Units(u, s)) == Kept(u, s)
    decreases |s|
  {
    if s != [] {
      if IsCjk(s[0]) {
        NothingLostNothingInvented(u, s[1..]);
        assert Units(u, s)[1..] == Units(u, s[1..]);
      } else if u.alnum(s[0]) {
        var n := WordLength(u, s);
        NothingLostNothingInvented(u, s[n..]);
        assert Units(u, s)[1..] == Units(u, s[n..]);
        KeptOfWord(u, s[..n], s[n..]);
        assert s[..n] + s[n..] == s;
      } else {
        NothingLostNothingInvented(u, s[1..]);
      }
    }
  }

  datatype Span = Span(lo: nat, hi: nat)

  /** One CJK character, or a word that neither side can be extended on. */
  predicate IsUnitSpan(u: Unicode, s: string, span: Span) {
    && span.lo < span.hi <= |s|
    && ( || (span.hi == span.lo + 1 && IsCjk(s[span.lo]))
         || ( && IsWord(u, s[span.lo..span.hi])
              && (span.lo == 0 || !IsWordCharacter(u, s[span.lo - 1]))
              && (span.hi == |s| || !IsWordCharacter(u, s[span.hi]))) )
  }

  predicate Covered(spans: seq<Span>, p: nat) {
    exists i :: 0 <= i < |spans| && spans[i].lo <= p < spans[i].hi
  }

  /** The spans lie in order behind `from` and cover every CJK or alphanumeric character there. */
  ghost predicate SpansFrom(u: Unicode, s: string, from: nat, spans: seq<Span>) {
    && (forall span <- spans :: from <= span.lo && IsUnitSpan(u, s, span))
    && InOrder(spans)
    && (forall p: nat :: from <= p < |s| && (IsCjk(s[p]) || u.alnum(s[p])) ==> Covered(spans, p))
  }

  predicate InOrder(spans: seq<Span>) {
    forall i, j :: 0 <= i < j < |spans| ==> spans[i].hi <= spans[j].lo
  }

  ghost predicate AreCut(s: string, spans: seq<Span>, units: seq<string>) {
    && |units| == |spans|
    && forall i :: 0 <= i < |spans| ==> spans[i].lo <= spans[i].hi <= |s| && units[i] == s[spans[i].lo..spans[i].hi]
  }

  /** The units are the text cut at its CJK characters and its maximal words, and nothing else. */
  ghost predicate Tokenizes(u: Unicode, s: string, spans: seq<Span>, units: seq<string>) {
    SpansFrom(u, s, 0, spans) && AreCut(s, spans, units)
  }

  /** No word goes on across this position. */
  predicate IsBoundary(u: Unicode, s: string, k: nat) {
    k <= |s| && (k == 0 || k == |s| || !IsWordCharacter(u, s[k]) || !IsWordCharacter(u, s[k - 1]))
  }

  lemma PrependCovers(u: Unicode, s: string, k: nat, span: Span, spans: seq<Span>, p: nat)
    requires span.lo == k && SpansFrom(u, s, span.hi, spans)
    requires k <= p < |s| && (IsCjk(s[p]) || u.alnum(s[p]))
    ensures Covered([span] + spans, p)
  {
    var all := [span] + spans;
    if p < span.hi {
      assert all[0].lo <= p < all[0].hi;
    } else {
      assert Covered(spans, p);
      var i :| 0 <= i < |spans| && spans[i].lo <= p < spans[i].hi;
      assert all[i + 1] == spans[i];
    }
  }

  lemma PrependSpan(u: Unicode, s: string, k: nat, span: Span, spans: seq<Span>, units: seq<string>)
    requires span.lo == k && IsUnitSpan(u, s, span)
    requires SpansFrom(u, s, span.hi, spans) && AreCut(s, spans, units)
    ensures SpansFrom(u, s, k, [span] + spans) && AreCut(s, [span] + spans, [s[k..span.hi]] + units)
  {
    assert span.lo < span.hi <= |s|;
    PrependCut(s, span, spans, units);
    forall p: nat | k <= p < |s| && (IsCjk(s[p]) || u.alnum(s[p])) ensures Covered([span] + spans, p) {
      PrependCovers(u, s, k, span, spans, p);
    }
    hide IsUnitSpan, IsCjk, Covered, AreCut;
    PrependInOrder(span, spans);
  }

  lemma PrependInOrder(span: Span, spans: seq<Span>)
    requires InOrder(spans) && forall other <- spans :: span.hi <= other.lo
    ensures InOrder([span] + spans)
  {
  }

  lemma PrependCut(s: string, span: Span, spans: seq<Span>, units: seq<string>)
    requires AreCut(s, spans, units) && span.lo <= span.hi <= |s|
    ensures AreCut(s, [span] + spans, [s[span.lo..span.hi]] + units)
  {
  }

  lemma WordSpan(u: Unicode, s: string, k: nat)
    requires k < |s| && IsWordCharacter(u, s[k]) && (k == 0 || !IsWordCharacter(u, s[k - 1]))
    ensures var n := WordLength(u, s[k..]);
            && 0 < n <= |s| - k && IsUnitSpan(u, s, Span(k, k + n)) && IsBoundary(u, s, k + n)
            && s[k..][..n] == s[k..k + n] && s[k..][n..] == s[k + n..]
  {
    var n := WordLength(u, s[k..]);
    assert s[k..][0] == s[k] && s[k..][..n] == s[k..k + n];
    assert k + n < |s| ==> s[k..][n] == s[k + n];
    hide IsCjk;
  }

  /** What stands at the front decides the first unit. */
  lemma UnitsAt(u: Unicode, s: string, k: nat)
    requires k < |s|
    ensures IsCjk(s[k]) ==> Units(u, s[k..]) == [s[k..k + 1]] + Units(u, s[k + 1..])
    ensures !IsCjk(s[k]) && !u.alnum(s[k]) ==> Units(u, s[k..]) == Units(u, s[k + 1..])
    ensures !IsCjk(s[k]) && u.alnum(s[k]) ==>
              var n := WordLength(u, s[k..]);
              Units(u, s[k..]) == [s[k..][..n]] + Units(u, s[k..][n..])
  {
    assert s[k..][0] == s[k] && s[k..][1..] == s[k + 1..] && s[k..k + 1] == [s[k]];
  }

  lemma {:induction false} UnitsFrom(u: Unicode, s: string, k: nat) returns (spans: seq<Span>)
    requires IsBoundary(u, s, k)
    ensures SpansFrom(u, s, k, spans) && AreCut(s, spans, Units(u, s[k..]))
    decreases |s| - k
  {
    if k == |s| {
      spans := [];
    } else if !IsCjk(s[k]) && !u.alnum(s[k]) {
      UnitsAt(u, s, k);
      hide SpansFrom, AreCut, Units, IsCjk, WordLength, IsWord;
      spans := UnitsFrom(u, s, k + 1);
      SkipOne(u, s, k, spans);
    } else {
      var span := SpanAt(u, s, k);
      hide SpansFrom, AreCut, Units, IsUnitSpan, IsCjk;
      var rest := UnitsFrom(u, s, span.hi);
      PrependSpan(u, s, k, span, rest, Units(u, s[span.hi..]));
      spans := [span] + rest;
    }
  }

  lemma SpanAt(u: Unicode, s: string, k: nat) returns (span: Span)
    requires IsBoundary(u, s, k) && k < |s| && (IsCjk(s[k]) || u.alnum(s[k]))
    ensures span.lo == k < span.hi && IsUnitSpan(u, s, span) && IsBoundary(u, s, span.hi)
    ensures Units(u, s[k..]) == [s[k..span.hi]] + Units(u, s[span.hi..])
  {
    UnitsAt(u, s, k);
    if IsCjk(s[k]) {
      span := Span(k, k + 1);
    } else {
      WordSpan(u, s, k);
      span := Span(k, k + WordLength(u, s[k..]));
    }
    hide Units, IsCjk, WordLength, IsWord;
  }

  lemma SkipOne(u: Unicode, s: string, k: nat, spans: seq<Span>)
    requires k < |s| && !IsCjk(s[k]) && !u.alnum(s[k])
    ensures SpansFrom(u, s, k + 1, spans) <==> SpansFrom(u, s, k, spans)
  {
    forall i | 0 <= i < |spans| && IsUnitSpan(u, s, spans[i]) ensures spans[i].lo != k {
      BeginsKept(u, s, spans[i]);
    }
    hide IsUnitSpan, IsCjk;
  }

  lemma BeginsKept(u: Unicode, s: string, span: Span)
    requires IsUnitSpan(u, s, span)
    ensures IsCjk(s[span.lo]) || u.alnum(s[span.lo])
  {
    var c := s[span.lo..span.hi][0];
    assert c in s[span.lo..span.hi];
  }

  /** Every unit is one CJK character or a maximal word, and every character counts once. */
  lemma UnitsAreMaximal(u: Unicode, s: string) returns (spans: seq<Span>)
    ensures Tokenizes(u, s, spans, Units(u, s))
  {
    spans := UnitsFrom(u, s, 0);
    assert s[0..] == s;
  }

  /** The first span of a text that begins with a kept character begins with it. */
  lemma FirstSpan(u: Unicode, s: string, k: nat, spans: seq<Span>)
    requires k < |s| && SpansFrom(u, s, k, spans) && (IsCjk(s[k]) || u.alnum(s[k]))
    ensures spans != [] && spans[0].lo == k && IsUnitSpan(u, s, spans[0])
    ensures SpansFrom(u, s, spans[0].hi, spans[1..])
  {
    assert Covered(spans, k);
    var i :| 0 <= i < |spans| && spans[i].lo <= k < spans[i].hi;
    assert spans[i] in spans && spans[0] in spans;
    assert spans[0].lo == k;
    hide IsCjk, IsWord, IsWordCharacter;
    RestInOrder(spans);
    forall p: nat | spans[0].hi <= p < |s| && (IsCjk(s[p]) || u.alnum(s[p])) ensures Covered(spans[1..], p) {
      CoveredByRest(spans, p);
    }
    hide Covered, IsUnitSpan;
  }

  lemma RestInOrder(spans: seq<Span>)
    requires InOrder(spans) && spans != []
    ensures InOrder(spans[1..]) && forall span <- spans[1..] :: span in spans && spans[0].hi <= span.lo
  {
  }

  lemma CoveredByRest(spans: seq<Span>, p: nat)
    requires Covered(spans, p) && spans[0].hi <= p
    ensures Covered(spans[1..], p)
  {
    var j :| 0 <= j < |spans| && spans[j].lo <= p < spans[j].hi;
    assert spans[1..][j - 1] == spans[j];
  }

  lemma {:induction false} UniqueFrom(u: Unicode, s: string, k: nat, spans: seq<Span>, units: seq<string>)
    requires k <= |s| && SpansFrom(u, s, k, spans) && AreCut(s, spans, units)
    ensures units == Units(u, s[k..])
    decreases |s| - k
  {
    hide SpansFrom, AreCut, Units, IsCjk, IsUnitSpan;
    if k == |s| {
      NoSpansAtTheEnd(u, s, spans, units);
    } else if IsCjk(s[k]) || u.alnum(s[k]) {
      PeelSpan(u, s, k, spans, units);
      UniqueFrom(u, s, spans[0].hi, spans[1..], units[1..]);
    } else {
      SkipOne(u, s, k, spans);
      UnitsAt(u, s, k);
      UniqueFrom(u, s, k + 1, spans, units);
    }
  }

  lemma NoSpansAtTheEnd(u: Unicode, s: string, spans: seq<Span>, units: seq<string>)
    requires SpansFrom(u, s, |s|, spans) && AreCut(s, spans, units)
    ensures units == [] == Units(u, s[|s|..])
  {
    assert spans != [] ==> IsUnitSpan(u, s, spans[0]);
  }

  lemma PeelSpan(u: Unicode, s: string, k: nat, spans: seq<Span>, units: seq<string>)
    requires k < |s| && SpansFrom(u, s, k, spans) && AreCut(s, spans, units) && (IsCjk(s[k]) || u.alnum(s[k]))
    ensures spans != [] && units != [] && k < spans[0].hi <= |s|
    ensures SpansFrom(u, s, spans[0].hi, spans[1..]) && AreCut(s, spans[1..], units[1..])
    ensures units == [s[k..spans[0].hi]] + units[1..]
    ensures Units(u, s[k..]) == [s[k..spans[0].hi]] + Units(u, s[spans[0].hi..])
  {
    FirstSpan(u, s, k, spans);
    hide SpansFrom, AreCut, Units, IsCjk, WordLength, IsWord, InOrder;
    CutRest(s, spans, units);
    FirstUnit(u, s, k, spans[0].hi);
    assert units == [units[0]] + units[1..];
  }

  lemma CutRest(s: string, spans: seq<Span>, units: seq<string>)
    requires AreCut(s, spans, units) && spans != []
    ensures units != [] && units[0] == s[spans[0].lo..spans[0].hi] && AreCut(s, spans[1..], units[1..])
  {
  }

  lemma FirstUnit(u: Unicode, s: string, k: nat, hi: nat)
    requires k < |s| && IsUnitSpan(u, s, Span(k, hi)) && (IsCjk(s[k]) || u.alnum(s[k]))
    ensures Units(u, s[k..]) == [s[k..hi]] + Units(u, s[hi..])
  {
    assert s[k..][0] == s[k] && s[k..][1..] == s[k + 1..];
    assert s[k..hi][0] == s[k] && s[k] in s[k..hi];
    if IsCjk(s[k]) {
      assert hi == k + 1 && s[k..k + 1] == [s[k]];
    } else {
      assert s[k..] == s[k..hi] + s[hi..];
      WordLengthOfWord(u, s[k..hi], s[hi..]);
      assert s[k..][..hi - k] == s[k..hi] && s[k..][hi - k..] == s[hi..];
    }
  }

  /** There is only one way to cut a text like that: the units are determined by what they are. */
  lemma TokenizationIsUnique(u: Unicode, s: string, spans: seq<Span>, units: seq<string>)
    requires Tokenizes(u, s, spans, units)
    ensures units == Units(u, s)
  {
    UniqueFrom(u, s, 0, spans, units);
    assert s[0..] == s;
  }

  // ---------------------------------------------------------------------
  // Near copies

  /** `_normalized_copy_text`. */
  function Alphanumeric(u: Unicode, s: string): string {
    if s == [] then [] else (if u.alnum(s[0]) then [s[0]] else []) + Alphanumeric(u, s[1..])
  }

  function NormalizedCopyText(u: Unicode, text: string): string {
    Alphanumeric(u, u.fold(text))
  }

  function TextUnits(u: Unicode, text: string): seq<string> {
    Units(u, u.fold(text))
  }

  function Shared(a: seq<string>, b: seq<string>): nat {
    |multiset(a) * multiset(b)|
  }

  /** The three ratio bounds 0.8, 0.2 and 0.2, as exact fractions. */
  predicate RatiosNear(candidate: seq<string>, source: seq<string>) {
    var shared := Shared(candidate, source);
    && candidate != [] && source != []
    && 5 * shared >= 4 * |source|
    && 5 * (|candidate| - shared) <= |candidate|
    && 5 * (|source| - shared) <= |source|
  }

  /** `_is_near_copy`. */
  predicate IsNearCopy(u: Unicode, candidate: string, source: string) {
    var a, b := NormalizedCopyText(u, candidate), NormalizedCopyText(u, source);
    && a != [] && b != []
    && (a == b || RatiosNear(TextUnits(u, candidate), TextUnits(u, source)))
  }

  /** `_has_novel_information`. */
  predicate HasNovelInformation(u: Unicode, candidate: string, source: string) {
    var units := TextUnits(u, candidate);
    units != [] && 5 * (|units| - Shared(units, TextUnits(u, source))) > |units|
  }

  function Max(a: nat, b: nat): nat {
    if a < b then b else a
  }

  lemma SharedBounds(a: seq<string>, b: seq<string>)
    ensures Shared(a, b) == Shared(b, a)
    ensures Shared(a, b) <= |a| && Shared(a, b) <= |b|
  {
    var ma, mb := multiset(a), multiset(b);
    assert ma * mb == mb * ma;
    assert |ma| == |a| && |mb| == |b|;
    assert ma == (ma * mb) + (ma - mb) && mb == (ma * mb) + (mb - ma);
  }

  /** The three bounds amount to one: the shared units make up four fifths of the longer side.
      So the sides differ in length by at most a quarter. */
  lemma RatiosNearExactly(a: seq<string>, b: seq<string>)
    ensures RatiosNear(a, b) <==> a != [] && b != [] && 5 * Shared(a, b) >= 4 * Max(|a|, |b|)
    ensures RatiosNear(a, b) ==> 4 * |a| <= 5 * |b| && 4 * |b| <= 5 * |a|
  {
    SharedBounds(a, b);
  }

  /** Two texts are near copies exactly when both have something to compare and they are equal once
      normalized, or share four fifths of the units of the longer one. */
  lemma NearCopyExactly(u: Unicode, x: string, y: string)
    ensures IsNearCopy(u, x, y)
            <==> && NormalizedCopyText(u, x) != [] && NormalizedCopyText(u, y) != []
                 && ( || NormalizedCopyText(u, x) == NormalizedCopyText(u, y)
                      || ( && TextUnits(u, x) != [] && TextUnits(u, y) != []
                           && 5 * Shared(TextUnits(u, x), TextUnits(u, y))
                              >= 4 * Max(|TextUnits(u, x)|, |TextUnits(u, y)|)))
  {
    RatiosNearExactly(TextUnits(u, x), TextUnits(u, y));
  }

  /** A text brings something novel exactly when less than four fifths of its units are the other's. */
  lemma NovelExactly(u: Unicode, x: string, y: string)
    ensures HasNovelInformation(u, x, y)
            <==> TextUnits(u, x) != [] && 5 * Shared(TextUnits(u, x), TextUnits(u, y)) < 4 * |TextUnits(u, x)|
  {
    SharedBounds(TextUnits(u, x), TextUnits(u, y));
  }

  /** How many units differ between two texts of as many units, place by place. */
  function Edits(a: seq<string>, b: seq<string>): nat
    requires |a| == |b|
  {
    if a == [] then 0 else (if a[0] == b[0] then 0 else 1) + Edits(a[1..], b[1..])
  }

  function Unedited(a: seq<string>, b: seq<string>): seq<string>
    requires |a| == |b|
  {
    if a == [] then [] else (if a[0] == b[0] then [a[0]] else []) + Unedited(a[1..], b[1..])
  }

  lemma {:induction false} UneditedIsShared(a: seq<string>, b: seq<string>)
    requires |a| == |b|
    ensures |Unedited(a, b)| + Edits(a, b) == |a|
    ensures multiset(Unedited(a, b)) <= multiset(a) && multiset(Unedited(a, b)) <= multiset(b)
  {
    if a != [] {
      UneditedIsShared(a[1..], b[1..]);
      assert a == [a[0]] + a[1..] && b == [b[0]] + b[1..];
    }
  }

  lemma SubBagIsSmaller(a: multiset<string>, b: multiset<string>)
    requires a <= b
    ensures |a| <= |b|
  {
    assert b == a + (b - a);
  }

  /** Exchanging at most a fifth of the units of a text does not hide that it is a copy. */
  lemma EditedCopyIsNear(u: Unicode, x: string, y: string)
    requires NormalizedCopyText(u, x) != [] && NormalizedCopyText(u, y) != []
    requires TextUnits(u, x) != [] && |TextUnits(u, x)| == |TextUnits(u, y)|
    requires 5 * Edits(TextUnits(u, x), TextUnits(u, y)) <= |TextUnits(u, x)|
    ensures IsNearCopy(u, x, y) && IsNearCopy(u, y, x)
  {
    var a, b := TextUnits(u, x), TextUnits(u, y);
    UneditedIsShared(a, b);
    SubBagIsSmaller(multiset(Unedited(a, b)), multiset(a) * multiset(b));
    assert |multiset(Unedited(a, b))| == |Unedited(a, b)|;
    NearCopyExactly(u, x, y);
    NearCopyIsSymmetric(u, x, y);
  }

  /** The normalized text is the units without their borders, exactly when the host language counts
      every CJK character of the text as alphanumeric. */
  lemma {:induction false} NormalizedIsTheUnits(u: Unicode, s: string)
    ensures Flatten(Units(u, s)) == Alphanumeric(u, s) <==> forall c <- s :: IsCjk(c) ==> u.alnum(c)
  {
    NothingLostNothingInvented(u, s);
    KeptIsAlphanumeric(u, s);
  }

  lemma {:induction false} KeptIsAlphanumeric(u: Unicode, s: string)
    ensures |Alphanumeric(u, s)| <= |Kept(u, s)|
    ensures |Kept(u, s)| == |Alphanumeric(u, s)| <==> forall c <- s :: IsCjk(c) ==> u.alnum(c)
    ensures (forall c <- s :: IsCjk(c) ==> u.alnum(c)) ==> Kept(u, s) == Alphanumeric(u, s)
  {
    if s != [] {
      KeptIsAlphanumeric(u, s[1..]);
      assert forall c :: c in s <==> c == s[0] || c in s[1..];
      hide IsCjk;
    }
  }

  /** Being a near copy is symmetric. */
  lemma NearCopyIsSymmetric(u: Unicode, x: string, y: string)
    ensures IsNearCopy(u, x, y) <==> IsNearCopy(u, y, x)
  {
    RatiosNearExactly(TextUnits(u, x), TextUnits(u, y));
    RatiosNearExactly(TextUnits(u, y), TextUnits(u, x));
    SharedBounds(TextUnits(u, x), TextUnits(u, y));
  }

  /** Outside the equality case only the multiset of units matters, not their order. */
  lemma OrderOfUnitsDoesNotMatter(u: Unicode, x: string, x': string, y: string)
    requires multiset(TextUnits(u, x)) == multiset(TextUnits(u, x'))
    requires NormalizedCopyText(u, x) != [] && NormalizedCopyText(u, x') != []
    requires NormalizedCopyText(u, x) != NormalizedCopyText(u, y)
    requires NormalizedCopyText(u, x') != NormalizedCopyText(u, y)
    ensures IsNearCopy(u, x, y) <==> IsNearCopy(u, x', y)
    ensures HasNovelInformation(u, x, y) <==> HasNovelInformation(u, x', y)
  {
    var a, a' := TextUnits(u, x), TextUnits(u, x');
    assert |multiset(a)| == |a| && |multiset(a')| == |a'|;
    assert a == [] <==> |a| == 0;
  }

  /** A near copy brings something novel exactly when it is the same text cut into other words, so
      many that less than four fifths of its units are the other text's. */
  lemma NearCopyIsNovelExactly(u: Unicode, x: string, y: string)
    requires IsNearCopy(u, x, y)
    ensures HasNovelInformation(u, x, y)
            <==> && NormalizedCopyText(u, x) == NormalizedCopyText(u, y)
                 && TextUnits(u, x) != []
                 && 5 * Shared(TextUnits(u, x), TextUnits(u, y)) < 4 * |TextUnits(u, x)|
  {
    SharedBounds(TextUnits(u, x), TextUnits(u, y));
  }

  /** Lower-case Latin text, folded to itself. */
  function Latin(): Unicode {
    Unicode((s: string) => s, (c: char) => 'a' <= c <= 'z')
  }

  lemma TwoWords(v: string, w: string)
    requires v != [] && w != [] && IsWord(Latin(), v) && IsWord(Latin(), w)
    ensures Units(Latin(), v + ([' '] + w)) == [v, w]
    ensures Alphanumeric(Latin(), v + ([' '] + w)) == v + w
  {
    assert !IsCjk(' ') && !Latin().alnum(' ');
    UnitsStep(Latin(), v, ' ', w);
    assert w + [] == w && ([' '] + w)[1..] == w;
    UnitsAfterWord(Latin(), w, []);
    NoUnits(Latin());
    AlphanumericOfWord(v, [' '] + w);
    AlphanumericOfWord(w, []);
    hide Units, IsCjk, IsWord, Latin;
  }

  lemma {:induction false} AlphanumericOfWord(word: string, rest: string)
    requires IsWord(Latin(), word)
    ensures Alphanumeric(Latin(), word + rest) == word + Alphanumeric(Latin(), rest)
  {
    if word == [] {
      assert word + rest == rest;
    } else {
      assert word[0] in word;
      assert (word + rest)[1..] == word[1..] + rest;
      AlphanumericOfWord(word[1..], rest);
    }
  }

  /** That exception occurs: moving one space makes a text a near copy and novel at once. */
  lemma RespacedCopyIsNovel(v: string, c: char, w: string)
    requires v != [] && w != [] && IsWord(Latin(), v) && IsWord(Latin(), [c]) && IsWord(Latin(), w)
    requires v + [c] != [c] + w && v != w
    ensures var moved, original := (v + [c]) + ([' '] + w), v + ([' '] + ([c] + w));
            IsNearCopy(Latin(), moved, original) && HasNovelInformation(Latin(), moved, original)
  {
    TwoWords(v + [c], w);
    TwoWords(v, [c] + w);
    assert (v + [c]) + w == v + ([c] + w);
    DisjointPairsShareNothing(v + [c], w, v, [c] + w);
  }

  lemma DisjointPairsShareNothing(a: string, b: string, x: string, y: string)
    requires |a| != |x| && |b| != |y| && a != y && b != x
    ensures Shared([a, b], [x, y]) == 0
  {
    assert a !in multiset([x, y]);
    assert b !in multiset([x, y]);
    assert multiset([a, b]) * multiset([x, y]) == multiset{};
  }
}
