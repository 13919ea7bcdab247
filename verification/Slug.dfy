/** URL slugs over ASCII text with the default separator. `slugify` rewrites its text pass by pass; the passes
    together are one scan that keeps letters and digits and joins the words with single hyphens. */
module Slug {
  import opened Optional

  type Ascii = c: char | c < '\U{80}' witness 'a'
  type Text = seq<Ascii>

  predicate IsSpace(c: Ascii) { c == ' ' || '\t' <= c <= '\r' }

  predicate IsUpper(c: Ascii) { 'A' <= c <= 'Z' }

  predicate IsLetterOrDigit(c: Ascii) { 'a' <= c <= 'z' || IsUpper(c) || '0' <= c <= '9' }

  /** `\w` */
  predicate IsWord(c: Ascii) { IsLetterOrDigit(c) || c == '_' }

  /** `[\s_]` */
  predicate IsBlank(c: Ascii) { IsSpace(c) || c == '_' }

  predicate IsHyphen(c: Ascii) { c == '-' }

  /** what `[^\w-]` leaves alone */
  predicate IsKept(c: Ascii) { IsWord(c) || c == '-' }

  function LowerChar(c: Ascii): Ascii { if IsUpper(c) then (c as int + 32) as char else c }

  function UpperChar(c: Ascii): Ascii { if 'a' <= c <= 'z' then (c as int - 32) as char else c }

  // ------------------------------------------------------------------ the passes

  function DropWhile(s: Text, p: Ascii -> bool): Text {
    if s != [] && p(s[0]) then DropWhile(s[1..], p) else s
  }

  function DropLastWhile(s: Text, p: Ascii -> bool): Text {
    if s != [] && p(s[|s| - 1]) then DropLastWhile(s[..|s| - 1], p) else s
  }

  function Strip(s: Text, p: Ascii -> bool): Text { DropLastWhile(DropWhile(s, p), p) }

  /** `replace(/p+/g, c)`; `inRun` says that the run at the front has been replaced already. */
  function ReplaceRuns(s: Text, p: Ascii -> bool, c: Ascii, inRun: bool): Text {
    if s == [] then []
    else if p(s[0]) then (if inRun then [] else [c]) + ReplaceRuns(s[1..], p, c, true)
    else [s[0]] + ReplaceRuns(s[1..], p, c, false)
  }

  function Filter(s: Text, p: Ascii -> bool): Text {
    if s == [] then [] else (if p(s[0]) then [s[0]] else []) + Filter(s[1..], p)
  }

  function Lower(s: Text): Text {
    if s == [] then [] else [LowerChar(s[0])] + Lower(s[1..])
  }

  /** `replace(/\b\w/g, toUpperCase)` */
  function Capitalised(s: Text, afterWord: bool): Text {
    if s == [] then []
    else [if IsWord(s[0]) && !afterWord then UpperChar(s[0]) else s[0]] + Capitalised(s[1..], IsWord(s[0]))
  }

  // ------------------------------------------------------------------ one scan

  predicate IsSeparator(c: Ascii) { IsBlank(c) || c == '-' }

  /** Letters and digits are kept, with one hyphen wherever separators stood between two of them; anything else
      vanishes. `pending`: a separator was seen since the last kept character; `started`: one was kept. */
  function Words(s: Text, lowercase: bool, pending: bool, started: bool): Text {
    if s == [] then []
    else if IsLetterOrDigit(s[0]) then
      (if pending && started then ['-'] else []) + [if lowercase then LowerChar(s[0]) else s[0]]
        + Words(s[1..], lowercase, false, true)
    else Words(s[1..], lowercase, pending || IsSeparator(s[0]), started)
  }

  /** A limit of 0 is no limit; a negative one leaves nothing. */
  function Cut(slug: Text, maxLength: Option<int>): Text {
    if maxLength.None? || maxLength.value == 0 || |slug| <= maxLength.value then slug
    else DropLastWhile(slug[..if maxLength.value < 0 then 0 else maxLength.value], IsHyphen)
  }

  function Slugified(text: Text, lowercase: bool, maxLength: Option<int>): Text {
    Cut(Words(text, lowercase, false, false), maxLength)
  }

  method Slugify(text: Text, lowercase: bool, maxLength: Option<int>) returns (slug: Text)
    ensures slug == Slugified(text, lowercase, maxLength)
  {
    slug := Strip(text, IsSpace);
    StripKeepsWords(text, IsSpace, lowercase);
    if lowercase {
      LowerFirst(slug, false, false);
      slug := Lower(slug);
    }
    assert Words(slug, false, false, false) == Words(text, lowercase, false, false);
    RunsKeepWords(slug, IsBlank, '-', false, false, false, false);
    NoRunsLeft(slug, IsBlank, '-', false);
    slug := ReplaceRuns(slug, IsBlank, '-', false);
    FilterKeepsWords(slug, false, false);
    slug := Filter(slug, IsKept);
    HyphensOnly(slug, false, false);
    slug := ReplaceRuns(slug, IsHyphen, '-', false);
    slug := Strip(slug, IsHyphen);
    if maxLength.Some? && maxLength.value != 0 && |slug| > maxLength.value {
      slug := slug[..if maxLength.value < 0 then 0 else maxLength.value];
      slug := DropLastWhile(slug, IsHyphen);
    }
  }

  function Unslugify(slug: Text): Text {
    Capitalised(Strip(ReplaceRuns(ReplaceRuns(Strip(slug, IsSpace), IsHyphen, ' ', false), IsSpace, ' ', false), IsSpace), false)
  }

  // ------------------------------------------------------------------ what each pass does to the words

  ghost predicate OnlySeparators(p: Ascii -> bool) {
    forall c: Ascii :: p(c) ==> IsSeparator(c)
  }

  lemma {:induction false} DropWhileKeepsWords(s: Text, p: Ascii -> bool, lowercase: bool, pending: bool)
    requires OnlySeparators(p)
    ensures Words(DropWhile(s, p), lowercase, pending, false) == Words(s, lowercase, pending, false)
  {
    PendingIsIdle(s, lowercase, pending);
    if s != [] && p(s[0]) {
      DropWhileKeepsWords(s[1..], p, lowercase, pending);
      PendingIsIdle(s[1..], lowercase, pending);
    }
  }

  /** Before the first kept character a pending separator makes no difference. */
  lemma {:induction false} PendingIsIdle(s: Text, lowercase: bool, pending: bool)
    ensures Words(s, lowercase, pending, false) == Words(s, lowercase, true, false)
  {
    if s == [] {
    } else {
      PendingIsIdle(s[1..], lowercase, pending || IsSeparator(s[0]));
    }
  }

  lemma {:induction false} TrailingSeparator(s: Text, lowercase: bool, pending: bool, started: bool)
    requires s != [] && IsSeparator(s[|s| - 1])
    ensures Words(s[..|s| - 1], lowercase, pending, started) == Words(s, lowercase, pending, started)
  {
    if |s| > 1 {
      assert s[1..][..|s| - 2] == s[..|s| - 1][1..];
      var pending' := if IsLetterOrDigit(s[0]) then false else pending || IsSeparator(s[0]);
      TrailingSeparator(s[1..], lowercase, pending', started || IsLetterOrDigit(s[0]));
    }
  }

  lemma {:induction false} DropLastKeepsWords(s: Text, p: Ascii -> bool, lowercase: bool, pending: bool, started: bool)
    requires OnlySeparators(p)
    ensures Words(DropLastWhile(s, p), lowercase, pending, started) == Words(s, lowercase, pending, started)
  {
    if s != [] && p(s[|s| - 1]) {
      TrailingSeparator(s, lowercase, pending, started);
      DropLastKeepsWords(s[..|s| - 1], p, lowercase, pending, started);
    }
  }

  lemma StripKeepsWords(s: Text, p: Ascii -> bool, lowercase: bool)
    requires OnlySeparators(p)
    ensures Words(Strip(s, p), lowercase, false, false) == Words(s, lowercase, false, false)
  {
    DropWhileKeepsWords(s, p, lowercase, false);
    DropLastKeepsWords(DropWhile(s, p), p, lowercase, false, false);
  }

  lemma {:induction false} LowerFirst(s: Text, pending: bool, started: bool)
    ensures Words(Lower(s), false, pending, started) == Words(s, true, pending, started)
  {
    if s == [] {
    } else {
      LowerFirst(s[1..], false, true);
      LowerFirst(s[1..], pending || IsSeparator(s[0]), started);
      assert Lower(s)[1..] == Lower(s[1..]);
    }
  }

  lemma {:induction false} RunsKeepWords(s: Text, p: Ascii -> bool, c: Ascii, inRun: bool, lowercase: bool, pending: bool, started: bool)
    requires OnlySeparators(p) && IsSeparator(c)
    requires inRun ==> pending
    ensures Words(ReplaceRuns(s, p, c, inRun), lowercase, pending, started) == Words(s, lowercase, pending, started)
  {
    if s == [] {
    } else {
      var tail := ReplaceRuns(s[1..], p, c, p(s[0]));
      if p(s[0]) {
        RunsKeepWords(s[1..], p, c, true, lowercase, true, started);
        assert ([c] + tail)[1..] == tail;
        assert [] + tail == tail;
      } else {
        RunsKeepWords(s[1..], p, c, false, lowercase, false, true);
        RunsKeepWords(s[1..], p, c, false, lowercase, pending || IsSeparator(s[0]), started);
        assert ([s[0]] + tail)[1..] == tail;
      }
    }
  }

  lemma {:induction false} NoRunsLeft(s: Text, p: Ascii -> bool, c: Ascii, inRun: bool)
    requires !p(c)
    ensures forall d :: d in ReplaceRuns(s, p, c, inRun) ==> !p(d)
  {
    if s == [] {
    } else {
      NoRunsLeft(s[1..], p, c, p(s[0]));
    }
  }

  lemma {:induction false} FilterKeepsWords(s: Text, pending: bool, started: bool)
    requires forall c :: c in s ==> !IsBlank(c)
    ensures Words(Filter(s, IsKept), false, pending, started) == Words(s, false, pending, started)
    ensures forall c :: c in Filter(s, IsKept) ==> IsLetterOrDigit(c) || c == '-'
  {
    if s == [] {
    } else {
      assert s[0] in s;
      var tail := Filter(s[1..], IsKept);
      FilterKeepsWords(s[1..], false, true);
      FilterKeepsWords(s[1..], pending || IsSeparator(s[0]), started);
      assert ([s[0]] + tail)[1..] == tail;
      assert [] + tail == tail;
    }
  }

  lemma {:induction false} DropLastBehind(x: Text, w: Ascii, y: Text)
    requires w != '-'
    ensures DropLastWhile(x + [w] + y, IsHyphen) == x + [w] + DropLastWhile(y, IsHyphen)
    decreases |y|
  {
    var s := x + [w] + y;
    if y != [] && IsHyphen(y[|y| - 1]) {
      assert s[..|s| - 1] == x + [w] + y[..|y| - 1];
      DropLastBehind(x, w, y[..|y| - 1]);
    }
  }

  /** Behind a kept character: collapsing the hyphens and dropping the last ones is the scan. */
  lemma {:induction false} HyphensInside(s: Text, pending: bool)
    requires forall c :: c in s ==> IsLetterOrDigit(c) || c == '-'
    ensures DropLastWhile(Front(pending) + ReplaceRuns(s, IsHyphen, '-', pending), IsHyphen) == Words(s, false, pending, true)
  {
    if s == [] {
      if pending { assert "-"[..0] == []; }
    } else {
      assert s[0] in s;
      HyphensInside(s[1..], IsHyphen(s[0]));
      if IsHyphen(s[0]) {
        CollapsedFront(s, pending);
      } else {
        var tail := ReplaceRuns(s[1..], IsHyphen, '-', false);
        assert [] + tail == tail;
        assert Front(pending) + ReplaceRuns(s, IsHyphen, '-', pending) == Front(pending) + [s[0]] + tail;
        DropLastBehind(Front(pending), s[0], tail);
      }
    }
  }

  function Front(pending: bool): Text { if pending then ['-'] else [] }

  lemma CollapsedFront(s: Text, pending: bool)
    requires s != [] && s[0] == '-'
    ensures Front(pending) + ReplaceRuns(s, IsHyphen, '-', pending) == Front(true) + ReplaceRuns(s[1..], IsHyphen, '-', true)
  {
  }

  lemma {:induction false} HyphensOnly(s: Text, inRun: bool, pending: bool)
    requires forall c :: c in s ==> IsLetterOrDigit(c) || c == '-'
    ensures Strip(ReplaceRuns(s, IsHyphen, '-', inRun), IsHyphen) == Words(s, false, pending, false)
  {
    if s == [] {
    } else {
      assert s[0] in s;
      var tail := ReplaceRuns(s[1..], IsHyphen, '-', IsHyphen(s[0]));
      if IsHyphen(s[0]) {
        HyphensOnly(s[1..], true, true);
        assert (['-'] + tail)[1..] == tail;
        assert [] + tail == tail;
      } else {
        HyphensInside(s[1..], false);
        assert [] + tail == tail && [] + [s[0]] + tail == [s[0]] + tail;
        DropLastBehind([], s[0], tail);
      }
    }
  }

  // ------------------------------------------------------------------ the slug normal form

  /** Letters, digits and hyphens, never two hyphens in a row, none at the end. */
  ghost predicate Inner(s: Text) {
    && (forall i :: 0 <= i < |s| ==> IsLetterOrDigit(s[i]) || s[i] == '-')
    && (forall i :: 0 <= i < |s| - 1 ==> s[i] != '-' || s[i + 1] != '-')
    && (s != [] ==> s[|s| - 1] != '-')
  }

  ghost predicate NoUpper(s: Text) {
    forall i :: 0 <= i < |s| ==> !IsUpper(s[i])
  }

  ghost predicate IsSlug(s: Text, lowercase: bool) {
    Inner(s) && (s != [] ==> s[0] != '-') && (lowercase ==> NoUpper(s))
  }

  lemma InnerCons(c: Ascii, rest: Text, lowercase: bool)
    requires IsLetterOrDigit(c) && Inner(rest) && (lowercase ==> NoUpper(rest) && !IsUpper(c))
    ensures Inner([c] + rest) && Inner(['-'] + [c] + rest)
    ensures lowercase ==> NoUpper([c] + rest) && NoUpper(['-'] + [c] + rest)
  {
  }

  lemma {:induction false} WordsShape(s: Text, lowercase: bool, pending: bool, started: bool)
    ensures var w := Words(s, lowercase, pending, started);
            && Inner(w) && (lowercase ==> NoUpper(w))
            && (!started && w != [] ==> w[0] != '-')
  {
    if s == [] {
    } else if IsLetterOrDigit(s[0]) {
      var c, rest := if lowercase then LowerChar(s[0]) else s[0], Words(s[1..], lowercase, false, true);
      WordsShape(s[1..], lowercase, false, true);
      InnerCons(c, rest, lowercase);
      assert [] + [c] + rest == [c] + rest;
    } else {
      WordsShape(s[1..], lowercase, pending || IsSeparator(s[0]), started);
    }
  }

  lemma {:induction false} DropLastIsPrefix(s: Text)
    ensures var d := DropLastWhile(s, IsHyphen);
            d <= s && (d != [] ==> d[|d| - 1] != '-') && (forall i :: |d| <= i < |s| ==> s[i] == '-')
  {
    if s != [] && s[|s| - 1] == '-' { DropLastIsPrefix(s[..|s| - 1]); }
  }

  /** The slug is a normal form, within a positive limit. */
  lemma SlugShape(text: Text, lowercase: bool, maxLength: Option<int>)
    ensures var slug := Slugified(text, lowercase, maxLength);
            && IsSlug(slug, lowercase)
            && (maxLength.Some? && maxLength.value > 0 ==> |slug| <= maxLength.value)
            && (maxLength.Some? && maxLength.value < 0 ==> slug == [])
  {
    var w := Words(text, lowercase, false, false);
    WordsShape(text, lowercase, false, false);
    if maxLength.Some? && maxLength.value != 0 && |w| > maxLength.value {
      DropLastIsPrefix(w[..if maxLength.value < 0 then 0 else maxLength.value]);
    }
  }

  /** A limit costs no more than it must: the cut slug is the longest prefix of the full one that fits and is
      itself a slug, at most one character under the limit. */
  lemma CutIsLongest(text: Text, lowercase: bool, n: int)
    requires 0 < n < |Slugified(text, lowercase, None)|
    ensures var full, cut := Slugified(text, lowercase, None), Slugified(text, lowercase, Some(n));
            && cut <= full && n - 1 <= |cut| <= n
            && (forall k :: |cut| < k <= n ==> !IsSlug(full[..k], lowercase))
  {
    var full := Words(text, lowercase, false, false);
    WordsShape(text, lowercase, false, false);
    DropLastIsPrefix(full[..n]);
    var cut := DropLastWhile(full[..n], IsHyphen);
    assert n >= 2 ==> full[n - 2] != '-' || full[n - 1] != '-';
    assert full[..n][n - 1] == full[n - 1] && (n >= 2 ==> full[..n][n - 2] == full[n - 2]);
    forall k | |cut| < k <= n
      ensures !IsSlug(full[..k], lowercase)
    {
      assert full[..n][k - 1] == '-';
      assert full[..k][|full[..k]| - 1] == '-';
    }
  }

  lemma WordsOfHyphen(s: Text, lowercase: bool)
    requires |s| >= 2 && s[0] == '-' && IsLetterOrDigit(s[1]) && (lowercase ==> !IsUpper(s[1]))
    ensures Words(s, lowercase, false, true) == ['-', s[1]] + Words(s[2..], lowercase, false, true)
  {
    assert s[1..][1..] == s[2..];
    assert Words(s[1..], lowercase, true, true) == ['-'] + [s[1]] + Words(s[2..], lowercase, false, true);
  }

  lemma {:induction false} InnerIsFixed(s: Text, lowercase: bool)
    requires Inner(s) && (lowercase ==> NoUpper(s))
    ensures Words(s, lowercase, false, true) == s
  {
    if s == [] {
    } else {
      if s[0] == '-' {
        assert IsLetterOrDigit(s[1]);
        InnerIsFixed(s[2..], lowercase);
        WordsOfHyphen(s, lowercase);
        assert s == ['-', s[1]] + s[2..];
      } else {
        InnerIsFixed(s[1..], lowercase);
        assert s == [] + [s[0]] + s[1..];
      }
    }
  }

  /** The texts `slugify` leaves alone are exactly the normal forms. */
  lemma FixedIffSlug(s: Text, lowercase: bool)
    ensures Slugified(s, lowercase, None) == s <==> IsSlug(s, lowercase)
  {
    SlugShape(s, lowercase, None);
    if IsSlug(s, lowercase) && s != [] {
      InnerIsFixed(s[1..], lowercase);
      assert s == [] + [s[0]] + s[1..];
    }
  }

  /** With any options, a second `slugify` changes nothing. */
  lemma SlugifyIdempotent(text: Text, lowercase: bool, maxLength: Option<int>)
    ensures var slug := Slugified(text, lowercase, maxLength);
            Slugified(slug, lowercase, maxLength) == slug
  {
    SlugShape(text, lowercase, maxLength);
    FixedIffSlug(Slugified(text, lowercase, maxLength), lowercase);
  }

  // ------------------------------------------------------------------ words, character by character

  predicate Alphanumeric(s: Text) {
    forall c :: c in s ==> 'a' <= c <= 'z' || 'A' <= c <= 'Z' || '0' <= c <= '9'
  }

  /** Space, tab, line feed, vertical tab, form feed, carriage return, underscore, hyphen. */
  predicate Separating(s: Text) {
    forall c :: c in s ==> c == ' ' || c == '\t' || c == '\n' || c == '\U{0b}' || c == '\U{0c}' || c == '\r' || c == '_' || c == '-'
  }

  function Cased(s: Text, lowercase: bool): Text {
    if s == [] then []
    else [if lowercase && 'A' <= s[0] <= 'Z' then (s[0] as int + 32) as char else s[0]] + Cased(s[1..], lowercase)
  }

  lemma {:induction false} WordsOfWord(a: Text, rest: Text, lowercase: bool, pending: bool, started: bool)
    requires Alphanumeric(a) && a != []
    ensures Words(a + rest, lowercase, pending, started)
            == (if pending && started then ['-'] else []) + Cased(a, lowercase) + Words(rest, lowercase, false, true)
  {
    assert a[0] in a && (a + rest)[0] == a[0] && (a + rest)[1..] == a[1..] + rest;
    if |a| == 1 {
      assert a[1..] + rest == rest;
    } else {
      assert forall c :: c in a[1..] ==> c in a;
      WordsOfWord(a[1..], rest, lowercase, false, true);
    }
  }

  lemma {:induction false} WordsOfSeparators(x: Text, rest: Text, lowercase: bool, pending: bool, started: bool)
    requires Separating(x)
    ensures Words(x + rest, lowercase, pending, started) == Words(rest, lowercase, pending || x != [], started)
  {
    if x == [] {
      assert x + rest == rest;
    } else {
      assert x[0] in x && (x + rest)[0] == x[0] && (x + rest)[1..] == x[1..] + rest;
      assert forall c :: c in x[1..] ==> c in x;
      WordsOfSeparators(x[1..], rest, lowercase, true, started);
    }
  }

  lemma {:induction false} WordsOfJunk(x: Text, rest: Text, lowercase: bool, pending: bool, started: bool)
    requires forall c :: c in x ==> !Alphanumeric([c]) && !Separating([c])
    ensures Words(x + rest, lowercase, pending, started) == Words(rest, lowercase, pending, started)
  {
    if x == [] {
      assert x + rest == rest;
    } else {
      assert x[0] in x && (x + rest)[0] == x[0] && (x + rest)[1..] == x[1..] + rest;
      WordsOfJunk(x[1..], rest, lowercase, pending, started);
    }
  }

  lemma LastWord(b: Text, after: Text, lowercase: bool, pending: bool)
    requires Alphanumeric(b) && b != [] && Separating(after)
    ensures Words(b + after, lowercase, pending, true) == (if pending then ['-'] else []) + Cased(b, lowercase)
  {
    WordsOfWord(b, after, lowercase, pending, true);
    assert after + [] == after;
    WordsOfSeparators(after, [], lowercase, false, true);
  }

  lemma FirstWord(before: Text, a: Text, rest: Text, lowercase: bool)
    requires Alphanumeric(a) && a != [] && Separating(before)
    ensures Slugified(before + (a + rest), lowercase, None) == Cased(a, lowercase) + Words(rest, lowercase, false, true)
  {
    WordsOfSeparators(before, a + rest, lowercase, false, false);
    WordsOfWord(a, rest, lowercase, before != [], false);
    assert [] + Cased(a, lowercase) == Cased(a, lowercase);
  }

  /** Two words with separators between them are joined by one hyphen; separators around a text disappear. */
  lemma JoinsWords(before: Text, a: Text, x: Text, b: Text, after: Text, lowercase: bool)
    requires Alphanumeric(a) && a != [] && Alphanumeric(b) && b != [] && Separating(before) && Separating(after)
    requires Separating(x) && x != []
    ensures Slugified(before + (a + (x + (b + after))), lowercase, None) == Cased(a, lowercase) + (['-'] + Cased(b, lowercase))
  {
    FirstWord(before, a, x + (b + after), lowercase);
    WordsOfSeparators(x, b + after, lowercase, false, true);
    LastWord(b, after, lowercase, true);
  }

  /** With only other characters between them they grow together. */
  lemma GrowTogether(before: Text, a: Text, x: Text, b: Text, after: Text, lowercase: bool)
    requires Alphanumeric(a) && a != [] && Alphanumeric(b) && b != [] && Separating(before) && Separating(after)
    requires forall c :: c in x ==> !Alphanumeric([c]) && !Separating([c])
    ensures Slugified(before + (a + (x + (b + after))), lowercase, None) == Cased(a, lowercase) + Cased(b, lowercase)
  {
    FirstWord(before, a, x + (b + after), lowercase);
    WordsOfJunk(x, b + after, lowercase, false, true);
    LastWord(b, after, lowercase, false);
    assert [] + Cased(b, lowercase) == Cased(b, lowercase);
  }

  // ------------------------------------------------------------------ unslugify

  lemma {:induction false} RunsOfSingles(s: Text, p: Ascii -> bool, c: Ascii, inRun: bool)
    requires forall i :: 0 <= i < |s| - 1 ==> !p(s[i]) || !p(s[i + 1])
    requires inRun && s != [] ==> !p(s[0])
    ensures |ReplaceRuns(s, p, c, inRun)| == |s|
    ensures forall i :: 0 <= i < |s| ==> ReplaceRuns(s, p, c, inRun)[i] == if p(s[i]) then c else s[i]
  {
    if s == [] {
    } else {
      RunsOfSingles(s[1..], p, c, p(s[0]));
      assert forall i :: 0 < i < |s| ==> s[i] == s[1..][i - 1];
    }
  }

  lemma {:induction false} CapitalisedAt(s: Text, afterWord: bool, i: nat)
    requires i < |s|
    ensures |Capitalised(s, afterWord)| == |s|
    ensures Capitalised(s, afterWord)[i] ==
              if IsWord(s[i]) && !(if i == 0 then afterWord else IsWord(s[i - 1])) then UpperChar(s[i]) else s[i]
  {
    if i == 0 {
      if |s| > 1 { CapitalisedAt(s[1..], IsWord(s[0]), 0); }
    } else {
      CapitalisedAt(s[1..], IsWord(s[0]), i - 1);
      assert s[1..][i - 1] == s[i] && (i > 1 ==> s[1..][i - 2] == s[i - 1]);
    }
  }

  lemma StripsNothing(s: Text, p: Ascii -> bool)
    requires s != [] ==> !p(s[0]) && !p(s[|s| - 1])
    ensures Strip(s, p) == s
  {
  }

  lemma SpacedOut(s: Text) returns (spaced: Text)
    requires IsSlug(s, false)
    ensures |spaced| == |s| && forall i :: 0 <= i < |s| ==> spaced[i] == if s[i] == '-' then ' ' else s[i]
    ensures Unslugify(s) == Capitalised(spaced, false)
  {
    spaced := ReplaceRuns(s, IsHyphen, ' ', false);
    StripsNothing(s, IsSpace);
    RunsOfSingles(s, IsHyphen, ' ', false);
    RunsOfSingles(spaced, IsSpace, ' ', false);
    assert ReplaceRuns(spaced, IsSpace, ' ', false) == spaced;
    StripsNothing(spaced, IsSpace);
  }

  /** `unslugify` spells a slug out: every hyphen becomes a space, every word's first letter a capital, and
      nothing else changes. */
  lemma UnslugifySpells(s: Text, i: nat)
    requires IsSlug(s, false) && i < |s|
    ensures |Unslugify(s)| == |s|
    ensures Unslugify(s)[i] ==
              if s[i] == '-' then ' '
              else if (i == 0 || s[i - 1] == '-') && 'a' <= s[i] <= 'z' then (s[i] as int - 32) as char
              else s[i]
  {
    var spaced := SpacedOut(s);
    CapitalisedAt(spaced, false, i);
  }

  lemma {:induction false} CapitalsAreIdle(s: Text, afterWord: bool, pending: bool, started: bool)
    ensures Words(Capitalised(s, afterWord), true, pending, started) == Words(s, true, pending, started)
  {
    if s == [] {
    } else {
      CapitalsAreIdle(s[1..], IsWord(s[0]), false, true);
      CapitalsAreIdle(s[1..], IsWord(s[0]), pending || IsSeparator(s[0]), started);
      assert Capitalised(s, afterWord)[1..] == Capitalised(s[1..], IsWord(s[0]));
    }
  }

  /** `unslugify` never changes the slug of a text. */
  lemma UnslugifyKeepsSlug(s: Text)
    ensures Slugified(Unslugify(s), true, None) == Slugified(s, true, None)
  {
    var trimmed := Strip(s, IsSpace);
    var spaced := ReplaceRuns(trimmed, IsHyphen, ' ', false);
    var single := ReplaceRuns(spaced, IsSpace, ' ', false);
    StripKeepsWords(s, IsSpace, true);
    RunsKeepWords(trimmed, IsHyphen, ' ', false, true, false, false);
    RunsKeepWords(spaced, IsSpace, ' ', false, true, false, false);
    StripKeepsWords(single, IsSpace, true);
    CapitalsAreIdle(Strip(single, IsSpace), false, false, false);
  }

  /** The round trip gives back exactly the lower-case slugs. */
  lemma RoundTripIff(s: Text)
    ensures Slugified(Unslugify(s), true, None) == s <==> IsSlug(s, true)
  {
    UnslugifyKeepsSlug(s);
    FixedIffSlug(s, true);
  }
}
