/** slugify and validate_workspace_slug: a pipeline of substitutions, and what it computes. */
module Slug {
  import opened Prelude

  /** The two Unicode tables `str` methods consult, left open outside the slug alphabet. */
  datatype Unicode = Unicode(isSpace: char -> bool, lower: char -> string)

  predicate IsSlugChar(c: char) {
    'a' <= c <= 'z' || '0' <= c <= '9'
  }

  /** No slug character or hyphen is a space or has another lower case, and spaces have no lower case. */
  ghost predicate Sane(u: Unicode) {
    && (forall c: char :: IsSlugChar(c) || c == '-' ==> !u.isSpace(c) && u.lower(c) == [c])
    && (forall c: char :: u.isSpace(c) ==> u.lower(c) == [c])
  }

  // ------------------------------------------------------------------------- the pipeline

  function DropWhile(s: string, p: char -> bool): (rest: string)
    ensures |rest| <= |s| && (rest != [] ==> !p(rest[0]))
  {
    if s != [] && p(s[0]) then DropWhile(s[1..], p) else s
  }

  function DropWhileEnd(s: string, p: char -> bool): (rest: string)
    ensures |rest| <= |s| && (rest != [] ==> !p(rest[|rest| - 1]))
  {
    if s != [] && p(s[|s| - 1]) then DropWhileEnd(s[..|s| - 1], p) else s
  }

  /** str.strip. */
  function Strip(s: string, p: char -> bool): string {
    DropWhileEnd(DropWhile(s, p), p)
  }

  /** str.lower. */
  function Lower(u: Unicode, s: string): string {
    if s == "" then "" else u.lower(s[0]) + Lower(u, s[1..])
  }

  /** re.sub(r"[..]+", "-", s): every maximal run becomes one hyphen. */
  function CollapseRuns(s: string, p: char -> bool): string
    decreases |s|
  {
    if s == "" then ""
    else if p(s[0]) then "-" + CollapseRuns(DropWhile(s[1..], p), p)
    else [s[0]] + CollapseRuns(s[1..], p)
  }

  /** re.sub(r"[^..]", "", s). */
  function Keep(s: string, p: char -> bool): string {
    if s == "" then "" else (if p(s[0]) then [s[0]] else "") + Keep(s[1..], p)
  }

  predicate IsHyphen(c: char) {
    c == '-'
  }

  predicate IsSlugOrHyphen(c: char) {
    IsSlugChar(c) || IsHyphen(c)
  }

  function SpaceOrUnderscore(u: Unicode): char -> bool {
    c => u.isSpace(c) || c == '_'
  }

  function Slugify(u: Unicode, value: string): string {
    var lowered := Lower(u, Strip(value, u.isSpace));
    var hyphenated := CollapseRuns(lowered, SpaceOrUnderscore(u));
    var kept := Keep(hyphenated, IsSlugOrHyphen);
    var collapsed := CollapseRuns(kept, IsHyphen);
    Strip(collapsed, IsHyphen)
  }

  // ------------------------------------------------------------------------ the reference

  function Separator(u: Unicode): char -> bool {
    c => u.isSpace(c) || c == '_' || c == '-'
  }

  /** str.split at every separator: one piece more than there are separators. */
  function Split(s: string, sep: char -> bool): (pieces: seq<string>)
    ensures |pieces| >= 1
  {
    if s == "" then [""]
    else
      var rest := Split(s[1..], sep);
      if sep(s[0]) then [""] + rest else [[s[0]] + rest[0]] + rest[1..]
  }

  /** The pieces that still hold something once filtered, in order. */
  function NonEmptyKept(pieces: seq<string>): seq<string> {
    if pieces == [] then []
    else
      var kept := Keep(pieces[0], IsSlugChar);
      (if kept == "" then [] else [kept]) + NonEmptyKept(pieces[1..])
  }

  function Join(words: seq<string>): string {
    if words == [] then ""
    else if |words| == 1 then words[0]
    else words[0] + "-" + Join(words[1..])
  }

  function Words(s: string, sep: char -> bool): seq<string> {
    NonEmptyKept(Split(s, sep))
  }

  // ------------------------------------------------------------------- words are invariant

  lemma {:induction false} SplitConcat(a: string, c: char, b: string, sep: char -> bool)
    requires sep(c)
    ensures Split(a + [c] + b, sep) == Split(a, sep) + Split(b, sep)
    decreases |a|
  {
    if a == "" {
      assert ([c] + b)[1..] == b;
      assert a + [c] + b == [c] + b;
    } else {
      assert (a + [c] + b)[1..] == a[1..] + [c] + b;
      SplitConcat(a[1..], c, b, sep);
    }
  }

  lemma {:induction false} KeptConcat(x: seq<string>, y: seq<string>)
    ensures NonEmptyKept(x + y) == NonEmptyKept(x) + NonEmptyKept(y)
    decreases |x|
  {
    if x == [] {
      assert x + y == y;
    } else {
      assert (x + y)[1..] == x[1..] + y;
      KeptConcat(x[1..], y);
    }
  }

  /** A separator ends a word. */
  lemma WordsConcat(a: string, c: char, b: string, sep: char -> bool)
    requires sep(c)
    ensures Words(a + [c] + b, sep) == Words(a, sep) + Words(b, sep)
  {
    SplitConcat(a, c, b, sep);
    KeptConcat(Split(a, sep), Split(b, sep));
  }

  lemma NoWords(sep: char -> bool)
    ensures Words("", sep) == []
  {
    assert [""][1..] == [];
  }

  lemma {:induction false} WordsDropWhile(s: string, p: char -> bool, sep: char -> bool)
    requires forall c :: p(c) ==> sep(c)
    ensures Words(DropWhile(s, p), sep) == Words(s, sep)
  {
    if s != "" && p(s[0]) {
      WordsDropWhile(s[1..], p, sep);
      WordsConcat("", s[0], s[1..], sep);
      assert "" + [s[0]] + s[1..] == s;
    }
  }

  lemma {:induction false} WordsDropWhileEnd(s: string, p: char -> bool, sep: char -> bool)
    requires forall c :: p(c) ==> sep(c)
    ensures Words(DropWhileEnd(s, p), sep) == Words(s, sep)
  {
    var n := |s| - 1;
    if s != "" && p(s[n]) {
      WordsDropWhileEnd(s[..n], p, sep);
      WordsConcat(s[..n], s[n], "", sep);
      NoWords(sep);
      assert s[..n] + [s[n]] + "" == s;
    }
  }

  lemma WordsStrip(s: string, p: char -> bool, sep: char -> bool)
    requires forall c :: p(c) ==> sep(c)
    ensures Words(Strip(s, p), sep) == Words(s, sep)
  {
    WordsDropWhile(s, p, sep);
    WordsDropWhileEnd(DropWhile(s, p), p, sep);
  }

  /** Putting the same character before two strings with the same words and the same first piece. */
  lemma WordsAfterChar(c: char, s: string, t: string, sep: char -> bool)
    requires !sep(c)
    requires Keep(Split(s, sep)[0], IsSlugChar) == Keep(Split(t, sep)[0], IsSlugChar)
    requires NonEmptyKept(Split(s, sep)[1..]) == NonEmptyKept(Split(t, sep)[1..])
    ensures var s', t' := Split([c] + s, sep), Split([c] + t, sep);
            && Keep(s'[0], IsSlugChar) == Keep(t'[0], IsSlugChar)
            && NonEmptyKept(s'[1..]) == NonEmptyKept(t'[1..])
  {
    assert ([c] + s)[1..] == s && ([c] + t)[1..] == t;
    var ps, pt := Split(s, sep)[0], Split(t, sep)[0];
    assert ([c] + ps)[1..] == ps && ([c] + pt)[1..] == pt;
  }

  /** Two strings have the same first piece and the same words after it, once filtered. */
  predicate SamePieces(s: string, t: string, sep: char -> bool) {
    && Keep(Split(s, sep)[0], IsSlugChar) == Keep(Split(t, sep)[0], IsSlugChar)
    && NonEmptyKept(Split(s, sep)[1..]) == NonEmptyKept(Split(t, sep)[1..])
  }

  lemma SamePiecesSameWords(s: string, t: string, sep: char -> bool)
    requires SamePieces(s, t, sep)
    ensures Words(s, sep) == Words(t, sep)
  {
  }

  lemma SplitAtSeparator(c: char, s: string, sep: char -> bool)
    requires sep(c)
    ensures Split([c] + s, sep)[0] == "" && Split([c] + s, sep)[1..] == Split(s, sep)
  {
    assert ([c] + s)[1..] == s;
  }

  lemma {:induction false} CollapseKeepsPieces(s: string, p: char -> bool, sep: char -> bool)
    requires sep('-') && forall c :: p(c) ==> sep(c)
    ensures SamePieces(CollapseRuns(s, p), s, sep)
    decreases |s|
  {
    if s != "" {
      assert s == [s[0]] + s[1..];
      if p(s[0]) {
        var rest := DropWhile(s[1..], p);
        CollapseKeepsPieces(rest, p, sep);
        SamePiecesSameWords(CollapseRuns(rest, p), rest, sep);
        WordsDropWhile(s[1..], p, sep);
        SplitAtSeparator('-', CollapseRuns(rest, p), sep);
        SplitAtSeparator(s[0], s[1..], sep);
      } else {
        CollapseKeepsPieces(s[1..], p, sep);
        if sep(s[0]) {
          SamePiecesSameWords(CollapseRuns(s[1..], p), s[1..], sep);
          SplitAtSeparator(s[0], CollapseRuns(s[1..], p), sep);
          SplitAtSeparator(s[0], s[1..], sep);
        } else {
          WordsAfterChar(s[0], CollapseRuns(s[1..], p), s[1..], sep);
        }
      }
    }
  }

  /** Dropping characters that neither separate nor survive the filter changes no word. */
  lemma {:induction false} FilterKeepsPieces(s: string, sep: char -> bool)
    requires forall c :: c in s && sep(c) ==> c == '-'
    requires sep('-') && forall c :: IsSlugChar(c) ==> !sep(c)
    ensures SamePieces(Keep(s, IsSlugOrHyphen), s, sep)
    decreases |s|
  {
    if s != "" {
      var kept := Keep(s[1..], IsSlugOrHyphen);
      assert s == [s[0]] + s[1..];
      FilterKeepsPieces(s[1..], sep);
      if sep(s[0]) {
        SamePiecesSameWords(kept, s[1..], sep);
        SplitAtSeparator(s[0], kept, sep);
        SplitAtSeparator(s[0], s[1..], sep);
      } else if IsSlugChar(s[0]) {
        WordsAfterChar(s[0], kept, s[1..], sep);
      } else {
        var first := Split(s[1..], sep)[0];
        assert ([s[0]] + first)[1..] == first;
        assert Keep(s, IsSlugOrHyphen) == kept;
      }
    }
  }

  lemma {:induction false} CollapsedHasNone(s: string, p: char -> bool, c: char)
    requires p(c) && c != '-'
    ensures c !in CollapseRuns(s, p)
    decreases |s|
  {
    if s != "" {
      if p(s[0]) {
        CollapsedHasNone(DropWhile(s[1..], p), p, c);
      } else {
        CollapsedHasNone(s[1..], p, c);
      }
    }
  }

  // --------------------------------------------------------------------- the shape of slugs

  /** Slug characters and hyphens, no two hyphens in a row. */
  predicate SingleHyphens(s: string) {
    && (forall i :: 0 <= i < |s| ==> IsSlugOrHyphen(s[i]))
    && (forall i :: 0 <= i < |s| - 1 ==> s[i] != '-' || s[i + 1] != '-')
  }

  /** A slug: empty, or without leading, trailing or doubled hyphens. */
  predicate IsSlug(s: string) {
    SingleHyphens(s) && (s != "" ==> s[0] != '-' && s[|s| - 1] != '-')
  }

  lemma {:induction false} KeptOnly(s: string, p: char -> bool)
    ensures forall i :: 0 <= i < |Keep(s, p)| ==> p(Keep(s, p)[i])
  {
    if s != "" {
      KeptOnly(s[1..], p);
    }
  }

  lemma {:induction false} DropWhileIsSuffix(s: string, p: char -> bool) returns (n: nat)
    ensures n <= |s| && DropWhile(s, p) == s[n..]
  {
    n := 0;
    if s != "" && p(s[0]) {
      var m := DropWhileIsSuffix(s[1..], p);
      n := m + 1;
      assert s[n..] == s[1..][m..];
    }
  }

  lemma {:induction false} DropWhileEndIsPrefix(s: string, p: char -> bool) returns (n: nat)
    ensures n <= |s| && DropWhileEnd(s, p) == s[..n]
  {
    n := |s|;
    if s != "" && p(s[|s| - 1]) {
      n := DropWhileEndIsPrefix(s[..|s| - 1], p);
      assert s[..|s| - 1][..n] == s[..n];
    }
  }

  lemma {:induction false} CollapseSinglesHyphens(s: string)
    requires forall i :: 0 <= i < |s| ==> IsSlugOrHyphen(s[i])
    ensures SingleHyphens(CollapseRuns(s, IsHyphen))
    ensures s != "" && s[0] != '-' ==> CollapseRuns(s, IsHyphen) != "" && CollapseRuns(s, IsHyphen)[0] != '-'
    ensures s == "" ==> CollapseRuns(s, IsHyphen) == ""
    decreases |s|
  {
    if s != "" {
      if IsHyphen(s[0]) {
        var n := DropWhileIsSuffix(s[1..], IsHyphen);
        CollapseSinglesHyphens(DropWhile(s[1..], IsHyphen));
      } else {
        CollapseSinglesHyphens(s[1..]);
      }
    }
  }

  /** The output is empty or a slug, for every string. */
  lemma SlugifyGivesSlug(u: Unicode, value: string)
    ensures IsSlug(Slugify(u, value))
  {
    var kept := Keep(CollapseRuns(Lower(u, Strip(value, u.isSpace)), SpaceOrUnderscore(u)), IsSlugOrHyphen);
    KeptOnly(CollapseRuns(Lower(u, Strip(value, u.isSpace)), SpaceOrUnderscore(u)), IsSlugOrHyphen);
    CollapseSinglesHyphens(kept);
    var collapsed := CollapseRuns(kept, IsHyphen);
    var n := DropWhileIsSuffix(collapsed, IsHyphen);
    var m := DropWhileEndIsPrefix(collapsed[n..], IsHyphen);
    assert Strip(collapsed, IsHyphen) == collapsed[n..][..m];
  }

  // --------------------------------------------------------------------------- refinement

  lemma {:induction false} KeepAll(s: string)
    requires forall i :: 0 <= i < |s| ==> IsSlugChar(s[i])
    ensures Keep(s, IsSlugChar) == s
  {
    if s != "" {
      KeepAll(s[1..]);
    }
  }

  lemma {:induction false} SplitWord(s: string, sep: char -> bool)
    requires forall i :: 0 <= i < |s| ==> IsSlugChar(s[i]) && !sep(s[i])
    ensures Split(s, sep) == [s]
  {
    if s != "" {
      SplitWord(s[1..], sep);
      assert [s[0]] + s[1..] == s;
    }
  }

  lemma OneWord(s: string, sep: char -> bool)
    requires s != "" && '-' !in s && (forall i :: 0 <= i < |s| ==> IsSlugOrHyphen(s[i]))
    requires forall c :: IsSlugChar(c) ==> !sep(c)
    ensures Words(s, sep) == [s]
  {
    forall i | 0 <= i < |s|
      ensures IsSlugChar(s[i]) && !sep(s[i])
    {
      assert s[i] in s;
    }
    SplitWord(s, sep);
    KeepAll(s);
    assert [s][1..] == [];
    assert NonEmptyKept([s]) == [s] + NonEmptyKept([]);
  }

  lemma JoinOneMore(word: string, words: seq<string>)
    requires words != []
    ensures Join([word] + words) == word + "-" + Join(words)
  {
    assert ([word] + words)[1..] == words;
  }

  lemma SlugAroundHyphen(s: string, k: nat)
    requires IsSlug(s) && k < |s| && s[k] == '-' && forall i :: 0 <= i < k ==> s[i] != '-'
    ensures s == s[..k] + ['-'] + s[k + 1..]
    ensures IsSlug(s[k + 1..]) && s[k + 1..] != "" && s[..k] != "" && '-' !in s[..k]
  {
    var b := s[k + 1..];
    assert forall i :: 0 <= i < |b| ==> b[i] == s[k + 1 + i];
  }

  /** A slug is its words joined by single hyphens. */
  lemma {:induction false} SlugIsItsWords(s: string, sep: char -> bool)
    requires IsSlug(s) && sep('-') && forall c :: IsSlugChar(c) ==> !sep(c)
    ensures Join(Words(s, sep)) == s
    decreases |s|
  {
    if s == "" {
      NoWords(sep);
    } else if '-' !in s {
      OneWord(s, sep);
    } else {
      var k := FirstHyphen(s);
      var a, b := s[..k], s[k + 1..];
      SlugAroundHyphen(s, k);
      WordsConcat(a, '-', b, sep);
      OneWord(a, sep);
      SlugIsItsWords(b, sep);
      JoinOneMore(a, Words(b, sep));
    }
  }

  lemma {:induction false} FirstHyphen(s: string) returns (k: nat)
    requires '-' in s
    ensures k < |s| && s[k] == '-' && forall i :: 0 <= i < k ==> s[i] != '-'
  {
    k := 0;
    while s[k] != '-'
      invariant k < |s| && forall i :: 0 <= i < k ==> s[i] != '-'
      decreases |s| - k
    {
      var i :| 0 <= i < |s| && s[i] == '-';
      k := k + 1;
    }
  }

  lemma {:induction false} LowerConcat(u: Unicode, a: string, b: string)
    ensures Lower(u, a + b) == Lower(u, a) + Lower(u, b)
    decreases |a|
  {
    if a == "" {
      assert a + b == b;
    } else {
      assert (a + b)[1..] == a[1..] + b;
      LowerConcat(u, a[1..], b);
    }
  }

  lemma {:induction false} WordsLowerDropWhile(u: Unicode, s: string)
    requires Sane(u)
    ensures Words(Lower(u, DropWhile(s, u.isSpace)), Separator(u)) == Words(Lower(u, s), Separator(u))
  {
    if s != "" && u.isSpace(s[0]) {
      WordsLowerDropWhile(u, s[1..]);
      var rest := Lower(u, s[1..]);
      WordsConcat("", s[0], rest, Separator(u));
      assert "" + [s[0]] + rest == Lower(u, s);
    }
  }

  lemma {:induction false} WordsLowerDropWhileEnd(u: Unicode, s: string)
    requires Sane(u)
    ensures Words(Lower(u, DropWhileEnd(s, u.isSpace)), Separator(u)) == Words(Lower(u, s), Separator(u))
  {
    var n := |s| - 1;
    if s != "" && u.isSpace(s[n]) {
      WordsLowerDropWhileEnd(u, s[..n]);
      LowerConcat(u, s[..n], [s[n]]);
      assert s[..n] + [s[n]] == s;
      assert Lower(u, [s[n]]) == [s[n]];
      WordsConcat(Lower(u, s[..n]), s[n], "", Separator(u));
      assert Lower(u, s[..n]) + [s[n]] + "" == Lower(u, s);
    }
  }

  /**
   slugify lowers, splits at every run of whitespace, underscores and hyphens, drops what is not
   a-z or 0-9, discards empty pieces and joins the rest with one hyphen.
  */
  lemma SlugifyJoinsWords(u: Unicode, value: string)
    requires Sane(u)
    ensures Slugify(u, value) == Join(Words(Lower(u, value), Separator(u)))
  {
    var sep := Separator(u);
    var lowered := Lower(u, Strip(value, u.isSpace));
    WordsLowerDropWhile(u, value);
    WordsLowerDropWhileEnd(u, DropWhile(value, u.isSpace));
    var hyphenated := CollapseRuns(lowered, SpaceOrUnderscore(u));
    CollapseKeepsPieces(lowered, SpaceOrUnderscore(u), sep);
    SamePiecesSameWords(hyphenated, lowered, sep);
    forall c | c in hyphenated && sep(c)
      ensures c == '-'
    {
      if c != '-' {
        CollapsedHasNone(lowered, SpaceOrUnderscore(u), c);
      }
    }
    FilterKeepsPieces(hyphenated, sep);
    var kept := Keep(hyphenated, IsSlugOrHyphen);
    SamePiecesSameWords(kept, hyphenated, sep);
    CollapseKeepsPieces(kept, IsHyphen, sep);
    var collapsed := CollapseRuns(kept, IsHyphen);
    SamePiecesSameWords(collapsed, kept, sep);
    WordsStrip(collapsed, IsHyphen, sep);
    SlugifyGivesSlug(u, value);
    SlugIsItsWords(Slugify(u, value), sep);
  }

  lemma {:induction false} LowerSlug(u: Unicode, s: string)
    requires Sane(u) && forall i :: 0 <= i < |s| ==> IsSlugOrHyphen(s[i])
    ensures Lower(u, s) == s
  {
    if s != "" {
      assert IsSlugOrHyphen(s[0]);
      LowerSlug(u, s[1..]);
    }
  }

  /** A slug is left alone, so slugify is idempotent and reaches exactly the slugs. */
  lemma SlugifyFixesSlugs(u: Unicode, s: string)
    requires Sane(u)
    ensures Slugify(u, s) == s <==> IsSlug(s)
    ensures Slugify(u, Slugify(u, s)) == Slugify(u, s)
  {
    SlugifyGivesSlug(u, s);
    FixesSlug(u, Slugify(u, s));
    if IsSlug(s) {
      FixesSlug(u, s);
    }
  }

  lemma FixesSlug(u: Unicode, s: string)
    requires Sane(u) && IsSlug(s)
    ensures Slugify(u, s) == s
  {
    SlugifyJoinsWords(u, s);
    LowerSlug(u, s);
    SlugIsItsWords(s, Separator(u));
  }

  // ------------------------------------------------------- slugify, character by character

  /** The alphabet and the shape of every slug slugify makes. */
  lemma SlugAlphabet(u: Unicode, value: string)
    ensures var s := Slugify(u, value);
            && (forall i :: 0 <= i < |s| ==> 'a' <= s[i] <= 'z' || '0' <= s[i] <= '9' || s[i] == '-')
            && (s != "" ==> s[0] != '-' && s[|s| - 1] != '-')
            && (forall i :: 0 <= i < |s| - 1 ==> s[i] != '-' || s[i + 1] != '-')
  {
    SlugifyGivesSlug(u, value);
    var s := Slugify(u, value);
    assert forall i :: 0 <= i < |s| ==> IsSlugOrHyphen(s[i]);
  }

  /** A word of a-z and 0-9 is its own slug. */
  lemma SlugifyKeepsWords(u: Unicode, word: string)
    requires Sane(u) && forall i :: 0 <= i < |word| ==> 'a' <= word[i] <= 'z' || '0' <= word[i] <= '9'
    ensures Slugify(u, word) == word
  {
    assert forall i :: 0 <= i < |word| ==> IsSlugChar(word[i]) && word[i] != '-';
    FixesSlug(u, word);
  }

  lemma {:induction false} JoinConcat(x: seq<string>, y: seq<string>)
    requires x != [] && y != []
    ensures Join(x + y) == Join(x) + "-" + Join(y)
    decreases |x|
  {
    assert (x + y)[1..] == x[1..] + y;
    if |x| > 1 {
      JoinConcat(x[1..], y);
    }
  }

  lemma EmptyJoin(words: seq<string>)
    requires forall i :: 0 <= i < |words| ==> words[i] != ""
    ensures Join(words) == "" <==> words == []
  {
  }

  /** Whitespace, an underscore or a hyphen separates: the slugs of both sides are joined by one hyphen. */
  lemma SlugifyAtSeparator(u: Unicode, a: string, c: char, b: string)
    requires Sane(u) && u.lower('_') == ['_']
    requires u.isSpace(c) || c == '_' || c == '-'
    ensures Slugify(u, a + [c] + b)
            == if Slugify(u, a) == "" then Slugify(u, b)
               else if Slugify(u, b) == "" then Slugify(u, a)
               else Slugify(u, a) + "-" + Slugify(u, b)
  {
    var sep := Separator(u);
    SlugifyJoinsWords(u, a);
    SlugifyJoinsWords(u, b);
    SlugifyJoinsWords(u, a + [c] + b);
    LowerConcat(u, a + [c], b);
    LowerConcat(u, a, [c]);
    assert Lower(u, [c]) == [c];
    WordsConcat(Lower(u, a), c, Lower(u, b), sep);
    var x, y := Words(Lower(u, a), sep), Words(Lower(u, b), sep);
    WordsAreNonEmpty(Split(Lower(u, a), sep));
    WordsAreNonEmpty(Split(Lower(u, b), sep));
    EmptyJoin(x);
    EmptyJoin(y);
    if x != [] && y != [] {
      JoinConcat(x, y);
    } else {
      assert x == [] ==> x + y == y;
      assert y == [] ==> x + y == x;
    }
  }

  /** Characters that neither separate nor are slug characters change nothing. */
  lemma {:induction false} DroppedKeepPieces(dropped: string, s: string, sep: char -> bool)
    requires forall d | d in dropped :: !IsSlugChar(d) && !sep(d)
    ensures SamePieces(dropped + s, s, sep)
    decreases |dropped|
  {
    if dropped == "" {
      assert dropped + s == s;
    } else {
      var rest := dropped[1..] + s;
      DroppedKeepPieces(dropped[1..], s, sep);
      assert dropped + s == [dropped[0]] + rest && ([dropped[0]] + rest)[1..] == rest;
      var first := Split(rest, sep)[0];
      assert ([dropped[0]] + first)[1..] == first;
    }
  }

  lemma {:induction false} SamePiecesBehind(a: string, s: string, t: string, sep: char -> bool)
    requires SamePieces(s, t, sep)
    ensures SamePieces(a + s, a + t, sep)
    decreases |a|
  {
    if a == "" {
      assert a + s == s && a + t == t;
    } else {
      var s', t' := a[1..] + s, a[1..] + t;
      SamePiecesBehind(a[1..], s, t, sep);
      assert a + s == [a[0]] + s' && a + t == [a[0]] + t';
      if sep(a[0]) {
        SamePiecesSameWords(s', t', sep);
        SplitAtSeparator(a[0], s', sep);
        SplitAtSeparator(a[0], t', sep);
      } else {
        WordsAfterChar(a[0], s', t', sep);
      }
    }
  }

  /** A character whose lower case holds neither a separator nor one of a-z and 0-9 is dropped. */
  lemma SlugifyDropsOthers(u: Unicode, a: string, c: char, b: string)
    requires Sane(u)
    requires forall d | d in u.lower(c) ::
               !('a' <= d <= 'z' || '0' <= d <= '9') && !u.isSpace(d) && d != '_' && d != '-'
    ensures Slugify(u, a + [c] + b) == Slugify(u, a + b)
  {
    SlugifyJoinsWords(u, a + [c] + b);
    SlugifyJoinsWords(u, a + b);
    LowerInside(u, a, c, b);
    LowerConcat(u, a, b);
    DroppedInside(Lower(u, a), u.lower(c), Lower(u, b), Separator(u));
  }

  lemma LowerInside(u: Unicode, a: string, c: char, b: string)
    ensures Lower(u, a + [c] + b) == Lower(u, a) + (u.lower(c) + Lower(u, b))
  {
    LowerConcat(u, a + [c], b);
    LowerConcat(u, a, [c]);
    assert Lower(u, [c]) == u.lower(c);
  }

  lemma DroppedInside(a: string, dropped: string, b: string, sep: char -> bool)
    requires forall d | d in dropped :: !IsSlugChar(d) && !sep(d)
    ensures Words(a + (dropped + b), sep) == Words(a + b, sep)
  {
    DroppedKeepPieces(dropped, b, sep);
    SamePiecesBehind(a, dropped + b, b, sep);
    SamePiecesSameWords(a + (dropped + b), a + b, sep);
  }

  /** And slugify sees the lower case of its argument, nothing else. */
  lemma SlugifySeesLowerCase(u: Unicode, value: string, other: string)
    requires Sane(u) && Lower(u, value) == Lower(u, other)
    ensures Slugify(u, value) == Slugify(u, other)
  {
    SlugifyJoinsWords(u, value);
    SlugifyJoinsWords(u, other);
  }

  /** Plain ASCII satisfies the assumptions on the Unicode tables. */
  lemma AsciiIsSane()
    ensures Sane(Unicode(c => c in " \t\n\r", c => if 'A' <= c <= 'Z' then [(c as int + 32) as char] else [c]))
  {
  }

  // --------------------------------------------------------------------------- validation

  const RESERVED_WORKSPACE_SLUGS: set<string> := {
    "admin", "administrator", "api", "app", "auth", "billing", "dashboard", "docs", "help", "login",
    "logout", "me", "register", "root", "settings", "support", "system", "www", "dev", "development",
    "prod", "production", "staging", "sandbox", "qa", "test", "testing"
  }

  datatype SlugError = Invalid | Reserved

  function ValidateWorkspaceSlug(slug: string): Result<(), SlugError> {
    if slug == "" then Err(Invalid)
    else if slug in RESERVED_WORKSPACE_SLUGS then Err(Reserved)
    else Ok(())
  }

  /** A workspace name is turned down as invalid exactly when it has no letter or digit to keep. */
  lemma InvalidIffNoWords(u: Unicode, name: string)
    requires Sane(u)
    ensures ValidateWorkspaceSlug(Slugify(u, name)) == Err(Invalid) <==> Words(Lower(u, name), Separator(u)) == []
  {
    SlugifyJoinsWords(u, name);
    WordsAreNonEmpty(Split(Lower(u, name), Separator(u)));
  }

  lemma {:induction false} NoWordsIff(s: string, sep: char -> bool)
    requires forall c :: IsSlugChar(c) ==> !sep(c)
    ensures Words(s, sep) == [] <==> forall i :: 0 <= i < |s| ==> !IsSlugChar(s[i])
    decreases |s|
  {
    if s == "" {
      NoWords(sep);
    } else {
      NoWordsIff(s[1..], sep);
      assert s == [s[0]] + s[1..];
      assert forall i :: 0 <= i < |s| ==> s[i] == if i == 0 then s[0] else s[1..][i - 1];
      if sep(s[0]) {
        SplitAtSeparator(s[0], s[1..], sep);
      } else {
        var first := Split(s[1..], sep)[0];
        assert ([s[0]] + first)[1..] == first;
      }
    }
  }

  /** That is, exactly when its lower case has none of a-z and 0-9. */
  lemma InvalidIffNothingToKeep(u: Unicode, name: string)
    requires Sane(u)
    ensures ValidateWorkspaceSlug(Slugify(u, name)) == Err(Invalid)
            <==> forall i :: 0 <= i < |Lower(u, name)| ==>
                   !('a' <= Lower(u, name)[i] <= 'z' || '0' <= Lower(u, name)[i] <= '9')
  {
    InvalidIffNoWords(u, name);
    NoWordsIff(Lower(u, name), Separator(u));
    var s := Lower(u, name);
    assert forall i :: 0 <= i < |s| ==> (IsSlugChar(s[i]) <==> 'a' <= s[i] <= 'z' || '0' <= s[i] <= '9');
  }

  /**
   A reserved word is its own slug, so it is turned down as it stands; any other slug that is not empty
   is accepted.
  */
  lemma ReservedIffListed(u: Unicode, slug: string)
    requires Sane(u)
    ensures ValidateWorkspaceSlug(slug) == Err(Reserved) <==> slug in RESERVED_WORKSPACE_SLUGS
    ensures ValidateWorkspaceSlug(slug) == Ok(()) <==> slug != "" && slug !in RESERVED_WORKSPACE_SLUGS
    ensures slug in RESERVED_WORKSPACE_SLUGS ==> Slugify(u, slug) == slug
  {
    if slug in RESERVED_WORKSPACE_SLUGS {
      assert slug != "" && forall i :: 0 <= i < |slug| ==> 'a' <= slug[i] <= 'z';
      SlugifyKeepsWords(u, slug);
    }
  }

  lemma {:induction false} WordsAreNonEmpty(pieces: seq<string>)
    ensures forall i :: 0 <= i < |NonEmptyKept(pieces)| ==> NonEmptyKept(pieces)[i] != ""
  {
    if pieces != [] {
      WordsAreNonEmpty(pieces[1..]);
    }
  }
}
