/**
 * Upload file names: `<timestamp>-<clean name><extension>`, where the clean name is the
 * base name lower-cased, stripped of accents, with `đ`/`Đ` turned into `d`, every
 * character outside the allowed class turned into a hyphen, hyphen runs collapsed and
 * a leading and a trailing hyphen removed.
 *
 * Unicode NFD decomposition followed by removal of the combining marks U+0300..U+036F is
 * the parameter `unaccent`.
 */
module Filename {

  import opened Text

  // ---- extension and base name (no directories) ----

  /** The index of the last '.' in `s`, if any. */
  function LastDot(s: string): (r: int)
    ensures -1 <= r < |s|
    ensures r >= 0 ==> s[r] == '.' && forall j :: r < j < |s| ==> s[j] != '.'
    ensures r == -1 ==> forall j :: 0 <= j < |s| ==> s[j] != '.'
  {
    if s == [] then -1
    else if s[|s| - 1] == '.' then |s| - 1
    else LastDot(s[..|s| - 1])
  }

  /** The extension: from the last dot to the end, provided that dot is not the first character. */
  function Extname(name: string): (ext: string)
    ensures EndsWith(name, ext)
    ensures ext != [] ==> ext[0] == '.' && |ext| < |name| && forall j :: 1 <= j < |ext| ==> ext[j] != '.'
    ensures ext == [] ==> LastDot(name) <= 0
  {
    var d := LastDot(name);
    if d <= 0 then [] else name[d..]
  }

  function BaseName(name: string): (base: string)
    ensures base + Extname(name) == name
  {
    name[..|name| - |Extname(name)|]
  }

  // ---- character steps ----

  /** Lower-casing: ASCII capitals and `Đ` (U+0110 -> U+0111); other characters unchanged. */
  function Lower(c: char): (d: char)
    ensures 'A' <= c <= 'Z' ==> 'a' <= d <= 'z' && d as int == c as int + 32
    ensures c == 'Đ' ==> d == 'đ'
    ensures !('A' <= c <= 'Z') && c != 'Đ' ==> d == c
  {
    if 'A' <= c <= 'Z' then (c as int + 32) as char
    else if c == 'Đ' then 'đ'
    else c
  }

  function LowerString(s: string): (r: string)
    ensures |r| == |s| && forall i :: 0 <= i < |s| ==> r[i] == Lower(s[i])
  {
    seq(|s|, i requires 0 <= i < |s| => Lower(s[i]))
  }

  function DStroke(c: char): char {
    if c == 'đ' || c == 'Đ' then 'd' else c
  }

  function FoldDStroke(s: string): (r: string)
    ensures |r| == |s| && forall i :: 0 <= i < |s| ==> r[i] == DStroke(s[i])
  {
    seq(|s|, i requires 0 <= i < |s| => DStroke(s[i]))
  }

  /** The class the source writes as `[a-z0-z0-9]`: `0-z` spans U+0030..U+007A. */
  predicate KeptAsWritten(c: char) {
    ('a' <= c <= 'z') || ('0' <= c <= 'z') || ('0' <= c <= '9')
  }

  /** The class the comment describes: lower-case ASCII letters and digits. */
  predicate KeptIntended(c: char) {
    ('a' <= c <= 'z') || ('0' <= c <= '9')
  }

  /** Replace every character outside the class by a hyphen. */
  function Hyphenate(s: string, keep: char -> bool): (r: string)
    ensures |r| == |s|
    ensures forall i :: 0 <= i < |s| ==> r[i] == if keep(s[i]) then s[i] else '-'
  {
    seq(|s|, i requires 0 <= i < |s| => if keep(s[i]) then s[i] else '-')
  }

  /** The text of `s` with every hyphen dropped. */
  function NonHyphens(s: string): string {
    if s == [] then [] else (if s[0] == '-' then [] else [s[0]]) + NonHyphens(s[1..])
  }

  lemma {:induction false} NonHyphensAppend(a: string, b: string)
    ensures NonHyphens(a + b) == NonHyphens(a) + NonHyphens(b)
  {
    if a != [] {
      assert (a + b)[0] == a[0] && (a + b)[1..] == a[1..] + b;
      NonHyphensAppend(a[1..], b);
    } else {
      assert a + b == b;
    }
  }

  predicate NoDoubleHyphen(s: string) {
    forall i :: 0 <= i < |s| - 1 ==> !(s[i] == '-' && s[i + 1] == '-')
  }

  /** Each run of hyphens becomes a single hyphen. */
  function CollapseHyphens(s: string): (r: string)
    ensures NoDoubleHyphen(r)
    ensures |r| <= |s|
    ensures s != [] ==> r != [] && r[0] == s[0] && r[|r| - 1] == s[|s| - 1]
    ensures forall i :: 0 <= i < |r| ==> r[i] in s
  {
    if |s| <= 1 then s
    else
      var rest := CollapseHyphens(s[1..]);
      if s[0] == '-' && s[1] == '-' then rest
      else [s[0]] + rest
  }

  /** Collapsing removes hyphens only: every other character stays, in order. */
  lemma {:induction false} CollapseKeepsText(s: string)
    ensures NonHyphens(CollapseHyphens(s)) == NonHyphens(s)
  {
    if |s| > 1 {
      CollapseKeepsText(s[1..]);
      var rest := CollapseHyphens(s[1..]);
      if !(s[0] == '-' && s[1] == '-') {
        assert CollapseHyphens(s) == [s[0]] + rest;
        assert ([s[0]] + rest)[0] == s[0] && ([s[0]] + rest)[1..] == rest;
      }
    }
  }

  /**
   * A doubled hyphen collapses like a single one: wherever it stands, "--" and "-" give
   * the same result. With `CollapseNoDouble` this fixes the result on every input: a run
   * of hyphens leaves exactly one hyphen.
   */
  lemma {:induction false} CollapseDoubleHyphen(x: string, y: string)
    ensures CollapseHyphens(x + "--" + y) == CollapseHyphens(x + "-" + y)
  {
    var s, t := x + "--" + y, x + "-" + y;
    if x == [] {
      assert s[1..] == t;
    } else {
      assert s[1..] == x[1..] + "--" + y;
      assert t[1..] == x[1..] + "-" + y;
      assert s[0] == t[0] == x[0] && s[1] == t[1];
      CollapseDoubleHyphen(x[1..], y);
    }
  }

  /** Drop one leading and one trailing hyphen. */
  function TrimHyphen(s: string): (r: string)
    ensures |r| <= |s|
    ensures NoDoubleHyphen(s) ==> NoDoubleHyphen(r)
    ensures NoDoubleHyphen(s) && r != [] ==> r[0] != '-' && r[|r| - 1] != '-'
    ensures forall i :: 0 <= i < |r| ==> r[i] in s
  {
    var a := if s != [] && s[0] == '-' then s[1..] else s;
    if a != [] && a[|a| - 1] == '-' then a[..|a| - 1] else a
  }

  /**
   * Trimming removes at most the first and the last character, and only hyphens: with the
   * hyphens dropped the text is unchanged.
   */
  lemma TrimKeepsText(s: string)
    ensures var r := TrimHyphen(s);
      && (r == s || r == s[1..] || r == s[..|s| - 1] || r == s[1..|s| - 1])
      && NonHyphens(r) == NonHyphens(s)
  {
    TrimShape(s);
    var r := TrimHyphen(s);
    if s != [] && s[0] == '-' {
      var a := s[1..];
      DropFirstHyphen(s);
      if |s| > 1 && s[|s| - 1] == '-' {
        assert r == s[1..|s| - 1] == a[..|a| - 1];
        DropLastHyphen(a);
      } else {
        assert r == a;
      }
    } else if s != [] && s[|s| - 1] == '-' {
      assert r == s[..|s| - 1];
      DropLastHyphen(s);
    } else {
      assert r == s;
    }
  }

  /** Trimming yields `s` itself, or `s` without its first, its last, or both of them. */
  lemma TrimShape(s: string)
    ensures s != [] && s[0] == '-' && |s| > 1 && s[|s| - 1] == '-' ==> TrimHyphen(s) == s[1..|s| - 1]
    ensures s != [] && s[0] == '-' && !(|s| > 1 && s[|s| - 1] == '-') ==> TrimHyphen(s) == s[1..]
    ensures !(s != [] && s[0] == '-') && s != [] && s[|s| - 1] == '-' ==> TrimHyphen(s) == s[..|s| - 1]
    ensures !(s != [] && s[0] == '-') && !(s != [] && s[|s| - 1] == '-') ==> TrimHyphen(s) == s
  {
    if s != [] && s[0] == '-' && |s| > 1 {
      assert s[1..][|s[1..]| - 1] == s[|s| - 1];
      assert s[1..][..|s[1..]| - 1] == s[1..|s| - 1];
    }
  }

  /** Dropping a leading hyphen leaves the text without hyphens unchanged. */
  lemma DropFirstHyphen(t: string)
    requires t != [] && t[0] == '-'
    ensures NonHyphens(t[1..]) == NonHyphens(t)
  {
  }

  /** Dropping a trailing hyphen leaves the text without hyphens unchanged. */
  lemma DropLastHyphen(t: string)
    requires t != [] && t[|t| - 1] == '-'
    ensures NonHyphens(t[..|t| - 1]) == NonHyphens(t)
  {
    assert t == t[..|t| - 1] + [t[|t| - 1]];
    NonHyphensAppend(t[..|t| - 1], [t[|t| - 1]]);
  }

  function Slug(s: string, keep: char -> bool): string {
    TrimHyphen(CollapseHyphens(Hyphenate(s, keep)))
  }

  /** The characters of `s` that the class keeps, other than hyphens, in order. */
  function KeptText(s: string, keep: char -> bool): string {
    if s == [] then [] else (if keep(s[0]) && s[0] != '-' then [s[0]] else []) + KeptText(s[1..], keep)
  }

  lemma {:induction false} HyphenateKeepsText(s: string, keep: char -> bool)
    ensures NonHyphens(Hyphenate(s, keep)) == KeptText(s, keep)
  {
    if s != [] {
      assert Hyphenate(s, keep)[1..] == Hyphenate(s[1..], keep);
      HyphenateKeepsText(s[1..], keep);
    }
  }

  /**
   * Cleaning keeps the text: dropping the hyphens from a slug leaves exactly the kept
   * characters of the input, in order; only separators are collapsed and trimmed.
   */
  lemma SlugKeepsText(s: string, keep: char -> bool)
    ensures NonHyphens(Slug(s, keep)) == KeptText(s, keep)
  {
    HyphenateKeepsText(s, keep);
    CollapseKeepsText(Hyphenate(s, keep));
    TrimKeepsText(CollapseHyphens(Hyphenate(s, keep)));
  }

  /** A slug is made of kept characters and single inner hyphens. */
  predicate IsSlug(s: string, keep: char -> bool) {
    && NoDoubleHyphen(s)
    && (s != [] ==> s[0] != '-' && s[|s| - 1] != '-')
    && forall i :: 0 <= i < |s| ==> s[i] == '-' || keep(s[i])
  }

  lemma SlugIsSlug(s: string, keep: char -> bool)
    ensures IsSlug(Slug(s, keep), keep)
  {
    var h := Hyphenate(s, keep);
    assert forall c :: c in h ==> c == '-' || keep(c);
  }

  // ---- the pipeline ----

  /** The accent-stripping step on text without accents, where it changes nothing. */
  function AsciiUnaccent(s: string): string {
    s
  }

  function CleanNameWith(base: string, unaccent: string -> string, keep: char -> bool): string {
    Slug(FoldDStroke(unaccent(LowerString(base))), keep)
  }

  function GenerateFilenameWith(now: nat, name: string, unaccent: string -> string, keep: char -> bool): string {
    NatToString(now) + "-" + CleanNameWith(BaseName(name), unaccent, keep) + Extname(name)
  }

  /**
   * A generated name is the timestamp and a hyphen, then the clean name, then the
   * extension exactly as `extname` found it.
   */
  lemma FilenameParts(now: nat, name: string, unaccent: string -> string, keep: char -> bool)
    ensures var r := GenerateFilenameWith(now, name, unaccent, keep);
      var stamp := NatToString(now) + "-";
      var ext := Extname(name);
      && StartsWith(r, stamp)
      && EndsWith(r, ext)
      && |stamp| + |ext| <= |r|
      && r[|stamp|..|r| - |ext|] == CleanNameWith(BaseName(name), unaccent, keep)
  {
    var stamp := NatToString(now) + "-";
    var clean := CleanNameWith(BaseName(name), unaccent, keep);
    var ext := Extname(name);
    var r := stamp + clean + ext;
    assert r[..|stamp|] == stamp;
    assert r[|r| - |ext|..] == ext;
    assert r[|stamp|..|r| - |ext|] == clean;
  }

  /** The file name as the source computes it, with its `0-z` character class. */
  function GenerateCleanFilenameAsWritten(now: nat, name: string, unaccent: string -> string): string {
    GenerateFilenameWith(now, name, unaccent, KeptAsWritten)
  }

  /** The file name with the intended class `[a-z0-9]`; the ads catalogue uses this one. */
  function GenerateCleanFilename(now: nat, name: string, unaccent: string -> string): string {
    GenerateFilenameWith(now, name, unaccent, KeptIntended)
  }

  /** The clean name is URL-safe: lower-case letters, digits and single inner hyphens only. */
  lemma CleanNameIsUrlSafe(base: string, unaccent: string -> string)
    ensures var c := CleanNameWith(base, unaccent, KeptIntended);
      && NoDoubleHyphen(c)
      && (c != [] ==> c[0] != '-' && c[|c| - 1] != '-')
      && forall i :: 0 <= i < |c| ==> c[i] == '-' || 'a' <= c[i] <= 'z' || '0' <= c[i] <= '9'
  {
    SlugIsSlug(FoldDStroke(unaccent(LowerString(base))), KeptIntended);
  }

  /** The class as written lets through characters that are not alphanumeric, such as `_`. */
  lemma AsWrittenKeepsUnderscore()
    ensures KeptAsWritten('_') && KeptAsWritten('@') && KeptAsWritten('[') && KeptAsWritten('^')
    ensures !KeptIntended('_')
    ensures CleanNameWith("a_b", AsciiUnaccent, KeptAsWritten) == "a_b"
  {
    assert LowerString("a_b") == "a_b";
    assert FoldDStroke("a_b") == "a_b";
    SlugOfSlug("a_b", KeptAsWritten);
  }

  /** With the intended class the same name comes out as "a-b". */
  lemma IntendedReplacesUnderscore()
    ensures CleanNameWith("a_b", AsciiUnaccent, KeptIntended) == "a-b"
  {
    assert LowerString("a_b") == "a_b";
    assert FoldDStroke("a_b") == "a_b";
    assert Hyphenate("a_b", KeptIntended) == "a-b";
    SlugOfSlugHyphenation("a_b", "a-b", KeptIntended);
  }

  /** Lower-casing, then `đ`/`Đ` become `d`: the clean name of "Đa" is "da". */
  lemma DStrokeBecomesD()
    ensures CleanNameWith("Đa", AsciiUnaccent, KeptIntended) == "da"
  {
    assert LowerString("Đa") == "đa";
    assert FoldDStroke("đa") == "da";
    SlugOfSlug("da", KeptIntended);
  }

  /** The documented example: "My Image.png" becomes "<timestamp>-my-image.png". */
  lemma DocumentedExample(now: nat)
    ensures GenerateCleanFilename(now, "My Image.png", AsciiUnaccent) == NatToString(now) + "-" + "my-image" + ".png"
  {
    ExampleParts();
    ExampleCleanName();
  }

  lemma ExampleParts()
    ensures Extname("My Image.png") == ".png" && BaseName("My Image.png") == "My Image"
  {
    LastDotBeforeSuffix("My Image", "png");
    assert "My Image" + "." + "png" == "My Image.png";
  }

  /** The last dot of `pre + "." + post`, with no dot in `post`, is at `|pre|`. */
  lemma {:induction false} LastDotBeforeSuffix(pre: string, post: string)
    requires forall j :: 0 <= j < |post| ==> post[j] != '.'
    ensures LastDot(pre + "." + post) == |pre|
    decreases |post|
  {
    var s := pre + "." + post;
    if post != [] {
      var shorter := post[..|post| - 1];
      assert s[..|s| - 1] == pre + "." + shorter;
      LastDotBeforeSuffix(pre, shorter);
    } else {
      assert s[|s| - 1] == '.';
    }
  }

  lemma ExampleLower()
    ensures LowerString("My Image") == "my image"
  {
  }

  lemma ExampleHyphenate()
    ensures Hyphenate("my image", KeptIntended) == "my-image"
  {
  }

  lemma ExampleFold()
    ensures FoldDStroke("my image") == "my image"
  {
  }

  lemma ExampleSlug()
    ensures Slug("my image", KeptIntended) == "my-image"
  {
    ExampleHyphenate();
    SlugOfSlugHyphenation("my image", "my-image", KeptIntended);
  }

  lemma ExampleCleanName()
    ensures CleanNameWith("My Image", AsciiUnaccent, KeptIntended) == "my-image"
  {
    ExampleLower();
    ExampleFold();
    ExampleSlug();
  }

  lemma {:induction false} CollapseNoDouble(s: string)
    requires NoDoubleHyphen(s)
    ensures CollapseHyphens(s) == s
  {
    if |s| > 1 {
      NoDoubleTail(s);
      CollapseNoDouble(s[1..]);
      CollapseKeepsHead(s);
      assert s == [s[0]] + s[1..];
    }
  }

  lemma NoDoubleTail(s: string)
    requires s != [] && NoDoubleHyphen(s)
    ensures NoDoubleHyphen(s[1..])
  {
    var tail := s[1..];
    forall i | 0 <= i < |tail| - 1 ensures !(tail[i] == '-' && tail[i + 1] == '-') {
      assert tail[i] == s[i + 1] && tail[i + 1] == s[i + 2];
    }
  }

  lemma CollapseKeepsHead(s: string)
    requires |s| > 1 && !(s[0] == '-' && s[1] == '-')
    ensures CollapseHyphens(s) == [s[0]] + CollapseHyphens(s[1..])
  {
  }

  /** A slug is its own slug. */
  lemma SlugOfSlug(t: string, keep: char -> bool)
    requires IsSlug(t, keep)
    ensures Slug(t, keep) == t
  {
    HyphenateSlug(t, keep);
    CollapseNoDouble(t);
    TrimUnhyphenated(t);
  }

  lemma HyphenateSlug(t: string, keep: char -> bool)
    requires IsSlug(t, keep)
    ensures Hyphenate(t, keep) == t
  {
    var h := Hyphenate(t, keep);
    forall i | 0 <= i < |t| ensures h[i] == t[i] {
      assert t[i] == '-' || keep(t[i]);
    }
  }

  lemma TrimUnhyphenated(t: string)
    requires t != [] ==> t[0] != '-' && t[|t| - 1] != '-'
    ensures TrimHyphen(t) == t
  {
  }

  /** Only the hyphenated form matters: hyphenating twice is hyphenating once. */
  lemma SlugOfHyphenated(s: string, keep: char -> bool)
    ensures Slug(Hyphenate(s, keep), keep) == Slug(s, keep)
  {
    assert Hyphenate(Hyphenate(s, keep), keep) == Hyphenate(s, keep);
  }

  /** A name whose hyphenated form is already a slug has that slug as its clean form. */
  lemma SlugOfSlugHyphenation(s: string, t: string, keep: char -> bool)
    requires Hyphenate(s, keep) == t && IsSlug(t, keep)
    ensures Slug(s, keep) == t
  {
    SlugOfHyphenated(s, keep);
    SlugOfSlug(t, keep);
  }

  /** Slugging a slug changes nothing: the cleaning steps are idempotent. */
  lemma SlugIdempotent(s: string, keep: char -> bool)
    ensures Slug(Slug(s, keep), keep) == Slug(s, keep)
  {
    SlugIsSlug(s, keep);
    SlugOfSlug(Slug(s, keep), keep);
  }
}
