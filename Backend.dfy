/** The Flask backend (final_app.py): the social-post and SEO string builders and the
    request checks of its three routes. The image generator and the captioning model are
    parameters: the routes only pass their results along. */
module Backend {
  import opened Common
  import opened PyText

  // ---------------------------------------------------------------------------------------
  // create_social_posts

  const Platforms: set<string> := {"YouTube", "Instagram", "X", "LinkedIn"}

  /** The fixed text each platform's post puts before the caption. */
  function PostPrefix(platform: string): string {
    if platform == "YouTube" then "\U{1F31F} " else ""
  }

  /** The hashtags and sign-off each platform's post puts after the caption. */
  const YouTubeTags := "\n#AI #Art #YouTubeShorts"
  const InstagramTags := " \U{2728}\n#DigitalArt #InstaAI #Creative"
  const XTags := " \U{1F9E0} #AI #ImageGeneration"
  const LinkedInTags := "\nHarnessing AI for creativity. #AIArt #Innovation"

  /** The fixed text each platform's post puts after the caption. */
  function PostSuffix(platform: string): string {
    if platform == "YouTube" then YouTubeTags
    else if platform == "Instagram" then InstagramTags
    else if platform == "X" then XTags
    else LinkedInTags
  }

  /** One post per platform. */
  function CreateSocialPosts(caption: string): (posts: map<string, string>)
    ensures posts.Keys == Platforms
  {
    map[
      "YouTube" := "\U{1F31F} " + caption + YouTubeTags,
      "Instagram" := caption + InstagramTags,
      "X" := caption + XTags,
      "LinkedIn" := caption + LinkedInTags
    ]
  }

  /** Each post is the caption inside its platform's fixed prefix and suffix. */
  lemma PostTemplate(caption: string, platform: string)
    requires platform in Platforms
    ensures CreateSocialPosts(caption)[platform] == PostPrefix(platform) + caption + PostSuffix(platform)
  {
    if platform == "YouTube" {
      YouTubePost(caption);
    } else if platform == "Instagram" {
      InstagramPost(caption);
    } else if platform == "X" {
      XPost(caption);
    } else {
      LinkedInPost(caption);
    }
  }

  lemma YouTubePost(caption: string)
    ensures CreateSocialPosts(caption)["YouTube"] == PostPrefix("YouTube") + caption + PostSuffix("YouTube")
  {
  }

  lemma InstagramPost(caption: string)
    ensures CreateSocialPosts(caption)["Instagram"] == PostPrefix("Instagram") + caption + PostSuffix("Instagram")
  {
  }

  lemma XPost(caption: string)
    ensures CreateSocialPosts(caption)["X"] == PostPrefix("X") + caption + PostSuffix("X")
  {
  }

  lemma LinkedInPost(caption: string)
    ensures CreateSocialPosts(caption)["LinkedIn"] == PostPrefix("LinkedIn") + caption + PostSuffix("LinkedIn")
  {
  }

  /** Reads the caption back out of a platform's post: the inverse of that platform's template. */
  function CaptionOfPost(platform: string, post: string): Option<string>
  {
    var pre, suf := PostPrefix(platform), PostSuffix(platform);
    if |pre| + |suf| <= |post| && post[..|pre|] == pre && post[|post| - |suf|..] == suf
    then Some(post[|pre|..|post| - |suf|])
    else None
  }

  /** Every post gives back the caption it was built from, so the four posts determine it. */
  lemma PostsRecoverCaption(caption: string, platform: string)
    requires platform in Platforms
    ensures platform in CreateSocialPosts(caption)
    ensures CaptionOfPost(platform, CreateSocialPosts(caption)[platform]) == Some(caption)
  {
    var post := CreateSocialPosts(caption)[platform];
    var pre, suf := PostPrefix(platform), PostSuffix(platform);
    PostTemplate(caption, platform);
    assert post[..|pre|] == pre;
    assert post[|post| - |suf|..] == suf;
    assert post[|pre|..|post| - |suf|] == caption;
  }

  // ---------------------------------------------------------------------------------------
  // seo_friendly_filename

  /** `re.sub(r'[^a-zA-Z0-9 ]', '', s)`: keeps ASCII letters, digits and the space. */
  function KeepAlnumSpace(s: string): (r: string)
    ensures forall i :: 0 <= i < |r| ==> IsAsciiAlnum(r[i]) || r[i] == ' '
  {
    if s == [] then []
    else (if IsAsciiAlnum(s[0]) || s[0] == ' ' then [s[0]] else []) + KeepAlnumSpace(s[1..])
  }

  /** The ASCII letters and digits of `s`, in order (a reference for the SEO stem's content). */
  function KeepAlnum(s: string): (r: string)
    ensures forall i :: 0 <= i < |r| ==> IsAsciiAlnum(r[i])
  {
    if s == [] then []
    else (if IsAsciiAlnum(s[0]) then [s[0]] else []) + KeepAlnum(s[1..])
  }

  /** `re.sub(r'\s+', '-', s)`: each maximal run of whitespace becomes a single '-',
      written where the run ends. */
  function Hyphenate(s: string): string
  {
    if s == [] then []
    else if IsWhitespace(s[0]) then
      (if |s| > 1 && IsWhitespace(s[1]) then [] else "-") + Hyphenate(s[1..])
    else [s[0]] + Hyphenate(s[1..])
  }

  /** The steps of `seo_friendly_filename` after `splitext`, applied to the name without its
      extension. */
  function StemOf(root: string): string
  {
    Hyphenate(Lower(Strip(KeepAlnumSpace(root))))
  }

  /** The name part of `seo_friendly_filename` (everything before ".jpg"). */
  function SeoStem(filename: string): string
  {
    StemOf(SplitextRoot(filename))
  }

  predicate IsStemChar(c: char) { IsAsciiLower(c) || IsAsciiDigit(c) || c == '-' }

  ghost predicate NoDoubleHyphen(t: string) {
    forall i, j :: 0 <= i < j < |t| && j == i + 1 ==> !(t[i] == '-' && t[j] == '-')
  }

  /** A URL-friendly name: lower-case letters, digits and single '-' between them. */
  ghost predicate IsSeoStem(t: string) {
    && (forall i :: 0 <= i < |t| ==> IsStemChar(t[i]))
    && (t != [] ==> t[0] != '-' && t[|t| - 1] != '-')
    && NoDoubleHyphen(t)
  }

  predicate LowerAlnumOrSpace(t: string) {
    forall i :: 0 <= i < |t| ==> IsAsciiLower(t[i]) || IsAsciiDigit(t[i]) || t[i] == ' '
  }

  /** `seo_friendly_filename(filename)`: the stem followed by ".jpg". */
  function SeoFriendlyFilename(filename: string): (r: string)
    ensures |r| >= 4 && r[|r| - 4..] == ".jpg"
    ensures IsSeoStem(r[..|r| - 4])
  {
    SeoStemShape(filename);
    var r := SeoStem(filename) + ".jpg";
    assert r[..|r| - 4] == SeoStem(filename);
    r
  }

  /** On text of lower-case letters, digits and spaces, hyphenation yields a well-formed stem
      once the text neither starts nor ends with a space. */
  lemma {:induction false} HyphenateShape(t: string)
    requires LowerAlnumOrSpace(t)
    ensures var h := Hyphenate(t);
      && (t == [] <==> h == [])
      && (forall i :: 0 <= i < |h| ==> IsStemChar(h[i]))
      && (t != [] ==> (h[0] == '-' <==> t[0] == ' '))
      && (t != [] ==> (h[|h| - 1] == '-' <==> t[|t| - 1] == ' '))
      && NoDoubleHyphen(h)
  {
    if t != [] {
      var rest := t[1..];
      LowerAlnumOrSpaceTail(t);
      HyphenateShape(rest);
      var hr := Hyphenate(rest);
      HyphenateStep(t);
      assert rest != [] ==> rest[|rest| - 1] == t[|t| - 1];
      if t[0] == ' ' && rest != [] && rest[0] == ' ' {
        assert Hyphenate(t) == hr;
      } else {
        var head := if t[0] == ' ' then "-" else [t[0]];
        assert Hyphenate(t) == head + hr;
        StemCharBeforeStem(head, hr);
      }
    }
  }

  /** One step of hyphenation on text whose only whitespace is the space. */
  lemma HyphenateStep(t: string)
    requires t != [] && LowerAlnumOrSpace(t)
    ensures Hyphenate(t) ==
      (if t[0] != ' ' then [t[0]] else if |t| > 1 && t[1] == ' ' then [] else "-") + Hyphenate(t[1..])
  {
    assert IsWhitespace(t[0]) <==> t[0] == ' ';
    assert |t| > 1 ==> (IsWhitespace(t[1]) <==> t[1] == ' ');
  }

  lemma LowerAlnumOrSpaceTail(t: string)
    requires t != [] && LowerAlnumOrSpace(t)
    ensures LowerAlnumOrSpace(t[1..])
  {
    var rest := t[1..];
    forall i | 0 <= i < |rest| ensures IsAsciiLower(rest[i]) || IsAsciiDigit(rest[i]) || rest[i] == ' ' {
      assert rest[i] == t[i + 1];
    }
  }

  /** One stem character put before stem characters with no double hyphen keeps both properties,
      unless it is a hyphen and the rest starts with one. */
  lemma StemCharBeforeStem(head: string, hr: string)
    requires |head| == 1 && IsStemChar(head[0])
    requires forall i :: 0 <= i < |hr| ==> IsStemChar(hr[i])
    requires NoDoubleHyphen(hr)
    requires head[0] == '-' && hr != [] ==> hr[0] != '-'
    ensures var h := head + hr;
      && (forall i :: 0 <= i < |h| ==> IsStemChar(h[i]))
      && h[0] == head[0] && h[|h| - 1] == (if hr == [] then head[0] else hr[|hr| - 1])
      && NoDoubleHyphen(h)
  {
    var h := head + hr;
    forall i, j | 0 <= i < j < |h| && j == i + 1 ensures !(h[i] == '-' && h[j] == '-') {
      if i > 0 {
        assert h[i] == hr[i - 1] && h[j] == hr[j - 1];
      } else {
        assert h[1] == hr[0];
      }
    }
  }

  /** Hyphenation only turns spaces into hyphens: with the hyphens taken out again, what is left
      is the text with its spaces taken out. */
  lemma {:induction false} HyphenateContent(t: string)
    requires LowerAlnumOrSpace(t)
    ensures DropChar(Hyphenate(t), '-') == DropChar(t, ' ')
  {
    if t != [] {
      var rest := t[1..];
      LowerAlnumOrSpaceTail(t);
      HyphenateContent(rest);
      HyphenateStep(t);
      var head := if t[0] != ' ' then [t[0]] else if |t| > 1 && t[1] == ' ' then [] else "-";
      DropCharAppend(head, Hyphenate(rest), '-');
    }
  }

  /** Text without whitespace is left as it is by hyphenation. */
  lemma {:induction false} HyphenateNoWhitespace(t: string)
    requires forall i :: 0 <= i < |t| ==> !IsWhitespace(t[i])
    ensures Hyphenate(t) == t
  {
    if t != [] {
      HyphenateNoWhitespace(t[1..]);
    }
  }

  lemma {:induction false} KeepAlnumSpaceWithoutSpaces(s: string)
    ensures DropChar(KeepAlnumSpace(s), ' ') == KeepAlnum(s)
  {
    if s != [] {
      KeepAlnumSpaceWithoutSpaces(s[1..]);
      var head := if IsAsciiAlnum(s[0]) || s[0] == ' ' then [s[0]] else [];
      DropCharAppend(head, KeepAlnumSpace(s[1..]), ' ');
    }
  }

  lemma {:induction false} KeepAlnumSpaceNoSpace(s: string)
    requires ' ' !in s
    ensures KeepAlnumSpace(s) == KeepAlnum(s)
  {
    if s != [] {
      KeepAlnumSpaceNoSpace(s[1..]);
    }
  }

  /** The filter works character by character: it distributes over concatenation. */
  lemma {:induction false} KeepAlnumSpaceAppend(a: string, b: string)
    ensures KeepAlnumSpace(a + b) == KeepAlnumSpace(a) + KeepAlnumSpace(b)
  {
    if a == [] {
      assert a + b == b;
    } else {
      assert (a + b)[0] == a[0] && (a + b)[1..] == a[1..] + b;
      KeepAlnumSpaceAppend(a[1..], b);
      var head := if IsAsciiAlnum(a[0]) || a[0] == ' ' then [a[0]] else [];
      var p, q := KeepAlnumSpace(a[1..]), KeepAlnumSpace(b);
      assert head + (p + q) == (head + p) + q;
    }
  }

  /** One character is kept exactly when it is an ASCII letter, a digit or a space. With
      KeepAlnumSpaceAppend this fixes the filter: every such character stays, in place. */
  lemma KeepAlnumSpaceOfOne(c: char)
    ensures KeepAlnumSpace([c]) == (if IsAsciiAlnum(c) || c == ' ' then [c] else [])
  {
    assert [c][1..] == [];
  }

  /** Text made only of letters, digits and spaces passes the filter unchanged. */
  lemma {:induction false} KeepAlnumSpaceKeeps(s: string)
    requires AlnumOrSpace(s)
    ensures KeepAlnumSpace(s) == s
  {
    if s != [] {
      assert AlnumOrSpace(s[1..]) by {
        forall i | 0 <= i < |s| - 1 ensures IsAsciiAlnum(s[1..][i]) || s[1..][i] == ' ' {
          assert s[1..][i] == s[i + 1];
        }
      }
      KeepAlnumSpaceKeeps(s[1..]);
    }
  }

  /** Hyphens in the name are removed by the filter like any other punctuation. */
  lemma {:induction false} KeepAlnumSpaceDropsHyphens(s: string)
    ensures KeepAlnumSpace(DropChar(s, '-')) == KeepAlnumSpace(s)
  {
    if s != [] {
      KeepAlnumSpaceDropsHyphens(s[1..]);
      var head := if s[0] == '-' then [] else [s[0]];
      assert DropChar(s, '-') == head + DropChar(s[1..], '-');
      KeepAlnumSpaceAppend(head, DropChar(s[1..], '-'));
      if s[0] != '-' {
        KeepAlnumSpaceOfOne(s[0]);
      }
    }
  }

  /** A hyphen already in the name never reaches the stem: the stem is that of the name with its
      hyphens deleted. Every hyphen of the stem therefore comes from spaces. */
  lemma StemIgnoresHyphens(root: string)
    ensures StemOf(DropChar(root, '-')) == StemOf(root)
  {
    KeepAlnumSpaceDropsHyphens(root);
  }

  /** Text without whitespace passes through hyphenation unchanged, whatever follows it. */
  lemma {:induction false} HyphenateKeepsWord(w: string, t: string)
    requires forall i :: 0 <= i < |w| ==> !IsWhitespace(w[i])
    ensures Hyphenate(w + t) == w + Hyphenate(t)
  {
    if w == [] {
      assert w + t == t;
    } else {
      assert (w + t)[0] == w[0] && (w + t)[1..] == w[1..] + t;
      HyphenateKeepsWord(w[1..], t);
      assert [w[0]] + (w[1..] + Hyphenate(t)) == w + Hyphenate(t);
    }
  }

  /** A maximal run of whitespace becomes exactly one '-'. */
  lemma {:induction false} HyphenateRun(sp: string, t: string)
    requires sp != [] && forall i :: 0 <= i < |sp| ==> IsWhitespace(sp[i])
    requires t == [] || !IsWhitespace(t[0])
    ensures Hyphenate(sp + t) == "-" + Hyphenate(t)
  {
    var s := sp + t;
    assert s[0] == sp[0] && s[1..] == sp[1..] + t;
    if |sp| == 1 {
      assert sp[1..] + t == t;
      if |s| > 1 {
        assert s[1] == t[0];
      }
    } else {
      assert s[1] == sp[1];
      HyphenateRun(sp[1..], t);
    }
  }

  /** Where hyphenation puts its hyphens: a word, a run of whitespace and the rest become the
      word, one '-', and the rest hyphenated. */
  lemma HyphenatePlacement(w: string, sp: string, t: string)
    requires forall i :: 0 <= i < |w| ==> !IsWhitespace(w[i])
    requires sp != [] && forall i :: 0 <= i < |sp| ==> IsWhitespace(sp[i])
    requires t == [] || !IsWhitespace(t[0])
    ensures Hyphenate(w + sp + t) == w + "-" + Hyphenate(t)
  {
    var u, h := sp + t, Hyphenate(t);
    HyphenateRun(sp, t);
    HyphenateKeepsWord(w, u);
    ConcatAssoc(w, sp, t);
    ConcatAssoc(w, "-", h);
  }

  /** Lower-case letters, digits and spaces, with no space at either end, pass the filter,
      `strip` and `lower` unchanged: the stem is their hyphenation. */
  lemma StemOfLowerText(v: string)
    requires LowerAlnumOrSpace(v)
    requires v != [] ==> v[0] != ' ' && v[|v| - 1] != ' '
    ensures StemOf(v) == Hyphenate(v)
  {
    assert AlnumOrSpace(v);
    KeepAlnumSpaceKeeps(v);
    if v != [] {
      AlnumIsNotWhitespace(v[0]);
      AlnumIsNotWhitespace(v[|v| - 1]);
    }
    StripEndsUntouched(v);
    LowerKeepsLower(v);
  }

  /** Text with no whitespace at either end is left as it is by `strip`. */
  lemma StripEndsUntouched(v: string)
    requires v != [] ==> !IsWhitespace(v[0]) && !IsWhitespace(v[|v| - 1])
    ensures Strip(v) == v
  {
    assert LStrip(v) == v;
    assert RStrip(v) == v;
  }

  /** Lower-case letters, digits and spaces are left as they are by `lower`. */
  lemma LowerKeepsLower(v: string)
    requires LowerAlnumOrSpace(v)
    ensures Lower(v) == v
  {
    assert forall i :: 0 <= i < |v| ==> Lower(v)[i] == LowerChar(v[i]) == v[i];
  }

  predicate LowerAlnum(w: string) {
    forall i :: 0 <= i < |w| ==> IsAsciiLower(w[i]) || IsAsciiDigit(w[i])
  }

  /** The stem, word by word: a lower-case word, a run of spaces and lower-case text that neither
      starts nor ends with a space give the word, one '-', and the stem of that text. */
  lemma StemOfWords(u: string, sp: string, v: string)
    requires u != [] && LowerAlnum(u)
    requires sp != [] && forall i :: 0 <= i < |sp| ==> sp[i] == ' '
    requires v != [] && LowerAlnumOrSpace(v) && v[0] != ' ' && v[|v| - 1] != ' '
    ensures StemOf(u + sp + v) == u + "-" + StemOf(v)
  {
    var s := u + sp + v;
    assert LowerAlnumOrSpace(s) by {
      forall i | 0 <= i < |s| ensures IsAsciiLower(s[i]) || IsAsciiDigit(s[i]) || s[i] == ' ' {
        if i < |u| {
          assert s[i] == u[i];
        } else if i < |u| + |sp| {
          assert s[i] == sp[i - |u|];
        } else {
          assert s[i] == v[i - |u| - |sp|];
        }
      }
    }
    assert s[0] == u[0] && s[|s| - 1] == v[|v| - 1];
    StemOfLowerText(s);
    StemOfLowerText(v);
    forall i | 0 <= i < |u| ensures !IsWhitespace(u[i]) {
      AlnumIsNotWhitespace(u[i]);
    }
    AlnumIsNotWhitespace(v[0]);
    HyphenatePlacement(u, sp, v);
  }

  /** A single lower-case word is its own stem. With StemOfWords this fixes the stem of any
      lower-case text: its words joined by single hyphens. */
  lemma StemOfWord(u: string)
    requires LowerAlnum(u)
    ensures StemOf(u) == u
  {
    assert LowerAlnumOrSpace(u);
    if u != [] {
      AlnumIsNotWhitespace(u[0]);
    }
    StemOfLowerText(u);
    forall i | 0 <= i < |u| ensures !IsWhitespace(u[i]) {
      AlnumIsNotWhitespace(u[i]);
    }
    HyphenateNoWhitespace(u);
  }

  /** A hyphen inside a word is deleted while the spaces after the word become one: the name
      "a-b c" gives the stem "ab-c". */
  lemma StemDropsInnerHyphen(x: string, y: string, sp: string, v: string)
    requires x != [] && LowerAlnum(x) && LowerAlnum(y)
    requires sp != [] && forall i :: 0 <= i < |sp| ==> sp[i] == ' '
    requires v != [] && LowerAlnumOrSpace(v) && v[0] != ' ' && v[|v| - 1] != ' '
    ensures StemOf(x + "-" + y + sp + v) == x + y + "-" + StemOf(v)
  {
    var rest := sp + v;
    NoHyphenInSpacedText(sp, v);
    NoHyphenInLowerAlnum(x);
    NoHyphenInLowerAlnum(y);
    var r := x + "-" + y + rest;
    DropInnerHyphen(x, y, rest);
    ConcatAssoc(x + y, sp, v);
    SameStemWithoutHyphens(r, (x + y) + sp + v);
    LowerAlnumAppend(x, y);
    StemOfWords(x + y, sp, v);
    ConcatAssoc(x + "-" + y, sp, v);
  }

  lemma ConcatAssoc(a: string, b: string, c: string)
    ensures a + b + c == a + (b + c)
  {
  }

  lemma SameStemWithoutHyphens(r: string, r': string)
    requires DropChar(r, '-') == r'
    ensures StemOf(r) == StemOf(r')
  {
    StemIgnoresHyphens(r);
  }

  lemma NoHyphenInSpacedText(sp: string, v: string)
    requires forall i :: 0 <= i < |sp| ==> sp[i] == ' '
    requires LowerAlnumOrSpace(v)
    ensures '-' !in sp + v
  {
    var rest := sp + v;
    forall i | 0 <= i < |rest| ensures rest[i] != '-' {
      if i >= |sp| {
        assert rest[i] == v[i - |sp|];
      }
    }
  }

  lemma NoHyphenInLowerAlnum(x: string)
    requires LowerAlnum(x)
    ensures '-' !in x
  {
    forall i | 0 <= i < |x| ensures x[i] != '-' { }
  }

  lemma LowerAlnumAppend(x: string, y: string)
    requires LowerAlnum(x) && LowerAlnum(y)
    ensures LowerAlnum(x + y)
  {
    forall i | 0 <= i < |x + y| ensures IsAsciiLower((x + y)[i]) || IsAsciiDigit((x + y)[i]) {
      if i >= |x| {
        assert (x + y)[i] == y[i - |x|];
      }
    }
  }

  /** Deleting the hyphens of text with one hyphen puts the two sides together. */
  lemma DropInnerHyphen(x: string, y: string, rest: string)
    requires '-' !in x && '-' !in y && '-' !in rest
    ensures DropChar(x + "-" + y + rest, '-') == x + y + rest
  {
    DropHyphenAfter(x);
    DropAppendClean(x + "-", y);
    DropAppendClean(x + "-" + y, rest);
  }

  lemma DropHyphenAfter(x: string)
    requires '-' !in x
    ensures DropChar(x + "-", '-') == x
  {
    DropCharAppend(x, "-", '-');
    DropCharNone(x, '-');
    assert DropChar("-", '-') == [];
  }

  lemma DropAppendClean(a: string, y: string)
    requires '-' !in y
    ensures DropChar(a + y, '-') == DropChar(a, '-') + y
  {
    DropCharAppend(a, y, '-');
    DropCharNone(y, '-');
  }

  lemma {:induction false} LowerDropSpace(s: string)
    ensures DropChar(Lower(s), ' ') == Lower(DropChar(s, ' '))
  {
    if s != [] {
      LowerDropSpace(s[1..]);
      assert LowerChar(s[0]) == ' ' <==> s[0] == ' ';
      var head := if s[0] == ' ' then [] else [s[0]];
      assert DropChar(s, ' ') == head + DropChar(s[1..], ' ');
      LowerAppend(head, DropChar(s[1..], ' '));
    }
  }

  lemma {:induction false} LowerAppend(a: string, b: string)
    ensures Lower(a + b) == Lower(a) + Lower(b)
  {
  }

  lemma AlnumIsNotWhitespace(c: char)
    requires IsAsciiAlnum(c)
    ensures !IsWhitespace(c)
  {
  }

  /** The only whitespace among letters, digits and spaces is the space. */
  lemma OnlySpaceIsWhitespace(c: char)
    requires IsAsciiAlnum(c) || c == ' '
    requires IsWhitespace(c)
    ensures c == ' '
  {
    if IsAsciiAlnum(c) {
      AlnumIsNotWhitespace(c);
    }
  }

  /** With only spaces as whitespace, stripping changes nothing but spaces. */
  lemma StripKeepsNonSpaces(k: string)
    requires AlnumOrSpace(k)
    ensures DropChar(Strip(k), ' ') == DropChar(k, ' ')
  {
    StripRemovesOnlyWhitespace(k);
    var a := |k| - |LStrip(k)|;
    var r := Strip(k);
    var pre, post := k[..a], k[a + |r|..];
    forall m | 0 <= m < |pre| ensures pre[m] == ' ' {
      OnlySpaceIsWhitespace(k[m]);
    }
    forall m | 0 <= m < |post| ensures post[m] == ' ' {
      OnlySpaceIsWhitespace(k[a + |r| + m]);
    }
    DropPadding(k, pre, r, post);
  }

  /** Deleting spaces from text padded with spaces gives the same as from the text alone. */
  lemma DropPadding(k: string, pre: string, mid: string, post: string)
    requires k == pre + mid + post
    requires forall m :: 0 <= m < |pre| ==> pre[m] == ' '
    requires forall m :: 0 <= m < |post| ==> post[m] == ' '
    ensures DropChar(k, ' ') == DropChar(mid, ' ')
  {
    DropCharAppend(pre + mid, post, ' ');
    DropCharAll(post, ' ');
    DropCharAppend(pre, mid, ' ');
    DropCharAll(pre, ' ');
    assert [] + DropChar(mid, ' ') + [] == DropChar(mid, ' ');
  }

  predicate AlnumOrSpace(t: string) {
    forall i :: 0 <= i < |t| ==> IsAsciiAlnum(t[i]) || t[i] == ' '
  }

  /** Stripping text of letters, digits and spaces leaves such text, with no space at either end. */
  lemma StripAlnumOrSpace(k: string)
    requires AlnumOrSpace(k)
    ensures AlnumOrSpace(Strip(k))
    ensures Strip(k) != [] ==> Strip(k)[0] != ' ' && Strip(k)[|Strip(k)| - 1] != ' '
  {
    var st := Strip(k);
    var a := |k| - |LStrip(k)|;
    forall i | 0 <= i < |st| ensures IsAsciiAlnum(st[i]) || st[i] == ' ' {
      assert st[i] == k[a + i];
    }
  }

  /** Lower-casing such text leaves lower-case letters, digits and spaces, in the same places. */
  lemma LowerAlnumOrSpaceText(st: string)
    requires AlnumOrSpace(st)
    ensures LowerAlnumOrSpace(Lower(st))
    ensures forall i :: 0 <= i < |st| ==> (Lower(st)[i] == ' ' <==> st[i] == ' ')
  {
  }

  /** What the stem is made of, for any name without its extension. */
  lemma StemShapeOf(root: string)
    ensures IsSeoStem(StemOf(root))
  {
    var k := KeepAlnumSpace(root);
    StripAlnumOrSpace(k);
    var st := Strip(k);
    LowerAlnumOrSpaceText(st);
    var lo := Lower(st);
    assert |lo| == |st|;
    StemOfTrimmedText(lo);
    assert StemOf(root) == Hyphenate(lo);
  }

  /** Lower-case text with no space at either end hyphenates to a well-formed stem. */
  lemma StemOfTrimmedText(lo: string)
    requires LowerAlnumOrSpace(lo)
    requires lo != [] ==> lo[0] != ' ' && lo[|lo| - 1] != ' '
    ensures IsSeoStem(Hyphenate(lo))
  {
    HyphenateShape(lo);
  }

  /** The stem is built from lower-case letters, digits and single inner hyphens. */
  lemma SeoStemShape(filename: string)
    ensures IsSeoStem(SeoStem(filename))
  {
    StemShapeOf(SplitextRoot(filename));
  }

  lemma StemContentOf(root: string)
    ensures DropChar(StemOf(root), '-') == Lower(KeepAlnum(root))
  {
    var k := KeepAlnumSpace(root);
    StripAlnumOrSpace(k);
    var st := Strip(k);
    LowerAlnumOrSpaceText(st);
    HyphenateContent(Lower(st));
    LowerDropSpace(st);
    StripKeepsNonSpaces(k);
    KeepAlnumSpaceWithoutSpaces(root);
  }

  /** The stem's letters and digits are exactly those of the name without its extension,
      lower-cased and in order. Where its hyphens go is stated by StemIgnoresHyphens and
      StemOfWords. */
  lemma SeoStemContent(filename: string)
    ensures DropChar(SeoStem(filename), '-') == Lower(KeepAlnum(SplitextRoot(filename)))
  {
    StemContentOf(SplitextRoot(filename));
  }

  /** Text without whitespace is left as it is by `strip`. */
  lemma StripNoWhitespace(k: string)
    requires forall i :: 0 <= i < |k| ==> !IsWhitespace(k[i])
    ensures Strip(k) == k
  {
    assert LStrip(k) == k;
    assert RStrip(k) == k;
  }

  lemma LowerAlnumNoHyphen(k: string)
    requires forall i :: 0 <= i < |k| ==> IsAsciiAlnum(k[i])
    ensures forall i :: 0 <= i < |Lower(k)| ==> IsAsciiAlnum(Lower(k)[i])
    ensures '-' !in Lower(k)
  {
    var lo := Lower(k);
    forall i | 0 <= i < |lo| ensures IsAsciiAlnum(lo[i]) {
      assert lo[i] == LowerChar(k[i]);
    }
  }

  /** A name without spaces gets no hyphens at all: its stem is its letters and digits, lower-cased. */
  lemma SeoStemWithoutSpaces(filename: string)
    requires ' ' !in SplitextRoot(filename)
    ensures SeoStem(filename) == Lower(KeepAlnum(SplitextRoot(filename)))
    ensures '-' !in SeoStem(filename)
  {
    var root := SplitextRoot(filename);
    KeepAlnumSpaceNoSpace(root);
    var k := KeepAlnum(root);
    forall i | 0 <= i < |k| ensures !IsWhitespace(k[i]) {
      AlnumIsNotWhitespace(k[i]);
    }
    StripNoWhitespace(k);
    var lo := Lower(k);
    LowerAlnumNoHyphen(k);
    forall i | 0 <= i < |lo| ensures !IsWhitespace(lo[i]) {
      AlnumIsNotWhitespace(lo[i]);
    }
    HyphenateNoWhitespace(lo);
    assert SeoStem(filename) == Hyphenate(lo);
  }

  // ---------------------------------------------------------------------------------------
  // keywords of generate_seo_data

  /** The longest prefix of `s` made of word characters. */
  function LeadingWord(s: string): (w: string)
    ensures w <= s && AllWordChars(w)
    ensures |w| == |s| || !IsWordChar(s[|w|])
  {
    if s == [] || !IsWordChar(s[0]) then [] else [s[0]] + LeadingWord(s[1..])
  }

  /** `re.findall(r'\b\w+\b', s)`: the maximal runs of word characters, left to right. */
  function WordRuns(s: string): (ws: seq<string>)
    ensures forall i :: 0 <= i < |ws| ==> ws[i] != [] && AllWordChars(ws[i])
    ensures forall i, j :: 0 <= i < |ws| && 0 <= j < |ws[i]| ==> ws[i][j] in s
    decreases |s|
  {
    if s == [] then []
    else if !IsWordChar(s[0]) then WordRuns(s[1..])
    else
      var w := LeadingWord(s);
      var rest := WordRuns(s[|w|..]);
      assert forall j :: 0 <= j < |w| ==> w[j] == s[j];
      assert forall c :: c in s[|w|..] ==> c in s;
      [w] + rest
  }

  /** Runs never extend across a non-word character. */
  lemma {:induction false} LeadingWordStops(a: string, c: char, b: string)
    requires !IsWordChar(c)
    ensures LeadingWord(a + [c] + b) == LeadingWord(a)
  {
    if a == [] {
      assert (a + [c] + b)[0] == c;
    } else if IsWordChar(a[0]) {
      assert (a + [c] + b)[1..] == a[1..] + [c] + b;
      LeadingWordStops(a[1..], c, b);
    }
  }

  /** A non-word character splits the runs: the runs of the two sides, side by side. */
  lemma {:induction false} WordRunsSplit(a: string, c: char, b: string)
    requires !IsWordChar(c)
    ensures WordRuns(a + [c] + b) == WordRuns(a) + WordRuns(b)
    decreases |a|, 1
  {
    var s := a + [c] + b;
    if a == [] {
      assert s[1..] == b;
    } else if !IsWordChar(a[0]) {
      assert s[1..] == a[1..] + [c] + b;
      WordRunsSplit(a[1..], c, b);
    } else {
      WordRunsSplitWord(a, c, b);
    }
  }

  /** The case of WordRunsSplit where `a` starts with a run. */
  lemma {:induction false} WordRunsSplitWord(a: string, c: char, b: string)
    requires !IsWordChar(c) && a != [] && IsWordChar(a[0])
    ensures WordRuns(a + [c] + b) == WordRuns(a) + WordRuns(b)
    decreases |a|, 0
  {
    var s := a + [c] + b;
    LeadingWordStops(a, c, b);
    var w := LeadingWord(a);
    assert s[0] == a[0];
    WordRunsCons(s);
    WordRunsCons(a);
    TailOfSplit(a, c, b, |w|);
    WordRunsSplit(a[|w|..], c, b);
    ConsAppend(w, WordRuns(a[|w|..]), WordRuns(b));
  }

  lemma TailOfSplit(a: string, c: char, b: string, n: nat)
    requires n <= |a|
    ensures (a + [c] + b)[n..] == a[n..] + [c] + b
  {
  }

  lemma ConsAppend(w: string, x: seq<string>, y: seq<string>)
    ensures [w] + (x + y) == ([w] + x) + y
  {
  }

  lemma WordRunsCons(s: string)
    requires s != [] && IsWordChar(s[0])
    ensures LeadingWord(s) != []
    ensures WordRuns(s) == [LeadingWord(s)] + WordRuns(s[|LeadingWord(s)|..])
  {
  }

  lemma {:induction false} LeadingWordOfWord(w: string)
    requires AllWordChars(w)
    ensures LeadingWord(w) == w
  {
    if w != [] {
      LeadingWordOfWord(w[1..]);
    }
  }

  /** A run of word characters is one run. */
  lemma WordRunsOfWord(w: string)
    requires w != [] && AllWordChars(w)
    ensures WordRuns(w) == [w]
  {
    LeadingWordOfWord(w);
    assert w[|w|..] == [];
  }

  /** The words of length at least four, in order: the `{4,}` of the keyword pattern. */
  function LongWords(ws: seq<string>): seq<string>
  {
    if ws == [] then [] else (if |ws[0]| >= 4 then [ws[0]] else []) + LongWords(ws[1..])
  }

  /** The long words are exactly the words of length at least four. */
  lemma {:induction false} LongWordsKept(ws: seq<string>)
    ensures var ks := LongWords(ws);
      && (forall i :: 0 <= i < |ks| ==> |ks[i]| >= 4 && ks[i] in ws)
      && (forall w :: w in ws && |w| >= 4 ==> w in ks)
  {
    if ws != [] {
      LongWordsKept(ws[1..]);
      var ks := LongWords(ws);
      var head := if |ws[0]| >= 4 then [ws[0]] else [];
      assert ks == head + LongWords(ws[1..]);
      forall w | w in ws && |w| >= 4 ensures w in ks {
        if w != ws[0] {
          assert w in ws[1..];
        }
      }
    }
  }

  /** Each long word is kept as often as it occurs: `findall` returns every match, repeats
      included, and drops every short one. */
  lemma {:induction false} LongWordsCount(ws: seq<string>)
    ensures forall w :: multiset(LongWords(ws))[w] == if |w| >= 4 then multiset(ws)[w] else 0
  {
    if ws != [] {
      LongWordsCount(ws[1..]);
      var head := if |ws[0]| >= 4 then [ws[0]] else [];
      assert LongWords(ws) == head + LongWords(ws[1..]);
      assert ws == [ws[0]] + ws[1..];
      assert multiset(LongWords(ws)) == multiset(head) + multiset(LongWords(ws[1..]));
      assert multiset(ws) == multiset([ws[0]]) + multiset(ws[1..]);
    }
  }

  predicate IsLowerWordChar(c: char) { IsAsciiLower(c) || IsAsciiDigit(c) || c == '_' }

  /** `re.findall(r'\b\w{4,}\b', alt_text.lower())`. */
  function KeywordList(altText: string): (ks: seq<string>)
    ensures forall i :: 0 <= i < |ks| ==> |ks[i]| >= 4
    ensures forall i, j :: 0 <= i < |ks| && 0 <= j < |ks[i]| ==> IsLowerWordChar(ks[i][j])
  {
    var lo := Lower(altText);
    var runs := WordRuns(lo);
    var ks := LongWords(runs);
    LongWordsKept(runs);
    assert forall i, j :: 0 <= i < |ks| && 0 <= j < |ks[i]| ==> IsLowerWordChar(ks[i][j]) by {
      forall i, j | 0 <= i < |ks| && 0 <= j < |ks[i]| ensures IsLowerWordChar(ks[i][j]) {
        var w := ks[i];
        assert w in runs;
        var m :| 0 <= m < |runs| && runs[m] == w;
        assert w[j] in lo && IsWordChar(w[j]);
        var n :| 0 <= n < |lo| && lo[n] == w[j];
        assert lo[n] == LowerChar(altText[n]);
      }
    }
    ks
  }

  lemma {:induction false} LongWordsAppend(x: seq<string>, y: seq<string>)
    ensures LongWords(x + y) == LongWords(x) + LongWords(y)
  {
    if x != [] {
      assert (x + y)[0] == x[0] && (x + y)[1..] == x[1..] + y;
      LongWordsAppend(x[1..], y);
      var head := if |x[0]| >= 4 then [x[0]] else [];
      var p, q := LongWords(x[1..]), LongWords(y);
      assert head + (p + q) == (head + p) + q;
    } else {
      assert x + y == y;
    }
  }

  /** A single word is kept exactly when it has at least four characters. With LongWordsAppend
      this pins LongWords down as the filter that keeps order and repeats. */
  lemma LongWordsOfOne(w: string)
    ensures LongWords([w]) == (if |w| >= 4 then [w] else [])
  {
    assert [w][1..] == [];
  }

  /** A character that is not a word character stays one under `lower`. */
  lemma LowerKeepsNonWord(c: char)
    requires !IsWordChar(c)
    ensures LowerChar(c) == c
  {
  }

  /** Keywords never span a non-word character: the keywords of the two sides, in order. */
  lemma KeywordListSplit(a: string, c: char, b: string)
    requires !IsWordChar(c)
    ensures KeywordList(a + [c] + b) == KeywordList(a) + KeywordList(b)
  {
    LowerAppend(a + [c], b);
    LowerAppend(a, [c]);
    LowerKeepsNonWord(c);
    assert Lower([c]) == [c];
    WordRunsSplit(Lower(a), c, Lower(b));
    LongWordsAppend(WordRuns(Lower(a)), WordRuns(Lower(b)));
  }

  /** A single lower-case word is a keyword exactly when it has at least four characters. */
  lemma KeywordListOfWord(w: string)
    requires w != [] && forall i :: 0 <= i < |w| ==> IsLowerWordChar(w[i])
    ensures KeywordList(w) == (if |w| >= 4 then [w] else [])
  {
    assert Lower(w) == w;
    WordRunsOfWord(w);
    assert LongWords([w]) == (if |w| >= 4 then [w] else []) + LongWords([]);
  }

  /** A single word in any case: it is one keyword, lower-cased, exactly when it has at least
      four characters. */
  lemma KeywordListOfAnyWord(w: string)
    requires w != [] && AllWordChars(w)
    ensures KeywordList(w) == (if |w| >= 4 then [Lower(w)] else [])
  {
    var lo := Lower(w);
    assert AllWordChars(lo) by {
      forall i | 0 <= i < |lo| ensures IsWordChar(lo[i]) {
        assert lo[i] == LowerChar(w[i]);
      }
    }
    WordRunsOfWord(lo);
    LongWordsOfOne(lo);
  }

  /** The `keywords` value: the keyword list joined by ", ". */
  function Keywords(altText: string): string
  {
    Join(KeywordList(altText), ", ")
  }

  // ---------------------------------------------------------------------------------------
  // generate_seo_data

  const SeoKeys: set<string> := {"seo_filename", "html_tag", "fig_tag", "open_graph",
                                 "meta_description", "keywords", "schema_ld", "responsive_html"}

  const ImageBaseUrl := "https://yourdomain.com/images/"

  function HtmlTag(seoFilename: string, altText: string): string {
    "<img src=\"" + seoFilename + "\" alt=\"" + altText + "\" title=\"" + altText + "\">"
  }

  function FigTag(seoFilename: string, altText: string): string {
    "<figure><img src=\"" + seoFilename + "\" alt=\"" + altText + "\" title=\"" + altText
    + "\"><figcaption>" + altText + "</figcaption></figure>"
  }

  function OpenGraph(baseUrl: string, altText: string): string {
    "<meta property=\"og:image\" content=\"" + baseUrl + "\" />\n"
    + "<meta property=\"og:image:alt\" content=\"" + altText + "\" />\n"
    + "<meta name=\"twitter:card\" content=\"summary_large_image\" />\n"
    + "<meta name=\"twitter:title\" content=\"" + altText + "\" />\n"
    + "<meta name=\"twitter:description\" content=\"" + altText + "\" />\n"
    + "<meta name=\"twitter:image\" content=\"" + baseUrl + "\" />"
  }

  function MetaDescription(altText: string): string {
    "<meta name=\"description\" content=\"" + altText + "\">"
  }

  function MetaKeywords(keywords: string): string {
    "<meta name=\"keywords\" content=\"" + keywords + "\">"
  }

  const SchemaLdHead := "<script type=\"application/ld+json\">{\"@context\":\"https://schema.org\","
                        + "\"@type\":\"ImageObject\",\"contentUrl\":\""

  function SchemaLd(baseUrl: string, altText: string): string {
    SchemaLdHead + baseUrl + "\",\"description\":\"" + altText + "\",\"name\":\"" + altText
    + "\",\"fileFormat\":\"image/jpeg\"}</script>"
  }

  const PictureHead := "<picture><source media=\"(min-width: 800px)\" srcset=\""

  function ResponsiveHtml(seoFilename: string, baseUrl: string, altText: string): string {
    PictureHead + baseUrl + "\"><img src=\"" + seoFilename + "\" alt=\"" + altText + "\" title=\"" + altText
    + "\" style=\"width:100%;\"></picture>"
  }

  /** The dictionary `generate_seo_data` returns, from its three computed parts. */
  function SeoTags(seoFilename: string, altText: string, keywords: string): (seo: map<string, string>)
    ensures seo.Keys == SeoKeys
    ensures seo["seo_filename"] == seoFilename
    ensures seo["keywords"] == MetaKeywords(keywords)
    ensures var baseUrl := ImageBaseUrl + seoFilename;
      && seo["html_tag"] == HtmlTag(seoFilename, altText)
      && seo["fig_tag"] == FigTag(seoFilename, altText)
      && seo["open_graph"] == OpenGraph(baseUrl, altText)
      && seo["meta_description"] == MetaDescription(altText)
      && seo["schema_ld"] == SchemaLd(baseUrl, altText)
      && seo["responsive_html"] == ResponsiveHtml(seoFilename, baseUrl, altText)
  {
    var baseUrl := ImageBaseUrl + seoFilename;
    map[
      "seo_filename" := seoFilename,
      "html_tag" := HtmlTag(seoFilename, altText),
      "fig_tag" := FigTag(seoFilename, altText),
      "open_graph" := OpenGraph(baseUrl, altText),
      "meta_description" := MetaDescription(altText),
      "keywords" := MetaKeywords(keywords),
      "schema_ld" := SchemaLd(baseUrl, altText),
      "responsive_html" := ResponsiveHtml(seoFilename, baseUrl, altText)
    ]
  }

  /** `generate_seo_data(filename, alt_text)`: eight ready-made tags for the image. */
  function GenerateSeoData(filename: string, altText: string): map<string, string> {
    SeoTags(SeoFriendlyFilename(filename), altText, Keywords(altText))
  }

  lemma SeoDataFields(filename: string, altText: string)
    ensures var seo := GenerateSeoData(filename, altText);
      && seo.Keys == SeoKeys
      && seo["seo_filename"] == SeoFriendlyFilename(filename)
      && seo["keywords"] == MetaKeywords(Keywords(altText))
  {
  }

  /** `needle` appears somewhere in `hay`. */
  predicate Occurs(needle: string, hay: string) {
    exists i :: 0 <= i <= |hay| - |needle| && hay[i..][..|needle|] == needle
  }

  lemma OccursBetween(a: string, needle: string, b: string)
    ensures Occurs(needle, a + needle + b)
  {
    var h := a + needle + b;
    assert h[|a|..][..|needle|] == needle;
  }

  lemma HtmlTagMentions(fn: string, alt: string)
    ensures Occurs(fn, HtmlTag(fn, alt)) && Occurs(alt, HtmlTag(fn, alt))
  {
    var rest := "\" alt=\"" + alt + "\" title=\"" + alt + "\">";
    assert HtmlTag(fn, alt) == "<img src=\"" + fn + rest;
    OccursBetween("<img src=\"", fn, rest);
    var rest2 := "\" title=\"" + alt + "\">";
    assert HtmlTag(fn, alt) == ("<img src=\"" + fn + "\" alt=\"") + alt + rest2;
    OccursBetween("<img src=\"" + fn + "\" alt=\"", alt, rest2);
  }

  lemma FigTagMentions(fn: string, alt: string)
    ensures Occurs(fn, FigTag(fn, alt))
  {
    var rest := "\" alt=\"" + alt + "\" title=\"" + alt + "\"><figcaption>" + alt + "</figcaption></figure>";
    assert FigTag(fn, alt) == "<figure><img src=\"" + fn + rest;
    OccursBetween("<figure><img src=\"", fn, rest);
  }

  lemma OpenGraphMentions(url: string, alt: string)
    ensures Occurs(url, OpenGraph(url, alt))
  {
    var og := OpenGraph(url, alt);
    var head := "<meta property=\"og:image\" content=\"";
    var rest := og[|head| + |url|..];
    assert og == head + url + rest;
    OccursBetween(head, url, rest);
  }

  lemma MetaDescriptionMentions(alt: string)
    ensures Occurs(alt, MetaDescription(alt))
  {
    OccursBetween("<meta name=\"description\" content=\"", alt, "\">");
  }

  lemma SchemaLdMentions(url: string, alt: string)
    ensures Occurs(url, SchemaLd(url, alt))
  {
    var ld := SchemaLd(url, alt);
    var rest := ld[|SchemaLdHead| + |url|..];
    assert ld == SchemaLdHead + url + rest;
    OccursBetween(SchemaLdHead, url, rest);
  }

  lemma ResponsiveHtmlMentions(fn: string, url: string, alt: string)
    ensures Occurs(url, ResponsiveHtml(fn, url, alt)) && Occurs(fn, ResponsiveHtml(fn, url, alt))
  {
    var pic := ResponsiveHtml(fn, url, alt);
    var rest := pic[|PictureHead| + |url|..];
    assert pic == PictureHead + url + rest;
    OccursBetween(PictureHead, url, rest);
    var head2 := PictureHead + url + "\"><img src=\"";
    var rest2 := pic[|head2| + |fn|..];
    assert pic == head2 + fn + rest2;
    OccursBetween(head2, fn, rest2);
  }

  /** Every tag points at the image through its SEO file name (the image tags) or through
      ImageBaseUrl followed by it (the Open Graph, JSON-LD and picture tags); the alt text goes in verbatim. */
  lemma SeoTagsUseFilename(filename: string, altText: string)
    ensures var seo := GenerateSeoData(filename, altText);
      var fn := SeoFriendlyFilename(filename);
      && Occurs(fn, seo["html_tag"]) && Occurs(fn, seo["fig_tag"]) && Occurs(fn, seo["responsive_html"])
      && Occurs(ImageBaseUrl + fn, seo["open_graph"]) && Occurs(ImageBaseUrl + fn, seo["schema_ld"])
      && Occurs(ImageBaseUrl + fn, seo["responsive_html"])
      && Occurs(altText, seo["meta_description"]) && Occurs(altText, seo["html_tag"])
  {
    var fn := SeoFriendlyFilename(filename);
    var url := ImageBaseUrl + fn;
    HtmlTagMentions(fn, altText);
    FigTagMentions(fn, altText);
    OpenGraphMentions(url, altText);
    MetaDescriptionMentions(altText);
    SchemaLdMentions(url, altText);
    ResponsiveHtmlMentions(fn, url, altText);
  }

  // ---------------------------------------------------------------------------------------
  // Routes

  /** What a route answers: `jsonify(...)` of the body, with status 400 for BadRequest. */
  datatype Reply =
    | BadRequest(error: string)
    | ImageBody(image: string)
    | CaptionBody(caption: string, posts: map<string, string>)
    | SeoBody(seo: map<string, string>)

  function StatusCode(r: Reply): int {
    if r.BadRequest? then 400 else 200
  }

  /** POST /generate-image with JSON body `json`; `generate` stands for the diffusion model
      together with the PNG and base64 encoding of its picture. */
  function GenerateImageRoute(json: map<string, string>, generate: string -> string): (r: Reply)
    ensures StatusCode(r) == 400 <==> "prompt" !in json || json["prompt"] == ""
    ensures r.BadRequest? ==> r.error == "No prompt provided"
    ensures !r.BadRequest? ==> r == ImageBody(generate(json["prompt"]))
  {
    var prompt := if "prompt" in json then json["prompt"] else "";
    if prompt == "" then BadRequest("No prompt provided")
    else ImageBody(generate(prompt))
  }

  /** POST /caption-image with uploaded `files`; `describe` stands for the captioning model. */
  function CaptionImageRoute(files: map<string, File>, describe: File -> string): (r: Reply)
    ensures StatusCode(r) == 400 <==> "image" !in files
    ensures r.BadRequest? ==> r.error == "No image uploaded"
    ensures !r.BadRequest? ==> r.CaptionBody? && r.caption == describe(files["image"])
    ensures r.CaptionBody? ==> r.posts == CreateSocialPosts(r.caption)
  {
    if "image" !in files then BadRequest("No image uploaded")
    else
      var caption := describe(files["image"]);
      CaptionBody(caption, CreateSocialPosts(caption))
  }

  /** POST /generate-seo with uploaded `files` and text fields `form`. */
  function GenerateSeoRoute(files: map<string, File>, form: map<string, string>): Reply {
    if "image" !in files || "alt_text" !in form then BadRequest("Image file and alt text required")
    else SeoBody(GenerateSeoData(files["image"].name, form["alt_text"]))
  }

  lemma SeoRouteReplies(files: map<string, File>, form: map<string, string>)
    ensures var r := GenerateSeoRoute(files, form);
      && (StatusCode(r) == 400 <==> "image" !in files || "alt_text" !in form)
      && (r.BadRequest? ==> r.error == "Image file and alt text required")
      && (!r.BadRequest? ==> r == SeoBody(GenerateSeoData(files["image"].name, form["alt_text"])))
  {
  }
}
