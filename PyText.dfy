/** The parts of Python's string library that the backend's string builders use:
    character classes, `str.lower`, `str.strip`, `str.rfind`, `str.join` and
    `os.path.splitext` on POSIX paths. */
module PyText {

  /** `str.isspace()`, which is also the set of characters `\s` matches in a `str` pattern. */
  predicate IsWhitespace(c: char) {
    ('\t' <= c <= '\r') || ('\U{1C}' <= c <= ' ') || c == '\U{85}' || c == '\U{A0}'
    || c == '\U{1680}' || ('\U{2000}' <= c <= '\U{200A}') || c == '\U{2028}' || c == '\U{2029}'
    || c == '\U{202F}' || c == '\U{205F}' || c == '\U{3000}'
  }

  predicate IsAsciiUpper(c: char) { 'A' <= c <= 'Z' }
  predicate IsAsciiLower(c: char) { 'a' <= c <= 'z' }
  predicate IsAsciiDigit(c: char) { '0' <= c <= '9' }
  predicate IsAsciiAlnum(c: char) { IsAsciiUpper(c) || IsAsciiLower(c) || IsAsciiDigit(c) }

  /** `\w`, restricted to ASCII. */
  predicate IsWordChar(c: char) { IsAsciiAlnum(c) || c == '_' }

  predicate AllWordChars(w: string) {
    forall i :: 0 <= i < |w| ==> IsWordChar(w[i])
  }

  /** `str.lower()` on one character, restricted to ASCII: other characters are left as they are. */
  function LowerChar(c: char): (d: char)
    ensures IsAsciiUpper(c) ==> IsAsciiLower(d) && d as int - c as int == 'a' as int - 'A' as int
    ensures !IsAsciiUpper(c) ==> d == c
  {
    if IsAsciiUpper(c) then (c as int + ('a' as int - 'A' as int)) as char else c
  }

  /** `s.lower()`, character by character. */
  function Lower(s: string): (r: string)
    ensures |r| == |s|
    ensures forall i :: 0 <= i < |s| ==> r[i] == LowerChar(s[i])
  {
    if s == [] then [] else [LowerChar(s[0])] + Lower(s[1..])
  }

  /** Leading whitespace removed: what `s.lstrip()` returns. */
  function LStrip(s: string): (r: string)
    ensures |r| <= |s| && r == s[|s| - |r|..]
    ensures forall i :: 0 <= i < |s| - |r| ==> IsWhitespace(s[i])
    ensures r == [] || !IsWhitespace(r[0])
  {
    if s != [] && IsWhitespace(s[0]) then LStrip(s[1..]) else s
  }

  /** Trailing whitespace removed: what `s.rstrip()` returns. */
  function RStrip(s: string): (r: string)
    ensures |r| <= |s| && r == s[..|r|]
    ensures forall i :: |r| <= i < |s| ==> IsWhitespace(s[i])
    ensures r == [] || !IsWhitespace(r[|r| - 1])
  {
    if s != [] && IsWhitespace(s[|s| - 1]) then RStrip(s[..|s| - 1]) else s
  }

  /** `s.strip()`: what is left of `s` once leading and trailing whitespace are removed. */
  function Strip(s: string): (r: string)
    ensures r == [] || (!IsWhitespace(r[0]) && !IsWhitespace(r[|r| - 1]))
    ensures |s| - |LStrip(s)| + |r| <= |s|
    ensures r == s[|s| - |LStrip(s)|..][..|r|]
  {
    RStrip(LStrip(s))
  }

  /** Only whitespace is removed by `strip`: `s` is Strip(s) with whitespace around it. */
  lemma StripRemovesOnlyWhitespace(s: string)
    ensures var a := |s| - |LStrip(s)|; var r := Strip(s);
      && s == s[..a] + r + s[a + |r|..]
      && (forall i :: 0 <= i < a ==> IsWhitespace(s[i]))
      && (forall i :: a + |r| <= i < |s| ==> IsWhitespace(s[i]))
  {
    var l := LStrip(s);
    var a := |s| - |l|;
    var r := RStrip(l);
    assert l == s[a..];
    assert r == l[..|r|];
    forall i | a + |r| <= i < |s| ensures IsWhitespace(s[i]) {
      assert s[i] == l[i - a];
    }
    assert r == s[a..a + |r|];
    SplitAround(s, a, a + |r|);
  }

  lemma SplitAround(s: string, i: int, j: int)
    requires 0 <= i <= j <= |s|
    ensures s == s[..i] + s[i..j] + s[j..]
  {
  }

  /** `s.rfind(c)`: the index of the last `c` in `s`, or -1 when there is none. */
  function RFind(s: string, c: char): (i: int)
    ensures -1 <= i < |s|
    ensures 0 <= i ==> s[i] == c
    ensures forall k :: i < k < |s| ==> s[k] != c
    ensures i == -1 <==> c !in s
  {
    if s == [] then -1
    else if s[|s| - 1] == c then |s| - 1
    else
      var i := RFind(s[..|s| - 1], c);
      assert forall k :: i < k < |s| - 1 ==> s[k] == s[..|s| - 1][k];
      i
  }

  /** `os.path.splitext(p)[0]` with POSIX separators: everything before the last '.' of the
      last path component, unless every character of that component before the dot is a '.'
      (so ".bashrc" has no extension). */
  function SplitextRoot(p: string): (root: string)
    ensures root <= p
    ensures |root| < |p| ==> p[|root|] == '.'
    ensures |root| < |p| ==> forall k :: |root| < k < |p| ==> p[k] != '.' && p[k] != '/'
    ensures |root| < |p| ==> exists k :: 0 <= k < |root| && root[k] != '.' && '/' !in root[k..]
  {
    var sepIndex := RFind(p, '/');
    var dotIndex := RFind(p, '.');
    if sepIndex < dotIndex && exists k :: sepIndex < k < dotIndex && p[k] != '.' then
      var k :| sepIndex < k < dotIndex && p[k] != '.';
      assert '/' !in p[..dotIndex][k..] by {
        forall m | k <= m < dotIndex ensures p[m] != '/' { }
      }
      p[..dotIndex]
    else
      p
  }

  /** A name without '/' whose part before its last '.' holds a character other than '.':
      `splitext` drops the dot and everything after it. */
  lemma ExtensionDropped(stem: string, ext: string)
    requires '/' !in stem && '.' !in ext && '/' !in ext
    requires exists k :: 0 <= k < |stem| && stem[k] != '.'
    ensures SplitextRoot(stem + "." + ext) == stem
  {
    var p := stem + "." + ext;
    assert p[|stem|] == '.';
    assert forall k :: |stem| < k < |p| ==> p[k] == ext[k - |stem| - 1];
    assert RFind(p, '/') == -1;
    assert RFind(p, '.') == |stem|;
    var k :| 0 <= k < |stem| && stem[k] != '.';
    assert p[k] == stem[k];
    assert p[..|stem|] == stem;
  }

  /** Leading dots are not an extension: ".bashrc" and "..x" come back whole. */
  lemma LeadingDotsKept(dots: string, name: string)
    requires forall k :: 0 <= k < |dots| ==> dots[k] == '.'
    requires '.' !in name && '/' !in name
    ensures SplitextRoot(dots + name) == dots + name
  {
    var p := dots + name;
    assert forall k :: |dots| <= k < |p| ==> p[k] == name[k - |dots|];
    assert forall k :: 0 <= k < |dots| ==> p[k] == dots[k];
    assert RFind(p, '/') == -1;
  }

  /** `sep.join(ws)`. */
  function Join(ws: seq<string>, sep: string): string
  {
    if ws == [] then ""
    else if |ws| == 1 then ws[0]
    else ws[0] + sep + Join(ws[1..], sep)
  }

  /** `s` with every occurrence of `c` deleted. */
  function DropChar(s: string, c: char): (r: string)
    ensures c !in r
    ensures |r| <= |s|
  {
    if s == [] then [] else (if s[0] == c then [] else [s[0]]) + DropChar(s[1..], c)
  }

  lemma {:induction false} DropCharAppend(a: string, b: string, c: char)
    ensures DropChar(a + b, c) == DropChar(a, c) + DropChar(b, c)
  {
    if a == [] {
      assert a + b == b;
    } else {
      var head := if a[0] == c then [] else [a[0]];
      assert (a + b)[0] == a[0];
      assert (a + b)[1..] == a[1..] + b;
      calc {
        DropChar(a + b, c);
        head + DropChar(a[1..] + b, c);
        { DropCharAppend(a[1..], b, c); }
        head + (DropChar(a[1..], c) + DropChar(b, c));
        (head + DropChar(a[1..], c)) + DropChar(b, c);
        DropChar(a, c) + DropChar(b, c);
      }
    }
  }

  lemma {:induction false} DropCharAll(s: string, c: char)
    requires forall i :: 0 <= i < |s| ==> s[i] == c
    ensures DropChar(s, c) == []
  {
    if s != [] {
      DropCharAll(s[1..], c);
    }
  }

  lemma {:induction false} DropCharNone(s: string, c: char)
    requires c !in s
    ensures DropChar(s, c) == s
  {
    if s != [] {
      DropCharNone(s[1..], c);
    }
  }
}
