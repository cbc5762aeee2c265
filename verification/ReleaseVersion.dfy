/** Codex version strings: normalization, and the release tags that undo it. */
module ReleaseVersion {
  import opened Prelude

  // ---------- strings ----------

  predicate IsDigit(c: char) { '0' <= c <= '9' }

  predicate AllDigits(s: string) { s != "" && forall i :: 0 <= i < |s| ==> IsDigit(s[i]) }

  /** The characters `str.strip` removes. */
  predicate IsSpace(c: char) {
    var n := c as int;
    || 9 <= n <= 13 || 28 <= n <= 32 || n == 0x85 || n == 0xA0 || n == 0x1680 || 0x2000 <= n <= 0x200A
    || n == 0x2028 || n == 0x2029 || n == 0x202F || n == 0x205F || n == 0x3000
  }

  function Strip(s: string): string {
    if s == "" then ""
    else if IsSpace(s[0]) then Strip(s[1..])
    else if IsSpace(s[|s| - 1]) then Strip(s[..|s| - 1])
    else s
  }

  predicate EndsWith(s: string, t: string) { |t| <= |s| && s[|s| - |t|..] == t }

  function Without(s: string, t: string): string
    requires EndsWith(s, t)
  {
    s[..|s| - |t|]
  }

  /** How many digits a string ends in. */
  function Trailing(s: string): (n: nat)
    ensures n <= |s|
  {
    if s == "" || !IsDigit(s[|s| - 1]) then 0 else 1 + Trailing(s[..|s| - 1])
  }

  function Head(s: string): string { s[..|s| - Trailing(s)] }

  function Tail(s: string): string { s[|s| - Trailing(s)..] }

  // ---------- the normalized form ----------

  datatype Kind = A | B | RC

  /** A PEP 440 release with an optional pre-release and an optional post-release. */
  datatype Version = Version(base: string, pre: Option<(Kind, string)>, post: Option<string>)

  /** Runs of digits separated by single dots. */
  predicate IsBase(s: string) {
    Tail(s) != "" && (Head(s) == "" || (EndsWith(Head(s), ".") && |Head(s)| > 0 && IsBase(Without(Head(s), "."))))
  }

  function KindText(k: Kind): string { match k case A => "a" case B => "b" case RC => "rc" }

  function KindName(k: Kind): string { match k case A => "alpha" case B => "beta" case RC => "rc" }

  predicate WellFormed(v: Version) {
    IsBase(v.base) && (v.pre.Some? ==> AllDigits(v.pre.value.1)) && (v.post.Some? ==> AllDigits(v.post.value))
  }

  /** The strings the normalized pattern matches are the prints of well-formed versions. */
  function Print(v: Version): string {
    v.base + (if v.pre.Some? then KindText(v.pre.value.0) + v.pre.value.1 else "")
    + (if v.post.Some? then ".post" + v.post.value else "")
  }

  function ParsePre(s: string): Option<Version> {
    var h := Head(s);
    if Tail(s) == "" then None
    else if EndsWith(h, "rc") then (if IsBase(Without(h, "rc")) then Some(Version(Without(h, "rc"), Some((RC, Tail(s))), None)) else None)
    else if EndsWith(h, "a") then (if IsBase(Without(h, "a")) then Some(Version(Without(h, "a"), Some((A, Tail(s))), None)) else None)
    else if EndsWith(h, "b") then (if IsBase(Without(h, "b")) then Some(Version(Without(h, "b"), Some((B, Tail(s))), None)) else None)
    else if IsBase(s) then Some(Version(s, None, None))
    else None
  }

  /** The version a string is the print of, if any: the full match of the normalized pattern. */
  function Parse(s: string): Option<Version> {
    if Tail(s) == "" then None
    else if EndsWith(Head(s), ".post") then
      var v := ParsePre(Without(Head(s), ".post"));
      if v.Some? then Some(v.value.(post := Some(Tail(s)))) else None
    else ParsePre(s)
  }

  // ---------- normalization ----------

  /** Rewrites a final `-name1` or `-name.1` to `text1`. */
  function Rewrite(s: string, name: string, text: string): string {
    var h := Head(s);
    if Tail(s) == "" then s
    else if EndsWith(h, "-" + name + ".") then Without(h, "-" + name + ".") + text + Tail(s)
    else if EndsWith(h, "-" + name) then Without(h, "-" + name) + text + Tail(s)
    else s
  }

  /** Rewrites a final `-alpha1.2` or `-alpha.1.2` to `a1.post2`. */
  function RewriteHotfix(s: string): string {
    var h := Head(s);
    if Tail(s) == "" || !EndsWith(h, ".") then s
    else
      var m := Without(h, ".");
      var g := Head(m);
      if Tail(m) == "" then s
      else if EndsWith(g, "-alpha.") then Without(g, "-alpha.") + "a" + Tail(m) + ".post" + Tail(s)
      else if EndsWith(g, "-alpha") then Without(g, "-alpha") + "a" + Tail(m) + ".post" + Tail(s)
      else s
  }

  function RemovePrefix(s: string): string {
    if "rust-v" <= s then s[6..] else if "v" <= s then s[1..] else s
  }

  function Rewritten(s: string): string {
    Rewrite(Rewrite(Rewrite(RewriteHotfix(s), "alpha", "a"), "beta", "b"), "rc", "rc")
  }

  /** The normalized version, or `None` where the source raises. */
  function Normalize(version: string): Option<string> {
    var n := Rewritten(RemovePrefix(Strip(version)));
    if Parse(n).Some? then Some(n) else None
  }

  // ---------- release tags ----------

  /** The release form of a version: alpha hotfixes and plain pre-releases are respelled. */
  function Released(v: Version): string {
    if v.pre.Some? && v.pre.value.0 == A && v.post.Some? then v.base + "-alpha." + v.pre.value.1 + "." + v.post.value
    else if v.pre.Some? && v.post.None? then v.base + "-" + KindName(v.pre.value.0) + "." + v.pre.value.1
    else Print(v)
  }

  function ReleaseVersionOf(version: string): Option<string> {
    var n := Normalize(version);
    if n.None? then None
    else
      var v := Parse(n.value);
      if v.None? then None else Some(Released(v.value))
  }

  function ReleaseTag(version: string): Option<string> {
    var r := ReleaseVersionOf(version);
    if r.None? then None else Some("rust-v" + r.value)
  }

  // ---------- trailing digits ----------

  /** The digits counted are digits, and what precedes them is none. */
  lemma {:induction false} TrailingDigits(s: string)
    ensures forall i :: |s| - Trailing(s) <= i < |s| ==> IsDigit(s[i])
    ensures Trailing(s) < |s| ==> !IsDigit(s[|s| - Trailing(s) - 1])
  {
    if s != "" && IsDigit(s[|s| - 1]) {
      var p := s[..|s| - 1];
      TrailingDigits(p);
      assert |s| - Trailing(s) == |p| - Trailing(p);
    }
  }

  lemma TailIsDigits(s: string)
    ensures Tail(s) != "" ==> AllDigits(Tail(s))
    ensures Head(s) + Tail(s) == s
    ensures Head(s) != "" ==> !IsDigit(Head(s)[|Head(s)| - 1])
  {
    TrailingDigits(s);
  }

  /** Splitting off the digits undoes appending them to something that does not end in a digit. */
  lemma {:induction false} SplitDigits(h: string, d: string)
    requires AllDigits(d) && (h == "" || !IsDigit(h[|h| - 1]))
    ensures Head(h + d) == h && Tail(h + d) == d
  {
    var s := h + d;
    var n := |d| - 1;
    assert s[..|s| - 1] == h + d[..n];
    if n == 0 {
      assert h + d[..n] == h;
      assert Trailing(h) == 0;
    } else {
      SplitDigits(h, d[..n]);
      assert |h + d[..n]| - Trailing(h + d[..n]) == |h|;
    }
    assert Trailing(s) == |d|;
  }

  lemma EndsWithAppended(h: string, t: string)
    ensures EndsWith(h + t, t) && Without(h + t, t) == h
  {
    assert (h + t)[|h + t| - |t|..] == t;
    assert (h + t)[..|h + t| - |t|] == h;
  }

  /** A string that ends in one character does not end in a string that ends in another. */
  lemma LastDiffers(s: string, t: string)
    requires s != "" && t != "" && s[|s| - 1] != t[|t| - 1]
    ensures !EndsWith(s, t)
  {
    assert |t| <= |s| ==> s[|s| - |t|..][|t| - 1] == s[|s| - 1];
  }

  // ---------- printing and parsing ----------

  /** The characters of a base: digits and dots, the first and last of them digits. */
  lemma {:induction false} BaseChars(s: string)
    requires IsBase(s)
    ensures s != "" && IsDigit(s[0]) && IsDigit(s[|s| - 1])
    ensures forall i :: 0 <= i < |s| ==> IsDigit(s[i]) || s[i] == '.'
  {
    TailIsDigits(s);
    var h, t := Head(s), Tail(s);
    assert s[|s| - 1] == t[|t| - 1];
    if h == "" {
      assert s == t;
    } else {
      var b := Without(h, ".");
      BaseChars(b);
      assert h == b + ".";
      assert s == b + "." + t;
    }
  }

  lemma ParseOfBase(base: string)
    requires IsBase(base)
    ensures ParsePre(base) == Some(Version(base, None, None))
  {
    TailIsDigits(base);
    var h := Head(base);
    if h != "" {
      assert h == Without(h, ".") + "." && h[|h| - 1] == '.';
      LastDiffers(h, "rc"); LastDiffers(h, "a"); LastDiffers(h, "b");
    }
  }

  lemma ParseOfPre(base: string, k: Kind, d: string)
    requires IsBase(base) && AllDigits(d)
    ensures ParsePre(base + KindText(k) + d) == Some(Version(base, Some((k, d)), None))
  {
    var h := base + KindText(k);
    SplitDigits(h, d);
    EndsWithAppended(base, KindText(k));
    if k == A { LastDiffers(h, "rc"); }
    if k == B { LastDiffers(h, "rc"); LastDiffers(h, "a"); }
  }

  lemma ParsePreOfPrint(v: Version)
    requires WellFormed(v) && v.post.None?
    ensures ParsePre(Print(v)) == Some(v)
  {
    if v.pre.None? {
      assert Print(v) == v.base;
      ParseOfBase(v.base);
    } else {
      PrintPre(v.base, v.pre.value.0, v.pre.value.1);
      ParseOfPre(v.base, v.pre.value.0, v.pre.value.1);
    }
  }

  lemma ParseOfPost(u: Version, d: string)
    requires WellFormed(u) && u.post.None? && AllDigits(d)
    ensures Parse(Print(u) + ".post" + d) == Some(u.(post := Some(d)))
  {
    ParsePreOfPrint(u);
    SplitDigits(Print(u) + ".post", d);
    EndsWithAppended(Print(u), ".post");
  }

  lemma ParseOfPrint(v: Version)
    requires WellFormed(v)
    ensures Parse(Print(v)) == Some(v)
  {
    if v.post.Some? {
      var u := v.(post := None);
      assert Print(v) == Print(u) + ".post" + v.post.value;
      ParseOfPost(u, v.post.value);
    } else {
      ParsePreOfPrint(v);
      NotPost(v);
    }
  }

  /** What precedes the final digits of a version without post-release is not `.post`. */
  lemma NotPost(v: Version)
    requires WellFormed(v) && v.post.None?
    ensures Tail(Print(v)) != "" && !EndsWith(Head(Print(v)), ".post")
  {
    BaseChars(v.base);
    if v.pre.None? {
      assert Print(v) == v.base;
      TailIsDigits(v.base);
      var h := Head(v.base);
      if h != "" {
        assert h == Without(h, ".") + "." && h[|h| - 1] == '.';
        LastDiffers(h, ".post");
      }
    } else {
      var h := v.base + KindText(v.pre.value.0);
      assert Print(v) == h + v.pre.value.1;
      SplitDigits(h, v.pre.value.1);
      LastDiffers(h, ".post");
    }
  }

  lemma PrintOfPre(s: string, k: Kind)
    requires EndsWith(Head(s), KindText(k))
    ensures Print(Version(Without(Head(s), KindText(k)), Some((k, Tail(s))), None)) == s
  {
    TailIsDigits(s);
    assert Head(s) == Without(Head(s), KindText(k)) + KindText(k);
  }

  lemma PrintOfParsePre(s: string)
    requires ParsePre(s).Some?
    ensures WellFormed(ParsePre(s).value) && Print(ParsePre(s).value) == s && ParsePre(s).value.post.None?
  {
    TailIsDigits(s);
    var h := Head(s);
    if EndsWith(h, "rc") { PrintOfPre(s, RC); }
    else if EndsWith(h, "a") { PrintOfPre(s, A); }
    else if EndsWith(h, "b") { PrintOfPre(s, B); }
  }

  lemma PrintWithPost(v: Version, d: string)
    requires v.post.None?
    ensures Print(v.(post := Some(d))) == Print(v) + ".post" + d
  {
  }

  lemma PrintOfParse(s: string)
    requires Parse(s).Some?
    ensures WellFormed(Parse(s).value) && Print(Parse(s).value) == s
  {
    TailIsDigits(s);
    var h := Head(s);
    if EndsWith(h, ".post") {
      var u := Without(h, ".post");
      PrintOfParsePre(u);
      PrintWithPost(ParsePre(u).value, Tail(s));
      assert h == u + ".post";
    } else {
      PrintOfParsePre(s);
    }
  }

  /** The scanner recognises exactly the strings the pattern describes, each in one way. */
  lemma ParseIffPrint(s: string, v: Version)
    ensures Parse(s) == Some(v) <==> WellFormed(v) && Print(v) == s
  {
    if Parse(s) == Some(v) { PrintOfParse(s); }
    if WellFormed(v) && Print(v) == s { ParseOfPrint(v); }
  }

  // ---------- normalization undoes release tags ----------

  predicate NoDash(s: string) { forall i :: 0 <= i < |s| ==> s[i] != '-' }

  /** A part appended to a dashless text that ends in a digit leaves it so. */
  lemma DigitsAfter(s: string, t: string)
    requires s != "" && IsDigit(s[0]) && IsDigit(s[|s| - 1]) && NoDash(s) && NoDash(t) && (t != "" ==> IsDigit(t[|t| - 1]))
    ensures var u := s + t; u != "" && IsDigit(u[0]) && IsDigit(u[|u| - 1]) && NoDash(u)
  {
  }

  lemma PartChars(word: string, d: string)
    requires NoDash(word) && AllDigits(d)
    ensures var t := word + d; NoDash(t) && t != "" && IsDigit(t[|t| - 1])
  {
  }

  lemma PrintChars(v: Version)
    requires WellFormed(v)
    ensures var s := Print(v); s != "" && IsDigit(s[0]) && IsDigit(s[|s| - 1]) && NoDash(s)
  {
    BaseChars(v.base);
    var pre := if v.pre.Some? then KindText(v.pre.value.0) + v.pre.value.1 else "";
    var post := if v.post.Some? then ".post" + v.post.value else "";
    if v.pre.Some? { PartChars(KindText(v.pre.value.0), v.pre.value.1); }
    if v.post.Some? { PartChars(".post", v.post.value); }
    DigitsAfter(v.base, pre);
    DigitsAfter(v.base + pre, post);
    assert Print(v) == v.base + pre + post;
  }

  lemma EndsWithDash(s: string, t: string)
    requires NoDash(s) && t != "" && t[0] == '-'
    ensures !EndsWith(s, t)
  {
    assert |t| <= |s| ==> s[|s| - |t|..][0] == s[|s| - |t|];
  }

  lemma RewritesNothing(s: string)
    requires NoDash(s)
    ensures RewriteHotfix(s) == s && Rewrite(s, "alpha", "a") == s && Rewrite(s, "beta", "b") == s && Rewrite(s, "rc", "rc") == s
  {
    var h := Head(s);
    assert NoDash(h);
    EndsWithDash(h, "-" + "alpha" + "."); EndsWithDash(h, "-" + "alpha");
    EndsWithDash(h, "-" + "beta" + "."); EndsWithDash(h, "-" + "beta");
    EndsWithDash(h, "-" + "rc" + "."); EndsWithDash(h, "-" + "rc");
    if EndsWith(h, ".") {
      assert NoDash(Head(Without(h, ".")));
      EndsWithDash(Head(Without(h, ".")), "-alpha."); EndsWithDash(Head(Without(h, ".")), "-alpha");
    }
  }

  predicate IsPrefix(p: string) { p in {"", "v", "rust-v"} }

  predicate IsDot(dot: string) { dot == "" || dot == "." }

  lemma TagStripped(p: string, r: string)
    requires IsPrefix(p) && r != "" && IsDigit(r[0]) && IsDigit(r[|r| - 1])
    ensures RemovePrefix(Strip(p + r)) == r
  {
    var t := p + r;
    assert t[0] == (if p == "" then r[0] else p[0]) && t[|t| - 1] == r[|r| - 1];
    assert Strip(t) == t;
    if p == "rust-v" { assert t[..6] == "rust-v" && t[6..] == r; }
    else if p == "v" { assert t[1..] == r && "rust-v"[0] == 'r'; }
    else { assert t == r && "rust-v"[0] == 'r' && "v"[0] == 'v'; }
  }

  function HotfixText(base: string, dot: string, a: string, p: string): string { base + "-alpha" + dot + a + "." + p }

  lemma HotfixSplit(base: string, dot: string, a: string, p: string)
    requires IsDot(dot) && AllDigits(a) && AllDigits(p)
    ensures RewriteHotfix(HotfixText(base, dot, a, p)) == base + "a" + a + ".post" + p
  {
    var n := "-alpha" + dot;
    var m := base + n + a;
    assert HotfixText(base, dot, a, p) == m + "." + p;
    SplitDigits(m + ".", p);
    EndsWithAppended(m, ".");
    SplitDigits(base + n, a);
    EndsWithAppended(base, n);
    if dot == "" { LastDiffers(base + n, "-alpha."); }
  }

  lemma HotfixRewritten(base: string, dot: string, a: string, p: string)
    requires IsBase(base) && IsDot(dot) && AllDigits(a) && AllDigits(p)
    ensures Rewritten(HotfixText(base, dot, a, p)) == base + "a" + a + ".post" + p
  {
    var v := Version(base, Some((A, a)), Some(p));
    HotfixSplit(base, dot, a, p);
    PrintHotfix(base, a, p);
    PrintChars(v);
    RewritesNothing(Print(v));
  }

  function DashedName(base: string, k: Kind, dot: string): string { base + "-" + KindName(k) + dot }

  function Dashed(base: string, k: Kind, dot: string, d: string): string { DashedName(base, k, dot) + d }

  lemma DashedSplit(base: string, k: Kind, dot: string, d: string)
    requires IsDot(dot) && AllDigits(d)
    ensures Head(Dashed(base, k, dot, d)) == DashedName(base, k, dot) && Tail(Dashed(base, k, dot, d)) == d
  {
    SplitDigits(DashedName(base, k, dot), d);
  }

  lemma DashedIsNoHotfix(base: string, k: Kind, dot: string, d: string)
    requires IsDot(dot) && AllDigits(d)
    ensures RewriteHotfix(Dashed(base, k, dot, d)) == Dashed(base, k, dot, d)
  {
    DashedSplit(base, k, dot, d);
    var m := base + "-" + KindName(k);
    assert m[|m| - 1] == KindName(k)[|KindName(k)| - 1];
    assert Trailing(m) == 0;
    if dot == "" { LastDiffers(DashedName(base, k, dot), "."); }
    else { EndsWithAppended(m, "."); }
  }

  lemma DashedRewritten(base: string, k: Kind, dot: string, d: string)
    requires IsDot(dot) && AllDigits(d)
    ensures Rewrite(Dashed(base, k, dot, d), KindName(k), KindText(k)) == base + KindText(k) + d
  {
    DashedSplit(base, k, dot, d);
    var n := "-" + KindName(k) + dot;
    assert DashedName(base, k, dot) == base + n;
    EndsWithAppended(base, n);
    if dot == "" {
      assert n == "-" + KindName(k);
      LastDiffers(base + n, "-" + KindName(k) + ".");
    }
  }

  lemma DashedKept(base: string, k: Kind, dot: string, d: string, name: string, text: string)
    requires IsDot(dot) && AllDigits(d) && Earlier(k, name)
    ensures Rewrite(Dashed(base, k, dot, d), name, text) == Dashed(base, k, dot, d)
  {
    DashedSplit(base, k, dot, d);
    if dot == "" { OtherName(base, k, name); } else { OtherDottedName(base, k, name); }
  }

  lemma PreRewritten(base: string, k: Kind, dot: string, d: string)
    requires IsBase(base) && IsDot(dot) && AllDigits(d)
    ensures Rewritten(Dashed(base, k, dot, d)) == base + KindText(k) + d
  {
    PrintPre(base, k, d);
    PrintChars(Version(base, Some((k, d)), None));
    RewritesNothing(base + KindText(k) + d);
    DashedIsNoHotfix(base, k, dot, d);
    DashedRewritten(base, k, dot, d);
    if k != A { DashedKept(base, k, dot, d, "alpha", "a"); }
    if k == RC { DashedKept(base, k, dot, d, "beta", "b"); }
  }

  /** A name whose rewriting comes before that of kind `k`. */
  predicate Earlier(k: Kind, name: string) { (k == B && name == "alpha") || (k == RC && name in {"alpha", "beta"}) }

  /** `-beta.` and `-rc.` do not end in `-alpha.`, nor `-rc.` in `-beta.`. */
  lemma OtherDottedName(base: string, k: Kind, name: string)
    requires Earlier(k, name)
    ensures var h := DashedName(base, k, "."); !EndsWith(h, "-" + name + ".") && !EndsWith(h, "-" + name)
  {
    var h := DashedName(base, k, ".");
    LastDiffers(h, "-" + name);
    var t := "-" + name + ".";
    if |t| <= |h| {
      if k == B {
        assert h[|h| - 4] == 'e' && t[|t| - 4] == 'p';
        assert h[|h| - |t|..][|t| - 4] == h[|h| - 4];
      } else {
        assert h[|h| - 2] == 'c' && t[|t| - 2] == 'a';
        assert h[|h| - |t|..][|t| - 2] == h[|h| - 2];
      }
    }
  }

  /** Nor does `-beta` or `-rc` end in `-alpha`, or `-rc` in `-beta`. */
  lemma OtherName(base: string, k: Kind, name: string)
    requires Earlier(k, name)
    ensures var h := DashedName(base, k, ""); !EndsWith(h, "-" + name + ".") && !EndsWith(h, "-" + name)
  {
    var h := DashedName(base, k, "");
    LastDiffers(h, "-" + name + ".");
    var t := "-" + name;
    if |t| <= |h| {
      if k == B {
        assert h[|h| - 3] == 'e' && t[|t| - 3] == 'p';
        assert h[|h| - |t|..][|t| - 3] == h[|h| - 3];
      } else {
        LastDiffers(h, t);
      }
    }
  }

  /** A spelling that is rewritten to a version's print normalizes to it, under any prefix. */
  lemma TagNormalizes(v: Version, p: string, r: string)
    requires WellFormed(v) && IsPrefix(p) && r != "" && IsDigit(r[0]) && IsDigit(r[|r| - 1]) && Rewritten(r) == Print(v)
    ensures Normalize(p + r) == Some(Print(v))
  {
    ParseOfPrint(v);
    TagStripped(p, r);
  }

  lemma DigitEnds(base: string, h: string, d: string)
    requires IsBase(base) && AllDigits(d)
    ensures var s := base + h + d; s != "" && IsDigit(s[0]) && IsDigit(s[|s| - 1])
  {
    BaseChars(base);
    var s := base + h + d;
    assert s[0] == base[0] && s[|s| - 1] == d[|d| - 1];
  }

  lemma PrintHotfix(base: string, a: string, p: string)
    ensures Print(Version(base, Some((A, a)), Some(p))) == base + "a" + a + ".post" + p
  {
  }

  lemma PrintPre(base: string, k: Kind, d: string)
    ensures Print(Version(base, Some((k, d)), None)) == base + KindText(k) + d
  {
  }

  lemma HotfixShape(base: string, dot: string, a: string, p: string)
    ensures HotfixText(base, dot, a, p) == base + ("-alpha" + dot + a + ".") + p
  {
    assert base + "-alpha" + dot == base + ("-alpha" + dot);
    assert base + ("-alpha" + dot) + a == base + ("-alpha" + dot + a);
    assert base + ("-alpha" + dot + a) + "." == base + ("-alpha" + dot + a + ".");
  }

  /** Every spelling of an alpha hotfix, with any prefix and with or without the dot, normalizes to it. */
  lemma HotfixSpellings(prefix: string, base: string, dot: string, a: string, p: string)
    requires IsPrefix(prefix) && IsBase(base) && IsDot(dot) && AllDigits(a) && AllDigits(p)
    ensures Normalize(prefix + HotfixText(base, dot, a, p)) == Some(Print(Version(base, Some((A, a)), Some(p))))
  {
    HotfixShape(base, dot, a, p);
    DigitEnds(base, "-alpha" + dot + a + ".", p);
    HotfixRewritten(base, dot, a, p);
    PrintHotfix(base, a, p);
    TagNormalizes(Version(base, Some((A, a)), Some(p)), prefix, HotfixText(base, dot, a, p));
  }

  /** Every spelling of a pre-release, with any prefix and with or without the dot, normalizes to it. */
  lemma PreSpellings(prefix: string, base: string, k: Kind, dot: string, d: string)
    requires IsPrefix(prefix) && IsBase(base) && IsDot(dot) && AllDigits(d)
    ensures Normalize(prefix + Dashed(base, k, dot, d)) == Some(Print(Version(base, Some((k, d)), None)))
  {
    assert Dashed(base, k, dot, d) == base + ("-" + KindName(k) + dot) + d;
    DigitEnds(base, "-" + KindName(k) + dot, d);
    PreRewritten(base, k, dot, d);
    PrintPre(base, k, d);
    TagNormalizes(Version(base, Some((k, d)), None), prefix, Dashed(base, k, dot, d));
  }

  lemma PlainSpellings(prefix: string, v: Version)
    requires WellFormed(v) && IsPrefix(prefix)
    ensures Normalize(prefix + Print(v)) == Some(Print(v))
  {
    PrintChars(v);
    RewritesNothing(Print(v));
    TagNormalizes(v, prefix, Print(v));
  }

  lemma ReleasedNormalizes(v: Version)
    requires WellFormed(v)
    ensures Normalize("rust-v" + Released(v)) == Some(Print(v))
  {
    if v.pre.Some? && v.pre.value.0 == A && v.post.Some? {
      assert Released(v) == HotfixText(v.base, ".", v.pre.value.1, v.post.value);
      HotfixSpellings("rust-v", v.base, ".", v.pre.value.1, v.post.value);
    } else if v.pre.Some? && v.post.None? {
      assert Released(v) == Dashed(v.base, v.pre.value.0, ".", v.pre.value.1);
      PreSpellings("rust-v", v.base, v.pre.value.0, ".", v.pre.value.1);
    } else {
      PlainSpellings("rust-v", v);
    }
  }

  /** Normalizing what is normalized changes nothing. */
  lemma NormalizeIdempotent(version: string)
    ensures Normalize(version).Some? ==> Normalize(Normalize(version).value) == Normalize(version)
  {
    if Normalize(version).Some? {
      var n := Normalize(version).value;
      PrintOfParse(n);
      PlainSpellings("", Parse(n).value);
      assert "" + n == n;
    }
  }

  /** A text without dashes normalizes exactly if it is a version, or a version after one `v`, and then to that version. */
  lemma DashlessIff(s: string, n: string)
    requires NoDash(s) && Strip(s) == s
    ensures Normalize(s) == Some(n) <==> Parse(n).Some? && (s == n || s == "v" + n)
  {
    DashlessCore(s);
    RewritesNothing(RemovePrefix(s));
    if Parse(n).Some? {
      VersionStarts(n);
      DashlessPrefix(s, n);
    }
  }

  lemma DashlessCore(s: string)
    requires NoDash(s)
    ensures NoDash(RemovePrefix(s)) && (s == RemovePrefix(s) || s == "v" + RemovePrefix(s))
  {
    assert !("rust-v" <= s) by { assert "rust-v"[4] == '-'; }
    if "v" <= s { assert s == "v" + s[1..]; }
  }

  lemma VersionStarts(n: string)
    requires Parse(n).Some?
    ensures n != "" && IsDigit(n[0])
  {
    PrintOfParse(n);
    PrintChars(Parse(n).value);
  }

  lemma DashlessPrefix(s: string, n: string)
    requires NoDash(s) && n != "" && IsDigit(n[0])
    ensures RemovePrefix(s) == n <==> s == n || s == "v" + n
  {
    DashlessCore(s);
    if s == "v" + n { assert "v" <= s && s[1..] == n && s[0] == 'v' && "rust-v"[0] == 'r'; }
    if s == n { assert s[0] != 'v' && s[0] != 'r' && "v"[0] == 'v' && "rust-v"[0] == 'r'; }
  }

  /** The release tag of a version: alpha hotfixes and plain pre-releases are respelled, all else is printed. */
  function TagOf(v: Version): string {
    match (v.pre, v.post)
    case (Some((A, a)), Some(p)) => "rust-v" + v.base + "-alpha." + a + "." + p
    case (Some((A, a)), None) => "rust-v" + v.base + "-alpha." + a
    case (Some((B, b)), None) => "rust-v" + v.base + "-beta." + b
    case (Some((RC, c)), None) => "rust-v" + v.base + "-rc." + c
    case (_, _) => "rust-v" + Print(v)
  }

  /** Whatever a version is spelled like, its release tag is the one of the version it normalizes to. */
  lemma TagIs(version: string, v: Version)
    requires WellFormed(v) && Normalize(version) == Some(Print(v))
    ensures ReleaseTag(version) == Some(TagOf(v))
  {
    ParseOfPrint(v);
    TagText(v);
  }

  lemma TagText(v: Version)
    ensures "rust-v" + Released(v) == TagOf(v)
  {
    if v.pre.Some? {
      var base, k, d := v.base, v.pre.value.0, v.pre.value.1;
      if k == A && v.post.Some? {
        assert "rust-v" + (base + "-alpha." + d + "." + v.post.value) == "rust-v" + base + "-alpha." + d + "." + v.post.value;
      } else if v.post.None? {
        DashedTag(base, k, d);
      }
    }
  }

  lemma DashedTag(base: string, k: Kind, d: string)
    ensures "rust-v" + (base + "-" + KindName(k) + "." + d) ==
            "rust-v" + base + (match k case A => "-alpha." case B => "-beta." case RC => "-rc.") + d
  {
    var name := match k case A => "-alpha." case B => "-beta." case RC => "-rc.";
    assert "-" + KindName(k) + "." == name;
    assert base + "-" + KindName(k) + "." == base + name;
    assert "rust-v" + (base + name + d) == "rust-v" + base + name + d;
  }

  /** Space around a version does not matter. */
  lemma {:induction false} SpaceIgnored(before: string, version: string, after: string)
    requires (forall i :: 0 <= i < |before| ==> IsSpace(before[i])) && (forall i :: 0 <= i < |after| ==> IsSpace(after[i]))
    ensures Normalize(before + version + after) == Normalize(version)
  {
    StripsSpace(before, version, after);
  }

  lemma {:induction false} StripsSpace(before: string, s: string, after: string)
    requires (forall i :: 0 <= i < |before| ==> IsSpace(before[i])) && (forall i :: 0 <= i < |after| ==> IsSpace(after[i]))
    ensures Strip(before + s + after) == Strip(s)
    decreases |before| + |after|
  {
    var t := before + s + after;
    if before != "" {
      assert t[1..] == before[1..] + s + after;
      StripsSpace(before[1..], s, after);
    } else if after != "" {
      var n := |after| - 1;
      assert t == s + after && s + after[..n] == before + s + after[..n];
      StripsSpace(before, s, after[..n]);
      StripsEnd(s + after[..n], after[n]);
      assert t == s + after[..n] + [after[n]];
    } else {
      assert t == s;
    }
  }

  lemma {:induction false} StripsEnd(s: string, c: char)
    requires IsSpace(c)
    ensures Strip(s + [c]) == Strip(s)
  {
    var t := s + [c];
    if s == "" {
      assert t[1..] == "";
    } else if IsSpace(s[0]) {
      assert t[1..] == s[1..] + [c];
      StripsEnd(s[1..], c);
    } else {
      assert t[..|t| - 1] == s;
    }
  }

  /** For every version that normalizes there is a release tag, and normalizing it gives the same version back. */
  lemma TagRoundTrip(version: string)
    ensures Normalize(version).Some? <==> ReleaseTag(version).Some?
    ensures Normalize(version).Some? ==> Normalize(ReleaseTag(version).value) == Normalize(version)
  {
    if Normalize(version).Some? {
      var n := Normalize(version).value;
      PrintOfParse(n);
      ReleasedNormalizes(Parse(n).value);
    }
  }

  /** Versions that normalize differently never share a release tag. */
  lemma TagsAreDistinct(a: string, b: string)
    ensures ReleaseTag(a) == ReleaseTag(b) <==> Normalize(a) == Normalize(b)
  {
    TagRoundTrip(a);
    TagRoundTrip(b);
  }
}
