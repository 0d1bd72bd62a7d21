/** `sanitizeDomain`, which turns what the user typed into the domain that is
    searched. The same body appears in app/utils/domainUtils.ts,
    src/utils/domainUtils.ts, src/utils/domainUtils.js and inside src/App.js;
    all four copies are this one function. */
module Sanitizer {
  import opened Text

  /** `^(https?:\/\/)?(www\.)?` matched case-insensitively at the start of `s`,
      and removed. Both groups are greedy and optional, so the match never fails. */
  function StripProtocolAndWww(s: string): (r: string)
    ensures |r| <= |s| && r == s[|s| - |r|..]
  {
    var afterProtocol :=
      if StartsWithIgnoringCase(s, "https://") then s[8..]
      else if StartsWithIgnoringCase(s, "http://") then s[7..]
      else s;
    if StartsWithIgnoringCase(afterProtocol, "www.") then afterProtocol[4..] else afterProtocol
  }

  /** Prefix test of the `i` flag, for a lower-case pattern. */
  predicate StartsWithIgnoringCase(s: string, lowerPattern: string) {
    |lowerPattern| <= |s| && ToLower(s[..|lowerPattern|]) == lowerPattern
  }

  /** The first two statements: trim, drop every whitespace run, lower-case.
      `CleanIgnoresTrim`, `CleanAppend` and `CleanChar` fix the result:
      every other character of the input stays, lower-cased, in order. */
  function Clean(input: string): (r: string)
    ensures forall i :: 0 <= i < |r| ==> !IsWhitespace(r[i]) && !IsUpper(r[i])
  {
    var raw := RemoveWhitespace(Trim(input));
    assert forall i :: 0 <= i < |raw| ==> !IsWhitespace(LowerChar(raw[i]));
    ToLower(raw)
  }

  /** Every character that is not whitespace survives, lower-cased. */
  lemma CleanKeepsCharacters(input: string, c: char)
    requires c in input && !IsWhitespace(c)
    ensures LowerChar(c) in Clean(input)
  {
    var raw := RemoveWhitespace(Trim(input));
    RemoveWhitespaceTrimmed(input);
    RemoveWhitespaceKeepsCharacters(input, c);
    var i :| 0 <= i < |raw| && raw[i] == c;
    assert Clean(input)[i] == LowerChar(c);
  }

  /** A single character: whitespace goes, anything else is lower-cased. */
  lemma CleanChar(c: char)
    ensures Clean([c]) == if IsWhitespace(c) then "" else [LowerChar(c)]
  {
    CleanIgnoresTrim([c]);
    RemoveWhitespaceChar(c);
  }

  /** The trim is redundant: removing the whitespace drops the ends anyway. */
  lemma CleanIgnoresTrim(input: string)
    ensures Clean(input) == ToLower(RemoveWhitespace(input))
  {
    RemoveWhitespaceTrimmed(input);
  }

  /** Cleaning works piece by piece, keeping the pieces' order. */
  lemma CleanAppend(a: string, b: string)
    ensures Clean(a + b) == Clean(a) + Clean(b)
  {
    CleanIgnoresTrim(a + b);
    CleanIgnoresTrim(a);
    CleanIgnoresTrim(b);
    RemoveWhitespaceAppend(a, b);
    ToLowerAppend(RemoveWhitespace(a), RemoveWhitespace(b));
  }

  /** `.com` is appended when there is no dot. */
  function WithExtension(s: string): (r: string)
    ensures '.' in s ==> r == s
    ensures '.' !in s ==> r == s + ".com"
    ensures forall i :: 0 <= i < |r| ==> r[i] in s || r[i] in ".com"
  {
    if '.' in s then s else s + ".com"
  }

  /** trim, drop all whitespace, lower-case, append `.com` when there is no dot,
      strip protocol and `www.`, cut at the first `/`. */
  function SanitizeDomain(input: string): (r: string)
    ensures forall i :: 0 <= i < |r| ==> !IsWhitespace(r[i]) && !IsUpper(r[i]) && r[i] != '/'
  {
    var withExtension := WithExtension(Clean(input));
    WithExtensionClean(Clean(input));
    var stripped := StripProtocolAndWww(withExtension);
    StripKeepsClean(withExtension);
    BeforeFirst(stripped, '/')
  }

  lemma WithExtensionClean(s: string)
    requires forall i :: 0 <= i < |s| ==> !IsWhitespace(s[i]) && !IsUpper(s[i])
    ensures forall i :: 0 <= i < |WithExtension(s)| ==> !IsWhitespace(WithExtension(s)[i]) && !IsUpper(WithExtension(s)[i])
  {
    assert forall c :: c in ".com" ==> !IsWhitespace(c) && !IsUpper(c);
  }

  lemma StripKeepsClean(s: string)
    requires forall i :: 0 <= i < |s| ==> !IsWhitespace(s[i]) && !IsUpper(s[i])
    ensures forall i :: 0 <= i < |StripProtocolAndWww(s)| ==>
      !IsWhitespace(StripProtocolAndWww(s)[i]) && !IsUpper(StripProtocolAndWww(s)[i])
  {
    var stripped := StripProtocolAndWww(s);
    assert forall i :: 0 <= i < |stripped| ==> stripped[i] == s[|s| - |stripped| + i];
  }

  /** The copies reassign one local step by step; this is that sequence of
      statements, and it computes the pipeline above. */
  method Sanitize(input: string) returns (sanitized: string)
    ensures sanitized == SanitizeDomain(input)
  {
    sanitized := RemoveWhitespace(Trim(input));
    sanitized := ToLower(sanitized);
    if '.' !in sanitized {
      sanitized := sanitized + ".com";
    }
    sanitized := StripProtocolAndWww(sanitized);
    SplitFirstIsBeforeFirst(sanitized, '/');
    sanitized := Split(sanitized, '/')[0];
  }

  lemma TrimKeeps(s: string)
    requires |s| > 0 ==> !IsWhitespace(s[0]) && !IsWhitespace(s[|s| - 1])
    ensures Trim(s) == s
  {
  }

  /** The input already is a bare lower-case domain name: nothing changes. */
  lemma {:induction false} SanitizeKeepsBareDomain(s: string)
    requires forall i :: 0 <= i < |s| ==> !IsWhitespace(s[i]) && !IsUpper(s[i]) && s[i] != '/'
    requires '.' in s
    requires !StartsWithIgnoringCase(s, "http://") && !StartsWithIgnoringCase(s, "https://")
    requires !StartsWithIgnoringCase(s, "www.")
    ensures SanitizeDomain(s) == s
  {
    TrimKeeps(s);
    RemoveWhitespaceKeeps(s);
    assert ToLower(s) == s;
    assert Clean(s) == s;
  }

  /* The worked examples below take the input as a parameter equal to a
     literal, so that the recursive text functions are unfolded step by step
     rather than evaluated eagerly on the literal. */

  /** Surrounding blanks are trimmed and the name is lower-cased. */
  lemma SanitizePaddedExample(s: string)
    requires s == "  Foo.Bar  "
    ensures SanitizeDomain(s) == "foo.bar"
  {
    CleanPadded(s);
    var c := "foo.bar";
    DottedKeeps(c, 3);
    NoProtocolNoWww(c);
    NoSlash(c);
  }

  /** A bare name gets `.com`. */
  lemma SanitizeBareNameExample(s: string)
    requires s == "MyName"
    ensures SanitizeDomain(s) == "myname.com"
  {
    CleanBareName(s);
    NoDotGetsCom("myname");
    NoProtocolNoWww("myname.com");
    NoSlash("myname.com");
  }

  /** Protocol, `www.` and path are removed. */
  lemma SanitizeUrlExample(s: string)
    requires s == "https://www.Example.com/path"
    ensures SanitizeDomain(s) == "example.com"
  {
    CleanUrl(s);
    var lower := "https://www.example.com/path";
    DottedKeeps(lower, 11);
    StripUrl(lower);
    CutPath("example.com/path");
  }

  lemma CutPath(t: string)
    requires t == "example.com/path"
    ensures BeforeFirst(t, '/') == "example.com"
  {
    BeforeFirstOfJoined("example.com", '/', "path");
    assert t == "example.com" + "/" + "path";
  }

  lemma CleanBareName(s: string)
    requires s == "MyName"
    ensures Clean(s) == "myname"
  {
    CleanOfVisible(s);
    LowerMyName(s);
  }

  lemma LowerMyName(s: string)
    requires s == "MyName"
    ensures ToLower(s) == "myname"
  {
  }

  lemma CleanUrl(s: string)
    requires s == "https://www.Example.com/path"
    ensures Clean(s) == "https://www.example.com/path"
  {
    UrlVisible(s);
    CleanOfVisible(s);
    LowerUrl(s, "https://www.", "Example.com/path");
  }

  lemma UrlVisible(s: string)
    requires s == "https://www.Example.com/path"
    ensures forall i :: 0 <= i < |s| ==> '!' <= s[i] <= '~'
  {
  }

  lemma LowerUrl(s: string, head: string, tail: string)
    requires s == "https://www.Example.com/path" && head == "https://www." && tail == "Example.com/path"
    ensures ToLower(s) == "https://www.example.com/path"
  {
    assert s == head + tail;
    ToLowerAppend(head, tail);
    LowerHead(head);
    LowerTail(tail);
  }

  lemma LowerHead(head: string)
    requires head == "https://www."
    ensures ToLower(head) == head
  {
  }

  lemma LowerTail(tail: string)
    requires tail == "Example.com/path"
    ensures ToLower(tail) == "example.com/path"
  {
  }

  lemma NoDotGetsCom(c: string)
    requires c == "myname"
    ensures WithExtension(c) == "myname.com"
  {
  }

  lemma DottedKeeps(s: string, k: nat)
    requires k < |s| && s[k] == '.'
    ensures WithExtension(s) == s
  {
  }

  /** The empty input becomes `.com`: the empty name is not rejected here. */
  lemma SanitizeEmptyExample()
    ensures SanitizeDomain("") == ".com"
  {
    assert Trim("") == "";
    NoProtocolNoWww(".com");
    NoSlash(".com");
  }

  lemma CleanPadded(s: string)
    requires s == "  Foo.Bar  "
    ensures Clean(s) == "foo.bar"
  {
    TrimPadded(s);
    RemovesNothingVisible("Foo.Bar");
    LowerFooBar("Foo.Bar");
  }

  lemma TrimPadded(s: string)
    requires s == "  Foo.Bar  "
    ensures Trim(s) == "Foo.Bar"
  {
    TrimEndPadded(s);
    TrimStartPadded("  Foo.Bar");
  }

  lemma TrimEndPadded(s: string)
    requires s == "  Foo.Bar  "
    ensures TrimEnd(s) == "  Foo.Bar"
  {
    assert s[..10] == "  Foo.Bar ";
    assert "  Foo.Bar "[..9] == "  Foo.Bar";
  }

  lemma TrimStartPadded(s: string)
    requires s == "  Foo.Bar"
    ensures TrimStart(s) == "Foo.Bar"
  {
    assert s[1..] == " Foo.Bar";
    assert " Foo.Bar"[1..] == "Foo.Bar";
  }

  lemma LowerFooBar(s: string)
    requires s == "Foo.Bar"
    ensures ToLower(s) == "foo.bar"
  {
  }

  /** Printable ASCII text without spaces is only lower-cased. */
  lemma CleanOfVisible(s: string)
    requires forall i :: 0 <= i < |s| ==> '!' <= s[i] <= '~'
    ensures Clean(s) == ToLower(s)
  {
    TrimKeeps(s);
    RemovesNothingVisible(s);
  }

  lemma RemovesNothingVisible(s: string)
    requires forall i :: 0 <= i < |s| ==> '!' <= s[i] <= '~'
    ensures RemoveWhitespace(s) == s
  {
    RemoveWhitespaceKeeps(s);
  }

  lemma StripUrl(lower: string)
    requires lower == "https://www.example.com/path"
    ensures StripProtocolAndWww(lower) == "example.com/path"
  {
    assert StartsWithIgnoringCase(lower, "https://") by { assert lower[..8] == "https://"; }
    assert lower[8..] == "www.example.com/path";
    assert StartsWithIgnoringCase(lower[8..], "www.") by { assert lower[8..][..4] == "www."; }
    assert lower[8..][4..] == "example.com/path";
  }

  lemma NoSlash(s: string)
    requires forall i :: 0 <= i < |s| ==> s[i] != '/'
    ensures BeforeFirst(s, '/') == s
  {
  }

  /** A text whose first character is neither `h` nor `w` (in any case) has
      nothing for the protocol pattern to remove. */
  lemma NoProtocolNoWww(s: string)
    requires |s| > 0 && LowerChar(s[0]) != 'h' && LowerChar(s[0]) != 'w'
    ensures StripProtocolAndWww(s) == s
  {
    assert forall n :: 0 < n <= |s| ==> ToLower(s[..n])[0] == LowerChar(s[0]);
  }

  /** `.com` is appended before the protocol and the path are removed, so the
      result need not contain a dot. */
  lemma SanitizeHttpPathQuirk(s: string)
    requires s == "http://a/b"
    ensures SanitizeDomain(s) == "a"
  {
    CleanHttpPath(s);
    HttpPathGetsCom(s);
    StripHttp(s + ".com");
    BeforeFirstOfJoined("a", '/', "b.com");
  }

  lemma CleanHttpPath(s: string)
    requires s == "http://a/b"
    ensures Clean(s) == s
  {
    CleanKeeps(s);
  }

  lemma HttpPathGetsCom(s: string)
    requires s == "http://a/b"
    ensures WithExtension(s) == "http://a/b.com"
  {
  }

  /** Only one `www.` is stripped, so sanitizing is not idempotent. */
  lemma SanitizeNotIdempotent(s: string)
    requires s == "www.www.a.com"
    ensures SanitizeDomain(s) == "www.a.com"
    ensures SanitizeDomain(SanitizeDomain(s)) == "a.com"
  {
    SanitizeDoubleWww(s);
    SanitizeSingleWww("www.a.com");
  }

  lemma SanitizeDoubleWww(s: string)
    requires s == "www.www.a.com"
    ensures SanitizeDomain(s) == "www.a.com"
  {
    var rest := "www.a.com";
    assert s == "www." + rest;
    assert rest[3] == '.';
    SanitizeDropsOneWww(rest);
  }

  lemma SanitizeSingleWww(s: string)
    requires s == "www.a.com"
    ensures SanitizeDomain(s) == "a.com"
  {
    var rest := "a.com";
    assert s == "www." + rest;
    assert rest[1] == '.';
    SanitizeDropsOneWww(rest);
  }

  /** A clean dotted host behind one `www.` loses exactly that `www.`. */
  lemma SanitizeDropsOneWww(rest: string)
    requires forall i :: 0 <= i < |rest| ==> '!' <= rest[i] <= '~' && !IsUpper(rest[i]) && rest[i] != '/'
    requires '.' in rest && rest[0] != 'h'
    ensures SanitizeDomain("www." + rest) == rest
  {
    var s := "www." + rest;
    assert forall i :: 0 <= i < |s| ==> s[i] == if i < 4 then "www."[i] else rest[i - 4];
    CleanKeeps(s);
    assert '.' in s by { assert s[3] == '.'; }
    StripsOneWww(rest);
    NoSlash(rest);
  }

  lemma CleanKeeps(s: string)
    requires forall i :: 0 <= i < |s| ==> '!' <= s[i] <= '~' && !IsUpper(s[i])
    ensures Clean(s) == s
  {
    CleanOfVisible(s);
    assert ToLower(s) == s;
  }

  lemma StripHttp(dotted: string)
    requires dotted == "http://a/b.com"
    ensures StripProtocolAndWww(dotted) == "a/b.com"
  {
    assert !StartsWithIgnoringCase(dotted, "https://") by { assert ToLower(dotted[..8])[7] == 'a'; }
    assert StartsWithIgnoringCase(dotted, "http://") by { assert dotted[..7] == "http://"; }
    assert dotted[7..] == "a/b.com";
    NoProtocolNoWww("a/b.com");
  }

  /** Exactly one leading `www.` is removed. */
  lemma StripsOneWww(rest: string)
    ensures StripProtocolAndWww("www." + rest) == rest
  {
    var s := "www." + rest;
    assert ToLower(s[..4]) == "www." by { assert s[..4] == "www."; }
    assert forall n :: 0 < n <= |s| ==> ToLower(s[..n])[0] == 'w';
    assert s[4..] == rest;
  }
}
