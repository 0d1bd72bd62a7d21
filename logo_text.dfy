/** The text helpers both logo previews define with the same bodies
    (app/components/LogoPreview.tsx and src/components/LogoPreview.tsx): the
    colour picked for a highlighted part, and the capitalisation of each
    alphanumeric run. */
module LogoText {
  import opened Common
  import opened Text

  /** One shown text of a preview: the name part in the base style, or an
      affix or extension in its highlight colour. */
  datatype Span = Plain(text: string) | Highlighted(text: string, color: string)

  /** A truthy affix: present and not the empty text. */
  predicate Truthy(affix: Option<string>) {
    affix.Some? && affix.value != ""
  }

  /** The eight highlight colours, in order. */
  const Colors: seq<string> := [
    "text-indigo-500", "text-blue-500", "text-purple-500", "text-green-500",
    "text-pink-500", "text-amber-500", "text-violet-500", "text-cyan-500"]

  /** The sum of the character codes of `text`. */
  function CharSum(text: string): nat {
    if |text| == 0 then 0 else text[0] as nat + CharSum(text[1..])
  }

  /** `getColorForText`: the colour at the character sum modulo the number of
      colours. */
  function GetColorForText(text: string): (r: string)
    ensures r in Colors
  {
    Colors[CharSum(text) % |Colors|]
  }

  lemma {:induction false} CharSumAppend(a: string, b: string)
    ensures CharSum(a + b) == CharSum(a) + CharSum(b)
  {
    if |a| > 0 {
      assert (a + b)[1..] == a[1..] + b;
      CharSumAppend(a[1..], b);
    } else {
      assert a + b == b;
    }
  }

  /** The colour depends only on which characters occur, not where: swapping
      two parts of a text keeps its colour. */
  lemma SwappedPartsSameColor(a: string, b: string)
    ensures GetColorForText(a + b) == GetColorForText(b + a)
  {
    CharSumAppend(a, b);
    CharSumAppend(b, a);
  }

  /** `word.match(/[a-zA-Z0-9]/)`. */
  predicate HasAlnum(word: string) {
    |word| > 0 && (IsAlnum(word[0]) || HasAlnum(word[1..]))
  }

  /** `text.split(/([^a-zA-Z0-9])/)`: since the separator is captured, the
      pieces alternate between alphanumeric runs (possibly empty) and single
      separators. */
  function SplitKeepingSeparators(s: string): (parts: seq<string>)
    ensures |parts| >= 1
  {
    if |s| == 0 then [""]
    else if !IsAlnum(s[0]) then ["", [s[0]]] + SplitKeepingSeparators(s[1..])
    else
      var rest := SplitKeepingSeparators(s[1..]);
      [[s[0]] + rest[0]] + rest[1..]
  }

  /** The `map` callback: a piece with an alphanumeric character gets its first
      character uppercased. */
  function CapitalizeWord(word: string): (r: string)
    ensures |r| == |word|
  {
    if HasAlnum(word) then [UpperChar(word[0])] + word[1..] else word
  }

  /** `.map(...).join('')` over the pieces. */
  function JoinCapitalized(pieces: seq<string>): string {
    if |pieces| == 0 then "" else CapitalizeWord(pieces[0]) + JoinCapitalized(pieces[1..])
  }

  /** `capitalizeWords` without the special case of the newer preview. */
  function CapitalizeWords(text: string): string {
    JoinCapitalized(SplitKeepingSeparators(text))
  }

  /** Position `i` of `s` begins an alphanumeric run. */
  predicate StartsWord(s: string, i: nat)
    requires i < |s|
  {
    IsAlnum(s[i]) && (i == 0 || !IsAlnum(s[i - 1]))
  }

  /** The length of the alphanumeric run `s` starts with. */
  function RunLength(s: string): (k: nat)
    ensures k <= |s|
    ensures forall i :: 0 <= i < k ==> IsAlnum(s[i])
    ensures k < |s| ==> !IsAlnum(s[k])
  {
    if |s| == 0 || !IsAlnum(s[0]) then 0 else 1 + RunLength(s[1..])
  }

  lemma {:induction false} SplitAtSeparator(a: string, c: char, b: string)
    requires forall i :: 0 <= i < |a| ==> IsAlnum(a[i])
    requires !IsAlnum(c)
    ensures SplitKeepingSeparators(a + [c] + b) == [a, [c]] + SplitKeepingSeparators(b)
  {
    if |a| == 0 {
      assert a + [c] + b == [c] + b;
      assert ([c] + b)[1..] == b;
    } else {
      SplitAtSeparator(a[1..], c, b);
      assert (a + [c] + b)[1..] == a[1..] + [c] + b;
      assert [a[0]] + a[1..] == a;
    }
  }

  lemma {:induction false} SplitRun(a: string)
    requires forall i :: 0 <= i < |a| ==> IsAlnum(a[i])
    ensures SplitKeepingSeparators(a) == [a]
  {
    if |a| > 0 {
      SplitRun(a[1..]);
      assert [a[0]] + a[1..] == a;
    }
  }

  lemma JoinTwoPieces(x: string, y: string, rest: seq<string>)
    ensures JoinCapitalized([x, y] + rest) == CapitalizeWord(x) + CapitalizeWord(y) + JoinCapitalized(rest)
  {
    var pieces := [x, y] + rest;
    assert pieces[1..] == [y] + rest;
    assert pieces[1..][1..] == rest;
  }

  lemma SeparatorKept(c: char)
    requires !IsAlnum(c)
    ensures CapitalizeWord([c]) == [c]
  {
    assert [c][1..] == "";
  }

  /** A run, a separator, and the rest: the run is capitalised on its own and
      the separator is kept. */
  lemma CapitalizeAtSeparator(a: string, c: char, b: string)
    requires forall i :: 0 <= i < |a| ==> IsAlnum(a[i])
    requires !IsAlnum(c)
    ensures CapitalizeWords(a + [c] + b) == CapitalizeWord(a) + [c] + CapitalizeWords(b)
  {
    SplitAtSeparator(a, c, b);
    JoinTwoPieces(a, [c], SplitKeepingSeparators(b));
    SeparatorKept(c);
  }

  /** A run is capitalised as one word. */
  lemma CapitalizeRun(a: string)
    requires forall i :: 0 <= i < |a| ==> IsAlnum(a[i])
    ensures CapitalizeWords(a) == CapitalizeWord(a)
    ensures |a| > 0 ==> CapitalizeWords(a) == [UpperChar(a[0])] + a[1..]
  {
    SplitRun(a);
    assert [a][1..] == [];
    assert JoinCapitalized([a]) == CapitalizeWord(a) + JoinCapitalized([]);
  }

  /** `capitalizeWords` uppercases exactly the characters that begin an
      alphanumeric run and keeps every other character, so it keeps the length
      and every non-alphanumeric character. */
  lemma {:induction false} CapitalizeWordsPointwise(s: string)
    ensures |CapitalizeWords(s)| == |s|
    ensures forall i :: 0 <= i < |s| ==>
      CapitalizeWords(s)[i] == if StartsWord(s, i) then UpperChar(s[i]) else s[i]
    decreases |s|
  {
    var k := RunLength(s);
    if k == |s| {
      CapitalizeRun(s);
      RunPositions(s, k);
      assert s[..k] == s;
    } else {
      var a, c, b := s[..k], s[k], s[k + 1..];
      assert s == a + [c] + b;
      CapitalizeAtSeparator(a, c, b);
      CapitalizeWordsPointwise(b);
      RunPositions(s, k);
      RestPositions(s, k);
      var t := CapitalizeWords(s);
      assert t == CapitalizeWord(a) + [c] + CapitalizeWords(b);
      forall i | 0 <= i < |s|
        ensures t[i] == if StartsWord(s, i) then UpperChar(s[i]) else s[i]
      {
        if i < k {
          assert t[i] == CapitalizeWord(a)[i];
        } else if i == k {
          assert t[i] == c;
        } else {
          assert t[i] == CapitalizeWords(b)[i - k - 1];
        }
      }
    }
  }

  /** Inside the leading run only its first character starts a word. */
  lemma RunPositions(s: string, k: nat)
    requires k == RunLength(s)
    ensures forall i :: 0 <= i < k ==>
      CapitalizeWord(s[..k])[i] == if StartsWord(s, i) then UpperChar(s[i]) else s[i]
  {
    if k > 0 {
      assert HasAlnum(s[..k]);
    }
  }

  /** After the separator ending the leading run, word starts are those of the
      rest. */
  lemma RestPositions(s: string, k: nat)
    requires k == RunLength(s) && k < |s|
    ensures forall i :: k < i < |s| ==> StartsWord(s, i) == StartsWord(s[k + 1..], i - k - 1)
  {
    var b := s[k + 1..];
    forall i | k < i < |s|
      ensures StartsWord(s, i) == StartsWord(b, i - k - 1)
    {
      assert b[i - k - 1] == s[i];
      if i - k - 1 > 0 {
        assert b[i - k - 2] == s[i - 1];
      }
    }
  }

  lemma UpperCharKeepsAlnum(c: char)
    ensures IsAlnum(UpperChar(c)) == IsAlnum(c)
    ensures UpperChar(UpperChar(c)) == UpperChar(c)
  {
  }

  /** Capitalising twice is capitalising once. */
  lemma CapitalizeWordsIdempotent(s: string)
    ensures CapitalizeWords(CapitalizeWords(s)) == CapitalizeWords(s)
  {
    var t := CapitalizeWords(s);
    CapitalizeWordsPointwise(s);
    CapitalizeWordsPointwise(t);
    forall i | 0 <= i < |s|
      ensures IsAlnum(t[i]) == IsAlnum(s[i])
    {
      UpperCharKeepsAlnum(s[i]);
    }
    forall i | 0 <= i < |s|
      ensures CapitalizeWords(t)[i] == t[i]
    {
      assert StartsWord(t, i) == StartsWord(s, i);
      UpperCharKeepsAlnum(s[i]);
    }
  }
}
