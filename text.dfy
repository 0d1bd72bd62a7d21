/** String helpers with the meaning JavaScript gives the corresponding built-ins.
    Strings are sequences of characters; `toLowerCase`/`toUpperCase` are modelled
    over ASCII letters only, while the whitespace class of `\s` and `trim` is the
    full JavaScript set. Character codes are taken as code points (one UTF-16
    unit each for the Basic Multilingual Plane). */
module Text {
  import opened Common

  /** The characters matched by the regular-expression class `\s` and removed by
      `String.prototype.trim`: WhiteSpace and LineTerminator. */
  predicate IsWhitespace(c: char) {
    var n := c as int;
    n == 0x09 || n == 0x0A || n == 0x0B || n == 0x0C || n == 0x0D || n == 0x20
    || n == 0xA0 || n == 0x1680 || (0x2000 <= n <= 0x200A) || n == 0x2028
    || n == 0x2029 || n == 0x202F || n == 0x205F || n == 0x3000 || n == 0xFEFF
  }

  predicate IsUpper(c: char) { 'A' <= c <= 'Z' }
  predicate IsLower(c: char) { 'a' <= c <= 'z' }
  /** The regular-expression class `\d` (without the `u` flag). */
  predicate IsDigit(c: char) { '0' <= c <= '9' }
  /** The regular-expression class `[a-zA-Z0-9]`. */
  predicate IsAlnum(c: char) { IsUpper(c) || IsLower(c) || IsDigit(c) }

  /** `/\d/.test(s)`: the text has an ASCII digit. */
  predicate HasDigit(s: string) {
    exists i :: 0 <= i < |s| && IsDigit(s[i])
  }

  function LowerChar(c: char): char {
    if IsUpper(c) then (c as int + 32) as char else c
  }

  function UpperChar(c: char): char {
    if IsLower(c) then (c as int - 32) as char else c
  }

  function ToLower(s: string): (r: string)
    ensures |r| == |s|
    ensures forall i :: 0 <= i < |s| ==> r[i] == LowerChar(s[i])
  {
    seq(|s|, i requires 0 <= i < |s| => LowerChar(s[i]))
  }

  function ToUpper(s: string): (r: string)
    ensures |r| == |s|
    ensures forall i :: 0 <= i < |s| ==> r[i] == UpperChar(s[i])
  {
    seq(|s|, i requires 0 <= i < |s| => UpperChar(s[i]))
  }

  lemma ToLowerAppend(a: string, b: string)
    ensures ToLower(a + b) == ToLower(a) + ToLower(b)
  {
  }

  /** `s.replace(/\s+/g, '')`: every whitespace character goes, every other
      character stays. `RemoveWhitespaceAppend` and `RemoveWhitespaceChar`
      together fix the result, order included. */
  function RemoveWhitespace(s: string): (r: string)
    ensures forall i :: 0 <= i < |r| ==> !IsWhitespace(r[i])
    ensures forall c :: c in r ==> c in s
    ensures |r| <= |s|
  {
    if |s| == 0 then ""
    else if IsWhitespace(s[0]) then RemoveWhitespace(s[1..])
    else [s[0]] + RemoveWhitespace(s[1..])
  }

  /** Every character that is not whitespace survives. */
  lemma {:induction false} RemoveWhitespaceKeepsCharacters(s: string, c: char)
    requires c in s && !IsWhitespace(c)
    ensures c in RemoveWhitespace(s)
  {
    if s[0] != c {
      RemoveWhitespaceKeepsCharacters(s[1..], c);
    }
  }

  /** The removal works piece by piece, keeping the pieces' order. */
  lemma {:induction false} RemoveWhitespaceAppend(a: string, b: string)
    ensures RemoveWhitespace(a + b) == RemoveWhitespace(a) + RemoveWhitespace(b)
  {
    if |a| > 0 {
      assert (a + b)[1..] == a[1..] + b;
      RemoveWhitespaceAppend(a[1..], b);
    } else {
      assert a + b == b;
    }
  }

  /** A single character is dropped exactly when it is whitespace. */
  lemma RemoveWhitespaceChar(c: char)
    ensures RemoveWhitespace([c]) == if IsWhitespace(c) then "" else [c]
  {
  }

  /** Trimming first changes nothing: the removal drops the same ends. */
  lemma RemoveWhitespaceTrimmed(s: string)
    ensures RemoveWhitespace(Trim(s)) == RemoveWhitespace(s)
  {
    RemoveWhitespaceTrimStart(TrimEnd(s));
    RemoveWhitespaceTrimEnd(s);
  }

  lemma {:induction false} RemoveWhitespaceTrimStart(s: string)
    ensures RemoveWhitespace(TrimStart(s)) == RemoveWhitespace(s)
    decreases |s|
  {
    if |s| > 0 && IsWhitespace(s[0]) {
      RemoveWhitespaceTrimStart(s[1..]);
    }
  }

  lemma {:induction false} RemoveWhitespaceTrimEnd(s: string)
    ensures RemoveWhitespace(TrimEnd(s)) == RemoveWhitespace(s)
    decreases |s|
  {
    if |s| > 0 && IsWhitespace(s[|s| - 1]) {
      var init := s[..|s| - 1];
      RemoveWhitespaceTrimEnd(init);
      assert s == init + [s[|s| - 1]];
      RemoveWhitespaceAppend(init, [s[|s| - 1]]);
      RemoveWhitespaceChar(s[|s| - 1]);
    }
  }

  /** A text without whitespace passes through unchanged. */
  lemma {:induction false} RemoveWhitespaceKeeps(s: string)
    requires forall i :: 0 <= i < |s| ==> !IsWhitespace(s[i])
    ensures RemoveWhitespace(s) == s
  {
    if |s| > 0 {
      RemoveWhitespaceKeeps(s[1..]);
    }
  }

  function TrimStart(s: string): (r: string)
    decreases |s|
  {
    if |s| > 0 && IsWhitespace(s[0]) then TrimStart(s[1..]) else s
  }

  function TrimEnd(s: string): (r: string)
    decreases |s|
  {
    if |s| > 0 && IsWhitespace(s[|s| - 1]) then TrimEnd(s[..|s| - 1]) else s
  }

  /** `s.trim()`. */
  function Trim(s: string): string {
    TrimStart(TrimEnd(s))
  }

  predicate StartsWith(s: string, p: string) {
    |p| <= |s| && s[..|p|] == p
  }

  predicate EndsWith(s: string, t: string) {
    |t| <= |s| && s[|s| - |t|..] == t
  }

  /** `s.includes(t)`. */
  predicate Contains(s: string, t: string)
    decreases |s|
  {
    StartsWith(s, t) || (|s| > 0 && Contains(s[1..], t))
  }

  /** An occurrence of `t` at position `k` makes `s` contain `t`. */
  lemma {:induction false} ContainsAt(s: string, t: string, k: nat)
    requires k + |t| <= |s| && s[k..k + |t|] == t
    ensures Contains(s, t)
    decreases k
  {
    if k > 0 {
      assert s[1..][k - 1..k - 1 + |t|] == t;
      ContainsAt(s[1..], t, k - 1);
    }
  }

  /** Containment passes through a containing text: a text holding `t` holds
      everything `t` holds. */
  lemma ContainsTransitive(s: string, t: string, u: string)
    requires Contains(s, t) && Contains(t, u)
    ensures Contains(s, u)
  {
    IndexOfFindsOccurrence(s, t);
    IndexOfFindsOccurrence(t, u);
    var k, m := IndexOf(s, t).value, IndexOf(t, u).value;
    assert s[k..k + |t|] == t;
    SliceOfSlice(s, k, k + |t|, m, m + |u|);
    ContainsAt(s, u, k + m);
  }

  lemma ContainsMiddle(a: string, t: string, b: string)
    ensures Contains(a + t + b, t)
  {
    assert (a + t + b)[|a|..|a| + |t|] == t;
    ContainsAt(a + t + b, t, |a|);
  }

  lemma SliceOfSlice(s: string, i: nat, j: nat, a: nat, b: nat)
    requires i <= j <= |s| && a <= b <= j - i
    ensures s[i..j][a..b] == s[i + a..i + b]
  {
    forall k | 0 <= k < b - a
      ensures s[i..j][a..b][k] == s[i + a..i + b][k]
    {
    }
  }

  lemma ContainsSelf(s: string)
    ensures Contains(s, s)
  {
    ContainsAt(s, s, 0);
  }

  /** What a text contains, its extension contains. */
  lemma ContainsAppend(a: string, b: string, t: string)
    requires Contains(a, t)
    ensures Contains(a + b, t)
  {
    IndexOfFindsOccurrence(a, t);
    var k := IndexOf(a, t).value;
    assert (a + b)[k..k + |t|] == a[k..k + |t|];
    ContainsAt(a + b, t, k);
  }

  /** Lowering both sides keeps an occurrence. */
  lemma ContainsLowered(s: string, t: string)
    requires Contains(s, t)
    ensures Contains(ToLower(s), ToLower(t))
  {
    IndexOfFindsOccurrence(s, t);
    var k := IndexOf(s, t).value;
    assert ToLower(s)[k..k + |t|] == ToLower(t);
    ContainsAt(ToLower(s), ToLower(t), k);
  }

  /** `s.indexOf(t)`, with None for -1. */
  function IndexOf(s: string, t: string): (r: Option<nat>)
    ensures r.Some? ==> r.value + |t| <= |s|
    decreases |s|
  {
    if StartsWith(s, t) then Some(0)
    else if |s| == 0 then None
    else match IndexOf(s[1..], t)
      case Some(k) => Some(k + 1)
      case None => None
  }

  lemma {:induction false} IndexOfFindsOccurrence(s: string, t: string)
    ensures IndexOf(s, t).Some? <==> Contains(s, t)
    ensures IndexOf(s, t).Some? ==>
      var k := IndexOf(s, t).value;
      k + |t| <= |s| && s[k..k + |t|] == t
    decreases |s|
  {
    if !StartsWith(s, t) && |s| > 0 {
      IndexOfFindsOccurrence(s[1..], t);
      if IndexOf(s[1..], t).Some? {
        var k := IndexOf(s[1..], t).value;
        assert s[k + 1..k + 1 + |t|] == s[1..][k..k + |t|];
      }
    }
  }

  /** No occurrence of `t` starts before the one `IndexOf` finds. */
  lemma {:induction false} IndexOfIsFirst(s: string, t: string)
    requires IndexOf(s, t).Some?
    ensures forall j :: 0 <= j < IndexOf(s, t).value ==> !StartsWith(s[j..], t)
    decreases |s|
  {
    if !StartsWith(s, t) {
      IndexOfIsFirst(s[1..], t);
      forall j | 0 < j < IndexOf(s, t).value
        ensures !StartsWith(s[j..], t)
      {
        assert s[j..] == s[1..][j - 1..];
      }
    }
  }

  /** `s.split(c)[0]`: the text before the first `c`, or all of `s`. */
  function BeforeFirst(s: string, c: char): (r: string)
    ensures |r| <= |s| && r == s[..|r|]
    ensures c !in r
    ensures c in s ==> |r| < |s| && s[|r|] == c
    ensures c !in s ==> r == s
  {
    if |s| == 0 then ""
    else if s[0] == c then ""
    else [s[0]] + BeforeFirst(s[1..], c)
  }

  lemma {:induction false} BeforeFirstOfJoined(n: string, c: char, e: string)
    requires c !in n
    ensures BeforeFirst(n + [c] + e, c) == n
  {
    var s := n + [c] + e;
    assert s[|n|] == c;
    assert forall i :: 0 <= i < |n| ==> s[i] == n[i] && s[i] != c;
  }

  /** The text after the first `c`, or the empty text when there is none. */
  function AfterFirst(s: string, c: char): (r: string)
    ensures c in s ==> s == BeforeFirst(s, c) + [c] + r
    ensures c !in s ==> r == ""
  {
    if c in s then s[|BeforeFirst(s, c)| + 1..] else ""
  }

  /** The text after the first `c` of `a + [c] + x`, when `a` has none. */
  lemma AfterFirstOfJoined(a: string, c: char, x: string)
    requires c !in a
    ensures AfterFirst(a + [c] + x, c) == x
  {
    var s := a + [c] + x;
    BeforeFirstOfJoined(a, c, x);
    assert s[|a|] == c;
    assert s[|a| + 1..] == x;
  }

  /** `s.slice(0, -k)`: drop the last `k` characters; JavaScript reads `-0` as
      the end index 0, so nothing is kept when `k` is 0. */
  function DropLast(s: string, k: nat): (r: string)
    ensures k > 0 && |s| >= k ==> s == r + s[|s| - k..]
    ensures k == 0 || |s| < k ==> r == ""
  {
    if k > 0 && |s| >= k then s[..|s| - k] else ""
  }

  /** `s.split(c)` for a one-character separator. */
  function Split(s: string, c: char): (parts: seq<string>)
    ensures |parts| >= 1
    ensures forall i :: 0 <= i < |parts| ==> c !in parts[i]
  {
    if |s| == 0 then [""]
    else if s[0] == c then [""] + Split(s[1..], c)
    else
      var rest := Split(s[1..], c);
      [[s[0]] + rest[0]] + rest[1..]
  }

  /** `parts.join(sep)`. */
  function Join(parts: seq<string>, sep: string): string {
    if |parts| == 0 then ""
    else if |parts| == 1 then parts[0]
    else parts[0] + sep + Join(parts[1..], sep)
  }

  lemma {:induction false} SplitFirstIsBeforeFirst(s: string, c: char)
    ensures Split(s, c)[0] == BeforeFirst(s, c)
  {
    if |s| > 0 && s[0] != c {
      SplitFirstIsBeforeFirst(s[1..], c);
    }
  }

  /** Splitting and re-joining with the same separator gives the text back. */
  lemma {:induction false} JoinSplit(s: string, c: char)
    ensures Join(Split(s, c), [c]) == s
  {
    if |s| == 0 {
    } else if s[0] == c {
      JoinSplit(s[1..], c);
      var rest := Split(s[1..], c);
      assert Join([""] + rest, [c]) == "" + [c] + Join(rest, [c]) by {
        assert ([""] + rest)[1..] == rest;
      }
      assert s == [c] + s[1..];
    } else {
      JoinSplit(s[1..], c);
      var rest := Split(s[1..], c);
      var parts := [[s[0]] + rest[0]] + rest[1..];
      if |rest| == 1 {
        assert Join(parts, [c]) == [s[0]] + rest[0];
        assert Join(rest, [c]) == rest[0];
      } else {
        assert parts[1..] == rest[1..];
        assert Join(rest, [c]) == rest[0] + [c] + Join(rest[1..], [c]);
        assert Join(parts, [c]) == [s[0]] + rest[0] + [c] + Join(rest[1..], [c]);
      }
      assert s == [s[0]] + s[1..];
    }
  }

  /** Past the first separator, `split` goes on with the rest of the text. */
  lemma {:induction false} SplitAfterFirst(s: string, c: char)
    requires c in s
    ensures |Split(s, c)| >= 2
    ensures Split(s, c)[1..] == Split(AfterFirst(s, c), c)
  {
    if s[0] == c {
      assert BeforeFirst(s, c) == "";
      assert AfterFirst(s, c) == s[1..];
    } else {
      var t := s[1..];
      assert c in t by {
        var k :| 0 <= k < |s| && s[k] == c;
        assert t[k - 1] == c;
      }
      SplitAfterFirst(t, c);
      assert BeforeFirst(s, c) == [s[0]] + BeforeFirst(t, c);
      assert AfterFirst(s, c) == AfterFirst(t, c);
    }
  }

  /** A text without the separator, the separator, and more: the first piece is
      that text and the others come from the rest. */
  lemma {:induction false} SplitAtFirst(a: string, c: char, b: string)
    requires c !in a
    ensures Split(a + [c] + b, c) == [a] + Split(b, c)
  {
    var s := a + [c] + b;
    assert c in s by { assert s[|a|] == c; }
    SplitAfterFirst(s, c);
    SplitFirstIsBeforeFirst(s, c);
    BeforeFirstOfJoined(a, c, b);
    assert AfterFirst(s, c) == b;
  }

  lemma {:induction false} SplitWithout(s: string, c: char)
    requires c !in s
    ensures Split(s, c) == [s]
  {
    if |s| > 0 {
      SplitWithout(s[1..], c);
      assert [s[0]] + s[1..] == s;
    }
  }

  /** `s.split(/[^a-zA-Z0-9]/)`: one piece per gap between separators. */
  function SplitNonAlnum(s: string): (parts: seq<string>)
    ensures |parts| >= 1
  {
    if |s| == 0 then [""]
    else if !IsAlnum(s[0]) then [""] + SplitNonAlnum(s[1..])
    else
      var rest := SplitNonAlnum(s[1..]);
      [[s[0]] + rest[0]] + rest[1..]
  }

  /** An alphanumeric run, a separator, and more: the run is the first piece. */
  lemma {:induction false} SplitNonAlnumAt(a: string, c: char, b: string)
    requires forall i :: 0 <= i < |a| ==> IsAlnum(a[i])
    requires !IsAlnum(c)
    ensures SplitNonAlnum(a + [c] + b) == [a] + SplitNonAlnum(b)
  {
    if |a| == 0 {
      assert a + [c] + b == [c] + b;
      assert ([c] + b)[1..] == b;
    } else {
      SplitNonAlnumAt(a[1..], c, b);
      assert (a + [c] + b)[1..] == a[1..] + [c] + b;
      assert [a[0]] + a[1..] == a;
    }
  }

  lemma {:induction false} SplitNonAlnumRun(a: string)
    requires forall i :: 0 <= i < |a| ==> IsAlnum(a[i])
    ensures SplitNonAlnum(a) == [a]
  {
    if |a| > 0 {
      SplitNonAlnumRun(a[1..]);
      assert [a[0]] + a[1..] == a;
    }
  }

  /** Decimal rendering of a natural number, as template literals print it. */
  function NatToString(n: nat): (r: string)
    ensures |r| >= 1
    ensures forall i :: 0 <= i < |r| ==> IsDigit(r[i])
  {
    if n < 10 then [DigitChar(n)] else NatToString(n / 10) + [DigitChar(n % 10)]
  }

  function DigitChar(d: nat): (c: char)
    requires d < 10
    ensures IsDigit(c) && DigitValue(c) == d
  {
    ('0' as int + d) as char
  }

  /** The number a text of decimal digits denotes. */
  function DecimalValue(s: string): nat
    requires forall i :: 0 <= i < |s| ==> IsDigit(s[i])
  {
    if |s| == 0 then 0 else DecimalValue(s[..|s| - 1]) * 10 + DigitValue(s[|s| - 1])
  }

  function DigitValue(c: char): nat
    requires IsDigit(c)
  {
    c as int - '0' as int
  }

  /** Reading the rendering back gives the number. */
  lemma {:induction false} DecimalRoundTrip(n: nat)
    ensures DecimalValue(NatToString(n)) == n
  {
    if n >= 10 {
      DecimalRoundTrip(n / 10);
      var s := NatToString(n);
      assert s[..|s| - 1] == NatToString(n / 10);
    }
  }

  /** A text contains only characters of the texts it contains. */
  lemma {:induction false} ContainsHasChars(s: string, t: string)
    ensures Contains(s, t) ==> forall c :: c in t ==> c in s
    decreases |s|
  {
    if |s| > 0 {
      ContainsHasChars(s[1..], t);
      assert forall c :: c in s[1..] ==> c in s;
    }
    if StartsWith(s, t) {
      assert forall c :: c in t ==> c in s[..|t|];
    }
  }

  /** No character of the text is one of `cs`. */
  predicate Avoids(s: string, cs: set<char>) {
    forall i | 0 <= i < |s| :: s[i] !in cs
  }

  /** Two texts that avoid `cs` join into one that does. */
  lemma AvoidsJoin(a: string, b: string, cs: set<char>)
    requires Avoids(a, cs) && Avoids(b, cs)
    ensures Avoids(a + b, cs)
  {
    forall i | 0 <= i < |a + b|
      ensures (a + b)[i] !in cs
    {
      if i >= |a| {
        assert (a + b)[i] == b[i - |a|];
      }
    }
  }

  /** The order `Array.prototype.sort` uses by default: code units compared
      lexicographically, a proper prefix first. */
  predicate Less(a: string, b: string)
    decreases |a|
  {
    if |a| == 0 then |b| > 0
    else if |b| == 0 then false
    else if a[0] != b[0] then a[0] < b[0]
    else Less(a[1..], b[1..])
  }

  lemma LessByFirst(a: string, b: string)
    requires |a| > 0 && |b| > 0 && a[0] < b[0]
    ensures Less(a, b)
  {
  }

  lemma LessBySecond(a: string, b: string)
    requires |a| > 1 && |b| > 1 && a[0] == b[0] && a[1] < b[1]
    ensures Less(a, b)
  {
    LessByFirst(a[1..], b[1..]);
  }

  predicate StrictlySorted(s: seq<string>) {
    forall i :: 0 <= i < |s| - 1 ==> Less(s[i], s[i + 1])
  }
}
