/** The Python string primitives the bot relies on, stated over `string` (a sequence of
    Unicode scalar values, so `|s|` is Python's `len(s)`): whitespace, `strip()`,
    `split()`, `split(sep)`, `sep.join(...)`, `isdigit()`, `str(n)` and `int(s)`. */
module Strings {
  import opened Wrappers

  // ---------------------------------------------------------------------------
  // Character classes
  // ---------------------------------------------------------------------------

  /** The characters for which Python's `str.isspace()` holds. */
  const SpaceChars: set<char> := {
    ' ', '\t', '\n', '\U{000B}', '\U{000C}', '\r',
    '\U{001C}', '\U{001D}', '\U{001E}', '\U{001F}',
    '\U{0085}', '\U{00A0}', '\U{1680}',
    '\U{2000}', '\U{2001}', '\U{2002}', '\U{2003}', '\U{2004}', '\U{2005}',
    '\U{2006}', '\U{2007}', '\U{2008}', '\U{2009}', '\U{200A}',
    '\U{2028}', '\U{2029}', '\U{202F}', '\U{205F}', '\U{3000}'
  }

  /** Python's `str.isspace()` for a single character. */
  predicate IsSpace(c: char) {
    c in SpaceChars
  }

  /** A decimal digit: ASCII, Arabic-Indic or Extended Arabic-Indic (Persian). */
  predicate IsDigit(c: char) {
    ('0' <= c <= '9') || ('\U{0660}' <= c <= '\U{0669}') || ('\U{06F0}' <= c <= '\U{06F9}')
  }

  function DigitValue(c: char): (d: nat)
    requires IsDigit(c)
    ensures d < 10
  {
    if '0' <= c <= '9' then c as int - '0' as int
    else if c <= '\U{0669}' then c as int - 0x660
    else c as int - 0x6F0
  }

  predicate NoSpace(s: string) {
    forall i | 0 <= i < |s| :: !IsSpace(s[i])
  }

  predicate AllSpace(s: string) {
    forall i | 0 <= i < |s| :: IsSpace(s[i])
  }

  /** Python's `s.isdigit()`: non-empty and every character a digit. */
  predicate IsDigits(s: string) {
    |s| > 0 && forall i | 0 <= i < |s| :: IsDigit(s[i])
  }

  /** The shape of a `strip()` result: no whitespace at either end. */
  predicate Stripped(s: string) {
    s == [] || (!IsSpace(s[0]) && !IsSpace(s[|s| - 1]))
  }

  // ---------------------------------------------------------------------------
  // strip()
  // ---------------------------------------------------------------------------

  /** `s.lstrip()`. */
  function TrimStart(s: string): string {
    if s != [] && IsSpace(s[0]) then TrimStart(s[1..]) else s
  }

  /** `s.rstrip()`. */
  function TrimEnd(s: string): string {
    if s != [] && IsSpace(s[|s| - 1]) then TrimEnd(s[..|s| - 1]) else s
  }

  /** `lstrip()` drops exactly the maximal leading run of whitespace. */
  lemma {:induction false} TrimStartSpec(s: string)
    ensures |TrimStart(s)| <= |s| && TrimStart(s) == s[|s| - |TrimStart(s)|..]
    ensures AllSpace(s[..|s| - |TrimStart(s)|])
    ensures TrimStart(s) == [] || !IsSpace(TrimStart(s)[0])
  {
    if s != [] && IsSpace(s[0]) {
      TrimStartSpec(s[1..]);
    }
  }

  /** `rstrip()` drops exactly the maximal trailing run of whitespace. */
  lemma {:induction false} TrimEndSpec(s: string)
    ensures |TrimEnd(s)| <= |s| && TrimEnd(s) == s[..|TrimEnd(s)|]
    ensures AllSpace(s[|TrimEnd(s)|..])
    ensures TrimEnd(s) == [] || !IsSpace(TrimEnd(s)[|TrimEnd(s)| - 1])
  {
    if s != [] && IsSpace(s[|s| - 1]) {
      TrimEndSpec(s[..|s| - 1]);
      assert s[|TrimEnd(s)|..] == s[..|s| - 1][|TrimEnd(s)|..] + [s[|s| - 1]];
    }
  }

  /** `s.strip()`. */
  function Strip(s: string): (r: string)
    ensures Stripped(r)
    ensures |r| <= |s|
  {
    TrimStartSpec(s);
    TrimEndSpec(TrimStart(s));
    TrimEnd(TrimStart(s))
  }

  /** `strip()` removes only whitespace, and only from the ends. */
  lemma StripDecompose(s: string) returns (lead: nat)
    ensures lead + |Strip(s)| <= |s|
    ensures s == s[..lead] + Strip(s) + s[lead + |Strip(s)|..]
    ensures AllSpace(s[..lead]) && AllSpace(s[lead + |Strip(s)|..])
  {
    var t := TrimStart(s);
    TrimStartSpec(s);
    lead := |s| - |t|;
    var r := TrimEnd(t);
    TrimEndSpec(t);
    assert s[lead..] == t;
    assert t == r + t[|r|..];
    assert s[lead + |r|..] == t[|r|..];
    calc {
      s;
      s[..lead] + s[lead..];
      s[..lead] + (r + t[|r|..]);
      s[..lead] + r + s[lead + |r|..];
    }
  }

  lemma StripOfStripped(s: string)
    requires Stripped(s)
    ensures Strip(s) == s
  {
  }

  /** `strip()` yields the empty string exactly for whitespace-only input. */
  lemma StripEmptyIff(s: string)
    ensures Strip(s) == [] <==> AllSpace(s)
  {
    var lead := StripDecompose(s);
    var r := Strip(s);
    if r != [] {
      assert r[0] == s[lead];
      assert !IsSpace(s[lead]);
    } else {
      forall i | 0 <= i < |s|
        ensures IsSpace(s[i])
      {
        if i < lead {
          assert s[i] == s[..lead][i];
        } else {
          assert s[i] == s[lead + |r|..][i - lead];
        }
      }
    }
  }

  /** Stripping text followed by whitespace gives back the text. */
  lemma StripTrailing(body: string, sep: string)
    requires Stripped(body) && AllSpace(sep)
    ensures Strip(body + sep) == body
  {
    var s := body + sep;
    if body == [] {
      assert s == sep;
      TrimStartOfSpace(s);
    } else {
      assert TrimStart(s) == s;
      TrimEndAppendSpace(body, sep);
    }
  }

  lemma {:induction false} TrimStartOfSpace(s: string)
    requires AllSpace(s)
    ensures TrimStart(s) == []
  {
    if s != [] {
      TrimStartOfSpace(s[1..]);
    }
  }

  lemma {:induction false} TrimEndAppendSpace(body: string, sep: string)
    requires Stripped(body) && AllSpace(sep)
    ensures TrimEnd(body + sep) == body
    decreases |sep|
  {
    if sep == [] {
      assert body + sep == body;
    } else {
      var s := body + sep;
      assert s[..|s| - 1] == body + sep[..|sep| - 1];
      TrimEndAppendSpace(body, sep[..|sep| - 1]);
    }
  }

  // ---------------------------------------------------------------------------
  // split() — whitespace-separated words
  // ---------------------------------------------------------------------------

  /** Length of the leading run of non-whitespace characters. */
  function WordEnd(s: string): (n: nat)
    ensures n <= |s|
  {
    if s == [] || IsSpace(s[0]) then 0 else 1 + WordEnd(s[1..])
  }

  lemma {:induction false} WordEndSpec(s: string)
    ensures NoSpace(s[..WordEnd(s)])
    ensures WordEnd(s) < |s| ==> IsSpace(s[WordEnd(s)])
  {
    if s != [] && !IsSpace(s[0]) {
      WordEndSpec(s[1..]);
      assert s[..WordEnd(s)] == [s[0]] + s[1..][..WordEnd(s[1..])];
    }
  }

  /** Python's `s.split()` with no argument: the maximal runs of non-whitespace, in order. */
  function Words(s: string): seq<string>
    decreases |s|
  {
    if s == [] then []
    else if IsSpace(s[0]) then Words(s[1..])
    else
      var n := WordEnd(s);
      [s[..n]] + Words(s[n..])
  }

  /** Every word is non-empty and free of whitespace. */
  lemma {:induction false} WordsShape(s: string)
    ensures forall k | 0 <= k < |Words(s)| :: Words(s)[k] != [] && NoSpace(Words(s)[k])
    decreases |s|
  {
    if s == [] {
    } else if IsSpace(s[0]) {
      WordsShape(s[1..]);
    } else {
      var n := WordEnd(s);
      WordEndSpec(s);
      WordsShape(s[n..]);
    }
  }

  /** The words of every string of `ss`, concatenated in order. */
  function WordsOfAll(ss: seq<string>): seq<string> {
    if ss == [] then [] else Words(ss[0]) + WordsOfAll(ss[1..])
  }

  lemma {:induction false} WordsOfAllAppend(a: seq<string>, b: seq<string>)
    ensures WordsOfAll(a + b) == WordsOfAll(a) + WordsOfAll(b)
  {
    if a == [] {
      assert a + b == b;
    } else {
      assert (a + b)[1..] == a[1..] + b;
      WordsOfAllAppend(a[1..], b);
    }
  }

  lemma {:induction false} WordEndAppend(x: string, y: string)
    ensures WordEnd(x + y) == if WordEnd(x) < |x| then WordEnd(x) else |x| + WordEnd(y)
    decreases |x|
  {
    if x == [] {
      assert x + y == y;
    } else if !IsSpace(x[0]) {
      assert (x + y)[1..] == x[1..] + y;
      WordEndAppend(x[1..], y);
    }
  }

  lemma {:induction false} WordsOfSpace(s: string)
    requires AllSpace(s)
    ensures Words(s) == []
  {
    if s != [] {
      WordsOfSpace(s[1..]);
    }
  }

  lemma {:induction false} WordEndOfWord(w: string)
    requires NoSpace(w)
    ensures WordEnd(w) == |w|
  {
    if w != [] {
      WordEndOfWord(w[1..]);
    }
  }

  lemma WordsOfWord(w: string)
    requires w != [] && NoSpace(w)
    ensures Words(w) == [w]
  {
    WordEndOfWord(w);
    assert w[..|w|] == w;
    assert w[|w|..] == [];
  }

  /** Concatenation at a whitespace boundary concatenates the word lists. */
  lemma {:induction false} WordsAppend(a: string, b: string)
    requires a == [] || b == [] || IsSpace(a[|a| - 1]) || IsSpace(b[0])
    ensures Words(a + b) == Words(a) + Words(b)
    decreases |a|
  {
    if a == [] {
      assert a + b == b;
    } else if b == [] {
      assert a + b == a;
    } else if IsSpace(a[0]) {
      assert (a + b)[1..] == a[1..] + b;
      WordsAppend(a[1..], b);
    } else {
      var n := WordEnd(a);
      WordEndAppend(a, b);
      WordEndSpec(a);
      if n < |a| {
        assert (a + b)[..n] == a[..n];
        assert (a + b)[n..] == a[n..] + b;
        WordsAppend(a[n..], b);
      } else {
        assert a[..n] == a;
        assert a[n..] == [];
        assert IsSpace(b[0]);
        assert WordEnd(b) == 0;
        assert WordEnd(a + b) == n;
        assert Words(a) == [a] + Words([]);
        assert (a + b)[..n] == a;
        assert (a + b)[n..] == b;
      }
    }
  }

  /** Words are unaffected by surrounding whitespace. */
  lemma WordsOfStrip(s: string)
    ensures Words(Strip(s)) == Words(s)
  {
    var lead := StripDecompose(s);
    var l, m, r := s[..lead], Strip(s), s[lead + |Strip(s)|..];
    WordsAppend(l, m + r);
    WordsOfSpace(l);
    WordsAppend(m, r);
    WordsOfSpace(r);
    assert s == l + (m + r);
  }

  /** Text, a whitespace separator, and another word: the word list grows by that word. */
  lemma WordsThenWord(body: string, sep: string, w: string)
    requires AllSpace(sep) && (body != [] ==> sep != [])
    requires w != [] && NoSpace(w)
    ensures Words(body + sep + w) == Words(body) + [w]
  {
    WordsThenText(body, sep, w);
    WordsOfWord(w);
  }

  /** Text, a whitespace separator, and more text: the word lists concatenate. */
  lemma WordsThenText(body: string, sep: string, p: string)
    requires AllSpace(sep) && (body != [] ==> sep != [])
    ensures Words(body + sep + p) == Words(body) + Words(p)
  {
    var q := sep + p;
    WordsAppend(sep, p);
    WordsOfSpace(sep);
    assert Words(q) == Words(p);
    if body == [] {
      assert body + sep + p == q;
      assert Words(body) == [];
    } else {
      assert body + sep + p == body + q;
      WordsAppend(body, q);
    }
  }

  // ---------------------------------------------------------------------------
  // split(sep) and sep.join(...)
  // ---------------------------------------------------------------------------

  /** `sep` occurs in `s` starting at index `j`. */
  predicate OccursAt(s: string, sep: string, j: nat) {
    j + |sep| <= |s| && s[j..j + |sep|] == sep
  }

  /** The first index at or after `from` where `sep` occurs in `s`. */
  function FindFrom(s: string, sep: string, from: nat): (r: Option<nat>)
    requires |sep| > 0
    ensures r.Some? ==> from <= r.value && OccursAt(s, sep, r.value)
    ensures r.Some? ==> forall j: nat | from <= j < r.value :: !OccursAt(s, sep, j)
    ensures r.None? ==> forall j: nat | from <= j :: !OccursAt(s, sep, j)
    decreases |s| - from
  {
    if from + |sep| > |s| then None
    else if s[from..from + |sep|] == sep then Some(from)
    else FindFrom(s, sep, from + 1)
  }

  /** Python's `s.split(sep)`: the pieces between non-overlapping occurrences of `sep`,
      scanned left to right; always at least one piece. */
  function SplitOn(s: string, sep: string): (parts: seq<string>)
    requires |sep| > 0
    ensures |parts| >= 1
    decreases |s|
  {
    match FindFrom(s, sep, 0)
    case None => [s]
    case Some(i) => [s[..i]] + SplitOn(s[i + |sep|..], sep)
  }

  /** Python's `sep.join(parts)`. */
  function Join(parts: seq<string>, sep: string): string {
    if |parts| == 0 then ""
    else if |parts| == 1 then parts[0]
    else parts[0] + sep + Join(parts[1..], sep)
  }

  /** Joining the pieces of a split with the same separator restores the text. */
  lemma {:induction false} JoinSplitOn(s: string, sep: string)
    requires |sep| > 0
    ensures Join(SplitOn(s, sep), sep) == s
    decreases |s|
  {
    var found := FindFrom(s, sep, 0);
    if found.Some? {
      var i := found.value;
      var rest := s[i + |sep|..];
      var tail := SplitOn(rest, sep);
      var parts := [s[..i]] + tail;
      assert SplitOn(s, sep) == parts;
      JoinSplitOn(rest, sep);
      assert parts[0] == s[..i] && parts[1..] == tail;
      assert Join(parts, sep) == s[..i] + sep + Join(tail, sep);
      assert s[i..i + |sep|] == sep;
      assert s == s[..i] + s[i..i + |sep|] + rest;
    }
  }

  /** The first occurrence of a character is found where it is. */
  lemma {:induction false} FindCharAt(s: string, c: char, from: nat, at: nat)
    requires from <= at < |s| && s[at] == c
    requires forall j | from <= j < at :: s[j] != c
    ensures FindFrom(s, [c], from) == Some(at)
    decreases at - from
  {
    if from < at {
      assert s[from..from + 1] != [c] by {
        assert s[from..from + 1][0] == s[from];
      }
      FindCharAt(s, c, from + 1, at);
    } else {
      assert s[from..from + 1] == [c];
    }
  }

  /** A character that does not occur is not found. */
  lemma {:induction false} FindCharNone(s: string, c: char, from: nat)
    requires forall j | from <= j < |s| :: s[j] != c
    ensures FindFrom(s, [c], from) == None
    decreases |s| - from
  {
    if from < |s| {
      assert s[from..from + 1] != [c] by {
        assert s[from..from + 1][0] == s[from];
      }
      FindCharNone(s, c, from + 1);
    }
  }

  /** Splitting a one-character-separated join gives back the pieces when no piece
      contains the separator. */
  lemma {:induction false} SplitOnJoin(parts: seq<string>, c: char)
    requires |parts| >= 1
    requires forall k | 0 <= k < |parts| :: c !in parts[k]
    ensures SplitOn(Join(parts, [c]), [c]) == parts
  {
    var p := parts[0];
    if |parts| == 1 {
      FindCharNone(p, c, 0);
      assert parts == [p];
    } else {
      var rest := Join(parts[1..], [c]);
      var s := p + [c] + rest;
      assert Join(parts, [c]) == s;
      FindCharAt(s, c, 0, |p|);
      assert s[..|p|] == p;
      assert s[|p| + 1..] == rest;
      SplitOnJoin(parts[1..], c);
      assert parts == [p] + parts[1..];
    }
  }

  /** Joining with whitespace neither creates nor merges words. */
  lemma {:induction false} WordsOfJoin(parts: seq<string>, sep: string)
    requires sep != [] && AllSpace(sep)
    ensures Words(Join(parts, sep)) == WordsOfAll(parts)
  {
    if |parts| == 0 {
      assert Words("") == [];
    } else if |parts| == 1 {
      assert WordsOfAll(parts) == Words(parts[0]) + WordsOfAll([]);
    } else {
      WordsOfJoin(parts[1..], sep);
      WordsThenText(parts[0], sep, Join(parts[1..], sep));
    }
  }

  // ---------------------------------------------------------------------------
  // str(n) and int(s)
  // ---------------------------------------------------------------------------

  /** Python's `str(n)` for a non-negative integer: ASCII decimal digits, no leading zero. */
  function NatToString(n: nat): (s: string)
    ensures s != [] && forall i | 0 <= i < |s| :: '0' <= s[i] <= '9'
    ensures |s| > 1 ==> s[0] != '0'
  {
    if n < 10 then [('0' as int + n) as char]
    else NatToString(n / 10) + [('0' as int + n % 10) as char]
  }

  /** Digits, with single underscores allowed between two digits (Python's literal grammar). */
  predicate DigitGroups(s: string) {
    && |s| > 0 && IsDigit(s[0]) && IsDigit(s[|s| - 1])
    && forall i | 0 <= i < |s| ::
         IsDigit(s[i]) || (s[i] == '_' && 0 < i < |s| - 1 && IsDigit(s[i - 1]) && IsDigit(s[i + 1]))
  }

  /** The decimal value of a digit string, underscores skipped. */
  function DigitsValue(s: string): nat {
    if s == [] then 0
    else if IsDigit(s[|s| - 1]) then 10 * DigitsValue(s[..|s| - 1]) + DigitValue(s[|s| - 1])
    else DigitsValue(s[..|s| - 1])
  }

  /** Python's `int(s)` on an already stripped string: `None` where Python raises. */
  function ParseInt(s: string): Option<int> {
    if |s| > 0 && (s[0] == '-' || s[0] == '+') then
      if DigitGroups(s[1..]) then
        Some(if s[0] == '-' then -(DigitsValue(s[1..]) as int) else DigitsValue(s[1..]))
      else None
    else if DigitGroups(s) then Some(DigitsValue(s))
    else None
  }

  lemma {:induction false} DigitsValueOfNat(n: nat)
    ensures DigitsValue(NatToString(n)) == n
  {
    var s := NatToString(n);
    if n >= 10 {
      DigitsValueOfNat(n / 10);
      assert s[..|s| - 1] == NatToString(n / 10);
    }
  }

  /** `int(str(n)) == n`. */
  lemma ParseNatToString(n: nat)
    ensures ParseInt(NatToString(n)) == Some(n)
  {
    DigitsValueOfNat(n);
    var s := NatToString(n);
    assert DigitGroups(s);
  }
}
