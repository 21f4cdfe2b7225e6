/** The JavaScript string primitives the weather code relies on, over
    strings of characters: `toLowerCase`, `includes`, `trim`, `split(sep)[0]`,
    `replace(/[...]/g, '')` and `substring(0, n)`. */
module JsText {

  /** `toLowerCase` on one character, for the ASCII letters. */
  function LowerChar(c: char): char {
    if 'A' <= c <= 'Z' then (c as int - 'A' as int + 'a' as int) as char else c
  }

  function UpperChar(c: char): char {
    if 'a' <= c <= 'z' then (c as int - 'a' as int + 'A' as int) as char else c
  }

  /** `s.toLowerCase()`: every character lowered, nothing added or removed. */
  function ToLower(s: string): (r: string)
    ensures |r| == |s|
    ensures forall i :: 0 <= i < |s| ==> r[i] == LowerChar(s[i])
  {
    seq(|s|, i requires 0 <= i < |s| => LowerChar(s[i]))
  }

  function ToUpper(s: string): (r: string)
    ensures |r| == |s|
    ensures forall i :: 0 <= i < |s| ==> r[i] == UpperChar(s[i])
  {
    seq(|s|, i requires 0 <= i < |s| => UpperChar(s[i]))
  }

  /** Lowering is idempotent, and lowering an upper-cased string gives the
      same as lowering the original: case is forgotten. */
  lemma LowerForgetsCase(s: string)
    ensures ToLower(ToLower(s)) == ToLower(s)
    ensures ToLower(ToUpper(s)) == ToLower(s)
  {
  }

  /** `s.includes(t)`, searching from the left. */
  function Includes(s: string, t: string): bool
    decreases |s|
  {
    if |t| > |s| then false
    else if s[..|t|] == t then true
    else Includes(s[1..], t)
  }

  /** `t` occurs in `s` starting at index `i`. */
  predicate OccursAt(s: string, t: string, i: int) {
    0 <= i <= |s| - |t| && s[i..i + |t|] == t
  }

  /** `Includes` holds exactly when `t` occurs at some position of `s`. */
  lemma {:induction false} IncludesIff(s: string, t: string)
    ensures Includes(s, t) <==> exists i :: OccursAt(s, t, i)
  {
    if |t| > |s| {
    } else if s[..|t|] == t {
      assert OccursAt(s, t, 0);
    } else {
      IncludesIff(s[1..], t);
      if Includes(s[1..], t) {
        var i :| OccursAt(s[1..], t, i);
        SliceOfTail(s, i, |t|);
        assert OccursAt(s, t, i + 1);
      } else {
        forall i | OccursAt(s, t, i)
          ensures false
        {
          assert i != 0;
          ShiftOccurrence(s, t, i);
        }
      }
    }
  }

  /** An occurrence past the first position is an occurrence in the tail. */
  lemma ShiftOccurrence(s: string, t: string, i: int)
    requires OccursAt(s, t, i) && i > 0
    ensures OccursAt(s[1..], t, i - 1)
  {
    SliceOfTail(s, i - 1, |t|);
  }

  lemma SliceOfTail(s: string, i: nat, n: nat)
    requires 0 < |s| && i + n <= |s| - 1
    ensures s[1..][i..i + n] == s[i + 1..i + 1 + n]
  {
  }

  /** A string that includes `t` holds every character of `t`. */
  lemma IncludesOnlyItsChars(s: string, t: string, c: char)
    requires c in t && c !in s
    ensures !Includes(s, t)
  {
    IncludesIff(s, t);
  }

  /** The characters JavaScript's `trim` removes and its regular-expression
      class `\s` matches: WhiteSpace and LineTerminator of ECMAScript
      (TAB, VT, FF, SP, NBSP, ZWNBSP, every Unicode space separator, LF, CR,
      LS, PS). */
  predicate IsJsWhitespace(c: char) {
    c == '\t' || c == '\U{000B}' || c == '\U{000C}' || c == ' ' || c == '\U{00A0}'
    || c == '\U{FEFF}' || c == '\U{1680}' || ('\U{2000}' <= c <= '\U{200A}')
    || c == '\U{202F}' || c == '\U{205F}' || c == '\U{3000}'
    || c == '\n' || c == '\r' || c == '\U{2028}' || c == '\U{2029}'
  }

  /** Drops leading whitespace: the result is the suffix of `s` that starts at
      its first non-whitespace character. */
  function TrimStart(s: string): (r: string)
    ensures |r| <= |s| && r == s[|s| - |r|..]
    ensures r == [] || !IsJsWhitespace(r[0])
  {
    if s != [] && IsJsWhitespace(s[0]) then TrimStart(s[1..]) else s
  }

  /** What `TrimStart` drops is whitespace. */
  lemma {:induction false} TrimStartDropsWhitespace(s: string)
    ensures forall i :: 0 <= i < |s| - |TrimStart(s)| ==> IsJsWhitespace(s[i])
  {
    if s != [] && IsJsWhitespace(s[0]) {
      TrimStartDropsWhitespace(s[1..]);
      forall i | 1 <= i < |s| - |TrimStart(s)|
        ensures IsJsWhitespace(s[i])
      {
        assert s[i] == s[1..][i - 1];
      }
    }
  }

  /** Drops trailing whitespace: the result is the prefix of `s` that ends at
      its last non-whitespace character. */
  function TrimEnd(s: string): (r: string)
    ensures |r| <= |s| && r == s[..|r|]
    ensures r == [] || !IsJsWhitespace(r[|r| - 1])
  {
    if s != [] && IsJsWhitespace(s[|s| - 1]) then TrimEnd(s[..|s| - 1]) else s
  }

  /** What `TrimEnd` drops is whitespace. */
  lemma {:induction false} TrimEndDropsWhitespace(s: string)
    ensures forall i :: |TrimEnd(s)| <= i < |s| ==> IsJsWhitespace(s[i])
  {
    if s != [] && IsJsWhitespace(s[|s| - 1]) {
      TrimEndDropsWhitespace(s[..|s| - 1]);
      forall i | |TrimEnd(s)| <= i < |s| - 1
        ensures IsJsWhitespace(s[i])
      {
        assert s[i] == s[..|s| - 1][i];
      }
    }
  }

  /** A prefix of the suffix of `s` starting at `lo` is a slice of `s`. */
  lemma SliceOfSuffix(s: string, lo: nat, n: nat)
    requires lo + n <= |s|
    ensures s[lo..][..n] == s[lo..lo + n]
  {
  }

  /** A slice of a prefix `p` of `s` is the same slice of `s`. */
  lemma SliceOfPrefix(s: string, p: string, lo: nat, n: nat)
    requires |p| <= |s| && p == s[..|p|] && lo + n <= |p|
    ensures p[lo..lo + n] == s[lo..lo + n]
  {
  }

  /** Whitespace in a prefix `p` of `s` is whitespace in `s`. */
  lemma WhitespaceInPrefix(s: string, p: string, lo: nat, hi: nat)
    requires |p| <= |s| && p == s[..|p|] && lo <= hi <= |p|
    requires forall j :: lo <= j < hi ==> IsJsWhitespace(p[j])
    ensures forall j :: lo <= j < hi ==> IsJsWhitespace(s[j])
  {
    forall j | lo <= j < hi
      ensures IsJsWhitespace(s[j])
    {
      assert s[j] == p[j];
    }
  }

  /** A prefix of a string that does not start with whitespace, ending in
      no whitespace, has no whitespace at either end. */
  lemma TrimmedEnds(start: string, r: string)
    requires start == [] || !IsJsWhitespace(start[0])
    requires |r| <= |start| && r == start[..|r|]
    requires r == [] || !IsJsWhitespace(r[|r| - 1])
    ensures r == [] || (!IsJsWhitespace(r[0]) && !IsJsWhitespace(r[|r| - 1]))
  {
    assert r != [] ==> r[0] == start[0];
  }

  /** `s.trim()`: a contiguous part of `s` that neither starts nor ends with
      whitespace, everything cut away being whitespace. */
  function Trim(s: string): (r: string)
    ensures OccursAt(s, r, |s| - |TrimStart(s)|)
    ensures r == [] || (!IsJsWhitespace(r[0]) && !IsJsWhitespace(r[|r| - 1]))
  {
    var start := TrimStart(s);
    var r := TrimEnd(start);
    SliceOfSuffix(s, |s| - |start|, |r|);
    TrimmedEnds(start, r);
    r
  }

  /** Every character of `Trim(s)` is a character of `s`. */
  lemma TrimChars(s: string)
    ensures forall c :: c in Trim(s) ==> c in s
  {
    var r := Trim(s);
    var lo := |s| - |TrimStart(s)|;
    forall c | c in r ensures c in s {
      var k :| 0 <= k < |r| && r[k] == c;
      assert s[lo + k] == c;
    }
  }

  /** What `trim` cuts from either end of `s` is whitespace: the result is
      `s` with its leading and trailing whitespace removed, and no more. */
  lemma TrimCutsOnlyWhitespace(s: string)
    ensures forall i :: 0 <= i < |s| - |TrimStart(s)| ==> IsJsWhitespace(s[i])
    ensures forall i :: |s| - |TrimStart(s)| + |Trim(s)| <= i < |s| ==> IsJsWhitespace(s[i])
  {
    var start := TrimStart(s);
    TrimStartDropsWhitespace(s);
    TrimEndDropsWhitespace(start);
    assert Trim(s) == TrimEnd(start);
    WhitespaceTail(s, |s| - |start|, |TrimEnd(start)|);
  }

  /** If the suffix `s[lo..]` is whitespace from index `n` on, then so is
      `s` from `lo + n` on. */
  lemma WhitespaceTail(s: string, lo: nat, n: nat)
    requires lo + n <= |s|
    requires forall j :: n <= j < |s[lo..]| ==> IsJsWhitespace(s[lo..][j])
    ensures forall i :: lo + n <= i < |s| ==> IsJsWhitespace(s[i])
  {
    forall i | lo + n <= i < |s|
      ensures IsJsWhitespace(s[i])
    {
      assert s[i] == s[lo..][i - lo];
    }
  }

  /** `s.split(sep)[0]`: the longest prefix of `s` free of `sep`. */
  function FirstField(s: string, sep: char): (r: string)
    ensures |r| <= |s| && r == s[..|r|]
    ensures sep !in r
    ensures |r| < |s| ==> s[|r|] == sep
  {
    if s == [] || s[0] == sep then [] else [s[0]] + FirstField(s[1..], sep)
  }

  /** `s.replace(/[...]/g, '')`: `s` with every character of `banned` removed,
      the others kept in order. */
  function Strip(s: string, banned: set<char>): (r: string)
    ensures |r| <= |s|
    ensures forall c :: c in r <==> c in s && c !in banned
  {
    if s == [] then []
    else (if s[0] in banned then [] else [s[0]]) + Strip(s[1..], banned)
  }

  /** Stripping a single character keeps it exactly when it is not banned. */
  lemma StripChar(c: char, banned: set<char>)
    ensures Strip([c], banned) == if c in banned then [] else [c]
  {
    assert [c][1..] == [];
  }

  /** Stripping keeps the order: the strip of a concatenation is the
      concatenation of the strips. */
  lemma {:induction false} StripAppend(a: string, b: string, banned: set<char>)
    ensures Strip(a + b, banned) == Strip(a, banned) + Strip(b, banned)
  {
    if a == [] {
      assert a + b == b;
    } else {
      var x, rest := a[0], a[1..];
      assert a == [x] + rest;
      assert a + b == [x] + (rest + b);
      var head := if x in banned then [] else [x];
      StripCons(x, rest + b, banned);
      StripCons(x, rest, banned);
      StripAppend(rest, b, banned);
      AppendAssoc(head, Strip(rest, banned), Strip(b, banned));
    }
  }

  lemma AppendAssoc(x: string, y: string, z: string)
    ensures (x + y) + z == x + (y + z)
  {
  }

  /** The strip of `[x] + s` is `x` (unless banned) followed by the strip of `s`. */
  lemma StripCons(x: char, s: string, banned: set<char>)
    ensures Strip([x] + s, banned) == (if x in banned then [] else [x]) + Strip(s, banned)
  {
    assert ([x] + s)[0] == x && ([x] + s)[1..] == s;
  }

  /** Stripping a string that holds no banned character leaves it as it is. */
  lemma {:induction false} StripNothing(s: string, banned: set<char>)
    requires forall c :: c in s ==> c !in banned
    ensures Strip(s, banned) == s
  {
    if s != [] {
      StripNothing(s[1..], banned);
      assert s == [s[0]] + s[1..];
    }
  }

  /** `s.substring(0, n)` for `n >= 0`. */
  function Prefix(s: string, n: nat): (r: string)
    ensures |r| == if |s| <= n then |s| else n
    ensures r == s[..|r|]
  {
    if |s| <= n then s else s[..n]
  }
}
