/**
 * String helpers shared by the parsers: the whitespace classes of JavaScript
 * (`String.prototype.trim`, the regular-expression class `\s`) and of Python
 * (`str.strip`), trimming, prefixes, and splitting/joining on a separator.
 */
module Text {

  /** ECMAScript WhiteSpace and LineTerminator code points: what `trim` removes and `\s` matches. */
  predicate IsJsSpace(c: char) {
    c == '\t' || c == '\n' || c == '\U{000B}' || c == '\U{000C}' || c == '\r' || c == ' '
    || c == '\U{00A0}' || c == '\U{1680}' || ('\U{2000}' <= c <= '\U{200A}')
    || c == '\U{2028}' || c == '\U{2029}' || c == '\U{202F}' || c == '\U{205F}'
    || c == '\U{3000}' || c == '\U{FEFF}'
  }

  /** The code points for which Python's `str.isspace` holds: what `str.strip()` removes. */
  predicate IsPySpace(c: char) {
    ('\t' <= c <= '\r') || ('\U{001C}' <= c <= '\U{001F}') || c == ' '
    || c == '\U{0085}' || c == '\U{00A0}' || c == '\U{1680}' || ('\U{2000}' <= c <= '\U{200A}')
    || c == '\U{2028}' || c == '\U{2029}' || c == '\U{202F}' || c == '\U{205F}'
    || c == '\U{3000}'
  }

  predicate AllBy(s: string, ws: char -> bool) {
    forall i :: 0 <= i < |s| ==> ws(s[i])
  }

  /** `s` neither starts nor ends with a `ws` character. */
  predicate TrimmedBy(s: string, ws: char -> bool) {
    |s| == 0 || (!ws(s[0]) && !ws(s[|s| - 1]))
  }

  /** Concatenation is associative; stated once so that proofs can name the regrouping. */
  lemma AppendAssoc<T>(a: seq<T>, b: seq<T>, c: seq<T>)
    ensures (a + b) + c == a + (b + c)
  {
  }

  /** `s` without its leading `ws` characters. */
  function TrimStartBy(s: string, ws: char -> bool): (r: string)
    ensures |r| <= |s| && r == s[|s| - |r|..]
    ensures |r| == 0 || !ws(r[0])
  {
    if |s| > 0 && ws(s[0]) then TrimStartBy(s[1..], ws) else s
  }

  /** What `TrimStartBy` removes is all `ws` characters. */
  lemma {:induction false} TrimStartRemovesSpace(s: string, ws: char -> bool)
    ensures AllBy(s[..|s| - |TrimStartBy(s, ws)|], ws)
  {
    if |s| > 0 && ws(s[0]) {
      var r := TrimStartBy(s[1..], ws);
      var n := |s| - 1 - |r|;
      assert TrimStartBy(s, ws) == r;
      TrimStartRemovesSpace(s[1..], ws);
      assert |s[1..]| - |r| == n;
      SpaceFrontGrows(s, n, ws);
      assert |s| - |TrimStartBy(s, ws)| == n + 1;
    }
  }

  /** A `ws` character in front of a `ws` run lengthens the run by one. */
  lemma SpaceFrontGrows(s: string, n: nat, ws: char -> bool)
    requires 0 < |s| && n < |s| && ws(s[0]) && AllBy(s[1..][..n], ws)
    ensures AllBy(s[..n + 1], ws)
  {
    var cut := s[1..][..n];
    forall i | 0 <= i < n + 1 ensures ws(s[i]) {
      if i > 0 {
        assert s[i] == cut[i - 1];
      }
    }
  }

  /** `s` without its trailing `ws` characters. */
  function TrimEndBy(s: string, ws: char -> bool): (r: string)
    ensures |r| <= |s| && r == s[..|r|]
    ensures |r| == 0 || !ws(r[|r| - 1])
  {
    if |s| > 0 && ws(s[|s| - 1]) then TrimEndBy(s[..|s| - 1], ws) else s
  }

  /** What `TrimEndBy` removes is all `ws` characters. */
  lemma {:induction false} TrimEndRemovesSpace(s: string, ws: char -> bool)
    ensures AllBy(s[|TrimEndBy(s, ws)|..], ws)
  {
    if |s| > 0 && ws(s[|s| - 1]) {
      var r := TrimEndBy(s[..|s| - 1], ws);
      assert TrimEndBy(s, ws) == r;
      TrimEndRemovesSpace(s[..|s| - 1], ws);
      SpaceBackGrows(s, |r|, ws);
    }
  }

  /** A `ws` character after a `ws` run lengthens the run by one. */
  lemma SpaceBackGrows(s: string, n: nat, ws: char -> bool)
    requires 0 < |s| && n < |s| && ws(s[|s| - 1]) && AllBy(s[..|s| - 1][n..], ws)
    ensures AllBy(s[n..], ws)
  {
    var cut := s[..|s| - 1][n..];
    forall i | n <= i < |s| ensures ws(s[i]) {
      if i < |s| - 1 {
        assert s[i] == cut[i - n];
      }
    }
  }

  /** `s` without its leading and trailing `ws` characters. */
  function TrimBy(s: string, ws: char -> bool): (r: string)
    ensures TrimmedBy(r, ws)
    ensures |r| <= |s|
  {
    var t := TrimStartBy(s, ws);
    var r := TrimEndBy(t, ws);
    assert |r| > 0 ==> r[0] == t[0];
    r
  }

  /** `r` sits in `s` at `off`, and only `ws` characters lie before and after it. */
  predicate MiddleBy(s: string, r: string, off: nat, ws: char -> bool) {
    && off + |r| <= |s|
    && (forall k :: 0 <= k < |r| ==> r[k] == s[off + k])
    && (forall k :: 0 <= k < off ==> ws(s[k]))
    && (forall k :: off + |r| <= k < |s| ==> ws(s[k]))
  }

  /** The trimmed string is the middle of `s`, with only `ws` characters cut off on either side. */
  lemma TrimMiddle(s: string, ws: char -> bool)
    ensures exists off :: MiddleBy(s, TrimBy(s, ws), off, ws)
  {
    var t := TrimStartBy(s, ws);
    var r := TrimEndBy(t, ws);
    assert TrimBy(s, ws) == r;
    TrimStartRemovesSpace(s, ws);
    TrimEndRemovesSpace(t, ws);
    MiddleOfParts(s, t, r, ws);
  }

  /** A `ws` run, then `r`, then a `ws` run: `r` is the middle of `s`. */
  lemma MiddleOfParts(s: string, t: string, r: string, ws: char -> bool)
    requires |t| <= |s| && t == s[|s| - |t|..] && AllBy(s[..|s| - |t|], ws)
    requires |r| <= |t| && r == t[..|r|] && AllBy(t[|r|..], ws)
    ensures MiddleBy(s, r, |s| - |t|, ws)
  {
    var off := |s| - |t|;
    var front := s[..off];
    var back := t[|r|..];
    forall k | 0 <= k < off ensures ws(s[k]) {
      assert s[k] == front[k];
    }
    forall k | off + |r| <= k < |s| ensures ws(s[k]) {
      assert s[k] == t[k - off] == back[k - off - |r|];
    }
    forall k | 0 <= k < |r| ensures r[k] == s[off + k] {
      assert r[k] == t[k];
    }
  }

  /** Trimming leaves nothing exactly when every character is a `ws` character. */
  lemma TrimEmptyBy(s: string, ws: char -> bool)
    ensures TrimBy(s, ws) == [] <==> AllBy(s, ws)
  {
    var t := TrimStartBy(s, ws);
    if TrimBy(s, ws) == [] {
      TrimStartRemovesSpace(s, ws);
      TrimEndRemovesSpace(t, ws);
      assert t[0..] == t;
      assert s == s[..|s| - |t|] + t;
    }
    if AllBy(s, ws) {
      TrimStartAllSpace(s, ws);
    }
  }

  lemma {:induction false} TrimStartAllSpace(s: string, ws: char -> bool)
    requires AllBy(s, ws)
    ensures TrimStartBy(s, ws) == []
  {
    if |s| > 0 {
      TrimStartAllSpace(s[1..], ws);
    }
  }

  /** Trimming keeps a contiguous piece of `s`, so a character absent from `s` is absent from the result. */
  lemma TrimKeepsAbsent(s: string, ws: char -> bool, c: char)
    requires c !in s
    ensures c !in TrimBy(s, ws)
  {
    var t := TrimStartBy(s, ws);
    var r := TrimBy(s, ws);
    var off := |s| - |t|;
    assert r == s[off..off + |r|];
  }

  /** Leading `ws` characters do not survive `TrimStartBy`. */
  lemma {:induction false} TrimStartLeading(w: string, t: string, ws: char -> bool)
    requires AllBy(w, ws)
    ensures TrimStartBy(w + t, ws) == TrimStartBy(t, ws)
  {
    if |w| > 0 {
      assert ws((w + t)[0]) by { assert (w + t)[0] == w[0]; }
      assert (w + t)[1..] == w[1..] + t;
      assert TrimStartBy(w + t, ws) == TrimStartBy(w[1..] + t, ws);
      TrimStartLeading(w[1..], t, ws);
    } else {
      assert w + t == t;
    }
  }

  /** JavaScript's `s.trim()`. */
  function Trim(s: string): string {
    TrimBy(s, IsJsSpace)
  }

  predicate IsBlank(s: string) {
    AllBy(s, IsJsSpace)
  }

  predicate IsTrimmed(s: string) {
    TrimmedBy(s, IsJsSpace)
  }

  /** Trimming changes nothing exactly when there is nothing to trim. */
  lemma TrimIdentity(s: string)
    ensures Trim(s) == s <==> IsTrimmed(s)
  {
    if IsTrimmed(s) && |s| > 0 {
      assert TrimStartBy(s, IsJsSpace) == s;
      assert TrimEndBy(s, IsJsSpace) == s;
    }
  }

  /** Whitespace in front of `t` does not survive trimming. */
  lemma TrimLeadingSpace(w: string, t: string)
    requires IsBlank(w)
    ensures Trim(w + t) == Trim(t)
  {
    TrimStartLeading(w, t, IsJsSpace);
  }

  /** `p` is a prefix of `s` (JavaScript's `s.startsWith(p)`). */
  predicate StartsWith(s: string, p: string) {
    p <= s
  }

  /** `parts` joined with `sep` between consecutive parts (`Array.prototype.join`, Python's `sep.join`). */
  function Join(parts: seq<string>, sep: string): string {
    if |parts| == 0 then ""
    else if |parts| == 1 then parts[0]
    else parts[0] + sep + Join(parts[1..], sep)
  }

  /** `s.split('\n')`: the pieces between line feeds, at least one of them. */
  function Lines(s: string): (r: seq<string>)
    ensures |r| >= 1
    ensures forall i :: 0 <= i < |r| ==> '\n' !in r[i]
  {
    if |s| == 0 then [""]
    else if s[0] == '\n' then [""] + Lines(s[1..])
    else
      var rest := Lines(s[1..]);
      [[s[0]] + rest[0]] + rest[1..]
  }

  /** Joining the lines of `s` with line feeds gives back `s`. */
  lemma {:induction false} JoinLines(s: string)
    ensures Join(Lines(s), "\n") == s
  {
    if |s| > 0 {
      JoinLines(s[1..]);
      var rest := Lines(s[1..]);
      if s[0] == '\n' {
        assert Lines(s)[1..] == rest;
      } else {
        var r := Lines(s);
        assert r[0] == [s[0]] + rest[0] && r[1..] == rest[1..];
        if |rest| > 1 {
          assert Join(rest, "\n") == rest[0] + "\n" + Join(rest[1..], "\n");
        }
      }
    }
  }

  /** A line feed splits the text into the lines before it and the lines after it. */
  lemma {:induction false} LinesAppend(a: string, b: string)
    ensures Lines(a + "\n" + b) == Lines(a) + Lines(b)
  {
    if |a| == 0 {
      assert a + "\n" + b == "\n" + b;
      assert ("\n" + b)[1..] == b;
    } else {
      var s := a + "\n" + b;
      assert s[1..] == a[1..] + "\n" + b;
      LinesAppend(a[1..], b);
    }
  }

  /** Text without a line feed is a single line. */
  lemma {:induction false} LinesOfLine(s: string)
    requires '\n' !in s
    ensures Lines(s) == [s]
  {
    if |s| > 0 {
      LinesOfLine(s[1..]);
      assert [s[0]] + s[1..] == s;
    }
  }

  /** Splitting lines joined with line feeds gives the lines back. */
  lemma {:induction false} LinesOfJoin(ls: seq<string>)
    requires |ls| >= 1
    requires forall i :: 0 <= i < |ls| ==> '\n' !in ls[i]
    ensures Lines(Join(ls, "\n")) == ls
  {
    if |ls| == 1 {
      LinesOfLine(ls[0]);
    } else {
      LinesOfJoin(ls[1..]);
      LinesOfLine(ls[0]);
      LinesAppend(ls[0], Join(ls[1..], "\n"));
      assert [ls[0]] + ls[1..] == ls;
    }
  }
}
