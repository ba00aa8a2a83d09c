/** The input sanitisers of middleware.ts. Both chain global, case-insensitive
    regular-expression replacements by the empty string. Every pattern here is
    ASCII, and a non-Unicode case-insensitive JavaScript expression never
    folds a non-ASCII character onto an ASCII one, so ASCII case folding is
    the exact matching rule. */
module Middleware {
  import opened JsString

  /** Maps ASCII upper-case letters to lower case and leaves the rest. */
  function LowerAscii(c: char): char
  {
    if 'A' <= c <= 'Z' then (c as int + 32) as char else c
  }

  /** Two characters match under the `i` flag. */
  predicate EqCI(a: char, b: char)
  {
    LowerAscii(a) == LowerAscii(b)
  }

  /** `pat` matches `s` at index `i`, ignoring ASCII case. */
  predicate MatchesAtCI(s: string, pat: string, i: int)
  {
    0 <= i && i + |pat| <= |s| && forall k :: 0 <= k < |pat| ==> EqCI(s[i + k], pat[k])
  }

  /** `\w`: ASCII letters, digits and underscore. */
  predicate IsWordChar(c: char)
  {
    'a' <= c <= 'z' || 'A' <= c <= 'Z' || '0' <= c <= '9' || c == '_'
  }

  // ---------------------------------------------------------------------
  // Global removal of a literal pattern

  /** `s.replace(/pat/gi, "")` for a literal pattern: matches are found left
      to right, and scanning resumes after each removed match. */
  function RemoveAllCI(s: string, pat: string): (r: string)
    requires pat != []
    decreases |s|
  {
    if |s| < |pat| then s
    else if MatchesAtCI(s, pat, 0) then RemoveAllCI(s[|pat|..], pat)
    else [s[0]] + RemoveAllCI(s[1..], pat)
  }

  /** Removal only deletes characters. */
  lemma {:induction false} RemoveAllCIShrinks(s: string, pat: string)
    requires pat != []
    ensures |RemoveAllCI(s, pat)| <= |s|
    ensures multiset(RemoveAllCI(s, pat)) <= multiset(s)
    decreases |s|
  {
    if |s| >= |pat| {
      if MatchesAtCI(s, pat, 0) {
        RemoveAllCIShrinks(s[|pat|..], pat);
        assert s == s[..|pat|] + s[|pat|..];
      } else {
        RemoveAllCIShrinks(s[1..], pat);
        assert s == [s[0]] + s[1..];
      }
    }
  }

  /** Without a match the string is left as it is. */
  lemma {:induction false} RemoveAllCINoMatch(s: string, pat: string)
    requires pat != []
    requires forall i :: !MatchesAtCI(s, pat, i)
    ensures RemoveAllCI(s, pat) == s
    decreases |s|
  {
    if |s| >= |pat| {
      assert !MatchesAtCI(s, pat, 0);
      forall i ensures !MatchesAtCI(s[1..], pat, i) {
        if 0 <= i && i + |pat| <= |s| - 1 {
          assert !MatchesAtCI(s, pat, i + 1);
          MatchShift(s, pat, i);
        }
      }
      RemoveAllCINoMatch(s[1..], pat);
    }
  }

  lemma MatchShift(s: string, pat: string, i: nat)
    requires s != []
    ensures MatchesAtCI(s[1..], pat, i) <==> MatchesAtCI(s, pat, i + 1)
  {

  }

  /** A one-character pattern leaves no character that matches it. */
  lemma {:induction false} RemoveAllCISingle(s: string, c: char)
    ensures forall i :: 0 <= i < |RemoveAllCI(s, [c])| ==> !EqCI(RemoveAllCI(s, [c])[i], c)
    decreases |s|
  {
    if |s| >= 1 {
      RemoveAllCISingle(s[1..], c);
      if MatchesAtCI(s, [c], 0) {
        assert s[1..] == s[|[c]|..];
      } else {
        assert !EqCI(s[0], c) by {
          assert !(forall k :: 0 <= k < 1 ==> EqCI(s[k], [c][k]));
        }
      }
    }
  }

  // ---------------------------------------------------------------------
  // sanitizeInput

  /** `<script` followed by a word boundary at index `i`. */
  predicate ScriptOpenAt(s: string, i: int)
  {
    MatchesAtCI(s, "<script", i) && (i + 7 == |s| || !IsWordChar(s[i + 7]))
  }

  /** The first index at or after `from` where `pat` matches. */
  function FindCI(s: string, pat: string, from: nat): (r: Option<nat>)
    ensures r.Some? ==> (from <= r.value && MatchesAtCI(s, pat, r.value)
                         && forall k :: from <= k < r.value ==> !MatchesAtCI(s, pat, k))
    ensures r.None? ==> forall k :: from <= k ==> !MatchesAtCI(s, pat, k)
    decreases |s| - from
  {
    if from + |pat| > |s| then None
    else if MatchesAtCI(s, pat, from) then Some(from)
    else FindCI(s, pat, from + 1)
  }

  /** The first pass, `/<script\b[^<]*(?:(?!<\/script>)<[^<]*)*<\/script>/gi`.
      From an opening `<script` at a word boundary the expression can stop
      only at the first `</script>` after it (its repeated group refuses to
      step over one), so a match runs exactly to the end of that closing tag;
      without a closing tag there is no match at that index. */
  function RemoveScripts(s: string): (r: string)
    ensures |r| <= |s|
    ensures multiset(r) <= multiset(s)
    decreases |s|
  {
    if s == [] then []
    else
      var close := FindCI(s, "</script>", 7);
      if ScriptOpenAt(s, 0) && close.Some? then
        assert s == s[..close.value + 9] + s[close.value + 9..];
        RemoveScripts(s[close.value + 9..])
      else
        assert s == [s[0]] + s[1..];
        [s[0]] + RemoveScripts(s[1..])
  }

  /** Text without '<' passes the script filter unchanged. */
  lemma {:induction false} RemoveScriptsNoTag(s: string)
    requires '<' !in s
    ensures RemoveScripts(s) == s
  {
    if s != [] {
      assert !ScriptOpenAt(s, 0) by {
        assert s[0] in s;
        assert !EqCI(s[0 + 0], "<script"[0]);
      }
      RemoveScriptsNoTag(s[1..]);
    }
  }

  /** The search returns the first match at or after `from`. */
  lemma {:induction false} FindCIFirst(s: string, pat: string, from: nat, j: nat)
    requires from <= j && MatchesAtCI(s, pat, j)
    requires forall k :: from <= k < j ==> !MatchesAtCI(s, pat, k)
    ensures FindCI(s, pat, from) == Some(j)
    decreases j - from
  {
    if from < j {
      FindCIFirst(s, pat, from + 1, j);
    }
  }

  /** An exact occurrence is a case-insensitive match. */
  lemma ExactMatch(s: string, pat: string, i: nat)
    requires OccursAt(s, pat, i)
    ensures MatchesAtCI(s, pat, i)
  {
    forall k | 0 <= k < |pat| ensures EqCI(s[i + k], pat[k]) {
      assert s[i + k] == s[i..i + |pat|][k];
    }
  }

  /** Only '<' matches '<'. */
  lemma NoMatchWithoutAngle(s: string, pat: string, i: nat)
    requires i < |s| && s[i] != '<' && pat != [] && pat[0] == '<'
    ensures !MatchesAtCI(s, pat, i)
  {
    assert !EqCI(s[i + 0], pat[0]);
  }

  lemma ScriptOpenAtStart(s: string)
    requires |s| >= 8 && s[..8] == "<script>"
    ensures ScriptOpenAt(s, 0)
  {
    assert s[0..7] == "<script";
    ExactMatch(s, "<script", 0);
    assert s[7] == s[..8][7];
  }

  lemma CloseTagAfter(s: string, body: string)
    requires '<' !in body
    requires |s| >= 17 + |body| && s[..8 + |body| + 9] == "<script>" + body + "</script>"
    ensures FindCI(s, "</script>", 7) == Some(8 + |body|)
  {
    var e := 8 + |body|;
    var pre := s[..e + 9];
    assert s[e..e + 9] == pre[e..e + 9] == "</script>";
    ExactMatch(s, "</script>", e);
    forall k | 7 <= k < e ensures !MatchesAtCI(s, "</script>", k) {
      assert s[k] == pre[k];
      if k > 7 {
        assert pre[k] == body[k - 8];
        assert body[k - 8] in body;
      }
      NoMatchWithoutAngle(s, "</script>", k);
    }
    FindCIFirst(s, "</script>", 7, e);
  }

  /** A whole script block, from `<script>` to `</script>`, is removed. */
  lemma ScriptBlockRemoved(body: string, rest: string)
    requires '<' !in body
    ensures RemoveScripts("<script>" + body + "</script>" + rest) == RemoveScripts(rest)
  {
    var s := "<script>" + body + "</script>" + rest;
    var e := 8 + |body|;
    assert s[..8] == "<script>";
    ScriptOpenAtStart(s);
    assert s[..e + 9] == "<script>" + body + "</script>";
    CloseTagAfter(s, body);
    assert s[e + 9..] == rest;
  }

  /** The length of the run of `\w` characters at the start of `s`. */
  function WordRun(s: string): (n: nat)
    ensures n <= |s|
    ensures forall i :: 0 <= i < n ==> IsWordChar(s[i])
    ensures n < |s| ==> !IsWordChar(s[n])
  {
    if s != [] && IsWordChar(s[0]) then 1 + WordRun(s[1..]) else 0
  }

  /** The length of the run of `\s` characters at the start of `s`. */
  function SpaceRun(s: string): (n: nat)
    ensures n <= |s|
    ensures forall i :: 0 <= i < n ==> IsJsSpace(s[i])
    ensures n < |s| ==> !IsJsSpace(s[n])
  {
    if s != [] && IsJsSpace(s[0]) then 1 + SpaceRun(s[1..]) else 0
  }

  /** The length of a match of `/on\w+\s*=/i` at the start of `s`, if any.
      Backing off either greedy run leaves a word or space character where
      the next item needs something else, so only the longest runs can match. */
  function HandlerLength(s: string): (r: Option<nat>)
    ensures r.Some? ==> 4 <= r.value <= |s| && EqCI(s[0], 'o') && EqCI(s[1], 'n') && s[r.value - 1] == '='
  {
    if |s| >= 2 && EqCI(s[0], 'o') && EqCI(s[1], 'n') then
      var w := WordRun(s[2..]);
      var sp := SpaceRun(s[2 + w..]);
      if w >= 1 && 2 + w + sp < |s| && s[2 + w + sp] == '=' then Some(3 + w + sp) else None
    else None
  }

  /** `/on\w+\s*=/i` matches at the start of `s` with `w` word characters
      and `sp` spaces. */
  predicate HandlerMatch(s: string, w: nat, sp: nat)
  {
    1 <= w && 3 + w + sp <= |s| && EqCI(s[0], 'o') && EqCI(s[1], 'n')
    && (forall i :: 2 <= i < 2 + w ==> IsWordChar(s[i]))
    && (forall i :: 2 + w <= i < 2 + w + sp ==> IsJsSpace(s[i]))
    && s[2 + w + sp] == '='
  }

  /** Some match of `/on\w+\s*=/i` of length `n` starts at the front of `s`. */
  ghost predicate HandlerAt(s: string, n: nat)
  {
    exists w: nat, sp: nat :: HandlerMatch(s, w, sp) && n == 3 + w + sp
  }

  /** `HandlerLength` finds a match exactly when the regular expression
      matches at the front, and gives its length; the match is unique. */
  lemma HandlerLengthMeaning(s: string, n: nat)
    ensures HandlerLength(s) == Some(n) <==> HandlerAt(s, n)
    ensures HandlerLength(s).None? <==> forall w: nat, sp: nat :: !HandlerMatch(s, w, sp)
  {
    if HandlerLength(s).Some? {
      HandlerLengthSound(s);
    }
    if HandlerAt(s, n) {
      var w: nat, sp: nat :| HandlerMatch(s, w, sp) && n == 3 + w + sp;
      HandlerMatchLength(s, w, sp);
    }
    forall w: nat, sp: nat | HandlerMatch(s, w, sp)
      ensures HandlerLength(s) == Some(3 + w + sp)
    {
      HandlerMatchLength(s, w, sp);
    }
  }

  /** What `HandlerLength` reports is a match of that length. */
  lemma HandlerLengthSound(s: string)
    requires HandlerLength(s).Some?
    ensures HandlerAt(s, HandlerLength(s).value)
  {
    var w := WordRun(s[2..]);
    var sp := SpaceRun(s[2 + w..]);
    assert HandlerMatch(s, w, sp);
  }

  /** Any match has the length `HandlerLength` reports: the runs it is made
      of are the longest ones. */
  lemma HandlerMatchLength(s: string, w: nat, sp: nat)
    requires HandlerMatch(s, w, sp)
    ensures HandlerLength(s) == Some(3 + w + sp)
  {
    var u := s[2..];
    forall i | 0 <= i < w ensures IsWordChar(u[i]) {
      assert u[i] == s[2 + i];
    }
    assert u[w] == s[2 + w];
    if sp > 0 {
      SpaceIsNotWord(s[2 + w]);
    }
    WordRunExact(u, w);
    var t := s[2 + w..];
    forall i | 0 <= i < sp ensures IsJsSpace(t[i]) {
      assert t[i] == s[2 + w + i];
    }
    assert t[sp] == '=';
    SpaceRunExact(t, sp);
  }

  lemma SpaceIsNotWord(c: char)
    requires IsJsSpace(c)
    ensures !IsWordChar(c)
  {
  }

  /** A run of `w` word characters followed by a non-word character. */
  lemma WordRunExact(t: string, w: nat)
    requires w < |t| && !IsWordChar(t[w])
    requires forall i :: 0 <= i < w ==> IsWordChar(t[i])
    ensures WordRun(t) == w
  {
  }

  /** A run of `sp` spaces followed by a non-space character. */
  lemma SpaceRunExact(t: string, sp: nat)
    requires sp < |t| && !IsJsSpace(t[sp])
    requires forall i :: 0 <= i < sp ==> IsJsSpace(t[i])
    ensures SpaceRun(t) == sp
  {
  }

  /** The third pass, `/on\w+\s*=/gi` replaced by the empty string. */
  function RemoveHandlers(s: string): (r: string)
    ensures |r| <= |s|
    ensures multiset(r) <= multiset(s)
    decreases |s|
  {
    if s == [] then []
    else
      var n := HandlerLength(s);
      if n.Some? then
        assert s == s[..n.value] + s[n.value..];
        RemoveHandlers(s[n.value..])
      else
        assert s == [s[0]] + s[1..];
        [s[0]] + RemoveHandlers(s[1..])
  }

  /** Text without an 'o' of either case has no handler to remove. */
  lemma {:induction false} RemoveHandlersNoO(s: string)
    requires forall i :: 0 <= i < |s| ==> !EqCI(s[i], 'o')
    ensures RemoveHandlers(s) == s
  {
    if s != [] {
      RemoveHandlersNoO(s[1..]);
    }
  }

  /** An inline handler such as `onclick=` is removed with the spaces before its '='. */
  lemma HandlerRemoved(name: string, spaces: string, rest: string)
    requires name != [] && forall i :: 0 <= i < |name| ==> IsWordChar(name[i])
    requires forall i :: 0 <= i < |spaces| ==> IsJsSpace(spaces[i])
    ensures RemoveHandlers("on" + name + spaces + "=" + rest) == RemoveHandlers(rest)
  {
    var s := "on" + name + spaces + "=" + rest;
    var tail := spaces + ("=" + rest);
    var n := 3 + |name| + |spaces|;
    assert s[0] == 'o' && s[1] == 'n';
    assert s[2..] == name + tail;
    WordRunPrefix(name, tail);
    assert s[2 + |name|..] == tail;
    SpaceRunPrefix(spaces, "=" + rest);
    assert s[2 + |name| + |spaces|] == '=';
    assert HandlerLength(s) == Some(n);
    RemoveHandlersAt(s, n);
    assert s[n..] == rest;
  }

  lemma RemoveHandlersAt(s: string, n: nat)
    requires HandlerLength(s) == Some(n)
    ensures RemoveHandlers(s) == RemoveHandlers(s[n..])
  {
  }

  lemma {:induction false} WordRunPrefix(w: string, t: string)
    requires forall i :: 0 <= i < |w| ==> IsWordChar(w[i])
    requires t == [] || !IsWordChar(t[0])
    ensures WordRun(w + t) == |w|
  {
    if w != [] {
      assert (w + t)[1..] == w[1..] + t;
      WordRunPrefix(w[1..], t);
    } else {
      assert w + t == t;
    }
  }

  lemma {:induction false} SpaceRunPrefix(w: string, t: string)
    requires forall i :: 0 <= i < |w| ==> IsJsSpace(w[i])
    requires t == [] || !IsJsSpace(t[0])
    ensures SpaceRun(w + t) == |w|
  {
    if w != [] {
      assert (w + t)[1..] == w[1..] + t;
      SpaceRunPrefix(w[1..], t);
    } else {
      assert w + t == t;
    }
  }

  /** `sanitizeInput`: script blocks, then "javascript:", then inline event
      handlers are removed, and the result is trimmed, so it never starts or
      ends with white space. */
  function SanitizeInput(input: string): (r: string)
    ensures r == [] || (!IsJsSpace(r[0]) && !IsJsSpace(r[|r| - 1]))
  {
    Trim(RemoveHandlers(RemoveAllCI(RemoveScripts(input), "javascript:")))
  }

  /** Sanitising only deletes characters. */
  lemma SanitizeShrinks(input: string)
    ensures |SanitizeInput(input)| <= |input|
    ensures multiset(SanitizeInput(input)) <= multiset(input)
  {
    var a := RemoveScripts(input);
    RemoveAllCIShrinks(a, "javascript:");
    var b := RemoveAllCI(a, "javascript:");
    var c := RemoveHandlers(b);
    TrimShrinks(c);
  }

  lemma TrimShrinks(s: string)
    ensures |Trim(s)| <= |s| && multiset(Trim(s)) <= multiset(s)
  {
    TrimStartShrinks(s);
    TrimEndShrinks(TrimStart(s));
  }

  lemma TrimStartShrinks(s: string)
    ensures multiset(TrimStart(s)) <= multiset(s)
  {
    var t := TrimStart(s);
    assert s == s[..|s| - |t|] + t;
  }

  lemma TrimEndShrinks(s: string)
    ensures multiset(TrimEnd(s)) <= multiset(s)
  {
    var t := TrimEnd(s);
    assert s == t + s[|t|..];
  }

  /** "javascript:" matches itself. */
  lemma ProtocolRemovedWhole(t: string)
    requires t == "javascript:"
    ensures RemoveAllCI(t, t) == []
  {
    assert t[0..|t|] == t;
    ExactMatch(t, t, 0);
    assert t[|t|..] == [];
  }

  /** Text before the first match is kept as it is. */
  lemma RemoveAllCIKeepsPrefix(s: string, pat: string, n: nat)
    requires pat != [] && n + |pat| <= |s|
    requires forall i :: 0 <= i < n ==> !MatchesAtCI(s, pat, i)
    ensures RemoveAllCI(s, pat) == s[..n] + RemoveAllCI(s[n..], pat)
  {
    KeepsPrefixFrom(s, pat, n, 0);
    assert s[0..] == s;
    assert s[0..n] == s[..n];
  }

  /** The same from position `k`: the characters from `k` up to `n` are kept. */
  lemma {:induction false} KeepsPrefixFrom(s: string, pat: string, n: nat, k: nat)
    requires pat != [] && n + |pat| <= |s| && k <= n
    requires forall i :: k <= i < n ==> !MatchesAtCI(s, pat, i)
    ensures RemoveAllCI(s[k..], pat) == s[k..n] + RemoveAllCI(s[n..], pat)
    decreases n - k
  {
    if k < n {
      KeepsPrefixFrom(s, pat, n, k + 1);
      MatchAtOffset(s, pat, k);
      RemoveAllCIStep(s[k..], pat);
      assert s[k..][1..] == s[k + 1..];
      ConsAssoc(s, k, n, RemoveAllCI(s[n..], pat));
    } else {
      assert s[k..n] == [];
    }
  }

  lemma ConsAssoc(s: string, k: nat, n: nat, x: string)
    requires k < n <= |s|
    ensures [s[k]] + (s[k + 1..n] + x) == s[k..n] + x
  {
    assert s[k..n] == [s[k]] + s[k + 1..n];
  }

  /** A match at `k` is a match at the front of the text from `k`. */
  lemma MatchAtOffset(s: string, pat: string, k: nat)
    requires k <= |s|
    ensures MatchesAtCI(s[k..], pat, 0) <==> MatchesAtCI(s, pat, k)
  {
  }

  /** Where nothing matches at the front, the first character is kept. */
  lemma RemoveAllCIStep(s: string, pat: string)
    requires pat != [] && |pat| <= |s|
    requires !MatchesAtCI(s, pat, 0)
    ensures RemoveAllCI(s, pat) == [s[0]] + RemoveAllCI(s[1..], pat)
  {
  }

  lemma Mismatch(s: string, pat: string, i: nat, k: nat)
    requires k < |pat| && i + k < |s| && !EqCI(s[i + k], pat[k])
    ensures !MatchesAtCI(s, pat, i)
  {
  }

  /** Removing the inner "javascript:" of "javajavascript:script:" joins the
      remaining text into a new "javascript:". */
  lemma ProtocolRemovedOnce(s: string, t: string)
    requires s == "javajavascript:script:" && t == "javascript:"
    ensures RemoveAllCI(s, t) == t
  {
    var a, c := "java", "script:";
    assert s == a + t + c;
    NoProtocolInPrefix(s, t);
    RemovedAroundMatch(a, t, c);
    JoinsToProtocol(a, c);
  }

  /** No match of "javascript:" starts among the first four characters. */
  lemma NoProtocolInPrefix(s: string, t: string)
    requires s == "javajavascript:script:" && t == "javascript:"
    ensures forall i :: 0 <= i < 4 ==> !MatchesAtCI(s, t, i)
  {
    assert s[4] == 'j' && t[4] == 's';
    assert s[1] == 'a' && s[2] == 'v' && s[3] == 'a' && t[0] == 'j';
    FirstFourMismatch(s, t);
  }

  lemma FirstFourMismatch(s: string, t: string)
    requires 5 <= |t| && 5 <= |s|
    requires !EqCI(s[4], t[4])
    requires !EqCI(s[1], t[0]) && !EqCI(s[2], t[0]) && !EqCI(s[3], t[0])
    ensures forall i :: 0 <= i < 4 ==> !MatchesAtCI(s, t, i)
  {
    Mismatch(s, t, 0, 4);
    Mismatch(s, t, 1, 0);
    Mismatch(s, t, 2, 0);
    Mismatch(s, t, 3, 0);
    forall i | 0 <= i < 4 ensures !MatchesAtCI(s, t, i) {
      assert i == 0 || i == 1 || i == 2 || i == 3;
    }
  }

  /** A match preceded by text without matches and followed by text too short
      for another one is the only thing removed. */
  lemma RemovedAroundMatch(a: string, t: string, c: string)
    requires t != [] && |c| < |t|
    requires forall i :: 0 <= i < |a| ==> !MatchesAtCI(a + t + c, t, i)
    ensures RemoveAllCI(a + t + c, t) == a + c
  {
    var s := a + t + c;
    RemoveAllCIKeepsPrefix(s, t, |a|);
    assert s[..|a|] == a;
    assert s[|a|..] == t + c;
    MatchThenShort(s[|a|..], t, c);
  }

  /** A match followed by text too short for another one leaves that text. */
  lemma MatchThenShort(u: string, t: string, c: string)
    requires t != [] && |c| < |t| && u == t + c
    ensures RemoveAllCI(u, t) == c
  {
    assert u[0..|t|] == t;
    ExactMatch(u, t, 0);
    RemoveAllCIAtMatch(u, t);
    assert u[|t|..] == c;
  }

  lemma RemoveAllCIAtMatch(s: string, pat: string)
    requires pat != [] && MatchesAtCI(s, pat, 0)
    ensures RemoveAllCI(s, pat) == RemoveAllCI(s[|pat|..], pat)
  {
  }

  lemma JoinsToProtocol(a: string, b: string)
    requires a == "java" && b == "script:"
    ensures a + b == "javascript:"
  {
  }

  /** For text without '<' whose protocol pass leaves no 'o', only the
      protocol pass and the trim have an effect. */
  lemma SanitizeWithoutTagsOrHandlers(s: string, p: string)
    requires '<' !in s
    requires RemoveAllCI(s, "javascript:") == p
    requires forall i :: 0 <= i < |p| ==> !EqCI(p[i], 'o')
    ensures SanitizeInput(s) == Trim(p)
  {
    RemoveScriptsNoTag(s);
    RemoveHandlersNoO(p);
  }

  lemma ExampleHasNoAngle(s: string)
    requires s == "javajavascript:script:"
    ensures '<' !in s
  {
  }

  lemma ProtocolHasNoO(t: string)
    requires t == "javascript:"
    ensures '<' !in t
    ensures forall i :: 0 <= i < |t| ==> !EqCI(t[i], 'o')
  {
    forall i | 0 <= i < |t| ensures !EqCI(t[i], 'o') {
      assert t[i] in "javscript:";
    }
  }

  lemma ProtocolTrimmed(t: string)
    requires t == "javascript:"
    ensures Trim(t) == t
  {
    assert !IsJsSpace(t[0]) && !IsJsSpace(t[|t| - 1]);
    TrimStartNoop(t);
    TrimEndNoop(t);
  }

  lemma TrimEmpty()
    ensures Trim([]) == []
  {
    TrimStartNoop([]);
    TrimEndNoop([]);
  }

  /** One pass removes "javascript:" only once where matches were nested, so
      sanitising twice can remove more than sanitising once. */
  lemma SanitizeNotIdempotent(s: string)
    requires s == "javajavascript:script:"
    ensures SanitizeInput(s) == "javascript:"
    ensures SanitizeInput(SanitizeInput(s)) == ""
  {
    var t := "javascript:";
    ProtocolRemovedOnce(s, t);
    ProtocolRemovedWhole(t);
    ProtocolHasNoO(t);
    ExampleHasNoAngle(s);
    SanitizeWithoutTagsOrHandlers(s, t);
    SanitizeWithoutTagsOrHandlers(t, []);
    ProtocolTrimmed(t);
    TrimEmpty();
  }

  // ---------------------------------------------------------------------
  // preventSQLInjection

  /** The keyword list, in the order it is applied. */
  const SqlKeywords: seq<string> := [
    "SELECT", "INSERT", "UPDATE", "DELETE", "DROP", "CREATE", "ALTER", "EXEC",
    "EXECUTE", "UNION", "SCRIPT", "--", ";", "/*", "*/", "xp_"]

  /** A compiled keyword: a literal string, or one character under `*`. */
  datatype Pattern = Literal(text: string) | Star(c: char)

  /** Characters with a meaning in a regular expression other than `*`. */
  predicate IsMetaChar(c: char)
  {
    c == '^' || c == '$' || c == '\\' || c == '.' || c == '|' || c == '?' || c == '+'
    || c == '(' || c == ')' || c == '[' || c == ']' || c == '{' || c == '}'
  }

  /** The shapes of pattern source this model compiles: a leading `*`, a
      string of plain characters, or one plain character followed by `*`. */
  predicate SupportedSource(k: string)
  {
    k != [] && (forall i :: 0 <= i < |k| ==> !IsMetaChar(k[i]))
    && (k[0] == '*' || '*' !in k || (|k| == 2 && k[1] == '*'))
  }

  /** `new RegExp(k, "gi")`: a leading quantifier has nothing to repeat and
      the constructor throws a SyntaxError. */
  function Compile(k: string): (r: Result<Pattern>)
    requires SupportedSource(k)
    ensures r.Err? <==> k[0] == '*'
    ensures r.Ok? && '*' !in k ==> r.value == Literal(k)
  {
    if k[0] == '*' then Err("Invalid regular expression: /" + k + "/gi: Nothing to repeat")
    else if '*' in k then Ok(Star(k[0]))
    else Ok(Literal(k))
  }

  // `s.replace(new RegExp(c + "*", "gi"), "")`: the longest run of `c` at
  // each index is removed, and an empty match removes nothing, so every `c`
  // goes and every other character stays.
  function RemoveEveryCI(s: string, c: char): (r: string)
    ensures forall i :: 0 <= i < |r| ==> !EqCI(r[i], c)
    ensures multiset(r) <= multiset(s)
    ensures forall x :: !EqCI(x, c) ==> multiset(r)[x] == multiset(s)[x]
  {
    if s == [] then []
    else
      assert s == [s[0]] + s[1..];
      if EqCI(s[0], c) then RemoveEveryCI(s[1..], c) else [s[0]] + RemoveEveryCI(s[1..], c)
  }

  function ApplyPattern(s: string, p: Pattern): (r: string)
    ensures multiset(r) <= multiset(s)
  {
    match p
    case Literal(t) => if t == [] then s else RemoveAllCIShrinks(s, t); RemoveAllCI(s, t)
    case Star(c) => RemoveEveryCI(s, c)
  }

  /** The keywords applied in order; the first that does not compile throws. */
  function ApplyKeywords(s: string, keywords: seq<string>): (r: Result<string>)
    requires forall i :: 0 <= i < |keywords| ==> SupportedSource(keywords[i])
    decreases |keywords|
  {
    if keywords == [] then Ok(s)
    else
      match Compile(keywords[0])
      case Err(e) => Err(e)
      case Ok(p) => ApplyKeywords(ApplyPattern(s, p), keywords[1..])
  }

  /** A keyword that does not compile makes the whole chain throw, whatever
      the input and wherever it stands in the list. */
  lemma {:induction false} ApplyKeywordsFails(s: string, keywords: seq<string>, j: nat)
    requires forall i :: 0 <= i < |keywords| ==> SupportedSource(keywords[i])
    requires j < |keywords| && Compile(keywords[j]).Err?
    ensures ApplyKeywords(s, keywords).Err?
    decreases |keywords|
  {
    if Compile(keywords[0]).Ok? {
      ApplyKeywordsFails(ApplyPattern(s, Compile(keywords[0]).value), keywords[1..], j - 1);
    }
  }

  lemma SqlKeywordsSupported()
    ensures forall i :: 0 <= i < |SqlKeywords| ==> SupportedSource(SqlKeywords[i])
  {
    WordKeywordsSupported();
    assert forall i :: 11 <= i < 15 ==> SupportedSource(SqlKeywords[i]);
    WordSupported(SqlKeywords[15]);
  }

  /** The keywords made of word characters, the first eleven. */
  lemma WordKeywordsSupported()
    ensures forall i :: 0 <= i < 11 ==> SupportedSource(SqlKeywords[i])
  {
    forall i | 0 <= i < 11 ensures SupportedSource(SqlKeywords[i]) {
      WordSupported(SqlKeywords[i]);
    }
  }

  /** A keyword of word characters only is a plain literal pattern. */
  lemma WordSupported(k: string)
    requires k != [] && forall i :: 0 <= i < |k| ==> IsWordChar(k[i])
    ensures SupportedSource(k)
  {
    assert forall i :: 0 <= i < |k| ==> !IsMetaChar(k[i]) && k[i] != '*';
  }

  // The slash-star keyword compiles to "any number of slashes", which
  // deletes every '/'.
  lemma SlashStarDeletesSlashes(s: string)
    ensures SupportedSource(SqlKeywords[13]) && Compile(SqlKeywords[13]) == Ok(Star('/'))
    ensures '/' !in ApplyPattern(s, Star('/'))
    ensures forall x :: x != '/' ==> multiset(ApplyPattern(s, Star('/')))[x] == multiset(s)[x]
  {
    var r := ApplyPattern(s, Star('/'));
    forall i | 0 <= i < |r| ensures r[i] != '/' {
      assert !EqCI(r[i], '/');
    }
  }

  /** The `forEach` over a keyword list: each keyword is compiled and applied
      in turn, and the first one that does not compile throws. */
  method ApplyEach(input: string, keywords: seq<string>) returns (r: Result<string>)
    requires forall i :: 0 <= i < |keywords| ==> SupportedSource(keywords[i])
    ensures r == ApplyKeywords(input, keywords)
  {
    var sanitized := input;
    var i := 0;
    while i < |keywords|
      invariant 0 <= i <= |keywords|
      invariant ApplyKeywords(sanitized, keywords[i..]) == ApplyKeywords(input, keywords)
    {
      var compiled := Compile(keywords[i]);
      if compiled.Err? {
        return Err(compiled.error);
      }
      assert keywords[i..][1..] == keywords[i + 1..];
      sanitized := ApplyPattern(sanitized, compiled.value);
      i := i + 1;
    }
    r := Ok(sanitized);
  }

  // `preventSQLInjection` as written: every keyword is compiled and applied
  // in list order, and the star-slash keyword makes the constructor throw,
  // so no input reaches the return statement.
  method PreventSqlInjection(input: string) returns (r: Result<string>)
    ensures SqlKeywordsValid() && r == ApplyKeywords(input, SqlKeywords)
    ensures r.Err?
  {
    SqlKeywordsSupported();
    r := ApplyEach(input, SqlKeywords);
    ApplyKeywordsFails(input, SqlKeywords, 14);
  }

  predicate SqlKeywordsValid()
  {
    forall i :: 0 <= i < |SqlKeywords| ==> SupportedSource(SqlKeywords[i])
  }

  /** Each keyword removed as a literal string, case-insensitively, in list order. */
  function ApplyLiteralKeywords(s: string, keywords: seq<string>): (r: string)
    ensures multiset(r) <= multiset(s)
    decreases |keywords|
  {
    if keywords == [] then s
    else ApplyLiteralKeywords(ApplyPattern(s, Literal(keywords[0])), keywords[1..])
  }

  /** Applying a list of keywords is applying its first `j` and then the rest. */
  lemma {:induction false} ApplyLiteralSplit(s: string, keywords: seq<string>, j: nat)
    requires j <= |keywords|
    ensures ApplyLiteralKeywords(s, keywords)
      == ApplyLiteralKeywords(ApplyLiteralKeywords(s, keywords[..j]), keywords[j..])
    decreases j
  {
    if j > 0 {
      var s' := ApplyPattern(s, Literal(keywords[0]));
      var head, tail := keywords[..j], keywords[1..];
      assert ApplyLiteralKeywords(s, keywords) == ApplyLiteralKeywords(s', tail);
      ApplyLiteralSplit(s', tail, j - 1);
      assert head[0] == keywords[0] && head[1..] == tail[..j - 1];
      assert ApplyLiteralKeywords(s, head) == ApplyLiteralKeywords(s', head[1..]);
      assert tail[j - 1..] == keywords[j..];
    } else {
      assert keywords[..j] == [] && keywords[j..] == keywords;
    }
  }

  /** Once ';' is gone, deleting more text cannot bring it back. */
  lemma SemicolonStaysOut(s: string, keywords: seq<string>)
    requires ';' !in s
    ensures ';' !in ApplyLiteralKeywords(s, keywords)
  {
    var r := ApplyLiteralKeywords(s, keywords);
    assert multiset(s)[';'] == 0;
    assert multiset(r)[';'] == 0;
  }

  /** With the keywords matched literally, no ';' survives. */
  lemma EscapedRemovesSemicolons(s: string)
    ensures ';' !in ApplyLiteralKeywords(s, SqlKeywords)
  {
    ApplyLiteralSplit(s, SqlKeywords, 12);
    var before := ApplyLiteralKeywords(s, SqlKeywords[..12]);
    var rest := SqlKeywords[12..];
    assert rest[0] == ";";
    var after := RemoveAllCI(before, [';']);
    RemoveAllCISingle(before, ';');
    forall j | 0 <= j < |after| ensures after[j] != ';' {
      assert !EqCI(after[j], ';');
    }
    assert ApplyLiteralKeywords(before, rest) == ApplyLiteralKeywords(after, rest[1..]);
    SemicolonStaysOut(after, rest[1..]);
  }

  /** Each keyword of a list removed literally, in list order. */
  method ApplyEachLiteral(input: string, keywords: seq<string>) returns (r: string)
    ensures r == ApplyLiteralKeywords(input, keywords)
  {
    r := input;
    var i := 0;
    while i < |keywords|
      invariant 0 <= i <= |keywords|
      invariant ApplyLiteralKeywords(r, keywords[i..]) == ApplyLiteralKeywords(input, keywords)
    {
      assert keywords[i..][1..] == keywords[i + 1..];
      r := ApplyPattern(r, Literal(keywords[i]));
      i := i + 1;
    }
  }

  /** The evidently intended sanitiser, with every keyword escaped so that it
      is matched literally: it always returns, having only deleted text and
      left no ';' behind. */
  method PreventSqlInjectionEscaped(input: string) returns (r: string)
    ensures r == ApplyLiteralKeywords(input, SqlKeywords)
    ensures multiset(r) <= multiset(input)
    ensures ';' !in r
  {
    r := ApplyEachLiteral(input, SqlKeywords);
    EscapedRemovesSemicolons(input);
  }
}
