/** String primitives the portal's TypeScript gets from the JavaScript runtime,
    written out: ASCII `toLowerCase`, the `\s` whitespace class and `trim`,
    `includes`, `replace(/X+/g, r)` for a character class X, `join`,
    the default `sort` of a string array and `Array.from(new Set(xs))`. */
module Text {

  // ---------------------------------------------------------------- characters

  predicate IsUpper(c: char) { 'A' <= c <= 'Z' }

  /** ASCII `toLowerCase` of one character. */
  function LowerChar(c: char): (d: char)
    ensures !IsUpper(d)
    ensures !IsUpper(c) ==> d == c
    ensures IsUpper(c) ==> 'a' <= d <= 'z'
  {
    if IsUpper(c) then (c as int + 32) as char else c
  }

  /** The characters JavaScript's regular-expression class `\s` matches;
      `String.prototype.trim` strips exactly these. */
  predicate IsSpace(c: char)
  {
    ('\t' <= c <= '\r') || c == ' ' || c == '\U{00A0}' || c == '\U{1680}' ||
    ('\U{2000}' <= c <= '\U{200A}') || c == '\U{2028}' || c == '\U{2029}' ||
    c == '\U{202F}' || c == '\U{205F}' || c == '\U{3000}' || c == '\U{FEFF}'
  }

  /** The class `\w`: ASCII letters, digits and underscore. */
  predicate IsWordChar(c: char)
  {
    ('a' <= c <= 'z') || ('A' <= c <= 'Z') || ('0' <= c <= '9') || c == '_'
  }

  predicate IsNonWordChar(c: char) { !IsWordChar(c) }

  // ------------------------------------------------------------ case mapping

  /** ASCII `s.toLowerCase()`. */
  function ToLower(s: string): (t: string)
    ensures |t| == |s|
    ensures forall i :: 0 <= i < |t| ==> !IsUpper(t[i])
    ensures forall i :: 0 <= i < |s| ==> (IsUpper(s[i]) || t[i] == s[i])
    ensures (forall i :: 0 <= i < |s| ==> !IsUpper(s[i])) ==> t == s
  {
    seq(|s|, i requires 0 <= i < |s| => LowerChar(s[i]))
  }

  // ---------------------------------------------------------- substring search

  predicate StartsWith(s: string, prefix: string)
  {
    |prefix| <= |s| && s[..|prefix|] == prefix
  }

  /** A text starts with its first part. */
  lemma StartsWithJoined(a: string, b: string)
    ensures StartsWith(a + b, a)
  {
    assert (a + b)[..|a|] == a;
  }

  /** `h.includes(n)`. */
  predicate Contains(h: string, n: string)
    decreases |h|
  {
    StartsWith(h, n) || (|h| > 0 && Contains(h[1..], n))
  }

  /** `n` occurs in `h` starting at position `i`. */
  predicate OccursAt(h: string, n: string, i: nat)
  {
    i + |n| <= |h| && h[i..i + |n|] == n
  }

  /** `Contains` is the usual "occurs at some position" relation. */
  lemma {:induction false} ContainsIff(h: string, n: string)
    ensures Contains(h, n) <==> exists i: nat :: OccursAt(h, n, i)
    decreases |h|
  {
    if Contains(h, n) {
      if !StartsWith(h, n) {
        ContainsIff(h[1..], n);
        var i: nat :| OccursAt(h[1..], n, i);
        assert h[i + 1..i + 1 + |n|] == h[1..][i..i + |n|];
        assert OccursAt(h, n, i + 1);
      } else {
        assert OccursAt(h, n, 0);
      }
    }
    if exists i: nat :: OccursAt(h, n, i) {
      var i: nat :| OccursAt(h, n, i);
      ContainsAt(h, n, i);
    }
  }

  lemma {:induction false} ContainsAt(h: string, n: string, i: nat)
    requires OccursAt(h, n, i)
    ensures Contains(h, n)
    decreases i
  {
    if i > 0 {
      assert h[1..][i - 1..i - 1 + |n|] == h[i..i + |n|];
      ContainsAt(h[1..], n, i - 1);
    }
  }

  /** A string occurs inside any text that has it as an infix. */
  lemma ContainsInfix(a: string, b: string, c: string)
    ensures Contains(a + b + c, b)
  {
    assert (a + b + c)[|a|..|a| + |b|] == b;
    ContainsAt(a + b + c, b, |a|);
  }

  /** If `n + m` occurs then so does its prefix `n`. */
  lemma ContainsPrefix(h: string, n: string, m: string)
    requires Contains(h, n + m)
    ensures Contains(h, n)
  {
    ContainsIff(h, n + m);
    var i: nat :| OccursAt(h, n + m, i);
    assert h[i..i + |n|] == (n + m)[..|n|] == n;
    ContainsAt(h, n, i);
  }

  /** A string that occurs in `h` occurs in any text that has `h` inside it. */
  lemma ContainsWithin(a: string, h: string, c: string, n: string)
    requires Contains(h, n)
    ensures Contains(a + h + c, n)
  {
    ContainsIff(h, n);
    var i: nat :| OccursAt(h, n, i);
    assert (a + h + c)[|a| + i..|a| + i + |n|] == h[i..i + |n|];
    ContainsAt(a + h + c, n, |a| + i);
  }

  /** Occurrence is transitive: what occurs in a part of `h` occurs in `h`. */
  lemma ContainsTrans(h: string, m: string, n: string)
    requires Contains(h, m) && Contains(m, n)
    ensures Contains(h, n)
  {
    ContainsIff(h, m);
    var i: nat :| OccursAt(h, m, i);
    assert h[i..i + |m|] == m;
    ContainsWithin(h[..i], m, h[i + |m|..], n);
    assert h[..i] + m + h[i + |m|..] == h;
  }

  /** Every string contains the empty string. */
  lemma ContainsEmpty(h: string)
    ensures Contains(h, "")
  {
    ContainsAt(h, "", 0);
  }

  /** `phrases.some(p => h.includes(p))`. */
  predicate ContainsAny(h: string, phrases: seq<string>)
    decreases |phrases|
  {
    |phrases| > 0 && (Contains(h, phrases[0]) || ContainsAny(h, phrases[1..]))
  }

  /** `some` holds exactly when one of the phrases occurs. */
  lemma {:induction false} ContainsAnyIff(h: string, phrases: seq<string>)
    ensures ContainsAny(h, phrases) <==> exists i :: 0 <= i < |phrases| && Contains(h, phrases[i])
    decreases |phrases|
  {
    if |phrases| > 0 {
      ContainsAnyIff(h, phrases[1..]);
      if ContainsAny(h, phrases[1..]) {
        var i :| 0 <= i < |phrases[1..]| && Contains(h, phrases[1..][i]);
        assert Contains(h, phrases[i + 1]);
      }
      if exists i :: 1 <= i < |phrases| && Contains(h, phrases[i]) {
        var i :| 1 <= i < |phrases| && Contains(h, phrases[i]);
        assert phrases[1..][i - 1] == phrases[i];
      }
    }
  }

  // ------------------------------------------------------------------ trimming

  /** The longest suffix of `s` that does not start with a character of
      class `p` (`SkipRunSpec` states that it is a suffix after a run). */
  function SkipRun(p: char -> bool, s: string): (t: string)
    ensures |t| <= |s|
    ensures t == [] || !p(t[0])
    decreases |s|
  {
    if s != [] && p(s[0]) then SkipRun(p, s[1..]) else s
  }

  lemma {:induction false} SkipRunSpec(p: char -> bool, s: string)
    ensures var t := SkipRun(p, s);
      && t == s[|s| - |t|..]
      && (forall i :: 0 <= i < |s| - |t| ==> p(s[i]))
    decreases |s|
  {
    if s != [] && p(s[0]) {
      SkipRunSpec(p, s[1..]);
      var t := SkipRun(p, s[1..]);
      assert s[1..][|s| - 1 - |t|..] == s[|s| - |t|..];
      forall i | 0 <= i < |s| - |t| ensures p(s[i]) {
        if i > 0 { assert s[i] == s[1..][i - 1]; }
      }
    }
  }

  /** The longest prefix of `s` whose characters are all of class `p`
      (what a greedy `[X]+` consumes). */
  function TakeRun(p: char -> bool, s: string): (t: string)
    ensures |t| <= |s| && t == s[..|t|]
    ensures forall i :: 0 <= i < |t| ==> p(t[i])
    ensures |t| == |s| || !p(s[|t|])
    decreases |s|
  {
    if s != [] && p(s[0]) then [s[0]] + TakeRun(p, s[1..]) else []
  }

  /** The longest prefix of `s` that does not end with a character of class
      `p` (`DropRunEndSpec` states its shape). */
  function DropRunEnd(p: char -> bool, s: string): (t: string)
    ensures |t| <= |s|
    decreases |s|
  {
    if s != [] && p(s[|s| - 1]) then DropRunEnd(p, s[..|s| - 1]) else s
  }

  lemma {:induction false} DropRunEndSpec(p: char -> bool, s: string)
    ensures var t := DropRunEnd(p, s);
      && t == s[..|t|]
      && (t == [] || !p(t[|t| - 1]))
      && (forall i :: |t| <= i < |s| ==> p(s[i]))
    decreases |s|
  {
    if s != [] && p(s[|s| - 1]) {
      var s' := s[..|s| - 1];
      DropRunEndSpec(p, s');
      var t := DropRunEnd(p, s');
      assert s'[..|t|] == s[..|t|];
    }
  }

  /** The number of whitespace characters `trim` removes from the front. */
  function Lead(s: string): nat
  {
    |s| - |SkipRun(IsSpace, s)|
  }

  /** `s.trim()`: `s` without its leading and its trailing whitespace
      (`TrimSpec` states the shape of the result). */
  function Trim(s: string): (t: string)
    ensures |t| <= |s|
  {
    DropRunEnd(IsSpace, SkipRun(IsSpace, s))
  }

  /** The trimmed text is the slice of `s` between its leading and its
      trailing whitespace, and neither starts nor ends with whitespace. */
  lemma TrimSpec(s: string)
    ensures Lead(s) + |Trim(s)| <= |s| && Trim(s) == s[Lead(s)..Lead(s) + |Trim(s)|]
    ensures Trim(s) == [] || (!IsSpace(Trim(s)[0]) && !IsSpace(Trim(s)[|Trim(s)| - 1]))
    ensures forall i :: 0 <= i < Lead(s) ==> IsSpace(s[i])
    ensures forall i :: Lead(s) + |Trim(s)| <= i < |s| ==> IsSpace(s[i])
  {
    var u := SkipRun(IsSpace, s);
    var t := DropRunEnd(IsSpace, u);
    SkipRunSpec(IsSpace, s);
    DropRunEndSpec(IsSpace, u);
    RunSlice(IsSpace, s, u, t, Lead(s));
  }

  /** Dropping the runs of class `p` at both ends of `s` leaves a slice of
      `s` that neither starts nor ends with class `p`, with only class `p`
      around it. */
  lemma RunSlice(p: char -> bool, s: string, u: string, t: string, k: nat)
    requires |u| <= |s| && u == s[|s| - |u|..] && k == |s| - |u|
    requires u == [] || !p(u[0])
    requires forall i :: 0 <= i < |s| - |u| ==> p(s[i])
    requires |t| <= |u| && t == u[..|t|]
    requires t == [] || !p(t[|t| - 1])
    requires forall i :: |t| <= i < |u| ==> p(u[i])
    ensures k + |t| <= |s| && t == s[k..k + |t|]
    ensures t == [] || (!p(t[0]) && !p(t[|t| - 1]))
    ensures forall i :: 0 <= i < k ==> p(s[i])
    ensures forall i :: k + |t| <= i < |s| ==> p(s[i])
  {
    SuffixSlice(s, u, |t|);
    assert t != [] ==> t[0] == u[0];
    SuffixTail(p, s, u, |t|);
  }

  /** Class-`p` characters after the first `n` of a suffix are characters of
      the text. */
  lemma SuffixTail(p: char -> bool, s: string, u: string, n: nat)
    requires |u| <= |s| && u == s[|s| - |u|..] && n <= |u|
    requires forall i :: n <= i < |u| ==> p(u[i])
    ensures forall i :: |s| - |u| + n <= i < |s| ==> p(s[i])
  {
    forall i | |s| - |u| + n <= i < |s| ensures p(s[i]) {
      assert s[i] == u[i - (|s| - |u|)];
    }
  }

  /** A prefix of a suffix is a slice. */
  lemma SuffixSlice(s: string, u: string, n: nat)
    requires |u| <= |s| && u == s[|s| - |u|..] && n <= |u|
    ensures u[..n] == s[|s| - |u|..|s| - |u| + n]
  {
  }

  /** Every character is whitespace. */
  predicate Blank(s: string)
  {
    forall i :: 0 <= i < |s| ==> IsSpace(s[i])
  }

  /** A string is blank (`!s.trim()`) exactly when every character is whitespace. */
  lemma {:induction false} BlankIff(s: string)
    ensures Trim(s) == [] <==> Blank(s)
  {
    var t := Trim(s);
    TrimSpec(s);
    if t != [] {
      assert !IsSpace(s[Lead(s)]);
    }
  }

  /** Trimming text that has no whitespace at either end changes nothing. */
  lemma {:induction false} TrimIdentity(s: string)
    requires s == [] || (!IsSpace(s[0]) && !IsSpace(s[|s| - 1]))
    ensures Trim(s) == s
  {
    assert SkipRun(IsSpace, s) == s;
    assert DropRunEnd(IsSpace, s) == s;
  }

  // ------------------------------------------------------- run replacement

  /** No two neighbouring characters are both of class `p`. */
  predicate NoAdjacent(p: char -> bool, t: string)
  {
    forall i :: 0 <= i < |t| - 1 ==> !(p(t[i]) && p(t[i + 1]))
  }

  /** `s.replace(/X+/g, r)` for the character class `p` = X: every maximal run of
      class-`p` characters becomes the single character `r`. */
  function Collapse(p: char -> bool, r: char, s: string): (t: string)
    ensures |t| <= |s|
    ensures (s == []) <==> (t == [])
    ensures s != [] && !p(s[0]) ==> t[0] == s[0]
    ensures s != [] && p(s[0]) ==> t[0] == r
    ensures NoAdjacent(p, t)
    decreases |s|
  {
    if s == [] then []
    else if p(s[0]) then [r] + Collapse(p, r, SkipRun(p, s[1..]))
    else [s[0]] + Collapse(p, r, s[1..])
  }

  /** Every character of the result is the replacement or a character of `s`
      outside the class. */
  lemma {:induction false} CollapseChars(p: char -> bool, r: char, s: string)
    ensures forall c :: c in Collapse(p, r, s) ==> c == r || (!p(c) && c in s)
    decreases |s|
  {
    if s != [] {
      var rest := if p(s[0]) then SkipRun(p, s[1..]) else s[1..];
      if p(s[0]) { SkipRunSpec(p, s[1..]); }
      assert rest == s[|s| - |rest|..];
      CollapseChars(p, r, rest);
      SuffixChars(s, rest);
    }
  }

  /** The characters of a suffix are characters of the text. */
  lemma SuffixChars(s: string, u: string)
    requires |u| <= |s| && u == s[|s| - |u|..]
    ensures forall c :: c in u ==> c in s
  {
    forall c | c in u ensures c in s {
      var k :| 0 <= k < |u| && u[k] == c;
      assert s[|s| - |u| + k] == c;
    }
  }

  /** Collapsing changes nothing when the text has no runs longer than one
      and every class-`p` character already is `r`. */
  lemma {:induction false} CollapseIdentity(p: char -> bool, r: char, s: string)
    requires forall i :: 0 <= i < |s| ==> p(s[i]) ==> s[i] == r
    requires NoAdjacent(p, s)
    ensures Collapse(p, r, s) == s
    decreases |s|
  {
    if s != [] {
      CollapseIdentity(p, r, s[1..]);
      if p(s[0]) {
        assert SkipRun(p, s[1..]) == s[1..];
      }
    }
  }

  /** Skipping a run that ends inside `a` does not reach `b`. */
  lemma {:induction false} SkipRunPast(p: char -> bool, a: string, b: string)
    requires !(forall i :: 0 <= i < |a| ==> p(a[i]))
    ensures SkipRun(p, a + b) == SkipRun(p, a) + b
    decreases |a|
  {
    assert (a + b)[1..] == a[1..] + b;
    if p(a[0]) {
      var k :| 0 <= k < |a| && !p(a[k]);
      assert a[1..][k - 1] == a[k];
      SkipRunPast(p, a[1..], b);
    }
  }

  /** Skipping a run that covers all of `a` goes on into `b`. */
  lemma {:induction false} SkipRunOver(p: char -> bool, a: string, b: string)
    requires forall i :: 0 <= i < |a| ==> p(a[i])
    ensures SkipRun(p, a + b) == SkipRun(p, b)
    decreases |a|
  {
    if a == [] {
      assert a + b == b;
    } else {
      assert (a + b)[0] == a[0];
      assert (a + b)[1..] == a[1..] + b;
      SkipRunOver(p, a[1..], b);
    }
  }

  /** A whole run of class-`p` characters becomes the one character `r`. */
  lemma {:induction false} CollapseRun(p: char -> bool, r: char, w: string)
    requires w != [] && forall i :: 0 <= i < |w| ==> p(w[i])
    ensures Collapse(p, r, w) == [r]
  {
    SkipRunOver(p, w[1..], []);
    assert w[1..] + [] == w[1..];
  }

  /** Collapsing works piece by piece when the cut does not split a run: the
      result of the whole is the results of the two parts, one after the other. */
  lemma {:induction false} CollapseAppend(p: char -> bool, r: char, u: string, v: string)
    requires u == [] || v == [] || !p(u[|u| - 1]) || !p(v[0])
    ensures Collapse(p, r, u + v) == Collapse(p, r, u) + Collapse(p, r, v)
    decreases |u|
  {
    if u == [] {
      assert u + v == v;
    } else if v == [] {
      assert u + v == u;
    } else if !p(u[0]) {
      CollapseAppend(p, r, u[1..], v);
      CollapseStepKeep(p, r, u, v);
      ConcatAssoc([u[0]], Collapse(p, r, u[1..]), Collapse(p, r, v));
    } else if forall i :: 0 <= i < |u[1..]| ==> p(u[1..][i]) {
      CollapseAppendRun(p, r, u, v);
    } else {
      var t := CollapseStepRun(p, r, u, v);
      CollapseAppend(p, r, t, v);
      ConcatAssoc([r], Collapse(p, r, t), Collapse(p, r, v));
    }
  }

  /** The first step of `Collapse` on `u` and on `u + v` at a character outside the class. */
  lemma CollapseStepKeep(p: char -> bool, r: char, u: string, v: string)
    requires u != [] && !p(u[0])
    ensures Collapse(p, r, u + v) == [u[0]] + Collapse(p, r, u[1..] + v)
    ensures Collapse(p, r, u) == [u[0]] + Collapse(p, r, u[1..])
  {
    assert (u + v)[0] == u[0] && (u + v)[1..] == u[1..] + v;
  }

  /** The first step of `Collapse` on `u` and on `u + v` at a run that ends inside
      `u`: both go on from the rest `t` of `u` after the run, which ends as `u` does. */
  lemma CollapseStepRun(p: char -> bool, r: char, u: string, v: string) returns (t: string)
    requires u != [] && p(u[0])
    requires !(forall i :: 0 <= i < |u[1..]| ==> p(u[1..][i]))
    ensures |t| < |u| && t != [] && t[|t| - 1] == u[|u| - 1]
    ensures Collapse(p, r, u + v) == [r] + Collapse(p, r, t + v)
    ensures Collapse(p, r, u) == [r] + Collapse(p, r, t)
  {
    t := SkipRun(p, u[1..]);
    SkipRunSpec(p, u[1..]);
    SkipRunPast(p, u[1..], v);
    assert (u + v)[0] == u[0] && (u + v)[1..] == u[1..] + v;
    CollapseHeadRun(p, r, u + v);
    CollapseHeadRun(p, r, u);
  }

  /** The step of `CollapseAppend` where `u` is one run, which `v` does not continue. */
  lemma CollapseAppendRun(p: char -> bool, r: char, u: string, v: string)
    requires u != [] && v != [] && !p(v[0])
    requires forall i :: 0 <= i < |u| ==> p(u[i])
    ensures Collapse(p, r, u + v) == Collapse(p, r, u) + Collapse(p, r, v)
  {
    assert (u + v)[1..] == u[1..] + v;
    SkipRunOver(p, u[1..], v);
    CollapseRun(p, r, u);
  }

  /** Concatenation is associative. */
  lemma ConcatAssoc<T>(a: seq<T>, b: seq<T>, c: seq<T>)
    ensures a + (b + c) == (a + b) + c
  {
  }

  /** One step of `Collapse` at a leading run. */
  lemma CollapseHeadRun(p: char -> bool, r: char, s: string)
    requires s != [] && p(s[0])
    ensures Collapse(p, r, s) == [r] + Collapse(p, r, SkipRun(p, s[1..]))
  {
  }

  /** `s.replace(/a/g, b)` for a single character `a`. */
  function ReplaceChar(s: string, a: char, b: char): (t: string)
    ensures |t| == |s|
    ensures forall i :: 0 <= i < |s| ==> t[i] == (if s[i] == a then b else s[i])
  {
    seq(|s|, i requires 0 <= i < |s| => if s[i] == a then b else s[i])
  }

  // ------------------------------------------------------------------ joining

  /** `xs.join(sep)`. */
  function Join(xs: seq<string>, sep: string): string
    decreases |xs|
  {
    if |xs| == 0 then ""
    else if |xs| == 1 then xs[0]
    else xs[0] + sep + Join(xs[1..], sep)
  }

  /** Every joined part occurs in the joined text. */
  lemma {:induction false} JoinContains(xs: seq<string>, sep: string, k: nat)
    requires k < |xs|
    ensures Contains(Join(xs, sep), xs[k])
    decreases |xs|
  {
    if |xs| == 1 {
      ContainsInfix("", xs[0], "");
      assert "" + xs[0] + "" == xs[0];
    } else if k == 0 {
      ContainsInfix("", xs[0], sep + Join(xs[1..], sep));
      assert "" + xs[0] + (sep + Join(xs[1..], sep)) == Join(xs, sep);
    } else {
      assert xs[1..][k - 1] == xs[k];
      JoinContains(xs[1..], sep, k - 1);
      ContainsWithin(xs[0] + sep, Join(xs[1..], sep), "", xs[k]);
      assert Join(xs, sep) == xs[0] + sep + Join(xs[1..], sep) + "";
    }
  }

  // ---------------------------------------------------------------- ordering

  /** The order JavaScript's default `sort` puts strings in: lexicographic by
      character code. */
  predicate StrLe(a: string, b: string)
    decreases |a|
  {
    a == [] || (b != [] && (a[0] < b[0] || (a[0] == b[0] && StrLe(a[1..], b[1..]))))
  }

  lemma {:induction false} StrLeTotal(a: string, b: string)
    ensures StrLe(a, b) || StrLe(b, a)
    decreases |a|
  {
    if a != [] && b != [] && a[0] == b[0] {
      StrLeTotal(a[1..], b[1..]);
    }
  }

  lemma {:induction false} StrLeTrans(a: string, b: string, c: string)
    requires StrLe(a, b) && StrLe(b, c)
    ensures StrLe(a, c)
    decreases |a|
  {
    if a != [] && b != [] && c != [] && a[0] == b[0] && b[0] == c[0] {
      StrLeTrans(a[1..], b[1..], c[1..]);
    }
  }

  lemma {:induction false} StrLeAntisym(a: string, b: string)
    requires StrLe(a, b) && StrLe(b, a)
    ensures a == b
    decreases |a|
  {
    if a != [] {
      StrLeAntisym(a[1..], b[1..]);
      assert a == [a[0]] + a[1..] && b == [b[0]] + b[1..];
    }
  }

  predicate Sorted(xs: seq<string>)
  {
    forall i, j :: 0 <= i < j < |xs| ==> StrLe(xs[i], xs[j])
  }

  /** A sorted list stays sorted under a new head no greater than any element. */
  lemma ConsSorted(y: string, ys: seq<string>)
    requires Sorted(ys)
    requires forall j :: 0 <= j < |ys| ==> StrLe(y, ys[j])
    ensures Sorted([y] + ys)
  {
    var zs := [y] + ys;
    forall i, j | 0 <= i < j < |zs| ensures StrLe(zs[i], zs[j]) {
      if i == 0 {
        assert zs[j] == ys[j - 1];
      } else {
        assert zs[i] == ys[i - 1] && zs[j] == ys[j - 1];
      }
    }
  }

  /** A new head no greater than the old head of a sorted list keeps it sorted. */
  lemma InsertFront(x: string, xs: seq<string>)
    requires xs != [] && Sorted(xs) && StrLe(x, xs[0])
    ensures Sorted([x] + xs)
  {
    forall j | 0 <= j < |xs| ensures StrLe(x, xs[j]) {
      if j > 0 { StrLeTrans(x, xs[0], xs[j]); }
    }
    ConsSorted(x, xs);
  }

  /** The old head of a sorted list stays in front of the tail with a
      greater element inserted into it. */
  lemma InsertBehind(y: string, ys: seq<string>, x: string, rest: seq<string>)
    requires Sorted([y] + ys) && !StrLe(x, y)
    requires Sorted(rest) && multiset(rest) == multiset(ys) + multiset{x}
    ensures Sorted([y] + rest)
  {
    StrLeTotal(x, y);
    forall j | 0 <= j < |rest| ensures StrLe(y, rest[j]) {
      assert rest[j] in multiset(rest);
      if rest[j] != x {
        assert rest[j] in multiset(ys);
        var k :| 0 <= k < |ys| && ys[k] == rest[j];
        assert ([y] + ys)[0] == y && ([y] + ys)[k + 1] == ys[k];
      }
    }
    ConsSorted(y, rest);
  }

  function Insert(x: string, xs: seq<string>): (r: seq<string>)
    ensures multiset(r) == multiset(xs) + multiset{x}
    ensures Sorted(xs) ==> Sorted(r)
    decreases |xs|
  {
    if xs == [] then [x]
    else if StrLe(x, xs[0]) then
      assert Sorted(xs) ==> Sorted([x] + xs) by {
        if Sorted(xs) { InsertFront(x, xs); }
      }
      [x] + xs
    else
      var rest := Insert(x, xs[1..]);
      assert xs == [xs[0]] + xs[1..];
      assert Sorted(xs) ==> Sorted([xs[0]] + rest) by {
        if Sorted(xs) { InsertBehind(xs[0], xs[1..], x, rest); }
      }
      [xs[0]] + rest
  }

  /** `xs.slice().sort()` on strings: a sorted permutation of `xs`. */
  function Sort(xs: seq<string>): (r: seq<string>)
    ensures Sorted(r)
    ensures multiset(r) == multiset(xs)
    ensures |r| == |xs|
    decreases |xs|
  {
    if xs == [] then []
    else
      assert xs == [xs[0]] + xs[1..];
      Insert(xs[0], Sort(xs[1..]))
  }

  // ---------------------------------------------------------- de-duplication

  predicate NoDup<T(==)>(xs: seq<T>)
  {
    forall i, j :: 0 <= i < j < |xs| ==> xs[i] != xs[j]
  }

  /** `Array.from(new Set(xs))`: the distinct elements of `xs`, each at the
      position of its first occurrence. */
  function Dedup<T(==,!new)>(xs: seq<T>): (r: seq<T>)
    ensures NoDup(r)
    ensures forall x :: x in r <==> x in xs
    ensures |r| <= |xs|
    decreases |xs|
  {
    if xs == [] then []
    else
      var front := Dedup(xs[..|xs| - 1]);
      var last := xs[|xs| - 1];
      assert xs == xs[..|xs| - 1] + [last];
      if last in front then front else front + [last]
  }

  /** Without repetitions, every element occurs at most once. */
  lemma {:induction false} NoDupCount<T>(xs: seq<T>, x: T)
    requires NoDup(xs)
    ensures multiset(xs)[x] <= 1
    decreases |xs|
  {
    if xs != [] {
      assert xs == [xs[0]] + xs[1..];
      NoDupCount(xs[1..], x);
      if xs[0] == x {
        assert x !in multiset(xs[1..]);
      }
    }
  }

  /** An element found at two positions occurs at least twice. */
  lemma RepeatCount<T>(xs: seq<T>, i: nat, j: nat)
    requires i < j < |xs| && xs[i] == xs[j]
    ensures multiset(xs)[xs[i]] >= 2
  {
    assert xs == xs[..j] + [xs[j]] + xs[j + 1..];
    assert xs[..j][i] == xs[i];
  }

  /** Sorting a list without repetitions gives one without repetitions. */
  lemma SortNoDup(xs: seq<string>)
    requires NoDup(xs)
    ensures NoDup(Sort(xs))
  {
    var r := Sort(xs);
    forall i, j | 0 <= i < j < |r| ensures r[i] != r[j] {
      if r[i] == r[j] {
        RepeatCount(r, i, j);
        NoDupCount(xs, r[i]);
      }
    }
  }

  /** A sorted list without repetitions is ordered strictly. */
  lemma SortedNoDupStrict(xs: seq<string>, i: nat, j: nat)
    requires Sorted(xs) && NoDup(xs) && i < j < |xs|
    ensures StrLe(xs[i], xs[j]) && !StrLe(xs[j], xs[i])
  {
    if StrLe(xs[j], xs[i]) {
      StrLeAntisym(xs[i], xs[j]);
    }
  }

  // ----------------------------------------------------------------- numbers

  function DigitChar(d: nat): (c: char)
    requires d < 10
    ensures '0' <= c <= '9'
  {
    ('0' as int + d) as char
  }

  /** `String(n)` for a non-negative integer: its decimal digits. */
  function NatToString(n: nat): (s: string)
    ensures |s| > 0
    ensures forall i :: 0 <= i < |s| ==> '0' <= s[i] <= '9'
    ensures n < 10 <==> |s| == 1
    ensures |s| == 1 ==> s[0] == DigitChar(n % 10)
    decreases n
  {
    if n < 10 then [DigitChar(n)] else NatToString(n / 10) + [DigitChar(n % 10)]
  }

  /** The value of a string of decimal digits. */
  function DigitsValue(s: string): nat
    requires forall i :: 0 <= i < |s| ==> '0' <= s[i] <= '9'
    decreases |s|
  {
    if s == [] then 0 else DigitsValue(s[..|s| - 1]) * 10 + (s[|s| - 1] as int - '0' as int)
  }

  /** The decimal rendering reads back as the number it renders. */
  lemma {:induction false} NatToStringValue(n: nat)
    ensures DigitsValue(NatToString(n)) == n
    decreases n
  {
    if n >= 10 {
      NatToStringValue(n / 10);
      var s := NatToString(n);
      assert s[..|s| - 1] == NatToString(n / 10);
    }
  }

  /** `String(n)` for any integer. */
  function IntToString(n: int): (s: string)
    ensures |s| > 0
    ensures n < 0 <==> s[0] == '-'
  {
    if n < 0 then "-" + NatToString(-n) else NatToString(n)
  }
}
