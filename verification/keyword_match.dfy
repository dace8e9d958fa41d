/**
 * The regular expressions of the pattern tables all have the shape
 * `/k1.*k2/i` or `/k1.*k2.*k3/i` with lower-case ASCII keywords, and
 * `RegExp.prototype.test` looks for a match anywhere in the text. This
 * module states what such a pattern matches (`Matches`) and gives a
 * left-to-right scan (`Scan`) proved to decide it.
 *
 * Two facts of the ECMAScript regular-expression semantics are modelled:
 *  - under `/i` without `/u`, a character is compared after upper-casing,
 *    and a non-ASCII character is never folded onto an ASCII one, so
 *    matching an ASCII keyword is exactly ASCII case folding;
 *  - `.` matches every character except the line terminators LF, CR,
 *    U+2028 and U+2029, so a whole match lies within one line.
 */
module KeywordMatch {
  import opened JsonText

  /** ASCII lower-casing; every other character is left alone. */
  function Lower(c: char): (r: char)
    ensures 'a' <= r <= 'z' ==> r == c || ('A' <= c <= 'Z' && r as int == c as int + 32)
  {
    if 'A' <= c <= 'Z' then (c as int + 32) as char else c
  }

  predicate IsLineTerminator(c: char)
  {
    c == '\n' || c == '\r' || c == '\U{2028}' || c == '\U{2029}'
  }

  /** A pattern keyword: a non-empty run of lower-case ASCII letters. */
  predicate Keyword(k: string)
  {
    |k| > 0 && forall t :: 0 <= t < |k| ==> 'a' <= k[t] <= 'z'
  }

  predicate Keywords(ks: seq<string>)
  {
    forall j :: 0 <= j < |ks| ==> Keyword(ks[j])
  }

  /** `w` occurs in `s` at index `i`, ignoring ASCII case. */
  predicate OccursAt(s: string, w: string, i: int)
  {
    0 <= i && i + |w| <= |s| && forall t :: 0 <= t < |w| ==> Lower(s[i + t]) == w[t]
  }

  /** No line terminator in `s[a..b]`: the stretch a `.*` can cover. */
  ghost predicate Unbroken(s: string, a: int, b: int)
  {
    0 <= a <= b <= |s| && forall m :: a <= m < b ==> !IsLineTerminator(s[m])
  }

  /** `ks[0] .* ks[1] .* ...` matches a stretch of `s` that starts at `q`. */
  ghost predicate MatchesAt(s: string, ks: seq<string>, q: int)
    decreases |ks|, 0
  {
    0 <= q <= |s| && (ks == [] || (OccursAt(s, ks[0], q) && Tail(s, ks[1..], q + |ks[0]|)))
  }

  /** `.* ks[0] .* ks[1] ...` matches a stretch of `s` that starts at `p`. */
  ghost predicate Tail(s: string, ks: seq<string>, p: int)
    decreases |ks|, 1
  {
    exists q :: Unbroken(s, p, q) && MatchesAt(s, ks, q)
  }

  /** Some match of the whole pattern starts at or after `p`. */
  ghost predicate Anywhere(s: string, ks: seq<string>, p: int)
  {
    exists q :: p <= q && MatchesAt(s, ks, q)
  }

  /** `/ks[0].*ks[1].*.../i.test(s)`. */
  ghost predicate Matches(s: string, ks: seq<string>)
  {
    Anywhere(s, ks, 0)
  }

  lemma OccursUnbroken(s: string, k: string, i: int)
    requires Keyword(k) && OccursAt(s, k, i)
    ensures Unbroken(s, i, i + |k|)
  {
    forall m | i <= m < i + |k|
      ensures !IsLineTerminator(s[m])
    {
      assert Lower(s[m]) == k[m - i];
    }
  }

  lemma TailWiden(s: string, ks: seq<string>, a: int, b: int)
    requires Tail(s, ks, b) && Unbroken(s, a, b)
    ensures Tail(s, ks, a)
  {
    var q :| Unbroken(s, b, q) && MatchesAt(s, ks, q);
    assert Unbroken(s, a, q);
  }

  /** Inside a match of the whole pattern, the part from keyword `st` on is
      itself a match starting on the same line. */
  lemma {:induction false} DropPrefix(s: string, ks: seq<string>, q: int, st: nat)
    requires Keywords(ks) && MatchesAt(s, ks, q) && st < |ks|
    ensures Tail(s, ks[st..], q)
    decreases st
  {
    if st == 0 {
      assert Unbroken(s, q, q);
      assert ks[0..] == ks;
    } else {
      assert Tail(s, ks[1..], q + |ks[0]|);
      var q1 :| Unbroken(s, q + |ks[0]|, q1) && MatchesAt(s, ks[1..], q1);
      assert Keyword(ks[0]);
      assert Keywords(ks[1..]) by {
        forall j | 0 <= j < |ks[1..]| ensures Keyword(ks[1..][j]) { assert ks[1..][j] == ks[j + 1]; }
      }
      DropPrefix(s, ks[1..], q1, st - 1);
      assert ks[1..][st - 1..] == ks[st..];
      TailWiden(s, ks[st..], q + |ks[0]|, q1);
      OccursUnbroken(s, ks[0], q);
      TailWiden(s, ks[st..], q, q + |ks[0]|);
    }
  }

  /** The scan finds keyword `st` at `p` and moves past it. */
  lemma OccursStep(s: string, ks: seq<string>, p: int, st: nat)
    requires Keywords(ks) && st < |ks| && OccursAt(s, ks[st], p)
    ensures Tail(s, ks[st + 1..], p + |ks[st]|) || Anywhere(s, ks, p + |ks[st]|)
        <==> Tail(s, ks[st..], p) || Anywhere(s, ks, p)
  {
    var k := ks[st];
    var p' := p + |k|;
    assert ks[st..][0] == k && ks[st..][1..] == ks[st + 1..];
    assert Keyword(k);
    OccursUnbroken(s, k, p);
    if Tail(s, ks[st + 1..], p') {
      assert MatchesAt(s, ks[st..], p);
      assert Unbroken(s, p, p);
    }
    if Anywhere(s, ks, p) && !Anywhere(s, ks, p') {
      var q :| p <= q && MatchesAt(s, ks, q);
      DropPrefix(s, ks, q, st);
      assert Unbroken(s, p, q);
      TailWiden(s, ks[st..], p, q);
    }
    if Tail(s, ks[st..], p) {
      var q :| Unbroken(s, p, q) && MatchesAt(s, ks[st..], q);
      assert OccursAt(s, k, q);
      OccursUnbroken(s, k, q);
      assert Unbroken(s, p', q + |k|);
      TailWiden(s, ks[st + 1..], p', q + |k|);
    }
  }

  /** The scan meets a line terminator where keyword `st` does not occur:
      nothing begun so far can be completed, so it starts over. */
  lemma TerminatorStep(s: string, ks: seq<string>, p: int, st: nat)
    requires Keywords(ks) && st < |ks| && 0 <= p < |s|
    requires !OccursAt(s, ks[st], p) && IsLineTerminator(s[p])
    ensures Tail(s, ks, p + 1) || Anywhere(s, ks, p + 1)
        <==> Tail(s, ks[st..], p) || Anywhere(s, ks, p)
  {
    TailIsAnywhere(s, ks, p + 1);
    assert ks[st..][0] == ks[st];
    if Tail(s, ks[st..], p) {
      var q :| Unbroken(s, p, q) && MatchesAt(s, ks[st..], q);
    }
    if Anywhere(s, ks, p) {
      var q :| p <= q && MatchesAt(s, ks, q);
      if q == p {
        assert Keyword(ks[0]);
        OccursUnbroken(s, ks[0], p);
        assert false;
      }
      assert p + 1 <= q;
    }
  }

  /** The scan passes over an ordinary character. */
  lemma SkipStep(s: string, ks: seq<string>, p: int, st: nat)
    requires Keywords(ks) && st < |ks| && 0 <= p < |s|
    requires !OccursAt(s, ks[st], p) && !IsLineTerminator(s[p])
    ensures Tail(s, ks[st..], p + 1) || Anywhere(s, ks, p + 1)
        <==> Tail(s, ks[st..], p) || Anywhere(s, ks, p)
  {
    assert ks[st..][0] == ks[st];
    if Tail(s, ks[st..], p + 1) {
      assert Unbroken(s, p, p + 1);
      TailWiden(s, ks[st..], p, p + 1);
    }
    if Anywhere(s, ks, p) {
      var q :| p <= q && MatchesAt(s, ks, q);
      if q == p {
        DropPrefix(s, ks, q, st);
      } else {
        assert p + 1 <= q;
      }
    }
    if Tail(s, ks[st..], p) {
      var q :| Unbroken(s, p, q) && MatchesAt(s, ks[st..], q);
      assert q != p;
      assert Unbroken(s, p + 1, q);
    }
  }

  /** The scan behind `test`: `st` keywords of the current line are already
      found and the search goes on at `p`. Each keyword is taken at its
      earliest occurrence, which leaves the most room for the next one, and a
      line terminator starts the search over. The result is whether the rest
      of the pattern completes on this line or the whole pattern matches
      further on. */
  function Scan(s: string, ks: seq<string>, p: nat, st: nat): (r: bool)
    requires Keywords(ks) && p <= |s| && st <= |ks|
    ensures r <==> Tail(s, ks[st..], p) || Anywhere(s, ks, p)
    decreases |s| - p, |ks| - st
  {
    if st == |ks| then
      assert Unbroken(s, p, p) && MatchesAt(s, ks[st..], p);
      true
    else if p == |s| then
      assert ks[st..][0] == ks[st] && Keyword(ks[st]);
      assert Keyword(ks[0]);
      false
    else if OccursAt(s, ks[st], p) then
      assert Keyword(ks[st]);
      OccursStep(s, ks, p, st);
      Scan(s, ks, p + |ks[st]|, st + 1)
    else if IsLineTerminator(s[p]) then
      TerminatorStep(s, ks, p, st);
      Scan(s, ks, p + 1, 0)
    else
      SkipStep(s, ks, p, st);
      Scan(s, ks, p + 1, st)
  }

  lemma TailIsAnywhere(s: string, ks: seq<string>, p: int)
    ensures Tail(s, ks, p) ==> Anywhere(s, ks, p)
  {
    if Tail(s, ks, p) {
      var q :| Unbroken(s, p, q) && MatchesAt(s, ks, q);
    }
  }

  /** `RegExp.prototype.test` for a keyword pattern. */
  function Test(s: string, ks: seq<string>): (r: bool)
    requires Keywords(ks)
    ensures r <==> Matches(s, ks)
  {
    TailIsAnywhere(s, ks, 0);
    Scan(s, ks, 0, 0)
  }

  lemma {:induction false} ShiftMatchesAt(pre: string, s: string, post: string, ks: seq<string>, q: int)
    requires MatchesAt(s, ks, q)
    ensures MatchesAt(pre + s + post, ks, q + |pre|)
    decreases |ks|
  {
    var t := pre + s + post;
    if ks != [] {
      forall i | 0 <= i < |ks[0]| ensures Lower(t[q + |pre| + i]) == ks[0][i] {
        assert t[q + |pre| + i] == s[q + i];
      }
      assert Tail(s, ks[1..], q + |ks[0]|);
      var q1 :| Unbroken(s, q + |ks[0]|, q1) && MatchesAt(s, ks[1..], q1);
      ShiftMatchesAt(pre, s, post, ks[1..], q1);
      forall m | q + |ks[0]| + |pre| <= m < q1 + |pre| ensures !IsLineTerminator(t[m]) {
        assert t[m] == s[m - |pre|];
      }
      assert Unbroken(t, q + |ks[0]| + |pre|, q1 + |pre|);
    }
  }

  /** A pattern that matches a text matches every text containing it. */
  lemma MatchesInfix(a: string, b: string, ks: seq<string>)
    requires Matches(a, ks) && Infix(a, b)
    ensures Matches(b, ks)
  {
    var i :| InfixAt(a, b, i);
    var q :| 0 <= q && MatchesAt(a, ks, q);
    assert b == b[..i] + a + b[i + |a|..];
    ShiftMatchesAt(b[..i], a, b[i + |a|..], ks, q);
  }

  /** `/^(get|post|put|delete):/i.test(s)`. */
  predicate StartsWithMethod(s: string)
  {
    OccursAt(s, "get:", 0) || OccursAt(s, "post:", 0) || OccursAt(s, "put:", 0) || OccursAt(s, "delete:", 0)
  }
}
