/** The JavaScript string built-ins the core calls: `trim`, the `\s` / `\S`
    character classes of regular expressions, `indexOf`, `replace` with a
    string pattern, `split(...).pop()` and `Array.prototype.join`.
    Characters are Unicode scalar values (JavaScript's UTF-16 code units
    are not modelled). */
module Text {
  import opened Wrappers

  /** ECMAScript WhiteSpace and LineTerminator code points: the set that
      `String.prototype.trim` removes and that `\s` matches. */
  predicate IsJsWhitespace(c: char)
  {
    || c == '\t' || c == '\n' || c == '\U{000B}' || c == '\U{000C}' || c == '\r'
    || c == ' ' || c == '\U{00A0}' || c == '\U{1680}'
    || ('\U{2000}' <= c <= '\U{200A}')
    || c == '\U{2028}' || c == '\U{2029}' || c == '\U{202F}' || c == '\U{205F}'
    || c == '\U{3000}' || c == '\U{FEFF}'
  }

  /** Every character of `s` is whitespace (the empty string included). */
  predicate AllWhitespace(s: string)
  {
    forall i :: 0 <= i < |s| ==> IsJsWhitespace(s[i])
  }

  /** No character of `s` is whitespace: `s` is a run of `\S`. */
  predicate NoWhitespace(s: string)
  {
    forall i :: 0 <= i < |s| ==> !IsJsWhitespace(s[i])
  }

  function TrimStart(s: string): (r: string)
    ensures |r| <= |s| && r == s[|s| - |r|..]
    ensures r == [] || !IsJsWhitespace(r[0])
    ensures AllWhitespace(s[..|s| - |r|])
  {
    if |s| > 0 && IsJsWhitespace(s[0]) then
      var r := TrimStart(s[1..]);
      WhitespaceStep(s, r);
      r
    else s
  }

  /** Trimming a whitespace `s[0]` and then `s[1..]` trims `s`. */
  lemma WhitespaceStep(s: string, r: string)
    requires |s| > 0 && IsJsWhitespace(s[0])
    requires |r| <= |s| - 1 && r == s[1..][|s| - 1 - |r|..]
    requires AllWhitespace(s[1..][..|s| - 1 - |r|])
    ensures r == s[|s| - |r|..]
    ensures AllWhitespace(s[..|s| - |r|])
  {
    var k := |s| - |r|;
    forall i | 0 <= i < k ensures IsJsWhitespace(s[..k][i]) {
      if i > 0 {
        assert s[..k][i] == s[1..][..k - 1][i - 1];
      }
    }
  }

  function TrimEnd(s: string): (r: string)
    ensures |r| <= |s| && r == s[..|r|]
    ensures r == [] || !IsJsWhitespace(r[|r| - 1])
    ensures AllWhitespace(s[|r|..])
  {
    if |s| > 0 && IsJsWhitespace(s[|s| - 1]) then
      var r := TrimEnd(s[..|s| - 1]);
      assert s[..|s| - 1][..|r|] == s[..|r|];
      assert s[|r|..] == s[..|s| - 1][|r|..] + [s[|s| - 1]];
      r
    else s
  }

  /** `String.prototype.trim`: the longest infix of `s` that neither starts
      nor ends with whitespace, everything around it being whitespace. */
  function Trim(s: string): (r: string)
    ensures exists i, j :: 0 <= i <= j <= |s| && r == s[i..j] && AllWhitespace(s[..i]) && AllWhitespace(s[j..])
    ensures r == [] || (!IsJsWhitespace(r[0]) && !IsJsWhitespace(r[|r| - 1]))
  {
    var a := TrimStart(s);
    var r := TrimEnd(a);
    TrimParts(s, a, r);
    r
  }

  /** Whitespace trimmed from the front and then from the back leaves a
      slice of `s` with whitespace only around it. */
  lemma TrimParts(s: string, a: string, r: string)
    requires |a| <= |s| && a == s[|s| - |a|..]
    requires a == [] || !IsJsWhitespace(a[0])
    requires AllWhitespace(s[..|s| - |a|])
    requires |r| <= |a| && r == a[..|r|]
    requires r == [] || !IsJsWhitespace(r[|r| - 1])
    requires AllWhitespace(a[|r|..])
    ensures exists i, j :: 0 <= i <= j <= |s| && r == s[i..j] && AllWhitespace(s[..i]) && AllWhitespace(s[j..])
    ensures r == [] || (!IsJsWhitespace(r[0]) && !IsJsWhitespace(r[|r| - 1]))
  {
    var i := |s| - |a|;
    assert r == s[i..i + |r|];
    assert s[i + |r|..] == a[|r|..];
    if r != [] {
      assert r[0] == a[0];
    }
  }

  /** Trimming removes exactly the whitespace around a text that neither
      starts nor ends with whitespace. */
  lemma TrimAround(a: string, t: string, b: string)
    requires AllWhitespace(a) && AllWhitespace(b)
    requires |t| > 0 && !IsJsWhitespace(t[0]) && !IsJsWhitespace(t[|t| - 1])
    ensures Trim(a + t + b) == t
  {
    TrimStartAround(a, t + b);
    assert a + t + b == a + (t + b);
    TrimEndAround(t, b);
  }

  lemma {:induction false} TrimStartAround(a: string, u: string)
    requires AllWhitespace(a) && |u| > 0 && !IsJsWhitespace(u[0])
    ensures TrimStart(a + u) == u
  {
    if |a| > 0 {
      assert (a + u)[1..] == a[1..] + u;
      TrimStartAround(a[1..], u);
    } else {
      assert a + u == u;
    }
  }

  lemma {:induction false} TrimEndAround(t: string, b: string)
    requires AllWhitespace(b) && |t| > 0 && !IsJsWhitespace(t[|t| - 1])
    ensures TrimEnd(t + b) == t
  {
    if |b| > 0 {
      var u := t + b;
      assert u[..|u| - 1] == t + b[..|b| - 1];
      TrimEndAround(t, b[..|b| - 1]);
    } else {
      assert t + b == t;
    }
  }

  /** `!s.trim()` in the source: trimming leaves nothing exactly when every
      character is whitespace. */
  lemma TrimEmptyIffAllWhitespace(s: string)
    ensures Trim(s) == [] <==> AllWhitespace(s)
  {
    if Trim(s) == [] {
      var i, j :| 0 <= i <= j <= |s| && [] == s[i..j] && AllWhitespace(s[..i]) && AllWhitespace(s[j..]);
      assert i == j;
      forall k | 0 <= k < |s| ensures IsJsWhitespace(s[k]) {
        if k < i { assert s[k] == s[..i][k]; } else { assert s[k] == s[j..][k - j]; }
      }
    }
  }

  /** `pat` occurs in `s` at position `k`. */
  predicate OccursAt(s: string, pat: string, k: nat)
  {
    k + |pat| <= |s| && s[k..k + |pat|] == pat
  }

  /** `pat` occurs somewhere in `s`. */
  predicate Contains(s: string, pat: string)
  {
    exists k: nat | k <= |s| :: OccursAt(s, pat, k)
  }

  /** The first position at or after `from` where `pat` occurs in `s`. */
  function IndexOfFrom(s: string, pat: string, from: nat): (r: Option<nat>)
    ensures r.Some? ==> from <= r.value && OccursAt(s, pat, r.value)
    ensures r.Some? ==> forall k: nat :: from <= k < r.value ==> !OccursAt(s, pat, k)
    ensures r.None? ==> forall k: nat :: from <= k ==> !OccursAt(s, pat, k)
    decreases |s| - from
  {
    if from + |pat| > |s| then None
    else if OccursAt(s, pat, from) then Some(from)
    else IndexOfFrom(s, pat, from + 1)
  }

  /** `String.prototype.indexOf`. */
  function IndexOf(s: string, pat: string): (r: Option<nat>)
  {
    IndexOfFrom(s, pat, 0)
  }

  /** `indexOf` finds the first occurrence, and finds none only when there is none. */
  lemma IndexOfIsFirst(s: string, pat: string)
    ensures IndexOf(s, pat).Some? ==> OccursAt(s, pat, IndexOf(s, pat).value)
    ensures IndexOf(s, pat).Some? ==> forall k: nat :: k < IndexOf(s, pat).value ==> !OccursAt(s, pat, k)
    ensures IndexOf(s, pat).None? <==> !Contains(s, pat)
  {
  }

  /** The replacement text that `replace` inserts for a match of a string
      pattern: `$$` stands for `$`, `$&` for the match, `` $` `` for the text
      before it, `$'` for the text after it; every other character,
      including any other `$`, is copied. */
  function Substitution(rep: string, matched: string, before: string, after: string): (r: string)
  {
    if |rep| == 0 then ""
    else if rep[0] == '$' && |rep| >= 2 && rep[1] == '$' then "$" + Substitution(rep[2..], matched, before, after)
    else if rep[0] == '$' && |rep| >= 2 && rep[1] == '&' then matched + Substitution(rep[2..], matched, before, after)
    else if rep[0] == '$' && |rep| >= 2 && rep[1] == '`' then before + Substitution(rep[2..], matched, before, after)
    else if rep[0] == '$' && |rep| >= 2 && rep[1] == '\'' then after + Substitution(rep[2..], matched, before, after)
    else [rep[0]] + Substitution(rep[1..], matched, before, after)
  }

  /** A replacement without `$` is inserted verbatim. */
  lemma {:induction false} SubstitutionVerbatim(rep: string, matched: string, before: string, after: string)
    requires forall i :: 0 <= i < |rep| ==> rep[i] != '$'
    ensures Substitution(rep, matched, before, after) == rep
  {
    if |rep| > 0 {
      assert rep == [rep[0]] + rep[1..];
      SubstitutionPlain(rep[0], rep[1..], matched, before, after);
      SubstitutionVerbatim(rep[1..], matched, before, after);
    }
  }

  /** A `$&` in the replacement between `$`-free texts stands for the
      matched text. */
  lemma SubstitutionOfMatch(pre: string, post: string, matched: string, before: string, after: string)
    requires forall i :: 0 <= i < |pre| ==> pre[i] != '$'
    requires forall i :: 0 <= i < |post| ==> post[i] != '$'
    ensures Substitution(pre + "$&" + post, matched, before, after) == pre + matched + post
  {
    assert pre + "$&" + post == pre + ("$&" + post);
    SubstitutionPrefix(pre, "$&" + post, matched, before, after);
    SubstitutionAmp(post, matched, before, after);
    SubstitutionVerbatim(post, matched, before, after);
  }

  /** Text without `$` at the front of a replacement is copied. */
  lemma {:induction false} SubstitutionPrefix(pre: string, rest: string, matched: string, before: string, after: string)
    requires forall i :: 0 <= i < |pre| ==> pre[i] != '$'
    ensures Substitution(pre + rest, matched, before, after) == pre + Substitution(rest, matched, before, after)
  {
    if |pre| == 0 {
      assert pre + rest == rest;
    } else {
      assert pre + rest == [pre[0]] + (pre[1..] + rest);
      SubstitutionPlain(pre[0], pre[1..] + rest, matched, before, after);
      SubstitutionPrefix(pre[1..], rest, matched, before, after);
      assert [pre[0]] + pre[1..] == pre;
    }
  }

  lemma SubstitutionPlain(c: char, rest: string, matched: string, before: string, after: string)
    requires c != '$'
    ensures Substitution([c] + rest, matched, before, after) == [c] + Substitution(rest, matched, before, after)
  {
    assert ([c] + rest)[1..] == rest;
  }

  lemma SubstitutionAmp(rest: string, matched: string, before: string, after: string)
    ensures Substitution("$&" + rest, matched, before, after) == matched + Substitution(rest, matched, before, after)
  {
    assert ("$&" + rest)[2..] == rest;
  }

  /** `s.replace(pat, rep)` with a string pattern: only the first occurrence
      is replaced; without an occurrence `s` is returned unchanged. */
  function ReplaceFirst(s: string, pat: string, rep: string): (r: string)
    ensures IndexOf(s, pat).None? ==> r == s
    ensures IndexOf(s, pat).Some? ==>
      var i := IndexOf(s, pat).value;
      i + |pat| <= |s| && |r| >= |s| - |pat| &&
      r[..i] == s[..i] && r[|r| - (|s| - i - |pat|)..] == s[i + |pat|..]
  {
    match IndexOf(s, pat)
    case None => s
    case Some(i) => s[..i] + Substitution(rep, pat, s[..i], s[i + |pat|..]) + s[i + |pat|..]
  }

  /** Where the last piece of `s.split(sep)` starts, the scan having
      reached `from`: split looks for the next occurrence from the left,
      steps over it, and goes on; the last piece starts where no
      occurrence is left. */
  function LastPieceStart(s: string, sep: string, from: nat): (r: nat)
    requires |sep| > 0 && from <= |s|
    ensures from <= r <= |s|
    ensures r == from || (r >= from + |sep| && OccursAt(s, sep, r - |sep|))
    ensures IndexOfFrom(s, sep, r).None?
    decreases |s| - from
  {
    match IndexOfFrom(s, sep, from)
    case None => from
    case Some(i) => LastPieceStart(s, sep, i + |sep|)
  }

  /** `s.split(sep).pop()` for a non-empty separator. */
  function LastSplitPiece(s: string, sep: string): string
    requires |sep| > 0
  {
    s[LastPieceStart(s, sep, 0)..]
  }

  /** The last piece holds no separator; it is all of `s` when `s` holds
      none, and otherwise it is directly preceded by one. */
  lemma LastSplitPieceShape(s: string, sep: string)
    requires |sep| > 0
    ensures var r := LastSplitPiece(s, sep);
      && |r| <= |s| && r == s[|s| - |r|..]
      && !Contains(r, sep)
      && (!Contains(s, sep) ==> r == s)
      && (Contains(s, sep) ==> |r| + |sep| <= |s| && OccursAt(s, sep, |s| - |r| - |sep|))
  {
    var start := LastPieceStart(s, sep, 0);
    var r := s[start..];
    IndexOfIsFirst(s, sep);
    forall k: nat ensures !OccursAt(r, sep, k) {
      OccursAtSuffix(s, sep, start, k);
    }
    if start == 0 {
      assert IndexOf(s, sep).None?;
    }
  }

  lemma OccursAtSuffix(s: string, pat: string, d: nat, k: nat)
    requires d <= |s|
    ensures OccursAt(s[d..], pat, k) == OccursAt(s, pat, d + k)
  {
    if d + k + |pat| <= |s| {
      assert s[d..][k..k + |pat|] == s[d + k..d + k + |pat|];
    }
  }

  /** `xs.join(sep)`. */
  function Join(xs: seq<string>, sep: string): string
  {
    if |xs| == 0 then ""
    else if |xs| == 1 then xs[0]
    else xs[0] + sep + Join(xs[1..], sep)
  }

  /** Where the `i`-th item starts in `Join(xs, sep)`. */
  function JoinOffset(xs: seq<string>, sep: string, i: nat): nat
    requires i <= |xs|
  {
    if i == 0 then 0 else JoinOffset(xs, sep, i - 1) + |xs[i - 1]| + |sep|
  }

  lemma {:induction false} JoinOffsetShift(xs: seq<string>, sep: string, i: nat)
    requires 1 <= i <= |xs|
    ensures JoinOffset(xs, sep, i) == |xs[0]| + |sep| + JoinOffset(xs[1..], sep, i - 1)
  {
    if i > 1 {
      JoinOffsetShift(xs, sep, i - 1);
    }
  }

  /** Every item appears in the joined text at its offset, each followed
      by the separator except the last: the items keep their list order. */
  lemma {:induction false} JoinKeepsItemsInOrder(xs: seq<string>, sep: string, i: nat)
    requires i < |xs|
    ensures ItemAt(Join(xs, sep), xs[i], sep, JoinOffset(xs, sep, i), i + 1 == |xs|)
  {
    if i == 0 {
      JoinFirstItem(xs, sep);
    } else {
      var tail := Join(xs[1..], sep);
      assert Join(xs, sep) == (xs[0] + sep) + tail;
      JoinKeepsItemsInOrder(xs[1..], sep, i - 1);
      JoinOffsetShift(xs, sep, i);
      assert xs[1..][i - 1] == xs[i];
      ItemAtShift(xs[0] + sep, tail, xs[i], sep, JoinOffset(xs[1..], sep, i - 1), i + 1 == |xs|);
    }
  }

  lemma JoinFirstItem(xs: seq<string>, sep: string)
    requires |xs| > 0
    ensures ItemAt(Join(xs, sep), xs[0], sep, 0, |xs| == 1)
  {
    if |xs| > 1 {
      PrefixSlices(xs[0], sep, Join(xs[1..], sep));
    } else {
      assert xs[0][0..|xs[0]|] == xs[0];
    }
  }

  /** `item` sits in `j` at offset `o`, followed by `sep` unless it is the
      last item, in which case it ends `j`. */
  predicate ItemAt(j: string, item: string, sep: string, o: nat, last: bool)
  {
    && o + |item| <= |j| && j[o..o + |item|] == item
    && (!last ==> o + |item| + |sep| <= |j| && j[o + |item|..o + |item| + |sep|] == sep)
    && (last ==> o + |item| == |j|)
  }

  lemma ItemAtShift(head: string, tail: string, item: string, sep: string, o: nat, last: bool)
    requires ItemAt(tail, item, sep, o, last)
    ensures ItemAt(head + tail, item, sep, |head| + o, last)
  {
    var j := head + tail;
    assert j[|head| + o..|head| + o + |item|] == tail[o..o + |item|];
    if !last {
      assert j[|head| + o + |item|..|head| + o + |item| + |sep|] == tail[o + |item|..o + |item| + |sep|];
    }
  }

  lemma PrefixSlices(a: string, b: string, t: string)
    ensures (a + b + t)[..|a|] == a && (a + b + t)[|a|..|a| + |b|] == b
  {
  }

  /** A template `a + pat + b` whose prefix `a` never holds the
      placeholder's first character: `replace` finds the placeholder right
      after `a` and puts the substituted replacement in its place. */
  lemma PlaceholderReplaced(a: string, pat: string, b: string, rep: string)
    requires |pat| > 0
    requires forall k :: 0 <= k < |a| ==> a[k] != pat[0]
    ensures IndexOf(a + pat + b, pat) == Some(|a|)
    ensures ReplaceFirst(a + pat + b, pat, rep) == a + Substitution(rep, pat, a, b) + b
  {
    var s := a + pat + b;
    PrefixSlices(a, pat, b);
    assert OccursAt(s, pat, |a|);
    assert s[..|a|] == a;
    assert s[|a| + |pat|..] == b;
  }

  /** When the first separator of `a + sep + d` is the one after `a` and
      `d` holds none, the last piece of the split is `d`. */
  lemma LastSplitPieceAfter(a: string, sep: string, d: string)
    requires |sep| > 0
    requires IndexOf(a + sep + d, sep) == Some(|a|)
    requires !Contains(d, sep)
    ensures LastSplitPiece(a + sep + d, sep) == d
  {
    var s := a + sep + d;
    var start := |a| + |sep|;
    assert s[start..] == d;
    forall k: nat | start <= k ensures !OccursAt(s, sep, k) {
      if k <= |s| {
        OccursAtSuffix(s, sep, start, k - start);
      }
    }
    assert IndexOfFrom(s, sep, start).None?;
    assert LastPieceStart(s, sep, 0) == LastPieceStart(s, sep, start) == start;
  }

  /** An occurrence that ends inside a prefix is an occurrence in it. */
  lemma OccursInPrefix(s: string, pat: string, p: nat, k: nat)
    requires p <= |s| && k + |pat| <= p
    ensures OccursAt(s, pat, k) == OccursAt(s[..p], pat, k)
  {
    assert s[..p][k..k + |pat|] == s[k..k + |pat|];
  }
}
