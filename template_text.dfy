/**
 * `text.replace(/<token>/g, value)` as JavaScript evaluates it: the text is scanned left to
 * right, each non-overlapping occurrence of the token is replaced, and the replacement string
 * is expanded by GetSubstitution (`$$`, `$&`, `` $` `` and `$'` are patterns; a regex without
 * capture groups leaves every other `$` literal).
 */
module TemplateText {

  /** `pat` occurs in `s` at position `i`. */
  predicate OccursAt(s: string, pat: string, i: nat)
  {
    i + |pat| <= |s| && s[i..i + |pat|] == pat
  }

  ghost predicate NoOccurrence(s: string, pat: string)
  {
    forall i: nat :: !OccursAt(s, pat, i)
  }

  /** GetSubstitution for a match `matched`, with `before` and `after` the text around it. */
  function Expand(repl: string, matched: string, before: string, after: string): (r: string)
    ensures '$' !in repl ==> r == repl
    decreases |repl|
  {
    if |repl| == 0 then ""
    else if repl[0] == '$' && |repl| >= 2 && repl[1] in "$&`'" then
      var piece := if repl[1] == '$' then "$"
                   else if repl[1] == '&' then matched
                   else if repl[1] == '`' then before
                   else after;
      piece + Expand(repl[2..], matched, before, after)
    else
      assert repl == [repl[0]] + repl[1..];
      [repl[0]] + Expand(repl[1..], matched, before, after)
  }

  /** What one match is replaced by: expanded (JavaScript) or taken literally. */
  function Substitute(repl: string, expand: bool, matched: string, before: string, after: string): string
  {
    if expand then Expand(repl, matched, before, after) else repl
  }

  lemma NoOccurrenceTail(s: string, pat: string)
    requires |s| > 0
    ensures NoOccurrence(s, pat) ==> NoOccurrence(s[1..], pat)
  {
    if NoOccurrence(s, pat) {
      forall i: nat ensures !OccursAt(s[1..], pat, i) {
        assert !OccursAt(s, pat, i + 1);
        assert i + |pat| <= |s[1..]| ==> s[1..][i..i + |pat|] == s[i + 1..i + 1 + |pat|];
      }
    }
  }

  /** The global replace, having already consumed `done` and with `rest` still to scan. */
  function Scan(pat: string, repl: string, expand: bool, done: string, rest: string): string
    requires |pat| > 0
    decreases |rest|
  {
    if |rest| < |pat| then rest
    else if rest[..|pat|] == pat then
      Substitute(repl, expand, pat, done, rest[|pat|..]) + Scan(pat, repl, expand, done + pat, rest[|pat|..])
    else
      [rest[0]] + Scan(pat, repl, expand, done + [rest[0]], rest[1..])
  }

  /** Text without an occurrence of the token comes back unchanged. */
  lemma {:induction false} ScanUnchanged(pat: string, repl: string, expand: bool, done: string, rest: string)
    requires |pat| > 0 && NoOccurrence(rest, pat)
    ensures Scan(pat, repl, expand, done, rest) == rest
    decreases |rest|
  {
    if |rest| >= |pat| {
      assert !OccursAt(rest, pat, 0);
      NoOccurrenceTail(rest, pat);
      ScanUnchanged(pat, repl, expand, done + [rest[0]], rest[1..]);
      assert rest == [rest[0]] + rest[1..];
    }
  }

  /** `s.replace(new RegExp(pat, "g"), repl)` for a token with no regex metacharacters left unescaped. */
  function ReplaceAll(s: string, pat: string, repl: string): string
    requires |pat| > 0
  {
    Scan(pat, repl, true, "", s)
  }

  /** The literal substitution the preview evidently means (`replaceAll` with a replacer function). */
  function ReplaceLiteral(s: string, pat: string, repl: string): string
    requires |pat| > 0
  {
    Scan(pat, repl, false, "", s)
  }

  /** `s.split(pat)`: the pieces between the non-overlapping occurrences found left to right. */
  function Split(s: string, pat: string): (parts: seq<string>)
    requires |pat| > 0
    ensures |parts| >= 1
    ensures |parts[0]| <= |s| && parts[0] == s[..|parts[0]|]
    decreases |s|
  {
    if |s| < |pat| then [s]
    else if s[..|pat|] == pat then [""] + Split(s[|pat|..], pat)
    else
      var t := Split(s[1..], pat);
      [[s[0]] + t[0]] + t[1..]
  }

  /** `parts.join(sep)`. */
  function Join(parts: seq<string>, sep: string): string
    requires |parts| >= 1
    decreases |parts|
  {
    if |parts| == 1 then parts[0] else parts[0] + sep + Join(parts[1..], sep)
  }

  /** Joining the pieces with the token restores the text. */
  lemma {:induction false} JoinSplit(s: string, pat: string)
    requires |pat| > 0
    ensures Join(Split(s, pat), pat) == s
    decreases |s|
  {
    if |s| < |pat| {
    } else if s[..|pat|] == pat {
      var tail := s[|pat|..];
      JoinSplit(tail, pat);
      assert Split(s, pat) == [""] + Split(tail, pat);
      JoinCons("", Split(tail, pat), pat);
      assert s == "" + pat + tail;
    } else {
      JoinSplit(s[1..], pat);
      var t := Split(s[1..], pat);
      assert Split(s, pat) == [[s[0]] + t[0]] + t[1..];
      JoinPrepend([s[0]], t, pat);
      assert s == [s[0]] + s[1..];
    }
  }

  /** Joining a list with a new first part puts that part and a separator in front. */
  lemma JoinCons(head: string, parts: seq<string>, sep: string)
    requires |parts| >= 1
    ensures Join([head] + parts, sep) == head + sep + Join(parts, sep)
  {
    assert ([head] + parts)[1..] == parts;
  }

  /** Extending the first part extends the joined text by the same prefix. */
  lemma JoinPrepend(c: string, t: seq<string>, sep: string)
    requires |t| >= 1
    ensures Join([c + t[0]] + t[1..], sep) == c + Join(t, sep)
  {
    if |t| > 1 {
      JoinCons(c + t[0], t[1..], sep);
      assert Join(t, sep) == t[0] + sep + Join(t[1..], sep);
      assert (c + t[0]) + sep + Join(t[1..], sep) == c + (t[0] + sep + Join(t[1..], sep));
    }
  }


  /** No piece of the split contains the token. */
  lemma {:induction false} SplitPiecesClean(s: string, pat: string)
    requires |pat| > 0
    ensures forall k :: 0 <= k < |Split(s, pat)| ==> NoOccurrence(Split(s, pat)[k], pat)
    decreases |s|
  {
    var parts := Split(s, pat);
    if |s| < |pat| {
      forall i: nat ensures !OccursAt(s, pat, i) { }
    } else if s[..|pat|] == pat {
      SplitPiecesClean(s[|pat|..], pat);
      forall i: nat ensures !OccursAt("", pat, i) { }
      assert parts[1..] == Split(s[|pat|..], pat);
      forall k | 0 < k < |parts| ensures NoOccurrence(parts[k], pat) {
        assert parts[k] == Split(s[|pat|..], pat)[k - 1];
      }
    } else {
      SplitPiecesClean(s[1..], pat);
      var t := Split(s[1..], pat);
      var p0 := [s[0]] + t[0];
      forall i: nat ensures !OccursAt(p0, pat, i) {
        if i == 0 {
          if |pat| <= |p0| {
            assert p0[..|pat|] == s[..|pat|];
          }
        } else {
          assert !OccursAt(t[0], pat, i - 1);
          assert i + |pat| <= |p0| ==> p0[i..i + |pat|] == t[0][i - 1..i - 1 + |pat|];
        }
      }
      forall k | 0 < k < |parts| ensures NoOccurrence(parts[k], pat) {
        assert parts[k] == t[k];
      }
    }
  }

  /** With nothing to expand, the replace is exactly "split at the token, join with the value". */
  lemma {:induction false} ScanIsJoin(pat: string, repl: string, expand: bool, done: string, rest: string)
    requires |pat| > 0
    requires expand ==> '$' !in repl
    ensures Scan(pat, repl, expand, done, rest) == Join(Split(rest, pat), repl)
    decreases |rest|
  {
    if |rest| < |pat| {
    } else if rest[..|pat|] == pat {
      var tail := rest[|pat|..];
      ScanIsJoin(pat, repl, expand, done + pat, tail);
      assert Substitute(repl, expand, pat, done, tail) == repl;
      assert Scan(pat, repl, expand, done, rest) == repl + Scan(pat, repl, expand, done + pat, tail);
      assert Split(rest, pat) == [""] + Split(tail, pat);
      JoinCons("", Split(tail, pat), repl);
      assert "" + repl + Join(Split(tail, pat), repl) == repl + Join(Split(tail, pat), repl);
    } else {
      var tail := rest[1..];
      ScanIsJoin(pat, repl, expand, done + [rest[0]], tail);
      var t := Split(tail, pat);
      assert Split(rest, pat) == [[rest[0]] + t[0]] + t[1..];
      assert Scan(pat, repl, expand, done, rest) == [rest[0]] + Scan(pat, repl, expand, done + [rest[0]], tail);
      JoinPrepend([rest[0]], t, repl);
    }
  }


  /**
   * Every occurrence of the token is replaced by the value: the result is the text cut at the
   * token's occurrences (pieces that contain no token and rejoin to the text) glued with the value.
   */
  lemma ReplaceAllCutsAndGlues(s: string, pat: string, repl: string)
    requires |pat| > 0 && '$' !in repl
    ensures var parts := Split(s, pat);
      && ReplaceAll(s, pat, repl) == Join(parts, repl)
      && Join(parts, pat) == s
      && forall k :: 0 <= k < |parts| ==> NoOccurrence(parts[k], pat)
  {
    ScanIsJoin(pat, repl, true, "", s);
    JoinSplit(s, pat);
    SplitPiecesClean(s, pat);
  }

  /** The literal replace cuts and glues the same way, whatever the value contains. */
  lemma ReplaceLiteralCutsAndGlues(s: string, pat: string, repl: string)
    requires |pat| > 0
    ensures ReplaceLiteral(s, pat, repl) == Join(Split(s, pat), repl)
  {
    ScanIsJoin(pat, repl, false, "", s);
  }

  /** A token whose k-th character never appears in `s` does not occur in `s`. */
  lemma AbsentCharNoOccurrence(s: string, pat: string, k: nat)
    requires k < |pat| && pat[k] !in s
    ensures NoOccurrence(s, pat)
  {
    forall i: nat ensures !OccursAt(s, pat, i) {
      if i + |pat| <= |s| {
        assert s[i..i + |pat|][k] == s[i + k];
      }
    }
  }

  /** Text that cannot start the token is copied as it is. */
  lemma {:induction false} ScanSkipsPlain(pat: string, repl: string, expand: bool, done: string, a: string, rest: string)
    requires |pat| > 0 && pat[0] !in a
    ensures Scan(pat, repl, expand, done, a + rest) == a + Scan(pat, repl, expand, done + a, rest)
    decreases |a|
  {
    if |a| == 0 {
      assert a + rest == rest && done + a == done;
    } else {
      var s := a + rest;
      assert s[0] == a[0] && s[1..] == a[1..] + rest;
      ScanPlainStep(pat, repl, expand, done, s);
      ScanSkipsPlain(pat, repl, expand, done + [a[0]], a[1..], rest);
      var r := Scan(pat, repl, expand, done + a, rest);
      assert done + [a[0]] + a[1..] == done + a;
      assert [a[0]] + (a[1..] + r) == a + r;
    }
  }

  /** A first character that does not start the pattern is copied. */
  lemma ScanPlainStep(pat: string, repl: string, expand: bool, done: string, s: string)
    requires |pat| > 0 && |s| > 0 && s[0] != pat[0]
    ensures Scan(pat, repl, expand, done, s) == [s[0]] + Scan(pat, repl, expand, done + [s[0]], s[1..])
  {
    if |s| < |pat| {
      assert [s[0]] + s[1..] == s;
    } else {
      assert s[..|pat|][0] == s[0];
    }
  }


  /** An occurrence at the front is substituted, and scanning resumes after it. */
  lemma ScanAtMatch(pat: string, repl: string, expand: bool, done: string, rest: string)
    requires |pat| > 0
    ensures Scan(pat, repl, expand, done, pat + rest)
         == Substitute(repl, expand, pat, done, rest) + Scan(pat, repl, expand, done + pat, rest)
  {
    var s := pat + rest;
    assert s[..|pat|] == pat && s[|pat|..] == rest;
  }

  /** A text holding the token once, with text before it that cannot start the token: exactly that occurrence is substituted. */
  lemma ScanSingle(pat: string, repl: string, expand: bool, lead: string, rest: string)
    requires |pat| > 0 && pat[0] !in lead && NoOccurrence(rest, pat)
    requires expand ==> '$' !in repl
    ensures Scan(pat, repl, expand, "", lead + pat + rest) == lead + repl + rest
  {
    assert lead + pat + rest == lead + (pat + rest);
    ScanSkipsPlain(pat, repl, expand, "", lead, pat + rest);
    ScanAtMatch(pat, repl, expand, "" + lead, rest);
    assert Substitute(repl, expand, pat, "" + lead, rest) == repl;
    ScanUnchanged(pat, repl, expand, "" + lead + pat, rest);
  }

  /** The text that is exactly the token becomes exactly the value. */
  lemma ScanWhole(pat: string, repl: string, expand: bool)
    requires |pat| > 0
    requires expand ==> '$' !in repl
    ensures Scan(pat, repl, expand, "", pat) == repl
  {
    assert pat == "" + pat + "";
    AbsentCharNoOccurrence("", pat, 0);
    ScanSingle(pat, repl, expand, "", "");
    assert "" + repl + "" == repl;
  }

  /** A text that starts with the pattern, followed by a rest free of it. */
  lemma ScanLeading(pat: string, repl: string, expand: bool, rest: string)
    requires |pat| > 0 && NoOccurrence(rest, pat)
    requires expand ==> '$' !in repl
    ensures Scan(pat, repl, expand, "", pat + rest) == repl + rest
  {
    assert pat + rest == "" + pat + rest;
    ScanSingle(pat, repl, expand, "", rest);
    assert "" + repl + rest == repl + rest;
  }

  /** A text that ends with the pattern, after a lead without the pattern's first character. */
  lemma ScanTrailing(pat: string, repl: string, expand: bool, lead: string)
    requires |pat| > 0 && pat[0] !in lead
    requires expand ==> '$' !in repl
    ensures Scan(pat, repl, expand, "", lead + pat) == lead + repl
  {
    assert lead + pat == lead + pat + "";
    AbsentCharNoOccurrence("", pat, 0);
    ScanSingle(pat, repl, expand, lead, "");
    assert lead + repl + "" == lead + repl;
  }
}
