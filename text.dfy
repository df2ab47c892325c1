/** String primitives of the JavaScript runtime that the handlers lean on, written as
    explicit scans: literal-pattern global replace, the `<[^>]*>` tag remover,
    `String.prototype.trim`, `split(/\s+/)`, `substring(0, n)` and `Number.prototype.toString`. */
module Text {

  import opened Wrappers

  /** The characters JavaScript's `trim` removes and `\s` matches:
      the WhiteSpace and LineTerminator productions of ECMAScript. */
  predicate IsWhitespace(c: char)
  {
    || c == ' ' || c == '\t' || c == '\n' || c == '\r'
    || c == '\U{000B}' || c == '\U{000C}' || c == '\U{00A0}' || c == '\U{1680}'
    || ('\U{2000}' <= c <= '\U{200A}')
    || c == '\U{2028}' || c == '\U{2029}' || c == '\U{202F}' || c == '\U{205F}'
    || c == '\U{3000}' || c == '\U{FEFF}'
  }

  predicate AllWhitespace(s: string)
  {
    forall i :: 0 <= i < |s| ==> IsWhitespace(s[i])
  }

  predicate NoWhitespace(s: string)
  {
    forall i :: 0 <= i < |s| ==> !IsWhitespace(s[i])
  }

  /** No whitespace at either end: what `trim` produces. */
  predicate IsTrimmed(s: string)
  {
    s == [] || (!IsWhitespace(s[0]) && !IsWhitespace(s[|s| - 1]))
  }

  predicate StartsWith(s: string, prefix: string)
  {
    |prefix| <= |s| && s[..|prefix|] == prefix
  }

  /** A prefix test fails as soon as one position differs. */
  lemma DiffersAt(s: string, prefix: string, k: nat)
    requires k < |prefix| && k < |s| && s[k] != prefix[k]
    ensures !StartsWith(s, prefix)
  {
  }

  /** One step of `Contains`: no occurrence at the head nor in the tail. */
  lemma NotContainsStep(s: string, pat: string)
    requires s != [] && !StartsWith(s, pat) && !Contains(s[1..], pat)
    ensures !Contains(s, pat)
  {
  }

  /** JavaScript's `a || b` on strings: the empty string is falsy. */
  function Or(a: string, b: string): string
  {
    if a != "" then a else b
  }

  /** `pat` occurs somewhere in `s`. */
  predicate Contains(s: string, pat: string)
    decreases |s|
  {
    if StartsWith(s, pat) then true
    else if s == [] then false
    else Contains(s[1..], pat)
  }

  // ---------------------------------------------------------------------------
  // Global replace of a literal pattern

  /** `s.replace(/pat/g, rep)` for a pattern without metacharacters: the
      leftmost occurrence is replaced, scanning resumes after it. */
  function ReplaceAll(s: string, pat: string, rep: string): string
    requires pat != []
    decreases |s|
  {
    if s == [] then []
    else if StartsWith(s, pat) then rep + ReplaceAll(s[|pat|..], pat, rep)
    else [s[0]] + ReplaceAll(s[1..], pat, rep)
  }

  /** Replacing a pattern that does not occur changes nothing. */
  lemma {:induction false} ReplaceAllAbsent(s: string, pat: string, rep: string)
    requires pat != [] && !Contains(s, pat)
    ensures ReplaceAll(s, pat, rep) == s
    decreases |s|
  {
    if s != [] {
      ReplaceAllAbsent(s[1..], pat, rep);
    }
  }

  /** The per-character map that replacing the one-character pattern `[c]` by `rep` amounts to. */
  function SubstChar(s: string, c: char, rep: string): string
    decreases |s|
  {
    if s == [] then [] else (if s[0] == c then rep else [s[0]]) + SubstChar(s[1..], c, rep)
  }

  lemma {:induction false} ReplaceOneChar(s: string, c: char, rep: string)
    ensures ReplaceAll(s, [c], rep) == SubstChar(s, c, rep)
    decreases |s|
  {
    if s != [] {
      ReplaceOneChar(s[1..], c, rep);
      assert StartsWith(s, [c]) <==> s[0] == c;
    }
  }

  lemma {:induction false} SubstCharAppend(a: string, b: string, c: char, rep: string)
    ensures SubstChar(a + b, c, rep) == SubstChar(a, c, rep) + SubstChar(b, c, rep)
    decreases |a|
  {
    if a == [] {
      assert a + b == b;
    } else {
      assert (a + b)[1..] == a[1..] + b;
      SubstCharAppend(a[1..], b, c, rep);
    }
  }

  // ---------------------------------------------------------------------------
  // The tag remover `replace(/<[^>]*>/g, "")`

  /** Index of the first `c` in `s`. */
  function FirstIndex(s: string, c: char): (i: nat)
    requires c in s
    ensures i < |s| && s[i] == c && c !in s[..i]
  {
    if s[0] == c then 0
    else
      assert s == [s[0]] + s[1..];
      1 + FirstIndex(s[1..], c)
  }

  /** An occurrence with no earlier one is the first. */
  lemma {:induction false} FirstIndexAt(s: string, c: char, i: nat)
    requires i < |s| && s[i] == c && c !in s[..i]
    ensures FirstIndex(s, c) == i
    decreases i
  {
    if i > 0 {
      assert s[0] == s[..i][0];
      assert s[1..][..i - 1] == s[1..i];
      assert forall k :: 1 <= k < i ==> s[1..i][k - 1] == s[..i][k];
      FirstIndexAt(s[1..], c, i - 1);
    }
  }

  /** A `<` followed (not necessarily at once) by a `>`: a match of `<[^>]*>` starts at i. */
  predicate TagAt(s: string, i: int)
  {
    0 <= i < |s| && s[i] == '<' && '>' in s[i + 1..]
  }

  /** Deletes every span from a `<` to the next `>`. A `<` with no `>` after it is kept. */
  function RemoveTags(s: string): (r: string)
    ensures forall c :: c in r ==> c in s
    decreases |s|
  {
    if s == [] then []
    else if s[0] == '<' && '>' in s[1..] then
      var j := FirstIndex(s, '>');
      RemoveTags(s[j + 1..])
    else [s[0]] + RemoveTags(s[1..])
  }

  /** No complete tag survives: after the scan, no `<` is followed by a `>`. */
  lemma {:induction false} RemoveTagsLeavesNoTag(s: string)
    ensures forall i :: !TagAt(RemoveTags(s), i)
    decreases |s|
  {
    if s == [] {
    } else if s[0] == '<' && '>' in s[1..] {
      RemoveTagsLeavesNoTag(s[FirstIndex(s, '>') + 1..]);
    } else {
      var t := RemoveTags(s[1..]);
      RemoveTagsLeavesNoTag(s[1..]);
      var r := [s[0]] + t;
      forall i | 0 <= i < |r|
        ensures !TagAt(r, i)
      {
        if i == 0 {
          if s[0] == '<' {
            assert r[1..] == t;
            assert '>' !in s[1..];
          }
        } else {
          assert r[i + 1..] == t[i..];
          assert !TagAt(t, i - 1);
        }
      }
    }
  }

  /** Text without a `<` passes through unchanged. */
  lemma {:induction false} RemoveTagsNoAngle(s: string)
    requires '<' !in s
    ensures RemoveTags(s) == s
    decreases |s|
  {
    if s != [] {
      assert '<' !in s[1..];
      RemoveTagsNoAngle(s[1..]);
    }
  }

  /** The scan only deletes: what it returns is the input with some characters left out,
      the rest in their original order. */
  lemma {:induction false} RemoveTagsSubsequence(s: string)
    ensures IsSubsequence(RemoveTags(s), s)
    decreases |s|
  {
    if s == [] {
    } else if s[0] == '<' && '>' in s[1..] {
      var j := FirstIndex(s, '>');
      RemoveTagsSubsequence(s[j + 1..]);
      SubsequenceOfSuffix(RemoveTags(s), s, j + 1);
    } else {
      RemoveTagsSubsequence(s[1..]);
      assert ([s[0]] + RemoveTags(s[1..]))[1..] == RemoveTags(s[1..]);
    }
  }

  /** Text before the first `<` is kept verbatim. */
  lemma {:induction false} RemoveTagsKeepsText(p: string, q: string)
    requires '<' !in p
    ensures RemoveTags(p + q) == p + RemoveTags(q)
    decreases |p|
  {
    if p != [] {
      assert (p + q)[0] == p[0] && p[0] != '<';
      assert (p + q)[1..] == p[1..] + q;
      assert '<' !in p[1..];
      RemoveTagsKeepsText(p[1..], q);
      calc {
        RemoveTags(p + q);
        [p[0]] + RemoveTags(p[1..] + q);
        [p[0]] + (p[1..] + RemoveTags(q));
        { assert p == [p[0]] + p[1..]; }
        p + RemoveTags(q);
      }
    } else {
      assert p + q == q;
    }
  }

  /** A complete tag, from its `<` to the first `>`, is deleted and nothing else with it. */
  lemma RemoveTagsDropsTag(t: string, q: string)
    requires '>' !in t
    ensures RemoveTags("<" + t + ">" + q) == RemoveTags(q)
  {
    var s := "<" + t + ">" + q;
    assert s[1..][|t|] == '>';
    assert s[..|t| + 1] == "<" + t;
    FirstIndexAt(s, '>', |t| + 1);
    assert s[|t| + 2..] == q;
  }

  /** Text, then a tag, then more: the text stays, the tag goes, the rest is scanned again. */
  lemma RemoveTagsOfTextThenTag(p: string, t: string, q: string)
    requires '<' !in p && '>' !in t
    ensures RemoveTags(p + "<" + t + ">" + q) == p + RemoveTags(q)
  {
    assert p + "<" + t + ">" + q == p + ("<" + t + ">" + q);
    RemoveTagsKeepsText(p, "<" + t + ">" + q);
    RemoveTagsDropsTag(t, q);
  }

  // ---------------------------------------------------------------------------
  // trim

  function TrimStart(s: string): (r: string)
    ensures |r| <= |s|
    ensures r == [] || !IsWhitespace(r[0])
    decreases |s|
  {
    if s != [] && IsWhitespace(s[0]) then TrimStart(s[1..]) else s
  }

  /** TrimStart drops a whitespace prefix and keeps the rest. */
  lemma {:induction false} TrimStartDropsWhitespace(s: string)
    ensures TrimStart(s) == s[|s| - |TrimStart(s)|..]
    ensures AllWhitespace(s[..|s| - |TrimStart(s)|])
    decreases |s|
  {
    if s != [] && IsWhitespace(s[0]) {
      TrimStartDropsWhitespace(s[1..]);
      var k := |s| - |TrimStart(s)|;
      assert s[1..][..k - 1] == s[1..k];
    }
  }

  function TrimEnd(s: string): (r: string)
    ensures |r| <= |s|
    ensures r == [] || !IsWhitespace(r[|r| - 1])
    decreases |s|
  {
    if s != [] && IsWhitespace(s[|s| - 1]) then TrimEnd(s[..|s| - 1]) else s
  }

  /** TrimEnd drops a whitespace suffix and keeps the rest. */
  lemma {:induction false} TrimEndDropsWhitespace(s: string)
    ensures TrimEnd(s) == s[..|TrimEnd(s)|]
    ensures AllWhitespace(s[|TrimEnd(s)|..])
    decreases |s|
  {
    if s != [] && IsWhitespace(s[|s| - 1]) {
      var init := s[..|s| - 1];
      TrimEndDropsWhitespace(init);
      var k := |TrimEnd(s)|;
      assert init[..k] == s[..k];
      assert s[k..] == init[k..] + [s[|s| - 1]];
    }
  }

  /** `s.trim()`: no whitespace at either end. */
  function Trim(s: string): (r: string)
    ensures IsTrimmed(r)
    ensures |r| <= |s|
  {
    var a := TrimStart(s);
    var r := TrimEnd(a);
    assert r != [] ==> r[0] == a[0] by {
      if r != [] { TrimEndDropsWhitespace(a); }
    }
    r
  }

  /** Where the trimmed text starts in `s`. */
  function TrimOffset(s: string): nat
  {
    |s| - |TrimStart(s)|
  }

  /** Trim is the slice of `s` left after dropping only whitespace at both ends. */
  lemma TrimIsSlice(s: string)
    ensures TrimOffset(s) + |Trim(s)| <= |s|
    ensures Trim(s) == s[TrimOffset(s)..TrimOffset(s) + |Trim(s)|]
    ensures AllWhitespace(s[..TrimOffset(s)])
    ensures AllWhitespace(s[TrimOffset(s) + |Trim(s)|..])
  {
    var a := TrimStart(s);
    var r := TrimEnd(a);
    TrimStartDropsWhitespace(s);
    TrimEndDropsWhitespace(a);
    var i := TrimOffset(s);
    assert r == s[i..i + |r|] by {
      assert a == s[i..] && r == a[..|r|];
      assert s[i..][..|r|] == s[i..i + |r|];
    }
    assert s[i + |r|..] == a[|r|..] by {
      assert a == s[i..];
    }
  }

  /** Trimming keeps only characters that were there. */
  lemma TrimKeepsCharacters(s: string)
    ensures forall c :: c in Trim(s) ==> c in s
  {
    var r := Trim(s);
    TrimIsSlice(s);
    var i := TrimOffset(s);
    forall c | c in r
      ensures c in s
    {
      var j :| 0 <= j < |r| && r[j] == c;
      assert s[i + j] == r[j];
    }
  }

  lemma {:induction false} TrimStartOfTrimmed(s: string)
    requires s == [] || !IsWhitespace(s[0])
    ensures TrimStart(s) == s
  {
  }

  lemma {:induction false} TrimEndOfTrimmed(s: string)
    requires s == [] || !IsWhitespace(s[|s| - 1])
    ensures TrimEnd(s) == s
  {
  }

  /** Trimming twice is trimming once. */
  lemma TrimIdempotent(s: string)
    ensures Trim(Trim(s)) == Trim(s)
  {
    var t := Trim(s);
    TrimStartOfTrimmed(t);
    TrimEndOfTrimmed(t);
  }

  /** A string made only of whitespace trims to the empty string. */
  lemma {:induction false} TrimAllWhitespace(s: string)
    requires AllWhitespace(s)
    ensures Trim(s) == ""
  {
    TrimStartDropsWhitespace(s);
  }

  // ---------------------------------------------------------------------------
  // split(/\s+/)

  function SkipWhitespace(s: string): (r: string)
    ensures |r| <= |s| && r == s[|s| - |r|..]
    ensures AllWhitespace(s[..|s| - |r|])
    ensures r == [] || !IsWhitespace(r[0])
    decreases |s|
  {
    if s != [] && IsWhitespace(s[0]) then SkipWhitespace(s[1..]) else s
  }

  /** `s.split(/\s+/)`: the pieces between maximal whitespace runs. A leading run
      gives a leading "", a trailing run a trailing "", and "" gives [""]. */
  function SplitWhitespace(s: string): (pieces: seq<string>)
    ensures |pieces| >= 1
    decreases |s|
  {
    if s == [] then [""]
    else if IsWhitespace(s[0]) then [""] + SplitWhitespace(SkipWhitespace(s))
    else
      var rest := SplitWhitespace(s[1..]);
      [[s[0]] + rest[0]] + rest[1..]
  }

  /** The whitespace run `s` starts with: what `SkipWhitespace` skips. */
  function LeadingWhitespace(s: string): (run: string)
    ensures run + SkipWhitespace(s) == s
    ensures AllWhitespace(run)
    ensures s != [] && IsWhitespace(s[0]) ==> run != []
  {
    var t := SkipWhitespace(s);
    assert s != [] && IsWhitespace(s[0]) ==> t == SkipWhitespace(s[1..]);
    s[..|s| - |t|]
  }

  /** The maximal whitespace runs of `s`, in order: what `split(/\s+/)` cuts at. */
  function Separators(s: string): (seps: seq<string>)
    decreases |s|
  {
    if s == [] then []
    else if IsWhitespace(s[0]) then [LeadingWhitespace(s)] + Separators(SkipWhitespace(s))
    else Separators(s[1..])
  }

  /** `pieces[0] + seps[0] + pieces[1] + ... + pieces[n]`. */
  function Interleave(pieces: seq<string>, seps: seq<string>): string
    requires |pieces| == |seps| + 1
    decreases |seps|
  {
    if seps == [] then pieces[0]
    else pieces[0] + seps[0] + Interleave(pieces[1..], seps[1..])
  }

  /** Prepending to the first piece prepends to the whole. */
  lemma InterleaveHead(x: string, pieces: seq<string>, seps: seq<string>)
    requires |pieces| == |seps| + 1
    ensures Interleave([x + pieces[0]] + pieces[1..], seps) == x + Interleave(pieces, seps)
  {
    var longer := [x + pieces[0]] + pieces[1..];
    if seps != [] {
      assert longer[1..] == pieces[1..];
    }
  }

  /** The gluing property, for the pieces and runs of `s`. */
  predicate GluesBack(s: string)
  {
    && |Separators(s)| + 1 == |SplitWhitespace(s)|
    && (forall k :: 0 <= k < |Separators(s)| ==>
          Separators(s)[k] != [] && AllWhitespace(Separators(s)[k]))
    && Interleave(SplitWhitespace(s), Separators(s)) == s
  }

  /** Gluing a non-empty whitespace run in front of glued pieces. */
  lemma InterleaveRun(run: string, t: string, pieces: seq<string>, seps: seq<string>)
    requires |pieces| == |seps| + 1 && Interleave(pieces, seps) == t
    requires forall k :: 0 <= k < |seps| ==> seps[k] != [] && AllWhitespace(seps[k])
    requires run != [] && AllWhitespace(run)
    ensures Interleave([""] + pieces, [run] + seps) == run + t
    ensures forall k :: 0 <= k < |[run] + seps| ==> ([run] + seps)[k] != [] && AllWhitespace(([run] + seps)[k])
  {
    assert ([""] + pieces)[1..] == pieces && ([run] + seps)[1..] == seps;
    assert "" + run == run;
    forall k | 0 < k < |seps| + 1
      ensures ([run] + seps)[k] != [] && AllWhitespace(([run] + seps)[k])
    {
      assert ([run] + seps)[k] == seps[k - 1];
    }
  }

  /** Step of the round trip over a leading whitespace run. */
  lemma GluesBackRun(s: string)
    requires s != [] && IsWhitespace(s[0])
    requires GluesBack(SkipWhitespace(s))
    ensures GluesBack(s)
  {
    var t := SkipWhitespace(s);
    var run := LeadingWhitespace(s);
    assert SplitWhitespace(s) == [""] + SplitWhitespace(t);
    assert Separators(s) == [run] + Separators(t);
    InterleaveRun(run, t, SplitWhitespace(t), Separators(t));
  }

  /** Step of the round trip over a leading non-whitespace character. */
  lemma GluesBackChar(s: string)
    requires s != [] && !IsWhitespace(s[0])
    requires GluesBack(s[1..])
    ensures GluesBack(s)
  {
    var rest := SplitWhitespace(s[1..]);
    assert Separators(s) == Separators(s[1..]);
    assert SplitWhitespace(s) == [[s[0]] + rest[0]] + rest[1..];
    InterleaveHead([s[0]], rest, Separators(s[1..]));
    assert [s[0]] + s[1..] == s;
  }

  /** The split loses nothing but the boundaries between whitespace and the rest:
      the pieces, glued back with the non-empty whitespace runs between them, are
      the original string. */
  lemma {:induction false} SplitRoundTrip(s: string)
    ensures |Separators(s)| + 1 == |SplitWhitespace(s)|
    ensures forall k :: 0 <= k < |Separators(s)| ==>
              Separators(s)[k] != [] && AllWhitespace(Separators(s)[k])
    ensures Interleave(SplitWhitespace(s), Separators(s)) == s
    decreases |s|
  {
    if s == [] {
    } else if IsWhitespace(s[0]) {
      SplitRoundTrip(SkipWhitespace(s));
      GluesBackRun(s);
    } else {
      SplitRoundTrip(s[1..]);
      GluesBackChar(s);
    }
  }

  /** No piece of a split contains whitespace. */
  lemma {:induction false} SplitPiecesHaveNoWhitespace(s: string)
    ensures forall k :: 0 <= k < |SplitWhitespace(s)| ==> NoWhitespace(SplitWhitespace(s)[k])
    decreases |s|
  {
    if s == [] {
    } else if IsWhitespace(s[0]) {
      SplitPiecesHaveNoWhitespace(SkipWhitespace(s));
    } else {
      SplitPiecesHaveNoWhitespace(s[1..]);
    }
  }

  /** Splitting a string that does not start with whitespace: the first piece is
      non-empty exactly when the string is. */
  lemma {:induction false} SplitFirstPiece(s: string)
    requires s == [] || !IsWhitespace(s[0])
    ensures SplitWhitespace(s)[0] == [] <==> s == []
  {
  }

  /** Every piece after the first of a split is non-empty unless it comes from a
      trailing whitespace run. */
  lemma {:induction false} SplitInnerPiecesNonEmpty(s: string)
    requires s == [] || !IsWhitespace(s[|s| - 1])
    ensures forall k :: 1 <= k < |SplitWhitespace(s)| ==> SplitWhitespace(s)[k] != []
    decreases |s|
  {
    if s == [] {
    } else if IsWhitespace(s[0]) {
      var t := SkipWhitespace(s);
      assert t[|t| - 1] == s[|s| - 1];
      SplitInnerPiecesNonEmpty(t);
      SplitFirstPiece(t);
    } else {
      if |s| > 1 {
        assert s[1..][|s| - 2] == s[|s| - 1];
      }
      SplitInnerPiecesNonEmpty(s[1..]);
    }
  }

  /** For a trimmed string, every piece of the split is a real word:
      non-empty and free of whitespace (and "" splits into one empty piece). */
  lemma SplitTrimmedIntoWords(s: string)
    requires IsTrimmed(s) && s != []
    ensures forall k :: 0 <= k < |SplitWhitespace(s)| ==>
              SplitWhitespace(s)[k] != [] && NoWhitespace(SplitWhitespace(s)[k])
  {
    SplitFirstPiece(s);
    SplitInnerPiecesNonEmpty(s);
    SplitPiecesHaveNoWhitespace(s);
  }

  // ---------------------------------------------------------------------------
  // substring(0, n)

  /** `s.substring(0, n)`: the first n characters, or all of s if it is shorter. */
  function Take(s: string, n: nat): (r: string)
    ensures |r| == if |s| < n then |s| else n
    ensures r == s[..|r|]
  {
    if |s| <= n then s else s[..n]
  }

  // ---------------------------------------------------------------------------
  // Decimal rendering of integers

  function DigitChar(d: nat): (c: char)
    requires d < 10
    ensures '0' <= c <= '9' && (c as int) - ('0' as int) == d
  {
    (('0' as int) + d) as char
  }

  predicate IsDigits(s: string)
  {
    forall i :: 0 <= i < |s| ==> '0' <= s[i] <= '9'
  }

  /** `n.toString()` for a non-negative integer: decimal digits, no leading zero. */
  function NatToString(n: nat): (r: string)
    ensures |r| >= 1 && IsDigits(r)
    ensures r[0] == '0' ==> n == 0
    decreases n
  {
    if n < 10 then [DigitChar(n)] else NatToString(n / 10) + [DigitChar(n % 10)]
  }

  /** The value of a string of decimal digits. */
  function ParseDigits(s: string): nat
    requires IsDigits(s)
    decreases |s|
  {
    if s == [] then 0
    else ParseDigits(s[..|s| - 1]) * 10 + ((s[|s| - 1] as int) - ('0' as int))
  }

  /** Reading back the decimal rendering gives the number. */
  lemma {:induction false} NatToStringRoundTrip(n: nat)
    ensures ParseDigits(NatToString(n)) == n
    decreases n
  {
    if n >= 10 {
      NatToStringRoundTrip(n / 10);
      var r := NatToString(n);
      assert r[..|r| - 1] == NatToString(n / 10);
    }
  }

  /** Distinct numbers render differently. */
  lemma NatToStringInjective(m: nat, n: nat)
    requires NatToString(m) == NatToString(n)
    ensures m == n
  {
    NatToStringRoundTrip(m);
    NatToStringRoundTrip(n);
  }

  /** `i.toString()` for any integer: a minus sign before the digits when negative. */
  function IntToString(i: int): (r: string)
    ensures |r| >= 1
    ensures i < 0 <==> r[0] == '-'
  {
    if i < 0 then "-" + NatToString(-i) else NatToString(i)
  }
}
