/** `cleanJsonResponse`: stripping the Markdown code fence a language model wraps
    around a JSON reply. The two services carry the same three lines; this module
    defines them once. */
module JsonFence {
  import opened Text

  /** "```" starts at index `i` of `s`. */
  predicate FenceAt(s: string, i: nat) {
    i + 3 <= |s| && s[i] == '`' && s[i + 1] == '`' && s[i + 2] == '`'
  }

  /** "```json" starts at index 0 of `s`. */
  predicate OpensWithJsonFence(s: string) {
    FenceAt(s, 0) && |s| >= 7 && s[3] == 'j' && s[4] == 's' && s[5] == 'o' && s[6] == 'n'
  }

  // `s.replace(/```json\s*/g, '')`: scanning left to right, every "```json"
  // is removed together with the white space that follows it.
  function RemoveOpeningFences(s: string): (r: string)
    ensures |r| <= |s|
    decreases |s|
  {
    if OpensWithJsonFence(s) then RemoveOpeningFences(TrimStart(s[7..]))
    else if s == [] then []
    else [s[0]] + RemoveOpeningFences(s[1..])
  }

  /** `s.replace(/```\s*$/g, '')`: a "```" followed only by white space up to the
      end of the string is removed together with that white space. Such a match is
      the last "```" before the trailing white space, so it is found by trimming the
      end first (lemmas ClosingFenceMatch and ClosingFenceNoMatch show that the two
      readings agree). */
  function RemoveClosingFence(s: string): (r: string) {
    var t := TrimEnd(s);
    if |t| >= 3 && FenceAt(t, |t| - 3) then t[..|t| - 3] else s
  }

  /** `cleanJsonResponse(content)`. */
  function CleanJsonResponse(content: string): (r: string)
    ensures Trimmed(r)
    ensures |r| <= |content|
  {
    Trim(RemoveClosingFence(RemoveOpeningFences(content)))
  }

  /** Wherever `/```\s*$/` matches, RemoveClosingFence cuts exactly there. */
  lemma ClosingFenceMatch(s: string, i: nat)
    requires FenceAt(s, i) && AllSpace(s[i + 3..])
    ensures RemoveClosingFence(s) == s[..i]
  {
    assert s == s[..i + 3] + s[i + 3..];
    TrimEndSpaceSuffix(s[..i + 3], s[i + 3..]);
    assert s[..i + 3][i + 2] == '`';
  }

  /** Where `/```\s*$/` cannot match, RemoveClosingFence leaves the string alone. */
  lemma ClosingFenceNoMatch(s: string)
    requires forall i: nat | FenceAt(s, i) :: !AllSpace(s[i + 3..])
    ensures RemoveClosingFence(s) == s
  {
    var t := TrimEnd(s);
    TrimEndDropsSpace(s);
    TrimEndPrefix(s);
    if |t| >= 3 {
      var i: nat := |t| - 3;
      assert s[i + 3..] == s[|t|..];
      assert FenceAt(t, i) ==> FenceAt(s, i);
    }
  }

  /** A prefix free of backticks passes through the opening-fence removal unchanged. */
  lemma {:induction false} OpeningFencesAfterPlainPrefix(a: string, b: string)
    requires '`' !in a
    ensures RemoveOpeningFences(a + b) == a + RemoveOpeningFences(b)
    decreases |a|
  {
    if a != [] {
      assert (a + b)[0] == a[0];
      assert (a + b)[1..] == a[1..] + b;
      assert RemoveOpeningFences(a + b) == [a[0]] + RemoveOpeningFences(a[1..] + b);
      OpeningFencesAfterPlainPrefix(a[1..], b);
      assert a == [a[0]] + a[1..];
    } else {
      assert a + b == b;
    }
  }

  lemma OpeningFencesPlain(s: string)
    requires '`' !in s
    ensures RemoveOpeningFences(s) == s
  {
    OpeningFencesAfterPlainPrefix(s, []);
    assert s + [] == s;
  }

  /** On a reply without any backtick, cleaning is exactly `trim`. */
  lemma CleanWithoutBackticks(s: string)
    requires '`' !in s
    ensures CleanJsonResponse(s) == Trim(s)
  {
    OpeningFencesPlain(s);
    ClosingFenceNoMatch(s);
  }

  /** A reply "```json" + white space + X + "```" + white space, with X free of
      backticks, cleans to X trimmed. */
  lemma CleanFencedReply(w1: string, x: string, w2: string)
    requires AllSpace(w1) && AllSpace(w2) && '`' !in x
    ensures CleanJsonResponse("```json" + w1 + x + "```" + w2) == Trim(x)
  {
    var x' := TrimStart(x);
    TrimStartSuffix(x);
    SuffixWithoutBackticks(x, |x| - |x'|);
    OpeningFenceDropsSpace(w1, x, "```" + w2);
    assert "```json" + w1 + x + "```" + w2 == "```json" + w1 + x + ("```" + w2);
    PlainThenClosingFence(x', w2);
  }

  /** The opening fence and all white space after it go, up to the first
      character of the payload that is not white space. */
  lemma OpeningFenceDropsSpace(w1: string, x: string, tail: string)
    requires AllSpace(w1) && '`' !in x && tail != [] && tail[0] == '`'
    ensures RemoveOpeningFences("```json" + w1 + x + tail) == TrimStart(x) + RemoveOpeningFences(tail)
  {
    var head := "```json";
    var s := head + w1 + x + tail;
    assert s == head + (w1 + (x + tail));
    assert s[..7] == head;
    assert OpensWithJsonFence(s);
    assert s[7..] == w1 + (x + tail);
    TrimStartSpacePrefix(w1, x + tail);
    PayloadStart(x, tail);
    TrimStartSuffix(x);
    SuffixWithoutBackticks(x, |x| - |TrimStart(x)|);
    OpeningFencesAfterPlainPrefix(TrimStart(x), tail);
  }

  /** A suffix of a string without backticks has none either. */
  lemma SuffixWithoutBackticks(x: string, k: nat)
    requires '`' !in x && k <= |x|
    ensures '`' !in x[k..]
  {
    forall j | 0 <= j < |x[k..]| ensures x[k..][j] != '`' {
      assert x[k..][j] == x[k + j];
    }
  }

  /** Leading white space is dropped up to the first payload character, or up to
      the fence when the payload is blank. */
  lemma {:induction false} PayloadStart(x: string, tail: string)
    requires tail != [] && tail[0] == '`'
    ensures TrimStart(x + tail) == TrimStart(x) + tail
    decreases |x|
  {
    if x == [] {
      assert x + tail == tail;
      assert !IsSpace(tail[0]);
    } else if IsSpace(x[0]) {
      assert (x + tail)[0] == x[0];
      assert (x + tail)[1..] == x[1..] + tail;
      assert TrimStart(x + tail) == TrimStart(x[1..] + tail);
      PayloadStart(x[1..], tail);
    } else {
      assert (x + tail)[0] == x[0];
      assert TrimStart(x) == x;
    }
  }

  /** What is left once the opening fence is gone: the payload, then the closing
      fence and its trailing white space, which the second replacement removes. */
  lemma PlainThenClosingFence(x: string, w: string)
    requires AllSpace(w) && '`' !in x
    ensures RemoveClosingFence(x + RemoveOpeningFences("```" + w)) == x
  {
    FenceThenSpace(w);
    var u := x + ("```" + w);
    assert FenceAt(u, |x|);
    assert u[|x| + 3..] == w;
    ClosingFenceMatch(u, |x|);
    assert u[..|x|] == x;
  }

  /** A string without the letter `j` holds no opening fence. */
  lemma {:induction false} OpeningFencesWithoutJ(s: string)
    requires 'j' !in s
    ensures RemoveOpeningFences(s) == s
    decreases |s|
  {
    if s != [] {
      if |s| >= 7 {
        assert s[3] in s;
      }
      assert 'j' !in s[1..] by {
        forall c | c in s[1..] ensures c in s {
          var k :| 0 <= k < |s[1..]| && s[1..][k] == c;
          assert s[k + 1] == c;
        }
      }
      OpeningFencesWithoutJ(s[1..]);
    }
  }

  /** "```" followed by white space holds no opening fence. */
  lemma FenceThenSpace(w: string)
    requires AllSpace(w)
    ensures RemoveOpeningFences("```" + w) == "```" + w
  {
    var s := "```" + w;
    forall k | 0 <= k < |s| ensures s[k] != 'j' {
      if k >= 3 {
        assert s[k] == w[k - 3] && IsSpace(w[k - 3]);
      }
    }
    OpeningFencesWithoutJ(s);
  }
}
