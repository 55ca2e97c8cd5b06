/**
 * The TrustProxies patch (`rewriteTrustProxiesMiddleware`):
 * `preg_replace("/(}[\s\n\r]*)$/m", $stub . '$1', $contents)`.
 *
 * One attempt of the pattern at position `i` needs a `}` there, takes the
 * longest run of white space after it (PCRE's `\s`: space, tab, line feed,
 * vertical tab, form feed, carriage return) and gives characters back until
 * `$` holds, which in multi-line mode is at the end of the text or just
 * before a line feed. `preg_replace` scans from the left, replaces each match
 * by the stub followed by the matched text, and resumes after the match.
 */
module TrustProxies {
  import opened Wrappers
  import opened Text

  /** A character of the class `[\s\n\r]`. */
  predicate IsSpace(c: char)
  {
    c == ' ' || c == '\t' || c == '\n' || c == '\r' || c as int == 11 || c as int == 12
  }

  /** Multi-line `$` holds at `j`. */
  predicate EndOfLineAt(s: string, j: nat)
    requires j <= |s|
  {
    j == |s| || s[j] == '\n'
  }

  /**
   * The characterisation of a match independent of how PCRE searches:
   * `s[i..e]` is a `}` followed by white space only, and `$` holds at `e`.
   */
  predicate IsMatch(s: string, i: nat, e: nat)
  {
    i < e <= |s| && s[i] == '}' && (forall k :: i < k < e ==> IsSpace(s[k])) && EndOfLineAt(s, e)
  }

  /** Where the greedy run of white space starting at `j` stops. */
  function SpaceRunEnd(s: string, j: nat): (e: nat)
    requires j <= |s|
    ensures j <= e <= |s|
    ensures forall k :: j <= k < e ==> IsSpace(s[k])
    ensures e == |s| || !IsSpace(s[e])
    decreases |s| - j
  {
    if j == |s| || !IsSpace(s[j]) then j else SpaceRunEnd(s, j + 1)
  }

  /** Giving back characters from `j` down to `lo` until `$` holds. */
  function Backtrack(s: string, lo: nat, j: nat): (r: Option<nat>)
    requires lo <= j <= |s|
    ensures r.Some? ==> lo <= r.value <= j && EndOfLineAt(s, r.value)
    ensures r.Some? ==> forall k :: r.value < k <= j ==> !EndOfLineAt(s, k)
    ensures r.None? ==> forall k :: lo <= k <= j ==> !EndOfLineAt(s, k)
    decreases j - lo
  {
    if EndOfLineAt(s, j) then Some(j)
    else if j == lo then None
    else Backtrack(s, lo, j - 1)
  }

  /** The end of the match that starts at `i`, if the pattern matches there. */
  function MatchEnd(s: string, i: nat): Option<nat>
    requires i < |s|
  {
    if s[i] != '}' then None else Backtrack(s, i + 1, SpaceRunEnd(s, i + 1))
  }

  /**
   * The attempt at `i` finds a match exactly when there is one, and then the
   * longest: the greedy run of white space is given back only as far as `$`
   * demands.
   */
  lemma MatchEndIsLongestMatch(s: string, i: nat)
    requires i < |s|
    ensures MatchEnd(s, i).Some? ==> IsMatch(s, i, MatchEnd(s, i).value)
    ensures MatchEnd(s, i).Some? ==> forall e: nat :: IsMatch(s, i, e) ==> e <= MatchEnd(s, i).value
    ensures MatchEnd(s, i).None? ==> forall e: nat :: !IsMatch(s, i, e)
  {
  }

  /** The patched text of `s[i..]`. */
  function Patched(s: string, stub: string, i: nat): string
    requires i <= |s|
    decreases |s| - i
  {
    if i == |s| then ""
    else
      match MatchEnd(s, i) {
        case Some(e) => stub + s[i..e] + Patched(s, stub, e)
        case None => [s[i]] + Patched(s, stub, i + 1)
      }
  }

  /** `rewriteTrustProxiesMiddleware`'s new contents for `contents`. */
  function Patch(contents: string, stub: string): string
  {
    Patched(contents, stub, 0)
  }

  /**
   * `s[i..]` cut just before every match the scan replaces: each piece after
   * the first starts with such a match.
   */
  function Chunks(s: string, i: nat): (c: seq<string>)
    requires i <= |s|
    ensures |c| >= 1
    decreases |s| - i
  {
    if i == |s| then [""]
    else
      match MatchEnd(s, i) {
        case Some(e) =>
          var rest := Chunks(s, e);
          [""] + [s[i..e] + rest[0]] + rest[1..]
        case None =>
          var rest := Chunks(s, i + 1);
          [[s[i]] + rest[0]] + rest[1..]
      }
  }

  /** Glued together without anything between them, the chunks are the text. */
  lemma {:induction false} ChunksCoverText(s: string, i: nat)
    requires i <= |s|
    ensures Join(Chunks(s, i), "") == s[i..]
    decreases |s| - i
  {
    if i < |s| {
      match MatchEnd(s, i) {
        case Some(e) =>
          var rest := Chunks(s, e);
          ChunksCoverText(s, e);
          JoinPrefixFirst(s[i..e], rest, "");
          JoinEmptyFirst([s[i..e] + rest[0]] + rest[1..], "");
          assert s[i..] == s[i..e] + s[e..];
        case None =>
          ChunksCoverText(s, i + 1);
          JoinConsFirst(s[i], Chunks(s, i + 1), "");
          assert s[i..] == [s[i]] + s[i + 1..];
      }
    }
  }

  /** Glued with the stub between them, the chunks are the patched text. */
  lemma {:induction false} ChunksJoinedByStub(s: string, stub: string, i: nat)
    requires i <= |s|
    ensures Join(Chunks(s, i), stub) == Patched(s, stub, i)
    decreases |s| - i
  {
    if i < |s| {
      match MatchEnd(s, i) {
        case Some(e) =>
          var rest := Chunks(s, e);
          ChunksJoinedByStub(s, stub, e);
          JoinPrefixFirst(s[i..e], rest, stub);
          JoinEmptyFirst([s[i..e] + rest[0]] + rest[1..], stub);
        case None =>
          ChunksJoinedByStub(s, stub, i + 1);
          JoinConsFirst(s[i], Chunks(s, i + 1), stub);
      }
    }
  }

  /** Every chunk after the first begins with the `}` of a match. */
  lemma {:induction false} ChunksStartWithBrace(s: string, i: nat)
    requires i <= |s|
    ensures forall n :: 1 <= n < |Chunks(s, i)| ==> |Chunks(s, i)[n]| > 0 && Chunks(s, i)[n][0] == '}'
    decreases |s| - i
  {
    if i < |s| {
      match MatchEnd(s, i) {
        case Some(e) =>
          ChunksStartWithBrace(s, e);
          var rest := Chunks(s, e);
          var c := [""] + [s[i..e] + rest[0]] + rest[1..];
          forall n | 1 <= n < |c| ensures |c[n]| > 0 && c[n][0] == '}' {
            if n >= 2 {
              assert c[n] == rest[n - 1];
            }
          }
        case None =>
          ChunksStartWithBrace(s, i + 1);
          var rest := Chunks(s, i + 1);
          var c := [[s[i]] + rest[0]] + rest[1..];
          forall n | 1 <= n < |c| ensures |c[n]| > 0 && c[n][0] == '}' {
            assert c[n] == rest[n];
          }
      }
    }
  }

  /** The positions in `s[i..]` where the scan finds a match, left to right. */
  function MatchStarts(s: string, i: nat): seq<nat>
    requires i <= |s|
    decreases |s| - i
  {
    if i == |s| then []
    else
      match MatchEnd(s, i) {
        case Some(e) => [i] + MatchStarts(s, e)
        case None => MatchStarts(s, i + 1)
      }
  }

  /**
   * The scan misses no match: a position of `s[i..]` is one where it finds a
   * match exactly when the pattern matches there, because the white space a
   * match swallows holds no `}` that could start another.
   */
  lemma {:induction false} MatchStartsAreTheMatches(s: string, i: nat)
    requires i <= |s|
    ensures forall a :: 0 <= a < |MatchStarts(s, i)| ==> i <= MatchStarts(s, i)[a] < |s|
    ensures forall a, b :: 0 <= a < b < |MatchStarts(s, i)| ==> MatchStarts(s, i)[a] < MatchStarts(s, i)[b]
    ensures forall k :: i <= k < |s| ==> (k in MatchStarts(s, i) <==> MatchEnd(s, k).Some?)
    decreases |s| - i
  {
    if i < |s| {
      match MatchEnd(s, i) {
        case Some(e) =>
          MatchStartsAreTheMatches(s, e);
          forall k | i < k < e
            ensures MatchEnd(s, k).None?
          {
            assert IsSpace(s[k]);
          }
        case None =>
          MatchStartsAreTheMatches(s, i + 1);
      }
    }
  }

  /** Chunk `n`, for `n >= 1`, begins where the scan finds its `n`-th match. */
  lemma {:induction false} ChunksStartAtMatches(s: string, i: nat)
    requires i <= |s|
    ensures |Chunks(s, i)| == |MatchStarts(s, i)| + 1
    ensures forall n :: 1 <= n < |Chunks(s, i)| ==> i + |Join(Chunks(s, i)[..n], "")| == MatchStarts(s, i)[n - 1]
    decreases |s| - i
  {
    if i < |s| {
      var c := Chunks(s, i);
      match MatchEnd(s, i) {
        case Some(e) =>
          ChunksStartAtMatches(s, e);
          var rest := Chunks(s, e);
          forall n | 1 <= n < |c|
            ensures i + |Join(c[..n], "")| == MatchStarts(s, i)[n - 1]
          {
            if n == 1 {
              assert c[..1] == [""];
            } else {
              var q := rest[..n - 1];
              assert c[..n] == [""] + ([s[i..e] + q[0]] + q[1..]);
              JoinPrefixFirst(s[i..e], q, "");
              JoinEmptyFirst([s[i..e] + q[0]] + q[1..], "");
            }
          }
        case None =>
          ChunksStartAtMatches(s, i + 1);
          var rest := Chunks(s, i + 1);
          forall n | 1 <= n < |c|
            ensures i + |Join(c[..n], "")| == MatchStarts(s, i)[n - 1]
          {
            var q := rest[..n];
            assert c[..n] == [[s[i]] + q[0]] + q[1..];
            JoinConsFirst(s[i], q, "");
          }
      }
    }
  }

  /**
   * The patch only inserts: taking the stubs out again gives back the
   * original, and the stubs go exactly in front of the matches. Chunk `n`
   * (`n >= 1`) starts at the offset of the `n`-th match, and every offset
   * where the pattern matches (see `MatchEndIsLongestMatch`) is such a start.
   */
  lemma PatchInsertsStubs(contents: string, stub: string)
    ensures Join(Chunks(contents, 0), "") == contents
    ensures Join(Chunks(contents, 0), stub) == Patch(contents, stub)
    ensures forall n :: 1 <= n < |Chunks(contents, 0)| ==> |Chunks(contents, 0)[n]| > 0 && Chunks(contents, 0)[n][0] == '}'
    ensures |Chunks(contents, 0)| == |MatchStarts(contents, 0)| + 1
    ensures forall n :: 1 <= n < |Chunks(contents, 0)| ==> |Join(Chunks(contents, 0)[..n], "")| == MatchStarts(contents, 0)[n - 1]
    ensures forall k :: 0 <= k < |contents| ==> (k in MatchStarts(contents, 0) <==> MatchEnd(contents, k).Some?)
  {
    ChunksCoverText(contents, 0);
    ChunksJoinedByStub(contents, stub, 0);
    ChunksStartWithBrace(contents, 0);
    ChunksStartAtMatches(contents, 0);
    MatchStartsAreTheMatches(contents, 0);
  }

  /** A stretch without a match is copied as it is. */
  lemma {:induction false} PatchedSkips(s: string, stub: string, i: nat, j: nat)
    requires i <= j <= |s|
    requires forall k :: i <= k < j ==> MatchEnd(s, k).None?
    ensures Patched(s, stub, i) == s[i..j] + Patched(s, stub, j)
    decreases j - i
  {
    if i < j {
      PatchedSkips(s, stub, i + 1, j);
      assert MatchEnd(s, i).None?;
      calc {
        Patched(s, stub, i);
        [s[i]] + Patched(s, stub, i + 1);
        [s[i]] + (s[i + 1..j] + Patched(s, stub, j));
        { assert s[i..j] == [s[i]] + s[i + 1..j]; }
        s[i..j] + Patched(s, stub, j);
      }
    }
  }

  /**
   * A class whose only line-final brace is the closing one on the last line
   * gets the stub inserted just before that brace.
   */
  lemma ClosingBraceGetsTheStub(body: string, stub: string)
    requires forall k :: 0 <= k < |body| ==> MatchEnd(body + "}\n", k).None?
    ensures Patch(body + "}\n", stub) == body + stub + "}\n"
  {
    var s := body + "}\n";
    PatchedSkips(s, stub, 0, |body|);
    assert s[|body|] == '}';
    assert SpaceRunEnd(s, |body| + 1) == |s|;
    assert MatchEnd(s, |body|) == Some(|s|);
    assert s[0..|body|] == body;
    assert s[|body|..|s|] == "}\n";
  }
}
