/**
 * The string primitives the installer leans on: `Str::startsWith`, `strpos`,
 * `explode`, `implode` and `Str::replace` (PHP's `str_replace`), on strings
 * modelled as sequences of characters.
 */
module Text {
  import opened Wrappers

  /** `Str::startsWith($s, $p)` for one non-empty needle. */
  predicate StartsWith(s: string, p: string)
  {
    |p| <= |s| && s[..|p|] == p
  }

  /** `pat` occurs in `s` at index `i`. */
  predicate OccursAt(s: string, pat: string, i: nat)
  {
    i + |pat| <= |s| && s[i..i + |pat|] == pat
  }

  ghost predicate Contains(s: string, pat: string)
  {
    exists i: nat :: OccursAt(s, pat, i)
  }

  /**
   * `strpos($s, $pat)`: the index of the first occurrence of a non-empty
   * `pat`, or `None` (PHP's `false`) when there is none.
   */
  function FindFirst(s: string, pat: string): (r: Option<nat>)
    requires |pat| > 0
    ensures r.Some? ==> OccursAt(s, pat, r.value)
    ensures r.Some? ==> forall j: nat :: j < r.value ==> !OccursAt(s, pat, j)
    ensures r.None? <==> !Contains(s, pat)
    decreases |s|
  {
    if |s| < |pat| then
      assert forall j: nat :: !OccursAt(s, pat, j);
      None
    else if s[..|pat|] == pat then
      Some(0)
    else
      match FindFirst(s[1..], pat)
      case None =>
        assert forall j: nat :: OccursAt(s, pat, j + 1) ==> OccursAt(s[1..], pat, j) by {
          forall j: nat | OccursAt(s, pat, j + 1) ensures OccursAt(s[1..], pat, j) {
            assert s[1..][j..j + |pat|] == s[j + 1..j + 1 + |pat|];
          }
        }
        assert forall j: nat :: !OccursAt(s, pat, j) by {
          forall j: nat ensures !OccursAt(s, pat, j) {
            if j > 0 { assert !OccursAt(s[1..], pat, j - 1); }
          }
        }
        None
      case Some(k) =>
        assert s[1..][k..k + |pat|] == s[k + 1..k + 1 + |pat|];
        assert OccursAt(s, pat, k + 1);
        assert forall j: nat :: 0 < j <= k ==> !OccursAt(s, pat, j) by {
          forall j: nat | 0 < j <= k ensures !OccursAt(s, pat, j) {
            if OccursAt(s, pat, j) {
              assert s[1..][j - 1..j - 1 + |pat|] == s[j..j + |pat|];
              assert OccursAt(s[1..], pat, j - 1);
            }
          }
        }
        Some(k + 1)
  }

  /** `implode($sep, $parts)`. */
  function Join(parts: seq<string>, sep: string): string
  {
    if |parts| == 0 then ""
    else if |parts| == 1 then parts[0]
    else parts[0] + sep + Join(parts[1..], sep)
  }

  /** `explode($c, $s)` for a one-character delimiter. */
  function Split(s: string, c: char): (parts: seq<string>)
    ensures |parts| >= 1
    decreases |s|
  {
    if |s| == 0 then [""]
    else
      var rest := Split(s[1..], c);
      if s[0] == c then [""] + rest else [[s[0]] + rest[0]] + rest[1..]
  }

  /** Putting a character in front of the first part puts it in front of the joined text. */
  lemma JoinConsFirst(c: char, parts: seq<string>, sep: string)
    requires |parts| >= 1
    ensures Join([[c] + parts[0]] + parts[1..], sep) == [c] + Join(parts, sep)
  {
    var q := [[c] + parts[0]] + parts[1..];
    if |parts| > 1 {
      assert q[1..] == parts[1..];
    }
  }

  /** An empty first part contributes just one separator. */
  lemma JoinEmptyFirst(parts: seq<string>, sep: string)
    requires |parts| >= 1
    ensures Join([""] + parts, sep) == sep + Join(parts, sep)
  {
    assert ([""] + parts)[1..] == parts;
  }

  /** Putting text in front of the first part puts it in front of the joined text. */
  lemma JoinPrefixFirst(x: string, parts: seq<string>, sep: string)
    requires |parts| >= 1
    ensures Join([x + parts[0]] + parts[1..], sep) == x + Join(parts, sep)
  {
    var q := [x + parts[0]] + parts[1..];
    if |parts| > 1 {
      assert q[1..] == parts[1..];
    }
  }

  /**
   * `explode` and `implode` are inverse: the parts contain no delimiter and
   * joining them with it gives back the input.
   */
  lemma {:induction false} SplitJoin(s: string, c: char)
    ensures Join(Split(s, c), [c]) == s
    ensures forall i :: 0 <= i < |Split(s, c)| ==> c !in Split(s, c)[i]
    decreases |s|
  {
    if |s| > 0 {
      var rest := Split(s[1..], c);
      SplitJoin(s[1..], c);
      if s[0] == c {
        JoinEmptyFirst(rest, [c]);
        assert s == [c] + s[1..];
        assert ([""] + rest)[1..] == rest;
      } else {
        JoinConsFirst(s[0], rest, [c]);
        assert s == [s[0]] + s[1..];
        var parts := [[s[0]] + rest[0]] + rest[1..];
        forall i | 0 <= i < |parts| ensures c !in parts[i] {
          if i > 0 { assert parts[i] == rest[i]; }
        }
      }
    }
  }

  /**
   * `str_replace($tok, $rep, $s)`: scanning left to right, every
   * non-overlapping occurrence of `tok` becomes `rep`; an empty `tok`
   * leaves `s` alone.
   */
  function ReplaceAll(s: string, tok: string, rep: string): string
    decreases |s|
  {
    if |tok| == 0 || |s| < |tok| then s
    else if s[..|tok|] == tok then rep + ReplaceAll(s[|tok|..], tok, rep)
    else [s[0]] + ReplaceAll(s[1..], tok, rep)
  }

  /** The text between the occurrences that `ReplaceAll` replaces. */
  function Pieces(s: string, tok: string): (p: seq<string>)
    requires |tok| > 0
    ensures |p| >= 1
    decreases |s|
  {
    if |s| < |tok| then [s]
    else if s[..|tok|] == tok then [""] + Pieces(s[|tok|..], tok)
    else
      var rest := Pieces(s[1..], tok);
      [[s[0]] + rest[0]] + rest[1..]
  }

  /**
   * The input is its pieces joined by the token and the output is the same
   * pieces joined by the replacement: every replaced occurrence becomes
   * `rep` and nothing else changes.
   */
  lemma {:induction false} ReplaceAllPieces(s: string, tok: string, rep: string)
    requires |tok| > 0
    ensures Join(Pieces(s, tok), tok) == s
    ensures Join(Pieces(s, tok), rep) == ReplaceAll(s, tok, rep)
    decreases |s|
  {
    if |s| < |tok| {
    } else if s[..|tok|] == tok {
      var rest := Pieces(s[|tok|..], tok);
      ReplaceAllPieces(s[|tok|..], tok, rep);
      JoinEmptyFirst(rest, tok);
      JoinEmptyFirst(rest, rep);
      assert s == tok + s[|tok|..];
    } else {
      var rest := Pieces(s[1..], tok);
      ReplaceAllPieces(s[1..], tok, rep);
      JoinConsFirst(s[0], rest, tok);
      JoinConsFirst(s[0], rest, rep);
      assert s == [s[0]] + s[1..];
    }
  }

  /** The first piece is a prefix of the input. */
  lemma {:induction false} FirstPieceIsPrefix(s: string, tok: string)
    requires |tok| > 0
    ensures StartsWith(s, Pieces(s, tok)[0])
    decreases |s|
  {
    if |s| >= |tok| && s[..|tok|] != tok {
      FirstPieceIsPrefix(s[1..], tok);
    }
  }

  /** No piece contains the token: the scan replaced every occurrence. */
  lemma {:induction false} PiecesHaveNoToken(s: string, tok: string)
    requires |tok| > 0
    ensures forall i :: 0 <= i < |Pieces(s, tok)| ==> !Contains(Pieces(s, tok)[i], tok)
    decreases |s|
  {
    var p := Pieces(s, tok);
    if |s| < |tok| {
      assert forall j: nat :: !OccursAt(s, tok, j);
    } else if s[..|tok|] == tok {
      PiecesHaveNoToken(s[|tok|..], tok);
      forall i | 0 <= i < |p| ensures !Contains(p[i], tok) {
        if i == 0 {
          assert forall j: nat :: !OccursAt(p[0], tok, j);
        } else {
          assert p[i] == Pieces(s[|tok|..], tok)[i - 1];
        }
      }
    } else {
      var rest := Pieces(s[1..], tok);
      PiecesHaveNoToken(s[1..], tok);
      FirstPieceIsPrefix(s[1..], tok);
      forall i | 0 <= i < |p| ensures !Contains(p[i], tok) {
        if i == 0 {
          var first := [s[0]] + rest[0];
          assert first == s[..|first|];
          forall j: nat ensures !OccursAt(first, tok, j) {
            if j > 0 && OccursAt(first, tok, j) {
              assert first[j..j + |tok|] == rest[0][j - 1..j - 1 + |tok|];
              assert OccursAt(rest[0], tok, j - 1);
            }
          }
        } else {
          assert p[i] == rest[i];
        }
      }
    }
  }

  /** Text without an occurrence of the token comes back unchanged. */
  lemma {:induction false} ReplaceAllAbsent(s: string, tok: string, rep: string)
    requires !Contains(s, tok)
    ensures ReplaceAll(s, tok, rep) == s
    decreases |s|
  {
    if |tok| > 0 && |s| >= |tok| {
      assert !OccursAt(s, tok, 0);
      forall j: nat ensures !OccursAt(s[1..], tok, j) {
        if OccursAt(s[1..], tok, j) {
          assert s[j + 1..j + 1 + |tok|] == s[1..][j..j + |tok|];
          assert OccursAt(s, tok, j + 1);
        }
      }
      ReplaceAllAbsent(s[1..], tok, rep);
      assert s == [s[0]] + s[1..];
    }
  }
}
